/** `ITCentral.Common.Encryption`: the SHA-256 hex digest of a string, the
    AES-256 key derived from it, and the framing of an AES ciphertext behind
    its initialisation vector in Base64. SHA-256 (FIPS 180-4), AES-256
    (FIPS 197), Base64 (RFC 4648 section 4) and UTF-8 are the runtime's and
    enter as uninterpreted functions; the hex codec and the framing are
    modelled. */
module Encryption {
  import opened Results
  import opened Domain
  import Streams

  newtype byte = x: int | 0 <= x < 256

  /** A SHA-256 digest: 32 bytes. */
  type Digest = s: seq<byte> | |s| == 32 witness seq(32, _ => 0 as byte)

  /** An AES initialisation vector for the 128-bit block: 16 bytes. */
  type Block = s: seq<byte> | |s| == 16 witness seq(16, _ => 0 as byte)

  /** The runtime calls `Encryption` makes. `encrypt(key, iv, plain)` is
      the `CryptoStream` over `aes.CreateEncryptor()`; `decrypt(key, iv,
      cipher)` reads the stream over `aes.CreateDecryptor()` and may throw
      (a wrong padding, a cipher that is not whole blocks). */
  datatype Library = Library(
    utf8: string -> seq<byte>,
    utf8Decode: seq<byte> -> string,
    sha256: seq<byte> -> Digest,
    encrypt: (seq<byte>, Block, seq<byte>) -> seq<byte>,
    decrypt: (seq<byte>, Block, seq<byte>) -> Completion<seq<byte>>,
    toBase64: seq<byte> -> string,
    fromBase64: string -> Completion<seq<byte>>)

  // -------------------------------------------------------------------
  // Hex.

  const HexDigits: string := "0123456789abcdef"

  predicate IsLowerHex(s: string) {
    forall i :: 0 <= i < |s| ==> s[i] in HexDigits
  }

  /** `b.ToString("x2")`. */
  function Hex2(b: byte): (s: string)
    ensures |s| == 2 && IsLowerHex(s)
  {
    [HexDigits[b / 16], HexDigits[b % 16]]
  }

  /** What `GetStringFromByteArray` returns: every byte as two lowercase
      hex digits, in order. */
  function HexOf(bytes: seq<byte>): (s: string)
    ensures |s| == 2 * |bytes| && IsLowerHex(s)
  {
    if bytes == [] then [] else HexOf(bytes[..|bytes| - 1]) + Hex2(bytes[|bytes| - 1])
  }

  /** The value of a hex digit as `Convert.ToByte(_, 16)` reads it, either
      case. */
  function HexValue(c: char): Option<nat> {
    if '0' <= c <= '9' then Some(c as int - '0' as int)
    else if 'a' <= c <= 'f' then Some(c as int - 'a' as int + 10)
    else if 'A' <= c <= 'F' then Some(c as int - 'A' as int + 10)
    else None
  }

  /** `Convert.ToByte(s, 16)` on the two-character substrings it is given
      here: a `FormatException` unless both are hex digits. */
  function ToByte16(s: string): (r: Completion<byte>)
    requires |s| == 2
    ensures r.Returned? <==> HexValue(s[0]).Some? && HexValue(s[1]).Some?
    ensures r.Returned? ==> r.value as int == 16 * HexValue(s[0]).value + HexValue(s[1]).value
  {
    match (HexValue(s[0]), HexValue(s[1]))
    case (Some(h), Some(l)) => Returned((16 * h + l) as byte)
    case _ => Threw(Exception(Format, "Could not find any recognizable digits."))
  }

  /** Hex digits read back as the byte they were written from. */
  lemma Hex2RoundTrip(b: byte)
    ensures ToByte16(Hex2(b)) == Returned(b)
  {
    var h, l := (b / 16) as int, (b % 16) as int;
    HexDigitValue(h);
    HexDigitValue(l);
    assert b as int == 16 * h + l;
  }

  lemma HexDigitValue(d: int)
    requires 0 <= d < 16
    ensures HexValue(HexDigits[d]) == Some(d)
  {
    if d < 10 {
      assert HexDigits[d] as int == '0' as int + d;
    } else {
      assert HexDigits[d] as int == 'a' as int + d - 10;
    }
  }

  /** Characters 2i and 2i + 1 of `HexOf(bytes)` are byte i's. */
  lemma {:induction false} HexOfPair(bytes: seq<byte>, i: int)
    requires 0 <= i < |bytes|
    ensures HexOf(bytes)[2 * i..2 * i + 2] == Hex2(bytes[i])
    decreases |bytes|
  {
    var front := bytes[..|bytes| - 1];
    assert HexOf(bytes) == HexOf(front) + Hex2(bytes[|bytes| - 1]);
    if i < |bytes| - 1 {
      HexOfPair(front, i);
      assert HexOf(bytes)[2 * i..2 * i + 2] == HexOf(front)[2 * i..2 * i + 2];
    } else {
      assert HexOf(bytes)[2 * i..2 * i + 2] == HexOf(bytes)[|HexOf(front)|..];
    }
  }

  /** Decoding `HexOf(bytes)` pair by pair gives `bytes` back. */
  lemma HexRoundTrip(bytes: seq<byte>)
    ensures forall i :: 0 <= i < |bytes| ==> ToByte16(HexOf(bytes)[2 * i..2 * i + 2]) == Returned(bytes[i])
  {
    forall i | 0 <= i < |bytes|
      ensures ToByte16(HexOf(bytes)[2 * i..2 * i + 2]) == Returned(bytes[i])
    {
      HexOfPair(bytes, i);
      Hex2RoundTrip(bytes[i]);
    }
  }

  /** So the hex form tells byte strings apart. */
  lemma HexOfInjective(a: seq<byte>, b: seq<byte>)
    requires HexOf(a) == HexOf(b)
    ensures a == b
  {
    HexRoundTrip(a);
    HexRoundTrip(b);
    forall i | 0 <= i < |a|
      ensures a[i] == b[i]
    {
      assert ToByte16(HexOf(a)[2 * i..2 * i + 2]) == Returned(a[i]);
    }
  }

  /** `GetStringFromByteArray`: a `StringBuilder` appended with each
      byte's two hex digits. */
  method GetStringFromByteArray(bytes: array<byte>) returns (s: string)
    ensures s == HexOf(bytes[..])
    ensures |s| == 2 * bytes.Length && IsLowerHex(s)
  {
    var builder := "";
    for i := 0 to bytes.Length
      invariant builder == HexOf(bytes[..i])
    {
      assert bytes[..i + 1][..i] == bytes[..i];
      builder := builder + Hex2(bytes[i]);
    }
    assert bytes[..bytes.Length] == bytes[..];
    s := builder;
  }

  /** `Sha256(data)`: the hex form of the digest of the UTF-8 bytes. */
  function Sha256(lib: Library, data: string): (h: string)
    ensures |h| == 64 && IsLowerHex(h)
  {
    HexOf(lib.sha256(lib.utf8(data)))
  }

  /** The key `GetByteArrayFromHash` derives: the digest itself. */
  function KeyOf(lib: Library, secret: string): Digest {
    lib.sha256(lib.utf8(secret))
  }

  /** `GetByteArrayFromHash`: the 32 hex pairs of `Sha256(input)` parsed
      back into a fresh 32-byte array, which holds the digest's own
      bytes. */
  method GetByteArrayFromHash(lib: Library, input: string) returns (hashBytes: array<byte>)
    ensures hashBytes.Length == 32 && hashBytes[..] == KeyOf(lib, input)
    ensures forall i :: 0 <= i < 32 ==> ToByte16(Sha256(lib, input)[2 * i..2 * i + 2]) == Returned(hashBytes[i])
  {
    var hashString := Sha256(lib, input);
    ghost var digest := KeyOf(lib, input);
    hashBytes := new byte[32];
    for i := 0 to hashBytes.Length
      invariant hashBytes[..i] == digest[..i]
    {
      HexOfPair(digest, i);
      Hex2RoundTrip(digest[i]);
      var parsed := ToByte16(hashString[i * 2..i * 2 + 2]);
      hashBytes[i] := parsed.value;
      SliceStep(hashBytes[..], digest, i);
    }
    assert hashBytes[..] == hashBytes[..32];
    HexRoundTrip(digest);
  }

  /** Two sequences that agree up to i and at i agree up to i + 1. */
  lemma SliceStep(a: seq<byte>, b: seq<byte>, i: int)
    requires 0 <= i < |a| && i < |b| && a[..i] == b[..i] && a[i] == b[i]
    ensures a[..i + 1] == b[..i + 1]
  {
    assert a[..i + 1] == a[..i] + [a[i]];
    assert b[..i + 1] == b[..i] + [b[i]];
  }

  // -------------------------------------------------------------------
  // The IV framing.

  /** `Take(n)` and `Skip(n)` on a byte sequence. */
  function Take(s: seq<byte>, n: nat): seq<byte> {
    if n <= |s| then s[..n] else s
  }

  function Skip(s: seq<byte>, n: nat): seq<byte> {
    if n <= |s| then s[n..] else []
  }

  /** `SymmetricEncryptAES256(input, authSecret)` with the IV that
      `aes.GenerateIV()` produced: Base64 of the IV followed by the
      cipher. */
  function SymmetricEncryptAES256(lib: Library, input: string, authSecret: string, iv: Block): string {
    lib.toBase64(iv + lib.encrypt(KeyOf(lib, authSecret), iv, lib.utf8(input)))
  }

  const BadIVMessage: string := "Specified initialization vector (IV) does not match the block size for this algorithm."

  /** `SymmetricDecryptAES256(input, authSecret)`: the first 16 bytes of
      the decoded frame are the IV, the rest the cipher. Setting `aes.IV`
      to fewer than 16 bytes throws. */
  function SymmetricDecryptAES256(lib: Library, input: string, authSecret: string): Completion<string> {
    match lib.fromBase64(input)
    case Threw(ex) => Threw(ex)
    case Returned(fullCipher) =>
      var iv := Take(fullCipher, 16);
      var cipherBytes := Skip(fullCipher, 16);
      if |iv| != 16 then Threw(Exception(Cryptographic, BadIVMessage))
      else
        match lib.decrypt(KeyOf(lib, authSecret), iv, cipherBytes)
        case Threw(ex) => Threw(ex)
        case Returned(plain) => Returned(ReadToEnd(lib, plain))
  }

  /** The three bytes UTF-8 gives the byte order mark U+FEFF. */
  const Utf8Mark: seq<byte> := [0xEF, 0xBB, 0xBF]

  predicate StartsWithUtf8Mark(bytes: seq<byte>) {
    |bytes| >= 3 && bytes[..3] == Utf8Mark
  }

  /** `ReadToEnd` of a `StreamReader` over the decrypted bytes: it detects
      byte order marks, so a leading UTF-8 mark is consumed and only the
      rest is decoded. */
  function ReadToEnd(lib: Library, plain: seq<byte>): (text: string)
    ensures StartsWithUtf8Mark(plain) ==> text == lib.utf8Decode(plain[3..])
    ensures !StartsWithUtf8Mark(plain) ==> text == lib.utf8Decode(plain)
  {
    if StartsWithUtf8Mark(plain) then lib.utf8Decode(plain[3..]) else lib.utf8Decode(plain)
  }

  /** Splitting a frame at 16 bytes recovers the IV and the cipher. */
  lemma FrameSplit(iv: Block, cipher: seq<byte>)
    ensures Take(iv + cipher, 16) == iv && Skip(iv + cipher, 16) == cipher
  {
    assert (iv + cipher)[..16] == iv;
    assert (iv + cipher)[16..] == cipher;
  }

  /** And every frame of 16 bytes or more is such a pair. */
  lemma FrameJoin(frame: seq<byte>)
    requires |frame| >= 16
    ensures |Take(frame, 16)| == 16 && Take(frame, 16) + Skip(frame, 16) == frame
  {
    assert frame[..16] + frame[16..] == frame;
  }

  /** A frame shorter than one IV cannot be decrypted. */
  lemma ShortFrameThrows(lib: Library, input: string, authSecret: string)
    requires lib.fromBase64(input).Returned? && |lib.fromBase64(input).value| < 16
    ensures SymmetricDecryptAES256(lib, input, authSecret) == Threw(Exception(Cryptographic, BadIVMessage))
  {
  }

  /** Reading back the UTF-8 encoding of a text gives the text, less a
      leading U+FEFF, which the reader takes for a byte order mark. */
  lemma ReadEncoded(lib: Library, input: string)
    requires forall s :: lib.utf8Decode(lib.utf8(s)) == s
    requires forall s :: lib.utf8([Streams.ByteOrderMark] + s) == Utf8Mark + lib.utf8(s)
    requires forall s :: (|s| == 0 || s[0] != Streams.ByteOrderMark) ==> !StartsWithUtf8Mark(lib.utf8(s))
    ensures (|input| == 0 || input[0] != Streams.ByteOrderMark) ==> ReadToEnd(lib, lib.utf8(input)) == input
    ensures |input| >= 1 && input[0] == Streams.ByteOrderMark ==> ReadToEnd(lib, lib.utf8(input)) == input[1..]
  {
    if |input| >= 1 && input[0] == Streams.ByteOrderMark {
      var plain := lib.utf8(input);
      assert input == [Streams.ByteOrderMark] + input[1..];
      assert plain == Utf8Mark + lib.utf8(input[1..]);
      assert plain[..3] == Utf8Mark && plain[3..] == lib.utf8(input[1..]);
    }
  }

  /** Decrypting an encryption with the same secret reads back the bytes
      UTF-8 gave the input, whatever IV was generated, given that Base64
      and AES undo themselves. */
  lemma DecryptFrame(lib: Library, input: string, authSecret: string, iv: Block)
    requires forall b :: lib.fromBase64(lib.toBase64(b)) == Returned(b)
    requires forall k, v, p :: lib.decrypt(k, v, lib.encrypt(k, v, p)) == Returned(p)
    ensures SymmetricDecryptAES256(lib, SymmetricEncryptAES256(lib, input, authSecret, iv), authSecret)
      == Returned(ReadToEnd(lib, lib.utf8(input)))
  {
    var key := KeyOf(lib, authSecret);
    var cipher := lib.encrypt(key, iv, lib.utf8(input));
    assert lib.fromBase64(lib.toBase64(iv + cipher)) == Returned(iv + cipher);
    FrameSplit(iv, cipher);
    assert lib.decrypt(key, iv, cipher) == Returned(lib.utf8(input));
  }

  /** Decryption undoes encryption under the same secret, given also that
      UTF-8 undoes itself and starts an encoding with the mark's bytes
      exactly when the text starts with U+FEFF. A leading U+FEFF is the
      one character that does not come back. */
  lemma EncryptDecrypt(lib: Library, input: string, authSecret: string, iv: Block)
    requires forall b :: lib.fromBase64(lib.toBase64(b)) == Returned(b)
    requires forall k, v, p :: lib.decrypt(k, v, lib.encrypt(k, v, p)) == Returned(p)
    requires forall s :: lib.utf8Decode(lib.utf8(s)) == s
    requires forall s :: lib.utf8([Streams.ByteOrderMark] + s) == Utf8Mark + lib.utf8(s)
    requires forall s :: (|s| == 0 || s[0] != Streams.ByteOrderMark) ==> !StartsWithUtf8Mark(lib.utf8(s))
    ensures (|input| == 0 || input[0] != Streams.ByteOrderMark) ==>
      SymmetricDecryptAES256(lib, SymmetricEncryptAES256(lib, input, authSecret, iv), authSecret) == Returned(input)
    ensures |input| >= 1 && input[0] == Streams.ByteOrderMark ==>
      SymmetricDecryptAES256(lib, SymmetricEncryptAES256(lib, input, authSecret, iv), authSecret) == Returned(input[1..])
  {
    DecryptFrame(lib, input, authSecret, iv);
    ReadEncoded(lib, input);
  }
}
