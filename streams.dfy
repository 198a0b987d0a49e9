/** The in-memory stream and the buffered text writer the MySQL bulk
    insert writes its CSV through: .NET's `MemoryStream` and a
    `StreamWriter` over it with UTF-8, a 1024-character buffer and the
    stream left open, as far as that code uses them. */
module Streams {
  import opened Results
  import opened Domain
  import Text

  /** The writer's `bufferSize`: how many characters it holds before
      encoding them into the stream. */
  const BufferSize: nat := 1024

  /** What the stream holds: the UTF-8 preamble (the byte order mark), or
      the encoded bytes of one character. */
  datatype Unit = Preamble | Coded(c: char)

  function Encode(s: string): (u: seq<Unit>)
    ensures |u| == |s|
  {
    if s == [] then [] else [Coded(s[0])] + Encode(s[1..])
  }

  lemma {:induction false} EncodeAppend(a: string, b: string)
    ensures Encode(a + b) == Encode(a) + Encode(b)
  {
    if a != [] {
      assert (a + b)[1..] == a[1..] + b;
      EncodeAppend(a[1..], b);
    } else {
      assert a + b == b;
    }
  }

  /** U+FEFF, the character the UTF-8 preamble encodes. */
  const ByteOrderMark: char := '\U{FEFF}'

  /** The text of a stream as a reader that keeps the preamble sees it:
      the byte order mark reads as U+FEFF. */
  function TextOf(u: seq<Unit>): (s: string)
    ensures |s| == |u|
  {
    if u == [] then [] else [if u[0].Preamble? then ByteOrderMark else u[0].c] + TextOf(u[1..])
  }

  /** Encoding loses nothing: the characters read back. */
  lemma {:induction false} TextOfEncode(s: string)
    ensures TextOf(Encode(s)) == s
  {
    if s != [] {
      TextOfEncode(s[1..]);
    }
  }

  /** What a closed MemoryStream throws on any read, write or seek. */
  const StreamClosed: Exception := Exception(ObjectDisposed, "Cannot access a closed Stream.")

  /** How many of the first n characters given to the writer have reached
      the stream when it has not been flushed: a full buffer is encoded
      only when the next character arrives. */
  function FlushedLength(n: nat): (f: nat)
    ensures f <= n
    ensures f % BufferSize == 0
  {
    if n <= BufferSize then 0 else BufferSize + FlushedLength(n - BufferSize)
  }

  /** Whatever was written, the last 1 to 1024 characters are still in
      the buffer. */
  lemma {:induction false} FlushedLengthBounds(n: nat)
    ensures n >= 1 ==> 1 <= n - FlushedLength(n) <= BufferSize
    ensures n <= BufferSize ==> FlushedLength(n) == 0
  {
    if n > BufferSize {
      FlushedLengthBounds(n - BufferSize);
    }
  }

  /** One more character flushes the buffer exactly when it is full. */
  lemma {:induction false} FlushedLengthStep(n: nat)
    ensures FlushedLength(n + 1) == if n >= 1 && n - FlushedLength(n) == BufferSize then n else FlushedLength(n)
  {
    if n > BufferSize {
      FlushedLengthStep(n - BufferSize);
    }
  }

  /** The stream a writer leaves behind when it was given `text` and never
      flushed: the preamble and the flushed characters, or nothing while
      the first buffer has not been flushed. */
  function LazyStream(text: string): seq<Unit> {
    if FlushedLength(|text|) == 0 then [] else [Preamble] + Encode(text[..FlushedLength(|text|)])
  }

  /** What a writer's stream holds, given what it was told and what it
      still buffers: the preamble (once it has gone out) and every
      character except the buffered ones, which are the last ones. */
  ghost predicate Consistent(data: seq<Unit>, buffer: string, preambleWritten: bool, text: string) {
    |buffer| <= BufferSize && |buffer| <= |text| && buffer == text[|text| - |buffer|..] &&
    data == (if preambleWritten then [Preamble] else []) + Encode(text[..|text| - |buffer|]) &&
    (!preambleWritten ==> |buffer| == |text|)
  }

  /** The units a flush writes: the preamble if it has not gone out, then
      the buffered characters. */
  function FlushUnits(buffer: string, preambleWritten: bool): seq<Unit> {
    (if preambleWritten then [] else [Preamble]) + Encode(buffer)
  }

  lemma {:induction false} FlushAppends(data: seq<Unit>, done: string, buffer: string, preambleWritten: bool)
    requires data == (if preambleWritten then [Preamble] else []) + Encode(done)
    requires !preambleWritten ==> done == []
    ensures data + FlushUnits(buffer, preambleWritten) == [Preamble] + Encode(done + buffer)
  {
    EncodeAppend(done, buffer);
    if preambleWritten {
      assert data + [] == [Preamble] + Encode(done);
    } else {
      assert data == [];
      assert [] + [Preamble] + Encode(buffer) == [Preamble] + Encode(buffer);
    }
  }

  /** After a flush the stream holds the preamble and everything given. */
  lemma {:induction false} FlushCompletes(data: seq<Unit>, buffer: string, preambleWritten: bool, text: string)
    requires Consistent(data, buffer, preambleWritten, text)
    ensures data + FlushUnits(buffer, preambleWritten) == [Preamble] + Encode(text)
    ensures Consistent([Preamble] + Encode(text), [], true, text)
  {
    var done := text[..|text| - |buffer|];
    assert text == done + buffer;
    FlushAppends(data, done, buffer, preambleWritten);
    assert text[..|text| - 0] == text;
  }

  /** A character buffered while there is room keeps the stream as it is. */
  lemma {:induction false} BufferKeeps(data: seq<Unit>, buffer: string, preambleWritten: bool, text: string, c: char)
    requires Consistent(data, buffer, preambleWritten, text) && |buffer| < BufferSize
    ensures Consistent(data, buffer + [c], preambleWritten, text + [c])
  {
    var t := text + [c];
    assert t[..|t| - |buffer + [c]|] == text[..|text| - |buffer|];
    assert t[|t| - |buffer + [c]|..] == buffer + [c];
  }

  /** The lazy flushing rule holds after one more character: a full
      buffer is flushed before it, and only then. */
  lemma LazyStep(buffer: string, preambleWritten: bool, text: string, c: char)
    requires |buffer| <= |text| && |text| - |buffer| == FlushedLength(|text|)
    requires preambleWritten <==> FlushedLength(|text|) > 0
    requires |buffer| <= BufferSize
    ensures var full := |buffer| == BufferSize;
      var b := if full then [c] else buffer + [c];
      var pw := full || preambleWritten;
      |text + [c]| - |b| == FlushedLength(|text + [c]|) && (pw <==> FlushedLength(|text + [c]|) > 0)
  {
    FlushedLengthStep(|text|);
    FlushedLengthBounds(|text|);
  }

  /** The bytes of a stream after `units` are written at position p: those
      before p, the units, and whatever lay beyond them. */
  function Overwrite(data: seq<Unit>, p: nat, units: seq<Unit>): (r: seq<Unit>)
    requires p <= |data|
    ensures |r| == if p + |units| < |data| then |data| else p + |units|
    ensures p == |data| ==> r == data + units
  {
    data[..p] + units + (if p + |units| < |data| then data[p + |units|..] else [])
  }

  /** `MemoryStream`: its bytes, its position, and whether it has been
      closed. */
  class MemoryStream {
    var data: seq<Unit>
    var position: nat
    var closed: bool

    ghost predicate Valid()
      reads this
    {
      position <= |data|
    }

    constructor ()
      ensures Valid() && data == [] && position == 0 && !closed
    {
      data := [];
      position := 0;
      closed := false;
    }

    /** `Write`: the units overwrite the stream from the position on and
        the position moves past them; a closed stream throws. */
    method Write(units: seq<Unit>) returns (fault: Option<Exception>)
      requires Valid()
      modifies this
      ensures Valid() && closed == old(closed)
      ensures fault == if old(closed) then Some(StreamClosed) else None
      ensures old(closed) ==> data == old(data) && position == old(position)
      ensures !old(closed) ==> data == Overwrite(old(data), old(position), units) && position == old(position) + |units|
    {
      if closed {
        return Some(StreamClosed);
      }
      data := Overwrite(data, position, units);
      position := position + |units|;
      fault := None;
    }

    /** `Position = 0`. */
    method Rewind() returns (fault: Option<Exception>)
      requires Valid()
      modifies this
      ensures Valid() && closed == old(closed) && data == old(data)
      ensures fault == if old(closed) then Some(StreamClosed) else None
      ensures position == if old(closed) then old(position) else 0
    {
      if closed {
        return Some(StreamClosed);
      }
      position := 0;
      fault := None;
    }

    /** A reader taking everything from the position to the end. */
    method ReadToEnd() returns (units: seq<Unit>, fault: Option<Exception>)
      requires Valid()
      modifies this
      ensures Valid() && closed == old(closed) && data == old(data)
      ensures fault == if old(closed) then Some(StreamClosed) else None
      ensures units == if old(closed) then [] else old(data[position..])
      ensures position == if old(closed) then old(position) else |data|
    {
      if closed {
        return [], Some(StreamClosed);
      }
      units := data[position..];
      position := |data|;
      fault := None;
    }

    /** `Close` (and `Dispose`): the bytes stay, every later access throws. */
    method Close()
      modifies this
      ensures closed && data == old(data) && position == old(position)
    {
      closed := true;
    }
  }

  /** `StreamWriter` over a MemoryStream: the characters not yet encoded,
      whether the preamble has gone out, and (as a ghost) every character
      it has been given. */
  class StreamWriter {
    const stream: MemoryStream
    var buffer: string
    var preambleWritten: bool
    ghost var text: string

    /** While the stream is open and written at its end, it holds the
        preamble (once it has gone out) and every character given except
        those still buffered, which are the last ones. */
    ghost predicate Valid()
      reads this, stream
    {
      stream.Valid() && !stream.closed && stream.position == |stream.data| &&
      Consistent(stream.data, buffer, preambleWritten, text)
    }

    /** Only full buffers have been flushed, each when the character after
        it arrived. */
    ghost predicate Lazy()
      reads this
    {
      |text| - |buffer| == FlushedLength(|text|) && (preambleWritten <==> FlushedLength(|text|) > 0)
    }

    /** A writer over a new stream: it will write the preamble first. */
    constructor (s: MemoryStream)
      requires s.Valid() && !s.closed && s.data == [] && s.position == 0
      ensures stream == s && text == [] && buffer == [] && !preambleWritten
      ensures Valid() && Lazy()
    {
      stream := s;
      buffer := [];
      preambleWritten := false;
      text := [];
    }

    /** An unflushed writer has put exactly the lazily flushed prefix into
        its stream. */
    lemma LazyContents()
      requires Valid() && Lazy()
      ensures stream.data == LazyStream(text)
    {
    }

    /** `Flush(flushStream, flushEncoder)`: the preamble if it has not gone
        out, then the buffered characters, in one write that is skipped
        when there is nothing to write. The flag and the buffer are reset
        before the write, as .NET does. */
    method FlushBuffer() returns (fault: Option<Exception>)
      requires stream.Valid()
      modifies this, stream
      ensures stream.Valid() && stream.closed == old(stream.closed)
      ensures buffer == [] && preambleWritten && text == old(text)
      ensures var units := FlushUnits(old(buffer), old(preambleWritten));
        fault == (if old(stream.closed) && units != [] then Some(StreamClosed) else None) &&
        (old(stream.closed) ==> stream.data == old(stream.data)) &&
        (!old(stream.closed) && old(stream.position) == old(|stream.data|) ==>
           stream.data == old(stream.data) + units && stream.position == |stream.data|)
    {
      var units := FlushUnits(buffer, preambleWritten);
      preambleWritten := true;
      buffer := [];
      fault := None;
      if units != [] {
        fault := stream.Write(units);
      }
    }

    /** The flush `Write(char)` starts with: a full buffer goes out. */
    method FlushIfFull()
      requires Valid()
      modifies this, stream
      ensures Valid() && text == old(text) && |buffer| < BufferSize
      ensures |old(buffer)| == BufferSize ==> buffer == [] && preambleWritten
      ensures |old(buffer)| < BufferSize ==> buffer == old(buffer) && preambleWritten == old(preambleWritten)
    {
      if |buffer| == BufferSize {
        FlushCompletes(stream.data, buffer, preambleWritten, text);
        var _ := FlushBuffer();
      }
    }

    /** A character put into a buffer with room for it. */
    method BufferChar(c: char)
      requires Valid() && |buffer| < BufferSize
      modifies this
      ensures Valid() && text == old(text) + [c]
      ensures buffer == old(buffer) + [c] && preambleWritten == old(preambleWritten)
    {
      BufferKeeps(stream.data, buffer, preambleWritten, text, c);
      buffer := buffer + [c];
      text := text + [c];
    }

    /** `Write(char)`: a full buffer is flushed first, then the character
        is buffered. */
    method WriteChar(c: char)
      requires Valid()
      modifies this, stream
      ensures Valid() && text == old(text) + [c]
      ensures old(Lazy()) ==> Lazy()
    {
      if Lazy() {
        LazyStep(buffer, preambleWritten, text, c);
      }
      FlushIfFull();
      BufferChar(c);
    }

    /** `WriteLine(string)`: the characters of the line, then the line
        end of the platform, "\n". */
    method WriteLine(s: string)
      requires Valid()
      modifies this, stream
      ensures Valid() && text == old(text) + s + "\n"
      ensures old(Lazy()) ==> Lazy()
    {
      ghost var text0, lazy0 := text, Lazy();
      var i := 0;
      while i < |s|
        invariant 0 <= i <= |s|
        invariant Valid() && text == text0 + s[..i]
        invariant lazy0 ==> Lazy()
      {
        WriteChar(s[i]);
        assert s[..i + 1] == s[..i] + [s[i]];
        Text.ConcatAssoc(text0, s[..i], [s[i]]);
        i := i + 1;
      }
      assert s[..i] == s;
      WriteChar('\n');
    }

    /** `Flush()`: everything given is in the stream, after the preamble. */
    method Flush()
      requires Valid()
      modifies this, stream
      ensures Valid() && text == old(text) && buffer == [] && preambleWritten
      ensures stream.data == [Preamble] + Encode(text)
    {
      FlushCompletes(stream.data, buffer, preambleWritten, text);
      var _ := FlushBuffer();
    }

    /** `Dispose`: `Flush(true, true)`, which leaves the stream open. On a
        closed stream it throws exactly when it still has something to
        write: the preamble or buffered characters. */
    method Dispose() returns (fault: Option<Exception>)
      requires stream.Valid()
      modifies this, stream
      ensures stream.closed == old(stream.closed)
      ensures fault == if old(stream.closed) && (old(buffer) != [] || !old(preambleWritten)) then Some(StreamClosed) else None
    {
      fault := FlushBuffer();
    }
  }
}
