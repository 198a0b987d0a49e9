/** Text helpers shared by the SQL builders: decimal formatting of integers
    (C# string interpolation of an `int`) with its parser, `String.Split`
    on a one-character separator, `String.Join`, ASCII upper-casing, and the
    append-only `StringBuilder`. */
module Text {
  import opened Results

  /** The line end written by `AppendLine` and `WriteLine`. */
  const NewLine: string := "\n"

  predicate IsDigit(c: char) {
    '0' <= c <= '9'
  }

  predicate AllDigits(s: string) {
    forall i :: 0 <= i < |s| ==> IsDigit(s[i])
  }

  function DigitChar(d: nat): (c: char)
    requires d < 10
    ensures IsDigit(c) && c as int - '0' as int == d
  {
    ('0' as int + d) as char
  }

  function DigitValue(c: char): (d: nat)
    requires IsDigit(c)
    ensures d < 10
  {
    c as int - '0' as int
  }

  /** Decimal digits of n, most significant first, without leading zeros. */
  function NatToString(n: nat): (s: string)
    ensures |s| >= 1 && AllDigits(s)
    ensures n >= 10 ==> |s| >= 2
  {
    if n < 10 then [DigitChar(n)] else NatToString(n / 10) + [DigitChar(n % 10)]
  }

  /** `{i}` in a C# interpolated string: a minus sign for negative values,
      then the decimal digits. */
  function IntToString(i: int): (s: string)
    ensures |s| >= 1
    ensures s[0] == '-' <==> i < 0
    ensures i >= 0 ==> AllDigits(s)
  {
    if i < 0 then "-" + NatToString(-i) else NatToString(i)
  }

  /** The number that a string of decimal digits denotes. */
  function DigitsValue(s: string): nat
    requires AllDigits(s)
  {
    if s == [] then 0 else DigitsValue(s[..|s| - 1]) * 10 + DigitValue(s[|s| - 1])
  }

  lemma {:induction false} NatToStringValue(n: nat)
    ensures DigitsValue(NatToString(n)) == n
  {
    if n >= 10 {
      NatToStringValue(n / 10);
      var s := NatToString(n);
      assert s[..|s| - 1] == NatToString(n / 10);
    }
  }

  /** The longest prefix of s made of decimal digits. */
  function LeadingDigits(s: string): (d: string)
    ensures AllDigits(d) && d <= s
    ensures |d| < |s| ==> !IsDigit(s[|d|])
  {
    if s == [] || !IsDigit(s[0]) then [] else [s[0]] + LeadingDigits(s[1..])
  }

  lemma {:induction false} LeadingDigitsOf(d: string, rest: string)
    requires AllDigits(d)
    requires rest == [] || !IsDigit(rest[0])
    ensures LeadingDigits(d + rest) == d
  {
    if d != [] {
      assert (d + rest)[1..] == d[1..] + rest;
      LeadingDigitsOf(d[1..], rest);
    }
  }

  /** Reads an optional minus sign and a non-empty run of digits from the
      front of s; returns the integer read and what follows it. */
  function ParseIntPrefix(s: string): (r: Option<(int, string)>)
    ensures r.Some? ==> |r.value.1| < |s|
  {
    var negative := |s| > 0 && s[0] == '-';
    var body := if negative then s[1..] else s;
    var digits := LeadingDigits(body);
    if digits == [] then None
    else
      var magnitude: int := DigitsValue(digits);
      Some((if negative then -magnitude else magnitude, body[|digits|..]))
  }

  /** Reading a run of digits back, whether or not a sign precedes it. */
  lemma ReadDigits(n: nat, body: string, rest: string)
    requires body == NatToString(n) + rest
    requires rest == [] || !IsDigit(rest[0])
    ensures LeadingDigits(body) == NatToString(n)
    ensures DigitsValue(NatToString(n)) == n
    ensures body[|NatToString(n)|..] == rest
  {
    NatToStringValue(n);
    LeadingDigitsOf(NatToString(n), rest);
  }

  /** The unsigned run `NatToString(n) + rest` reads back as n. */
  lemma ParseNatPrefix(n: nat, rest: string)
    requires rest == [] || !IsDigit(rest[0])
    ensures ParseIntPrefix(NatToString(n) + rest) == Some((n, rest))
  {
    var s := NatToString(n) + rest;
    assert s[0] != '-';
    ReadDigits(n, s, rest);
  }

  /** A minus sign then `NatToString(-i) + rest` reads back as i. */
  lemma ParseNegativePrefix(i: int, rest: string)
    requires i < 0
    requires rest == [] || !IsDigit(rest[0])
    ensures ParseIntPrefix("-" + (NatToString(-i) + rest)) == Some((i, rest))
  {
    var tail := NatToString(-i) + rest;
    var s := "-" + tail;
    DropFront("-", tail);
    assert s[0] == '-' && s[1..] == tail;
    ReadDigits(-i, tail, rest);
  }

  /** Formatting then reading an integer gives the integer back, whatever
      follows it, provided what follows does not start with a digit. */
  lemma ParseIntToString(i: int, rest: string)
    requires rest == [] || !IsDigit(rest[0])
    ensures ParseIntPrefix(IntToString(i) + rest) == Some((i, rest))
  {
    if i < 0 {
      ConcatAssoc("-", NatToString(-i), rest);
      ParseNegativePrefix(i, rest);
    } else {
      ParseNatPrefix(i, rest);
    }
  }

  /** Distinct integers are formatted as distinct strings. */
  lemma IntToStringInjective(a: int, b: int)
    requires IntToString(a) == IntToString(b)
    ensures a == b
  {
    ParseIntToString(a, []);
    ParseIntToString(b, []);
    assert IntToString(a) + [] == IntToString(a);
    assert IntToString(b) + [] == IntToString(b);
  }

  // ---------------------------------------------------------------------
  // Templates: literal text with integers interleaved.

  /** segments[0] + ints[0] + segments[1] + ... + ints[n-1] + segments[n]. */
  function Render(segments: seq<string>, ints: seq<int>): (s: string)
    requires |segments| == |ints| + 1
  {
    if ints == [] then segments[0]
    else segments[0] + IntToString(ints[0]) + Render(segments[1..], ints[1..])
  }

  /** Reads back the integers of a rendered template; None when s does not
      have the template's shape. */
  function MatchTemplate(segments: seq<string>, s: string): (r: Option<seq<int>>)
    requires |segments| >= 1
    ensures r.Some? ==> |r.value| == |segments| - 1
    decreases |segments|
  {
    var lit := segments[0];
    if !(lit <= s) then None
    else if |segments| == 1 then (if s == lit then Some([]) else None)
    else
      match ParseIntPrefix(s[|lit|..])
      case None => None
      case Some((v, rest)) =>
        match MatchTemplate(segments[1..], rest)
        case None => None
        case Some(vs) => Some([v] + vs)
  }

  /** A template is unambiguous when every literal after an integer starts
      with a non-digit, and only the last literal may be empty. */
  predicate Unambiguous(segments: seq<string>) {
    forall i :: 1 <= i < |segments| ==>
      (segments[i] == [] ==> i == |segments| - 1) &&
      (segments[i] != [] ==> !IsDigit(segments[i][0]))
  }

  /** Rendering an unambiguous template and matching it gives back exactly
      the integers that were rendered. */
  lemma {:induction false} MatchRender(segments: seq<string>, ints: seq<int>)
    requires |segments| == |ints| + 1
    requires Unambiguous(segments)
    ensures MatchTemplate(segments, Render(segments, ints)) == Some(ints)
  {
    if ints != [] {
      var lit := segments[0];
      var tail := Render(segments[1..], ints[1..]);
      UnambiguousTail(segments);
      RenderStart(segments[1..], ints[1..]);
      MatchRender(segments[1..], ints[1..]);
      MatchStep(segments, ints[0], tail, ints[1..]);
      assert [ints[0]] + ints[1..] == ints;
    }
  }

  /** The two-number case: `a{x}b{y}c` reads back as x then y. */
  lemma MatchPair(a: string, b: string, c: string, x: int, y: int)
    requires b != [] && !IsDigit(b[0])
    requires c == [] || !IsDigit(c[0])
    ensures MatchTemplate([a, b, c], a + IntToString(x) + b + IntToString(y) + c) == Some([x, y])
  {
    var segments := [a, b, c];
    var ints := [x, y];
    assert segments[1..] == [b, c] && ints[1..] == [y];
    assert [b, c][1..] == [c] && [y][1..] == [];
    var tail := b + IntToString(y) + c;
    assert Render([b, c], [y]) == tail;
    assert Render(segments, ints) == a + IntToString(x) + tail;
    ConcatAssoc(a + IntToString(x), b + IntToString(y), c);
    ConcatAssoc(a + IntToString(x), b, IntToString(y));
    assert Unambiguous(segments);
    MatchRender(segments, ints);
  }

  lemma UnambiguousTail(segments: seq<string>)
    requires |segments| >= 2 && Unambiguous(segments)
    ensures Unambiguous(segments[1..])
    ensures segments[1] == [] ==> |segments| == 2
    ensures segments[1] != [] ==> !IsDigit(segments[1][0])
  {
    forall i | 1 <= i < |segments[1..]|
      ensures (segments[1..][i] == [] ==> i == |segments[1..]| - 1)
      ensures (segments[1..][i] != [] ==> !IsDigit(segments[1..][i][0]))
    {
      assert segments[1..][i] == segments[i + 1];
    }
  }

  /** A rendered template starts with its first literal. */
  lemma RenderStart(segments: seq<string>, ints: seq<int>)
    requires |segments| == |ints| + 1
    ensures segments[0] <= Render(segments, ints)
  {
  }

  lemma ConcatAssoc<T>(a: seq<T>, b: seq<T>, c: seq<T>)
    ensures a + b + c == a + (b + c)
  {
  }

  /** The set of the elements of a sequence. */
  function Elements<T>(s: seq<T>): set<T> {
    set x | x in s
  }

  lemma ElementsSnoc<T>(s: seq<T>, x: T)
    ensures Elements(s + [x]) == Elements(s) + {x}
  {
  }

  lemma DropFront<T>(front: seq<T>, tail: seq<T>)
    ensures (front + tail)[|front|..] == tail
  {
  }

  lemma EndsWith<T>(front: seq<T>, tail: seq<T>)
    ensures (front + tail)[|front + tail| - |tail|..] == tail
  {
  }

  lemma PrefixOfConcat(a: string, b: string)
    ensures a <= a + b && (a + b)[|a|..] == b
  {
  }

  lemma MatchStep(segments: seq<string>, v: int, tail: string, vs: seq<int>)
    requires |segments| >= 2
    requires segments[1] <= tail
    requires segments[1] == [] ==> |segments| == 2
    requires segments[1] != [] ==> !IsDigit(segments[1][0])
    requires tail == [] ==> segments[1] == []
    requires |segments| == 2 ==> tail == segments[1]
    requires MatchTemplate(segments[1..], tail) == Some(vs)
    ensures MatchTemplate(segments, segments[0] + IntToString(v) + tail) == Some([v] + vs)
  {
    var lit := segments[0];
    var rest := IntToString(v) + tail;
    PrefixOfConcat(lit, rest);
    assert tail == [] || !IsDigit(tail[0]) by {
      if tail != [] && segments[1] != [] {
        assert tail[0] == segments[1][0];
      }
    }
    ParseIntToString(v, tail);
    var s := lit + rest;
    assert s[|lit|..] == rest;
    assert ParseIntPrefix(s[|lit|..]) == Some((v, tail));
    assert MatchTemplate(segments, s) == Some([v] + vs);
    ConcatAssoc(lit, IntToString(v), tail);
  }

  /** An unambiguous template renders distinct integer lists as distinct
      strings. */
  lemma RenderInjective(segments: seq<string>, a: seq<int>, b: seq<int>)
    requires |segments| == |a| + 1 && |segments| == |b| + 1
    requires Unambiguous(segments)
    requires Render(segments, a) == Render(segments, b)
    ensures a == b
  {
    MatchRender(segments, a);
    MatchRender(segments, b);
  }

  // ---------------------------------------------------------------------
  // Split and Join.

  /** `s.Split(sep)`: the pieces between separators, empty pieces kept; a
      string without separators gives one piece, so the result is never
      empty. */
  function Split(s: string, sep: char): (parts: seq<string>)
    ensures |parts| >= 1
  {
    if s == [] then [""]
    else
      var rest := Split(s[1..], sep);
      if s[0] == sep then [""] + rest else [[s[0]] + rest[0]] + rest[1..]
  }

  /** `String.Join(sep, parts)`. */
  function Join(sep: string, parts: seq<string>): string {
    if |parts| == 0 then ""
    else if |parts| == 1 then parts[0]
    else parts[0] + sep + Join(sep, parts[1..])
  }

  /** Joining the pieces of a split with the same separator rebuilds the
      original string. */
  lemma {:induction false} JoinSplit(s: string, sep: char)
    ensures Join([sep], Split(s, sep)) == s
  {
    if s != [] {
      var rest := Split(s[1..], sep);
      JoinSplit(s[1..], sep);
      if s[0] == sep {
        assert Split(s, sep) == [""] + rest;
        assert ([""] + rest)[1..] == rest;
        assert Join([sep], [""] + rest) == "" + [sep] + Join([sep], rest);
        assert s == [s[0]] + s[1..];
      } else {
        var parts := [[s[0]] + rest[0]] + rest[1..];
        assert parts[1..] == rest[1..];
        if |rest| == 1 {
          assert Join([sep], parts) == [s[0]] + rest[0];
          assert s == [s[0]] + s[1..];
        } else {
          assert Join([sep], parts) == [s[0]] + rest[0] + [sep] + Join([sep], rest[1..]);
          assert Join([sep], rest) == rest[0] + [sep] + Join([sep], rest[1..]);
          assert s == [s[0]] + s[1..];
        }
      }
    }
  }

  predicate Free(s: string, c: char) {
    forall i :: 0 <= i < |s| ==> s[i] != c
  }

  lemma {:induction false} SplitFree(p: string, t: string, sep: char)
    requires Free(p, sep)
    ensures Split(p + t, sep) == [p + Split(t, sep)[0]] + Split(t, sep)[1..]
  {
    if p != [] {
      assert (p + t)[1..] == p[1..] + t;
      SplitFree(p[1..], t, sep);
      assert [p[0]] + (p[1..] + Split(t, sep)[0]) == p + Split(t, sep)[0];
    } else {
      var parts := Split(t, sep);
      assert p + t == t;
      assert p + parts[0] == parts[0];
      assert parts == [parts[0]] + parts[1..];
    }
  }

  /** Splitting a join gives back the pieces, provided no piece contains
      the separator. */
  lemma {:induction false} SplitJoin(parts: seq<string>, sep: char)
    requires |parts| >= 1
    requires forall i :: 0 <= i < |parts| ==> Free(parts[i], sep)
    ensures Split(Join([sep], parts), sep) == parts
  {
    if |parts| == 1 {
      SplitFree(parts[0], [], sep);
      assert parts[0] + [] == parts[0];
    } else {
      var tail := Join([sep], parts[1..]);
      SplitJoin(parts[1..], sep);
      assert Join([sep], parts) == parts[0] + ([sep] + tail);
      SplitFree(parts[0], [sep] + tail, sep);
      assert ([sep] + tail)[1..] == tail;
      assert Split([sep] + tail, sep) == [""] + parts[1..];
      assert parts[0] + "" == parts[0];
      assert [parts[0]] + parts[1..] == parts;
    }
  }

  /** Every piece followed by the terminator `c`, as a writer that ends
      each line with `c` produces them. */
  function Terminated(lines: seq<string>, c: char): string {
    if lines == [] then "" else lines[0] + [c] + Terminated(lines[1..], c)
  }

  lemma {:induction false} TerminatedAppend(lines: seq<string>, line: string, c: char)
    ensures Terminated(lines + [line], c) == Terminated(lines, c) + line + [c]
  {
    if lines != [] {
      assert (lines + [line])[1..] == lines[1..] + [line];
      TerminatedAppend(lines[1..], line, c);
    } else {
      assert Terminated([line], c) == line + [c] + Terminated([], c);
    }
  }

  lemma {:induction false} TerminatedConcat(a: seq<string>, b: seq<string>, c: char)
    ensures Terminated(a + b, c) == Terminated(a, c) + Terminated(b, c)
  {
    if a == [] {
      assert a + b == b;
    } else {
      assert (a + b)[0] == a[0] && (a + b)[1..] == a[1..] + b;
      TerminatedConcat(a[1..], b, c);
    }
  }

  /** A first line, some lines, and two last lines, each terminated. */
  lemma TerminatedAround(first: string, lines: seq<string>, a: string, b: string, c: char)
    ensures Terminated([first] + lines + [a, b], c)
      == first + [c] + Terminated(lines, c) + a + [c] + b + [c]
  {
    var front := [first] + lines;
    assert front[0] == first && front[1..] == lines;
    assert Terminated(front, c) == first + [c] + Terminated(lines, c);
    TerminatedAppend(front, a, c);
    TerminatedAppend(front + [a], b, c);
    assert [first] + lines + [a, b] == front + [a] + [b];
  }

  /** Splitting terminated lines on the terminator gives the lines back,
      followed by the empty piece after the last terminator. */
  lemma {:induction false} SplitTerminated(lines: seq<string>, c: char)
    requires forall i :: 0 <= i < |lines| ==> Free(lines[i], c)
    ensures Split(Terminated(lines, c), c) == lines + [""]
  {
    if lines != [] {
      var rest := Terminated(lines[1..], c);
      SplitTerminated(lines[1..], c);
      assert Terminated(lines, c) == lines[0] + ([c] + rest);
      SplitFree(lines[0], [c] + rest, c);
      assert ([c] + rest)[1..] == rest;
      assert Split([c] + rest, c) == [""] + (lines[1..] + [""]);
      assert lines[0] + "" == lines[0];
      assert [lines[0]] + (lines[1..] + [""]) == lines + [""];
    }
  }

  function Concat(parts: seq<string>): string {
    if parts == [] then "" else parts[0] + Concat(parts[1..])
  }

  // ---------------------------------------------------------------------
  // Reading literal text back.

  /** What follows `lit` at the start of `s`, if `s` starts with it. */
  function Expect(s: string, lit: string): (r: Option<string>)
    ensures r.Some? <==> lit <= s
    ensures r.Some? ==> s == lit + r.value
  {
    if |lit| <= |s| && s[..|lit|] == lit then Some(s[|lit|..]) else None
  }

  lemma ExpectOf(lit: string, rest: string)
    ensures Expect(lit + rest, lit) == Some(rest)
  {
    assert (lit + rest)[..|lit|] == lit;
    assert (lit + rest)[|lit|..] == rest;
  }

  /** The text between `prefix` and `suffix`, if `s` is framed by them. */
  function Between(s: string, prefix: string, suffix: string): Option<string> {
    if |prefix| + |suffix| <= |s| && s[..|prefix|] == prefix && s[|s| - |suffix|..] == suffix
    then Some(s[|prefix|..|s| - |suffix|])
    else None
  }

  lemma BetweenOf(prefix: string, mid: string, suffix: string)
    ensures Between(prefix + mid + suffix, prefix, suffix) == Some(mid)
  {
    var s := prefix + mid + suffix;
    assert s[..|prefix|] == prefix;
    assert s[|s| - |suffix|..] == suffix;
    assert s[|prefix|..|s| - |suffix|] == mid;
  }

  // ---------------------------------------------------------------------
  // Upper-casing.

  function UpperChar(c: char): char {
    if 'a' <= c <= 'z' then (c as int - 'a' as int + 'A' as int) as char else c
  }

  lemma UpperCharNotLower(c: char)
    ensures !('a' <= UpperChar(c) <= 'z')
  {
  }

  /** `ToUpper()` on ASCII text: lower-case Latin letters become upper-case,
      every other character is kept. */
  function ToUpper(s: string): (u: string)
    ensures |u| == |s|
    ensures forall i :: 0 <= i < |s| ==> u[i] == UpperChar(s[i])
  {
    if s == [] then [] else [UpperChar(s[0])] + ToUpper(s[1..])
  }

  function Spaces(n: nat): (s: string)
    ensures |s| == n && forall i :: 0 <= i < n ==> s[i] == ' '
  {
    if n == 0 then "" else " " + Spaces(n - 1)
  }

  /** `x ?? ""` for a nullable string. */
  function OrEmpty(s: Option<string>): string {
    if s.Some? then s.value else ""
  }

  // ---------------------------------------------------------------------

  /** System.Text.StringBuilder, reduced to its contents. It is only ever
      appended to. */
  class StringBuilder {
    var contents: string

    constructor ()
      ensures contents == []
    {
      contents := [];
    }

    method Append(s: string)
      modifies this
      ensures contents == old(contents) + s
    {
      contents := contents + s;
    }

    method AppendLine(s: string)
      modifies this
      ensures contents == old(contents) + s + NewLine
    {
      contents := contents + s + NewLine;
    }

    function ToString(): string
      reads this
    {
      contents
    }
  }
}
