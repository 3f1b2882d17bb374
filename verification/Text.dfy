/** Text the way Rust's standard library reads it: UTF-8, trimming, splitting, and unsigned numbers. */
module Text {
  import opened Wrappers
  import opened Bytes

  const USIZE_MAX: nat := 0xFFFF_FFFF_FFFF_FFFF

  function Ascii(s: string): (r: seq<Byte>)
    requires forall i :: 0 <= i < |s| ==> s[i] < 128 as char
    ensures |r| == |s| && forall i :: 0 <= i < |s| ==> r[i] == s[i] as int
  {
    seq(|s|, i requires 0 <= i < |s| => s[i] as int)
  }

  // ---- UTF-8 ----

  function Tail6(s: seq<Byte>, i: nat): (r: Option<nat>)
    ensures r.Some? ==> r.value < 64
  {
    if i < |s| && 0x80 <= s[i] < 0xC0 then Some(s[i] - 0x80) else None
  }

  /** A scalar value of at least `least`: overlong forms and surrogates are not UTF-8. */
  function Scalar(c: nat, least: nat, size: nat): Option<(char, nat)> {
    if least <= c && !(0xD800 <= c < 0xE000) && c <= 0x10FFFF then Some((c as char, size)) else None
  }

  /** The first character of a byte string and how many bytes it takes. */
  function DecodeOne(s: seq<Byte>): (r: Option<(char, nat)>)
    requires s != []
    ensures r.Some? ==> 1 <= r.value.1 <= |s|
    ensures r.Some? && r.value.0 < 128 as char ==> r.value.1 == 1 && r.value.0 as int == s[0]
  {
    if s[0] < 0x80 then Some((s[0] as char, 1))
    else
      var lead: int := s[0];
      match (Tail6(s, 1), Tail6(s, 2), Tail6(s, 3))
      case (Some(b), c, d) =>
        if 0xC0 <= lead < 0xE0 then Scalar((lead - 0xC0) * 64 + b, 0x80, 2)
        else if 0xE0 <= lead < 0xF0 && c.Some? then Scalar(((lead - 0xE0) * 64 + b) * 64 + c.value, 0x800, 3)
        else if 0xF0 <= lead < 0xF8 && c.Some? && d.Some?
        then Scalar((((lead - 0xF0) * 64 + b) * 64 + c.value) * 64 + d.value, 0x10000, 4)
        else None
      case _ => None
  }

  function Decode(s: seq<Byte>): Option<string> {
    if s == [] then Some([])
    else
      match DecodeOne(s)
      case None => None
      case Some((c, n)) =>
        match Decode(s[n..])
        case None => None
        case Some(rest) => Some([c] + rest)
  }

  lemma DecodeOneThen(a: seq<Byte>, b: seq<Byte>)
    requires a != [] && DecodeOne(a).Some?
    ensures DecodeOne(a + b) == DecodeOne(a)
  {
    assert (a + b)[0] == a[0];
    assert Tail6(a, 1).Some? ==> Tail6(a + b, 1) == Tail6(a, 1);
    assert Tail6(a, 2).Some? ==> Tail6(a + b, 2) == Tail6(a, 2);
    assert Tail6(a, 3).Some? ==> Tail6(a + b, 3) == Tail6(a, 3);
  }

  lemma {:induction false} DecodeThen(a: seq<Byte>, b: seq<Byte>)
    requires Decode(a).Some?
    ensures Decode(a + b) == (if Decode(b).Some? then Some(Decode(a).value + Decode(b).value) else None)
    decreases |a|
  {
    hide DecodeOne;
    if a == [] {
      assert a + b == b;
      assert Decode(b).Some? ==> Decode(a).value + Decode(b).value == Decode(b).value;
    } else {
      DecodeOneThen(a, b);
      var n := DecodeOne(a).value.1;
      assert (a + b)[n..] == a[n..] + b;
      DecodeThen(a[n..], b);
      var c := DecodeOne(a).value.0;
      assert Decode(a).value == [c] + Decode(a[n..]).value;
      assert a + b != [] && DecodeOne(a + b) == Some((c, n));
      assert Decode(b).Some? ==> [c] + (Decode(a[n..]).value + Decode(b).value) == Decode(a).value + Decode(b).value;
    }
  }

  /** An ASCII character in the text is that byte in the bytes. */
  lemma {:induction false} DecodeHas(s: seq<Byte>, c: char)
    requires Decode(s).Some? && c in Decode(s).value && c < 128 as char
    ensures c as int in s
    decreases |s|
  {
    var (first, n) := DecodeOne(s).value;
    if first == c {
      assert s[0] == c as int;
    } else {
      assert Decode(s).value == [first] + Decode(s[n..]).value;
      DecodeHas(s[n..], c);
    }
  }

  lemma {:induction false} DecodeAscii(s: string)
    requires forall i :: 0 <= i < |s| ==> s[i] < 128 as char
    ensures Decode(Ascii(s)) == Some(s)
  {
    if s == [] {
    } else {
      assert Ascii(s)[1..] == Ascii(s[1..]);
      DecodeAscii(s[1..]);
      assert s == [s[0]] + s[1..];
    }
  }

  // ---- Characters ----

  predicate IsWhitespace(c: char) {
    var n := c as int;
    9 <= n <= 13 || n == 0x20 || n == 0x85 || n == 0xA0 || n == 0x1680 || 0x2000 <= n <= 0x200A
    || n == 0x2028 || n == 0x2029 || n == 0x202F || n == 0x205F || n == 0x3000
  }

  function TrimStart(s: string): string {
    if s != [] && IsWhitespace(s[0]) then TrimStart(s[1..]) else s
  }

  function TrimEnd(s: string): string {
    if s != [] && IsWhitespace(s[|s| - 1]) then TrimEnd(s[..|s| - 1]) else s
  }

  function Trim(s: string): string { TrimEnd(TrimStart(s)) }

  function LowerChar(c: char): char {
    if 'A' <= c <= 'Z' then (c as int + 32) as char else c
  }

  function Lower(s: string): string {
    seq(|s|, i requires 0 <= i < |s| => LowerChar(s[i]))
  }

  function SplitOnce(s: string, at: char): (r: Option<(string, string)>)
    ensures r.None? <==> at !in s
    ensures r.Some? ==> s == r.value.0 + [at] + r.value.1 && at !in r.value.0
  {
    if s == [] then None
    else if s[0] == at then Some(([], s[1..]))
    else
      match SplitOnce(s[1..], at)
      case None => None
      case Some((before, after)) =>
        assert s == [s[0]] + s[1..];
        Some(([s[0]] + before, after))
  }

  /** The lines between CRLFs; a text without CRLF is one line. */
  function SplitCrLf(s: string): (r: seq<string>)
    ensures r != []
  {
    if s == [] then [[]]
    else if |s| >= 2 && s[0] == '\r' && s[1] == '\n' then [[]] + SplitCrLf(s[2..])
    else
      var rest := SplitCrLf(s[1..]);
      [[s[0]] + rest[0]] + rest[1..]
  }

  /** A line without CR, and the rest after CRLF. */
  lemma {:induction false} SplitCrLfThen(line: string, rest: string)
    requires '\r' !in line
    ensures SplitCrLf(line + "\r\n" + rest) == [line] + SplitCrLf(rest)
  {
    var s := line + "\r\n" + rest;
    if line == [] {
      assert s[2..] == rest;
    } else {
      assert s[1..] == line[1..] + "\r\n" + rest;
      SplitCrLfThen(line[1..], rest);
      assert [s[0]] + line[1..] == line;
    }
  }

  // ---- Numbers ----

  predicate IsDigit(c: char) { '0' <= c <= '9' }

  predicate AllDigits(s: string) { forall i :: 0 <= i < |s| ==> IsDigit(s[i]) }

  function DigitsValue(s: string): nat
    requires AllDigits(s)
  {
    if s == [] then 0 else 10 * DigitsValue(s[..|s| - 1]) + (s[|s| - 1] as int - '0' as int)
  }

  /** `str::parse` for an unsigned type: an optional plus sign, then digits, no more than `max`. */
  function ParseUnsigned(s: string, max: nat): (r: Option<nat>)
    ensures r.Some? ==> r.value <= max
  {
    var digits := if s != [] && s[0] == '+' then s[1..] else s;
    if digits != [] && AllDigits(digits) && DigitsValue(digits) <= max then Some(DigitsValue(digits)) else None
  }

  function Decimal(n: nat): (s: string)
    ensures s != [] && AllDigits(s)
  {
    if n < 10 then [('0' as int + n) as char] else Decimal(n / 10) + [('0' as int + n % 10) as char]
  }

  lemma {:induction false} DecimalValue(n: nat)
    ensures DigitsValue(Decimal(n)) == n
  {
    var s := Decimal(n);
    if n < 10 {
      assert s[..0] == [];
    } else {
      DecimalValue(n / 10);
      assert s[..|s| - 1] == Decimal(n / 10);
    }
  }

  lemma DecimalParses(n: nat, max: nat)
    requires n <= max
    ensures ParseUnsigned(Decimal(n), max) == Some(n)
  {
    DecimalValue(n);
    assert IsDigit(Decimal(n)[0]);
  }

  /** Digits and no whitespace at either end survive trimming. */
  lemma TrimmedAlready(s: string)
    requires s != [] && !IsWhitespace(s[0]) && !IsWhitespace(s[|s| - 1])
    ensures Trim(s) == s
  {
  }

  function DropCr(line: string): string {
    if line != [] && line[|line| - 1] == '\r' then line[..|line| - 1] else line
  }

  // ---- Lines and words ----

  /** `str::lines`: a line ends at LF, and a CR before it belongs to the ending. */
  function Lines(s: string): seq<string>
    decreases |s|
  {
    if s == [] then []
    else
      match SplitOnce(s, '\n')
      case None => [s]
      case Some((line, rest)) => [DropCr(line)] + Lines(rest)
  }

  lemma {:induction false} SplitAtFirst(before: string, at: char, after: string)
    requires at !in before
    ensures SplitOnce(before + [at] + after, at) == Some((before, after))
  {
    var s := before + [at] + after;
    if before == [] {
      assert s[1..] == after;
    } else {
      assert s[1..] == before[1..] + [at] + after;
      SplitAtFirst(before[1..], at, after);
      assert [s[0]] + before[1..] == before;
    }
  }

  lemma LinesThen(line: string, rest: string)
    requires '\n' !in line
    ensures Lines(line + "\r\n" + rest) == [line] + Lines(rest)
  {
    var s := line + "\r\n" + rest;
    assert s == (line + "\r") + ['\n'] + rest;
    SplitAtFirst(line + "\r", '\n', rest);
  }

  predicate Solid(s: string) {
    s != [] && forall i :: 0 <= i < |s| ==> !IsWhitespace(s[i])
  }

  /** The word a text begins with: up to the first whitespace. */
  function FirstWord(s: string): (w: string)
    ensures |w| <= |s| && s[..|w|] == w && (|w| < |s| ==> IsWhitespace(s[|w|]))
    ensures forall i :: 0 <= i < |w| ==> !IsWhitespace(w[i])
  {
    if s == [] || IsWhitespace(s[0]) then [] else [s[0]] + FirstWord(s[1..])
  }

  /** `str::split_whitespace`. */
  function Words(s: string): seq<string>
    decreases |s|
  {
    if s == [] then []
    else if IsWhitespace(s[0]) then Words(s[1..])
    else
      var w := FirstWord(s);
      [w] + Words(s[|w|..])
  }

  lemma {:induction false} FirstWordIs(w: string, rest: string)
    requires Solid(w) && (rest == [] || IsWhitespace(rest[0]))
    ensures FirstWord(w + rest) == w
  {
    assert (w + rest)[0] == w[0] && (w + rest)[1..] == w[1..] + rest;
    if |w| > 1 {
      FirstWordIs(w[1..], rest);
      assert w == [w[0]] + w[1..];
    } else {
      assert w[1..] + rest == rest && w == [w[0]];
    }
  }

  lemma WordsThen(w: string, rest: string)
    requires Solid(w)
    ensures Words(w + " " + rest) == [w] + Words(rest)
    ensures Words(w) == [w]
  {
    FirstWordIs(w, " " + rest);
    FirstWordIs(w, []);
    assert w + " " + rest == w + (" " + rest) && w + [] == w;
    assert (w + (" " + rest))[|w|..] == " " + rest && (" " + rest)[1..] == rest;
  }

  /** `splitn(2, char::is_whitespace)`: a word, and all after the one whitespace that ends it. */
  function SplitWord(s: string): (string, string) {
    var w := FirstWord(s);
    (w, if |w| < |s| then s[|w| + 1..] else [])
  }

  lemma SplitWordIs(w: string, rest: string)
    requires Solid(w)
    ensures SplitWord(w + " " + rest) == (w, rest)
  {
    FirstWordIs(w, " " + rest);
    assert w + " " + rest == w + (" " + rest);
    assert (w + " " + rest)[|w| + 1..] == rest;
  }

  predicate StartsWith(s: string, prefix: string) { prefix <= s }

  lemma DecimalIsSolid(n: nat)
    ensures Solid(Decimal(n))
  {
    assert forall c :: IsDigit(c) ==> !IsWhitespace(c);
  }
}
