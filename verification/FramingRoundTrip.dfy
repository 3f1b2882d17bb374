/**
 What is printed onto a stream comes back. Messages printed line by line, with any number of
 bare CRLFs around them (section 3.5.1 of RFC 5626), are framed as exactly those messages,
 whatever their bodies hold and however the stream is cut into reads.
 */
module FramingRoundTrip {
  import opened Wrappers
  import opened Bytes
  import opened Text
  import opened Framing
  import opened FramingLaws

  /** Each line ends in CRLF, and an empty line ends the block. */
  function Block(lines: seq<seq<Byte>>): seq<Byte> {
    if lines == [] then CRLF else lines[0] + CRLF + Block(lines[1..])
  }

  /** A message's header lines, one of them its length, and its body. */
  datatype Printed = Printed(before: seq<seq<Byte>>, length: seq<Byte>, after: seq<seq<Byte>>, body: seq<Byte>) {
    function Lines(): seq<seq<Byte>> { before + [length] + after }

    function Bytes(): seq<Byte> { Block(Lines()) + body }
  }

  /** A header line is UTF-8, not empty, and without CR. */
  predicate IsLine(line: seq<Byte>) {
    line != [] && CR !in line && Decode(line).Some?
  }

  /** The length a line announces, if it is a Content-Length line. */
  predicate IsLengthLine(line: seq<Byte>) {
    && Decode(line).Some?
    && var field := SplitOnce(Decode(line).value, ':');
    && field.Some? && NamesContentLength(field.value.0)
  }

  predicate Announces(line: seq<Byte>, n: nat) {
    IsLengthLine(line) && ParseUnsigned(Trim(SplitOnce(Decode(line).value, ':').value.1), USIZE_MAX) == Some(n)
  }

  predicate AllLines(lines: seq<seq<Byte>>) {
    forall i :: 0 <= i < |lines| ==> IsLine(lines[i])
  }

  predicate Printable(p: Printed) {
    && AllLines(p.before) && IsLine(p.length) && AllLines(p.after)
    && (forall i :: 0 <= i < |p.before| ==> !IsLengthLine(p.before[i]))
    && Announces(p.length, |p.body|)
  }

  // ---- Lengths ----

  /** A printable ASCII string of the kind header names and numbers are. */
  predicate Plain(s: string) {
    forall i :: 0 <= i < |s| ==> s[i] < 128 as char && s[i] != '\r'
  }

  lemma PlainIsLine(s: string)
    requires Plain(s) && s != []
    ensures IsLine(Ascii(s)) && Decode(Ascii(s)) == Some(s)
  {
    DecodeAscii(s);
    hide Text.Decode;
  }

  lemma LineAnnounces(name: string, value: string, n: nat)
    requires Plain(name) && ':' !in name && NamesContentLength(name)
    requires Plain(value) && ParseUnsigned(Trim(value), USIZE_MAX) == Some(n)
    ensures Plain(name + [':'] + value)
    ensures IsLine(Ascii(name + [':'] + value)) && Announces(Ascii(name + [':'] + value), n)
  {
    hide NamesContentLength, Text.ParseUnsigned, Text.Trim, Text.Decode, Text.SplitOnce;
    PlainIsLine(name + [':'] + value);
    SplitAtFirst(name, ':', value);
  }

  lemma LengthValue(n: nat)
    requires n <= USIZE_MAX
    ensures var value := " " + Decimal(n);
            Plain(value) && ParseUnsigned(Trim(value), USIZE_MAX) == Some(n)
  {
    var digits := Decimal(n);
    assert forall i :: 0 <= i < |digits| ==> IsDigit(digits[i]);
    assert IsDigit(digits[0]) && IsDigit(digits[|digits| - 1]);
    assert (" " + digits)[1..] == digits;
    TrimmedAlready(digits);
    DecimalParses(n, USIZE_MAX);
  }

  /** A length line in any spelling of the name that the framer knows announces its number. */
  lemma LengthLinesAnnounce(name: string, n: nat)
    requires n <= USIZE_MAX && Plain(name) && ':' !in name && NamesContentLength(name)
    ensures var line := name + [':'] + (" " + Decimal(n));
            Plain(line) && IsLine(Ascii(line)) && Announces(Ascii(line), n)
  {
    LengthValue(n);
    LineAnnounces(name, " " + Decimal(n), n);
  }

  // ---- The header block ----

  /** No CRLFCRLF ends before the block does. */
  lemma {:induction false} BlockEndsOnce(lines: seq<seq<Byte>>, more: seq<Byte>, i: nat)
    requires lines != [] && AllLines(lines)
    ensures EndsHeaderAt(Block(lines) + more, i) ==> |Block(lines)| <= i + 4
    decreases |lines|
  {
    hide Text.Decode;
    var s, line, rest := Block(lines) + more, lines[0], Block(lines[1..]) + more;
    assert s == line + CRLF + rest;
    assert IsLine(line);
    if i < |line| {
      assert s[i] == line[i] != CR;
    } else if |lines| > 1 {
      assert IsLine(lines[1]) && rest[0] == lines[1][0] != CR;
      if i == |line| {
        assert s[i + 2] == rest[0];
      } else if i == |line| + 1 {
        assert s[i] == LF;
      } else {
        var k := i - |line| - 2;
        assert EndsHeaderAt(s, i) ==> EndsHeaderAt(rest, k);
        BlockEndsOnce(lines[1..], more, k);
      }
    }
  }

  lemma {:induction false} BlockEnds(lines: seq<seq<Byte>>)
    requires lines != []
    ensures |Block(lines)| >= 4 && EndsHeaderAt(Block(lines), |Block(lines)| - 4)
  {
    if |lines| > 1 {
      BlockEnds(lines[1..]);
      var head, rest := lines[0] + CRLF, Block(lines[1..]);
      assert Block(lines) == head + rest;
    } else {
      assert Block(lines) == lines[0] + CRLF + CRLF;
    }
  }

  lemma BlockIsFound(lines: seq<seq<Byte>>, more: seq<Byte>)
    requires lines != [] && AllLines(lines)
    ensures HeaderEnd(Block(lines) + more, 0) == Some(|Block(lines)|)
  {
    BlockEnds(lines);
    var s, n := Block(lines) + more, |Block(lines)|;
    assert EndsHeaderAt(s, n - 4);
    var end := HeaderEnd(s, 0).value;
    BlockEndsOnce(lines, more, end - 4);
  }

  function DecodedLines(lines: seq<seq<Byte>>): (r: seq<string>)
    requires AllLines(lines)
    ensures |r| == |lines| && forall j :: 0 <= j < |r| ==> Some(r[j]) == Decode(lines[j])
  {
    if lines == [] then []
    else
      assert IsLine(lines[0]);
      [Decode(lines[0]).value] + DecodedLines(lines[1..])
  }

  lemma CrLfDecodes()
    ensures Decode(CRLF) == Some("\r\n") && SplitCrLf("\r\n") == ["", ""]
  {
    DecodeAscii("\r\n");
    assert Ascii("\r\n") == CRLF;
    assert "\r\n" == "" + "\r\n" + "";
    SplitCrLfThen("", "");
  }

  /** A line, its CRLF and what follows decode piece by piece. */
  lemma LineDecodes(line: seq<Byte>, rest: seq<Byte>)
    requires IsLine(line) && Decode(rest).Some?
    ensures Decode(line + CRLF + rest) == Some(Decode(line).value + "\r\n" + Decode(rest).value)
    ensures '\r' !in Decode(line).value
  {
    CrLfDecodes();
    DecodeThen(line, CRLF);
    DecodeThen(line + CRLF, rest);
    if '\r' in Decode(line).value {
      DecodeHas(line, '\r');
    }
  }

  lemma {:induction false} BlockDecodes(lines: seq<seq<Byte>>)
    requires AllLines(lines)
    ensures Decode(Block(lines)).Some?
    ensures SplitCrLf(Decode(Block(lines)).value) == DecodedLines(lines) + ["", ""]
    decreases |lines|
  {
    hide Text.Decode, Text.SplitCrLf;
    if lines == [] {
      CrLfDecodes();
    } else {
      assert IsLine(lines[0]);
      var text, rest := Decode(lines[0]).value, Block(lines[1..]);
      BlockDecodes(lines[1..]);
      LineDecodes(lines[0], rest);
      SplitCrLfThen(text, Decode(rest).value);
      assert [text] + (DecodedLines(lines[1..]) + ["", ""]) == DecodedLines(lines) + ["", ""];
    }
  }

  predicate IsLengthText(text: string) {
    var field := SplitOnce(text, ':');
    field.Some? && NamesContentLength(field.value.0)
  }

  lemma ScanStep(lines: seq<string>)
    requires lines != [] && !IsLengthText(lines[0])
    ensures ScanLines(lines) == ScanLines(lines[1..])
  {
    hide Text.SplitOnce, Text.Trim, Text.ParseUnsigned, NamesContentLength;
  }

  /** Lines whose names are not that of the length are passed over. */
  lemma {:induction false} ScanPasses(texts: seq<string>, found: seq<string>)
    requires forall j :: 0 <= j < |texts| ==> !IsLengthText(texts[j])
    ensures ScanLines(texts + found) == ScanLines(found)
    decreases |texts|
  {
    if texts == [] {
      assert texts + found == found;
    } else {
      ScanStep(texts + found);
      hide ScanLines, IsLengthText;
      assert (texts + found)[0] == texts[0] && (texts + found)[1..] == texts[1..] + found;
      ScanPasses(texts[1..], found);
    }
  }

  lemma ScanHits(line: seq<Byte>, after: seq<string>, n: nat)
    requires Announces(line, n)
    ensures ScanLines([Decode(line).value] + after) == Some(n)
  {
    hide Text.Decode, Text.SplitOnce, Text.Trim, Text.ParseUnsigned, NamesContentLength;
  }

  lemma ScanFinds(before: seq<seq<Byte>>, length: seq<Byte>, after: seq<string>, n: nat)
    requires AllLines(before) && forall j :: 0 <= j < |before| ==> !IsLengthLine(before[j])
    requires Announces(length, n)
    ensures ScanLines(DecodedLines(before) + [Decode(length).value] + after) == Some(n)
  {
    hide Text.Decode, ScanLines, DecodedLines, Text.SplitOnce, NamesContentLength;
    ScanHits(length, after, n);
    ScanPasses(DecodedLines(before), [Decode(length).value] + after);
    assert DecodedLines(before) + [Decode(length).value] + after
        == DecodedLines(before) + ([Decode(length).value] + after);
  }

  lemma {:induction false} DecodedConcat(a: seq<seq<Byte>>, b: seq<seq<Byte>>)
    requires AllLines(a) && AllLines(b)
    ensures AllLines(a + b) && DecodedLines(a + b) == DecodedLines(a) + DecodedLines(b)
  {
    hide Text.Decode;
    assert AllLines(a + b);
  }

  lemma BytesParts(p: Printed, more: seq<Byte>)
    ensures var s, block := p.Bytes() + more, Block(p.Lines());
            && s == block + (p.body + more)
            && |s| >= |block| + |p.body| && s[..|block|] == block && s[..|block| + |p.body|] == p.Bytes()
  {
    hide Block;
  }

  lemma BlockStarts(lines: seq<seq<Byte>>)
    requires lines != [] && AllLines(lines)
    ensures Block(lines) != [] && Block(lines)[0] != CR
  {
    assert IsLine(lines[0]);
    assert Block(lines)[0] == lines[0][0];
  }

  lemma LinesDecode(p: Printed)
    requires Printable(p)
    ensures p.Lines() != [] && AllLines(p.Lines())
    ensures ScanLines(DecodedLines(p.Lines()) + ["", ""]) == Some(|p.body|)
  {
    hide Text.Decode, ScanLines, IsLine;
    DecodedConcat(p.before, [p.length]);
    DecodedConcat(p.before + [p.length], p.after);
    var after := DecodedLines(p.after) + ["", ""];
    assert DecodedLines([p.length]) == [Decode(p.length).value];
    assert DecodedLines(p.Lines()) + ["", ""] == DecodedLines(p.before) + [Decode(p.length).value] + after;
    ScanFinds(p.before, p.length, after, |p.body|);
  }

  /** The framer takes a printed message for what it is, whatever follows. */
  lemma PrintedIsWhole<M>(parse: seq<Byte> -> Option<M>, p: Printed, m: M, more: seq<Byte>)
    requires Printable(p) && parse(p.Bytes()) == Some(m)
    ensures !StartsCrLf(p.Bytes() + more)
    ensures HeaderEnd(p.Bytes() + more, 0) == Some(|Block(p.Lines())|)
    ensures NextOf(parse, p.Bytes() + more) == Whole(m, |p.Bytes()|)
  {
    LinesDecode(p);
    BlockIsFound(p.Lines(), p.body + more);
    BlockDecodes(p.Lines());
    BlockStarts(p.Lines());
    BytesParts(p, more);
    hide Block, HeaderEnd, Text.Decode, ScanLines, DecodedLines, Printable, IsLine, Text.SplitCrLf;
  }

  // ---- Streams of printed messages ----

  function CrLfs(n: nat): (s: seq<Byte>)
    ensures |s| == 2 * n
  {
    if n == 0 then [] else CRLF + CrLfs(n - 1)
  }

  /** Gap 0, message 0, gap 1, ..., the last gap. */
  function Stream(gaps: seq<nat>, ps: seq<Printed>): seq<Byte>
    requires |gaps| == |ps| + 1
  {
    if ps == [] then CrLfs(gaps[0]) else CrLfs(gaps[0]) + ps[0].Bytes() + Stream(gaps[1..], ps[1..])
  }

  function Sum(ns: seq<nat>): nat {
    if ns == [] then 0 else ns[0] + Sum(ns[1..])
  }

  lemma {:induction false} StripCrLfs(n: nat, s: seq<Byte>)
    requires !StartsCrLf(s)
    ensures Strip(CrLfs(n) + s) == (n, s)
  {
    if n == 0 {
      assert CrLfs(0) + s == s;
    } else {
      assert (CrLfs(n) + s)[2..] == CrLfs(n - 1) + s;
      StripCrLfs(n - 1, s);
    }
  }

  ghost predicate Parses<M>(parse: seq<Byte> -> Option<M>, ps: seq<Printed>, messages: seq<M>) {
    && |messages| == |ps|
    && forall i :: 0 <= i < |ps| ==> Printable(ps[i]) && parse(ps[i].Bytes()) == Some(messages[i])
  }

  lemma {:induction false} StreamDrains<M>(parse: seq<Byte> -> Option<M>, gaps: seq<nat>, ps: seq<Printed>,
          messages: seq<M>)
    requires |gaps| == |ps| + 1 && Parses(parse, ps, messages)
    ensures Drain(parse, Stream(gaps, ps)) == Drained(messages, Sum(gaps), [], None)
    ensures (forall i :: 0 <= i < |ps| ==> |Block(ps[i].Lines())| <= MAX_HEADER_BYTES + 1) ==>
        Fits(parse, Stream(gaps, ps))
    decreases |ps|
  {
    hide Printable;
    var s := Stream(gaps, ps);
    assert Sum(gaps) == gaps[0] + Sum(gaps[1..]);
    if ps == [] {
      StripCrLfs(gaps[0], []);
      assert CrLfs(gaps[0]) + [] == s;
      assert Sum(gaps[1..]) == 0;
      assert HeaderEnd([], 0).None?;
    } else {
      var rest := Stream(gaps[1..], ps[1..]);
      assert s == CrLfs(gaps[0]) + (ps[0].Bytes() + rest);
      PrintedIsWhole(parse, ps[0], messages[0], rest);
      StripCrLfs(gaps[0], ps[0].Bytes() + rest);
      assert (ps[0].Bytes() + rest)[|ps[0].Bytes()|..] == rest;
      StreamDrains(parse, gaps[1..], ps[1..], messages[1..]);
      assert [messages[0]] + messages[1..] == messages;
    }
  }

  /**
   The round trip: printed messages, with any bare CRLFs around them, read back in any
   chunks, are exactly those messages and exactly those CRLFs, with nothing left over.
   */
  lemma StreamRoundTrip<M>(parse: seq<Byte> -> Option<M>, gaps: seq<nat>, ps: seq<Printed>, messages: seq<M>,
          chunks: seq<seq<Byte>>)
    requires |gaps| == |ps| + 1 && Parses(parse, ps, messages)
    requires forall i :: 0 <= i < |ps| ==> |Block(ps[i].Lines())| <= MAX_HEADER_BYTES + 1
    requires Flat(chunks) == Stream(gaps, ps)
    ensures ReadAll(parse, [], chunks) == Drained(messages, Sum(gaps), [], None)
  {
    StreamDrains(parse, gaps, ps, messages);
    assert [] + Flat(chunks) == Flat(chunks);
    EmptyIsDrained(parse);
    ReadAllIsDrain(parse, [], chunks);
  }
}
