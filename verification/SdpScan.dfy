/**
 What the lines of a body come to for its reader, whatever stands between them: the last
 connection line and the last m= line decide address and port, even by being unreadable;
 the payload types and rtpmaps of all lines count, in order, and unreadable ones do not.
 */
module SdpScan {
  import opened Wrappers
  import opened Bytes
  import opened Text
  import opened Sdp

  predicate IsConnection(line: string) {
    && (StartsWith(Trim(line), "c=IN IP4 ") || StartsWith(Trim(line), "c=IN IP6 "))
    && |Words(Trim(line))| > 2
  }

  predicate IsMedia(line: string) { StartsWith(Trim(line), "m=audio ") }

  predicate IsRtpMap(line: string) { StartsWith(Trim(line), "a=rtpmap:") }

  /** Lines of different kinds begin with different characters or words. */
  lemma OneKind(line: string)
    ensures StartsWith(Trim(line), "c=IN IP4 ") || StartsWith(Trim(line), "c=IN IP6 ") ==>
        !IsMedia(line) && !IsRtpMap(line)
    ensures !(IsMedia(line) && IsRtpMap(line))
    ensures IsRtpMap(line) ==> |Trim(line)| >= 9
    ensures Connection4() == "c=IN IP4 " && Connection6() == "c=IN IP6 " && MediaLine() == "m=audio "
        && RtpMapLine() == "a=rtpmap:"
  {
    var c4, c6, m, a := "c=IN IP4 ", "c=IN IP6 ", "m=audio ", "a=rtpmap:";
    assert c4[0] == 'c' && c6[0] == 'c' && m[0] == 'm' && a[0] == 'a';
  }

  /** The port on an m= line, if it has one that can be read; none if it has no second word. */
  function PortOn(line: string): Option<nat> {
    var words := Words(Trim(line));
    if |words| >= 2 then ParseUnsigned(words[1], 65_535) else None
  }

  predicate HasPort(line: string) { IsMedia(line) && |Words(Trim(line))| >= 2 }

  function NumbersOn(line: string): seq<Byte> {
    var words := Words(Trim(line));
    if IsMedia(line) && |words| > 3 then PayloadTypes(words[3..]) else []
  }

  function MapsOn(line: string): seq<Mapped> {
    if IsRtpMap(line) && |Trim(line)| >= 9
    then match ReadRtpMap(Trim(line)[9..]) case Some(m) => [m] case None => []
    else []
  }

  function AllNumbers(lines: seq<string>): seq<Byte> {
    if lines == [] then [] else NumbersOn(lines[0]) + AllNumbers(lines[1..])
  }

  function AllMaps(lines: seq<string>): seq<Mapped> {
    if lines == [] then [] else MapsOn(lines[0]) + AllMaps(lines[1..])
  }

  lemma Chained<T>(before: seq<T>, next: seq<T>, last: seq<T>, now: seq<T>, later: seq<T>, all: seq<T>)
    requires next == before + now && last == next + later && all == now + later
    ensures last == before + all
  {
  }

  /** The payload type a word gives, if it gives one. */
  function NumberIn(word: string): seq<Byte> {
    match ParseUnsigned(word, 255) case Some(n) => [n as Byte] case None => []
  }

  lemma PayloadTypesStep(words: seq<string>)
    requires words != []
    ensures PayloadTypes(words) == NumberIn(words[0]) + PayloadTypes(words[1..])
  {
  }

  lemma {:induction false} PayloadTypesThen(before: seq<string>, after: seq<string>)
    ensures PayloadTypes(before + after) == PayloadTypes(before) + PayloadTypes(after)
    decreases |before|
  {
    if before == [] {
      assert before + after == after;
    } else {
      var rest := before[1..];
      PayloadTypesThen(rest, after);
      PayloadTypesStep(before);
      PayloadTypesStep(before + after);
      assert (before + after)[0] == before[0] && (before + after)[1..] == rest + after;
      hide *;
      Chained(NumberIn(before[0]), PayloadTypes(before), PayloadTypes(before) + PayloadTypes(after),
          PayloadTypes(rest), PayloadTypes(after), PayloadTypes(rest + after));
    }
  }

  /** Each word counts for itself: one that is no number is skipped, and those after it still count. */
  lemma WordsCountAlone(before: seq<string>, word: string, after: seq<string>)
    ensures PayloadTypes(before + [word] + after) == PayloadTypes(before) + NumberIn(word) + PayloadTypes(after)
  {
    PayloadTypesStep([word]);
    assert [word][1..] == [] && PayloadTypes([]) == [];
    hide PayloadTypes, NumberIn;
    PayloadTypesThen(before, [word]);
    PayloadTypesThen(before + [word], after);
  }

  /** What one line does. */
  lemma LineReads<Ip>(ip: IpText<Ip>, scan: Scan<Ip>, line: string)
    ensures
      var next := ReadLine(ip, scan, line);
      && next.addr == (if IsConnection(line) then ip.parse(Words(Trim(line))[2]) else scan.addr)
      && (if HasPort(line) then
            (next.port.Some? <==> PortOn(line).Some?) && (next.port.Some? ==> next.port.value == PortOn(line).value)
          else next.port == scan.port)
      && next.pts == scan.pts + NumbersOn(line) && next.maps == scan.maps + MapsOn(line)
  {
    OneKind(line);
    assert PayloadTypes([]) == [] && scan.pts + [] == scan.pts && scan.maps + [] == scan.maps;
    hide Text.ParseUnsigned, Text.Words, Text.Trim, ReadRtpMap, PayloadTypes, Text.StartsWith;
  }

  /** The last line of a kind decides. */
  ghost predicate LastIs(lines: seq<string>, kind: string -> bool, i: nat) {
    i < |lines| && kind(lines[i]) && forall j :: i < j < |lines| ==> !kind(lines[j])
  }

  ghost predicate NoneIs(lines: seq<string>, kind: string -> bool) {
    forall j :: 0 <= j < |lines| ==> !kind(lines[j])
  }

  lemma LastOfTail(lines: seq<string>, kind: string -> bool)
    requires lines != []
    ensures NoneIs(lines, kind) <==> !kind(lines[0]) && NoneIs(lines[1..], kind)
    ensures forall i: nat :: LastIs(lines[1..], kind, i) ==> LastIs(lines, kind, i + 1)
    ensures kind(lines[0]) && NoneIs(lines[1..], kind) ==> LastIs(lines, kind, 0)
  {
    assert forall j :: 0 <= j < |lines[1..]| ==> lines[1..][j] == lines[j + 1];
    if kind(lines[0]) && NoneIs(lines[1..], kind) {
      assert forall j :: 0 < j < |lines| ==> lines[j] == lines[1..][j - 1];
    }
    if !kind(lines[0]) && NoneIs(lines[1..], kind) {
      assert forall j :: 0 < j < |lines| ==> lines[j] == lines[1..][j - 1];
    }
    forall i: nat | LastIs(lines[1..], kind, i) ensures LastIs(lines, kind, i + 1) {
      assert forall j :: i + 1 < j < |lines| ==> lines[j] == lines[1..][j - 1];
    }
  }

  ghost predicate AddressFrom<Ip>(ip: IpText<Ip>, before: Option<Ip>, lines: seq<string>, addr: Option<Ip>) {
    || (NoneIs(lines, IsConnection) && addr == before)
    || (exists i: nat :: LastIs(lines, IsConnection, i) && addr == ip.parse(Words(Trim(lines[i]))[2]))
  }

  ghost predicate PortFrom(before: Option<Word16>, lines: seq<string>, port: Option<Word16>) {
    || (NoneIs(lines, HasPort) && port == before)
    || (exists i: nat :: LastIs(lines, HasPort, i) && (port.Some? <==> PortOn(lines[i]).Some?)
          && (port.Some? ==> port.value == PortOn(lines[i]).value))
  }

  lemma AddressStep<Ip>(ip: IpText<Ip>, before: Option<Ip>, lines: seq<string>, addr: Option<Ip>)
    requires lines != []
    requires AddressFrom(ip, if IsConnection(lines[0]) then ip.parse(Words(Trim(lines[0]))[2]) else before,
        lines[1..], addr)
    ensures AddressFrom(ip, before, lines, addr)
  {
    LastOfTail(lines, IsConnection);
    hide IsConnection, LastIs, NoneIs;
    if i: nat :| LastIs(lines[1..], IsConnection, i) && addr == ip.parse(Words(Trim(lines[1..][i]))[2]) {
      assert LastIs(lines, IsConnection, i + 1);
    }
  }

  lemma PortStep(before: Option<Word16>, first: Option<Word16>, lines: seq<string>, port: Option<Word16>)
    requires lines != []
    requires if HasPort(lines[0]) then
        (first.Some? <==> PortOn(lines[0]).Some?) && (first.Some? ==> first.value == PortOn(lines[0]).value)
      else first == before
    requires PortFrom(first, lines[1..], port)
    ensures PortFrom(before, lines, port)
  {
    LastOfTail(lines, HasPort);
  }

  lemma LinesStep<Ip>(ip: IpText<Ip>, scan: Scan<Ip>, lines: seq<string>)
    requires lines != []
    ensures ReadLines(ip, scan, lines) == ReadLines(ip, ReadLine(ip, scan, lines[0]), lines[1..])
    ensures AllNumbers(lines) == NumbersOn(lines[0]) + AllNumbers(lines[1..])
    ensures AllMaps(lines) == MapsOn(lines[0]) + AllMaps(lines[1..])
  {
  }

  /** What a text comes to, line by line. */
  ghost predicate Reads<Ip>(ip: IpText<Ip>, scan: Scan<Ip>, lines: seq<string>, read: Scan<Ip>) {
    && AddressFrom(ip, scan.addr, lines, read.addr) && PortFrom(scan.port, lines, read.port)
    && read.pts == scan.pts + AllNumbers(lines) && read.maps == scan.maps + AllMaps(lines)
  }

  lemma ReadsOn<Ip>(ip: IpText<Ip>, scan: Scan<Ip>, lines: seq<string>, read: Scan<Ip>)
    requires lines != [] && Reads(ip, ReadLine(ip, scan, lines[0]), lines[1..], read)
    ensures Reads(ip, scan, lines, read)
  {
    var next := ReadLine(ip, scan, lines[0]);
    LineReads(ip, scan, lines[0]);
    LinesStep(ip, scan, lines);
    hide ReadLine, NumbersOn, MapsOn, PortOn, IsConnection, HasPort, AddressFrom, PortFrom, AllNumbers, AllMaps;
    AddressStep(ip, scan.addr, lines, read.addr);
    PortStep(scan.port, next.port, lines, read.port);
    Chained(scan.pts, next.pts, read.pts, NumbersOn(lines[0]), AllNumbers(lines[1..]), AllNumbers(lines));
    Chained(scan.maps, next.maps, read.maps, MapsOn(lines[0]), AllMaps(lines[1..]), AllMaps(lines));
  }

  lemma {:induction false} LinesRead<Ip>(ip: IpText<Ip>, scan: Scan<Ip>, lines: seq<string>)
    ensures Reads(ip, scan, lines, ReadLines(ip, scan, lines))
    decreases |lines|
  {
    if lines == [] {
      assert AllNumbers(lines) == [] && AllMaps(lines) == [];
    } else {
      LinesStep(ip, scan, lines);
      LinesRead(ip, ReadLine(ip, scan, lines[0]), lines[1..]);
      ReadsOn(ip, scan, lines, ReadLines(ip, scan, lines));
      hide Reads;
    }
  }
}
