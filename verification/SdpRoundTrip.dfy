/**
 A printed SDP body reads back, at the level of its text: the address, the port, the
 payload types and the rtpmaps, for every menu, direction and version.
 */
module SdpRoundTrip {
  import opened Wrappers
  import opened Bytes
  import opened Text
  import opened Sdp

  /** An address reads back from what it is written as, which is one word. */
  ghost predicate Faithful<Ip(!new)>(ip: IpText<Ip>) {
    forall a :: ip.parse(ip.show(a)) == Some(a) && Solid(ip.show(a))
  }

  predicate OneLine(s: string) { '\n' !in s }

  predicate AllOneLine(lines: seq<string>) {
    forall i :: 0 <= i < |lines| ==> OneLine(lines[i])
  }

  lemma AllOneLineConcat(a: seq<string>, b: seq<string>)
    requires AllOneLine(a) && AllOneLine(b)
    ensures AllOneLine(a + b)
  {
    hide OneLine;
  }

  lemma {:induction false} JoinedSplits(lines: seq<string>)
    requires AllOneLine(lines)
    ensures Lines(Joined(lines)) == lines
  {
    if lines == [] {
    } else {
      assert OneLine(lines[0]);
      LinesThen(lines[0], Joined(lines[1..]));
      JoinedSplits(lines[1..]);
    }
  }

  /** A line that trimming leaves alone, with no line end inside. */
  predicate Tight(line: string) {
    && OneLine(line) && line != [] && !IsWhitespace(line[0]) && !IsWhitespace(line[|line| - 1])
  }

  /** Lines that are no c=, m= or rtpmap line. */
  predicate Inert(line: string) {
    && Tight(line) && |line| >= 3
    && (line[0] in {'v', 'o', 's', 't'} || (line[0] == 'a' && line[2] != 'r'))
  }

  lemma InertIsSkipped<Ip>(ip: IpText<Ip>, scan: Scan<Ip>, line: string)
    requires Inert(line)
    ensures ReadLine(ip, scan, line) == scan && OneLine(line)
  {
    hide Text.Trim, Text.Words, PayloadTypes, ReadRtpMap, Connection4, Connection6, MediaLine, RtpMapLine;
    TrimmedAlready(line);
  }

  lemma SolidIsTight(prefix: string, word: string)
    requires prefix != [] && OneLine(prefix) && !IsWhitespace(prefix[0]) && Solid(word)
    ensures Tight(prefix + word)
  {
    var line := prefix + word;
    assert line[|line| - 1] == word[|word| - 1];
    assert IsWhitespace('\n');
  }

  /** Two words, each with its space, and what follows. */
  lemma TwoWords(a: string, b: string, rest: string)
    requires Solid(a) && Solid(b)
    ensures Words(a + " " + b + " " + rest) == [a, b] + Words(rest)
  {
    hide Text.Words, Solid;
    WordsThen(a, b + " " + rest);
    WordsThen(b, rest);
    assert a + " " + b + " " + rest == a + " " + (b + " " + rest);
  }

  lemma ConnectionSpelled()
    ensures Connection4() == "c=IN" + " " + "IP4" + " " && OneLine(Connection4())
    ensures Solid("c=IN") && Solid("IP4")
  {
  }

  /** The words of a c= line. */
  lemma ConnectionWords(word: string)
    requires Solid(word)
    ensures Words(Connection4() + word) == ["c=IN", "IP4", word]
    ensures Tight(Connection4() + word)
  {
    ConnectionSpelled();
    assert !IsWhitespace(Connection4()[0]);
    SolidIsTight(Connection4(), word);
    hide Connection4, Text.Words, Solid, Tight;
    TwoWords("c=IN", "IP4", word);
    WordsThen(word, "");
  }

  lemma ConnectionIsRead<Ip(!new)>(ip: IpText<Ip>, scan: Scan<Ip>, local: Ip)
    requires Faithful(ip)
    ensures ReadLine(ip, scan, Connection4() + ip.show(local)) == scan.(addr := Some(local))
    ensures OneLine(Connection4() + ip.show(local))
  {
    ConnectionWords(ip.show(local));
    hide Text.Trim, Text.Words, PayloadTypes, ReadRtpMap, Connection4, Connection6, MediaLine, RtpMapLine;
    TrimmedAlready(Connection4() + ip.show(local));
  }

  lemma ListWord(w: string, rest: string, pts: seq<Byte>)
    requires Solid(w) && pts != [] && OneLine(rest) && rest != [] && !IsWhitespace(rest[|rest| - 1])
    requires |Words(rest)| == |pts| && ParseUnsigned(Words(rest)[0], 255) == Some(pts[0])
        && PayloadTypes(Words(rest)[1..]) == pts[1..]
    ensures var s := w + " " + rest;
            && |Words(s)| == 1 + |pts| && Words(s)[0] == w && PayloadTypes(Words(s)[1..]) == pts
            && OneLine(s) && !IsWhitespace(s[|s| - 1])
  {
    hide Text.Words, Text.ParseUnsigned;
    WordsThen(w, rest);
    assert IsWhitespace('\n');
    assert ([w] + Words(rest))[1..] == Words(rest);
  }

  /** The words of a word with a number list after it. */
  lemma {:induction false} WordsOfList(w: string, pts: seq<Byte>)
    requires Solid(w)
    ensures var words := Words(w + NumberList(pts));
            |words| == 1 + |pts| && words[0] == w && PayloadTypes(words[1..]) == pts
    ensures var s := w + NumberList(pts); OneLine(s) && !IsWhitespace(s[|s| - 1])
    decreases |pts|
  {
    hide Text.Words, Text.Decimal, Text.ParseUnsigned;
    if pts == [] {
      assert w + NumberList(pts) == w;
      WordsThen(w, "");
      assert IsWhitespace('\n');
    } else {
      DecimalIsSolid(pts[0]);
      DecimalParses(pts[0], 255);
      WordsOfList(Decimal(pts[0]), pts[1..]);
      assert w + NumberList(pts) == w + " " + (Decimal(pts[0]) + NumberList(pts[1..]));
      ListWord(w, Decimal(pts[0]) + NumberList(pts[1..]), pts);
    }
  }

  lemma MediaSpelled()
    ensures MediaLine() == "m=audio" + " " && OneLine(MediaLine()) && Solid("m=audio") && !IsWhitespace(MediaLine()[0])
    ensures Solid("RTP/AVP")
  {
  }

  /** An m= line, as its two first words and the rest. */
  function MediaBody(port: Word16, pts: seq<Byte>): string {
    "m=audio" + " " + Decimal(port) + " " + ("RTP/AVP" + NumberList(pts))
  }

  lemma RegroupMedia(a: string, s: string, b: string, c: string, d: string)
    ensures a + s + b + (s + c) + d == a + s + b + s + (c + d)
  {
  }

  lemma MediaAsPrinted(port: Word16, pts: seq<Byte>)
    ensures MediaLine() + Decimal(port) + " RTP/AVP" + NumberList(pts) == MediaBody(port, pts)
  {
    hide Text.Decimal, NumberList;
    assert " RTP/AVP" == " " + "RTP/AVP";
    MediaSpelled();
    hide MediaLine;
    RegroupMedia("m=audio", " ", Decimal(port), "RTP/AVP", NumberList(pts));
  }

  lemma MediaIsTight(number: string, tail: string)
    requires Solid(number) && tail != [] && OneLine(tail) && !IsWhitespace(tail[|tail| - 1])
    ensures Tight("m=audio" + " " + number + " " + tail)
  {
    var line := "m=audio" + " " + number + " " + tail;
    assert line[|line| - 1] == tail[|tail| - 1];
    assert IsWhitespace('\n');
  }

  /** The words of an m= line. */
  lemma MediaWords(port: Word16, pts: seq<Byte>)
    ensures var line := MediaBody(port, pts);
            && Tight(line) && |Words(line)| == 3 + |pts|
            && Words(line)[1] == Decimal(port) && PayloadTypes(Words(line)[3..]) == pts
  {
    var tail := "RTP/AVP" + NumberList(pts);
    MediaSpelled();
    WordsOfList("RTP/AVP", pts);
    DecimalIsSolid(port);
    MediaIsTight(Decimal(port), tail);
    hide Text.Words, Text.Decimal, Text.ParseUnsigned, NumberList, PayloadTypes, Solid, Tight;
    TwoWords("m=audio", Decimal(port), tail);
    var words := Words(MediaBody(port, pts));
    assert words[3..] == Words(tail)[1..];
  }

  lemma MediaIsRead<Ip>(ip: IpText<Ip>, scan: Scan<Ip>, port: Word16, pts: seq<Byte>)
    ensures var line := MediaLine() + Decimal(port) + " RTP/AVP" + NumberList(pts);
            OneLine(line) && ReadLine(ip, scan, line) == scan.(port := Some(port), pts := scan.pts + pts)
  {
    MediaWords(port, pts);
    MediaAsPrinted(port, pts);
    DecimalParses(port, TWO_16 - 1);
    hide MediaBody, Text.Trim, Text.Words, Text.Decimal, Text.ParseUnsigned, NumberList, PayloadTypes, ReadRtpMap;
    hide Connection4, Connection6, MediaLine, RtpMapLine;
    var line := MediaLine() + Decimal(port) + " RTP/AVP" + NumberList(pts);
    TrimmedAlready(line);
    assert line[..8] == MediaLine();
  }

  /** Attributes as this stack prints them. */
  predicate Usual(a: Attr) {
    match a
    case RtpMap(_, name, _, channels) => Solid(name) && '/' !in name && channels in {"", "/2"}
    case Fmtp(_, params) => Solid(params)
  }

  function MapOf(a: Attr): seq<Mapped> {
    if a.RtpMap? then [Mapped(a.pt, Lower(a.name), a.rate)] else []
  }

  function MapsOf(attrs: seq<Attr>): seq<Mapped> {
    if attrs == [] then [] else MapOf(attrs[0]) + MapsOf(attrs[1..])
  }

  lemma UpToChannels(digits: string, channels: string)
    requires '/' !in digits && channels in {"", "/2"}
    ensures UpTo(digits + channels, '/') == digits
  {
    if channels == "/2" {
      assert digits + channels == digits + ['/'] + "2";
      SplitAtFirst(digits, '/', "2");
    } else {
      assert digits + channels == digits;
    }
    hide Text.SplitOnce;
  }

  lemma RateParts(name: string, digits: string, channels: string)
    requires Solid(name) && '/' !in name && Solid(digits) && '/' !in digits && channels in {"", "/2"}
    ensures var mapping := name + ['/'] + (digits + channels);
            UpTo(mapping, '/') == name && Second(mapping, '/') == digits && Solid(mapping)
  {
    SplitAtFirst(name, '/', digits + channels);
    UpToChannels(digits, channels);
    hide Text.SplitOnce;
    assert !IsWhitespace('/') && !IsWhitespace('2');
  }

  lemma DigitsHaveNoSlash(digits: string)
    requires AllDigits(digits)
    ensures '/' !in digits
  {
    assert !IsDigit('/');
  }

  lemma RateIsRead(name: string, rate: Word32, channels: string)
    requires Solid(name) && '/' !in name && channels in {"", "/2"}
    ensures var mapping := name + ['/'] + (Decimal(rate) + channels);
            && UpTo(mapping, '/') == name
            && ParseUnsigned(Second(mapping, '/'), TWO_32 - 1) == Some(rate)
            && Solid(mapping)
  {
    DecimalIsSolid(rate);
    DecimalParses(rate, TWO_32 - 1);
    DigitsHaveNoSlash(Decimal(rate));
    hide Text.Decimal, Text.ParseUnsigned;
    RateParts(name, Decimal(rate), channels);
  }

  lemma TightRtpMap(prefix: string, number: string, mapping: string)
    requires |prefix| > 0 && OneLine(prefix) && !IsWhitespace(prefix[0]) && Solid(number) && Solid(mapping)
    ensures Tight(prefix + (number + " " + mapping))
  {
    assert IsWhitespace('\n');
    SolidIsTight(prefix + number + " ", mapping);
    assert prefix + (number + " " + mapping) == prefix + number + " " + mapping;
  }

  lemma MappingIsRead(a: Attr)
    requires a.RtpMap? && Usual(a)
    ensures var rest := Decimal(a.pt) + " " + (a.name + ['/'] + (Decimal(a.rate) + a.channels));
            ReadRtpMap(rest) == Some(Mapped(a.pt, Lower(a.name), a.rate)) && Tight(RtpMapLine() + rest)
  {
    var number, mapping := Decimal(a.pt), a.name + ['/'] + (Decimal(a.rate) + a.channels);
    RateIsRead(a.name, a.rate, a.channels);
    DecimalIsSolid(a.pt);
    DecimalParses(a.pt, 255);
    SplitWordIs(number, mapping);
    assert OneLine(RtpMapLine());
    hide Text.Decimal, Text.ParseUnsigned, UpTo, Second, Text.Lower, RtpMapLine, Text.SplitWord;
    TightRtpMap(RtpMapLine(), number, mapping);
  }

  lemma RtpMapLineIsRead<Ip>(ip: IpText<Ip>, scan: Scan<Ip>, rest: string)
    requires ReadRtpMap(rest).Some? && Tight(RtpMapLine() + rest)
    ensures ReadLine(ip, scan, RtpMapLine() + rest) == scan.(maps := scan.maps + [ReadRtpMap(rest).value])
  {
    hide Text.Trim, Text.Words, PayloadTypes, ReadRtpMap, Connection4, Connection6, MediaLine, RtpMapLine;
    var line := RtpMapLine() + rest;
    TrimmedAlready(line);
    assert line[..9] == RtpMapLine() && line[9..] == rest;
  }

  lemma RtpMapIsRead<Ip>(ip: IpText<Ip>, scan: Scan<Ip>, a: Attr)
    requires a.RtpMap? && Usual(a)
    ensures OneLine(a.Print())
    ensures ReadLine(ip, scan, a.Print()) == scan.(maps := scan.maps + [Mapped(a.pt, Lower(a.name), a.rate)])
  {
    hide Text.Decimal, ReadRtpMap, ReadLine, Text.Lower, Usual, RtpMapLine;
    MappingIsRead(a);
    RtpMapLineIsRead(ip, scan, Decimal(a.pt) + " " + (a.name + ['/'] + (Decimal(a.rate) + a.channels)));
  }

  lemma FmtpIsInert(a: Attr)
    requires a.Fmtp? && Usual(a)
    ensures Inert(a.Print())
  {
    DecimalIsSolid(a.fmt);
    hide Text.Decimal;
    var prefix := "a=fmtp:" + Decimal(a.fmt) + " ";
    assert IsWhitespace('\n');
    SolidIsTight(prefix, a.params);
  }

  function AddMap<Ip>(scan: Scan<Ip>, a: Attr): Scan<Ip> {
    scan.(maps := scan.maps + MapOf(a))
  }

  lemma AttrIsRead<Ip>(ip: IpText<Ip>, scan: Scan<Ip>, a: Attr)
    requires Usual(a)
    ensures OneLine(a.Print()) && ReadLine(ip, scan, a.Print()) == AddMap(scan, a)
  {
    if a.RtpMap? {
      RtpMapIsRead(ip, scan, a);
    } else {
      FmtpIsInert(a);
      InertIsSkipped(ip, scan, a.Print());
      assert scan.maps + MapOf(a) == scan.maps;
    }
  }

  lemma ReadFirst<Ip>(ip: IpText<Ip>, scan: Scan<Ip>, line: string, rest: seq<string>)
    ensures ReadLines(ip, scan, [line] + rest) == ReadLines(ip, ReadLine(ip, scan, line), rest)
  {
    hide ReadLine;
    assert ([line] + rest)[1..] == rest;
  }

  predicate AllUsual(attrs: seq<Attr>) {
    forall i :: 0 <= i < |attrs| ==> Usual(attrs[i])
  }

  lemma {:induction false} AttrsAreRead<Ip>(ip: IpText<Ip>, scan: Scan<Ip>, attrs: seq<Attr>, more: seq<string>)
    requires AllUsual(attrs)
    ensures ReadLines(ip, scan, PrintAll(attrs) + more) == ReadLines(ip, scan.(maps := scan.maps + MapsOf(attrs)), more)
    decreases |attrs|
  {
    hide ReadLine, Usual, Attr.Print, MapOf;
    if attrs == [] {
      assert PrintAll(attrs) + more == more && scan.maps + MapsOf(attrs) == scan.maps;
    } else {
      var line, rest := attrs[0].Print(), PrintAll(attrs[1..]) + more;
      assert Usual(attrs[0]);
      assert PrintAll(attrs) + more == [line] + rest;
      ReadFirst(ip, scan, line, rest);
      AttrIsRead(ip, scan, attrs[0]);
      var next := AddMap(scan, attrs[0]);
      AttrsAreRead(ip, next, attrs[1..], more);
      assert scan.maps + MapOf(attrs[0]) + MapsOf(attrs[1..]) == scan.maps + MapsOf(attrs);
    }
  }

  lemma DtmfIsUsual(d: DtmfSpec)
    ensures AllUsual(DtmfAttrs(d))
  {
    assert Solid("telephone-event") && '/' !in "telephone-event";
    assert Solid("0-15");
    hide Solid;
  }

  lemma CodecIsUsual(codec: AudioCodec)
    ensures Usual(codec.Mapping()) && Usual(Fmtp(codec.Number(), "useinbandfec=1"))
  {
  }

  lemma MenuIsUsual(menu: CodecMenu)
    ensures AllUsual(Attrs(menu))
  {
    hide Usual, DtmfAttrs, AudioCodec.Mapping;
    match menu
    case Full =>
      CodecIsUsual(Opus(OPUS_DEFAULT_PT));
      CodecIsUsual(Pcmu);
      CodecIsUsual(Pcma);
      DtmfIsUsual(DtmfSpec(DTMF_DEFAULT_PT, 8000));
      DtmfIsUsual(DtmfSpec(DTMF_WIDEBAND_DEFAULT_PT, OPUS_RTP_CLOCK_RATE));
    case Pinned(codec, dtmf) =>
      CodecIsUsual(codec);
      if dtmf.Some? {
        DtmfIsUsual(dtmf.value);
      }
  }

  // ---- The whole body ----

  function Blank<Ip>(): Scan<Ip> { Scan(None, None, [], []) }

  lemma OriginIsInert(version: string, address: string)
    requires Solid(version) && Solid(address)
    ensures Inert("o=wavekat 0 " + version + " IN IP4 " + address)
  {
    assert IsWhitespace('\n');
    SolidIsTight("o=wavekat 0 " + version + " IN IP4 ", address);
  }

  lemma FixedLines<Ip(!new)>(ip: IpText<Ip>, local: Ip, version: Word32)
    requires Faithful(ip)
    ensures Inert("v=0") && Inert("s=wavekat-sip") && Inert("t=0 0")
    ensures Inert("o=wavekat 0 " + Decimal(version) + " IN IP4 " + ip.show(local))
  {
    DecimalIsSolid(version);
    hide Text.Decimal;
    OriginIsInert(Decimal(version), ip.show(local));
  }

  lemma DirectionIsInert(direction: MediaDirection)
    ensures Inert("a=" + direction.Attribute())
  {
  }

  lemma ReadThree<Ip>(ip: IpText<Ip>, scan: Scan<Ip>, a: string, b: string, c: string, more: seq<string>)
    ensures ReadLines(ip, scan, [a, b, c] + more)
        == ReadLines(ip, ReadLine(ip, ReadLine(ip, ReadLine(ip, scan, a), b), c), more)
  {
    hide ReadLine, ReadLines;
    var s1 := ReadLine(ip, scan, a);
    assert [a, b, c] + more == [a] + ([b] + ([c] + more));
    ReadFirst(ip, scan, a, [b] + ([c] + more));
    ReadFirst(ip, s1, b, [c] + more);
    ReadFirst(ip, ReadLine(ip, s1, b), c, more);
  }

  lemma HeadByParts<Ip>(ip: IpText<Ip>, local: Ip, port: Word16, pts: seq<Byte>, l0: string, l1: string, l2: string,
          l3: string, l4: string, l5: string, more: seq<string>)
    requires Inert(l0) && Inert(l1) && Inert(l2) && Inert(l4)
    requires OneLine(l3) && ReadLine(ip, Blank(), l3) == Scan(Some(local), None, [], [])
    requires OneLine(l5) && ReadLine(ip, Scan(Some(local), None, [], []), l5) == Scan(Some(local), Some(port), pts, [])
    ensures ReadLines(ip, Blank(), [l0, l1, l2, l3, l4, l5] + more)
        == ReadLines(ip, Scan(Some(local), Some(port), pts, []), more)
    ensures AllOneLine([l0, l1, l2, l3, l4, l5])
  {
    hide ReadLine, ReadLines, Inert, OneLine;
    InertIsSkipped(ip, Blank(), l0);
    InertIsSkipped(ip, Blank(), l1);
    InertIsSkipped(ip, Blank(), l2);
    InertIsSkipped(ip, Scan(Some(local), None, [], []), l4);
    ReadThree(ip, Blank(), l0, l1, l2, [l3, l4, l5] + more);
    ReadThree(ip, Blank(), l3, l4, l5, more);
    assert [l0, l1, l2, l3, l4, l5] + more == [l0, l1, l2] + ([l3, l4, l5] + more);
  }

  function HeadLines<Ip>(ip: IpText<Ip>, local: Ip, port: Word16, version: Word32, pts: seq<Byte>): (r: seq<string>)
    ensures |r| == 6
  {
    ["v=0",
     "o=wavekat 0 " + Decimal(version) + " IN IP4 " + ip.show(local),
     "s=wavekat-sip",
     Connection4() + ip.show(local),
     "t=0 0",
     MediaLine() + Decimal(port) + " RTP/AVP" + NumberList(pts)]
  }

  /** The lines before the attributes set the address, the port and the payload types. */
  lemma HeadIsRead<Ip(!new)>(ip: IpText<Ip>, local: Ip, port: Word16, version: Word32, pts: seq<Byte>,
          more: seq<string>)
    requires Faithful(ip)
    ensures ReadLines(ip, Blank(), HeadLines(ip, local, port, version, pts) + more)
         == ReadLines(ip, Scan(Some(local), Some(port), pts, []), more)
    ensures AllOneLine(HeadLines(ip, local, port, version, pts))
  {
    FixedLines(ip, local, version);
    ConnectionIsRead(ip, Blank(), local);
    MediaIsRead(ip, Scan(Some(local), None, [], []), port, pts);
    assert [] + pts == pts;
    hide Text.Decimal, NumberList, ReadLine, ReadLines, MediaLine, Connection4, Inert, OneLine;
    var origin := "o=wavekat 0 " + Decimal(version) + " IN IP4 " + ip.show(local);
    var media := MediaLine() + Decimal(port) + " RTP/AVP" + NumberList(pts);
    HeadByParts(ip, local, port, pts, "v=0", origin, "s=wavekat-sip", Connection4() + ip.show(local), "t=0 0", media,
        more);
  }

  lemma {:induction false} AttrsAreLines(attrs: seq<Attr>)
    requires AllUsual(attrs)
    ensures AllOneLine(PrintAll(attrs))
  {
    forall i | 0 <= i < |attrs| ensures OneLine(PrintAll(attrs)[i]) {
      var blank: Scan<int> := Blank();
      AttrIsRead(IpText((n: int) => "", (s: string) => None), blank, attrs[i]);
    }
  }

  lemma BodyParts<Ip>(ip: IpText<Ip>, local: Ip, port: Word16, pts: seq<Byte>, attrs: seq<Attr>,
          direction: MediaDirection, version: Word32)
    ensures BodyLines(ip, local, port, pts, attrs, direction, version)
         == HeadLines(ip, local, port, version, pts) + (PrintAll(attrs) + ["a=" + direction.Attribute()])
  {
    hide PrintAll, NumberList, Text.Decimal;
  }

  lemma LinesOfBody(head: seq<string>, attrs: seq<string>, last: seq<string>)
    requires AllOneLine(head) && AllOneLine(attrs) && |last| == 1 && Inert(last[0])
    ensures Lines(Joined(head + (attrs + last))) == head + (attrs + last)
  {
    assert AllOneLine(last);
    AllOneLineConcat(attrs, last);
    AllOneLineConcat(head, attrs + last);
    JoinedSplits(head + (attrs + last));
  }

  /** Reading a printed body finds the address, the port, the numbers and the rtpmaps. */
  lemma BodyReadsBack<Ip(!new)>(ip: IpText<Ip>, local: Ip, port: Word16, pts: seq<Byte>, attrs: seq<Attr>,
          direction: MediaDirection, version: Word32)
    requires Faithful(ip) && AllUsual(attrs)
    ensures ReadText(ip, Joined(BodyLines(ip, local, port, pts, attrs, direction, version)))
         == Scan(Some(local), Some(port), pts, MapsOf(attrs))
  {
    hide MapsOf, Text.Lines, HeadLines, Usual, ReadLine, Joined;
    var head, lines, last := HeadLines(ip, local, port, version, pts), PrintAll(attrs), ["a=" + direction.Attribute()];
    HeadIsRead(ip, local, port, version, pts, lines + last);
    AttrsAreLines(attrs);
    DirectionIsInert(direction);
    var s: Scan<Ip> := Scan(Some(local), Some(port), pts, []);
    AttrsAreRead(ip, s, attrs, last);
    assert s.maps + MapsOf(attrs) == MapsOf(attrs);
    var t := s.(maps := MapsOf(attrs));
    InertIsSkipped(ip, t, last[0]);
    assert ReadLines(ip, t, last) == t by {
      ReadFirst(ip, t, last[0], []);
      assert [last[0]] + [] == last;
    }
    LinesOfBody(head, lines, last);
    BodyParts(ip, local, port, pts, attrs, direction, version);
  }
}
