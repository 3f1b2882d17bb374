/**
 SDP for telephony audio: printing a body, reading one, and choosing what to answer
 (RFC 3264). How an IP address is written and read is a parameter.
 */
module Sdp {
  import opened Wrappers
  import opened Bytes
  import opened Text

  const DTMF_DEFAULT_PT: Byte := 101
  const DTMF_WIDEBAND_DEFAULT_PT: Byte := 110
  const OPUS_DEFAULT_PT: Byte := 111
  const OPUS_RTP_CLOCK_RATE: Word32 := 48_000
  const G711_RTP_CLOCK_RATE: Word32 := 8_000

  datatype MediaDirection = SendRecv | SendOnly | Inactive {
    function Attribute(): string {
      match this case SendRecv => "sendrecv" case SendOnly => "sendonly" case Inactive => "inactive"
    }
  }

  function RtpMapLine(): (r: string) ensures |r| == 9 && r[0] == 'a' && r[2] == 'r' { "a=rtpmap:" }

  /** The attribute lines a body is printed with. */
  datatype Attr = RtpMap(pt: Byte, name: string, rate: Word32, channels: string) | Fmtp(fmt: Byte, params: string) {
    function Print(): string {
      match this
      case RtpMap(pt, name, rate, channels) =>
          RtpMapLine() + (Decimal(pt) + " " + (name + ['/'] + (Decimal(rate) + channels)))
      case Fmtp(fmt, params) => "a=fmtp:" + Decimal(fmt) + " " + params
    }
  }

  datatype AudioCodec = Pcmu | Pcma | Opus(payloadType: Byte) {
    function Number(): Byte {
      match this case Pcmu => 0 case Pcma => 8 case Opus(pt) => pt
    }

    function ClockRate(): Word32 { if Opus? then OPUS_RTP_CLOCK_RATE else G711_RTP_CLOCK_RATE }

    /** The encoding of its rtpmap: Opus is always written with two channels. */
    function Mapping(): Attr {
      match this
      case Pcmu => RtpMap(0, "PCMU", 8000, "")
      case Pcma => RtpMap(8, "PCMA", 8000, "")
      case Opus(pt) => RtpMap(pt, "opus", 48_000, "/2")
    }
  }

  datatype DtmfSpec = DtmfSpec(payloadType: Byte, clockRate: Word32)

  datatype CodecMenu = Full | Pinned(codec: AudioCodec, dtmf: Option<DtmfSpec>)

  /** The beginnings of the lines that are read. */
  function Connection4(): (r: string) ensures |r| == 9 && r[0] == 'c' { "c=IN IP4 " }

  function Connection6(): (r: string) ensures |r| == 9 && r[0] == 'c' { "c=IN IP6 " }

  function MediaLine(): (r: string) ensures |r| == 8 && r[0] == 'm' { "m=audio " }

  /** How addresses are written and read. */
  datatype IpText<!Ip> = IpText(show: Ip -> string, parse: string -> Option<Ip>)

  // ---- Printing ----

  function DtmfAttrs(d: DtmfSpec): seq<Attr> {
    [RtpMap(d.payloadType, "telephone-event", d.clockRate, ""), Fmtp(d.payloadType, "0-15")]
  }

  /** The payload types of the m= line. */
  function Numbers(menu: CodecMenu): seq<Byte> {
    match menu
    case Full => [OPUS_DEFAULT_PT, 0, 8, DTMF_DEFAULT_PT, DTMF_WIDEBAND_DEFAULT_PT]
    case Pinned(codec, dtmf) => [codec.Number()] + (if dtmf.Some? then [dtmf.value.payloadType] else [])
  }

  function Attrs(menu: CodecMenu): seq<Attr> {
    match menu
    case Full =>
      [Opus(OPUS_DEFAULT_PT).Mapping(), Fmtp(OPUS_DEFAULT_PT, "useinbandfec=1"), Pcmu.Mapping(), Pcma.Mapping()]
      + DtmfAttrs(DtmfSpec(DTMF_DEFAULT_PT, 8000)) + DtmfAttrs(DtmfSpec(DTMF_WIDEBAND_DEFAULT_PT, OPUS_RTP_CLOCK_RATE))
    case Pinned(codec, dtmf) =>
      [codec.Mapping()]
      + (if codec.Opus? then [Fmtp(codec.payloadType, "useinbandfec=1")] else [])
      + (if dtmf.Some? then DtmfAttrs(dtmf.value) else [])
  }

  /** Numbers, each after a space. */
  function NumberList(pts: seq<Byte>): string {
    if pts == [] then "" else " " + Decimal(pts[0]) + NumberList(pts[1..])
  }

  function PrintAll(attrs: seq<Attr>): (r: seq<string>)
    ensures |r| == |attrs| && forall i :: 0 <= i < |r| ==> r[i] == attrs[i].Print()
  {
    if attrs == [] then [] else [attrs[0].Print()] + PrintAll(attrs[1..])
  }

  function BodyLines<Ip>(ip: IpText<Ip>, local: Ip, port: Word16, pts: seq<Byte>, attrs: seq<Attr>,
          direction: MediaDirection, version: Word32): seq<string> {
    ["v=0",
     "o=wavekat 0 " + Decimal(version) + " IN IP4 " + ip.show(local),
     "s=wavekat-sip",
     Connection4() + ip.show(local),
     "t=0 0",
     MediaLine() + Decimal(port) + " RTP/AVP" + NumberList(pts)]
    + PrintAll(attrs)
    + ["a=" + direction.Attribute()]
  }

  /** Every line ends in CRLF. */
  function Joined(lines: seq<string>): string {
    if lines == [] then "" else lines[0] + "\r\n" + Joined(lines[1..])
  }

  function SdpText<Ip>(ip: IpText<Ip>, local: Ip, port: Word16, menu: CodecMenu, direction: MediaDirection,
          version: Word32): string {
    Joined(BodyLines(ip, local, port, Numbers(menu), Attrs(menu), direction, version))
  }

  /** The payload types and attribute lines of a menu, grown step by step. */
  method MenuLines(menu: CodecMenu) returns (pts: seq<Byte>, attrs: seq<Attr>)
    ensures pts == Numbers(menu) && attrs == Attrs(menu)
  {
    pts, attrs := [], [];
    match menu {
      case Full =>
        pts := pts + [OPUS_DEFAULT_PT, 0, 8, DTMF_DEFAULT_PT, DTMF_WIDEBAND_DEFAULT_PT];
        attrs := attrs + [RtpMap(OPUS_DEFAULT_PT, "opus", 48_000, "/2"), Fmtp(OPUS_DEFAULT_PT, "useinbandfec=1"),
                          RtpMap(0, "PCMU", 8000, ""), RtpMap(8, "PCMA", 8000, "")];
        attrs := attrs + [RtpMap(DTMF_DEFAULT_PT, "telephone-event", 8000, ""), Fmtp(DTMF_DEFAULT_PT, "0-15")];
        attrs := attrs
            + [RtpMap(DTMF_WIDEBAND_DEFAULT_PT, "telephone-event", OPUS_RTP_CLOCK_RATE, ""),
                Fmtp(DTMF_WIDEBAND_DEFAULT_PT, "0-15")];
      case Pinned(codec, dtmf) =>
        pts := pts + [codec.Number()];
        attrs := attrs + [codec.Mapping()];
        if codec.Opus? {
          attrs := attrs + [Fmtp(codec.Number(), "useinbandfec=1")];
        }
        if dtmf.Some? {
          pts := pts + [dtmf.value.payloadType];
          attrs := attrs + DtmfAttrs(dtmf.value);
        }
    }
  }

  method BuildSdpWith<Ip>(ip: IpText<Ip>, local: Ip, port: Word16, menu: CodecMenu, direction: MediaDirection,
          version: Word32)
    returns (text: string)
    ensures text == SdpText(ip, local, port, menu, direction, version)
  {
    var pts, attrs := MenuLines(menu);
    text := Joined(BodyLines(ip, local, port, pts, attrs, direction, version));
  }

  // ---- Reading ----

  datatype SdpError = NotUtf8 | NoConnectionAddress | NoAudioMedia | NoPayloadType

  datatype RemoteMedia<Ip> = RemoteMedia(
    addr: Ip, port: Word16, payloadType: Byte, codec: Option<AudioCodec>, opusPayloadType: Option<Byte>,
        dtmfEvents: seq<DtmfSpec>)

  /** A parsed rtpmap: its encoding name in lower case. */
  datatype Mapped = Mapped(pt: Byte, name: string, rate: Word32)

  /** What has been read so far. */
  datatype Scan<Ip> = Scan(addr: Option<Ip>, port: Option<Word16>, pts: seq<Byte>, maps: seq<Mapped>)

  /** The words that are payload types, in order; others are skipped. */
  function PayloadTypes(words: seq<string>): seq<Byte> {
    if words == [] then []
    else
      (match ParseUnsigned(words[0], 255) case Some(pt) => [pt as Byte] case None => []) + PayloadTypes(words[1..])
  }

  /** The part of a text up to a character, or all of it. */
  function UpTo(s: string, c: char): string {
    match SplitOnce(s, c) case Some((before, _)) => before case None => s
  }

  /** The part between the first and the second of a character. */
  function Second(s: string, c: char): string {
    match SplitOnce(s, c) case Some((_, after)) => UpTo(after, c) case None => ""
  }

  function ReadRtpMap(rest: string): Option<Mapped> {
    var (number, mapping) := SplitWord(rest);
    match (ParseUnsigned(number, 255), ParseUnsigned(Second(mapping, '/'), TWO_32 - 1))
    case (Some(pt), Some(rate)) => Some(Mapped(pt, Lower(UpTo(mapping, '/')), rate))
    case _ => None
  }

  function ReadLine<Ip>(ip: IpText<Ip>, scan: Scan<Ip>, raw: string): Scan<Ip> {
    var line := Trim(raw);
    if StartsWith(line, Connection4()) || StartsWith(line, Connection6()) then
      var words := Words(line);
      if |words| > 2 then scan.(addr := ip.parse(words[2])) else scan
    else if StartsWith(line, MediaLine()) then
      var words := Words(line);
      scan.(port := if |words| >= 2 then ParseUnsigned(words[1], TWO_16 - 1) else scan.port,
            pts := scan.pts + PayloadTypes(if |words| > 3 then words[3..] else []))
    else if StartsWith(line, RtpMapLine()) then
      match ReadRtpMap(line[9..])
      case Some(m) => scan.(maps := scan.maps + [m])
      case None => scan
    else scan
  }

  function ReadLines<Ip>(ip: IpText<Ip>, scan: Scan<Ip>, lines: seq<string>): Scan<Ip>
    decreases |lines|
  {
    if lines == [] then scan else ReadLines(ip, ReadLine(ip, scan, lines[0]), lines[1..])
  }

  /** The first rtpmap of a number counts. */
  function RtpMapFor(maps: seq<Mapped>, pt: Byte): (r: Option<Mapped>)
    ensures r.Some? ==> r.value.pt == pt && r.value in maps
    ensures r.None? ==> forall m :: m in maps ==> m.pt != pt
  {
    if maps == [] then None else if maps[0].pt == pt then Some(maps[0]) else RtpMapFor(maps[1..], pt)
  }

  /** An explicit rtpmap beats the static meaning of 0 and 8. */
  function ResolveCodec(maps: seq<Mapped>, pt: Byte): Option<AudioCodec> {
    match RtpMapFor(maps, pt)
    case Some(m) =>
      if m.name == "opus" && m.rate == OPUS_RTP_CLOCK_RATE then Some(Opus(pt))
      else if m.name == "pcmu" && m.rate == G711_RTP_CLOCK_RATE then Some(Pcmu)
      else if m.name == "pcma" && m.rate == G711_RTP_CLOCK_RATE then Some(Pcma)
      else None
    case None => if pt == 0 then Some(Pcmu) else if pt == 8 then Some(Pcma) else None
  }

  function FirstCodec(maps: seq<Mapped>, pts: seq<Byte>): Option<AudioCodec> {
    if pts == [] then None
    else if ResolveCodec(maps, pts[0]).Some? then ResolveCodec(maps, pts[0])
    else FirstCodec(maps, pts[1..])
  }

  function FirstOpus(maps: seq<Mapped>, pts: seq<Byte>): Option<Byte> {
    if pts == [] then None
    else
      match ResolveCodec(maps, pts[0])
      case Some(Opus(_)) => Some(pts[0])
      case _ => FirstOpus(maps, pts[1..])
  }

  function DtmfEvents(maps: seq<Mapped>, pts: seq<Byte>): seq<DtmfSpec> {
    if pts == [] then []
    else
      (match RtpMapFor(maps, pts[0])
       case Some(m) => if m.name == "telephone-event" then [DtmfSpec(pts[0], m.rate)] else []
       case None => []) + DtmfEvents(maps, pts[1..])
  }

  function Conclude<Ip>(scan: Scan<Ip>): Result<RemoteMedia<Ip>, SdpError> {
    if scan.addr.None? then Err(NoConnectionAddress)
    else if scan.port.None? then Err(NoAudioMedia)
    else if scan.pts == [] then Err(NoPayloadType)
    else
      Ok(RemoteMedia(scan.addr.value, scan.port.value, scan.pts[0],
                     FirstCodec(scan.maps, scan.pts), FirstOpus(scan.maps, scan.pts), DtmfEvents(scan.maps, scan.pts)))
  }

  function ReadText<Ip>(ip: IpText<Ip>, text: string): Scan<Ip> {
    ReadLines(ip, Scan(None, None, [], []), Lines(text))
  }

  function SdpOf<Ip>(ip: IpText<Ip>, bytes: seq<Byte>): Result<RemoteMedia<Ip>, SdpError> {
    match Decode(bytes)
    case None => Err(NotUtf8)
    case Some(text) => Conclude(ReadText(ip, text))
  }

  method ParseSdp<Ip>(ip: IpText<Ip>, bytes: seq<Byte>) returns (media: Result<RemoteMedia<Ip>, SdpError>)
    ensures media == SdpOf(ip, bytes)
  {
    hide Text.Decode, Text.Lines, Text.Words, ReadRtpMap, FirstCodec, FirstOpus, DtmfEvents, PayloadTypes,
        Text.ParseUnsigned;
    var sdp := Decode(bytes);
    if sdp.None? {
      return Err(NotUtf8);
    }
    var addr: Option<Ip>, port: Option<Word16> := None, None;
    var audioPts: seq<Byte>, rtpmaps: seq<Mapped> := [], [];
    var lines := Lines(sdp.value);
    var i := 0;
    assert lines[0..] == lines;
    while i < |lines|
      invariant i <= |lines|
      invariant ReadText(ip, sdp.value) == ReadLines(ip, Scan(addr, port, audioPts, rtpmaps), lines[i..])
    {
      ghost var scan := Scan(addr, port, audioPts, rtpmaps);
      var line := Trim(lines[i]);
      if StartsWith(line, Connection4()) || StartsWith(line, Connection6()) {
        var words := Words(line);
        if |words| > 2 {
          addr := ip.parse(words[2]);
        }
      } else if StartsWith(line, MediaLine()) {
        var words := Words(line);
        if |words| >= 2 {
          port := ParseUnsigned(words[1], TWO_16 - 1);
        }
        audioPts := audioPts + PayloadTypes(if |words| > 3 then words[3..] else []);
      } else if StartsWith(line, RtpMapLine()) {
        var m := ReadRtpMap(line[9..]);
        if m.Some? {
          rtpmaps := rtpmaps + [m.value];
        }
      }
      assert lines[i..][0] == lines[i] && lines[i..][1..] == lines[i + 1..];
      assert ReadLine(ip, scan, lines[i]) == Scan(addr, port, audioPts, rtpmaps);
      i := i + 1;
    }
    assert lines[i..] == [];
    media := Conclude(Scan(addr, port, audioPts, rtpmaps));
  }

  // ---- Choosing ----

  /** Opus wherever it is offered, else the first G.711. */
  function SelectCodec<Ip>(offer: RemoteMedia<Ip>): Option<AudioCodec> {
    match offer.opusPayloadType case Some(pt) => Some(Opus(pt)) case None => offer.codec
  }

  function FirstAt(events: seq<DtmfSpec>, clock: Word32): Option<DtmfSpec> {
    if events == [] then None else if events[0].clockRate == clock then Some(events[0]) else FirstAt(events[1..], clock)
  }

  /** The entry at the codec's clock, else the first. */
  function SelectDtmf<Ip>(offer: RemoteMedia<Ip>, codec: AudioCodec): Option<DtmfSpec> {
    match FirstAt(offer.dtmfEvents, codec.ClockRate())
    case Some(d) => Some(d)
    case None => if offer.dtmfEvents == [] then None else Some(offer.dtmfEvents[0])
  }

  function DtmfOf<Ip>(media: RemoteMedia<Ip>): Option<DtmfSpec> {
    match media.codec
    case Some(codec) => SelectDtmf(media, codec)
    case None => if media.dtmfEvents == [] then None else Some(media.dtmfEvents[0])
  }
}
