/**
 Offer and answer (section 6 of RFC 3264): what this stack answers parses back to exactly
 what it selected, and stays pinned to it through every later re-offer.
 */
module SdpAgreement {
  import opened Wrappers
  import opened Bytes
  import opened Text
  import opened Sdp
  import opened SdpChoice
  import opened SdpRoundTrip

  // ---- What a printed menu means to its reader ----

  lemma CodecNames()
    ensures Lower("PCMU") == "pcmu" && Lower("PCMA") == "pcma" && Lower("opus") == "opus"
    ensures Lower("telephone-event") == "telephone-event"
  {
    assert Lower("PCMU") == "pcmu";
    assert Lower("PCMA") == "pcma";
    assert Lower("opus") == "opus";
    assert Lower("telephone-event") == "telephone-event";
  }

  /** No codec is called telephone-event. */
  lemma NamesDiffer()
    ensures "telephone-event" != "opus" && "telephone-event" != "pcmu" && "telephone-event" != "pcma"
    ensures "opus" != "pcmu" && "opus" != "pcma" && "pcmu" != "pcma"
  {
    assert |"telephone-event"| == 15 && |"opus"| == 4 && |"pcmu"| == 4 && |"pcma"| == 4;
    assert "opus"[0] == 'o' && "pcmu"[0] == 'p' && "pcma"[0] == 'p' && "pcmu"[3] == 'u' && "pcma"[3] == 'a';
  }

  function EventMap(d: DtmfSpec): Mapped { Mapped(d.payloadType, "telephone-event", d.clockRate) }

  function CodecMap(codec: AudioCodec): Mapped {
    match codec
    case Pcmu => Mapped(0, "pcmu", 8000)
    case Pcma => Mapped(8, "pcma", 8000)
    case Opus(pt) => Mapped(pt, "opus", 48_000)
  }

  lemma MapsOfConcat(a: seq<Attr>, b: seq<Attr>)
    ensures MapsOf(a + b) == MapsOf(a) + MapsOf(b)
    decreases |a|
  {
    hide MapOf;
    if a == [] {
      assert a + b == b;
    } else {
      assert (a + b)[1..] == a[1..] + b;
      MapsOfConcat(a[1..], b);
    }
  }

  lemma MapsOfTwo(a: Attr, b: Attr)
    ensures MapsOf([a]) == MapOf(a) && MapsOf([a, b]) == MapOf(a) + MapOf(b) && MapsOf([]) == []
  {
    assert [a, b][1..] == [b] && [b][1..] == [] && [a][1..] == [];
    assert MapOf(a) + [] == MapOf(a) && MapOf(b) + [] == MapOf(b);
    hide MapOf;
  }

  lemma EventsMap(d: DtmfSpec)
    ensures MapsOf(DtmfAttrs(d)) == [EventMap(d)]
  {
    CodecNames();
    var attrs := DtmfAttrs(d);
    MapsOfTwo(attrs[0], attrs[1]);
    assert attrs == [attrs[0], attrs[1]];
    assert MapOf(attrs[0]) == [EventMap(d)] && MapOf(attrs[1]) == [];
  }

  lemma PinnedMaps(codec: AudioCodec, dtmf: Option<DtmfSpec>)
    ensures MapsOf(Attrs(Pinned(codec, dtmf)))
        == [CodecMap(codec)] + (if dtmf.Some? then [EventMap(dtmf.value)] else [])
  {
    CodecNames();
    var fmtp := Fmtp(codec.Number(), "useinbandfec=1");
    var first := [codec.Mapping()] + (if codec.Opus? then [fmtp] else []);
    var events := if dtmf.Some? then DtmfAttrs(dtmf.value) else [];
    MapsOfTwo(codec.Mapping(), fmtp);
    assert MapOf(codec.Mapping()) == [CodecMap(codec)] && MapOf(fmtp) == [];
    assert MapsOf(first) == [CodecMap(codec)];
    if dtmf.Some? {
      EventsMap(dtmf.value);
    }
    MapsOfConcat(first, events);
    assert Attrs(Pinned(codec, dtmf)) == first + events;
  }

  /** What a pinned body means to its reader. */
  function PinnedMedia<Ip>(local: Ip, port: Word16, codec: AudioCodec, dtmf: Option<DtmfSpec>): RemoteMedia<Ip> {
    RemoteMedia(local, port, codec.Number(), Some(codec), if codec.Opus? then Some(codec.payloadType) else None,
                if dtmf.Some? && dtmf.value.payloadType != codec.Number() then [dtmf.value] else [])
  }

  /** How a reader resolves the numbers of a pinned body. */
  lemma CodecResolves(codec: AudioCodec, maps: seq<Mapped>, dtmf: Option<DtmfSpec>)
    requires maps == [CodecMap(codec)] + (if dtmf.Some? then [EventMap(dtmf.value)] else [])
    ensures RtpMapFor(maps, codec.Number()) == Some(CodecMap(codec))
        && ResolveCodec(maps, codec.Number()) == Some(codec)
    ensures CodecMap(codec).name != "telephone-event"
    ensures dtmf.Some? && dtmf.value.payloadType != codec.Number() ==>
      RtpMapFor(maps, dtmf.value.payloadType) == Some(EventMap(dtmf.value))
          && ResolveCodec(maps, dtmf.value.payloadType) == None
  {
    NamesDiffer();
    if dtmf.Some? {
      assert maps[1..] == [EventMap(dtmf.value)];
    }
  }

  lemma PinnedOpus(codec: AudioCodec, dtmf: Option<DtmfSpec>, maps: seq<Mapped>, pts: seq<Byte>)
    requires maps == [CodecMap(codec)] + (if dtmf.Some? then [EventMap(dtmf.value)] else [])
    requires pts == Numbers(Pinned(codec, dtmf))
    ensures FirstOpus(maps, pts) == (if codec.Opus? then Some(codec.payloadType) else None)
  {
    CodecResolves(codec, maps, dtmf);
    var rest := pts[1..];
    assert FirstOpus(maps, []) == None;
    assert FirstOpus(maps, pts) == if codec.Opus? then Some(codec.payloadType) else FirstOpus(maps, rest);
    if dtmf.Some? {
      assert rest == [dtmf.value.payloadType] && rest[1..] == [];
    } else {
      assert rest == [];
    }
  }

  lemma PinnedEvents(codec: AudioCodec, dtmf: Option<DtmfSpec>, maps: seq<Mapped>, pts: seq<Byte>)
    requires maps == [CodecMap(codec)] + (if dtmf.Some? then [EventMap(dtmf.value)] else [])
    requires pts == Numbers(Pinned(codec, dtmf))
    ensures DtmfEvents(maps, pts)
        == (if dtmf.Some? && dtmf.value.payloadType != codec.Number() then [dtmf.value] else [])
  {
    CodecResolves(codec, maps, dtmf);
    var rest := pts[1..];
    assert DtmfEvents(maps, []) == [];
    assert DtmfEvents(maps, pts) == [] + DtmfEvents(maps, rest);
    if dtmf.Some? {
      assert rest == [dtmf.value.payloadType] && rest[1..] == [];
    } else {
      assert rest == [];
    }
  }

  lemma PinnedConcludes<Ip>(local: Ip, port: Word16, codec: AudioCodec, dtmf: Option<DtmfSpec>)
    ensures Conclude(Scan(Some(local), Some(port), Numbers(Pinned(codec, dtmf)), MapsOf(Attrs(Pinned(codec, dtmf)))))
         == Ok(PinnedMedia(local, port, codec, dtmf))
  {
    PinnedMaps(codec, dtmf);
    var maps := MapsOf(Attrs(Pinned(codec, dtmf)));
    var pts := Numbers(Pinned(codec, dtmf));
    hide Attrs, MapsOf;
    NamesDiffer();
    CodecResolves(codec, maps, dtmf);
    PinnedEvents(codec, dtmf, maps, pts);
    PinnedOpus(codec, dtmf, maps, pts);
    assert pts[0] == codec.Number();
  }

  /**
   The round trip of a pinned body: the codec at its number always reads back, even Opus on
   0 or 8, and the DTMF entry exactly when its number is not the codec's.
   */
  lemma PinnedReadsBack<Ip(!new)>(ip: IpText<Ip>, local: Ip, port: Word16, codec: AudioCodec, dtmf: Option<DtmfSpec>,
          direction: MediaDirection, version: Word32, bytes: seq<Byte>)
    requires Faithful(ip) && Decode(bytes) == Some(SdpText(ip, local, port, Pinned(codec, dtmf), direction, version))
    ensures SdpOf(ip, bytes) == Ok(PinnedMedia(local, port, codec, dtmf))
    ensures PinnedMedia(local, port, codec, dtmf).dtmfEvents == (if dtmf.Some? then [dtmf.value] else [])
            <==> (dtmf.Some? ==> dtmf.value.payloadType != codec.Number())
  {
    hide Text.Decode, BodyLines, Joined, Conclude, ReadText, Numbers, Attrs;
    MenuIsUsual(Pinned(codec, dtmf));
    BodyReadsBack(ip, local, port, Numbers(Pinned(codec, dtmf)), Attrs(Pinned(codec, dtmf)), direction, version);
    PinnedConcludes(local, port, codec, dtmf);
  }

  const NARROW := DtmfSpec(DTMF_DEFAULT_PT, 8000)
  const WIDE := DtmfSpec(DTMF_WIDEBAND_DEFAULT_PT, OPUS_RTP_CLOCK_RATE)

  function FullMedia<Ip>(local: Ip, port: Word16): RemoteMedia<Ip> {
    RemoteMedia(local, port, OPUS_DEFAULT_PT, Some(Opus(OPUS_DEFAULT_PT)), Some(OPUS_DEFAULT_PT), [NARROW, WIDE])
  }

  lemma FullMaps()
    ensures MapsOf(Attrs(Full))
        == [CodecMap(Opus(OPUS_DEFAULT_PT)), CodecMap(Pcmu), CodecMap(Pcma), EventMap(NARROW), EventMap(WIDE)]
  {
    CodecNames();
    var opus, fmtp := Opus(OPUS_DEFAULT_PT).Mapping(), Fmtp(OPUS_DEFAULT_PT, "useinbandfec=1");
    var a, b, c, d := [opus, fmtp], [Pcmu.Mapping(), Pcma.Mapping()], DtmfAttrs(NARROW), DtmfAttrs(WIDE);
    MapsOfTwo(opus, fmtp);
    MapsOfTwo(Pcmu.Mapping(), Pcma.Mapping());
    EventsMap(NARROW);
    EventsMap(WIDE);
    hide MapsOf;
    MapsOfConcat(a, b);
    MapsOfConcat(a + b, c);
    MapsOfConcat(a + b + c, d);
    assert Attrs(Full) == a + b + c + d;
  }

  // ---- The answer ----

  /** Reading a text as an offer. */
  ghost predicate Offers<Ip>(scan: Scan<Ip>, offer: RemoteMedia<Ip>, codec: AudioCodec) {
    Conclude(scan) == Ok(offer) && SelectCodec(offer) == Some(codec)
  }

  /** The codec is offered at the number it is answered at. */
  predicate AtOwnNumber<Ip>(scan: Scan<Ip>, codec: AudioCodec) {
    codec.Number() in scan.pts && ResolveCodec(scan.maps, codec.Number()) == Some(codec)
  }

  lemma {:induction false} FirstOpusIsOffered(maps: seq<Mapped>, pts: seq<Byte>)
    ensures FirstOpus(maps, pts).Some? ==>
      FirstOpus(maps, pts).value in pts
          && ResolveCodec(maps, FirstOpus(maps, pts).value) == Some(Opus(FirstOpus(maps, pts).value))
    ensures FirstOpus(maps, pts).None? ==> FirstCodec(maps, pts).None? || !FirstCodec(maps, pts).value.Opus?
  {
    if pts == [] {
    } else {
      FirstOpusIsOffered(maps, pts[1..]);
    }
  }

  /** Opus is always answered at the number it was offered at; G.711 is answered at its static one. */
  lemma OpusIsAtItsNumber<Ip>(scan: Scan<Ip>, offer: RemoteMedia<Ip>, codec: AudioCodec)
    requires Offers(scan, offer, codec) && codec.Opus?
    ensures AtOwnNumber(scan, codec)
  {
    FirstOpusIsOffered(scan.maps, scan.pts);
  }

  /** A number means the same codec, the same events or nothing to two readers. */
  predicate SameMeaning(a: seq<Mapped>, b: seq<Mapped>, pt: Byte) {
    ResolveCodec(a, pt) == ResolveCodec(b, pt) && EventClock(a, pt) == EventClock(b, pt)
  }

  lemma {:induction false} EventsAreOffered(maps: seq<Mapped>, pts: seq<Byte>)
    ensures forall d :: d in DtmfEvents(maps, pts) ==>
        d.payloadType in pts && EventClock(maps, d.payloadType) == Some(d.clockRate)
  {
    if pts == [] {
    } else {
      EventsAreOffered(maps, pts[1..]);
    }
  }

  lemma {:induction false} FirstAtIsIn(events: seq<DtmfSpec>, clock: Word32)
    ensures FirstAt(events, clock).Some? ==> FirstAt(events, clock).value in events
  {
    if events == [] {
    } else {
      FirstAtIsIn(events[1..], clock);
    }
  }

  /** The DTMF entry answered was offered, on a number that is no codec's. */
  lemma SelectedEventIsOffered<Ip>(scan: Scan<Ip>, offer: RemoteMedia<Ip>, codec: AudioCodec)
    requires Offers(scan, offer, codec) && SelectDtmf(offer, codec).Some?
    ensures var d := SelectDtmf(offer, codec).value;
            && d in offer.dtmfEvents && d.payloadType in scan.pts
            && ResolveCodec(scan.maps, d.payloadType) == None
                && EventClock(scan.maps, d.payloadType) == Some(d.clockRate)
  {
    EventsAreOffered(scan.maps, scan.pts);
    FirstAtIsIn(offer.dtmfEvents, codec.ClockRate());
    NamesDiffer();
    var d := SelectDtmf(offer, codec).value;
    assert offer.dtmfEvents != [];
  }

  /** Every number of an answer was offered, and means what it meant in the offer. */
  predicate KeepsOffer<Ip>(offered: Scan<Ip>, answered: Scan<Ip>) {
    forall n :: n in answered.pts ==> n in offered.pts && SameMeaning(offered.maps, answered.maps, n)
  }

  /** The answer keeps to the offer, and reads back to the selected codec and DTMF entry. */
  ghost predicate Agreed<Ip>(ip: IpText<Ip>, scan: Scan<Ip>, offer: RemoteMedia<Ip>, codec: AudioCodec,
          answer: seq<Byte>) {
    && Decode(answer).Some? && KeepsOffer(scan, ReadText(ip, Decode(answer).value))
    && SdpOf(ip, answer).Ok? && SdpOf(ip, answer).value.codec == Some(codec)
    && DtmfOf(SdpOf(ip, answer).value) == SelectDtmf(offer, codec)
  }

  /** The answer to an offer, as bytes. */
  ghost predicate Answers<Ip>(ip: IpText<Ip>, local: Ip, port: Word16, offer: RemoteMedia<Ip>, codec: AudioCodec,
          answer: seq<Byte>) {
    Decode(answer) == Some(SdpText(ip, local, port, Pinned(codec, SelectDtmf(offer, codec)), SendRecv, 0))
  }

  /** The numbers and mappings of a pinned answer. */
  ghost predicate IsPinned<Ip>(answered: Scan<Ip>, codec: AudioCodec, dtmf: Option<DtmfSpec>) {
    && answered.pts == [codec.Number()] + (if dtmf.Some? then [dtmf.value.payloadType] else [])
    && answered.maps == [CodecMap(codec)] + (if dtmf.Some? then [EventMap(dtmf.value)] else [])
  }

  lemma PinnedScans<Ip(!new)>(ip: IpText<Ip>, local: Ip, port: Word16, codec: AudioCodec, dtmf: Option<DtmfSpec>,
          answer: seq<Byte>)
    requires Faithful(ip) && Decode(answer) == Some(SdpText(ip, local, port, Pinned(codec, dtmf), SendRecv, 0))
    ensures IsPinned(ReadText(ip, Decode(answer).value), codec, dtmf)
  {
    hide Text.Decode, BodyLines, Joined, ReadText, Attrs, CodecMap, EventMap;
    MenuIsUsual(Pinned(codec, dtmf));
    BodyReadsBack(ip, local, port, Numbers(Pinned(codec, dtmf)), Attrs(Pinned(codec, dtmf)), SendRecv, 0);
    PinnedMaps(codec, dtmf);
  }

  lemma ResolvedIsNoEvent(maps: seq<Mapped>, pt: Byte)
    ensures ResolveCodec(maps, pt).Some? ==> EventClock(maps, pt) == None
  {
    NamesDiffer();
  }

  /** A pinned answer keeps to an offer that has its DTMF entry if the codec stands at its own number in it. */
  lemma PinnedKeeps<Ip>(scan: Scan<Ip>, answered: Scan<Ip>, codec: AudioCodec, dtmf: Option<DtmfSpec>)
    requires IsPinned(answered, codec, dtmf)
    requires dtmf.Some? ==>
      && dtmf.value.payloadType in scan.pts && ResolveCodec(scan.maps, dtmf.value.payloadType) == None
      && EventClock(scan.maps, dtmf.value.payloadType) == Some(dtmf.value.clockRate)
    ensures KeepsOffer(scan, answered) <==> AtOwnNumber(scan, codec)
    ensures AtOwnNumber(scan, codec) && dtmf.Some? ==> dtmf.value.payloadType != codec.Number()
  {
    var n := codec.Number();
    CodecResolves(codec, answered.maps, dtmf);
    assert answered.pts[0] == n;
    NamesDiffer();
    ResolvedIsNoEvent(scan.maps, n);
    hide ResolveCodec, CodecMap;
    assert KeepsOffer(scan, answered) ==> n in scan.pts && SameMeaning(scan.maps, answered.maps, n);
    if AtOwnNumber(scan, codec) {
      assert SameMeaning(scan.maps, answered.maps, n);
      forall pt | pt in answered.pts ensures pt in scan.pts && SameMeaning(scan.maps, answered.maps, pt) {
        assert pt == n || (dtmf.Some? && pt == dtmf.value.payloadType);
      }
    }
  }

  /** What the reader of a pinned body takes for its DTMF entry. */
  lemma PinnedDtmf<Ip>(local: Ip, port: Word16, codec: AudioCodec, dtmf: Option<DtmfSpec>)
    ensures PinnedMedia(local, port, codec, dtmf).codec == Some(codec)
    ensures DtmfOf(PinnedMedia(local, port, codec, dtmf)) == dtmf
        <==> (dtmf.Some? ==> dtmf.value.payloadType != codec.Number())
  {
    var media: RemoteMedia<Ip> := PinnedMedia(local, port, codec, dtmf);
    assert DtmfOf(media) == SelectDtmf(media, codec);
    if media.dtmfEvents != [] {
      assert media.dtmfEvents == [dtmf.value] && media.dtmfEvents[1..] == [];
      assert FirstAt([], codec.ClockRate()) == None;
    }
  }

  /**
   Offer and answer agree exactly when the offer listed the number the codec is answered on,
   and meant that codec by it. The DTMF entry never stands in the way.
   */
  lemma AnswerAgreesIff<Ip(!new)>(ip: IpText<Ip>, local: Ip, port: Word16, scan: Scan<Ip>, offer: RemoteMedia<Ip>,
          codec: AudioCodec, answer: seq<Byte>)
    requires Faithful(ip) && Offers(scan, offer, codec) && Answers(ip, local, port, offer, codec, answer)
    ensures Agreed(ip, scan, offer, codec, answer) <==> AtOwnNumber(scan, codec)
  {
    hide Text.Decode, SdpText, SdpOf, Conclude, ReadText, Offers;
    var dtmf := SelectDtmf(offer, codec);
    PinnedReadsBack(ip, local, port, codec, dtmf, SendRecv, 0, answer);
    PinnedScans(ip, local, port, codec, dtmf, answer);
    if dtmf.Some? {
      SelectedEventIsOffered(scan, offer, codec);
    }
    PinnedDtmf<Ip>(local, port, codec, dtmf);
    PinnedKeeps(scan, ReadText(ip, Decode(answer).value), codec, dtmf);
    hide SelectDtmf, DtmfOf, PinnedMedia, KeepsOffer, ResolveCodec, EventClock, Answers;
  }

  /** So they agree whenever Opus is selected, or G.711 was offered at its static number. */
  lemma AnswerAgrees<Ip(!new)>(ip: IpText<Ip>, local: Ip, port: Word16, scan: Scan<Ip>, offer: RemoteMedia<Ip>,
          codec: AudioCodec, answer: seq<Byte>)
    requires Faithful(ip) && Offers(scan, offer, codec) && Answers(ip, local, port, offer, codec, answer)
    requires codec.Opus? || AtOwnNumber(scan, codec)
    ensures Agreed(ip, scan, offer, codec, answer)
    ensures SelectDtmf(offer, codec).Some? ==> SelectDtmf(offer, codec).value.payloadType != codec.Number()
  {
    hide SdpText, SdpOf, Agreed, Text.Decode, ReadText;
    if codec.Opus? {
      OpusIsAtItsNumber(scan, offer, codec);
    }
    if SelectDtmf(offer, codec).Some? {
      SelectedEventIsOffered(scan, offer, codec);
    }
    AnswerAgreesIff(ip, local, port, scan, offer, codec, answer);
  }

  lemma ConcludesPcmu(maps: seq<Mapped>, pts: seq<Byte>)
    requires pts == [96] && maps == [Mapped(96, "pcmu", 8000)]
    ensures FirstCodec(maps, pts) == Some(Pcmu) && FirstOpus(maps, pts) == None && DtmfEvents(maps, pts) == []
  {
    NamesDiffer();
    assert pts[1..] == [];
    assert RtpMapFor(maps, 96) == Some(maps[0]);
  }

  /** An offer of PCMU on a dynamic number alone is answered on 0, which was not offered. */
  lemma DynamicPcmuIsAnsweredElsewhere<Ip(!new)>(ip: IpText<Ip>, remote: Ip, local: Ip, port: Word16, answer: seq<Byte>)
    requires Faithful(ip)
    requires Answers(ip, local, port, RemoteMedia(remote, port, 96, Some(Pcmu), None, []), Pcmu, answer)
    ensures
      var text := Joined(BodyLines(ip, remote, port, [96], [RtpMap(96, "PCMU", 8000, "")], SendRecv, 0));
      var offer := RemoteMedia(remote, port, 96, Some(Pcmu), None, []);
      Offers(ReadText(ip, text), offer, Pcmu) && !Agreed(ip, ReadText(ip, text), offer, Pcmu, answer)
  {
    hide Text.Decode, SdpText, SdpOf, Joined, BodyLines, ReadText;
    var attrs := [RtpMap(96, "PCMU", 8000, "")];
    assert AllUsual(attrs);
    BodyReadsBack(ip, remote, port, [96], attrs, SendRecv, 0);
    CodecNames();
    MapsOfTwo(attrs[0], attrs[0]);
    var scan := Scan(Some(remote), Some(port), [96], [Mapped(96, "pcmu", 8000)]);
    var offer := RemoteMedia(remote, port, 96, Some(Pcmu), None, []);
    assert attrs == [attrs[0]];
    ConcludesPcmu(scan.maps, scan.pts);
    hide FirstCodec, FirstOpus, DtmfEvents, Text.Lower, MapsOf, Agreed, Attr.Print;
    assert Conclude(scan) == Ok(offer);
    AnswerAgreesIff(ip, local, port, scan, offer, Pcmu, answer);
  }

  lemma ReboundResolves(maps: seq<Mapped>)
    requires maps == [Mapped(96, "pcmu", 8000), Mapped(0, "g722", 8000)]
    ensures RtpMapFor(maps, 96) == Some(maps[0]) && RtpMapFor(maps, 0) == Some(maps[1])
    ensures ResolveCodec(maps, 96) == Some(Pcmu) && ResolveCodec(maps, 0) == None
    ensures maps[0].name != "telephone-event" && maps[1].name != "telephone-event"
  {
    NamesDiffer();
    assert "g722"[0] == 'g' && "opus"[0] == 'o' && "pcma"[0] == 'p' && "pcmu"[0] == 'p';
    assert |"g722"| == 4 && |"telephone-event"| == 15;
    assert maps[1..] == [maps[1]];
  }

  lemma ReboundConcludes(maps: seq<Mapped>, pts: seq<Byte>)
    requires pts == [96, 0] && maps == [Mapped(96, "pcmu", 8000), Mapped(0, "g722", 8000)]
    ensures FirstCodec(maps, pts) == Some(Pcmu) && FirstOpus(maps, pts) == None && DtmfEvents(maps, pts) == []
  {
    ReboundResolves(maps);
    hide RtpMapFor, ResolveCodec;
    assert pts[1..] == [0] && [0][1..] == [];
    assert DtmfEvents(maps, []) == [] && FirstOpus(maps, []) == None;
    assert DtmfEvents(maps, [0]) == [] && FirstOpus(maps, [0]) == None;
    assert DtmfEvents(maps, pts) == [] + DtmfEvents(maps, [0]);
  }

  /** So is an offer of PCMU on 96 that lists 0 and binds it to another codec. */
  lemma ReboundPcmuIsAnsweredElsewhere<Ip(!new)>(ip: IpText<Ip>, remote: Ip, local: Ip, port: Word16, answer: seq<Byte>)
    requires Faithful(ip)
    requires Answers(ip, local, port, RemoteMedia(remote, port, 96, Some(Pcmu), None, []), Pcmu, answer)
    ensures
      var scan := Scan(Some(remote), Some(port), [96, 0], [Mapped(96, "pcmu", 8000), Mapped(0, "g722", 8000)]);
      var offer := RemoteMedia(remote, port, 96, Some(Pcmu), None, []);
      Offers(scan, offer, Pcmu) && Pcmu.Number() in scan.pts && !Agreed(ip, scan, offer, Pcmu, answer)
  {
    var scan := Scan(Some(remote), Some(port), [96, 0], [Mapped(96, "pcmu", 8000), Mapped(0, "g722", 8000)]);
    var offer := RemoteMedia(remote, port, 96, Some(Pcmu), None, []);
    ReboundResolves(scan.maps);
    ReboundConcludes(scan.maps, scan.pts);
    hide Text.Decode, SdpText, SdpOf, ReadText, ResolveCodec, FirstCodec, FirstOpus, DtmfEvents, Agreed;
    assert Conclude(scan) == Ok(offer);
    AnswerAgreesIff(ip, local, port, scan, offer, Pcmu, answer);
  }

  // ---- The call after the answer ----

  /** The menu of a re-offer: pinned to the negotiated codec, or the full one if there is none. */
  function HoldMenu<Ip>(media: RemoteMedia<Ip>): CodecMenu {
    match media.codec case Some(codec) => Pinned(codec, DtmfOf(media)) case None => Full
  }

  /**
   Accepting an offer: the answer and the media of the established call, or a 488. Whatever
   the offer was read from, the choice is the one its own lines make.
   */
  method AcceptOffer<Ip(!new)>(ip: IpText<Ip>, local: Ip, port: Word16, offer: RemoteMedia<Ip>)
    returns (r: Option<(string, RemoteMedia<Ip>)>)
    ensures r.None? <==> SelectCodec(offer).None?
    ensures r.Some? ==>
      var codec := SelectCodec(offer).value;
      && r.value.0 == SdpText(ip, local, port, Pinned(codec, SelectDtmf(offer, codec)), SendRecv, 0)
      && r.value.1 == offer.(codec := Some(codec))
      && HoldMenu(r.value.1) == Pinned(codec, SelectDtmf(offer, codec))
    ensures forall scan: Scan<Ip> :: Conclude(scan) == Ok(offer) ==>
        Chosen(scan, if r.Some? then r.value.1.codec else None)
    ensures forall scan: Scan<Ip> :: Conclude(scan) == Ok(offer) && r.Some? && r.value.1.codec.Some? ==>
        exists dtmf: Option<DtmfSpec> :: EventsChosen(scan, if r.value.1.codec.value.Opus? then 48_000 else 8000, dtmf)
          && r.value.0 == SdpText(ip, local, port, Pinned(r.value.1.codec.value, dtmf), SendRecv, 0)
  {
    hide SdpText, Numbers, Attrs, Conclude, Chosen, EventsChosen;
    forall scan: Scan<Ip> | Conclude(scan) == Ok(offer) ensures Chosen(scan, SelectCodec(offer)) {
      SelectsChosen(scan, offer);
    }
    var selected := SelectCodec(offer);
    if selected.None? {
      return None;
    }
    var codec := selected.value;
    var dtmf := SelectDtmf(offer, codec);
    forall scan: Scan<Ip> | Conclude(scan) == Ok(offer) ensures EventsChosen(scan, codec.ClockRate(), dtmf) {
      SelectsEvents(scan, offer, codec);
    }
    var answer := BuildSdpWith(ip, local, port, Pinned(codec, dtmf), SendRecv, 0);
    // The parsed codec was only the peer's first preference.
    r := Some((answer, offer.(codec := Some(codec))));
  }

  /** The version after some re-offers. */
  function VersionAfter(start: Word32, n: nat): Word32 { Wrap32(start + n) }

  /** Whether the call is held after some requests: as the last accepted one asked. */
  function HeldAfter(held: bool, requests: seq<(bool, Option<nat>)>): bool {
    if requests == [] then held
    else
      var last := requests[|requests| - 1];
      if last.1.Some? && 200 <= last.1.value < 300 then last.0 else HeldAfter(held, requests[..|requests| - 1])
  }

  lemma {:induction false} JoinedEnds(lines: seq<string>, last: string)
    ensures exists before: string :: Joined(lines + [last]) == before + last + "\r\n"
    decreases |lines|
  {
    if lines == [] {
      assert [] + [last] == [last] && [last][1..] == [];
      assert Joined([last]) == "" + last + "\r\n";
    } else {
      JoinedEnds(lines[1..], last);
      var before :| Joined(lines[1..] + [last]) == before + last + "\r\n";
      assert (lines + [last])[1..] == lines[1..] + [last];
      assert Joined(lines + [last]) == (lines[0] + "\r\n" + before) + last + "\r\n";
    }
  }

  /** Whether a body ends in a line. */
  ghost predicate EndsIn(text: string, line: string) {
    exists before: string :: text == before + line + "\r\n"
  }

  /** The last line of a body is its direction. */
  lemma BodyEnds<Ip>(ip: IpText<Ip>, local: Ip, port: Word16, menu: CodecMenu, direction: MediaDirection,
          version: Word32)
    ensures EndsIn(SdpText(ip, local, port, menu, direction, version), "a=" + direction.Attribute())
  {
    var lines := BodyLines(ip, local, port, Numbers(menu), Attrs(menu), direction, version);
    assert lines == lines[..|lines| - 1] + ["a=" + direction.Attribute()];
    hide BodyLines;
    JoinedEnds(lines[..|lines| - 1], "a=" + direction.Attribute());
  }

  lemma HeldNone(held: bool)
    ensures HeldAfter(held, []) == held
  {
  }

  lemma HeldStep(held: bool, requests: seq<(bool, Option<nat>)>, next: (bool, Option<nat>))
    ensures HeldAfter(held, requests + [next])
         == if next.1.Some? && 200 <= next.1.value < 300 then next.0 else HeldAfter(held, requests)
  {
    assert (requests + [next])[..|requests|] == requests;
  }

  lemma VersionStep(start: Word32, n: nat)
    ensures VersionAfter(start, n + 1) == Wrap32(VersionAfter(start, n) + 1) && VersionAfter(start, 0) == start
  {
  }

  class Call<Ip(!new)> {
    const ip: IpText<Ip>
    const local: Ip
    const port: Word16
    const remoteMedia: RemoteMedia<Ip>
    var held: bool
    var sdpVersion: Word32

    constructor (ip: IpText<Ip>, local: Ip, port: Word16, remoteMedia: RemoteMedia<Ip>)
      ensures this.ip == ip && this.local == local && this.port == port && this.remoteMedia == remoteMedia
      ensures !held && sdpVersion == 0
    {
      this.ip, this.local, this.port, this.remoteMedia := ip, local, port, remoteMedia;
      held, sdpVersion := false, 0;
    }

    /** The body of a re-offer. */
    ghost function Reoffer(on: bool, version: Word32): string {
      SdpText(ip, local, port, HoldMenu(remoteMedia), if on then SendOnly else SendRecv, version)
    }

    /**
     A re-offer is built and sent; `final` is the status of the answer, if one comes. The
     version goes up either way, with wrap-around; the hold state changes only when the
     peer accepts.
     */
    method SetHold(on: bool, final: Option<nat>) returns (offer: string, accepted: bool)
      modifies this
      ensures sdpVersion == Wrap32(old(sdpVersion) + 1)
      ensures offer == Reoffer(on, sdpVersion)
      ensures EndsIn(offer, if on then "a=sendonly" else "a=sendrecv")
      ensures remoteMedia.codec.None? ==>
        offer == SdpText(ip, local, port, Full, if on then SendOnly else SendRecv, sdpVersion)
      ensures accepted <==> final.Some? && 200 <= final.value < 300
      ensures held == if accepted then on else old(held)
    {
      hide SdpText, Numbers, Attrs, EndsIn;
      var direction := if on then SendOnly else SendRecv;
      sdpVersion := Wrap32(sdpVersion + 1);
      var menu := match remoteMedia.codec case Some(codec) => Pinned(codec, DtmfOf(remoteMedia)) case None => Full;
      offer := BuildSdpWith(ip, local, port, menu, direction, sdpVersion);
      BodyEnds(ip, local, port, menu, direction, sdpVersion);
      assert "a=" + direction.Attribute() == if on then "a=sendonly" else "a=sendrecv";
      accepted := final.Some? && 200 <= final.value < 300;
      if accepted {
        held := on;
      }
    }

    /** Any sequence of holds and resumes, whatever the peer says to each. */
    method SetHolds(requests: seq<(bool, Option<nat>)>) returns (offers: seq<string>)
      modifies this
      ensures |offers| == |requests| && sdpVersion == VersionAfter(old(sdpVersion), |requests|)
      ensures held == HeldAfter(old(held), requests)
      ensures forall i :: 0 <= i < |offers| ==>
        offers[i] == Reoffer(requests[i].0, VersionAfter(old(sdpVersion), i + 1))
    {
      hide Reoffer, EndsIn, SdpText, HeldAfter, VersionAfter, HoldMenu;
      VersionStep(sdpVersion, 0);
      HeldNone(held);
      offers := [];
      var i := 0;
      while i < |requests|
        invariant i <= |requests| && |offers| == i && sdpVersion == VersionAfter(old(sdpVersion), i)
        invariant held == HeldAfter(old(held), requests[..i])
        invariant forall j :: 0 <= j < i ==>
          offers[j] == Reoffer(requests[j].0, VersionAfter(old(sdpVersion), j + 1))
      {
        assert requests[..i + 1] == requests[..i] + [requests[i]];
        HeldStep(old(held), requests[..i], requests[i]);
        VersionStep(old(sdpVersion), i);
        var offer, accepted := SetHold(requests[i].0, requests[i].1);
        offers := offers + [offer];
        i := i + 1;
      }
      assert requests[..i] == requests;
    }
  }

  /**
   The versions of n re-offers rise exactly if they stay below 2^32; the re-offer that passes
   it has version 0.
   */
  lemma VersionsRiseIff(start: Word32, n: nat)
    ensures (forall i :: 0 <= i < n ==> VersionAfter(start, i) < VersionAfter(start, i + 1)) <==> start + n < TWO_32
  {
    assert VersionAfter(start, 0) == start;
    if start + n >= TWO_32 {
      var last := TWO_32 - 1 - start;
      assert VersionAfter(start, last) == TWO_32 - 1 && VersionAfter(start, last + 1) == 0;
    }
  }

  /**
   However often the accepted call is held and resumed, each re-offer parses to the codec of
   the answer, and to its DTMF entry too, unless that has the codec's number.
   */
  lemma ReoffersStayPinned<Ip(!new)>(ip: IpText<Ip>, local: Ip, port: Word16, scan: Scan<Ip>, offer: RemoteMedia<Ip>,
          codec: AudioCodec, direction: MediaDirection, version: Word32, reoffer: seq<Byte>)
    requires Faithful(ip) && Offers(scan, offer, codec)
    requires Decode(reoffer)
        == Some(SdpText(ip, local, port, HoldMenu(offer.(codec := Some(codec))), direction, version))
    ensures var read, dtmf := SdpOf(ip, reoffer), SelectDtmf(offer, codec);
            && read.Ok? && read.value.codec == Some(codec)
            && (DtmfOf(read.value) == dtmf <==> (dtmf.Some? ==> dtmf.value.payloadType != codec.Number()))
            && (codec.Opus? || AtOwnNumber(scan, codec) ==> DtmfOf(read.value) == dtmf)
  {
    hide Text.Decode, SdpText, SdpOf, Conclude;
    var dtmf := SelectDtmf(offer, codec);
    assert HoldMenu(offer.(codec := Some(codec))) == Pinned(codec, dtmf);
    if codec.Opus? {
      OpusIsAtItsNumber(scan, offer, codec);
    }
    if dtmf.Some? {
      SelectedEventIsOffered(scan, offer, codec);
    }
    PinnedReadsBack(ip, local, port, codec, dtmf, direction, version, reoffer);
    PinnedDtmf<Ip>(local, port, codec, dtmf);
  }

  lemma FullSelects<Ip>(remote: Ip, port: Word16)
    ensures SelectDtmf<Ip>(FullMedia(remote, port), Opus(OPUS_DEFAULT_PT)) == Some(WIDE)
  {
    var events := FullMedia<Ip>(remote, port).dtmfEvents;
    assert events[1..] == [WIDE] && FirstAt([WIDE], OPUS_RTP_CLOCK_RATE) == Some(WIDE);
    assert FirstAt(events, OPUS_RTP_CLOCK_RATE) == FirstAt(events[1..], OPUS_RTP_CLOCK_RATE);
  }

  lemma FirstDecides(maps: seq<Mapped>, pt: Byte, pts: seq<Byte>)
    requires pts != [] && pts[0] == pt && ResolveCodec(maps, pt) == Some(Opus(pt))
    ensures FirstCodec(maps, pts) == Some(Opus(pt)) && FirstOpus(maps, pts) == Some(pt)
  {
    hide ResolveCodec;
  }

  lemma FullResolves(maps: seq<Mapped>)
    requires maps == [CodecMap(Opus(OPUS_DEFAULT_PT)), CodecMap(Pcmu), CodecMap(Pcma), EventMap(NARROW), EventMap(WIDE)]
    ensures RtpMapFor(maps, 111) == Some(maps[0]) && RtpMapFor(maps, 0) == Some(maps[1])
        && RtpMapFor(maps, 8) == Some(maps[2])
    ensures RtpMapFor(maps, 101) == Some(maps[3]) && RtpMapFor(maps, 110) == Some(maps[4])
    ensures ResolveCodec(maps, 111) == Some(Opus(111))
  {
    var m1 := maps[1..];
    var m2 := m1[1..];
    var m3 := m2[1..];
    var m4 := m3[1..];
    assert m1[0] == maps[1] && m2[0] == maps[2] && m3[0] == maps[3] && m4[0] == maps[4];
    assert RtpMapFor(m4, 110) == Some(maps[4]);
    assert RtpMapFor(m3, 110) == Some(maps[4]) && RtpMapFor(m3, 101) == Some(maps[3]);
    assert RtpMapFor(m2, 110) == Some(maps[4]) && RtpMapFor(m2, 101) == Some(maps[3])
        && RtpMapFor(m2, 8) == Some(maps[2]);
    assert RtpMapFor(m1, 110) == Some(maps[4]) && RtpMapFor(m1, 101) == Some(maps[3])
        && RtpMapFor(m1, 8) == Some(maps[2]);
  }

  lemma EventsStep(maps: seq<Mapped>, pt: Byte, rest: seq<Byte>)
    ensures DtmfEvents(maps, [pt] + rest) ==
      (match RtpMapFor(maps, pt)
       case Some(m) => if m.name == "telephone-event" then [DtmfSpec(pt, m.rate)] else []
       case None => []) + DtmfEvents(maps, rest)
    ensures DtmfEvents(maps, []) == []
  {
    assert ([pt] + rest)[1..] == rest;
  }

  lemma FullEvents(maps: seq<Mapped>)
    requires maps == [CodecMap(Opus(OPUS_DEFAULT_PT)), CodecMap(Pcmu), CodecMap(Pcma), EventMap(NARROW), EventMap(WIDE)]
    ensures DtmfEvents(maps, [111, 0, 8, 101, 110]) == [NARROW, WIDE]
  {
    hide DtmfEvents, RtpMapFor, ResolveCodec;
    FullResolves(maps);
    NamesDiffer();
    EventsStep(maps, 110, []);
    EventsStep(maps, 101, [110]);
    EventsStep(maps, 8, [101, 110]);
    EventsStep(maps, 0, [8, 101, 110]);
    EventsStep(maps, 111, [0, 8, 101, 110]);
    assert [110] + [] == [110] && [101] + [110] == [101, 110] && [8] + [101, 110] == [8, 101, 110];
    assert [0] + [8, 101, 110] == [0, 8, 101, 110] && [111] + [0, 8, 101, 110] == [111, 0, 8, 101, 110];
  }

  lemma FullConcludes<Ip>(local: Ip, port: Word16, maps: seq<Mapped>)
    requires maps == [CodecMap(Opus(OPUS_DEFAULT_PT)), CodecMap(Pcmu), CodecMap(Pcma), EventMap(NARROW), EventMap(WIDE)]
    ensures Conclude(Scan(Some(local), Some(port), Numbers(Full), maps)) == Ok(FullMedia(local, port))
  {
    FullResolves(maps);
    FullEvents(maps);
    FirstDecides(maps, 111, Numbers(Full));
    hide FirstCodec, FirstOpus, DtmfEvents, RtpMapFor, ResolveCodec;
    assert Numbers(Full) == [111, 0, 8, 101, 110];
  }

  /** The full offer of this stack, answered by this stack: Opus and DTMF at its clock, on both sides. */
  lemma FullOfferAgrees<Ip(!new)>(ip: IpText<Ip>, remote: Ip, remotePort: Word16, direction: MediaDirection,
          version: Word32, local: Ip, port: Word16, answer: seq<Byte>)
    requires Faithful(ip)
    requires Answers(ip, local, port, FullMedia(remote, remotePort), Opus(OPUS_DEFAULT_PT), answer)
    ensures var scan := ReadText(ip, SdpText(ip, remote, remotePort, Full, direction, version));
            && Offers(scan, FullMedia(remote, remotePort), Opus(OPUS_DEFAULT_PT))
            && SelectDtmf(FullMedia(remote, remotePort), Opus(OPUS_DEFAULT_PT)) == Some(WIDE)
            && Agreed(ip, scan, FullMedia(remote, remotePort), Opus(OPUS_DEFAULT_PT), answer)
  {
    hide Text.Decode, BodyLines, Joined, ReadText, SdpOf, Attrs, Numbers, Agreed;
    MenuIsUsual(Full);
    BodyReadsBack(ip, remote, remotePort, Numbers(Full), Attrs(Full), direction, version);
    FullMaps();
    FullConcludes(remote, remotePort, MapsOf(Attrs(Full)));
    var scan := ReadText(ip, SdpText(ip, remote, remotePort, Full, direction, version));
    assert Offers(scan, FullMedia(remote, remotePort), Opus(OPUS_DEFAULT_PT));
    FullSelects(remote, remotePort);
    AnswerAgrees(ip, local, port, scan, FullMedia(remote, remotePort), Opus(OPUS_DEFAULT_PT), answer);
  }
}
