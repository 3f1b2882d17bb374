/**
 What is answered to an offer, read off the offer's own lines: Opus at the first number
 that means Opus, else the codec of the first number that means any, and the telephone
 events at that codec's clock, else the first ones listed.
 */
module SdpChoice {
  import opened Wrappers
  import opened Bytes
  import opened Text
  import opened Sdp

  /** The clock of the telephone events on a number, if that is what it means. */
  function EventClock(maps: seq<Mapped>, pt: Byte): Option<Word32> {
    match RtpMapFor(maps, pt)
    case Some(m) => if m.name == "telephone-event" then Some(m.rate) else None
    case None => None
  }

  lemma {:induction false} FirstMapCounts(maps: seq<Mapped>, i: nat)
    requires i < |maps| && forall j :: 0 <= j < i ==> maps[j].pt != maps[i].pt
    ensures RtpMapFor(maps, maps[i].pt) == Some(maps[i])
  {
    if i == 0 {
    } else {
      FirstMapCounts(maps[1..], i - 1);
    }
  }

  /** What a number means: as its first rtpmap says, and without one 0 is PCMU and 8 is PCMA. */
  lemma NumberMeans(maps: seq<Mapped>, pt: Byte)
    ensures forall i :: 0 <= i < |maps| && maps[i].pt == pt && (forall j :: 0 <= j < i ==> maps[j].pt != pt) ==>
      && (ResolveCodec(maps, pt) == Some(Opus(pt)) <==> maps[i].name == "opus" && maps[i].rate == 48_000)
      && (ResolveCodec(maps, pt) == Some(Pcmu) <==> maps[i].name == "pcmu" && maps[i].rate == 8000)
      && (ResolveCodec(maps, pt) == Some(Pcma) <==> maps[i].name == "pcma" && maps[i].rate == 8000)
      && EventClock(maps, pt) == if maps[i].name == "telephone-event" then Some(maps[i].rate) else None
    ensures (forall i :: 0 <= i < |maps| ==> maps[i].pt != pt) ==>
      && ResolveCodec(maps, pt) == (if pt == 0 then Some(Pcmu) else if pt == 8 then Some(Pcma) else None)
      && EventClock(maps, pt) == None
    ensures ResolveCodec(maps, pt) in {None, Some(Opus(pt)), Some(Pcmu), Some(Pcma)}
  {
    assert |"opus"| == |"pcmu"| == |"pcma"| == 4;
    assert "opus"[0] == 'o' && "pcmu"[0] == 'p' && "pcma"[0] == 'p' && "pcmu"[3] == 'u' && "pcma"[3] == 'a';
    forall i | 0 <= i < |maps| && maps[i].pt == pt && forall j :: 0 <= j < i ==> maps[j].pt != pt
      ensures RtpMapFor(maps, pt) == Some(maps[i])
    {
      FirstMapCounts(maps, i);
    }
  }

  // ---- The codec ----

  predicate IsOpus(maps: seq<Mapped>, pts: seq<Byte>, i: nat) {
    i < |pts| && ResolveCodec(maps, pts[i]) == Some(Opus(pts[i]))
  }

  predicate IsCodec(maps: seq<Mapped>, pts: seq<Byte>, i: nat) {
    i < |pts| && ResolveCodec(maps, pts[i]).Some?
  }

  lemma {:induction false} OpusAt(maps: seq<Mapped>, pts: seq<Byte>) returns (i: nat)
    ensures i <= |pts| && forall j: nat :: j < i ==> !IsOpus(maps, pts, j)
    ensures i < |pts| ==> IsOpus(maps, pts, i) && FirstOpus(maps, pts) == Some(pts[i])
    ensures i == |pts| ==> FirstOpus(maps, pts) == None
  {
    if pts == [] || IsOpus(maps, pts, 0) {
      i := 0;
    } else {
      i := OpusAt(maps, pts[1..]);
      assert forall j: nat :: j + 1 < |pts| ==> pts[j + 1] == pts[1..][j];
      forall j: nat | j < i + 1 ensures !IsOpus(maps, pts, j) {
        assert j > 0 ==> !IsOpus(maps, pts[1..], j - 1);
      }
      i := i + 1;
    }
  }

  lemma {:induction false} CodecAt(maps: seq<Mapped>, pts: seq<Byte>) returns (i: nat)
    ensures i <= |pts| && forall j: nat :: j < i ==> !IsCodec(maps, pts, j)
    ensures i < |pts| ==> IsCodec(maps, pts, i) && FirstCodec(maps, pts) == ResolveCodec(maps, pts[i])
    ensures i == |pts| ==> FirstCodec(maps, pts) == None
  {
    if pts == [] || IsCodec(maps, pts, 0) {
      i := 0;
    } else {
      i := CodecAt(maps, pts[1..]);
      assert forall j: nat :: j + 1 < |pts| ==> pts[j + 1] == pts[1..][j];
      forall j: nat | j < i + 1 ensures !IsCodec(maps, pts, j) {
        assert j > 0 ==> !IsCodec(maps, pts[1..], j - 1);
      }
      i := i + 1;
    }
  }

  /** Opus at the first number that means Opus, else what the first number that means a codec means. */
  ghost predicate Chosen<Ip>(scan: Scan<Ip>, codec: Option<AudioCodec>) {
    if exists i: nat :: IsOpus(scan.maps, scan.pts, i) then
      exists i: nat :: IsOpus(scan.maps, scan.pts, i) && codec == Some(Opus(scan.pts[i]))
                       && forall j: nat :: j < i ==> !IsOpus(scan.maps, scan.pts, j)
    else if exists i: nat :: IsCodec(scan.maps, scan.pts, i) then
      exists i: nat :: IsCodec(scan.maps, scan.pts, i) && codec == ResolveCodec(scan.maps, scan.pts[i])
                       && forall j: nat :: j < i ==> !IsCodec(scan.maps, scan.pts, j)
    else codec == None
  }

  lemma SelectsChosen<Ip>(scan: Scan<Ip>, offer: RemoteMedia<Ip>)
    requires Conclude(scan) == Ok(offer)
    ensures Chosen(scan, SelectCodec(offer))
  {
    var i := OpusAt(scan.maps, scan.pts);
    var k := CodecAt(scan.maps, scan.pts);
  }

  // ---- The telephone events ----

  predicate IsEvent(maps: seq<Mapped>, pts: seq<Byte>, i: nat) {
    i < |pts| && EventClock(maps, pts[i]).Some?
  }

  predicate IsEventAt(maps: seq<Mapped>, pts: seq<Byte>, clock: Word32, i: nat) {
    i < |pts| && EventClock(maps, pts[i]) == Some(clock)
  }

  lemma EventsHead(maps: seq<Mapped>, pts: seq<Byte>)
    ensures DtmfEvents(maps, []) == []
    ensures pts != [] ==>
      DtmfEvents(maps, pts) ==
      (if IsEvent(maps, pts, 0) then [DtmfSpec(pts[0], EventClock(maps, pts[0]).value)] else [])
      + DtmfEvents(maps, pts[1..])
  {
  }

  lemma {:induction false} EventAt(maps: seq<Mapped>, pts: seq<Byte>) returns (i: nat)
    ensures i <= |pts| && forall j: nat :: j < i ==> !IsEvent(maps, pts, j)
    ensures i < |pts| ==>
      && IsEvent(maps, pts, i) && DtmfEvents(maps, pts) != []
      && DtmfEvents(maps, pts)[0] == DtmfSpec(pts[i], EventClock(maps, pts[i]).value)
    ensures i == |pts| ==> DtmfEvents(maps, pts) == []
  {
    EventsHead(maps, pts);
    if pts == [] || IsEvent(maps, pts, 0) {
      i := 0;
    } else {
      i := EventAt(maps, pts[1..]);
      assert forall j: nat :: j + 1 < |pts| ==> pts[j + 1] == pts[1..][j];
      forall j: nat | j < i + 1 ensures !IsEvent(maps, pts, j) {
        assert j > 0 ==> !IsEvent(maps, pts[1..], j - 1);
      }
      i := i + 1;
    }
  }

  lemma {:induction false} EventAtClock(maps: seq<Mapped>, pts: seq<Byte>, clock: Word32) returns (i: nat)
    ensures i <= |pts| && forall j: nat :: j < i ==> !IsEventAt(maps, pts, clock, j)
    ensures i < |pts| ==>
      && IsEventAt(maps, pts, clock, i)
      && FirstAt(DtmfEvents(maps, pts), clock) == Some(DtmfSpec(pts[i], clock))
    ensures i == |pts| ==> FirstAt(DtmfEvents(maps, pts), clock) == None
  {
    EventsHead(maps, pts);
    if pts == [] || IsEventAt(maps, pts, clock, 0) {
      i := 0;
    } else {
      i := EventAtClock(maps, pts[1..], clock);
      hide DtmfEvents;
      if IsEvent(maps, pts, 0) {
        assert DtmfEvents(maps, pts)[1..] == DtmfEvents(maps, pts[1..]);
      } else {
        assert DtmfEvents(maps, pts) == DtmfEvents(maps, pts[1..]);
      }
      assert forall j: nat :: j + 1 < |pts| ==> pts[j + 1] == pts[1..][j];
      forall j: nat | j < i + 1 ensures !IsEventAt(maps, pts, clock, j) {
        assert j > 0 ==> !IsEventAt(maps, pts[1..], clock, j - 1);
      }
      i := i + 1;
    }
  }

  /** The first telephone events at this clock, else the first at any. */
  ghost predicate EventsChosen<Ip>(scan: Scan<Ip>, clock: Word32, dtmf: Option<DtmfSpec>) {
    if exists i: nat :: IsEventAt(scan.maps, scan.pts, clock, i) then
      exists i: nat :: IsEventAt(scan.maps, scan.pts, clock, i) && dtmf == Some(DtmfSpec(scan.pts[i], clock))
                       && forall j: nat :: j < i ==> !IsEventAt(scan.maps, scan.pts, clock, j)
    else if exists i: nat :: IsEvent(scan.maps, scan.pts, i) then
      exists i: nat :: IsEvent(scan.maps, scan.pts, i)
                       && dtmf == Some(DtmfSpec(scan.pts[i], EventClock(scan.maps, scan.pts[i]).value))
                       && forall j: nat :: j < i ==> !IsEvent(scan.maps, scan.pts, j)
    else dtmf == None
  }

  lemma SelectsEvents<Ip>(scan: Scan<Ip>, offer: RemoteMedia<Ip>, codec: AudioCodec)
    requires Conclude(scan) == Ok(offer)
    ensures EventsChosen(scan, codec.ClockRate(), SelectDtmf(offer, codec))
  {
    var i := EventAtClock(scan.maps, scan.pts, codec.ClockRate());
    var k := EventAt(scan.maps, scan.pts);
    hide DtmfEvents, FirstAt, EventClock;
  }

  // ---- Offers that cannot be read ----

  /** A body is refused for the first thing it lacks: UTF-8, an address, a port, a payload type. */
  lemma RefusedFor<Ip(!new)>(ip: IpText<Ip>, bytes: seq<Byte>)
    ensures
      var read := SdpOf(ip, bytes);
      && (read == Err(NotUtf8) <==> Decode(bytes).None?)
      && (Decode(bytes).Some? ==>
          var scan := ReadText(ip, Decode(bytes).value);
          && (read == Err(NoConnectionAddress) <==> scan.addr == None)
          && (read == Err(NoAudioMedia) <==> scan.addr.Some? && scan.port == None)
          && (read == Err(NoPayloadType) <==> scan.addr.Some? && scan.port.Some? && scan.pts == [])
          && (read.Ok? ==>
              && scan.addr == Some(read.value.addr) && scan.port == Some(read.value.port)
              && scan.pts != [] && read.value.payloadType == scan.pts[0]))
  {
    hide Text.Decode, ReadText;
  }
}
