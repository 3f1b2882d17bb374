/** Sending DTMF digits as bursts of RTP event packets (RFC 4733). */
module Dtmf {
  import opened Wrappers
  import opened Bytes
  import opened Rtp

  datatype DtmfDigit =
    | D0 | D1 | D2 | D3 | D4 | D5 | D6 | D7 | D8 | D9 | Star | Pound | LetterA | LetterB | LetterC | LetterD

  function EventCode(digit: DtmfDigit): (code: Byte)
    ensures code < 16 && FromEventCode(code) == Some(digit)
  {
    match digit
    case D0 => 0 case D1 => 1 case D2 => 2 case D3 => 3 case D4 => 4
    case D5 => 5 case D6 => 6 case D7 => 7 case D8 => 8 case D9 => 9
    case Star => 10 case Pound => 11 case LetterA => 12 case LetterB => 13 case LetterC => 14 case LetterD => 15
  }

  function FromEventCode(code: Byte): (digit: Option<DtmfDigit>)
    ensures digit.Some? <==> code < 16
  {
    match code
    case 0 => Some(D0) case 1 => Some(D1) case 2 => Some(D2) case 3 => Some(D3) case 4 => Some(D4)
    case 5 => Some(D5) case 6 => Some(D6) case 7 => Some(D7) case 8 => Some(D8) case 9 => Some(D9)
    case 10 => Some(Star) case 11 => Some(Pound)
    case 12 => Some(LetterA) case 13 => Some(LetterB) case 14 => Some(LetterC) case 15 => Some(LetterD)
    case _ => None
  }

  /** Codes and digits correspond one to one. */
  lemma CodesAreDigits(code: Byte)
    requires code < 16
    ensures EventCode(FromEventCode(code).value) == code
  {
  }

  function FromChar(c: char): Option<DtmfDigit> {
    match c
    case '0' => Some(D0) case '1' => Some(D1) case '2' => Some(D2) case '3' => Some(D3) case '4' => Some(D4)
    case '5' => Some(D5) case '6' => Some(D6) case '7' => Some(D7) case '8' => Some(D8) case '9' => Some(D9)
    case '*' => Some(Star) case '#' => Some(Pound)
    case 'A' => Some(LetterA) case 'B' => Some(LetterB) case 'C' => Some(LetterC) case 'D' => Some(LetterD)
    case 'a' => Some(LetterA) case 'b' => Some(LetterB) case 'c' => Some(LetterC) case 'd' => Some(LetterD)
    case _ => None
  }

  function AsChar(digit: DtmfDigit): (c: char)
    ensures FromChar(c) == Some(digit)
  {
    match digit
    case D0 => '0' case D1 => '1' case D2 => '2' case D3 => '3' case D4 => '4'
    case D5 => '5' case D6 => '6' case D7 => '7' case D8 => '8' case D9 => '9'
    case Star => '*' case Pound => '#' case LetterA => 'A' case LetterB => 'B' case LetterC => 'C' case LetterD => 'D'
  }

  /** The characters of the events in the order of section 2.5.2.1 of RFC 4733. */
  const KEYPAD := "0123456789*#ABCD"

  /** A digit's code is the place of its character on the list, whichever way it is reached. */
  lemma CodesArePlaces(digit: DtmfDigit)
    ensures KEYPAD[EventCode(digit)] == AsChar(digit)
    ensures forall code: Byte :: code < 16 ==> FromChar(KEYPAD[code]) == FromEventCode(code)
    ensures forall c: char :: FromChar(c).Some? <==> c in KEYPAD || c in "abcd"
  {
    assert KEYPAD[EventCode(digit)] == AsChar(digit);
  }

  /** How many duplicates the first and the last packets of a burst are sent as. */
  const REDUNDANCY: nat := 3

  /** The four-byte event payload (section 2.5.2 of RFC 4733). */
  function EventPayload(event: Byte, end: bool, volume: Byte, duration: Word16): (r: seq<Byte>)
    ensures |r| == 4
  {
    [event, (if end then 0x80 else 0) + volume % 64] + Word16Bytes(duration)
  }

  datatype DtmfEventPayload = DtmfEventPayload(event: Byte, end: bool, volume: Byte, duration: Word16)

  function ParseEventPayload(buf: seq<Byte>): (r: Option<DtmfEventPayload>)
    ensures r.Some? <==> |buf| >= 4
  {
    if |buf| < 4 then None else Some(DtmfEventPayload(buf[0], buf[1] >= 0x80, buf[1] % 64, Word16At(buf, 2)))
  }

  lemma EventPayloadParses(event: Byte, end: bool, volume: Byte, duration: Word16)
    ensures ParseEventPayload(EventPayload(event, end, volume, duration))
        == Some(DtmfEventPayload(event, end, volume % 64, duration))
  {
    var p := EventPayload(event, end, volume, duration);
    assert p[2..4] == Word16Bytes(duration) && Word16At(p, 2) == Word16At(p[2..4], 0);
  }

  datatype BurstConfig = BurstConfig(
    payloadType: Byte, clockRate: Word32, ssrc: Word32,
    initialSeq: Word16, initialTimestamp: Word32, holdMs: Word32, volume: Byte
  ) {
    /** The event clock's ticks in 20 ms, cast to 16 bits. */
    function Ticks(): Word16 { Wrap16(clockRate / 50) }

    /** Whole 20 ms packets in the press, at least one, cast to 16 bits. */
    function Total(): Word16 { Wrap16(if (holdMs + 19) / 20 > 1 then (holdMs + 19) / 20 else 1) }

    /** The continuation packets between the first and the last copies. */
    function Middle(): nat { if Total() > 0 then Total() - 1 else 0 }

    function Count(): nat { 2 * REDUNDANCY + Middle() }

    /** The ticks of n packets, no more than 16 bits hold. */
    function TicksFor(n: nat): Word16 { Saturate16(n * Ticks()) }

    /** How far the burst moves the timeline of its SSRC on. */
    function Advance(): Word16 { TicksFor(Total()) }

    predicate EndAt(k: nat) { k >= REDUNDANCY + Middle() }

    /** How many 20 ms packets of the press are over when packet k is sent. */
    function HeldAt(k: nat): nat {
      if k < REDUNDANCY then 1 else if EndAt(k) then Middle() + 1 else k - 1
    }

    function DurationAt(k: nat): Word16 { TicksFor(HeldAt(k)) }

    /** Packet k of the burst for a digit. */
    function PacketAt(digit: DtmfDigit, k: nat): seq<Byte> {
      Packet(k == 0, payloadType, Wrap16(initialSeq + k), initialTimestamp, ssrc,
             EventPayload(EventCode(digit), EndAt(k), if volume < 63 then volume else 63, DurationAt(k)))
    }
  }

  /** The first n packets of the burst are out. */
  predicate Sent(config: BurstConfig, digit: DtmfDigit, packets: seq<seq<Byte>>, n: nat) {
    |packets| == n && forall k :: 0 <= k < n ==> packets[k] == config.PacketAt(digit, k)
  }

  /** The first n sends succeed, and n is all there are to be or the next one fails. */
  ghost predicate SentUntil(sends: nat -> bool, n: nat, all: nat) {
    n <= all && (forall k :: 0 <= k < n ==> sends(k)) && (n < all ==> !sends(n))
  }

  lemma PacketIs(config: BurstConfig, digit: DtmfDigit, k: nat, sequence: Word16, end: bool, duration: Word16)
    requires sequence == Wrap16(config.initialSeq + k) && end == config.EndAt(k) && duration == config.DurationAt(k)
    ensures Packet(k == 0, config.payloadType, sequence, config.initialTimestamp, config.ssrc,
                   EventPayload(EventCode(digit), end, if config.volume < 63 then config.volume else 63, duration))
            == config.PacketAt(digit, k)
  {
    hide Rtp.Packet, EventPayload, EventCode, Bytes.Wrap16, Bytes.Saturate16;
  }

  /** The copies of one event packet, until a send fails; only the very first packet of a burst bears the marker. */
  method SendCopies(config: BurstConfig, digit: DtmfDigit, sent: seq<seq<Byte>>, sequence: Word16, end: bool,
          duration: Word16, sends: nat -> bool)
    returns (packets: seq<seq<Byte>>, nextSeq: Word16)
    requires Sent(config, digit, sent, |sent|) && sequence == Wrap16(config.initialSeq + |sent|)
    requires forall k :: |sent| <= k < |sent| + REDUNDANCY ==>
        end == config.EndAt(k) && duration == config.DurationAt(k)
    requires SentUntil(sends, |sent|, |sent|)
    ensures Sent(config, digit, packets, |packets|) && SentUntil(sends, |packets|, |sent| + REDUNDANCY)
    ensures nextSeq == Wrap16(config.initialSeq + |packets|)
  {
    hide Rtp.Packet, EventPayload, EventCode, Bytes.Wrap16, BurstConfig.PacketAt, BurstConfig.DurationAt,
        BurstConfig.EndAt;
    nextSeq, packets := sequence, sent;
    var i := 0;
    while i < REDUNDANCY
      invariant i <= REDUNDANCY && Sent(config, digit, packets, |sent| + i)
          && nextSeq == Wrap16(config.initialSeq + |packets|)
      invariant SentUntil(sends, |sent| + i, |sent| + i)
    {
      if !sends(|packets|) {
        return;
      }
      var payload := EventPayload(EventCode(digit), end, if config.volume < 63 then config.volume else 63, duration);
      PacketIs(config, digit, |packets|, nextSeq, end, duration);
      WrapTwice16(config.initialSeq + |packets|, 1);
      packets := packets
          + [Packet(packets == [], config.payloadType, nextSeq, config.initialTimestamp, config.ssrc, payload)];
      nextSeq := Wrap16(nextSeq + 1);
      i := i + 1;
    }
  }

  lemma FirstCounters(config: BurstConfig)
    ensures Wrap16(config.initialSeq) == config.initialSeq && config.TicksFor(1) == config.Ticks()
    ensures config.Ticks() == Wrap16(config.clockRate / 50)
    ensures config.Total() == Wrap16(if (config.holdMs + 19) / 20 > 1 then (config.holdMs + 19) / 20 else 1)
  {
  }

  /** Adding with saturation step by step is multiplying with saturation. */
  lemma TicksStep(config: BurstConfig, i: nat)
    ensures Saturate16(config.TicksFor(i) + config.Ticks()) == config.TicksFor(i + 1)
  {
    Distributes(i, config.Ticks());
  }

  /** The continuation packets, one a tick, until a send fails. */
  method SendContinuations(config: BurstConfig, digit: DtmfDigit, sent: seq<seq<Byte>>, sequence: Word16,
          sends: nat -> bool)
    returns (packets: seq<seq<Byte>>, nextSeq: Word16, duration: Word16)
    requires Sent(config, digit, sent, REDUNDANCY) && sequence == Wrap16(config.initialSeq + REDUNDANCY)
    requires SentUntil(sends, REDUNDANCY, REDUNDANCY)
    ensures Sent(config, digit, packets, |packets|) && SentUntil(sends, |packets|, REDUNDANCY + config.Middle())
    ensures nextSeq == Wrap16(config.initialSeq + |packets|)
    ensures |packets| == REDUNDANCY + config.Middle() ==> duration == config.TicksFor(config.Middle() + 1)
  {
    hide Rtp.Packet, EventPayload, EventCode, Bytes.Wrap16, Bytes.Saturate16, BurstConfig.PacketAt,
        BurstConfig.TicksFor;
    hide BurstConfig.Ticks, BurstConfig.Total;
    FirstCounters(config);
    packets, nextSeq, duration := sent, sequence, config.Ticks();
    var i := 1;
    while i < config.Total()
      invariant 1 <= i <= config.Middle() + 1
      invariant Sent(config, digit, packets, REDUNDANCY + i - 1) && nextSeq == Wrap16(config.initialSeq + |packets|)
      invariant duration == config.TicksFor(i) && SentUntil(sends, |packets|, |packets|)
    {
      if !sends(|packets|) {
        return;
      }
      TicksStep(config, i);
      duration := Saturate16(duration + config.Ticks());
      var payload := EventPayload(EventCode(digit), false, if config.volume < 63 then config.volume else 63, duration);
      PacketIs(config, digit, |packets|, nextSeq, false, duration);
      WrapTwice16(config.initialSeq + |packets|, 1);
      packets := packets + [Packet(false, config.payloadType, nextSeq, config.initialTimestamp, config.ssrc, payload)];
      nextSeq := Wrap16(nextSeq + 1);
      i := i + 1;
    }
  }

  lemma AllTicks(config: BurstConfig)
    ensures config.TicksFor(config.Total()) == Saturate16(config.Total() * config.Ticks())
  {
  }

  /**
   A burst: its packets until a send fails, and, if none does, the counters to chain the next
   burst with.
   */
  method SendDtmfBurst(config: BurstConfig, digit: DtmfDigit, sends: nat -> bool)
    returns (packets: seq<seq<Byte>>, counters: Option<(Word16, Word32)>)
    ensures Sent(config, digit, packets, |packets|) && SentUntil(sends, |packets|, config.Count())
    ensures counters ==
      if |packets| < config.Count() then None
      else Some((Wrap16(config.initialSeq + config.Count()), Wrap32(config.initialTimestamp + config.Advance())))
  {
    hide Bytes.Wrap16, Bytes.Wrap32, Bytes.Saturate16, BurstConfig.PacketAt, BurstConfig.TicksFor, BurstConfig.Ticks,
        BurstConfig.Total;
    FirstCounters(config);
    var nextSeq: Word16, duration: Word16;
    packets, nextSeq := SendCopies(config, digit, [], config.initialSeq, false, config.Ticks(), sends);
    if |packets| < REDUNDANCY {
      return packets, None;
    }
    packets, nextSeq, duration := SendContinuations(config, digit, packets, nextSeq, sends);
    if |packets| < REDUNDANCY + config.Middle() {
      return packets, None;
    }
    packets, nextSeq := SendCopies(config, digit, packets, nextSeq, true, duration, sends);
    if |packets| < config.Count() {
      return packets, None;
    }
    AllTicks(config);
    counters := Some((nextSeq, Wrap32(config.initialTimestamp + Saturate16(config.Total() * config.Ticks()))));
  }
}
