/**
 DTMF from sender to receiver. Chained bursts, read in order over a network that loses
 packets, are reported one press each, sequence numbers and timestamps wrapping or not;
 and however disordered the packets, what is reported is in order and reported once.
 */
module DtmfEndToEnd {
  import opened Wrappers
  import opened Bytes
  import opened Rtp
  import opened Dtmf
  import opened DtmfReception

  /** What a receiver reports of some packets, and the press it tracks afterwards. */
  function TakeAll(payloadType: Byte, active: Option<ActiveEvent>,
          packets: seq<seq<Byte>>): (Option<ActiveEvent>, seq<DtmfEvent>)
    decreases |packets|
  {
    if packets == [] then (active, [])
    else
      var (a, e) := TakePacket(payloadType, active, packets[0]);
      var (last, later) := TakeAll(payloadType, a, packets[1..]);
      (last, (if e.Some? then [e.value] else []) + later)
  }

  /** A receiver object fed packet after packet. */
  method PushAll(receiver: DtmfReceiver, packets: seq<seq<Byte>>) returns (events: seq<DtmfEvent>)
    modifies receiver`active
    ensures (receiver.active, events) == TakeAll(receiver.payloadType, old(receiver.active), packets)
  {
    events := [];
    var i := 0;
    ghost var all := TakeAll(receiver.payloadType, receiver.active, packets);
    assert packets[0..] == packets && [] + all.1 == all.1;
    while i < |packets|
      invariant i <= |packets|
      invariant
        var rest := TakeAll(receiver.payloadType, receiver.active, packets[i..]);
        all == (rest.0, events + rest.1)
    {
      ghost var before := events;
      var event := receiver.Push(packets[i]);
      assert packets[i..][1..] == packets[i + 1..];
      ghost var later := TakeAll(receiver.payloadType, receiver.active, packets[i + 1..]).1;
      if event.Some? {
        events := events + [event.value];
        assert before + ([event.value] + later) == events + later;
      } else {
        assert [] + later == later;
      }
      i := i + 1;
    }
    assert packets[i..] == [] && events + [] == events;
  }

  lemma {:induction false} TakeAllThen(payloadType: Byte, active: Option<ActiveEvent>, a: seq<seq<Byte>>,
          b: seq<seq<Byte>>)
    ensures var first := TakeAll(payloadType, active, a);
            var second := TakeAll(payloadType, first.0, b);
            TakeAll(payloadType, active, a + b) == (second.0, first.1 + second.1)
    decreases |a|
  {
    if a == [] {
      assert a + b == b;
      var second := TakeAll(payloadType, active, b).1;
      assert [] + second == second;
    } else {
      assert (a + b)[1..] == a[1..] + b;
      hide TakePacket;
      var (next, e) := TakePacket(payloadType, active, a[0]);
      TakeAllThen(payloadType, next, a[1..], b);
      var (middle, x) := TakeAll(payloadType, next, a[1..]);
      var y := TakeAll(payloadType, middle, b).1;
      assert (if e.Some? then [e.value] else []) + (x + y) == (if e.Some? then [e.value] else []) + x + y;
    }
  }

  /** The packets the network does not lose. */
  function Survivors(packets: seq<seq<Byte>>, kept: seq<bool>): seq<seq<Byte>>
    requires |kept| == |packets|
  {
    if packets == [] then []
    else (if kept[0] then [packets[0]] else []) + Survivors(packets[1..], kept[1..])
  }

  // ---- One burst ----

  lemma PacketReads(config: BurstConfig, digit: DtmfDigit, k: nat)
    requires config.payloadType < 128
    ensures Read(config.payloadType, config.PacketAt(digit, k))
         == Some(Reading(config.ssrc, config.initialTimestamp, digit, config.EndAt(k), config.DurationAt(k)))
  {
    var volume := if config.volume < 63 then config.volume else 63;
    var payload := EventPayload(EventCode(digit), config.EndAt(k), volume, config.DurationAt(k));
    PacketParses(k == 0, config.payloadType, Wrap16(config.initialSeq + k), config.initialTimestamp, config.ssrc,
        payload);
    EventPayloadParses(EventCode(digit), config.EndAt(k), volume, config.DurationAt(k));
    hide Rtp.Packet, EventPayload, ParseHeader, ParseEventPayload;
  }

  function Tracking(config: BurstConfig, digit: DtmfDigit, isReleased: bool): Option<ActiveEvent> {
    Some(ActiveEvent(config.ssrc, config.initialTimestamp, EventCode(digit), isReleased))
  }

  /** The receiver takes the burst's timestamp for a new press. */
  predicate NewTo(active: Option<ActiveEvent>, config: BurstConfig) {
    match active
    case None => true
    case Some(a) => a.ssrc != config.ssrc || TimestampNewer(config.initialTimestamp, a.timestamp)
  }

  predicate AnyKept(kept: seq<bool>, from: nat) {
    exists k :: from <= k < |kept| && kept[k]
  }

  predicate EndKept(config: BurstConfig, kept: seq<bool>, from: nat) {
    exists k :: from <= k < |kept| && kept[k] && config.EndAt(k)
  }

  /** An end packet survives that is not the first survivor. */
  predicate ReleaseSeen(config: BurstConfig, kept: seq<bool>) {
    exists j, k :: 0 <= j < k < |kept| && kept[j] && kept[k] && config.EndAt(k)
  }

  function ReleaseOf(config: BurstConfig, digit: DtmfDigit): DtmfEvent {
    Released(digit, config.TicksFor(config.Middle() + 1))
  }

  function Expected(config: BurstConfig, digit: DtmfDigit, kept: seq<bool>): seq<DtmfEvent> {
    [Pressed(digit)] + if ReleaseSeen(config, kept) then [ReleaseOf(config, digit)] else []
  }

  /** The first packet of what is left either survives or does not. */
  lemma SurvivorsStep(packets: seq<seq<Byte>>, kept: seq<bool>, k: nat)
    requires |kept| == |packets| && k < |packets|
    ensures Survivors(packets[k..], kept[k..])
         == (if kept[k] then [packets[k]] else []) + Survivors(packets[k + 1..], kept[k + 1..])
  {
    assert packets[k..][1..] == packets[k + 1..] && kept[k..][1..] == kept[k + 1..];
  }

  lemma TakeOne(payloadType: Byte, active: Option<ActiveEvent>, packet: seq<Byte>, rest: seq<seq<Byte>>)
    ensures var (a, e) := TakePacket(payloadType, active, packet);
            var (last, later) := TakeAll(payloadType, a, rest);
            TakeAll(payloadType, active, [packet] + rest) == (last, (if e.Some? then [e.value] else []) + later)
  {
    assert ([packet] + rest)[1..] == rest;
  }

  lemma TrackedStep(config: BurstConfig, digit: DtmfDigit, k: nat, isReleased: bool)
    requires config.payloadType < 128
    ensures TakePacket(config.payloadType, Tracking(config, digit, isReleased), config.PacketAt(digit, k))
         == (Tracking(config, digit, isReleased || config.EndAt(k)),
             if config.EndAt(k) && !isReleased then Some(ReleaseOf(config, digit)) else None)
  {
    PacketReads(config, digit, k);
    hide Read, BurstConfig.PacketAt;
  }

  lemma PressStep(config: BurstConfig, digit: DtmfDigit, k: nat, active: Option<ActiveEvent>)
    requires config.payloadType < 128 && NewTo(active, config)
    ensures TakePacket(config.payloadType, active, config.PacketAt(digit, k))
        == (Tracking(config, digit, false), Some(Pressed(digit)))
  {
    PacketReads(config, digit, k);
    assert !TimestampNewer(config.initialTimestamp, config.initialTimestamp);
    hide Read, BurstConfig.PacketAt;
  }

  lemma NothingLeft(config: BurstConfig, packets: seq<seq<Byte>>, kept: seq<bool>)
    requires |kept| == |packets|
    ensures Survivors(packets[|packets|..], kept[|packets|..]) == [] && !EndKept(config, kept, |packets|)
  {
  }

  lemma EndKeptStep(config: BurstConfig, kept: seq<bool>, k: nat)
    requires k < |kept|
    ensures EndKept(config, kept, k) <==> (kept[k] && config.EndAt(k)) || EndKept(config, kept, k + 1)
  {
  }

  /** What is left of a burst whose press has been reported. */
  lemma {:induction false} TailAfterPress(config: BurstConfig, digit: DtmfDigit, packets: seq<seq<Byte>>,
          kept: seq<bool>, k: nat, isReleased: bool)
    requires config.payloadType < 128 && Sent(config, digit, packets, config.Count()) && |kept| == |packets|
        && k <= |packets|
    ensures
      var active := Tracking(config, digit, isReleased);
      var (a, events) := TakeAll(config.payloadType, active, Survivors(packets[k..], kept[k..]));
      && events == (if !isReleased && EndKept(config, kept, k) then [ReleaseOf(config, digit)] else [])
      && a == Tracking(config, digit, isReleased || EndKept(config, kept, k))
    decreases |packets| - k
  {
    hide TakePacket, BurstConfig.EndAt, Tracking, ReleaseOf, EndKept, BurstConfig.PacketAt, BurstConfig.Count;
    if k < |packets| {
      SurvivorsStep(packets, kept, k);
      var rest := Survivors(packets[k + 1..], kept[k + 1..]);
      var releases := kept[k] && config.EndAt(k);
      EndKeptStep(config, kept, k);
      TailAfterPress(config, digit, packets, kept, k + 1, isReleased || releases);
      if kept[k] {
        TrackedStep(config, digit, k, isReleased);
        TakeOne(config.payloadType, Tracking(config, digit, isReleased), packets[k], rest);
      } else {
        assert [] + rest == rest;
      }
    } else {
      NothingLeft(config, packets, kept);
    }
  }

  /** The burst from its k-th packet on, nothing of it having arrived yet. */
  lemma {:induction false} TailBeforePress(config: BurstConfig, digit: DtmfDigit, packets: seq<seq<Byte>>,
          kept: seq<bool>, k: nat, active: Option<ActiveEvent>)
    requires config.payloadType < 128 && Sent(config, digit, packets, config.Count()) && |kept| == |packets|
        && k <= |packets|
    requires NewTo(active, config) && AnyKept(kept, k) && forall j :: 0 <= j < k ==> !kept[j]
    ensures var (a, events) := TakeAll(config.payloadType, active, Survivors(packets[k..], kept[k..]));
            events == Expected(config, digit, kept) && a == Tracking(config, digit, ReleaseSeen(config, kept))
    decreases |packets| - k
  {
    hide TakePacket, BurstConfig.EndAt, Tracking, ReleaseOf, NewTo, BurstConfig.PacketAt, BurstConfig.Count;
    SurvivorsStep(packets, kept, k);
    var rest := Survivors(packets[k + 1..], kept[k + 1..]);
    if kept[k] {
      PressStep(config, digit, k, active);
      TakeOne(config.payloadType, active, packets[k], rest);
      TailAfterPress(config, digit, packets, kept, k + 1, false);
      assert EndKept(config, kept, k + 1) <==> ReleaseSeen(config, kept);
    } else {
      assert [] + rest == rest;
      TailBeforePress(config, digit, packets, kept, k + 1, active);
    }
  }

  /** One burst with at least one survivor: one press, and a release exactly when a later end packet survives. */
  lemma BurstIsHeard(config: BurstConfig, digit: DtmfDigit, packets: seq<seq<Byte>>, kept: seq<bool>,
          active: Option<ActiveEvent>)
    requires config.payloadType < 128 && Sent(config, digit, packets, config.Count()) && |kept| == |packets|
    requires NewTo(active, config) && AnyKept(kept, 0)
    ensures TakeAll(config.payloadType, active, Survivors(packets, kept))
         == (Tracking(config, digit, ReleaseSeen(config, kept)), Expected(config, digit, kept))
  {
    assert packets[0..] == packets && kept[0..] == kept;
    TailBeforePress(config, digit, packets, kept, 0, active);
  }

  // ---- Chained bursts ----

  datatype Press = Press(digit: DtmfDigit, holdMs: Word32)

  /** The settings of the next press: the counters the last burst returned, and its own hold. */
  function Chained(config: BurstConfig, press: Press): BurstConfig {
    config.(initialSeq := Wrap16(config.initialSeq + config.Count()),
            initialTimestamp := Wrap32(config.initialTimestamp + config.Advance()),
            holdMs := press.holdMs)
  }

  /** The bursts of a dialled string, one after the other. */
  function Bursts(config: BurstConfig, digit: DtmfDigit, more: seq<Press>): seq<(BurstConfig, DtmfDigit)>
    decreases |more|
  {
    [(config, digit)] + if more == [] then [] else Bursts(Chained(config, more[0]), more[0].digit, more[1..])
  }

  /** What arrives of each burst, in order. */
  ghost predicate Arrives(bursts: seq<(BurstConfig, DtmfDigit)>, sent: seq<seq<seq<Byte>>>, kept: seq<seq<bool>>) {
    && |sent| == |bursts| && |kept| == |bursts|
    && forall i :: 0 <= i < |bursts| ==>
         && Sent(bursts[i].0, bursts[i].1, sent[i], bursts[i].0.Count())
         && |kept[i]| == |sent[i]| && AnyKept(kept[i], 0)
  }

  function AllSurvivors(sent: seq<seq<seq<Byte>>>, kept: seq<seq<bool>>): seq<seq<Byte>>
    requires |kept| == |sent| && forall i :: 0 <= i < |sent| ==> |kept[i]| == |sent[i]|
  {
    if sent == [] then [] else Survivors(sent[0], kept[0]) + AllSurvivors(sent[1..], kept[1..])
  }

  function AllExpected(bursts: seq<(BurstConfig, DtmfDigit)>, kept: seq<seq<bool>>): seq<DtmfEvent>
    requires |kept| == |bursts|
  {
    if bursts == [] then [] else Expected(bursts[0].0, bursts[0].1, kept[0]) + AllExpected(bursts[1..], kept[1..])
  }

  /** Every press but the last moves the timeline on. */
  predicate Advances(bursts: seq<(BurstConfig, DtmfDigit)>) {
    forall i :: 0 <= i < |bursts| - 1 ==> bursts[i].0.Advance() > 0
  }

  /** A step forward of less than half way round is newer, wrapping or not; no step is not. */
  lemma WrapForward(ts: Word32, step: Word16)
    ensures Wrap32(Wrap32(ts + step) - ts) == step
  {
  }

  lemma ChainedIsNew(config: BurstConfig, digit: DtmfDigit, isReleased: bool, press: Press)
    ensures NewTo(Tracking(config, digit, isReleased), Chained(config, press)) <==> config.Advance() > 0
  {
    WrapForward(config.initialTimestamp, config.Advance());
  }

  lemma TailArrives(bursts: seq<(BurstConfig, DtmfDigit)>, sent: seq<seq<seq<Byte>>>, kept: seq<seq<bool>>)
    requires bursts != [] && Arrives(bursts, sent, kept) && Advances(bursts)
    ensures Arrives(bursts[1..], sent[1..], kept[1..]) && Advances(bursts[1..])
  {
    hide Sent, AnyKept, BurstConfig.Count, BurstConfig.Advance;
    assert forall i :: 0 <= i < |bursts[1..]| ==> bursts[1..][i] == bursts[i + 1];
  }

  /**
   End to end: however many bursts are chained and however their packets are lost, at
   least one of each surviving, the receiver reports each press once, in order, and each
   release exactly when an end packet other than the burst's first survivor arrives.
   */
  lemma {:induction false} ChainIsHeard(config: BurstConfig, digit: DtmfDigit, more: seq<Press>,
          sent: seq<seq<seq<Byte>>>, kept: seq<seq<bool>>, active: Option<ActiveEvent>)
    requires config.payloadType < 128 && NewTo(active, config)
    requires Arrives(Bursts(config, digit, more), sent, kept) && Advances(Bursts(config, digit, more))
    ensures TakeAll(config.payloadType, active, AllSurvivors(sent, kept)).1
        == AllExpected(Bursts(config, digit, more), kept)
    decreases |more|
  {
    hide TakePacket, Sent, ReleaseSeen, AnyKept, BurstConfig.TicksFor, BurstConfig.Total;
    var bursts := Bursts(config, digit, more);
    var first := Survivors(sent[0], kept[0]);
    var last := Tracking(config, digit, ReleaseSeen(config, kept[0]));
    assert bursts[0] == (config, digit);
    BurstIsHeard(config, digit, sent[0], kept[0], active);
    TakeAllThen(config.payloadType, active, first, AllSurvivors(sent[1..], kept[1..]));
    if more == [] {
      assert AllSurvivors(sent[1..], kept[1..]) == [] && AllExpected(bursts[1..], kept[1..]) == [];
    } else {
      var next := Chained(config, more[0]);
      assert bursts[1..] == Bursts(next, more[0].digit, more[1..]);
      assert config.Advance() > 0;
      ChainedIsNew(config, digit, ReleaseSeen(config, kept[0]), more[0]);
      TailArrives(bursts, sent, kept);
      ChainIsHeard(next, more[0].digit, more[1..], sent[1..], kept[1..], last);
    }
  }

  lemma AtLeastOne(a: nat, b: nat)
    requires a > 0 && b > 0
    ensures a * b > 0
  {
  }

  /** In the ranges a phone uses nothing is cut off, and every press moves the timeline on. */
  lemma RangesAdvance(config: BurstConfig)
    requires 50 <= config.clockRate <= 3_276_799 && config.holdMs <= 1_310_700
    ensures config.Ticks() == config.clockRate / 50 > 0
    ensures config.Total() == (if config.holdMs == 0 then 1 else (config.holdMs + 19) / 20) == config.Middle() + 1
    ensures config.Advance() == config.TicksFor(config.Middle() + 1) > 0
  {
    AtLeastOne(config.Total(), config.Ticks());
  }

  // ---- Dialling in the ranges of a phone ----

  predicate InRange(clockRate: Word32, holdMs: Word32) {
    50 <= clockRate <= 3_276_799 && holdMs <= 1_310_700
  }

  /** The 20 ms packets of a hold. */
  function WholePackets(holdMs: Word32): nat {
    if holdMs == 0 then 1 else (holdMs + 19) / 20
  }

  /** The digits of the presses among events. */
  function Digits(events: seq<DtmfEvent>): seq<DtmfDigit> {
    if events == [] then [] else (if events[0].Pressed? then [events[0].digit] else []) + Digits(events[1..])
  }

  lemma {:induction false} BurstAt(config: BurstConfig, digit: DtmfDigit, more: seq<Press>, i: nat)
    requires i <= |more|
    ensures
      var bursts, press := Bursts(config, digit, more), if i == 0 then Press(digit, config.holdMs) else more[i - 1];
      && |bursts| == |more| + 1 && bursts[i].1 == press.digit
      && bursts[i].0.holdMs == press.holdMs && bursts[i].0.clockRate == config.clockRate
    decreases |more|
  {
    hide BurstConfig.Count, BurstConfig.Advance;
    if more == [] {
    } else {
      BurstAt(Chained(config, more[0]), more[0].digit, more[1..], if i == 0 then 0 else i - 1);
    }
  }

  lemma DigitsStep(events: seq<DtmfEvent>)
    requires events != []
    ensures Digits(events) == (if events[0].Pressed? then [events[0].digit] else []) + Digits(events[1..])
  {
  }

  lemma {:induction false} DigitsThen(a: seq<DtmfEvent>, b: seq<DtmfEvent>)
    ensures Digits(a + b) == Digits(a) + Digits(b)
    decreases |a|
  {
    if a == [] {
      assert a + b == b;
    } else {
      DigitsThen(a[1..], b);
      DigitsStep(a);
      DigitsStep(a + b);
      hide Digits;
      assert (a + b)[0] == a[0] && (a + b)[1..] == a[1..] + b;
    }
  }

  lemma {:induction false} ExpectedDigits(bursts: seq<(BurstConfig, DtmfDigit)>, kept: seq<seq<bool>>)
    requires |kept| == |bursts|
    ensures Digits(AllExpected(bursts, kept)) == seq(|bursts|, i requires 0 <= i < |bursts| => bursts[i].1)
    decreases |bursts|
  {
    if bursts == [] {
    } else {
      var first := Expected(bursts[0].0, bursts[0].1, kept[0]);
      DigitsThen(first, AllExpected(bursts[1..], kept[1..]));
      assert first[1..] == [] || (first[1..] == [ReleaseOf(bursts[0].0, bursts[0].1)] && first[1..][1..] == []);
      assert Digits(first) == [bursts[0].1];
      ExpectedDigits(bursts[1..], kept[1..]);
    }
  }

  /** The burst of a press: its digit, a step on the timeline, and a release that tells the press's length. */
  predicate Dials(burst: (BurstConfig, DtmfDigit), press: Press, clockRate: Word32) {
    && burst.1 == press.digit && burst.0.Advance() > 0
    && ReleaseOf(burst.0, burst.1) == Released(press.digit, Saturate16(WholePackets(press.holdMs) * (clockRate / 50)))
  }

  lemma ReleaseInRange(config: BurstConfig, digit: DtmfDigit)
    requires InRange(config.clockRate, config.holdMs)
    ensures config.Advance() > 0
    ensures ReleaseOf(config, digit)
        == Released(digit, Saturate16(WholePackets(config.holdMs) * (config.clockRate / 50)))
  {
    RangesAdvance(config);
    hide Bytes.Saturate16, BurstConfig.Ticks, BurstConfig.Total, BurstConfig.Middle;
  }

  lemma DialledAt(config: BurstConfig, digit: DtmfDigit, more: seq<Press>, i: nat)
    requires i <= |more|
    ensures
      var bursts, press := Bursts(config, digit, more), ([Press(digit, config.holdMs)] + more)[i];
      && |bursts| == |more| + 1 && bursts[i].1 == press.digit
      && (InRange(config.clockRate, press.holdMs) ==> Dials(bursts[i], press, config.clockRate))
  {
    hide Bursts, ReleaseOf, BurstConfig.Advance, WholePackets, Bytes.Saturate16;
    BurstAt(config, digit, more, i);
    var burst := Bursts(config, digit, more)[i];
    if InRange(burst.0.clockRate, burst.0.holdMs) {
      ReleaseInRange(burst.0, burst.1);
    }
  }

  lemma InRangeAdvances(config: BurstConfig, digit: DtmfDigit, more: seq<Press>)
    requires InRange(config.clockRate, config.holdMs) && forall i :: 0 <= i < |more| ==>
        InRange(config.clockRate, more[i].holdMs)
    ensures Advances(Bursts(config, digit, more))
  {
    var bursts := Bursts(config, digit, more);
    forall i | 0 <= i < |bursts| - 1 ensures bursts[i].0.Advance() > 0 {
      BurstAt(config, digit, more, 0);
      DialledAt(config, digit, more, i);
      assert i > 0 ==> ([Press(digit, config.holdMs)] + more)[i] == more[i - 1];
    }
  }

  /**
   Whatever is dialled, with a clock and holds in these ranges, and whatever is lost, one
   packet of each burst arriving: the presses reported are the digits dialled, in order, and
   each release reported tells the length of its press in ticks of the clock, up to what 16
   bits hold.
   */
  lemma DialledStringIsHeard(config: BurstConfig, digit: DtmfDigit, more: seq<Press>, sent: seq<seq<seq<Byte>>>,
          kept: seq<seq<bool>>, active: Option<ActiveEvent>)
    requires config.payloadType < 128 && NewTo(active, config) && Arrives(Bursts(config, digit, more), sent, kept)
    requires InRange(config.clockRate, config.holdMs) && forall i :: 0 <= i < |more| ==>
        InRange(config.clockRate, more[i].holdMs)
    ensures
      var bursts, events := Bursts(config, digit, more),
          TakeAll(config.payloadType, active, AllSurvivors(sent, kept)).1;
      var presses := [Press(digit, config.holdMs)] + more;
      && events == AllExpected(bursts, kept)
      && Digits(events) == seq(|presses|, i requires 0 <= i < |presses| => presses[i].digit)
      && |bursts| == |presses| && forall i :: 0 <= i < |presses| ==> Dials(bursts[i], presses[i], config.clockRate)
  {
    hide Dials, Sent, AnyKept, NewTo, TakePacket;
    var bursts, presses := Bursts(config, digit, more), [Press(digit, config.holdMs)] + more;
    forall i | 0 <= i < |presses|
      ensures |bursts| == |presses| && bursts[i].1 == presses[i].digit && Dials(bursts[i], presses[i], config.clockRate)
    {
      DialledAt(config, digit, more, i);
      assert i > 0 ==> presses[i] == more[i - 1];
    }
    InRangeAdvances(config, digit, more);
    ChainIsHeard(config, digit, more, sent, kept, active);
    ExpectedDigits(bursts, kept);
  }

  lemma NoAdvanceNoMove(config: BurstConfig, press: Press)
    requires config.Advance() == 0
    ensures Chained(config, press).initialTimestamp == config.initialTimestamp
  {
  }

  ghost predicate AnyPressed(events: seq<DtmfEvent>) {
    exists i :: 0 <= i < |events| && events[i].Pressed?
  }

  lemma StaleStep(config: BurstConfig, digit: DtmfDigit, k: nat, active: Option<ActiveEvent>)
    requires config.payloadType < 128
    requires active.Some? && active.value.ssrc == config.ssrc && active.value.timestamp == config.initialTimestamp
    ensures var (a, e) := TakePacket(config.payloadType, active, config.PacketAt(digit, k));
            && a.Some? && a.value.ssrc == config.ssrc && a.value.timestamp == config.initialTimestamp
            && (e.Some? ==> e.value.Released?)
  {
    PacketReads(config, digit, k);
    assert !TimestampNewer(config.initialTimestamp, config.initialTimestamp);
    hide Read, BurstConfig.PacketAt;
  }

  lemma {:induction false} StalePressUnheard(config: BurstConfig, digit: DtmfDigit, packets: seq<seq<Byte>>,
          kept: seq<bool>, k: nat, active: Option<ActiveEvent>)
    requires config.payloadType < 128 && Sent(config, digit, packets, config.Count()) && |kept| == |packets|
        && k <= |packets|
    requires active.Some? && active.value.ssrc == config.ssrc && active.value.timestamp == config.initialTimestamp
    ensures !AnyPressed(TakeAll(config.payloadType, active, Survivors(packets[k..], kept[k..])).1)
    decreases |packets| - k
  {
    hide TakePacket, BurstConfig.PacketAt, BurstConfig.Count;
    if k < |packets| {
      SurvivorsStep(packets, kept, k);
      var rest := Survivors(packets[k + 1..], kept[k + 1..]);
      if kept[k] {
        StaleStep(config, digit, k, active);
        TakeOne(config.payloadType, active, packets[k], rest);
        StalePressUnheard(config, digit, packets, kept, k + 1, TakePacket(config.payloadType, active, packets[k]).0);
      } else {
        assert [] + rest == rest;
        StalePressUnheard(config, digit, packets, kept, k + 1, active);
      }
    }
  }

  /**
   The premise on the timeline is exact: the press after a burst is reported if and only
   if that burst moved the timeline on, whatever the digits and whichever packets survive.
   */
  lemma NextPressIsHeardIff(config: BurstConfig, digit: DtmfDigit, isReleased: bool, press: Press,
          packets: seq<seq<Byte>>, kept: seq<bool>)
    requires config.payloadType < 128
    requires Sent(Chained(config, press), press.digit, packets, Chained(config, press).Count()) && |kept| == |packets|
        && AnyKept(kept, 0)
    ensures AnyPressed(TakeAll(config.payloadType, Tracking(config, digit, isReleased), Survivors(packets, kept)).1)
        <==> config.Advance() > 0
  {
    ChainedIsNew(config, digit, isReleased, press);
    var next, active := Chained(config, press), Tracking(config, digit, isReleased);
    assert next.payloadType == config.payloadType && next.ssrc == config.ssrc;
    hide TakeAll, Survivors, NewTo, BurstConfig.Count, ReleaseSeen;
    if config.Advance() > 0 {
      BurstIsHeard(next, press.digit, packets, kept, active);
      assert Expected(next, press.digit, kept)[0] == Pressed(press.digit);
    } else {
      assert packets[0..] == packets && kept[0..] == kept;
      NoAdvanceNoMove(config, press);
      hide BurstConfig.Advance;
      StalePressUnheard(next, press.digit, packets, kept, 0, active);
    }
  }
}
