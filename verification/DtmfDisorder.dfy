/**
 The DTMF receiver under any loss, duplication and reordering of the packets of one
 stream: what it reports is still in order, and each press and release at most once.
 */
module DtmfDisorder {
  import opened Wrappers
  import opened Bytes
  import opened Dtmf
  import opened DtmfReception
  import DtmfEndToEnd

  /** A report, with the timestamp of the packet that brought it. */
  datatype Report = Report(timestamp: Word32, event: DtmfEvent)

  function ReportsOf(payloadType: Byte, active: Option<ActiveEvent>, packets: seq<seq<Byte>>): seq<Report>
    decreases |packets|
  {
    if packets == [] then []
    else
      var (a, e) := TakePacket(payloadType, active, packets[0]);
      var rest := ReportsOf(payloadType, a, packets[1..]);
      match (e, Read(payloadType, packets[0]))
      case (Some(event), Some(r)) => [Report(r.timestamp, event)] + rest
      case _ => rest
  }

  function EventsOf(reports: seq<Report>): seq<DtmfEvent> {
    if reports == [] then [] else [reports[0].event] + EventsOf(reports[1..])
  }

  /** The reports are what the receiver returns, packet after packet. */
  lemma {:induction false} ReportsAreEvents(payloadType: Byte, active: Option<ActiveEvent>, packets: seq<seq<Byte>>)
    ensures EventsOf(ReportsOf(payloadType, active, packets)) == DtmfEndToEnd.TakeAll(payloadType, active, packets).1
    decreases |packets|
  {
    if packets == [] {
    } else {
      var (a, e) := TakePacket(payloadType, active, packets[0]);
      ReportsAreEvents(payloadType, a, packets[1..]);
      var rest := ReportsOf(payloadType, a, packets[1..]);
      assert [] + EventsOf(rest) == EventsOf(rest);
      if e.Some? {
        var r := Report(Read(payloadType, packets[0]).value.timestamp, e.value);
        assert ([r] + rest)[1..] == rest;
      }
    }
  }

  /** How far a timestamp lies after the start of the window, modulo 2^32. */
  function After(base: Word32, ts: Word32): nat { Wrap32(ts - base) }

  predicate FitsWindow(r: Option<Reading>, ssrc: Word32, base: Word32) {
    r.Some? ==> r.value.ssrc == ssrc && After(base, r.value.timestamp) < 0x8000_0000
  }

  /** The digit packets come from one stream, their timestamps from less than half the circle. */
  predicate InWindow(payloadType: Byte, packets: seq<seq<Byte>>, ssrc: Word32, base: Word32) {
    forall i :: 0 <= i < |packets| ==> FitsWindow(Read(payloadType, packets[i]), ssrc, base)
  }

  predicate TracksWindow(active: Option<ActiveEvent>, ssrc: Word32, base: Word32) {
    active.Some? ==> active.value.ssrc == ssrc && After(base, active.value.timestamp) < 0x8000_0000
  }

  /** Inside the window, newer on the circle is later in the window. */
  lemma NewerIsLater(a: Word32, b: Word32, base: Word32)
    requires After(base, a) < 0x8000_0000 && After(base, b) < 0x8000_0000
    ensures TimestampNewer(a, b) <==> After(base, a) > After(base, b)
  {
  }

  /** Each press is later than all before it; a release directly follows its own press. */
  predicate InOrder(reports: seq<Report>, base: Word32) {
    && (forall i, j :: 0 <= i < j < |reports| && reports[i].event.Pressed? && reports[j].event.Pressed? ==>
          After(base, reports[i].timestamp) < After(base, reports[j].timestamp))
    && (forall i :: 0 <= i < |reports| && reports[i].event.Released? ==>
          i > 0 && reports[i - 1] == Report(reports[i].timestamp, Pressed(reports[i].event.released)))
  }

  /** Reports in order that go on from a press being tracked. */
  predicate GoesOn(active: Option<ActiveEvent>, reports: seq<Report>, base: Word32) {
    && (forall j :: 0 <= j < |reports| && reports[j].event.Pressed? && active.Some? ==>
          After(base, active.value.timestamp) < After(base, reports[j].timestamp))
    && (reports != [] && reports[0].event.Released? ==>
          && active.Some? && !active.value.isReleased && reports[0].timestamp == active.value.timestamp
          && active.value.event == EventCode(reports[0].event.released)
          && InOrder(reports[1..], base))
    && (reports == [] || reports[0].event.Pressed? ==> InOrder(reports, base))
  }

  /** What one packet does, in the window. */
  lemma StepInWindow(active: Option<ActiveEvent>, r: Reading, ssrc: Word32, base: Word32)
    requires TracksWindow(active, ssrc, base) && FitsWindow(Some(r), ssrc, base)
    ensures var (a, e) := Take(active, r);
            && TracksWindow(a, ssrc, base)
            && match e
               case None => a == active
               case Some(Pressed(digit)) =>
                 && a == Some(ActiveEvent(ssrc, r.timestamp, EventCode(digit), false))
                 && (active.Some? ==> After(base, active.value.timestamp) < After(base, r.timestamp))
               case Some(Released(digit, _)) =>
                 active.Some? && !active.value.isReleased && a == Some(active.value.(isReleased := true))
                 && r.timestamp == active.value.timestamp && active.value.event == EventCode(digit)
  {
    if active.Some? {
      NewerIsLater(r.timestamp, active.value.timestamp, base);
    }
    hide EventCode, FromEventCode;
  }

  /** A press in front of reports that go on from it. */
  lemma PressGoesOn(active: Option<ActiveEvent>, a: ActiveEvent, digit: DtmfDigit, rest: seq<Report>, base: Word32)
    requires GoesOn(Some(a), rest, base) && a.event == EventCode(digit)
    requires active.Some? ==> After(base, active.value.timestamp) < After(base, a.timestamp)
    ensures GoesOn(active, [Report(a.timestamp, Pressed(digit))] + rest, base)
  {
    hide After;
    var all := [Report(a.timestamp, Pressed(digit))] + rest;
    assert forall i :: 0 < i < |all| ==> all[i] == rest[i - 1];
    if rest != [] && rest[0].event.Released? {
      var other := rest[0].event.released;
      assert FromEventCode(EventCode(digit)) == FromEventCode(EventCode(other));
      hide EventCode, FromEventCode;
      assert all[0] == Report(all[1].timestamp, Pressed(all[1].event.released));
      assert forall i :: 1 < i < |all| ==> all[i] == rest[1..][i - 2];
    }
  }

  lemma ReleaseGoesOn(active: ActiveEvent, report: Report, rest: seq<Report>, base: Word32)
    requires GoesOn(Some(active.(isReleased := true)), rest, base)
    requires !active.isReleased && report.event.Released? && report.timestamp == active.timestamp
    requires active.event == EventCode(report.event.released)
    ensures GoesOn(Some(active), [report] + rest, base)
  {
    hide After, EventCode;
    var all := [report] + rest;
    assert all[1..] == rest;
    assert forall i :: 0 < i < |all| ==> all[i] == rest[i - 1];
  }

  lemma {:induction false} ReportsGoOn(payloadType: Byte, active: Option<ActiveEvent>, packets: seq<seq<Byte>>,
          ssrc: Word32, base: Word32)
    requires TracksWindow(active, ssrc, base) && InWindow(payloadType, packets, ssrc, base)
    ensures GoesOn(active, ReportsOf(payloadType, active, packets), base)
    decreases |packets|
  {
    if packets == [] {
    } else {
      var packet, later := packets[0], packets[1..];
      assert FitsWindow(Read(payloadType, packet), ssrc, base);
      assert forall i :: 0 <= i < |later| ==> later[i] == packets[i + 1];
      hide GoesOn, After, Take, Read, FitsWindow, TracksWindow;
      match Read(payloadType, packet)
      case None =>
        ReportsGoOn(payloadType, active, later, ssrc, base);
      case Some(r) =>
        var (a, e) := Take(active, r);
        StepInWindow(active, r, ssrc, base);
        ReportsGoOn(payloadType, a, later, ssrc, base);
        var rest := ReportsOf(payloadType, a, later);
        match e
        case None =>
        case Some(Pressed(digit)) => PressGoesOn(active, a.value, digit, rest, base);
        case Some(event) => ReleaseGoesOn(active.value, Report(r.timestamp, event), rest, base);
    }
  }

  /**
   Whatever happens to the packets of one stream on the way, as long as their timestamps
   span less than half the circle: presses are reported in the order they were made, each
   timestamp at most once, and a release at most once, directly after its own press.
   */
  lemma DisorderIsHarmless(payloadType: Byte, packets: seq<seq<Byte>>, ssrc: Word32, base: Word32)
    requires InWindow(payloadType, packets, ssrc, base)
    ensures InOrder(ReportsOf(payloadType, None, packets), base)
  {
    ReportsGoOn(payloadType, None, packets, ssrc, base);
  }

  /** So no timestamp has two presses or two releases. */
  lemma OncePerTimestamp(payloadType: Byte, packets: seq<seq<Byte>>, ssrc: Word32, base: Word32, i: nat, j: nat)
    requires InWindow(payloadType, packets, ssrc, base)
    requires i < j < |ReportsOf(payloadType, None, packets)|
    ensures var reports := ReportsOf(payloadType, None, packets);
            reports[i].timestamp == reports[j].timestamp ==>
                reports[i].event.Pressed? && reports[j].event.Released? && j == i + 1
  {
    DisorderIsHarmless(payloadType, packets, ssrc, base);
    var reports := ReportsOf(payloadType, None, packets);
    var p := if reports[i].event.Pressed? then i else i - 1;
    var q := if reports[j].event.Pressed? then j else j - 1;
    assert reports[p].event.Pressed? && reports[q].event.Pressed?;
    assert reports[p].timestamp == reports[i].timestamp && reports[q].timestamp == reports[j].timestamp;
  }
}
