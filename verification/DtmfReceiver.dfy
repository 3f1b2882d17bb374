/** Receiving DTMF: event packets collapsed into one press and at most one release each. */
module DtmfReception {
  import opened Wrappers
  import opened Bytes
  import opened Rtp
  import opened Dtmf

  datatype DtmfEvent =
    | Pressed(digit: DtmfDigit)
    | Released(released: DtmfDigit, duration: Word16)

  /** The press being tracked: packets of one press share the timestamp of its start. */
  datatype ActiveEvent = ActiveEvent(ssrc: Word32, timestamp: Word32, event: Byte, isReleased: bool)

  /** What a datagram says, if it is a digit packet of the negotiated payload type. */
  datatype Reading = Reading(ssrc: Word32, timestamp: Word32, digit: DtmfDigit, end: bool, duration: Word16)

  /** Strictly newer on a wrapping timeline: less than half way round ahead. */
  predicate TimestampNewer(a: Word32, b: Word32) {
    0 < Wrap32(a - b) < 0x8000_0000
  }

  function Read(payloadType: Byte, packet: seq<Byte>): Option<Reading> {
    match ParseHeader(packet)
    case None => None
    case Some(h) =>
      if h.payloadType != payloadType || |packet| < h.HeaderLen() then None
      else
        match ParseEventPayload(packet[h.HeaderLen()..])
        case None => None
        case Some(p) =>
          match FromEventCode(p.event)
          case None => None
          case Some(digit) => Some(Reading(h.ssrc, h.timestamp, digit, p.end, p.duration))
  }

  /** What the receiver makes of a reading. */
  function Take(active: Option<ActiveEvent>, r: Reading): (Option<ActiveEvent>, Option<DtmfEvent>) {
    var begins := (Some(ActiveEvent(r.ssrc, r.timestamp, EventCode(r.digit), false)), Some(Pressed(r.digit)));
    match active
    case None => begins
    case Some(a) =>
      if a.ssrc == r.ssrc && a.timestamp == r.timestamp && a.event == EventCode(r.digit) then
        if r.end && !a.isReleased then (Some(a.(isReleased := true)), Some(Released(r.digit, r.duration)))
        else (active, None)
      else if a.ssrc == r.ssrc && !TimestampNewer(r.timestamp, a.timestamp) then (active, None)
      else begins
  }

  function TakePacket(payloadType: Byte, active: Option<ActiveEvent>,
          packet: seq<Byte>): (Option<ActiveEvent>, Option<DtmfEvent>) {
    match Read(payloadType, packet)
    case None => (active, None)
    case Some(r) => Take(active, r)
  }

  class DtmfReceiver {
    const payloadType: Byte
    var active: Option<ActiveEvent>

    constructor (payloadType: Byte)
      ensures this.payloadType == payloadType && active == None
    {
      this.payloadType, active := payloadType, None;
    }

    method Push(packet: seq<Byte>) returns (event: Option<DtmfEvent>)
      modifies this`active
      ensures (active, event) == TakePacket(payloadType, old(active), packet)
    {
      var header := ParseHeader(packet);
      if header.None? || header.value.payloadType != payloadType || |packet| < header.value.HeaderLen() {
        return None;
      }
      var h := header.value;
      var payload := ParseEventPayload(packet[h.HeaderLen()..]);
      if payload.None? {
        return None;
      }
      // Codes from 16 up are not keypad digits.
      var digit := FromEventCode(payload.value.event);
      if digit.None? {
        return None;
      }
      CodesAreDigits(payload.value.event);
      if active.Some? {
        var a := active.value;
        if a.ssrc == h.ssrc && a.timestamp == h.timestamp && a.event == payload.value.event {
          if payload.value.end && !a.isReleased {
            active := Some(a.(isReleased := true));
            return Some(Released(digit.value, payload.value.duration));
          }
          return None;
        }
        if a.ssrc == h.ssrc && !TimestampNewer(h.timestamp, a.timestamp) {
          return None;
        }
      }
      active := Some(ActiveEvent(h.ssrc, h.timestamp, payload.value.event, false));
      event := Some(Pressed(digit.value));
    }
  }
}
