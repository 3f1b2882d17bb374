/** RTP headers (RFC 3550): parsing, and the counters of the audio send loop. */
module Rtp {
  import opened Wrappers
  import opened Bytes

  datatype RtpHeader = RtpHeader(
    version: nat, padding: bool, hasExtension: bool, csrcCount: nat,
    marker: bool, payloadType: nat, sequence: Word16, timestamp: Word32, ssrc: Word32
  ) {
    function HeaderLen(): nat { 12 + 4 * csrcCount }
  }

  /** Masks and shifts are written as division and remainder. */
  function ParseHeader(buf: seq<Byte>): (r: Option<RtpHeader>)
    ensures r.Some? <==> |buf| >= 12 && 128 <= buf[0] < 192
    ensures r.Some? ==> r.value.version == 2 && r.value.csrcCount < 16 && r.value.payloadType < 128
  {
    if |buf| < 12 || buf[0] / 64 != 2 then None
    else
      Some(RtpHeader(
        buf[0] / 64, buf[0] / 32 % 2 != 0, buf[0] / 16 % 2 != 0, buf[0] % 16,
        buf[1] / 128 != 0, buf[1] % 128, Word16At(buf, 2), Word32At(buf, 4), Word32At(buf, 8)))
  }

  /** A packet with the fixed first byte, no CSRCs, and what follows its header. */
  function Packet(marker: bool, payloadType: Byte, sequence: Word16, timestamp: Word32, ssrc: Word32,
          payload: seq<Byte>): seq<Byte> {
    [0x80, (if marker then 128 else 0) + payloadType % 128]
    + Word16Bytes(sequence) + Word32Bytes(timestamp) + Word32Bytes(ssrc) + payload
  }

  lemma PacketParses(marker: bool, payloadType: Byte, sequence: Word16, timestamp: Word32, ssrc: Word32,
          payload: seq<Byte>)
    ensures var p := Packet(marker, payloadType, sequence, timestamp, ssrc, payload);
            && |p| == 12 + |payload| && p[12..] == payload
            && ParseHeader(p)
                == Some(RtpHeader(2, false, false, 0, marker, payloadType % 128, sequence, timestamp, ssrc))
  {
    var p := Packet(marker, payloadType, sequence, timestamp, ssrc, payload);
    assert p[0] == 0x80 && p[1] == (if marker then 128 else 0) + payloadType % 128;
    assert p[2..4] == Word16Bytes(sequence) && p[4..8] == Word32Bytes(timestamp) && p[8..12] == Word32Bytes(ssrc);
    assert Word16At(p, 2) == Word16At(p[2..4], 0);
    assert Word32At(p, 4) == Word32At(p[4..8], 0);
    assert Word32At(p, 8) == Word32At(p[8..12], 0);
  }

  datatype SendConfig = SendConfig(payloadType: Byte, ssrc: Word32, initialSeq: Word16, initialTimestamp: Word32,
          samplesPerFrame: Word32)

  /** The counters of the k-th packet, counting from zero. */
  function SequenceAt(config: SendConfig, k: nat): Word16 { Wrap16(config.initialSeq + k) }

  function TimestampAt(config: SendConfig,
          k: nat): Word32 { Wrap32(config.initialTimestamp + k * config.samplesPerFrame) }

  lemma Distributes(k: nat, step: nat)
    ensures (k + 1) * step == k * step + step
  {
  }

  lemma CountersStep(config: SendConfig, k: nat)
    ensures SequenceAt(config, k + 1) == Wrap16(SequenceAt(config, k) + 1)
    ensures TimestampAt(config, k + 1) == Wrap32(TimestampAt(config, k) + config.samplesPerFrame)
  {
    Distributes(k, config.samplesPerFrame);
    WrapTwice16(config.initialSeq + k, 1);
    WrapTwice32(config.initialTimestamp + k * config.samplesPerFrame, config.samplesPerFrame);
    hide Bytes.Wrap16, Bytes.Wrap32;
    assert config.initialTimestamp + (k + 1) * config.samplesPerFrame
        == config.initialTimestamp + k * config.samplesPerFrame + config.samplesPerFrame;
  }

  /** The packet parses to the k-th counters and carries the payload. */
  predicate Carries(packet: seq<Byte>, config: SendConfig, k: nat, payload: seq<Byte>) {
    && |packet| == 12 + |payload| && packet[12..] == payload
    && ParseHeader(packet) == Some(RtpHeader(2, false, false, 0, false, config.payloadType % 128,
                                             SequenceAt(config, k), TimestampAt(config, k), config.ssrc))
  }

  lemma CountersStart(config: SendConfig)
    ensures SequenceAt(config, 0) == config.initialSeq && TimestampAt(config, 0) == config.initialTimestamp
  {
  }

  /** The packets of a send loop: it sends what it is given, in order, until a send fails. */
  method SendLoop(config: SendConfig, payloads: seq<seq<Byte>>, sends: nat -> bool) returns (packets: seq<seq<Byte>>)
    ensures |packets| <= |payloads| && (|packets| < |payloads| ==> !sends(|packets|))
    ensures forall k :: 0 <= k < |packets| ==> sends(k) && Carries(packets[k], config, k, payloads[k])
  {
    hide SequenceAt, TimestampAt, Packet, ParseHeader;
    var nextSeq: Word16, ts: Word32 := config.initialSeq, config.initialTimestamp;
    CountersStart(config);
    packets := [];
    var i := 0;
    while i < |payloads|
      invariant i <= |payloads| && |packets| == i
      invariant nextSeq == SequenceAt(config, i) && ts == TimestampAt(config, i)
      invariant forall k :: 0 <= k < i ==> sends(k) && Carries(packets[k], config, k, payloads[k])
    {
      if !sends(i) {
        return;
      }
      PacketParses(false, config.payloadType, nextSeq, ts, config.ssrc, payloads[i]);
      packets := packets + [Packet(false, config.payloadType, nextSeq, ts, config.ssrc, payloads[i])];
      CountersStep(config, i);
      nextSeq := Wrap16(nextSeq + 1);
      ts := Wrap32(ts + config.samplesPerFrame);
      i := i + 1;
    }
  }
}
