/** The multiplexed frame of the relay link (internal/protocol/relay.go). */
module RelayFrame {
  import opened Bytes

  const RELAY_HEADER: nat := 3

  datatype Frame = Frame(channel: nat, kind: byte, payload: seq<byte>)

  function Encode(channel: nat, kind: byte, payload: seq<byte>): seq<byte>
    requires channel < 0x1_0000
  {
    BigEndian(channel, 2) + [kind] + payload
  }

  function Parse(frame: seq<byte>): Option<Frame> {
    if |frame| < RELAY_HEADER then None
    else Some(Frame(FromBigEndian(frame[..2]), frame[2], frame[RELAY_HEADER..]))
  }

  /** RelayFrame fills a fresh buffer: PutUint16, the kind byte, and a copy of the payload. */
  method Build(channel: nat, kind: byte, payload: seq<byte>) returns (out: array<byte>)
    requires channel < 0x1_0000
    ensures fresh(out) && out[..] == Encode(channel, kind, payload)
  {
    out := new byte[RELAY_HEADER + |payload|];
    PutBigEndian(out, 0, 2, channel);
    out[2] := kind;
    forall i | 0 <= i < |payload| {
      out[RELAY_HEADER + i] := payload[i];
    }
    assert out[..] == out[..2] + [out[2]] + out[RELAY_HEADER..];
  }

  /** Two bytes of channel, high byte first, one of kind, and the payload. */
  lemma Layout(channel: nat, kind: byte, payload: seq<byte>)
    requires channel < 0x1_0000
    ensures var e := Encode(channel, kind, payload);
            |e| == 3 + |payload| && e[0] as int * 256 + e[1] as int == channel && e[2] == kind && e[3..] == payload
  {
    assert BigEndian(channel, 2) == BigEndian(channel / 256, 1) + [channel % 256];
    assert BigEndian(channel / 256, 1) == BigEndian(channel / 256 / 256, 0) + [channel / 256 % 256];
  }

  /** Frames and their fields determine each other; only strings shorter than the header do not parse. */
  lemma FrameRoundTrip(channel: nat, kind: byte, payload: seq<byte>, frame: seq<byte>)
    requires channel < 0x1_0000
    ensures Parse(Encode(channel, kind, payload)) == Some(Frame(channel, kind, payload))
    ensures Parse(frame) == Some(Frame(channel, kind, payload)) <==> frame == Encode(channel, kind, payload)
    ensures Parse(frame) == None <==> |frame| < RELAY_HEADER
  {
    var e := Encode(channel, kind, payload);
    assert e[..2] == BigEndian(channel, 2) && e[RELAY_HEADER..] == payload;
    assert Pow256(2) == 0x1_0000;
    BigEndianRoundTrip(channel, 2);
    if Parse(frame) == Some(Frame(channel, kind, payload)) {
      BigEndianOnto(frame[..2]);
      assert frame == frame[..2] + [frame[2]] + frame[RELAY_HEADER..];
    }
  }
}
