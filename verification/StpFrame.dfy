/** The STP full-set wire format: headers, checksums and the bytes of everything a sender emits. */
module StpFrame {
  import opened Bytes

  const BUFFER_SIZE: nat := 16384
  const HEADER_SIZE: nat := 4
  const CRC_SIZE: nat := 2
  const WINSIZE: nat := 7
  const RETRY_LIMIT: nat := 10
  const MAX_PAYLOAD: nat := 2048

  const STP_TASK: byte := 5
  const INFO_TASK: byte := 6

  type seqno = x: int | 0 <= x < 8

  function Inc(x: seqno): seqno {
    (x + 1) % 8
  }

  /** A data packet as its sender means it. The payload may be any length; what the header can say is not. */
  datatype Frame = Frame(num: seqno, ack: seqno, typ: byte, payload: seq<byte>)

  /** Everything an endpoint hands to the interface, in units. */
  datatype Unit =
    | Data(frame: Frame)
    | Ack(ack: seqno)
    | Resync

  function Sum(a: byte, b: byte, c: byte): byte {
    (a + b + c) % 256
  }

  /** The 4-byte header, with the truncations of 8-bit stores written out. */
  function Header(f: Frame): (h: seq<byte>)
    ensures |h| == HEADER_SIZE
  {
    var h0: byte := 128 + 8 * f.num + f.ack;
    var h1: byte := (16 * f.typ + |f.payload| / 256 % 16) % 256;
    var h2: byte := |f.payload| % 256;
    [h0, h1, h2, Sum(h0, h1, h2)]
  }

  function Trailer(crc: Crc, payload: seq<byte>): (t: seq<byte>)
    ensures |t| == CRC_SIZE
  {
    [crc(payload) % 256, crc(payload) / 256]
  }

  function Encode(crc: Crc, f: Frame): (s: seq<byte>)
    ensures |s| == FrameLength(f)
  {
    Header(f) + f.payload + Trailer(crc, f.payload)
  }

  function FrameLength(f: Frame): nat {
    HEADER_SIZE + |f.payload| + CRC_SIZE
  }

  function UnitBytes(crc: Crc, u: Unit): seq<byte> {
    match u
    case Data(f) => Encode(crc, f)
    case Ack(a) => [128 + a, 0, 0, 128 + a]
    case Resync => [127, 127, 127, 127]
  }

  function Encodings(crc: Crc, us: seq<Unit>): (ss: seq<seq<byte>>)
    ensures |ss| == |us|
    ensures forall k :: 0 <= k < |us| ==> ss[k] == UnitBytes(crc, us[k])
  {
    seq(|us|, k requires 0 <= k < |us| => UnitBytes(crc, us[k]))
  }

  function WireBytes(crc: Crc, us: seq<Unit>): seq<byte> {
    Flatten(Encodings(crc, us))
  }

  lemma WireBytesAppend(crc: Crc, a: seq<Unit>, b: seq<Unit>)
    ensures WireBytes(crc, a + b) == WireBytes(crc, a) + WireBytes(crc, b)
  {
    assert Encodings(crc, a + b) == Encodings(crc, a) + Encodings(crc, b);
    FlattenAppend(Encodings(crc, a), Encodings(crc, b));
  }

  lemma WireBytesOne(crc: Crc, u: Unit)
    ensures WireBytes(crc, [u]) == UnitBytes(crc, u)
  {
    assert Encodings(crc, [u]) == [UnitBytes(crc, u)];
    FlattenOne(UnitBytes(crc, u));
  }

  /** What a resend does to the first four stored bytes: new ack bits, new checksum. */
  function Refreshed(h: seq<byte>, ack: seqno): (r: seq<byte>)
    requires |h| >= 3
    ensures |r| == HEADER_SIZE
  {
    var h0: byte := h[0] - h[0] % 8 + ack;
    [h0, h[1], h[2], Sum(h0, h[1], h[2])]
  }

  /** A resend changes the three ack bits and the header checksum of the stored frame and nothing else,
      and the checksum it writes is the one of the new header. */
  lemma RefreshOnlyAck(stored: seq<byte>, ack: seqno)
    requires |stored| >= HEADER_SIZE
    ensures var r := Splice(stored, 0, Refreshed(stored, ack));
            && |r| == |stored|
            && r[0] % 8 == ack && r[0] / 8 == stored[0] / 8
            && r[3] == Sum(r[0], r[1], r[2])
            && r[1] == stored[1] && r[2] == stored[2]
            && r[4..] == stored[4..]
  {
    assert stored[0] == 8 * (stored[0] / 8) + stored[0] % 8;
  }

  /** On an encoded frame that is re-encoding it with the new ack. */
  lemma RefreshEncode(crc: Crc, f: Frame, ack: seqno)
    ensures Splice(Encode(crc, f), 0, Refreshed(Encode(crc, f), ack)) == Encode(crc, f.(ack := ack))
  {
    var s, g := Encode(crc, f), f.(ack := ack);
    assert s[0] % 8 == f.ack;
    assert Refreshed(s, ack) == Header(g);
    assert s[4..] == f.payload + Trailer(crc, f.payload);
  }
}
