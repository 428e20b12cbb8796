/** Parser and protocol put together: what bytes on the wire do to the end that reads them. */
module StpLink {
  import opened Bytes
  import opened StpFrame
  import opened StpEndpoint
  import opened GoBackN
  import Parsing = StpParser
  import RoundTrips = StpRoundTrip

  /** Acting on what the parser reports. `room` is what becomes of an accepted packet; it may depend on everything
      that has happened. */
  function Hear(y: Side, e: Parsing.Event, room: Side -> bool): Side {
    match e
    case Packet(num, ack, typ, payload) => DoReceive(y, Data(Frame(num, ack, typ, payload)), room(y))
    case AckOnly(ack) => DoReceive(y, Unit.Ack(ack), room(y))
  }

  function HearAll(y: Side, es: seq<Parsing.Event>, room: Side -> bool): Side
    decreases |es|
  {
    if es == [] then y else HearAll(Hear(y, es[0], room), es[1..], room)
  }

  function ReceiveAll(y: Side, us: seq<Unit>, room: Side -> bool): Side
    decreases |us|
  {
    if us == [] then y else ReceiveAll(DoReceive(y, us[0], room(y)), us[1..], room)
  }

  lemma {:induction false} ReportsHeard(y: Side, us: seq<Unit>, room: Side -> bool)
    requires RoundTrips.Sendable(us)
    ensures HearAll(y, RoundTrips.Reports(us), room) == ReceiveAll(y, us, room)
    decreases |us|
  {
    if us != [] {
      var u := us[0];
      var rest := RoundTrips.Reports(us[1..]);
      var y' := DoReceive(y, u, room(y));
      assert u in us;
      ReportsHeard(y', us[1..], room);
      match u {
        case Data(f) =>
          assert f == Frame(f.num, f.ack, f.typ, f.payload);
          HearNext(y, RoundTrips.Report(u)[0], rest, room);
        case Ack(a) => HearNext(y, RoundTrips.Report(u)[0], rest, room);
        case Resync => assert RoundTrips.Report(u) + rest == rest;
      }
    }
  }

  lemma HearNext(y: Side, e: Parsing.Event, es: seq<Parsing.Event>, room: Side -> bool)
    ensures HearAll(y, [e] + es, room) == HearAll(Hear(y, e, room), es, room)
  {
    assert ([e] + es)[1..] == es;
  }

  /** An undamaged stretch of wire, read from Sync and cut into parser calls anywhere, moves the receiving end exactly
      as the units put on it would, one by one. */
  lemma WireTransfer(crc: Crc, p: Parsing.Parser, y: Side, us: seq<Unit>, chunks: seq<seq<byte>>, room: Side -> bool)
    requires Parsing.WellFormed(p) && p.mode == Parsing.Sync && RoundTrips.Sendable(us)
    requires Flatten(chunks) == WireBytes(crc, us)
    ensures HearAll(y, RoundTrips.FeedChunks(crc, p, chunks).events, room) == ReceiveAll(y, us, room)
  {
    RoundTrips.RoundTrip(crc, p, us, chunks);
    ReportsHeard(y, us, room);
  }

  /** What a send of a packet the link can carry puts on the wire can be parsed in full. */
  lemma SendsCarried(x: Side, typ: byte, payload: seq<byte>)
    requires RoundTrips.Carried(Frame(x.end.txseq, x.end.txack, typ, payload))
    ensures RoundTrips.Sendable(Send(x.end, typ, payload).wire)
  {}

  /** So can a resend of such packets. */
  lemma ResendsCarried(x: Side)
    requires forall f :: f in x.end.unacked ==> RoundTrips.Carried(f)
    ensures RoundTrips.Sendable(Timeout(x.end).wire)
  {
    var w := Timeout(x.end).wire;
    forall u | u in w && u.Data? ensures RoundTrips.Carried(u.frame) {
      var k :| 0 <= k < |w| && w[k] == u;
      var f := x.end.unacked[k - 1];
      assert f in x.end.unacked && u.frame == f.(ack := x.end.txack);
    }
  }
}
