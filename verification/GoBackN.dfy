/** Two endpoints joined by two FIFO links that may lose anything. Packets in flight carry history tags -
    which packet they are, counting from the first ever sent, and how many packets their sender had accepted -
    that no endpoint reads; the endpoints see 3-bit numbers only. */
module GoBackN {
  import opened Bytes
  import opened StpFrame
  import opened StpEndpoint

  datatype Item = Item(typ: byte, payload: seq<byte>)

  datatype Flight = Flight(unit: Unit, index: int, count: nat)

  datatype Side = Side(
    end: Endpoint,
    sent: seq<Item>,     // everything send accepted, ever
    got: seq<Item>,      // everything accepted from the peer, ever
    out: seq<Flight>)    // the link to the peer

  datatype System = System(a: Side, b: Side)

  datatype Action =
    | Sending(byA: bool, typ: byte, payload: seq<byte>)
    | Expiring(byA: bool)
    | Delivering(fromA: bool, queued: bool)
    | Losing(fromA: bool, at: nat)

  /** Both ends after a reset, each with the flag that a reset does not touch. */
  function Init(window: nat, okA: bool, okB: bool): System {
    System(Side(Reset(window, okA), [], [], []), Side(Reset(window, okB), [], [], []))
  }

  function DoSend(x: Side, typ: byte, payload: seq<byte>): Side {
    var s := Send(x.end, typ, payload);
    if s.accepted then
      Side(s.end, x.sent + [Item(typ, payload)], x.got, x.out + [Flight(s.wire[0], |x.sent|, |x.got|)])
    else x
  }

  function Tagged(us: seq<Unit>, first: int, count: nat): (fs: seq<Flight>)
    ensures |fs| == |us|
    ensures forall k :: 0 <= k < |us| ==> fs[k] == Flight(us[k], first + k, count)
  {
    seq(|us|, k requires 0 <= k < |us| => Flight(us[k], first + k, count))
  }

  function Acked(x: Side): int {
    |x.sent| - |x.end.unacked|
  }

  function DoTimeout(x: Side): Side {
    var s := Timeout(x.end);
    x.(end := s.end, out := x.out + Tagged(s.wire, Acked(x) - 1, |x.got|))
  }

  function DoReceive(y: Side, u: Unit, queued: bool): Side {
    match u
    case Resync => y
    case Ack(a) => y.(end := TakeAck(y.end, a))
    case Data(f) =>
      var s := Receive(y.end, f.num, f.ack, queued);
      var got := if s.accepted then y.got + [Item(f.typ, f.payload)] else y.got;
      y.(end := s.end, got := got, out := if s.wire == [] then y.out else y.out + [Flight(s.wire[0], 0, |got|)])
  }

  function Without<T>(s: seq<T>, i: nat): seq<T> {
    if i < |s| then s[..i] + s[i + 1..] else s
  }

  function Swap(s: System): System {
    System(s.b, s.a)
  }

  /** A step taken by side a, or on the link from a. */
  function NextA(s: System, act: Action): System {
    match act
    case Sending(_, t, p) => s.(a := DoSend(s.a, t, p))
    case Expiring(_) => s.(a := DoTimeout(s.a))
    case Delivering(_, q) =>
      if s.a.out == [] then s
      else System(s.a.(out := s.a.out[1..]), DoReceive(s.b, s.a.out[0].unit, q))
    case Losing(_, i) => s.(a := s.a.(out := Without(s.a.out, i)))
  }

  predicate OfA(act: Action) {
    match act
    case Sending(x, _, _) => x
    case Expiring(x) => x
    case Delivering(x, _) => x
    case Losing(x, _) => x
  }

  function Next(s: System, act: Action): System {
    if OfA(act) then NextA(s, act) else Swap(NextA(Swap(s), act))
  }

  // ---------- the invariant ----------

  /** Data in flight: each is the packet its tag says, recent enough to be told apart mod 8, and no packet
      follows one that is a whole window ahead of it. */
  ghost predicate DataOk(window: nat, out: seq<Flight>, sent: seq<Item>, r: nat) {
    && (forall p :: 0 <= p < |out| && out[p].unit.Data? ==>
         var f := out[p].unit.frame;
         && 0 <= out[p].index < |sent| && r <= out[p].index + window
         && f.num == out[p].index % 8 && sent[out[p].index] == Item(f.typ, f.payload))
    && (forall p, q :: 0 <= p < q < |out| && out[p].unit.Data? && out[q].unit.Data? ==>
         out[p].index < out[q].index + window)
  }

  function AckOf(u: Unit): seqno
    requires !u.Resync?
  {
    if u.Data? then u.frame.ack else u.ack
  }

  /** Acknowledgements in flight: each is the count its tag says, between what has been taken and what has
      been accepted, and they come in order. */
  ghost predicate AcksOk(out: seq<Flight>, taken: int, accepted: nat) {
    && (forall p :: 0 <= p < |out| && !out[p].unit.Resync? ==>
         taken <= out[p].count <= accepted && AckOf(out[p].unit) == (out[p].count + 7) % 8)
    && (forall p, q :: 0 <= p < q < |out| && !out[p].unit.Resync? && !out[q].unit.Resync? ==>
         out[p].count <= out[q].count)
  }

  ghost predicate Kept(x: Side) {
    && 0 <= Acked(x)
    && x.end.txseq == |x.sent| % 8
    && x.end.rxack == (Acked(x) + 7) % 8
    && forall k :: 0 <= k < |x.end.unacked| ==>
         x.sent[Acked(x) + k] == Item(x.end.unacked[k].typ, x.end.unacked[k].payload)
  }

  /** The stream from x to y. */
  ghost predicate Half(window: nat, x: Side, y: Side) {
    && Coherent(x.end, window) && Coherent(y.end, window)
    && Kept(x)
    && Acked(x) <= |y.got| <= |x.sent|
    && y.got == x.sent[..|y.got|]
    && y.end.expected == |y.got| % 8
    && DataOk(window, x.out, x.sent, |y.got|)
    && AcksOk(y.out, Acked(x), |y.got|)
  }

  ghost predicate Inv(window: nat, s: System) {
    Half(window, s.a, s.b) && Half(window, s.b, s.a)
  }

  // ---------- arithmetic mod 8 ----------

  lemma SameMod8(i: nat, j: nat)
    requires i % 8 == j % 8 && i <= j + 7 && j <= i + 7
    ensures i == j
  {}

  lemma ReachIs(e: Endpoint, taken: nat, count: nat)
    requires e.rxack == (taken + 7) % 8 && taken <= count <= taken + 7
    ensures Reach(e, (count + 7) % 8) == count - taken
  {}

  lemma TxackIs(e: Endpoint, window: nat, r: nat)
    requires Coherent(e, window) && e.expected == r % 8
    ensures e.txack == (r + 7) % 8
  {}

  // ---------- links ----------

  lemma DataConcat(window: nat, out: seq<Flight>, more: seq<Flight>, sent: seq<Item>, r: nat)
    requires DataOk(window, out, sent, r) && DataOk(window, more, sent, r)
    requires forall q :: 0 <= q < |more| && more[q].unit.Data? ==> |sent| <= more[q].index + window
    ensures DataOk(window, out + more, sent, r)
  {}

  lemma DataExtend(window: nat, out: seq<Flight>, sent: seq<Item>, x: Item, r: nat)
    requires DataOk(window, out, sent, r)
    ensures DataOk(window, out, sent + [x], r)
  {}

  lemma AcksConcat(out: seq<Flight>, more: seq<Flight>, taken: int, accepted: nat)
    requires AcksOk(out, taken, accepted) && taken <= accepted
    requires forall q :: 0 <= q < |more| && !more[q].unit.Resync? ==>
               more[q].count == accepted && AckOf(more[q].unit) == (accepted + 7) % 8
    ensures AcksOk(out + more, taken, accepted)
  {}

  lemma DataWithout(window: nat, out: seq<Flight>, sent: seq<Item>, r: nat, i: nat)
    requires DataOk(window, out, sent, r)
    ensures DataOk(window, Without(out, i), sent, r)
  {}

  lemma AcksWithout(out: seq<Flight>, taken: int, accepted: nat, i: nat)
    requires AcksOk(out, taken, accepted)
    ensures AcksOk(Without(out, i), taken, accepted)
  {}

  lemma AcksRise(out: seq<Flight>, taken: int, accepted: nat, accepted': nat)
    requires AcksOk(out, taken, accepted) && accepted <= accepted'
    ensures AcksOk(out, taken, accepted')
  {}

  // ---------- each step keeps it ----------

  lemma NumberIs(rxack: seqno, taken: nat, k: nat)
    requires rxack == (taken + 7) % 8
    ensures (rxack + 1 + k) % 8 == (taken + k) % 8
  {}

  lemma Window(window: nat, x: Side, y: Side)
    requires Half(window, x, y)
    ensures window <= 7 && x.end.winspace + |x.end.unacked| == window && |x.sent| <= Acked(x) + window
  {}

  lemma KeptSend(x: Side, typ: byte, payload: seq<byte>)
    requires Kept(x)
    ensures Kept(DoSend(x, typ, payload))
    ensures Acked(DoSend(x, typ, payload)) == Acked(x)
  {
    if Admits(x.end, |payload|) {
      var x' := DoSend(x, typ, payload);
      var it := Item(typ, payload);
      assert x'.sent == x.sent + [it];
      assert x'.end.unacked == x.end.unacked + [Frame(x.end.txseq, x.end.txack, typ, payload)];
      assert Acked(x') + |x.end.unacked| == |x.sent|;
    }
  }

  /** The sender's own stream after a send. */
  lemma SendStream(window: nat, x: Side, y: Side, typ: byte, payload: seq<byte>)
    requires Half(window, x, y)
    ensures Half(window, DoSend(x, typ, payload), y)
  {
    var it := Item(typ, payload);
    var fl := Flight(Data(Frame(x.end.txseq, x.end.txack, typ, payload)), |x.sent|, |x.got|);
    if Admits(x.end, |payload|) {
      assert DataOk(window, [fl], x.sent + [it], |y.got|);
      hide DataOk, AcksOk, Kept, Coherent, Admits;
      KeptSend(x, typ, payload);
      SendCoherent(x.end, window, typ, payload);
      DataExtend(window, x.out, x.sent, it, |y.got|);
      DataConcat(window, x.out, [fl], x.sent + [it], |y.got|);
    }
  }

  /** The peer's stream after a send: one more piggybacked acknowledgement under way. */
  lemma SendPiggyback(window: nat, x: Side, y: Side, typ: byte, payload: seq<byte>)
    requires Half(window, y, x)
    ensures Half(window, y, DoSend(x, typ, payload))
  {
    var fl := Flight(Data(Frame(x.end.txseq, x.end.txack, typ, payload)), |x.sent|, |x.got|);
    TxackIs(x.end, window, |x.got|);
    SendCoherent(x.end, window, typ, payload);
    if Admits(x.end, |payload|) {
      hide DataOk, AcksOk, Kept, Coherent, Admits;
      AcksConcat(x.out, [fl], Acked(y), |x.got|);
    }
  }

  lemma KeptTimeout(x: Side)
    requires Kept(x)
    ensures Kept(DoTimeout(x)) && Acked(DoTimeout(x)) == Acked(x)
  {}

  function Resent(x: Side): seq<Flight> {
    Tagged(Timeout(x.end).wire, Acked(x) - 1, |x.got|)
  }

  lemma ResentOk(window: nat, x: Side, y: Side)
    requires Half(window, x, y)
    ensures DataOk(window, Resent(x), x.sent, |y.got|)
    ensures forall q :: 0 <= q < |Resent(x)| && Resent(x)[q].unit.Data? ==>
              |x.sent| <= Resent(x)[q].index + window
  {
    var more := Resent(x);
    forall q | 0 <= q < |more| && more[q].unit.Data?
      ensures 0 <= more[q].index == Acked(x) + (q - 1) < |x.sent|
      ensures var f := more[q].unit.frame;
              f.num == more[q].index % 8 && x.sent[more[q].index] == Item(f.typ, f.payload)
    {
      NumberIs(x.end.rxack, Acked(x), q - 1);
    }
  }

  lemma ResentAcks(x: Side, q: nat)
    requires q < |Resent(x)| && !Resent(x)[q].unit.Resync?
    ensures Resent(x)[q].count == |x.got| && AckOf(Resent(x)[q].unit) == x.end.txack
  {}

  lemma TimeoutKeeps(window: nat, x: Side, y: Side)
    requires Half(window, x, y) && Half(window, y, x)
    ensures var x' := DoTimeout(x);
            Half(window, x', y) && Half(window, y, x')
  {
    TxackIs(x.end, window, |x.got|);
    assert Timeout(x.end).end.expected == x.end.expected;
    assert 0 <= Acked(y) <= |x.got|;
    ResentOk(window, x, y);
    KeptTimeout(x);
    hide DataOk, AcksOk, Coherent, Kept, Timeout;
    TimeoutCoherent(x.end, window);
    DataConcat(window, x.out, Resent(x), x.sent, |y.got|);
    forall q | 0 <= q < |Resent(x)| && !Resent(x)[q].unit.Resync?
      ensures Resent(x)[q].count == |x.got| && AckOf(Resent(x)[q].unit) == (|x.got| + 7) % 8
    {
      ResentAcks(x, q);
    }
    AcksConcat(x.out, Resent(x), Acked(y), |x.got|);
  }

  lemma LossKeeps(window: nat, x: Side, y: Side, i: nat)
    requires Half(window, x, y) && Half(window, y, x)
    ensures var x' := x.(out := Without(x.out, i));
            Half(window, x', y) && Half(window, y, x')
  {
    DataWithout(window, x.out, x.sent, |y.got|, i);
    AcksWithout(x.out, Acked(y), |x.got|, i);
  }

  lemma DataTail(window: nat, out: seq<Flight>, sent: seq<Item>, r: nat)
    requires DataOk(window, out, sent, r) && out != []
    ensures DataOk(window, out[1..], sent, r)
    ensures out[0].unit.Data? && out[0].index == r ==> DataOk(window, out[1..], sent, r + 1)
  {
    forall p | 0 <= p < |out| - 1 ensures out[1..][p] == out[p + 1] {}
  }

  lemma AcksTail(out: seq<Flight>, taken: int, accepted: nat)
    requires AcksOk(out, taken, accepted) && out != []
    ensures AcksOk(out[1..], if out[0].unit.Resync? then taken else out[0].count, accepted)
    ensures AcksOk(out[1..], taken, accepted)
  {
    forall p | 0 <= p < |out| - 1 ensures out[1..][p] == out[p + 1] {}
  }

  /** Taking an acknowledgement: the sender's view moves up to the count it stands for. */
  lemma TakeAckKept(window: nat, y: Side, ack: seqno, count: nat)
    requires Kept(y) && Coherent(y.end, window)
    requires Acked(y) <= count <= |y.sent| && ack == (count + 7) % 8
    ensures var y' := y.(end := TakeAck(y.end, ack));
            && Kept(y') && Acked(y') == count && Coherent(y'.end, window)
  {
    TakeAckCoherent(y.end, window, ack);
    ReachIs(y.end, Acked(y), count);
    var y' := y.(end := TakeAck(y.end, ack));
    var j := count - Acked(y);
    assert y'.end.unacked == y.end.unacked[j..];
    forall k | 0 <= k < |y'.end.unacked|
      ensures y'.sent[count + k] == Item(y'.end.unacked[k].typ, y'.end.unacked[k].payload)
    {
      assert y'.end.unacked[k] == y.end.unacked[j + k];
      assert y.sent[Acked(y) + (j + k)] == Item(y.end.unacked[j + k].typ, y.end.unacked[j + k].payload);
    }
  }

  /** A pure acknowledgement, or a resync pattern, reaches y. */
  lemma AckKeeps(window: nat, x: Side, y: Side, queued: bool)
    requires Half(window, x, y) && Half(window, y, x)
    requires x.out != [] && !x.out[0].unit.Data?
    ensures var x', y' := x.(out := x.out[1..]), DoReceive(y, x.out[0].unit, queued);
            Half(window, x', y') && Half(window, y', x')
  {
    var h := x.out[0];
    if h.unit.Ack? {
      assert Acked(y) <= h.count <= |x.got| && h.unit.ack == (h.count + 7) % 8;
      TakeAckKept(window, y, h.unit.ack, h.count);
    }
    hide DataOk, AcksOk, Kept, Coherent;
    DataTail(window, x.out, x.sent, |y.got|);
    AcksTail(x.out, Acked(y), |x.got|);
  }

  /** A packet with the expected number is the next one sent: no older or newer one in flight looks like it. */
  lemma AcceptedIsNext(window: nat, x: Side, y: Side)
    requires Half(window, x, y) && Half(window, y, x)
    requires x.out != [] && x.out[0].unit.Data? && x.out[0].unit.frame.num == y.end.expected
    ensures var h, r := x.out[0], |y.got|;
            && h.index == r < |x.sent|
            && x.sent[r] == Item(h.unit.frame.typ, h.unit.frame.payload)
            && Acked(y) <= h.count <= |x.got| && h.unit.frame.ack == (h.count + 7) % 8
  {
    Window(window, x, y);
    var h := x.out[0];
    assert |y.got| <= h.index + window && h.unit.frame.num == h.index % 8;
    hide Half, DataOk, AcksOk, Kept, Coherent;
    SameMod8(h.index, |y.got|);
  }

  lemma AcceptEnd(window: nat, y: Side, f: Frame, count: nat, queued: bool)
    requires Kept(y) && Coherent(y.end, window) && f.num == y.end.expected
    requires Acked(y) <= count <= |y.sent| && f.ack == (count + 7) % 8
    ensures var y' := DoReceive(y, Data(f), queued);
            && y'.got == y.got + [Item(f.typ, f.payload)] && y'.sent == y.sent
            && y'.out == y.out + [Flight(Ack(f.num), 0, |y.got| + 1)]
            && y'.end.expected == Inc(y.end.expected)
            && Kept(y') && Acked(y') == count && Coherent(y'.end, window)
  {
    TakeAckKept(window, y, f.ack, count);
    var z := y.(end := TakeAck(y.end, f.ack));
    assert z.end.expected == y.end.expected;
    hide TakeAck;
    AdvanceEnd(window, z, f.num, queued);
  }

  /** Moving on to the next expected number touches nothing the sending side relies on. */
  lemma AdvanceEnd(window: nat, z: Side, num: seqno, queued: bool)
    requires Kept(z) && Coherent(z.end, window)
    ensures var y' := z.(end := z.end.(txack := num, expected := Inc(num), rxOk := queued));
            Kept(y') && Acked(y') == Acked(z) && Coherent(y'.end, window)
  {}

  lemma AcceptOut(window: nat, out: seq<Flight>, ack: seqno, r: nat, taken: int, sent: seq<Item>, accepted: nat)
    requires AcksOk(out, taken, r) && taken <= r && ack == r % 8
    requires DataOk(window, out, sent, accepted)
    ensures var out' := out + [Flight(Ack(ack), 0, r + 1)];
            AcksOk(out', taken, r + 1) && DataOk(window, out', sent, accepted)
  {
    var more := [Flight(Ack(ack), 0, r + 1)];
    Mod8Next(r);
    assert DataOk(window, more, sent, accepted);
    AcksRise(out, taken, r, r + 1);
    hide DataOk, AcksOk;
    AcksConcat(out, more, taken, r + 1);
    DataConcat(window, out, more, sent, accepted);
  }

  lemma GrowPrefix<T>(got: seq<T>, sent: seq<T>)
    requires |got| < |sent| && got == sent[..|got|]
    ensures got + [sent[|got|]] == sent[..|got| + 1]
  {}

  /** What an acceptance leaves of the stream that was accepted from. */
  lemma AcceptForward(window: nat, x: Side, y: Side, y': Side)
    requires Half(window, x, y) && |y.got| < |x.sent|
    requires x.out != [] && x.out[0].unit.Data? && x.out[0].index == |y.got|
    requires y'.got == y.got + [x.sent[|y.got|]] && y'.end.expected == Inc(y.end.expected)
    requires Coherent(y'.end, window)
    requires AcksOk(y'.out, Acked(x), |y'.got|)
    ensures Half(window, x.(out := x.out[1..]), y')
  {
    GrowPrefix(y.got, x.sent);
    Mod8Next(|y.got|);
    hide DataOk, AcksOk, Coherent;
    DataTail(window, x.out, x.sent, |y.got|);
  }

  /** What it leaves of the stream the other way, whose acknowledgement it carried. */
  lemma AcceptBackward(window: nat, x: Side, y: Side, y': Side)
    requires Half(window, y, x) && x.out != [] && !x.out[0].unit.Resync?
    requires y'.sent == y.sent && Kept(y') && Coherent(y'.end, window) && Acked(y') == x.out[0].count
    requires DataOk(window, y'.out, y.sent, |x.got|)
    ensures Half(window, y', x.(out := x.out[1..]))
  {
    hide DataOk, Kept, Coherent;
    AcksTail(x.out, Acked(y), |x.got|);
  }

  /** The next packet in order reaches y and is accepted. */
  lemma AcceptKeeps(window: nat, x: Side, y: Side, queued: bool)
    requires Half(window, x, y) && Half(window, y, x)
    requires x.out != [] && x.out[0].unit.Data? && x.out[0].unit.frame.num == y.end.expected
    ensures var x', y' := x.(out := x.out[1..]), DoReceive(y, x.out[0].unit, queued);
            Half(window, x', y') && Half(window, y', x')
  {
    var h, r := x.out[0], |y.got|;
    var y' := DoReceive(y, h.unit, queued);
    AcceptedIsNext(window, x, y);
    AcceptOut(window, y.out, h.unit.frame.num, r, Acked(x), y.sent, |x.got|);
    hide DataOk, AcksOk, Kept, Coherent, DoReceive;
    AcceptEnd(window, y, h.unit.frame, h.count, queued);
    hide Half;
    AcceptForward(window, x, y, y');
    AcceptBackward(window, x, y, y');
  }

  lemma Mod8Next(r: nat)
    ensures (r + 1 + 7) % 8 == r % 8 && (r % 8 + 1) % 8 == (r + 1) % 8
  {}

  /** What repeating the last acknowledgement does to a link. */
  lemma RejectOut(window: nat, y: Side, x: Side, f: Frame, queued: bool)
    requires Half(window, x, y) && Half(window, y, x) && f.num != y.end.expected
    ensures var y' := DoReceive(y, Data(f), queued);
            && y'.end == y.end && y'.sent == y.sent && y'.got == y.got
            && AcksOk(y'.out, Acked(x), |y.got|) && DataOk(window, y'.out, y.sent, |x.got|)
  {
    var more := [Flight(Ack(y.end.txack), 0, |y.got|)];
    TxackIs(y.end, window, |y.got|);
    assert DataOk(window, more, y.sent, |x.got|);
    hide DataOk, AcksOk, Kept, Coherent;
    AcksConcat(y.out, more, Acked(x), |y.got|);
    DataConcat(window, y.out, more, y.sent, |x.got|);
  }

  /** A packet is dropped from the head of x's link, and y's link may have changed. */
  lemma Dropped(window: nat, x: Side, y: Side, y': Side)
    requires Half(window, x, y) && Half(window, y, x) && x.out != []
    requires y'.end == y.end && y'.sent == y.sent && y'.got == y.got
    requires AcksOk(y'.out, Acked(x), |y.got|) && DataOk(window, y'.out, y.sent, |x.got|)
    ensures var x' := x.(out := x.out[1..]);
            Half(window, x', y') && Half(window, y', x')
  {
    var x' := x.(out := x.out[1..]);
    assert Kept(x') && Kept(y');
    hide DataOk, AcksOk, Coherent, Kept;
    DataTail(window, x.out, x.sent, |y.got|);
    AcksTail(x.out, Acked(y), |x.got|);
  }

  /** Any other packet reaches y: nothing is accepted, and at most the last acknowledgement is repeated. */
  lemma RejectKeeps(window: nat, x: Side, y: Side, queued: bool)
    requires Half(window, x, y) && Half(window, y, x)
    requires x.out != [] && x.out[0].unit.Data? && x.out[0].unit.frame.num != y.end.expected
    ensures var x', y' := x.(out := x.out[1..]), DoReceive(y, x.out[0].unit, queued);
            Half(window, x', y') && Half(window, y', x')
  {
    hide Half, DoReceive, Kept, Acked;
    RejectOut(window, y, x, x.out[0].unit.frame, queued);
    Dropped(window, x, y, DoReceive(y, x.out[0].unit, queued));
  }

  lemma NextKeeps(window: nat, s: System, act: Action)
    requires Inv(window, s)
    ensures Inv(window, Next(s, act))
  {
    var t := if OfA(act) then s else Swap(s);
    var x, y := t.a, t.b;
    hide Half, DoReceive, DoSend, DoTimeout;
    match act {
      case Sending(_, typ, p) => SendStream(window, x, y, typ, p); SendPiggyback(window, x, y, typ, p);
      case Expiring(_) => TimeoutKeeps(window, x, y);
      case Losing(_, i) => LossKeeps(window, x, y, i);
      case Delivering(_, q) =>
        if x.out != [] {
          if !x.out[0].unit.Data? {
            AckKeeps(window, x, y, q);
          } else if x.out[0].unit.frame.num == y.end.expected {
            AcceptKeeps(window, x, y, q);
          } else {
            RejectKeeps(window, x, y, q);
          }
        }
    }
  }

  function Run(s: System, acts: seq<Action>): System
    decreases |acts|
  {
    if acts == [] then s else Run(Next(s, acts[0]), acts[1..])
  }

  lemma {:induction false} RunKeeps(window: nat, s: System, acts: seq<Action>)
    requires Inv(window, s)
    ensures Inv(window, Run(s, acts))
    decreases |acts|
  {
    hide Inv, Next;
    if acts != [] {
      NextKeeps(window, s, acts[0]);
      RunKeeps(window, Next(s, acts[0]), acts[1..]);
    }
  }

  lemma InitInv(window: nat, okA: bool, okB: bool)
    requires window <= 7
    ensures Inv(window, Init(window, okA, okB))
  {
    ResetCoherent(window, okA);
    ResetCoherent(window, okB);
  }

  /** In every run, whatever the links lose and whenever the timers fire, each end has accepted a prefix of
      what the other's send accepted: in order, without gaps and without duplicates. */
  lemma InOrder(window: nat, okA: bool, okB: bool, acts: seq<Action>)
    requires window <= 7
    ensures var s := Run(Init(window, okA, okB), acts);
            && s.b.got <= s.a.sent
            && s.a.got <= s.b.sent
            && |s.a.sent| - |s.b.got| <= window
            && |s.b.sent| - |s.a.got| <= window
  {
    InitInv(window, okA, okB);
    RunKeeps(window, Init(window, okA, okB), acts);
    var s := Run(Init(window, okA, okB), acts);
    Window(window, s.a, s.b);
    Window(window, s.b, s.a);
  }
}
