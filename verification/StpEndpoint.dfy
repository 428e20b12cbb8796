/** One end of an STP link as a value: sequence state, the frames still unacknowledged, and the
    transitions the driver makes on it. The imperative core refines these functions; the two-endpoint
    protocol is built from them. */
module StpEndpoint {
  import opened Bytes
  import opened StpFrame

  datatype Endpoint = Endpoint(
    txseq: seqno,      // number of the next packet sent
    txack: seqno,      // number of the last packet accepted
    rxack: seqno,      // last acknowledgement taken
    winspace: nat,
    expected: seqno,   // number of the next packet accepted
    retries: nat,
    rxOk: bool,        // the last accepted packet was also queued
    unacked: seq<Frame>)

  datatype Sent = Sent(end: Endpoint, wire: seq<Unit>, accepted: bool)

  /** A reset leaves `rxOk` as it was; at first start it is true. */
  function Reset(window: nat, rxOk: bool): Endpoint {
    Endpoint(0, 7, 7, window, 0, 0, rxOk, [])
  }

  function Occupied(fs: seq<Frame>): nat {
    if fs == [] then 0 else FrameLength(fs[0]) + Occupied(fs[1..])
  }

  predicate Admits(e: Endpoint, length: nat) {
    e.winspace > 0 && Occupied(e.unacked) + HEADER_SIZE + length + CRC_SIZE <= BUFFER_SIZE - 1
  }

  function Send(e: Endpoint, typ: byte, payload: seq<byte>): Sent {
    if Admits(e, |payload|) then
      var f := Frame(e.txseq, e.txack, typ, payload);
      Sent(e.(txseq := Inc(e.txseq), winspace := e.winspace - 1, unacked := e.unacked + [f]), [Data(f)], true)
    else
      Sent(e, [], false)
  }

  /** How many frames beyond the last acknowledged one `ack` reaches, going up mod 8. */
  function Reach(e: Endpoint, ack: seqno): seqno {
    if e.rxack <= ack then ack - e.rxack else ack - e.rxack + 8
  }

  predicate InWindow(e: Endpoint, ack: seqno) {
    1 <= Reach(e, ack) <= |e.unacked|
  }

  function TakeAck(e: Endpoint, ack: seqno): Endpoint {
    if InWindow(e, ack) then
      e.(rxack := ack, winspace := e.winspace + Reach(e, ack), retries := 0, unacked := e.unacked[Reach(e, ack)..])
    else e
  }

  /** A data packet that passed its CRC arrives. `queued` is what becomes of it if it is accepted. */
  function Receive(e: Endpoint, num: seqno, ack: seqno, queued: bool): Sent {
    if num == e.expected then
      Sent(TakeAck(e, ack).(txack := num, expected := Inc(e.expected), rxOk := queued), [Ack(num)], true)
    else if e.rxOk then
      Sent(e, [Ack(e.txack)], false)
    else
      Sent(e, [], false)
  }

  function WithAck(fs: seq<Frame>, ack: seqno): (r: seq<Frame>)
    ensures |r| == |fs|
    ensures forall k :: 0 <= k < |fs| ==> r[k] == fs[k].(ack := ack)
  {
    seq(|fs|, k requires 0 <= k < |fs| => fs[k].(ack := ack))
  }

  function AsUnits(fs: seq<Frame>): (us: seq<Unit>)
    ensures |us| == |fs|
    ensures forall k :: 0 <= k < |fs| ==> us[k] == Data(fs[k])
  {
    seq(|fs|, k requires 0 <= k < |fs| => Data(fs[k]))
  }

  /** The retransmission timer fires: resynchronise the peer's parser, then go back to the first unacked frame. */
  function Timeout(e: Endpoint): Sent {
    if e.retries > RETRY_LIMIT || e.unacked == [] then
      Sent(e, [], false)
    else
      var fs := WithAck(e.unacked, e.txack);
      Sent(e.(retries := e.retries + 1, unacked := fs), [Resync] + AsUnits(fs), true)
  }

  /** What holds of an endpoint with window `window` at every instant. */
  ghost predicate Coherent(e: Endpoint, window: nat) {
    && e.winspace + |e.unacked| == window
    && window <= 7
    && e.txseq == (e.rxack + 1 + |e.unacked|) % 8
    && e.expected == Inc(e.txack)
    && Occupied(e.unacked) <= BUFFER_SIZE - 1
    && Numbered(e.unacked, e.rxack + 1)
  }

  ghost predicate Numbered(fs: seq<Frame>, first: nat) {
    forall k :: 0 <= k < |fs| ==> fs[k].num == (first + k) % 8
  }

  lemma {:induction false} OccupiedAppend(a: seq<Frame>, b: seq<Frame>)
    ensures Occupied(a + b) == Occupied(a) + Occupied(b)
  {
    if a == [] {
      assert a + b == b;
    } else {
      OccupiedAppend(a[1..], b);
      assert (a + b)[1..] == a[1..] + b;
    }
  }

  lemma {:induction false} OccupiedWithAck(fs: seq<Frame>, ack: seqno)
    ensures Occupied(WithAck(fs, ack)) == Occupied(fs)
  {
    if fs != [] {
      OccupiedWithAck(fs[1..], ack);
      assert WithAck(fs, ack)[1..] == WithAck(fs[1..], ack);
    }
  }

  lemma Mod8Lap(x: int)
    ensures (x + 8) % 8 == x % 8
  {}

  lemma NumberedDrop(fs: seq<Frame>, first: nat, j: nat)
    requires Numbered(fs, first) && j <= |fs|
    ensures Numbered(fs[j..], first + j)
  {
    forall k | 0 <= k < |fs| - j ensures fs[j..][k].num == (first + j + k) % 8 {
      assert fs[j..][k] == fs[j + k];
      assert first + j + k == first + (j + k);
    }
  }

  lemma NumberedLap(fs: seq<Frame>, first: nat)
    requires Numbered(fs, first + 8)
    ensures Numbered(fs, first)
  {
    forall k | 0 <= k < |fs| ensures fs[k].num == (first + k) % 8 {
      Mod8Lap(first + k);
    }
  }

  lemma SendCoherent(e: Endpoint, window: nat, typ: byte, payload: seq<byte>)
    requires Coherent(e, window)
    ensures Coherent(Send(e, typ, payload).end, window)
  {
    if Admits(e, |payload|) {
      var f := Frame(e.txseq, e.txack, typ, payload);
      OccupiedAppend(e.unacked, [f]);
      assert Occupied([f]) == FrameLength(f) + Occupied([f][1..]);
      NumberedAppend(e.unacked, e.rxack + 1, f);
      Mod8Inc(e.rxack + 1 + |e.unacked|);
      hide Numbered, Occupied;
    }
  }

  lemma NumberedAppend(fs: seq<Frame>, first: nat, f: Frame)
    requires Numbered(fs, first) && f.num == (first + |fs|) % 8
    ensures Numbered(fs + [f], first)
  {}

  lemma Mod8Inc(x: nat)
    ensures (x % 8 + 1) % 8 == (x + 1) % 8
  {}

  /** An acknowledgement of an outstanding frame takes that one and all before it, reopens the window by as many and
      clears the retry count. Any other number changes nothing. */
  lemma TakeAckExactly(e: Endpoint, window: nat, ack: seqno)
    requires Coherent(e, window)
    ensures forall k :: 0 <= k < |e.unacked| && e.unacked[k].num == ack ==>
              TakeAck(e, ack) == e.(rxack := ack, winspace := e.winspace + k + 1, retries := 0,
                                    unacked := e.unacked[k + 1..])
    ensures (forall k :: 0 <= k < |e.unacked| ==> e.unacked[k].num != ack) ==> TakeAck(e, ack) == e
  {
    forall k | 0 <= k < |e.unacked| ensures e.unacked[k].num == ack <==> Reach(e, ack) == k + 1 {
      NumberReached(e.rxack, ack, k);
    }
    if InWindow(e, ack) {
      assert e.unacked[Reach(e, ack) - 1].num == ack;
    }
  }

  lemma NumberReached(rxack: seqno, ack: seqno, k: nat)
    requires k < 7
    ensures (rxack + 1 + k) % 8 == ack <==> (if rxack <= ack then ack - rxack else ack - rxack + 8) == k + 1
  {}

  lemma TakeAckCoherent(e: Endpoint, window: nat, ack: seqno)
    requires Coherent(e, window)
    ensures Coherent(TakeAck(e, ack), window)
  {
    if InWindow(e, ack) {
      var j := Reach(e, ack);
      assert e.unacked == e.unacked[..j] + e.unacked[j..];
      OccupiedAppend(e.unacked[..j], e.unacked[j..]);
      NumberedDrop(e.unacked, e.rxack + 1, j);
      if e.rxack + j != ack {
        NumberedLap(e.unacked[j..], ack + 1);
        Mod8Lap(ack + 1 + (|e.unacked| - j));
      }
    }
  }

  lemma TimeoutCoherent(e: Endpoint, window: nat)
    requires Coherent(e, window)
    ensures Coherent(Timeout(e).end, window)
  {
    OccupiedWithAck(e.unacked, e.txack);
  }

  datatype Event =
    | Sending(typ: byte, payload: seq<byte>)
    | Receiving(num: seqno, ack: seqno, queued: bool)
    | Acking(ack: seqno)
    | Expiring

  function Apply(e: Endpoint, ev: Event): Endpoint {
    match ev
    case Sending(t, p) => Send(e, t, p).end
    case Receiving(n, a, q) => Receive(e, n, a, q).end
    case Acking(a) => TakeAck(e, a)
    case Expiring => Timeout(e).end
  }

  function Run(e: Endpoint, evs: seq<Event>): Endpoint
    decreases |evs|
  {
    if evs == [] then e else Run(Apply(e, evs[0]), evs[1..])
  }

  lemma ApplyCoherent(e: Endpoint, window: nat, ev: Event)
    requires Coherent(e, window)
    ensures Coherent(Apply(e, ev), window)
  {
    match ev {
      case Sending(t, p) => SendCoherent(e, window, t, p);
      case Receiving(n, a, q) => TakeAckCoherent(e, window, a);
      case Acking(a) => TakeAckCoherent(e, window, a);
      case Expiring => TimeoutCoherent(e, window);
    }
  }

  lemma {:induction false} OccupiedIsWire(crc: Crc, fs: seq<Frame>)
    ensures Occupied(fs) == |WireBytes(crc, AsUnits(fs))|
  {
    if fs == [] {
      NothingEncoded(crc, AsUnits(fs));
    } else {
      OccupiedIsWire(crc, fs[1..]);
      assert AsUnits(fs) == [Data(fs[0])] + AsUnits(fs[1..]);
      WireBytesAppend(crc, [Data(fs[0])], AsUnits(fs[1..]));
      WireBytesOne(crc, Data(fs[0]));
    }
  }

  lemma NothingEncoded(crc: Crc, us: seq<Unit>)
    requires us == []
    ensures WireBytes(crc, us) == []
  {}

  /** A packet is sent exactly when fewer than a window are outstanding and its encoding fits the ring beside theirs,
      with one cell to spare. It is then queued behind them; a refused one leaves no trace. */
  lemma SendExactly(crc: Crc, e: Endpoint, window: nat, typ: byte, payload: seq<byte>)
    requires Coherent(e, window)
    ensures var f := Frame(e.txseq, e.txack, typ, payload);
            var s := Send(e, typ, payload);
            && (s.accepted <==>
                 |e.unacked| < window && |WireBytes(crc, AsUnits(e.unacked))| + |Encode(crc, f)| < 16384)
            && (s.accepted ==> s.wire == [Data(f)] && s.end.unacked == e.unacked + [f])
            && (!s.accepted ==> s.wire == [] && s.end == e)
  {
    OccupiedIsWire(crc, e.unacked);
    hide WireBytes, Encode;
  }

  lemma CoherentWindow(e: Endpoint, window: nat)
    requires Coherent(e, window)
    ensures e.winspace == window - (e.txseq - e.rxack - 1) % 8
  {
    var n := |e.unacked|;
    assert e.txseq - e.rxack - 1 == n || e.txseq - e.rxack - 1 == n - 8 || e.txseq - e.rxack - 1 == n - 16;
  }

  /** In every run from reset, whatever arrives and in whatever order, the window counter is the window less
      the packets outstanding, and the frames kept are the outstanding ones in number order. */
  lemma {:induction false} WindowAccounting(e: Endpoint, window: nat, evs: seq<Event>)
    requires Coherent(e, window)
    ensures var r := Run(e, evs);
            && Coherent(r, window)
            && r.winspace == window - (r.txseq - r.rxack - 1) % 8
    decreases |evs|
  {
    if evs == [] {
      CoherentWindow(e, window);
    } else {
      ApplyCoherent(e, window, evs[0]);
      WindowAccounting(Apply(e, evs[0]), window, evs[1..]);
    }
  }

  lemma ResetCoherent(window: nat, rxOk: bool)
    requires window <= 7
    ensures Coherent(Reset(window, rxOk), window)
  {}
}
