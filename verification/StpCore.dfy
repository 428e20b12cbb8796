/** The driver's transmit side and acknowledgement handling: sequence counters, the circular retransmit
    buffer with its two per-number tables, and the interface it writes to. Every method is shown to make
    the transition of `StpEndpoint` it stands for and to put exactly that transition's units on the wire. */
module StpCore {
  import opened Bytes
  import opened Ring
  import opened StpFrame
  import opened StpEndpoint
  import opened StpQueue

  class StpCore {
    const crc: Crc
    const txBuf: array<byte>
    const txStart: array<nat>
    const txLength: array<nat>
    var txRead: nat
    var txWrite: nat
    var txseq: seqno
    var txack: seqno
    var rxack: seqno
    var winspace: nat
    var expected: seqno
    var retries: nat
    var rxOk: bool
    var wire: seq<byte>          // every byte handed to the interface so far
    ghost var kept: seq<Frame>   // what the retransmit ring means

    ghost function State(): Endpoint
      reads this
    {
      Endpoint(txseq, txack, rxack, winspace, expected, retries, rxOk, kept)
    }

    ghost predicate Queued()
      reads this, txBuf, txStart, txLength
    {
      && txBuf.Length == BUFFER_SIZE && txStart.Length == 8 && txLength.Length == 8 && txStart != txLength
      && Tracks(crc, txBuf[..], txStart[..], txLength[..], txRead, txWrite, rxack, kept)
    }

    ghost predicate Valid()
      reads this, txBuf, txStart, txLength
    {
      Coherent(State(), WINSIZE) && Queued()
    }

    constructor (crc: Crc)
      ensures Valid() && State() == Reset(WINSIZE, true) && wire == [] && this.crc == crc
      ensures fresh(txBuf) && fresh(txStart) && fresh(txLength)
    {
      this.crc := crc;
      txBuf, txStart, txLength := new byte[BUFFER_SIZE], new nat[8], new nat[8];
      txRead, txWrite := 0, 0;
      txseq, txack, rxack, winspace, expected, retries, rxOk := 0, 7, 7, WINSIZE, 0, 0, true;
      wire, kept := [], [];
      new;
      TracksNothing(crc, txBuf[..], txStart[..], txLength[..]);
    }

    /** A reset of the context later on: the flag about the last accepted packet is not part of the context. */
    method RestCtxState()
      requires Valid()
      modifies this
      ensures Valid() && State() == Reset(WINSIZE, old(rxOk)) && wire == old(wire)
    {
      txRead, txWrite := 0, 0;
      txseq, txack, rxack, winspace, expected, retries := 0, 7, 7, WINSIZE, 0, 0;
      kept := [];
      hide Tracks, Coherent;
      ResetCoherent(WINSIZE, rxOk);
      TracksNothing(crc, txBuf[..], txStart[..], txLength[..]);
    }

    /** Room test, keeping one cell free so that full and empty differ. */
    method IsTxResAvailable(length: nat) returns (b: bool)
      requires Queued()
      ensures b <==> Occupied(kept) + length <= BUFFER_SIZE - 1
    {
      TracksBounds(crc, txBuf[..], txStart[..], txLength[..], txRead, txWrite, rxack, kept);
      var roomLeft: nat;
      if txRead <= txWrite {
        roomLeft := BUFFER_SIZE - txWrite + txRead - 1;
      } else {
        roomLeft := txRead - txWrite - 1;
      }
      b := !(roomLeft < length);
    }

    method AddToTxQueue(buffer: seq<byte>)
      requires txBuf.Length == BUFFER_SIZE && txWrite < BUFFER_SIZE && |buffer| < BUFFER_SIZE
      modifies this`txWrite, txBuf
      ensures txBuf[..] == Put(old(txBuf[..]), old(txWrite), buffer)
      ensures txWrite == Wrap(old(txWrite) + |buffer|, BUFFER_SIZE)
    {
      var w := txWrite;
      if |buffer| + w < BUFFER_SIZE {
        forall k | 0 <= k < |buffer| { txBuf[w + k] := buffer[k]; }
        txWrite := w + |buffer|;
      } else {
        var lastLen := BUFFER_SIZE - w;
        forall k | 0 <= k < lastLen { txBuf[w + k] := buffer[k]; }
        forall k | 0 <= k < |buffer| - lastLen { txBuf[k] := buffer[lastLen + k]; }
        txWrite := |buffer| - lastLen;
      }
      assert forall i :: 0 <= i < BUFFER_SIZE ==> txBuf[i] == Put(old(txBuf[..]), w, buffer)[i];
    }

    /** Rewrites the ack bits and the checksum of a stored header, cell by cell round the ring. */
    method UpdateTxQueue(num: seqno)
      requires txBuf.Length == BUFFER_SIZE && txStart.Length == 8 && txStart[num] < BUFFER_SIZE
      modifies txBuf
      ensures txBuf[..] == Put(old(txBuf[..]), txStart[num],
                               Refreshed(Circ(old(txBuf[..]), txStart[num], 3), txack))
    {
      var p := txStart[num];
      ghost var was := txBuf[..];
      ghost var r := Refreshed(Circ(was, p, 3), txack);
      RefreshedCells(was, p, txack);
      PutHeader(was, p, r);
      hide *;
      txBuf[p] := txBuf[p] - txBuf[p] % 8 + txack;
      assert txBuf[..] == was[p := r[0]];
      var checksum, last := HeaderChecksum(p);
      txBuf[last] := checksum;
      assert txBuf[..] == was[p := r[0]][last := r[3]];
    }

    /** Adds up three cells going round the ring, and finds the fourth. */
    method HeaderChecksum(at: nat) returns (checksum: byte, last: nat)
      requires txBuf.Length == BUFFER_SIZE && at < BUFFER_SIZE
      ensures checksum == Sum(txBuf[at], txBuf[Wrap(at + 1, BUFFER_SIZE)], txBuf[Wrap(at + 2, BUFFER_SIZE)])
      ensures last == Wrap(at + 3, BUFFER_SIZE)
    {
      SumSteps(txBuf[at], txBuf[Wrap(at + 1, BUFFER_SIZE)], txBuf[Wrap(at + 2, BUFFER_SIZE)]);
      hide Sum;
      checksum, last := 0, at;
      var i := 0;
      while i < 3
        invariant 0 <= i <= 3
        invariant last == Wrap(at + i, BUFFER_SIZE)
        invariant i == 0 ==> checksum == 0
        invariant i == 1 ==> checksum == txBuf[at]
        invariant i == 2 ==> checksum == Sum(txBuf[at], txBuf[Wrap(at + 1, BUFFER_SIZE)], 0)
        invariant i == 3 ==>
          checksum == Sum(txBuf[at], txBuf[Wrap(at + 1, BUFFER_SIZE)], txBuf[Wrap(at + 2, BUFFER_SIZE)])
      {
        checksum := Sum(checksum, txBuf[last], 0);
        last := last + 1;
        if last >= BUFFER_SIZE {
          last := last - BUFFER_SIZE;
        }
        i := i + 1;
      }
    }

    /** Hands `len` bytes of the ring to the interface, in one write or two. */
    method IfTx(at: nat, len: nat)
      requires txBuf.Length == BUFFER_SIZE && at < BUFFER_SIZE && len <= BUFFER_SIZE
      modifies this`wire
      ensures wire == old(wire) + Circ(txBuf[..], at, len)
    {
      CircSlices(txBuf[..], at, len);
      if at + len < BUFFER_SIZE {
        wire := wire + txBuf[at..at + len];
      } else {
        var lastLen := BUFFER_SIZE - at;
        wire := wire + txBuf[at..at + lastLen];
        wire := wire + txBuf[..len - lastLen];
      }
    }

    /** Puts the frame numbered `num` on the wire with a fresh ack. */
    method SendTxQueue(num: seqno, ghost k: nat)
      requires Queued() && k < |kept| && num == Slot(rxack, k)
      modifies this`wire, this`kept, txBuf
      ensures Queued()
      ensures kept == old(kept[k := kept[k].(ack := txack)])
      ensures wire == old(wire) + Encode(crc, kept[k])
    {
      hide Tracks, Encode;
      TracksRefresh(crc, txBuf[..], txStart[..], txLength[..], txRead, txWrite, rxack, kept, k, txack);
      var at, len := txStart[num], txLength[num];
      UpdateTxQueue(num);
      kept := kept[k := kept[k].(ack := txack)];
      IfTx(at, len);
    }

    /** Sends one packet if the window and the ring admit it; otherwise changes nothing. */
    method SendData(typ: byte, buffer: seq<byte>) returns (ret: nat)
      requires Valid()
      modifies this, txBuf, txStart, txLength
      ensures Valid()
      ensures var s := Send(old(State()), typ, buffer);
              && State() == s.end
              && wire == old(wire) + WireBytes(crc, s.wire)
              && ret == if s.accepted then |buffer| else 0
    {
      hide Tracks, Encode, WireBytes, Occupied, Coherent;
      WireBytesNone(crc);
      ret := 0;
      var room := false;
      if winspace > 0 {
        room := IsTxResAvailable(HEADER_SIZE + |buffer| + CRC_SIZE);
      }
      if room {
        var h0: byte := 128 + txseq * 8 + txack;
        var h1: byte := (typ * 16 + |buffer| / 256 % 16) % 256;
        var h2: byte := |buffer| % 256;
        var h3: byte := (h0 + h1 + h2) % 256;
        ghost var f := Frame(txseq, txack, typ, buffer);
        assert [h0, h1, h2, h3] == Header(f);
        hide Header, Slot, FrameLength;
        SendSlot(State(), typ, buffer);
        WireBytesOne(crc, Data(f));
        Enqueue([h0, h1, h2, h3], typ, buffer);
        SendTxQueue(txseq, |kept| - 1);
        assert kept == old(kept) + [f];
        txseq := Inc(txseq);
        winspace := winspace - 1;
        ret := |buffer|;
      }
    }

    /** Records a new frame in the tables and copies its three stretches into the ring. */
    method Enqueue(header: seq<byte>, typ: byte, buffer: seq<byte>)
      requires Queued() && |kept| < 7 && txseq == Slot(rxack, |kept|)
      requires Occupied(kept) + HEADER_SIZE + |buffer| + CRC_SIZE <= BUFFER_SIZE - 1
      requires header == Header(Frame(txseq, txack, typ, buffer))
      modifies this`kept, this`txWrite, txBuf, txStart, txLength
      ensures Queued() && kept == old(kept) + [Frame(txseq, txack, typ, buffer)]
    {
      hide Tracks, Header;
      ghost var f := Frame(txseq, txack, typ, buffer);
      TracksBounds(crc, txBuf[..], txStart[..], txLength[..], txRead, txWrite, rxack, kept);
      TracksAppend(crc, txBuf[..], txStart[..], txLength[..], txRead, txWrite, rxack, kept, f);
      ThreePuts(txBuf[..], txWrite, header, buffer, Trailer(crc, buffer));
      txStart[txseq] := txWrite;
      txLength[txseq] := HEADER_SIZE + |buffer| + CRC_SIZE;
      AddToTxQueue(header);
      AddToTxQueue(buffer);
      var c := crc(buffer);
      AddToTxQueue([c % 256, c / 256]);
      kept := kept + [f];
    }

    /** Walks up from the last acknowledged number looking for `ack` among the outstanding ones. */
    method FindAck(ack: seqno) returns (found: bool, j: nat)
      requires Coherent(State(), WINSIZE) && ack != rxack
      ensures found <==> InWindow(State(), ack)
      ensures found ==> j == Reach(State(), ack)
    {
      ghost var e, d := State(), Reach(State(), ack);
      WalkMeets(e, ack, 0);
      assert txseq == Slot(rxack, |kept|) && |kept| <= 7 && Inc(rxack) == Slot(rxack, 0);
      assert InWindow(e, ack) <==> d <= |kept|;
      hide *;
      j, found := 0, false;
      var r := Inc(rxack);
      while r != txseq && !found
        invariant j <= |e.unacked|
        invariant !found ==> j < d && r == Slot(e.rxack, j)
        invariant found ==> r == ack && j == d
        decreases |e.unacked| - j, !found
      {
        WalkMeets(e, ack, j);
        SlotsApart(e.rxack, j, |e.unacked|);
        SlotNext(e.rxack, j);
        j := j + 1;
        if r == ack {
          found := true;
        } else {
          r := Inc(r);
        }
      }
      SlotsApart(e.rxack, j, |e.unacked|);
    }

    /** An acknowledgement frees exactly the frames it covers; one outside the window changes nothing. */
    method ProcessRxAck(ack: seqno) returns (resumed: bool)
      requires Valid()
      modifies this`rxack, this`txRead, this`winspace, this`retries, this`kept
      ensures Valid()
      ensures State() == TakeAck(old(State()), ack)
      ensures resumed <==> InWindow(old(State()), ack)
    {
      hide Tracks;
      resumed := false;
      if rxack != ack {
        var j;
        resumed, j := FindAck(ack);
        if resumed {
          WalkMeets(State(), ack, j - 1);
          TracksDrop(crc, txBuf[..], txStart[..], txLength[..], txRead, txWrite, rxack, kept, j);
          TakeAckCoherent(State(), WINSIZE, ack);
          rxack := ack;
          txRead := txStart[ack] + txLength[ack];
          if txRead >= BUFFER_SIZE {
            txRead := txRead - BUFFER_SIZE;
          }
          winspace := winspace + j;
          retries := 0;
          kept := kept[j..];
        }
      }
    }

    method SendAck(ack: seqno)
      modifies this`wire
      ensures wire == old(wire) + WireBytes(crc, [Ack(ack)])
    {
      var h0: byte := 128 + ack;
      wire := wire + [h0, 0, 0, (h0 + 0 + 0) % 256];
      WireBytesOne(crc, Ack(ack));
    }

    /** A data packet that passed its CRC. `queued` is the outcome of handing an accepted packet on. */
    method ProcessPacket(num: seqno, ack: seqno, queued: bool) returns (accepted: bool)
      requires Valid()
      modifies this
      ensures Valid()
      ensures var s := Receive(old(State()), num, ack, queued);
              && State() == s.end
              && wire == old(wire) + WireBytes(crc, s.wire)
              && accepted == s.accepted
    {
      hide Tracks, WireBytes;
      accepted := expected == num;
      if accepted {
        var resumed := ProcessRxAck(ack);
        txack := num;
        expected := Inc(expected);
        SendAck(txack);
        rxOk := queued;
      } else if rxOk {
        SendAck(txack);
      } else {
        WireBytesNone(crc);
      }
    }

    /** The retransmission timer: resynchronise the peer and go back to the first outstanding frame. */
    method DoTxTimeout()
      requires Valid()
      modifies this, txBuf
      ensures Valid()
      ensures var s := Timeout(old(State()));
              && State() == s.end
              && wire == old(wire) + WireBytes(crc, s.wire)
    {
      hide Tracks, WireBytes, Occupied, Encode, Coherent, Slot;
      WireBytesNone(crc);
      TimeoutFacts(State());
      if retries > RETRY_LIMIT {
        return;
      }
      var num := Inc(rxack);
      if num != txseq {
        wire := wire + [127, 127, 127, 127];
        WireBytesOne(crc, Resync);
        ghost var out := AsUnits(WithAck(kept, txack));
        WireBytesAppend(crc, [Resync], out);
        Resend(num);
      }
      if winspace != WINSIZE {
        retries := retries + 1;
      }
    }

    /** Every outstanding frame again, in number order, each with a fresh ack. */
    method Resend(first: seqno)
      requires Queued() && 1 <= |kept| <= 7 && first == Slot(rxack, 0) && txseq == Slot(rxack, |kept|)
      modifies this`wire, this`kept, txBuf
      ensures Queued() && kept == WithAck(old(kept), txack)
      ensures wire == old(wire) + WireBytes(crc, AsUnits(kept))
    {
      hide *;
      ghost var was, n := kept, |kept|;
      var num := first;
      ghost var k := 0;
      RefreshNone(crc, was, txack);
      while num != txseq
        invariant Queued() && k <= n && num == Slot(rxack, k)
        invariant kept == PartlyRefreshed(was, txack, k)
        invariant wire == old(wire) + WireBytes(crc, AsUnits(kept[..k]))
        decreases n - k
      {
        SlotsApart(rxack, k, n);
        SlotNext(rxack, k);
        RefreshNext(crc, was, txack, k);
        SendTxQueue(num, k);
        num := Inc(num);
        k := k + 1;
      }
      SlotsApart(rxack, k, n);
      RefreshAll(was, txack);
    }
  }

  lemma SumSteps(a: byte, b: byte, c: byte)
    ensures Sum(0, a, 0) == a && Sum(a, b, 0) == Sum(Sum(0, a, 0), b, 0) && Sum(Sum(a, b, 0), c, 0) == Sum(a, b, c)
  {
    var ab: int := a + b as int;
    assert ab % 256 == if ab < 256 then ab else ab - 256;
  }

  /** The queue is empty exactly when the window is whole, and when the next number to be acknowledged is the next to
      be sent. */
  lemma TimeoutFacts(e: Endpoint)
    requires Coherent(e, WINSIZE)
    ensures Coherent(Timeout(e).end, WINSIZE)
    ensures e.unacked == [] <==> e.winspace == WINSIZE
    ensures e.unacked == [] <==> Inc(e.rxack) == e.txseq
    ensures |e.unacked| <= 7 && Inc(e.rxack) == Slot(e.rxack, 0) && e.txseq == Slot(e.rxack, |e.unacked|)
  {
    TimeoutCoherent(e, WINSIZE);
    SlotsApart(e.rxack, 0, |e.unacked|);
    hide Timeout, Occupied, Numbered;
  }

  /** The cells a refresh reads and writes. */
  lemma RefreshedCells(buf: seq<byte>, p: nat, ack: seqno)
    requires |buf| == BUFFER_SIZE && p < BUFFER_SIZE
    ensures var r := Refreshed(Circ(buf, p, 3), ack);
            var p1, p2, p3 := Wrap(p + 1, BUFFER_SIZE), Wrap(p + 2, BUFFER_SIZE), Wrap(p + 3, BUFFER_SIZE);
            && 0 <= p1 < BUFFER_SIZE && 0 <= p2 < BUFFER_SIZE && 0 <= p3 < BUFFER_SIZE && p1 != p && p2 != p
            && |r| == HEADER_SIZE && r[0] == buf[p] - buf[p] % 8 + ack && r[1] == buf[p1] && r[2] == buf[p2]
            && r[3] == Sum(r[0], r[1], r[2])
  {}

  /** An admitted packet has a free slot, the one its number selects. */
  lemma SendSlot(e: Endpoint, typ: byte, payload: seq<byte>)
    requires Coherent(e, WINSIZE) && Admits(e, |payload|)
    ensures |e.unacked| < 7 && e.txseq == Slot(e.rxack, |e.unacked|)
    ensures Coherent(Send(e, typ, payload).end, WINSIZE)
  {
    SendCoherent(e, WINSIZE, typ, payload);
  }

  lemma WireBytesNone(crc: Crc)
    ensures WireBytes(crc, []) == []
  {}

  /** The frames after the first k of them have been resent. */
  function PartlyRefreshed(fs: seq<Frame>, ack: seqno, k: nat): (r: seq<Frame>)
    requires k <= |fs|
    ensures |r| == |fs|
  {
    WithAck(fs[..k], ack) + fs[k..]
  }

  lemma RefreshNone(crc: Crc, fs: seq<Frame>, ack: seqno)
    ensures PartlyRefreshed(fs, ack, 0) == fs
    ensures WireBytes(crc, AsUnits(fs[..0])) == []
  {}

  lemma RefreshNext(crc: Crc, fs: seq<Frame>, ack: seqno, k: nat)
    requires k < |fs|
    ensures |PartlyRefreshed(fs, ack, k)| == |PartlyRefreshed(fs, ack, k + 1)| == |fs|
    ensures var now, next := PartlyRefreshed(fs, ack, k), PartlyRefreshed(fs, ack, k + 1);
            && now[k := now[k].(ack := ack)] == next
            && WireBytes(crc, AsUnits(next[..k + 1])) == WireBytes(crc, AsUnits(now[..k])) + Encode(crc, next[k])
  {
    var now, next := PartlyRefreshed(fs, ack, k), PartlyRefreshed(fs, ack, k + 1);
    assert AsUnits(next[..k + 1]) == AsUnits(now[..k]) + [Data(next[k])];
    WireBytesAppend(crc, AsUnits(now[..k]), [Data(next[k])]);
    WireBytesOne(crc, Data(next[k]));
  }

  lemma RefreshAll(fs: seq<Frame>, ack: seqno)
    ensures PartlyRefreshed(fs, ack, |fs|) == WithAck(fs, ack)
    ensures PartlyRefreshed(fs, ack, |fs|)[..|fs|] == WithAck(fs, ack)
  {}

  /** Three copies in a row lay down the frame. */
  lemma ThreePuts(buf: seq<byte>, w: nat, a: seq<byte>, b: seq<byte>, c: seq<byte>)
    requires w < |buf| && |a| + |b| + |c| < |buf|
    ensures var w1 := Wrap(w + |a|, |buf|);
            var w2 := Wrap(w1 + |b|, |buf|);
            && Put(Put(Put(buf, w, a), w1, b), w2, c) == Put(buf, w, a + b + c)
            && Wrap(w2 + |c|, |buf|) == Wrap(w + |a + b + c|, |buf|)
  {
    PutPut(buf, w, a, b);
    PutPut(buf, w, a + b, c);
  }
}
