/** What the circular retransmit buffer and its two per-number tables denote, and how queueing a frame,
    acknowledging a prefix and refreshing a header change that. */
module StpQueue {
  import opened Bytes
  import opened Ring
  import RingParts
  import opened StpFrame
  import opened StpEndpoint

  /** Table slot of the k-th unacknowledged frame. */
  function Slot(rxack: seqno, k: nat): seqno {
    (rxack + 1 + k) % 8
  }

  lemma SlotsApart(rxack: seqno, j: nat, k: nat)
    requires j < 8 && k < 8
    ensures Slot(rxack, j) == Slot(rxack, k) <==> j == k
  {}

  lemma SlotNext(rxack: seqno, k: nat)
    ensures Slot(rxack, k + 1) == Inc(Slot(rxack, k))
  {}

  /** The upward walk from the last acknowledged number meets `ack` after as many steps as it reaches. */
  lemma WalkMeets(e: Endpoint, ack: seqno, j: nat)
    requires j < 8 && ack != e.rxack
    ensures Slot(e.rxack, j) == ack <==> j + 1 == Reach(e, ack)
    ensures 1 <= Reach(e, ack) <= 7
  {}

  function Parts(crc: Crc, fs: seq<Frame>): (ss: seq<seq<byte>>)
    ensures |ss| == |fs|
    ensures forall k :: 0 <= k < |fs| ==> ss[k] == Encode(crc, fs[k]) && |ss[k]| == FrameLength(fs[k])
  {
    seq(|fs|, k requires 0 <= k < |fs| => Encode(crc, fs[k]))
  }

  lemma {:induction false} PartsLength(crc: Crc, fs: seq<Frame>)
    ensures |Flatten(Parts(crc, fs))| == Occupied(fs)
  {
    if fs != [] {
      PartsLength(crc, fs[1..]);
      assert Parts(crc, fs)[1..] == Parts(crc, fs[1..]);
    }
  }

  lemma PartsAppend(crc: Crc, fs: seq<Frame>, f: Frame)
    ensures Parts(crc, fs + [f]) == Parts(crc, fs) + [Encode(crc, f)]
    ensures |Parts(crc, fs)| == |fs| && |Encode(crc, f)| == FrameLength(f)
  {}

  /** The k-th outstanding frame's start and length are in the slot its number selects. */
  ghost predicate Tabled(start: seq<nat>, length: seq<nat>, r: nat, rxack: seqno, parts: seq<seq<byte>>)
    requires |start| == 8 && |length| == 8
  {
    forall k :: 0 <= k < |parts| ==>
      && start[Slot(rxack, k)] == Wrap(r + RingParts.Offset(parts, k), BUFFER_SIZE)
      && length[Slot(rxack, k)] == |parts[k]|
  }

  /** From `r` to `w` the ring holds exactly the outstanding frames in number order, and the tables find each. */
  ghost predicate Tracks(crc: Crc, buf: seq<byte>, start: seq<nat>, length: seq<nat>, r: nat, w: nat,
                         rxack: seqno, fs: seq<Frame>)
  {
    var parts := Parts(crc, fs);
    && |buf| == BUFFER_SIZE && |start| == 8 && |length| == 8 && |fs| <= 7
    && Contents(buf, r, Flatten(parts))
    && w == Wrap(r + |Flatten(parts)|, BUFFER_SIZE)
    && Tabled(start, length, r, rxack, parts)
  }

  lemma TracksNothing(crc: Crc, buf: seq<byte>, start: seq<nat>, length: seq<nat>)
    requires |buf| == BUFFER_SIZE && |start| == 8 && |length| == 8
    ensures Tracks(crc, buf, start, length, 0, 0, 7, [])
  {}

  /** What the predicate says, with its parts left folded. */
  lemma TracksParts(crc: Crc, buf: seq<byte>, start: seq<nat>, length: seq<nat>, r: nat, w: nat,
                    rxack: seqno, fs: seq<Frame>)
    requires Tracks(crc, buf, start, length, r, w, rxack, fs)
    ensures |buf| == BUFFER_SIZE && |start| == 8 && |length| == 8 && |fs| <= 7
    ensures Contents(buf, r, Flatten(Parts(crc, fs))) && r < |buf|
    ensures w == Wrap(r + Occupied(fs), BUFFER_SIZE) && |Flatten(Parts(crc, fs))| == Occupied(fs)
    ensures Tabled(start, length, r, rxack, Parts(crc, fs))
  {
    PartsLength(crc, fs);
    hide Tabled, Parts, Flatten, Occupied, Circ;
  }

  lemma TracksBounds(crc: Crc, buf: seq<byte>, start: seq<nat>, length: seq<nat>, r: nat, w: nat,
                     rxack: seqno, fs: seq<Frame>)
    requires Tracks(crc, buf, start, length, r, w, rxack, fs)
    ensures |buf| == BUFFER_SIZE && |start| == 8 && |length| == 8 && |fs| <= 7
    ensures r < BUFFER_SIZE && w == Wrap(r + Occupied(fs), BUFFER_SIZE) < BUFFER_SIZE && Occupied(fs) < BUFFER_SIZE
  {
    hide Tracks, Tabled, Parts, Occupied, Flatten, Circ;
    TracksParts(crc, buf, start, length, r, w, rxack, fs);
  }

  /** An admitted part overwrites no outstanding one and lands in a free slot of the tables. */
  lemma AppendTabled(r: nat, rxack: seqno, start: seq<nat>, length: seq<nat>, parts: seq<seq<byte>>, x: seq<byte>,
                     w: nat)
    requires |start| == 8 && |length| == 8 && |parts| < 7
    requires Tabled(start, length, r, rxack, parts) && w == Wrap(r + |Flatten(parts)|, BUFFER_SIZE)
    ensures var at := Slot(rxack, |parts|);
            Tabled(start[at := w], length[at := |x|], r, rxack, parts + [x])
  {
    var parts' := parts + [x];
    forall k | 0 <= k < |parts| ensures RingParts.Offset(parts', k) == RingParts.Offset(parts, k)
                                     && Slot(rxack, k) != Slot(rxack, |parts|) && parts'[k] == parts[k] {
      assert parts'[..k] == parts[..k];
      SlotsApart(rxack, k, |parts|);
    }
    assert parts'[..|parts|] == parts;
  }

  lemma TracksAppend(crc: Crc, buf: seq<byte>, start: seq<nat>, length: seq<nat>, r: nat, w: nat,
                     rxack: seqno, fs: seq<Frame>, f: Frame)
    requires Tracks(crc, buf, start, length, r, w, rxack, fs)
    requires |fs| < 7 && Occupied(fs) + FrameLength(f) <= BUFFER_SIZE - 1
    ensures w < |buf| && |start| == 8 && |length| == 8
    ensures var at, n := Slot(rxack, |fs|), FrameLength(f);
            Tracks(crc, Put(buf, w, Encode(crc, f)), start[at := w], length[at := n], r,
                   Wrap(w + n, BUFFER_SIZE), rxack, fs + [f])
  {
    hide *;
    var parts, x := Parts(crc, fs), Encode(crc, f);
    TracksBounds(crc, buf, start, length, r, w, rxack, fs);
    TracksParts(crc, buf, start, length, r, w, rxack, fs);
    PartsAppend(crc, fs, f);
    PutLength(buf, w, x);
    RingParts.Append(buf, r, parts, x);
    AppendTabled(r, rxack, start, length, parts, x, w);
    WrapAdd(r, |Flatten(parts)|, |x|);
    var at := Slot(rxack, |fs|);
    TracksMade(crc, Put(buf, w, x), start[at := w], length[at := |x|], r, Wrap(w + |x|, BUFFER_SIZE), rxack, fs + [f]);
  }

  lemma WrapAdd(r: nat, used: nat, n: nat)
    requires r < BUFFER_SIZE && used + n < BUFFER_SIZE
    ensures Wrap(Wrap(r + used, BUFFER_SIZE) + n, BUFFER_SIZE) == Wrap(r + (used + n), BUFFER_SIZE)
    ensures 0 <= Wrap(Wrap(r + used, BUFFER_SIZE) + n, BUFFER_SIZE)
  {}

  lemma TracksMade(crc: Crc, buf: seq<byte>, start: seq<nat>, length: seq<nat>, r: nat, w: nat,
                   rxack: seqno, fs: seq<Frame>)
    requires |buf| == BUFFER_SIZE && |start| == 8 && |length| == 8 && |fs| <= 7
    requires Contents(buf, r, Flatten(Parts(crc, fs)))
    requires w == Wrap(r + |Flatten(Parts(crc, fs))|, BUFFER_SIZE)
    requires Tabled(start, length, r, rxack, Parts(crc, fs))
    ensures Tracks(crc, buf, start, length, r, w, rxack, fs)
  {
    hide Contents, Tabled, Parts, Flatten;
  }

  /** An acknowledgement of the first j parts frees exactly those. */
  lemma DropTabled(r: nat, rxack: seqno, start: seq<nat>, length: seq<nat>, parts: seq<seq<byte>>, j: nat,
                   ack: seqno, r': nat)
    requires 1 <= j <= |parts| <= 7 && ack == Slot(rxack, j - 1)
    requires r < BUFFER_SIZE && |Flatten(parts)| < BUFFER_SIZE
    requires |start| == 8 && |length| == 8 && Tabled(start, length, r, rxack, parts)
    requires r' == Wrap(r + RingParts.Offset(parts, j), BUFFER_SIZE)
    ensures Tabled(start, length, r', ack, parts[j..])
  {
    forall k | 0 <= k < |parts| - j
      ensures start[Slot(ack, k)] == Wrap(r' + RingParts.Offset(parts[j..], k), BUFFER_SIZE)
           && length[Slot(ack, k)] == |parts[j..][k]|
    {
      DropTabledAt(r, rxack, start, length, parts, j, k);
    }
  }

  lemma DropTabledAt(r: nat, rxack: seqno, start: seq<nat>, length: seq<nat>, parts: seq<seq<byte>>, j: nat, k: nat)
    requires 1 <= j && j + k < |parts| <= 7
    requires r < BUFFER_SIZE && |Flatten(parts)| < BUFFER_SIZE
    requires |start| == 8 && |length| == 8 && Tabled(start, length, r, rxack, parts)
    ensures var r' := Wrap(r + RingParts.Offset(parts, j), BUFFER_SIZE);
            var at := Slot(Slot(rxack, j - 1), k);
            && start[at] == Wrap(r' + RingParts.Offset(parts[j..], k), BUFFER_SIZE)
            && length[at] == |parts[j..][k]|
  {
    hide Tabled, Slot, RingParts.Offset, Flatten;
    TabledAt(start, length, r, rxack, parts, j + k);
    RingParts.OffsetDrop(parts, j, k);
    RingParts.OffsetNext(parts, j + k);
    SlotShift(rxack, j, k);
    assert parts[j..][k] == parts[j + k];
  }

  lemma SlotShift(rxack: seqno, j: nat, k: nat)
    requires 1 <= j
    ensures Slot(Slot(rxack, j - 1), k) == Slot(rxack, j + k)
  {}

  lemma TracksDrop(crc: Crc, buf: seq<byte>, start: seq<nat>, length: seq<nat>, r: nat, w: nat,
                   rxack: seqno, fs: seq<Frame>, j: nat)
    requires Tracks(crc, buf, start, length, r, w, rxack, fs)
    requires 1 <= j <= |fs|
    ensures |start| == 8 && |length| == 8
    ensures var ack := Slot(rxack, j - 1);
            var r' := Wrap(start[ack] + length[ack], BUFFER_SIZE);
            0 <= r' && Tracks(crc, buf, start, length, r', w, ack, fs[j..])
  {
    hide *;
    var parts, ack := Parts(crc, fs), Slot(rxack, j - 1);
    TracksBounds(crc, buf, start, length, r, w, rxack, fs);
    TracksParts(crc, buf, start, length, r, w, rxack, fs);
    PartsDrop(crc, fs, j);
    TabledAt(start, length, r, rxack, parts, j - 1);
    RingParts.OffsetNext(parts, j - 1);
    RingParts.Drop(buf, r, parts, j);
    WrapAdd(r, RingParts.Offset(parts, j - 1), |parts[j - 1]|);
    var r' := Wrap(r + RingParts.Offset(parts, j), BUFFER_SIZE);
    WrapAdd(r, RingParts.Offset(parts, j), |Flatten(parts[j..])|);
    DropTabled(r, rxack, start, length, parts, j, ack, r');
    TracksMade(crc, buf, start, length, r', w, ack, fs[j..]);
  }

  lemma PartsDrop(crc: Crc, fs: seq<Frame>, j: nat)
    requires j <= |fs|
    ensures |Parts(crc, fs)| == |fs| && Parts(crc, fs[j..]) == Parts(crc, fs)[j..]
  {}

  lemma TabledAt(start: seq<nat>, length: seq<nat>, r: nat, rxack: seqno, parts: seq<seq<byte>>, k: nat)
    requires |start| == 8 && |length| == 8 && Tabled(start, length, r, rxack, parts) && k < |parts|
    ensures start[Slot(rxack, k)] == Wrap(r + RingParts.Offset(parts, k), BUFFER_SIZE)
    ensures length[Slot(rxack, k)] == |parts[k]|
  {}

  lemma {:induction false} FlattenLengths(a: seq<seq<byte>>, b: seq<seq<byte>>)
    requires |a| == |b|
    requires forall k :: 0 <= k < |a| ==> |a[k]| == |b[k]|
    ensures |Flatten(a)| == |Flatten(b)|
  {
    if a != [] {
      FlattenLengths(a[1..], b[1..]);
    }
  }

  lemma OffsetsKept(a: seq<seq<byte>>, b: seq<seq<byte>>)
    requires |a| == |b|
    requires forall k :: 0 <= k < |a| ==> |a[k]| == |b[k]|
    ensures |Flatten(a)| == |Flatten(b)|
    ensures forall k :: 0 <= k <= |a| ==> RingParts.Offset(a, k) == RingParts.Offset(b, k)
  {
    forall k | 0 <= k <= |a| ensures RingParts.Offset(a, k) == RingParts.Offset(b, k) {
      FlattenLengths(a[..k], b[..k]);
    }
    FlattenLengths(a, b);
  }

  lemma HeadCells(buf: seq<byte>, at: nat, part: seq<byte>)
    requires at < |buf| && 3 <= |part| <= |buf| && Circ(buf, at, |part|) == part
    ensures Circ(buf, at, 3)[0] == part[0] && Circ(buf, at, 3)[1] == part[1] && Circ(buf, at, 3)[2] == part[2]
  {
    assert part[0] == buf[Wrap(at + 0, |buf|)] && part[1] == buf[Wrap(at + 1, |buf|)]
        && part[2] == buf[Wrap(at + 2, |buf|)];
  }

  /** Of the four header cells only the first and the last need writing when the middle two are unchanged. */
  lemma PutHeader(buf: seq<byte>, p: nat, r: seq<byte>)
    requires p < |buf| && |r| == HEADER_SIZE <= |buf|
    requires r[1] == buf[Wrap(p + 1, |buf|)] && r[2] == buf[Wrap(p + 2, |buf|)]
    ensures buf[p := r[0]][Wrap(p + 3, |buf|) := r[3]] == Put(buf, p, r)
  {}

  lemma PartAt(buf: seq<byte>, r: nat, parts: seq<seq<byte>>, k: nat)
    requires Contents(buf, r, Flatten(parts)) && k < |parts|
    ensures r < |buf| && RingParts.Offset(parts, k) + |parts[k]| <= |Flatten(parts)| <= |buf|
    ensures 0 <= Wrap(r + RingParts.Offset(parts, k), |buf|)
    ensures |parts[k]| > 0 ==> Wrap(r + RingParts.Offset(parts, k), |buf|) < |buf|
  {
    RingParts.ReadAt(buf, r, parts, k);
  }

  /** Renewing one stored header in place: the ring then holds the same parts with that one renewed, also when
      its header or body straddles the end of the ring. */
  lemma RefreshPart(buf: seq<byte>, r: nat, parts: seq<seq<byte>>, k: nat, ack: seqno, renewed: seq<byte>)
    requires |buf| == BUFFER_SIZE && Contents(buf, r, Flatten(parts)) && k < |parts|
    requires |parts[k]| >= HEADER_SIZE
    requires renewed == Splice(parts[k], 0, Refreshed(parts[k], ack))
    ensures RingParts.Offset(parts, k) + |parts[k]| <= |Flatten(parts)|
    ensures var at := Wrap(r + RingParts.Offset(parts, k), BUFFER_SIZE);
            var buf' := Put(buf, at, Refreshed(Circ(buf, at, 3), ack));
            && Contents(buf', r, Flatten(parts[k := renewed]))
            && Circ(buf', at, |renewed|) == renewed
  {
    hide Flatten, Put, Circ, Contents, Splice, Wrap;
    PartAt(buf, r, parts, k);
    var at := Wrap(r + RingParts.Offset(parts, k), BUFFER_SIZE);
    RingParts.ReadAt(buf, r, parts, k);
    var head := Refreshed(parts[k], ack);
    HeadCells(buf, at, parts[k]);
    assert Refreshed(Circ(buf, at, 3), ack) == head;
    RingParts.Overwrite(buf, r, parts, k, head);
    RingParts.OffsetReplace(parts, k, renewed, k);
    RingParts.ReadAt(Put(buf, at, head), r, parts[k := renewed], k);
  }

  lemma TracksRefresh(crc: Crc, buf: seq<byte>, start: seq<nat>, length: seq<nat>, r: nat, w: nat,
                      rxack: seqno, fs: seq<Frame>, k: nat, ack: seqno)
    requires Tracks(crc, buf, start, length, r, w, rxack, fs) && k < |fs|
    ensures |buf| == BUFFER_SIZE && |start| == 8 && |length| == 8
    ensures var g, at := fs[k].(ack := ack), start[Slot(rxack, k)];
            && at < BUFFER_SIZE && length[Slot(rxack, k)] == FrameLength(g) < BUFFER_SIZE
            && var buf' := Put(buf, at, Refreshed(Circ(buf, at, 3), ack));
            && Tracks(crc, buf', start, length, r, w, rxack, fs[k := g])
            && Circ(buf', at, FrameLength(g)) == Encode(crc, g)
  {
    var g := fs[k].(ack := ack);
    var parts, parts' := Parts(crc, fs), Parts(crc, fs[k := g]);
    RefreshEncode(crc, fs[k], ack);
    assert |parts[k]| >= HEADER_SIZE;
    assert parts' == parts[k := parts'[k]];
    assert start[Slot(rxack, k)] == Wrap(r + RingParts.Offset(parts, k), BUFFER_SIZE)
        && length[Slot(rxack, k)] == |parts[k]|;
    hide Flatten, Parts, Encode, FrameLength, Contents, Put, Refreshed, Circ, RingParts.Offset;
    RefreshPart(buf, r, parts, k, ack, parts'[k]);
    OffsetsKept(parts, parts');
    assert Tabled(start, length, r, rxack, parts');
  }
}
