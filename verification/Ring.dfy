/** Circular buffers: what a read pointer and a length denote, and what a wrapped copy does to it. */
module Ring {
  import opened Bytes

  /** An index one lap ahead at most, brought back into the buffer. */
  function Wrap(i: int, n: int): int {
    if i < n then i else i - n
  }

  /** How far round from `w` the cell `i` lies. */
  function Lap(i: int, w: int, n: int): int {
    if w <= i then i - w else i - w + n
  }

  /** The `len` elements met going round from `start`. */
  function Circ<T>(buf: seq<T>, start: nat, len: nat): (s: seq<T>)
    requires start < |buf| && len <= |buf|
    ensures |s| == len
    ensures forall k :: 0 <= k < len ==> s[k] == buf[Wrap(start + k, |buf|)]
  {
    seq(len, k requires 0 <= k < len => buf[Wrap(start + k, |buf|)])
  }

  /** The one or two stretches a reader copies out. */
  lemma CircSlices<T>(buf: seq<T>, start: nat, len: nat)
    requires start < |buf| && len <= |buf|
    ensures Circ(buf, start, len) == if start + len <= |buf| then buf[start..start + len]
                                     else buf[start..] + buf[..start + len - |buf|]
  {}

  /** The one- or two-part copy every ring writer in the stack performs. */
  function Put<T>(buf: seq<T>, w: nat, data: seq<T>): (r: seq<T>)
    requires w < |buf| && |data| <= |buf|
    ensures |r| == |buf|
    ensures forall i :: 0 <= i < |buf| ==>
      r[i] == if Lap(i, w, |buf|) < |data| then data[Lap(i, w, |buf|)] else buf[i]
  {
    seq(|buf|, i requires 0 <= i < |buf| => if Lap(i, w, |buf|) < |data| then data[Lap(i, w, |buf|)] else buf[i])
  }

  lemma PutLength<T>(buf: seq<T>, w: nat, data: seq<T>)
    requires w < |buf| && |data| <= |buf|
    ensures |Put(buf, w, data)| == |buf|
  {}

  /** Copying in two goes is copying the concatenation. */
  lemma PutPut<T>(buf: seq<T>, w: nat, x: seq<T>, y: seq<T>)
    requires w < |buf| && |x| + |y| <= |buf| && |x| < |buf|
    ensures Put(Put(buf, w, x), Wrap(w + |x|, |buf|), y) == Put(buf, w, x + y)
  {
    var n := |buf|;
    var l := Put(Put(buf, w, x), Wrap(w + |x|, n), y);
    var r := Put(buf, w, x + y);
    forall i | 0 <= i < n ensures l[i] == r[i] {}
  }

  lemma CircSplit<T>(buf: seq<T>, r: nat, a: nat, b: nat)
    requires r < |buf| && a + b <= |buf| && a < |buf|
    ensures Circ(buf, r, a + b) == Circ(buf, r, a) + Circ(buf, Wrap(r + a, |buf|), b)
  {}

  /** Writing at the write pointer appends to the contents. */
  lemma CircPut<T>(buf: seq<T>, r: nat, used: nat, data: seq<T>)
    requires r < |buf| && used < |buf| && used + |data| <= |buf|
    ensures Circ(Put(buf, Wrap(r + used, |buf|), data), r, used + |data|) == Circ(buf, r, used) + data
  {
    var n := |buf|;
    var w := Wrap(r + used, n);
    var c := Circ(Put(buf, w, data), r, used + |data|);
    forall k | 0 <= k < used + |data| ensures c[k] == (Circ(buf, r, used) + data)[k] {}
  }

  /** Writing inside the contents overwrites there and nowhere else. */
  lemma CircSplice<T>(buf: seq<T>, r: nat, used: nat, off: nat, data: seq<T>)
    requires r < |buf| && used < |buf| && off + |data| <= used
    ensures Circ(Put(buf, Wrap(r + off, |buf|), data), r, used) == Splice(Circ(buf, r, used), off, data)
  {
    var n := |buf|;
    var w := Wrap(r + off, n);
    var c := Circ(Put(buf, w, data), r, used);
    forall k | 0 <= k < used ensures c[k] == Splice(Circ(buf, r, used), off, data)[k] {
      assert Lap(Wrap(r + k, n), w, n) == if off <= k then k - off else k - off + n;
    }
  }

  /** From `r` on, the ring holds exactly `c`, and is not full. */
  ghost predicate Contents<T>(buf: seq<T>, r: nat, c: seq<T>) {
    && r < |buf|
    && |c| < |buf|
    && Circ(buf, r, |c|) == c
  }

  lemma ContentsAppend<T>(buf: seq<T>, r: nat, c: seq<T>, x: seq<T>)
    requires Contents(buf, r, c) && |c| + |x| < |buf|
    ensures Contents(Put(buf, Wrap(r + |c|, |buf|), x), r, c + x)
  {
    CircPut(buf, r, |c|, x);
  }

  lemma ContentsDrop<T>(buf: seq<T>, r: nat, a: seq<T>, b: seq<T>)
    requires Contents(buf, r, a + b)
    ensures Circ(buf, r, |a|) == a
    ensures Contents(buf, Wrap(r + |a|, |buf|), b)
  {
    CircSplit(buf, r, |a|, |b|);
    assert Circ(buf, r, |a|) == (a + b)[..|a|] == a;
    assert Circ(buf, Wrap(r + |a|, |buf|), |b|) == (a + b)[|a|..] == b;
  }

  lemma ContentsSplice<T>(buf: seq<T>, r: nat, c: seq<T>, off: nat, h: seq<T>)
    requires Contents(buf, r, c) && off + |h| <= |c|
    ensures Contents(Put(buf, Wrap(r + off, |buf|), h), r, Splice(c, off, h))
  {
    CircSplice(buf, r, |c|, off, h);
  }

  lemma SplicePair<T>(s: seq<T>, a: seq<T>, b: seq<T>)
    requires |a| + |b| <= |s|
    ensures Splice(Splice(s, 0, a), |a|, b) == Splice(s, 0, a + b)
  {}

  /** A reader that takes the oldest `n`. */
  lemma TakeFrom<T>(buf: seq<T>, r: nat, used: nat, n: nat)
    requires r < |buf| && n <= used < |buf|
    ensures Circ(buf, r, used)[..n] == if r + n <= |buf| then buf[r..r + n] else buf[r..] + buf[..r + n - |buf|]
    ensures Circ(buf, r, used)[n..] == Circ(buf, Wrap(r + n, |buf|), used - n)
  {
    CircSplit(buf, r, n, used - n);
    CircSlices(buf, r, n);
  }
}
