/** The virtual FIFO a BTIF DMA channel shares with the host: a ring whose two pointers carry a wrap bit, so that
    full and empty differ. */
module Vfifo {
  import opened Bytes
  import opened Ring

  datatype Ptr = Ptr(at: nat, wrap: bool)

  /** What the hardware calls the valid size. */
  function Fill(w: Ptr, r: Ptr, n: nat): int {
    if w.wrap == r.wrap then w.at - r.at else w.at + n - r.at
  }

  function Advance(p: Ptr, k: nat, n: nat): Ptr
    requires p.at < n && k <= n
  {
    if p.at + k < n then Ptr(p.at + k, p.wrap) else Ptr(p.at + k - n, !p.wrap)
  }

  ghost predicate Sound(w: Ptr, r: Ptr, n: nat) {
    w.at < n && r.at < n && 0 <= Fill(w, r, n) <= n
  }

  /** Empty and full both have the pointers on the same cell; the wrap bits tell them apart. */
  lemma FullOrEmpty(w: Ptr, r: Ptr, n: nat)
    requires Sound(w, r, n)
    ensures w.at == r.at <==> Fill(w, r, n) == 0 || Fill(w, r, n) == n
    ensures Fill(w, r, n) == 0 <==> w == r
    ensures Wrap(r.at + Fill(w, r, n), n) == w.at
  {}

  lemma Written(w: Ptr, r: Ptr, n: nat, k: nat)
    requires Sound(w, r, n) && k <= n - Fill(w, r, n)
    ensures var w' := Advance(w, k, n);
            Sound(w', r, n) && Fill(w', r, n) == Fill(w, r, n) + k
  {}

  lemma Taken(w: Ptr, r: Ptr, n: nat, k: nat)
    requires Sound(w, r, n) && k <= Fill(w, r, n)
    ensures var r' := Advance(r, k, n);
            && Sound(w, r', n) && Fill(w, r', n) == Fill(w, r, n) - k
            && (k == Fill(w, r, n) <==> r' == w)
  {}

  /** The bytes between the pointers, oldest first. */
  ghost function Between(buf: seq<byte>, w: Ptr, r: Ptr): (q: seq<byte>)
    requires Sound(w, r, |buf|)
    ensures |q| == Fill(w, r, |buf|)
  {
    Circ(buf, r.at, Fill(w, r, |buf|))
  }

  lemma BetweenWritten(buf: seq<byte>, w: Ptr, r: Ptr, x: seq<byte>)
    requires Sound(w, r, |buf|) && |x| <= |buf| - Fill(w, r, |buf|)
    ensures Sound(Advance(w, |x|, |buf|), r, |buf|)
    ensures Between(Put(buf, w.at, x), Advance(w, |x|, |buf|), r) == Between(buf, w, r) + x
  {
    Written(w, r, |buf|, |x|);
    FullOrEmpty(w, r, |buf|);
    if |x| > 0 {
      CircPut(buf, r.at, Fill(w, r, |buf|), x);
    } else {
      assert Put(buf, w.at, x) == buf;
      assert Advance(w, 0, |buf|) == w;
    }
  }

  /** Overwriting the free part alone shows in nothing a reader can see. */
  lemma BetweenUntouched(buf: seq<byte>, w: Ptr, r: Ptr, x: seq<byte>)
    requires Sound(w, r, |buf|) && |x| <= |buf| - Fill(w, r, |buf|)
    ensures Between(Put(buf, w.at, x), w, r) == Between(buf, w, r)
  {
    BetweenWritten(buf, w, r, x);
    Written(w, r, |buf|, |x|);
    var b := Put(buf, w.at, x);
    var all, f := Between(b, Advance(w, |x|, |buf|), r), Fill(w, r, |buf|);
    assert Between(b, w, r) == all[..f];
    assert (Between(buf, w, r) + x)[..f] == Between(buf, w, r);
  }

  lemma BetweenTaken(buf: seq<byte>, w: Ptr, r: Ptr, k: nat)
    requires Sound(w, r, |buf|) && k <= Fill(w, r, |buf|)
    ensures Sound(w, Advance(r, k, |buf|), |buf|)
    ensures Between(buf, w, Advance(r, k, |buf|)) == Between(buf, w, r)[k..]
    ensures Circ(buf, r.at, k) == Between(buf, w, r)[..k]
  {
    Taken(w, r, |buf|, k);
    var q, t := Between(buf, w, r), Between(buf, w, Advance(r, k, |buf|));
    forall i | 0 <= i < |t| ensures t[i] == q[k + i] {}
  }
}
