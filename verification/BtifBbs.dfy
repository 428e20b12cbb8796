/** The BTIF software ring between the receive interrupt and the thread that hands bytes on. `size` is a power of two,
    so masking an index is taking it mod `size`; `limit` is the fill at which a write throws everything away. */
module BtifBbs {
  import opened Bytes
  import opened Ring

  function Min(a: nat, b: nat): nat {
    if a <= b then a else b
  }

  /** What a write leaves in a ring that held `q`: what fits beside the one cell kept free, or nothing at all once
      the fill reaches the limit. */
  function Written(q: seq<byte>, x: seq<byte>, size: nat, limit: nat): seq<byte>
    requires |q| < size
  {
    var n := Min(|x|, size - 1 - |q|);
    if |q| == size - 1 then q
    else if |q| + n >= limit then []
    else q + x[..n]
  }

  class BbsRing {
    const size: nat
    const limit: nat
    const buf: array<byte>
    var rdIdx: nat
    var wrIdx: nat
    var passed: seq<byte>    // everything given to the receive callback

    ghost predicate Valid()
      reads this
    {
      buf.Length == size && rdIdx < size && wrIdx < size
    }

    function Count(wr: nat): nat
      requires rdIdx < size && wr < size
      reads this
    {
      Lap(wr, rdIdx, size)
    }

    ghost function Queue(): seq<byte>
      requires Valid()
      reads this, buf
    {
      Circ(buf[..], rdIdx, Count(wrIdx))
    }

    constructor (size: nat, limit: nat)
      requires size > 0
      ensures Valid() && Queue() == [] && passed == [] && this.size == size && this.limit == limit && fresh(buf)
    {
      this.size, this.limit := size, limit;
      buf := new byte[size];
      rdIdx, wrIdx, passed := 0, 0, [];
    }

    method WrDirect(x: seq<byte>)
      requires Valid() && |Queue()| + |x| < size
      modifies this`wrIdx, buf
      ensures Valid() && Queue() == old(Queue()) + x
    {
      var w := wrIdx;
      ghost var was := buf[..];
      var l := Min(size - w, |x|);
      forall k | 0 <= k < l { buf[w + k] := x[k]; }
      forall k | 0 <= k < |x| - l { buf[k] := x[l + k]; }
      assert buf[..] == Put(was, w, x);
      CircPut(was, rdIdx, Count(wrIdx), x);
      wrIdx := if w + |x| < size then w + |x| else w + |x| - size;
    }

    method Write(x: seq<byte>) returns (n: nat)
      requires Valid()
      modifies this, buf
      ensures Valid() && passed == old(passed)
      ensures Queue() == Written(old(Queue()), x, size, limit)
      ensures n == if |old(Queue())| + |x| < size then |x| else size - 1 - |old(Queue())|
      ensures |old(Queue())| + n < limit ==> Queue() == old(Queue()) + x[..n]
      ensures n > 0 && |old(Queue())| + n >= limit ==> Queue() == []
    {
      var room := size - Count(wrIdx) - 1;
      n := Min(|x|, room);
      if room == 0 {
        return;
      }
      WrDirect(x[..n]);
      if Count(wrIdx) >= limit {
        rdIdx, wrIdx := 0, 0;
      }
    }

    method CopyOut(dst: array<byte>, off: nat, at: nat, n: nat)
      requires dst != buf && off + n <= dst.Length && at + n <= buf.Length
      modifies dst
      ensures dst[..] == Splice(old(dst[..]), off, buf[at..at + n])
    {
      forall k | 0 <= k < n { dst[off + k] := buf[at + k]; }
    }

    method CopyAround(dst: array<byte>, at: nat, head: nat)
      requires dst != buf && at <= buf.Length && head <= buf.Length && buf.Length - at + head <= dst.Length
      modifies dst
      ensures dst[..] == Splice(old(dst[..]), 0, buf[at..] + buf[..head])
    {
      ghost var was := dst[..];
      var tail := buf.Length - at;
      CopyOut(dst, 0, at, tail);
      CopyOut(dst, tail, 0, head);
      SplicePair(was, buf[at..], buf[..head]);
    }

    /** Copies the `n` oldest bytes out. */
    method Fetch(dst: array<byte>, n: nat)
      requires Valid() && dst != buf && n <= |Queue()| && n <= dst.Length
      modifies dst
      ensures dst[..] == Splice(old(dst[..]), 0, Queue()[..n])
    {
      var tail := size - rdIdx;
      TakeFrom(buf[..], rdIdx, Count(wrIdx), n);
      if n <= tail {
        CopyOut(dst, 0, rdIdx, n);
      } else {
        CopyAround(dst, rdIdx, n - tail);
      }
    }

    method Read(dst: array<byte>, length: nat) returns (n: nat)
      requires Valid() && length <= dst.Length && dst != buf
      modifies this`rdIdx, dst
      ensures Valid()
      ensures n == Min(length, |old(Queue())|)
      ensures dst[..] == Splice(old(dst[..]), 0, old(Queue())[..n])
      ensures Queue() == old(Queue())[n..]
    {
      var wr := wrIdx;
      var ava := Count(wr);
      n := Min(length, ava);
      TakeFrom(buf[..], rdIdx, ava, n);
      Fetch(dst, n);
      hide Splice;
      if n == ava {
        rdIdx := wr;
      } else if rdIdx + n < size {
        rdIdx := rdIdx + n;
      } else {
        rdIdx := rdIdx + n - size;
      }
    }

    /** Hands everything to the receive callback, in one piece or two. */
    method Consume()
      requires Valid()
      modifies this`rdIdx, this`passed
      ensures Valid() && Queue() == [] && passed == old(passed) + old(Queue())
    {
      var wr := wrIdx;
      var length := Count(wr);
      CircSlices(buf[..], rdIdx, length);
      if length > 0 {
        if rdIdx <= wr {
          passed := passed + buf[rdIdx..wr];
        } else {
          var tail := size - rdIdx;
          passed := passed + buf[rdIdx..rdIdx + tail];
          passed := passed + buf[..length - tail];
        }
        rdIdx := wr;
      }
    }
  }

  // ---------- whole runs ----------

  datatype Op = Writing(x: seq<byte>) | Reading(n: nat) | HandingOver

  /** The ring with its history: what writes took, and what reads and hand-overs gave out. */
  datatype History = History(queue: seq<byte>, taken: seq<byte>, out: seq<byte>)

  function Apply(h: History, op: Op, size: nat, limit: nat): (r: History)
    requires |h.queue| < size
    ensures |r.queue| < size
  {
    match op
    case Writing(x) =>
      h.(queue := Written(h.queue, x, size, limit), taken := h.taken + x[..Min(|x|, size - 1 - |h.queue|)])
    case Reading(n) =>
      var k := Min(n, |h.queue|);
      h.(queue := h.queue[k..], out := h.out + h.queue[..k])
    case HandingOver => h.(queue := [], out := h.out + h.queue)
  }

  function Run(h: History, ops: seq<Op>, size: nat, limit: nat): (r: History)
    requires |h.queue| < size
    ensures |r.queue| < size
    decreases |ops|
  {
    if ops == [] then h else Run(Apply(h, ops[0], size, limit), ops[1..], size, limit)
  }

  /** All that was given to writes. */
  function Given(ops: seq<Op>): seq<byte> {
    if ops == [] then []
    else (if ops[0].Writing? then ops[0].x else []) + Given(ops[1..])
  }

  /** Some write that takes bytes brings the fill to the limit. */
  predicate Reaches(h: History, ops: seq<Op>, size: nat, limit: nat)
    requires |h.queue| < size
    decreases |ops|
  {
    ops != [] &&
    (|| (ops[0].Writing? && |h.queue| < size - 1 && |h.queue| + Min(|ops[0].x|, size - 1 - |h.queue|) >= limit)
     || Reaches(Apply(h, ops[0], size, limit), ops[1..], size, limit))
  }

  /** Some write finds too little room. */
  predicate Overruns(h: History, ops: seq<Op>, size: nat, limit: nat)
    requires |h.queue| < size
    decreases |ops|
  {
    ops != [] &&
    (|| (ops[0].Writing? && |h.queue| + |ops[0].x| >= size)
     || Overruns(Apply(h, ops[0], size, limit), ops[1..], size, limit))
  }

  lemma ApplyAccounts(h: History, op: Op, size: nat, limit: nat)
    requires |h.queue| < size && limit > 0
    ensures var t := Apply(h, op, size, limit);
            && (h.out + h.queue == h.taken ==> (t.out + t.queue == t.taken <==> !Reaches(h, [op], size, limit)))
            && (|h.out| + |h.queue| < |h.taken| ==> |t.out| + |t.queue| < |t.taken|)
  {
    var t := Apply(h, op, size, limit);
    assert [op][1..] == [];
    match op {
      case Writing(x) =>
        var y := x[..Min(|x|, size - 1 - |h.queue|)];
        assert h.out + (h.queue + y) == h.out + h.queue + y;
        if |t.out| + |t.queue| < |t.taken| { assert |t.out + t.queue| < |t.taken|; }
      case Reading(n) =>
        var k := Min(n, |h.queue|);
        assert h.out + h.queue[..k] + h.queue[k..] == h.out + h.queue;
      case HandingOver => assert h.out + h.queue + [] == h.out + h.queue;
    }
  }

  lemma {:induction false} LostForGood(h: History, ops: seq<Op>, size: nat, limit: nat)
    requires |h.queue| < size && limit > 0 && |h.out| + |h.queue| < |h.taken|
    ensures var t := Run(h, ops, size, limit); |t.out| + |t.queue| < |t.taken|
    decreases |ops|
  {
    if ops != [] {
      ApplyAccounts(h, ops[0], size, limit);
      LostForGood(Apply(h, ops[0], size, limit), ops[1..], size, limit);
    }
  }

  lemma ReachesFirst(h: History, ops: seq<Op>, size: nat, limit: nat)
    requires |h.queue| < size && ops != []
    ensures Reaches(h, ops, size, limit) <==>
              Reaches(h, [ops[0]], size, limit) || Reaches(Apply(h, ops[0], size, limit), ops[1..], size, limit)
  {
    assert [ops[0]][1..] == [];
  }

  lemma WipeLoses(h: History, op: Op, size: nat, limit: nat)
    requires |h.queue| < size && limit > 0 && Reaches(h, [op], size, limit) && h.out + h.queue == h.taken
    ensures var t := Apply(h, op, size, limit); |t.out| + |t.queue| < |t.taken|
  {
    assert [op][1..] == [];
    assert |h.out + h.queue| == |h.out| + |h.queue|;
  }

  /** Over any run of writes, reads and hand-overs: what came out followed by what is stored is what the writes took,
      in order, if and only if no write brought the fill to the limit. */
  lemma {:induction false} Accounted(h: History, ops: seq<Op>, size: nat, limit: nat)
    requires |h.queue| < size && limit > 0 && h.out + h.queue == h.taken
    ensures var t := Run(h, ops, size, limit);
            t.out + t.queue == t.taken <==> !Reaches(h, ops, size, limit)
    decreases |ops|
  {
    if ops != [] {
      var t := Apply(h, ops[0], size, limit);
      ReachesFirst(h, ops, size, limit);
      if Reaches(h, [ops[0]], size, limit) {
        WipeLoses(h, ops[0], size, limit);
        LostForGood(t, ops[1..], size, limit);
        var e := Run(t, ops[1..], size, limit);
        assert |e.out + e.queue| < |e.taken|;
      } else {
        ApplyAccounts(h, ops[0], size, limit);
        hide Reaches, Apply;
        Accounted(t, ops[1..], size, limit);
      }
    }
  }

  /** And they took everything they were given, if and only if each found the room. */
  lemma {:induction false} AllTaken(h: History, ops: seq<Op>, size: nat, limit: nat)
    requires |h.queue| < size
    ensures var t := Run(h, ops, size, limit);
            && |t.taken| <= |h.taken| + |Given(ops)|
            && (t.taken == h.taken + Given(ops) <==> !Overruns(h, ops, size, limit))
    decreases |ops|
  {
    if ops == [] {
      assert h.taken + [] == h.taken;
    } else {
      var t := Apply(h, ops[0], size, limit);
      var x := if ops[0].Writing? then ops[0].x else [];
      AllTaken(t, ops[1..], size, limit);
      assert h.taken + (x + Given(ops[1..])) == h.taken + x + Given(ops[1..]);
      if |h.queue| + |x| < size {
        assert ops[0].Writing? ==> x[..|x|] == x;
        assert h.taken + [] == h.taken;
      }
    }
  }
}
