/** The hold FIFO of the power-save machine: traffic that arrives while the chip sleeps, framed record by record in
    a byte FIFO. The kernel FIFO underneath takes and gives a request whole or not at all. */
module HoldFifo {
  import opened Bytes

  const FIFO_SIZE: nat := 8192
  const PACKET_SIZE_MAX: nat := 2000
  const RELEASE_MAX: nat := 20
  const LENGTH_LIMIT: nat := 0x1_0000_0000   // lengths are unsigned 32-bit

  datatype Packet = Packet(typ: byte, payload: seq<byte>)

  /** What a release passes on. `Stale` is a length with whatever the staging buffer held before. */
  datatype Handed = Whole(packet: Packet) | Stale(typ: byte, len: nat)

  const DELIMITER: seq<byte> := [0xbb, 0xbb]

  function Le32(n: nat): (s: seq<byte>)
    ensures |s| == 4
  {
    [n % 256, n / 256 % 256, n / 65536 % 256, n / 16777216 % 256]
  }

  function FromLe32(s: seq<byte>): nat
    requires |s| == 4
  {
    var a: int, b: int, c: int, d: int := s[0], s[1], s[2], s[3];
    a + 256 * b + 65536 * c + 16777216 * d
  }

  lemma Le32RoundTrip(n: nat)
    requires n < 0x1_0000_0000
    ensures FromLe32(Le32(n)) == n
  {
    assert n / 65536 == n / 256 / 256 && n / 16777216 == n / 256 / 256 / 256;
  }

  function Record(p: Packet): (s: seq<byte>)
    ensures |s| == |p.payload| + 7
  {
    [p.typ] + Le32(|p.payload|) + p.payload + DELIMITER
  }

  function Records(ps: seq<Packet>): seq<byte> {
    if ps == [] then [] else Record(ps[0]) + Records(ps[1..])
  }

  lemma {:induction false} RecordsAppend(ps: seq<Packet>, p: Packet)
    ensures Records(ps + [p]) == Records(ps) + Record(p)
  {
    hide Record;
    if ps == [] {
      assert Records([p]) == Record(p) + Records([p][1..]);
    } else {
      RecordsAppend(ps[1..], p);
      assert (ps + [p])[1..] == ps[1..] + [p];
    }
  }

  // ---------- the FIFO operations ----------

  function In(data: seq<byte>, x: seq<byte>): seq<byte> {
    if |x| <= FIFO_SIZE - |data| then data + x else data
  }

  /** A sum kept in a signed 32-bit variable. */
  function Signed32(n: nat): int {
    var m := n % 0x1_0000_0000;
    if m < 0x8000_0000 then m else m - 0x1_0000_0000
  }

  function Hold(data: seq<byte>, p: Packet): seq<byte> {
    var base := if FIFO_SIZE - |data| < Signed32(|p.payload| + 7) then [] else data;
    InRecord(base, p)
  }

  function InRecord(base: seq<byte>, p: Packet): seq<byte> {
    In(In(In(In(base, [p.typ]), Le32(|p.payload|)), p.payload), DELIMITER)
  }

  /** The variables a release reads records into; they keep their values when the FIFO has too little. */
  datatype Regs = Regs(typ: byte, len: nat, delimiter: seq<byte>)

  datatype Released = Released(data: seq<byte>, regs: Regs, handed: seq<Handed>)

  function Got(data: seq<byte>, n: nat, before: seq<byte>): seq<byte> {
    if n <= |data| then data[..n] else before
  }

  function Left(data: seq<byte>, n: nat): seq<byte> {
    if n <= |data| then data[n..] else data
  }

  function Zeros(n: nat): (z: seq<byte>)
    ensures |z| == n
  {
    seq(n, _ => 0)
  }

  function ReleaseOne(data: seq<byte>, regs: Regs): Released {
    var typ := Got(data, 1, [regs.typ])[0];
    var d1 := Left(data, 1);
    var len := if 4 <= |d1| then FromLe32(d1[..4]) else regs.len;
    var d2 := Left(d1, 4);
    var whole := len <= PACKET_SIZE_MAX;
    var payload := if whole then Got(d2, len, Zeros(len)) else [];
    var d3 := if whole then Left(d2, len) else d2;
    var delimiter := Got(d3, 2, regs.delimiter);
    var d4 := Left(d3, 2);
    var regs' := Regs(typ, len, delimiter);
    if delimiter == DELIMITER then
      Released(d4, regs', [if whole then Whole(Packet(typ, payload)) else Stale(typ, len)])
    else
      Released([], regs', [])
  }

  function Release(data: seq<byte>, regs: Regs, i: nat): Released
    decreases i
  {
    if data == [] || i == 0 then Released(data, regs, [])
    else
      var one := ReleaseOne(data, regs);
      var rest := Release(one.data, one.regs, i - 1);
      Released(rest.data, rest.regs, one.handed + rest.handed)
  }

  lemma ReleaseNext(data: seq<byte>, regs: Regs, i: nat, sent: seq<Handed>)
    requires data != [] && i > 0
    ensures var one := ReleaseOne(data, regs);
            var r, rest := Release(data, regs, i), Release(one.data, one.regs, i - 1);
            && r.data == rest.data && r.handed == one.handed + rest.handed
            && sent + r.handed == sent + one.handed + rest.handed
  {}

  lemma ReleaseStop(data: seq<byte>, regs: Regs, i: nat)
    requires data == [] || i == 0
    ensures Release(data, regs, i) == Released(data, regs, [])
  {}

  class Fifo {
    var data: seq<byte>
    var outBuf: seq<byte>
    var sent: seq<Handed>    // everything passed to the sender so far

    constructor ()
      ensures data == [] && sent == []
    {
      data, outBuf, sent := [], [], [];
    }

    method FifoIn(x: seq<byte>)
      modifies this`data
      ensures data == In(old(data), x)
    {
      if |x| <= FIFO_SIZE - |data| {
        data := data + x;
      }
    }

    method FifoOut(n: nat, before: seq<byte>) returns (x: seq<byte>)
      modifies this`data
      ensures x == Got(old(data), n, before) && data == Left(old(data), n)
    {
      x := before;
      if n <= |data| {
        x := data[..n];
        data := data[n..];
      }
    }

    method HoldData(p: Packet)
      requires |p.payload| < LENGTH_LIMIT
      modifies this`data
      ensures data == Hold(old(data), p)
    {
      var available := FIFO_SIZE - |data|;
      var needed := Signed32(|p.payload| + 1 + 4 + 2);
      if available < needed {
        data := [];
      }
      FifoIn([p.typ]);
      FifoIn(Le32(|p.payload|));
      FifoIn(p.payload);
      FifoIn(DELIMITER);
    }

    /** One pass of the release loop, from and to the variables it keeps. */
    method ReleaseRecord(regs: Regs) returns (regs': Regs)
      modifies this
      ensures var r := ReleaseOne(old(data), regs);
              data == r.data && regs' == r.regs && sent == old(sent) + r.handed
    {
      var typ := FifoOut(1, [regs.typ]);
      var len := regs.len;
      if 4 <= |data| {
        var l := FifoOut(4, []);
        len := FromLe32(l);
      }
      if len <= PACKET_SIZE_MAX {
        outBuf := FifoOut(len, Zeros(len));
      }
      var delimiter := FifoOut(2, regs.delimiter);
      regs' := Regs(typ[0], len, delimiter);
      if delimiter == DELIMITER {
        sent := sent + [if len <= PACKET_SIZE_MAX then Whole(Packet(typ[0], outBuf)) else Stale(typ[0], len)];
      } else {
        data := [];
      }
    }

    /** Releases at most `limit` records; the driver's limit is RELEASE_MAX. */
    method ReleaseData(regs: Regs, limit: nat)
      modifies this
      ensures var r := Release(old(data), regs, limit);
              data == r.data && sent == old(sent) + r.handed
    {
      hide *;
      var i, regs := limit, regs;
      ghost var goal, all := Release(data, regs, i).data, sent + Release(data, regs, i).handed;
      while data != [] && i > 0
        invariant 0 <= i
        invariant Release(data, regs, i).data == goal
        invariant sent + Release(data, regs, i).handed == all
        decreases i
      {
        ReleaseNext(data, regs, i, sent);
        regs := ReleaseRecord(regs);
        i := i - 1;
      }
      ReleaseStop(data, regs, i);
    }
  }

  // ---------- framing ----------

  predicate Fits(p: Packet) {
    |p.payload| <= PACKET_SIZE_MAX
  }

  function Wholes(ps: seq<Packet>): (hs: seq<Handed>)
    ensures |hs| == |ps|
    ensures forall k :: 0 <= k < |ps| ==> hs[k] == Whole(ps[k])
  {
    seq(|ps|, k requires 0 <= k < |ps| => Whole(ps[k]))
  }

  /** What the FIFO holds after a hold: the new record behind the old ones, or alone when there was no room. */
  function Kept(ps: seq<Packet>, p: Packet): seq<Packet> {
    if FIFO_SIZE - |Records(ps)| < |p.payload| + 7 then [p] else ps + [p]
  }

  /** A hold keeps the FIFO a whole number of records, and an overflow drops only whole older ones. */
  lemma HoldFramed(ps: seq<Packet>, p: Packet)
    requires Fits(p)
    ensures Hold(Records(ps), p) == Records(Kept(ps, p))
    ensures |Records(Kept(ps, p))| <= FIFO_SIZE
  {
    var full := FIFO_SIZE - |Records(ps)| < |p.payload| + 7;
    assert Signed32(|p.payload| + 7) == |p.payload| + 7;
    assert Hold(Records(ps), p) == InRecord(if full then [] else Records(ps), p);
    assert Kept(ps, p) == (if full then [] else ps) + [p];
    assert Records([]) == [];
    hide Hold, Kept, Records, Record, InRecord;
    RecordsAppend(if full then [] else ps, p);
    RecordIn(if full then [] else Records(ps), p);
  }

  lemma RecordIn(base: seq<byte>, p: Packet)
    requires |base| + |p.payload| + 7 <= FIFO_SIZE
    ensures InRecord(base, p) == base + Record(p) && |base + Record(p)| == |base| + |p.payload| + 7
  {
    assert base + [p.typ] + Le32(|p.payload|) + p.payload + DELIMITER == base + Record(p);
  }

  lemma RecordParts(p: Packet, rest: seq<byte>)
    ensures var d := Record(p) + rest;
            && d[..1] == [p.typ] && d[1..][..4] == Le32(|p.payload|)
            && d[1..][4..] == p.payload + DELIMITER + rest
  {}

  lemma ReleaseOneFramed(p: Packet, rest: seq<byte>, regs: Regs)
    requires Fits(p)
    ensures ReleaseOne(Record(p) + rest, regs) ==
            Released(rest, Regs(p.typ, |p.payload|, DELIMITER), [Whole(p)])
  {
    RecordParts(p, rest);
    Le32RoundTrip(|p.payload|);
    var d2 := p.payload + DELIMITER + rest;
    assert d2[..|p.payload|] == p.payload && d2[|p.payload|..] == DELIMITER + rest;
    assert (DELIMITER + rest)[..2] == DELIMITER && (DELIMITER + rest)[2..] == rest;
    hide Record, Le32, FromLe32;
  }

  function Min(a: nat, b: nat): nat {
    if a <= b then a else b
  }

  /** A release hands out the oldest records, at most `i`, unchanged and in order, and leaves the rest framed. */
  lemma {:induction false} ReleaseFramed(ps: seq<Packet>, regs: Regs, i: nat)
    requires forall k :: 0 <= k < |ps| ==> Fits(ps[k])
    ensures var n := Min(i, |ps|);
            var r := Release(Records(ps), regs, i);
            r.handed == Wholes(ps[..n]) && r.data == Records(ps[n..])
    decreases i
  {
    hide Release, ReleaseOne, Record, Records;
    if ps == [] || i == 0 {
      ReleaseNone(ps, regs, i);
    } else {
      var p, rest := ps[0], Records(ps[1..]);
      RecordsCons(ps);
      ReleaseOneFramed(p, rest, regs);
      ReleaseNext(Record(p) + rest, regs, i, []);
      ReleaseFramed(ps[1..], Regs(p.typ, |p.payload|, DELIMITER), i - 1);
      WholesCons(ps, i);
    }
  }

  lemma RecordsCons(ps: seq<Packet>)
    requires ps != []
    ensures Records(ps) == Record(ps[0]) + Records(ps[1..]) && Record(ps[0]) + Records(ps[1..]) != []
  {}

  lemma ReleaseNone(ps: seq<Packet>, regs: Regs, i: nat)
    requires ps == [] || i == 0
    ensures var n := Min(i, |ps|);
            var r := Release(Records(ps), regs, i);
            r.handed == Wholes(ps[..n]) && r.data == Records(ps[n..])
  {}

  lemma WholesCons(ps: seq<Packet>, i: nat)
    requires ps != [] && i > 0
    ensures var n := Min(i, |ps|);
            n == 1 + Min(i - 1, |ps[1..]|) && ps[1..][n - 1..] == ps[n..]
            && Wholes(ps[..n]) == [Whole(ps[0])] + Wholes(ps[1..][..n - 1])
  {}

  /** A longer record is never handed out. Its payload is left in the FIFO and its first two bytes are taken for the
      delimiter: everything is thrown away, or, when they look like one, stale bytes are passed on and the FIFO is
      left off the record boundary. */
  lemma ReleaseOneTooLong(p: Packet, rest: seq<byte>, regs: Regs)
    requires PACKET_SIZE_MAX < |p.payload| < LENGTH_LIMIT
    ensures var r := ReleaseOne(Record(p) + rest, regs);
            if p.payload[..2] == DELIMITER then
              r.handed == [Stale(p.typ, |p.payload|)] && r.data == p.payload[2..] + DELIMITER + rest
            else r.handed == [] && r.data == []
  {
    RecordParts(p, rest);
    Le32RoundTrip(|p.payload|);
    var d2 := p.payload + DELIMITER + rest;
    assert d2[..2] == p.payload[..2] && d2[2..] == p.payload[2..] + DELIMITER + rest;
    hide Record, Le32, FromLe32;
  }

  /** A release hands out what it should exactly when every record it reaches is within the limit: one that is too
      long loses itself and what was held behind it. */
  lemma {:induction false} ReleaseExactly(ps: seq<Packet>, regs: Regs, i: nat)
    requires forall k :: 0 <= k < |ps| ==> |ps[k].payload| < LENGTH_LIMIT
    ensures var n := Min(i, |ps|);
            Release(Records(ps), regs, i).handed == Wholes(ps[..n]) <==> forall k :: 0 <= k < n ==> Fits(ps[k])
    decreases i
  {
    hide Release, ReleaseOne, Record, Records, Fits;
    if ps == [] || i == 0 {
      ReleaseNone(ps, regs, i);
      return;
    }
    var p, rest := ps[0], Records(ps[1..]);
    RecordsCons(ps);
    WholesCons(ps, i);
    ReleaseNext(Record(p) + rest, regs, i, []);
    if Fits(p) {
      ReleaseOneFramed(p, rest, regs);
      ReleaseExactly(ps[1..], Regs(p.typ, |p.payload|, DELIMITER), i - 1);
      AllFit(ps, Min(i, |ps|));
    } else {
      TooLongLost(p, rest, regs, i, ps[..Min(i, |ps|)]);
    }
  }

  lemma AllFit(ps: seq<Packet>, n: nat)
    requires 1 <= n <= |ps| && Fits(ps[0])
    ensures (forall k :: 0 <= k < n ==> Fits(ps[k])) <==> (forall k :: 0 <= k < n - 1 ==> Fits(ps[1..][k]))
  {
    hide Fits;
    assert forall k :: 1 <= k < n ==> ps[k] == ps[1..][k - 1];
  }

  /** With a record too long at the head, nothing whole comes first. */
  lemma TooLongLost(p: Packet, rest: seq<byte>, regs: Regs, i: nat, qs: seq<Packet>)
    requires !Fits(p) && |p.payload| < LENGTH_LIMIT && i > 0 && qs != [] && qs[0] == p
    ensures Release(Record(p) + rest, regs, i).handed != Wholes(qs)
    ensures p.payload[..2] != DELIMITER ==>
              Release(Record(p) + rest, regs, i).handed == [] && Release(Record(p) + rest, regs, i).data == []
  {
    var d := Record(p) + rest;
    ReleaseOneTooLong(p, rest, regs);
    assert |Record(p)| > 0;
    hide Release, ReleaseOne, Record;
    ReleaseNext(d, regs, i, []);
    var one := ReleaseOne(d, regs);
    if one.handed == [] {
      ReleaseStop(one.data, one.regs, i - 1);
      assert Wholes(qs)[0] == Whole(p);
    } else {
      assert Release(d, regs, i).handed[0] == one.handed[0];
      assert Wholes(qs)[0] == Whole(p);
    }
  }

  /** A packet comes back from an otherwise empty FIFO exactly when its payload is within the limit. */
  lemma HoldRelease(p: Packet, regs: Regs)
    requires |p.payload| < LENGTH_LIMIT
    ensures Release(Hold([], p), regs, RELEASE_MAX).handed == [Whole(p)] <==> Fits(p)
  {
    if Fits(p) {
      HoldFramed([], p);
      assert Records(Kept([], p)) == Records([p]);
      ReleaseFramed([p], regs, RELEASE_MAX);
      assert Wholes([p][..1]) == [Whole(p)];
    } else {
      TooLong(p, regs, RELEASE_MAX);
    }
  }

  lemma TooLong(p: Packet, regs: Regs, i: nat)
    requires PACKET_SIZE_MAX < |p.payload| < LENGTH_LIMIT && i > 0
    ensures Release(Hold([], p), regs, i).handed != [Whole(p)]
  {
    var d := Hold([], p);
    var tail := if |p.payload| <= FIFO_SIZE - 7 then p.payload + DELIMITER
                else if |p.payload| <= FIFO_SIZE - 5 then p.payload
                else DELIMITER;
    assert d == [p.typ] + Le32(|p.payload|) + tail;
    assert d[1..] == Le32(|p.payload|) + tail;
    assert d[1..][..4] == Le32(|p.payload|);
    Le32RoundTrip(|p.payload|);
    hide Le32, FromLe32, Hold, Release;
    var one := ReleaseOne(d, regs);
    ReleaseNext(d, regs, i, []);
    if one.handed == [] {
      ReleaseStop(one.data, one.regs, i - 1);
    } else {
      assert Release(d, regs, i).handed[0] == one.handed[0] == Stale(p.typ, |p.payload|);
    }
  }
}
