/** The HCI bridge's reframer: reads of the radio come in arbitrary pieces, the virtual controller wants exactly one
    H4 packet a write (Bluetooth Core Specification, volume 4, part A, section 2). */
module H4Bridge {
  import opened Bytes

  const ACC_SIZE: nat := 8192
  const CHUNK_MAX: nat := 2048
  const PACKET_MAX: nat := ACC_SIZE - CHUNK_MAX + 1

  const ACL: byte := 2
  const SCO: byte := 3
  const EVENT: byte := 4

  /** The length of the packet that starts here, 0 when its header is not all there, negative when nothing starts
      here. */
  function PktLen(p: seq<byte>): int {
    if p == [] then 0
    else if p[0] == EVENT then if |p| < 3 then 0 else 3 + p[2] as int
    else if p[0] == ACL then if |p| < 5 then 0 else 5 + p[3] as int + 256 * (p[4] as int)
    else if p[0] == SCO then if |p| < 4 then 0 else 4 + p[3] as int
    else -1
  }

  datatype Pumped = Pumped(packets: seq<seq<byte>>, rest: seq<byte>)

  function Pump(acc: seq<byte>): Pumped
    decreases |acc|
  {
    var pl := PktLen(acc);
    if pl < 0 then Pump(acc[1..])
    else if pl == 0 || |acc| < pl then Pumped([], acc)
    else
      var r := Pump(acc[pl..]);
      Pumped([acc[..pl]] + r.packets, r.rest)
  }

  predicate Overflows(acc: seq<byte>, chunk: seq<byte>) {
    |acc| + |chunk| > ACC_SIZE
  }

  function Feed(acc: seq<byte>, chunk: seq<byte>): Pumped {
    Pump((if Overflows(acc, chunk) then [] else acc) + chunk)
  }

  function FeedAll(acc: seq<byte>, chunks: seq<seq<byte>>): Pumped
    decreases |chunks|
  {
    if chunks == [] then Pumped([], acc)
    else
      var one := Feed(acc, chunks[0]);
      var more := FeedAll(one.rest, chunks[1..]);
      Pumped(one.packets + more.packets, more.rest)
  }

  class Bridge {
    const acc: array<byte>
    var accLen: nat
    var written: seq<seq<byte>>    // one entry per write to the virtual controller

    ghost predicate Valid()
      reads this
    {
      acc.Length == ACC_SIZE && accLen <= ACC_SIZE
    }

    ghost function Held(): seq<byte>
      requires Valid()
      reads this, acc
    {
      acc[..accLen]
    }

    constructor ()
      ensures Valid() && Held() == [] && written == [] && fresh(acc)
    {
      acc := new byte[ACC_SIZE];
      accLen, written := 0, [];
    }

    /** Drops the first `n` bytes held. */
    method Shift(n: nat)
      requires Valid() && n <= accLen
      modifies this`accLen, acc
      ensures Valid() && Held() == old(Held())[n..] && accLen == old(accLen) - n
    {
      var len := accLen - n;
      forall k | 0 <= k < len { acc[k] := acc[n + k]; }
      accLen := len;
    }

    /** Writes out every whole packet held, skipping what is no packet, until an incomplete one or nothing is left. */
    method PumpToVhci()
      requires Valid()
      modifies this, acc
      ensures Valid()
      ensures var r := Pump(old(Held())); written == old(written) + r.packets && Held() == r.rest
    {
      ghost var goal := Pump(Held());
      ghost var before := written;
      hide Pump, PktLen;
      while true
        invariant Valid()
        invariant Pump(Held()).rest == goal.rest
        invariant written + Pump(Held()).packets == before + goal.packets
        decreases accLen
      {
        var pl := PktLen(acc[..accLen]);
        if pl < 0 {
          PumpSkip(Held());
          Shift(1);
        } else if pl == 0 || accLen < pl {
          PumpHold(Held());
          return;
        } else {
          PumpTake(Held(), written);
          assert acc[..pl] == Held()[..pl];
          written := written + [acc[..pl]];
          Shift(pl);
        }
      }
    }

    method Receive(chunk: seq<byte>)
      requires Valid() && |chunk| <= CHUNK_MAX
      modifies this, acc
      ensures Valid()
      ensures var r := Feed(old(Held()), chunk); written == old(written) + r.packets && Held() == r.rest
    {
      ghost var held := Held();
      if accLen + |chunk| > ACC_SIZE {
        accLen := 0;
      }
      var at := accLen;
      forall k | 0 <= k < |chunk| { acc[at + k] := chunk[k]; }
      accLen := at + |chunk|;
      assert Held() == (if Overflows(held, chunk) then [] else held) + chunk;
      PumpToVhci();
    }
  }

  lemma PumpSkip(acc: seq<byte>)
    requires PktLen(acc) < 0
    ensures acc != [] && Pump(acc) == Pump(acc[1..])
  {}

  lemma PumpHold(acc: seq<byte>)
    requires PktLen(acc) == 0 || |acc| < PktLen(acc)
    ensures Pump(acc) == Pumped([], acc)
  {}

  lemma PumpTake(acc: seq<byte>, written: seq<seq<byte>>)
    requires 0 < PktLen(acc) <= |acc|
    ensures var pl := PktLen(acc);
            var r := Pump(acc[pl..]);
            && Pump(acc) == Pumped([acc[..pl]] + r.packets, r.rest)
            && written + Pump(acc).packets == written + [acc[..pl]] + r.packets
  {
    var pl := PktLen(acc);
    var r := Pump(acc[pl..]);
    assert Pump(acc) == Pumped([acc[..pl]] + r.packets, r.rest);
    hide Pump, PktLen;
    assert written + ([acc[..pl]] + r.packets) == written + [acc[..pl]] + r.packets;
  }

  // ---------- packets ----------

  /** A packet by its fields. The lengths are in the header; that of ACL data has its low byte first. */
  datatype H4 =
    | EventPacket(code: byte, params: seq<byte>)
    | AclPacket(handleLow: byte, handleHigh: byte, data: seq<byte>)
    | ScoPacket(handleLow: byte, handleHigh: byte, data: seq<byte>)

  /** The length fits its field. */
  predicate Fits(h: H4) {
    match h
    case EventPacket(_, d) => |d| < 256
    case AclPacket(_, _, d) => |d| < 65536
    case ScoPacket(_, _, d) => |d| < 256
  }

  function Encoded(h: H4): (p: seq<byte>)
    requires Fits(h)
    ensures p != []
  {
    match h
    case EventPacket(code, d) => [4, code, |d|] + d
    case AclPacket(lo, hi, d) => [2, lo, hi, |d| % 256, |d| / 256] + d
    case ScoPacket(lo, hi, d) => [3, lo, hi, |d|] + d
  }

  /** The header says how long the packet is, whatever follows it. */
  lemma LengthRead(h: H4, rest: seq<byte>)
    requires Fits(h)
    ensures PktLen(Encoded(h) + rest) == |Encoded(h)|
  {
    var s := Encoded(h) + rest;
    match h {
      case EventPacket(code, d) => assert s[0] == 4 && s[2] == |d|;
      case AclPacket(lo, hi, d) => assert s[0] == 2 && s[3] == |d| % 256 && s[4] == |d| / 256;
      case ScoPacket(lo, hi, d) => assert s[0] == 3 && s[3] == |d|;
    }
  }

  /** And only what is built so passes for a packet. */
  lemma FieldsOf(p: seq<byte>) returns (h: H4)
    requires p != [] && PktLen(p) == |p|
    ensures Fits(h) && Encoded(h) == p
  {
    if p[0] == EVENT {
      h := EventPacket(p[1], p[3..]);
    } else if p[0] == ACL {
      h := AclPacket(p[1], p[2], p[5..]);
    } else {
      h := ScoPacket(p[1], p[2], p[4..]);
    }
  }

  // ---------- reframing ----------

  ghost predicate Packet(p: seq<byte>) {
    |p| <= PACKET_MAX && exists h :: Fits(h) && p == Encoded(h)
  }

  lemma PacketLength(p: seq<byte>)
    requires Packet(p)
    ensures p != [] && PktLen(p) == |p|
  {
    var h :| Fits(h) && p == Encoded(h);
    LengthRead(h, []);
    assert p + [] == p;
  }

  ghost predicate Packets(ps: seq<seq<byte>>) {
    forall k :: 0 <= k < |ps| ==> Packet(ps[k])
  }

  /** The beginning of some packet, but not all of it. */
  ghost predicate Partial(t: seq<byte>) {
    t == [] || exists p :: Packet(p) && t < p
  }

  lemma PartialStays(t: seq<byte>)
    requires Partial(t)
    ensures Pump(t) == Pumped([], t) && |t| < PACKET_MAX
  {
    if t != [] {
      var p :| Packet(p) && t < p;
      PacketLength(p);
      ProperPrefix(p, t);
    }
  }

  lemma PartialPrefix(t: seq<byte>, u: seq<byte>)
    requires Partial(t) && u <= t
    ensures Partial(u)
  {
    if t != [] && u != [] {
      var p :| Packet(p) && t < p;
      assert u < p;
    }
  }

  lemma PumpPacket(p: seq<byte>, s: seq<byte>)
    requires Packet(p)
    ensures Pump(p + s) == Pumped([p] + Pump(s).packets, Pump(s).rest)
  {
    assert (p + s)[..|p|] == p && (p + s)[|p|..] == s;
    PacketLength(p);
    LenAppend(p, s);
    PumpTake(p + s, []);
  }

  /** A header once complete is not changed by what follows. */
  lemma LenAppend(a: seq<byte>, b: seq<byte>)
    requires PktLen(a) != 0
    ensures PktLen(a + b) == PktLen(a)
  {}

  lemma Cut<T>(p: seq<T>, s: seq<T>, u: seq<T>, v: seq<T>)
    requires u + v == p + s
    ensures |u| < |p| ==> u < p
    ensures |u| >= |p| ==> u == p + u[|p|..] && u[|p|..] + v == s
  {
    if |u| < |p| {
      assert u == (p + s)[..|u|] == p[..|u|];
    } else {
      assert p == (u + v)[..|p|] == u[..|p|];
      assert u[|p|..] + v == (u + v)[|p|..] == s;
    }
  }

  /** Any beginning of a stream of packets is some whole ones and the beginning of the next. */
  lemma {:induction false} PumpPrefix(ps: seq<seq<byte>>, t: seq<byte>, u: seq<byte>, v: seq<byte>)
    returns (j: nat, r: seq<byte>)
    requires Packets(ps) && Partial(t) && u + v == Flatten(ps) + t
    ensures j <= |ps| && Partial(r)
    ensures Pump(u) == Pumped(ps[..j], r)
    ensures r + v == Flatten(ps[j..]) + t
    decreases |ps|
  {
    if ps == [] {
      j, r := 0, u;
      assert Flatten(ps) + t == t;
      assert u <= t;
      PartialPrefix(t, u);
      PartialStays(u);
      assert ps[..0] == [] && ps[0..] == [];
      return;
    }
    var p := ps[0];
    assert Flatten(ps) + t == p + (Flatten(ps[1..]) + t);
    hide Flatten, Pump, PktLen;
    Cut(p, Flatten(ps[1..]) + t, u, v);
    if |u| < |p| {
      j, r := 0, u;
      PartialStays(u);
      assert ps[..0] == [] && ps[0..] == ps;
    } else {
      var i, q := PumpPrefix(ps[1..], t, u[|p|..], v);
      PumpPacket(p, u[|p|..]);
      j, r := i + 1, q;
      assert ps[..j] == [p] + ps[1..][..i] && ps[j..] == ps[1..][i..];
    }
  }

  predicate NeverOverflows(acc: seq<byte>, chunks: seq<seq<byte>>)
    decreases |chunks|
  {
    chunks != [] ==> !Overflows(acc, chunks[0]) && NeverOverflows(Feed(acc, chunks[0]).rest, chunks[1..])
  }

  /** However a stream of packets is cut into reads, exactly those packets are written, in order, the accumulator
      never overflows, and what is held back is the beginning of the packet still to come. */
  lemma {:induction false} Reframed(acc: seq<byte>, chunks: seq<seq<byte>>, ps: seq<seq<byte>>, t: seq<byte>)
    requires Partial(acc) && Packets(ps) && Partial(t)
    requires acc + Flatten(chunks) == Flatten(ps) + t
    requires forall k :: 0 <= k < |chunks| ==> |chunks[k]| <= CHUNK_MAX
    ensures chunks != [] || ps == [] ==> FeedAll(acc, chunks) == Pumped(ps, t)
    ensures NeverOverflows(acc, chunks)
    decreases |chunks|
  {
    if chunks == [] {
      assert acc + Flatten(chunks) == acc;
    } else {
      var c, rest := chunks[0], Flatten(chunks[1..]);
      PartialStays(acc);
      assert acc + Flatten(chunks) == (acc + c) + rest;
      var j, r := PumpPrefix(ps, t, acc + c, rest);
      assert Feed(acc, c) == Pumped(ps[..j], r);
      Reframed(r, chunks[1..], ps[j..], t);
      assert ps == ps[..j] + ps[j..];
      if chunks[1..] == [] {
        assert r + rest == r;
        LastPiece(r, ps[j..], t);
      }
    }
  }

  /** With nothing more to come, nothing whole is held back. */
  lemma LastPiece(r: seq<byte>, ps: seq<seq<byte>>, t: seq<byte>)
    requires Partial(r) && Packets(ps) && r == Flatten(ps) + t
    ensures ps == [] && r == t
  {
    PartialStays(r);
    if ps != [] {
      assert r == ps[0] + (Flatten(ps[1..]) + t);
      PumpPacket(ps[0], Flatten(ps[1..]) + t);
    }
  }

  /** Bytes that start no packet are skipped, one by one. */
  lemma {:induction false} GarbageSkipped(g: seq<byte>, s: seq<byte>)
    requires forall k :: 0 <= k < |g| ==> g[k] != 2 && g[k] != 3 && g[k] != 4
    ensures Pump(g + s) == Pump(s)
    decreases |g|
  {
    if g == [] {
      assert g + s == s;
    } else {
      assert (g + s)[1..] == g[1..] + s;
      GarbageSkipped(g[1..], s);
    }
  }

  /** How a stream is cut makes no difference to what the pump finds in it, packets or garbage. */
  lemma {:induction false} PumpAppend(a: seq<byte>, b: seq<byte>)
    ensures var r, s := Pump(a), Pump(Pump(a).rest + b);
            Pump(a + b) == Pumped(r.packets + s.packets, s.rest)
    decreases |a|
  {
    var pl := PktLen(a);
    hide Pump, PktLen;
    if pl < 0 {
      LenAppend(a, b);
      PumpSkip(a);
      PumpSkip(a + b);
      assert (a + b)[1..] == a[1..] + b;
      PumpAppend(a[1..], b);
    } else if 0 < pl <= |a| {
      LenAppend(a, b);
      PumpTake(a, []);
      PumpTake(a + b, []);
      assert (a + b)[..pl] == a[..pl] && (a + b)[pl..] == a[pl..] + b;
      PumpAppend(a[pl..], b);
      var r := Pump(a[pl..]);
      var s := Pump(r.rest + b);
      assert [a[..pl]] + (r.packets + s.packets) == ([a[..pl]] + r.packets) + s.packets;
    } else {
      PumpHold(a);
      assert [] + Pump(a + b).packets == Pump(a + b).packets;
    }
  }

  /** While nothing overflows, feeding in pieces is pumping the whole. */
  lemma {:induction false} ChunkingIrrelevant(acc: seq<byte>, chunks: seq<seq<byte>>)
    requires NeverOverflows(acc, chunks) && Pump(acc) == Pumped([], acc)
    ensures FeedAll(acc, chunks) == Pump(acc + Flatten(chunks))
    decreases |chunks|
  {
    if chunks == [] {
      assert acc + Flatten(chunks) == acc;
      return;
    }
    var c, rest := chunks[0], Flatten(chunks[1..]);
    var one := Pump(acc + c);
    assert Feed(acc, c) == one;
    assert acc + Flatten(chunks) == acc + c + rest;
    hide Flatten, Pump, Feed;
    PumpAppend(acc + c, rest);
    PumpRest(acc + c);
    ChunkingIrrelevant(one.rest, chunks[1..]);
  }

  lemma {:induction false} PumpRest(acc: seq<byte>)
    ensures Pump(Pump(acc).rest) == Pumped([], Pump(acc).rest)
    decreases |acc|
  {
    var pl := PktLen(acc);
    if pl < 0 {
      PumpRest(acc[1..]);
    } else if 0 < pl <= |acc| {
      PumpRest(acc[pl..]);
    }
  }

  // ---------- the bound on packets ----------

  /** Part of one packet, of whatever length, stays in the accumulator while it fits there. */
  lemma {:induction false} PrefixHeld(h: H4, held: seq<byte>, chunks: seq<seq<byte>>)
    requires Fits(h) && held + Flatten(chunks) < Encoded(h) && |held + Flatten(chunks)| <= ACC_SIZE
    ensures FeedAll(held, chunks) == Pumped([], held + Flatten(chunks)) && NeverOverflows(held, chunks)
    decreases |chunks|
  {
    if chunks == [] {
      assert held + Flatten(chunks) == held;
    } else {
      var p, u, rest := Encoded(h), held + chunks[0], Flatten(chunks[1..]);
      assert held + Flatten(chunks) == u + rest;
      assert u < p;
      LengthRead(h, []);
      assert p + [] == p;
      ProperPrefix(p, u);
      hide Encoded;
      PrefixHeld(h, u, chunks[1..]);
    }
  }

  lemma ProperPrefix(p: seq<byte>, u: seq<byte>)
    requires PktLen(p) == |p| && u < p
    ensures Pump(u) == Pumped([], u)
  {
    assert u != [] ==> u[0] == p[0];
    if PktLen(u) != 0 { assert p == u + p[|u|..]; LenAppend(u, p[|u|..]); }
  }

  /** A read may overflow on top of part of a packet exactly when the packet is longer than the bound. */
  lemma BoundExactly(h: H4)
    requires Fits(h)
    ensures (forall held, chunk :: held < Encoded(h) && |chunk| <= CHUNK_MAX ==> !Overflows(held, chunk)) <==>
              |Encoded(h)| <= PACKET_MAX
  {
    var p := Encoded(h);
    hide Encoded;
    if |p| > PACKET_MAX {
      var held, chunk := p[..PACKET_MAX], Zeros(CHUNK_MAX);
      assert held < p && Overflows(held, chunk);
    }
  }

  function Zeros(n: nat): (z: seq<byte>)
    ensures |z| == n
  {
    seq(n, _ => 0)
  }

  /** Such a packet is lost: reads that end one byte short of the accumulator's slack leave it held, and the read that
      brings the rest throws it away. */
  lemma TooLongIsLost(h: H4, last: seq<byte>)
    requires Fits(h) && |Encoded(h)| == PACKET_MAX + 1 && |last| == CHUNK_MAX - 1
    ensures var p := Encoded(h);
            var chunks := [p[..2048], p[2048..4096], p[4096..6144], p[6144..6145], [p[6145]] + last];
            && (forall k :: 0 <= k < |chunks| ==> |chunks[k]| <= CHUNK_MAX)
            && Flatten(chunks) == p + last
            && FeedAll([], chunks[..4]) == Pumped([], p[..6145])
            && Overflows(p[..6145], chunks[4]) && Feed(p[..6145], chunks[4]) == Pump([p[6145]] + last)
  {
    var p := Encoded(h);
    hide Encoded;
    var chunks := [p[..2048], p[2048..4096], p[4096..6144], p[6144..6145], [p[6145]] + last];
    var c := chunks[..4];
    assert c == [p[..2048], p[2048..4096], p[4096..6144], p[6144..6145]];
    FlattenFour(p[..2048], p[2048..4096], p[4096..6144], p[6144..6145]);
    assert p[..2048] + p[2048..4096] + p[4096..6144] + p[6144..6145] == p[..6145];
    assert chunks == c + [chunks[4]];
    FlattenAppend(c, [chunks[4]]);
    FlattenOne(chunks[4]);
    assert p[..6145] + ([p[6145]] + last) == p + last;
    assert [] + Flatten(c) == p[..6145];
    PrefixHeld(h, [], c);
    assert [] + chunks[4] == chunks[4];
  }

  lemma FlattenFour<T>(a: seq<T>, b: seq<T>, c: seq<T>, d: seq<T>)
    ensures Flatten([a, b, c, d]) == a + b + c + d
  {
    FlattenAppend([a, b, c], [d]);
    FlattenAppend([a, b], [c]);
    FlattenAppend([a], [b]);
    FlattenOne(a);
    FlattenOne(b);
    FlattenOne(c);
    FlattenOne(d);
    assert [a, b, c, d] == [a, b, c] + [d] && [a, b, c] == [a, b] + [c] && [a, b] == [a] + [b];
  }
}
