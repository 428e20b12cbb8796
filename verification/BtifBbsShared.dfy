/** The software ring with its producer and its consumer running against each other, one memory access region a step:
    the producer copies, publishes, then tests the fill; the consumer notes the write index, passes on one stretch or
    two, then moves the read index. */
module BtifBbsShared {
  import opened Bytes
  import opened Ring
  import opened BtifBbs

  datatype Producer = Ready | Copied(data: seq<byte>) | Published

  datatype Consumer = Resting | Noted(upTo: nat) | Halfway(upTo: nat)

  datatype Shared = Shared(
    buf: seq<byte>,
    rd: nat,
    wr: nat,
    producer: Producer,
    consumer: Consumer,
    accepted: seq<byte>,    // published, ever
    taken: seq<byte>,       // passed by the read index, ever
    passed: seq<byte>)      // given to the callback, ever

  datatype Step = Copy(x: seq<byte>) | Publish | Check | Note | Pass | PassRest

  ghost predicate Indexed(s: Shared) {
    && s.rd < |s.buf| && s.wr < |s.buf|
    && (s.consumer.Noted? || s.consumer.Halfway? ==> s.consumer.upTo < |s.buf|)
    && (s.consumer.Halfway? ==> s.consumer.upTo < s.rd)
    && (s.producer.Copied? ==> |s.producer.data| < |s.buf|)
  }

  function Count(s: Shared): nat
    requires s.rd < |s.buf| && s.wr < |s.buf|
  {
    Lap(s.wr, s.rd, |s.buf|)
  }

  /** What of `x` fits beside the one cell kept free. */
  function Fitting(s: Shared, x: seq<byte>): (y: seq<byte>)
    requires s.rd < |s.buf| && s.wr < |s.buf|
    ensures Count(s) + |y| < |s.buf|
  {
    x[..Min(|x|, |s.buf| - 1 - Count(s))]
  }

  ghost function Next(s: Shared, step: Step, limit: nat): (t: Shared)
    requires Indexed(s)
    ensures Indexed(t) && |t.buf| == |s.buf|
  {
    var n := |s.buf|;
    match step
    case Copy(x) =>
      var y := Fitting(s, x);
      if !s.producer.Ready? || Count(s) == n - 1 then s
      else s.(buf := Put(s.buf, s.wr, y), producer := Copied(y))
    case Publish =>
      if !s.producer.Copied? then s
      else
        var y := s.producer.data;
        s.(wr := Wrap(s.wr + |y|, n), producer := Published, accepted := s.accepted + y)
    case Check =>
      if !s.producer.Published? then s
      else if Count(s) >= limit then
        // the wipe; what a consumer caught in the middle of a hand-over then does is not followed
        s.(rd := 0, wr := 0, producer := Ready, consumer := Resting)
      else s.(producer := Ready)
    case Note => if s.consumer.Resting? && s.wr != s.rd then s.(consumer := Noted(s.wr)) else s
    case Pass =>
      if !s.consumer.Noted? then s
      else
        var cur := s.consumer.upTo;
        if s.rd <= cur then
          s.(passed := s.passed + s.buf[s.rd..cur], taken := s.taken + s.buf[s.rd..cur], rd := cur, consumer := Resting)
        else s.(passed := s.passed + s.buf[s.rd..], consumer := Halfway(cur))
    case PassRest =>
      if !s.consumer.Halfway? then s
      else
        var cur := s.consumer.upTo;
        s.(passed := s.passed + s.buf[..cur], taken := s.taken + s.buf[s.rd..] + s.buf[..cur], rd := cur,
           consumer := Resting)
  }

  ghost function Queue(s: Shared): seq<byte>
    requires Indexed(s)
  {
    Circ(s.buf, s.rd, Count(s))
  }

  /** Everything published has been passed on or is still stored, once each and in order. */
  ghost predicate Intact(s: Shared) {
    && Indexed(s)
    && s.taken + Queue(s) == s.accepted
    && s.passed == s.taken + (if s.consumer.Halfway? then s.buf[s.rd..] else [])
    && (s.consumer.Noted? || s.consumer.Halfway? ==> Lap(s.consumer.upTo, s.rd, |s.buf|) <= Count(s))
    && (s.producer.Copied? ==>
         && Count(s) + |s.producer.data| < |s.buf|
         && Circ(s.buf, s.wr, |s.producer.data|) == s.producer.data)
  }

  /** A write into the free part leaves the stored bytes alone and puts its own after them. */
  lemma FreeWrite(buf: seq<byte>, r: nat, used: nat, y: seq<byte>)
    requires r < |buf| && used + |y| < |buf|
    ensures var w := Wrap(r + used, |buf|);
            var b := Put(buf, w, y);
            && |b| == |buf|
            && Circ(b, r, used) == Circ(buf, r, used) && Circ(b, w, |y|) == y
            && (|buf| - r <= used ==> b[r..] == buf[r..])
  {
    var w := Wrap(r + used, |buf|);
    var b := Put(buf, w, y);
    var q := Circ(buf, r, used);
    CircPut(buf, r, used, y);
    CircSplit(b, r, used, |y|);
    assert (q + y)[..used] == q && (q + y)[used..] == y;
    assert Circ(b, r, used) == Circ(b, r, used + |y|)[..used];
    assert Circ(b, w, |y|) == Circ(b, r, used + |y|)[used..];
  }

  lemma WrAt(s: Shared)
    requires Indexed(s)
    ensures s.wr == Wrap(s.rd + Count(s), |s.buf|) && Count(s) < |s.buf|
    ensures s.consumer.Halfway? && Lap(s.consumer.upTo, s.rd, |s.buf|) <= Count(s) ==> |s.buf| - s.rd <= Count(s)
  {}

  lemma CopiedIntact(s: Shared, y: seq<byte>)
    requires Intact(s) && s.producer.Ready? && Count(s) + |y| < |s.buf|
    ensures Intact(s.(buf := Put(s.buf, s.wr, y), producer := Copied(y)))
  {
    hide Put, Circ, Wrap;
    WrAt(s);
    FreeWrite(s.buf, s.rd, Count(s), y);
  }

  lemma CopyIntact(s: Shared, x: seq<byte>, limit: nat)
    requires Intact(s)
    ensures Intact(Next(s, Copy(x), limit))
  {
    var y := Fitting(s, x);
    hide Intact, Put, Circ, Indexed, Count, Fitting;
    if s.producer.Ready? && Count(s) < |s.buf| - 1 {
      CopiedIntact(s, y);
    }
  }

  lemma Appended(s: Shared)
    requires Intact(s) && s.producer.Copied?
    ensures var n, y := |s.buf|, s.producer.data;
            var w := Wrap(s.wr + |y|, n);
            && w < n && Lap(w, s.rd, n) == Count(s) + |y|
            && Circ(s.buf, s.rd, Count(s) + |y|) == Queue(s) + y
            && s.taken + (Queue(s) + y) == s.accepted + y
  {
    assert s.wr == Wrap(s.rd + Count(s), |s.buf|);
    CircSplit(s.buf, s.rd, Count(s), |s.producer.data|);
  }

  /** Publishing puts the copied bytes behind the stored ones. */
  lemma PublishIntact(s: Shared, limit: nat)
    requires Intact(s) && s.producer.Copied?
    ensures var t := Next(s, Publish, limit);
            Intact(t) && Queue(t) == Queue(s) + s.producer.data
  {
    Appended(s);
    hide Circ;
  }

  /** The test of the fill keeps every byte exactly while the fill it finds is below the limit; the consumer may have
      lowered it since the bytes were published. */
  lemma CheckIntact(s: Shared, limit: nat)
    requires Intact(s) && s.producer.Published? && limit > 0
    ensures Intact(Next(s, Check, limit)) <==> Count(s) < limit
  {
    var t := Next(s, Check, limit);
    if Count(s) >= limit {
      assert |Queue(t)| == 0;
      assert |s.taken + Queue(s)| == |s.taken| + Count(s);
      assert |t.taken + Queue(t)| == |t.taken|;
    } else {
      hide Circ;
    }
  }

  lemma PassIntact(s: Shared, limit: nat)
    requires Intact(s) && s.consumer.Noted?
    ensures Intact(Next(s, Pass, limit))
  {
    var cur := s.consumer.upTo;
    if s.rd <= cur {
      TakenUpTo(s, cur - s.rd);
      assert Wrap(cur, |s.buf|) == cur && Count(s) - (cur - s.rd) == Lap(s.wr, cur, |s.buf|);
      hide Circ, Wrap;
    }
  }

  /** What is left of the queue, and of the accounts, once `k` bytes of it count as taken. */
  lemma TakenUpTo(s: Shared, k: nat)
    requires Intact(s) && k <= Count(s)
    ensures var n := |s.buf|;
            var piece := if s.rd + k <= n then s.buf[s.rd..s.rd + k] else s.buf[s.rd..] + s.buf[..s.rd + k - n];
            && Queue(s)[..k] == piece
            && s.taken + piece + Circ(s.buf, Wrap(s.rd + k, n), Count(s) - k) == s.accepted
  {
    TakeFrom(s.buf, s.rd, Count(s), k);
    assert Queue(s) == Queue(s)[..k] + Queue(s)[k..];
  }

  lemma PassRestIntact(s: Shared, limit: nat)
    requires Intact(s) && s.consumer.Halfway?
    ensures Intact(Next(s, PassRest, limit))
  {
    var n, cur := |s.buf|, s.consumer.upTo;
    TakenUpTo(s, n - s.rd + cur);
    assert s.taken + s.buf[s.rd..] + s.buf[..cur] == s.taken + (s.buf[s.rd..] + s.buf[..cur]);
    assert Wrap(s.rd + (n - s.rd + cur), n) == cur && Count(s) - (n - s.rd + cur) == Lap(s.wr, cur, n);
    hide Circ, Wrap, Lap;
  }

  /** The step does not find the limit reached. */
  ghost predicate Below(s: Shared, step: Step, limit: nat)
    requires Indexed(s)
  {
    step.Check? && s.producer.Published? ==> Count(s) < limit
  }

  lemma NextIntact(s: Shared, step: Step, limit: nat)
    requires Intact(s) && limit > 0 && Below(s, step, limit)
    ensures Intact(Next(s, step, limit))
  {
    match step {
      case Copy(x) => CopyIntact(s, x, limit);
      case Publish => if s.producer.Copied? { PublishIntact(s, limit); }
      case Check => if s.producer.Published? { CheckIntact(s, limit); }
      case Note =>
      case Pass => if s.consumer.Noted? { PassIntact(s, limit); }
      case PassRest => if s.consumer.Halfway? { PassRestIntact(s, limit); }
    }
  }

  ghost function Run(s: Shared, steps: seq<Step>, limit: nat): (t: Shared)
    requires Indexed(s)
    ensures Indexed(t)
    decreases |steps|
  {
    if steps == [] then s else Run(Next(s, steps[0], limit), steps[1..], limit)
  }

  ghost predicate AllBelow(s: Shared, steps: seq<Step>, limit: nat)
    requires Indexed(s)
    decreases |steps|
  {
    steps == [] || (Below(s, steps[0], limit) && AllBelow(Next(s, steps[0], limit), steps[1..], limit))
  }

  /** In every interleaving that stays below the limit each published byte is handed on once, in order: what the
      callback was given is always a prefix of what was published, and all of it once the ring is drained. */
  lemma {:induction false} OnceInOrder(s: Shared, steps: seq<Step>, limit: nat)
    requires Intact(s) && limit > 0 && AllBelow(s, steps, limit)
    ensures var t := Run(s, steps, limit);
            && Intact(t)
            && t.passed <= t.accepted
            && (t.rd == t.wr && t.consumer.Resting? ==> t.passed == t.accepted)
    decreases |steps|
  {
    if steps == [] {
      PassedPrefix(s);
    } else {
      NextIntact(s, steps[0], limit);
      hide Intact, Next;
      OnceInOrder(Next(s, steps[0], limit), steps[1..], limit);
    }
  }

  lemma PassedPrefix(s: Shared)
    requires Intact(s)
    ensures s.passed <= s.accepted
    ensures s.rd == s.wr && s.consumer.Resting? ==> s.passed == s.accepted
  {
    if s.consumer.Halfway? {
      TakeFrom(s.buf, s.rd, Count(s), |s.buf| - s.rd);
      var h := s.buf[s.rd..];
      assert Queue(s)[..|h|] == h;
      assert s.taken + Queue(s) == s.taken + h + Queue(s)[|h|..];
    }
  }

  lemma FreshIntact(size: nat)
    requires size > 0
    ensures Intact(Shared(seq(size, _ => 0), 0, 0, Ready, Resting, [], [], []))
  {}

  // ---------- one side at a time ----------

  /** With the consumer at rest, the producer's three steps are the ring's write. */
  lemma WriteAlone(s: Shared, x: seq<byte>, limit: nat)
    requires Intact(s) && s.producer.Ready? && s.consumer.Resting?
    ensures var t := Next(Next(Next(s, Copy(x), limit), Publish, limit), Check, limit);
            && Queue(t) == Written(Queue(s), x, |s.buf|, limit)
            && t.producer.Ready? && t.consumer.Resting? && t.passed == s.passed
  {
    var c := Next(s, Copy(x), limit);
    CopyIntact(s, x, limit);
    if c.producer.Copied? {
      CopyKeepsQueue(s, x, limit);
      PublishIntact(c, limit);
    }
    hide Circ, Put, Wrap, Intact;
  }

  lemma CopyKeepsQueue(s: Shared, x: seq<byte>, limit: nat)
    requires Intact(s)
    ensures Queue(Next(s, Copy(x), limit)) == Queue(s)
  {
    hide Put, Circ, Wrap;
    WrAt(s);
    FreeWrite(s.buf, s.rd, Count(s), Fitting(s, x));
  }

  /** With the producer at rest, the consumer's steps hand over everything stored, as the ring's hand-over does. */
  lemma ConsumeAlone(s: Shared, limit: nat)
    requires Intact(s) && s.producer.Ready? && s.consumer.Resting?
    ensures var t := Next(Next(Next(s, Note, limit), Pass, limit), PassRest, limit);
            && Queue(t) == [] && t.passed == s.passed + Queue(s)
            && t.producer.Ready? && t.consumer.Resting?
  {
    CircSlices(s.buf, s.rd, Count(s));
  }
}
