/** What one retransmission achieves once the links stop losing: everything is delivered, and the sender learns
    of it except in one case. */
module GoBackNRecovery {
  import opened Bytes
  import opened StpFrame
  import opened StpEndpoint
  import opened GoBackN
  import StpRxRing

  function Out(s: System, fromA: bool): seq<Flight> {
    if fromA then s.a.out else s.b.out
  }

  /** Everything on one link arrives in order, at a receiver with room to queue it. */
  function Drain(s: System, fromA: bool): System
    decreases |Out(s, fromA)|
  {
    if Out(s, fromA) == [] then s else Drain(Next(s, Action.Delivering(fromA, true)), fromA)
  }

  lemma {:induction false} DrainSwap(s: System)
    ensures Drain(s, false) == Swap(Drain(Swap(s), true))
    decreases |s.b.out|
  {
    if s.b.out != [] {
      DrainSwap(Next(s, Action.Delivering(false, true)));
    }
  }

  /** The packets from number `first` on, up to the last one sent, and nothing else. */
  ghost predicate Rest(x: Side, first: int) {
    && first + |x.out| == |x.sent|
    && forall k :: 0 <= k < |x.out| ==> x.out[k].unit.Data? && x.out[k].index == first + k
  }

  ghost predicate Answers(y: Side) {
    && (forall k :: 0 <= k < |y.out| ==> y.out[k].unit.Ack?)
    && (y.out != [] ==> y.out[|y.out| - 1].count == |y.got|)
  }

  lemma AcceptSide(y: Side, f: Frame)
    requires f.num == y.end.expected && Answers(y)
    ensures var y' := DoReceive(y, Data(f), true);
            Answers(y') && y'.out != [] && y'.end.rxOk && |y'.got| == |y.got| + 1
  {}

  lemma RejectSide(y: Side, f: Frame)
    requires f.num != y.end.expected && Answers(y)
    ensures var y' := DoReceive(y, Data(f), true);
            Answers(y') && y'.end.rxOk == y.end.rxOk && y'.got == y.got
            && (y'.out != [] <==> y.out != [] || y.end.rxOk)
  {}

  lemma NothingLeft(x: Side, first: int)
    requires Rest(x, first) && x.out == []
    ensures first == |x.sent|
  {}

  lemma RestNext(x: Side, first: int)
    requires Rest(x, first) && x.out != []
    ensures x.out[0].unit.Data? && x.out[0].index == first && Rest(x.(out := x.out[1..]), first + 1)
  {}

  lemma AtExpected(window: nat, s: System)
    requires Inv(window, s) && s.a.out != [] && s.a.out[0].unit.Data?
    requires s.a.out[0].index == |s.b.got|
    ensures s.a.out[0].unit.frame.num == s.b.end.expected
  {}

  lemma {:induction false} DataDrain(window: nat, s: System, first: int)
    requires Inv(window, s) && Rest(s.a, first) && first <= |s.b.got| && Answers(s.b)
    ensures var t := Drain(s, true);
            && Inv(window, t) && t.a == s.a.(out := []) && Answers(t.b)
            && |t.b.got| == |s.a.sent|
            && (t.b.out != [] <==>
                 s.b.out != [] || (s.a.out != [] && (s.b.end.rxOk || |s.b.got| < |s.a.sent|)))
    decreases |s.a.out|
  {
    var x, y := s.a, s.b;
    Bounds(window, s);
    hide Inv, Answers, DoReceive, Rest;
    if x.out == [] {
      NothingLeft(x, first);
    } else {
      var act := Action.Delivering(true, true);
      var s' := Next(s, act);
      NextKeeps(window, s, act);
      RestNext(x, first);
      var f := x.out[0].unit.frame;
      if f.num == y.end.expected {
        AcceptSide(y, f);
      } else {
        RejectSide(y, f);
        if first == |y.got| { AtExpected(window, s); }
      }
      DataDrain(window, s', first + 1);
    }
  }

  lemma OneAck(window: nat, s: System)
    requires Inv(window, s) && s.a.out != [] && s.a.out[0].unit.Ack?
    ensures var s' := Next(s, Action.Delivering(true, true));
            && Inv(window, s') && s'.a == s.a.(out := s.a.out[1..])
            && s'.b.sent == s.b.sent && Acked(s'.b) == s.a.out[0].count
  {
    NextKeeps(window, s, Action.Delivering(true, true));
    var h := s.a.out[0];
    assert Acked(s.b) <= h.count <= |s.a.got| && h.unit.ack == (h.count + 7) % 8;
    TakeAckKept(window, s.b, h.unit.ack, h.count);
  }

  lemma {:induction false} AckDrain(window: nat, s: System)
    requires Inv(window, s) && forall k :: 0 <= k < |s.a.out| ==> s.a.out[k].unit.Ack?
    ensures var t := Drain(s, true);
            && Inv(window, t) && t.a == s.a.(out := []) && t.b.sent == s.b.sent
            && Acked(t.b) == if s.a.out == [] then Acked(s.b) else s.a.out[|s.a.out| - 1].count
    decreases |s.a.out|
  {
    if s.a.out != [] {
      OneAck(window, s);
      var s' := Next(s, Action.Delivering(true, true));
      hide Inv, Acked, Next;
      assert forall k :: 0 <= k < |s'.a.out| ==> s'.a.out[k] == s.a.out[k + 1];
      AckDrain(window, s');
    }
  }

  lemma FiredSide(x: Side)
    requires x.out == [] && x.end.unacked != [] && x.end.retries <= RETRY_LIMIT
    ensures var x' := DoTimeout(x);
            && |x'.out| >= 2 && x'.out[0].unit == Resync && x'.sent == x.sent
            && Acked(x') == Acked(x) && Rest(x'.(out := x'.out[1..]), Acked(x))
  {}

  /** The expiry, and the resync pattern going through. */
  lemma Fired(window: nat, s: System)
    requires Inv(window, s) && s.a.out == [] && s.b.out == []
    requires s.a.end.unacked != [] && s.a.end.retries <= RETRY_LIMIT
    ensures var s1 := Next(s, Action.Expiring(true));
            var s2 := Next(s1, Action.Delivering(true, true));
            && Inv(window, s2) && Drain(s1, true) == Drain(s2, true)
            && s2.b == s.b && s2.a.sent == s.a.sent && s2.a.out != []
            && Acked(s2.a) == Acked(s.a) && Rest(s2.a, Acked(s.a))
  {
    var s1 := Next(s, Action.Expiring(true));
    FiredSide(s.a);
    hide Inv, DoTimeout, Rest;
    NextKeeps(window, s, Action.Expiring(true));
    NextKeeps(window, s1, Action.Delivering(true, true));
  }

  lemma Bounds(window: nat, s: System)
    requires Inv(window, s)
    ensures Acked(s.a) <= |s.b.got| <= |s.a.sent| && s.b.got == s.a.sent[..|s.b.got|]
    ensures |s.a.end.unacked| == |s.a.sent| - Acked(s.a)
  {}

  lemma Silent(window: nat, s: System)
    requires Inv(window, s) && s.a.out == [] && s.b.out == []
    requires s.a.end.unacked == [] || s.a.end.retries > RETRY_LIMIT
    ensures Drain(Drain(Next(s, Action.Expiring(true)), true), false) == s
  {
    hide Inv;
    assert Next(s, Action.Expiring(true)) == s;
  }

  /** What the drain towards b does after an expiry. */
  lemma Delivered(window: nat, s: System)
    requires Inv(window, s) && s.a.out == [] && s.b.out == []
    requires s.a.end.unacked != [] && s.a.end.retries <= RETRY_LIMIT
    ensures var u := Drain(Next(s, Action.Expiring(true)), true);
            && Inv(window, u) && u.a.sent == s.a.sent && Acked(u.a) == Acked(s.a) && u.a.out == []
            && |u.b.got| == |s.a.sent| && Answers(u.b)
            && (u.b.out != [] <==> s.b.end.rxOk || |s.b.got| < |s.a.sent|)
  {
    Bounds(window, s);
    assert Answers(s.b);
    hide Inv, Next, Drain, Answers, Rest;
    Fired(window, s);
    var s2 := Next(Next(s, Action.Expiring(true)), Action.Delivering(true, true));
    DataDrain(window, s2, Acked(s.a));
  }

  /** What the two drains do after an expiry. */
  lemma Answered(window: nat, s: System)
    requires Inv(window, s) && s.a.out == [] && s.b.out == []
    requires s.a.end.unacked != [] && s.a.end.retries <= RETRY_LIMIT
    ensures var t := Drain(Drain(Next(s, Action.Expiring(true)), true), false);
            && Inv(window, t) && t.a.sent == s.a.sent && |t.b.got| == |s.a.sent|
            && Acked(t.a) == if s.b.end.rxOk || |s.b.got| < |s.a.sent| then |s.a.sent| else Acked(s.a)
  {
    hide Inv, Next, Drain;
    Delivered(window, s);
    var u := Drain(Next(s, Action.Expiring(true)), true);
    DrainSwap(u);
    InvSwap(window, u);
    AckDrain(window, Swap(u));
    InvSwap(window, Drain(Swap(u), true));
  }

  lemma InvSwap(window: nat, s: System)
    requires Inv(window, s)
    ensures Inv(window, Swap(s))
  {}

  /** From any reachable state with the links idle: one expiry of a's timer, with nothing lost after it, leaves b
      with all that a ever sent, unless a has already given up. It also empties a's retransmission queue, except
      when b had accepted everything but failed to queue the last packet: b then answers nothing. */
  lemma Recovery(window: nat, s: System)
    requires Inv(window, s) && s.a.out == [] && s.b.out == []
    ensures var t := Drain(Drain(Next(s, Action.Expiring(true)), true), false);
            && Inv(window, t)
            && t.a.sent == s.a.sent
            && (t.b.got == s.a.sent <==> s.b.got == s.a.sent || s.a.end.retries <= RETRY_LIMIT)
            && (t.a.end.unacked == [] <==>
                 || s.a.end.unacked == []
                 || (s.a.end.retries <= RETRY_LIMIT && (s.b.end.rxOk || |s.b.got| < |s.a.sent|)))
  {
    var t := Drain(Drain(Next(s, Action.Expiring(true)), true), false);
    Bounds(window, s);
    hide Inv, Next, Drain;
    if s.a.end.unacked == [] || s.a.end.retries > RETRY_LIMIT {
      Silent(window, s);
    } else {
      Answered(window, s);
      Bounds(window, t);
    }
  }

  // ---------- from any state ----------

  /** One expiry with nothing lost after it. */
  function Round(s: System): System {
    Drain(Drain(Next(s, Action.Expiring(true)), true), false)
  }

  ghost predicate AcksFrom(out: seq<Flight>, n: nat) {
    n <= |out| && forall k :: n <= k < |out| ==> out[k].unit.Ack?
  }

  lemma ReceivedOut(y: Side, u: Unit)
    ensures var y' := DoReceive(y, u, true);
            && y'.sent == y.sent && (y'.end.retries == y.end.retries || y'.end.retries == 0)
            && y.out <= y'.out && AcksFrom(y'.out, |y.out|) && (u.Ack? ==> y'.out == y.out)
  {}

  lemma AcksOnly(out: seq<Flight>)
    requires out != [] && AcksFrom(out, 0)
    ensures AcksFrom(out[1..], 0) && out[0].unit.Ack?
  {}

  lemma AcksJoin(a: seq<Flight>, b: seq<Flight>, c: seq<Flight>)
    requires a <= b <= c && AcksFrom(b, |a|) && AcksFrom(c, |b|)
    ensures AcksFrom(c, |a|)
  {}

  /** Everything on a's link arrives: b adds nothing but acknowledgements to its own link, and to acknowledgements
      nothing at all. */
  lemma {:induction false} Arrived(window: nat, s: System)
    requires Inv(window, s)
    ensures var t := Drain(s, true);
            && Inv(window, t) && t.a == s.a.(out := []) && t.b.sent == s.b.sent
            && (t.b.end.retries == s.b.end.retries || t.b.end.retries == 0)
            && s.b.out <= t.b.out && AcksFrom(t.b.out, |s.b.out|)
            && (AcksFrom(s.a.out, 0) ==> t.b.out == s.b.out)
    decreases |s.a.out|
  {
    if s.a.out != [] {
      var s' := Next(s, Action.Delivering(true, true));
      ReceivedOut(s.b, s.a.out[0].unit);
      hide Inv, DoReceive, AcksFrom;
      NextKeeps(window, s, Action.Delivering(true, true));
      Arrived(window, s');
      if AcksFrom(s.a.out, 0) { AcksOnly(s.a.out); }
      AcksJoin(s.b.out, s'.b.out, Drain(s', true).b.out);
    }
  }

  /** What is in flight arrives, then what that is answered with. */
  function Settled(s: System): System {
    Drain(Drain(Drain(s, true), false), true)
  }

  lemma SettledIdle(window: nat, s: System)
    requires Inv(window, s)
    ensures var t := Settled(s);
            && Inv(window, t) && t.a.out == [] && t.b.out == [] && t.a.sent == s.a.sent && t.b.sent == s.b.sent
            && (t.a.end.retries == s.a.end.retries || t.a.end.retries == 0)
  {
    var u := Drain(s, true);
    var v := Drain(u, false);
    hide Inv, Drain, AcksFrom;
    Arrived(window, s);
    InvSwap(window, u);
    DrainSwap(u);
    Arrived(window, Swap(u));
    InvSwap(window, Drain(Swap(u), true));
    Arrived(window, v);
  }

  /** From every reachable state whose retry limit is not passed: once what is in flight has arrived, one expiry with
      nothing lost after it leaves b with all that a ever sent. */
  lemma RecoveryFromAny(window: nat, s: System)
    requires Inv(window, s) && s.a.end.retries <= RETRY_LIMIT
    ensures var t := Round(Settled(s));
            Inv(window, t) && t.a.sent == t.b.got == s.a.sent
  {
    hide Inv, Next, Drain;
    SettledIdle(window, s);
    Recovery(window, Settled(s));
  }

  // ---------- again and again ----------

  /** Nobody has reason to count retries while nothing is outstanding. */
  ghost predicate Rested(x: Side) {
    x.end.unacked == [] ==> x.end.retries == 0
  }

  function Expiries(acts: seq<Action>): nat {
    if acts == [] then 0 else (if acts[0] == Action.Expiring(true) then 1 else 0) + Expiries(acts[1..])
  }

  /** b's clients have room for what arrives. */
  predicate Roomy(acts: seq<Action>) {
    forall k :: 0 <= k < |acts| && acts[k].Delivering? && acts[k].fromA ==> acts[k].queued
  }

  lemma ActKeeps(s: System, act: Action)
    requires Rested(s.a)
    ensures var t := Next(s, act);
            && Rested(t.a) && t.a.end.retries <= s.a.end.retries + (if act == Action.Expiring(true) then 1 else 0)
            && (s.b.end.rxOk && !(act.Delivering? && act.fromA && !act.queued) ==> t.b.end.rxOk)
  {}

  lemma {:induction false} ActsKeep(window: nat, s: System, acts: seq<Action>)
    requires Inv(window, s) && Rested(s.a)
    ensures var t := GoBackN.Run(s, acts);
            && Inv(window, t) && Rested(t.a) && t.a.end.retries <= s.a.end.retries + Expiries(acts)
            && (s.b.end.rxOk && Roomy(acts) ==> t.b.end.rxOk)
    decreases |acts|
  {
    hide Inv, Rested, Next;
    if acts != [] {
      NextKeeps(window, s, acts[0]);
      ActKeeps(s, acts[0]);
      ActsKeep(window, Next(s, acts[0]), acts[1..]);
    }
  }

  lemma {:induction false} DrainKeeps(s: System, fromA: bool)
    requires Rested(s.a)
    ensures var t := Drain(s, fromA);
            && Rested(t.a) && t.a.end.retries <= s.a.end.retries && (s.b.end.rxOk ==> t.b.end.rxOk)
    decreases |Out(s, fromA)|
  {
    hide Rested, Next;
    if Out(s, fromA) != [] {
      hide Out;
      ActKeeps(s, Action.Delivering(fromA, true));
      DeliveringShortens(s, fromA);
      DrainKeeps(Next(s, Action.Delivering(fromA, true)), fromA);
    }
  }

  lemma DeliveringShortens(s: System, fromA: bool)
    requires Out(s, fromA) != []
    ensures |Out(Next(s, Action.Delivering(fromA, true)), fromA)| == |Out(s, fromA)| - 1
  {}

  /** A stretch of anything, then what is in flight arrives, then one expiry with nothing lost after it. */
  function Episode(s: System, acts: seq<Action>): System {
    Round(Settled(GoBackN.Run(s, acts)))
  }

  function Episodes(s: System, all: seq<seq<Action>>): System
    decreases |all|
  {
    if all == [] then s else Episodes(Episode(s, all[0]), all[1..])
  }

  /** Nothing outstanding, nothing counted, and everything sent has been accepted. */
  ghost predicate Done(s: System) {
    s.a.end.unacked == [] && s.a.end.retries == 0 && s.b.got == s.a.sent && s.b.end.rxOk
  }

  lemma EpisodeRecovers(window: nat, s: System, acts: seq<Action>)
    requires Inv(window, s) && Done(s) && Expiries(acts) <= RETRY_LIMIT && Roomy(acts)
    ensures Inv(window, Episode(s, acts)) && Done(Episode(s, acts))
  {
    assert Rested(s.a);
    hide Inv, Rested, Next, Drain;
    ActsKeep(window, s, acts);
    var t := GoBackN.Run(s, acts);
    SettledIdle(window, t);
    DrainKeeps(t, true);
    DrainKeeps(Drain(t, true), false);
    DrainKeeps(Drain(Drain(t, true), false), true);
    var q := Settled(t);
    Recovery(window, q);
    Bounds(window, q);
    var f := Next(q, Action.Expiring(true));
    ActKeeps(q, Action.Expiring(true));
    DrainKeeps(f, true);
    DrainKeeps(Drain(f, true), false);
    RestedMeans(Round(q).a);
  }

  lemma RestedMeans(x: Side)
    requires Rested(x)
    ensures x.end.unacked == [] ==> x.end.retries == 0
  {}

  /** However often the links fail: as long as no stretch fires a's timer more than the retry limit allows, each is made
      good, with the count back at 0 for the next one. */
  lemma {:induction false} ManyEpisodes(window: nat, s: System, all: seq<seq<Action>>)
    requires Inv(window, s) && Done(s)
    requires forall k :: 0 <= k < |all| ==> Expiries(all[k]) <= RETRY_LIMIT && Roomy(all[k])
    ensures Inv(window, Episodes(s, all)) && Done(Episodes(s, all))
    decreases |all|
  {
    hide Inv, Done, Episode, Expiries, Roomy;
    if all != [] {
      EpisodeRecovers(window, s, all[0]);
      ManyEpisodes(window, Episode(s, all[0]), all[1..]);
    }
  }

  /** Among others from a reset on. */
  lemma EpisodesFromReset(window: nat, okA: bool, all: seq<seq<Action>>)
    requires window <= 7
    requires forall k :: 0 <= k < |all| ==> Expiries(all[k]) <= RETRY_LIMIT && Roomy(all[k])
    ensures Done(Episodes(Init(window, okA, true), all))
  {
    InitInv(window, okA, true);
    assert Done(Init(window, okA, true));
    hide *;
    ManyEpisodes(window, Init(window, okA, true), all);
  }

  // ---------- the case it does not end ----------

  function Rounds(s: System, n: nat): System
    decreases n
  {
    if n == 0 then s else Rounds(Round(s), n - 1)
  }

  /** The links are idle, b has accepted everything, but could not queue the last packet, and a does not know. */
  ghost predicate Unanswered(s: System) {
    && s.a.out == [] && s.b.out == []
    && s.a.end.unacked != [] && |s.b.got| == |s.a.sent| && !s.b.end.rxOk
  }

  /** Such a receiver lets a whole resend pass without a word. */
  lemma {:induction false} SilentDrain(window: nat, s: System, first: int)
    requires Inv(window, s) && Rest(s.a, first) && |s.b.got| == |s.a.sent| && !s.b.end.rxOk
    ensures Drain(s, true) == System(s.a.(out := []), s.b)
    decreases |s.a.out|
  {
    if s.a.out != [] {
      var act := Action.Delivering(true, true);
      var s' := Next(s, act);
      NextKeeps(window, s, act);
      NotExpected(window, s);
      assert s'.b == s.b;
      assert Rest(s'.a, first + 1);
      hide Inv, Next;
      SilentDrain(window, s', first + 1);
    }
  }

  lemma NotExpected(window: nat, s: System)
    requires Inv(window, s) && s.a.out != [] && s.a.out[0].unit.Data? && |s.b.got| == |s.a.sent|
    ensures s.a.out[0].unit.frame.num != s.b.end.expected
  {
    if s.a.out[0].unit.frame.num == s.b.end.expected {
      AcceptedIsNext(window, s.a, s.b);
    }
  }

  /** A round then changes nothing but the retry count and the acknowledgements stored in the frames. */
  lemma UnansweredRound(window: nat, s: System)
    requires Inv(window, s) && Unanswered(s)
    ensures var t := Round(s);
            && Inv(window, t) && Unanswered(t) && t.b == s.b && t.a.sent == s.a.sent
            && t.a.end.retries == s.a.end.retries + (if s.a.end.retries <= RETRY_LIMIT then 1 else 0)
            && |t.a.end.unacked| == |s.a.end.unacked|
  {
    if s.a.end.retries > RETRY_LIMIT {
      Silent(window, s);
    } else {
      var s1 := Next(s, Action.Expiring(true));
      assert s1.a.end == Timeout(s.a.end).end;
      assert |s1.a.end.unacked| == |s.a.end.unacked| && s1.a.end.retries == s.a.end.retries + 1;
      Fired(window, s);
      var s2 := Next(s1, Action.Delivering(true, true));
      assert s2.a.end == s1.a.end;
      hide Inv, Next, Rest, Timeout;
      SilentDrain(window, s2, Acked(s.a));
      var u := Drain(s1, true);
      InvDrained(window, s2);
      assert u == System(s2.a.(out := []), s.b);
      assert Drain(u, false) == u;
    }
  }

  lemma InvDrained(window: nat, s: System)
    requires Inv(window, s)
    ensures Inv(window, System(s.a.(out := []), s.b))
  {}

  /** However often the timer fires, the queue stays, and the retry count climbs past the limit, where the driver gives
      the link up. */
  lemma {:induction false} UnansweredRounds(window: nat, s: System, n: nat)
    requires Inv(window, s) && Unanswered(s)
    ensures var t := Rounds(s, n);
            && Inv(window, t) && Unanswered(t) && |t.a.end.unacked| == |s.a.end.unacked|
            && t.a.end.retries ==
               if s.a.end.retries + n <= RETRY_LIMIT + 1 then s.a.end.retries + n
               else if s.a.end.retries <= RETRY_LIMIT then RETRY_LIMIT + 1 else s.a.end.retries
    decreases n
  {
    hide Inv, Unanswered, Round;
    if n > 0 {
      UnansweredRound(window, s);
      UnansweredRounds(window, Round(s), n - 1);
    }
  }

  /** One new packet that the window and the ring admit ends it: b accepts it and acknowledges everything. */
  lemma UnansweredEnds(window: nat, s: System, typ: byte, payload: seq<byte>)
    requires Inv(window, s) && Unanswered(s) && Admits(s.a.end, |payload|)
    ensures var t := Drain(Drain(Next(s, Action.Sending(true, typ, payload)), true), false);
            Inv(window, t) && t.b.got == t.a.sent == s.a.sent + [Item(typ, payload)] && t.a.end.unacked == []
  {
    var s1 := Next(s, Action.Sending(true, typ, payload));
    SentOne(window, s, typ, payload);
    hide *;
    DataDrain(window, s1, |s.a.sent|);
    var u := Drain(s1, true);
    AnswersAre(u.b);
    DrainSwap(u);
    InvSwap(window, u);
    SwapSides(u);
    AckDrain(window, Swap(u));
    SwapSides(Drain(Swap(u), true));
    InvSwap(window, Drain(Swap(u), true));
    var t := Drain(u, false);
    Bounds(window, t);
    assert t.b.got == t.a.sent[..|t.b.got|] == t.a.sent;
  }

  lemma SwapSides(s: System)
    ensures Swap(s).a == s.b && Swap(s).b == s.a
  {}

  lemma SentOne(window: nat, s: System, typ: byte, payload: seq<byte>)
    requires Inv(window, s) && Unanswered(s) && Admits(s.a.end, |payload|)
    ensures var s1 := Next(s, Action.Sending(true, typ, payload));
            && Inv(window, s1) && s1.b == s.b && s1.a.sent == s.a.sent + [Item(typ, payload)]
            && Rest(s1.a, |s.a.sent|) && Answers(s1.b) && s1.b.out == [] && s1.a.out != []
            && |s1.b.got| == |s.a.sent|
  {
    NextKeeps(window, s, Action.Sending(true, typ, payload));
    hide Inv;
  }

  lemma AnswersAre(y: Side)
    requires Answers(y)
    ensures forall k :: 0 <= k < |y.out| ==> y.out[k].unit.Ack?
    ensures y.out != [] ==> y.out[|y.out| - 1].count == |y.got|
  {}

  // ---------- the case arises ----------

  /** The largest packet the link carries. */
  function Full(): (p: seq<byte>)
    ensures |p| == 2048
  {
    seq(2048, _ => 0)
  }

  function Times<T>(n: nat, x: T): (s: seq<T>)
    ensures |s| == n
  {
    seq(n, _ => x)
  }

  /** One packet sent, delivered, queued and acknowledged. */
  function Exchange(p: seq<byte>): seq<Action> {
    [Action.Sending(true, 0, p), Action.Delivering(true, true), Action.Delivering(false, true)]
  }

  function Exchanges(n: nat, p: seq<byte>): seq<Action> {
    if n == 0 then [] else Exchanges(n - 1, p) + Exchange(p)
  }

  /** After n of them. */
  function Exchanged(n: nat, p: seq<byte>): System {
    System(Side(Endpoint(n % 8, 7, (n + 7) % 8, WINSIZE, 0, 0, true, []), Times(n, Item(0, p)), [], []),
           Side(Endpoint(0, (n + 7) % 8, 7, WINSIZE, n % 8, 0, true, []), [], Times(n, Item(0, p)), []))
  }

  lemma TimesNext<T>(n: nat, x: T)
    ensures Times(n, x) + [x] == Times(n + 1, x)
  {}

  /** The endpoints' part in an exchange of packet number m, behind number l. */
  lemma EndsNumbered(l: seqno, m: seqno, p: seq<byte>, queued: bool)
    requires |p| <= 2048 && Inc(l) == m
    ensures var f := Frame(m, 7, 0, p);
            var e := Endpoint(Inc(m), 7, l, 6, 0, 0, true, [f]);
            && Send(Endpoint(m, 7, l, WINSIZE, 0, 0, true, []), 0, p) == Sent(e, [Data(f)], true)
            && Receive(Endpoint(0, l, 7, WINSIZE, m, 0, true, []), m, 7, queued) ==
               Sent(Endpoint(0, m, 7, WINSIZE, Inc(m), 0, queued, []), [Ack(m)], true)
            && TakeAck(e, m) == Endpoint(Inc(m), 7, m, WINSIZE, 0, 0, true, [])
  {
    var f := Frame(m, 7, 0, p);
    assert [] + [f] == [f] && [f][1..] == [];
    assert Reach(Endpoint(Inc(m), 7, l, 6, 0, 0, true, [f]), m) == 1;
  }

  lemma Numbers(n: nat)
    ensures Inc((n + 7) % 8) == n % 8 && Inc(n % 8) == (n + 1) % 8 && (n + 1 + 7) % 8 == n % 8
  {}

  lemma EndsExchange(n: nat, p: seq<byte>, queued: bool)
    requires |p| <= 2048
    ensures var f := Frame(n % 8, 7, 0, p);
            var e := Endpoint((n + 1) % 8, 7, (n + 7) % 8, 6, 0, 0, true, [f]);
            && Send(Exchanged(n, p).a.end, 0, p) == Sent(e, [Data(f)], true)
            && Receive(Exchanged(n, p).b.end, n % 8, 7, queued) ==
               Sent(Endpoint(0, n % 8, 7, WINSIZE, (n + 1) % 8, 0, queued, []), [Ack(n % 8)], true)
            && TakeAck(e, n % 8) == Exchanged(n + 1, p).a.end
  {
    Numbers(n);
    hide Times, Send, Receive, TakeAck, Inc;
    EndsNumbered((n + 7) % 8, n % 8, p, queued);
  }

  lemma ExchangeOne(n: nat, p: seq<byte>)
    requires |p| <= 2048
    ensures Next(Next(Next(Exchanged(n, p), Exchange(p)[0]), Exchange(p)[1]), Exchange(p)[2]) == Exchanged(n + 1, p)
  {
    EndsExchange(n, p, true);
    TimesNext(n, Item(0, p));
    hide Times, Send, Receive, TakeAck;
    var s1 := Next(Exchanged(n, p), Exchange(p)[0]);
    assert s1.a.out == [Flight(Data(Frame(n % 8, 7, 0, p)), n, 0)];
    var s2 := Next(s1, Exchange(p)[1]);
    assert s2.a == s1.a.(out := []) && s2.b.out == [Flight(Ack(n % 8), 0, n + 1)];
  }

  lemma RunExchange(s: System, p: seq<byte>)
    ensures GoBackN.Run(s, Exchange(p)) == Next(Next(Next(s, Exchange(p)[0]), Exchange(p)[1]), Exchange(p)[2])
  {
    RunOfThree(s, Exchange(p));
  }

  lemma RunOfThree(s: System, acts: seq<Action>)
    requires |acts| == 3
    ensures GoBackN.Run(s, acts) == Next(Next(Next(s, acts[0]), acts[1]), acts[2])
  {
    hide Next;
    assert acts[1..][0] == acts[1] && acts[1..][1..] == [acts[2]] && [acts[2]][1..] == [];
    var s2 := Next(Next(s, acts[0]), acts[1]);
    assert GoBackN.Run(s, acts) == GoBackN.Run(Next(s, acts[0]), acts[1..]);
    assert GoBackN.Run(Next(s, acts[0]), acts[1..]) == GoBackN.Run(s2, [acts[2]]);
    assert GoBackN.Run(s2, [acts[2]]) == GoBackN.Run(Next(s2, acts[2]), []);
  }

  lemma {:induction false} RunThen(s: System, a: seq<Action>, b: seq<Action>)
    ensures GoBackN.Run(s, a + b) == GoBackN.Run(GoBackN.Run(s, a), b)
    decreases |a|
  {
    hide Next;
    if a == [] {
      assert a + b == b;
    } else {
      assert (a + b)[1..] == a[1..] + b;
      RunThen(Next(s, a[0]), a[1..], b);
    }
  }

  lemma {:induction false} RunExchanges(n: nat, p: seq<byte>)
    requires |p| <= 2048
    ensures GoBackN.Run(Init(WINSIZE, true, true), Exchanges(n, p)) == Exchanged(n, p)
    decreases n
  {
    if n == 0 {
      assert Exchanged(0, p) == Init(WINSIZE, true, true);
    } else {
      RunExchanges(n - 1, p);
      RunThen(Init(WINSIZE, true, true), Exchanges(n - 1, p), Exchange(p));
      RunExchange(Exchanged(n - 1, p), p);
      ExchangeOne(n - 1, p);
    }
  }

  /** The client's ring after n packets it has not read. */
  function Stored(n: nat, p: seq<byte>): StpRxRing.History
    ensures Stored(n, p).readP == 0 && |Stored(n, p).queue| < BUFFER_SIZE
  {
    if n == 0 then StpRxRing.History(0, [], [], []) else StpRxRing.Apply(Stored(n - 1, p), StpRxRing.Adding(p))
  }

  /** The case does arise, from reset: seven full packets are delivered and acknowledged, and the client reads none; the
      eighth finds no room in its ring, and its acknowledgement is lost. */
  lemma UnansweredReachable()
    ensures var p := Full();
            var last := [Action.Sending(true, 0, p), Action.Delivering(true, false), Action.Losing(false, 0)];
            var s := GoBackN.Run(Init(WINSIZE, true, true), Exchanges(7, p) + last);
            && Unanswered(s) && Inv(WINSIZE, s) && s.a.end.retries == 0
            && |Stored(7, p).accepted| == 7 * |p| && Stored(8, p) == Stored(7, p)
  {
    var p := Full();
    var last := [Action.Sending(true, 0, p), Action.Delivering(true, false), Action.Losing(false, 0)];
    EighthRefused(p);
    LastUnanswered(p);
    hide *;
    InitInv(WINSIZE, true, true);
    RunKeeps(WINSIZE, Init(WINSIZE, true, true), Exchanges(7, p) + last);
    RunExchanges(7, p);
    RunThen(Init(WINSIZE, true, true), Exchanges(7, p), last);
    RunOfThree(Exchanged(7, p), last);
  }

  lemma {:induction false} AllStored(n: nat, p: seq<byte>)
    requires n * |p| < BUFFER_SIZE
    ensures |Stored(n, p).queue| == |Stored(n, p).accepted| == n * |p|
  {
    if n > 0 {
      assert n * |p| == (n - 1) * |p| + |p|;
      AllStored(n - 1, p);
    }
  }

  lemma EighthRefused(p: seq<byte>)
    requires |p| == 2048
    ensures |Stored(7, p).accepted| == 7 * |p| && Stored(8, p) == Stored(7, p)
  {
    AllStored(7, p);
  }

  lemma LastUnanswered(p: seq<byte>)
    requires |p| <= 2048
    ensures var s1 := Next(Exchanged(7, p), Action.Sending(true, 0, p));
            var s := Next(Next(s1, Action.Delivering(true, false)), Action.Losing(false, 0));
            Unanswered(s) && s.a.end.retries == 0
  {
    EndsExchange(7, p, false);
    hide Send, Receive, TakeAck;
    var s1 := Next(Exchanged(7, p), Action.Sending(true, 0, p));
    assert s1.a.out == [Flight(Data(Frame(7, 7, 0, p)), 7, 0)] && |s1.a.sent| == 8;
    var s2 := Next(s1, Action.Delivering(true, false));
    assert s2.a == s1.a.(out := []) && s2.b.out == [Flight(Ack(7), 0, 8)] && |s2.b.got| == 8;
  }
}
