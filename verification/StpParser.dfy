/** The full-set receive parser: a byte-at-a-time reference machine, and the driver's loop, which copies
    payloads in blocks and may stop in the middle of anything when its input runs out. */
module StpParser {
  import opened Bytes
  import opened StpFrame

  datatype Mode =
    | Sync | Nak | Length | Checksum | Payload | Crc1 | Crc2
    | Resync1 | Resync2 | Resync3 | Resync4
    | FwMsg

  type task = t: int | 0 <= t < 8

  datatype Event =
    | Packet(num: seqno, ack: seqno, typ: task, payload: seq<byte>)
    | AckOnly(ack: seqno)

  datatype Parser = Parser(
    mode: Mode,
    prev: Mode,         // the state left by the last recorded change
    head: seq<byte>,    // header bytes seen of the packet under way
    num: seqno,
    ack: seqno,
    typ: task,
    length: nat,
    data: seq<byte>,    // payload bytes seen of the packet under way
    crcLow: byte)

  datatype Fed = Fed(parser: Parser, events: seq<Event>, ok: bool)

  const MAX_TASK_NUM := 9
  const RESYNC_BYTE: byte := 127

  function Goto(p: Parser, next: Mode): Parser {
    p.(prev := p.mode, mode := next)
  }

  /** What every reachable parser state satisfies. */
  predicate WellFormed(p: Parser) {
    && (p.mode == Nak ==> |p.head| == 1)
    && (p.mode == Length ==> |p.head| == 2)
    && (p.mode == Checksum ==> |p.head| == 3 && p.length <= MAX_PAYLOAD)
    && (p.mode !in {Nak, Length, Checksum} ==> p.head == [])
    && (p.mode == Payload ==> |p.data| < p.length <= MAX_PAYLOAD)
    && (p.mode in {Crc1, Crc2} ==> 1 <= |p.data| == p.length <= MAX_PAYLOAD)
    && (p.mode in {Payload, Crc1, Crc2} ==> p.typ != STP_TASK && p.typ != INFO_TASK)
    && (p.mode !in {Payload, Crc1, Crc2} ==> p.data == [])
  }

  const Fresh := Parser(Sync, Sync, [], 0, 0, 0, 0, [], 0)

  /** One byte. A result that is not ok also throws away the rest of the input it came in. */
  function Step(crc: Crc, p: Parser, b: byte): (r: Fed)
    requires WellFormed(p)
    ensures WellFormed(r.parser)
    ensures |r.events| <= 1
    ensures forall e :: e in r.events ==> e.Packet? ==>
              1 <= |e.payload| <= MAX_PAYLOAD && e.typ != STP_TASK && e.typ != INFO_TASK
  {
    match p.mode
    case Resync1 => Fed(Goto(p, if b == RESYNC_BYTE then Resync2 else Resync1), [], true)
    case Resync2 => Fed(Goto(p, if b == RESYNC_BYTE then Resync3 else Resync1), [], true)
    case Resync3 => Fed(Goto(p, if b == RESYNC_BYTE then Resync4 else Resync1), [], true)
    case Resync4 => Fed(Goto(p, if b == RESYNC_BYTE then Sync else Resync1), [], true)
    case Sync =>
      if 128 <= b < 192 then
        Fed(Goto(p, Nak).(num := b / 8 % 8, ack := b % 8, head := [b]), [], true)
      else if b == RESYNC_BYTE && p.prev == Resync4 then
        Fed(p, [], true)
      else if b == RESYNC_BYTE then
        Fed(Goto(p, Resync2), [], true)
      else
        Fed(p, [], true)
    case Nak =>
      var t: task := b / 16 % 8;
      var q := p.(typ := t, length := b % 16 * 256, head := p.head + [b]);
      Fed(Goto(q, Length), [], true)
    case Length =>
      var n := p.length + b;
      var q := Goto(p, Checksum).(length := n);
      if n > MAX_PAYLOAD then Fed(Goto(q, Resync1).(head := []), [], false)
      else Fed(q.(head := p.head + [b]), [], true)
    case Checksum =>
      if p.typ == STP_TASK || p.typ == INFO_TASK then
        Fed(Goto(p, FwMsg).(head := []), [], true)
      else if Sum(p.head[0], p.head[1], p.head[2]) == b then
        if p.length == 0 then Fed(Goto(p, Sync).(head := []), [AckOnly(p.ack)], true)
        else Fed(Goto(p, Payload).(head := []), [], true)
      else
        Fed(Goto(p, Resync1).(head := []), [], false)
    case Payload =>
      var d := p.data + [b];
      Fed(p.(data := d, mode := if |d| == p.length then Crc1 else Payload), [], true)
    case Crc1 => Fed(Goto(p, Crc2).(crcLow := b), [], true)
    case Crc2 =>
      var q := Goto(p, Sync).(data := []);
      if crc(p.data) == p.crcLow + b * 256 then
        Fed(q, [Packet(p.num, p.ack, p.typ, p.data)], true)
      else
        Fed(Goto(q, Resync1), [], false)
    case FwMsg => Fed(p, [], true)
  }

  function Prepend(es: seq<Event>, r: Fed): Fed {
    r.(events := es + r.events)
  }

  /** A whole input buffer. */
  function Feed(crc: Crc, p: Parser, s: seq<byte>): (r: Fed)
    requires WellFormed(p)
    ensures WellFormed(r.parser)
    decreases |s|
  {
    if s == [] || p.mode == FwMsg then Fed(p, [], true)
    else
      var r := Step(crc, p, s[0]);
      if r.ok then Prepend(r.events, Feed(crc, r.parser, s[1..])) else r
  }

  lemma FeedNext(crc: Crc, p: Parser, s: seq<byte>)
    requires WellFormed(p) && s != [] && p.mode != FwMsg
    ensures var r := Step(crc, p, s[0]);
            Feed(crc, p, s) == if r.ok then Prepend(r.events, Feed(crc, r.parser, s[1..])) else r
  {}

  lemma PrependPrepend(a: seq<Event>, b: seq<Event>, r: Fed)
    ensures Prepend(a, Prepend(b, r)) == Prepend(a + b, r)
    ensures Prepend([], r) == r
  {
    assert a + (b + r.events) == a + b + r.events;
  }

  /** Two buffers in a row, the first without an error, act as one. */
  lemma {:induction false} FeedAppend(crc: Crc, p: Parser, a: seq<byte>, b: seq<byte>)
    requires WellFormed(p)
    ensures var r := Feed(crc, p, a);
            Feed(crc, p, a + b) == if r.ok then Prepend(r.events, Feed(crc, r.parser, b)) else r
    decreases |a|
  {
    if a == [] {
      assert a + b == b;
    } else if p.mode == FwMsg {
    } else {
      var r := Step(crc, p, a[0]);
      assert (a + b)[1..] == a[1..] + b;
      if r.ok {
        FeedAppend(crc, r.parser, a[1..], b);
        var t := Feed(crc, r.parser, a[1..]);
        PrependPrepend(r.events, t.events, Feed(crc, t.parser, b));
      }
    }
  }

  /** The block copy: `x`, no longer than what the payload still wants, taken in one go. */
  function TakeBlock(p: Parser, x: seq<byte>): (q: Parser)
    requires WellFormed(p) && p.mode == Payload && |p.data| + |x| <= p.length
    ensures WellFormed(q)
  {
    var d := p.data + x;
    p.(data := d, mode := if |d| == p.length then Crc1 else Payload)
  }

  /** A block copy is the same as its bytes one by one. */
  lemma {:induction false} FeedBlock(crc: Crc, p: Parser, x: seq<byte>)
    requires WellFormed(p) && p.mode == Payload && |p.data| + |x| <= p.length
    ensures Feed(crc, p, x) == Fed(TakeBlock(p, x), [], true)
    decreases |x|
  {
    if x == [] {
      assert p.data + x == p.data;
    } else {
      var r := Step(crc, p, x[0]);
      assert p.data + [x[0]] + x[1..] == p.data + x;
      if |x| == 1 {
        assert Feed(crc, r.parser, x[1..]) == Fed(r.parser, [], true);
      } else {
        FeedBlock(crc, r.parser, x[1..]);
      }
    }
  }

  /** No input makes the parser report a payload outside 1..2048 bytes or of a firmware task. */
  lemma {:induction false} FeedEvents(crc: Crc, p: Parser, s: seq<byte>)
    requires WellFormed(p)
    ensures forall e :: e in Feed(crc, p, s).events ==> e.Packet? ==>
              1 <= |e.payload| <= MAX_PAYLOAD && e.typ != STP_TASK && e.typ != INFO_TASK
    decreases |s|
  {
    if s != [] && p.mode != FwMsg {
      var r := Step(crc, p, s[0]);
      if r.ok {
        FeedEvents(crc, r.parser, s[1..]);
      }
    }
  }

  class FullModeParser {
    const crc: Crc
    const rxBuf: array<byte>
    var mode: Mode
    var prev: Mode
    var num: seqno
    var ack: seqno
    var typ: task
    var length: nat
    var crcLow: byte
    var rxCounter: nat
    var events: seq<Event>   // packets and acknowledgements handed on so far

    ghost function State(): Parser
      requires rxBuf.Length == BUFFER_SIZE && rxCounter <= BUFFER_SIZE
      reads this, rxBuf
    {
      Parser(mode, prev,
             match mode case Nak => rxBuf[..1] case Length => rxBuf[..2] case Checksum => rxBuf[..3] case _ => [],
             num, ack, typ, length,
             if mode in {Payload, Crc1, Crc2} then rxBuf[..rxCounter] else [],
             crcLow)
    }

    ghost predicate Valid()
      reads this, rxBuf
    {
      rxBuf.Length == BUFFER_SIZE && rxCounter <= BUFFER_SIZE && WellFormed(State())
    }

    constructor (crc: Crc)
      ensures Valid() && State() == Fresh && events == [] && this.crc == crc && fresh(rxBuf)
    {
      this.crc := crc;
      rxBuf := new byte[BUFFER_SIZE];
      mode, prev, num, ack, typ, length, crcLow, rxCounter, events := Sync, Sync, 0, 0, 0, 0, 0, 0, [];
    }

    method ChangeState(next: Mode)
      modifies this`mode, this`prev
      ensures mode == next && prev == old(mode)
    {
      prev := mode;
      mode := next;
    }

    /** Between packets: looking for a header or for four resync bytes in a row. */
    method SyncByte(b: byte)
      requires Valid() && mode in {Sync, Resync1, Resync2, Resync3, Resync4}
      modifies this, rxBuf
      ensures Valid()
      ensures Step(crc, old(State()), b) == Fed(State(), [], true) && events == old(events)
    {
      match mode {
        case Resync1 => ChangeState(if b == RESYNC_BYTE then Resync2 else Resync1);
        case Resync2 => ChangeState(if b == RESYNC_BYTE then Resync3 else Resync1);
        case Resync3 => ChangeState(if b == RESYNC_BYTE then Resync4 else Resync1);
        case Resync4 => ChangeState(if b == RESYNC_BYTE then Sync else Resync1);
        case Sync =>
          if 128 <= b < 192 {
            ChangeState(Nak);
            num := b / 8 % 8;
            ack := b % 8;
            rxBuf[0] := b;
          } else if b == RESYNC_BYTE && prev == Resync4 {
            // one more byte of the pattern just matched
          } else if b == RESYNC_BYTE {
            ChangeState(Resync2);
          }
      }
    }

    method TypeByte(b: byte)
      requires Valid() && mode == Nak
      modifies this, rxBuf
      ensures Valid()
      ensures Step(crc, old(State()), b) == Fed(State(), [], true) && events == old(events)
    {
      typ := b / 16 % 8;
      length := b % 16 * 256;
      rxBuf[1] := b;
      assert rxBuf[..2] == old(rxBuf[..1]) + [b];
      if typ >= MAX_TASK_NUM {
        assert false;   // a 3-bit type is always a task
      }
      ChangeState(Length);
    }

    method LengthByte(b: byte) returns (ok: bool)
      requires Valid() && mode == Length
      modifies this, rxBuf
      ensures Valid()
      ensures Step(crc, old(State()), b) == Fed(State(), [], ok) && events == old(events)
    {
      ChangeState(Checksum);
      length := length + b;
      if length > MAX_PAYLOAD {
        ChangeState(Resync1);
        rxCounter := 0;
        return false;
      }
      rxBuf[2] := b;
      assert rxBuf[..3] == old(rxBuf[..2]) + [b];
      ok := true;
    }

    method ChecksumByte(b: byte) returns (ok: bool)
      requires Valid() && mode == Checksum
      modifies this
      ensures Valid()
      ensures var r := Step(crc, old(State()), b);
              && State() == r.parser && events == old(events) + r.events && ok == r.ok
    {
      ok := true;
      if typ == STP_TASK || typ == INFO_TASK {
        ChangeState(FwMsg);
      } else if Sum(rxBuf[0], rxBuf[1], rxBuf[2]) == b {
        if length == 0 {
          events := events + [AckOnly(ack)];
          ChangeState(Sync);
        } else {
          ChangeState(Payload);
        }
      } else {
        ChangeState(Resync1);
        ok := false;
      }
      rxCounter := 0;
    }

    method CrcByte(b: byte) returns (ok: bool)
      requires Valid() && mode in {Crc1, Crc2}
      modifies this
      ensures Valid()
      ensures var r := Step(crc, old(State()), b);
              && State() == r.parser && events == old(events) + r.events && ok == r.ok
    {
      ok := true;
      if mode == Crc1 {
        ChangeState(Crc2);
        crcLow := b;
      } else {
        ChangeState(Sync);
        if crc(rxBuf[..rxCounter]) == crcLow + b * 256 {
          events := events + [Packet(num, ack, typ, rxBuf[..rxCounter])];
        } else {
          ChangeState(Resync1);
          rxCounter := 0;
          ok := false;
        }
      }
    }

    /** The states that look at one byte. */
    method OneByte(b: byte) returns (ok: bool)
      requires Valid() && mode != Payload && mode != FwMsg
      modifies this, rxBuf
      ensures Valid()
      ensures var r := Step(crc, old(State()), b);
              && State() == r.parser && events == old(events) + r.events && ok == r.ok
    {
      hide Step, WellFormed;
      ok := true;
      if mode == Nak {
        TypeByte(b);
      } else if mode == Length {
        ok := LengthByte(b);
      } else if mode == Checksum {
        ok := ChecksumByte(b);
      } else if mode == Crc1 || mode == Crc2 {
        ok := CrcByte(b);
      } else {
        SyncByte(b);
      }
    }

    /** Payload bytes, as many as there are or as the packet still wants. */
    method CopyBlock(block: seq<byte>)
      requires Valid() && mode == Payload && rxCounter + |block| <= length
      modifies this`mode, this`rxCounter, rxBuf
      ensures Valid() && State() == TakeBlock(old(State()), block)
    {
      forall k | 0 <= k < |block| { rxBuf[rxCounter + k] := block[k]; }
      assert rxBuf[..rxCounter + |block|] == old(rxBuf[..rxCounter]) + block;
      rxCounter := rxCounter + |block|;
      if rxCounter == length {
        mode := Crc1;
      }
    }

    /** What a pass of the loop in the payload state takes from the input. */
    method PayloadPass(rest: seq<byte>) returns (n: nat)
      requires Valid() && mode == Payload && rest != []
      modifies this`mode, this`rxCounter, rxBuf
      ensures Valid() && 0 < n <= |rest|
      ensures Feed(crc, old(State()), rest) == Feed(crc, State(), rest[n..])
    {
      hide Step, Feed, TakeBlock, WellFormed;
      PayloadRoom(State());
      var remain := length - rxCounter;
      if |rest| >= remain {
        n := remain;
        FeedBlockThen(crc, State(), rest, n);
        CopyBlock(rest[..n]);
      } else if |rest| + rxCounter >= BUFFER_SIZE {
        assert false;
      } else {
        n := |rest|;
        FeedBlockThen(crc, State(), rest, n);
        CopyBlock(rest[..n]);
      }
    }

    /** The driver's parser call. It returns -1 on a length, checksum or CRC error, dropping what follows. */
    method ParserDataInFullMode(input: seq<byte>) returns (ret: int)
      requires Valid()
      modifies this, rxBuf
      ensures Valid()
      ensures var r := Feed(crc, old(State()), input);
              && State() == r.parser && events == old(events) + r.events && ret == if r.ok then 0 else -1
    {
      hide Step, Feed, WellFormed, Prepend, Leads;
      ghost var goal := Feed(crc, State(), input);
      ghost var done: seq<Event> := [];
      LeadsStart(crc, State(), input);
      var p := 0;
      while p < |input| && mode != FwMsg
        invariant Valid() && p <= |input|
        invariant events == old(events) + done
        invariant Leads(crc, done, State(), input[p..], goal)
        decreases |input| - p
      {
        if mode == Payload {
          ghost var before := State();
          var n := PayloadPass(input[p..]);
          assert input[p..][n..] == input[p + n..];
          LeadsPast(crc, done, before, State(), input[p..], n, goal);
          p := p + n;
        } else {
          assert input[p..][1..] == input[p + 1..];
          LeadsByte(crc, done, State(), input[p..], goal);
          ghost var es := Step(crc, State(), input[p]).events;
          var ok := OneByte(input[p]);
          done := done + es;
          if !ok {
            return -1;
          }
          p := p + 1;
        }
      }
      LeadsEnd(crc, done, State(), input[p..], goal);
      ret := 0;
    }
  }

  /** With `done` reported, what is left to read ends where the whole input does. */
  ghost predicate Leads(crc: Crc, done: seq<Event>, p: Parser, rest: seq<byte>, goal: Fed)
    requires WellFormed(p)
  {
    goal == Prepend(done, Feed(crc, p, rest))
  }

  lemma LeadsStart(crc: Crc, p: Parser, s: seq<byte>)
    requires WellFormed(p)
    ensures Leads(crc, [], p, s[0..], Feed(crc, p, s))
  {
    assert s[0..] == s;
    PrependPrepend([], [], Feed(crc, p, s));
  }

  lemma LeadsByte(crc: Crc, done: seq<Event>, p: Parser, s: seq<byte>, goal: Fed)
    requires WellFormed(p) && Leads(crc, done, p, s, goal) && s != [] && p.mode != FwMsg
    ensures var r := Step(crc, p, s[0]);
            WellFormed(r.parser) &&
            if r.ok then Leads(crc, done + r.events, r.parser, s[1..], goal)
            else goal == Fed(r.parser, done + r.events, false)
  {
    FeedNext(crc, p, s);
    var r := Step(crc, p, s[0]);
    PrependPrepend(done, r.events, Feed(crc, r.parser, s[1..]));
  }

  lemma LeadsPast(crc: Crc, done: seq<Event>, p: Parser, q: Parser, s: seq<byte>, n: nat, goal: Fed)
    requires WellFormed(p) && WellFormed(q) && n <= |s|
    requires Leads(crc, done, p, s, goal) && Feed(crc, p, s) == Feed(crc, q, s[n..])
    ensures Leads(crc, done, q, s[n..], goal)
  {}

  lemma LeadsEnd(crc: Crc, done: seq<Event>, p: Parser, s: seq<byte>, goal: Fed)
    requires WellFormed(p) && Leads(crc, done, p, s, goal) && (s == [] || p.mode == FwMsg)
    ensures goal == Fed(p, done, true)
  {
    assert done + [] == done;
  }

  lemma PayloadRoom(p: Parser)
    requires WellFormed(p) && p.mode == Payload
    ensures |p.data| < p.length <= MAX_PAYLOAD
  {}

  lemma FeedBlockThen(crc: Crc, p: Parser, s: seq<byte>, n: nat)
    requires WellFormed(p) && p.mode == Payload && n <= |s| && |p.data| + n <= p.length
    ensures Feed(crc, p, s) == Feed(crc, TakeBlock(p, s[..n]), s[n..])
  {
    assert s == s[..n] + s[n..];
    FeedAppend(crc, p, s[..n], s[n..]);
    FeedBlock(crc, p, s[..n]);
  }
}
