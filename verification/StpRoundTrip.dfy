/** What one end puts on the wire is what the other end's parser reports, however the bytes are cut up. */
module StpRoundTrip {
  import opened Bytes
  import opened StpFrame
  import opened StpParser

  /** The packets the header can describe and the parser does not treat as firmware messages. */
  predicate Carried(f: Frame) {
    && f.typ < 8 && f.typ != STP_TASK && f.typ != INFO_TASK
    && 1 <= |f.payload| <= MAX_PAYLOAD
  }

  predicate Sendable(us: seq<Unit>) {
    forall u :: u in us ==> u.Data? ==> Carried(u.frame)
  }

  function Report(u: Unit): seq<Event>
    requires u.Data? ==> Carried(u.frame)
  {
    match u
    case Data(f) => [Packet(f.num, f.ack, f.typ, f.payload)]
    case Ack(a) => [AckOnly(a)]
    case Resync => []
  }

  function Reports(us: seq<Unit>): seq<Event>
    requires Sendable(us)
  {
    if us == [] then [] else Report(us[0]) + Reports(us[1..])
  }

  lemma FeedFour(crc: Crc, p: Parser, s: seq<byte>)
    requires WellFormed(p) && |s| == 4
    requires p.mode != FwMsg && Step(crc, p, s[0]).ok && Step(crc, p, s[0]).events == []
    requires var p1 := Step(crc, p, s[0]).parser;
             p1.mode != FwMsg && Step(crc, p1, s[1]).ok && Step(crc, p1, s[1]).events == []
    requires var p2 := Step(crc, Step(crc, p, s[0]).parser, s[1]).parser;
             p2.mode != FwMsg && Step(crc, p2, s[2]).ok && Step(crc, p2, s[2]).events == []
    requires var p3 := Step(crc, Step(crc, Step(crc, p, s[0]).parser, s[1]).parser, s[2]).parser;
             p3.mode != FwMsg
    ensures var p3 := Step(crc, Step(crc, Step(crc, p, s[0]).parser, s[1]).parser, s[2]).parser;
            Feed(crc, p, s) == Step(crc, p3, s[3])
  {
    hide Step, WellFormed;
    FeedNext(crc, p, s);
    var p1 := Step(crc, p, s[0]).parser;
    FeedNext(crc, p1, s[1..]);
    var p2 := Step(crc, p1, s[1..][0]).parser;
    FeedNext(crc, p2, s[2..]);
    assert s[1..][1..] == s[2..] && s[2..][1..] == s[3..] && s[3..][1..] == [];
    var p3 := Step(crc, p2, s[2..][0]).parser;
    FeedNext(crc, p3, s[3..]);
  }

  lemma FirstByte(crc: Crc, p: Parser, f: Frame)
    requires WellFormed(p) && p.mode == Sync
    ensures var h := Header(f);
            var r := Step(crc, p, h[0]);
            && r.ok && r.events == [] && r.parser.mode == Nak && r.parser.head == h[..1] && r.parser.data == []
            && r.parser.num == f.num && r.parser.ack == f.ack
  {}

  lemma TypeByteFields(typ: int, high: int)
    requires 0 <= typ < 8 && 0 <= high <= 8
    ensures var b := 16 * typ + high;
            b < 256 && b / 16 % 8 == typ && b % 16 == high
  {}

  lemma SecondByte(crc: Crc, p: Parser, f: Frame)
    requires WellFormed(p) && p.mode == Nak && p.head == Header(f)[..1] && Carried(f)
    ensures var h := Header(f);
            var r := Step(crc, p, h[1]);
            && r.ok && r.events == [] && r.parser.mode == Length && r.parser.head == h[..2] && r.parser.data == p.data
            && r.parser.num == p.num && r.parser.ack == p.ack && r.parser.typ == f.typ
            && r.parser.length == |f.payload| / 256 * 256
  {
    TypeByteFields(f.typ, |f.payload| / 256);
    var b := Header(f)[1];
    assert b == 16 * f.typ + |f.payload| / 256;
    hide Header;
  }

  lemma ThirdByte(crc: Crc, p: Parser, f: Frame)
    requires WellFormed(p) && p.mode == Length && p.head == Header(f)[..2] && Carried(f)
    requires p.length == |f.payload| / 256 * 256
    ensures var h := Header(f);
            var r := Step(crc, p, h[2]);
            && r.ok && r.events == [] && r.parser.mode == Checksum && r.parser.head == h[..3] && r.parser.data == p.data
            && r.parser.num == p.num && r.parser.ack == p.ack && r.parser.typ == p.typ
            && r.parser.length == |f.payload|
  {}

  lemma FourthByte(crc: Crc, p: Parser, f: Frame)
    requires WellFormed(p) && p.mode == Checksum && p.head == Header(f)[..3] && Carried(f)
    requires p.typ == f.typ && p.length == |f.payload|
    ensures var r := Step(crc, p, Header(f)[3]);
            && r.ok && r.events == [] && r.parser.mode == Payload && r.parser.data == p.data
            && r.parser.num == p.num && r.parser.ack == p.ack && r.parser.typ == p.typ
            && r.parser.length == p.length
  {
    var h := Header(f);
    assert h[3] == Sum(h[0], h[1], h[2]);
  }

  lemma HeaderParsed(crc: Crc, p: Parser, f: Frame)
    requires WellFormed(p) && p.mode == Sync && Carried(f)
    ensures var r := Feed(crc, p, Header(f));
            && r.ok && r.events == [] && r.parser.mode == Payload && r.parser.data == []
            && r.parser.num == f.num && r.parser.ack == f.ack && r.parser.typ == f.typ
            && r.parser.length == |f.payload|
  {
    var h := Header(f);
    assert |h| == 4;
    FirstByte(crc, p, f);
    var p1 := Step(crc, p, h[0]).parser;
    SecondByte(crc, p1, f);
    var p2 := Step(crc, p1, h[1]).parser;
    ThirdByte(crc, p2, f);
    var p3 := Step(crc, p2, h[2]).parser;
    FourthByte(crc, p3, f);
    hide Step, Feed, Header, WellFormed;
    FeedFour(crc, p, h);
  }

  lemma TrailerParsed(crc: Crc, p: Parser)
    requires WellFormed(p) && p.mode == Crc1
    ensures var r := Feed(crc, p, Trailer(crc, p.data));
            && r.ok && r.events == [Packet(p.num, p.ack, p.typ, p.data)] && r.parser.mode == Sync
  {
    var t := Trailer(crc, p.data);
    FeedNext(crc, p, t);
    var q := Step(crc, p, t[0]).parser;
    assert q.mode == Crc2 && q.data == p.data && q.crcLow == t[0];
    FeedNext(crc, q, t[1..]);
  }

  /** One data frame from its first byte to its last. */
  lemma FrameParsed(crc: Crc, p: Parser, f: Frame)
    requires WellFormed(p) && p.mode == Sync && Carried(f)
    ensures var r := Feed(crc, p, Encode(crc, f));
            r.ok && r.events == Report(Data(f)) && r.parser.mode == Sync
  {
    hide Step, Feed, Header, Trailer;
    HeaderParsed(crc, p, f);
    var q := Feed(crc, p, Header(f)).parser;
    FeedAppend(crc, p, Header(f), f.payload + Trailer(crc, f.payload));
    assert Encode(crc, f) == Header(f) + (f.payload + Trailer(crc, f.payload));
    FeedBlock(crc, q, f.payload);
    var q' := TakeBlock(q, f.payload);
    assert q'.data == f.payload;
    FeedAppend(crc, q, f.payload, Trailer(crc, f.payload));
    TrailerParsed(crc, q');
  }

  lemma AckParsed(crc: Crc, p: Parser, a: seqno)
    requires WellFormed(p) && p.mode == Sync
    ensures var r := Feed(crc, p, UnitBytes(crc, Ack(a)));
            r.ok && r.events == [AckOnly(a)] && r.parser.mode == Sync
  {
    var s := UnitBytes(crc, Ack(a));
    var p1 := Step(crc, p, s[0]).parser;
    assert p1.mode == Nak && p1.ack == a && p1.head == [s[0]];
    var p2 := Step(crc, p1, s[1]).parser;
    assert p2.mode == Length && p2.typ == 0 && p2.length == 0 && p2.head == [s[0], s[1]];
    var p3 := Step(crc, p2, s[2]).parser;
    assert p3.mode == Checksum && p3.length == 0 && p3.head == [s[0], s[1], s[2]];
    assert Step(crc, p3, s[3]).events == [AckOnly(a)] && Step(crc, p3, s[3]).parser.mode == Sync;
    hide Feed;
    FeedFour(crc, p, s);
  }

  /** How many bytes of the resync pattern a searching parser has matched. */
  function Matched(p: Parser): int {
    match p.mode
    case Sync => if p.prev == Resync4 then 4 else 0
    case Resync1 => 0
    case Resync2 => 1
    case Resync3 => 2
    case Resync4 => 3
    case _ => -1
  }

  /** From any searching state, four or more pattern bytes end in Sync, and further ones stay there. */
  lemma {:induction false} PatternSyncs(crc: Crc, p: Parser, n: nat)
    requires WellFormed(p) && p.mode in {Sync, Resync1, Resync2, Resync3, Resync4}
    requires Matched(p) + n >= 4
    ensures var r := Feed(crc, p, seq(n, _ => RESYNC_BYTE));
            r.ok && r.events == [] && r.parser.mode == Sync && Matched(r.parser) == 4
    decreases n
  {
    var s := seq(n, _ => RESYNC_BYTE);
    if n > 0 {
      FeedNext(crc, p, s);
      assert s[1..] == seq(n - 1, _ => RESYNC_BYTE);
      var q := Step(crc, p, s[0]).parser;
      PatternSyncs(crc, q, n - 1);
    }
  }

  lemma UnitParsed(crc: Crc, p: Parser, u: Unit)
    requires WellFormed(p) && p.mode == Sync && (u.Data? ==> Carried(u.frame))
    ensures var r := Feed(crc, p, UnitBytes(crc, u));
            r.ok && r.events == Report(u) && r.parser.mode == Sync
  {
    match u {
      case Data(f) => FrameParsed(crc, p, f);
      case Ack(a) => AckParsed(crc, p, a);
      case Resync =>
        PatternSyncs(crc, p, 4);
        assert UnitBytes(crc, u) == seq(4, _ => RESYNC_BYTE);
    }
  }

  lemma WireBytesCons(crc: Crc, us: seq<Unit>)
    requires us != []
    ensures WireBytes(crc, us) == UnitBytes(crc, us[0]) + WireBytes(crc, us[1..])
  {
    assert us == us[..1] + us[1..] && us[..1] == [us[0]];
    WireBytesAppend(crc, us[..1], us[1..]);
    WireBytesOne(crc, us[0]);
  }

  /** A whole wire, in one buffer. */
  lemma {:induction false} WireParsed(crc: Crc, p: Parser, us: seq<Unit>)
    requires WellFormed(p) && p.mode == Sync && Sendable(us)
    ensures var r := Feed(crc, p, WireBytes(crc, us));
            r.ok && r.events == Reports(us) && r.parser.mode == Sync
    decreases |us|
  {
    hide Step, UnitBytes, WireBytes, Report;
    if us == [] {
      assert WireBytes(crc, us) == [] by { WireEmpty(crc, us); }
    } else {
      WireBytesCons(crc, us);
      UnitParsed(crc, p, us[0]);
      var r := Feed(crc, p, UnitBytes(crc, us[0]));
      FeedAppend(crc, p, UnitBytes(crc, us[0]), WireBytes(crc, us[1..]));
      WireParsed(crc, r.parser, us[1..]);
    }
  }

  lemma WireEmpty(crc: Crc, us: seq<Unit>)
    requires us == []
    ensures WireBytes(crc, us) == []
  {}

  /** The same bytes delivered in any number of parser calls. */
  function FeedChunks(crc: Crc, p: Parser, chunks: seq<seq<byte>>): (r: Fed)
    requires WellFormed(p)
    ensures WellFormed(r.parser)
    decreases |chunks|
  {
    if chunks == [] then Fed(p, [], true)
    else
      var r := Feed(crc, p, chunks[0]);
      var t := FeedChunks(crc, r.parser, chunks[1..]);
      Fed(t.parser, r.events + t.events, r.ok && t.ok)
  }

  /** As long as the stream holds no error, where it is cut makes no difference. */
  lemma {:induction false} ChunkingIrrelevant(crc: Crc, p: Parser, chunks: seq<seq<byte>>)
    requires WellFormed(p) && Feed(crc, p, Flatten(chunks)).ok
    ensures FeedChunks(crc, p, chunks) == Feed(crc, p, Flatten(chunks))
    decreases |chunks|
  {
    hide Step;
    if chunks != [] {
      FeedAppend(crc, p, chunks[0], Flatten(chunks[1..]));
      var r := Feed(crc, p, chunks[0]);
      ChunkingIrrelevant(crc, r.parser, chunks[1..]);
    }
  }

  /** Round trip: every stream of sendable packets, acknowledgements and resync patterns, cut anywhere, is
      reported as exactly those packets and acknowledgements in order, without an error. */
  lemma RoundTrip(crc: Crc, p: Parser, us: seq<Unit>, chunks: seq<seq<byte>>)
    requires WellFormed(p) && p.mode == Sync && Sendable(us)
    requires Flatten(chunks) == WireBytes(crc, us)
    ensures var r := FeedChunks(crc, p, chunks);
            r.ok && r.events == Reports(us) && r.parser.mode == Sync
  {
    WireParsed(crc, p, us);
    ChunkingIrrelevant(crc, p, chunks);
  }

  /** A packet survives the link exactly when its type is a task other than the two firmware ones and its
      length is 1 to 2048: anything else the driver lets a caller send is not reported as sent. */
  lemma CarriedExactly(crc: Crc, f: Frame)
    ensures Carried(f) <==>
              && f.typ < 8
              && Feed(crc, Fresh, Encode(crc, f)).events == [Packet(f.num, f.ack, f.typ, f.payload)]
  {
    if Carried(f) {
      FrameParsed(crc, Fresh, f);
    } else if f.typ < 8 {
      FeedEvents(crc, Fresh, Encode(crc, f));
      var e := Packet(f.num, f.ack, f.typ, f.payload);
      assert e in [e];
    }
  }

  /** A parser thrown back to Resync1 by an error parses everything the retransmission timer sends next. */
  lemma ResendParsed(crc: Crc, p: Parser, us: seq<Unit>, chunks: seq<seq<byte>>)
    requires WellFormed(p) && p.mode in {Sync, Resync1, Resync2, Resync3, Resync4} && Sendable(us)
    requires Flatten(chunks) == WireBytes(crc, [Resync] + us)
    ensures var r := FeedChunks(crc, p, chunks);
            r.ok && r.events == Reports(us) && r.parser.mode == Sync
  {
    hide Step, WireBytes;
    var pat := seq(4, _ => RESYNC_BYTE);
    PatternSyncs(crc, p, 4);
    var q := Feed(crc, p, pat).parser;
    WireParsed(crc, q, us);
    WireBytesAppend(crc, [Resync], us);
    WireBytesOne(crc, Resync);
    assert UnitBytes(crc, Resync) == pat;
    FeedAppend(crc, p, pat, WireBytes(crc, us));
    ChunkingIrrelevant(crc, p, chunks);
  }

  // ---------- searching ----------

  /** How many pattern bytes `s` ends with. */
  function Run(s: seq<byte>): (n: nat)
    ensures n <= |s|
  {
    if s != [] && s[|s| - 1] == 127 then Run(s[..|s| - 1]) + 1 else 0
  }

  /** Four pattern bytes in a row end nowhere in `s`. */
  predicate Patternless(s: seq<byte>) {
    forall n :: 0 <= n <= |s| ==> Run(s[..n]) < 4
  }

  lemma FeedLast(crc: Crc, p: Parser, s: seq<byte>, b: byte)
    requires WellFormed(p) && Feed(crc, p, s).ok && Feed(crc, p, s).parser.mode != FwMsg
    ensures var q := Feed(crc, p, s);
            var r := Step(crc, q.parser, b);
            Feed(crc, p, s + [b]) == Fed(r.parser, q.events + r.events, r.ok)
  {
    var q := Feed(crc, p, s).parser;
    hide Step, WellFormed;
    FeedAppend(crc, p, s, [b]);
    FeedNext(crc, q, [b]);
    assert [b][1..] == [];
  }

  function Seeking(run: nat): Mode {
    match run case 0 => Resync1 case 1 => Resync2 case 2 => Resync3 case _ => Resync4
  }

  lemma SeekingStep(crc: Crc, p: Parser, run: nat, b: byte)
    requires WellFormed(p) && run < 4 && p.mode == Seeking(run)
    ensures var r := Step(crc, p, b);
            && r.ok && r.events == []
            && r.parser.mode == if b != 127 then Resync1 else if run == 3 then Sync else Seeking(run + 1)
  {}

  lemma SeekingSearches(run: nat)
    ensures Seeking(run) != FwMsg && Seeking(0) == Resync1
  {}

  lemma RunNext(t: seq<byte>, b: byte)
    ensures Run(t + [b]) == if b == 127 then Run(t) + 1 else 0
  {
    assert (t + [b])[..|t|] == t;
  }

  lemma PatternlessBefore(t: seq<byte>, b: byte)
    requires Patternless(t + [b])
    ensures Patternless(t) && Run(t) < 4 && Run(t + [b]) < 4
  {
    var s := t + [b];
    hide Run;
    forall n | 0 <= n <= |t| ensures Run(t[..n]) < 4 { assert t[..n] == s[..n]; }
    assert t[..|t|] == t && s[..|s|] == s;
  }

  lemma FeedNothing(crc: Crc, p: Parser, none: seq<byte>)
    requires WellFormed(p) && none == []
    ensures Feed(crc, p, none) == Fed(p, [], true) && Run(none) == 0
  {}

  /** A parser that lost its place reports nothing and stays lost, counting pattern bytes, until four come in a row. */
  lemma {:induction false} Searching(crc: Crc, p: Parser, s: seq<byte>)
    requires WellFormed(p) && p.mode == Resync1 && Patternless(s)
    ensures var r := Feed(crc, p, s);
            && r.ok && r.events == []
            && r.parser.mode == Seeking(Run(s))
    decreases |s|
  {
    hide *;
    if s == [] {
      FeedNothing(crc, p, s);
      SeekingSearches(0);
    } else {
      var t, b := s[..|s| - 1], s[|s| - 1];
      assert s == t + [b];
      PatternlessBefore(t, b);
      RunNext(t, b);
      Searching(crc, p, t);
      SeekingStep(crc, Feed(crc, p, t).parser, Run(t), b);
      SeekingSearches(Run(t));
      FeedLast(crc, p, t, b);
    }
  }

  /** And the fourth finds it again, whatever came before. */
  lemma Found(crc: Crc, p: Parser, s: seq<byte>)
    requires WellFormed(p) && p.mode == Resync1 && Patternless(s) && Run(s) == 3
    ensures var r := Feed(crc, p, s + [127]);
            r.ok && r.events == [] && r.parser.mode == Sync
  {
    Searching(crc, p, s);
    FeedLast(crc, p, s, 127);
  }

  /** In Sync, what starts neither a header nor the pattern is skipped; a lone pattern byte loses the place. */
  lemma {:induction false} Skipped(crc: Crc, p: Parser, g: seq<byte>)
    requires WellFormed(p) && p.mode == Sync && forall k :: 0 <= k < |g| ==> !(128 <= g[k] < 192) && g[k] != 127
    ensures Feed(crc, p, g) == Fed(p, [], true)
    decreases |g|
  {
    if g != [] {
      FeedNext(crc, p, g);
      Skipped(crc, p, g[1..]);
    }
  }

  lemma StrayByte(crc: Crc, p: Parser, b: byte)
    requires WellFormed(p) && p.mode == Sync && p.prev != Resync4 && b != 127
    ensures var r := Feed(crc, p, [127, b]);
            r.ok && r.events == [] && r.parser.mode == Resync1
  {
    FeedNext(crc, p, [127, b]);
    var q := Step(crc, p, 127).parser;
    assert [127, b][1..] == [b] && [b][1..] == [];
    FeedNext(crc, q, [b]);
  }

  // ---------- what is not reported ----------

  function Word(low: int, high: int): int {
    low + 256 * high
  }

  function LowByte(a: int, b: int, c: int): int {
    (a + b + c) % 256
  }

  /** The 12 bits of a header's length. */
  function LengthIn(b1: int, b2: int): int {
    b1 % 16 * 256 + b2
  }

  /** The four bytes of a header with these fields and the right checksum. Bit 7 of the second is not looked at. */
  predicate HeaderOf(h: seq<byte>, num: int, ack: int, typ: int, length: int) {
    && |h| == 4
    && h[0] == 128 + 8 * num + ack && 0 <= num < 8 && 0 <= ack < 8
    && h[1] / 16 % 8 == typ && LengthIn(h[1], h[2]) == length
    && h[3] == LowByte(h[0], h[1], h[2])
  }

  lemma HeaderOne(crc: Crc, p: Parser, b: byte)
    requires WellFormed(p) && p.mode == Sync && 128 <= b < 192
    ensures var r := Step(crc, p, b);
            && r.ok && r.events == [] && r.parser.mode == Nak && r.parser.head == [b] && r.parser.data == []
            && b == 128 + 8 * r.parser.num + r.parser.ack
  {}

  lemma HeaderBytes(crc: Crc, p: Parser, h: seq<byte>)
    requires WellFormed(p) && p.mode == Sync && |h| == 4 && 128 <= h[0] < 192
    ensures var p1 := Step(crc, p, h[0]).parser;
            var r2 := Step(crc, p1, h[1]);
            var r3 := Step(crc, r2.parser, h[2]);
            && Step(crc, p, h[0]).ok && Step(crc, p, h[0]).events == [] && p1.mode == Nak
            && r2.ok && r2.events == [] && r2.parser.mode == Length
            && r3.events == [] && r3.parser.data == []
            && if LengthIn(h[1], h[2]) > 2048 then !r3.ok && r3.parser.mode == Resync1
               else
                 && r3.ok && r3.parser.mode == Checksum && r3.parser.head == h[..3]
                 && r3.parser.num == h[0] / 8 % 8 && r3.parser.ack == h[0] % 8
                 && r3.parser.typ == h[1] / 16 % 8 && r3.parser.length == LengthIn(h[1], h[2])
  {
    var p1 := Step(crc, p, h[0]).parser;
    assert p1.mode == Nak && p1.head == [h[0]];
    var p2 := Step(crc, p1, h[1]).parser;
    assert p2.mode == Length && p2.head == [h[0], h[1]] && p2.length == LengthIn(h[1], 0);
  }

  lemma FourthDecides(crc: Crc, p: Parser, h: seq<byte>)
    requires WellFormed(p) && p.mode == Checksum && |h| == 4 && p.head == h[..3]
    ensures var r := Step(crc, p, h[3]);
            if p.typ == 5 || p.typ == 6 then r.ok && r.events == [] && r.parser.mode == FwMsg
            else if h[3] != LowByte(h[0], h[1], h[2]) then !r.ok && r.events == [] && r.parser.mode == Resync1
            else if p.length == 0 then r.ok && r.events == [AckOnly(p.ack)] && r.parser.mode == Sync
            else
              && r.ok && r.events == [] && r.parser.mode == Payload && r.parser.data == []
              && r.parser.num == p.num && r.parser.ack == p.ack && r.parser.typ == p.typ && r.parser.length == p.length
  {
    assert p.head[0] == h[0] && p.head[1] == h[1] && p.head[2] == h[2];
  }

  lemma FeedThree(crc: Crc, p: Parser, s: seq<byte>)
    requires WellFormed(p) && |s| > 2 && p.mode != FwMsg && Step(crc, p, s[0]).ok && Step(crc, p, s[0]).events == []
    requires var p1 := Step(crc, p, s[0]).parser;
             p1.mode != FwMsg && Step(crc, p1, s[1]).ok && Step(crc, p1, s[1]).events == []
    requires var p2 := Step(crc, Step(crc, p, s[0]).parser, s[1]).parser;
             p2.mode != FwMsg && !Step(crc, p2, s[2]).ok
    ensures var p2 := Step(crc, Step(crc, p, s[0]).parser, s[1]).parser;
            Feed(crc, p, s) == Step(crc, p2, s[2])
  {
    hide Step, WellFormed;
    var p1 := Step(crc, p, s[0]).parser;
    FeedNext(crc, p, s);
    FeedNext(crc, p1, s[1..]);
    FeedNext(crc, Step(crc, p1, s[1]).parser, s[2..]);
    assert s[1..][1..] == s[2..];
  }

  /** Any four bytes that start like a header: which of them make one, and what the parser then does. */
  lemma HeaderExactly(crc: Crc, p: Parser, h: seq<byte>)
    requires WellFormed(p) && p.mode == Sync && |h| == 4 && 128 <= h[0] < 192
    ensures var r := Feed(crc, p, h);
            var num, ack, typ, length := h[0] / 8 % 8, h[0] % 8, h[1] / 16 % 8, LengthIn(h[1], h[2]);
            if length > 2048 then !r.ok && r.events == [] && r.parser.mode == Resync1
            else if typ == 5 || typ == 6 then r.ok && r.events == [] && r.parser.mode == FwMsg
            else if h[3] != LowByte(h[0], h[1], h[2]) then !r.ok && r.events == [] && r.parser.mode == Resync1
            else if length == 0 then r.ok && r.events == [AckOnly(ack)] && r.parser.mode == Sync
            else
              && r.ok && r.events == [] && r.parser.mode == Payload && r.parser.data == []
              && r.parser.num == num && r.parser.ack == ack && r.parser.typ == typ && r.parser.length == length
  {
    HeaderBytes(crc, p, h);
    hide Step, Feed, WellFormed, LengthIn, LowByte;
    if LengthIn(h[1], h[2]) > 2048 {
      FeedThree(crc, p, h);
    } else {
      FeedFour(crc, p, h);
      FourthDecides(crc, Step(crc, Step(crc, Step(crc, p, h[0]).parser, h[1]).parser, h[2]).parser, h);
    }
  }

  /** The trailer decides: a frame is reported exactly when its last two bytes are the CRC of its payload, low byte
      first, and otherwise nothing is, and the parser looks for the resync pattern. */
  lemma TrailerDecides(crc: Crc, p: Parser, f: Frame, t: seq<byte>)
    requires WellFormed(p) && p.mode == Sync && Carried(f) && |t| == 2
    ensures var r := Feed(crc, p, Header(f) + f.payload + t);
            if Word(t[0], t[1]) == crc(f.payload) then
              r.ok && r.events == [Packet(f.num, f.ack, f.typ, f.payload)] && r.parser.mode == Sync
            else
              !r.ok && r.events == [] && r.parser.mode == Resync1
  {
    hide Step, Feed, Header, TakeBlock, WellFormed;
    HeaderParsed(crc, p, f);
    var q := Feed(crc, p, Header(f)).parser;
    BlockWhole(q, f.payload);
    FeedBlock(crc, q, f.payload);
    TrailerStep(crc, TakeBlock(q, f.payload), t);
    FeedAppend(crc, p, Header(f), f.payload + t);
    assert Header(f) + f.payload + t == Header(f) + (f.payload + t);
    FeedAppend(crc, q, f.payload, t);
  }

  lemma BlockWhole(p: Parser, x: seq<byte>)
    requires WellFormed(p) && p.mode == Payload && p.data == [] && p.length == |x|
    ensures var q := TakeBlock(p, x);
            && q.mode == Crc1 && q.data == x && q.num == p.num && q.ack == p.ack && q.typ == p.typ
  {
    assert [] + x == x;
  }

  lemma TrailerStep(crc: Crc, p: Parser, t: seq<byte>)
    requires WellFormed(p) && p.mode == Crc1 && |t| == 2
    ensures var r := Feed(crc, p, t);
            if Word(t[0], t[1]) == crc(p.data) then
              r.ok && r.events == [Packet(p.num, p.ack, p.typ, p.data)] && r.parser.mode == Sync
            else
              !r.ok && r.events == [] && r.parser.mode == Resync1
  {
    FeedNext(crc, p, t);
    var q := Step(crc, p, t[0]).parser;
    assert q.mode == Crc2 && q.data == p.data && q.crcLow == t[0];
    FeedNext(crc, q, t[1..]);
  }

  /** The bytes `w` are what `e` reports: a header with a right checksum, and for a packet its payload and its CRC. */
  ghost predicate Genuine(crc: Crc, w: seq<byte>, e: Event) {
    match e
    case AckOnly(a) => |w| == 4 && HeaderOf(w, w[0] / 8 % 8, a, w[1] / 16 % 8, 0)
    case Packet(num, ack, typ, payload) =>
      && |w| == 6 + |payload|
      && HeaderOf(w[..4], num, ack, typ, |payload|)
      && w[4..4 + |payload|] == payload
      && Word(w[4 + |payload|], w[5 + |payload|]) == crc(payload)
  }

  function Tail(s: seq<byte>, n: nat): (t: seq<byte>)
    requires n <= |s|
    ensures |t| == n
  {
    s[|s| - n..]
  }

  lemma TailNext(s: seq<byte>, b: byte, n: nat)
    requires n <= |s|
    ensures Tail(s + [b], n + 1) == Tail(s, n) + [b]
  {}

  /** What the bytes read so far, `s`, end with. */
  ghost predicate Behind(p: Parser, s: seq<byte>) {
    match p.mode
    case Nak => |p.head| == 1 <= |s| && Tail(s, 1) == p.head && p.head[0] == 128 + 8 * p.num + p.ack
    case Length =>
      && |p.head| == 2 <= |s| && Tail(s, 2) == p.head && p.head[0] == 128 + 8 * p.num + p.ack
      && p.typ == p.head[1] / 16 % 8 && p.length == LengthIn(p.head[1], 0)
    case Checksum =>
      && |p.head| == 3 <= |s| && Tail(s, 3) == p.head && p.head[0] == 128 + 8 * p.num + p.ack
      && p.typ == p.head[1] / 16 % 8 && p.length == LengthIn(p.head[1], p.head[2])
    case Payload => BehindBody(p, s, 0)
    case Crc1 => BehindBody(p, s, 0)
    case Crc2 => BehindBody(p, s, 1) && s[|s| - 1] == p.crcLow
    case _ => true
  }

  ghost predicate BehindBody(p: Parser, s: seq<byte>, more: nat) {
    var n := 4 + |p.data| + more;
    && n <= |s|
    && HeaderOf(Tail(s, n)[..4], p.num, p.ack, p.typ, p.length)
    && Tail(s, n)[4..4 + |p.data|] == p.data
  }

  /** What a byte does to it, and that what it reports is what the bytes end with. */
  ghost predicate StaysBehind(crc: Crc, p: Parser, s: seq<byte>, b: byte)
    requires WellFormed(p)
  {
    var r := Step(crc, p, b);
    && Behind(r.parser, s + [b])
    && forall e :: e in r.events ==> exists n :: 0 <= n <= |s| + 1 && Genuine(crc, Tail(s + [b], n), e)
  }

  lemma TailOne(s: seq<byte>, b: byte)
    ensures Tail(s + [b], 1) == [b]
  {}

  lemma SearchBehind(crc: Crc, p: Parser, s: seq<byte>, b: byte)
    requires WellFormed(p) && Behind(p, s) && p.mode in {Sync, Resync1, Resync2, Resync3, Resync4, FwMsg}
    ensures StaysBehind(crc, p, s, b)
  {
    hide Tail, HeaderOf, Genuine, WellFormed;
    TailOne(s, b);
    if p.mode == Sync && 128 <= b < 192 {
      var q := Step(crc, p, b).parser;
      assert q.head == [b] && b == 128 + 8 * q.num + q.ack;
    }
  }

  lemma NakBehind(crc: Crc, p: Parser, s: seq<byte>, b: byte)
    requires WellFormed(p) && Behind(p, s) && p.mode == Nak
    ensures StaysBehind(crc, p, s, b)
  {
    TailNext(s, b, 1);
    var r := Step(crc, p, b);
    assert r.parser.mode == Length && r.parser.head == p.head + [b] && r.events == [];
    assert r.parser.head[1] == b && r.parser.length == LengthIn(b, 0) && r.parser.typ == b / 16 % 8;
    hide Tail, LengthIn, WellFormed, Step;
  }

  lemma LengthBehind(crc: Crc, p: Parser, s: seq<byte>, b: byte)
    requires WellFormed(p) && Behind(p, s) && p.mode == Length
    ensures StaysBehind(crc, p, s, b)
  {
    TailNext(s, b, 2);
    var r := Step(crc, p, b);
    if r.ok {
      assert r.parser.mode == Checksum && r.parser.head == p.head + [b] && r.events == [];
      assert r.parser.head[1] == p.head[1] && r.parser.head[2] == b;
      assert r.parser.length == LengthIn(p.head[1], 0) + b == LengthIn(p.head[1], b) && r.parser.typ == p.typ;
    } else {
      assert r.parser.mode == Resync1 && r.events == [];
    }
    hide Tail, LengthIn, WellFormed, Step;
  }

  lemma HeaderBuilt(p: Parser, s: seq<byte>, b: byte)
    requires p.mode == Checksum && Behind(p, s) && b == LowByte(p.head[0], p.head[1], p.head[2])
    ensures HeaderOf(p.head + [b], p.num, p.ack, p.typ, p.length)
  {
    hide Tail;
  }

  lemma ChecksumEnds(p: Parser, s: seq<byte>, b: byte)
    requires p.mode == Checksum && Behind(p, s)
    ensures |p.head| == 3 <= |s| && Tail(s + [b], 4) == p.head + [b]
  {
    TailNext(s, b, 3);
  }

  lemma AckGenuine(crc: Crc, w: seq<byte>, num: int, ack: seqno, typ: int)
    requires HeaderOf(w, num, ack, typ, 0)
    ensures Genuine(crc, w, AckOnly(ack))
  {
    hide LengthIn, LowByte;
  }

  lemma PayloadStarts(p: Parser, s: seq<byte>)
    requires p.mode == Payload && p.data == [] && |s| >= 4
    requires HeaderOf(Tail(s, 4), p.num, p.ack, p.typ, p.length)
    ensures Behind(p, s)
  {
    assert Tail(s, 4)[..4] == Tail(s, 4) && Tail(s, 4)[4..4] == [];
    hide HeaderOf, Tail;
  }

  lemma StaysSo(crc: Crc, p: Parser, s: seq<byte>, b: byte, n: nat)
    requires WellFormed(p) && n <= |s| + 1 && Behind(Step(crc, p, b).parser, s + [b])
    requires forall e :: e in Step(crc, p, b).events ==> Genuine(crc, Tail(s + [b], n), e)
    ensures StaysBehind(crc, p, s, b)
  {
    hide Behind, Step, Genuine, WellFormed, Tail;
  }

  lemma ChecksumBehind(crc: Crc, p: Parser, s: seq<byte>, b: byte)
    requires WellFormed(p) && Behind(p, s) && p.mode == Checksum
    ensures StaysBehind(crc, p, s, b)
  {
    hide *;
    ChecksumEnds(p, s, b);
    var w := p.head + [b];
    assert w[0] == p.head[0] && w[1] == p.head[1] && w[2] == p.head[2];
    assert w[..3] == p.head && w[3] == b;
    FourthDecides(crc, p, w);
    var r := Step(crc, p, b);
    if p.typ == 5 || p.typ == 6 || b != LowByte(p.head[0], p.head[1], p.head[2]) {
      AnyBehind(r.parser, s + [b]);
    } else {
      HeaderBuilt(p, s, b);
      if p.length == 0 {
        AckGenuine(crc, w, p.num, p.ack, p.typ);
        AnyBehind(r.parser, s + [b]);
      } else {
        PayloadStarts(r.parser, s + [b]);
      }
    }
    StaysSo(crc, p, s, b, 4);
  }

  lemma BodyBehind(crc: Crc, p: Parser, s: seq<byte>, b: byte)
    requires WellFormed(p) && Behind(p, s) && p.mode in {Payload, Crc1}
    ensures StaysBehind(crc, p, s, b)
  {
    TailNext(s, b, 4 + |p.data|);
    var w, v := Tail(s, 4 + |p.data|), Tail(s + [b], 5 + |p.data|);
    assert v[..4] == w[..4] && v[4..4 + |p.data|] == w[4..] && v[4..] == w[4..] + [b];
    hide Tail, HeaderOf;
  }

  lemma CrcBehind(crc: Crc, p: Parser, s: seq<byte>, b: byte)
    requires WellFormed(p) && Behind(p, s) && p.mode == Crc2
    ensures StaysBehind(crc, p, s, b)
  {
    TailNext(s, b, 5 + |p.data|);
    var w, v := Tail(s, 5 + |p.data|), Tail(s + [b], 6 + |p.data|);
    assert v[..4] == w[..4] && v[4..4 + |p.data|] == w[4..4 + |p.data|];
    assert v[4 + |p.data|] == w[4 + |p.data|] == s[|s| - 1] && v[5 + |p.data|] == b;
    hide Tail, HeaderOf;
    if Step(crc, p, b).events != [] {
      assert Genuine(crc, v, Packet(p.num, p.ack, p.typ, p.data));
    }
  }

  lemma StepBehind(crc: Crc, p: Parser, s: seq<byte>, b: byte)
    requires WellFormed(p) && Behind(p, s)
    ensures StaysBehind(crc, p, s, b)
  {
    hide StaysBehind, Behind, WellFormed, Step;
    match p.mode {
      case Nak => NakBehind(crc, p, s, b);
      case Length => LengthBehind(crc, p, s, b);
      case Checksum => ChecksumBehind(crc, p, s, b);
      case Payload => BodyBehind(crc, p, s, b);
      case Crc1 => BodyBehind(crc, p, s, b);
      case Crc2 => CrcBehind(crc, p, s, b);
      case _ => SearchBehind(crc, p, s, b);
    }
  }

  ghost predicate FoundIn(crc: Crc, s: seq<byte>, e: Event) {
    exists i: nat, n: nat :: i + n <= |s| && Genuine(crc, s[i..][..n], e)
  }

  lemma FoundAtEnd(crc: Crc, s: seq<byte>, n: nat, rest: seq<byte>, e: Event)
    requires n <= |s| && Genuine(crc, Tail(s, n), e)
    ensures FoundIn(crc, s + rest, e)
  {
    var i := |s| - n;
    assert (s + rest)[i..][..n] == Tail(s, n);
    hide Genuine;
    assert i + n <= |s + rest|;
  }

  lemma ErrorResyncs(crc: Crc, p: Parser, b: byte)
    requires WellFormed(p)
    ensures var r := Step(crc, p, b); !r.ok ==> r.parser.mode == Resync1
  {}

  lemma AnyBehind(p: Parser, s: seq<byte>)
    requires p.mode == Resync1 || p.mode == FwMsg || p.mode == Sync
    ensures Behind(p, s)
  {}

  lemma {:induction false} FeedBehind(crc: Crc, p: Parser, s: seq<byte>, x: seq<byte>)
    requires WellFormed(p) && Behind(p, s)
    ensures var r := Feed(crc, p, x);
            && Behind(r.parser, s + x)
            && forall e :: e in r.events ==> FoundIn(crc, s + x, e)
    decreases |x|
  {
    hide Step, Behind, WellFormed, FoundIn, Genuine, Tail;
    if x == [] {
      assert s + x == s;
    } else if p.mode == FwMsg {
      AnyBehind(p, s + x);
    } else {
      var r := Step(crc, p, x[0]);
      StepBehind(crc, p, s, x[0]);
      assert s + x == s + [x[0]] + x[1..];
      forall e | e in r.events ensures FoundIn(crc, s + x, e) {
        var n :| 0 <= n <= |s| + 1 && Genuine(crc, Tail(s + [x[0]], n), e);
        FoundAtEnd(crc, s + [x[0]], n, x[1..], e);
      }
      if r.ok {
        FeedBehind(crc, r.parser, s + [x[0]], x[1..]);
      } else {
        ErrorResyncs(crc, p, x[0]);
        AnyBehind(r.parser, s + x);
      }
    }
  }

  lemma FoundLonger(crc: Crc, s: seq<byte>, t: seq<byte>, e: Event)
    requires FoundIn(crc, s, e)
    ensures FoundIn(crc, s + t, e)
  {
    hide Genuine;
    var i: nat, n: nat :| i + n <= |s| && Genuine(crc, s[i..][..n], e);
    assert (s + t)[i..][..n] == s[i..][..n];
  }

  lemma {:induction false} ChunksBehind(crc: Crc, p: Parser, s: seq<byte>, chunks: seq<seq<byte>>)
    requires WellFormed(p) && Behind(p, s)
    ensures forall e :: e in FeedChunks(crc, p, chunks).events ==> FoundIn(crc, s + Flatten(chunks), e)
    decreases |chunks|
  {
    hide Feed, Behind, WellFormed, FoundIn;
    if chunks != [] {
      var c, rest := chunks[0], Flatten(chunks[1..]);
      FeedBehind(crc, p, s, c);
      var r := Feed(crc, p, c);
      ChunksBehind(crc, r.parser, s + c, chunks[1..]);
      assert s + Flatten(chunks) == s + c + rest;
      forall e | e in r.events ensures FoundIn(crc, s + Flatten(chunks), e) {
        FoundLonger(crc, s + c, rest, e);
      }
    }
  }

  /** Whatever bytes arrive, damaged or not, in any parser calls: every packet and acknowledgement reported stands in
      them as it was, with a right header checksum and a right CRC. */
  lemma OnlyGenuine(crc: Crc, chunks: seq<seq<byte>>)
    ensures forall e :: e in FeedChunks(crc, Fresh, chunks).events ==> FoundIn(crc, Flatten(chunks), e)
  {
    assert [] + Flatten(chunks) == Flatten(chunks);
    ChunksBehind(crc, Fresh, [], chunks);
  }
}
