/** The per-client receive ring: whole packets are added by the parser, any number of bytes is taken by the client. */
module StpRxRing {
  import opened Bytes
  import opened Ring
  import opened StpFrame

  function Min(a: nat, b: nat): nat {
    if a <= b then a else b
  }

  /** How many bytes a read of `length` returns when `used` bytes are stored from `readP` on. The part of the
      request that lies past the end of the buffer is kept in a 16-bit variable. */
  function Taken(readP: nat, used: nat, length: nat): (n: nat)
    requires readP < BUFFER_SIZE
    ensures n <= used && n <= length
  {
    var tail := BUFFER_SIZE - readP;
    if used < tail || length < tail then Min(length, used)
    else tail + Min((length - tail) % 65536, used - tail)
  }

  /** A read returns all it could exactly when the request past the end of the buffer fits 16 bits, or what is
      left of it after truncation still covers the bytes wrapped round. */
  lemma TakenIsMin(readP: nat, used: nat, length: nat)
    requires readP < BUFFER_SIZE && used < BUFFER_SIZE
    ensures var tail := BUFFER_SIZE - readP;
            Taken(readP, used, length) == Min(length, used) <==>
              used <= tail || length < tail + 65536 || used - tail <= (length - tail) % 65536
  {}

  /** Short of everything stored, on a request larger than everything stored. */
  lemma TakenFallsShort()
    ensures Taken(BUFFER_SIZE - 1, 11, 65537) == 1
  {}

  class RxRing {
    const buffer: array<byte>
    var readP: nat
    var writeP: nat

    ghost predicate Valid()
      reads this, buffer
    {
      buffer.Length == BUFFER_SIZE && readP < BUFFER_SIZE && writeP < BUFFER_SIZE
    }

    function Used(): nat
      requires readP < BUFFER_SIZE && writeP < BUFFER_SIZE
      reads this
    {
      Lap(writeP, readP, BUFFER_SIZE)
    }

    ghost function Queue(): seq<byte>
      requires Valid()
      reads this, buffer
    {
      Circ(buffer[..], readP, Used())
    }

    constructor ()
      ensures Valid() && Queue() == [] && fresh(buffer)
    {
      buffer := new byte[BUFFER_SIZE];
      readP, writeP := 0, 0;
    }

    /** Adds a packet whole, or, when it does not fit beside the one cell kept free, changes nothing at all. */
    method Add(data: seq<byte>) returns (ok: bool)
      requires Valid()
      modifies this, buffer
      ensures Valid()
      ensures ok <==> |old(Queue())| + |data| <= BUFFER_SIZE - 1
      ensures Queue() == if ok then old(Queue()) + data else old(Queue())
      ensures !ok ==> buffer[..] == old(buffer[..]) && readP == old(readP) && writeP == old(writeP)
    {
      var roomLeft: nat;
      if readP <= writeP {
        roomLeft := BUFFER_SIZE - writeP + readP - 1;
      } else {
        roomLeft := readP - writeP - 1;
      }
      if roomLeft < |data| {
        return false;
      }
      ghost var was, used := buffer[..], Used();
      var w := writeP;
      if |data| + w < BUFFER_SIZE {
        forall k | 0 <= k < |data| { buffer[w + k] := data[k]; }
        writeP := w + |data|;
      } else {
        var lastLen := BUFFER_SIZE - w;
        forall k | 0 <= k < lastLen { buffer[w + k] := data[k]; }
        forall k | 0 <= k < |data| - lastLen { buffer[k] := data[lastLen + k]; }
        writeP := |data| - lastLen;
      }
      assert buffer[..] == Put(was, w, data);
      CircPut(was, readP, used, data);
      ok := true;
    }

    method CopyOut(dst: array<byte>, off: nat, at: nat, n: nat)
      requires dst != buffer && off + n <= dst.Length && at + n <= buffer.Length
      modifies dst
      ensures dst[..] == Splice(old(dst[..]), off, buffer[at..at + n])
    {
      forall k | 0 <= k < n { dst[off + k] := buffer[at + k]; }
    }

    method CopyAround(dst: array<byte>, at: nat, head: nat)
      requires dst != buffer && at <= buffer.Length && head <= buffer.Length
      requires buffer.Length - at + head <= dst.Length
      modifies dst
      ensures dst[..] == Splice(old(dst[..]), 0, buffer[at..] + buffer[..head])
    {
      ghost var was := dst[..];
      var tail := buffer.Length - at;
      CopyOut(dst, 0, at, tail);
      CopyOut(dst, tail, 0, head);
      SplicePair(was, buffer[at..], buffer[..head]);
    }

    /** Takes up to `length` of the oldest bytes into the caller's buffer. */
    method Receive(dst: array<byte>, length: nat) returns (n: nat)
      requires Valid() && length <= dst.Length && dst != buffer
      modifies this`readP, dst
      ensures Valid()
      ensures n == Taken(old(readP), |old(Queue())|, length)
      ensures dst[..] == Splice(old(dst[..]), 0, old(Queue())[..n])
      ensures Queue() == old(Queue())[n..] && readP == Wrap(old(readP) + n, BUFFER_SIZE)
    {
      n := 0;
      var r := readP;
      ghost var used, q, buf := Used(), Queue(), buffer[..];
      assert |q| == used;
      hide Circ, Splice;
      if readP != writeP {
        if writeP > readP {
          n := Min(writeP - readP, length);
          CopyOut(dst, 0, r, n);
          readP := readP + n;
        } else {
          var tail := BUFFER_SIZE - readP;
          if tail > length {
            n := length;
            CopyOut(dst, 0, r, n);
            readP := readP + n;
          } else {
            var head := (length - tail) % 65536;
            head := Min(writeP, head);
            CopyAround(dst, r, head);
            readP := head;
            n := head + tail;
          }
        }
      }
      TakeFrom(buf, r, used, n);
    }
  }

  // ---------- whole runs ----------

  datatype Op = Adding(data: seq<byte>) | Taking(length: nat)

  /** The ring as a bounded queue with its history: what was accepted, what was handed out. */
  datatype History = History(readP: nat, queue: seq<byte>, accepted: seq<byte>, delivered: seq<byte>)

  function Apply(h: History, op: Op): History
    requires h.readP < BUFFER_SIZE && |h.queue| < BUFFER_SIZE
    ensures Apply(h, op).readP < BUFFER_SIZE && |Apply(h, op).queue| < BUFFER_SIZE
  {
    match op
    case Adding(d) =>
      if |h.queue| + |d| <= BUFFER_SIZE - 1 then h.(queue := h.queue + d, accepted := h.accepted + d) else h
    case Taking(len) =>
      var n := Taken(h.readP, |h.queue|, len);
      h.(readP := Wrap(h.readP + n, BUFFER_SIZE), queue := h.queue[n..], delivered := h.delivered + h.queue[..n])
  }

  function Run(h: History, ops: seq<Op>): History
    requires h.readP < BUFFER_SIZE && |h.queue| < BUFFER_SIZE
    decreases |ops|
  {
    if ops == [] then h else Run(Apply(h, ops[0]), ops[1..])
  }

  /** In every run, also one that hits the 16-bit truncation, what was handed out followed by what is still stored
      is what was accepted: nothing lost, duplicated or reordered, and never more stored than the ring holds. */
  lemma {:induction false} Conservation(h: History, ops: seq<Op>)
    requires h.readP < BUFFER_SIZE && |h.queue| < BUFFER_SIZE && h.delivered + h.queue == h.accepted
    ensures var r := Run(h, ops);
            r.delivered + r.queue == r.accepted && |r.queue| < BUFFER_SIZE
    decreases |ops|
  {
    if ops != [] {
      match ops[0] {
        case Adding(d) =>
          assert h.delivered + (h.queue + d) == h.accepted + d;
        case Taking(len) =>
          var n := Taken(h.readP, |h.queue|, len);
          assert h.delivered + h.queue[..n] + h.queue[n..] == h.delivered + h.queue;
      }
      Conservation(Apply(h, ops[0]), ops[1..]);
    }
  }
}
