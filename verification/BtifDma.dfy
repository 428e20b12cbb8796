/** Both BTIF DMA channels: the driver copies into the transmit FIFO that the controller drains, and out of the
    receive FIFO that the controller fills. The controller's own steps are methods of the channel. */
module BtifDma {
  import opened Bytes
  import opened Ring
  import opened Vfifo

  const INVALID_PARAMETER: int := -1

  class TxChannel {
    const mem: array<byte>
    var wptReg: Ptr            // the controller's registers
    var rptReg: Ptr
    var wpt: nat               // the driver's copies
    var lastWptWrap: bool
    ghost var accepted: seq<byte>
    ghost var drained: seq<byte>

    ghost predicate Valid()
      reads this, mem
    {
      Sound(wptReg, rptReg, mem.Length) && drained + Pending() == accepted
    }

    ghost function Pending(): seq<byte>
      requires Sound(wptReg, rptReg, mem.Length)
      reads this, mem
    {
      Between(mem[..], wptReg, rptReg)
    }

    constructor (size: nat)
      requires size > 0
      ensures Valid() && Pending() == [] && accepted == [] && mem.Length == size && fresh(mem)
    {
      mem := new byte[size];
      wptReg, rptReg, wpt, lastWptWrap := Ptr(0, false), Ptr(0, false), 0, false;
      accepted, drained := [], [];
    }

    /** The controller moves `k` bytes out. */
    method Drain(k: nat)
      requires Valid() && k <= |Pending()|
      modifies this`rptReg, this`drained
      ensures Valid() && Pending() == old(Pending())[k..] && drained == old(drained) + old(Pending())[..k]
    {
      BetweenTaken(mem[..], wptReg, rptReg, k);
      drained := drained + Circ(mem[..], rptReg.at, k);
      assert Pending() == Pending()[..k] + Pending()[k..];
      rptReg := Advance(rptReg, k, mem.Length);
    }

    /** Copies round the end of the memory when it has to. */
    method CopyIn(at: nat, x: seq<byte>)
      requires at < mem.Length && |x| <= mem.Length
      modifies mem
      ensures mem[..] == Put(old(mem[..]), at, x)
    {
      if |x| + at >= mem.Length {
        var tail := mem.Length - at;
        forall k | 0 <= k < tail { mem[at + k] := x[k]; }
        forall k | 0 <= k < |x| - tail { mem[k] := x[tail + k]; }
      } else {
        forall k | 0 <= k < |x| { mem[at + k] := x[k]; }
      }
      assert forall i :: 0 <= i < mem.Length ==> mem[i] == Put(old(mem[..]), at, x)[i];
    }

    /** Sends as much as there is room for. `room` is what the left-size register read; the controller only makes
        more. While a flush is in process the bytes are copied but the write pointer is not handed over. */
    method SendData(data: seq<byte>, room: nat, inFlush: bool) returns (ret: int)
      requires Valid() && room <= mem.Length - |Pending()|
      modifies this, mem
      ensures Valid() && rptReg == old(rptReg) && drained == old(drained)
      ensures ret == if data == [] then INVALID_PARAMETER else if inFlush then 0
                     else if |data| < room then |data| else room
      ensures var n := if ret > 0 then ret else 0;
              && Pending() == old(Pending()) + data[..n]
              && accepted == old(accepted) + data[..n]
      ensures ret <= 0 ==> wptReg == old(wptReg)
    {
      if data == [] {
        return INVALID_PARAMETER;
      }
      var at, wrap := wptReg.at, wptReg.wrap;
      var n := if |data| < room then |data| else room;
      ghost var x := data[..n];
      BetweenWritten(mem[..], wptReg, rptReg, x);
      BetweenUntouched(mem[..], wptReg, rptReg, x);
      assert at < mem.Length && |x| == n && drained + (Pending() + x) == accepted + x;
      hide Between, Put, Fill, Sound;
      CopyIn(at, data[..n]);
      if n + at >= mem.Length {
        at := at + n - mem.Length;
        wrap := !wrap;
      } else {
        at := at + n;
      }
      wpt, lastWptWrap := at, wrap;
      if !inFlush {
        wptReg := Ptr(at, wrap);
        accepted := accepted + x;
        ret := n;
      } else {
        ret := 0;
      }
    }
  }

  class RxChannel {
    const mem: array<byte>
    var wptReg: Ptr
    var rptReg: Ptr
    var lastWptWrap: bool
    var delivered: seq<byte>         // everything given to the receive callback
    ghost var arrived: seq<byte>     // everything the controller wrote

    /** The wrap bit the driver remembers is the read pointer's. */
    ghost predicate Valid()
      reads this, mem
    {
      && Sound(wptReg, rptReg, mem.Length)
      && lastWptWrap == rptReg.wrap
      && delivered + Pending() == arrived
    }

    ghost function Pending(): seq<byte>
      requires Sound(wptReg, rptReg, mem.Length)
      reads this, mem
    {
      Between(mem[..], wptReg, rptReg)
    }

    constructor (size: nat)
      requires size > 0
      ensures Valid() && Pending() == [] && delivered == [] && arrived == [] && mem.Length == size && fresh(mem)
    {
      mem := new byte[size];
      wptReg, rptReg, lastWptWrap := Ptr(0, false), Ptr(0, false), false;
      delivered, arrived := [], [];
    }

    /** The controller writes what it received; it never overruns. */
    method Arrive(x: seq<byte>)
      requires Valid() && |x| <= mem.Length - |Pending()|
      modifies this`wptReg, this`arrived, mem
      ensures Valid() && Pending() == old(Pending()) + x && arrived == old(arrived) + x
    {
      BetweenWritten(mem[..], wptReg, rptReg, x);
      ghost var was := mem[..];
      var at := wptReg.at;
      forall i | 0 <= i < mem.Length {
        mem[i] := if Lap(i, at, mem.Length) < |x| then x[Lap(i, at, mem.Length)] else mem[i];
      }
      assert mem[..] == Put(was, at, x);
      wptReg := Advance(wptReg, |x|, mem.Length);
      arrived := arrived + x;
    }

    /** Calls the receive callback once, or twice when the bytes go round the end. */
    method PassOn(at: nat, len: nat)
      requires at < mem.Length && len <= mem.Length
      modifies this`delivered
      ensures delivered == old(delivered) + Circ(mem[..], at, len)
    {
      CircSlices(mem[..], at, len);
      var tail := mem.Length - at;
      if tail >= len {
        delivered := delivered + mem[at..at + len];
      } else {
        delivered := delivered + mem[at..at + tail];
        delivered := delivered + mem[..len - tail];
      }
    }

    /** One round of the interrupt handler's loop, from the registers it read to the read pointer it writes. The
        controller may have moved its write pointer on since. */
    method Round(rpt: Ptr, wpt: Ptr) returns (realLen: nat)
      requires Valid() && rpt == rptReg && Sound(wpt, rpt, mem.Length)
      requires Fill(wpt, rpt, mem.Length) <= |Pending()|
      modifies this`rptReg, this`lastWptWrap, this`delivered
      ensures Valid() && rptReg == wpt
      ensures realLen == Fill(wpt, rpt, mem.Length)
      ensures delivered == old(delivered) + old(Pending())[..realLen] && Pending() == old(Pending())[realLen..]
    {
      var n := mem.Length;
      if wpt.wrap != lastWptWrap {
        realLen := wpt.at + n - rpt.at;
      } else {
        realLen := wpt.at - rpt.at;
      }
      Landing(wpt, rpt, n);
      BetweenTaken(mem[..], wptReg, rptReg, realLen);
      assert delivered + Pending()[..realLen] + Pending()[realLen..] == delivered + Pending();
      hide Between, Fill, Sound, Circ;
      PassOn(rpt.at, realLen);
      var at, wrap := rpt.at + realLen, rpt.wrap;
      if at >= n {
        wrap := !wrap;
        at := at % n;
      }
      lastWptWrap := wpt.wrap;
      rptReg := Ptr(at, wrap);
    }

    /** The receive interrupt. `during` is what arrives while it runs, one piece before each look at the write
        pointer, as far as it fits. */
    method IrqHandler(during: seq<seq<byte>>) returns (count: nat)
      requires Valid()
      modifies this, mem
      ensures Valid()
      ensures delivered == arrived && |delivered| == |old(delivered)| + count
      ensures old(arrived) <= arrived
    {
      count := 0;
      var i := 0;
      var rpt, wpt := rptReg, wptReg;
      while rpt != wpt
        invariant Valid() && rpt == rptReg && wpt == wptReg
        invariant |delivered| == |old(delivered)| + count
        invariant old(arrived) <= arrived
        invariant i <= |during|
        decreases |during| - i, |Pending()|
      {
        FullOrEmpty(wptReg, rptReg, mem.Length);
        var n := Round(rpt, wpt);
        count := count + n;
        if i < |during| {
          if |during[i]| <= mem.Length - Fill(wptReg, rptReg, mem.Length) {
            Arrive(during[i]);
          }
          i := i + 1;
        }
        rpt, wpt := rptReg, wptReg;
      }
      FullOrEmpty(wptReg, rptReg, mem.Length);
    }
  }

  lemma Landing(w: Ptr, r: Ptr, n: nat)
    requires Sound(w, r, n)
    ensures var at := r.at + Fill(w, r, n);
            && Advance(r, Fill(w, r, n), n) == w
            && w == if at >= n then Ptr(at % n, !r.wrap) else Ptr(at, r.wrap)
  {}

  /** The length the handler computes is the controller's fill, from empty to full, because the wrap bit it compares
      with is the read pointer's; with the other bit it is a whole lap off. */
  lemma RealLength(w: Ptr, r: Ptr, n: nat, lastWptWrap: bool)
    requires Sound(w, r, n)
    ensures var len := if w.wrap != lastWptWrap then w.at + n - r.at else w.at - r.at;
            len == Fill(w, r, n) <==> lastWptWrap == r.wrap
  {}
}
