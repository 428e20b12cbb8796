/** Octets and the few sequence facts the other modules share. */
module Bytes {
  type byte = b: int | 0 <= b < 256

  type uint16 = x: int | 0 <= x < 65536

  /** The link's CRC-16 is a parameter: every theorem below holds for any 16-bit function of the payload. */
  type Crc = seq<byte> -> uint16

  function Flatten<T>(ss: seq<seq<T>>): (r: seq<T>) {
    if ss == [] then [] else ss[0] + Flatten(ss[1..])
  }

  lemma {:induction false} FlattenAppend<T>(a: seq<seq<T>>, b: seq<seq<T>>)
    ensures Flatten(a + b) == Flatten(a) + Flatten(b)
  {
    if a == [] {
      assert a + b == b;
    } else {
      FlattenAppend(a[1..], b);
      assert (a + b)[1..] == a[1..] + b;
    }
  }

  lemma FlattenOne<T>(x: seq<T>)
    ensures Flatten([x]) == x
  {
    assert Flatten([x]) == x + Flatten([x][1..]);
  }

  /** Where the k-th member sits in the flattened sequence, and what lies around it. */
  lemma FlattenSplit<T>(ss: seq<seq<T>>, k: nat)
    requires k < |ss|
    ensures Flatten(ss) == Flatten(ss[..k]) + ss[k] + Flatten(ss[k + 1..])
  {
    assert ss == ss[..k] + ss[k..];
    FlattenAppend(ss[..k], ss[k..]);
    assert ss[k..][1..] == ss[k + 1..];
  }

  /** `s` with `data` written over it from `off` on. */
  function Splice<T>(s: seq<T>, off: nat, data: seq<T>): (r: seq<T>)
    requires off + |data| <= |s|
    ensures |r| == |s|
  {
    s[..off] + data + s[off + |data|..]
  }

  /** Overwriting within one member rewrites that member and no other. */
  lemma FlattenSplice<T>(ss: seq<seq<T>>, k: nat, data: seq<T>)
    requires k < |ss| && |data| <= |ss[k]|
    ensures |Flatten(ss[..k])| + |data| <= |Flatten(ss)|
    ensures Splice(Flatten(ss), |Flatten(ss[..k])|, data) == Flatten(ss[k := Splice(ss[k], 0, data)])
  {
    FlattenSplit(ss, k);
    var tt := ss[k := Splice(ss[k], 0, data)];
    FlattenSplit(tt, k);
    assert tt[..k] == ss[..k] && tt[k + 1..] == ss[k + 1..];
  }
}
