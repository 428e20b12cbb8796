/** A ring that holds a queue of variable-length parts back to back. */
module RingParts {
  import opened Bytes
  import opened Ring

  /** Distance of the k-th part from the read pointer. */
  ghost function Offset<T>(parts: seq<seq<T>>, k: nat): nat
    requires k <= |parts|
  {
    |Flatten(parts[..k])|
  }

  lemma OffsetNext<T>(parts: seq<seq<T>>, k: nat)
    requires k < |parts|
    ensures Offset(parts, k + 1) == Offset(parts, k) + |parts[k]| <= |Flatten(parts)|
  {
    assert parts[..k + 1] == parts[..k] + [parts[k]];
    FlattenAppend(parts[..k], [parts[k]]);
    FlattenOne(parts[k]);
    FlattenSplit(parts, k);
  }

  /** Copying a part in at the write pointer, when it fits, keeps every older part and adds the new one. */
  lemma Append<T>(buf: seq<T>, r: nat, parts: seq<seq<T>>, x: seq<T>)
    requires Contents(buf, r, Flatten(parts))
    requires |Flatten(parts)| + |x| < |buf|
    ensures Flatten(parts + [x]) == Flatten(parts) + x
    ensures Contents(Put(buf, Wrap(r + |Flatten(parts)|, |buf|), x), r, Flatten(parts + [x]))
  {
    FlattenAppend(parts, [x]);
    FlattenOne(x);
    hide Contents, Flatten, Put;
    ContentsAppend(buf, r, Flatten(parts), x);
  }

  /** Moving the read pointer past the first j parts frees exactly those. */
  lemma Drop<T>(buf: seq<T>, r: nat, parts: seq<seq<T>>, j: nat)
    requires Contents(buf, r, Flatten(parts)) && j <= |parts|
    ensures |Flatten(parts)| == Offset(parts, j) + |Flatten(parts[j..])|
    ensures Contents(buf, Wrap(r + Offset(parts, j), |buf|), Flatten(parts[j..]))
  {
    assert parts == parts[..j] + parts[j..];
    FlattenAppend(parts[..j], parts[j..]);
    ContentsDrop(buf, r, Flatten(parts[..j]), Flatten(parts[j..]));
  }

  lemma OffsetDrop<T>(parts: seq<seq<T>>, j: nat, k: nat)
    requires j + k <= |parts|
    ensures Offset(parts, j + k) == Offset(parts, j) + Offset(parts[j..], k)
  {
    assert parts[..j + k] == parts[..j] + parts[j..][..k];
    FlattenAppend(parts[..j], parts[j..][..k]);
  }

  /** Reading a part back, also when it straddles the end of the ring. */
  lemma ReadAt<T>(buf: seq<T>, r: nat, parts: seq<seq<T>>, k: nat)
    requires Contents(buf, r, Flatten(parts)) && k < |parts|
    ensures Offset(parts, k) + |parts[k]| <= |Flatten(parts)|
    ensures Circ(buf, Wrap(r + Offset(parts, k), |buf|), |parts[k]|) == parts[k]
  {
    Drop(buf, r, parts, k);
    ContentsDrop(buf, Wrap(r + Offset(parts, k), |buf|), parts[k], Flatten(parts[k..][1..]));
  }

  lemma OffsetReplace<T>(parts: seq<seq<T>>, k: nat, x: seq<T>, j: nat)
    requires k < |parts| && |x| == |parts[k]| && j <= |parts|
    ensures Offset(parts[k := x], j) == Offset(parts, j)
  {
    var q := parts[k := x];
    if k < j {
      FlattenSplit(parts[..j], k);
      FlattenSplit(q[..j], k);
      assert q[..j][..k] == parts[..j][..k] && q[..j][k + 1..] == parts[..j][k + 1..];
    } else {
      assert q[..j] == parts[..j];
    }
  }

  /** Overwriting the head of a part in place touches that part only. */
  lemma Overwrite<T>(buf: seq<T>, r: nat, parts: seq<seq<T>>, k: nat, h: seq<T>)
    requires Contents(buf, r, Flatten(parts)) && k < |parts| && |h| <= |parts[k]|
    ensures Offset(parts, k) + |parts[k]| <= |Flatten(parts)|
    ensures Contents(Put(buf, Wrap(r + Offset(parts, k), |buf|), h), r,
                     Flatten(parts[k := Splice(parts[k], 0, h)]))
  {
    OffsetNext(parts, k);
    FlattenSplice(parts, k, h);
    ContentsSplice(buf, r, Flatten(parts), Offset(parts, k), h);
  }
}
