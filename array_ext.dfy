/** `Array#map_with_index!` and `Array#map_with_index`: map each element together with
    its position. */
module ArrayExt {
  /** The mapped sequence: element `i` becomes `f(s[i], i)`. */
  function MapWithIndex<T>(s: seq<T>, f: (T, nat) -> T): (r: seq<T>)
    ensures |r| == |s|
  {
    seq(|s|, i requires 0 <= i < |s| => f(s[i], i))
  }

  /** `map_with_index!`: each slot is overwritten, in index order, with the block's
      value for the element and its index. */
  method MapWithIndexInPlace<T>(a: array<T>, f: (T, nat) -> T)
    modifies a
    ensures a[..] == MapWithIndex(old(a[..]), f)
  {
    ghost var original := a[..];
    var idx := 0;
    while idx < a.Length
      invariant 0 <= idx <= a.Length
      invariant forall i :: 0 <= i < idx ==> a[i] == f(original[i], i)
      invariant forall i :: idx <= i < a.Length ==> a[i] == original[i]
    {
      a[idx] := f(a[idx], idx);
      idx := idx + 1;
    }
  }

  /** `map_with_index`: the same on a fresh copy; the receiver is unchanged. */
  method MapWithIndexCopy<T>(a: array<T>, f: (T, nat) -> T) returns (b: array<T>)
    ensures fresh(b)
    ensures b[..] == MapWithIndex(a[..], f)
    ensures a[..] == old(a[..])
  {
    b := new T[a.Length](i requires 0 <= i < a.Length reads a => a[i]);
    assert b[..] == a[..];
    MapWithIndexInPlace(b, f);
  }

  /** Mapping with a block that ignores the index is the plain element-wise map, and a
      block that returns its element leaves the sequence as it is. */
  lemma MapWithIndexFacts<T>(s: seq<T>, f: (T, nat) -> T, g: T -> T)
    ensures (forall x, i :: f(x, i) == g(x)) ==> MapWithIndex(s, f) == seq(|s|, i requires 0 <= i < |s| => g(s[i]))
    ensures (forall x, i :: f(x, i) == x) ==> MapWithIndex(s, f) == s
  {
  }
}
