/** `np.concatenate(list_of_arrays, axis=0)`: a list of per-trajectory arrays
    becomes one flat array, trajectory after trajectory. */
module Flatten {

  /** Sum of the lengths of the arrays: the batch size. */
  function TotalLength<T>(xss: seq<seq<T>>): nat
  {
    if xss == [] then 0 else TotalLength(xss[..|xss| - 1]) + |xss[|xss| - 1]|
  }

  /** Concatenation along the leading axis. */
  function Concat<T>(xss: seq<seq<T>>): seq<T>
  {
    if xss == [] then [] else Concat(xss[..|xss| - 1]) + xss[|xss| - 1]
  }

  /** Position in the flat array where array `i` starts. */
  function Offset<T>(xss: seq<seq<T>>, i: nat): nat
    requires i <= |xss|
  {
    TotalLength(xss[..i])
  }

  /** Two lists of arrays with the same number of arrays and the same lengths. */
  predicate SameShape<T, U>(xss: seq<seq<T>>, yss: seq<seq<U>>)
  {
    |xss| == |yss| && forall i :: 0 <= i < |xss| ==> |xss[i]| == |yss[i]|
  }

  /** The flat array is as long as all arrays together. */
  lemma {:induction false} ConcatLength<T>(xss: seq<seq<T>>)
    ensures |Concat(xss)| == TotalLength(xss)
  {
    if xss != [] {
      ConcatLength(xss[..|xss| - 1]);
    }
  }

  /** Element `t` of array `i` sits at `Offset(xss, i) + t` of the flat array:
      the arrays keep their order and their contents. */
  lemma {:induction false} ConcatAt<T>(xss: seq<seq<T>>, i: nat, t: nat)
    requires i < |xss| && t < |xss[i]|
    ensures Offset(xss, i) + t < |Concat(xss)|
    ensures Concat(xss)[Offset(xss, i) + t] == xss[i][t]
  {
    var n := |xss| - 1;
    var init := xss[..n];
    ConcatLength(init);
    ConcatLength(xss);
    if i < n {
      assert init[..i] == xss[..i];
      ConcatAt(init, i, t);
    } else {
      assert xss[..i] == init;
    }
  }

  /** The offsets of each array fit inside the flat array. */
  lemma {:induction false} OffsetBounds<T>(xss: seq<seq<T>>, i: nat)
    requires i < |xss|
    ensures Offset(xss, i) + |xss[i]| <= TotalLength(xss)
    ensures Offset(xss, i + 1) == Offset(xss, i) + |xss[i]|
  {
    assert xss[..i + 1][..i] == xss[..i];
    if i + 1 < |xss| {
      OffsetBounds(xss[..|xss| - 1], i);
      assert xss[..|xss| - 1][..i] == xss[..i];
      assert xss[..|xss| - 1][..i + 1] == xss[..i + 1];
    } else {
      assert xss[..i + 1] == xss;
    }
  }

  /** Lists of arrays of the same shape have the same total length. */
  lemma {:induction false} SameShapeTotalLength<T, U>(xss: seq<seq<T>>, yss: seq<seq<U>>)
    requires SameShape(xss, yss)
    ensures TotalLength(xss) == TotalLength(yss)
  {
    if xss != [] {
      var n := |xss| - 1;
      SameShapeTotalLength(xss[..n], yss[..n]);
    }
  }

  /** ... and the same offsets. */
  lemma SameShapeOffset<T, U>(xss: seq<seq<T>>, yss: seq<seq<U>>, i: nat)
    requires SameShape(xss, yss) && i <= |xss|
    ensures Offset(xss, i) == Offset(yss, i)
  {
    SameShapeTotalLength(xss[..i], yss[..i]);
  }

  /** When every element of every array is `x`, so is every element of the flat array. */
  lemma {:induction false} ConcatAllEqual<T>(xss: seq<seq<T>>, x: T)
    requires forall i, t :: 0 <= i < |xss| && 0 <= t < |xss[i]| ==> xss[i][t] == x
    ensures forall k :: 0 <= k < |Concat(xss)| ==> Concat(xss)[k] == x
  {
    if xss != [] {
      ConcatAllEqual(xss[..|xss| - 1], x);
    }
  }
}
