/** Generic facts about sequences used by both the cleaner and the translator:
    concatenation, order-preserving filtering, and selecting elements by index. */
module Seqs {

  /** The elements of `xs` are pairwise different (for objects: no two entries alias). */
  predicate Distinct<T(==)>(xs: seq<T>) {
    forall a, b :: 0 <= a < b < |xs| ==> xs[a] != xs[b]
  }

  predicate StrictlyIncreasing(idx: seq<nat>) {
    forall a, b :: 0 <= a < b < |idx| ==> idx[a] < idx[b]
  }

  predicate InRange(idx: seq<nat>, n: nat) {
    forall k :: 0 <= k < |idx| ==> idx[k] < n
  }

  /** The elements of `xs` at positions `idx`, in the order of `idx`. */
  function Pick<T>(xs: seq<T>, idx: seq<nat>): (r: seq<T>)
    requires InRange(idx, |xs|)
  {
    seq(|idx|, k requires 0 <= k < |idx| => xs[idx[k]])
  }

  lemma PickAppend<T>(xs: seq<T>, idx: seq<nat>, i: nat)
    requires InRange(idx, |xs|) && i < |xs|
    ensures Pick(xs, idx + [i]) == Pick(xs, idx) + [xs[i]]
  {
  }

  /** Replacing the element at the last picked position replaces the last picked element. */
  lemma PickUpdateLast<T>(xs: seq<T>, idx: seq<nat>, x: T)
    requires InRange(idx, |xs|) && StrictlyIncreasing(idx) && idx != []
    ensures InRange(idx, |xs[idx[|idx| - 1] := x]|)
    ensures Pick(xs[idx[|idx| - 1] := x], idx) == Pick(xs, idx)[..|idx| - 1] + [x]
  {
    var p := idx[|idx| - 1];
    forall k | 0 <= k < |idx| - 1 ensures Pick(xs[p := x], idx)[k] == Pick(xs, idx)[k] {
      assert idx[k] < p;
    }
  }

  /** Picking at strictly increasing positions keeps distinct elements distinct. */
  lemma PickDistinct<T>(xs: seq<T>, idx: seq<nat>)
    requires Distinct(xs) && InRange(idx, |xs|) && StrictlyIncreasing(idx)
    ensures Distinct(Pick(xs, idx))
  {
  }

  /** Concatenation of a sequence of sequences, folded from the left as `list.extend` does. */
  function Concat<T>(xss: seq<seq<T>>): seq<T>
    decreases |xss|
  {
    if xss == [] then [] else Concat(xss[..|xss| - 1]) + xss[|xss| - 1]
  }

  lemma {:induction false} ConcatAppend<T>(xss: seq<seq<T>>, yss: seq<seq<T>>)
    ensures Concat(xss + yss) == Concat(xss) + Concat(yss)
    decreases |yss|
  {
    if yss == [] {
      assert xss + yss == xss;
    } else {
      var n := |yss| - 1;
      assert (xss + yss)[..|xss + yss| - 1] == xss + yss[..n];
      assert Concat(xss + yss) == Concat(xss + yss[..n]) + yss[n];
      ConcatAppend(xss, yss[..n]);
      assert Concat(yss) == Concat(yss[..n]) + yss[n];
    }
  }

  lemma ConcatCons<T>(xs: seq<T>, yss: seq<seq<T>>)
    ensures Concat([xs] + yss) == xs + Concat(yss)
  {
    ConcatAppend([xs], yss);
    assert Concat([xs]) == Concat([xs][..0]) + xs;
  }

  /** Concatenating lists of matching lengths gives results of the same length. */
  lemma {:induction false} ConcatSameShape<T, U>(xss: seq<seq<T>>, yss: seq<seq<U>>)
    requires |xss| == |yss| && forall k :: 0 <= k < |xss| ==> |xss[k]| == |yss[k]|
    ensures |Concat(xss)| == |Concat(yss)|
    decreases |xss|
  {
    if xss != [] {
      ConcatSameShape(xss[..|xss| - 1], yss[..|yss| - 1]);
    }
  }

  /** `f` applied to every element, folded from the left as a loop over `s` would. */
  function Map<T, U>(f: T -> U, s: seq<T>): (r: seq<U>)
    ensures |r| == |s|
    decreases |s|
  {
    if s == [] then [] else Map(f, s[..|s| - 1]) + [f(s[|s| - 1])]
  }

  lemma {:induction false} MapIndex<T, U>(f: T -> U, s: seq<T>, k: nat)
    requires k < |s|
    ensures Map(f, s)[k] == f(s[k])
    decreases |s|
  {
    if k < |s| - 1 {
      MapIndex(f, s[..|s| - 1], k);
    }
  }

  /** Putting the head back in front of the rest of a sequence, and then more behind it. */
  lemma HeadThenRest<T>(a: seq<T>, r: seq<T>)
    requires a != []
    ensures [a[0]] + (a[1..] + r) == a + r
  {
    assert [a[0]] + a[1..] == a;
  }

  lemma AppendAssoc<T>(x: seq<T>, y: seq<T>, z: seq<T>)
    ensures x + (y + z) == (x + y) + z
  {
  }

  /** Dropping a prefix of the first part of a concatenation. */
  lemma DropAppend<T>(a: seq<T>, b: seq<T>, k: nat)
    requires k <= |a|
    ensures (a + b)[k..] == a[k..] + b
  {
  }

  /** The elements of `s` that satisfy `keep`, in order. */
  function Filter<T>(keep: T -> bool, s: seq<T>): (r: seq<T>)
    ensures |r| <= |s|
    decreases |s|
  {
    if s == [] then []
    else
      var rest := Filter(keep, s[..|s| - 1]);
      if keep(s[|s| - 1]) then rest + [s[|s| - 1]] else rest
  }

  lemma {:induction false} FilterAppend<T>(keep: T -> bool, a: seq<T>, b: seq<T>)
    ensures Filter(keep, a + b) == Filter(keep, a) + Filter(keep, b)
    decreases |b|
  {
    if b == [] {
      assert a + b == a;
    } else {
      var n := |b| - 1;
      assert (a + b)[..|a + b| - 1] == a + b[..n];
      FilterAppend(keep, a, b[..n]);
    }
  }

  /** Everything the filter lets through satisfies `keep`. */
  lemma {:induction false} FilterSatisfies<T>(keep: T -> bool, s: seq<T>)
    ensures forall k :: 0 <= k < |Filter(keep, s)| ==> keep(Filter(keep, s)[k])
    decreases |s|
  {
    if s != [] {
      FilterSatisfies(keep, s[..|s| - 1]);
    }
  }

  /** A sequence all of whose elements are kept is its own filter. */
  lemma {:induction false} FilterAll<T>(keep: T -> bool, s: seq<T>)
    requires forall k :: 0 <= k < |s| ==> keep(s[k])
    ensures Filter(keep, s) == s
    decreases |s|
  {
    if s != [] {
      FilterAll(keep, s[..|s| - 1]);
    }
  }

  /** A sequence none of whose elements is kept filters to nothing. */
  lemma {:induction false} FilterNone<T>(keep: T -> bool, s: seq<T>)
    requires forall k :: 0 <= k < |s| ==> !keep(s[k])
    ensures Filter(keep, s) == []
    decreases |s|
  {
    if s != [] {
      FilterNone(keep, s[..|s| - 1]);
    }
  }

  lemma FilterOne<T>(keep: T -> bool, x: T)
    ensures Filter(keep, [x]) == if keep(x) then [x] else []
  {
    assert [x][..0] == [];
  }

  /** The positions of the elements of `s` that satisfy `keep`, in increasing order. */
  function KeptIndices<T>(keep: T -> bool, s: seq<T>): (idx: seq<nat>)
    ensures InRange(idx, |s|) && StrictlyIncreasing(idx)
    decreases |s|
  {
    if s == [] then []
    else
      var n := |s| - 1;
      var rest := KeptIndices(keep, s[..n]);
      if keep(s[n]) then rest + [n] else rest
  }

  /** A position is kept exactly when its element satisfies `keep`. */
  lemma {:induction false} KeptIndicesMembers<T>(keep: T -> bool, s: seq<T>)
    ensures forall j :: 0 <= j < |s| ==> (j in KeptIndices(keep, s) <==> keep(s[j]))
    decreases |s|
  {
    if s != [] {
      var n := |s| - 1;
      KeptIndicesMembers(keep, s[..n]);
      assert forall j :: 0 <= j < n ==> s[..n][j] == s[j];
    }
  }

  /** Extending the input by one element extends the kept positions by that position or
      by nothing. */
  lemma KeptIndicesStep<T>(keep: T -> bool, s: seq<T>, i: nat)
    requires i < |s|
    ensures KeptIndices(keep, s[..i + 1]) ==
      KeptIndices(keep, s[..i]) + (if keep(s[i]) then [i] else [])
  {
    assert s[..i + 1][..i] == s[..i];
  }

  /** `[f(x) for x in s if keep(x)]`, folded from the left as an appending loop builds it. */
  function FilterMap<T, U>(keep: T -> bool, f: T -> U, s: seq<T>): (r: seq<U>)
    ensures |r| <= |s|
    decreases |s|
  {
    if s == [] then []
    else
      var rest := FilterMap(keep, f, s[..|s| - 1]);
      if keep(s[|s| - 1]) then rest + [f(s[|s| - 1])] else rest
  }

  /** The reference reading of `FilterMap`: it consists of `f` applied to exactly the kept
      elements, in their original order. */
  lemma {:induction false} FilterMapAt<T, U>(keep: T -> bool, f: T -> U, s: seq<T>)
    ensures |FilterMap(keep, f, s)| == |KeptIndices(keep, s)|
    ensures forall k :: 0 <= k < |FilterMap(keep, f, s)| ==>
      FilterMap(keep, f, s)[k] == f(s[KeptIndices(keep, s)[k]])
    decreases |s|
  {
    if s != [] {
      var n := |s| - 1;
      FilterMapAt(keep, f, s[..n]);
    }
  }
}
