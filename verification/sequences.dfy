/** Generic sequence facts: stable filtering, subsequences and distinctness. */
module Sequences {

  /** `xs` can be obtained from `ys` by deleting elements, keeping the order of the rest. */
  predicate IsSubsequence<T(==)>(xs: seq<T>, ys: seq<T>)
    decreases |ys|
  {
    if |xs| == 0 then true
    else if |ys| == 0 then false
    else if xs[0] == ys[0] then IsSubsequence(xs[1..], ys[1..])
    else IsSubsequence(xs, ys[1..])
  }

  /** No element occurs twice. */
  predicate Distinct<T(==)>(s: seq<T>) {
    forall i, j :: 0 <= i < j < |s| ==> s[i] != s[j]
  }

  /** Stable filter: the elements of `xs` satisfying `p`, in their original order,
      each kept as often as it occurs. */
  function Keep<T(==,!new)>(xs: seq<T>, p: T -> bool): (ys: seq<T>)
    ensures |ys| <= |xs|
    ensures forall x :: x in ys <==> x in xs && p(x)
    ensures forall x :: multiset(ys)[x] == if p(x) then multiset(xs)[x] else 0
    ensures IsSubsequence(ys, xs)
  {
    if |xs| == 0 then []
    else
      var rest := Keep(xs[1..], p);
      assert xs == [xs[0]] + xs[1..];
      if p(xs[0]) then
        assert ([xs[0]] + rest)[1..] == rest;
        [xs[0]] + rest
      else
        rest
  }

  /** Keeping distributes over concatenation. */
  lemma {:induction false} KeepAppend<T(!new)>(xs: seq<T>, zs: seq<T>, p: T -> bool)
    ensures Keep(xs + zs, p) == Keep(xs, p) + Keep(zs, p)
    decreases |xs|
  {
    if |xs| == 0 {
      assert xs + zs == zs;
    } else {
      assert (xs + zs)[1..] == xs[1..] + zs;
      KeepAppend(xs[1..], zs, p);
    }
  }

  /** A sequence all of whose elements satisfy `p` is kept whole. */
  lemma {:induction false} KeepAll<T(!new)>(xs: seq<T>, p: T -> bool)
    requires forall x :: x in xs ==> p(x)
    ensures Keep(xs, p) == xs
    decreases |xs|
  {
    if |xs| > 0 {
      assert forall x :: x in xs[1..] ==> x in xs;
      KeepAll(xs[1..], p);
      assert p(xs[0]);
      assert Keep(xs, p) == [xs[0]] + Keep(xs[1..], p);
      assert xs == [xs[0]] + xs[1..];
    }
  }

  /** Keeping twice with the same predicate is the same as keeping once. */
  lemma KeepIdempotent<T(!new)>(xs: seq<T>, p: T -> bool)
    ensures Keep(Keep(xs, p), p) == Keep(xs, p)
  {
    KeepAll(Keep(xs, p), p);
  }
}
