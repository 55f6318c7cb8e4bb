/** The `intersection(fst, snd)` helper that both filter pages use to test a filter dimension:
    it walks `snd` and keeps each element that `fst` includes. */
module Intersection {

  /** `r` can be obtained from `s` by deleting elements (order kept). */
  predicate IsSubsequence<T(==)>(r: seq<T>, s: seq<T>)
    decreases |s|
  {
    if |r| == 0 then true
    else if |s| == 0 then false
    else if r[0] == s[0] then IsSubsequence(r[1..], s[1..])
    else IsSubsequence(r, s[1..])
  }

  /** The elements of `snd` that occur in `fst`, in `snd` order, duplicates kept. */
  function Intersect<T(==,!new)>(fst: seq<T>, snd: seq<T>): (r: seq<T>)
    ensures IsSubsequence(r, snd)
    ensures forall x :: x in r ==> x in fst
    ensures forall x :: multiset(r)[x] == if x in fst then multiset(snd)[x] else 0
    decreases |snd|
  {
    if |snd| == 0 then []
    else
      var rest := Intersect(fst, snd[1..]);
      assert snd == [snd[0]] + snd[1..];
      if snd[0] in fst then [snd[0]] + rest else rest
  }

  /** The intersection is non-empty exactly when some element of `snd` is in `fst`. */
  lemma NonEmptyIff<T(!new)>(fst: seq<T>, snd: seq<T>)
    ensures |Intersect(fst, snd)| > 0 <==> exists x :: x in snd && x in fst
  {
    var r := Intersect(fst, snd);
    if exists x :: x in snd && x in fst {
      var x :| x in snd && x in fst;
      assert multiset(r)[x] > 0;
    }
  }

  /** Whether the intersection is empty does not depend on the order of the arguments. */
  lemma NonEmptySymmetric<T(!new)>(a: seq<T>, b: seq<T>)
    ensures |Intersect(a, b)| > 0 <==> |Intersect(b, a)| > 0
  {
    NonEmptyIff(a, b);
    NonEmptyIff(b, a);
  }

  /** Every element of `snd` that is in `fst` is kept: when all of `snd` is in `fst`, the
      result is `snd` itself. */
  lemma {:induction false} AllKept<T(!new)>(fst: seq<T>, snd: seq<T>)
    requires forall x :: x in snd ==> x in fst
    ensures Intersect(fst, snd) == snd
  {
    if |snd| > 0 {
      AllKept(fst, snd[1..]);
      assert snd == [snd[0]] + snd[1..];
    }
  }
}
