/** Duplicate-free sequences: what an intrusive list is once its pointers are forgotten. */
module Sequences {

  datatype Option<+T> = None | Some(value: T)

  ghost predicate NoDup<T>(xs: seq<T>) {
    forall i, j :: 0 <= i < j < |xs| ==> xs[i] != xs[j]
  }

  /** Position of the first occurrence of x. */
  function IndexOf<T(==)>(xs: seq<T>, x: T): (i: nat)
    requires x in xs
    ensures i < |xs| && xs[i] == x && x !in xs[..i]
  {
    if xs[0] == x then 0 else 1 + IndexOf(xs[1..], x)
  }

  /** xs with the first occurrence of x unlinked; xs itself when x is not linked. */
  function Without<T(==)>(xs: seq<T>, x: T): seq<T> {
    if x in xs then var i := IndexOf(xs, x); xs[..i] + xs[i + 1..] else xs
  }

  lemma IndexOfUnique<T>(xs: seq<T>, x: T, i: nat)
    requires NoDup(xs) && i < |xs| && xs[i] == x
    ensures IndexOf(xs, x) == i
  {
  }

  lemma WithoutMembers<T>(xs: seq<T>, x: T)
    requires NoDup(xs)
    ensures NoDup(Without(xs, x))
    ensures forall y :: y in Without(xs, x) <==> y in xs && y != x
  {
    hide IndexOf;
    if x in xs {
      var i := IndexOf(xs, x);
      var ys := Without(xs, x);
      assert forall k | 0 <= k < |ys| :: ys[k] == if k < i then xs[k] else xs[k + 1];
      forall y | y in xs && y != x ensures y in ys {
        var j :| 0 <= j < |xs| && xs[j] == y;
        assert ys[if j < i then j else j - 1] == y;
      }
    }
  }

  lemma NoDupConcat<T>(xs: seq<T>, ys: seq<T>)
    requires NoDup(xs) && NoDup(ys) && forall y | y in ys :: y !in xs
    ensures NoDup(xs + ys)
  {
    var zs := xs + ys;
    forall i, j | 0 <= i < j < |zs| ensures zs[i] != zs[j] {
      if i < |xs| <= j {
        assert ys[j - |xs|] in ys;
      }
    }
  }
}
