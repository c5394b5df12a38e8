/** Facts about duplicate-free sequences, shared by the draft engine and the draft creator. */
module Sequences {

  /** No value occurs twice in `xs`. */
  predicate Distinct<T(==)>(xs: seq<T>) {
    forall i, j :: 0 <= i < j < |xs| ==> xs[i] != xs[j]
  }

  /** The set of values occurring in `xs` (what a JavaScript `new Set(xs)` holds). */
  function Elements<T>(xs: seq<T>): set<T> {
    set x | x in xs
  }

  /** A sequence is duplicate-free exactly when its head is not repeated and its tail is duplicate-free. */
  lemma DistinctCons<T>(xs: seq<T>)
    requires xs != []
    ensures Distinct(xs) <==> xs[0] !in xs[1..] && Distinct(xs[1..])
  {
    var t := xs[1..];
    if Distinct(xs) {
      forall i, j | 0 <= i < j < |t| ensures t[i] != t[j] {
        assert t[i] == xs[i + 1] && t[j] == xs[j + 1];
      }
    }
    if xs[0] !in t && Distinct(t) {
      forall i, j | 0 <= i < j < |xs| ensures xs[i] != xs[j] {
        assert xs[j] == t[j - 1];
        if i > 0 {
          assert xs[i] == t[i - 1];
        }
      }
    }
  }

  /** Duplicate-freedom is the same as "as many distinct values as positions". */
  lemma {:induction false} DistinctIffElementCount<T>(xs: seq<T>)
    ensures |Elements(xs)| <= |xs|
    ensures Distinct(xs) <==> |Elements(xs)| == |xs|
  {
    if xs != [] {
      var t := xs[1..];
      DistinctIffElementCount(t);
      DistinctCons(xs);
      assert Elements(xs) == Elements(t) + {xs[0]} by {
        forall x | x in xs ensures x in Elements(t) + {xs[0]} {
          var i :| 0 <= i < |xs| && xs[i] == x;
          if i > 0 {
            assert t[i - 1] == x;
          }
        }
      }
      if xs[0] in t {
        assert xs[0] in Elements(t);
        assert Elements(xs) == Elements(t);
      } else {
        assert xs[0] !in Elements(t);
        assert |Elements(xs)| == |Elements(t)| + 1;
      }
    }
  }

  /** Duplicate-freedom is the same as "every value occurs at most once". */
  lemma {:induction false} DistinctIffMultiplicity<T>(xs: seq<T>)
    ensures Distinct(xs) <==> forall v :: multiset(xs)[v] <= 1
  {
    if xs == [] {
    } else {
      var t := xs[1..];
      assert xs == [xs[0]] + t;
      assert multiset(xs) == multiset{xs[0]} + multiset(t);
      DistinctIffMultiplicity(t);
      DistinctCons(xs);
      if Distinct(xs) {
        forall v ensures multiset(xs)[v] <= 1 {
          if v == xs[0] {
            assert multiset(t)[v] == 0;
          }
        }
      } else if xs[0] in t {
        assert multiset(xs)[xs[0]] >= 2;
      } else {
        var v :| multiset(t)[v] > 1;
        assert multiset(xs)[v] >= multiset(t)[v];
      }
    }
  }

  /** A rearrangement of a duplicate-free sequence is duplicate-free. */
  lemma DistinctPermutation<T>(xs: seq<T>, ys: seq<T>)
    requires multiset(xs) == multiset(ys)
    requires Distinct(ys)
    ensures Distinct(xs)
  {
    DistinctIffMultiplicity(ys);
    DistinctIffMultiplicity(xs);
  }

  /** In a duplicate-free concatenation both halves are duplicate-free and have no value in common. */
  lemma DistinctSplit<T>(xs: seq<T>, ys: seq<T>)
    requires Distinct(xs + ys)
    ensures Distinct(xs) && Distinct(ys)
    ensures forall x :: x in xs ==> x !in ys
  {
    var zs := xs + ys;
    forall i, j | 0 <= i < j < |xs| ensures xs[i] != xs[j] {
      assert xs[i] == zs[i] && xs[j] == zs[j];
    }
    forall i, j | 0 <= i < j < |ys| ensures ys[i] != ys[j] {
      assert ys[i] == zs[|xs| + i] && ys[j] == zs[|xs| + j];
    }
    forall i, j | 0 <= i < |xs| && 0 <= j < |ys| ensures xs[i] != ys[j] {
      assert xs[i] == zs[i] && ys[j] == zs[|xs| + j];
    }
  }

  /** JavaScript's `indexOf`: the first position of `x`, or -1. */
  function IndexOf<T(==)>(xs: seq<T>, x: T): (i: int)
    ensures -1 <= i < |xs|
    ensures i == -1 <==> x !in xs
    ensures 0 <= i ==> xs[i] == x && x !in xs[..i]
  {
    if xs == [] then -1
    else if xs[0] == x then 0
    else
      var j := IndexOf(xs[1..], x);
      if j == -1 then -1
      else
        assert xs[..j + 1] == [xs[0]] + xs[1..][..j];
        j + 1
  }

  /** JavaScript's `splice(start, 1)`: a negative start counts from the end. */
  function SpliceOne<T>(xs: seq<T>, start: int): (r: seq<T>)
    ensures 0 <= start < |xs| ==> r == xs[..start] + xs[start + 1..]
    ensures start == -1 && xs != [] ==> r == xs[..|xs| - 1]
  {
    var k := if start >= 0 then start else if |xs| + start >= 0 then |xs| + start else 0;
    if k < |xs| then xs[..k] + xs[k + 1..] else xs
  }

  /** `xs` without the first occurrence of `x`. */
  function Remove<T(==)>(xs: seq<T>, x: T): (r: seq<T>)
    ensures x !in xs ==> r == xs
    ensures x in xs ==> |r| == |xs| - 1
  {
    if xs == [] then []
    else if xs[0] == x then xs[1..]
    else [xs[0]] + Remove(xs[1..], x)
  }

  /** Removing takes exactly one copy of `x` away, and nothing else. */
  lemma {:induction false} RemovePermutes<T>(xs: seq<T>, x: T)
    ensures multiset(Remove(xs, x)) == multiset(xs) - multiset{x}
  {
    if xs != [] {
      var t := xs[1..];
      assert xs == [xs[0]] + t;
      if xs[0] != x {
        RemovePermutes(t, x);
        assert multiset([xs[0]] + Remove(t, x)) == multiset{xs[0]} + multiset(Remove(t, x));
      }
    }
  }

  /** Removing an item deletes exactly the position `indexOf` finds; the others keep their order. */
  lemma {:induction false} RemoveAtIndexOf<T>(xs: seq<T>, x: T)
    requires x in xs
    ensures Remove(xs, x) == xs[..IndexOf(xs, x)] + xs[IndexOf(xs, x) + 1..]
  {
    var t := xs[1..];
    assert xs == [xs[0]] + t;
    if xs[0] != x {
      assert x in t;
      RemoveAtIndexOf(t, x);
      var j := IndexOf(t, x);
      assert IndexOf(xs, x) == j + 1;
      assert Remove(xs, x) == [xs[0]] + Remove(t, x);
      assert xs[..j + 1] == [xs[0]] + t[..j];
      assert xs[j + 2..] == t[j + 1..];
    }
  }
}
