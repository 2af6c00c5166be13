// Options, and the sequence facts that several components share.

module Options {
  datatype Option<+T> = None | Some(value: T)
}

module Sequences {

  function Max(a: int, b: int): int {
    if a >= b then a else b
  }

  function Min(a: int, b: int): int {
    if a <= b then a else b
  }

  ghost predicate Distinct<T>(xs: seq<T>) {
    forall i, j :: 0 <= i < j < |xs| ==> xs[i] != xs[j]
  }

  function RotatedBy<T>(xs: seq<T>, k: nat): seq<T>
    requires k <= |xs|
  {
    xs[k..] + xs[..k]
  }

  lemma OneFurther<T>(xs: seq<T>, k: nat)
    requires k < |xs|
    ensures RotatedBy(xs, k)[0] == xs[k] && RotatedBy(xs, k)[1..] + [xs[k]] == RotatedBy(xs, k + 1)
  {
  }

  /** `ys` is `xs` turned left by some number of places. */
  ghost predicate IsRotation<T>(ys: seq<T>, xs: seq<T>) {
    exists k :: 0 <= k <= |xs| && ys == RotatedBy(xs, k)
  }

  /** `xs` without any occurrence of `x`, in the same order. */
  function Removed<T(==)>(xs: seq<T>, x: T): seq<T> {
    if xs == [] then []
    else (if xs[0] == x then [] else [xs[0]]) + Removed(xs[1..], x)
  }

  /** The position of the first `x` in `xs`, or |xs|. */
  function IndexOf<T(==)>(xs: seq<T>, x: T): nat {
    if xs == [] || xs[0] == x then 0 else 1 + IndexOf(xs[1..], x)
  }

  lemma {:induction false} IndexOfFirst<T>(xs: seq<T>, x: T)
    ensures IndexOf(xs, x) <= |xs|
    ensures IndexOf(xs, x) < |xs| <==> x in xs
    ensures IndexOf(xs, x) < |xs| ==> xs[IndexOf(xs, x)] == x
    ensures forall i :: 0 <= i < IndexOf(xs, x) ==> xs[i] != x
  {
    if xs == [] || xs[0] == x {
    } else {
      IndexOfFirst(xs[1..], x);
      forall i | 0 <= i < IndexOf(xs, x) ensures xs[i] != x {
        if i > 0 { assert xs[i] == xs[1..][i - 1]; }
      }
    }
  }

  lemma {:induction false} IndexOfAppend<T>(xs: seq<T>, ys: seq<T>, x: T)
    requires x in xs
    ensures IndexOf(xs + ys, x) == IndexOf(xs, x)
  {
    if xs[0] != x {
      assert (xs + ys)[1..] == xs[1..] + ys;
      IndexOfAppend(xs[1..], ys, x);
    }
  }

  lemma {:induction false} IndexOfRemoved<T>(xs: seq<T>, x: T, y: T)
    requires x in xs && x != y
    ensures x in Removed(xs, y)
    ensures IndexOf(Removed(xs, y), x) <= IndexOf(xs, x)
  {
    if xs[0] == x {
      assert Removed(xs, y)[0] == x;
    } else {
      IndexOfRemoved(xs[1..], x, y);
      if xs[0] == y {
        assert Removed(xs, y) == Removed(xs[1..], y);
      } else {
        assert Removed(xs, y)[1..] == Removed(xs[1..], y);
      }
    }
  }

  lemma {:induction false} RemovedElements<T>(xs: seq<T>, x: T)
    requires Distinct(xs)
    ensures Distinct(Removed(xs, x))
    ensures forall y :: y in Removed(xs, x) <==> y in xs && y != x
  {
    if xs != [] {
      RemovedElements(xs[1..], x);
      assert xs == [xs[0]] + xs[1..];
      assert forall y :: y in xs[1..] ==> y != xs[0];
      var tail := Removed(xs[1..], x);
      if xs[0] == x {
        assert Removed(xs, x) == tail;
      } else {
        DistinctPrepend(xs[0], tail);
      }
    }
  }

  /** Joining on the right distributes over removal, which is what a left-to-right filter loop needs. */
  lemma {:induction false} RemovedSnoc<T>(xs: seq<T>, y: T, x: T)
    ensures Removed(xs + [y], x) == Removed(xs, x) + (if y == x then [] else [y])
  {
    if xs == [] {
    } else {
      assert (xs + [y])[1..] == xs[1..] + [y];
      RemovedSnoc(xs[1..], y, x);
    }
  }

  lemma DistinctPrepend<T>(x: T, xs: seq<T>)
    requires Distinct(xs) && x !in xs
    ensures Distinct([x] + xs)
  {
    forall i, j | 0 <= i < j < |xs| + 1 ensures ([x] + xs)[i] != ([x] + xs)[j] {
      assert ([x] + xs)[j] == xs[j - 1];
    }
  }

  lemma DistinctAppend<T>(xs: seq<T>, x: T)
    requires Distinct(xs) && x !in xs
    ensures Distinct(xs + [x])
  {
  }

  lemma {:induction false} DistinctLength<T>(xs: seq<T>, s: set<T>)
    requires Distinct(xs) && forall x :: x in xs <==> x in s
    ensures |xs| == |s|
  {
    if xs == [] {
      assert s == {};
    } else {
      var x := xs[0];
      forall y ensures y in xs[1..] <==> y in s - {x} {
        if y in xs[1..] {
          var i :| 0 <= i < |xs[1..]| && xs[1..][i] == y;
          assert xs[i + 1] == y;
        }
        if y in s && y != x {
          var i :| 0 <= i < |xs| && xs[i] == y;
          assert xs[1..][i - 1] == y;
        }
      }
      DistinctLength(xs[1..], s - {x});
    }
  }
}
