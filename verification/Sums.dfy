/** Sums of a real-valued function over a sequence, and concatenation of nested sequences. */
module Sums {

  function SumBy<T>(s: seq<T>, f: T -> real): real {
    if s == [] then 0.0 else SumBy(s[..|s| - 1], f) + f(s[|s| - 1])
  }

  function Flatten<T>(nested: seq<seq<T>>): seq<T> {
    if nested == [] then [] else Flatten(nested[..|nested| - 1]) + nested[|nested| - 1]
  }

  lemma {:induction false} SumConcat<T>(a: seq<T>, b: seq<T>, f: T -> real)
    ensures SumBy(a + b, f) == SumBy(a, f) + SumBy(b, f)
  {
    if b == [] {
      assert a + b == a;
    } else {
      SumConcat(a, b[..|b| - 1], f);
      assert (a + b)[..|a + b| - 1] == a + b[..|b| - 1];
    }
  }

  lemma {:induction false} SumRemove<T>(s: seq<T>, i: nat, f: T -> real)
    requires i < |s|
    ensures SumBy(s, f) == SumBy(s[..i] + s[i + 1..], f) + f(s[i])
  {
    assert s == (s[..i] + [s[i]]) + s[i + 1..];
    SumConcat(s[..i] + [s[i]], s[i + 1..], f);
    SumConcat(s[..i], s[i + 1..], f);
    assert (s[..i] + [s[i]])[..i] == s[..i];
  }

  /** A sum does not depend on the order of its terms. */
  lemma {:induction false} SumPermutation<T>(a: seq<T>, b: seq<T>, f: T -> real)
    requires multiset(a) == multiset(b)
    ensures SumBy(a, f) == SumBy(b, f)
    decreases |a|
  {
    if a == [] {
      assert |multiset(b)| == 0;
    } else {
      var last := a[|a| - 1];
      assert last in multiset(b);
      var i :| 0 <= i < |b| && b[i] == last;
      var rest := b[..i] + b[i + 1..];
      assert a == a[..|a| - 1] + [last];
      assert b == (b[..i] + [last]) + b[i + 1..];
      assert multiset(rest) == multiset(b) - multiset{last};
      assert multiset(a[..|a| - 1]) == multiset(a) - multiset{last};
      SumPermutation(a[..|a| - 1], rest, f);
      SumRemove(b, i, f);
    }
  }

  lemma {:induction false} SumNonNegative<T>(s: seq<T>, f: T -> real)
    requires forall x :: x in s ==> f(x) >= 0.0
    ensures SumBy(s, f) >= 0.0
  {
    if s != [] {
      SumNonNegative(s[..|s| - 1], f);
    }
  }

  function Times(n: nat, x: real): real {
    if n == 0 then 0.0 else Times(n - 1, x) + x
  }

  lemma {:induction false} TimesIsProduct(n: nat, x: real)
    ensures Times(n, x) == n as real * x
  {
    if n != 0 {
      TimesIsProduct(n - 1, x);
      var m := (n - 1) as real;
      assert (m + 1.0) * x == m * x + x;
    }
  }

  /** A bound on every part bounds the whole. */
  lemma {:induction false} FlattenSumAtMost<T>(nested: seq<seq<T>>, f: T -> real, high: real)
    requires forall k :: 0 <= k < |nested| ==> SumBy(nested[k], f) <= high
    ensures SumBy(Flatten(nested), f) <= Times(|nested|, high)
  {
    if nested != [] {
      FlattenSumAtMost(nested[..|nested| - 1], f, high);
      SumConcat(Flatten(nested[..|nested| - 1]), nested[|nested| - 1], f);
    }
  }

  lemma {:induction false} FlattenSumAtLeast<T>(nested: seq<seq<T>>, f: T -> real, low: real)
    requires forall k :: 0 <= k < |nested| ==> SumBy(nested[k], f) >= low
    ensures SumBy(Flatten(nested), f) >= Times(|nested|, low)
  {
    if nested != [] {
      FlattenSumAtLeast(nested[..|nested| - 1], f, low);
      SumConcat(Flatten(nested[..|nested| - 1]), nested[|nested| - 1], f);
    }
  }

  lemma {:induction false} FlattenUpdate<T>(nested: seq<seq<T>>, k: nat, x: T)
    requires k < |nested|
    ensures multiset(Flatten(nested[k := nested[k] + [x]])) == multiset(Flatten(nested)) + multiset{x}
  {
    var n := |nested| - 1;
    if k == n {
      assert nested[k := nested[k] + [x]][..n] == nested[..n];
    } else {
      FlattenUpdate(nested[..n], k, x);
      assert nested[k := nested[k] + [x]][..n] == nested[..n][k := nested[k] + [x]];
    }
  }

  lemma {:induction false} FlattenPointwise<T>(a: seq<seq<T>>, b: seq<seq<T>>)
    requires |a| == |b|
    requires forall k :: 0 <= k < |a| ==> multiset(a[k]) == multiset(b[k])
    ensures multiset(Flatten(a)) == multiset(Flatten(b))
  {
    if a != [] {
      FlattenPointwise(a[..|a| - 1], b[..|b| - 1]);
    }
  }

  lemma {:induction false} FlattenEmpty<T>(nested: seq<seq<T>>)
    requires forall k :: 0 <= k < |nested| ==> nested[k] == []
    ensures Flatten(nested) == []
  {
    if nested != [] {
      FlattenEmpty(nested[..|nested| - 1]);
    }
  }
}
