/** Python's `sorted` with a key, and the lexicographic comparison of strings and tuples. */
module Ordering {

  /** Where a proof wants the comparison of `a`, `b` and `c`, it names the triple. */
  ghost predicate Triple<T>(a: T, b: T, c: T) { true }

  /** A total preorder: elements with equal keys may differ. */
  ghost predicate TotalPreorder<T(!new)>(le: (T, T) -> bool) {
    forall a, b, c {:trigger Triple(a, b, c)} ::
      (le(a, b) || le(b, a)) && (le(a, b) && le(b, c) ==> le(a, c))
  }

  ghost predicate TotalOrder<T(!new)>(le: (T, T) -> bool) {
    && TotalPreorder(le)
    && forall a, b {:trigger Triple(a, b, a)} :: le(a, b) && le(b, a) ==> a == b
  }

  ghost predicate SortedBy<T>(s: seq<T>, le: (T, T) -> bool) {
    forall i, j :: 0 <= i < j < |s| ==> le(s[i], s[j])
  }

  /** Lexicographic comparison, a proper prefix first. */
  predicate LexLe<T(==)>(a: seq<T>, b: seq<T>, le: (T, T) -> bool) {
    if a == [] then true
    else if b == [] then false
    else if a[0] == b[0] then LexLe(a[1..], b[1..], le)
    else le(a[0], b[0])
  }

  predicate CharLe(a: char, b: char) { a <= b }

  predicate StringLe(a: string, b: string) { LexLe(a, b, CharLe) }

  predicate PartsLe(a: seq<string>, b: seq<string>) { LexLe(a, b, StringLe) }

  lemma {:induction false} LexTotal<T(!new)>(a: seq<T>, b: seq<T>, le: (T, T) -> bool)
    requires TotalOrder(le)
    ensures LexLe(a, b, le) || LexLe(b, a, le)
    ensures LexLe(a, b, le) && LexLe(b, a, le) ==> a == b
  {
    if a != [] && b != [] {
      assert Triple(a[0], b[0], a[0]);
    }
    if a != [] && b != [] && a[0] == b[0] {
      LexTotal(a[1..], b[1..], le);
      assert a == [a[0]] + a[1..] && b == [b[0]] + b[1..];
    }
  }

  lemma {:induction false} LexTransitive<T(!new)>(a: seq<T>, b: seq<T>, c: seq<T>, le: (T, T) -> bool)
    requires TotalOrder(le)
    requires LexLe(a, b, le) && LexLe(b, c, le)
    ensures LexLe(a, c, le)
  {
    if a != [] && b != [] && c != [] {
      assert Triple(a[0], b[0], c[0]) && Triple(a[0], b[0], a[0]);
    }
    if a != [] && b != [] && c != [] && a[0] == b[0] && b[0] == c[0] {
      LexTransitive(a[1..], b[1..], c[1..], le);
    }
  }

  lemma CharOrder()
    ensures TotalOrder(CharLe)
  {
    forall a: char, b: char, c: char
      ensures CharLe(a, b) || CharLe(b, a)
      ensures CharLe(a, b) && CharLe(b, a) ==> a == b
      ensures CharLe(a, b) && CharLe(b, c) ==> CharLe(a, c)
    {
    }
  }

  lemma StringOrder()
    ensures TotalOrder(StringLe)
  {
    CharOrder();
    forall a: string, b: string, c: string
      ensures StringLe(a, b) || StringLe(b, a)
      ensures StringLe(a, b) && StringLe(b, a) ==> a == b
      ensures StringLe(a, b) && StringLe(b, c) ==> StringLe(a, c)
    {
      LexTotal(a, b, CharLe);
      if StringLe(a, b) && StringLe(b, c) {
        LexTransitive(a, b, c, CharLe);
      }
    }
  }

  lemma PartsOrder()
    ensures TotalOrder(PartsLe)
  {
    StringOrder();
    forall a: seq<string>, b: seq<string>, c: seq<string>
      ensures PartsLe(a, b) || PartsLe(b, a)
      ensures PartsLe(a, b) && PartsLe(b, a) ==> a == b
      ensures PartsLe(a, b) && PartsLe(b, c) ==> PartsLe(a, c)
    {
      LexTotal(a, b, StringLe);
      if PartsLe(a, b) && PartsLe(b, c) {
        LexTransitive(a, b, c, StringLe);
      }
    }
  }

  /** `sorted(s, key=...)`: stable, by the preorder the key induces. */
  function Sorted<T>(s: seq<T>, le: (T, T) -> bool): seq<T> {
    if s == [] then [] else Insert(Sorted(s[..|s| - 1], le), s[|s| - 1], le)
  }

  function Insert<T>(s: seq<T>, x: T, le: (T, T) -> bool): seq<T> {
    if s == [] then [x]
    else if le(s[|s| - 1], x) then s + [x]
    else Insert(s[..|s| - 1], x, le) + [s[|s| - 1]]
  }

  lemma {:induction false} InsertKeeps<T>(s: seq<T>, x: T, le: (T, T) -> bool)
    ensures multiset(Insert(s, x, le)) == multiset(s) + multiset{x}
  {
    if s != [] && !le(s[|s| - 1], x) {
      InsertKeeps(s[..|s| - 1], x, le);
      assert s == s[..|s| - 1] + [s[|s| - 1]];
    }
  }

  lemma AppendSorted<T>(s: seq<T>, x: T, le: (T, T) -> bool)
    requires SortedBy(s, le) && forall y :: y in s ==> le(y, x)
    ensures SortedBy(s + [x], le)
  {
  }

  lemma {:induction false} InsertSorts<T(!new)>(s: seq<T>, x: T, le: (T, T) -> bool)
    requires TotalPreorder(le) && SortedBy(s, le)
    ensures SortedBy(Insert(s, x, le), le)
  {
    if s != [] {
      var front, last := s[..|s| - 1], s[|s| - 1];
      assert Triple(last, x, x);
      forall y | y in front ensures le(y, last) {
        var i :| 0 <= i < |front| && front[i] == y;
        assert le(s[i], s[|s| - 1]);
      }
      if le(last, x) {
        forall y | y in s ensures le(y, x) {
          assert Triple(y, last, x);
          assert y == last || y in front;
        }
        AppendSorted(s, x, le);
      } else {
        InsertSorts(front, x, le);
        InsertKeeps(front, x, le);
        forall y | y in Insert(front, x, le) ensures le(y, last) {
          assert y in multiset(front) + multiset{x};
          assert y == x || y in front;
        }
        AppendSorted(Insert(front, x, le), last, le);
      }
    }
  }

  lemma {:induction false} SortedSorts<T(!new)>(s: seq<T>, le: (T, T) -> bool)
    requires TotalPreorder(le)
    ensures SortedBy(Sorted(s, le), le)
    ensures multiset(Sorted(s, le)) == multiset(s)
  {
    if s != [] {
      SortedSorts(s[..|s| - 1], le);
      InsertSorts(Sorted(s[..|s| - 1], le), s[|s| - 1], le);
      InsertKeeps(Sorted(s[..|s| - 1], le), s[|s| - 1], le);
      assert s == s[..|s| - 1] + [s[|s| - 1]];
    }
  }

  ghost predicate NoTies<T(!new)>(s: multiset<T>, le: (T, T) -> bool) {
    forall x, y {:trigger Triple(x, y, x)} :: x in s && y in s && le(x, y) && le(y, x) ==> x == y
  }

  lemma LastUnique<T(!new)>(a: seq<T>, b: seq<T>, le: (T, T) -> bool)
    requires SortedBy(a, le) && SortedBy(b, le)
    requires multiset(a) == multiset(b) && a != [] && b != []
    requires NoTies(multiset(a), le)
    ensures a[|a| - 1] == b[|b| - 1]
  {
    var x, y := a[|a| - 1], b[|b| - 1];
    assert x in multiset(b) && y in multiset(a);
    var i :| 0 <= i < |b| && b[i] == x;
    var j :| 0 <= j < |a| && a[j] == y;
    if i < |b| - 1 && j < |a| - 1 {
      assert le(b[i], b[|b| - 1]) && le(a[j], a[|a| - 1]);
      assert Triple(x, y, x);
    }
  }

  lemma DropLast<T>(s: seq<T>)
    requires s != []
    ensures multiset(s) == multiset(s[..|s| - 1]) + multiset{s[|s| - 1]}
  {
    assert s == s[..|s| - 1] + [s[|s| - 1]];
  }

  lemma SameRest<T>(a: multiset<T>, b: multiset<T>, x: T)
    requires a + multiset{x} == b + multiset{x}
    ensures a == b
  {
    assert a == (a + multiset{x}) - multiset{x};
    assert b == (b + multiset{x}) - multiset{x};
  }

  lemma FewerTies<T(!new)>(part: multiset<T>, whole: multiset<T>, le: (T, T) -> bool)
    requires part <= whole && NoTies(whole, le)
    ensures NoTies(part, le)
  {
    forall p, q | p in part && q in part && le(p, q) && le(q, p) ensures p == q {
      assert Triple(p, q, p);
      assert p in whole && q in whole;
    }
  }

  /** Two sorted arrangements of the same elements are equal when no two of the
      elements tie. */
  lemma {:induction false} SortedUnique<T(!new)>(a: seq<T>, b: seq<T>, le: (T, T) -> bool)
    requires SortedBy(a, le) && SortedBy(b, le)
    requires multiset(a) == multiset(b)
    requires NoTies(multiset(a), le)
    ensures a == b
    decreases |a|
  {
    assert |a| == |multiset(a)| == |multiset(b)| == |b|;
    if a != [] {
      LastUnique(a, b, le);
      DropLast(a);
      DropLast(b);
      var a', b' := a[..|a| - 1], b[..|b| - 1];
      SameRest(multiset(a'), multiset(b'), a[|a| - 1]);
      FewerTies(multiset(a'), multiset(a), le);
      SortedUnique(a', b', le);
      assert a == a' + [a[|a| - 1]];
      assert b == b' + [b[|b| - 1]];
    }
  }
}
