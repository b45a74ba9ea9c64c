/** `sorted(items, key=...)` for a set and a key of two integers compared
    lexicographically, as the calendars use it to order trips by
    `(start_date, end_date)`. */
module Sorting {

  /** Lexicographic order on pairs: the tuple comparison `a <= b`. */
  predicate KeyLe(a: (int, int), b: (int, int))
  {
    a.0 < b.0 || (a.0 == b.0 && a.1 <= b.1)
  }

  /** `l` is in ascending key order. */
  predicate SortedBy<T>(l: seq<T>, key: T -> (int, int))
  {
    forall i, j :: 0 <= i < j < |l| ==> KeyLe(key(l[i]), key(l[j]))
  }

  /** `l` lists every element of `s` exactly once, in ascending key order. */
  ghost predicate IsSortingOf<T>(l: seq<T>, s: set<T>, key: T -> (int, int))
  {
    SortedBy(l, key) && multiset(l) == multiset(s)
  }

  /** No two elements of `s` have the same key. */
  ghost predicate KeyInjective<T>(s: set<T>, key: T -> (int, int))
  {
    forall x, y :: x in s && y in s && key(x) == key(y) ==> x == y
  }

  ghost predicate IsLeast<T>(m: T, s: set<T>, key: T -> (int, int))
  {
    m in s && forall t :: t in s ==> KeyLe(key(m), key(t))
  }

  lemma {:induction false} LeastExists<T>(s: set<T>, key: T -> (int, int))
    requires s != {}
    ensures exists m :: IsLeast(m, s, key)
    decreases s
  {
    var x :| x in s;
    if s - {x} == {} {
      assert s == {x};
      assert IsLeast(x, s, key);
    } else {
      LeastExists(s - {x}, key);
      var m :| IsLeast(m, s - {x}, key);
      if KeyLe(key(m), key(x)) {
        assert IsLeast(m, s, key);
      } else {
        assert IsLeast(x, s, key);
      }
    }
  }

  lemma SplitMultiset<T>(s: set<T>, m: T)
    requires m in s
    ensures multiset(s) == multiset{m} + multiset(s - {m})
  {
    forall x ensures multiset(s)[x] == (multiset{m} + multiset(s - {m}))[x] {
      if x == m {
      } else if x in s {
        assert x in s - {m};
      }
    }
  }

  /** A least element followed by a sorting of the others is a sorting of the whole set. */
  lemma PrependLeast<T>(m: T, rest: seq<T>, s: set<T>, key: T -> (int, int))
    requires IsLeast(m, s, key)
    requires IsSortingOf(rest, s - {m}, key)
    ensures IsSortingOf([m] + rest, s, key)
  {
    var l := [m] + rest;
    forall j | 0 <= j < |rest| ensures KeyLe(key(m), key(rest[j])) {
      assert rest[j] in multiset(rest);
    }
    forall i, j | 0 <= i < j < |l| ensures KeyLe(key(l[i]), key(l[j])) {
      if i > 0 {
        assert l[i] == rest[i - 1] && l[j] == rest[j - 1];
      } else {
        assert l[j] == rest[j - 1];
      }
    }
    SplitMultiset(s, m);
    assert multiset(l) == multiset{m} + multiset(rest);
  }

  /** A sorting of `s`, chosen by repeatedly taking a least element. */
  ghost function SortedOf<T>(s: set<T>, key: T -> (int, int)): (r: seq<T>)
    ensures IsSortingOf(r, s, key)
    decreases s
  {
    if s == {} then []
    else
      LeastExists(s, key);
      var m :| IsLeast(m, s, key);
      var rest := SortedOf(s - {m}, key);
      PrependLeast(m, rest, s, key);
      [m] + rest
  }

  /** `min(s, key=key)`. */
  method LeastOf<T>(s: set<T>, key: T -> (int, int)) returns (m: T)
    requires s != {}
    ensures IsLeast(m, s, key)
  {
    m :| m in s;
    var rest := s - {m};
    while rest != {}
      invariant rest <= s && m in s
      invariant forall t :: t in s - rest ==> KeyLe(key(m), key(t))
      decreases rest
    {
      var t :| t in rest;
      if !KeyLe(key(m), key(t)) {
        m := t;
      }
      rest := rest - {t};
    }
  }

  /** `sorted(s, key=key)`. */
  method SortByKey<T>(s: set<T>, key: T -> (int, int)) returns (r: seq<T>)
    ensures IsSortingOf(r, s, key)
  {
    r := [];
    var rest := s;
    while rest != {}
      invariant rest <= s
      invariant multiset(r) + multiset(rest) == multiset(s)
      invariant SortedBy(r, key)
      invariant forall i, t :: 0 <= i < |r| && t in rest ==> KeyLe(key(r[i]), key(t))
      decreases rest
    {
      var m := LeastOf(rest, key);
      assert multiset(rest) == multiset{m} + multiset(rest - {m});
      r := r + [m];
      rest := rest - {m};
    }
  }

  /** A sorting lists no element twice. */
  lemma SortingDistinct<T>(l: seq<T>, s: set<T>, key: T -> (int, int))
    requires IsSortingOf(l, s, key)
    ensures forall i, j :: 0 <= i < j < |l| ==> l[i] != l[j]
  {
    forall i, j | 0 <= i < j < |l| ensures l[i] != l[j] {
      assert l == l[..j] + l[j..];
      assert multiset(l) == multiset(l[..j]) + multiset(l[j..]);
      assert l[i] in multiset(l[..j]) by { assert l[..j][i] == l[i]; }
      assert l[j] in multiset(l[j..]) by { assert l[j..][0] == l[j]; }
      assert multiset(s)[l[i]] <= 1;
    }
  }

  /** The first element of a sorting is a least element of the set. */
  lemma HeadIsLeast<T>(a: seq<T>, s: set<T>, key: T -> (int, int))
    requires IsSortingOf(a, s, key) && a != []
    ensures IsLeast(a[0], s, key)
  {
    assert a[0] in multiset(a);
    forall t | t in s ensures KeyLe(key(a[0]), key(t)) {
      assert t in multiset(a);
      var i :| 0 <= i < |a| && a[i] == t;
      assert i == 0 || KeyLe(key(a[0]), key(a[i]));
    }
  }

  /** The rest of a sorting is a sorting of the rest of the set. */
  lemma TailIsSorting<T>(a: seq<T>, s: set<T>, key: T -> (int, int))
    requires IsSortingOf(a, s, key) && a != []
    ensures a[0] in s && IsSortingOf(a[1..], s - {a[0]}, key)
  {
    var x := a[0];
    assert x in multiset(a);
    assert a == [x] + a[1..];
    assert multiset(a) == multiset{x} + multiset(a[1..]);
    SplitMultiset(s, x);
    assert multiset(a[1..]) == multiset(a) - multiset{x};
    assert multiset(s - {x}) == multiset(s) - multiset{x};
  }

  /** When no two elements share a key, a set has exactly one sorting. */
  lemma {:induction false} SortingUnique<T>(a: seq<T>, b: seq<T>, s: set<T>, key: T -> (int, int))
    requires KeyInjective(s, key)
    requires IsSortingOf(a, s, key) && IsSortingOf(b, s, key)
    ensures a == b
    decreases |a|
  {
    if a == [] {
      assert multiset(b) == multiset{};
    } else {
      assert |b| == |multiset(b)| == |multiset(a)| == |a|;
      HeadIsLeast(a, s, key);
      HeadIsLeast(b, s, key);
      assert a[0] == b[0];
      TailIsSorting(a, s, key);
      TailIsSorting(b, s, key);
      SortingUnique(a[1..], b[1..], s - {a[0]}, key);
      assert a == [a[0]] + a[1..] && b == [b[0]] + b[1..];
    }
  }

  /** A list without repeated elements holds each element of its set once. */
  lemma {:induction false} DistinctListMultiset<T>(l: seq<T>)
    requires forall i, j :: 0 <= i < j < |l| ==> l[i] != l[j]
    ensures multiset(l) == multiset(set x | x in l)
  {
    if l != [] {
      var rest := l[1..];
      DistinctListMultiset(rest);
      assert l == [l[0]] + rest;
      assert l[0] !in rest;
      assert (set x | x in l) == {l[0]} + (set x | x in rest);
    }
  }
}
