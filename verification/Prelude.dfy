/** Small datatypes and set facts shared by every module. */
module Prelude {

  datatype Option<+T> = None | Some(value: T)

  /** A subset of a finite set is no larger, and is the whole set when it is as large. */
  lemma SubsetSize<T>(a: set<T>, b: set<T>)
    requires a <= b
    ensures |a| <= |b|
    ensures |a| == |b| ==> a == b
  {
    assert b == a + (b - a);
    if |a| == |b| {
      assert |b - a| == 0;
    }
  }

  /** Picks an element of a non-empty set. */
  lemma Member<T>(s: set<T>) returns (x: T)
    requires s != {}
    ensures x in s
  {
    x :| x in s;
  }

  /** Every non-empty finite set of integers has a least element. */
  lemma {:induction false} LeastExists(s: set<int>)
    requires s != {}
    ensures exists m :: m in s && forall x :: x in s ==> m <= x
  {
    var x := Member(s);
    var rest := s - {x};
    if rest == {} {
      assert s == {x};
    } else {
      LeastExists(rest);
      var m :| m in rest && forall y :: y in rest ==> m <= y;
      var least := if x < m then x else m;
      assert forall y :: y in s ==> y == x || y in rest;
      assert least in s && forall y :: y in s ==> least <= y;
    }
  }

  /** The least element of a non-empty set of integers. */
  function Least(s: set<int>): (m: int)
    requires s != {}
    ensures m in s && forall x :: x in s ==> m <= x
  {
    LeastExists(s);
    var m :| m in s && forall x :: x in s ==> m <= x;
    m
  }

  /** A set whose elements all map, without collisions, into lo..hi has at most hi - lo elements. */
  lemma {:induction false} InjectionBound<T>(s: set<T>, rank: map<T, int>, lo: int, hi: int)
    requires s <= rank.Keys
    requires forall x :: x in s ==> lo <= rank[x] < hi
    requires forall x, y :: x in s && y in s && rank[x] == rank[y] ==> x == y
    requires lo <= hi
    ensures |s| <= hi - lo
    decreases hi - lo
  {
    if lo < hi {
      var top := set x | x in s && rank[x] == hi - 1;
      var below := s - top;
      if top != {} {
        var x :| x in top;
        assert forall y :: y in top ==> y == x;
        assert top == {x};
      }
      assert |s| == |below| + |top|;
      InjectionBound(below, rank, lo, hi - 1);
    } else {
      assert forall x :: x !in s;
    }
  }

  /** A key at which two different maps differ. */
  lemma DifferAt<K, V>(a: map<K, V>, b: map<K, V>) returns (k: K)
    requires a != b
    ensures (k in a) != (k in b) || (k in a && k in b && a[k] != b[k])
  {
    if x :| x in a && (x !in b || b[x] != a[x]) {
      k := x;
    } else {
      k :| k in b && k !in a;
    }
  }

  /** Maps with the same entries are equal. */
  lemma SameMap<V>(a: map<int, V>, b: map<int, V>)
    requires forall k :: k in a ==> k in b && b[k] == a[k]
    requires forall k :: k in b ==> k in a
    ensures b == a
  {
    if b != a {
      var k := DifferAt(a, b);
    }
  }

  /** A key with a given value. */
  lemma KeyWith<K, V>(m: map<K, V>, v: V) returns (k: K)
    requires v in m.Values
    ensures k in m && m[k] == v
  {
    k :| k in m && m[k] == v;
  }
}
