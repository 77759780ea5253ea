/**
 * `sorted(xs, key=..., reverse=True)` and `xs.sort(key=..., reverse=True)`: an ordering
 * by a real-valued key, largest first, in which elements with equal keys keep their
 * original relative order.
 */
module Sorting {

  ghost predicate SortedDesc<T>(s: seq<T>, key: T -> real) {
    forall i, j :: 0 <= i < j < |s| ==> key(s[i]) >= key(s[j])
  }

  /** Puts `x` after every element whose key is at least its own. */
  function Insert<T>(x: T, s: seq<T>, key: T -> real): (r: seq<T>)
    requires SortedDesc(s, key)
    ensures SortedDesc(r, key)
    ensures multiset(r) == multiset(s) + multiset{x}
  {
    if s == [] then [x]
    else if key(s[0]) >= key(x) then
      var t := Insert(x, s[1..], key);
      assert s == [s[0]] + s[1..];
      assert forall j :: 0 <= j < |s[1..]| ==> s[1..][j] == s[j + 1];
      KeysBelow(t, s[1..], x, key, key(s[0]));
      [s[0]] + t
    else [x] + s
  }

  /** Every element of a sequence holding `u` and `x` has a key of at most `b` when those do. */
  lemma KeysBelow<T>(t: seq<T>, u: seq<T>, x: T, key: T -> real, b: real)
    requires multiset(t) == multiset(u) + multiset{x}
    requires forall j :: 0 <= j < |u| ==> key(u[j]) <= b
    requires key(x) <= b
    ensures forall j :: 0 <= j < |t| ==> key(t[j]) <= b
  {
    forall j | 0 <= j < |t| ensures key(t[j]) <= b {
      assert t[j] in multiset(t);
      if t[j] != x {
        assert t[j] in multiset(u);
        var k :| 0 <= k < |u| && u[k] == t[j];
      }
    }
  }

  /** Sorts by `key`, non-increasing, keeping equal-key elements in input order. */
  function SortDesc<T>(s: seq<T>, key: T -> real): (r: seq<T>)
    ensures SortedDesc(r, key)
    ensures multiset(r) == multiset(s)
    ensures |r| == |s|
  {
    if s == [] then []
    else
      var p := s[..|s| - 1];
      assert s == p + [s[|s| - 1]];
      var r := Insert(s[|s| - 1], SortDesc(p, key), key);
      assert |r| == |multiset(r)|;
      r
  }

  /** The elements of `s` whose key is `v`, in order. */
  function WithKey<T>(s: seq<T>, key: T -> real, v: real): seq<T> {
    if s == [] then [] else (if key(s[0]) == v then [s[0]] else []) + WithKey(s[1..], key, v)
  }

  lemma {:induction false} WithKeyAppend<T>(a: seq<T>, b: seq<T>, key: T -> real, v: real)
    ensures WithKey(a + b, key, v) == WithKey(a, key, v) + WithKey(b, key, v)
  {
    if a != [] {
      assert (a + b)[1..] == a[1..] + b;
      WithKeyAppend(a[1..], b, key, v);
    } else {
      assert a + b == b;
    }
  }

  /** No element of `s` has key `v` when all keys lie below it. */
  lemma {:induction false} WithKeyNone<T>(s: seq<T>, key: T -> real, v: real)
    requires forall j :: 0 <= j < |s| ==> key(s[j]) < v
    ensures WithKey(s, key, v) == []
  {
    if s != [] {
      assert forall j :: 0 <= j < |s[1..]| ==> s[1..][j] == s[j + 1];
      WithKeyNone(s[1..], key, v);
    }
  }

  /** `WithKey` of a sequence that starts with `y`. */
  lemma WithKeyCons<T>(y: T, u: seq<T>, key: T -> real, v: real)
    ensures WithKey([y] + u, key, v) == (if key(y) == v then [y] else []) + WithKey(u, key, v)
  {
    assert ([y] + u)[1..] == u;
  }

  /** Inserting `x` puts it after every element of its own key. */
  lemma {:induction false} InsertStable<T>(x: T, t: seq<T>, key: T -> real, v: real)
    requires SortedDesc(t, key)
    ensures WithKey(Insert(x, t, key), key, v) == WithKey(t, key, v) + (if key(x) == v then [x] else [])
  {
    if t == [] {
      WithKeyCons(x, [], key, v);
      assert [x] == [x] + [];
    } else {
      assert t == [t[0]] + t[1..];
      WithKeyCons(t[0], t[1..], key, v);
      if key(t[0]) >= key(x) {
        assert SortedDesc(t[1..], key);
        var u := Insert(x, t[1..], key);
        assert Insert(x, t, key) == [t[0]] + u;
        InsertStable(x, t[1..], key, v);
        WithKeyCons(t[0], u, key, v);
      } else {
        assert Insert(x, t, key) == [x] + t;
        WithKeyCons(x, t, key, v);
        if key(x) == v {
          WithKeyNone(t, key, v);
        }
      }
    }
  }

  /**
   * `sorted` is stable: the elements of each key come out in their input order, so ties
   * (equal profits, equal timestamps) keep the order the dictionary gave them.
   */
  lemma {:induction false} SortDescStable<T>(s: seq<T>, key: T -> real, v: real)
    ensures WithKey(SortDesc(s, key), key, v) == WithKey(s, key, v)
  {
    if s != [] {
      var p := s[..|s| - 1];
      var x := s[|s| - 1];
      assert s == p + [x];
      var sp := SortDesc(p, key);
      assert SortDesc(s, key) == Insert(x, sp, key);
      SortDescStable(p, key, v);
      InsertStable(x, sp, key, v);
      WithKeyAppend(p, [x], key, v);
      WithKeyCons(x, [], key, v);
      assert [x] + [] == [x];
    }
  }

  /** Sorting keeps exactly the input's elements. */
  lemma SortDescMembers<T>(s: seq<T>, key: T -> real, x: T)
    ensures x in SortDesc(s, key) <==> x in s
  {
    var r := SortDesc(s, key);
    assert x in r <==> x in multiset(r);
    assert x in s <==> x in multiset(s);
  }
}
