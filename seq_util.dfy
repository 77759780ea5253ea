/** Python list operations used across the engine, on Dafny sequences. */
module SeqUtil {

  predicate NoDup<T(==)>(s: seq<T>) {
    forall i, j :: 0 <= i < j < |s| ==> s[i] != s[j]
  }

  /**
   * `s[-n:]` for a positive `n`: the newest `n` elements, in their original order.
   */
  function KeepNewest<T>(s: seq<T>, n: nat): (r: seq<T>)
    requires n > 0
    ensures |r| == if |s| < n then |s| else n
    ensures r == s[|s| - |r|..]
  {
    if |s| > n then s[|s| - n..] else s
  }

  /**
   * `h.append(e)` followed by `h = h[-n:]` when the list outgrew `n`: the bounded
   * history used for arbitrage history entries and for the recent-odds window.
   */
  function BoundedAppend<T>(h: seq<T>, e: T, n: nat): (r: seq<T>)
    requires n > 0
    ensures |r| == if |h| < n then |h| + 1 else n
    ensures |r| > 0 && r[|r| - 1] == e
    ensures r[..|r| - 1] == h[|h| + 1 - |r|..]
    ensures |h| < n ==> r == h + [e]
  {
    var r := KeepNewest(h + [e], n);
    assert r == (h + [e])[|h| + 1 - |r|..];
    r
  }

  /** `s[:limit]`, including Python's reading of a negative `limit` as "all but the last". */
  function PyTake<T>(s: seq<T>, limit: int): (r: seq<T>)
    ensures |r| <= |s| && r == s[..|r|]
    ensures 0 <= limit <= |s| ==> |r| == limit
    ensures limit > |s| ==> r == s
    ensures limit < 0 ==> |r| == if -limit < |s| then |s| + limit else 0
  {
    if limit >= 0 then s[..if limit < |s| then limit else |s|]
    else s[..if |s| + limit > 0 then |s| + limit else 0]
  }

  function Reverse<T>(s: seq<T>): (r: seq<T>)
    ensures |r| == |s|
    ensures forall i :: 0 <= i < |s| ==> r[i] == s[|s| - 1 - i]
  {
    if s == [] then [] else Reverse(s[1..]) + [s[0]]
  }

  /** `s.index(x)`: the position of the first occurrence of `x`. */
  function IndexOf<T(==)>(s: seq<T>, x: T): (i: nat)
    requires x in s
    ensures i < |s| && s[i] == x && x !in s[..i]
  {
    if s[0] == x then 0
    else
      var j := IndexOf(s[1..], x);
      assert s[..j + 1] == [s[0]] + s[1..][..j];
      j + 1
  }

  /** `s.remove(x)`: drops the first occurrence of `x`. */
  function RemoveFirst<T(==)>(s: seq<T>, x: T): (r: seq<T>)
    requires x in s
    ensures |r| == |s| - 1
    ensures multiset(r) == multiset(s) - multiset{x}
    ensures exists i :: 0 <= i < |s| && s[i] == x && x !in s[..i] && r == s[..i] + s[i + 1..]
  {
    var i := IndexOf(s, x);
    assert s == s[..i] + [x] + s[i + 1..];
    s[..i] + s[i + 1..]
  }

  /** Removing an element appended to a list that did not hold it gives the list back. */
  lemma RemoveAppended<T>(s: seq<T>, x: T)
    requires x !in s
    ensures RemoveFirst(s + [x], x) == s
  {
    var t := s + [x];
    assert forall j :: 0 <= j < |s| ==> t[j] != x;
    assert IndexOf(t, x) == |s|;
    assert t[..|s|] + t[|s| + 1..] == s;
  }

  function Flatten<T>(ss: seq<seq<T>>): seq<T> {
    if ss == [] then [] else ss[0] + Flatten(ss[1..])
  }

  /** `s` with every occurrence of `x` taken out, the rest in order. */
  function Without<T(==)>(s: seq<T>, x: T): seq<T> {
    if s == [] then [] else (if s[0] == x then [] else [s[0]]) + Without(s[1..], x)
  }

  /** `s` with the elements of `gone` taken out, the rest in order. */
  function Drop<T(==)>(s: seq<T>, gone: set<T>): seq<T> {
    if s == [] then [] else (if s[0] in gone then [] else [s[0]]) + Drop(s[1..], gone)
  }

  /** `Drop` keeps exactly the elements outside `gone`, and no duplicates appear. */
  lemma {:induction false} DropFacts<T(!new)>(s: seq<T>, gone: set<T>)
    ensures forall y :: y in Drop(s, gone) <==> y in s && y !in gone
    ensures NoDup(s) ==> NoDup(Drop(s, gone))
  {
    if s != [] {
      var t := Drop(s[1..], gone);
      DropFacts(s[1..], gone);
      assert forall y :: y in s <==> y == s[0] || y in s[1..];
      if NoDup(s) {
        forall i, j | 0 <= i < j < |s[1..]| ensures s[1..][i] != s[1..][j] {
          assert s[1..][i] == s[i + 1] && s[1..][j] == s[j + 1];
        }
        forall i | 0 <= i < |s[1..]| ensures s[1..][i] != s[0] { assert s[1..][i] == s[i + 1]; }
        var r := (if s[0] in gone then [] else [s[0]]) + t;
        assert s[0] !in t;
        forall i, j | 0 <= i < j < |r| ensures r[i] != r[j] {
          if s[0] !in gone && i == 0 {
            assert r[j] == t[j - 1];
          }
        }
      }
    }
  }

  lemma {:induction false} WithoutAbsent<T>(s: seq<T>, x: T)
    requires x !in s
    ensures Without(s, x) == s
  {
    if s != [] {
      assert x !in s[1..];
      WithoutAbsent(s[1..], x);
    }
  }

  /** Cutting out position `i` of a sequence without duplicates takes out that element only. */
  lemma {:induction false} WithoutAt<T>(s: seq<T>, i: nat)
    requires NoDup(s) && i < |s|
    ensures s[..i] + s[i + 1..] == Without(s, s[i])
  {
    var t := s[1..];
    assert NoDup(t) by {
      forall a, b | 0 <= a < b < |t| ensures t[a] != t[b] { assert t[a] == s[a + 1] && t[b] == s[b + 1]; }
    }
    if i == 0 {
      assert s[0] !in t by {
        forall a | 0 <= a < |t| ensures t[a] != s[0] { assert t[a] == s[a + 1]; }
      }
      WithoutAbsent(t, s[0]);
    } else {
      WithoutAt(t, i - 1);
      assert t[i - 1] == s[i];
      assert s[0] != s[i];
      assert s[..i] == [s[0]] + t[..i - 1];
      assert s[i + 1..] == t[i..];
    }
  }

  /** Taking out one more element after a `Drop` is the `Drop` of the larger set. */
  lemma {:induction false} DropMore<T(!new)>(s: seq<T>, gone: set<T>, x: T)
    ensures Without(Drop(s, gone), x) == Drop(s, gone + {x})
  {
    if s != [] {
      DropMore(s[1..], gone, x);
      var t := Drop(s[1..], gone);
      var more := Drop(s[1..], gone + {x});
      if s[0] in gone {
        assert Drop(s, gone) == t;
        assert Drop(s, gone + {x}) == more;
      } else {
        var u := [s[0]] + t;
        assert Drop(s, gone) == u;
        assert u[0] == s[0] && u[1..] == t;
        assert Without(u, x) == (if s[0] == x then [] else [s[0]]) + Without(t, x);
        assert Drop(s, gone + {x}) == (if s[0] == x then [] else [s[0]]) + more;
      }
    }
  }

  /** Dropping nothing keeps the sequence. */
  lemma {:induction false} DropNothing<T(!new)>(s: seq<T>)
    ensures Drop(s, {}) == s
  {
    if s != [] {
      DropNothing(s[1..]);
    }
  }
}
