/**
 * A Python `dict`: a finite map that remembers the order in which its keys were first
 * inserted. Iteration (`for k in d`, `d.items()`, `d.values()`) follows that order;
 * assigning to an existing key keeps its place, deleting a key drops it from the order.
 */
module OrderedDict {
  import opened SeqUtil

  datatype ODict<K, V> = ODict(keys: seq<K>, vals: map<K, V>)

  ghost predicate Valid<K, V>(d: ODict<K, V>) {
    NoDup(d.keys)
    && (forall i :: 0 <= i < |d.keys| ==> d.keys[i] in d.vals)
    && (forall k :: k in d.vals ==> k in d.keys)
  }

  function Empty<K, V>(): (d: ODict<K, V>)
    ensures Valid(d) && d.vals == map[]
  {
    ODict([], map[])
  }

  /** `d[k] = v` */
  function Put<K, V>(d: ODict<K, V>, k: K, v: V): (r: ODict<K, V>)
    requires Valid(d)
    ensures Valid(r)
    ensures r.vals == d.vals[k := v]
    ensures k in d.vals ==> r.keys == d.keys
    ensures k !in d.vals ==> r.keys == d.keys + [k]
  {
    if k in d.vals then ODict(d.keys, d.vals[k := v])
    else ODict(d.keys + [k], d.vals[k := v])
  }

  /** `del d[k]` (a no-op when `k` is absent, as guarded by the callers) */
  function Remove<K, V>(d: ODict<K, V>, k: K): (r: ODict<K, V>)
    requires Valid(d)
    ensures Valid(r)
    ensures r.vals == d.vals - {k}
    ensures forall i :: 0 <= i < |r.keys| ==> r.keys[i] in d.keys
  {
    if k in d.vals then
      var i := IndexOf(d.keys, k);
      var ks := d.keys[..i] + d.keys[i + 1..];
      DropAt(d.keys, i);
      ODict(ks, d.vals - {k})
    else d
  }

  /** Deleting a key takes it out of the order and keeps the order of the others. */
  lemma RemoveKeys<K(!new), V>(d: ODict<K, V>, k: K)
    requires Valid(d)
    ensures Remove(d, k).keys == Without(d.keys, k)
  {
    if k in d.vals {
      WithoutAt(d.keys, IndexOf(d.keys, k));
    } else {
      WithoutAbsent(d.keys, k);
    }
  }

  /** Deleting position `i` keeps the other elements, distinct, and nothing else. */
  lemma DropAt<K>(s: seq<K>, i: nat)
    requires NoDup(s) && i < |s|
    ensures NoDup(s[..i] + s[i + 1..])
    ensures forall a :: a in s[..i] + s[i + 1..] <==> a in s && a != s[i]
  {
    var t := s[..i] + s[i + 1..];
    assert forall j :: 0 <= j < |t| ==> t[j] == if j < i then s[j] else s[j + 1];
    forall a | a in s && a != s[i] ensures a in t {
      var j :| 0 <= j < |s| && s[j] == a;
      if j < i { assert t[j] == a; } else { assert t[j - 1] == a; }
    }
  }

  /** `list(d.values())`, in key order. */
  function Values<K, V>(d: ODict<K, V>): (r: seq<V>)
    requires Valid(d)
    ensures |r| == |d.keys|
    ensures forall i :: 0 <= i < |d.keys| ==> r[i] == d.vals[d.keys[i]]
  {
    seq(|d.keys|, i requires 0 <= i < |d.keys| && Valid(d) => d.vals[d.keys[i]])
  }

  /** `len(d)` */
  function Size<K, V>(d: ODict<K, V>): (n: nat)
    requires Valid(d)
    ensures n == |d.vals.Keys|
  {
    KeysCount(d);
    |d.keys|
  }

  lemma KeysCount<K, V>(d: ODict<K, V>)
    requires Valid(d)
    ensures |d.keys| == |d.vals.Keys|
  {
    DistinctCard(d.keys);
    assert (set k | k in d.keys) == d.vals.Keys;
  }

  /** A sequence without duplicates has as many elements as its set. */
  lemma {:induction false} DistinctCard<K>(s: seq<K>)
    requires NoDup(s)
    ensures |set k | k in s| == |s|
  {
    if s != [] {
      var t := s[1..];
      assert NoDup(t) by {
        forall i, j | 0 <= i < j < |t| ensures t[i] != t[j] {
          assert t[i] == s[i + 1] && t[j] == s[j + 1];
        }
      }
      DistinctCard(t);
      assert s[0] !in t by {
        forall i | 0 <= i < |t| ensures t[i] != s[0] { assert t[i] == s[i + 1]; }
      }
      assert (set k | k in s) == (set k | k in t) + {s[0]};
    }
  }
}
