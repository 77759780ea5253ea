/**
 * The keep-best table of arbitrage opportunities used by the root `Manager` and by the
 * worker's `ArbitrageManager`: a dictionary from a hash to an entry, entries that expire
 * with age, and the decision that keeps, for each match key, only the most profitable offer.
 */
module Registry {
  import opened Wrappers
  import opened SeqUtil
  import opened Arbitrage
  import OD = OrderedDict

  /** `hashlib.md5(str(sorted(match_key)).encode()).hexdigest()`, taken as an opaque function. */
  type Digest = set<string> -> string

  /** The dictionary stored for one opportunity. */
  datatype ArbInfo =
      /** The worker's entries. */
    | Brief(matchLabel: string, profit: real, bets: seq<BetLine>, timestamp: int,
            hash: string, matchKey: set<string>)
      /** The root manager's entries, which also list the platforms, count the bets and repeat the profit. */
    | Detailed(matchLabel: string, profit: real, bets: seq<BetLine>, timestamp: int,
               hash: string, matchKey: set<string>, platforms: seq<string>, betCount: nat, maxProfit: real)

  /** The entry stored under hash `h`. */
  function WithHash(info: ArbInfo, h: string): ArbInfo {
    info.(hash := h)
  }

  /** `active_arbitrages`, in insertion order. */
  type Table = OD.ODict<string, ArbInfo>

  /** `_is_expired(timestamp)` at clock reading `now`: strictly older than `timer` seconds. */
  predicate Expired(info: ArbInfo, now: int, timer: int) {
    now - info.timestamp > timer
  }

  function ExpiredSet(t: Table, now: int, timer: int): set<string> {
    set h | h in t.vals && Expired(t.vals[h], now, timer)
  }

  /** The table after `_clean_expired` at `now`: exactly the entries that are not expired. */
  function Unexpired(t: Table, now: int, timer: int): (r: Table)
    requires OD.Valid(t)
    ensures OD.Valid(r)
    ensures forall h :: h in r.vals <==> h in t.vals && !Expired(t.vals[h], now, timer)
    ensures forall h :: h in r.vals ==> r.vals[h] == t.vals[h]
  {
    var gone := ExpiredSet(t, now, timer);
    var ks := Drop(t.keys, gone);
    DropFacts(t.keys, gone);
    assert forall i :: 0 <= i < |ks| ==> ks[i] in ks;
    OD.ODict(ks, t.vals - gone)
  }

  /** The first entry, in table order, whose match key is `key`. */
  function FirstWithKey(keys: seq<string>, vals: map<string, ArbInfo>, key: set<string>): (r: Option<string>)
    requires forall i :: 0 <= i < |keys| ==> keys[i] in vals
    ensures r.None? <==> forall i :: 0 <= i < |keys| ==> vals[keys[i]].matchKey != key
    ensures r.Some? ==> exists i :: 0 <= i < |keys| && keys[i] == r.value && vals[r.value].matchKey == key
                          && forall j :: 0 <= j < i ==> vals[keys[j]].matchKey != key
  {
    if keys == [] then None
    else if vals[keys[0]].matchKey == key then Some(keys[0])
    else
      var r := FirstWithKey(keys[1..], vals, key);
      assert forall i :: 1 <= i < |keys| ==> keys[i] == keys[1..][i - 1];
      if r.Some? then
        var i :| 0 <= i < |keys[1..]| && keys[1..][i] == r.value && vals[r.value].matchKey == key
                 && forall j :: 0 <= j < i ==> vals[keys[1..][j]].matchKey != key;
        assert keys[i + 1] == r.value;
        r
      else r
  }

  /** Every entry is stored under its own hash, which is the digest of its match key. */
  ghost predicate HashedByKey(t: Table, digest: Digest) {
    forall h :: h in t.vals ==> t.vals[h].hash == h && digest(t.vals[h].matchKey) == h
  }

  /** A table keyed by digests holds at most one entry per match key. */
  lemma OneEntryPerKey(t: Table, digest: Digest, h1: string, h2: string)
    requires HashedByKey(t, digest) && h1 in t.vals && h2 in t.vals
    requires t.vals[h1].matchKey == t.vals[h2].matchKey
    ensures h1 == h2
  {
  }

  /** In a table keyed by digests, the scan for a match key finds the entry under its digest, if any. */
  lemma HashedLookup(t: Table, digest: Digest, key: set<string>)
    requires OD.Valid(t) && HashedByKey(t, digest)
    ensures FirstWithKey(t.keys, t.vals, key)
            == if digest(key) in t.vals && t.vals[digest(key)].matchKey == key then Some(digest(key)) else None
  {
    var h := digest(key);
    if h in t.vals && t.vals[h].matchKey == key {
      var i :| 0 <= i < |t.keys| && t.keys[i] == h;
      assert t.vals[t.keys[i]].matchKey == key;
    }
  }

  /**
   * The keep-best decision of `add_arbitrage` on a cleaned table, for an offer whose hash is
   * still to be assigned: the first entry with the same match key is replaced only by a
   * strictly more profitable offer, which takes over its hash; an unseen key goes in under
   * its digest. Returns the new table and whether the offer went in.
   */
  function Offer(t: Table, digest: Digest, info: ArbInfo): (r: (Table, bool))
    requires OD.Valid(t)
    ensures OD.Valid(r.0)
  {
    match FirstWithKey(t.keys, t.vals, info.matchKey)
    case Some(h) =>
      if info.profit > t.vals[h].profit then (OD.Put(t, h, WithHash(info, h)), true) else (t, false)
    case None =>
      var h := digest(info.matchKey);
      (OD.Put(t, h, WithHash(info, h)), true)
  }

  /** Whether a table holds an entry for `key`, and that entry (under the key's digest). */
  ghost predicate Live(t: Table, digest: Digest, key: set<string>) {
    digest(key) in t.vals && t.vals[digest(key)].matchKey == key
  }

  /**
   * What `Offer` does, on a table keyed by digests: the offer goes in exactly when no entry
   * has its match key or it beats that entry's profit; it then sits under the key's digest
   * (an existing entry keeps its place in the order); a refused offer changes nothing. The
   * table stays keyed by digests.
   */
  lemma OfferOutcome(t: Table, digest: Digest, info: ArbInfo)
    requires OD.Valid(t) && HashedByKey(t, digest)
    ensures var r := Offer(t, digest, info); var h := digest(info.matchKey);
      (r.1 <==> !Live(t, digest, info.matchKey) || info.profit > t.vals[h].profit)
      && (r.1 ==> r.0.vals == t.vals[h := WithHash(info, h)])
      && (r.1 && Live(t, digest, info.matchKey) ==> r.0.keys == t.keys)
      && (!r.1 ==> r.0 == t)
      && HashedByKey(r.0, digest)
  {
    HashedLookup(t, digest, info.matchKey);
  }

  /** `_clean_expired`: collect the expired hashes in table order, then delete each one. */
  method CleanExpired(t: Table, now: int, timer: int) returns (r: Table)
    requires OD.Valid(t)
    ensures r == Unexpired(t, now, timer)
  {
    var expired := ExpiredHashes(t, now, timer);
    r := t;
    ghost var gone: set<string> := {};
    DropNothing(t.keys);
    assert t.vals - gone == t.vals;
    for j := 0 to |expired|
      invariant forall h :: h in gone <==> h in expired[..j]
      invariant r == OD.ODict(Drop(t.keys, gone), t.vals - gone) && OD.Valid(r)
    {
      assert expired[..j + 1] == expired[..j] + [expired[j]];
      DeleteStep(t, gone, r, expired[j]);
      r := OD.Remove(r, expired[j]);
      gone := gone + {expired[j]};
    }
    assert expired[..|expired|] == expired;
    assert gone == ExpiredSet(t, now, timer);
  }

  /** Deleting one more hash from a table is dropping one more hash from its keys and values. */
  lemma DeleteStep(t: Table, gone: set<string>, r: Table, h: string)
    requires r == OD.ODict(Drop(t.keys, gone), t.vals - gone) && OD.Valid(r)
    ensures OD.Remove(r, h) == OD.ODict(Drop(t.keys, gone + {h}), t.vals - (gone + {h}))
  {
    var d := OD.Remove(r, h);
    OD.RemoveKeys(r, h);
    DropMore(t.keys, gone, h);
    assert d.keys == Drop(t.keys, gone + {h});
    assert d.vals == (t.vals - gone) - {h};
    assert (t.vals - gone) - {h} == t.vals - (gone + {h});
  }

  /** `[h for h, a in active_arbitrages.items() if _is_expired(a["timestamp"])]` */
  method ExpiredHashes(t: Table, now: int, timer: int) returns (expired: seq<string>)
    requires OD.Valid(t)
    ensures forall h :: h in expired <==> h in ExpiredSet(t, now, timer)
  {
    expired := [];
    for i := 0 to |t.keys|
      invariant forall h :: h in expired <==> h in t.keys[..i] && Expired(t.vals[h], now, timer)
    {
      var h := t.keys[i];
      assert t.keys[..i + 1] == t.keys[..i] + [h];
      if Expired(t.vals[h], now, timer) {
        expired := expired + [h];
      }
    }
    assert t.keys[..|t.keys|] == t.keys;
  }

  /** The scan of `active_arbitrages.items()` for the first entry with match key `key`. */
  method FindByKey(t: Table, key: set<string>) returns (found: Option<string>)
    requires OD.Valid(t)
    ensures found == FirstWithKey(t.keys, t.vals, key)
  {
    var i := 0;
    while i < |t.keys|
      invariant 0 <= i <= |t.keys|
      invariant FirstWithKey(t.keys, t.vals, key) == FirstWithKey(t.keys[i..], t.vals, key)
    {
      var h := t.keys[i];
      assert t.keys[i..][0] == h && t.keys[i..][1..] == t.keys[i + 1..];
      if t.vals[h].matchKey == key {
        return Some(h);
      }
      i := i + 1;
    }
    return None;
  }

  /** The sort key of `get_active_arbitrages`, `lambda x: x["profit"]`. */
  function ProfitOf(info: ArbInfo): real { info.profit }
}
