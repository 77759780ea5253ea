/**
 * Bookkeeping shared by the three managers: the quote store keyed by id, the per-platform
 * counter, the bounded arbitrage history, and the fact that the correlation scan keeps the
 * store keyed by id while tagging the quotes it matched.
 */
module Ledger {
  import opened Wrappers
  import opened BetOption
  import opened Arbitrage
  import Correlation
  import OD = OrderedDict

  /** `max_history` */
  const MaxHistory: nat := 1000

  /** `history` entries. */
  datatype HistoryEntry = HistoryEntry(timestamp: int, matchLabel: string, profit: real, platforms: seq<string>)

  /** `[odd.platform for odd in odds_list]` */
  function Platforms(odds: seq<Record>): (r: seq<string>)
    ensures |r| == |odds| && forall i :: 0 <= i < |odds| ==> r[i] == odds[i].platform
  {
    seq(|odds|, i requires 0 <= i < |odds| => odds[i].platform)
  }

  /** `platform_counts[platform] += 1` on a `Counter`. */
  function Bump(counts: map<string, nat>, platform: string): (r: map<string, nat>)
    ensures r.Keys == counts.Keys + {platform}
    ensures r[platform] == (if platform in counts then counts[platform] else 0) + 1
    ensures forall p :: p in counts && p != platform ==> r[p] == counts[p]
  {
    counts[platform := (if platform in counts then counts[platform] else 0) + 1]
  }

  /** Every stored record is stored under its own id. */
  ghost predicate KeyedById(vals: map<string, Record>) {
    forall k :: k in vals ==> vals[k].id == k
  }

  /** Each record of the list is the one stored under its id (the list holds stored objects). */
  ghost predicate AllStored(odds: seq<Record>, vals: map<string, Record>) {
    forall o :: o in odds ==> o.id in vals && vals[o.id] == o
  }

  function TimestampKey(o: Record): real { o.timestamp as real }

  /**
   * After the scan, the store still keys every quote by its id, and every matched quote
   * is exactly the tagged object now stored under its id.
   */
  lemma ScanKeepsStore(sim: Correlation.Sim, odd: Record, db: OD.ODict<string, Record>, window: bool)
    requires OD.Valid(db) && KeyedById(db.vals)
    ensures var vals := Correlation.TagStore(sim, odd, db.vals, window);
      OD.Valid(OD.ODict(db.keys, vals)) && KeyedById(vals)
      && AllStored(Correlation.Matched(sim, odd, db, window), vals)
      && (odd.id in db.vals ==> vals[odd.id] == db.vals[odd.id])
  {
    var vals := Correlation.TagStore(sim, odd, db.vals, window);
    Correlation.MatchedAreValid(sim, odd, db, |db.keys|, window);
    forall r | r in Correlation.Matched(sim, odd, db, window)
      ensures r.id in vals && vals[r.id] == r
    {
      var j :| 0 <= j < |db.keys| && Correlation.MatchOf(sim, odd, db.vals[db.keys[j]], r, window);
      var other := db.vals[db.keys[j]];
      assert Correlation.Verdict(sim, odd, other, window)
        == Some(Correlation.Reversed(sim, odd, other) && !Correlation.Standard(sim, odd, other));
    }
  }

  /** What one call of the keep-best versions of `add_odd` did. */
  datatype Ingestion =
    | Garbage
      /** Stored; `matched` is `odds[1:]`; `evaluation` is present when there was a match; `added` is `is_new`. */
    | Ingested(matched: seq<Record>, evaluation: Option<Evaluation>, added: bool)
}
