/**
 * The worker version: a keep-best `ArbitrageManager` without threshold, blacklist or
 * history and with thirty-minute expiry, a `StatsManager` that counts every ingestion and
 * keeps the newest thousand quotes, and the module-level `add_odd` over a global store.
 */
module Worker {
  import opened Wrappers
  import opened BetOption
  import opened Arbitrage
  import opened Ledger
  import opened Registry
  import SeqUtil
  import Sorting
  import Correlation
  import Names
  import OD = OrderedDict

  /** `expiration_timer`: 30 minutes, in seconds. */
  const ExpirationTimer: int := 1800

  /** The length of the `last_odds` window. */
  const RecentWindow: nat := 1000

  /** The entry `add_arbitrage` builds at clock reading `now`, before the hash is chosen. */
  function BriefFor(matchLabel: string, profit: real, bets: seq<BetLine>, odds: seq<Record>, now: int): (info: ArbInfo)
    ensures info.Brief? && info.matchKey == MatchKey(odds) && info.timestamp == now && info.profit == profit
  {
    Brief(matchLabel, profit, bets, now, "", MatchKey(odds))
  }

  class ArbitrageManager {
    var active: Table
    /** The hash of a match key. */
    const digest: Digest

    ghost predicate Valid()
      reads this
    {
      OD.Valid(active) && HashedByKey(active, digest)
    }

    constructor (digest: Digest)
      ensures Valid() && active.vals == map[] && this.digest == digest
    {
      active := OD.Empty();
      this.digest := digest;
    }

    /** `_clean_expired()` at clock reading `now`. */
    method CleanExpired(now: int)
      requires Valid()
      modifies this
      ensures Valid()
      ensures active == Unexpired(old(active), now, ExpirationTimer)
    {
      active := Registry.CleanExpired(active, now, ExpirationTimer);
    }

    /** `_match_exists(match_key)`: whether some entry has this match key (its digest's, as the table is keyed). */
    method MatchExists(key: set<string>) returns (b: bool)
      requires Valid()
      ensures b <==> exists h :: h in active.vals && active.vals[h].matchKey == key
      ensures b <==> Live(active, digest, key)
    {
      var found := FindByKey(active, key);
      HashedLookup(active, digest, key);
      b := found.Some?;
      if !b {
        forall h | h in active.vals ensures active.vals[h].matchKey != key {
          var i :| 0 <= i < |active.keys| && active.keys[i] == h;
        }
      }
    }

    /**
     * `add_arbitrage(match, profit, bets, odds_list)` at clock reading `now`: clean, then
     * the keep-best decision, with no threshold and no blacklist.
     */
    method AddArbitrage(matchLabel: string, profit: real, bets: seq<BetLine>, oddsList: seq<Record>, now: int)
      returns (added: bool)
      requires Valid()
      modifies this
      ensures Valid()
      ensures (active, added) == Offer(Unexpired(old(active), now, ExpirationTimer), digest,
                                       BriefFor(matchLabel, profit, bets, oddsList, now))
    {
      CleanExpired(now);
      var key := MatchKey(oddsList);
      var info := BriefFor(matchLabel, profit, bets, oddsList, now);
      OfferOutcome(active, digest, info);
      var found := FindByKey(active, key);
      if found.Some? {
        var h := found.value;
        if profit > active.vals[h].profit {
          active := OD.Put(active, h, WithHash(info, h));
          return true;
        }
        return false;
      }
      var h := digest(key);
      active := OD.Put(active, h, WithHash(info, h));
      return true;
    }

    /** `get_active_arbitrages()` at clock reading `now`: clean, then largest profit first. */
    method GetActiveArbitrages(now: int) returns (result: seq<ArbInfo>)
      requires Valid()
      modifies this
      ensures Valid()
      ensures active == Unexpired(old(active), now, ExpirationTimer)
      ensures result == Sorting.SortDesc(OD.Values(active), ProfitOf)
      ensures Sorting.SortedDesc(result, ProfitOf) && multiset(result) == multiset(OD.Values(active))
    {
      CleanExpired(now);
      result := Sorting.SortDesc(OD.Values(active), ProfitOf);
    }

    /** `get_count()` at clock reading `now`: clean, then count. */
    method GetCount(now: int) returns (n: nat)
      requires Valid()
      modifies this
      ensures Valid()
      ensures active == Unexpired(old(active), now, ExpirationTimer)
      ensures n == |active.vals.Keys|
    {
      CleanExpired(now);
      n := OD.Size(active);
    }
  }

  /**
   * Without a threshold, any offer for a match key with no unexpired entry is accepted,
   * whatever its profit, and it sits under the key's digest.
   */
  lemma UnseenKeyAccepted(t: Table, digest: Digest, info: ArbInfo)
    requires OD.Valid(t) && HashedByKey(t, digest) && !Live(t, digest, info.matchKey)
    ensures Offer(t, digest, info).1
    ensures Offer(t, digest, info).0.vals == t.vals[digest(info.matchKey) := WithHash(info, digest(info.matchKey))]
  {
    OfferOutcome(t, digest, info);
  }

  class StatsManager {
    var oddsCount: nat
    var platformCounts: map<string, nat>
    var matchesFound: nat
    var lastOdds: seq<Record>

    ghost predicate Valid()
      reads this
    {
      |lastOdds| <= RecentWindow
    }

    constructor ()
      ensures Valid() && oddsCount == 0 && platformCounts == map[] && matchesFound == 0 && lastOdds == []
    {
      oddsCount := 0;
      platformCounts := map[];
      matchesFound := 0;
      lastOdds := [];
    }

    /** `add_odd(odd)`: count every call, the platform included, and keep the newest quotes. */
    method AddOdd(odd: Record)
      requires Valid()
      modifies this
      ensures Valid()
      ensures oddsCount == old(oddsCount) + 1
      ensures platformCounts == Bump(old(platformCounts), odd.platform)
      ensures lastOdds == SeqUtil.BoundedAppend(old(lastOdds), odd, RecentWindow)
      ensures matchesFound == old(matchesFound)
    {
      oddsCount := oddsCount + 1;
      platformCounts := Bump(platformCounts, odd.platform);
      lastOdds := SeqUtil.KeepNewest(lastOdds + [odd], RecentWindow);
    }

    /** `add_match()` */
    method AddMatch()
      modifies this
      ensures matchesFound == old(matchesFound) + 1
      ensures oddsCount == old(oddsCount) && platformCounts == old(platformCounts) && lastOdds == old(lastOdds)
    {
      matchesFound := matchesFound + 1;
    }

    /** `get_recent_odds(limit)`: the kept quotes, newest first, cut to `limit`. */
    method GetRecentOdds(limit: int) returns (r: seq<Record>)
      ensures r == SeqUtil.PyTake(SeqUtil.Reverse(lastOdds), limit)
    {
      r := SeqUtil.PyTake(SeqUtil.Reverse(lastOdds), limit);
    }
  }

  /**
   * The quote just recorded is the first one `get_recent_odds` returns for any positive
   * limit, followed by the ones recorded before it, newest first.
   */
  lemma NewestFirst(lastOdds: seq<Record>, odd: Record, limit: int)
    requires limit > 0
    ensures var r := SeqUtil.PyTake(SeqUtil.Reverse(SeqUtil.BoundedAppend(lastOdds, odd, RecentWindow)), limit);
      |r| >= 1 && r[0] == odd
      && forall i :: 1 <= i < |r| ==> r[i] == lastOdds[|lastOdds| - i]
  {
    var kept := SeqUtil.BoundedAppend(lastOdds, odd, RecentWindow);
    var r := SeqUtil.PyTake(SeqUtil.Reverse(kept), limit);
    forall i | 1 <= i < |r| ensures r[i] == lastOdds[|lastOdds| - i] {
      assert r[i] == kept[|kept| - 1 - i];
      assert kept[..|kept| - 1][|kept| - 1 - i] == kept[|kept| - 1 - i];
    }
  }

  /** The module-level state of the worker: the global store and the two managers. */
  class Engine {
    var database: OD.ODict<string, Record>
    const stats: StatsManager
    const arbitrages: ArbitrageManager
    /** The name tables and fuzzy oracles that `are_similar` consults. */
    const matcher: Names.Matcher
    /** `are_similar` with the default threshold, as a relation. */
    ghost const sim: Correlation.Sim

    ghost predicate Valid()
      reads this, stats, arbitrages
    {
      stats.Valid() && arbitrages.Valid()
      && OD.Valid(database) && KeyedById(database.vals)
      && Correlation.Decides(matcher, sim)
    }

    constructor (matcher: Names.Matcher, ghost sim: Correlation.Sim, digest: Digest)
      requires Correlation.Decides(matcher, sim)
      ensures Valid() && fresh(stats) && fresh(arbitrages)
      ensures database.vals == map[] && arbitrages.active.vals == map[] && arbitrages.digest == digest
      ensures stats.oddsCount == 0 && stats.lastOdds == [] && stats.matchesFound == 0 && stats.platformCounts == map[]
    {
      database := OD.Empty();
      stats := new StatsManager();
      arbitrages := new ArbitrageManager(digest);
      this.matcher := matcher;
      this.sim := sim;
    }

    /** The scan of `add_odd` over the store, with the tags written into the stored quotes. */
    method Correlate(odd: Record) returns (matched: seq<Record>)
      requires Valid()
      modifies this, stats
      ensures Valid()
      ensures database == OD.ODict(old(database.keys), Correlation.TagStore(sim, odd, old(database.vals), false))
      ensures matched == Correlation.Matched(sim, odd, old(database), false)
      ensures stats.matchesFound == old(stats.matchesFound) + (if |matched| > 0 then 1 else 0)
      ensures stats.oddsCount == old(stats.oddsCount) && stats.platformCounts == old(stats.platformCounts)
      ensures stats.lastOdds == old(stats.lastOdds)
    {
      var vals;
      vals, matched := Correlation.Scan(matcher, sim, odd, database, false);
      ScanKeepsStore(sim, odd, database, false);
      database := OD.ODict(database.keys, vals);
      if |matched| > 0 {
        stats.AddMatch();
      }
    }

    /** The pricing half of `add_odd` for a quote with at least one match. */
    method Price(odd: Record, matched: seq<Record>, now: int) returns (evaluation: Evaluation, added: bool)
      requires Valid() && |matched| > 0
      requires OddsInRange(odd.probaA) && OddsInRange(odd.probaB)
      modifies arbitrages
      ensures Valid()
      ensures evaluation == Evaluate(BestPrices([odd] + matched))
      ensures if evaluation.Opportunity? then
                var bets := BetLines(odd, BestPrices([odd] + matched), evaluation.stakes);
                (arbitrages.active, added)
                == Offer(Unexpired(old(arbitrages.active), now, ExpirationTimer), arbitrages.digest,
                         BriefFor(MatchLabel(odd), evaluation.profit, bets, [odd] + matched, now))
              else arbitrages.active == old(arbitrages.active) && !added
    {
      var odds := [odd] + matched;
      var best := ComputeBest(odds);
      evaluation := Evaluate(best);
      added := false;
      if evaluation.Opportunity? {
        var bets := BetLines(odd, best, evaluation.stakes);
        added := arbitrages.AddArbitrage(MatchLabel(odd), evaluation.profit, bets, odds, now);
      }
    }

    /**
     * `add_odd(odd)` with `today` for `date.today()` and `now` for the clock. A garbage
     * quote changes nothing. Otherwise the quote is stored, counted by the statistics on
     * every call, and correlated; with at least one match the group is priced, and an
     * opportunity is offered to the arbitrage manager.
     */
    method AddOdd(odd: Record, today: int, now: int) returns (outcome: Ingestion)
      requires Valid()
      modifies this, stats, arbitrages
      ensures Valid()
      ensures IsGarbage(odd, today) <==> outcome.Garbage?
      ensures outcome.Garbage? ==>
        database == old(database) && arbitrages.active == old(arbitrages.active)
        && stats.oddsCount == old(stats.oddsCount) && stats.platformCounts == old(stats.platformCounts)
        && stats.lastOdds == old(stats.lastOdds) && stats.matchesFound == old(stats.matchesFound)
      ensures outcome.Ingested? ==>
        var db := OD.Put(old(database), odd.id, odd);
        var odds := [odd] + outcome.matched;
        database == OD.ODict(db.keys, Correlation.TagStore(sim, odd, db.vals, false))
        && outcome.matched == Correlation.Matched(sim, odd, db, false)
        && stats.oddsCount == old(stats.oddsCount) + 1
        && stats.platformCounts == Bump(old(stats.platformCounts), odd.platform)
        && stats.lastOdds == SeqUtil.BoundedAppend(old(stats.lastOdds), odd, RecentWindow)
        && stats.matchesFound == old(stats.matchesFound) + (if |outcome.matched| > 0 then 1 else 0)
        && (outcome.matched == [] <==> outcome.evaluation.None?)
        && (outcome.evaluation.Some? ==> outcome.evaluation.value == Evaluate(BestPrices(odds)))
        && (if outcome.evaluation.Some? && outcome.evaluation.value.Opportunity? then
              var e := outcome.evaluation.value;
              (arbitrages.active, outcome.added)
              == Offer(Unexpired(old(arbitrages.active), now, ExpirationTimer), arbitrages.digest,
                       BriefFor(MatchLabel(odd), e.profit, BetLines(odd, BestPrices(odds), e.stakes), odds, now))
            else arbitrages.active == old(arbitrages.active) && !outcome.added)
    {
      if IsGarbage(odd, today) {
        return Garbage;
      }
      database := OD.Put(database, odd.id, odd);
      stats.AddOdd(odd);
      var matched := Correlate(odd);
      AcceptedIff(odd, today);
      if |matched| == 0 {
        return Ingested(matched, None, false);
      }
      var evaluation, added := Price(odd, matched, now);
      return Ingested(matched, Some(evaluation), added);
    }
  }
}
