/**
 * The `Manager` of the root version: the quote store, the correlation scan (without a
 * date window), the pricing of each correlated group, and a keep-best table of
 * opportunities with a profit threshold, a platform blacklist, expiry after five minutes
 * and a bounded history.
 */
module RootManager {
  import opened Wrappers
  import opened BetOption
  import opened Arbitrage
  import opened Ledger
  import opened Registry
  import SeqUtil
  import Sorting
  import Correlation
  import Names
  import OD = OrderedDict

  /** `expiration_timer`, in seconds. */
  const ExpirationTimer: int := 300

  /** `min_profit_threshold`, in percent. */
  const MinProfitThreshold: real := 1.0

  /** `any(platform in self.platform_blacklist for platform in platforms)` */
  predicate Blacklisted(odds: seq<Record>, blacklist: set<string>) {
    exists o :: o in odds && o.platform in blacklist
  }

  /** `_create_arbitrage_info` at clock reading `now`, before the hash is chosen. */
  function InfoFor(matchLabel: string, profit: real, bets: seq<BetLine>, odds: seq<Record>, now: int): (info: ArbInfo)
    ensures info.Detailed? && info.matchKey == MatchKey(odds) && info.platforms == Platforms(odds)
    ensures info.timestamp == now && info.profit == profit && info.maxProfit == profit && info.betCount == |bets|
  {
    Detailed(matchLabel, profit, bets, now, "", MatchKey(odds), Platforms(odds), |bets|, profit)
  }

  /** The history entry `_update_history` makes of an entry. */
  function EntryOf(info: ArbInfo): HistoryEntry
    requires info.Detailed?
  {
    HistoryEntry(info.timestamp, info.matchLabel, info.profit, info.platforms)
  }

  /** The table, the history and the answer after one `add_arbitrage`. */
  datatype Registration = Registration(active: Table, history: seq<HistoryEntry>, added: bool)

  /**
   * `add_arbitrage(match, profit, bets, odds_list)` at clock reading `now`: an offer below
   * the threshold or naming a blacklisted platform is refused before anything changes;
   * otherwise the table is cleaned and the keep-best decision is taken, and an accepted
   * offer is recorded in the history.
   */
  function AddArbitrageSpec(active: Table, history: seq<HistoryEntry>, blacklist: set<string>, digest: Digest,
                            matchLabel: string, profit: real, bets: seq<BetLine>, odds: seq<Record>, now: int): (r: Registration)
    requires OD.Valid(active)
    ensures OD.Valid(r.active)
  {
    if profit < MinProfitThreshold || Blacklisted(odds, blacklist) then Registration(active, history, false)
    else
      var info := InfoFor(matchLabel, profit, bets, odds, now);
      var offered := Offer(Unexpired(active, now, ExpirationTimer), digest, info);
      Registration(offered.0,
                   if offered.1 then SeqUtil.BoundedAppend(history, EntryOf(info), MaxHistory) else history,
                   offered.1)
  }

  /** A profit below the threshold is refused and changes neither the table nor the history. */
  lemma ThresholdRefused(active: Table, history: seq<HistoryEntry>, blacklist: set<string>, digest: Digest,
                         matchLabel: string, profit: real, bets: seq<BetLine>, odds: seq<Record>, now: int)
    requires OD.Valid(active) && profit < MinProfitThreshold
    ensures AddArbitrageSpec(active, history, blacklist, digest, matchLabel, profit, bets, odds, now)
            == Registration(active, history, false)
  {
  }

  /** Any blacklisted platform in the group gets the offer refused with no change. */
  lemma BlacklistRefused(active: Table, history: seq<HistoryEntry>, blacklist: set<string>, digest: Digest,
                         matchLabel: string, profit: real, bets: seq<BetLine>, odds: seq<Record>, now: int, i: nat)
    requires OD.Valid(active) && i < |odds| && odds[i].platform in blacklist
    ensures AddArbitrageSpec(active, history, blacklist, digest, matchLabel, profit, bets, odds, now)
            == Registration(active, history, false)
  {
    assert odds[i] in odds;
  }

  /** Cleaning keeps a table keyed by digests. */
  lemma UnexpiredKeepsHashed(t: Table, digest: Digest, now: int)
    requires OD.Valid(t) && HashedByKey(t, digest)
    ensures HashedByKey(Unexpired(t, now, ExpirationTimer), digest)
  {
  }

  /**
   * An offer that passes the threshold and the blacklist, on a table keyed by digests: it
   * is accepted exactly when no unexpired entry has its match key or it beats that entry's
   * profit. An accepted offer sits under the match key's digest (so a better offer takes over
   * the hash of the entry it beats) and adds one history entry; a refused one leaves the
   * cleaned table and the history as they were. The table stays keyed by digests, so it never
   * holds two entries for one match key.
   */
  lemma AddArbitrageOutcome(active: Table, history: seq<HistoryEntry>, blacklist: set<string>, digest: Digest,
                            matchLabel: string, profit: real, bets: seq<BetLine>, odds: seq<Record>, now: int)
    requires OD.Valid(active) && HashedByKey(active, digest)
    requires profit >= MinProfitThreshold && !Blacklisted(odds, blacklist)
    ensures var r := AddArbitrageSpec(active, history, blacklist, digest, matchLabel, profit, bets, odds, now);
      var live := Unexpired(active, now, ExpirationTimer);
      var h := digest(MatchKey(odds));
      var info := InfoFor(matchLabel, profit, bets, odds, now);
      (r.added <==> !Live(live, digest, MatchKey(odds)) || profit > live.vals[h].profit)
      && (r.added ==> r.active.vals == live.vals[h := WithHash(info, h)]
                      && r.history == SeqUtil.BoundedAppend(history, EntryOf(info), MaxHistory))
      && (!r.added ==> r.active == live && r.history == history)
      && HashedByKey(r.active, digest)
  {
    var live := Unexpired(active, now, ExpirationTimer);
    UnexpiredKeepsHashed(active, digest, now);
    OfferOutcome(live, digest, InfoFor(matchLabel, profit, bets, odds, now));
  }

  class Manager {
    var active: Table
    var history: seq<HistoryEntry>
    var platformBlacklist: set<string>
    var platformCounts: map<string, nat>
    var matchesFound: nat
    var database: OD.ODict<string, Record>
    /** The name tables and fuzzy oracles that `are_similar` consults. */
    const matcher: Names.Matcher
    /** `are_similar` with the default threshold, as a relation. */
    ghost const sim: Correlation.Sim
    /** The hash of a match key. */
    const digest: Digest

    ghost predicate Valid()
      reads this
    {
      OD.Valid(active) && HashedByKey(active, digest)
      && OD.Valid(database) && KeyedById(database.vals)
      && Correlation.Decides(matcher, sim)
      && |history| <= MaxHistory
    }

    constructor (matcher: Names.Matcher, ghost sim: Correlation.Sim, digest: Digest)
      requires Correlation.Decides(matcher, sim)
      ensures Valid()
      ensures this.matcher == matcher && this.sim == sim && this.digest == digest
      ensures active.vals == map[] && history == [] && platformBlacklist == {}
      ensures platformCounts == map[] && matchesFound == 0 && database.vals == map[]
    {
      active := OD.Empty();
      history := [];
      platformBlacklist := {};
      platformCounts := map[];
      matchesFound := 0;
      database := OD.Empty();
      this.matcher := matcher;
      this.sim := sim;
      this.digest := digest;
    }

    /** `_update_history(arb_info)`: append, then keep the newest `max_history` entries. */
    method UpdateHistory(info: ArbInfo)
      requires info.Detailed? && |history| <= MaxHistory
      modifies this
      ensures history == SeqUtil.BoundedAppend(old(history), EntryOf(info), MaxHistory)
      ensures |history| <= MaxHistory
      ensures active == old(active) && database == old(database) && platformCounts == old(platformCounts)
      ensures matchesFound == old(matchesFound) && platformBlacklist == old(platformBlacklist)
    {
      history := history + [EntryOf(info)];
      if |history| > MaxHistory {
        history := history[|history| - MaxHistory..];
      }
    }

    /** `_clean_expired()` at clock reading `now`. */
    method CleanExpired(now: int)
      requires Valid()
      modifies this
      ensures Valid()
      ensures active == Unexpired(old(active), now, ExpirationTimer)
      ensures history == old(history) && database == old(database) && platformCounts == old(platformCounts)
      ensures matchesFound == old(matchesFound) && platformBlacklist == old(platformBlacklist)
    {
      UnexpiredKeepsHashed(active, digest, now);
      active := Registry.CleanExpired(active, now, ExpirationTimer);
    }

    /** `add_arbitrage(match, profit, bets, odds_list)` at clock reading `now`. */
    method AddArbitrage(matchLabel: string, profit: real, bets: seq<BetLine>, oddsList: seq<Record>, now: int)
      returns (added: bool)
      requires Valid()
      modifies this
      ensures Valid()
      ensures Registration(active, history, added)
              == AddArbitrageSpec(old(active), old(history), platformBlacklist, digest, matchLabel, profit, bets, oddsList, now)
      ensures database == old(database) && platformCounts == old(platformCounts)
      ensures matchesFound == old(matchesFound) && platformBlacklist == old(platformBlacklist)
    {
      if profit < MinProfitThreshold {
        return false;
      }
      if exists o :: o in oddsList && o.platform in platformBlacklist {
        return false;
      }
      CleanExpired(now);
      added := Decide(InfoFor(matchLabel, profit, bets, oddsList, now));
    }

    /** The keep-best decision of `add_arbitrage` on the cleaned table, for the entry `info`. */
    method Decide(info: ArbInfo) returns (added: bool)
      requires Valid() && info.Detailed?
      modifies this
      ensures Valid()
      ensures (active, added) == Offer(old(active), digest, info)
      ensures history == if added then SeqUtil.BoundedAppend(old(history), EntryOf(info), MaxHistory) else old(history)
      ensures database == old(database) && platformCounts == old(platformCounts)
      ensures matchesFound == old(matchesFound) && platformBlacklist == old(platformBlacklist)
    {
      OfferOutcome(active, digest, info);
      var found := FindByKey(active, info.matchKey);
      if found.Some? {
        var h := found.value;
        if info.profit > active.vals[h].profit {
          active := OD.Put(active, h, WithHash(info, h));
          UpdateHistory(info);
          return true;
        }
        return false;
      }
      var h := digest(info.matchKey);
      active := OD.Put(active, h, WithHash(info, h));
      UpdateHistory(info);
      return true;
    }

    /** `add_match()`: one more correlated ingestion. */
    method AddMatch()
      modifies this
      ensures matchesFound == old(matchesFound) + 1
      ensures active == old(active) && history == old(history) && database == old(database)
      ensures platformCounts == old(platformCounts) && platformBlacklist == old(platformBlacklist)
    {
      matchesFound := matchesFound + 1;
    }

    /** `get_active_arbitrages()` at clock reading `now`: clean, then largest profit first. */
    method GetActiveArbitrages(now: int) returns (result: seq<ArbInfo>)
      requires Valid()
      modifies this
      ensures Valid()
      ensures active == Unexpired(old(active), now, ExpirationTimer)
      ensures result == Sorting.SortDesc(OD.Values(active), ProfitOf)
      ensures Sorting.SortedDesc(result, ProfitOf) && multiset(result) == multiset(OD.Values(active))
      ensures history == old(history) && database == old(database) && platformCounts == old(platformCounts)
      ensures matchesFound == old(matchesFound) && platformBlacklist == old(platformBlacklist)
    {
      CleanExpired(now);
      result := Sorting.SortDesc(OD.Values(active), ProfitOf);
    }

    /** `get_arbitrage_count()` at clock reading `now`: clean, then count. */
    method GetArbitrageCount(now: int) returns (n: nat)
      requires Valid()
      modifies this
      ensures Valid()
      ensures active == Unexpired(old(active), now, ExpirationTimer)
      ensures n == |active.vals.Keys|
      ensures history == old(history) && database == old(database) && platformCounts == old(platformCounts)
      ensures matchesFound == old(matchesFound) && platformBlacklist == old(platformBlacklist)
    {
      CleanExpired(now);
      n := OD.Size(active);
    }

    /** `arbitrage_count()`: the number of entries, expired ones included. */
    method ArbitrageCount() returns (n: nat)
      requires Valid()
      ensures n == |active.vals.Keys|
    {
      n := OD.Size(active);
    }

    /** `size()`: the number of stored quotes. */
    method Size() returns (n: nat)
      requires Valid()
      ensures n == |database.vals.Keys|
    {
      n := OD.Size(database);
    }

    /** `get_recent_odds(limit)`: the stored quotes, newest first, cut to `limit`. */
    method GetRecentOdds(limit: int) returns (r: seq<Record>)
      requires Valid()
      ensures r == SeqUtil.PyTake(Sorting.SortDesc(OD.Values(database), TimestampKey), limit)
    {
      var sorted := Sorting.SortDesc(OD.Values(database), TimestampKey);
      r := SeqUtil.PyTake(sorted, limit);
    }

    /** The start of `add_odd` for a quote that passed the filter: count a new id, store the quote. */
    method Store(odd: Record)
      requires Valid()
      modifies this
      ensures Valid()
      ensures database == OD.Put(old(database), odd.id, odd)
      ensures platformCounts == if odd.id in old(database.vals) then old(platformCounts)
                                else Bump(old(platformCounts), odd.platform)
      ensures active == old(active) && history == old(history) && matchesFound == old(matchesFound)
      ensures platformBlacklist == old(platformBlacklist)
    {
      if odd.id !in database.vals {
        platformCounts := Bump(platformCounts, odd.platform);
      }
      database := OD.Put(database, odd.id, odd);
    }

    /** The scan of `add_odd` over the store, with the tags written into the stored quotes. */
    method Correlate(odd: Record) returns (matched: seq<Record>)
      requires Valid()
      modifies this
      ensures Valid()
      ensures database == OD.ODict(old(database.keys), Correlation.TagStore(sim, odd, old(database.vals), false))
      ensures matched == Correlation.Matched(sim, odd, old(database), false)
      ensures matchesFound == old(matchesFound) + (if |matched| > 0 then 1 else 0)
      ensures active == old(active) && history == old(history) && platformCounts == old(platformCounts)
      ensures platformBlacklist == old(platformBlacklist)
    {
      var vals;
      vals, matched := Correlation.Scan(matcher, sim, odd, database, false);
      ScanKeepsStore(sim, odd, database, false);
      database := OD.ODict(database.keys, vals);
      if |matched| > 0 {
        AddMatch();
      }
    }

    /**
     * The pricing half of `add_odd` for a quote with at least one match: best prices,
     * evaluation, and the offer of an opportunity to the table.
     */
    method Price(odd: Record, matched: seq<Record>, now: int) returns (evaluation: Evaluation, added: bool)
      requires Valid() && |matched| > 0
      requires OddsInRange(odd.probaA) && OddsInRange(odd.probaB)
      modifies this
      ensures Valid()
      ensures evaluation == Evaluate(BestPrices([odd] + matched))
      ensures if evaluation.Opportunity? then
                Registration(active, history, added)
                == AddArbitrageSpec(old(active), old(history), platformBlacklist, digest, MatchLabel(odd), evaluation.profit,
                                    BetLines(odd, BestPrices([odd] + matched), evaluation.stakes), [odd] + matched, now)
              else active == old(active) && history == old(history) && !added
      ensures database == old(database) && platformCounts == old(platformCounts)
      ensures matchesFound == old(matchesFound) && platformBlacklist == old(platformBlacklist)
    {
      var odds := [odd] + matched;
      var best := ComputeBest(odds);
      evaluation := Evaluate(best);
      added := false;
      if evaluation.Opportunity? {
        var bets := BetLines(odd, best, evaluation.stakes);
        added := AddArbitrage(MatchLabel(odd), evaluation.profit, bets, odds, now);
      }
    }

    /**
     * `add_odd(odd)` with `today` for `date.today()` and `now` for the clock. A garbage
     * quote changes nothing. Otherwise the quote is stored and correlated; with at least
     * one match the group is priced, and an opportunity is offered to the table.
     */
    method AddOdd(odd: Record, today: int, now: int) returns (outcome: Ingestion)
      requires Valid()
      modifies this
      ensures Valid()
      ensures IsGarbage(odd, today) <==> outcome.Garbage?
      ensures outcome.Garbage? ==>
        active == old(active) && history == old(history) && database == old(database)
        && platformCounts == old(platformCounts) && matchesFound == old(matchesFound)
      ensures outcome.Ingested? ==>
        var db := OD.Put(old(database), odd.id, odd);
        var odds := [odd] + outcome.matched;
        database == OD.ODict(db.keys, Correlation.TagStore(sim, odd, db.vals, false))
        && outcome.matched == Correlation.Matched(sim, odd, db, false)
        && matchesFound == old(matchesFound) + (if |outcome.matched| > 0 then 1 else 0)
        && platformCounts == (if odd.id in old(database.vals) then old(platformCounts)
                              else Bump(old(platformCounts), odd.platform))
        && (outcome.matched == [] <==> outcome.evaluation.None?)
        && (outcome.evaluation.Some? ==> outcome.evaluation.value == Evaluate(BestPrices(odds)))
        && (if outcome.evaluation.Some? && outcome.evaluation.value.Opportunity? then
              var e := outcome.evaluation.value;
              Registration(active, history, outcome.added)
              == AddArbitrageSpec(old(active), old(history), platformBlacklist, digest, MatchLabel(odd), e.profit,
                                  BetLines(odd, BestPrices(odds), e.stakes), odds, now)
            else active == old(active) && history == old(history) && !outcome.added)
      ensures platformBlacklist == old(platformBlacklist)
    {
      if IsGarbage(odd, today) {
        return Garbage;
      }
      Store(odd);
      var matched := Correlate(odd);
      AcceptedIff(odd, today);
      if |matched| == 0 {
        return Ingested(matched, None, false);
      }
      var evaluation, added := Price(odd, matched, now);
      return Ingested(matched, Some(evaluation), added);
    }
  }
}
