/**
 * The `Manager` of the app version: the quote store, the correlation scan with the
 * date window, the pricing of each correlated group, and the registration of every
 * opportunity found into the grouping graph and a bounded history.
 *
 * The store and the graph's record table hold the same objects in the source; here the
 * two tables are kept equal (`graph.values == database.vals`) and every change to a
 * stored quote is written to both.
 */
module AppManager {
  import opened Wrappers
  import opened BetOption
  import opened Arbitrage
  import SeqUtil
  import Sorting
  import Grouping
  import Correlation
  import Names
  import OD = OrderedDict
  import opened Ledger

  /** The history entry `add_arbitrage` records at time `now`. */
  function EntryFor(profit: real, odds: seq<Record>, now: int): HistoryEntry
    requires |odds| >= 1
  {
    HistoryEntry(now, MatchLabel(odds[0]), profit, Platforms(odds))
  }

  /** `self.db_update_date.get(odd.id)` filled into an odd without a date. */
  function WithKnownDate(odd: Record, dates: map<string, int>): (r: Record)
    ensures r == odd.(eventDate := r.eventDate)
    ensures odd.eventDate.Some? ==> r.eventDate == odd.eventDate
    ensures odd.eventDate.None? && odd.id in dates ==> r.eventDate == Some(dates[odd.id])
    ensures odd.eventDate.None? && odd.id !in dates ==> r.eventDate.None?
  {
    if odd.eventDate.Some? then odd else odd.(eventDate := Get(dates, odd.id))
  }

  /** One line of `get_active_arbitrages`' `bets`: `f"{platform}: {A} vs {B}"`. */
  datatype BetSummary = BetSummary(platform: string, optionA: string, optionB: string)

  /** One entry of `get_active_arbitrages`. */
  datatype ActiveArbitrage = ActiveArbitrage(
    matchLabel: string, profit: real, date: Option<int>, bets: seq<BetSummary>, platforms: seq<string>)

  /** The first truthy `event_date` among the bets. */
  function FirstDate(bets: seq<Record>): (d: Option<int>)
    ensures d.None? <==> forall i :: 0 <= i < |bets| ==> bets[i].eventDate.None?
    ensures d.Some? ==> exists i :: 0 <= i < |bets| && bets[i].eventDate == d
                          && forall j :: 0 <= j < i ==> bets[j].eventDate.None?
  {
    if bets == [] then None
    else if bets[0].eventDate.Some? then bets[0].eventDate
    else
      var d := FirstDate(bets[1..]);
      assert forall i :: 1 <= i < |bets| ==> bets[i] == bets[1..][i - 1];
      if d.Some? then
        var i :| 0 <= i < |bets[1..]| && bets[1..][i].eventDate == d && forall j :: 0 <= j < i ==> bets[1..][j].eventDate.None?;
        assert bets[i + 1].eventDate == d;
        d
      else d
  }

  /** The dictionary `get_active_arbitrages` builds for one yielded group. */
  function Summary(item: Grouping.GroupItem): (a: ActiveArbitrage)
    ensures a.profit == item.value
    ensures |a.bets| == |item.bets| && |a.platforms| == |item.bets|
    ensures forall i :: 0 <= i < |item.bets| ==>
      a.bets[i] == BetSummary(item.bets[i].platform, item.bets[i].optionA, item.bets[i].optionB)
      && a.platforms[i] == item.bets[i].platform
    ensures a.matchLabel == if item.bets == [] then "Unknown Match" else MatchLabel(item.bets[0])
    ensures a.date == FirstDate(item.bets)
  {
    var bets := item.bets;
    ActiveArbitrage(
      if bets == [] then "Unknown Match" else MatchLabel(bets[0]),
      item.value,
      FirstDate(bets),
      seq(|bets|, i requires 0 <= i < |bets| => BetSummary(bets[i].platform, bets[i].optionA, bets[i].optionB)),
      Platforms(bets))
  }

  function Summaries(items: seq<Grouping.GroupItem>): (r: seq<ActiveArbitrage>)
    ensures |r| == |items| && forall i :: 0 <= i < |items| ==> r[i] == Summary(items[i])
  {
    seq(|items|, i requires 0 <= i < |items| => Summary(items[i]))
  }

  function ProfitKey(a: ActiveArbitrage): real { a.profit }

  /**
   * The summary of a yielded group describes that group's stored quotes: one bet line and
   * one platform per stored member, each taken from the quote stored under a member id,
   * every stored member listed once, and the profit is the group's positive value.
   */
  lemma SummaryOfGroup(it: Grouping.GroupItem, order: seq<string>, g: Grouping.Groups, values: map<string, Record>)
    requires Grouping.ItemOk(it, order, g, values) && KeyedById(values)
    ensures var a := Summary(it);
      a.profit == g.setValues[it.ids] && a.profit > 0.0
      && |a.bets| == |order| && |a.platforms| == |order|
      && (forall k :: 0 <= k < |a.bets| ==>
            order[k] in it.ids && order[k] in values && it.bets[k].id == order[k]
            && a.bets[k] == BetSummary(values[order[k]].platform, values[order[k]].optionA, values[order[k]].optionB)
            && a.platforms[k] == values[order[k]].platform)
      && (forall id :: id in it.ids && id in values ==> exists k :: 0 <= k < |order| && order[k] == id)
  {
    var a := Summary(it);
    forall k | 0 <= k < |a.bets|
      ensures order[k] in it.ids && order[k] in values && it.bets[k].id == order[k]
    {
      assert order[k] in order;
    }
    forall id | id in it.ids && id in values
      ensures exists k :: 0 <= k < |order| && order[k] == id
    {
      assert id in order;
    }
  }

  /** What one call of `add_odd` did. */
  datatype AddOddOutcome =
    | Garbage
      /** Stored; `matched` is `odds[1:]`; `evaluation` is present when there was a match. */
    | Stored(odd: Record, matched: seq<Record>, evaluation: Option<Evaluation>)

  /**
   * The graph's groups after the pricing step of `add_odd`, from `before`: an opportunity
   * adds the group of the new quote and its matches under the profit (`add_arbitrage`),
   * with the first grouped id met in `picks[0]`; otherwise the groups are unchanged.
   */
  ghost predicate Registered(before: Grouping.Groups, after: Grouping.Groups, stored: Record,
                             matched: seq<Record>, evaluation: Option<Evaluation>, picks: seq<Option<string>>)
  {
    if evaluation.Some? && evaluation.value.Opportunity? then
      |picks| == 1
      && Grouping.PickOk(before, Grouping.Ids([stored] + matched), picks[0])
      && after == Grouping.AddSetSpec(before, Grouping.Ids([stored] + matched), evaluation.value.profit, picks[0])
    else after == before
  }

  /**
   * What `add_odd` leaves in the graph for an accepted quote: its id is grouped; with an
   * opportunity every id of the priced group sits in a group holding them all and valued
   * at the profit, and otherwise the quote's group is valued 0.0 by `add_node`.
   */
  lemma AddOddGroups(before: Grouping.Groups, after: Grouping.Groups, stored: Record, matched: seq<Record>,
                     evaluation: Option<Evaluation>, picks: seq<Option<string>>)
    requires Grouping.WellFormed(before) && |picks| >= 1 && Grouping.PickOk(before, {stored.id}, picks[0])
    requires Registered(Grouping.AddSetSpec(before, {stored.id}, 0.0, picks[0]), after, stored, matched, evaluation, picks[1..])
    ensures stored.id in after.data && Grouping.WellFormed(after)
    ensures evaluation.Some? && evaluation.value.Opportunity? ==>
      forall e :: e in Grouping.Ids([stored] + matched) ==>
        e in after.data && Grouping.Ids([stored] + matched) <= after.data[e]
        && Grouping.ValueOfId(after, e) == Some(evaluation.value.profit)
    ensures !(evaluation.Some? && evaluation.value.Opportunity?) ==> Grouping.ValueOfId(after, stored.id) == Some(0.0)
  {
    var mid := Grouping.AddSetSpec(before, {stored.id}, 0.0, picks[0]);
    Grouping.AddSetValuesMembers(before, {stored.id}, 0.0, picks[0]);
    Grouping.AddSetKeepsWellFormed(before, {stored.id}, 0.0, picks[0]);
    if evaluation.Some? && evaluation.value.Opportunity? {
      var ids := Grouping.Ids([stored] + matched);
      assert stored in [stored] + matched;
      assert stored.id in ids;
      Grouping.AddSetValuesMembers(mid, ids, evaluation.value.profit, picks[1..][0]);
      Grouping.AddSetKeepsWellFormed(mid, ids, evaluation.value.profit, picks[1..][0]);
    }
  }

  class Manager {
    const graph: Grouping.Graph
    var history: seq<HistoryEntry>
    var platformCounts: map<string, nat>
    var matchesFound: nat
    var dbUpdateDate: map<string, int>
    var database: OD.ODict<string, Record>
    /** The name tables and fuzzy oracles that `are_similar` consults. */
    const matcher: Names.Matcher
    /** `are_similar` with the default threshold, as a relation. */
    ghost const sim: Correlation.Sim

    ghost predicate Valid()
      reads this, graph, graph.groups
    {
      graph.Valid() && OD.Valid(database) && KeyedById(database.vals)
      && graph.values == database.vals
      && Correlation.Decides(matcher, sim)
      && |history| <= MaxHistory
    }

    constructor (matcher: Names.Matcher, ghost sim: Correlation.Sim)
      requires Correlation.Decides(matcher, sim)
      ensures Valid() && fresh(graph) && fresh(graph.groups)
      ensures this.matcher == matcher && this.sim == sim
      ensures history == [] && platformCounts == map[] && matchesFound == 0
      ensures dbUpdateDate == map[] && database.vals == map[]
      ensures graph.groups.data == map[] && graph.groups.setValues == map[]
    {
      graph := new Grouping.Graph();
      history := [];
      platformCounts := map[];
      matchesFound := 0;
      dbUpdateDate := map[];
      database := OD.Empty();
      this.matcher := matcher;
      this.sim := sim;
    }

    /** `update_date(event_id, start_time)`: remember the date and set it on the stored quote. */
    method UpdateDate(eventId: string, startTime: int)
      requires Valid()
      modifies this, graph
      ensures Valid()
      ensures dbUpdateDate == old(dbUpdateDate)[eventId := startTime]
      ensures eventId !in old(database.vals) ==> database == old(database)
      ensures eventId in old(database.vals) ==>
        database.keys == old(database.keys)
        && database.vals == old(database.vals)[eventId := old(database.vals)[eventId].(eventDate := Some(startTime))]
      ensures history == old(history) && platformCounts == old(platformCounts) && matchesFound == old(matchesFound)
    {
      dbUpdateDate := dbUpdateDate[eventId := startTime];
      if eventId in database.vals {
        var updated := database.vals[eventId].(eventDate := Some(startTime));
        database := OD.Put(database, eventId, updated);
        graph.values := database.vals;
      }
    }

    /** `_update_history(arb_info)`: append, then keep the newest `max_history` entries. */
    method UpdateHistory(entry: HistoryEntry)
      requires |history| <= MaxHistory
      modifies this
      ensures history == SeqUtil.BoundedAppend(old(history), entry, MaxHistory)
      ensures |history| <= MaxHistory
      ensures database == old(database) && platformCounts == old(platformCounts)
      ensures matchesFound == old(matchesFound) && dbUpdateDate == old(dbUpdateDate)
    {
      history := history + [entry];
      if |history| > MaxHistory {
        history := history[|history| - MaxHistory..];
      }
    }

    /**
     * `add_arbitrage(profit, odds_list)`: register the group in the graph under its
     * profit and record a history entry. Always reports a new opportunity.
     */
    method AddArbitrage(profit: real, oddsList: seq<Record>, now: int) returns (isNew: bool, ghost pick: Option<string>)
      requires Valid() && |oddsList| >= 1 && AllStored(oddsList, database.vals)
      modifies this, graph, graph.groups
      ensures Valid()
      ensures isNew
      ensures history == SeqUtil.BoundedAppend(old(history), EntryFor(profit, oddsList, now), MaxHistory)
      ensures Grouping.PickOk(old(graph.groups.State()), Grouping.Ids(oddsList), pick)
      ensures graph.groups.State() == Grouping.AddSetSpec(old(graph.groups.State()), Grouping.Ids(oddsList), profit, pick)
      ensures database == old(database) && platformCounts == old(platformCounts)
      ensures matchesFound == old(matchesFound) && dbUpdateDate == old(dbUpdateDate)
    {
      pick := graph.AddGroup(oddsList, profit);
      Grouping.StoreAllStored(old(graph.values), oddsList);
      UpdateHistory(EntryFor(profit, oddsList, now));
      isNew := true;
    }

    /** `add_match()`: one more correlated ingestion. */
    method AddMatch()
      modifies this
      ensures matchesFound == old(matchesFound) + 1
      ensures history == old(history) && database == old(database) && platformCounts == old(platformCounts)
      ensures dbUpdateDate == old(dbUpdateDate)
    {
      matchesFound := matchesFound + 1;
    }

    /**
     * The first half of `add_odd` for a quote that passed the filter: fill in a known
     * date, count a new id for its platform, add it to the graph and to the store.
     */
    method Store(odd: Record) returns (stored: Record, ghost pick: Option<string>)
      requires Valid()
      modifies this, graph, graph.groups
      ensures Valid()
      ensures stored == WithKnownDate(odd, dbUpdateDate)
      ensures platformCounts == if odd.id in old(database.vals) then old(platformCounts)
                                else Bump(old(platformCounts), odd.platform)
      ensures database == OD.Put(old(database), odd.id, stored)
      ensures Grouping.PickOk(old(graph.groups.State()), {odd.id}, pick)
      ensures graph.groups.State() == Grouping.AddSetSpec(old(graph.groups.State()), {odd.id}, 0.0, pick)
      ensures history == old(history) && matchesFound == old(matchesFound) && dbUpdateDate == old(dbUpdateDate)
    {
      stored := WithKnownDate(odd, dbUpdateDate);
      assert stored.id == odd.id && stored.platform == odd.platform;
      if stored.id !in database.vals {
        platformCounts := Bump(platformCounts, stored.platform);
      }
      ghost var before := database.vals;
      pick := graph.AddNode(stored);
      database := OD.Put(database, stored.id, stored);
      assert database.vals == before[stored.id := stored] == graph.values;
      assert KeyedById(database.vals);
    }

    /** The scan of `add_odd`, with the tags written into the store (and so into the graph). */
    method Correlate(odd: Record) returns (matched: seq<Record>)
      requires Valid()
      modifies this, graph
      ensures Valid()
      ensures matched == Correlation.Matched(sim, odd, old(database), true)
      ensures database == OD.ODict(old(database.keys), Correlation.TagStore(sim, odd, old(database.vals), true))
      ensures AllStored(matched, database.vals)
      ensures odd.id in old(database.vals) ==> database.vals[odd.id] == old(database.vals)[odd.id]
      ensures matchesFound == old(matchesFound) + (if |matched| > 0 then 1 else 0)
      ensures history == old(history) && platformCounts == old(platformCounts) && dbUpdateDate == old(dbUpdateDate)
      ensures unchanged(graph.groups)
    {
      var vals;
      vals, matched := Correlation.Scan(matcher, sim, odd, database, true);
      ScanKeepsStore(sim, odd, database, true);
      database := OD.ODict(database.keys, vals);
      graph.values := vals;
      if |matched| > 0 {
        AddMatch();
      }
    }

    /**
     * `add_odd(odd)` with `today` for `date.today()` and `now` for the clock. A garbage
     * quote changes nothing. Otherwise the quote is stored and correlated; with at least
     * one match the group is priced, and an opportunity is registered.
     */
    method AddOdd(odd: Record, today: int, now: int) returns (outcome: AddOddOutcome, ghost picks: seq<Option<string>>)
      requires Valid()
      modifies this, graph, graph.groups
      ensures Valid()
      ensures IsGarbage(odd, today) <==> outcome.Garbage?
      ensures outcome.Garbage? ==>
        history == old(history) && database == old(database) && platformCounts == old(platformCounts)
        && matchesFound == old(matchesFound) && graph.groups.State() == old(graph.groups.State())
      ensures outcome.Stored? ==>
        var stored := WithKnownDate(odd, old(dbUpdateDate));
        var db := OD.Put(old(database), odd.id, stored);
        outcome.odd == stored
        && database == OD.ODict(db.keys, Correlation.TagStore(sim, stored, db.vals, true))
        && outcome.matched == Correlation.Matched(sim, stored, db, true)
        && matchesFound == old(matchesFound) + (if |outcome.matched| > 0 then 1 else 0)
        && platformCounts == (if odd.id in old(database.vals) then old(platformCounts)
                              else Bump(old(platformCounts), odd.platform))
        && (outcome.matched == [] <==> outcome.evaluation.None?)
        && (outcome.evaluation.Some? ==>
              outcome.evaluation.value == Evaluate(BestPrices([stored] + outcome.matched)))
        && history == (if outcome.evaluation.Some? && outcome.evaluation.value.Opportunity?
                       then SeqUtil.BoundedAppend(old(history),
                              EntryFor(outcome.evaluation.value.profit, [stored] + outcome.matched, now), MaxHistory)
                       else old(history))
        && |picks| >= 1
        && Grouping.PickOk(old(graph.groups.State()), {odd.id}, picks[0])
        && Registered(Grouping.AddSetSpec(old(graph.groups.State()), {odd.id}, 0.0, picks[0]), graph.groups.State(),
                      stored, outcome.matched, outcome.evaluation, picks[1..])
      ensures dbUpdateDate == old(dbUpdateDate)
    {
      picks := [];
      if IsGarbage(odd, today) {
        return AddOddOutcome.Garbage, picks;
      }
      var stored, pick := Store(odd);
      AcceptedIff(odd, today);
      var matched, evaluation, more := Process(stored, now);
      picks := [pick] + more;
      assert picks[1..] == more;
      return Stored(stored, matched, evaluation), picks;
    }

    /** What `add_odd` does once the accepted quote `stored` is in the store: correlate, then price. */
    method Process(stored: Record, now: int) returns (matched: seq<Record>, evaluation: Option<Evaluation>, ghost picks: seq<Option<string>>)
      requires Valid() && stored.id in database.vals && database.vals[stored.id] == stored
      requires OddsInRange(stored.probaA) && OddsInRange(stored.probaB)
      modifies this, graph, graph.groups
      ensures Valid()
      ensures database == OD.ODict(old(database.keys), Correlation.TagStore(sim, stored, old(database.vals), true))
      ensures matched == Correlation.Matched(sim, stored, old(database), true)
      ensures matchesFound == old(matchesFound) + (if |matched| > 0 then 1 else 0)
      ensures platformCounts == old(platformCounts) && dbUpdateDate == old(dbUpdateDate)
      ensures matched == [] <==> evaluation.None?
      ensures evaluation.Some? ==> evaluation.value == Evaluate(BestPrices([stored] + matched))
      ensures history == (if evaluation.Some? && evaluation.value.Opportunity?
                          then SeqUtil.BoundedAppend(old(history), EntryFor(evaluation.value.profit, [stored] + matched, now), MaxHistory)
                          else old(history))
      ensures Registered(old(graph.groups.State()), graph.groups.State(), stored, matched, evaluation, picks)
    {
      picks := [];
      matched := Correlate(stored);
      assert AllStored([stored] + matched, database.vals);
      if |matched| == 0 {
        return matched, None, picks;
      }
      var e, pick := Price(stored, matched, now);
      return matched, Some(e), [pick];
    }

    /**
     * The pricing half of `add_odd` for a quote with at least one match: best prices,
     * evaluation, and registration of an opportunity.
     */
    method Price(stored: Record, matched: seq<Record>, now: int) returns (evaluation: Evaluation, ghost pick: Option<string>)
      requires Valid() && |matched| > 0 && AllStored([stored] + matched, database.vals)
      requires OddsInRange(stored.probaA) && OddsInRange(stored.probaB)
      modifies this, graph, graph.groups
      ensures Valid()
      ensures evaluation == Evaluate(BestPrices([stored] + matched))
      ensures history == if evaluation.Opportunity?
                         then SeqUtil.BoundedAppend(old(history), EntryFor(evaluation.profit, [stored] + matched, now), MaxHistory)
                         else old(history)
      ensures evaluation.Opportunity? ==>
        Grouping.PickOk(old(graph.groups.State()), Grouping.Ids([stored] + matched), pick)
        && graph.groups.State() == Grouping.AddSetSpec(old(graph.groups.State()), Grouping.Ids([stored] + matched), evaluation.profit, pick)
      ensures !evaluation.Opportunity? ==> graph.groups.State() == old(graph.groups.State())
      ensures database == old(database) && platformCounts == old(platformCounts)
      ensures matchesFound == old(matchesFound) && dbUpdateDate == old(dbUpdateDate)
    {
      var odds := [stored] + matched;
      var best := ComputeBest(odds);
      evaluation := Evaluate(best);
      pick := None;
      if evaluation.Opportunity? {
        var isNew;
        isNew, pick := AddArbitrage(evaluation.profit, odds, now);
      }
    }

    /** `get_active_arbitrages()`: one entry per yielded group, by profit, largest first. */
    method GetActiveArbitrages() returns (result: seq<ActiveArbitrage>, ghost items: seq<Grouping.GroupItem>, ghost orders: seq<seq<string>>)
      requires Valid()
      ensures result == Sorting.SortDesc(Summaries(items), ProfitKey)
      ensures Sorting.SortedDesc(result, ProfitKey) && multiset(result) == multiset(Summaries(items))
      ensures forall i, j :: 0 <= i < j < |items| ==> items[i].ids != items[j].ids
      ensures forall i :: 0 <= i < |items| ==>
        items[i].ids in Grouping.Reported(graph.groups.State())
        && items[i].value == graph.groups.setValues[items[i].ids]
      ensures forall s :: s in Grouping.Reported(graph.groups.State()) ==>
        exists i :: 0 <= i < |items| && items[i].ids == s
      ensures |orders| == |items|
      ensures forall i :: 0 <= i < |items| ==>
        Grouping.ItemOk(items[i], orders[i], graph.groups.State(), database.vals)
    {
      var yielded;
      yielded, orders := graph.Items();
      items := yielded;
      var arbitrages := Summarize(yielded);
      result := Sorting.SortDesc(arbitrages, ProfitKey);
    }

    /** `get_recent_odds(limit)`: the stored quotes, newest first, cut to `limit`. */
    method GetRecentOdds(limit: int) returns (r: seq<Record>)
      requires Valid()
      ensures r == SeqUtil.PyTake(Sorting.SortDesc(OD.Values(database), TimestampKey), limit)
    {
      var sorted := Sorting.SortDesc(OD.Values(database), TimestampKey);
      r := SeqUtil.PyTake(sorted, limit);
    }

    /** `arbitrage_count()`, which counts grouped ids through `count_groups`. */
    method ArbitrageCount() returns (n: nat)
      requires Valid()
      ensures n == |graph.groups.data.Keys|
    {
      n := graph.CountGroups();
    }

    /** `size()`: the number of stored quotes. */
    method Size() returns (n: nat)
      requires Valid()
      ensures n == |database.vals.Keys|
    {
      n := OD.Size(database);
    }
  }

  /** The loop of `get_active_arbitrages` over the yielded groups. */
  method Summarize(yielded: seq<Grouping.GroupItem>) returns (arbitrages: seq<ActiveArbitrage>)
    ensures arbitrages == Summaries(yielded)
  {
    arbitrages := [];
    for i := 0 to |yielded|
      invariant arbitrages == Summaries(yielded[..i])
    {
      arbitrages := arbitrages + [Summary(yielded[i])];
    }
    assert yielded[..|yielded|] == yielded;
  }

}
