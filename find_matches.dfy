/**
 * `find_matches_in_data`: the offline pairwise matcher over a dump of quotes. Every pair
 * of positions `i < j` from different platforms is compared, in standard and in reversed
 * side order; a matching pair is priced on a copy of the second quote whose sides are
 * swapped when only the reversed order matched, and the results are sorted by profit.
 *
 * The names are passed to `are_similar` as they are (no lowercasing here), with the
 * caller's threshold. A pair whose best price on a side is 0 makes the division raise
 * `ZeroDivisionError`, which ends the whole call; that outcome is `None`.
 */
module FindMatches {
  import opened Wrappers
  import opened BetOption
  import Arbitrage
  import Names
  import Sorting

  type Sim = (string, string) -> bool

  /** `sim(a, b)` is `are_similar(a, b, threshold)`. */
  ghost predicate DecidesAt(mt: Names.Matcher, sim: Sim, threshold: real) {
    Names.Valid(mt)
    && forall a, b {:trigger Names.Similar(mt, a, b, threshold)} :: sim(a, b) == Names.Similar(mt, a, b, threshold)
  }

  /** One element of the result list. */
  datatype PairMatch = PairMatch(item1: Record, item2: Record, reversed: bool, sumInverse: real, profit: real)

  predicate Standard(sim: Sim, a: Record, b: Record) {
    sim(a.optionA, b.optionA) && sim(a.optionB, b.optionB)
  }

  predicate Reversed(sim: Sim, a: Record, b: Record) {
    sim(a.optionA, b.optionB) && sim(a.optionB, b.optionA)
  }

  /** `calc_item2` for a reversed-only match: a copy with the names and the A/B odds swapped. */
  function Swapped(b: Record): Record {
    b.(optionA := b.optionB, optionB := b.optionA, probaA := b.probaB, probaB := b.probaA)
  }

  /** The `bestDraw` of a pair: the larger truthy draw price, else the truthy one, else `None`. */
  function PairDraw(d1: Option<real>, d2: Option<real>): Option<real> {
    if Arbitrage.Truthy(d1) && Arbitrage.Truthy(d2) then Some(Arbitrage.Max(d1.value, d2.value))
    else if Arbitrage.Truthy(d1) then d1
    else if Arbitrage.Truthy(d2) then d2
    else None
  }

  /**
   * The pair's draw rule is the engine's `CombineDraw` up to falsy values: whenever either
   * is truthy they agree, and when neither draw price is truthy the pair has `None`.
   */
  lemma PairDrawAgrees(d1: Option<real>, d2: Option<real>)
    ensures Arbitrage.Truthy(PairDraw(d1, d2)) <==> Arbitrage.Truthy(d1) || Arbitrage.Truthy(d2)
    ensures Arbitrage.Truthy(PairDraw(d1, d2)) ==> PairDraw(d1, d2) == Arbitrage.CombineDraw(d1, d2)
    ensures !Arbitrage.Truthy(PairDraw(d1, d2)) ==> PairDraw(d1, d2) == None
  {
  }

  /** `bestA`, `bestB`, `bestDraw` of the first quote and the (possibly swapped) second. */
  function PairBest(a: Record, c: Record): Arbitrage.Best {
    Arbitrage.Best(Arbitrage.Max(a.probaA, c.probaA), Arbitrage.Max(a.probaB, c.probaB), PairDraw(a.probaDraw, c.probaDraw))
  }

  /** What comparing two positions gives. */
  datatype Verdict = Skip | Priced(m: PairMatch) | ZeroDivision

  /** The comparison of `item1` with `item2`, as the inner loop body does it. */
  function Compare(sim: Sim, a: Record, b: Record): Verdict {
    if a.platform == b.platform then Skip
    else
      var std := Standard(sim, a, b);
      var rev := Reversed(sim, a, b);
      if !(std || rev) then Skip
      else
        var best := PairBest(a, if rev && !std then Swapped(b) else b);
        if best.a == 0.0 || best.b == 0.0 then ZeroDivision
        else
          var sum := Arbitrage.SumInverse(best);
          Priced(PairMatch(a, b, rev && !std, sum, if sum < 1.0 then Arbitrage.Profit(sum) else 0.0))
  }

  /**
   * A pair is skipped exactly when it is from one platform or matches in neither order.
   * A priced pair records both input quotes unmodified, is tagged reversed exactly when
   * only the reversed order matched, and reports the profit `(1 - sum) * 100` when the sum
   * is below 1 and 0 otherwise, so never a negative profit.
   */
  lemma CompareMeaning(sim: Sim, a: Record, b: Record)
    ensures var v := Compare(sim, a, b);
      (v.Skip? <==> a.platform == b.platform || !(Standard(sim, a, b) || Reversed(sim, a, b)))
      && (v.Priced? ==>
            v.m.item1 == a && v.m.item2 == b
            && v.m.reversed == (Reversed(sim, a, b) && !Standard(sim, a, b))
            && (v.m.sumInverse < 1.0 ==> v.m.profit == Arbitrage.Profit(v.m.sumInverse) && v.m.profit > 0.0)
            && (v.m.sumInverse >= 1.0 ==> v.m.profit == 0.0))
  {
  }

  /**
   * Pricing a pair on the swapped copy gives the engine's best prices for the group of the
   * two quotes, the second tagged as the scan would tag it: the same A and B prices and the
   * same truthy draw.
   */
  lemma AgreesWithEngine(sim: Sim, a: Record, b: Record)
    requires a.platform != b.platform && (Standard(sim, a, b) || Reversed(sim, a, b))
    ensures var flag := Reversed(sim, a, b) && !Standard(sim, a, b);
      var mine := PairBest(a, if flag then Swapped(b) else b);
      var engine := Arbitrage.BestPrices([a, b.(reversedMatch := Some(flag))]);
      mine.a == engine.a && mine.b == engine.b
      && (Arbitrage.Truthy(mine.draw) <==> Arbitrage.Truthy(engine.draw))
      && (Arbitrage.Truthy(mine.draw) ==> mine.draw == engine.draw)
  {
    var flag := Reversed(sim, a, b) && !Standard(sim, a, b);
    var tagged := b.(reversedMatch := Some(flag));
    var odds := [a, tagged];
    assert odds[..1] == [a];
    assert Arbitrage.BestPrices(odds)
        == Arbitrage.BestStep(Arbitrage.Best(a.probaA, a.probaB, a.probaDraw), tagged);
    PairDrawAgrees(a.probaDraw, b.probaDraw);
  }

  /** A comparison of two quotes; the scans below are stated for any one. */
  type Comparer = (Record, Record) -> Verdict

  /** The comparison `find_matches_in_data` makes, at the similarity `sim`. */
  function CompareWith(sim: Sim): Comparer {
    (a: Record, b: Record) => Compare(sim, a, b)
  }

  /** A priced pair with the positions it came from. */
  datatype Hit = Hit(i: nat, j: nat, m: PairMatch)

  /** One more comparison of the scan, at positions `i` and `j`. */
  function Then(acc: Option<seq<Hit>>, i: nat, j: nat, v: Verdict): Option<seq<Hit>> {
    match acc
    case None => None
    case Some(hs) =>
      match v
      case Skip => acc
      case Priced(m) => Some(hs + [Hit(i, j, m)])
      case ZeroDivision => None
  }

  /** The comparisons of position `i` with positions `i + 1` up to `j - 1`. */
  function RowUpTo(cmp: Comparer, items: seq<Record>, i: nat, j: nat): Option<seq<Hit>>
    requires i < |items| && j <= |items|
  {
    if j <= i + 1 then Some([])
    else Then(RowUpTo(cmp, items, i, j - 1), i, j - 1, cmp(items[i], items[j - 1]))
  }

  /** The rows of positions `0` up to `n - 1`, one after the other. */
  function PairsUpTo(cmp: Comparer, items: seq<Record>, n: nat): Option<seq<Hit>>
    requires n <= |items|
  {
    if n == 0 then Some([])
    else
      var before := PairsUpTo(cmp, items, n - 1);
      var row := RowUpTo(cmp, items, n - 1, |items|);
      if before.Some? && row.Some? then Some(before.value + row.value) else None
  }

  function MatchesOf(hs: seq<Hit>): (r: seq<PairMatch>)
    ensures |r| == |hs| && forall k :: 0 <= k < |hs| ==> r[k] == hs[k].m
  {
    seq(|hs|, k requires 0 <= k < |hs| => hs[k].m)
  }

  lemma MatchesOfAppend(hs: seq<Hit>, more: seq<Hit>)
    ensures MatchesOf(hs + more) == MatchesOf(hs) + MatchesOf(more)
  {
    assert forall k :: 0 <= k < |more| ==> (hs + more)[|hs| + k] == more[k];
  }

  function ProfitKey(m: PairMatch): real { m.profit }

  /** The result of `find_matches_in_data`: the priced pairs by profit, or `None` when it raised. */
  function FindSpec(sim: Sim, items: seq<Record>): Option<seq<PairMatch>> {
    match PairsUpTo(CompareWith(sim), items, |items|)
    case None => None
    case Some(hs) => Some(Sorting.SortDesc(MatchesOf(hs), ProfitKey))
  }

  /** Position pair `(i, j)` comes before `(i', j')` in the scan. */
  predicate Before(h1: Hit, h2: Hit) {
    h1.i < h2.i || (h1.i == h2.i && h1.j < h2.j)
  }

  /** Every hit of `hs` pairs position `i` with a later position before `j`, as priced there. */
  ghost predicate RowSound(cmp: Comparer, items: seq<Record>, i: nat, j: nat, hs: seq<Hit>)
    requires i < |items| && j <= |items|
  {
    forall k :: 0 <= k < |hs| ==>
      hs[k].i == i && i < hs[k].j < j && cmp(items[i], items[hs[k].j]) == Priced(hs[k].m)
  }

  /** The hits of `hs` come in increasing order of their second position. */
  predicate RowOrdered(hs: seq<Hit>) {
    forall k, l :: 0 <= k < l < |hs| ==> hs[k].j < hs[l].j
  }

  /** Every priced comparison of position `i` with a position after it and before `j` is a hit of `hs`. */
  ghost predicate RowComplete(cmp: Comparer, items: seq<Record>, i: nat, j: nat, hs: seq<Hit>)
    requires i < |items| && j <= |items|
  {
    forall j' :: i < j' < j && cmp(items[i], items[j']).Priced? ==>
      Hit(i, j', cmp(items[i], items[j']).m) in hs
  }

  /**
   * A row holds, in increasing order of `j`, exactly the priced comparisons of position
   * `i` with the positions after it and before `j`.
   */
  lemma {:induction false} RowFacts(cmp: Comparer, items: seq<Record>, i: nat, j: nat)
    requires i < |items| && j <= |items|
    ensures var r := RowUpTo(cmp, items, i, j);
      r.Some? ==> RowSound(cmp, items, i, j, r.value) && RowOrdered(r.value) && RowComplete(cmp, items, i, j, r.value)
  {
    if j > i + 1 {
      RowFacts(cmp, items, i, j - 1);
      RowStep(cmp, items, i, j);
    }
  }

  /** One more comparison keeps a row sound, ordered and complete. */
  lemma RowStep(cmp: Comparer, items: seq<Record>, i: nat, j: nat)
    requires i + 1 < j <= |items|
    requires var p := RowUpTo(cmp, items, i, j - 1);
      p.Some? ==> RowSound(cmp, items, i, j - 1, p.value) && RowOrdered(p.value) && RowComplete(cmp, items, i, j - 1, p.value)
    ensures var r := RowUpTo(cmp, items, i, j);
      r.Some? ==> RowSound(cmp, items, i, j, r.value) && RowOrdered(r.value) && RowComplete(cmp, items, i, j, r.value)
  {
    var p := RowUpTo(cmp, items, i, j - 1);
    var v := cmp(items[i], items[j - 1]);
    if p.Some? {
      var prev := p.value;
      if v.Priced? {
        var hs := prev + [Hit(i, j - 1, v.m)];
        assert RowUpTo(cmp, items, i, j) == Some(hs);
        assert forall k :: 0 <= k < |prev| ==> hs[k] == prev[k];
        assert RowSound(cmp, items, i, j, hs);
        assert RowOrdered(hs);
        assert RowComplete(cmp, items, i, j, hs);
      } else if v.Skip? {
        assert RowUpTo(cmp, items, i, j) == p;
      }
    }
  }

  /** Every hit of `hs` pairs a position before row `n` with a later position, as priced there. */
  ghost predicate PairsSound(cmp: Comparer, items: seq<Record>, n: nat, hs: seq<Hit>)
    requires n <= |items|
  {
    forall k :: 0 <= k < |hs| ==>
      hs[k].i < n && hs[k].i < hs[k].j < |items| && cmp(items[hs[k].i], items[hs[k].j]) == Priced(hs[k].m)
  }

  /** The hits of `hs` come in scan order. */
  predicate ScanOrdered(hs: seq<Hit>) {
    forall k, l :: 0 <= k < l < |hs| ==> Before(hs[k], hs[l])
  }

  /** Every priced comparison of a position before row `n` with a later position is a hit of `hs`. */
  ghost predicate PairsComplete(cmp: Comparer, items: seq<Record>, n: nat, hs: seq<Hit>)
    requires n <= |items|
  {
    forall i, j :: 0 <= i < n && i < j < |items| && cmp(items[i], items[j]).Priced? ==>
      Hit(i, j, cmp(items[i], items[j]).m) in hs
  }

  ghost predicate PairsGood(cmp: Comparer, items: seq<Record>, n: nat, r: Option<seq<Hit>>)
    requires n <= |items|
  {
    r.Some? ==> PairsSound(cmp, items, n, r.value) && ScanOrdered(r.value) && PairsComplete(cmp, items, n, r.value)
  }

  /**
   * The pairs found up to row `n` come in scan order, each from positions `i < j` and
   * priced, and every priced pair of those rows is among them.
   */
  lemma {:induction false} PairsFacts(cmp: Comparer, items: seq<Record>, n: nat)
    requires n <= |items|
    ensures PairsGood(cmp, items, n, PairsUpTo(cmp, items, n))
  {
    if n > 0 {
      PairsFacts(cmp, items, n - 1);
      RowFacts(cmp, items, n - 1, |items|);
      var before := PairsUpTo(cmp, items, n - 1);
      var row := RowUpTo(cmp, items, n - 1, |items|);
      if before.Some? && row.Some? {
        assert PairsUpTo(cmp, items, n) == Some(before.value + row.value);
        PairsStepSound(cmp, items, n, before.value, row.value);
        PairsStepOrdered(n - 1, before.value, row.value);
        PairsStepComplete(cmp, items, n, before.value, row.value);
      }
    }
  }

  /** Appending row `n - 1` to the hits of the rows before it keeps them sound. */
  lemma PairsStepSound(cmp: Comparer, items: seq<Record>, n: nat, before: seq<Hit>, row: seq<Hit>)
    requires 0 < n <= |items|
    requires PairsSound(cmp, items, n - 1, before) && RowSound(cmp, items, n - 1, |items|, row)
    ensures PairsSound(cmp, items, n, before + row)
  {
    var all := before + row;
    forall k | 0 <= k < |all|
      ensures all[k].i < n && all[k].i < all[k].j < |items| && cmp(items[all[k].i], items[all[k].j]) == Priced(all[k].m)
    {
      if k < |before| {
        assert all[k] == before[k];
      } else {
        assert all[k] == row[k - |before|];
      }
    }
  }

  /** A row placed after the earlier rows keeps the hits in scan order. */
  lemma PairsStepOrdered(i: nat, before: seq<Hit>, row: seq<Hit>)
    requires ScanOrdered(before) && (forall k :: 0 <= k < |before| ==> before[k].i < i)
    requires RowOrdered(row) && (forall k :: 0 <= k < |row| ==> row[k].i == i)
    ensures ScanOrdered(before + row)
  {
    var all := before + row;
    forall k, l | 0 <= k < l < |all| ensures Before(all[k], all[l]) {
      if l < |before| {
        assert all[k] == before[k] && all[l] == before[l];
      } else if k >= |before| {
        assert all[k] == row[k - |before|] && all[l] == row[l - |before|];
      } else {
        assert all[k] == before[k] && all[l] == row[l - |before|];
      }
    }
  }

  /** Appending row `n - 1` to the hits of the rows before it keeps them complete. */
  lemma PairsStepComplete(cmp: Comparer, items: seq<Record>, n: nat, before: seq<Hit>, row: seq<Hit>)
    requires 0 < n <= |items|
    requires PairsComplete(cmp, items, n - 1, before) && RowComplete(cmp, items, n - 1, |items|, row)
    ensures PairsComplete(cmp, items, n, before + row)
  {
    forall i, j | 0 <= i < n && i < j < |items| && cmp(items[i], items[j]).Priced?
      ensures Hit(i, j, cmp(items[i], items[j]).m) in before + row
    {
      if i < n - 1 {
        assert Hit(i, j, cmp(items[i], items[j]).m) in before;
      } else {
        assert Hit(i, j, cmp(items[i], items[j]).m) in row;
      }
    }
  }

  lemma CompareWithApplies(sim: Sim, a: Record, b: Record)
    ensures CompareWith(sim)(a, b) == Compare(sim, a, b)
  {
  }

  /** The hits of a scan that did not raise. */
  function ScanHits(sim: Sim, items: seq<Record>): seq<Hit>
    requires FindSpec(sim, items).Some?
  {
    PairsUpTo(CompareWith(sim), items, |items|).value
  }

  /** Each hit comes from positions `i < j` whose comparison priced it, and no pair appears twice. */
  lemma FindSpecSound(sim: Sim, items: seq<Record>)
    requires FindSpec(sim, items).Some?
    ensures var hs := ScanHits(sim, items);
      (forall k, l :: 0 <= k < l < |hs| ==> (hs[k].i, hs[k].j) != (hs[l].i, hs[l].j))
      && forall k :: 0 <= k < |hs| ==>
           hs[k].i < hs[k].j < |items| && Compare(sim, items[hs[k].i], items[hs[k].j]) == Priced(hs[k].m)
  {
    var cmp := CompareWith(sim);
    var hs := ScanHits(sim, items);
    PairsFacts(cmp, items, |items|);
    assert PairsSound(cmp, items, |items|, hs) && ScanOrdered(hs);
    forall k | 0 <= k < |hs|
      ensures hs[k].i < hs[k].j < |items| && Compare(sim, items[hs[k].i], items[hs[k].j]) == Priced(hs[k].m)
    {
      CompareWithApplies(sim, items[hs[k].i], items[hs[k].j]);
    }
  }

  /** Every pair of positions `i < j` that can be priced is a hit. */
  lemma FindSpecComplete(sim: Sim, items: seq<Record>)
    requires FindSpec(sim, items).Some?
    ensures var hs := ScanHits(sim, items);
      forall i, j :: 0 <= i < j < |items| && Compare(sim, items[i], items[j]).Priced? ==>
        Hit(i, j, Compare(sim, items[i], items[j]).m) in hs
  {
    var cmp := CompareWith(sim);
    var hs := ScanHits(sim, items);
    PairsFacts(cmp, items, |items|);
    assert PairsComplete(cmp, items, |items|, hs);
    forall i, j | 0 <= i < j < |items| && Compare(sim, items[i], items[j]).Priced?
      ensures Hit(i, j, Compare(sim, items[i], items[j]).m) in hs
    {
      CompareWithApplies(sim, items[i], items[j]);
    }
  }

  /**
   * The result lists each pair of positions at most once, only pairs `i < j` from
   * different platforms that match in some order, every such pair that can be priced, and
   * comes sorted by profit, largest first.
   */
  lemma FindSpecMeaning(sim: Sim, items: seq<Record>)
    requires FindSpec(sim, items).Some?
    ensures var hs := ScanHits(sim, items);
      var r := FindSpec(sim, items).value;
      (forall k, l :: 0 <= k < l < |hs| ==> (hs[k].i, hs[k].j) != (hs[l].i, hs[l].j))
      && (forall k :: 0 <= k < |hs| ==>
            hs[k].i < hs[k].j < |items|
            && var a := items[hs[k].i]; var b := items[hs[k].j];
            a.platform != b.platform && (Standard(sim, a, b) || Reversed(sim, a, b))
            && hs[k].m.item1 == a && hs[k].m.item2 == b)
      && (forall i, j :: 0 <= i < j < |items| && Compare(sim, items[i], items[j]).Priced? ==>
            Hit(i, j, Compare(sim, items[i], items[j]).m) in hs)
      && Sorting.SortedDesc(r, ProfitKey) && multiset(r) == multiset(MatchesOf(hs))
  {
    var hs := ScanHits(sim, items);
    FindSpecSound(sim, items);
    FindSpecComplete(sim, items);
    forall k | 0 <= k < |hs|
      ensures var a := items[hs[k].i]; var b := items[hs[k].j];
        a.platform != b.platform && (Standard(sim, a, b) || Reversed(sim, a, b))
        && hs[k].m.item1 == a && hs[k].m.item2 == b
    {
      CompareMeaning(sim, items[hs[k].i], items[hs[k].j]);
    }
  }

  /** Once a row has raised, the whole row has. */
  lemma {:induction false} RowStaysNone(cmp: Comparer, items: seq<Record>, i: nat, j: nat, j': nat)
    requires i < |items| && j <= j' <= |items| && RowUpTo(cmp, items, i, j).None?
    ensures RowUpTo(cmp, items, i, j').None?
    decreases j' - j
  {
    if j' > j {
      RowStaysNone(cmp, items, i, j, j' - 1);
    }
  }

  /** Once the scan has raised, it stays raised. */
  lemma {:induction false} PairsStayNone(cmp: Comparer, items: seq<Record>, n: nat, n': nat)
    requires n <= n' <= |items| && PairsUpTo(cmp, items, n).None?
    ensures PairsUpTo(cmp, items, n').None?
    decreases n' - n
  {
    if n' > n {
      PairsStayNone(cmp, items, n, n' - 1);
    }
  }

  /** `are_similar(x1, y1, threshold) and are_similar(x2, y2, threshold)` */
  method BothSimilar(mt: Names.Matcher, ghost sim: Sim, threshold: real, x1: string, y1: string, x2: string, y2: string)
    returns (r: bool)
    requires DecidesAt(mt, sim, threshold)
    ensures r == (sim(x1, y1) && sim(x2, y2))
  {
    r := Names.AreSimilar(mt, x1, y1, threshold);
    if r {
      r := Names.AreSimilar(mt, x2, y2, threshold);
    }
  }

  /** The body of the inner loop for `item1 = a`, `item2 = b`. */
  method ComparePair(mt: Names.Matcher, ghost sim: Sim, threshold: real, a: Record, b: Record) returns (v: Verdict)
    requires DecidesAt(mt, sim, threshold)
    ensures v == Compare(sim, a, b)
  {
    if a.platform == b.platform {
      return Skip;
    }
    var std := BothSimilar(mt, sim, threshold, a.optionA, b.optionA, a.optionB, b.optionB);
    var rev := BothSimilar(mt, sim, threshold, a.optionA, b.optionB, a.optionB, b.optionA);
    if !(std || rev) {
      return Skip;
    }
    var second := if rev && !std then Swapped(b) else b;
    var best := PairBest(a, second);
    if best.a == 0.0 || best.b == 0.0 {
      return ZeroDivision;
    }
    var sum := 1.0 / best.a + 1.0 / best.b;
    if Arbitrage.Truthy(best.draw) {
      sum := sum + 1.0 / best.draw.value;
    }
    return Priced(PairMatch(a, b, rev && !std, sum, if sum < 1.0 then (1.0 - sum) * 100.0 else 0.0));
  }

  /** The inner loop for `item1 = items[i]`: `ok` is false when a comparison raised. */
  method ScanRow(mt: Names.Matcher, ghost sim: Sim, threshold: real, items: seq<Record>, i: nat)
    returns (ok: bool, found: seq<PairMatch>, ghost row: seq<Hit>)
    requires DecidesAt(mt, sim, threshold) && i < |items|
    ensures ok ==> RowUpTo(CompareWith(sim), items, i, |items|) == Some(row) && found == MatchesOf(row)
    ensures !ok ==> RowUpTo(CompareWith(sim), items, i, |items|).None?
  {
    found := [];
    row := [];
    ghost var cmp := CompareWith(sim);
    for j := i + 1 to |items|
      invariant RowUpTo(cmp, items, i, j) == Some(row) && found == MatchesOf(row)
    {
      var v := ComparePair(mt, sim, threshold, items[i], items[j]);
      CompareWithApplies(sim, items[i], items[j]);
      assert RowUpTo(cmp, items, i, j + 1) == Then(Some(row), i, j, v);
      match v {
        case Skip =>
        case Priced(m) =>
          MatchesOfAppend(row, [Hit(i, j, m)]);
          found := found + [m];
          row := row + [Hit(i, j, m)];
        case ZeroDivision =>
          RowStaysNone(cmp, items, i, j + 1, |items|);
          return false, found, row;
      }
    }
    ok := true;
  }

  /** `find_matches_in_data(data, threshold)` over `items = list(data.values())`. */
  /** One more row of the scan extends the hits by that row. */
  lemma PairsStep(cmp: Comparer, items: seq<Record>, i: nat, hits: seq<Hit>, row: seq<Hit>)
    requires i < |items|
    requires PairsUpTo(cmp, items, i) == Some(hits) && RowUpTo(cmp, items, i, |items|) == Some(row)
    ensures PairsUpTo(cmp, items, i + 1) == Some(hits + row)
  {
  }

  method FindMatchesInData(mt: Names.Matcher, ghost sim: Sim, items: seq<Record>, threshold: real)
    returns (result: Option<seq<PairMatch>>)
    requires DecidesAt(mt, sim, threshold)
    ensures result == FindSpec(sim, items)
  {
    var matches: seq<PairMatch> := [];
    ghost var hits: seq<Hit> := [];
    ghost var cmp := CompareWith(sim);
    for i := 0 to |items|
      invariant PairsUpTo(cmp, items, i) == Some(hits) && matches == MatchesOf(hits)
    {
      var ok, found, row := ScanRow(mt, sim, threshold, items, i);
      if !ok {
        PairsStayNone(cmp, items, i + 1, |items|);
        return None;
      }
      PairsStep(cmp, items, i, hits, row);
      MatchesOfAppend(hits, row);
      matches := matches + found;
      hits := hits + row;
    }
    assert FindSpec(sim, items) == Some(Sorting.SortDesc(MatchesOf(hits), ProfitKey));
    matches := Sorting.SortDesc(matches, ProfitKey);
    result := Some(matches);
  }
}
