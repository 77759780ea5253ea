/**
 * The pricing half of `add_odd`: best prices over a group of matched quotes (with the
 * A/B sides swapped on quotes matched in reversed order), the sum of inverse odds,
 * the profit percentage, and the split of a 100-unit stake over the legs.
 *
 * Arithmetic is exact: odds, sums, profits and stakes are reals.
 */
module Arbitrage {
  import opened Wrappers
  import opened BetOption

  /** Python truthiness of an optional float: present and non-zero. */
  predicate Truthy(d: Option<real>) {
    d.Some? && d.value != 0.0
  }

  function Max(a: real, b: real): real {
    if a >= b then a else b
  }

  /** `max(best, d) if best and d else (best or d)` */
  function CombineDraw(best: Option<real>, d: Option<real>): (r: Option<real>)
    ensures Truthy(r) <==> Truthy(best) || Truthy(d)
    ensures Truthy(best) && Truthy(d) ==> r == Some(Max(best.value, d.value))
    ensures Truthy(best) && !Truthy(d) ==> r == best
    ensures !Truthy(best) ==> r == d
  {
    if Truthy(best) && Truthy(d) then Some(Max(best.value, d.value))
    else if Truthy(best) then best
    else d
  }

  /** `hasattr(o, "reversed_match") and o.reversed_match` */
  predicate Flagged(o: Record) {
    o.reversedMatch == Some(true)
  }

  /** The price a quote offers on the ingested quote's side A. */
  function SideA(o: Record): real {
    if Flagged(o) then o.probaB else o.probaA
  }

  /** The price a quote offers on the ingested quote's side B. */
  function SideB(o: Record): real {
    if Flagged(o) then o.probaA else o.probaB
  }

  datatype Best = Best(a: real, b: real, draw: Option<real>)

  /** One iteration of the best-price loop over `odds[1:]`. */
  function BestStep(best: Best, o: Record): Best {
    Best(Max(best.a, SideA(o)), Max(best.b, SideB(o)), CombineDraw(best.draw, o.probaDraw))
  }

  /**
   * Best prices over a group whose first quote is the ingested one: side A is the
   * largest A-side price of the group, side B likewise, and the draw is the largest
   * truthy draw price (falsy when no quote has one). The first quote is never swapped.
   */
  function BestPrices(odds: seq<Record>): (r: Best)
    requires |odds| >= 1
    ensures r.a >= odds[0].probaA && r.b >= odds[0].probaB
    ensures forall i :: 1 <= i < |odds| ==> r.a >= SideA(odds[i]) && r.b >= SideB(odds[i])
    ensures r.a == odds[0].probaA || exists i :: 1 <= i < |odds| && r.a == SideA(odds[i])
    ensures r.b == odds[0].probaB || exists i :: 1 <= i < |odds| && r.b == SideB(odds[i])
    ensures Truthy(r.draw) <==> exists i :: 0 <= i < |odds| && Truthy(odds[i].probaDraw)
    ensures Truthy(r.draw) ==>
      (forall i :: 0 <= i < |odds| && Truthy(odds[i].probaDraw) ==> r.draw.value >= odds[i].probaDraw.value)
      && exists i :: 0 <= i < |odds| && odds[i].probaDraw == r.draw
  {
    if |odds| == 1 then Best(odds[0].probaA, odds[0].probaB, odds[0].probaDraw)
    else
      var p := BestPrices(odds[..|odds| - 1]);
      var last := odds[|odds| - 1];
      assert forall i :: 0 <= i < |odds| - 1 ==> odds[..|odds| - 1][i] == odds[i];
      BestStep(p, last)
  }

  /** The best-price loop of `add_odd`, over the matched quotes after the first. */
  method ComputeBest(odds: seq<Record>) returns (best: Best)
    requires |odds| >= 1
    ensures best == BestPrices(odds)
  {
    best := Best(odds[0].probaA, odds[0].probaB, odds[0].probaDraw);
    for i := 1 to |odds|
      invariant best == BestPrices(odds[..i])
    {
      var o := odds[i];
      if Flagged(o) {
        best := best.(a := Max(best.a, o.probaB), b := Max(best.b, o.probaA));
      } else {
        best := best.(a := Max(best.a, o.probaA), b := Max(best.b, o.probaB));
      }
      best := best.(draw := CombineDraw(best.draw, o.probaDraw));
      assert odds[..i + 1][..i] == odds[..i];
    }
    assert odds[..|odds|] == odds;
  }

  /** `1/bestA + 1/bestB + (1/bestDraw if bestDraw else 0)` */
  function SumInverse(best: Best): real
    requires best.a != 0.0 && best.b != 0.0
  {
    1.0 / best.a + 1.0 / best.b + (if Truthy(best.draw) then 1.0 / best.draw.value else 0.0)
  }

  /** `(1 - sum) * 100`, the reported profit percentage. */
  function Profit(sum: real): real {
    (1.0 - sum) * 100.0
  }

  datatype Stakes = Stakes(a: real, b: real, draw: real)

  /** `(100 / best) / sum` on every present leg, 0 on an absent draw. */
  function StakeSplit(best: Best, sum: real): Stakes
    requires best.a != 0.0 && best.b != 0.0 && sum != 0.0
  {
    Stakes((100.0 / best.a) / sum, (100.0 / best.b) / sum,
           if Truthy(best.draw) then (100.0 / best.draw.value) / sum else 0.0)
  }

  datatype Evaluation =
    | NoArbitrage(sum: real)
    | Opportunity(sum: real, profit: real, stakes: Stakes)
      /** A non-positive draw price can bring the sum to exactly 0: `ZeroDivisionError`. */
    | DivisionByZero

  /** The decision that follows the best-price loop. */
  function Evaluate(best: Best): (e: Evaluation)
    requires best.a != 0.0 && best.b != 0.0
    ensures e.NoArbitrage? <==> SumInverse(best) >= 1.0
    ensures e.DivisionByZero? <==> SumInverse(best) == 0.0
    ensures e.Opportunity? ==> e.sum == SumInverse(best) && e.sum < 1.0
                               && e.profit == Profit(e.sum) && e.profit > 0.0
  {
    var sum := SumInverse(best);
    if sum < 1.0 then
      if sum == 0.0 then DivisionByZero
      else Opportunity(sum, Profit(sum), StakeSplit(best, sum))
    else NoArbitrage(sum)
  }

  /** The optimal stakes add up to the 100 units invested. */
  lemma StakesSumTo100(best: Best)
    requires best.a != 0.0 && best.b != 0.0 && SumInverse(best) != 0.0
    ensures var s := StakeSplit(best, SumInverse(best)); s.a + s.b + s.draw == 100.0
  {
    var sum := SumInverse(best);
    var d := if Truthy(best.draw) then 1.0 / best.draw.value else 0.0;
    assert sum == 1.0 / best.a + 1.0 / best.b + d;
    var s := StakeSplit(best, sum);
    assert s.a == 100.0 * (1.0 / best.a) / sum;
    assert s.b == 100.0 * (1.0 / best.b) / sum;
    assert s.draw == 100.0 * d / sum;
    assert s.a + s.b + s.draw == 100.0 * (1.0 / best.a + 1.0 / best.b + d) / sum;
  }

  /** Every leg pays the same amount, `100 / sum`, whichever outcome occurs. */
  lemma EqualPayout(best: Best)
    requires best.a != 0.0 && best.b != 0.0 && SumInverse(best) != 0.0
    ensures var sum := SumInverse(best); var s := StakeSplit(best, sum);
      s.a * best.a == 100.0 / sum && s.b * best.b == 100.0 / sum
      && (Truthy(best.draw) ==> s.draw * best.draw.value == 100.0 / sum)
  {
    var sum := SumInverse(best);
    PayoutLeg(best.a, sum);
    PayoutLeg(best.b, sum);
    if Truthy(best.draw) { PayoutLeg(best.draw.value, sum); }
  }

  lemma PayoutLeg(price: real, sum: real)
    requires price != 0.0 && sum != 0.0
    ensures (100.0 / price) / sum * price == 100.0 / sum
  {
  }

  /**
   * With every leg priced positively and no arbitrage-breaking draw, the sum is positive and the
   * guaranteed return `100 / sum` exceeds the outlay by at least the reported profit.
   */
  lemma ReturnCoversProfit(best: Best)
    requires best.a > 0.0 && best.b > 0.0 && (Truthy(best.draw) ==> best.draw.value > 0.0)
    requires SumInverse(best) < 1.0
    ensures SumInverse(best) > 0.0
    ensures 100.0 / SumInverse(best) >= 100.0 + Profit(SumInverse(best))
  {
    var s := SumInverse(best);
    assert 1.0 / best.a > 0.0 && 1.0 / best.b > 0.0;
    assert Truthy(best.draw) ==> 1.0 / best.draw.value > 0.0;
    assert s > 0.0;
    assert 100.0 / s - 100.0 == 100.0 * (1.0 - s) / s;
    var x := 100.0 * (1.0 - s);
    assert x / s == x * (1.0 / s);
    assert 1.0 / s >= 1.0;
    ScaleUp(x, 1.0 / s);
    calc {
      100.0 / s - 100.0;
      x / s;
      x * (1.0 / s);
    >= x;
    }
  }

  lemma ScaleUp(x: real, y: real)
    requires x > 0.0 && y >= 1.0
    ensures x * y >= x
  {
    assert x * y - x == x * (y - 1.0);
  }

  /** Two-way example: odds 2.5 against 2.0 sum to 0.9, a 10 % opportunity. */
  lemma TwoWayExample()
    ensures Evaluate(Best(2.5, 2.0, None)) == Opportunity(0.9, 10.0, Stakes(400.0 / 9.0, 500.0 / 9.0, 0.0))
  {
    assert SumInverse(Best(2.5, 2.0, None)) == 0.9;
  }

  /** Even odds of 1.8 on both sides sum to more than 1: no opportunity. */
  lemma NoArbitrageExample()
    ensures Evaluate(Best(1.8, 1.8, None)).NoArbitrage?
  {
    assert SumInverse(Best(1.8, 1.8, None)) == 10.0 / 9.0;
  }

  /** A negative draw price can cancel the two sides: the stake split divides by zero. */
  lemma ZeroSumExample()
    ensures Evaluate(Best(1.0, 1.0, Some(-0.5))) == DivisionByZero
  {
    assert SumInverse(Best(1.0, 1.0, Some(-0.5))) == 0.0;
  }

  /** `f"{platform}:{id}"` */
  function PlatformId(o: Record): string {
    o.platform + ":" + o.id
  }

  /** `_get_match_key`: the set of `platform:id` labels of a group. */
  function MatchKey(odds: seq<Record>): (k: set<string>)
    ensures forall o :: o in odds ==> PlatformId(o) in k
    ensures forall x :: x in k ==> exists o :: o in odds && x == PlatformId(o)
  {
    set o | o in odds :: PlatformId(o)
  }

  /** The key depends only on which quotes are in the group, not on their order or repetition. */
  lemma MatchKeyOrderFree(odds1: seq<Record>, odds2: seq<Record>)
    requires forall o :: o in odds1 <==> o in odds2
    ensures MatchKey(odds1) == MatchKey(odds2)
  {
  }

  /** `f"{A} vs {B}"`, the label of a match. */
  function MatchLabel(o: Record): string {
    o.optionA + " vs " + o.optionB
  }

  /** One line of the bet plan: `Bet {units} units on '{option}' at odds {price}`. */
  datatype BetLine = BetLine(units: real, option: string, price: real)

  /** The bet plan of an opportunity, with the draw line only when a draw price is truthy. */
  function BetLines(odd: Record, best: Best, stakes: Stakes): (lines: seq<BetLine>)
    ensures |lines| == if Truthy(best.draw) then 3 else 2
    ensures lines[0] == BetLine(stakes.a, odd.optionA, best.a)
    ensures lines[1] == BetLine(stakes.b, odd.optionB, best.b)
    ensures Truthy(best.draw) ==> lines[2] == BetLine(stakes.draw, "Draw", best.draw.value)
  {
    [BetLine(stakes.a, odd.optionA, best.a), BetLine(stakes.b, odd.optionB, best.b)]
    + (if Truthy(best.draw) then [BetLine(stakes.draw, "Draw", best.draw.value)] else [])
  }
}
