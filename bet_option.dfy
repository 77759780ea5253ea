/**
 * `BetOption`, one two-sided (optionally three-way) market quote from one platform,
 * and its validity filter `is_garbage`.
 *
 * Odds are decimal payout multiples, as exact reals. Dates are day numbers and
 * timestamps are clock readings, both integers; the clock and "today" are parameters.
 */
module BetOption {
  import opened Wrappers
  import opened Text

  datatype Record = Record(
    id: string,
    platform: string,
    title: Option<string>,
    sport: Option<string>,
    league: Option<string>,
    eventDate: Option<int>,
    optionA: string,
    probaA: real,
    optionB: string,
    probaB: real,
    probaDraw: Option<real>,
    timestamp: int,
    /** `None` while the attribute `reversed_match` has never been assigned. */
    reversedMatch: Option<bool>)

  /** `BetOption(...)`: stores every argument and stamps the record with the clock reading `now`. */
  function NewBetOption(
    platform: string, id: string, optionA: string, optionB: string,
    probaA: real, probaB: real, probaDraw: Option<real>,
    title: Option<string>, sport: Option<string>, league: Option<string>,
    eventDate: Option<int>, now: int): (r: Record)
    ensures r.timestamp == now
    ensures r.platform == platform && r.id == id
    ensures r.optionA == optionA && r.optionB == optionB
    ensures r.probaA == probaA && r.probaB == probaB && r.probaDraw == probaDraw
    ensures r.title == title && r.sport == sport && r.league == league && r.eventDate == eventDate
    ensures r.reversedMatch == None
  {
    Record(id, platform, title, sport, league, eventDate,
           optionA, probaA, optionB, probaB, probaDraw, now, None)
  }

  predicate IsYesNo(name: string) {
    Lower(name) == "yes" || Lower(name) == "no"
  }

  /** `is_garbage()`: the early-return chain of rejections, with `date.today()` as `today`. */
  predicate IsGarbage(r: Record, today: int) {
    if r.probaA < 0.01 || r.probaB < 0.01 || r.probaA > 100.0 || r.probaB > 100.0 then true
    else if IsYesNo(r.optionA) then true
    else if IsYesNo(r.optionB) then true
    else if Lower(r.optionA) == Lower(r.optionB) then true
    else if r.eventDate.Some? && r.eventDate.value < today then true
    else false
  }

  /** Odds accepted by the range rule: exactly 0.01 and exactly 100 are inside. */
  predicate OddsInRange(p: real) {
    0.01 <= p <= 100.0
  }

  /** A record is kept exactly when every rule lets it through. */
  lemma AcceptedIff(r: Record, today: int)
    ensures !IsGarbage(r, today) <==>
      OddsInRange(r.probaA) && OddsInRange(r.probaB)
      && !IsYesNo(r.optionA) && !IsYesNo(r.optionB)
      && Lower(r.optionA) != Lower(r.optionB)
      && (r.eventDate == None || r.eventDate.value >= today)
  {
  }

  lemma OddsOutOfRangeIsGarbage(r: Record, today: int)
    requires !OddsInRange(r.probaA) || !OddsInRange(r.probaB)
    ensures IsGarbage(r, today)
  {
  }

  /** The range bounds themselves are not rejected by the range rule. */
  lemma BoundaryOddsAccepted(r: Record, today: int)
    requires r.probaA == 0.01 && r.probaB == 100.0
    requires !IsYesNo(r.optionA) && !IsYesNo(r.optionB) && Lower(r.optionA) != Lower(r.optionB)
    requires r.eventDate == None
    ensures !IsGarbage(r, today)
  {
  }

  lemma YesNoIsGarbage(r: Record, today: int)
    requires IsYesNo(r.optionA) || IsYesNo(r.optionB)
    ensures IsGarbage(r, today)
  {
  }

  /** "Yes", "NO" and "yes" are all recognised as yes/no sides. */
  lemma YesNoIgnoresCase()
    ensures IsYesNo("Yes") && IsYesNo("NO") && IsYesNo("yes") && !IsYesNo("Yessir")
  {
    assert Lower("Yes") == "yes";
    assert Lower("NO") == "no";
    assert Lower("yes") == "yes";
    assert |Lower("Yessir")| == 6;
  }

  lemma SameNamesIsGarbage(r: Record, today: int)
    requires Lower(r.optionA) == Lower(r.optionB)
    ensures IsGarbage(r, today)
  {
  }

  /** Only a date strictly before today is rejected; no date, today or later is not. */
  lemma PastDateIsGarbage(r: Record, today: int)
    ensures r.eventDate.Some? && r.eventDate.value < today ==> IsGarbage(r, today)
    ensures IsGarbage(r, today) && (r.eventDate == None || r.eventDate.value >= today) ==>
      IsGarbage(r.(eventDate := None), today)
  {
  }

  /** The filter never looks at the draw odds, the clock stamp, the ids or the labels. */
  lemma GarbageIgnoresOtherFields(r: Record, today: int, d: Option<real>, ts: int, id: string, p: string)
    ensures IsGarbage(r.(probaDraw := d, timestamp := ts, id := id, platform := p,
                         title := None, sport := None, league := None, reversedMatch := None), today)
            == IsGarbage(r, today)
  {
  }
}
