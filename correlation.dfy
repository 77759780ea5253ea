/**
 * The correlation scan of `add_odd`: the ingested quote is compared with every stored
 * quote, in store order, and the stored quotes that describe the same event on another
 * platform are collected, each tagged with whether its sides are listed the other way
 * round. The tag is written into the stored quote itself.
 *
 * The app version also refuses pairs whose event dates are both known and more than
 * one day apart (`window`); the earlier versions have no such rule.
 *
 * The rules are stated over a similarity test `sim` on two names; the scan itself
 * calls `are_similar`, and `Decides` says that `sim` is exactly that test.
 */
module Correlation {
  import opened Wrappers
  import opened Text
  import opened BetOption
  import Names
  import OD = OrderedDict

  /** `SIMILAR_STRINGS_THRESHOLD`, the default of `are_similar`. */
  const SimilarThreshold: real := 0.9

  type Sim = (string, string) -> bool

  /** `sim(a, b)` is `are_similar(a, b)` with the default threshold. */
  ghost predicate Decides(mt: Names.Matcher, sim: Sim) {
    Names.Valid(mt)
    && forall a, b {:trigger Names.Similar(mt, a, b, SimilarThreshold)} :: sim(a, b) == Names.Similar(mt, a, b, SimilarThreshold)
  }

  /** Both dates are known and more than one day apart. */
  predicate DatesApart(d1: Option<int>, d2: Option<int>) {
    d1.Some? && d2.Some? && (d1.value - d2.value > 1 || d2.value - d1.value > 1)
  }

  /** Side A matches side A and side B matches side B (names lowercased first). */
  predicate Standard(sim: Sim, odd: Record, other: Record) {
    sim(Lower(odd.optionA), Lower(other.optionA)) && sim(Lower(odd.optionB), Lower(other.optionB))
  }

  /** Side A matches side B and side B matches side A. */
  predicate Reversed(sim: Sim, odd: Record, other: Record) {
    sim(Lower(odd.optionA), Lower(other.optionB)) && sim(Lower(odd.optionB), Lower(other.optionA))
  }

  /**
   * The verdict on one stored quote: `None` when it is skipped or does not match,
   * otherwise the reversed tag it receives.
   */
  function Verdict(sim: Sim, odd: Record, other: Record, window: bool): Option<bool> {
    if other.id == odd.id then None
    else if odd.platform == other.platform then None
    else if window && DatesApart(odd.eventDate, other.eventDate) then None
    else
      var std := Standard(sim, odd, other);
      var rev := Reversed(sim, odd, other);
      if std || rev then Some(rev && !std) else None
  }

  /**
   * A stored quote matches exactly when it has another id and another platform, lies
   * within the date window when that applies, and matches standard or reversed; its
   * tag is then reversed and not standard.
   */
  lemma VerdictMeaning(sim: Sim, odd: Record, other: Record, window: bool)
    ensures var v := Verdict(sim, odd, other, window);
      (v.Some? <==> other.id != odd.id && other.platform != odd.platform
                    && !(window && DatesApart(odd.eventDate, other.eventDate))
                    && (Standard(sim, odd, other) || Reversed(sim, odd, other)))
      && (v.Some? ==> v.value == (Reversed(sim, odd, other) && !Standard(sim, odd, other)))
  {
  }

  /** The stored quote after the scan: tagged when it matched, untouched otherwise. */
  function Tagged(sim: Sim, odd: Record, other: Record, window: bool): Record {
    match Verdict(sim, odd, other, window)
    case Some(f) => other.(reversedMatch := Some(f))
    case None => other
  }

  /** The matched quotes among the first `n` stored keys, tagged, in store order. */
  function MatchedUpTo(sim: Sim, odd: Record, db: OD.ODict<string, Record>, n: nat, window: bool): seq<Record>
    requires OD.Valid(db) && n <= |db.keys|
  {
    if n == 0 then []
    else
      var other := db.vals[db.keys[n - 1]];
      MatchedUpTo(sim, odd, db, n - 1, window)
      + if Verdict(sim, odd, other, window).Some? then [Tagged(sim, odd, other, window)] else []
  }

  /** The matched quotes of the whole store, `odds[1:]`. */
  function Matched(sim: Sim, odd: Record, db: OD.ODict<string, Record>, window: bool): seq<Record>
    requires OD.Valid(db)
  {
    MatchedUpTo(sim, odd, db, |db.keys|, window)
  }

  /** The store after the scan: every matched quote carries its tag, nothing else changes. */
  function TagStore(sim: Sim, odd: Record, vals: map<string, Record>, window: bool): (r: map<string, Record>)
    ensures r.Keys == vals.Keys
    ensures forall k :: k in r ==> r[k] == vals[k].(reversedMatch := r[k].reversedMatch)
  {
    map k | k in vals :: Tagged(sim, odd, vals[k], window)
  }

  /**
   * The scan loop. `vals` is the store's table, written in place when a quote matches;
   * `matched` is `odds[1:]`.
   */
  method Scan(mt: Names.Matcher, ghost sim: Sim, odd: Record, db: OD.ODict<string, Record>, window: bool)
    returns (vals: map<string, Record>, matched: seq<Record>)
    requires Decides(mt, sim) && OD.Valid(db)
    ensures vals == TagStore(sim, odd, db.vals, window)
    ensures matched == Matched(sim, odd, db, window)
  {
    vals := db.vals;
    matched := [];
    for i := 0 to |db.keys|
      invariant matched == MatchedUpTo(sim, odd, db, i, window)
      invariant vals == TagPrefix(sim, odd, db, i, window)
    {
      var key := db.keys[i];
      var other := db.vals[key];
      var verdict := Inspect(mt, sim, odd, other, window);
      TagPrefixStep(sim, odd, db, i, window);
      MatchedStep(sim, odd, db, i, window);
      if verdict.Some? {
        var tagged := other.(reversedMatch := verdict);
        vals := vals[key := tagged];
        matched := matched + [tagged];
      }
    }
    TagPrefixEnd(sim, odd, db, window);
  }

  lemma MatchedStep(sim: Sim, odd: Record, db: OD.ODict<string, Record>, i: nat, window: bool)
    requires OD.Valid(db) && i < |db.keys|
    ensures var other := db.vals[db.keys[i]]; var v := Verdict(sim, odd, other, window);
      MatchedUpTo(sim, odd, db, i + 1, window)
        == MatchedUpTo(sim, odd, db, i, window) + if v.Some? then [other.(reversedMatch := v)] else []
  {
  }

  /** The store with the quotes of the first `i` keys tagged. */
  function TagPrefix(sim: Sim, odd: Record, db: OD.ODict<string, Record>, i: nat, window: bool): map<string, Record>
    requires OD.Valid(db) && i <= |db.keys|
  {
    map k | k in db.vals :: if k in db.keys[..i] then Tagged(sim, odd, db.vals[k], window) else db.vals[k]
  }

  lemma TagPrefixStep(sim: Sim, odd: Record, db: OD.ODict<string, Record>, i: nat, window: bool)
    requires OD.Valid(db) && i < |db.keys|
    ensures var key := db.keys[i]; var before := TagPrefix(sim, odd, db, i, window);
      key in before && before[key] == db.vals[key]
      && TagPrefix(sim, odd, db, i + 1, window) == before[key := Tagged(sim, odd, db.vals[key], window)]
  {
    var key := db.keys[i];
    assert db.keys[..i + 1] == db.keys[..i] + [key];
    assert key !in db.keys[..i] by {
      forall j | 0 <= j < i ensures db.keys[j] != key { }
    }
  }

  lemma TagPrefixEnd(sim: Sim, odd: Record, db: OD.ODict<string, Record>, window: bool)
    requires OD.Valid(db)
    ensures TagPrefix(sim, odd, db, |db.keys|, window) == TagStore(sim, odd, db.vals, window)
  {
    assert db.keys[..|db.keys|] == db.keys;
  }

  /** The body of the scan loop for one stored quote, with `are_similar` short-circuited. */
  method Inspect(mt: Names.Matcher, ghost sim: Sim, odd: Record, other: Record, window: bool) returns (v: Option<bool>)
    requires Decides(mt, sim)
    ensures v == Verdict(sim, odd, other, window)
  {
    if other.id == odd.id || odd.platform == other.platform {
      return None;
    }
    if window && DatesApart(odd.eventDate, other.eventDate) {
      return None;
    }
    var std := SidesMatch(mt, sim, odd.optionA, other.optionA, odd.optionB, other.optionB);
    var rev := SidesMatch(mt, sim, odd.optionA, other.optionB, odd.optionB, other.optionA);
    if std || rev {
      return Some(rev && !std);
    }
    return None;
  }

  /** `are_similar(a1.lower(), a2.lower()) and are_similar(b1.lower(), b2.lower())` */
  method SidesMatch(mt: Names.Matcher, ghost sim: Sim, a1: string, a2: string, b1: string, b2: string) returns (r: bool)
    requires Decides(mt, sim)
    ensures r == (sim(Lower(a1), Lower(a2)) && sim(Lower(b1), Lower(b2)))
  {
    r := Names.AreSimilar(mt, Lower(a1), Lower(a2), SimilarThreshold);
    if r {
      r := Names.AreSimilar(mt, Lower(b1), Lower(b2), SimilarThreshold);
    }
  }

  /** `r` is the stored quote `other`, matched and tagged. */
  predicate MatchOf(sim: Sim, odd: Record, other: Record, r: Record, window: bool) {
    other.id != odd.id && other.platform != odd.platform
    && !(window && DatesApart(odd.eventDate, other.eventDate))
    && (Standard(sim, odd, other) || Reversed(sim, odd, other))
    && r == other.(reversedMatch := Some(Reversed(sim, odd, other) && !Standard(sim, odd, other)))
  }

  /**
   * Every matched quote is a stored quote of another id and another platform, within
   * the date window when it applies, carrying the tag reversed and not standard.
   */
  lemma {:induction false} MatchedAreValid(sim: Sim, odd: Record, db: OD.ODict<string, Record>, n: nat, window: bool)
    requires OD.Valid(db) && n <= |db.keys|
    ensures forall r :: r in MatchedUpTo(sim, odd, db, n, window) ==>
      exists j :: 0 <= j < n && MatchOf(sim, odd, db.vals[db.keys[j]], r, window)
  {
    if n > 0 {
      MatchedAreValid(sim, odd, db, n - 1, window);
      var other := db.vals[db.keys[n - 1]];
      forall r | r in MatchedUpTo(sim, odd, db, n, window)
        ensures exists j :: 0 <= j < n && MatchOf(sim, odd, db.vals[db.keys[j]], r, window)
      {
        if r in MatchedUpTo(sim, odd, db, n - 1, window) {
          var j :| 0 <= j < n - 1 && MatchOf(sim, odd, db.vals[db.keys[j]], r, window);
        } else {
          assert MatchOf(sim, odd, other, r, window);
        }
      }
    }
  }

  /** Conversely, every stored quote that passes the rules is collected. */
  lemma {:induction false} MatchedAreAll(sim: Sim, odd: Record, db: OD.ODict<string, Record>, n: nat, window: bool)
    requires OD.Valid(db) && n <= |db.keys|
    ensures forall j :: 0 <= j < n && Verdict(sim, odd, db.vals[db.keys[j]], window).Some? ==>
      Tagged(sim, odd, db.vals[db.keys[j]], window) in MatchedUpTo(sim, odd, db, n, window)
  {
    if n > 0 {
      MatchedAreAll(sim, odd, db, n - 1, window);
      var other := db.vals[db.keys[n - 1]];
      var m := MatchedUpTo(sim, odd, db, n, window);
      var prev := MatchedUpTo(sim, odd, db, n - 1, window);
      forall j | 0 <= j < n && Verdict(sim, odd, db.vals[db.keys[j]], window).Some?
        ensures Tagged(sim, odd, db.vals[db.keys[j]], window) in m
      {
        if j < n - 1 {
          assert Tagged(sim, odd, db.vals[db.keys[j]], window) in prev;
        } else {
          assert m[|prev|] == Tagged(sim, odd, other, window);
        }
      }
    }
  }

  /** The positions among the first `n` stored keys whose quote matches. */
  function MatchPositions(sim: Sim, odd: Record, db: OD.ODict<string, Record>, n: nat, window: bool): set<nat>
    requires OD.Valid(db) && n <= |db.keys|
  {
    set j: nat | j < n && Verdict(sim, odd, db.vals[db.keys[j]], window).Some?
  }

  /** The number of matches the scan counts is the number of stored quotes that match. */
  lemma {:induction false} MatchCount(sim: Sim, odd: Record, db: OD.ODict<string, Record>, n: nat, window: bool)
    requires OD.Valid(db) && n <= |db.keys|
    ensures |MatchedUpTo(sim, odd, db, n, window)| == |MatchPositions(sim, odd, db, n, window)|
  {
    if n > 0 {
      MatchCount(sim, odd, db, n - 1, window);
      PositionsStep(sim, odd, db, n, window);
    }
  }

  lemma PositionsStep(sim: Sim, odd: Record, db: OD.ODict<string, Record>, n: nat, window: bool)
    requires OD.Valid(db) && 0 < n <= |db.keys|
    ensures var hit := Verdict(sim, odd, db.vals[db.keys[n - 1]], window).Some?;
      MatchPositions(sim, odd, db, n, window) == MatchPositions(sim, odd, db, n - 1, window) + (if hit then {n - 1} else {})
      && n - 1 !in MatchPositions(sim, odd, db, n - 1, window)
  {
  }

  /** The ingested quote itself is never matched, whatever is stored. */
  lemma SelfNeverMatched(sim: Sim, odd: Record, db: OD.ODict<string, Record>, window: bool)
    requires OD.Valid(db)
    ensures forall r :: r in Matched(sim, odd, db, window) ==> r.id != odd.id && r.platform != odd.platform
  {
    MatchedAreValid(sim, odd, db, |db.keys|, window);
  }

  /** Two quotes listing the same sides in opposite order are tagged reversed. */
  lemma SwappedSidesTagged(mt: Names.Matcher, sim: Sim, odd: Record, other: Record)
    requires Decides(mt, sim)
    requires other.id != odd.id && other.platform != odd.platform && other.eventDate == None
    requires Lower(other.optionA) == Lower(odd.optionB) && Lower(other.optionB) == Lower(odd.optionA)
    requires !Standard(sim, odd, other)
    ensures Verdict(sim, odd, other, true) == Some(true)
  {
    Names.SimilarReflexive(mt, Lower(odd.optionA), SimilarThreshold);
    Names.SimilarReflexive(mt, Lower(odd.optionB), SimilarThreshold);
  }

  /**
   * Only the app version applies the date window: quotes dated two days apart are never
   * paired there, while the same pair is judged on the names alone without the window,
   * and a one-day gap is inside the window.
   */
  lemma DateWindowExample(sim: Sim, odd: Record, other: Record)
    requires other.id != odd.id && other.platform != odd.platform
    ensures odd.eventDate == Some(10) && other.eventDate == Some(12) ==> Verdict(sim, odd, other, true) == None
    ensures odd.eventDate == Some(10) && other.eventDate == Some(11) ==>
      Verdict(sim, odd, other, true) == Verdict(sim, odd, other, false)
  {
  }
}
