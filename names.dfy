/**
 * Team-name normalisation against the alias table and the `are_similar` decision.
 *
 * The alias table maps a sport to an ordered dictionary from a main name to its list
 * of aliases. The fuzzy-matching library is an oracle: `extractOne(query, choices)`
 * (with its score cutoff and pre-processor built in) yields a member of `choices` or
 * nothing, and `ratio(a, b)` is a score in [0, 100].
 */
module Names {
  import opened Wrappers
  import opened Text
  import OD = OrderedDict
  import SeqUtil

  type SportAliases = OD.ODict<string, seq<string>>
  type Aliases = OD.ODict<string, SportAliases>

  datatype Matcher = Matcher(
    table: Aliases,
    allNames: set<string>,
    extractOne: (string, set<string>) -> Option<string>,
    ratio: (string, string) -> real)

  // ---------------------------------------------------------------- the table

  ghost predicate TableValid(t: Aliases) {
    OD.Valid(t) && forall s :: s in t.vals ==> OD.Valid(t.vals[s])
  }

  /** Every main name and alias of one sport is lower-case. */
  ghost predicate SportLower(sd: SportAliases) {
    forall m :: m in sd.vals ==> IsLower(m) && forall a :: a in sd.vals[m] ==> IsLower(a)
  }

  /** What the load-time lowercasing establishes, for every sport. */
  ghost predicate TableLower(t: Aliases) {
    forall s :: s in t.vals ==> SportLower(t.vals[s])
  }

  /** The lowered main names and aliases of one sport (`ALL_NAMES` restricted to it). */
  function SportNames(sd: SportAliases): set<string> {
    (set m | m in sd.vals :: Lower(m)) + (set m, a | m in sd.vals && a in sd.vals[m] :: Lower(a))
  }

  /** `ALL_NAMES`: every lowered main name and alias of every sport. */
  function AllNames(t: Aliases): set<string> {
    set s, n | s in t.vals && n in SportNames(t.vals[s]) :: n
  }

  /** `ALL_NAMES_SPORT`: lowered main names plus the aliases as stored. */
  function SportChoices(sd: SportAliases): set<string> {
    (set m | m in sd.vals :: Lower(m)) + (set m, a | m in sd.vals && a in sd.vals[m] :: a)
  }

  ghost predicate Valid(mt: Matcher) {
    TableValid(mt.table) && TableLower(mt.table)
    && mt.allNames == AllNames(mt.table)
    && (forall q, c :: mt.extractOne(q, c).Some? ==> mt.extractOne(q, c).value in c)
    && (forall a, b :: 0.0 <= mt.ratio(a, b) <= 100.0)
  }

  // ---------------------------------------------------------------- normalize_team_name

  /** `team_name == main_name.lower() or team_name in team_aliases` */
  predicate Hit(sd: SportAliases, main: string, name: string)
    requires main in sd.vals
  {
    name == Lower(main) || name in sd.vals[main]
  }

  /** The first main name, in dictionary order, that `name` hits directly. */
  function FindDirect(sd: SportAliases, mains: seq<string>, name: string): (r: Option<string>)
    requires forall i :: 0 <= i < |mains| ==> mains[i] in sd.vals
    ensures r.Some? ==> r.value in mains && r.value in sd.vals && Hit(sd, r.value, name)
    ensures r.None? <==> forall i :: 0 <= i < |mains| ==> !Hit(sd, mains[i], name)
  {
    if mains == [] then None
    else if Hit(sd, mains[0], name) then Some(mains[0])
    else FindDirect(sd, mains[1..], name)
  }

  /** The main name found is the first hit in dictionary order: every earlier main name misses. */
  lemma {:induction false} FindDirectFirst(sd: SportAliases, mains: seq<string>, name: string)
    requires forall i :: 0 <= i < |mains| ==> mains[i] in sd.vals
    ensures FindDirect(sd, mains, name).Some? ==>
      exists i :: 0 <= i < |mains| && mains[i] == FindDirect(sd, mains, name).value
                  && forall j :: 0 <= j < i ==> !Hit(sd, mains[j], name)
  {
    if mains != [] && !Hit(sd, mains[0], name) {
      var rest := mains[1..];
      FindDirectFirst(sd, rest, name);
      var r := FindDirect(sd, rest, name);
      if r.Some? {
        var i :| 0 <= i < |rest| && rest[i] == r.value && forall j :: 0 <= j < i ==> !Hit(sd, rest[j], name);
        assert mains[i + 1] == r.value;
        forall j | 0 <= j < i + 1 ensures !Hit(sd, mains[j], name) {
          if j > 0 {
            assert mains[j] == rest[j - 1];
          }
        }
      }
    }
  }

  /** The first direct hit over the sports in dictionary order, each in its own order. */
  function FindDirectAll(t: Aliases, sports: seq<string>, name: string): (r: Option<string>)
    requires TableValid(t)
    requires forall i :: 0 <= i < |sports| ==> sports[i] in t.vals
    ensures r.Some? ==> exists i :: 0 <= i < |sports| && r.value in t.vals[sports[i]].vals
                                  && Hit(t.vals[sports[i]], r.value, name)
    ensures r.None? <==> forall i :: 0 <= i < |sports| ==>
                           FindDirect(t.vals[sports[i]], t.vals[sports[i]].keys, name).None?
  {
    if sports == [] then None
    else
      var sd := t.vals[sports[0]];
      match FindDirect(sd, sd.keys, name)
      case Some(m) => Some(m)
      case None =>
        var r := FindDirectAll(t, sports[1..], name);
        assert forall i :: 1 <= i < |sports| ==> sports[i] == sports[1..][i - 1];
        r
  }

  /** The lookup of `name` in one sport, as the loop over that sport's main names finds it. */
  function SportLookup(t: Aliases, sport: string, name: string): Option<string>
    requires TableValid(t) && sport in t.vals
  {
    FindDirect(t.vals[sport], t.vals[sport].keys, name)
  }

  /**
   * The search over all sports returns the first hit of the first sport, in table order,
   * that has one: every earlier sport misses.
   */
  lemma {:induction false} FindDirectAllFirst(t: Aliases, sports: seq<string>, name: string)
    requires TableValid(t)
    requires forall i :: 0 <= i < |sports| ==> sports[i] in t.vals
    ensures FindDirectAll(t, sports, name).Some? ==>
      exists i :: 0 <= i < |sports| && SportLookup(t, sports[i], name) == FindDirectAll(t, sports, name)
                  && forall j :: 0 <= j < i ==> SportLookup(t, sports[j], name).None?
  {
    if sports != [] && SportLookup(t, sports[0], name).None? {
      var rest := sports[1..];
      FindDirectAllFirst(t, rest, name);
      assert FindDirectAll(t, sports, name) == FindDirectAll(t, rest, name);
      if FindDirectAll(t, rest, name).Some? {
        var i :| 0 <= i < |rest| && SportLookup(t, rest[i], name) == FindDirectAll(t, rest, name)
                 && forall j :: 0 <= j < i ==> SportLookup(t, rest[j], name).None?;
        assert sports[i + 1] == rest[i];
        forall j | 0 <= j < i + 1
          ensures SportLookup(t, sports[j], name).None?
        {
          if j > 0 {
            assert sports[j] == rest[j - 1];
          }
        }
      }
    } else if sports != [] {
      assert SportLookup(t, sports[0], name) == FindDirectAll(t, sports, name);
    }
  }

  /** `sport and sport in ALIASES` */
  predicate KnownSport(t: Aliases, sport: Option<string>) {
    sport.Some? && sport.value != [] && sport.value in t.vals
  }

  /** The name is found without fuzzy matching in the scope the sport selects. */
  predicate DirectHit(mt: Matcher, name: string, sport: Option<string>)
    requires TableValid(mt.table)
  {
    if KnownSport(mt.table, sport) then
      var sd := mt.table.vals[sport.value];
      FindDirect(sd, sd.keys, name).Some?
    else FindDirectAll(mt.table, mt.table.keys, name).Some?
  }

  /** Every fuzzy candidate of a sport is itself a direct hit in that sport. */
  lemma SportChoiceIsHit(sd: SportAliases, x: string)
    requires OD.Valid(sd)
    requires x in SportChoices(sd)
    ensures FindDirect(sd, sd.keys, x).Some?
  {
    var m :| m in sd.vals && (x == Lower(m) || x in sd.vals[m]);
    var i :| 0 <= i < |sd.keys| && sd.keys[i] == m;
    assert Hit(sd, sd.keys[i], x);
  }

  /** Every member of `ALL_NAMES` is a direct hit somewhere, once aliases are lower-case. */
  lemma AllNamesAreHits(t: Aliases, x: string)
    requires TableValid(t) && TableLower(t)
    requires x in AllNames(t)
    ensures FindDirectAll(t, t.keys, x).Some?
  {
    var s :| s in t.vals && x in SportNames(t.vals[s]);
    SportNameIsHit(t.vals[s], x);
    var i :| 0 <= i < |t.keys| && t.keys[i] == s;
    assert FindDirect(t.vals[t.keys[i]], t.vals[t.keys[i]].keys, x).Some?;
  }

  /** Every lowered name of a lower-case sport is a direct hit in it. */
  lemma SportNameIsHit(sd: SportAliases, x: string)
    requires OD.Valid(sd) && SportLower(sd)
    requires x in SportNames(sd)
    ensures FindDirect(sd, sd.keys, x).Some?
  {
    var m :| m in sd.vals && (x == Lower(m) || exists a :: a in sd.vals[m] && x == Lower(a));
    if x != Lower(m) {
      var a :| a in sd.vals[m] && x == Lower(a);
      LowerOfLower(a);
    }
    var j :| 0 <= j < |sd.keys| && sd.keys[j] == m;
    assert Hit(sd, sd.keys[j], x);
  }

  /**
   * `normalize_team_name(team_name, sport)`: a direct hit gives its main name and True;
   * otherwise the oracle's pick (from the sport's names when the sport is known, else
   * from `ALL_NAMES`) is normalised again; with no pick the name comes back with False.
   */
  function Normalize(mt: Matcher, name: string, sport: Option<string>): (r: (string, bool))
    requires Valid(mt)
    ensures !r.1 ==> r.0 == name
    ensures r.1 && KnownSport(mt.table, sport) ==> r.0 in mt.table.vals[sport.value].vals
    ensures r.1 && !KnownSport(mt.table, sport) ==>
      exists s :: s in mt.table.vals && r.0 in mt.table.vals[s].vals
    decreases if DirectHit(mt, name, sport) then 0 else 1
  {
    if KnownSport(mt.table, sport) then
      var sd := mt.table.vals[sport.value];
      match FindDirect(sd, sd.keys, name)
      case Some(main) => (main, true)
      case None =>
        match mt.extractOne(name, SportChoices(sd))
        case Some(best) =>
          SportChoiceIsHit(sd, best);
          Normalize(mt, best, sport)
        case None => (name, false)
    else
      match FindDirectAll(mt.table, mt.table.keys, name)
      case Some(main) => (main, true)
      case None =>
        match mt.extractOne(name, mt.allNames)
        case Some(best) =>
          AllNamesAreHits(mt.table, best);
          Normalize(mt, best, None)
        case None => (name, false)
  }

  /** The sport scope the recursive call keeps. */
  function Scope(t: Aliases, sport: Option<string>): Option<string> {
    if KnownSport(t, sport) then sport else None
  }

  /** A direct hit returns the first matching main name with True. */
  lemma NormalizeDirect(mt: Matcher, name: string, sport: Option<string>)
    requires Valid(mt) && DirectHit(mt, name, sport)
    ensures Normalize(mt, name, sport).1
    ensures KnownSport(mt.table, sport) ==>
      var sd := mt.table.vals[sport.value];
      Normalize(mt, name, sport).0 == FindDirect(sd, sd.keys, name).value
    ensures !KnownSport(mt.table, sport) ==>
      Normalize(mt, name, sport).0 == FindDirectAll(mt.table, mt.table.keys, name).value
  {
  }

  /**
   * A fuzzy hit recurses once on a table entry, which is a direct hit: the recursion
   * is at most two calls deep and ends with True.
   */
  lemma NormalizeFuzzyDepthTwo(mt: Matcher, name: string, sport: Option<string>)
    requires Valid(mt) && !DirectHit(mt, name, sport)
    requires KnownSport(mt.table, sport) ==>
      mt.extractOne(name, SportChoices(mt.table.vals[sport.value])).Some?
    requires !KnownSport(mt.table, sport) ==> mt.extractOne(name, mt.allNames).Some?
    ensures var best := if KnownSport(mt.table, sport)
                        then mt.extractOne(name, SportChoices(mt.table.vals[sport.value])).value
                        else mt.extractOne(name, mt.allNames).value;
            DirectHit(mt, best, Scope(mt.table, sport))
            && Normalize(mt, name, sport) == Normalize(mt, best, Scope(mt.table, sport))
            && Normalize(mt, name, sport).1
  {
    if KnownSport(mt.table, sport) {
      var sd := mt.table.vals[sport.value];
      SportChoiceIsHit(sd, mt.extractOne(name, SportChoices(sd)).value);
    } else {
      AllNamesAreHits(mt.table, mt.extractOne(name, mt.allNames).value);
    }
  }

  /** A total miss returns the input unchanged with False. */
  lemma NormalizeMiss(mt: Matcher, name: string, sport: Option<string>)
    requires Valid(mt) && !DirectHit(mt, name, sport)
    requires KnownSport(mt.table, sport) ==>
      mt.extractOne(name, SportChoices(mt.table.vals[sport.value])).None?
    requires !KnownSport(mt.table, sport) ==> mt.extractOne(name, mt.allNames).None?
    ensures Normalize(mt, name, sport) == (name, false)
  {
  }

  // ---------------------------------------------------------------- are_similar

  /** The transform list of `are_similar`, in order: `\bst\b` to "state", then to "saint". */
  const Transforms: seq<(string, string)> := [("st", "state"), ("st", "saint")]

  lemma TransformsUnfold()
    ensures |Transforms| == 2
    ensures Transforms[0] == ("st", "state") && Transforms[1] == ("st", "saint")
    ensures IsWord("st")
  {
  }

  /** The two passes written out. */
  lemma SideNormUnfold(mt: Matcher, s: string)
    requires Valid(mt)
    ensures IsWord("st")
    ensures SideNorm(mt, s) ==
      Step(mt, Step(mt, Normalize(mt, s, None), s, ("st", "state")), s, ("st", "saint"))
  {
    TransformsUnfold();
    assert SideAfter(mt, s, 1) == Step(mt, Normalize(mt, s, None), s, ("st", "state"));
  }

  /** One transform, tried only while the side is not yet fixed and the word occurs. */
  function Step(mt: Matcher, cur: (string, bool), s: string, tr: (string, string)): (string, bool)
    requires Valid(mt) && IsWord(tr.0)
  {
    if !cur.1 && HasWord(s, tr.0) then Normalize(mt, Strip(ReplaceWord(s, tr.0, tr.1)), None)
    else cur
  }

  /** `(norm, fixed)` of one side after the first `k` transforms. */
  function SideAfter(mt: Matcher, s: string, k: nat): (string, bool)
    requires Valid(mt) && k <= |Transforms|
  {
    if k == 0 then Normalize(mt, s, None)
    else Step(mt, SideAfter(mt, s, k - 1), s, Transforms[k - 1])
  }

  /** The normal form of one side after every transform. */
  function SideNorm(mt: Matcher, s: string): (string, bool)
    requires Valid(mt)
  {
    SideAfter(mt, s, |Transforms|)
  }

  /** `are_similar(str1, str2, threshold)` */
  predicate Similar(mt: Matcher, str1: string, str2: string, threshold: real)
    requires Valid(mt)
  {
    var a := Strip(Lower(str1));
    var b := Strip(Lower(str2));
    SideNorm(mt, a).0 == SideNorm(mt, b).0 || mt.ratio(a, b) / 100.0 >= threshold
  }

  /** `are_similar`, with its loop over the transforms. */
  method AreSimilar(mt: Matcher, str1: string, str2: string, threshold: real) returns (similar: bool)
    requires Valid(mt)
    ensures similar == Similar(mt, str1, str2, threshold)
  {
    var s1 := Strip(Lower(str1));
    var s2 := Strip(Lower(str2));
    var r1 := Normalize(mt, s1, None);
    var r2 := Normalize(mt, s2, None);
    TransformsUnfold();
    for k := 0 to |Transforms|
      invariant r1 == SideAfter(mt, s1, k)
      invariant r2 == SideAfter(mt, s2, k)
    {
      var (word, repl) := Transforms[k];
      assert word == "st";
      if !r1.1 && HasWord(s1, word) {
        var t1 := Strip(ReplaceWord(s1, word, repl));
        r1 := Normalize(mt, t1, None);
      }
      if !r2.1 && HasWord(s2, word) {
        var t2 := Strip(ReplaceWord(s2, word, repl));
        r2 := Normalize(mt, t2, None);
      }
    }
    if r1.0 == r2.0 {
      return true;
    }
    similar := mt.ratio(s1, s2) / 100.0 >= threshold;
  }

  /** Equal normal forms decide the match regardless of the score. */
  lemma SimilarWhenNormsEqual(mt: Matcher, str1: string, str2: string, threshold: real)
    requires Valid(mt)
    requires SideNorm(mt, Strip(Lower(str1))).0 == SideNorm(mt, Strip(Lower(str2))).0
    ensures Similar(mt, str1, str2, threshold)
  {
  }

  /** Otherwise the score of the lowered, trimmed originals decides; no transformed text is scored. */
  lemma SimilarOtherwiseByRatio(mt: Matcher, str1: string, str2: string, threshold: real)
    requires Valid(mt)
    requires SideNorm(mt, Strip(Lower(str1))).0 != SideNorm(mt, Strip(Lower(str2))).0
    ensures Similar(mt, str1, str2, threshold) <==>
      mt.ratio(Strip(Lower(str1)), Strip(Lower(str2))) >= 100.0 * threshold
  {
  }

  /** Any name is similar to itself. */
  lemma SimilarReflexive(mt: Matcher, s: string, threshold: real)
    requires Valid(mt)
    ensures Similar(mt, s, s, threshold)
  {
  }

  /** A side that is an alias hit from the start is never transformed. */
  lemma FixedSideUntransformed(mt: Matcher, s: string)
    requires Valid(mt) && Normalize(mt, s, None).1
    ensures SideNorm(mt, s) == Normalize(mt, s, None)
  {
    SideNormUnfold(mt, s);
  }

  /** When the "state" reading is not fixed either, the "saint" reading replaces it. */
  lemma SaintOverridesUnfixedState(mt: Matcher, s: string)
    requires Valid(mt) && !Normalize(mt, s, None).1 && HasWord(s, "st")
    requires !Normalize(mt, Strip(ReplaceWord(s, "st", "state")), None).1
    ensures SideNorm(mt, s) == Normalize(mt, Strip(ReplaceWord(s, "st", "saint")), None)
  {
    SideNormUnfold(mt, s);
  }

  /** A fixed "state" reading is kept and the "saint" transform is skipped. */
  lemma FixedStateKept(mt: Matcher, s: string)
    requires Valid(mt) && !Normalize(mt, s, None).1 && HasWord(s, "st")
    requires Normalize(mt, Strip(ReplaceWord(s, "st", "state")), None).1
    ensures SideNorm(mt, s) == Normalize(mt, Strip(ReplaceWord(s, "st", "state")), None)
  {
    SideNormUnfold(mt, s);
  }

  /** Without the whole word "st" both transforms are skipped. */
  lemma NoStUntransformed(mt: Matcher, s: string)
    requires Valid(mt) && !HasWord(s, "st")
    ensures SideNorm(mt, s) == Normalize(mt, s, None)
  {
    SideNormUnfold(mt, s);
  }

  // ---------------------------------------------------------------- loading the table

  function LowerAll(aliases: seq<string>): (r: seq<string>)
    ensures |r| == |aliases|
    ensures forall i :: 0 <= i < |aliases| ==> r[i] == Lower(aliases[i])
  {
    seq(|aliases|, i requires 0 <= i < |aliases| => Lower(aliases[i]))
  }

  /** The last main name, in dictionary order, that lowers to `k`. */
  function LastWith(mains: seq<string>, k: string): (r: Option<string>)
    ensures r.Some? ==> r.value in mains && Lower(r.value) == k
    ensures r.None? <==> forall i :: 0 <= i < |mains| ==> Lower(mains[i]) != k
  {
    if mains == [] then None
    else if Lower(mains[|mains| - 1]) == k then Some(mains[|mains| - 1])
    else LastWith(mains[..|mains| - 1], k)
  }

  /**
   * `lowered` is what lowercasing makes of `sd`: its keys are the lowered main names,
   * and under each the lowered aliases of the last main name that lowers to it.
   */
  ghost predicate LoweredFrom(lowered: SportAliases, sd: SportAliases) {
    OD.Valid(lowered) && SportLower(lowered)
    && lowered.vals.Keys == (set m | m in sd.vals :: Lower(m))
    && forall k :: k in lowered.vals ==>
         LastWith(sd.keys, k).Some? && LastWith(sd.keys, k).value in sd.vals
         && lowered.vals[k] == LowerAll(sd.vals[LastWith(sd.keys, k).value])
  }

  /** One step of the pass: `d[main.lower()] = lowered aliases`, then `del d[main]` if it changed. */
  function LowerStep(r: SportAliases, main: string, aliases: seq<string>): (r': SportAliases)
    requires OD.Valid(r)
    ensures OD.Valid(r')
  {
    var p := OD.Put(r, Lower(main), LowerAll(aliases));
    if Lower(main) != main then OD.Remove(p, main) else p
  }

  /**
   * The pass over the snapshot `mains`, starting from `r`: one `LowerStep` per main name,
   * in order. It fixes the key order Python leaves, not just the key set.
   */
  function LowerPass(sd: SportAliases, r: SportAliases, mains: seq<string>): (r': SportAliases)
    requires OD.Valid(r) && forall i :: 0 <= i < |mains| ==> mains[i] in sd.vals
    ensures OD.Valid(r')
    decreases |mains|
  {
    if mains == [] then r
    else LowerPass(sd, LowerStep(r, mains[0], sd.vals[mains[0]]), mains[1..])
  }

  /**
   * The pass keeps an already lower-case key in place and moves a renamed key to the end:
   * for main names "A" then "b", the lowered table lists "b" before "a".
   */
  lemma LowerPassOrderExample()
    ensures var sd := OD.ODict(["A", "b"], map["A" := ["X"], "b" := []]);
      var r := LowerPass(sd, sd, sd.keys);
      r.keys == ["b", "a"] && r.vals == map["b" := [], "a" := ["x"]]
  {
    var sd := OD.ODict(["A", "b"], map["A" := ["X"], "b" := []]);
    ExampleStrings();
    assert OD.Valid(sd);
    var r1 := OD.ODict(["b", "a"], map["b" := [], "a" := ["x"]]);
    ExampleFirstStep(sd);
    ExampleSecondStep(r1);
    assert sd.keys[1..] == ["b"] && ["b"][1..] == [];
    assert LowerPass(sd, r1, ["b"][1..]) == r1;
  }

  lemma ExampleStrings()
    ensures Lower("A") == "a" && Lower("b") == "b" && LowerAll(["X"]) == ["x"] && LowerAll([]) == []
  {
    assert Lower("A")[0] == 'a' && Lower("b")[0] == 'b' && Lower("X")[0] == 'x';
    assert Lower("X") == "x";
  }

  lemma ExampleFirstStep(sd: SportAliases)
    requires sd == OD.ODict(["A", "b"], map["A" := ["X"], "b" := []]) && OD.Valid(sd)
    ensures LowerStep(sd, "A", ["X"]) == OD.ODict(["b", "a"], map["b" := [], "a" := ["x"]])
  {
    ExampleStrings();
    var p := OD.ODict(["A", "b", "a"], map["A" := ["X"], "b" := [], "a" := ["x"]]);
    ExamplePut(sd);
    ExampleRemove(p);
  }

  lemma ExamplePut(sd: SportAliases)
    requires sd == OD.ODict(["A", "b"], map["A" := ["X"], "b" := []]) && OD.Valid(sd)
    ensures OD.Put(sd, "a", ["x"]) == OD.ODict(["A", "b", "a"], map["A" := ["X"], "b" := [], "a" := ["x"]])
  {
    assert "a" !in sd.vals;
  }

  lemma ExampleRemove(p: SportAliases)
    requires p == OD.ODict(["A", "b", "a"], map["A" := ["X"], "b" := [], "a" := ["x"]]) && OD.Valid(p)
    ensures OD.Remove(p, "A") == OD.ODict(["b", "a"], map["b" := [], "a" := ["x"]])
  {
    RemoveHead(p);
    assert p.keys[1..] == ["b", "a"];
    ExampleMapMinus();
  }

  lemma ExampleMapMinus()
    ensures map["A" := ["X"], "b" := [], "a" := ["x"]] - {"A"} == map["b" := [], "a" := ["x"]]
  {
    var m: map<string, seq<string>> := map["A" := ["X"], "b" := [], "a" := ["x"]];
    assert "A" != "b" && "A" != "a";
    assert (m - {"A"}).Keys == {"b", "a"};
  }

  lemma RemoveHead(d: SportAliases)
    requires OD.Valid(d) && |d.keys| > 0
    ensures OD.Remove(d, d.keys[0]) == OD.ODict(d.keys[1..], d.vals - {d.keys[0]})
  {
    assert SeqUtil.IndexOf(d.keys, d.keys[0]) == 0;
    assert d.keys[..0] + d.keys[1..] == d.keys[1..];
  }

  lemma ExampleSecondStep(r1: SportAliases)
    requires r1 == OD.ODict(["b", "a"], map["b" := [], "a" := ["x"]]) && OD.Valid(r1)
    ensures LowerStep(r1, "b", []) == r1
  {
    ExampleStrings();
    assert r1.vals["b" := []] == r1.vals;
  }

  /** The state of the pass after the first `i` main names of the snapshot. */
  ghost predicate LowerInv(sd: SportAliases, r: SportAliases, i: nat)
    requires i <= |sd.keys|
  {
    OD.Valid(r)
    && r.vals.Keys == (set j | 0 <= j < i :: Lower(sd.keys[j]))
                      + (set j | i <= j < |sd.keys| :: sd.keys[j])
    && LowerEntries(sd, r, i)
  }

  /** Each key holds the lowered aliases of the last main name so far that lowers to it, or its own. */
  ghost predicate LowerEntries(sd: SportAliases, r: SportAliases, i: nat)
    requires i <= |sd.keys|
  {
    forall k :: k in r.vals ==> EntryOk(sd, r, i, k)
  }

  ghost predicate EntryOk(sd: SportAliases, r: SportAliases, i: nat, k: string)
    requires i <= |sd.keys| && k in r.vals
  {
    match LastWith(sd.keys[..i], k)
    case Some(m) => m in sd.vals && r.vals[k] == LowerAll(sd.vals[m])
    case None => k in sd.vals && r.vals[k] == sd.vals[k]
  }

  /**
   * The lowercasing pass over one sport: for each main name of a snapshot of the
   * dictionary, store the lowered aliases under the lowered name, then delete the
   * original key if it was not lower-case.
   */
  method LowercaseSport(sd: SportAliases) returns (r: SportAliases)
    requires OD.Valid(sd)
    ensures LoweredFrom(r, sd)
    ensures r == LowerPass(sd, sd, sd.keys)
  {
    var snapshot := sd.keys;
    r := sd;
    assert LowerInv(sd, r, 0);
    for i := 0 to |snapshot|
      invariant LowerInv(sd, r, i)
      invariant LowerPass(sd, r, snapshot[i..]) == LowerPass(sd, sd, snapshot)
    {
      assert snapshot[i..][0] == snapshot[i] && snapshot[i..][1..] == snapshot[i + 1..];
      var main := snapshot[i];
      var lowMain := Lower(main);
      ghost var before := r;
      r := OD.Put(r, lowMain, LowerAll(sd.vals[main]));
      if lowMain != main {
        r := OD.Remove(r, main);
      }
      assert r == LowerStep(before, main, sd.vals[main]);
      LowerStepKeeps(sd, before, i);
    }
    assert snapshot[|snapshot|..] == [];
    LowerInvEnd(sd, r);
  }

  lemma LowerStepKeeps(sd: SportAliases, r: SportAliases, i: nat)
    requires OD.Valid(sd) && i < |sd.keys| && LowerInv(sd, r, i)
    ensures LowerInv(sd, LowerStep(r, sd.keys[i], sd.vals[sd.keys[i]]), i + 1)
  {
    var main := sd.keys[i];
    var r' := LowerStep(r, main, sd.vals[main]);
    assert forall j :: i < j < |sd.keys| ==> sd.keys[j] != main;
    LoweredKeysStep(sd.keys, i, r.vals.Keys, r'.vals.Keys);
    forall k | k in r'.vals ensures EntryOk(sd, r', i + 1, k) {
      LowerStepEntry(sd, r, i, k);
    }
  }

  /** One entry of the table after a step of the lowercasing pass. */
  lemma LowerStepEntry(sd: SportAliases, r: SportAliases, i: nat, k: string)
    requires OD.Valid(sd) && i < |sd.keys| && OD.Valid(r) && LowerEntries(sd, r, i)
    requires k in LowerStep(r, sd.keys[i], sd.vals[sd.keys[i]]).vals
    ensures EntryOk(sd, LowerStep(r, sd.keys[i], sd.vals[sd.keys[i]]), i + 1, k)
  {
    var main := sd.keys[i];
    var r' := LowerStep(r, main, sd.vals[main]);
    assert sd.keys[..i + 1][..i] == sd.keys[..i];
    assert sd.keys[..i + 1][i] == main;
    if k == Lower(main) {
      assert LastWith(sd.keys[..i + 1], k) == Some(main);
    } else {
      assert LastWith(sd.keys[..i + 1], k) == LastWith(sd.keys[..i], k);
      assert k in r.vals && r'.vals[k] == r.vals[k];
      assert EntryOk(sd, r, i, k);
    }
  }

  lemma LowerInvEnd(sd: SportAliases, r: SportAliases)
    requires OD.Valid(sd) && LowerInv(sd, r, |sd.keys|)
    ensures LoweredFrom(r, sd)
  {
    var n := |sd.keys|;
    assert sd.keys[..n] == sd.keys;
    LoweredKeySet(sd);
    assert r.vals.Keys == (set m | m in sd.vals :: Lower(m));
    forall k | k in r.vals
      ensures LastWith(sd.keys, k).Some? && LastWith(sd.keys, k).value in sd.vals
      ensures r.vals[k] == LowerAll(sd.vals[LastWith(sd.keys, k).value])
    {
      var j :| 0 <= j < n && Lower(sd.keys[j]) == k;
    }
    forall k | k in r.vals ensures IsLower(k) && forall a :: a in r.vals[k] ==> IsLower(a) {
      var j :| 0 <= j < n && Lower(sd.keys[j]) == k;
      LowerIsLower(sd.keys[j]);
      LowerAllIsLower(sd.vals[LastWith(sd.keys, k).value]);
    }
  }

  lemma LoweredKeySet(sd: SportAliases)
    requires OD.Valid(sd)
    ensures (set j | 0 <= j < |sd.keys| :: Lower(sd.keys[j])) == (set m | m in sd.vals :: Lower(m))
  {
    forall m | m in sd.vals ensures Lower(m) in (set j | 0 <= j < |sd.keys| :: Lower(sd.keys[j])) {
      var j :| 0 <= j < |sd.keys| && sd.keys[j] == m;
    }
  }

  /** The key-set bookkeeping of one step of the pass. */
  lemma LoweredKeysStep(snapshot: seq<string>, i: nat, before: set<string>, after: set<string>)
    requires i < |snapshot| && SeqUtil.NoDup(snapshot)
    requires before == (set j | 0 <= j < i :: Lower(snapshot[j])) + (set j | i <= j < |snapshot| :: snapshot[j])
    requires Lower(snapshot[i]) != snapshot[i] ==> after == (before + {Lower(snapshot[i])}) - {snapshot[i]}
    requires Lower(snapshot[i]) == snapshot[i] ==> after == before + {Lower(snapshot[i])}
    ensures after == (set j | 0 <= j < i + 1 :: Lower(snapshot[j]))
                     + (set j | i + 1 <= j < |snapshot| :: snapshot[j])
  {
    var main := snapshot[i];
    LowerIsLower(main);
    forall j | 0 <= j < |snapshot| ensures Lower(snapshot[j]) != main || Lower(main) == main {
      LowerIsLower(snapshot[j]);
      if Lower(snapshot[j]) == main { LowerOfLower(main); }
    }
  }

  lemma LowerAllIsLower(aliases: seq<string>)
    ensures forall a :: a in LowerAll(aliases) ==> IsLower(a)
  {
    forall a | a in LowerAll(aliases) ensures IsLower(a) {
      var i :| 0 <= i < |aliases| && LowerAll(aliases)[i] == a;
      LowerIsLower(aliases[i]);
    }
  }

  /** Sport `s` of `r` is what the pass makes of sport `s` of `t`. */
  ghost predicate SportLowered(r: Aliases, t: Aliases, s: string)
    requires s in r.vals && s in t.vals && OD.Valid(t.vals[s])
  {
    LoweredFrom(r.vals[s], t.vals[s]) && r.vals[s] == LowerPass(t.vals[s], t.vals[s], t.vals[s].keys)
  }

  /** The lowercasing pass over every sport of the table; the sports themselves are kept. */
  method LowercaseAliases(t: Aliases) returns (r: Aliases)
    requires TableValid(t)
    ensures TableValid(r) && TableLower(r)
    ensures r.keys == t.keys && r.vals.Keys == t.vals.Keys
    ensures forall s :: s in r.vals ==> LoweredFrom(r.vals[s], t.vals[s])
    ensures forall s :: s in r.vals ==> r.vals[s] == LowerPass(t.vals[s], t.vals[s], t.vals[s].keys)
  {
    r := t;
    for i := 0 to |t.keys|
      invariant OD.Valid(r) && r.keys == t.keys && r.vals.Keys == t.vals.Keys
      invariant forall j :: 0 <= j < i ==> SportLowered(r, t, t.keys[j])
      invariant forall j :: i <= j < |t.keys| ==> r.vals[t.keys[j]] == t.vals[t.keys[j]]
    {
      var sport := t.keys[i];
      var lowered := LowercaseSport(t.vals[sport]);
      r := OD.Put(r, sport, lowered);
      assert forall j :: 0 <= j < |t.keys| && j != i ==> t.keys[j] != sport;
    }
    forall s | s in r.vals
      ensures LoweredFrom(r.vals[s], t.vals[s])
      ensures r.vals[s] == LowerPass(t.vals[s], t.vals[s], t.vals[s].keys)
    {
      var j :| 0 <= j < |t.keys| && t.keys[j] == s;
      assert SportLowered(r, t, s);
    }
  }

  /** The lowered names of the first `k` main names of a sport, with their aliases. */
  function PrefixNames(sd: SportAliases, k: nat): set<string>
    requires k <= |sd.keys| && forall j :: 0 <= j < |sd.keys| ==> sd.keys[j] in sd.vals
  {
    (set j | 0 <= j < k :: Lower(sd.keys[j]))
    + (set j, a | 0 <= j < k && a in sd.vals[sd.keys[j]] :: Lower(a))
  }

  /** The names of the first `i` sports. */
  function SportsPrefixNames(t: Aliases, i: nat): set<string>
    requires TableValid(t) && i <= |t.keys|
  {
    set j, n | 0 <= j < i && n in SportNames(t.vals[t.keys[j]]) :: n
  }

  /** Building `ALL_NAMES`: every lowered main name and every lowered alias of every sport. */
  method CollectAllNames(t: Aliases) returns (names: set<string>)
    requires TableValid(t)
    ensures names == AllNames(t)
  {
    names := {};
    for i := 0 to |t.keys|
      invariant names == SportsPrefixNames(t, i)
    {
      var sportNames := CollectSportNames(t.vals[t.keys[i]]);
      names := names + sportNames;
      SportsPrefixStep(t, i);
    }
    SportsPrefixAll(t);
  }

  /** The inner loop of `CollectAllNames`, over the main names of one sport. */
  method CollectSportNames(sd: SportAliases) returns (names: set<string>)
    requires OD.Valid(sd)
    ensures names == SportNames(sd)
  {
    names := {};
    for k := 0 to |sd.keys|
      invariant names == PrefixNames(sd, k)
    {
      var main := sd.keys[k];
      names := names + {Lower(main)} + (set a | a in sd.vals[main] :: Lower(a));
      PrefixNamesStep(sd, k);
    }
    PrefixNamesAll(sd);
  }

  lemma PrefixNamesStep(sd: SportAliases, k: nat)
    requires k < |sd.keys| && forall j :: 0 <= j < |sd.keys| ==> sd.keys[j] in sd.vals
    ensures PrefixNames(sd, k + 1) ==
      PrefixNames(sd, k) + {Lower(sd.keys[k])} + (set a | a in sd.vals[sd.keys[k]] :: Lower(a))
  {
  }

  lemma PrefixNamesAll(sd: SportAliases)
    requires OD.Valid(sd)
    ensures PrefixNames(sd, |sd.keys|) == SportNames(sd)
  {
    forall x | x in SportNames(sd) ensures x in PrefixNames(sd, |sd.keys|) {
      var m :| m in sd.vals && (x == Lower(m) || exists a :: a in sd.vals[m] && x == Lower(a));
      var j :| 0 <= j < |sd.keys| && sd.keys[j] == m;
      if x != Lower(m) {
        var a :| a in sd.vals[m] && x == Lower(a);
        assert a in sd.vals[sd.keys[j]];
      }
    }
  }

  lemma SportsPrefixStep(t: Aliases, i: nat)
    requires TableValid(t) && i < |t.keys|
    ensures SportsPrefixNames(t, i + 1) == SportsPrefixNames(t, i) + SportNames(t.vals[t.keys[i]])
  {
  }

  lemma SportsPrefixAll(t: Aliases)
    requires TableValid(t)
    ensures SportsPrefixNames(t, |t.keys|) == AllNames(t)
  {
    forall x | x in AllNames(t) ensures x in SportsPrefixNames(t, |t.keys|) {
      var s :| s in t.vals && x in SportNames(t.vals[s]);
      var j :| 0 <= j < |t.keys| && t.keys[j] == s;
    }
  }

  /** Once the table is lower-case, `ALL_NAMES` is exactly the main names and the aliases. */
  lemma AllNamesOfLowerTable(t: Aliases)
    requires TableValid(t) && TableLower(t)
    ensures AllNames(t) ==
      (set s, m | s in t.vals && m in t.vals[s].vals :: m)
      + (set s, m, a | s in t.vals && m in t.vals[s].vals && a in t.vals[s].vals[m] :: a)
  {
    forall x | x in AllNames(t)
      ensures x in (set s, m | s in t.vals && m in t.vals[s].vals :: m)
                   + (set s, m, a | s in t.vals && m in t.vals[s].vals && a in t.vals[s].vals[m] :: a)
    {
      var s :| s in t.vals && x in SportNames(t.vals[s]);
      var sd := t.vals[s];
      assert SportLower(sd);
      var m :| m in sd.vals && (x == Lower(m) || exists a :: a in sd.vals[m] && x == Lower(a));
      if x == Lower(m) {
        LowerOfLower(m);
      } else {
        var a :| a in sd.vals[m] && x == Lower(a);
        LowerOfLower(a);
      }
    }
    forall x | x in (set s, m | s in t.vals && m in t.vals[s].vals :: m)
                    + (set s, m, a | s in t.vals && m in t.vals[s].vals && a in t.vals[s].vals[m] :: a)
      ensures x in AllNames(t)
    {
      var s, m :| s in t.vals && m in t.vals[s].vals && (x == m || x in t.vals[s].vals[m]);
      var sd := t.vals[s];
      assert SportLower(sd);
      if x == m {
        LowerOfLower(m);
        assert x in SportNames(sd);
      } else {
        LowerOfLower(x);
        assert x in SportNames(sd);
      }
    }
  }

  /**
   * Loading: lowercase the table, then collect `ALL_NAMES` from the lowered table. With
   * oracles that keep their promises, the result is the matcher normalisation expects.
   */
  method LoadMatcher(raw: Aliases, extractOne: (string, set<string>) -> Option<string>,
                     ratio: (string, string) -> real) returns (mt: Matcher)
    requires TableValid(raw)
    requires forall q, c :: extractOne(q, c).Some? ==> extractOne(q, c).value in c
    requires forall a, b :: 0.0 <= ratio(a, b) <= 100.0
    ensures Valid(mt)
    ensures mt.table.keys == raw.keys
    ensures forall s :: s in mt.table.vals ==> LoweredFrom(mt.table.vals[s], raw.vals[s])
    ensures forall s :: s in mt.table.vals ==> mt.table.vals[s] == LowerPass(raw.vals[s], raw.vals[s], raw.vals[s].keys)
  {
    var table := LowercaseAliases(raw);
    var names := CollectAllNames(table);
    mt := Matcher(table, names, extractOne, ratio);
  }
}
