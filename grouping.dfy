/**
 * `SetStructure` and `Graph`: the grouping of quote ids into sets of matched quotes.
 *
 * `data` maps an id to the member set of its group and `setValues` maps a member set
 * (a frozen set) to the group's profit. Sets are values here; the model relies on no
 * member set being mutated after it is stored, which the code never does.
 */
module Grouping {
  import opened Wrappers
  import opened BetOption
  import SeqUtil

  /** The abstract state of a `SetStructure`. */
  datatype Groups = Groups(data: map<string, set<string>>, setValues: map<set<string>, real>)

  /** Every id belongs to the set it maps to. */
  ghost predicate WellFormed(g: Groups) {
    forall e :: e in g.data ==> e in g.data[e]
  }

  /** All ids of `s` map to `s` itself. */
  ghost predicate Coherent(g: Groups, s: set<string>) {
    forall e :: e in s ==> e in g.data && g.data[e] == s
  }

  /**
   * The element `add_set` stops at, scanning the new set in its (arbitrary) iteration
   * order: `None` when no element is grouped yet, otherwise some grouped element.
   */
  ghost predicate PickOk(g: Groups, s: set<string>, pick: Option<string>) {
    match pick
    case None => forall e :: e in s ==> e !in g.data
    case Some(e) => e in s && e in g.data
  }

  /** `for element in s: d[element] = v` */
  function AssignAll(d: map<string, set<string>>, s: set<string>, v: set<string>): (r: map<string, set<string>>)
    ensures r.Keys == d.Keys + s
    ensures forall e :: e in r ==> r[e] == if e in s then v else d[e]
  {
    map e | e in d.Keys + s :: if e in s then v else d[e]
  }

  /** `add_set(new_set, value)` once the scan for a grouped element has stopped at `pick`. */
  function AddSetSpec(g: Groups, s: set<string>, value: real, pick: Option<string>): Groups
    requires PickOk(g, s, pick)
  {
    match pick
    case None => Groups(AssignAll(g.data, s, s), g.setValues[s := value])
    case Some(e) =>
      var existing := g.data[e];
      var merged := existing + s;
      var sv := g.setValues[merged := value];
      Groups(AssignAll(g.data, merged, merged),
             if existing in sv && existing != merged then sv - {existing} else sv)
  }

  /** `get_set_value(element)` for an id: the value of the set the id maps to. */
  function ValueOfId(g: Groups, id: string): Option<real> {
    if id in g.data && g.data[id] != {} then Get(g.setValues, g.data[id]) else None
  }

  /** `get_set_value(element)` for a set given directly. */
  function ValueOfSet(g: Groups, s: set<string>): Option<real> {
    Get(g.setValues, s)
  }

  lemma AddSetKeepsWellFormed(g: Groups, s: set<string>, value: real, pick: Option<string>)
    requires WellFormed(g) && PickOk(g, s, pick)
    ensures WellFormed(AddSetSpec(g, s, value, pick))
  {
  }

  /**
   * A set none of whose ids is grouped yet becomes a group of its own: every id maps
   * to it, its value is stored, and every other id keeps its group.
   */
  lemma AddSetFresh(g: Groups, s: set<string>, value: real)
    requires PickOk(g, s, None)
    ensures var r := AddSetSpec(g, s, value, None);
      Coherent(r, s) && ValueOfSet(r, s) == Some(value)
      && (forall e :: e in s ==> ValueOfId(r, e) == Some(value))
      && (forall e :: e in g.data && e !in s ==> e in r.data && r.data[e] == g.data[e])
      && (forall k :: k in g.setValues && k != s ==> k in r.setValues && r.setValues[k] == g.setValues[k])
  {
  }

  /**
   * A set touching an existing group is merged into that group: every id of the union
   * maps to the union, the union carries the new value (last write wins), and the old
   * group's value entry is gone when the union is larger than the old group.
   */
  lemma AddSetMerge(g: Groups, s: set<string>, value: real, e: string)
    requires WellFormed(g) && PickOk(g, s, Some(e))
    ensures var existing := g.data[e]; var merged := existing + s;
      var r := AddSetSpec(g, s, value, Some(e));
      Coherent(r, merged) && ValueOfSet(r, merged) == Some(value)
      && (forall x :: x in merged ==> ValueOfId(r, x) == Some(value))
      && (existing != merged ==> existing !in r.setValues)
      && (forall x :: x in g.data && x !in merged ==> x in r.data && r.data[x] == g.data[x])
  {
  }

  /** Whichever way the scan went, every id of the new set ends up valued at `value`. */
  lemma AddSetValuesMembers(g: Groups, s: set<string>, value: real, pick: Option<string>)
    requires WellFormed(g) && PickOk(g, s, pick)
    ensures var r := AddSetSpec(g, s, value, pick);
      forall e :: e in s ==> e in r.data && s <= r.data[e]
                             && ValueOfId(r, e) == Some(value) && ValueOfSet(r, r.data[e]) == Some(value)
  {
    if pick.Some? {
      AddSetMerge(g, s, value, pick.value);
    }
  }

  /**
   * Only the first group found is merged. With groups {a, b} and {c, d}, adding {a, c}
   * through `a` leaves `d` pointing at the stale set {c, d}.
   */
  lemma MergesFirstGroupOnly()
    ensures var ab := {"a", "b"}; var cd := {"c", "d"};
      var g := Groups(map["a" := ab, "b" := ab, "c" := cd, "d" := cd], map[ab := 1.0, cd := 2.0]);
      var r := AddSetSpec(g, {"a", "c"}, 3.0, Some("a"));
      r.data["d"] == cd && r.data["c"] == {"a", "b", "c"} && r.setValues[cd] == 2.0
  {
  }

  /**
   * `add_node` on an id that is already grouped goes through the merge path with the
   * group itself as the union: the group's value becomes 0.0 and every member of the
   * group is pointed at it, so a coherent group keeps its membership exactly.
   */
  lemma AddNodeOnGroupedId(g: Groups, id: string)
    requires WellFormed(g) && id in g.data
    ensures PickOk(g, {id}, Some(id))
    ensures var grp := g.data[id]; var r := AddSetSpec(g, {id}, 0.0, Some(id));
      ValueOfSet(r, grp) == Some(0.0) && ValueOfId(r, id) == Some(0.0) && Coherent(r, grp)
      && r.data.Keys == g.data.Keys + grp
      && (Coherent(g, grp) ==> r.data == g.data)
  {
    var grp := g.data[id];
    assert grp + {id} == grp;
    var r := AddSetSpec(g, {id}, 0.0, Some(id));
    if Coherent(g, grp) {
      assert r.data.Keys == g.data.Keys;
      assert forall e :: e in r.data ==> r.data[e] == g.data[e];
    }
  }

  /** `count_groups` returns the number of grouped ids, not of groups. */
  lemma CountIsIds()
    ensures var r := AddSetSpec(Groups(map[], map[]), {"a", "b"}, 1.5, None);
      |r.data.Keys| == 2 && r.data["a"] == r.data["b"]
  {
    var r := AddSetSpec(Groups(map[], map[]), {"a", "b"}, 1.5, None);
    assert r.data.Keys == {"a", "b"};
  }

  /** What `delete_set` and `delete_key` end with. */
  datatype DeleteOutcome =
    | NotFound
    | Removed
      /** The value entry is keyed by a mutable `set`, which Python cannot hash. */
    | RaisedTypeError

  /** `delete_set(element)`: drop every member of the element's set from `data`. */
  function DeleteSetSpec(g: Groups, element: string): (Groups, DeleteOutcome) {
    if element in g.data && g.data[element] != {} then
      var found := g.data[element];
      (Groups(g.data - found, g.setValues), RaisedTypeError)
    else (g, NotFound)
  }

  /** `delete_key(element)`: drop the id alone; the last member's removal reaches the value step. */
  function DeleteKeySpec(g: Groups, element: string): (Groups, DeleteOutcome) {
    if element in g.data then
      var found := g.data[element];
      var d := g.data - {element};
      if found != {} && forall e :: e in found ==> e !in d then (Groups(d, g.setValues), RaisedTypeError)
      else (Groups(d, g.setValues), Removed)
    else (g, NotFound)
  }

  /** Deleting a grouped id's set removes all its members and never reaches a normal return. */
  lemma DeleteSetRemovesMembers(g: Groups, element: string)
    requires WellFormed(g) && element in g.data
    ensures var (r, out) := DeleteSetSpec(g, element);
      out == RaisedTypeError && r.setValues == g.setValues
      && (forall e :: e in g.data[element] ==> e !in r.data)
      && (forall e :: e in g.data && e !in g.data[element] ==> e in r.data && r.data[e] == g.data[e])
  {
  }

  /** `delete_key` of a non-last member returns True; of the last member it raises. */
  lemma DeleteKeyOutcomes(g: Groups, element: string)
    requires WellFormed(g)
    ensures var (r, out) := DeleteKeySpec(g, element);
      (element !in g.data <==> out == NotFound)
      && (element in g.data ==> r.data == g.data - {element} && r.setValues == g.setValues)
      && (element in g.data && Coherent(g, g.data[element]) ==>
            (out == RaisedTypeError <==> g.data[element] == {element}))
  {
    if element in g.data && Coherent(g, g.data[element]) {
      var found := g.data[element];
      if found != {element} {
        var other :| other in found && other != element;
        assert other in g.data - {element};
      }
    }
  }

  lemma DeletesKeepWellFormed(g: Groups, element: string)
    requires WellFormed(g)
    ensures WellFormed(DeleteSetSpec(g, element).0) && WellFormed(DeleteKeySpec(g, element).0)
  {
  }

  // ---------------------------------------------------------------- the classes

  class SetStructure {
    var data: map<string, set<string>>
    var setValues: map<set<string>, real>

    function State(): Groups
      reads this
    {
      Groups(data, setValues)
    }

    ghost predicate Valid()
      reads this
    {
      WellFormed(State())
    }

    constructor ()
      ensures Valid() && data == map[] && setValues == map[]
    {
      data := map[];
      setValues := map[];
    }

    /**
     * `add_set`: stop at the first grouped element in the set's iteration order (returned
     * as `pick`), then merge into that element's group or create a new group.
     */
    method AddSet(newSet: set<string>, value: real) returns (ghost pick: Option<string>)
      requires Valid()
      modifies this
      ensures Valid()
      ensures PickOk(old(State()), newSet, pick)
      ensures State() == AddSetSpec(old(State()), newSet, value, pick)
    {
      var existing: Option<set<string>> := None;
      pick := None;
      var rest := newSet;
      while rest != {} && existing.None?
        invariant rest <= newSet
        invariant existing.None? <==> pick.None?
        invariant existing.None? ==> forall e :: e in newSet - rest ==> e !in data
        invariant existing.Some? ==> pick.value in newSet && pick.value in data && existing.value == data[pick.value]
        decreases rest
      {
        var element :| element in rest;
        if element in data {
          existing := Some(data[element]);
          pick := Some(element);
        }
        rest := rest - {element};
      }
      if existing.Some? && existing.value != {} {
        var merged := existing.value + newSet;
        data := AssignEach(data, merged, merged);
        setValues := setValues[merged := value];
        if existing.value in setValues && existing.value != merged {
          setValues := setValues - {existing.value};
        }
      } else {
        data := AssignEach(data, newSet, newSet);
        setValues := setValues[newSet := value];
      }
    }

    /** `find_set(element)` */
    function FindSet(element: string): (r: Option<set<string>>)
      reads this
      ensures r.Some? <==> element in data
      ensures r.Some? ==> r.value == data[element]
    {
      Get(data, element)
    }

    /**
     * `get_set_value(element)` for an id: look up the id's set; the fallback scan over
     * the value entries compares with the same set and so finds nothing new.
     */
    method GetSetValueOfId(element: string) returns (v: Option<real>)
      ensures v == ValueOfId(State(), element)
    {
      var found := FindSet(element);
      v := None;
      if found.Some? && found.value != {} {
        v := Get(setValues, found.value);
        if v.None? {
          v := ScanValues(found.value);
        }
      }
    }

    /** `get_set_value(element)` for a set: direct lookup, then the same redundant scan. */
    method GetSetValueOfSet(element: set<string>) returns (v: Option<real>)
      ensures v == ValueOfSet(State(), element)
    {
      v := Get(setValues, element);
      if v.None? {
        v := ScanValues(element);
      }
    }

    /** `for k, v in set_values.items(): if set(k) == set(s): return v` */
    method ScanValues(s: set<string>) returns (v: Option<real>)
      ensures v == Get(setValues, s)
    {
      var keys := setValues.Keys;
      v := None;
      while keys != {}
        invariant keys <= setValues.Keys
        invariant v.None? ==> s !in setValues.Keys - keys
        invariant v.Some? ==> s in setValues && v.value == setValues[s]
        decreases keys
      {
        var k :| k in keys;
        if k == s {
          return Some(setValues[k]);
        }
        keys := keys - {k};
      }
    }

    /** `delete_set(element)` */
    method DeleteSet(element: string) returns (out: DeleteOutcome)
      requires Valid()
      modifies this
      ensures Valid()
      ensures (State(), out) == DeleteSetSpec(old(State()), element)
    {
      var found := FindSet(element);
      if found.Some? && found.value != {} {
        var members := found.value;
        var todo := members;
        while todo != {}
          invariant todo <= members
          invariant data == old(data) - (members - todo)
          invariant setValues == old(setValues)
          decreases todo
        {
          var elem :| elem in todo;
          if elem in data {
            data := data - {elem};
          }
          todo := todo - {elem};
        }
        assert members - todo == members;
        assert State() == Groups(old(data) - members, old(setValues));
        return RaisedTypeError;
      }
      return NotFound;
    }

    /** `delete_key(element)` */
    method DeleteKey(element: string) returns (out: DeleteOutcome)
      requires Valid()
      modifies this
      ensures Valid()
      ensures (State(), out) == DeleteKeySpec(old(State()), element)
    {
      if element in data {
        var found := data[element];
        data := data - {element};
        if found != {} && forall e :: e in found ==> e !in data {
          return RaisedTypeError;
        }
        return Removed;
      }
      return NotFound;
    }
  }

  /** `for element in s: d[element] = v`, written as the loop. */
  method AssignEach(d: map<string, set<string>>, s: set<string>, v: set<string>) returns (r: map<string, set<string>>)
    ensures r == AssignAll(d, s, v)
  {
    r := d;
    var todo := s;
    while todo != {}
      invariant todo <= s
      invariant r.Keys == d.Keys + (s - todo)
      invariant forall e :: e in r ==> r[e] == if e in s - todo then v else d[e]
      decreases todo
    {
      var e :| e in todo;
      r := r[e := v];
      todo := todo - {e};
    }
  }

  /** One group as `Graph.items` yields it. */
  datatype GroupItem = GroupItem(ids: set<string>, bets: seq<Record>, value: real)

  /** `{frozenset(s) for s in self.groups.data.values()}` */
  function GroupSets(g: Groups): set<set<string>> {
    set e | e in g.data :: g.data[e]
  }

  /** The groups `items` yields: distinct member sets with more than one id and a positive value. */
  ghost function Reported(g: Groups): set<set<string>> {
    set s | s in GroupSets(g) && |s| != 1 && s in g.setValues && g.setValues[s] > 0.0
  }

  /**
   * `bets` are the stored records of the stored members of `ids`, each once, in the
   * order `order` of those members.
   */
  ghost predicate ListsRecords(bets: seq<Record>, order: seq<string>, ids: set<string>, values: map<string, Record>) {
    |bets| == |order| && SeqUtil.NoDup(order)
    && (forall x :: x in order <==> x in ids && x in values)
    && (forall k :: 0 <= k < |order| ==> order[k] in values && bets[k] == values[order[k]])
  }

  /** What each yielded group satisfies. */
  ghost predicate ItemOk(it: GroupItem, order: seq<string>, g: Groups, values: map<string, Record>) {
    it.ids in Reported(g) && it.value == g.setValues[it.ids] && it.value > 0.0
    && ListsRecords(it.bets, order, it.ids, values)
  }

  /**
   * What `items()` has yielded once the groups outside `todo` are done: distinct groups, each
   * with its records, and every reported group outside `todo`.
   */
  ghost predicate Collected(items: seq<GroupItem>, orders: seq<seq<string>>, g: Groups, values: map<string, Record>, todo: set<set<string>>) {
    |orders| == |items|
    && (forall i, j :: 0 <= i < j < |items| ==> items[i].ids != items[j].ids)
    && (forall i :: 0 <= i < |items| ==> ItemOk(items[i], orders[i], g, values) && items[i].ids !in todo)
    && (forall s :: s in Reported(g) && s !in todo ==> exists i :: 0 <= i < |items| && items[i].ids == s)
  }

  /** Handling one more group of `todo` keeps `Collected`. */
  lemma CollectStep(items: seq<GroupItem>, orders: seq<seq<string>>, g: Groups, values: map<string, Record>,
                    todo: set<set<string>>, ids: set<string>, item: Option<GroupItem>, order: seq<string>)
    requires Collected(items, orders, g, values, todo) && ids in todo
    requires item.Some? <==> ids in Reported(g)
    requires item.Some? ==> item.value.ids == ids && ItemOk(item.value, order, g, values)
    ensures item.Some? ==> Collected(items + [item.value], orders + [order], g, values, todo - {ids})
    ensures item.None? ==> Collected(items, orders, g, values, todo - {ids})
  {
    if item.Some? {
      CollectDistinct(items, todo, item.value);
      CollectOk(items, orders, g, values, todo, item.value, order);
      CollectCovers(items, g, todo, item.value);
    }
  }

  lemma CollectDistinct(items: seq<GroupItem>, todo: set<set<string>>, it: GroupItem)
    requires (forall i, j :: 0 <= i < j < |items| ==> items[i].ids != items[j].ids)
    requires (forall i :: 0 <= i < |items| ==> items[i].ids !in todo) && it.ids in todo
    ensures var its := items + [it]; forall i, j :: 0 <= i < j < |its| ==> its[i].ids != its[j].ids
  {
    var its := items + [it];
    forall i, j | 0 <= i < j < |its| ensures its[i].ids != its[j].ids {
      assert its[i] == items[i];
      if j < |items| {
        assert its[j] == items[j];
      }
    }
  }

  lemma CollectOk(items: seq<GroupItem>, orders: seq<seq<string>>, g: Groups, values: map<string, Record>,
                  todo: set<set<string>>, it: GroupItem, order: seq<string>)
    requires |orders| == |items|
    requires forall i :: 0 <= i < |items| ==> ItemOk(items[i], orders[i], g, values) && items[i].ids !in todo
    requires ItemOk(it, order, g, values) && it.ids in todo
    ensures var its := items + [it]; var ords := orders + [order];
      forall i :: 0 <= i < |its| ==> ItemOk(its[i], ords[i], g, values) && its[i].ids !in todo - {it.ids}
  {
    var its := items + [it];
    var ords := orders + [order];
    forall i | 0 <= i < |its| ensures ItemOk(its[i], ords[i], g, values) && its[i].ids !in todo - {it.ids} {
      if i < |items| {
        assert its[i] == items[i] && ords[i] == orders[i];
      }
    }
  }

  lemma CollectCovers(items: seq<GroupItem>, g: Groups, todo: set<set<string>>, it: GroupItem)
    requires forall s :: s in Reported(g) && s !in todo ==> exists i :: 0 <= i < |items| && items[i].ids == s
    ensures var its := items + [it];
      forall s :: s in Reported(g) && s !in todo - {it.ids} ==> exists i :: 0 <= i < |its| && its[i].ids == s
  {
    var its := items + [it];
    forall s | s in Reported(g) && s !in todo - {it.ids}
      ensures exists i :: 0 <= i < |its| && its[i].ids == s
    {
      if s == it.ids {
        assert its[|items|].ids == s;
      } else {
        var i :| 0 <= i < |items| && items[i].ids == s;
        assert its[i].ids == s;
      }
    }
  }

  class Graph {
    const groups: SetStructure
    var values: map<string, Record>

    ghost predicate Valid()
      reads this, groups
    {
      groups.Valid()
    }

    constructor ()
      ensures Valid() && fresh(groups) && values == map[]
      ensures groups.data == map[] && groups.setValues == map[]
    {
      groups := new SetStructure();
      values := map[];
    }

    /** `add_node(node)`: store the record and add its id as a singleton set valued 0.0. */
    method AddNode(node: Record) returns (ghost pick: Option<string>)
      requires Valid()
      modifies this, groups
      ensures Valid()
      ensures values == old(values)[node.id := node]
      ensures PickOk(old(groups.State()), {node.id}, pick)
      ensures groups.State() == AddSetSpec(old(groups.State()), {node.id}, 0.0, pick)
    {
      values := values[node.id := node];
      pick := groups.AddSet({node.id}, 0.0);
    }

    /** `add_group(odds_list, value)`: store every record and add the set of their ids. */
    method AddGroup(oddsList: seq<Record>, value: real) returns (ghost pick: Option<string>)
      requires Valid()
      modifies this, groups
      ensures Valid()
      ensures values == StoreAll(old(values), oddsList)
      ensures PickOk(old(groups.State()), Ids(oddsList), pick)
      ensures groups.State() == AddSetSpec(old(groups.State()), Ids(oddsList), value, pick)
    {
      var groupIds: set<string> := {};
      for i := 0 to |oddsList|
        invariant groupIds == Ids(oddsList[..i])
        invariant values == StoreAll(old(values), oddsList[..i])
        invariant unchanged(groups)
      {
        var odd := oddsList[i];
        values := values[odd.id := odd];
        groupIds := groupIds + {odd.id};
        IdsStep(oddsList, i);
        StoreAllStep(old(values), oddsList, i);
      }
      assert oddsList[..|oddsList|] == oddsList;
      pick := groups.AddSet(groupIds, value);
    }

    /** `count_groups()`: the number of grouped ids. */
    method CountGroups() returns (n: nat)
      ensures n == |groups.data.Keys|
    {
      n := |groups.data.Keys|;
    }

    /**
     * `items()`: each reported group once, in an arbitrary order, with the stored
     * records of its members (in some order of the members) and its value.
     */
    method Items() returns (items: seq<GroupItem>, ghost orders: seq<seq<string>>)
      requires Valid()
      ensures |orders| == |items|
      ensures forall i, j :: 0 <= i < j < |items| ==> items[i].ids != items[j].ids
      ensures forall i :: 0 <= i < |items| ==> ItemOk(items[i], orders[i], groups.State(), values)
      ensures forall s :: s in Reported(groups.State()) ==> exists i :: 0 <= i < |items| && items[i].ids == s
    {
      ghost var g := groups.State();
      var groupIds := GroupSets(groups.State());
      items := [];
      orders := [];
      var todo := groupIds;
      while todo != {}
        invariant todo <= groupIds
        invariant Collected(items, orders, g, values, todo)
        decreases todo
      {
        var ids :| ids in todo;
        var item, order := GroupFor(ids);
        CollectStep(items, orders, g, values, todo, ids, item, order);
        todo := todo - {ids};
        if item.Some? {
          items := items + [item.value];
          orders := orders + [order];
        }
      }
    }

    /** One iteration of `items()`: the group of `ids`, if it is yielded. */
    method GroupFor(ids: set<string>) returns (item: Option<GroupItem>, ghost order: seq<string>)
      requires ids in GroupSets(groups.State())
      ensures item.Some? <==> ids in Reported(groups.State())
      ensures item.Some? ==> item.value.ids == ids && ItemOk(item.value, order, groups.State(), values)
    {
      item := None;
      order := [];
      if |ids| != 1 {
        var bets;
        bets, order := CollectBets(ids);
        var value := groups.GetSetValueOfSet(ids);
        if value.Some? && value.value != 0.0 && value.value > 0.0 {
          item := Some(GroupItem(ids, bets, value.value));
        }
      }
    }

    /** `[self.values[i] for i in ids if i in self.values]`, in the set's iteration order. */
    method CollectBets(ids: set<string>) returns (bets: seq<Record>, ghost order: seq<string>)
      ensures ListsRecords(bets, order, ids, values)
    {
      bets := [];
      order := [];
      var todo := ids;
      while todo != {}
        invariant todo <= ids
        invariant |bets| == |order| && SeqUtil.NoDup(order)
        invariant forall x :: x in order <==> x in ids - todo && x in values
        invariant forall k :: 0 <= k < |order| ==> order[k] in values && bets[k] == values[order[k]]
        decreases todo
      {
        var i :| i in todo;
        if i in values {
          bets := bets + [values[i]];
          order := order + [i];
        }
        todo := todo - {i};
      }
    }
  }

  /** The dictionary after `for odd in odds: values[odd.id] = odd`. */
  function StoreAll(m: map<string, Record>, odds: seq<Record>): map<string, Record> {
    if odds == [] then m
    else StoreAll(m, odds[..|odds| - 1])[odds[|odds| - 1].id := odds[|odds| - 1]]
  }

  /**
   * After the loop the dictionary holds the old keys and one per record; a key no record
   * has keeps its old record, every other key holds a record with that id, and the last
   * record is stored under its own id.
   */
  lemma {:induction false} StoreAllMeaning(m: map<string, Record>, odds: seq<Record>)
    ensures var r := StoreAll(m, odds);
      r.Keys == m.Keys + Ids(odds)
      && (forall k :: k in r && k !in Ids(odds) ==> r[k] == m[k])
      && (forall k :: k in r && k in Ids(odds) ==> r[k] in odds && r[k].id == k)
      && (|odds| > 0 ==> r[odds[|odds| - 1].id] == odds[|odds| - 1])
  {
    if odds != [] {
      var init := odds[..|odds| - 1];
      var last := odds[|odds| - 1];
      StoreAllMeaning(m, init);
      IdsStep(odds, |odds| - 1);
      assert init + [last] == odds;
      var prev := StoreAll(m, init);
      var r := prev[last.id := last];
      assert StoreAll(m, odds) == r;
      forall k | k in r && k in Ids(odds) ensures r[k] in odds && r[k].id == k {
        if k != last.id {
          assert k in Ids(init);
        }
      }
    }
  }

  /** Storing records that are already stored under their ids changes nothing. */
  lemma {:induction false} StoreAllStored(m: map<string, Record>, odds: seq<Record>)
    requires forall o :: o in odds ==> o.id in m && m[o.id] == o
    ensures StoreAll(m, odds) == m
  {
    if odds != [] {
      var p := odds[..|odds| - 1];
      var last := odds[|odds| - 1];
      assert forall o :: o in p ==> o in odds;
      StoreAllStored(m, p);
      assert StoreAll(m, odds) == StoreAll(m, p)[last.id := last];
      assert m[last.id] == last;
    }
  }

  lemma StoreAllStep(m: map<string, Record>, odds: seq<Record>, i: nat)
    requires i < |odds|
    ensures StoreAll(m, odds[..i + 1]) == StoreAll(m, odds[..i])[odds[i].id := odds[i]]
  {
    assert odds[..i + 1][..i] == odds[..i];
  }

  lemma IdsStep(odds: seq<Record>, i: nat)
    requires i < |odds|
    ensures Ids(odds[..i + 1]) == Ids(odds[..i]) + {odds[i].id}
    ensures forall o :: o in odds[..i] ==> o in odds
  {
    assert odds[..i + 1] == odds[..i] + [odds[i]];
  }

  /** The set of ids of a list of records. */
  function Ids(odds: seq<Record>): set<string> {
    set o | o in odds :: o.id
  }
}
