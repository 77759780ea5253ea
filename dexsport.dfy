/**
 * The message logic of the Dexsport feed client, in its two versions: the application
 * package's (`App`) and the earlier top-level one (`Earlier`). The WebSocket is replaced by
 * the list `sent` of messages written to it, the shared send queue by the list `queue`, and
 * the event emitter by the list of events each analysed message emits.
 *
 * Event and tournament ids are strings; `f"2.{e}"` is `"2." + e`. Every message put on
 * the send queue is a three-element list `[action, channel, ids]`, a `Message` here.
 */
module Dexsport {
  import opened Wrappers
  import opened SeqUtil
  import opened Text
  import opened BetOption

  /** Which of the two client versions. */
  datatype Variant = App | Earlier

  datatype Message = Message(action: string, channel: string, ids: seq<string>)

  /** The sender's test for a message it may merge: `["join", "event", <list>]`. */
  predicate IsJoinEvent(m: Message) {
    m.action == "join" && m.channel == "event"
  }

  /** The sender merges join-event messages until it holds this many ids. */
  const BatchSize: nat := 5

  /** `list(chunks(lst, n))`: consecutive slices of `n` elements, the last one possibly shorter. */
  function Chunks<T>(lst: seq<T>, n: nat): seq<seq<T>>
    requires n >= 1
    decreases |lst|
  {
    if lst == [] then []
    else if |lst| <= n then [lst]
    else [lst[..n]] + Chunks(lst[n..], n)
  }

  /** Concatenating the chunks gives back the list. */
  lemma {:induction false} ChunksFlatten<T>(lst: seq<T>, n: nat)
    requires n >= 1
    ensures Flatten(Chunks(lst, n)) == lst
    decreases |lst|
  {
    if |lst| > n {
      var rest := Chunks(lst[n..], n);
      ChunksFlatten(lst[n..], n);
      assert ([lst[..n]] + rest)[1..] == rest;
      assert lst[..n] + lst[n..] == lst;
    } else if lst != [] {
      assert [lst][1..] == [];
    }
  }

  /**
   * There are no chunks exactly when the list is empty; every chunk but the last has `n`
   * elements and the last one between 1 and `n`.
   */
  lemma {:induction false} ChunksSizes<T>(lst: seq<T>, n: nat)
    requires n >= 1
    ensures var r := Chunks(lst, n);
      (r == [] <==> lst == [])
      && (forall k :: 0 <= k < |r| - 1 ==> |r[k]| == n)
      && (r != [] ==> 1 <= |r[|r| - 1]| <= n)
    decreases |lst|
  {
    if |lst| > n {
      var rest := Chunks(lst[n..], n);
      ChunksSizes(lst[n..], n);
      assert forall k :: 1 <= k < |rest| + 1 ==> ([lst[..n]] + rest)[k] == rest[k - 1];
    }
  }

  /** `[f"2.{e}", f"1.{e}"]` */
  function TwoIds(e: string): seq<string> {
    ["2." + e, "1." + e]
  }

  /** `add_event(e)` on the tracked list and the send queue. */
  function Track(tracked: seq<string>, queue: seq<Message>, e: string): (seq<string>, seq<Message>) {
    if e in tracked then (tracked, queue)
    else (tracked + [e], queue + [Message("join", "event", [e])])
  }

  /** `add_event_id(e)` on the tracked list and the send queue. */
  function TrackId(tracked: seq<string>, queue: seq<Message>, e: string): (seq<string>, seq<Message>) {
    if e in tracked then (tracked, queue)
    else (tracked + [e], queue + [Message("join", "event", TwoIds(e))])
  }

  /** `remove_event(e)` on the tracked list and the send queue. */
  function Untrack(tracked: seq<string>, queue: seq<Message>, e: string): (seq<string>, seq<Message>) {
    if e in tracked then (RemoveFirst(tracked, e), queue + [Message("leave", "event", TwoIds(e))])
    else (tracked, queue)
  }

  /**
   * `add_events(events)`. The message is built from the loop variable after the loop, so
   * only the last event's ids are sent, and an empty list raises `UnboundLocalError`
   * before anything changes (`None`).
   */
  function TrackMany(tracked: seq<string>, queue: seq<Message>, events: seq<string>): Option<(seq<string>, seq<Message>)> {
    if events == [] then None
    else Some((tracked + events, queue + [Message("join", "event", TwoIds(events[|events| - 1]))]))
  }

  /** `add_event(lid)` for each lid in turn. */
  function TrackEach(tracked: seq<string>, queue: seq<Message>, lids: seq<string>): (seq<string>, seq<Message>)
    decreases |lids|
  {
    if lids == [] then (tracked, queue)
    else
      var p := TrackEach(tracked, queue, lids[..|lids| - 1]);
      Track(p.0, p.1, lids[|lids| - 1])
  }

  /**
   * `add_event`, `add_event_id` and `remove_event` keep the tracked list free of
   * duplicates: afterwards the id is tracked, respectively no longer tracked, and no other id
   * changes status.
   */
  lemma TrackedStayDistinct(tracked: seq<string>, queue: seq<Message>, e: string)
    requires NoDup(tracked)
    ensures NoDup(Track(tracked, queue, e).0) && NoDup(TrackId(tracked, queue, e).0) && NoDup(Untrack(tracked, queue, e).0)
    ensures forall y :: y in Track(tracked, queue, e).0 <==> y in tracked || y == e
    ensures forall y :: y in TrackId(tracked, queue, e).0 <==> y in tracked || y == e
    ensures forall y :: y in Untrack(tracked, queue, e).0 <==> y in tracked && y != e
  {
    if e in tracked {
      var i := IndexOf(tracked, e);
      var r := Untrack(tracked, queue, e).0;
      assert r == tracked[..i] + tracked[i + 1..];
      assert forall k :: 0 <= k < |r| ==> r[k] == tracked[if k < i then k else k + 1];
      forall y ensures y in r <==> y in tracked && y != e {
        if y in tracked && y != e {
          var k :| 0 <= k < |tracked| && tracked[k] == y;
          assert k != i;
          assert r[if k < i then k else k - 1] == y;
        }
      }
    }
  }

  /** Removing an id that was just added restores the tracked list and queues a join then a leave. */
  lemma UntrackUndoesTrack(tracked: seq<string>, queue: seq<Message>, e: string)
    requires e !in tracked
    ensures var p := Track(tracked, queue, e); var r := Untrack(p.0, p.1, e);
      r.0 == tracked
      && r.1 == queue + [Message("join", "event", [e]), Message("leave", "event", TwoIds(e))]
  {
    var t := tracked + [e];
    var join := Message("join", "event", [e]);
    assert Track(tracked, queue, e) == (t, queue + [join]);
    RemoveAppended(tracked, e);
    var leave := Message("leave", "event", TwoIds(e));
    assert Untrack(t, queue + [join], e) == (tracked, queue + [join] + [leave]);
    assert queue + [join] + [leave] == queue + [join, leave];
  }

  /** Adding an id is idempotent: a second `add_event` of it changes nothing. */
  lemma TrackIdempotent(tracked: seq<string>, queue: seq<Message>, e: string)
    ensures var p := Track(tracked, queue, e); Track(p.0, p.1, e) == p
  {
  }

  /**
   * `add_events` tracks every given event, duplicates included, but the one message it
   * queues names only the last event: an earlier, different event's ids are not in it.
   */
  lemma TrackManySendsLastOnly(tracked: seq<string>, queue: seq<Message>, events: seq<string>, k: nat)
    requires k < |events| && events[k] != events[|events| - 1]
    ensures var r := TrackMany(tracked, queue, events).value;
      r.0 == tracked + events
      && |r.1| == |queue| + 1 && r.1[..|queue|] == queue
      && var m := r.1[|queue|];
         IsJoinEvent(m) && "2." + events[k] !in m.ids && "1." + events[k] !in m.ids
  {
    var e := events[k];
    var last := events[|events| - 1];
    assert ("2." + e)[2..] == e && ("2." + last)[2..] == last;
    assert ("1." + e)[2..] == e && ("1." + last)[2..] == last;
    assert ("2." + e)[0] == '2' && ("1." + last)[0] == '1';
    assert ("1." + e)[0] == '1' && ("2." + last)[0] == '2';
  }

  /**
   * The fan-out of a tournament message: afterwards every lid is tracked, the list stays
   * free of duplicates and grows only at its end, and one join-event message naming a
   * single id is queued for each newly tracked id, in the same order.
   */
  lemma {:induction false} TrackEachMeaning(tracked: seq<string>, queue: seq<Message>, lids: seq<string>)
    requires NoDup(tracked)
    ensures var r := TrackEach(tracked, queue, lids);
      NoDup(r.0)
      && (forall y :: y in r.0 <==> y in tracked || y in lids)
      && |tracked| <= |r.0| && r.0[..|tracked|] == tracked
      && |r.1| == |queue| + |r.0| - |tracked| && r.1[..|queue|] == queue
      && forall k :: |queue| <= k < |r.1| ==> r.1[k] == Message("join", "event", [r.0[k - |queue| + |tracked|]])
    decreases |lids|
  {
    if lids != [] {
      var init := lids[..|lids| - 1];
      var last := lids[|lids| - 1];
      TrackEachMeaning(tracked, queue, init);
      var p := TrackEach(tracked, queue, init);
      TrackedStayDistinct(p.0, p.1, last);
      assert forall y :: y in lids <==> y in init || y == last by {
        assert lids == init + [last];
      }
      if last !in p.0 {
        var r := Track(p.0, p.1, last);
        assert r.0[..|tracked|] == p.0[..|tracked|];
        assert r.1[..|queue|] == p.1[..|queue|];
        forall k | |queue| <= k < |r.1|
          ensures r.1[k] == Message("join", "event", [r.0[k - |queue| + |tracked|]])
        {
          if k < |p.1| {
            assert r.1[k] == p.1[k];
            assert r.0[k - |queue| + |tracked|] == p.0[k - |queue| + |tracked|];
          }
        }
      }
    }
  }

  /** The ids of a run of messages, one message after the other. */
  function IdsOf(ms: seq<Message>): seq<string> {
    if ms == [] then [] else ms[0].ids + IdsOf(ms[1..])
  }

  /** The ids of a non-empty prefix of the queue start with those of its head. */
  lemma IdsOfPrefix(q: seq<Message>, i: nat)
    requires 0 < i <= |q|
    ensures IdsOf(q[..i]) == q[0].ids + IdsOf(q[1..][..i - 1])
  {
    assert q[..i][1..] == q[1..][..i - 1];
  }

  /**
   * The batching loop of `sender` after a join-event message with ids `combined`, on the
   * rest of the queue: following join-event messages are absorbed while fewer than
   * `BatchSize` ids are held; the first other message met is put back at the tail.
   * Returns the merged ids and the queue left behind.
   */
  function Absorb(combined: seq<string>, q: seq<Message>): (seq<string>, seq<Message>)
    decreases |q|
  {
    if |combined| >= BatchSize || q == [] then (combined, q)
    else if IsJoinEvent(q[0]) then Absorb(combined + q[0].ids, q[1..])
    else (combined, q[1..] + [q[0]])
  }

  /** How many join-event messages the batching loop absorbs. */
  function Absorbed(combined: seq<string>, q: seq<Message>): nat
    decreases |q|
  {
    if |combined| >= BatchSize || q == [] then 0
    else if IsJoinEvent(q[0]) then 1 + Absorbed(combined + q[0].ids, q[1..])
    else 0
  }

  /**
   * The batching loop takes the `k` join-event messages at the head of the queue, appending
   * their ids in order, and takes one more only while fewer than `BatchSize` ids are held,
   * so the total may exceed `BatchSize`. It stops with at least `BatchSize` ids, or at the
   * end of the queue, or at a message of another kind, which then moves to the tail.
   */
  lemma {:induction false} AbsorbMeaning(combined: seq<string>, q: seq<Message>)
    ensures var k := Absorbed(combined, q); var r := Absorb(combined, q);
      k <= |q|
      && (forall i :: 0 <= i < k ==> IsJoinEvent(q[i]))
      && r.0 == combined + IdsOf(q[..k])
      && (forall i :: 0 <= i < k ==> |combined + IdsOf(q[..i])| < BatchSize)
      && ((|r.0| >= BatchSize && r.1 == q[k..])
          || (|r.0| < BatchSize && k == |q| && r.1 == [])
          || (|r.0| < BatchSize && k < |q| && !IsJoinEvent(q[k]) && r.1 == q[k + 1..] + [q[k]]))
    decreases |q|
  {
    if |combined| >= BatchSize || q == [] {
      assert q[..0] == [];
    } else if IsJoinEvent(q[0]) {
      var c1 := combined + q[0].ids;
      var k1 := Absorbed(c1, q[1..]);
      AbsorbMeaning(c1, q[1..]);
      assert q[1..][k1..] == q[k1 + 1..];
      IdsOfPrefix(q, k1 + 1);
      forall i | 0 <= i < k1 + 1 ensures |combined + IdsOf(q[..i])| < BatchSize {
        if i == 0 {
          assert q[..0] == [];
        } else {
          IdsOfPrefix(q, i);
          assert combined + IdsOf(q[..i]) == c1 + IdsOf(q[1..][..i - 1]);
        }
      }
      if k1 < |q[1..]| {
        assert q[1..][k1] == q[k1 + 1] && q[1..][k1 + 1..] == q[k1 + 2..];
      }
    } else {
      assert q[..0] == [];
    }
  }

  /** A market outcome; `name` is absent when the outcome carries no `"name"` key. */
  datatype Outcome = Outcome(name: Option<string>, price: real)

  /** The fourth element (and the kind) of an analysed message. */
  datatype Payload =
    | Market(marketId: string, marketName: string, outcomes: seq<Outcome>)
      /** `hasData` is `len(msg) >= 4`; `startTime` is absent when the payload has no such key. */
    | EventInfo(hasData: bool, startTime: Option<int>, marketIds: seq<string>, lid: string)
    | Discipline(tournamentIds: seq<string>)
    | Tournament(eventRefs: seq<string>)
    | Other(kind: string)

  /** What `analysis` hands to the event emitter. */
  datatype Emitted = NewOdd(odd: Record) | UpdateDate(eventId: string, startDate: int)

  /** The three market names that are parsed. */
  predicate IsWinnerMarket(name: string) {
    name == "Match Winner" || name == "Fight Winner" || name == "Winner. With overtime"
  }

  /** The draw test: case-insensitive `"draw"` in the app version, case-sensitive `"Draw"` in the earlier one. */
  predicate IsDraw(v: Variant, name: string) {
    match v
    case App => Contains(Lower(name), "draw")
    case Earlier => Contains(name, "Draw")
  }

  /** The loop variables of the outcome loop; a price is meaningful once its name is set. */
  datatype Picks = Picks(optionA: Option<string>, probaA: real, optionB: Option<string>, probaB: real, draw: Option<real>)

  /** One named outcome's effect. The app version's `elif` makes a draw outcome only a draw. */
  function PickName(v: Variant, p: Picks, name: string, price: real): Picks {
    var drawn := if IsDraw(v, name) then p.(draw := Some(price)) else p;
    if v.App? && IsDraw(v, name) then drawn
    else if drawn.optionA.None? then drawn.(optionA := Some(name), probaA := price)
    else drawn.(optionB := Some(name), probaB := price)
  }

  /** The outcome loop over `outcomes`. */
  function Pick(v: Variant, outcomes: seq<Outcome>): Picks
    decreases |outcomes|
  {
    if outcomes == [] then Picks(None, 0.0, None, 0.0, None)
    else
      var p := Pick(v, outcomes[..|outcomes| - 1]);
      var o := outcomes[|outcomes| - 1];
      if o.name.None? then p else PickName(v, p, o.name.value, o.price)
  }

  /** The outcomes that compete for sides A and B: the named ones, in the app version only those that are not draws. */
  function Candidates(v: Variant, outcomes: seq<Outcome>): (r: seq<Outcome>)
    ensures forall k :: 0 <= k < |r| ==> r[k].name.Some?
    decreases |outcomes|
  {
    if outcomes == [] then []
    else
      var o := outcomes[|outcomes| - 1];
      Candidates(v, outcomes[..|outcomes| - 1])
      + (if o.name.Some? && !(v.App? && IsDraw(v, o.name.value)) then [o] else [])
  }

  /** The prices of the named draw outcomes. */
  function Draws(v: Variant, outcomes: seq<Outcome>): seq<real>
    decreases |outcomes|
  {
    if outcomes == [] then []
    else
      var o := outcomes[|outcomes| - 1];
      Draws(v, outcomes[..|outcomes| - 1])
      + (if o.name.Some? && IsDraw(v, o.name.value) then [o.price] else [])
  }

  /**
   * After the outcome loop, side A is the first candidate, side B the last candidate when
   * there are at least two (later ones overwrite earlier ones) and absent otherwise, and
   * the draw price is the last draw outcome's price.
   */
  lemma {:induction false} PickMeaning(v: Variant, outcomes: seq<Outcome>)
    ensures var p := Pick(v, outcomes); var c := Candidates(v, outcomes); var d := Draws(v, outcomes);
      (p.optionA == if c == [] then None else c[0].name)
      && (c != [] ==> p.probaA == c[0].price)
      && (p.optionB == if |c| < 2 then None else c[|c| - 1].name)
      && (|c| >= 2 ==> p.probaB == c[|c| - 1].price)
      && (p.draw == if d == [] then None else Some(d[|d| - 1]))
    decreases |outcomes|
  {
    if outcomes != [] {
      PickMeaning(v, outcomes[..|outcomes| - 1]);
    }
  }

  /** `if optionA and optionB`: both names set and non-empty. */
  predicate Truthy(name: Option<string>) {
    name.Some? && name.value != ""
  }

  /** The record built from a winner market, stamped with the clock reading `now`. */
  function MarketRecord(marketId: string, p: Picks, now: int): Record
    requires p.optionA.Some? && p.optionB.Some?
  {
    NewBetOption("dexsport", "dexsport" + marketId, p.optionA.value, p.optionB.value,
                 p.probaA, p.probaB, p.draw, None, None, None, None, now)
  }

  /** `update_date` for each market id of an event, with the event's day. */
  function DateUpdates(marketIds: seq<string>, day: int): (r: seq<Emitted>)
    ensures |r| == |marketIds|
    ensures forall k :: 0 <= k < |r| ==> r[k] == UpdateDate("dexsport" + marketIds[k], day)
  {
    seq(|marketIds|, k requires 0 <= k < |marketIds| => UpdateDate("dexsport" + marketIds[k], day))
  }

  /**
   * What `analysis(msg)` emits. `dayOf` is `datetime.fromtimestamp(t).date()`, a day
   * number for a clock reading in the local time zone.
   */
  function Emits(v: Variant, msg: Payload, now: int, dayOf: int -> int): seq<Emitted> {
    match msg
    case Market(marketId, name, outcomes) =>
      if IsWinnerMarket(name) then
        var p := Pick(v, outcomes);
        if Truthy(p.optionA) && Truthy(p.optionB) then [NewOdd(MarketRecord(marketId, p, now))] else []
      else []
    case EventInfo(hasData, startTime, marketIds, lid) =>
      if v.App? && hasData && startTime.Some? then
        DateUpdates(marketIds, dayOf(startTime.value)) + [UpdateDate("dexsport" + lid, dayOf(startTime.value))]
      else []
    case _ => []
  }

  /** What `analysis(msg)` does to the tracked list and the send queue. */
  function Effect(tracked: seq<string>, queue: seq<Message>, msg: Payload): (seq<string>, seq<Message>) {
    match msg
    case Discipline(ids) => (tracked, queue + [Message("join", "tournament", ids)])
    case Tournament(lids) => TrackEach(tracked, queue, lids)
    case _ => (tracked, queue)
  }

  /**
   * A market message emits at most one record: exactly when its name is one of the three
   * winner names and the first and last of at least two candidates have non-empty names.
   * The record is the platform's, with the market's id, those two sides and the last draw
   * price.
   */
  lemma MarketEmitsOne(v: Variant, marketId: string, name: string, outcomes: seq<Outcome>, now: int, dayOf: int -> int)
    ensures var e := Emits(v, Market(marketId, name, outcomes), now, dayOf);
      var c := Candidates(v, outcomes); var d := Draws(v, outcomes);
      |e| <= 1
      && (|e| == 1 <==> IsWinnerMarket(name) && |c| >= 2 && c[0].name.value != "" && c[|c| - 1].name.value != "")
      && (|e| == 1 ==>
            e[0].NewOdd? && e[0].odd.platform == "dexsport" && e[0].odd.id == "dexsport" + marketId
            && e[0].odd.optionA == c[0].name.value && e[0].odd.probaA == c[0].price
            && e[0].odd.optionB == c[|c| - 1].name.value && e[0].odd.probaB == c[|c| - 1].price
            && e[0].odd.probaDraw == (if d == [] then None else Some(d[|d| - 1])))
  {
    PickMeaning(v, outcomes);
  }

  /**
   * An event message in the app version emits one date update per market id and then one
   * for the event's own id, all with the event's start day; the earlier version ignores event
   * messages. Neither version changes the tracked list or the queue for them.
   */
  lemma EventUpdatesDates(v: Variant, hasData: bool, startTime: Option<int>, marketIds: seq<string>, lid: string,
                          now: int, dayOf: int -> int, tracked: seq<string>, queue: seq<Message>)
    ensures var msg := EventInfo(hasData, startTime, marketIds, lid); var e := Emits(v, msg, now, dayOf);
      Effect(tracked, queue, msg) == (tracked, queue)
      && (v.Earlier? || !hasData || startTime.None? ==> e == [])
      && (v.App? && hasData && startTime.Some? ==>
            |e| == |marketIds| + 1
            && (forall k :: 0 <= k < |marketIds| ==> e[k] == UpdateDate("dexsport" + marketIds[k], dayOf(startTime.value)))
            && e[|marketIds|] == UpdateDate("dexsport" + lid, dayOf(startTime.value)))
  {
  }

  /**
   * A draw outcome after the others: the app version only records its price as the
   * draw, while the earlier version, having no `elif`, also takes it as side B once side A
   * is set.
   */
  lemma DrawOutcomeLast(v: Variant, outcomes: seq<Outcome>, name: string, price: real)
    requires IsDraw(v, name)
    ensures var before := Pick(v, outcomes); var p := Pick(v, outcomes + [Outcome(Some(name), price)]);
      p.draw == Some(price) && p.optionA == (if v.App? || before.optionA.Some? then before.optionA else Some(name))
      && (v.App? ==> p.optionB == before.optionB && p.probaB == before.probaB)
      && (v.Earlier? && before.optionA.Some? ==> p.optionB == Some(name) && p.probaB == price)
  {
    var os := outcomes + [Outcome(Some(name), price)];
    assert os[..|os| - 1] == outcomes;
  }

  /** The outcome loop of `analysis` for a winner market. */
  method ParseOutcomes(v: Variant, outcomes: seq<Outcome>) returns (p: Picks)
    ensures p == Pick(v, outcomes)
  {
    p := Picks(None, 0.0, None, 0.0, None);
    for i := 0 to |outcomes|
      invariant p == Pick(v, outcomes[..i])
    {
      var o := outcomes[i];
      assert outcomes[..i + 1][..i] == outcomes[..i];
      if o.name.Some? {
        var name := o.name.value;
        var draw := IsDraw(v, name);
        if draw {
          p := p.(draw := Some(o.price));
        }
        if !(v.App? && draw) {
          if p.optionA.None? {
            p := p.(optionA := Some(name), probaA := o.price);
          } else {
            p := p.(optionB := Some(name), probaB := o.price);
          }
        }
      }
    }
    assert outcomes[..|outcomes|] == outcomes;
  }

  /** The event branch of the app version's `analysis`: the date updates, in order. */
  method EventDates(marketIds: seq<string>, lid: string, day: int) returns (emitted: seq<Emitted>)
    ensures emitted == DateUpdates(marketIds, day) + [UpdateDate("dexsport" + lid, day)]
  {
    emitted := [];
    for k := 0 to |marketIds|
      invariant emitted == DateUpdates(marketIds[..k], day)
    {
      emitted := emitted + [UpdateDate("dexsport" + marketIds[k], day)];
    }
    assert marketIds[..|marketIds|] == marketIds;
    emitted := emitted + [UpdateDate("dexsport" + lid, day)];
  }

  /** The client: its tracked events, the send queue, and what the sender wrote to the socket. */
  class Client {
    const variant: Variant
    var tracked: seq<string>
    var queue: seq<Message>
    var sent: seq<Message>

    constructor (variant: Variant)
      ensures this.variant == variant && tracked == [] && queue == [] && sent == []
    {
      this.variant := variant;
      tracked := [];
      queue := [];
      sent := [];
    }

    /** `send(data)`: enqueue for the sender. */
    method Send(m: Message)
      modifies this
      ensures queue == old(queue) + [m] && tracked == old(tracked) && sent == old(sent)
    {
      queue := queue + [m];
    }

    method AddEvent(e: string)
      modifies this
      ensures (tracked, queue) == Track(old(tracked), old(queue), e) && sent == old(sent)
    {
      if e !in tracked {
        Send(Message("join", "event", [e]));
        tracked := tracked + [e];
      }
    }

    method AddEventId(e: string)
      modifies this
      ensures (tracked, queue) == TrackId(old(tracked), old(queue), e) && sent == old(sent)
    {
      if e !in tracked {
        Send(Message("join", "event", TwoIds(e)));
        tracked := tracked + [e];
      }
    }

    /** `add_events(events)`; `raised` when it raises `UnboundLocalError`, with nothing changed. */
    method AddEvents(events: seq<string>) returns (raised: bool)
      modifies this
      ensures raised == TrackMany(old(tracked), old(queue), events).None?
      ensures raised ==> tracked == old(tracked) && queue == old(queue)
      ensures !raised ==> (tracked, queue) == TrackMany(old(tracked), old(queue), events).value
      ensures sent == old(sent)
    {
      if events == [] {
        return true;
      }
      var event := events[|events| - 1];
      Send(Message("join", "event", TwoIds(event)));
      tracked := tracked + events;
      return false;
    }

    method RemoveEvent(e: string)
      modifies this
      ensures (tracked, queue) == Untrack(old(tracked), old(queue), e) && sent == old(sent)
    {
      if e in tracked {
        Send(Message("leave", "event", TwoIds(e)));
        tracked := RemoveFirst(tracked, e);
      }
    }

    /** The tournament branch: `add_event(event["lid"])` for each event reference. */
    method AddEach(lids: seq<string>)
      modifies this
      ensures (tracked, queue) == TrackEach(old(tracked), old(queue), lids) && sent == old(sent)
    {
      for i := 0 to |lids|
        invariant (tracked, queue) == TrackEach(old(tracked), old(queue), lids[..i]) && sent == old(sent)
      {
        assert lids[..i + 1][..i] == lids[..i];
        AddEvent(lids[i]);
      }
      assert lids[..|lids|] == lids;
    }

    /**
     * One turn of the `sender` loop, taking the message at the head of the queue (the
     * sender waits while the queue is empty) and writing one message to the socket.
     */
    method SenderStep()
      requires queue != []
      modifies this
      ensures var m := old(queue)[0]; var r := Absorb(m.ids, old(queue)[1..]);
        (IsJoinEvent(m) ==> sent == old(sent) + [Message("join", "event", r.0)] && queue == r.1)
        && (!IsJoinEvent(m) ==> sent == old(sent) + [m] && queue == old(queue)[1..])
      ensures tracked == old(tracked)
    {
      var message := queue[0];
      queue := queue[1..];
      if IsJoinEvent(message) {
        ghost var target := Absorb(message.ids, queue);
        var combined := message.ids;
        while |combined| < BatchSize
          invariant Absorb(combined, queue) == target
          invariant tracked == old(tracked) && sent == old(sent)
          decreases |queue|
        {
          if queue == [] {
            break;
          }
          var next := queue[0];
          queue := queue[1..];
          if IsJoinEvent(next) {
            combined := combined + next.ids;
            if |combined| >= BatchSize {
              break;
            }
          } else {
            queue := queue + [next];
            break;
          }
        }
        assert (combined, queue) == target;
        sent := sent + [Message("join", "event", combined)];
      } else {
        sent := sent + [message];
      }
    }

    /** `analysis(msg)` at clock reading `now`; returns what it emits. */
    method Analysis(msg: Payload, now: int, dayOf: int -> int) returns (emitted: seq<Emitted>)
      modifies this
      ensures emitted == Emits(variant, msg, now, dayOf)
      ensures (tracked, queue) == Effect(old(tracked), old(queue), msg) && sent == old(sent)
    {
      emitted := [];
      match msg {
        case Market(marketId, name, outcomes) =>
          if IsWinnerMarket(name) {
            var p := ParseOutcomes(variant, outcomes);
            if Truthy(p.optionA) && Truthy(p.optionB) {
              emitted := [NewOdd(MarketRecord(marketId, p, now))];
            }
          }
        case EventInfo(hasData, startTime, marketIds, lid) =>
          if variant.App? && hasData && startTime.Some? {
            emitted := EventDates(marketIds, lid, dayOf(startTime.value));
          }
        case Discipline(ids) =>
          Send(Message("join", "tournament", ids));
        case Tournament(lids) =>
          AddEach(lids);
        case Other(_) =>
      }
    }
  }
}
