/** The GUI's sliding window of events with its counters (`EventStore`) and the filtered table over it
    (`EventTableModel`). */
module EventWindow {
  import opened Common
  import Scanners

  /** The fields of a record that are counted or filtered; `haystack` is the lower-case text that a search looks in. */
  datatype EventRecord = EventRecord(action: string, hook: string, layer: string, profile: int, agent: int, epoch: int,
                                     haystack: string)

  function ActionOf(e: EventRecord): string { e.action }
  function HookOf(e: EventRecord): string { e.hook }
  function LayerOf(e: EventRecord): string { e.layer }
  function ProfileOf(e: EventRecord): int { e.profile }
  function AgentOf(e: EventRecord): int { e.agent }

  function Mapped<K>(events: seq<EventRecord>, key: EventRecord -> K): (keys: seq<K>)
    ensures |keys| == |events| && forall i | 0 <= i < |events| :: keys[i] == key(events[i])
  {
    seq(|events|, i requires 0 <= i < |events| => key(events[i]))
  }

  // ---------------------------------------------------------------- counters

  /** The counter holds every key that occurs with its number of occurrences, and nothing else. */
  ghost predicate Exact<K(!new)>(counter: map<K, int>, keys: seq<K>) {
    && (forall k :: k in counter <==> k in multiset(keys))
    && (forall k | k in counter :: counter[k] == multiset(keys)[k])
  }

  function Get<K>(counter: map<K, int>, k: K): int {
    if k in counter then counter[k] else 0
  }

  /** `counter[key] += 1` */
  function Bumped<K>(counter: map<K, int>, k: K): map<K, int> {
    counter[k := Get(counter, k) + 1]
  }

  /** `counter[key] -= 1`, and the key goes when nothing is left. */
  function Dropped<K>(counter: map<K, int>, k: K): map<K, int> {
    if Get(counter, k) - 1 <= 0 then counter - {k} else counter[k := Get(counter, k) - 1]
  }

  /** The counter of some events: each bumped it. */
  function Tally<K>(events: seq<EventRecord>, key: EventRecord -> K): map<K, int> {
    if events == [] then map[] else Bumped(Tally(events[..|events| - 1], key), key(events[|events| - 1]))
  }

  lemma BumpedIsExact<K(!new)>(counter: map<K, int>, keys: seq<K>, k: K)
    requires Exact(counter, keys)
    ensures Exact(Bumped(counter, k), keys + [k])
  {
    assert multiset(keys + [k]) == multiset(keys) + multiset{k};
  }

  lemma DroppedIsExact<K(!new)>(counter: map<K, int>, keys: seq<K>)
    requires keys != [] && Exact(counter, keys)
    ensures Exact(Dropped(counter, keys[0]), keys[1..])
  {
    var k := keys[0];
    assert keys == [k] + keys[1..];
    assert multiset(keys) == multiset{k} + multiset(keys[1..]);
    assert k in multiset(keys);
  }

  lemma ExactUniquely<K(!new)>(a: map<K, int>, b: map<K, int>, keys: seq<K>)
    requires Exact(a, keys) && Exact(b, keys)
    ensures a == b
  {
  }

  /** A counter that every event bumps is exact: no key is missing, none stays with zero. */
  lemma {:induction false} TallyIsExact<K(!new)>(events: seq<EventRecord>, key: EventRecord -> K)
    ensures Exact(Tally(events, key), Mapped(events, key))
  {
    if events == [] {
      assert multiset(Mapped(events, key)) == multiset{};
    } else {
      var n := |events| - 1;
      TallyIsExact(events[..n], key);
      BumpedIsExact(Tally(events[..n], key), Mapped(events[..n], key), key(events[n]));
      assert Mapped(events, key) == Mapped(events[..n], key) + [key(events[n])];
    }
  }

  lemma TallyOfMore<K>(events: seq<EventRecord>, e: EventRecord, key: EventRecord -> K)
    ensures Tally(events + [e], key) == Bumped(Tally(events, key), key(e))
  {
    assert (events + [e])[..|events|] == events;
  }

  /** Dropping the oldest event undoes its bump, although others bumped after it. */
  lemma TallyOfFewer<K(!new)>(events: seq<EventRecord>, key: EventRecord -> K)
    requires events != []
    ensures Tally(events[1..], key) == Dropped(Tally(events, key), key(events[0]))
  {
    var keys := Mapped(events, key);
    TallyIsExact(events, key);
    TallyIsExact(events[1..], key);
    DroppedIsExact(Tally(events, key), keys);
    assert Mapped(events[1..], key) == keys[1..];
    ExactUniquely(Tally(events[1..], key), Dropped(Tally(events, key), keys[0]), keys[1..]);
  }

  // ---------------------------------------------------------------- what the store should hold

  /** The last records that fit the window. */
  function Window(history: seq<EventRecord>, max: nat): seq<EventRecord> {
    if |history| <= max then history else history[|history| - max..]
  }

  lemma WindowMoves(history: seq<EventRecord>, e: EventRecord, max: nat)
    ensures Window(Window(history, max) + [e], max) == Window(history + [e], max)
  {
  }

  function NewestEpoch(history: seq<EventRecord>): (m: int)
    ensures m >= 0 && forall i | 0 <= i < |history| :: history[i].epoch <= m
    ensures m == 0 || exists i | 0 <= i < |history| :: history[i].epoch == m
  {
    if history == [] then 0
    else
      var n := |history| - 1;
      var before := NewestEpoch(history[..n]);
      assert forall i | 0 <= i < n :: history[..n][i] == history[i];
      if history[n].epoch > before then history[n].epoch else before
  }

  predicate HighRisk(e: EventRecord) {
    e.action == "deny" || e.action == "audit"
  }

  /** The position of the last record of high risk, -1 if there is none. */
  function LastHighRisk(history: seq<EventRecord>): (i: int)
    ensures -1 <= i < |history|
    ensures i >= 0 ==> history[i].action in {"deny", "audit"}
    ensures forall j | i < j < |history| :: history[j].action !in {"deny", "audit"}
  {
    if history == [] then -1
    else
      var n := |history| - 1;
      if HighRisk(history[n]) then n else LastHighRisk(history[..n])
  }

  function LatestHighRisk(history: seq<EventRecord>): (r: Option<EventRecord>)
    ensures r.Some? ==> r.value in history && r.value.action in {"deny", "audit"}
    ensures r.None? ==> forall e | e in history :: e.action !in {"deny", "audit"}
  {
    if LastHighRisk(history) < 0 then None else Some(history[LastHighRisk(history)])
  }

  /** What a store shows is what its history says. */
  ghost predicate Reflects(events: seq<EventRecord>, epoch: int, risk: Option<EventRecord>,
                           history: seq<EventRecord>, max: nat)
  {
    events == Window(history, max) && epoch == NewestEpoch(history) && risk == LatestHighRisk(history)
  }

  function Later(epoch: int, e: EventRecord): int {
    if e.epoch > epoch then e.epoch else epoch
  }

  function Riskier(risk: Option<EventRecord>, e: EventRecord): Option<EventRecord> {
    if HighRisk(e) then Some(e) else risk
  }

  lemma HistoryStep(events: seq<EventRecord>, epoch: int, risk: Option<EventRecord>,
                    history: seq<EventRecord>, max: nat, e: EventRecord)
    requires Reflects(events, epoch, risk, history, max)
    ensures epoch >= 0
    ensures Reflects(Window(events + [e], max), Later(epoch, e), Riskier(risk, e), history + [e], max)
  {
    assert (history + [e])[..|history|] == history;
    WindowMoves(history, e, max);
  }

  class EventStore {
    const maxEvents: nat
    var events: seq<EventRecord>
    var countByAction: map<string, int>
    var countByHook: map<string, int>
    var countByLayer: map<string, int>
    var countByProfile: map<int, int>
    var countByAgent: map<int, int>
    var currentEpoch: int
    var latestHighRisk: Option<EventRecord>
    /** Every record ever added. */
    ghost var history: seq<EventRecord>

    constructor (maxEvents: nat)
      ensures Valid() && history == [] && this.maxEvents == maxEvents
    {
      this.maxEvents := maxEvents;
      events := [];
      countByAction, countByHook, countByLayer := map[], map[], map[];
      countByProfile, countByAgent := map[], map[];
      currentEpoch := 0;
      latestHighRisk := None;
      history := [];
    }

    ghost predicate Counted()
      reads this
    {
      && countByAction == Tally(events, ActionOf)
      && countByHook == Tally(events, HookOf)
      && countByLayer == Tally(events, LayerOf)
      && countByProfile == Tally(events, ProfileOf)
      && countByAgent == Tally(events, AgentOf)
    }

    ghost predicate Valid()
      reads this
    {
      Counted() && Reflects(events, currentEpoch, latestHighRisk, history, maxEvents)
    }

    /** `add` */
    method Add(event: EventRecord)
      requires Valid()
      modifies this
      ensures Valid() && history == old(history) + [event]
    {
      HistoryStep(events, currentEpoch, latestHighRisk, history, maxEvents, event);
      Take(event);
      Trim();
      history := history + [event];
    }

    /** `add` up to its loop. */
    method Take(event: EventRecord)
      requires Counted() && currentEpoch >= 0
      modifies this`latestHighRisk, this`currentEpoch, this`events
      modifies this`countByAction, this`countByHook, this`countByLayer, this`countByProfile, this`countByAgent
      ensures Counted() && events == old(events) + [event]
      ensures latestHighRisk == Riskier(old(latestHighRisk), event)
      ensures currentEpoch == Later(old(currentEpoch), event)
    {
      Append(event);
      Note(event);
    }

    /** The part of `add` about risk and epoch. */
    method Note(event: EventRecord)
      requires currentEpoch >= 0
      modifies this`latestHighRisk, this`currentEpoch
      ensures latestHighRisk == Riskier(old(latestHighRisk), event)
      ensures currentEpoch == Later(old(currentEpoch), event)
    {
      if event.action == "deny" || event.action == "audit" {
        latestHighRisk := Some(event);
      }
      if event.epoch != 0 {
        currentEpoch := if event.epoch > currentEpoch then event.epoch else currentEpoch;
      }
    }

    /** The loop of `add`. */
    method Trim()
      requires Counted()
      modifies this`events
      modifies this`countByAction, this`countByHook, this`countByLayer, this`countByProfile, this`countByAgent
      ensures Counted() && events == Window(old(events), maxEvents)
    {
      while |events| > maxEvents
        invariant Counted() && Window(events, maxEvents) == Window(old(events), maxEvents)
        decreases |events|
      {
        RemoveFirst();
      }
    }

    /** `self.events.append(event)` and `_increment` */
    method Append(event: EventRecord)
      requires Counted()
      modifies this`events
      modifies this`countByAction, this`countByHook, this`countByLayer, this`countByProfile, this`countByAgent
      ensures Counted() && events == old(events) + [event]
    {
      EachFieldIsCounted(events, event);
      events := events + [event];
      countByAction := Bumped(countByAction, event.action);
      countByHook := Bumped(countByHook, event.hook);
      countByLayer := Bumped(countByLayer, event.layer);
      countByProfile := Bumped(countByProfile, event.profile);
      countByAgent := Bumped(countByAgent, event.agent);
    }

    /** `self.events.pop(0)` and `_decrement` */
    method RemoveFirst()
      requires Counted() && events != []
      modifies this`events
      modifies this`countByAction, this`countByHook, this`countByLayer, this`countByProfile, this`countByAgent
      ensures Counted() && events == old(events)[1..]
    {
      TallyOfFewer(events, ActionOf);
      TallyOfFewer(events, HookOf);
      TallyOfFewer(events, LayerOf);
      TallyOfFewer(events, ProfileOf);
      TallyOfFewer(events, AgentOf);
      var removed := events[0];
      events := events[1..];
      countByAction := Dropped(countByAction, removed.action);
      countByHook := Dropped(countByHook, removed.hook);
      countByLayer := Dropped(countByLayer, removed.layer);
      countByProfile := Dropped(countByProfile, removed.profile);
      countByAgent := Dropped(countByAgent, removed.agent);
    }
  }

  /** Each counter counts its own field. */
  lemma EachFieldIsCounted(events: seq<EventRecord>, e: EventRecord)
    ensures Tally(events + [e], ActionOf) == Bumped(Tally(events, ActionOf), e.action)
    ensures Tally(events + [e], HookOf) == Bumped(Tally(events, HookOf), e.hook)
    ensures Tally(events + [e], LayerOf) == Bumped(Tally(events, LayerOf), e.layer)
    ensures Tally(events + [e], ProfileOf) == Bumped(Tally(events, ProfileOf), e.profile)
    ensures Tally(events + [e], AgentOf) == Bumped(Tally(events, AgentOf), e.agent)
  {
    TallyOfMore(events, e, ActionOf);
    TallyOfMore(events, e, HookOf);
    TallyOfMore(events, e, LayerOf);
    TallyOfMore(events, e, ProfileOf);
    TallyOfMore(events, e, AgentOf);
  }

  // ---------------------------------------------------------------- the table

  datatype Filters = Filters(action: string, hook: string, layer: string, profile: string, agent: string, text: string)

  const ALL: string := "all"

  /** `str(n)` */
  function Text(n: int): string {
    if n < 0 then "-" + Scanners.Decimal(-n) else Scanners.Decimal(n)
  }

  /** A profile or agent filter picks one number. */
  lemma TextInjective(a: int, b: int)
    requires Text(a) == Text(b)
    ensures a == b
  {
    var x, y := if a < 0 then -a else a, if b < 0 then -b else b;
    Scanners.DigitsOfNumeral(x, 10, "");
    Scanners.DigitsOfNumeral(y, 10, "");
    assert Scanners.Decimal(x) + "" == Scanners.Decimal(x) && Scanners.Decimal(y) + "" == Scanners.Decimal(y);
    assert a < 0 ==> Text(a)[1..] == Scanners.Decimal(x);
    assert b < 0 ==> Text(b)[1..] == Scanners.Decimal(y);
    assert Text(a)[0] == '-' <==> a < 0;
    assert Text(b)[0] == '-' <==> b < 0;
  }

  predicate Contains(hay: string, needle: string) {
    needle <= hay || (hay != [] && Contains(hay[1..], needle))
  }

  predicate Passes(filter: string, value: string) {
    filter == ALL || value == filter
  }

  /** What an event must meet to be shown. */
  predicate Matches(f: Filters, e: EventRecord) {
    && Passes(f.action, e.action) && Passes(f.hook, e.hook) && Passes(f.layer, e.layer)
    && Passes(f.profile, Text(e.profile)) && Passes(f.agent, Text(e.agent))
    && (f.text != [] ==> Contains(e.haystack, f.text))
  }

  /** The filters as a test on events. */
  function Shown(f: Filters): EventRecord -> bool {
    e => Matches(f, e)
  }

  /** The rows are exactly the indexes of what passes the test, in increasing order. */
  predicate Shows<T>(rows: seq<nat>, items: seq<T>, test: T -> bool) {
    && (forall i, j | 0 <= i < j < |rows| :: rows[i] < rows[j])
    && (forall i | 0 <= i < |rows| :: rows[i] < |items| && test(items[rows[i]]))
    && (forall k | 0 <= k < |items| && test(items[k]) :: k in rows)
  }

  function MatchingRows<T>(items: seq<T>, test: T -> bool): seq<nat> {
    if items == [] then []
    else
      var n := |items| - 1;
      MatchingRows(items[..n], test) + (if test(items[n]) then [n] else [])
  }

  lemma RowsStep<T>(rows: seq<nat>, items: seq<T>, item: T, test: T -> bool)
    requires Shows(rows, items, test)
    ensures Shows(rows + (if test(item) then [|items|] else []), items + [item], test)
  {
    var all := items + [item];
    if test(item) {
      var more := rows + [|items|];
      forall k | 0 <= k < |all| && test(all[k])
        ensures k in more
      {
        if k == |items| { assert more[|rows|] == k; } else { assert k in rows; }
      }
    } else {
      assert rows + [] == rows;
    }
  }

  lemma {:induction false} MatchingRowsShow<T>(items: seq<T>, test: T -> bool)
    ensures Shows(MatchingRows(items, test), items, test)
  {
    if items != [] {
      var n := |items| - 1;
      MatchingRowsShow(items[..n], test);
      RowsStep(MatchingRows(items[..n], test), items[..n], items[n], test);
      assert items[..n] + [items[n]] == items;
    }
  }

  /** What the filters reject: a field whose filter is not "all" and differs, or a text that does not contain the one
      searched for. */
  ghost predicate Rejected(f: Filters, e: EventRecord) {
    || (f.action != "all" && e.action != f.action)
    || (f.hook != "all" && e.hook != f.hook)
    || (f.layer != "all" && e.layer != f.layer)
    || (f.profile != "all" && Text(e.profile) != f.profile)
    || (f.agent != "all" && Text(e.agent) != f.agent)
    || (|f.text| > 0 && forall i | 0 <= i <= |e.haystack| :: !(f.text <= e.haystack[i..]))
  }

  lemma {:induction false} ContainsIff(hay: string, needle: string)
    ensures Contains(hay, needle) <==> exists i :: 0 <= i <= |hay| && needle <= hay[i..]
  {
    assert hay[0..] == hay;
    if hay != [] {
      ContainsIff(hay[1..], needle);
      assert forall i | 0 <= i < |hay| :: hay[1..][i..] == hay[i + 1..];
      if i :| 0 <= i <= |hay| && needle <= hay[i..] && i > 0 {
        assert hay[1..][i - 1..] == hay[i..];
      }
    }
  }

  lemma MatchesIff(f: Filters, e: EventRecord)
    ensures Matches(f, e) <==> !Rejected(f, e)
  {
    ContainsIff(e.haystack, f.text);
  }

  /** Which events a table shows: exactly those its filters do not reject, in the order of the store. */
  ghost predicate ShowsUnrejected(rows: seq<nat>, events: seq<EventRecord>, f: Filters) {
    && (forall i, j | 0 <= i < j < |rows| :: rows[i] < rows[j])
    && (forall k :: k in rows <==> 0 <= k < |events| && !Rejected(f, events[k]))
  }

  lemma RowsAreUnrejected(events: seq<EventRecord>, f: Filters)
    ensures ShowsUnrejected(MatchingRows(events, Shown(f)), events, f)
  {
    var rows := MatchingRows(events, Shown(f));
    MatchingRowsShow(events, Shown(f));
    forall k | 0 <= k < |events|
      ensures k in rows <==> !Rejected(f, events[k])
    {
      MatchesIff(f, events[k]);
    }
  }

  class EventTableModel {
    const store: EventStore
    var filters: Filters
    var rows: seq<nat>

    constructor (store: EventStore)
      requires store.Valid() && store.events == []
      ensures Valid() && this.store == store && filters == Filters(ALL, ALL, ALL, ALL, ALL, "")
    {
      this.store := store;
      filters := Filters(ALL, ALL, ALL, ALL, ALL, "");
      rows := [];
    }

    ghost predicate Valid()
      reads this, store
    {
      store.Valid() && rows == MatchingRows(store.events, Shown(filters))
    }

    /** `event_at`: in a valid table every row shows a live event that passes the filters. */
    function EventAt(row: nat): (e: EventRecord)
      requires Valid() && row < |rows|
      reads this, store
      ensures e in Window(store.history, store.maxEvents) && Matches(filters, e)
    {
      MatchingRowsShow(store.events, Shown(filters));
      store.events[rows[row]]
    }

    /** `add_payload` */
    method AddPayload(event: EventRecord)
      requires Valid()
      modifies this`rows, store
      ensures Valid() && store.history == old(store.history) + [event]
    {
      store.Add(event);
      Refresh();
    }

    /** `set_filters`: what is not given stays; the text comes stripped and in lower case. */
    method SetFilters(action: Option<string>, hook: Option<string>, layer: Option<string>, profile: Option<string>,
                      agent: Option<string>, text: Option<string>)
      requires Valid()
      modifies this
      ensures Valid()
      ensures filters == Filters(Or(action, old(filters.action)), Or(hook, old(filters.hook)),
                                 Or(layer, old(filters.layer)), Or(profile, old(filters.profile)),
                                 Or(agent, old(filters.agent)), Or(text, old(filters.text)))
    {
      if action.Some? { filters := filters.(action := action.value); }
      if hook.Some? { filters := filters.(hook := hook.value); }
      if layer.Some? { filters := filters.(layer := layer.value); }
      if profile.Some? { filters := filters.(profile := profile.value); }
      if agent.Some? { filters := filters.(agent := agent.value); }
      if text.Some? { filters := filters.(text := text.value); }
      Refresh();
    }

    /** `refresh` */
    method Refresh()
      requires store.Valid()
      modifies this`rows
      ensures Valid() && ShowsUnrejected(rows, store.events, filters)
    {
      var index := 0;
      rows := [];
      while index < |store.events|
        invariant 0 <= index <= |store.events|
        invariant rows == MatchingRows(store.events[..index], Shown(filters))
      {
        assert store.events[..index + 1][..index] == store.events[..index];
        if Matches(filters, store.events[index]) {
          rows := rows + [index];
        }
        index := index + 1;
      }
      assert store.events[..index] == store.events;
      RowsAreUnrejected(store.events, filters);
    }
  }

  function Or(given: Option<string>, current: string): string {
    if given.Some? then given.value else current
  }
}
