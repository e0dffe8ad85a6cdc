/** The kernel maps the loader holds, and its bulk operations on them: snapshot, staging, clean-up, rollback. */
module Kernel {
  import opened Common
  import opened Lpm
  import opened NetBits
  import opened Policy
  import opened Compile
  import opened Rules
  import opened BpfMap
  import Protocol

  const INDEX_CAPACITY: nat := 2 * MAX_RULES

  /** The snapshot arrays. */
  datatype Snapshot = Snapshot(rules: seq<Rule>, config: Config,
                               path: seq<(Key<Bytes>, Entry)>, command: seq<(Key<Bytes>, Entry)>,
                               network: seq<(Key<Bits>, Entry)>, resource: seq<(Key<(RuleKind, U64)>, Entry)>,
                               comms: seq<(Bytes, ScopeValue)>,
                               pids: seq<(U32, ScopeValue)>, tgids: seq<(U32, ScopeValue)>)

  /** The write that failed. */
  datatype Point = AtPath | AtCommand | AtNetwork | AtResource | AtRules | AtScopes | AtConfig

  /** The rule array: the rules, then zeroed slots. */
  function RuleTable(rs: seq<Rule>): (t: seq<Rule>)
    requires |rs| <= MAX_RULES
    ensures |t| == MAX_RULES
  {
    rs + seq(MAX_RULES - |rs|, _ => ZERO_RULE)
  }

  function ScopeMap<K>(keys: seq<K>, c: Config, selector: Selector): map<K, ScopeValue> {
    OneValue(keys, ScopeValue(c.profileId, c.agentId, selector))
  }

  /** The maps after the four `write_*` calls for the indexes. */
  function WithCompiled(m: Maps, rs: seq<Rule>, gen: U32): Maps {
    m.(path := m.path + Compiled(rs, gen, PathItem), command := m.command + Compiled(rs, gen, CommandItem),
       network := m.network + Compiled(rs, gen, NetworkItem), resource := m.resource + Compiled(rs, gen, ResourceItem))
  }

  /** The maps after `write_scope_maps`. */
  function WithScopes(m: Maps, lists: ScopeLists, c: Config): Maps {
    m.(comms := ScopeMap(lists.comms, c, ByComm),
       pids := ScopeMap(lists.pids, c, ByPid),
       tgids := ScopeMap(lists.tgids, c, ByTgid))
  }

  /** The maps after clearing and staging under `c.generation`, with the config not yet written. */
  function Staged(m: Maps, rs: seq<Rule>, lists: ScopeLists, c: Config): Maps
    requires |rs| <= MAX_RULES
  {
    WithScopes(WithCompiled(Cleared(m, c.generation), rs, c.generation).(rules := RuleTable(rs)), lists, c)
  }

  /** The maps after `clear_*_generation` of all four indexes. */
  function Cleared(m: Maps, gen: U32): Maps {
    m.(path := Without(m.path, gen), command := Without(m.command, gen),
       network := Without(m.network, gen), resource := Without(m.resource, gen))
  }

  /** Same config and epoch, same index entries of every generation but `gen`. */
  ghost predicate AgreeOff(m: Maps, n: Maps, gen: U32) {
    && m.config == n.config && m.epoch == n.epoch
    && Without(m.path, gen) == Without(n.path, gen)
    && Without(m.command, gen) == Without(n.command, gen)
    && Without(m.network, gen) == Without(n.network, gen)
    && Without(m.resource, gen) == Without(n.resource, gen)
  }

  /** What happened to each index so far. */
  datatype Histories = Histories(path: seq<Index<Bytes, Entry>>, command: seq<Index<Bytes, Entry>>,
                                 network: seq<Index<Bits, Entry>>, resource: seq<Index<(RuleKind, U64), Entry>>)

  /** Between two points in time the indexes changed only under `gen`, counting from `m`. */
  ghost predicate Window(before: Histories, after: Histories, m: Maps, gen: U32) {
    && Kept(before.path, after.path, m.path, gen)
    && Kept(before.command, after.command, m.command, gen)
    && Kept(before.network, after.network, m.network, gen)
    && Kept(before.resource, after.resource, m.resource, gen)
  }

  /** The index held `seen` at some moment between the two histories, or `base` at their start. */
  ghost predicate Held<T, V>(before: seq<Index<T, V>>, after: seq<Index<T, V>>, base: Index<T, V>, seen: Index<T, V>) {
    seen == base || exists i :: |before| <= i < |after| && after[i] == seen
  }

  /** `n` is what a hook may see in the window: config and epoch of `m`, and of each index what it held at some
      moment. */
  ghost predicate SeenIn(before: Histories, after: Histories, m: Maps, n: Maps) {
    && n.config == m.config && n.epoch == m.epoch
    && Held(before.path, after.path, m.path, n.path)
    && Held(before.command, after.command, m.command, n.command)
    && Held(before.network, after.network, m.network, n.network)
    && Held(before.resource, after.resource, m.resource, n.resource)
  }

  /** Nothing a hook can see in the window is told apart by any decision, if `gen` is not the live generation. */
  lemma WindowIsQuiet(before: Histories, after: Histories, m: Maps, n: Maps, gen: U32)
    requires Window(before, after, m, gen) && SeenIn(before, after, m, n) && gen != m.config.generation
    ensures Quiet(m, n)
  {
    AgreeOffIsQuiet(m, n, gen);
  }

  // ---------------------------------------------------------------- the scope maps over time

  /** What the three scope maps hold. */
  datatype Scopes = Scopes(comms: map<Bytes, ScopeValue>, pids: map<U32, ScopeValue>, tgids: map<U32, ScopeValue>)

  const NO_SCOPES := Scopes(map[], map[], map[])

  function ScopesOf(m: Maps): Scopes {
    Scopes(m.comms, m.pids, m.tgids)
  }

  /** What `write_scope_maps` is to leave. */
  function NewScopes(lists: ScopeLists, c: Config): Scopes {
    Scopes(ScopeMap(lists.comms, c, ByComm), ScopeMap(lists.pids, c, ByPid), ScopeMap(lists.tgids, c, ByTgid))
  }

  /** What happened to each scope map so far. */
  datatype ScopeHistories = ScopeHistories(comms: seq<map<Bytes, ScopeValue>>, pids: seq<map<U32, ScopeValue>>,
                                           tgids: seq<map<U32, ScopeValue>>)

  /** What the scope maps held after these histories. */
  function ScopesAt(h: ScopeHistories): Scopes {
    Scopes(Current(h.comms), Current(h.pids), Current(h.tgids))
  }

  /** `h` lies between two points in time, for each scope map on its own. */
  ghost predicate Between(start: ScopeHistories, h: ScopeHistories, end: ScopeHistories) {
    && start.comms <= h.comms <= end.comms
    && start.pids <= h.pids <= end.pids
    && start.tgids <= h.tgids <= end.tgids
  }

  /** Between the two histories the map held only old entries, or only new ones. */
  ghost predicate OldOrNew<K, V>(before: seq<map<K, V>>, after: seq<map<K, V>>, was: map<K, V>, next: map<K, V>) {
    before <= after && forall i | |before| <= i < |after| :: SubMap(after[i], was) || SubMap(after[i], next)
  }

  /** The start of a load, a time at which all scope maps are empty, and the config write or the failure. */
  datatype ScopeTrace = ScopeTrace(start: ScopeHistories, empty: ScopeHistories, end: ScopeHistories)

  /** The scope maps are emptied and then filled, entry by entry, or not touched at all. */
  ghost predicate Traced(was: Scopes, next: Scopes, tr: ScopeTrace, reached: bool) {
    && ScopesAt(tr.start) == was
    && OldOrNew(tr.start.comms, tr.end.comms, was.comms, next.comms)
    && OldOrNew(tr.start.pids, tr.end.pids, was.pids, next.pids)
    && OldOrNew(tr.start.tgids, tr.end.tgids, was.tgids, next.tgids)
    && if reached then Between(tr.start, tr.empty, tr.end) && ScopesAt(tr.empty) == NO_SCOPES else tr.end == tr.start
  }

  lemma EmptiedThenFilled<K, V>(before: seq<map<K, V>>, empty: seq<map<K, V>>, after: seq<map<K, V>>,
                                was: map<K, V>, next: map<K, V>)
    requires Within(before, empty, was) && Within(empty, after, next)
    ensures OldOrNew(before, after, was, next)
  {
  }

  /** The indexes behind the failing write are as they were. */
  ghost predicate Untouched(m: Maps, n: Maps, point: Point) {
    && n == m.(path := n.path, command := n.command, network := n.network, resource := n.resource)
    && (point.AtPath? ==> n.command == m.command)
    && (point.AtPath? || point.AtCommand? ==> n.network == m.network)
    && (point.AtPath? || point.AtCommand? || point.AtNetwork? ==> n.resource == m.resource)
  }

  /** The snapshot arrays hold 32 entries an index and 64 a scope map. */
  predicate FitsSnapshot(m: Maps) {
    && |m.path| <= MAX_RULES && |m.command| <= MAX_RULES && |m.network| <= MAX_RULES && |m.resource| <= MAX_RULES
    && |m.comms| <= MAX_SCOPES && |m.pids| <= MAX_SCOPES && |m.tgids| <= MAX_SCOPES
  }

  /** Every index has room for `n` more entries. */
  predicate Roomy(m: Maps, n: nat) {
    && |m.path| + n <= INDEX_CAPACITY && |m.command| + n <= INDEX_CAPACITY
    && |m.network| + n <= INDEX_CAPACITY && |m.resource| + n <= INDEX_CAPACITY
  }

  /** The maps after the clean-up of a failure branch. */
  function Unstaged(m: Maps, point: Point, gen: U32): Maps {
    var c := Cleared(m, gen);
    match point
    case AtPath => m.(path := c.path)
    case AtCommand => m.(path := c.path, command := c.command)
    case AtNetwork => c.(resource := m.resource)
    case _ => c
  }

  /** The maps a snapshot was taken of. */
  function Remembered(s: Snapshot, epoch: U64): Maps {
    Maps(s.rules, s.config, epoch,
         FromEntries(s.path), FromEntries(s.command), FromEntries(s.network), FromEntries(s.resource),
         FromEntries(s.comms), FromEntries(s.pids), FromEntries(s.tgids))
  }

  /** The maps after a complete rollback from `m` to `snap`. */
  function Restored(m: Maps, snap: Maps): Maps {
    var gen := snap.config.generation;
    snap.(command := Without(m.command, gen) + snap.command,
          network := Without(m.network, gen) + snap.network,
          resource := Without(m.resource, gen) + snap.resource)
  }

  /** The first failure of two. */
  function First(a: Update, b: Update): Update {
    if a.Done? then b else a
  }

  /** Every index has room for what the snapshot holds of it, besides what the rollback does not clear. */
  predicate IndexRoom(m: Maps, snap: Maps) {
    var gen := snap.config.generation;
    && |snap.path| <= INDEX_CAPACITY
    && |Without(m.command, gen).Keys + snap.command.Keys| <= INDEX_CAPACITY
    && |Without(m.network, gen).Keys + snap.network.Keys| <= INDEX_CAPACITY
    && |Without(m.resource, gen).Keys + snap.resource.Keys| <= INDEX_CAPACITY
  }

  predicate ScopeRoom(snap: Maps) {
    |snap.comms| <= MAX_SCOPES && |snap.pids| <= MAX_SCOPES && |snap.tgids| <= MAX_SCOPES
  }

  predicate RoomToRestore(m: Maps, snap: Maps) {
    IndexRoom(m, snap) && ScopeRoom(snap)
  }

  /** Work under an inactive generation is quiet. */
  lemma AgreeOffIsQuiet(m: Maps, n: Maps, gen: U32)
    requires AgreeOff(m, n, gen) && gen != m.config.generation
    ensures Quiet(m, n)
  {
    WithoutKeepsSlices(m.path, n.path, gen, m.config.generation);
    WithoutKeepsSlices(m.command, n.command, gen, m.config.generation);
    WithoutKeepsSlices(m.network, n.network, gen, m.config.generation);
    WithoutKeepsSlices(m.resource, n.resource, gen, m.config.generation);
  }

  const ZERO_CONFIG := Config(ALLOW, false, false, 0, false, false, false, false, 0, 0, 0, SystemWide, 0)

  const FRESH_MAPS := Maps(RuleTable([]), ZERO_CONFIG, 0, map[], map[], map[], map[], map[], map[], map[])

  class Kernel {
    const path: BpfMap<Key<Bytes>, Entry>
    const command: BpfMap<Key<Bytes>, Entry>
    const network: BpfMap<Key<Bits>, Entry>
    const resource: BpfMap<Key<(RuleKind, U64)>, Entry>
    const comms: BpfMap<Bytes, ScopeValue>
    const pids: BpfMap<U32, ScopeValue>
    const tgids: BpfMap<U32, ScopeValue>
    var rules: seq<Rule>
    var config: Config
    var epoch: U64

    ghost predicate Distinct() {
      && path != command && pids != tgids
      && path.capacity == command.capacity == network.capacity == resource.capacity == INDEX_CAPACITY
      && comms.capacity == pids.capacity == tgids.capacity == MAX_SCOPES
    }

    ghost predicate Valid()
      reads this, path, command, network, resource, comms, pids, tgids
    {
      && Distinct()
      && path.Valid() && command.Valid() && network.Valid() && resource.Valid()
      && comms.Valid() && pids.Valid() && tgids.Valid()
      && |rules| == MAX_RULES
    }

    /** The maps as a value. */
    function M(): Maps
      reads this, path, command, network, resource, comms, pids, tgids
    {
      Maps(rules, config, epoch, path.contents, command.contents, network.contents, resource.contents,
           comms.contents, pids.contents, tgids.contents)
    }

    /** The maps as the BPF object creates them: empty, with a zeroed config, rule table and epoch. */
    constructor (path: BpfMap<Key<Bytes>, Entry>, command: BpfMap<Key<Bytes>, Entry>, network: BpfMap<Key<Bits>, Entry>,
                 resource: BpfMap<Key<(RuleKind, U64)>, Entry>,
                 comms: BpfMap<Bytes, ScopeValue>, pids: BpfMap<U32, ScopeValue>, tgids: BpfMap<U32, ScopeValue>)
      requires path != command && pids != tgids
      requires path.Valid() && command.Valid() && network.Valid() && resource.Valid()
      requires comms.Valid() && pids.Valid() && tgids.Valid()
      requires path.capacity == command.capacity == network.capacity == resource.capacity == INDEX_CAPACITY
      requires comms.capacity == pids.capacity == tgids.capacity == MAX_SCOPES
      requires path.contents == command.contents == map[] && network.contents == map[] && resource.contents == map[]
      requires comms.contents == map[] && pids.contents == tgids.contents == map[]
      ensures Valid() && M() == FRESH_MAPS
    {
      this.path, this.command, this.network, this.resource := path, command, network, resource;
      this.comms, this.pids, this.tgids := comms, pids, tgids;
      rules := RuleTable([]);
      config := ZERO_CONFIG;
      epoch := 0;
    }

    ghost function H(): Histories
      reads this, path, command, network, resource
    {
      Histories(path.history, command.history, network.history, resource.history)
    }

    // ---------------------------------------------------------------- snapshot

    /** `snapshot_policy_maps` */
    method TakeSnapshot() returns (r: Option<Snapshot>)
      requires Valid()
      ensures r.Some? <==> FitsSnapshot(M())
      ensures r.Some? ==> Remembered(r.value, epoch) == M()
    {
      var p := SnapshotMap(path, MAX_RULES);
      if p.None? { return None; }
      var c := SnapshotMap(command, MAX_RULES);
      if c.None? { return None; }
      var n := SnapshotMap(network, MAX_RULES);
      if n.None? { return None; }
      var h := SnapshotMap(resource, MAX_RULES);
      if h.None? { return None; }
      var sc := SnapshotMap(comms, MAX_SCOPES);
      if sc.None? { return None; }
      var sp := SnapshotMap(pids, MAX_SCOPES);
      if sp.None? { return None; }
      var st := SnapshotMap(tgids, MAX_SCOPES);
      if st.None? { return None; }
      return Some(Snapshot(rules, config, p.value, c.value, n.value, h.value, sc.value, sp.value, st.value));
    }

    // ---------------------------------------------------------------- clearing and staging

    /** The four `clear_*_generation` calls. */
    method ClearIndexes(gen: U32)
      requires Valid()
      modifies path, command, network, resource
      ensures Valid() && M() == Cleared(old(M()), gen)
      ensures Window(old(H()), H(), old(M()), gen)
    {
      ClearGeneration(path, gen);
      ClearGeneration(command, gen);
      ClearGeneration(network, gen);
      ClearGeneration(resource, gen);
    }

    /** The four `write_*` calls for the indexes, up to the first one that fails. */
    method WriteIndexes(rs: seq<Rule>, gen: U32) returns (failed: Option<Point>, why: Update)
      requires Valid()
      modifies path, command, network, resource
      ensures Valid() && AgreeOff(old(M()), M(), gen) && Window(old(H()), H(), old(M()), gen)
      ensures failed.None? ==> M() == WithCompiled(old(M()), rs, gen)
      ensures failed.Some? ==> !why.Done? && Untouched(old(M()), M(), failed.value)
      ensures failed.Some? ==> failed.value in {AtPath, AtCommand, AtNetwork, AtResource}
      ensures failed.Some? && why.Full? ==> !Roomy(old(M()), |rs|)
    {
      failed, why := WriteTries(rs, gen);
      if failed.None? {
        failed, why := WriteOthers(rs, gen);
      }
    }

    method WriteTries(rs: seq<Rule>, gen: U32) returns (failed: Option<Point>, why: Update)
      requires Valid()
      modifies path, command
      ensures path.Valid() && command.Valid()
      ensures Without(path.contents, gen) == Without(old(path.contents), gen)
      ensures Without(command.contents, gen) == Without(old(command.contents), gen)
      ensures Kept(old(path.history), path.history, old(path.contents), gen)
      ensures Kept(old(command.history), command.history, old(command.contents), gen)
      ensures failed.None? ==> path.contents == old(path.contents) + Compiled(rs, gen, PathItem)
      ensures failed.None? ==> command.contents == old(command.contents) + Compiled(rs, gen, CommandItem)
      ensures failed.Some? ==> !why.Done? && (failed.value.AtPath? || failed.value.AtCommand?)
      ensures failed == Some(AtPath) ==> command.contents == old(command.contents)
      ensures failed.Some? && why.Full? ==>
                |old(path.contents)| + |rs| > INDEX_CAPACITY || |old(command.contents)| + |rs| > INDEX_CAPACITY
    {
      why := WriteIndex(path, rs, gen, PathItem);
      if !why.Done? { return Some(AtPath), why; }
      why := WriteIndex(command, rs, gen, CommandItem);
      return if why.Done? then None else Some(AtCommand), why;
    }

    method WriteOthers(rs: seq<Rule>, gen: U32) returns (failed: Option<Point>, why: Update)
      requires Valid()
      modifies network, resource
      ensures network.Valid() && resource.Valid()
      ensures Without(network.contents, gen) == Without(old(network.contents), gen)
      ensures Without(resource.contents, gen) == Without(old(resource.contents), gen)
      ensures Kept(old(network.history), network.history, old(network.contents), gen)
      ensures Kept(old(resource.history), resource.history, old(resource.contents), gen)
      ensures failed.None? ==> network.contents == old(network.contents) + Compiled(rs, gen, NetworkItem)
      ensures failed.None? ==> resource.contents == old(resource.contents) + Compiled(rs, gen, ResourceItem)
      ensures failed.Some? ==> !why.Done? && (failed.value.AtNetwork? || failed.value.AtResource?)
      ensures failed == Some(AtNetwork) ==> resource.contents == old(resource.contents)
      ensures failed.Some? && why.Full? ==>
                |old(network.contents)| + |rs| > INDEX_CAPACITY || |old(resource.contents)| + |rs| > INDEX_CAPACITY
    {
      why := WriteIndex(network, rs, gen, NetworkItem);
      if !why.Done? { return Some(AtNetwork), why; }
      why := WriteIndex(resource, rs, gen, ResourceItem);
      return if why.Done? then None else Some(AtResource), why;
    }

    /** One update of the rule array. */
    method UpdateRule(i: nat, r: Rule) returns (ok: bool)
      requires i < |rules|
      modifies this`rules
      ensures rules == if ok then old(rules)[i := r] else old(rules)
    {
      if * { ok := false; } else { rules := rules[i := r]; ok := true; }
    }

    /** `write_rules` (`stop`) and the first loop of `restore_policy_maps` (which goes on after a refusal). */
    method WriteRules(table: seq<Rule>, stop: bool) returns (ok: bool)
      requires Valid() && |table| == MAX_RULES
      modifies this`rules
      ensures Valid() && M() == old(M()).(rules := rules)
      ensures ok ==> rules == table
    {
      ok := true;
      var i := 0;
      while i < MAX_RULES && (ok || !stop)
        invariant 0 <= i <= MAX_RULES && |rules| == MAX_RULES
        invariant ok ==> rules[..i] == table[..i]
        decreases MAX_RULES - i
      {
        var done := UpdateRule(i, table[i]);
        ok := ok && done;
        i := i + 1;
      }
      if ok { assert rules == rules[..i] == table[..i] == table; }
    }

    ghost function S(): ScopeHistories
      reads this, comms, pids, tgids
    {
      ScopeHistories(comms.history, pids.history, tgids.history)
    }

    /** `write_scope_maps` */
    method WriteScopeMaps(lists: ScopeLists, c: Config) returns (why: Update, ghost empty: ScopeHistories)
      requires Valid() && |lists.comms| <= MAX_SCOPES && |lists.pids| <= MAX_SCOPES && |lists.tgids| <= MAX_SCOPES
      modifies comms, pids, tgids
      ensures Valid() && !why.Full?
      ensures why.Done? ==> M() == WithScopes(old(M()), lists, c)
      ensures Traced(ScopesOf(old(M())), NewScopes(lists, c), ScopeTrace(old(S()), empty, S()), true)
    {
      EmptyScopes();
      empty := S();
      why := FillScopes(lists, c);
      ghost var was, next := old(ScopesOf(M())), NewScopes(lists, c);
      EmptiedThenFilled(old(comms.history), empty.comms, comms.history, was.comms, next.comms);
      EmptiedThenFilled(old(pids.history), empty.pids, pids.history, was.pids, next.pids);
      EmptiedThenFilled(old(tgids.history), empty.tgids, tgids.history, was.tgids, next.tgids);
    }

    /** The clearing half of `write_scope_maps`. */
    method EmptyScopes()
      requires Valid()
      modifies comms, pids, tgids
      ensures Valid() && comms.contents == map[] && pids.contents == map[] && tgids.contents == map[]
      ensures Within(old(comms.history), comms.history, old(comms.contents))
      ensures Within(old(pids.history), pids.history, old(pids.contents))
      ensures Within(old(tgids.history), tgids.history, old(tgids.contents))
    {
      ClearAll(comms);
      ClearAll(pids);
      ClearAll(tgids);
    }

    /** The writing half of `write_scope_maps`. */
    method FillScopes(lists: ScopeLists, c: Config) returns (why: Update)
      requires Valid() && |lists.comms| <= MAX_SCOPES && |lists.pids| <= MAX_SCOPES && |lists.tgids| <= MAX_SCOPES
      requires comms.contents == map[] && pids.contents == map[] && tgids.contents == map[]
      modifies comms, pids, tgids
      ensures comms.Valid() && pids.Valid() && tgids.Valid() && !why.Full?
      ensures why.Done? ==> Scopes(comms.contents, pids.contents, tgids.contents) == NewScopes(lists, c)
      ensures Within(old(comms.history), comms.history, ScopeMap(lists.comms, c, ByComm))
      ensures Within(old(pids.history), pids.history, ScopeMap(lists.pids, c, ByPid))
      ensures Within(old(tgids.history), tgids.history, ScopeMap(lists.tgids, c, ByTgid))
    {
      why := WriteScopes(comms, lists.comms, ScopeValue(c.profileId, c.agentId, ByComm));
      if !why.Done? { return; }
      why := WriteScopes(pids, lists.pids, ScopeValue(c.profileId, c.agentId, ByPid));
      if !why.Done? { return; }
      why := WriteScopes(tgids, lists.tgids, ScopeValue(c.profileId, c.agentId, ByTgid));
    }

    /** The config write: one element, all or nothing. */
    method UpdateConfig(c: Config) returns (ok: bool)
      modifies this`config
      ensures config == if ok then c else old(config)
    {
      if * { ok := false; } else { config := c; ok := true; }
    }

    /** `bump_epoch` */
    method BumpEpoch() returns (ok: bool)
      modifies this`epoch
      ensures epoch == if ok then Protocol.NextEpoch(old(epoch)) else old(epoch)
    {
      var next := (epoch + 1) % 0x1_0000_0000_0000_0000;
      if next == 0 { next := 1; }
      if * { ok := false; } else { epoch := next; ok := true; }
    }

    // ---------------------------------------------------------------- rollback

    /** What the failure branches clear before restoring: the indexes staged so far. */
    method Unstage(point: Point, gen: U32)
      requires Valid()
      modifies path, command, network, resource
      ensures Valid() && M() == Unstaged(old(M()), point, gen)
      ensures path.contents == Without(old(path.contents), gen)
      ensures command.contents == if point.AtPath? then old(command.contents) else Without(old(command.contents), gen)
      ensures network.contents == if point in {AtPath, AtCommand} then old(network.contents)
                                  else Without(old(network.contents), gen)
      ensures resource.contents == if point in {AtPath, AtCommand, AtNetwork} then old(resource.contents)
                                   else Without(old(resource.contents), gen)
    {
      ClearGeneration(path, gen);
      if point.AtPath? { return; }
      ClearGeneration(command, gen);
      if point.AtCommand? { return; }
      ClearGeneration(network, gen);
      if point.AtNetwork? { return; }
      ClearGeneration(resource, gen);
    }

    /**
     `restore_policy_maps`: the path trie and the scopes are emptied and written back; of the other
     indexes only the snapshot's generation is cleared first. `r` is its first failure, if it has one.
     */
    method Restore(s: Snapshot) returns (r: Update)
      requires Valid() && |s.rules| == MAX_RULES
      modifies this, path, command, network, resource, comms, pids, tgids
      ensures Valid() && epoch == old(epoch)
      ensures r.Done? ==> M() == Restored(old(M()), Remembered(s, epoch))
      ensures r.Full? ==> !RoomToRestore(old(M()), Remembered(s, epoch))
    {
      var okRules := WriteRules(s.rules, false);
      var indexes := RestoreIndexes(s);
      var scopes := RestoreScopes(s);
      var okConfig := UpdateConfig(s.config);
      r := if okRules then First(indexes, First(scopes, if okConfig then Done else Refused)) else Refused;
    }

    method RestoreIndexes(s: Snapshot) returns (r: Update)
      requires Valid()
      modifies path, command, network, resource
      ensures Valid()
      ensures r.Done? ==> path.contents == FromEntries(s.path)
      ensures r.Done? ==>
                command.contents == Without(old(command.contents), s.config.generation) + FromEntries(s.command)
      ensures r.Done? ==>
                network.contents == Without(old(network.contents), s.config.generation) + FromEntries(s.network)
      ensures r.Done? ==>
                resource.contents == Without(old(resource.contents), s.config.generation) + FromEntries(s.resource)
      ensures r.Full? ==> !IndexRoom(old(M()), Remembered(s, old(epoch)))
    {
      var onPath := RestoreAll(path, s.path, true);
      var onCommand := RestoreGeneration(command, s.command, s.config.generation);
      var onNetwork := RestoreGeneration(network, s.network, s.config.generation);
      var onResource := RestoreGeneration(resource, s.resource, s.config.generation);
      r := First(onPath, First(onCommand, First(onNetwork, onResource)));
    }

    method RestoreScopes(s: Snapshot) returns (r: Update)
      requires Valid()
      modifies comms, pids, tgids
      ensures Valid()
      ensures r.Done? ==> comms.contents == FromEntries(s.comms) && pids.contents == FromEntries(s.pids)
      ensures r.Done? ==> tgids.contents == FromEntries(s.tgids)
      ensures r.Full? ==> !ScopeRoom(Remembered(s, epoch))
    {
      var onComms := RestoreAll(comms, s.comms, false);
      var onPids := RestoreAll(pids, s.pids, false);
      var onTgids := RestoreAll(tgids, s.tgids, false);
      r := First(onComms, First(onPids, onTgids));
    }
  }

  lemma WithoutTwice<T, V>(m: Index<T, V>, gen: U32)
    ensures Without(Without(m, gen), gen) == Without(m, gen)
  {
  }
}
