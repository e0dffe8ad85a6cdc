/** What loads do to the running system: what every load keeps, what a success installs, what a failure leaves. */
module Reload {
  import opened Common
  import opened Lpm
  import opened Policy
  import opened Compile
  import opened Rules
  import opened Hooks
  import opened Protocol
  import opened Kernel
  import opened Loader

  // ---------------------------------------------------------------- between loads

  ghost predicate OnlyGeneration<T, V>(m: Index<T, V>, gen: U32) {
    forall k :: k in m ==> k.gen == gen
  }

  /** Only entries of the live generation, and few enough of everything for the next snapshot. */
  ghost predicate Hygienic(m: Maps) {
    var gen := m.config.generation;
    && OnlyGeneration(m.path, gen) && OnlyGeneration(m.command, gen)
    && OnlyGeneration(m.network, gen) && OnlyGeneration(m.resource, gen)
    && FitsSnapshot(m)
  }

  lemma InstalledIndex<T>(m: Index<T, Entry>, rs: seq<Rule>, item: Rule -> Option<T>, prev: U32, gen: U32)
    requires prev != gen
    ensures Slice(Without(m, gen) + Compiled(rs, gen, item), gen) == Compiled(rs, gen, item)
    ensures Slice(Without(Without(m, gen) + Compiled(rs, gen, item), prev), gen) == Compiled(rs, gen, item)
    ensures OnlyGeneration(m, prev) ==>
              Without(Without(m, gen) + Compiled(rs, gen, item), prev) == Compiled(rs, gen, item)
  {
  }

  /** After the flip, and after the clean-up, the live generation is the compiled rule list. */
  lemma InstalledServes(m: Maps, p: Parsed, c: Config)
    requires ParsedOk(p) && c == p.config.(generation := NextGeneration(m.config.generation))
    ensures Serves(Flipped(m, p, c), p.rules) && Serves(Finished(m, p, c), p.rules)
    ensures Hygienic(m) ==> Hygienic(Finished(m, p, c))
  {
    var prev := m.config.generation;
    InstalledIndex(m.path, p.rules, PathItem, prev, c.generation);
    InstalledIndex(m.command, p.rules, CommandItem, prev, c.generation);
    InstalledIndex(m.network, p.rules, NetworkItem, prev, c.generation);
    InstalledIndex(m.resource, p.rules, ResourceItem, prev, c.generation);
    ScopeMapSize(p.lists.comms, c, ByComm);
    ScopeMapSize(p.lists.pids, c, ByPid);
    ScopeMapSize(p.lists.tgids, c, ByTgid);
  }

  lemma {:induction false} ScopeMapSize<K>(keys: seq<K>, c: Config, selector: Selector)
    ensures |ScopeMap(keys, c, selector)| <= |keys|
  {
    if keys != [] {
      var n := |keys| - 1;
      ScopeMapSize(keys[..n], c, selector);
      var value := ScopeValue(c.profileId, c.agentId, selector);
      assert keys == keys[..n] + [keys[n]];
      assert ScopeMap(keys, c, selector) == ScopeMap(keys[..n], c, selector)[keys[n] := value];
    }
  }

  lemma ClearedIsSmaller<T, V>(m: Index<T, V>, gen: U32)
    ensures |Without(m, gen)| <= |m|
  {
    assert Without(m, gen).Keys <= m.Keys;
    var rest := m.Keys - Without(m, gen).Keys;
    assert m.Keys == Without(m, gen).Keys + rest;
  }

  lemma RoomToStage(m: Maps, p: Parsed, gen: U32)
    requires ParsedOk(p) && FitsSnapshot(m)
    ensures Roomy(Cleared(m, gen), |p.rules|)
  {
    ClearedIsSmaller(m.path, gen);
    ClearedIsSmaller(m.command, gen);
    ClearedIsSmaller(m.network, gen);
    ClearedIsSmaller(m.resource, gen);
  }

  /** An outcome after which the maps are known without assuming anything about the failing epoch write. */
  predicate Settled(o: LoadOutcome) {
    match o
    case RolledBack(_, _, rollback) => rollback.Done?
    case EpochWriteFailed(_) => false
    case _ => true
  }

  /**
   Hygiene and capacity: from a hygienic state no load overflows the snapshot arrays or finds an index
   full, and every load that succeeds or is rolled back leaves a hygienic state.
   */
  lemma LoadKeepsHygiene(l: Load)
    requires LoadSpec(l) && Hygienic(l.m)
    ensures !l.outcome.SnapshotOverflow? && !(l.outcome.RolledBack? && l.outcome.why.Full?)
    ensures Settled(l.outcome) ==> Hygienic(l.n)
  {
    RoomToStage(l.m, l.p, l.c.generation);
    if l.outcome.Loaded? {
      InstalledServes(l.m, l.p, l.c);
    }
  }

  /** What snapshot and validation admit can be loaded: nothing here speaks about loads that cannot be. */
  lemma AdmittedPolicyLoads(m: Maps, p: Parsed, h: Histories) returns (l: Load)
    requires ParsedOk(p) && Admitted(m, p.config)
    ensures LoadSpec(l) && l.outcome.Loaded? && l.m == m && l.p == p
  {
    var c := p.config.(generation := NextGeneration(m.config.generation));
    var n := Finished(m, p, c);
    l := Load(m, n, Loaded(Report(n)), p, c, h, h, h);
    assert Window(h, h, m, c.generation) && Window(h, h, Flipped(m, p, c), m.config.generation);
  }

  /** And nothing else is ever loaded. */
  lemma OnlyAdmittedPoliciesLoad(l: Load)
    requires LoadSpec(l) && !Admitted(l.m, l.p.config)
    ensures l.n == l.m && (if FitsSnapshot(l.m) then l.outcome == Rejected(EINVAL) else l.outcome == SnapshotOverflow)
  {
  }

  /** Exactly what is refused: maps with more than 32 entries in an index or 64 in a scope map, at the snapshot; else a
      profile or agent id of zero, as invalid. */
  lemma RefusedIff(l: Load)
    requires LoadSpec(l)
    ensures var m := l.m;
            var small := && |m.path| <= 32 && |m.command| <= 32 && |m.network| <= 32 && |m.resource| <= 32
                         && |m.comms| <= 64 && |m.pids| <= 64 && |m.tgids| <= 64;
            && (l.outcome.SnapshotOverflow? <==> !small)
            && (l.outcome.Rejected? <==> small && (l.p.config.profileId == 0 || l.p.config.agentId == 0))
            && (l.outcome.Rejected? ==> l.outcome.errno == EINVAL)
  {
  }

  /** The generation after `loads` successful loads. */
  function GenerationAfter(loads: nat): U32 {
    if loads == 0 then 0 else NextGeneration(GenerationAfter(loads - 1))
  }

  /** In closed form. */
  lemma {:induction false} GenerationClosedForm(loads: nat)
    requires loads > 0
    ensures GenerationAfter(loads) == (loads - 1) % U32_MAX + 1
  {
    if loads > 1 {
      GenerationClosedForm(loads - 1);
      NextPlace(loads - 2, U32_MAX);
    }
  }

  /** One load from `m` to `n`; a policy directory that does not parse changes nothing. */
  ghost predicate LoadStep(m: Maps, n: Maps, o: LoadOutcome) {
    || (o.Rejected? && n == m)
    || exists l :: LoadSpec(l) && l.m == m && l.n == n && l.outcome == o
  }

  /** Loads one after another from the freshly created maps; no rollback is itself refused, and no epoch write fails. */
  ghost predicate LoadRun(maps: seq<Maps>, outcomes: seq<LoadOutcome>) {
    && |maps| == |outcomes| + 1 && maps[0] == FRESH_MAPS
    && forall i | 0 <= i < |outcomes| :: LoadedAt(maps, outcomes, i)
  }

  ghost predicate LoadedAt(maps: seq<Maps>, outcomes: seq<LoadOutcome>, i: nat)
    requires |maps| == |outcomes| + 1 && i < |outcomes|
  {
    Settled(outcomes[i]) && LoadStep(maps[i], maps[i + 1], outcomes[i])
  }

  function Successes(outcomes: seq<LoadOutcome>): nat {
    if outcomes == [] then 0
    else Successes(outcomes[..|outcomes| - 1]) + Tally(outcomes[|outcomes| - 1])
  }

  /** Hygienic, with epoch and generation counting `loads`. */
  ghost predicate Counted(m: Maps, loads: nat) {
    Hygienic(m) && m.epoch == EpochAfter(loads) && m.config.generation == GenerationAfter(loads)
  }

  function Tally(o: LoadOutcome): nat {
    if o.Loaded? then 1 else 0
  }

  /**
   At any point of any run of loads the maps are hygienic, and epoch and generation are closed forms
   of the number of successful loads so far.
   */
  lemma {:induction false} RunsStayHygienic(maps: seq<Maps>, outcomes: seq<LoadOutcome>, k: nat)
    requires LoadRun(maps, outcomes) && k <= |outcomes|
    ensures Counted(maps[k], Successes(outcomes[..k]))
  {
    if k == 0 {
      FreshIsCounted();
    } else {
      var j := k - 1;
      RunsStayHygienic(maps, outcomes, j);
      StepOfRun(maps, outcomes, j, Successes(outcomes[..j]));
      SuccessesStep(outcomes, j);
    }
  }

  /** No load of any run overflows the snapshot or finds an index full, and each reports the maps it leaves. */
  lemma RunsNeverOverflow(maps: seq<Maps>, outcomes: seq<LoadOutcome>, k: nat)
    requires LoadRun(maps, outcomes) && k < |outcomes|
    ensures StepFacts(maps[k], maps[k + 1], outcomes[k])
  {
    RunsStayHygienic(maps, outcomes, k);
    StepOfRun(maps, outcomes, k, Successes(outcomes[..k]));
  }

  lemma StepOfRun(maps: seq<Maps>, outcomes: seq<LoadOutcome>, k: nat, loads: nat)
    requires LoadRun(maps, outcomes) && k < |outcomes| && Counted(maps[k], loads)
    ensures StepFacts(maps[k], maps[k + 1], outcomes[k]) && Counted(maps[k + 1], loads + Tally(outcomes[k]))
  {
    assert LoadedAt(maps, outcomes, k);
    StepStaysHygienic(maps[k], maps[k + 1], outcomes[k]);
    StepCounts(maps[k], maps[k + 1], outcomes[k], loads);
  }

  lemma SuccessesStep(outcomes: seq<LoadOutcome>, k: nat)
    requires k < |outcomes|
    ensures Successes(outcomes[..k + 1]) == Successes(outcomes[..k]) + Tally(outcomes[k])
  {
    assert outcomes[..k + 1][..k] == outcomes[..k];
  }

  lemma FreshIsCounted()
    ensures Counted(FRESH_MAPS, 0)
  {
  }

  lemma StepCounts(m: Maps, n: Maps, o: LoadOutcome, loads: nat)
    requires StepFacts(m, n, o) && Counted(m, loads)
    ensures Counted(n, loads + Tally(o))
  {
  }

  /** What a settled load does to a hygienic system: no overflow, and the maps it reports, or nothing. */
  ghost predicate StepFacts(m: Maps, n: Maps, o: LoadOutcome) {
    && Hygienic(n) && !o.SnapshotOverflow? && !(o.RolledBack? && o.why.Full?)
    && if o.Loaded? then
         && n.epoch == NextEpoch(m.epoch) && n.config.generation == NextGeneration(m.config.generation)
         && Reports(o.result, n)
       else n == m
  }

  lemma StepStaysHygienic(m: Maps, n: Maps, o: LoadOutcome)
    requires LoadStep(m, n, o) && Hygienic(m) && Settled(o)
    ensures StepFacts(m, n, o)
  {
    if !(o.Rejected? && n == m) {
      var l :| LoadSpec(l) && l.m == m && l.n == n && l.outcome == o;
      LoadKeepsHygiene(l);
    }
  }

  // ---------------------------------------------------------------- the switch is atomic

  /** Before the config write nothing the load does changes a decision. */
  lemma BeforeTheFlip(l: Load, seen: Maps)
    requires LoadSpec(l) && SeenIn(l.h0, l.mid, l.m, seen)
    ensures Quiet(l.m, seen)
    ensures forall name :: CommandDecide(seen, Exec, name) == CommandDecide(l.m, Exec, name)
    ensures forall hook, path :: PathDecide(seen, hook, path) == PathDecide(l.m, hook, path)
    ensures forall hook, id :: ResourceDecide(seen, hook, id) == ResourceDecide(l.m, hook, id)
    ensures forall addr: U32, port: U16 :: NetworkDecide(seen, addr, port) == NetworkDecide(l.m, addr, port)
  {
    WindowIsQuiet(l.h0, l.mid, l.m, seen, l.c.generation);
    QuietKeepsAnswers(l.m, seen);
  }

  /** From the config write on, in every state of a successful load, the deciders serve the new rule list. */
  lemma AfterTheFlip(l: Load, seen: Maps)
    requires LoadSpec(l) && l.outcome.Loaded?
    requires SeenIn(l.mid, l.h1, Flipped(l.m, l.p, l.c), seen.(epoch := l.m.epoch))
    ensures Serves(seen, l.p.rules) && seen.config == l.c
  {
    InstalledServes(l.m, l.p, l.c);
    WindowIsQuiet(l.mid, l.h1, Flipped(l.m, l.p, l.c), seen.(epoch := l.m.epoch), l.m.config.generation);
  }

  /** The maps right after the epoch write. */
  function Bumped(l: Load): Maps
    requires |l.p.rules| <= MAX_RULES
  {
    Flipped(l.m, l.p, l.c).(epoch := NextEpoch(l.m.epoch))
  }

  function StageAll(states: seq<Maps>): (es: seq<Event>)
    ensures |es| == |states|
    ensures forall i | 0 <= i < |es| :: es[i] == Stage(states[i])
  {
    seq(|states|, i requires 0 <= i < |states| => Stage(states[i]))
  }

  lemma {:induction false} StagesPossible(s: State, m: Maps, states: seq<Maps>, rest: seq<Event>)
    requires s.prior.None? && Quiet(m, s.maps) && AllQuiet(m, states)
    ensures var last := if states == [] then s else s.(maps := states[|states| - 1]);
            && Run(s, StageAll(states) + rest) == Run(last, rest)
            && (PossibleRun(last, rest) ==> PossibleRun(s, StageAll(states) + rest))
    decreases |states|
  {
    if states == [] {
      assert StageAll(states) + rest == rest;
    } else {
      var es := StageAll(states) + rest;
      assert es[1..] == StageAll(states[1..]) + rest;
      StagesPossible(s.(maps := states[0]), m, states[1..], rest);
    }
  }

  /** Without a failing epoch write. */
  lemma QuietStages(env: Env, s: State, m: Maps, states: seq<Maps>, rest: seq<Event>)
    requires s.prior.None? && Quiet(m, s.maps) && AllQuiet(m, states)
    ensures var last := if states == [] then s else s.(maps := states[|states| - 1]);
            && Run(s, StageAll(states) + rest) == Run(last, rest)
            && (ForwardRun(env, last, rest) ==> ForwardRun(env, s, StageAll(states) + rest))
  {
    StagesPossible(s, m, states, rest);
    ForwardRunIff(env, if states == [] then s else s.(maps := states[|states| - 1]), rest);
    ForwardRunIff(env, s, StageAll(states) + rest);
  }

  /** The loader events of a successful load, whatever a hook could see in between. */
  function LoadEvents(l: Load, seen1: seq<Maps>, seen2: seq<Maps>): seq<Event>
    requires |l.p.rules| <= MAX_RULES
  {
    StageAll(seen1 + [Staged(l.m, l.p.rules, l.p.lists, l.c)]) + ([Flip(l.c), Bump] + StageAll(seen2 + [l.n]))
  }

  /** What hooks saw before the flip and after the bump. */
  ghost predicate Seen(l: Load, seen1: seq<Maps>, seen2: seq<Maps>)
    requires |l.p.rules| <= MAX_RULES
  {
    && (forall i | 0 <= i < |seen1| :: SeenIn(l.h0, l.mid, l.m, seen1[i]))
    && (forall i | 0 <= i < |seen2| :: SeenIn(l.mid, l.h1, Bumped(l), seen2[i]))
  }

  /**
   The loader follows the protocol: a successful load is a run of quiet steps, the flip, the bump and
   quiet steps, for every choice of states seen on the way.
   */
  lemma LoadFollowsProtocol(env: Env, s: State, l: Load, seen1: seq<Maps>, seen2: seq<Maps>)
    requires LoadSpec(l) && l.outcome.Loaded? && l.m == s.maps && s.prior.None? && Seen(l, seen1, seen2)
    ensures var es := LoadEvents(l, seen1, seen2);
            ForwardRun(env, s, es) && Run(s, es) == State(l.n, s.l1, None, s.loads + 1)
  {
    LoadStatesQuiet(l, seen1, seen2);
    ChainIsForward(env, s, seen1 + [Staged(l.m, l.p.rules, l.p.lists, l.c)], l.c, seen2 + [l.n]);
  }

  /** Every state of a successful load is quiet: against the start before the flip, against the bump after it. */
  lemma LoadStatesQuiet(l: Load, seen1: seq<Maps>, seen2: seq<Maps>)
    requires LoadSpec(l) && l.outcome.Loaded? && Seen(l, seen1, seen2)
    ensures AllQuiet(l.m, seen1 + [Staged(l.m, l.p.rules, l.p.lists, l.c)]) && AllQuiet(Bumped(l), seen2 + [l.n])
  {
    StagedAgrees(l.m, l.p, l.c);
    ClearedAgrees(Bumped(l), l.m.config.generation);
    AgreeOffIsQuiet(Bumped(l), l.n, l.m.config.generation);
    forall i | 0 <= i < |seen1| ensures Quiet(l.m, seen1[i]) {
      WindowIsQuiet(l.h0, l.mid, l.m, seen1[i], l.c.generation);
    }
    forall i | 0 <= i < |seen2| ensures Quiet(Bumped(l), seen2[i]) {
      WindowIsQuiet(l.mid, l.h1, Bumped(l), seen2[i], l.m.config.generation);
    }
  }

  ghost predicate AllQuiet(m: Maps, states: seq<Maps>) {
    forall i | 0 <= i < |states| :: Quiet(m, states[i])
  }

  /** Quiet steps, the flip, the bump, quiet steps. */
  lemma ChainIsForward(env: Env, s: State, states1: seq<Maps>, c: Config, states2: seq<Maps>)
    requires s.prior.None? && |states1| > 0 && |states2| > 0 && AllQuiet(s.maps, states1)
    requires AllQuiet(states1[|states1| - 1].(config := c, epoch := NextEpoch(s.maps.epoch)), states2)
    ensures var es := StageAll(states1) + ([Flip(c), Bump] + StageAll(states2));
            ForwardRun(env, s, es) && Run(s, es) == State(states2[|states2| - 1], s.l1, None, s.loads + 1)
  {
    var staged := states1[|states1| - 1];
    var after := StageAll(states2);
    assert Quiet(s.maps, staged);
    var bumped := staged.(config := c, epoch := NextEpoch(s.maps.epoch));
    QuietStages(env, State(bumped, s.l1, None, s.loads + 1), bumped, states2, []);
    assert after + [] == after;
    FlipAndBump(env, s.(maps := staged), c, after);
    QuietStages(env, s, s.maps, states1, [Flip(c), Bump] + after);
  }

  lemma FirstStep(s: State, e: Event, rest: seq<Event>)
    ensures Run(s, [e] + rest) == Run(Next(s, e), rest)
  {
    assert ([e] + rest)[1..] == rest;
  }

  lemma TwoSteps(s: State, e: Event, f: Event, rest: seq<Event>, t: State)
    requires t == Next(Next(s, e), f)
    ensures Run(s, [e, f] + rest) == Run(t, rest)
  {
    var es := [e, f] + rest;
    assert es == [e] + ([f] + rest);
    FirstStep(s, e, [f] + rest);
    FirstStep(Next(s, e), f, rest);
  }

  lemma FlipThenBump(s: State, c: Config, rest: seq<Event>)
    requires s.prior.None?
    ensures var bumped := s.maps.(config := c, epoch := NextEpoch(s.maps.epoch));
            Run(s, [Flip(c), Bump] + rest) == Run(State(bumped, s.l1, None, s.loads + 1), rest)
  {
    var bumped := s.maps.(config := c, epoch := NextEpoch(s.maps.epoch));
    TwoSteps(s, Flip(c), Bump, rest, State(bumped, s.l1, None, s.loads + 1));
  }

  lemma FlipAndBump(env: Env, s: State, c: Config, rest: seq<Event>)
    requires s.prior.None?
    ensures var bumped := s.maps.(config := c, epoch := NextEpoch(s.maps.epoch));
            var after := State(bumped, s.l1, None, s.loads + 1);
            && Run(s, [Flip(c), Bump] + rest) == Run(after, rest)
            && (ForwardRun(env, after, rest) ==> ForwardRun(env, s, [Flip(c), Bump] + rest))
  {
    FlipThenBump(s, c, rest);
    var es, flipped := [Flip(c), Bump] + rest, Next(s, Flip(c));
    var bumped := s.maps.(config := c, epoch := NextEpoch(s.maps.epoch));
    assert Next(flipped, Bump) == State(bumped, s.l1, None, s.loads + 1);
    assert es[1..] == [Bump] + rest && es[1..][1..] == rest;
    assert ForwardRun(env, Next(flipped, Bump), rest) ==> ForwardRun(env, flipped, es[1..]);
  }

  lemma ClearedAgrees(m: Maps, gen: U32)
    ensures AgreeOff(m, Cleared(m, gen), gen)
  {
    WithoutTwice(m.path, gen);
    WithoutTwice(m.command, gen);
    WithoutTwice(m.network, gen);
    WithoutTwice(m.resource, gen);
  }

  /** Staging a policy under the next generation is quiet. */
  lemma StagedAgrees(m: Maps, p: Parsed, c: Config)
    requires ParsedOk(p) && c.generation != m.config.generation
    ensures Quiet(m, Staged(m, p.rules, p.lists, c))
  {
    var staged := Staged(m, p.rules, p.lists, c);
    OffStaged(m.path, p.rules, c.generation, PathItem);
    OffStaged(m.command, p.rules, c.generation, CommandItem);
    OffStaged(m.network, p.rules, c.generation, NetworkItem);
    OffStaged(m.resource, p.rules, c.generation, ResourceItem);
    AgreeOffIsQuiet(m, staged, c.generation);
  }

  lemma OffStaged<T>(m: Index<T, Entry>, rs: seq<Rule>, gen: U32, item: Rule -> Option<T>)
    ensures Without(Without(m, gen) + Compiled(rs, gen, item), gen) == Without(m, gen)
  {
  }

  // ---------------------------------------------------------------- hooks in between

  predicate IsLoaderEvent(e: Event) {
    !e.HookCall? && !e.Evict?
  }

  function LoaderEvents(es: seq<Event>): seq<Event> {
    if es == [] then [] else (if IsLoaderEvent(es[0]) then [es[0]] else []) + LoaderEvents(es[1..])
  }

  lemma {:induction false} LoaderEventsKept(es: seq<Event>, i: nat)
    requires i < |es| && IsLoaderEvent(es[i])
    ensures es[i] in LoaderEvents(es)
  {
    if i > 0 {
      LoaderEventsKept(es[1..], i - 1);
    }
  }

  /** Hooks and evictions never stand in the loader's way: interleaving them keeps a run of loader steps possible. */
  lemma {:induction false} InterleavingIsPossible(s: State, t: State, es: seq<Event>)
    requires s == t.(l1 := s.l1) && PossibleRun(t, LoaderEvents(es))
    ensures PossibleRun(s, es) && Run(s, es) == Run(t, LoaderEvents(es)).(l1 := Run(s, es).l1)
    decreases |es|
  {
    if es != [] {
      var rest := LoaderEvents(es[1..]);
      if IsLoaderEvent(es[0]) {
        assert LoaderEvents(es)[1..] == rest;
        InterleavingIsPossible(Next(s, es[0]), Next(t, es[0]), es[1..]);
      } else {
        assert LoaderEvents(es) == rest;
        InterleavingIsPossible(Next(s, es[0]), t, es[1..]);
      }
    }
  }

  /** And a forward run forward. */
  lemma InterleavingIsForward(env: Env, s: State, t: State, es: seq<Event>)
    requires s == t.(l1 := s.l1)
    requires forall i | 0 <= i < |es| && es[i].HookCall? :: Conforms(env, es[i].call)
    requires ForwardRun(env, t, LoaderEvents(es))
    ensures ForwardRun(env, s, es)
    ensures Run(s, es) == Run(t, LoaderEvents(es)).(l1 := Run(s, es).l1)
  {
    ForwardRunIff(env, t, LoaderEvents(es));
    InterleavingIsPossible(s, t, es);
    forall i | 0 <= i < |es|
      ensures !es[i].Abort?
    {
      if IsLoaderEvent(es[i]) { LoaderEventsKept(es, i); }
    }
    ForwardRunIff(env, s, es);
  }

  /**
   The whole story of a reload under traffic: hooks and evictions interleaved in any way with a
   successful load from a coherent state leave a coherent state that serves the new rule list.
   */
  lemma ReloadUnderTraffic(env: Env, s: State, l: Load, seen1: seq<Maps>, seen2: seq<Maps>, es: seq<Event>)
    requires Inv(env, s) && NoZeroIds(s.l1) && s.prior.None? && s.loads < U64_MAX
    requires LoadSpec(l) && l.outcome.Loaded? && l.m == s.maps && Seen(l, seen1, seen2)
    requires LoaderEvents(es) == LoadEvents(l, seen1, seen2)
    requires forall i | 0 <= i < |es| && es[i].HookCall? :: Conforms(env, es[i].call)
    ensures var r := Run(s, es);
            Inv(env, r) && NoZeroIds(r.l1) && r.maps == l.n && r.prior.None? && Serves(r.maps, l.p.rules)
  {
    LoadFollowsProtocol(env, s, l, seen1, seen2);
    InterleavingIsForward(env, s, s, es);
    RunKeepsInv(env, s, es);
    InstalledServes(l.m, l.p, l.c);
  }

  // ---------------------------------------------------------------- scoping

  lemma ScopeLookup<K>(keys: seq<K>, written: Config, read: Config, selector: Selector, k: K)
    ensures InScope(Find(ScopeMap(keys, written, selector), k), read, selector)
       <==> k in keys && written.profileId == read.profileId && written.agentId == read.agentId
  {
  }

  /** After a successful load a process is in scope iff the mode is system-wide or a selector of the profile names
      it. */
  lemma ScopingIsExact(l: Load, t: Task)
    requires LoadSpec(l) && l.outcome.Loaded?
    ensures var lists := l.p.lists;
            ScopeMatches(l.n, t) <==>
              l.c.scopeMode == SystemWide || t.pid in lists.pids || t.tgid in lists.tgids || t.comm in lists.comms
    ensures |l.n.comms| <= MAX_SCOPES && |l.n.pids| <= MAX_SCOPES && |l.n.tgids| <= MAX_SCOPES
  {
    ScopeLookup(l.p.lists.comms, l.c, l.c, ByComm, t.comm);
    ScopeLookup(l.p.lists.pids, l.c, l.c, ByPid, t.pid);
    ScopeLookup(l.p.lists.tgids, l.c, l.c, ByTgid, t.tgid);
    ScopeMapSize(l.p.lists.comms, l.c, ByComm);
    ScopeMapSize(l.p.lists.pids, l.c, ByPid);
    ScopeMapSize(l.p.lists.tgids, l.c, ByTgid);
  }

  /**
   Scope maps are not keyed by generation: between the scope write and the flip the old config reads
   the new selectors, and finds any only if the profile and agent ids did not change.
   */
  lemma ScopingDuringStaging(m: Maps, p: Parsed, c: Config, t: Task)
    requires ParsedOk(p)
    ensures ScopeMatches(Staged(m, p.rules, p.lists, c), t) <==>
              || m.config.scopeMode == SystemWide
              || (c.profileId == m.config.profileId && c.agentId == m.config.agentId
                  && (t.pid in p.lists.pids || t.tgid in p.lists.tgids || t.comm in p.lists.comms))
  {
    ScopeLookup(p.lists.comms, c, m.config, ByComm, t.comm);
    ScopeLookup(p.lists.pids, c, m.config, ByPid, t.pid);
    ScopeLookup(p.lists.tgids, c, m.config, ByTgid, t.tgid);
  }

  // ---------------------------------------------------------------- a failed epoch write

  lemma RestoredSlice<T, V>(m: Index<T, V>, cur: Index<T, V>, prev: U32)
    ensures Slice(Without(cur, prev) + m, prev) == Slice(m, prev)
  {
  }

  /** Rolled back after a failed epoch write, every lookup of the restored generation is unchanged, whatever earlier
      failures left in the indexes. */
  lemma LeftOverIsQuiet(m: Maps, p: Parsed, c: Config)
    requires ParsedOk(p)
    ensures Quiet(m, LeftOver(m, p, c))
  {
    var flipped, prev := Flipped(m, p, c), m.config.generation;
    RestoredSlice(m.command, flipped.command, prev);
    RestoredSlice(m.network, flipped.network, prev);
    RestoredSlice(m.resource, flipped.resource, prev);
  }

  lemma RestoredKeys<T>(m: Index<T, Entry>, staged: Index<T, Entry>, prev: U32, gen: U32)
    requires prev != gen && OnlyGeneration(staged, gen)
    ensures Without(Without(m, gen) + staged, prev) + m == m <==> staged.Keys <= m.Keys
  {
    var left := Without(Without(m, gen) + staged, prev) + m;
    if left == m {
      forall k | k in staged.Keys
        ensures k in m.Keys
      {
        assert k in left;
      }
    }
    if staged.Keys <= m.Keys {
      assert left.Keys == m.Keys;
    }
  }

  /** A failed epoch write gives back the maps exactly when whatever it staged in the three indexes that are not cleared
      had its key there already. */
  lemma LeftOverIsExactIff(m: Maps, p: Parsed, c: Config)
    requires ParsedOk(p) && c.generation != m.config.generation
    ensures LeftOver(m, p, c) == m <==>
            && Compiled(p.rules, c.generation, CommandItem).Keys <= m.command.Keys
            && Compiled(p.rules, c.generation, NetworkItem).Keys <= m.network.Keys
            && Compiled(p.rules, c.generation, ResourceItem).Keys <= m.resource.Keys
  {
    var prev, gen := m.config.generation, c.generation;
    RestoredKeys(m.command, Compiled(p.rules, gen, CommandItem), prev, gen);
    RestoredKeys(m.network, Compiled(p.rules, gen, NetworkItem), prev, gen);
    RestoredKeys(m.resource, Compiled(p.rules, gen, ResourceItem), prev, gen);
    LeftOverFields(m, p, c);
  }

  lemma LeftOverFields(m: Maps, p: Parsed, c: Config)
    requires ParsedOk(p)
    ensures var rs, prev, gen := p.rules, m.config.generation, c.generation;
            LeftOver(m, p, c) ==
            m.(command := Without(Without(m.command, gen) + Compiled(rs, gen, CommandItem), prev) + m.command,
               network := Without(Without(m.network, gen) + Compiled(rs, gen, NetworkItem), prev) + m.network,
               resource := Without(Without(m.resource, gen) + Compiled(rs, gen, ResourceItem), prev) + m.resource)
  {
  }

  lemma NothingStagedIff<T(!new)>(m: Index<T, Entry>, rs: seq<Rule>, item: Rule -> Option<T>, prev: U32, gen: U32)
    requires prev != gen && OnlyGeneration(m, prev)
    ensures Compiled(rs, gen, item).Keys <= m.Keys <==> forall i | 0 <= i < |rs| :: item(rs[i]).None?
  {
    var staged := Compiled(rs, gen, item);
    forall i | 0 <= i < |rs| && item(rs[i]).Some?
      ensures !(staged.Keys <= m.Keys)
    {
      IndexesRule(rs, gen, item, i);
      assert Key(gen, item(rs[i]).value) in staged.Keys;
    }
    forall k | k in staged.Keys
      ensures exists i :: 0 <= i < |rs| && item(rs[i]).Some?
    {
      assert k == Key(gen, k.item);
      var i := IndexedByRule(rs, gen, item, k.item);
    }
  }

  /** From maps with only live entries: exactly when the rejected policy has only path rules, none of whose paths named
      an inode at load time. */
  lemma LeftOverIsExactIffOnlyPaths(m: Maps, p: Parsed, c: Config)
    requires ParsedOk(p) && Hygienic(m) && c.generation != m.config.generation
    ensures LeftOver(m, p, c) == m <==>
            forall i | 0 <= i < |p.rules| :: p.rules[i].kind == PathPrefix && p.rules[i].resourceId == 0
  {
    var prev, gen := m.config.generation, c.generation;
    LeftOverIsExactIff(m, p, c);
    NothingStagedIff(m.command, p.rules, CommandItem, prev, gen);
    NothingStagedIff(m.network, p.rules, NetworkItem, prev, gen);
    NothingStagedIff(m.resource, p.rules, ResourceItem, prev, gen);
    NoItemsIff(p.rules);
  }

  lemma NoItemsIff(rs: seq<Rule>)
    ensures (&& (forall i | 0 <= i < |rs| :: CommandItem(rs[i]).None?)
             && (forall i | 0 <= i < |rs| :: NetworkItem(rs[i]).None?)
             && (forall i | 0 <= i < |rs| :: ResourceItem(rs[i]).None?)) <==>
            forall i | 0 <= i < |rs| :: rs[i].kind == PathPrefix && rs[i].resourceId == 0
  {
    forall i | 0 <= i < |rs|
      ensures CommandItem(rs[i]).None? && NetworkItem(rs[i]).None? && ResourceItem(rs[i]).None? <==>
              rs[i].kind == PathPrefix && rs[i].resourceId == 0
    {
    }
  }

  lemma KeysLeft<T>(m: Index<T, Entry>, staged: Index<T, Entry>, prev: U32, gen: U32)
    requires prev != gen && OnlyGeneration(staged, gen)
    ensures (Without(Without(m, gen) + staged, prev) + m).Keys == m.Keys + staged.Keys
  {
  }

  /** What a failed epoch write leaves: in three of the four indexes the keys there were and the keys staged, whatever
      earlier failures left. */
  lemma LeftOverKeys(m: Maps, p: Parsed, c: Config)
    requires ParsedOk(p) && c.generation != m.config.generation
    ensures var left := LeftOver(m, p, c);
            && left == m.(command := left.command, network := left.network, resource := left.resource)
            && left.command.Keys == m.command.Keys + Compiled(p.rules, c.generation, CommandItem).Keys
            && left.network.Keys == m.network.Keys + Compiled(p.rules, c.generation, NetworkItem).Keys
            && left.resource.Keys == m.resource.Keys + Compiled(p.rules, c.generation, ResourceItem).Keys
  {
    var prev, gen := m.config.generation, c.generation;
    LeftOverFields(m, p, c);
    KeysLeft(m.command, Compiled(p.rules, gen, CommandItem), prev, gen);
    KeysLeft(m.network, Compiled(p.rules, gen, NetworkItem), prev, gen);
    KeysLeft(m.resource, Compiled(p.rules, gen, ResourceItem), prev, gen);
  }

  /** The keys there are and the keys staged fit a snapshot array together. */
  ghost predicate BothFit(m: Maps, p: Parsed, gen: U32) {
    && |m.command.Keys + Compiled(p.rules, gen, CommandItem).Keys| <= MAX_RULES
    && |m.network.Keys + Compiled(p.rules, gen, NetworkItem).Keys| <= MAX_RULES
    && |m.resource.Keys + Compiled(p.rules, gen, ResourceItem).Keys| <= MAX_RULES
  }

  /** What was staged stays behind; the next snapshot fits exactly when it fits together with what was there. */
  lemma LeftOverBlocksSnapshot(m: Maps, p: Parsed, c: Config)
    requires ParsedOk(p) && FitsSnapshot(m) && c.generation != m.config.generation
    ensures FitsSnapshot(LeftOver(m, p, c)) <==> BothFit(m, p, c.generation)
  {
    LeftOverKeys(m, p, c);
  }

  /** The same policy failing again leaves nothing more. */
  lemma RetryLeavesNothingMore(m: Maps, p: Parsed, c: Config)
    requires ParsedOk(p) && c.generation != m.config.generation
    ensures LeftOver(LeftOver(m, p, c), p, c) == LeftOver(m, p, c)
  {
    LeftOverKeys(m, p, c);
    LeftOverIsExactIff(LeftOver(m, p, c), p, c);
  }

  /** Loads one after another from `maps[0]`, whatever their outcomes. */
  ghost predicate Loads(maps: seq<Maps>, outcomes: seq<LoadOutcome>) {
    && |maps| == |outcomes| + 1
    && forall i | 0 <= i < |outcomes| :: LoadStep(maps[i], maps[i + 1], outcomes[i])
  }

  /** From maps that do not fit the snapshot arrays no load ever succeeds, nor changes anything. */
  lemma {:induction false} OverfullBlocksEveryLoad(maps: seq<Maps>, outcomes: seq<LoadOutcome>, k: nat)
    requires Loads(maps, outcomes) && !FitsSnapshot(maps[0]) && k <= |outcomes|
    ensures maps[k] == maps[0]
    ensures k < |outcomes| ==> outcomes[k].Rejected? || outcomes[k].SnapshotOverflow?
  {
    if k > 0 {
      OverfullBlocksEveryLoad(maps, outcomes, k - 1);
      assert LoadStep(maps[k - 1], maps[k], outcomes[k - 1]);
    }
    if k < |outcomes| {
      assert LoadStep(maps[k], maps[k + 1], outcomes[k]);
    }
  }

  /** A failed epoch write makes every later load fail when what it staged does not fit together with what was there. */
  lemma LeftOverBlocksEveryLoad(m: Maps, p: Parsed, c: Config, maps: seq<Maps>, outcomes: seq<LoadOutcome>, k: nat)
    requires ParsedOk(p) && c.generation != m.config.generation && !BothFit(m, p, c.generation)
    requires Loads(maps, outcomes) && maps[0] == LeftOver(m, p, c) && k <= |outcomes|
    ensures maps[k] == LeftOver(m, p, c)
    ensures k < |outcomes| ==> outcomes[k].Rejected? || outcomes[k].SnapshotOverflow?
  {
    LeftOverKeys(m, p, c);
    OverfullBlocksEveryLoad(maps, outcomes, k);
  }

  /** `n` command rules, with values from `first` on. */
  function Commands(first: nat, n: nat): (rs: seq<Rule>)
    requires 0 < first && first + n <= 256 && n <= MAX_RULES
    ensures |rs| == n && Accepted(rs)
    ensures forall i | 0 <= i < n :: rs[i].kind == CommandPrefix && rs[i].value == [first + i] && rs[i].resourceId == 0
  {
    if n == 0 then []
    else Commands(first, n - 1) + [Rule(true, n, CommandPrefix, DENY, {Exec}, 0, 0, 0, 0, [first + n - 1])]
  }

  predicate OneByte(k: Key<Bytes>, first: nat, last: int) {
    |k.item| == 1 && first <= k.item[0] <= last
  }

  lemma OneByteMore(m: Index<Bytes, Entry>, k: Key<Bytes>, e: Entry, first: nat, last: nat)
    requires first <= last && |k.item| == 1 && k.item[0] == last
    requires forall h :: h in m ==> OneByte(h, first, last - 1)
    ensures |m[k := e]| == |m| + 1 && forall h :: h in m[k := e] ==> OneByte(h, first, last)
  {
    assert !OneByte(k, first, last - 1) && m[k := e].Keys == m.Keys + {k};
  }

  lemma CommandsStep(first: nat, n: nat, gen: U32)
    requires 0 < first && first + n <= 256 && 0 < n <= MAX_RULES
    ensures var rs, last: Bytes := Commands(first, n), [first + n - 1];
            Compiled(rs, gen, CommandItem) ==
            Compiled(Commands(first, n - 1), gen, CommandItem)[Key(gen, last) := EntryOf(rs[n - 1])]
  {
    var rs := Commands(first, n);
    assert rs[..n - 1] == Commands(first, n - 1);
    assert CommandItem(rs[n - 1]) == Some([first + n - 1]);
  }

  lemma {:induction false} CommandsCompiled(first: nat, n: nat, gen: U32)
    requires 0 < first && first + n <= 256 && n <= MAX_RULES
    ensures var index := Compiled(Commands(first, n), gen, CommandItem);
            |index| == n && forall k :: k in index ==> OneByte(k, first, first + n - 1)
  {
    if n > 0 {
      CommandsCompiled(first, n - 1, gen);
      CommandsStep(first, n, gen);
      OneByteMore(Compiled(Commands(first, n - 1), gen, CommandItem), Key(gen, [first + n - 1]),
                  EntryOf(Commands(first, n)[n - 1]), first, first + n - 1);
    }
  }

  lemma DisjointSize<K>(a: set<K>, b: set<K>)
    requires a !! b
    ensures |a + b| == |a| + |b|
  {
  }

  /** `n` commands live and `n` more staged. */
  lemma CommandsOfTwoGenerations(n: nat)
    requires n <= MAX_RULES
    ensures |Compiled(Commands(1, n), 1, CommandItem)| == n
    ensures |Compiled(Commands(1, n), 1, CommandItem).Keys + Compiled(Commands(1, n), 2, CommandItem).Keys| == 2 * n
  {
    CommandsCompiled(1, n, 1);
    CommandsCompiled(1, n, 2);
    DisjointSize(Compiled(Commands(1, n), 1, CommandItem).Keys, Compiled(Commands(1, n), 2, CommandItem).Keys);
  }

  /** Such inputs exist: `n` command rules are live, `n` more are staged, and more than half of the array is `n`. */
  lemma SomeFailureBlocksEveryLoad(m: Maps, p: Parsed, n: nat)
    requires 16 < n <= MAX_RULES && ParsedOk(p) && p.rules == Commands(1, n)
    requires m == FRESH_MAPS.(config := FRESH_MAPS.config.(generation := 1),
                              command := Compiled(Commands(1, n), 1, CommandItem))
    ensures Hygienic(m) && !FitsSnapshot(LeftOver(m, p, p.config.(generation := 2)))
  {
    CommandsOfTwoGenerations(n);
    LeftOverBlocksSnapshot(m, p, p.config.(generation := 2));
  }

  /** `n` commands staged and `n` others. */
  lemma CommandsOfTwoPolicies(n: nat)
    requires n <= MAX_RULES
    ensures var one, two := Compiled(Commands(1, n), 2, CommandItem), Compiled(Commands(n + 1, n), 2, CommandItem);
            |one| == |two| == n && |one.Keys + two.Keys| == 2 * n
  {
    CommandsCompiled(1, n, 2);
    CommandsCompiled(n + 1, n, 2);
    assert forall k :: OneByte(k, 1, n) ==> !OneByte(k, n + 1, 2 * n);
    DisjointSize(Compiled(Commands(1, n), 2, CommandItem).Keys, Compiled(Commands(n + 1, n), 2, CommandItem).Keys);
  }

  lemma {:induction false} OnlyCommands(rs: seq<Rule>, gen: U32)
    requires forall i | 0 <= i < |rs| :: rs[i].kind == CommandPrefix && rs[i].resourceId == 0
    ensures Compiled(rs, gen, NetworkItem) == map[] && Compiled(rs, gen, ResourceItem) == map[]
  {
    if rs != [] { OnlyCommands(rs[..|rs| - 1], gen); }
  }

  /** A rejected policy of commands only, where no index held anything. */
  lemma CommandsLeft(m: Maps, p: Parsed, c: Config)
    requires ParsedOk(p) && FitsSnapshot(m) && c.generation != m.config.generation
    requires m.command == map[] && m.network == map[] && m.resource == map[]
    requires forall i | 0 <= i < |p.rules| :: p.rules[i].kind == CommandPrefix && p.rules[i].resourceId == 0
    ensures var left := LeftOver(m, p, c);
            FitsSnapshot(left) && left.config == m.config
            && left.command.Keys == Compiled(p.rules, c.generation, CommandItem).Keys
  {
    LeftOverKeys(m, p, c);
    LeftOverBlocksSnapshot(m, p, c);
    OnlyCommands(p.rules, c.generation);
    assert m.command.Keys + Compiled(p.rules, c.generation, CommandItem).Keys ==
           Compiled(p.rules, c.generation, CommandItem).Keys;
  }

  /** Failures add up: two policies of `n` commands each, either of which fits when its epoch write fails, and which
      together block every later load. */
  lemma TwoFailuresBlockEveryLoad(m: Maps, p: Parsed, q: Parsed, n: nat)
    requires 16 < n <= MAX_RULES && m == FRESH_MAPS.(config := FRESH_MAPS.config.(generation := 1))
    requires ParsedOk(p) && p.rules == Commands(1, n) && ParsedOk(q) && q.rules == Commands(n + 1, n)
    ensures var c, d := p.config.(generation := 2), q.config.(generation := 2);
            && Hygienic(m) && FitsSnapshot(LeftOver(m, p, c)) && FitsSnapshot(LeftOver(m, q, d))
            && !FitsSnapshot(LeftOver(LeftOver(m, p, c), q, d))
  {
    var c, d := p.config.(generation := 2), q.config.(generation := 2);
    CommandsOfTwoPolicies(n);
    CommandsLeft(m, p, c);
    CommandsLeft(m, q, d);
    LeftOverBlocksSnapshot(LeftOver(m, p, c), q, d);
  }
}
