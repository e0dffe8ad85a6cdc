/** `mcp_policy_load_dir`: one policy load, and what any sequence of loads keeps. */
module Loader {
  import opened Common
  import opened Lpm
  import opened Policy
  import opened Compile
  import opened Rules
  import opened BpfMap
  import opened Kernel
  import Protocol

  datatype PolicyFlag = SkipDirRead | CacheFollowups | DenyTailcallFail | SkipL2Safe

  /** What `load_config_file` finds in default_policy.json: whether the flags it lists are all known, which ones it
      lists, and the single fields that are there. */
  datatype Settings = Settings(flagsKnown: bool, listed: set<PolicyFlag>,
                               defaultAction: Option<U32>, enforce: Option<bool>, auditAllowed: Option<bool>,
                               skipDirRead: Option<bool>, cacheFollowups: Option<bool>,
                               denyTailcallFail: Option<bool>, skipL2Safe: Option<bool>)

  datatype PolicyDir = PolicyDir(settings: Settings, profile: Profile,
                                 paths: seq<RuleSpec>, commands: seq<RuleSpec>, network: seq<RuleSpec>)

  ghost predicate WellShapedDir(d: PolicyDir) {
    && (d.settings.defaultAction.Some? ==> d.settings.defaultAction.value in {ALLOW, DENY, AUDIT})
    && forall s | s in d.paths + d.commands + d.network :: WellShaped(s)
  }

  /** A parsed policy; the generation is chosen later. */
  datatype Parsed = Parsed(config: Config, lists: ScopeLists, rules: seq<Rule>)

  ghost predicate ParsedOk(p: Parsed) {
    && Accepted(p.rules) && p.config.ruleCount == |p.rules|
    && ActionValid(p.config.defaultAction)
    && |p.lists.comms| <= MAX_SCOPES && |p.lists.pids| <= MAX_SCOPES && |p.lists.tgids| <= MAX_SCOPES
  }

  /** What `mcp_policy_load_dir` starts from. */
  const INITIAL_CONFIG := Config(ALLOW, true, false, 0, true, true, true, false, 0, 1, 1, SystemWide, 0)

  function Given<T>(field: Option<T>, otherwise: T): T {
    if field.Some? then field.value else otherwise
  }

  /** `load_config_file`: single fields override, listed flags add, single flags have the last word. */
  function BaseConfig(s: Settings): Config {
    var c := INITIAL_CONFIG;
    c.(defaultAction := Given(s.defaultAction, c.defaultAction),
       enforce := Given(s.enforce, c.enforce),
       auditAllowed := Given(s.auditAllowed, c.auditAllowed),
       skipDirRead := Given(s.skipDirRead, c.skipDirRead || SkipDirRead in s.listed),
       cacheFollowups := Given(s.cacheFollowups, c.cacheFollowups || CacheFollowups in s.listed),
       denyTailcallFail := Given(s.denyTailcallFail, c.denyTailcallFail || DenyTailcallFail in s.listed),
       skipL2Safe := Given(s.skipL2Safe, c.skipL2Safe || SkipL2Safe in s.listed))
  }

  /** The config has the directory's settings: enforcing, allowing by default, with every flag but the last, where the
      directory does not say otherwise. */
  ghost predicate AsSettled(s: Settings, c: Config) {
    && c.defaultAction == (if s.defaultAction.Some? then s.defaultAction.value else ALLOW)
    && (c.enforce <==> s.enforce != Some(false))
    && (c.auditAllowed <==> s.auditAllowed == Some(true))
    && (c.skipDirRead <==> s.skipDirRead != Some(false))
    && (c.cacheFollowups <==> s.cacheFollowups != Some(false))
    && (c.denyTailcallFail <==> s.denyTailcallFail != Some(false))
    && (c.skipL2Safe <==> s.skipL2Safe == Some(true) || (s.skipL2Safe.None? && SkipL2Safe in s.listed))
  }

  /** The config has the profile's ids and mode, 1 and system-wide where it names none, and counts the selectors. */
  ghost predicate AsProfiled(p: Profile, lists: ScopeLists, c: Config) {
    && c.profileId == (if p.profileId.Some? then p.profileId.value else 1)
    && c.agentId == (if p.agentId.Some? then p.agentId.value else 1)
    && (c.scopeMode == Scoped <==> p.mode == ScopedMode)
    && c.scopeCount == |lists.comms| + |lists.pids| + |lists.tgids|
  }

  /** What a directory puts in force, generation aside. */
  ghost predicate AsDirected(d: PolicyDir, p: Parsed, c: Config) {
    AsSettled(d.settings, c) && AsProfiled(d.profile, p.lists, c) && c.ruleCount == |p.rules|
  }

  lemma ParsedAsDirected(d: PolicyDir)
    requires ParsedDir(d).Ok?
    ensures AsDirected(d, ParsedDir(d).value, ParsedDir(d).value.config)
  {
  }

  /** The rules of the three files, in order, or the first error. */
  function AllRules(d: PolicyDir): Result<seq<Rule>> {
    var paths := Appended([], d.paths, PathPrefix);
    if paths.Err? then paths
    else
      var commands := Appended(paths.value, d.commands, CommandPrefix);
      if commands.Err? then commands else Appended(commands.value, d.network, Ipv4Connect)
  }

  /** A policy directory parsed: settings, profile, then the three rule files in order; or the first error. */
  function ParsedDir(d: PolicyDir): Result<Parsed> {
    if !d.settings.flagsKnown then Err(EINVAL)
    else
      var profile := ProfileResult(d.profile, BaseConfig(d.settings));
      if profile.Err? then Err(profile.errno)
      else
        var rules := AllRules(d);
        if rules.Err? then Err(rules.errno)
        else Ok(Parsed(profile.value.0.(ruleCount := |rules.value|), profile.value.1, rules.value))
  }

  /** The parsing half. */
  method Parse(d: PolicyDir) returns (r: Result<Parsed>)
    requires WellShapedDir(d)
    ensures r == ParsedDir(d)
    ensures r.Ok? ==> ParsedOk(r.value)
  {
    if !d.settings.flagsKnown { return Err(EINVAL); }
    var profile := LoadProfile(d.profile, BaseConfig(d.settings));
    if profile.Err? { return Err(profile.errno); }
    assert forall i | 0 <= i < |d.paths| :: d.paths[i] in d.paths + d.commands + d.network;
    var paths := LoadRuleFile(d.paths, PathPrefix, []);
    if paths.Err? { return Err(paths.errno); }
    assert forall i | 0 <= i < |d.commands| :: d.commands[i] in d.paths + d.commands + d.network;
    var commands := LoadRuleFile(d.commands, CommandPrefix, paths.value);
    if commands.Err? { return Err(commands.errno); }
    assert forall i | 0 <= i < |d.network| :: d.network[i] in d.paths + d.commands + d.network;
    var rules := LoadRuleFile(d.network, Ipv4Connect, commands.value);
    if rules.Err? { return Err(rules.errno); }
    return Ok(Parsed(profile.value.0.(ruleCount := |rules.value|), profile.value.1, rules.value));
  }

  /** The generation after `gen`, in 32-bit arithmetic; zero is skipped. */
  function NextGeneration(gen: U32): (next: U32)
    ensures next != gen && next != 0
  {
    if gen == U32_MAX then 1 else gen + 1
  }

  datatype LoadResult = LoadResult(ruleCount: U32, generation: U32, profileId: U32, agentId: U32,
                                   scopeMode: ScopeMode, scopeCount: U32, epoch: U64)

  /** `rollback` is the first failure of the rollback itself, if it has one. */
  datatype LoadOutcome =
    | Rejected(errno: Errno)
    | SnapshotOverflow
    | RolledBack(point: Point, why: Update, rollback: Update)
    | EpochWriteFailed(rollback: Update)
    | Loaded(result: LoadResult)

  /** The maps right after the config write. */
  function Flipped(m: Maps, p: Parsed, c: Config): Maps
    requires |p.rules| <= MAX_RULES
  {
    Staged(m, p.rules, p.lists, c).(config := c)
  }

  /** The maps once the epoch is bumped and the previous generation is cleared. */
  function Finished(m: Maps, p: Parsed, c: Config): Maps
    requires |p.rules| <= MAX_RULES
  {
    Cleared(Flipped(m, p, c).(epoch := Protocol.NextEpoch(m.epoch)), m.config.generation)
  }

  /** The maps after a failed epoch write: rolled back without clearing what was staged. */
  function LeftOver(m: Maps, p: Parsed, c: Config): Maps
    requires |p.rules| <= MAX_RULES
  {
    Restored(Flipped(m, p, c), m)
  }

  // ---------------------------------------------------------------- rollback is exact

  lemma OverlayIsExact<T, V>(m: Index<T, V>, cur: Index<T, V>, staged: U32, gen: U32)
    requires cur == Without(m, staged)
    ensures Without(cur, gen) + m == m
  {
  }

  /** From `start` on, staging under `gen` stopped at `point`. */
  ghost predicate HalfStaged(start: Maps, cur: Maps, point: Point, gen: U32) {
    && AgreeOff(start, cur, gen)
    && (point.AtPath? ==> cur.command == start.command)
    && (point.AtPath? || point.AtCommand? ==> cur.network == start.network)
    && (point.AtPath? || point.AtCommand? || point.AtNetwork? ==> cur.resource == start.resource)
  }

  /** Rule table and scope maps aside, the maps are the same. */
  predicate SameIndexes(m: Maps, n: Maps) {
    n == m.(rules := n.rules, comms := n.comms, pids := n.pids, tgids := n.tgids)
  }

  /** A failure behind the indexes. */
  lemma SameIndexesHalfStaged(start: Maps, staged: Maps, cur: Maps, point: Point, gen: U32)
    requires AgreeOff(start, staged, gen) && SameIndexes(staged, cur) && point in {AtRules, AtScopes, AtConfig}
    ensures HalfStaged(start, cur, point, gen)
  {
  }

  /** Whatever failed, unstaging and a complete restore give back the maps as they were. */
  lemma RollbackIsExact(m: Maps, cur: Maps, point: Point, gen: U32)
    requires HalfStaged(Cleared(m, gen), cur, point, gen)
    ensures Restored(Unstaged(cur, point, gen), m) == m
  {
    WithoutTwice(m.command, gen);
    WithoutTwice(m.network, gen);
    WithoutTwice(m.resource, gen);
    var u := Unstaged(cur, point, gen);
    OverlayIsExact(m.command, u.command, gen, m.config.generation);
    OverlayIsExact(m.network, u.network, gen, m.config.generation);
    OverlayIsExact(m.resource, u.resource, gen, m.config.generation);
  }

  lemma KeysOfFailure<T, V>(m: Index<T, V>, u: Index<T, V>, staged: U32, gen: U32)
    requires |m| <= MAX_RULES && u == Without(m, staged)
    ensures |Without(u, gen).Keys + m.Keys| <= INDEX_CAPACITY
  {
    assert Without(u, gen).Keys + m.Keys == m.Keys;
  }

  /** From maps that fit the snapshot no rollback finds a map full: after a failure before the config write, */
  lemma RoomAfterFailure(m: Maps, cur: Maps, point: Point, gen: U32)
    requires HalfStaged(Cleared(m, gen), cur, point, gen) && FitsSnapshot(m)
    ensures RoomToRestore(Unstaged(cur, point, gen), m)
  {
    WithoutTwice(m.command, gen);
    WithoutTwice(m.network, gen);
    WithoutTwice(m.resource, gen);
    var u := Unstaged(cur, point, gen);
    KeysOfFailure(m.command, u.command, gen, m.config.generation);
    KeysOfFailure(m.network, u.network, gen, m.config.generation);
    KeysOfFailure(m.resource, u.resource, gen, m.config.generation);
  }

  lemma KeysOfFlip<T>(m: Index<T, Entry>, rs: seq<Rule>, item: Rule -> Option<T>, prev: U32, gen: U32)
    requires |m| <= MAX_RULES && |rs| <= MAX_RULES
    ensures |Without(Without(m, gen) + Compiled(rs, gen, item), prev).Keys + m.Keys| <= INDEX_CAPACITY
  {
    var staged := Compiled(rs, gen, item);
    SubsetSize(Without(Without(m, gen) + staged, prev).Keys + m.Keys, staged.Keys + m.Keys);
    assert |staged.Keys + m.Keys| <= |staged.Keys| + |m.Keys|;
  }

  /** and after a failed epoch write. */
  lemma RoomAfterFlip(m: Maps, p: Parsed, c: Config)
    requires ParsedOk(p) && FitsSnapshot(m)
    ensures RoomToRestore(Flipped(m, p, c), m)
  {
    var prev, gen := m.config.generation, c.generation;
    KeysOfFlip(m.command, p.rules, CommandItem, prev, gen);
    KeysOfFlip(m.network, p.rules, NetworkItem, prev, gen);
    KeysOfFlip(m.resource, p.rules, ResourceItem, prev, gen);
  }

  // ---------------------------------------------------------------- the load

  /** Clearing and staging of the four indexes. */
  method StageIndexes(k: Kernel, rs: seq<Rule>, gen: U32) returns (failed: Option<Point>, why: Update)
    requires k.Valid()
    modifies k.path, k.command, k.network, k.resource
    ensures k.Valid() && Window(old(k.H()), k.H(), old(k.M()), gen)
    ensures k.S() == old(k.S()) && ScopesOf(k.M()) == ScopesOf(old(k.M()))
    ensures failed.None? ==> k.M() == WithCompiled(Cleared(old(k.M()), gen), rs, gen)
    ensures failed.Some? ==> !why.Done? && failed.value in {AtPath, AtCommand, AtNetwork, AtResource}
    ensures failed.Some? && why.Full? ==> !Roomy(Cleared(old(k.M()), gen), |rs|)
    ensures AgreeOff(Cleared(old(k.M()), gen), k.M(), gen)
    ensures failed.Some? ==> HalfStaged(Cleared(old(k.M()), gen), k.M(), failed.value, gen)
  {
    ghost var m0, h0 := k.M(), k.H();
    k.ClearIndexes(gen);
    ghost var h1 := k.H();
    failed, why := k.WriteIndexes(rs, gen);
    WindowsJoin(m0, h0, h1, k.H(), gen);
  }

  /** Clearing and staging, up to and including the config write. */
  method StageAndFlip(k: Kernel, p: Parsed, c: Config)
    returns (failed: Option<Point>, why: Update, ghost tr: ScopeTrace)
    requires k.Valid() && ParsedOk(p)
    modifies k, k.path, k.command, k.network, k.resource, k.comms, k.pids, k.tgids
    ensures k.Valid() && k.epoch == old(k.epoch)
    ensures Window(old(k.H()), k.H(), old(k.M()), c.generation)
    ensures failed.None? ==> k.M() == Flipped(old(k.M()), p, c)
    ensures failed.Some? ==> !why.Done?
    ensures failed.Some? && why.Full? ==> !Roomy(Cleared(old(k.M()), c.generation), |p.rules|)
    ensures failed.Some? ==> HalfStaged(Cleared(old(k.M()), c.generation), k.M(), failed.value, c.generation)
    ensures tr.start == old(k.S()) && tr.end == k.S()
    ensures Traced(ScopesOf(old(k.M())), NewScopes(p.lists, c), tr, PassesScopes(failed))
  {
    ghost var m0 := k.M();
    tr := ScopeTrace(k.S(), k.S(), k.S());
    failed, why := StageIndexes(k, p.rules, c.generation);
    if failed.None? {
      ghost var staged := k.M();
      failed, why, tr := FlipTables(k, p, c);
      if failed.Some? {
        SameIndexesHalfStaged(Cleared(m0, c.generation), staged, k.M(), failed.value, c.generation);
      }
    }
  }

  /** The staging gets as far as emptying the scope maps. */
  predicate PassesScopes(failed: Option<Point>) {
    failed.None? || failed.value == AtScopes || failed.value == AtConfig
  }

  lemma WindowsJoin(m: Maps, h0: Histories, h1: Histories, h2: Histories, gen: U32)
    requires Window(h0, h1, m, gen) && Window(h1, h2, Cleared(m, gen), gen)
    ensures Window(h0, h2, m, gen)
  {
    WithoutTwice(m.path, gen);
    WithoutTwice(m.command, gen);
    WithoutTwice(m.network, gen);
    WithoutTwice(m.resource, gen);
  }

  /** The rule table, the scope maps and the config. */
  method FlipTables(k: Kernel, p: Parsed, c: Config)
    returns (failed: Option<Point>, why: Update, ghost tr: ScopeTrace)
    requires k.Valid() && ParsedOk(p)
    modifies k`rules, k`config, k.comms, k.pids, k.tgids
    ensures k.Valid()
    ensures failed.None? ==> k.M() == WithScopes(old(k.M()).(rules := RuleTable(p.rules)), p.lists, c).(config := c)
    ensures failed.Some? ==> failed.value in {AtRules, AtScopes, AtConfig} && why.Refused?
    ensures failed.Some? ==> SameIndexes(old(k.M()), k.M())
    ensures k.H() == old(k.H())
    ensures tr.start == old(k.S()) && tr.end == k.S()
    ensures Traced(ScopesOf(old(k.M())), NewScopes(p.lists, c), tr, PassesScopes(failed))
  {
    tr := ScopeTrace(k.S(), k.S(), k.S());
    var ok := k.WriteRules(RuleTable(p.rules), true);
    if !ok { return Some(AtRules), Refused, tr; }
    ghost var m1 := k.M();
    ghost var empty: ScopeHistories;
    why, empty := k.WriteScopeMaps(p.lists, c);
    tr := ScopeTrace(tr.start, empty, k.S());
    if !why.Done? { return Some(AtScopes), why, tr; }
    ghost var m2 := k.M();
    ok := k.UpdateConfig(c);
    assert k.M() == m2.(config := k.config);
    return if ok then None else Some(AtConfig), if ok then Done else Refused, tr;
  }

  /** A failure branch: clear what was staged so far, then restore the snapshot. */
  method Recover(k: Kernel, s: Snapshot, point: Point, gen: U32) returns (r: Update)
    requires k.Valid() && |s.rules| == MAX_RULES
    modifies k, k.path, k.command, k.network, k.resource, k.comms, k.pids, k.tgids
    ensures k.Valid()
    ensures r.Done? ==> k.M() == Restored(Unstaged(old(k.M()), point, gen), Remembered(s, old(k.epoch)))
    ensures r.Full? ==> !RoomToRestore(Unstaged(old(k.M()), point, gen), Remembered(s, old(k.epoch)))
  {
    k.Unstage(point, gen);
    r := k.Restore(s);
  }

  /**
   One load: the maps before and after it, its outcome, the parsed policy, its config with the next
   generation, and the histories of the indexes at the start, at the config write (or at the
   failure), and at the end.
   */
  datatype Load = Load(m: Maps, n: Maps, outcome: LoadOutcome, p: Parsed, c: Config,
                       h0: Histories, mid: Histories, h1: Histories)

  /** What snapshot and validation let through: maps that fit the snapshot arrays, nonzero profile and agent ids. */
  predicate Admitted(m: Maps, c: Config) {
    FitsSnapshot(m) && c.profileId != 0 && c.agentId != 0
  }

  ghost predicate LoadSpec(l: Load) {
    && ParsedOk(l.p)
    && l.c == l.p.config.(generation := NextGeneration(l.m.config.generation))
    && Window(l.h0, l.mid, l.m, l.c.generation)
    && match l.outcome
       case SnapshotOverflow => l.n == l.m && !FitsSnapshot(l.m)
       case Rejected(errno) => l.n == l.m && errno == EINVAL && FitsSnapshot(l.m) && !Admitted(l.m, l.c)
       case RolledBack(_, why, rollback) =>
         && Admitted(l.m, l.c)
         && !why.Done? && (rollback.Done? ==> l.n == l.m) && !rollback.Full?
         && (why.Full? ==> !Roomy(Cleared(l.m, l.c.generation), |l.p.rules|))
       case EpochWriteFailed(rollback) =>
         && Admitted(l.m, l.c)
         && (rollback.Done? ==> l.n == LeftOver(l.m, l.p, l.c)) && !rollback.Full?
       case Loaded(result) =>
         && Admitted(l.m, l.c)
         && l.n == Finished(l.m, l.p, l.c)
         && Window(l.mid, l.h1, Flipped(l.m, l.p, l.c), l.m.config.generation)
         && result == Report(l.n)
  }

  /** The load gets as far as emptying the scope maps. */
  predicate Reaches(o: LoadOutcome) {
    match o
    case RolledBack(point, _, _) => PassesScopes(Some(point))
    case EpochWriteFailed(_) => true
    case Loaded(_) => true
    case _ => false
  }

  /** What happens to the scope maps from the start of a load to its config write, or to its failure before that. */
  ghost predicate ScopeSpec(m: Maps, p: Parsed, c: Config, o: LoadOutcome, tr: ScopeTrace) {
    Traced(ScopesOf(m), NewScopes(p.lists, c), tr, Reaches(o))
  }

  /** The rule array: the rules, then slots that are not enabled. */
  ghost predicate Tabled(rs: seq<Rule>, table: seq<Rule>) {
    |table| == MAX_RULES && rs <= table && forall i | |rs| <= i < |table| :: !table[i].enabled
  }

  /** A load's result tells the live rule count, generation, ids, scope and epoch. */
  ghost predicate Reports(result: LoadResult, m: Maps) {
    && result.ruleCount == m.config.ruleCount && result.generation == m.config.generation
    && result.profileId == m.config.profileId && result.agentId == m.config.agentId
    && result.scopeMode == m.config.scopeMode && result.scopeCount == m.config.scopeCount
    && result.epoch == m.epoch
  }

  /** The result a successful load reports, in terms of the maps it leaves. */
  function Report(m: Maps): LoadResult {
    LoadResult(m.config.ruleCount, m.config.generation, m.config.profileId, m.config.agentId,
               m.config.scopeMode, m.config.scopeCount, m.epoch)
  }

  /** From the first map operation to the last. */
  method Install(k: Kernel, s: Snapshot, p: Parsed, c: Config)
    returns (outcome: LoadOutcome, ghost mid: Histories, ghost tr: ScopeTrace)
    requires k.Valid() && ParsedOk(p) && Remembered(s, k.epoch) == k.M() && Admitted(k.M(), c)
    requires c == p.config.(generation := NextGeneration(k.config.generation))
    modifies k, k.path, k.command, k.network, k.resource, k.comms, k.pids, k.tgids
    ensures k.Valid() && !outcome.Rejected? && !outcome.SnapshotOverflow?
    ensures LoadSpec(Load(old(k.M()), k.M(), outcome, p, c, old(k.H()), mid, k.H()))
    ensures ScopeSpec(old(k.M()), p, c, outcome, tr)
  {
    ghost var m0 := k.M();
    var failed, why;
    failed, why, tr := StageAndFlip(k, p, c);
    mid := k.H();
    if failed.Some? {
      RollbackIsExact(m0, k.M(), failed.value, c.generation);
      RoomAfterFailure(m0, k.M(), failed.value, c.generation);
      var rollback := Recover(k, s, failed.value, c.generation);
      return RolledBack(failed.value, why, rollback), mid, tr;
    }
    RoomAfterFlip(m0, p, c);
    outcome := BumpAndClear(k, s, c);
  }

  /** The epoch write, then the clean-up of the previous generation. */
  method BumpAndClear(k: Kernel, s: Snapshot, c: Config) returns (outcome: LoadOutcome)
    requires k.Valid() && |s.rules| == MAX_RULES && k.config == c
    modifies k, k.path, k.command, k.network, k.resource, k.comms, k.pids, k.tgids
    ensures k.Valid() && (outcome.EpochWriteFailed? || outcome.Loaded?)
    ensures outcome.EpochWriteFailed? ==>
              var snap := Remembered(s, old(k.epoch));
              && (outcome.rollback.Done? ==> k.M() == Restored(old(k.M()), snap))
              && (outcome.rollback.Full? ==> !RoomToRestore(old(k.M()), snap))
    ensures outcome.Loaded? ==>
              && k.M() == Cleared(old(k.M()).(epoch := Protocol.NextEpoch(old(k.epoch))), s.config.generation)
              && Window(old(k.H()), k.H(), old(k.M()), s.config.generation)
    ensures outcome.Loaded? ==>
              outcome.result == LoadResult(c.ruleCount, c.generation, c.profileId, c.agentId,
                                           c.scopeMode, c.scopeCount, k.epoch)
  {
    ghost var m1 := k.M();
    var ok := k.BumpEpoch();
    if !ok {
      var rollback := k.Restore(s);
      return EpochWriteFailed(rollback);
    }
    assert k.M() == m1.(epoch := k.epoch);
    k.ClearIndexes(s.config.generation);
    outcome := Loaded(LoadResult(c.ruleCount, c.generation, c.profileId, c.agentId,
                                 c.scopeMode, c.scopeCount, k.epoch));
  }

  method ChooseGeneration(previous: U32) returns (generation: U32)
    ensures generation == NextGeneration(previous)
  {
    generation := (previous + 1) % 0x1_0000_0000;
    if generation == 0 { generation := 1; }
  }

  /** Snapshot, validation, installation. */
  method LoadParsed(k: Kernel, p: Parsed)
    returns (outcome: LoadOutcome, ghost c: Config, ghost mid: Histories, ghost tr: ScopeTrace)
    requires k.Valid() && ParsedOk(p)
    modifies k, k.path, k.command, k.network, k.resource, k.comms, k.pids, k.tgids
    ensures k.Valid() && LoadSpec(Load(old(k.M()), k.M(), outcome, p, c, old(k.H()), mid, k.H()))
    ensures ScopeSpec(old(k.M()), p, c, outcome, tr)
  {
    c, mid := p.config.(generation := NextGeneration(k.config.generation)), k.H();
    tr := ScopeTrace(k.S(), k.S(), k.S());
    var snapshot := k.TakeSnapshot();
    if snapshot.None? { return SnapshotOverflow, c, mid, tr; }
    var generation := ChooseGeneration(k.config.generation);
    if p.config.profileId == 0 || p.config.agentId == 0 { return Rejected(EINVAL), c, mid, tr; }
    outcome, mid, tr := Install(k, snapshot.value, p, p.config.(generation := generation));
  }

  /** What a successful load leaves besides the indexes. */
  lemma LoadedConfig(l: Load)
    requires LoadSpec(l) && l.outcome.Loaded?
    ensures ParsedOk(l.p) && l.n == Finished(l.m, l.p, l.c) && l.n.config == l.c && l.n.rules == RuleTable(l.p.rules)
    ensures l.c == l.p.config.(generation := NextGeneration(l.m.config.generation))
    ensures l.outcome.result == Report(l.n)
  {
  }

  lemma DirectedAtAnyGeneration(d: PolicyDir, p: Parsed, c: Config, gen: U32)
    requires AsDirected(d, p, c)
    ensures AsDirected(d, p, c.(generation := gen)) && AsSettled(d.settings, c.(generation := gen))
  {
  }

  lemma TableHolds(rs: seq<Rule>)
    requires |rs| <= MAX_RULES
    ensures Tabled(rs, RuleTable(rs))
  {
  }

  lemma LoadedAsDirected(d: PolicyDir, l: Load)
    requires LoadSpec(l) && l.outcome.Loaded? && AsDirected(d, l.p, l.p.config)
    ensures AsDirected(d, l.p, l.n.config) && Reports(l.outcome.result, l.n) && Tabled(l.p.rules, l.n.rules)
  {
    LoadedConfig(l);
    TableHolds(l.p.rules);
    DirectedAtAnyGeneration(d, l.p, l.p.config, NextGeneration(l.m.config.generation));
    assert l.n.config == l.p.config.(generation := NextGeneration(l.m.config.generation));
  }

  /** `mcp_policy_load_dir`: nothing is loaded from a directory that does not parse. */
  method LoadDir(k: Kernel, d: PolicyDir)
    returns (outcome: LoadOutcome, ghost p: Parsed, ghost c: Config, ghost mid: Histories, ghost tr: ScopeTrace)
    requires k.Valid() && WellShapedDir(d)
    modifies k, k.path, k.command, k.network, k.resource, k.comms, k.pids, k.tgids
    ensures k.Valid()
    ensures match ParsedDir(d)
            case Err(errno) => outcome == Rejected(errno) && k.M() == old(k.M())
            case Ok(parsed) =>
              && p == parsed && ScopeSpec(old(k.M()), p, c, outcome, tr)
              && (outcome.Loaded? ==> AsDirected(d, p, k.M().config) && Reports(outcome.result, k.M())
                                      && Tabled(p.rules, k.M().rules))
              && LoadSpec(Load(old(k.M()), k.M(), outcome, p, c, old(k.H()), mid, k.H()))
  {
    p, c, mid := Parsed(k.config, ScopeLists([], [], []), []), k.config, k.H();
    tr := ScopeTrace(k.S(), k.S(), k.S());
    var parsed := Parse(d);
    if parsed.Err? { return Rejected(parsed.errno), p, c, mid, tr; }
    p := parsed.value;
    ghost var m, h := k.M(), k.H();
    outcome, c, mid, tr := LoadParsed(k, parsed.value);
    if outcome.Loaded? {
      ParsedAsDirected(d);
      LoadedAsDirected(d, Load(m, k.M(), outcome, p, c, h, mid, k.H()));
    }
  }
}
