/**
 The cacheless baseline handlers (`naive_guard.bpf.c`), and the refinement: in its fast
 configuration the three-tier pipeline gives the baseline's action and return code on every comparable
 call.
 */
module Baseline {
  import opened Common
  import opened Lpm
  import opened NetBits
  import opened Policy
  import opened Hooks
  import opened Protocol
  import Compile

  datatype BaselineConfig = BaselineConfig(enforce: bool, defaultAction: U32, generation: U32)

  datatype BaselineMaps = BaselineMaps(config: BaselineConfig,
                                       path: Index<Bytes, Entry>, command: Index<Bytes, Entry>,
                                       network: Index<Bits, Entry>, resource: Index<(RuleKind, U64), Entry>)

  function BaselineDefault(c: BaselineConfig): U32 {
    if ActionValid(c.defaultAction) then c.defaultAction else ALLOW
  }

  function Generation(c: BaselineConfig): U32 {
    if c.generation == 0 then 1 else c.generation
  }

  function BaselineRuling(c: BaselineConfig, found: Option<Entry>, hook: Hook): U32 {
    if found.Some? && found.value.enabled && hook in found.value.hooks then
      (if ActionValid(found.value.action) then found.value.action else DENY)
    else BaselineDefault(c)
  }

  function BaselineCommand(b: BaselineMaps, name: Bytes): U32 {
    if name == [] then BaselineDefault(b.config)
    else BaselineRuling(b.config, Lookup(b.command, Generation(b.config), Padded(name)), Exec)
  }

  function BaselinePath(b: BaselineMaps, path: Bytes): U32 {
    if path == [] then BaselineDefault(b.config)
    else BaselineRuling(b.config, Lookup(b.path, Generation(b.config), Padded(path)), FileOpen)
  }

  function BaselineResource(b: BaselineMaps, hook: Hook, id: U64): U32 {
    if id == 0 then BaselineDefault(b.config)
    else BaselineRuling(b.config, Get(b.resource, Generation(b.config), (PathPrefix, id)), hook)
  }

  function BaselineNetwork(b: BaselineMaps, addr: U32, port: U16): U32 {
    BaselineRuling(b.config, NetworkLookup(b.network, Generation(b.config), addr, port), SocketConnect)
  }

  function BaselineRet(c: BaselineConfig, action: U32): int {
    if action == DENY && c.enforce then -DENY_ERRNO else 0
  }

  /** One baseline hook: the return code and the recorded action. */
  function BaselineStep(b: BaselineMaps, call: Call, ret: int): (int, Option<U32>) {
    if ret != 0 then (ret, None)
    else match call
      case ExecCall(bprm) => Recorded(b, BaselineCommand(b, bprm.name))
      case OpenCall(f) => Recorded(b, BaselinePath(b, FilePath(f)))
      case PermissionCall(f, mask) =>
        if mask.write || mask.append then Recorded(b, BaselineResource(b, FileWrite, FileId(f)))
        else if !mask.read then (0, None)
        else Recorded(b, BaselineResource(b, FileRead, FileId(f)))
      case ConnectCall(a) => Recorded(b, if a.Inet? then BaselineNetwork(b, a.addr, a.port) else ALLOW)
  }

  function Recorded(b: BaselineMaps, action: U32): (int, Option<U32>) {
    (BaselineRet(b.config, action), Some(action))
  }

  // ---------------------------------------------------------------- refinement

  /** A baseline set up with the same indexes, default action, enforcement and generation. */
  function BaselineOf(m: Maps): BaselineMaps {
    BaselineMaps(BaselineConfig(m.config.enforce, m.config.defaultAction, m.config.generation),
                 m.path, m.command, m.network, m.resource)
  }

  /** The configuration the two are compared in. */
  predicate Fast(c: Config) {
    c.skipL2Safe && !c.cacheFollowups && c.scopeMode == SystemWide && ActionValid(c.defaultAction) && c.generation != 0
  }

  /** What the loader never writes: entries for an empty rule list, or for inode 0. */
  ghost predicate LoaderWritten(m: Maps) {
    var gen := m.config.generation;
    && (m.config.ruleCount == 0 ==>
          Slice(m.path, gen) == map[] && Slice(m.command, gen) == map[]
          && Slice(m.network, gen) == map[] && Slice(m.resource, gen) == map[])
    && Get(m.resource, gen, (PathPrefix, 0)) == None
  }

  /** Serving an accepted rule list is enough. */
  lemma ServedIsLoaderWritten(m: Maps, rs: seq<Rule>)
    requires Compile.Serves(m, rs)
    ensures LoaderWritten(m)
  {
    var gen := m.config.generation;
    Compile.CompiledHoldsLast(rs, gen, Compile.ResourceItem, (PathPrefix, 0));
    Compile.SliceOfCompiled(rs, gen, Compile.ResourceItem);
    GetReadsOwnGeneration(m.resource, Compile.Compiled(rs, gen, Compile.ResourceItem), gen, (PathPrefix, 0));
  }

  /** The calls on which both define an action of their own. */
  predicate Comparable(call: Call) {
    match call
    case ExecCall(b) => b.name != []
    case OpenCall(_) => true
    case PermissionCall(_, mask) => mask.read || mask.write || mask.append
    case ConnectCall(a) => !a.NoAddress?
  }

  lemma EmptySliceMisses<T(!new)>(t: Index<seq<T>, Entry>, gen: U32, full: seq<T>)
    requires Slice(t, gen) == map[]
    ensures Lookup(t, gen, full) == None
  {
    var none: Index<seq<T>, Entry> := map[];
    assert Slice(none, gen) == map[];
    LookupReadsOwnGeneration(t, none, gen, full);
    LookupMiss(none, gen, full);
  }

  /** Without the cache the two agree. */
  lemma AnswerIsBaseline(m: Maps, call: Call)
    requires Fast(m.config) && LoaderWritten(m) && Comparable(call)
    ensures BaselineStep(BaselineOf(m), call, 0).1 == Some(Answer(m, call))
  {
    match call
    case ExecCall(b) => NameIsBaseline(m, m.command, Exec, b.name);
    case OpenCall(f) => NameIsBaseline(m, m.path, FileOpen, FilePath(f));
    case PermissionCall(f, mask) => ResourceIsBaseline(m, PermissionHookOf(mask), FileId(f));
    case ConnectCall(a) =>
      if m.config.ruleCount == 0 && a.Inet? {
        EmptySliceMisses(m.network, m.config.generation, NetItem(a.port, a.addr, 32));
        EmptySliceMisses(m.network, m.config.generation, NetItem(0, a.addr, 32));
      }
  }

  lemma NameIsBaseline(m: Maps, trie: Index<Bytes, Entry>, hook: Hook, name: Bytes)
    requires Fast(m.config) && (m.config.ruleCount == 0 ==> Slice(trie, m.config.generation) == map[])
    ensures var c := BaselineOf(m).config;
            NameDecide(m.config, trie, hook, name).action
            == if name == [] then BaselineDefault(c)
               else BaselineRuling(c, Lookup(trie, Generation(c), Padded(name)), hook)
  {
    if m.config.ruleCount == 0 { EmptySliceMisses(trie, m.config.generation, Padded(name)); }
  }

  lemma ResourceIsBaseline(m: Maps, hook: Hook, id: U64)
    requires Fast(m.config) && LoaderWritten(m)
    ensures ResourceDecide(m, hook, id).action == BaselineResource(BaselineOf(m), hook, id)
  {
    if m.config.ruleCount == 0 {
      var none: Index<(RuleKind, U64), Entry> := map[];
      assert Slice(none, m.config.generation) == map[];
      GetReadsOwnGeneration(m.resource, none, m.config.generation, (PathPrefix, id));
    }
  }

  /** Same return code, and the same action or none. */
  predicate SameOutcome(out: HookOutcome, base: (int, Option<U32>)) {
    out.code == base.0 && (if out.decided.Some? then Some(out.decided.value.0) else None) == base.1
  }

  lemma HookIsBaseline(env: Env, s: State, t: Task, call: Call, ret: int)
    requires Inv(env, s) && NoZeroIds(s.l1) && s.prior.None? && Conforms(env, call)
    requires Fast(s.maps.config) && LoaderWritten(s.maps) && Comparable(call)
    ensures SameOutcome(HookStep(s.maps, s.l1, t, call, ret), BaselineStep(BaselineOf(s.maps), call, ret))
  {
    if ret == 0 {
      HookAnswers(env, s, t, call, ret);
      MissAnswers(s.maps, s.l1, t, call);
      AnswerIsBaseline(s.maps, call);
    }
  }

  /**
   The fast form refines the simple one: wherever a run of hooks, evictions and reloads stands
   outside a flip, a call gets from the cached pipeline the action and return code the baseline gives.
   */
  lemma PipelineRefinesBaseline(env: Env, s: State, es: seq<Event>, t: Task, call: Call, ret: int)
    requires Attached(s) && ForwardRun(env, s, es) && Run(s, es).loads <= U64_MAX && Run(s, es).prior.None?
    requires Fast(Run(s, es).maps.config) && LoaderWritten(Run(s, es).maps)
    requires Conforms(env, call) && Comparable(call)
    ensures var r := Run(s, es);
            SameOutcome(HookStep(r.maps, r.l1, t, call, ret), BaselineStep(BaselineOf(r.maps), call, ret))
  {
    RunKeepsInv(env, s, es);
    HookIsBaseline(env, Run(s, es), t, call, ret);
  }

  // ---------------------------------------------------------------- where the two agree

  /** A call on which the two agree: any comparable one, an exec without a name when the default is to deny, and a
      connect without an address when connecting to 0.0.0.0 port 0 is allowed. */
  predicate AgreeOn(m: Maps, call: Call) {
    || Comparable(call)
    || (call.ExecCall? && m.config.defaultAction == DENY)
    || (call.ConnectCall? && ConnectAnswer(m, 0, 0) == ALLOW)
  }

  /** Without the cache, exactly. */
  lemma DecisionAgreesIff(m: Maps, call: Call)
    requires Fast(m.config) && LoaderWritten(m)
    ensures var base := BaselineStep(BaselineOf(m), call, 0);
            base == (ActionRet(m.config, Answer(m, call)), Some(Answer(m, call))) <==> AgreeOn(m, call)
  {
    if Comparable(call) {
      DecidersAreValid(m);
      AnswerIsBaseline(m, call);
    } else {
      IncomparableAgreesIff(m, call);
    }
  }

  lemma IncomparableAgreesIff(m: Maps, call: Call)
    requires Fast(m.config) && LoaderWritten(m) && !Comparable(call)
    ensures var base := BaselineStep(BaselineOf(m), call, 0);
            base == (ActionRet(m.config, Answer(m, call)), Some(Answer(m, call))) <==> AgreeOn(m, call)
  {
    match call
    case ExecCall(_) =>
    case PermissionCall(_, _) =>
    case ConnectCall(_) =>
  }

  /** In every coherent state the pipeline gives a call the baseline's action and return code exactly when the call is
      refused already or one on which the two agree. */
  lemma HookAgreesIff(env: Env, s: State, t: Task, call: Call, ret: int)
    requires Inv(env, s) && NoZeroIds(s.l1) && s.prior.None? && Conforms(env, call)
    requires Fast(s.maps.config) && LoaderWritten(s.maps)
    ensures SameOutcome(HookStep(s.maps, s.l1, t, call, ret), BaselineStep(BaselineOf(s.maps), call, ret)) <==>
            ret != 0 || AgreeOn(s.maps, call)
  {
    if ret == 0 {
      HookAnswers(env, s, t, call, ret);
      MissAnswers(s.maps, s.l1, t, call);
      DecisionAgreesIff(s.maps, call);
    }
  }

  /** The same at any point of any run that stands outside a flip. */
  lemma PipelineAgreesIff(env: Env, s: State, es: seq<Event>, t: Task, call: Call, ret: int)
    requires Attached(s) && ForwardRun(env, s, es) && Run(s, es).loads <= U64_MAX && Run(s, es).prior.None?
    requires Fast(Run(s, es).maps.config) && LoaderWritten(Run(s, es).maps) && Conforms(env, call)
    ensures var r := Run(s, es);
            SameOutcome(HookStep(r.maps, r.l1, t, call, ret), BaselineStep(BaselineOf(r.maps), call, ret)) <==>
            ret != 0 || AgreeOn(r.maps, call)
  {
    RunKeepsInv(env, s, es);
    HookAgreesIff(env, Run(s, es), t, call, ret);
  }

  /**
   Each side condition on the call is needed: an exec without name is denied by L2 and an absent
   address is decided as 0.0.0.0, where the baseline takes the default and allows; an
   execute-only permission check is treated as a read, where the baseline passes it.
   */
  lemma ConditionsAreNeeded(l1: Cache)
    requires l1 == map[]
    ensures var open := EMPTY_POLICY.(config := DEFAULT_CONFIG.(skipL2Safe := true, cacheFollowups := false));
            var shut := open.(config := open.config.(defaultAction := DENY));
            var t := Task(0, 7, 7, []);
            var noName, noAddress := ExecCall(Bprm([], 5, 1)), ConnectCall(NoAddress);
            var onlyExec := PermissionCall(NoFile, Mask(false, false, false));
            && Fast(open.config) && LoaderWritten(open) && Fast(shut.config) && LoaderWritten(shut)
            && HookStep(open, l1, t, noName, 0).code == -DENY_ERRNO && BaselineStep(BaselineOf(open), noName, 0).0 == 0
            && HookStep(shut, l1, t, noAddress, 0).code == -DENY_ERRNO
            && BaselineStep(BaselineOf(shut), noAddress, 0).0 == 0
            && HookStep(shut, l1, t, onlyExec, 0).code == -DENY_ERRNO
            && BaselineStep(BaselineOf(shut), onlyExec, 0).0 == 0
  {
    var gen := DEFAULT_CONFIG.generation;
    var noPath: Index<Bytes, Entry> := map[];
    var noNet: Index<Bits, Entry> := map[];
    var noRes: Index<(RuleKind, U64), Entry> := map[];
    assert Slice(noPath, gen) == map[] && Slice(noNet, gen) == map[] && Slice(noRes, gen) == map[];
  }
}
