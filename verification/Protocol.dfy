/**
 Hooks, evictions and policy reloads as one state machine.

 A hook invocation is one atomic step; so is every map operation of the loader. The loader's
 operations are of three kinds: `Stage` (clearing, staging, scope and rule-table writes, and the
 clean-up of the old generation), `Flip` (the config write) and `Bump` (the epoch write). A failed
 epoch write makes the loader roll back from after the flip: `Abort`.
 */
module Protocol {
  import opened Common
  import opened Policy
  import opened Hooks

  datatype State = State(maps: Maps, l1: Cache, prior: Option<Maps>, loads: nat)

  datatype Event =
    | HookCall(task: Task, call: Call, ret: int)
    | Evict(key: CacheKey)
    | Stage(maps: Maps)
    | Flip(config: Config)
    | Bump
    | Abort(maps: Maps)

  /** `bump_epoch`: zero is skipped. */
  function NextEpoch(epoch: U64): U64 {
    if epoch == U64_MAX then 1 else epoch + 1
  }

  /**
   What a resource id stands for. The cache key holds only the id, so exec and file decisions are
   cacheable under the assumption that the name, the path and the inode type are functions of it.
   */
  datatype Env = Env(name: U64 -> Bytes, path: U64 -> Bytes, kind: U64 -> FileType)

  ghost predicate Conforms(env: Env, call: Call) {
    match call
    case ExecCall(b) => b.hash != 0 && env.name(BprmId(b)) == b.name
    case OpenCall(f) => FileConforms(env, f)
    case PermissionCall(f, _) => FileConforms(env, f)
    case ConnectCall(_) => true
  }

  ghost predicate FileConforms(env: Env, f: FileArg) {
    f.File? && f.ino != 0 ==> env.kind(f.ino) == f.kind && env.path(f.ino) == f.path
  }

  /** A step the system can take. */
  ghost predicate Possible(s: State, e: Event) {
    match e
    case HookCall(_, _, _) => true
    case Evict(_) => true
    case Stage(n) => s.prior.None? && Quiet(s.maps, n)
    case Flip(_) => s.prior.None?
    case Bump => s.prior.Some?
    case Abort(n) => s.prior.Some? && Quiet(s.prior.value, n)
  }

  ghost predicate Legal(env: Env, s: State, e: Event) {
    Possible(s, e) && (e.HookCall? ==> Conforms(env, e.call))
  }

  function Next(s: State, e: Event): State {
    match e
    case HookCall(t, call, ret) => s.(l1 := HookStep(s.maps, s.l1, t, call, ret).l1)
    case Evict(key) => s.(l1 := s.l1 - {key})
    case Stage(n) => s.(maps := n)
    case Flip(c) => s.(maps := s.maps.(config := c), prior := Some(s.maps))
    case Bump => s.(maps := s.maps.(epoch := NextEpoch(s.maps.epoch)), prior := None, loads := s.loads + 1)
    case Abort(n) => s.(maps := n, prior := None)
  }

  function Run(s: State, es: seq<Event>): State
    decreases |es|
  {
    if es == [] then s else Run(Next(s, es[0]), es[1..])
  }

  /** Every step is one the system can take, and no epoch write fails. */
  ghost predicate ForwardRun(env: Env, s: State, es: seq<Event>)
    decreases |es|
  {
    es == [] || (Legal(env, s, es[0]) && !es[0].Abort? && ForwardRun(env, Next(s, es[0]), es[1..]))
  }

  /** Any run, failed epoch writes included, of calls of any kind. */
  ghost predicate PossibleRun(s: State, es: seq<Event>)
    decreases |es|
  {
    es == [] || (Possible(s, es[0]) && PossibleRun(Next(s, es[0]), es[1..]))
  }

  /** All calls conform, and no epoch write fails. */
  ghost predicate Forward(env: Env, es: seq<Event>) {
    forall i | 0 <= i < |es| :: !es[i].Abort? && (es[i].HookCall? ==> Conforms(env, es[i].call))
  }

  lemma {:induction false} ForwardRunIff(env: Env, s: State, es: seq<Event>)
    ensures ForwardRun(env, s, es) <==> PossibleRun(s, es) && Forward(env, es)
    decreases |es|
  {
    if es != [] {
      ForwardRunIff(env, Next(s, es[0]), es[1..]);
      assert Forward(env, es) <==>
             !es[0].Abort? && (es[0].HookCall? ==> Conforms(env, es[0].call)) && Forward(env, es[1..]) by {
        assert es == [es[0]] + es[1..];
      }
    }
  }

  /** Hooks are attached right after the first successful load, with an empty cache. */
  ghost predicate Attached(s: State) {
    s.maps.epoch == 1 && s.loads == 1 && s.l1 == map[] && s.prior.None?
  }

  // ---------------------------------------------------------------- the invariant

  /** `action` is an answer policy `m` gives for the resource. */
  ghost predicate Allowed(env: Env, m: Maps, hook: Hook, id: U64, action: U32) {
    match hook
    case Exec => action == ExecAnswer(m, env.name(id))
    case FileOpen => action == OpenAnswer(m, env.kind(id), env.path(id))
    case SocketConnect => id / 0x1_0000 <= U32_MAX && action == ConnectAnswer(m, id / 0x1_0000, id % 0x1_0000)
    case _ =>
      || action == PermissionAnswer(m, hook, env.kind(id), id)
      || (m.config.cacheFollowups && action == OpenAnswer(m, env.kind(id), env.path(id)))
  }

  /** The policy that was live before the flip, while the epoch still vouches for its answers. */
  function Before(s: State): Maps {
    if s.prior.Some? then s.prior.value else s.maps
  }

  ghost predicate EntryOk(env: Env, s: State, key: CacheKey, v: CacheValue) {
    && v.epoch <= s.maps.epoch
    && (v.epoch == s.maps.epoch ==>
          || Allowed(env, Before(s), key.hook, key.resourceId, v.action)
          || Allowed(env, s.maps, key.hook, key.resourceId, v.action))
  }

  ghost predicate Inv(env: Env, s: State) {
    && 1 <= s.loads == s.maps.epoch
    && (s.prior.Some? ==> s.prior.value.epoch == s.maps.epoch)
    && forall key, cpu | key in s.l1 && cpu in s.l1[key] :: EntryOk(env, s, key, s.l1[key][cpu])
  }

  // ---------------------------------------------------------------- hooks

  function Answer(m: Maps, call: Call): U32 {
    match call
    case ExecCall(b) => ExecAnswer(m, b.name)
    case OpenCall(f) => if f.File? then OpenAnswer(m, f.kind, f.path) else PathDecide(m, FileOpen, FilePath(f)).action
    case PermissionCall(f, mask) =>
      var hook := PermissionHookOf(mask);
      if f.File? then PermissionAnswer(m, hook, f.kind, f.ino) else ResourceDecide(m, hook, 0).action
    case ConnectCall(a) =>
      if a.OtherFamily? then ALLOW else if a.Inet? then ConnectAnswer(m, a.addr, a.port) else ConnectAnswer(m, 0, 0)
  }

  /** A file's reads and writes may also be answered by the open decision, when the policy caches follow-ups. */
  ghost predicate Answers(m: Maps, call: Call, action: U32) {
    || action == Answer(m, call)
    || (call.PermissionCall? && call.file.File? && m.config.cacheFollowups
        && action == OpenAnswer(m, call.file.kind, call.file.path))
  }

  lemma DecidersAreValid(m: Maps)
    ensures forall hook, name :: ActionValid(PathDecide(m, hook, name).action)
    ensures forall hook, name :: ActionValid(CommandDecide(m, hook, name).action)
    ensures forall hook, id :: ActionValid(ResourceDecide(m, hook, id).action)
    ensures forall addr: U32, port: U16 :: ActionValid(NetworkDecide(m, addr, port).action)
  {
  }

  lemma SocketIdInverse(addr: U32, port: U16)
    ensures SocketId(addr, port) / 0x1_0000 == addr && SocketId(addr, port) % 0x1_0000 == port
  {
  }

  /** Without the cache, a hook's action is the policy's answer. */
  lemma MissAnswers(m: Maps, l1: Cache, t: Task, call: Call)
    ensures Miss(m, l1, t, call).decided.Some?
    ensures Miss(m, l1, t, call).decided.value.0 == Answer(m, call)
    ensures ActionValid(Answer(m, call))
  {
    DecidersAreValid(m);
    match call
    case ExecCall(_) =>
    case OpenCall(_) =>
    case PermissionCall(_, _) =>
    case ConnectCall(_) =>
  }

  lemma StoreKeepsInv(env: Env, s: State, key: CacheKey, cpu: nat, d: Decision)
    requires Inv(env, s)
    requires key.resourceId != 0 ==> Allowed(env, s.maps, key.hook, key.resourceId, d.action)
    ensures Inv(env, s.(l1 := L1Store(s.l1, key, cpu, s.maps.epoch, d)))
  {
    var after := s.(l1 := L1Store(s.l1, key, cpu, s.maps.epoch, d));
    forall k, c | k in after.l1 && c in after.l1[k]
      ensures EntryOk(env, after, k, after.l1[k][c])
    {
      if k in s.l1 && c in s.l1[k] && after.l1[k][c] == s.l1[k][c] {
        assert EntryOk(env, s, k, s.l1[k][c]);
      }
    }
  }

  lemma MissKeepsInv(env: Env, s: State, t: Task, call: Call)
    requires Inv(env, s) && Conforms(env, call)
    ensures Inv(env, s.(l1 := Miss(s.maps, s.l1, t, call).l1))
  {
    var m := s.maps;
    match call
    case ExecCall(b) =>
      var d := if b.name == [] then Decision(DENY, 0)
               else if NoRulesAllow(m) then Decision(ALLOW, 0)
               else CommandDecide(m, Exec, b.name);
      StoreKeepsInv(env, s, KeyFor(t, Exec, if b.name != [] && NoRulesAllow(m) then b.ino else BprmId(b)), t.cpu, d);
    case OpenCall(f) =>
      OpenMissKeepsInv(env, s, t, f);
    case PermissionCall(f, mask) =>
      var hook := PermissionHookOf(mask);
      var l2 := L2FileArg(m.config, f, hook);
      var d := if l2 != UNSET then Decision(l2, 0)
               else if NoRulesAllow(m) then Decision(ALLOW, 0)
               else ResourceDecide(m, hook, FileId(f));
      StoreKeepsInv(env, s, KeyFor(t, hook, FileId(f)), t.cpu, d);
    case ConnectCall(a) =>
      if !a.OtherFamily? && !NoRulesAllow(m) {
        var addr, port := if a.Inet? then a.addr else 0, if a.Inet? then a.port else 0;
        SocketIdInverse(addr, port);
        StoreKeepsInv(env, s, KeyFor(t, SocketConnect, SocketId(addr, port)), t.cpu, NetworkDecide(m, addr, port));
      }
  }

  lemma OpenMissKeepsInv(env: Env, s: State, t: Task, f: FileArg)
    requires Inv(env, s) && FileConforms(env, f)
    ensures Inv(env, s.(l1 := OpenMiss(s.maps, s.l1, t, f).l1))
  {
    var m, id := s.maps, FileId(f);
    var l2 := L2FileArg(m.config, f, FileOpen);
    var d := if l2 != UNSET then Decision(l2, 0)
             else if NoRulesAllow(m) then Decision(ALLOW, 0)
             else PathDecide(m, FileOpen, FilePath(f));
    assert id != 0 ==> d.action == OpenAnswer(m, env.kind(id), env.path(id));
    StoreKeepsInv(env, s, KeyFor(t, FileOpen, id), t.cpu, d);
    var s1 := s.(l1 := L1Store(s.l1, KeyFor(t, FileOpen, id), t.cpu, m.epoch, d));
    if m.config.cacheFollowups {
      StoreKeepsInv(env, s1, KeyFor(t, FileRead, id), t.cpu, d);
      var s2 := s1.(l1 := L1Store(s1.l1, KeyFor(t, FileRead, id), t.cpu, m.epoch, d));
      StoreKeepsInv(env, s2, KeyFor(t, FileWrite, id), t.cpu, d);
    }
  }

  /** An allowed cache entry is an answer to every call that would hit it. */
  lemma AllowedAnswers(env: Env, m: Maps, call: Call, action: U32)
    requires Conforms(env, call) && CallId(call) != 0
    requires call.ConnectCall? ==> call.address.Inet?
    requires Allowed(env, m, CallHook(call), CallId(call), action)
    ensures Answers(m, call, action)
  {
    if call.ConnectCall? {
      SocketIdInverse(call.address.addr, call.address.port);
    }
  }

  /** Nothing is ever stored under resource id 0. */
  ghost predicate NoZeroIds(l1: Cache) {
    forall key | key in l1 :: key.resourceId != 0
  }

  lemma HookKeepsInv(env: Env, s: State, t: Task, call: Call, ret: int)
    requires Inv(env, s) && NoZeroIds(s.l1) && Conforms(env, call)
    ensures Inv(env, Next(s, HookCall(t, call, ret))) && NoZeroIds(Next(s, HookCall(t, call, ret)).l1)
  {
    MissKeepsInv(env, s, t, call);
  }

  /**
   Every action, cached or computed, is wholly the answer of the policy now live or, between the
   flip and the epoch bump, of the one before it.
   */
  lemma HookAnswers(env: Env, s: State, t: Task, call: Call, ret: int)
    requires Inv(env, s) && NoZeroIds(s.l1) && Conforms(env, call)
    ensures var d := HookStep(s.maps, s.l1, t, call, ret).decided;
            d.Some? ==> Answers(Before(s), call, d.value.0) || Answers(s.maps, call, d.value.0)
  {
    var out := HookStep(s.maps, s.l1, t, call, ret);
    if out.decided.Some? {
      var key := KeyFor(t, CallHook(call), CallId(call));
      var hit := L1Lookup(s.l1, key, t.cpu, s.maps.epoch);
      if hit != UNSET && (call.ConnectCall? ==> call.address.Inet?) {
        assert t.cpu in s.l1[key];
        assert EntryOk(env, s, key, s.l1[key][t.cpu]);
        if Allowed(env, Before(s), key.hook, key.resourceId, hit) {
          AllowedAnswers(env, Before(s), call, hit);
        } else {
          AllowedAnswers(env, s.maps, call, hit);
        }
      } else {
        MissAnswers(s.maps, s.l1, t, call);
      }
    }
  }

  // ---------------------------------------------------------------- reload steps

  lemma QuietKeepsAllowed(env: Env, m: Maps, n: Maps)
    requires Quiet(m, n)
    ensures forall hook, id: U64, action: U32 :: Allowed(env, m, hook, id, action) == Allowed(env, n, hook, id, action)
  {
    QuietKeepsAnswers(m, n);
    forall hook, id: U64, action: U32
      ensures Allowed(env, m, hook, id, action) == Allowed(env, n, hook, id, action)
    {
      if hook == SocketConnect && id / 0x1_0000 <= U32_MAX {
        assert NetworkDecide(m, id / 0x1_0000, id % 0x1_0000) == NetworkDecide(n, id / 0x1_0000, id % 0x1_0000);
      }
    }
  }

  lemma StepKeepsInv(env: Env, s: State, e: Event)
    requires Inv(env, s) && NoZeroIds(s.l1) && Legal(env, s, e) && !e.Abort?
    requires Next(s, e).loads <= U64_MAX
    ensures Inv(env, Next(s, e)) && NoZeroIds(Next(s, e).l1)
  {
    var after := Next(s, e);
    match e
    case HookCall(t, call, ret) =>
      HookKeepsInv(env, s, t, call, ret);
    case Evict(key) =>
      forall k, c | k in after.l1 && c in after.l1[k]
        ensures EntryOk(env, after, k, after.l1[k][c])
      {
        assert EntryOk(env, s, k, s.l1[k][c]);
      }
    case Stage(n) =>
      QuietKeepsAllowed(env, s.maps, n);
      forall k, c | k in after.l1 && c in after.l1[k]
        ensures EntryOk(env, after, k, after.l1[k][c])
      {
        assert EntryOk(env, s, k, s.l1[k][c]);
      }
    case Flip(c) =>
      FlipKeepsInv(env, s, c);
    case Bump =>
      forall k, c | k in after.l1 && c in after.l1[k]
        ensures EntryOk(env, after, k, after.l1[k][c])
      {
        assert EntryOk(env, s, k, s.l1[k][c]);
      }
    case Abort(_) =>
  }

  lemma {:induction false} LoadsGrow(s: State, es: seq<Event>)
    ensures Run(s, es).loads >= s.loads
    decreases |es|
  {
    if es != [] { LoadsGrow(Next(s, es[0]), es[1..]); }
  }

  /** The invariant holds along every forward run of fewer than 2^64 loads. */
  lemma {:induction false} RunKeepsInv(env: Env, s: State, es: seq<Event>)
    requires Inv(env, s) && NoZeroIds(s.l1) && ForwardRun(env, s, es)
    requires Run(s, es).loads <= U64_MAX
    ensures Inv(env, Run(s, es)) && NoZeroIds(Run(s, es).l1)
    decreases |es|
  {
    if es != [] {
      LoadsGrow(Next(s, es[0]), es[1..]);
      StepKeepsInv(env, s, es[0]);
      RunKeepsInv(env, Next(s, es[0]), es[1..]);
    }
  }

  /**
   Cache coherence: after any interleaving of hooks, evictions and reload steps, whenever no reload
   is between its flip and its epoch bump, a current-epoch entry for an exec, an open or a connect
   holds exactly the action L2 and L3 would compute now.
   */
  lemma CacheIsCoherent(env: Env, s: State, es: seq<Event>, key: CacheKey, cpu: nat)
    requires Attached(s) && ForwardRun(env, s, es)
    requires var r := Run(s, es); r.loads <= U64_MAX && r.prior.None?
    requires var r := Run(s, es); key in r.l1 && cpu in r.l1[key] && r.l1[key][cpu].epoch == r.maps.epoch
    ensures var r := Run(s, es);
            var action := r.l1[key][cpu].action;
            match key.hook
            case Exec => action == ExecAnswer(r.maps, env.name(key.resourceId))
            case FileOpen => action == OpenAnswer(r.maps, env.kind(key.resourceId), env.path(key.resourceId))
            case SocketConnect =>
              && key.resourceId / 0x1_0000 <= U32_MAX
              && action == ConnectAnswer(r.maps, key.resourceId / 0x1_0000, key.resourceId % 0x1_0000)
            case _ =>
              || action == PermissionAnswer(r.maps, key.hook, env.kind(key.resourceId), key.resourceId)
              || (r.maps.config.cacheFollowups
                  && action == OpenAnswer(r.maps, env.kind(key.resourceId), env.path(key.resourceId)))
  {
    RunKeepsInv(env, s, es);
    var r := Run(s, es);
    assert EntryOk(env, r, key, r.l1[key][cpu]);
  }

  /** A slot no CPU has stored to is never a hit once hooks are attached. */
  lemma ZeroSlotNeverHits(env: Env, s: State, es: seq<Event>, key: CacheKey, cpu: nat)
    requires Attached(s) && ForwardRun(env, s, es) && Run(s, es).loads <= U64_MAX
    ensures var r := Run(s, es);
            Slot(r.l1, key, cpu) == Some(ZERO_SLOT) ==> L1Lookup(r.l1, key, cpu, r.maps.epoch) == UNSET
  {
    RunKeepsInv(env, s, es);
  }

  /** Every action of every run is the answer of the live policy or, between flip and bump, of the previous one. */
  lemma RunAnswers(env: Env, s: State, es: seq<Event>, t: Task, call: Call, ret: int)
    requires Attached(s) && ForwardRun(env, s, es) && Run(s, es).loads <= U64_MAX && Conforms(env, call)
    ensures var r := Run(s, es);
            var d := HookStep(r.maps, r.l1, t, call, ret).decided;
            d.Some? ==> Answers(Before(r), call, d.value.0) || Answers(r.maps, call, d.value.0)
  {
    RunKeepsInv(env, s, es);
    HookAnswers(env, Run(s, es), t, call, ret);
  }

  // ---------------------------------------------------------------- where coherence ends

  ghost predicate HookCalls(env: Env, es: seq<Event>) {
    forall i | 0 <= i < |es| :: es[i].HookCall? && Conforms(env, es[i].call)
  }

  /** What the hook call stores, if it stores anything, the policy `live` answers too. */
  ghost predicate CallAgrees(env: Env, live: Maps, s: State, e: Event)
    requires e.HookCall?
  {
    var out := HookStep(s.maps, s.l1, e.task, e.call, e.ret);
    out.l1 != s.l1 && out.decided.Some? ==> Allowed(env, live, CallHook(e.call), CallId(e.call), out.decided.value.0)
  }

  ghost predicate CallsAgree(env: Env, live: Maps, s: State, es: seq<Event>)
    requires HookCalls(env, es)
    decreases |es|
  {
    es == [] || (CallAgrees(env, live, s, es[0]) && CallsAgree(env, live, Next(s, es[0]), es[1..]))
  }

  /** Every entry the live epoch vouches for is an answer of `live`. */
  ghost predicate Vouched(env: Env, live: Maps, s: State) {
    forall key, cpu | key in s.l1 && cpu in s.l1[key] ::
      s.l1[key][cpu].epoch == s.maps.epoch ==> Allowed(env, live, key.hook, key.resourceId, s.l1[key][cpu].action)
  }

  lemma AllowedIsValid(env: Env, m: Maps, hook: Hook, id: U64, action: U32)
    requires Allowed(env, m, hook, id, action)
    ensures ActionValid(action)
  {
    DecidersAreValid(m);
  }

  /** Without follow-ups, a miss stores nothing or stores its own decision under its own key. */
  lemma MissStoresOwnKey(m: Maps, l1: Cache, t: Task, call: Call) returns (d: Decision)
    requires !m.config.cacheFollowups
    ensures var out := Miss(m, l1, t, call);
            && out.decided.Some? && d.action == out.decided.value.0 && ActionValid(d.action)
            && (out.l1 == l1 || out.l1 == L1Store(l1, KeyFor(t, CallHook(call), CallId(call)), t.cpu, m.epoch, d))
  {
    DecidersAreValid(m);
    match call
    case ExecCall(b) =>
      d := if b.name == [] then Decision(DENY, 0)
           else if NoRulesAllow(m) then Decision(ALLOW, 0)
           else CommandDecide(m, Exec, b.name);
    case OpenCall(f) =>
      var l2 := L2FileArg(m.config, f, FileOpen);
      d := if l2 != UNSET then Decision(l2, 0)
           else if NoRulesAllow(m) then Decision(ALLOW, 0)
           else PathDecide(m, FileOpen, FilePath(f));
    case PermissionCall(f, mask) =>
      var hook := PermissionHookOf(mask);
      var l2 := L2FileArg(m.config, f, hook);
      d := if l2 != UNSET then Decision(l2, 0)
           else if NoRulesAllow(m) then Decision(ALLOW, 0)
           else ResourceDecide(m, hook, FileId(f));
    case ConnectCall(a) =>
      var addr, port := if a.Inet? then a.addr else 0, if a.Inet? then a.port else 0;
      d := if a.OtherFamily? || NoRulesAllow(m) then Decision(ALLOW, 0) else NetworkDecide(m, addr, port);
  }

  /** Without follow-ups, a hook call changes at most its own slot, and only after a miss there. */
  lemma HookStoresOwnSlot(s: State, e: Event) returns (d: Decision)
    requires e.HookCall? && !s.maps.config.cacheFollowups
    ensures var out := HookStep(s.maps, s.l1, e.task, e.call, e.ret);
            var key := KeyFor(e.task, CallHook(e.call), CallId(e.call));
            out.l1 != s.l1 ==>
              && out.decided.Some? && out.decided.value.0 == d.action && ActionValid(d.action) && key.resourceId != 0
              && L1Lookup(s.l1, key, e.task.cpu, s.maps.epoch) == UNSET
              && out.l1 == L1Store(s.l1, key, e.task.cpu, s.maps.epoch, d)
  {
    d := MissStoresOwnKey(s.maps, s.l1, e.task, e.call);
    assert e.call.ConnectCall? && !e.call.address.Inet? ==> CallId(e.call) == 0;
  }

  lemma CallKeepsVouched(env: Env, live: Maps, s: State, e: Event)
    requires e.HookCall? && !s.maps.config.cacheFollowups
    requires Inv(env, s) && s.prior == Some(live)
    ensures Vouched(env, live, Next(s, e)) <==> Vouched(env, live, s) && CallAgrees(env, live, s, e)
  {
    var d := HookStoresOwnSlot(s, e);
    var after := Next(s, e);
    var mine := KeyFor(e.task, CallHook(e.call), CallId(e.call));
    if after.l1 != s.l1 {
      assert mine in after.l1 && e.task.cpu in after.l1[mine];
      forall k, c | k in s.l1 && c in s.l1[k] && s.l1[k][c].epoch == s.maps.epoch
        ensures k in after.l1 && c in after.l1[k] && after.l1[k][c] == s.l1[k][c]
      {
        assert EntryOk(env, s, k, s.l1[k][c]);
        if Allowed(env, live, k.hook, k.resourceId, s.l1[k][c].action) {
          AllowedIsValid(env, live, k.hook, k.resourceId, s.l1[k][c].action);
        } else {
          AllowedIsValid(env, s.maps, k.hook, k.resourceId, s.l1[k][c].action);
        }
      }
    }
  }

  lemma {:induction false} CallsKeepVouched(env: Env, live: Maps, s: State, es: seq<Event>)
    requires HookCalls(env, es) && !s.maps.config.cacheFollowups
    requires Inv(env, s) && NoZeroIds(s.l1) && s.prior == Some(live)
    ensures Vouched(env, live, Run(s, es)) <==> Vouched(env, live, s) && CallsAgree(env, live, s, es)
    ensures Inv(env, Run(s, es)) && Run(s, es) == s.(l1 := Run(s, es).l1)
    decreases |es|
  {
    if es != [] {
      CallKeepsVouched(env, live, s, es[0]);
      HookKeepsInv(env, s, es[0].task, es[0].call, es[0].ret);
      CallsKeepVouched(env, live, Next(s, es[0]), es[1..]);
    }
  }

  /**
   A failed epoch write rolls the config back while the epoch still vouches for what hooks stored
   after the flip. For a new policy without follow-up caching, the rollback keeps the cache coherent
   exactly when the old policy agrees with every answer stored in between.
   */
  lemma AbortIsCoherentIff(env: Env, s: State, c: Config, es: seq<Event>, n: Maps)
    requires Inv(env, s) && NoZeroIds(s.l1) && s.prior.None? && !c.cacheFollowups
    requires HookCalls(env, es) && Quiet(s.maps, n)
    ensures var flipped := Next(s, Flip(c));
            Inv(env, Next(Run(flipped, es), Abort(n))) <==> CallsAgree(env, s.maps, flipped, es)
  {
    var flipped := Next(s, Flip(c));
    FlipKeepsInv(env, s, c);
    assert Vouched(env, s.maps, flipped) by { InvIsVouched(env, s); }
    CallsKeepVouched(env, s.maps, flipped, es);
    AbortKeepsVouched(env, Run(flipped, es), n);
  }

  /** After the rollback the cache is coherent exactly when it was vouched for before. */
  lemma AbortKeepsVouched(env: Env, s: State, n: Maps)
    requires Inv(env, s) && s.prior.Some? && Quiet(s.prior.value, n)
    ensures Inv(env, Next(s, Abort(n))) <==> Vouched(env, s.prior.value, s)
  {
    var after := Next(s, Abort(n));
    QuietKeepsAllowed(env, s.prior.value, n);
    if Vouched(env, s.prior.value, s) {
      forall k, cpu | k in after.l1 && cpu in after.l1[k]
        ensures EntryOk(env, after, k, after.l1[k][cpu])
      {
        assert EntryOk(env, s, k, s.l1[k][cpu]);
      }
    }
    if Inv(env, after) {
      InvIsVouched(env, after);
      forall k, cpu | k in s.l1 && cpu in s.l1[k] && s.l1[k][cpu].epoch == s.maps.epoch
        ensures Allowed(env, s.prior.value, k.hook, k.resourceId, s.l1[k][cpu].action)
      {
        assert Allowed(env, n, k.hook, k.resourceId, s.l1[k][cpu].action);
      }
    }
  }

  lemma InvIsVouched(env: Env, s: State)
    requires Inv(env, s) && s.prior.None?
    ensures Vouched(env, s.maps, s)
  {
    forall k, cpu | k in s.l1 && cpu in s.l1[k] && s.l1[k][cpu].epoch == s.maps.epoch
      ensures Allowed(env, s.maps, k.hook, k.resourceId, s.l1[k][cpu].action)
    {
      assert EntryOk(env, s, k, s.l1[k][cpu]);
    }
  }

  lemma FlipKeepsInv(env: Env, s: State, c: Config)
    requires Inv(env, s) && s.prior.None?
    ensures Inv(env, Next(s, Flip(c)))
  {
    var after := Next(s, Flip(c));
    forall k, cpu | k in after.l1 && cpu in after.l1[k]
      ensures EntryOk(env, after, k, after.l1[k][cpu])
    {
      assert EntryOk(env, s, k, s.l1[k][cpu]);
    }
  }

  const DEFAULT_CONFIG := Config(ALLOW, true, false, 0, true, true, true, false, 1, 1, 1, SystemWide, 0)

  const EMPTY_POLICY := Maps([], DEFAULT_CONFIG, 1, map[], map[], map[], map[], map[], map[], map[])

  /**
   A hook that runs between the flip and a failing epoch write leaves the rejected policy's answer
   in the cache under the live epoch: here a connect the live policy allows stays denied.
   */
  lemma UsedAbortBreaksCoherence(env: Env)
    ensures var s := State(EMPTY_POLICY, map[], None, 1);
            var t, call := Task(0, 7, 7, []), ConnectCall(Inet(1, 80));
            var e1 := Flip(DEFAULT_CONFIG.(defaultAction := DENY, generation := 2));
            var e2, e3 := HookCall(t, call, 0), Abort(EMPTY_POLICY);
            var s1 := Next(s, e1);
            var s2 := Next(s1, e2);
            var s3 := Next(s2, e3);
            && Attached(s) && Legal(env, s, e1) && Legal(env, s1, e2) && Legal(env, s2, e3)
            && s3.maps == s.maps
            && HookStep(s3.maps, s3.l1, t, call, 0).decided == Some((DENY, L1))
            && Answer(s3.maps, call) == ALLOW
            && !Inv(env, s3)
  {
    var s := State(EMPTY_POLICY, map[], None, 1);
    var t, call := Task(0, 7, 7, []), ConnectCall(Inet(1, 80));
    var s1 := Next(s, Flip(DEFAULT_CONFIG.(defaultAction := DENY, generation := 2)));
    var s2 := Next(s1, HookCall(t, call, 0));
    var key := KeyFor(t, SocketConnect, SocketId(1, 80));
    assert s2.l1 == map[key := map[0 := CacheValue(1, DENY, 0)]];
    var s3 := Next(s2, Abort(EMPTY_POLICY));
    assert !EntryOk(env, s3, key, s3.l1[key][0]);
  }

  // ---------------------------------------------------------------- the epoch counter

  /** The epoch after `loads` successful loads. */
  function EpochAfter(loads: nat): U64 {
    if loads == 0 then 0 else NextEpoch(EpochAfter(loads - 1))
  }

  /** Counting on by one in a counter of `turn` places. */
  lemma NextPlace(n: nat, turn: nat)
    requires turn > 1
    ensures (n + 1) % turn == if n % turn == turn - 1 then 0 else n % turn + 1
  {
    var turns, place := n / turn, n % turn;
    assert n == turns * turn + place;
    if place == turn - 1 {
      assert n + 1 == (turns + 1) * turn;
      Remainder(n + 1, turns + 1, 0, turn);
    } else {
      Remainder(n + 1, turns, place + 1, turn);
    }
  }

  lemma {:induction false} NextMultiple(p: nat, q: nat, turn: nat)
    requires p < q
    ensures p * turn + turn <= q * turn
  {
    if p + 1 == q {
      assert q * turn == p * turn + turn;
    } else {
      NextMultiple(p, q - 1, turn);
      assert q * turn == (q - 1) * turn + turn;
    }
  }

  lemma Remainder(n: nat, q: nat, r: nat, turn: nat)
    requires r < turn && n == q * turn + r
    ensures n % turn == r
  {
    var quotient, remainder := n / turn, n % turn;
    assert n == quotient * turn + remainder;
    if q < quotient {
      NextMultiple(q, quotient, turn);
    } else if quotient < q {
      NextMultiple(quotient, q, turn);
    }
  }

  /** In closed form; epoch 0 never comes back, and consecutive epochs differ. */
  lemma {:induction false} EpochClosedForm(loads: nat)
    ensures loads > 0 ==> EpochAfter(loads) == (loads - 1) % U64_MAX + 1
    ensures EpochAfter(loads + 1) != EpochAfter(loads)
    ensures loads <= U64_MAX ==> EpochAfter(loads) == loads
  {
    if loads > 1 {
      EpochClosedForm(loads - 1);
      NextPlace(loads - 2, U64_MAX);
    }
  }

  /** Two loads get the same epoch, so that one can vouch for what the other stored, exactly at whole turns of the
      counter. */
  lemma EpochAliases(first: nat, second: nat)
    requires first > 0 && second > 0
    ensures EpochAfter(first) == EpochAfter(second) <==> (first - 1) % U64_MAX == (second - 1) % U64_MAX
  {
    EpochClosedForm(first);
    EpochClosedForm(second);
  }

  /** `n` reloads that install config `c` each time, with no hook in between. */
  function Reloads(c: Config, n: nat): (es: seq<Event>)
    ensures |es| == 2 * n
  {
    if n == 0 then [] else [Flip(c), Bump] + Reloads(c, n - 1)
  }

  lemma {:induction false} ReloadsCount(env: Env, s: State, c: Config, n: nat)
    requires s.prior.None? && s.maps.epoch == EpochAfter(s.loads)
    ensures ForwardRun(env, s, Reloads(c, n))
    ensures Run(s, Reloads(c, n)) ==
            State(s.maps.(config := if n == 0 then s.maps.config else c, epoch := EpochAfter(s.loads + n)),
                  s.l1, None, s.loads + n)
    decreases n
  {
    if n > 0 {
      var s1 := Next(s, Flip(c));
      var s2 := Next(s1, Bump);
      ReloadsCount(env, s2, c, n - 1);
      var es := Reloads(c, n);
      assert es == [Flip(c), Bump] + Reloads(c, n - 1);
      assert es[1..] == [Bump] + Reloads(c, n - 1);
      assert es[1..][1..] == Reloads(c, n - 1);
      assert Run(s, es) == Run(s1, es[1..]) == Run(s2, Reloads(c, n - 1));
      assert ForwardRun(env, s1, es[1..]);
    }
  }

  /**
   The bound on loads is tight: after one full turn of the epoch counter, an answer of the first
   policy is a hit again, whatever the policy is by then.
   */
  lemma FullTurnRevivesStaleEntry(env: Env)
    ensures var s := State(EMPTY_POLICY.(config := DEFAULT_CONFIG.(defaultAction := DENY)), map[], None, 1);
            var t, call := Task(0, 7, 7, []), ConnectCall(Inet(1, 80));
            var s1 := Next(s, HookCall(t, call, 0));
            var s2 := Run(s1, Reloads(DEFAULT_CONFIG, U64_MAX));
            && Attached(s) && Legal(env, s, HookCall(t, call, 0))
            && ForwardRun(env, s1, Reloads(DEFAULT_CONFIG, U64_MAX))
            && s2.loads == U64_MAX + 1
            && HookStep(s2.maps, s2.l1, t, call, 0).decided == Some((DENY, L1))
            && Answer(s2.maps, call) == ALLOW
  {
    var s := State(EMPTY_POLICY.(config := DEFAULT_CONFIG.(defaultAction := DENY)), map[], None, 1);
    var t, call := Task(0, 7, 7, []), ConnectCall(Inet(1, 80));
    var s1 := Next(s, HookCall(t, call, 0));
    var key := KeyFor(t, SocketConnect, SocketId(1, 80));
    assert s1.l1 == map[key := map[0 := CacheValue(1, DENY, 0)]];
    AfterFullTurn(env, s1, U64_MAX);
    var s2 := Run(s1, Reloads(DEFAULT_CONFIG, U64_MAX));
    assert L1Lookup(s2.l1, key, 0, s2.maps.epoch) == DENY;
  }

  lemma AfterFullTurn(env: Env, s: State, turns: nat)
    requires turns == U64_MAX && s.prior.None? && s.loads == s.maps.epoch == 1
    ensures ForwardRun(env, s, Reloads(DEFAULT_CONFIG, turns))
    ensures Run(s, Reloads(DEFAULT_CONFIG, turns)) == State(s.maps.(config := DEFAULT_CONFIG), s.l1, None, turns + 1)
  {
    EpochClosedForm(s.loads);
    ReloadsCount(env, s, DEFAULT_CONFIG, turns);
    EpochClosedForm(turns + 1);
  }
}
