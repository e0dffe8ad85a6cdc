/** Which cache slots a hook call stores to, and what it stores. */
module Stores {
  import opened Common
  import opened Policy
  import opened Hooks

  /** The value a CPU has stored under a key, if it has. */
  function SlotValue(l1: Cache, key: CacheKey, cpu: nat): Option<CacheValue> {
    if key in l1 && cpu in l1[key] then Some(l1[key][cpu]) else None
  }

  /** No rules, and nothing to deny by default. */
  predicate Unruled(m: Maps) {
    m.config.ruleCount == 0 && m.config.defaultAction == ALLOW
  }

  /** The keys a call stores its decision under after a miss. */
  function MissKeys(m: Maps, t: Task, call: Call): set<CacheKey> {
    match call
    case ExecCall(b) =>
      {CacheKey(t.tgid, t.pid, Exec, if b.ino != 0 || (b.name != [] && Unruled(m)) then b.ino else b.hash)}
    case OpenCall(f) =>
      var id := if f.File? then f.ino else 0;
      if m.config.cacheFollowups
      then {CacheKey(t.tgid, t.pid, FileOpen, id), CacheKey(t.tgid, t.pid, FileRead, id),
            CacheKey(t.tgid, t.pid, FileWrite, id)}
      else {CacheKey(t.tgid, t.pid, FileOpen, id)}
    case PermissionCall(f, mask) =>
      {CacheKey(t.tgid, t.pid, if mask.write || mask.append then FileWrite else FileRead, if f.File? then f.ino else 0)}
    case ConnectCall(a) =>
      if a.OtherFamily? || Unruled(m) then {}
      else {CacheKey(t.tgid, t.pid, SocketConnect, if a.Inet? then a.addr * 0x1_0000 + a.port else 0)}
  }

  /** What a call stores after a miss: the decision of L2, or else of L3. */
  function MissDecision(m: Maps, call: Call): Decision {
    match call
    case ExecCall(b) => if b.name == [] then Decision(DENY, 0) else CommandDecide(m, Exec, b.name)
    case OpenCall(f) =>
      var l2 := L2FileArg(m.config, f, FileOpen);
      if l2 != UNSET then Decision(l2, 0) else PathDecide(m, FileOpen, FilePath(f))
    case PermissionCall(f, mask) =>
      var hook := PermissionHookOf(mask);
      var l2 := L2FileArg(m.config, f, hook);
      if l2 != UNSET then Decision(l2, 0) else ResourceDecide(m, hook, FileId(f))
    case ConnectCall(a) =>
      if a.OtherFamily? then Decision(ALLOW, 0)
      else NetworkDecide(m, if a.Inet? then a.addr else 0, if a.Inet? then a.port else 0)
  }

  /** The hook call is answered from the cache, or not at all. */
  predicate Unstored(m: Maps, l1: Cache, t: Task, call: Call, ret: int) {
    var out := HookStep(m, l1, t, call, ret);
    out.decided.None? || out.decided.value.1 == L1
  }

  /** The keys a call stores its decision under: none if it is answered from the cache, and never one with id 0. */
  function StoredKeys(m: Maps, l1: Cache, t: Task, call: Call, ret: int): set<CacheKey> {
    if Unstored(m, l1, t, call, ret) then {} else set k | k in MissKeys(m, t, call) && k.resourceId != 0
  }

  /** `after` is `before` with decision `d` stored on `cpu` under the `keys` that are not zero. */
  ghost predicate Stored(before: Cache, after: Cache, keys: set<CacheKey>, cpu: nat, epoch: U64, d: Decision) {
    forall k, c ::
      if k in keys && k.resourceId != 0 && c == cpu
      then SlotValue(after, k, c) == Some(CacheValue(epoch, d.action, d.ruleId))
      else SlotValue(after, k, c) == SlotValue(before, k, c)
  }

  lemma OneStored(l1: Cache, key: CacheKey, cpu: nat, epoch: U64, d: Decision)
    requires ActionValid(d.action)
    ensures Stored(l1, L1Store(l1, key, cpu, epoch, d), {key}, cpu, epoch, d)
  {
  }

  lemma MoreStored(a: Cache, b: Cache, c: Cache, first: set<CacheKey>, second: set<CacheKey>, cpu: nat, epoch: U64,
                   d: Decision)
    requires Stored(a, b, first, cpu, epoch, d) && Stored(b, c, second, cpu, epoch, d)
    ensures Stored(a, c, first + second, cpu, epoch, d)
  {
  }

  lemma OpenStores(m: Maps, l1: Cache, t: Task, f: FileArg, d: Decision)
    requires ActionValid(d.action)
    ensures Stored(l1, StoreOpen(m, l1, t, FileId(f), d), MissKeys(m, t, OpenCall(f)), t.cpu, m.epoch, d)
  {
    var id := FileId(f);
    var open, reading, write := KeyFor(t, FileOpen, id), KeyFor(t, FileRead, id), KeyFor(t, FileWrite, id);
    var l2 := L1Store(l1, open, t.cpu, m.epoch, d);
    OneStored(l1, open, t.cpu, m.epoch, d);
    if m.config.cacheFollowups {
      var l3 := L1Store(l2, reading, t.cpu, m.epoch, d);
      var l4 := L1Store(l3, write, t.cpu, m.epoch, d);
      OneStored(l2, reading, t.cpu, m.epoch, d);
      OneStored(l3, write, t.cpu, m.epoch, d);
      MoreStored(l1, l2, l3, {open}, {reading}, t.cpu, m.epoch, d);
      MoreStored(l1, l3, l4, {open} + {reading}, {write}, t.cpu, m.epoch, d);
      assert {open} + {reading} + {write} == {open, reading, write};
    }
  }

  /** Deciders never see what the shortcut without rules leaves out. */
  lemma UnruledDecides(m: Maps, call: Call)
    requires NoRulesAllow(m)
    ensures Unruled(m)
    ensures match call
            case ExecCall(b) => CommandDecide(m, Exec, b.name) == Decision(ALLOW, 0)
            case OpenCall(f) => PathDecide(m, FileOpen, FilePath(f)) == Decision(ALLOW, 0)
            case PermissionCall(f, mask) => ResourceDecide(m, PermissionHookOf(mask), FileId(f)) == Decision(ALLOW, 0)
            case ConnectCall(a) => forall addr: U32, port: U16 :: NetworkDecide(m, addr, port) == Decision(ALLOW, 0)
  {
  }

  /** A miss decides so. */
  lemma MissDecides(m: Maps, l1: Cache, t: Task, call: Call)
    ensures var out, d := Miss(m, l1, t, call), MissDecision(m, call);
            && out.decided.Some? && out.decided.value.0 == d.action && ActionValid(d.action)
            && out.decided.value.1 != L1
  {
    if NoRulesAllow(m) { UnruledDecides(m, call); }
  }

  lemma ExecStores(m: Maps, l1: Cache, t: Task, b: Bprm)
    requires ActionValid(MissDecision(m, ExecCall(b)).action)
    ensures Stored(l1, ExecMiss(m, l1, t, b).l1, MissKeys(m, t, ExecCall(b)), t.cpu, m.epoch,
                   MissDecision(m, ExecCall(b)))
  {
    if NoRulesAllow(m) { UnruledDecides(m, ExecCall(b)); }
    OneStored(l1, KeyFor(t, Exec, if b.name != [] && NoRulesAllow(m) then b.ino else BprmId(b)), t.cpu, m.epoch,
              MissDecision(m, ExecCall(b)));
  }

  lemma ConnectStores(m: Maps, l1: Cache, t: Task, a: Address)
    requires ActionValid(MissDecision(m, ConnectCall(a)).action)
    ensures Stored(l1, ConnectMiss(m, l1, t, a).l1, MissKeys(m, t, ConnectCall(a)), t.cpu, m.epoch,
                   MissDecision(m, ConnectCall(a)))
  {
    if !a.OtherFamily? && !NoRulesAllow(m) {
      OneStored(l1, KeyFor(t, SocketConnect, CallId(ConnectCall(a))), t.cpu, m.epoch, MissDecision(m, ConnectCall(a)));
    }
  }

  /** A miss stores its own decision under exactly these keys. */
  lemma MissStores(m: Maps, l1: Cache, t: Task, call: Call)
    ensures var out, d := Miss(m, l1, t, call), MissDecision(m, call);
            && out.decided.Some? && out.decided.value.0 == d.action && ActionValid(d.action)
            && out.decided.value.1 != L1
            && Stored(l1, out.l1, MissKeys(m, t, call), t.cpu, m.epoch, d)
  {
    var d := MissDecision(m, call);
    MissDecides(m, l1, t, call);
    if NoRulesAllow(m) { UnruledDecides(m, call); }
    match call
    case ExecCall(b) => ExecStores(m, l1, t, b);
    case OpenCall(f) => OpenStores(m, l1, t, f, d);
    case PermissionCall(f, mask) => OneStored(l1, KeyFor(t, PermissionHookOf(mask), FileId(f)), t.cpu, m.epoch, d);
    case ConnectCall(a) => ConnectStores(m, l1, t, a);
  }

  /** A hook call stores its decision under exactly these keys on its CPU, and changes no other slot. */
  lemma HookStores(m: Maps, l1: Cache, t: Task, call: Call, ret: int)
    ensures var out, d := HookStep(m, l1, t, call, ret), MissDecision(m, call);
            var keys := StoredKeys(m, l1, t, call, ret);
            && (keys != {} ==> out.decided.Some? && out.decided.value.0 == d.action && ActionValid(d.action))
            && Stored(l1, out.l1, keys, t.cpu, m.epoch, d)
  {
    if !Unstored(m, l1, t, call, ret) {
      MissStores(m, l1, t, call);
    }
  }
}
