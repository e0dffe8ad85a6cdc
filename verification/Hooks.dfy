/** One LSM hook invocation: scope check, L1 cache, L2, L3, and the stores it leaves in the cache. */
module Hooks {
  import opened Common
  import opened Policy

  datatype Task = Task(cpu: nat, pid: U32, tgid: U32, comm: Bytes)

  // ---------------------------------------------------------------- what the four hooks are called with

  /** `name` is empty when the file name is missing; `hash` is the nonzero hash of the name. */
  datatype Bprm = Bprm(name: Bytes, ino: U64, hash: U64)

  /** A missing file, a file without inode, or a file; `path` is empty when it cannot be read. */
  datatype FileArg = NoFile | NoInode(path: Bytes) | File(ino: U64, kind: FileType, path: Bytes)

  datatype Mask = Mask(read: bool, write: bool, append: bool)

  datatype Address = NoAddress | OtherFamily | Inet(addr: U32, port: U16)

  datatype Call =
    | ExecCall(bprm: Bprm)
    | OpenCall(file: FileArg)
    | PermissionCall(file: FileArg, mask: Mask)
    | ConnectCall(address: Address)

  function BprmId(b: Bprm): U64 {
    if b.ino != 0 then b.ino else b.hash
  }

  function FileId(f: FileArg): U64 {
    if f.File? then f.ino else 0
  }

  function FilePath(f: FileArg): Bytes {
    if f.NoFile? then [] else f.path
  }

  function PermissionHookOf(mask: Mask): Hook {
    if mask.write || mask.append then FileWrite else FileRead
  }

  function SocketId(addr: U32, port: U16): U64 {
    addr * 0x1_0000 + port
  }

  // ---------------------------------------------------------------- L1

  datatype CacheKey = CacheKey(tgid: U32, pid: U32, hook: Hook, resourceId: U64)

  datatype CacheValue = CacheValue(epoch: U64, action: U32, ruleId: U32)

  /**
   The per-CPU hash: each key has one slot a CPU. Inserting a key zero-fills the slots of the
   other CPUs, so a CPU without a stored value reads `ZERO_SLOT`.
   */
  type Cache = map<CacheKey, map<nat, CacheValue>>

  const ZERO_SLOT := CacheValue(0, ALLOW, 0)

  function Slot(l1: Cache, key: CacheKey, cpu: nat): Option<CacheValue> {
    if key !in l1 then None else if cpu in l1[key] then Some(l1[key][cpu]) else Some(ZERO_SLOT)
  }

  function L1Lookup(l1: Cache, key: CacheKey, cpu: nat, epoch: U64): U32 {
    var v := Slot(l1, key, cpu);
    if v.Some? && v.value.epoch == epoch && ActionValid(v.value.action) then v.value.action else UNSET
  }

  function L1Store(l1: Cache, key: CacheKey, cpu: nat, epoch: U64, d: Decision): Cache {
    if key.resourceId == 0 || !ActionValid(d.action) then l1
    else l1[key := (if key in l1 then l1[key] else map[])[cpu := CacheValue(epoch, d.action, d.ruleId)]]
  }

  function KeyFor(t: Task, hook: Hook, id: U64): CacheKey {
    CacheKey(t.tgid, t.pid, hook, id)
  }

  // ---------------------------------------------------------------- scope and return code

  function InScope(found: Option<ScopeValue>, c: Config, selector: Selector): bool {
    && found.Some? && found.value.profileId == c.profileId && found.value.agentId == c.agentId
    && found.value.selector == selector
  }

  function Find<K, V>(m: map<K, V>, k: K): Option<V> {
    if k in m then Some(m[k]) else None
  }

  predicate ScopeMatches(m: Maps, t: Task) {
    || m.config.scopeMode == SystemWide
    || InScope(Find(m.pids, t.pid), m.config, ByPid)
    || InScope(Find(m.tgids, t.tgid), m.config, ByTgid)
    || InScope(Find(m.comms, t.comm), m.config, ByComm)
  }

  function ActionRet(c: Config, action: U32): int {
    if !ActionValid(action) || (action == DENY && c.enforce) then -DENY_ERRNO else 0
  }

  // ---------------------------------------------------------------- the handlers

  datatype HookOutcome = HookOutcome(l1: Cache, code: int, decided: Option<(U32, Layer)>)

  function Decided(m: Maps, l1: Cache, action: U32, layer: Layer): HookOutcome {
    HookOutcome(l1, ActionRet(m.config, action), Some((action, layer)))
  }

  predicate NoRulesAllow(m: Maps) {
    m.config.ruleCount == 0 && DefaultAction(m.config) == ALLOW
  }

  function ExecMiss(m: Maps, l1: Cache, t: Task, b: Bprm): HookOutcome {
    var key := KeyFor(t, Exec, BprmId(b));
    if b.name == [] then Decided(m, L1Store(l1, key, t.cpu, m.epoch, Decision(DENY, 0)), DENY, L2)
    else if NoRulesAllow(m) then
      Decided(m, L1Store(l1, KeyFor(t, Exec, b.ino), t.cpu, m.epoch, Decision(ALLOW, 0)), ALLOW, L3)
    else
      var d := CommandDecide(m, Exec, b.name);
      Decided(m, L1Store(l1, key, t.cpu, m.epoch, d), d.action, L3)
  }

  function L2FileArg(c: Config, f: FileArg, hook: Hook): U32 {
    if f.File? then L2File(c, f.kind, hook) else UNSET
  }

  /** A file-open decision is stored for the open and, when the policy says so, for later reads and writes. */
  function StoreOpen(m: Maps, l1: Cache, t: Task, id: U64, d: Decision): Cache {
    var afterOpen := L1Store(l1, KeyFor(t, FileOpen, id), t.cpu, m.epoch, d);
    if m.config.cacheFollowups then
      var afterRead := L1Store(afterOpen, KeyFor(t, FileRead, id), t.cpu, m.epoch, d);
      L1Store(afterRead, KeyFor(t, FileWrite, id), t.cpu, m.epoch, d)
    else afterOpen
  }

  function OpenMiss(m: Maps, l1: Cache, t: Task, f: FileArg): HookOutcome {
    var l2, id := L2FileArg(m.config, f, FileOpen), FileId(f);
    if l2 != UNSET then Decided(m, StoreOpen(m, l1, t, id, Decision(l2, 0)), l2, L2)
    else if NoRulesAllow(m) then Decided(m, StoreOpen(m, l1, t, id, Decision(ALLOW, 0)), ALLOW, L3)
    else
      var d := PathDecide(m, FileOpen, FilePath(f));
      Decided(m, StoreOpen(m, l1, t, id, d), d.action, L3)
  }

  function PermissionMiss(m: Maps, l1: Cache, t: Task, f: FileArg, hook: Hook): HookOutcome {
    var l2, key := L2FileArg(m.config, f, hook), KeyFor(t, hook, FileId(f));
    if l2 != UNSET then Decided(m, L1Store(l1, key, t.cpu, m.epoch, Decision(l2, 0)), l2, L2)
    else if NoRulesAllow(m) then Decided(m, L1Store(l1, key, t.cpu, m.epoch, Decision(ALLOW, 0)), ALLOW, L3)
    else
      var d := ResourceDecide(m, hook, FileId(f));
      Decided(m, L1Store(l1, key, t.cpu, m.epoch, d), d.action, L3)
  }

  /** A missing address is decided as 0.0.0.0 port 0 and never stored; other families are allowed by L2. */
  function ConnectMiss(m: Maps, l1: Cache, t: Task, a: Address): HookOutcome {
    if a.OtherFamily? then Decided(m, l1, ALLOW, L2)
    else if NoRulesAllow(m) then Decided(m, l1, ALLOW, L3)
    else
      var addr, port := if a.Inet? then a.addr else 0, if a.Inet? then a.port else 0;
      var d := NetworkDecide(m, addr, port);
      Decided(m, L1Store(l1, KeyFor(t, SocketConnect, SocketId(addr, port)), t.cpu, m.epoch, d), d.action, L3)
  }

  function CallHook(call: Call): Hook {
    match call
    case ExecCall(_) => Exec
    case OpenCall(_) => FileOpen
    case PermissionCall(_, mask) => PermissionHookOf(mask)
    case ConnectCall(_) => SocketConnect
  }

  function CallId(call: Call): U64 {
    match call
    case ExecCall(b) => BprmId(b)
    case OpenCall(f) => FileId(f)
    case PermissionCall(f, _) => FileId(f)
    case ConnectCall(a) => if a.Inet? then SocketId(a.addr, a.port) else 0
  }

  function Miss(m: Maps, l1: Cache, t: Task, call: Call): HookOutcome {
    match call
    case ExecCall(b) => ExecMiss(m, l1, t, b)
    case OpenCall(f) => OpenMiss(m, l1, t, f)
    case PermissionCall(f, mask) => PermissionMiss(m, l1, t, f, PermissionHookOf(mask))
    case ConnectCall(a) => ConnectMiss(m, l1, t, a)
  }

  /** One hook invocation. `ret` is the verdict of the security modules before this one. */
  function HookStep(m: Maps, l1: Cache, t: Task, call: Call, ret: int): HookOutcome {
    if ret != 0 then HookOutcome(l1, ret, None)
    else if !ScopeMatches(m, t) then HookOutcome(l1, 0, None)
    else
      var hit := L1Lookup(l1, KeyFor(t, CallHook(call), CallId(call)), t.cpu, m.epoch);
      if hit != UNSET && (call.ConnectCall? ==> call.address.Inet?) then Decided(m, l1, hit, L1)
      else Miss(m, l1, t, call)
  }
}
