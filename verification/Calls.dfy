/**
 What one hook call does, written out case by case for every config, state and call: whether it is decided at all,
 on which layer, what L1 and L2 decide, and with which return code.
 */
module Calls {
  import opened Common
  import opened Policy
  import opened Hooks
  import opened Protocol

  /** The return code of a call: the verdict of the modules before, or what follows from the action (-13 denies). */
  predicate CodeFollows(c: Config, ret: int, code: int, decided: Option<(U32, Layer)>) {
    if ret != 0 then decided.None? && code == ret
    else code == if decided.Some? && decided.value.0 == DENY && c.enforce then -13 else 0
  }

  /** A hook blocks if and only if it decides to deny and the policy is enforced; audited and allowed calls pass. */
  lemma CodeIff(m: Maps, l1: Cache, t: Task, call: Call, ret: int)
    ensures var out := HookStep(m, l1, t, call, ret);
            && CodeFollows(m.config, ret, out.code, out.decided)
            && (out.decided.Some? ==> out.decided.value.0 in {ALLOW, DENY, AUDIT})
  {
    MissAnswers(m, l1, t, call);
  }

  /** A selector found in a scope map under the live policy's ids, with the kind that belongs to the map. */
  ghost predicate Selected<K>(selectors: map<K, ScopeValue>, k: K, c: Config, selector: Selector) {
    k in selectors && selectors[k] == ScopeValue(c.profileId, c.agentId, selector)
  }

  /** The process is guarded: in a system-wide policy every one is, in a scoped policy those selected. */
  ghost predicate Guarded(m: Maps, t: Task) {
    || m.config.scopeMode == SystemWide
    || Selected(m.pids, t.pid, m.config, ByPid)
    || Selected(m.tgids, t.tgid, m.config, ByTgid)
    || Selected(m.comms, t.comm, m.config, ByComm)
  }

  lemma GuardedIff(m: Maps, t: Task)
    ensures ScopeMatches(m, t) <==> Guarded(m, t)
  {
  }

  /** Where a call looks in the cache. */
  ghost function CachedUnder(t: Task, call: Call): CacheKey {
    match call
    case ExecCall(b) => CacheKey(t.tgid, t.pid, Exec, if b.ino != 0 then b.ino else b.hash)
    case OpenCall(f) => CacheKey(t.tgid, t.pid, FileOpen, if f.File? then f.ino else 0)
    case PermissionCall(f, mask) =>
      CacheKey(t.tgid, t.pid, if mask.write || mask.append then FileWrite else FileRead, if f.File? then f.ino else 0)
    case ConnectCall(a) => CacheKey(t.tgid, t.pid, SocketConnect, if a.Inet? then a.addr * 0x1_0000 + a.port else 0)
  }

  /** The slot of the calling CPU; a CPU that has not stored under a present key finds zeros. */
  ghost predicate SlotHolds(l1: Cache, key: CacheKey, cpu: nat, epoch: U64, action: U32) {
    && key in l1 && action in {ALLOW, DENY, AUDIT}
    && if cpu in l1[key] then l1[key][cpu].epoch == epoch && l1[key][cpu].action == action
       else epoch == 0 && action == ALLOW
  }

  ghost predicate Hits(l1: Cache, key: CacheKey, cpu: nat, epoch: U64) {
    exists action: U32 :: SlotHolds(l1, key, cpu, epoch, action)
  }

  /** The calls L2 decides: an exec without a name, and what is safe whatever the rules say. */
  predicate DecidedByL2(c: Config, call: Call) {
    match call
    case ExecCall(b) => b.name == []
    case OpenCall(f) => f.File? && !c.skipL2Safe && f.kind == OtherType
    case PermissionCall(f, mask) =>
      && f.File? && !c.skipL2Safe
      && (f.kind == OtherType || (f.kind == Directory && c.skipDirRead && !mask.write && !mask.append))
    case ConnectCall(a) => a.OtherFamily?
  }

  /**
   Layer by layer: undecided exactly when refused already or unguarded; decided by L1 exactly when the slot of
   the calling CPU holds a valid action of the live epoch, which is then the action; otherwise by L2, which
   denies an exec without a name and allows the rest, or by L3.
   */
  lemma DecidedWhereAndHow(m: Maps, l1: Cache, t: Task, call: Call, ret: int)
    ensures var out := HookStep(m, l1, t, call, ret);
            var key := CachedUnder(t, call);
            && (out.decided.None? <==> ret != 0 || !Guarded(m, t))
            && (out.decided.None? ==> out.l1 == l1)
            && (out.decided.Some? ==>
                  var (action, layer) := out.decided.value;
                  if Hits(l1, key, t.cpu, m.epoch) && (call.ConnectCall? ==> call.address.Inet?) then
                    layer == L1 && SlotHolds(l1, key, t.cpu, m.epoch, action) && out.l1 == l1
                  else if DecidedByL2(m.config, call) then
                    layer == L2 && action == if call.ExecCall? then DENY else ALLOW
                  else layer == L3)
  {
    var out := HookStep(m, l1, t, call, ret);
    GuardedIff(m, t);
    if out.decided.Some? {
      LookupHolds(l1, CachedUnder(t, call), t.cpu, m.epoch);
      MissLayer(m, l1, t, call);
    }
  }

  /** A lookup finds the action the slot holds, if it holds one. */
  lemma LookupHolds(l1: Cache, key: CacheKey, cpu: nat, epoch: U64)
    ensures var hit := L1Lookup(l1, key, cpu, epoch);
            if Hits(l1, key, cpu, epoch) then hit != UNSET && SlotHolds(l1, key, cpu, epoch, hit) else hit == UNSET
  {
    var hit := L1Lookup(l1, key, cpu, epoch);
    if hit != UNSET {
      assert SlotHolds(l1, key, cpu, epoch, hit);
    }
  }

  lemma MissLayer(m: Maps, l1: Cache, t: Task, call: Call)
    ensures var d := Miss(m, l1, t, call).decided;
            d.Some? && (if DecidedByL2(m.config, call) then d.value == (if call.ExecCall? then DENY else ALLOW, L2)
                        else d.value.1 == L3)
  {
    match call
    case ExecCall(_) =>
    case OpenCall(_) =>
    case PermissionCall(_, _) =>
    case ConnectCall(_) =>
  }
}
