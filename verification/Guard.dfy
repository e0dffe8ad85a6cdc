/** The attached LSM programs (`mcp_guard.bpf.c`): L1, then on a miss the tail calls into L2 and L3. */
module Guard {
  import opened Common
  import opened Policy
  import opened Hooks
  import opened Calls
  import K = Kernel

  class Guard {
    const kernel: K.Kernel
    /** `l1_cache` */
    var l1: Cache

    constructor (kernel: K.Kernel)
      ensures this.kernel == kernel && l1 == map[]
    {
      this.kernel := kernel;
      l1 := map[];
    }

    function Maps(): Maps
      reads kernel, kernel.path, kernel.command, kernel.network, kernel.resource
      reads kernel.comms, kernel.pids, kernel.tgids
    {
      kernel.M()
    }

    /** `mcp_l1_store`: nothing under resource id 0, nothing but valid actions; a new key gets zeroed slots on the other
        CPUs. */
    method Store(key: CacheKey, cpu: nat, d: Decision)
      modifies this`l1
      ensures l1 == L1Store(old(l1), key, cpu, kernel.epoch, d)
    {
      if key.resourceId == 0 || !ActionValid(d.action) { return; }
      var value := CacheValue(kernel.epoch, d.action, d.ruleId);
      var slots: map<nat, CacheValue> := map[];
      if key in l1 { slots := l1[key]; }
      l1 := l1[key := slots[cpu := value]];
    }

    /** `mcp_cache_file_followups` */
    method CacheFollowups(t: Task, id: U64, d: Decision)
      modifies this`l1
      ensures l1 == if kernel.config.cacheFollowups then
                      L1Store(L1Store(old(l1), KeyFor(t, FileRead, id), t.cpu, kernel.epoch, d),
                              KeyFor(t, FileWrite, id), t.cpu, kernel.epoch, d)
                    else old(l1)
    {
      if !kernel.config.cacheFollowups { return; }
      var key := KeyFor(t, FileRead, id);
      Store(key, t.cpu, d);
      key := key.(hook := FileWrite);
      Store(key, t.cpu, d);
    }

    // ---------------------------------------------------------------- bprm_check_security

    method BprmCheckSecurity(t: Task, b: Bprm, ret: int) returns (code: int, decided: Option<(U32, Layer)>)
      modifies this`l1
      ensures HookOutcome(l1, code, decided) == HookStep(Maps(), old(l1), t, ExecCall(b), ret)
      ensures CodeFollows(kernel.config, ret, code, decided)
    {
      CodeIff(Maps(), l1, t, ExecCall(b), ret);
      if ret != 0 { return ret, None; }
      if !ScopeMatches(Maps(), t) { return 0, None; }
      var action := L1Lookup(l1, KeyFor(t, Exec, BprmId(b)), t.cpu, kernel.epoch);
      if action != UNSET {
        return ActionRet(kernel.config, action), Some((action, L1));
      }
      code, decided := BprmCheckSecurityL2(t, b);
    }

    method BprmCheckSecurityL2(t: Task, b: Bprm) returns (code: int, decided: Option<(U32, Layer)>)
      modifies this`l1
      ensures HookOutcome(l1, code, decided) == ExecMiss(Maps(), old(l1), t, b)
    {
      if b.name != [] {
        code, decided := BprmCheckSecurityL3(t, b);
        return;
      }
      Store(KeyFor(t, Exec, BprmId(b)), t.cpu, Decision(DENY, 0));
      return ActionRet(kernel.config, DENY), Some((DENY, L2));
    }

    method BprmCheckSecurityL3(t: Task, b: Bprm) returns (code: int, decided: Option<(U32, Layer)>)
      requires b.name != []
      modifies this`l1
      ensures HookOutcome(l1, code, decided) == ExecMiss(Maps(), old(l1), t, b)
    {
      if kernel.config.ruleCount == 0 {
        var action := DefaultAction(kernel.config);
        if action == ALLOW {
          Store(KeyFor(t, Exec, b.ino), t.cpu, Decision(action, 0));
          return ActionRet(kernel.config, action), Some((action, L3));
        }
      }
      var d := CommandDecide(Maps(), Exec, b.name);
      Store(KeyFor(t, Exec, BprmId(b)), t.cpu, d);
      return ActionRet(kernel.config, d.action), Some((d.action, L3));
    }

    // ---------------------------------------------------------------- file_open

    method FileOpenHook(t: Task, f: FileArg, ret: int) returns (code: int, decided: Option<(U32, Layer)>)
      modifies this`l1
      ensures HookOutcome(l1, code, decided) == HookStep(Maps(), old(l1), t, OpenCall(f), ret)
      ensures CodeFollows(kernel.config, ret, code, decided)
    {
      CodeIff(Maps(), l1, t, OpenCall(f), ret);
      if ret != 0 { return ret, None; }
      if !ScopeMatches(Maps(), t) { return 0, None; }
      var action := L1Lookup(l1, KeyFor(t, FileOpen, FileId(f)), t.cpu, kernel.epoch);
      if action != UNSET {
        return ActionRet(kernel.config, action), Some((action, L1));
      }
      code, decided := FileOpenL2(t, f);
    }

    method FileOpenL2(t: Task, f: FileArg) returns (code: int, decided: Option<(U32, Layer)>)
      modifies this`l1
      ensures HookOutcome(l1, code, decided) == OpenMiss(Maps(), old(l1), t, f)
    {
      var action := L2FileArg(kernel.config, f, FileOpen);
      if action == UNSET {
        code, decided := FileOpenL3(t, f);
        return;
      }
      Store(KeyFor(t, FileOpen, FileId(f)), t.cpu, Decision(action, 0));
      CacheFollowups(t, FileId(f), Decision(action, 0));
      return ActionRet(kernel.config, action), Some((action, L2));
    }

    method FileOpenL3(t: Task, f: FileArg) returns (code: int, decided: Option<(U32, Layer)>)
      requires L2FileArg(kernel.config, f, FileOpen) == UNSET
      modifies this`l1
      ensures HookOutcome(l1, code, decided) == OpenMiss(Maps(), old(l1), t, f)
    {
      if kernel.config.ruleCount == 0 {
        var action := DefaultAction(kernel.config);
        if action == ALLOW {
          Store(KeyFor(t, FileOpen, FileId(f)), t.cpu, Decision(action, 0));
          CacheFollowups(t, FileId(f), Decision(action, 0));
          return ActionRet(kernel.config, action), Some((action, L3));
        }
      }
      var d := PathDecide(Maps(), FileOpen, FilePath(f));
      Store(KeyFor(t, FileOpen, FileId(f)), t.cpu, d);
      CacheFollowups(t, FileId(f), d);
      return ActionRet(kernel.config, d.action), Some((d.action, L3));
    }

    // ---------------------------------------------------------------- file_permission

    method FilePermission(t: Task, f: FileArg, mask: Mask, ret: int) returns (code: int, decided: Option<(U32, Layer)>)
      modifies this`l1
      ensures HookOutcome(l1, code, decided) == HookStep(Maps(), old(l1), t, PermissionCall(f, mask), ret)
      ensures CodeFollows(kernel.config, ret, code, decided)
    {
      CodeIff(Maps(), l1, t, PermissionCall(f, mask), ret);
      if ret != 0 { return ret, None; }
      if !ScopeMatches(Maps(), t) { return 0, None; }
      var hook := FileRead;
      if mask.write || mask.append { hook := FileWrite; }
      var action := L1Lookup(l1, KeyFor(t, hook, FileId(f)), t.cpu, kernel.epoch);
      if action != UNSET {
        return ActionRet(kernel.config, action), Some((action, L1));
      }
      code, decided := FilePermissionL2(t, f, hook);
    }

    method FilePermissionL2(t: Task, f: FileArg, hook: Hook) returns (code: int, decided: Option<(U32, Layer)>)
      modifies this`l1
      ensures HookOutcome(l1, code, decided) == PermissionMiss(Maps(), old(l1), t, f, hook)
    {
      var action := L2FileArg(kernel.config, f, hook);
      if action == UNSET {
        code, decided := FilePermissionL3(t, f, hook);
        return;
      }
      Store(KeyFor(t, hook, FileId(f)), t.cpu, Decision(action, 0));
      return ActionRet(kernel.config, action), Some((action, L2));
    }

    method FilePermissionL3(t: Task, f: FileArg, hook: Hook) returns (code: int, decided: Option<(U32, Layer)>)
      requires L2FileArg(kernel.config, f, hook) == UNSET
      modifies this`l1
      ensures HookOutcome(l1, code, decided) == PermissionMiss(Maps(), old(l1), t, f, hook)
    {
      if kernel.config.ruleCount == 0 {
        var action := DefaultAction(kernel.config);
        if action == ALLOW {
          Store(KeyFor(t, hook, FileId(f)), t.cpu, Decision(action, 0));
          return ActionRet(kernel.config, action), Some((action, L3));
        }
      }
      var d := ResourceDecide(Maps(), hook, FileId(f));
      Store(KeyFor(t, hook, FileId(f)), t.cpu, d);
      return ActionRet(kernel.config, d.action), Some((d.action, L3));
    }

    // ---------------------------------------------------------------- socket_connect

    method SocketConnectHook(t: Task, a: Address, ret: int) returns (code: int, decided: Option<(U32, Layer)>)
      modifies this`l1
      ensures HookOutcome(l1, code, decided) == HookStep(Maps(), old(l1), t, ConnectCall(a), ret)
      ensures CodeFollows(kernel.config, ret, code, decided)
    {
      CodeIff(Maps(), l1, t, ConnectCall(a), ret);
      if ret != 0 { return ret, None; }
      if !ScopeMatches(Maps(), t) { return 0, None; }
      if a.Inet? {
        var action := L1Lookup(l1, KeyFor(t, SocketConnect, SocketId(a.addr, a.port)), t.cpu, kernel.epoch);
        if action != UNSET {
          return ActionRet(kernel.config, action), Some((action, L1));
        }
      }
      code, decided := SocketConnectL2(t, a);
    }

    method SocketConnectL2(t: Task, a: Address) returns (code: int, decided: Option<(U32, Layer)>)
      modifies this`l1
      ensures HookOutcome(l1, code, decided) == ConnectMiss(Maps(), old(l1), t, a)
    {
      if a.OtherFamily? {
        return ActionRet(kernel.config, ALLOW), Some((ALLOW, L2));
      }
      code, decided := SocketConnectL3(t, a);
    }

    method SocketConnectL3(t: Task, a: Address) returns (code: int, decided: Option<(U32, Layer)>)
      requires !a.OtherFamily?
      modifies this`l1
      ensures HookOutcome(l1, code, decided) == ConnectMiss(Maps(), old(l1), t, a)
    {
      if kernel.config.ruleCount == 0 {
        var action := DefaultAction(kernel.config);
        if action == ALLOW {
          return ActionRet(kernel.config, action), Some((action, L3));
        }
      }
      var addr: U32, port: U16 := 0, 0;
      if a.Inet? { addr, port := a.addr, a.port; }
      var d := NetworkDecide(Maps(), addr, port);
      Store(KeyFor(t, SocketConnect, SocketId(addr, port)), t.cpu, d);
      return ActionRet(kernel.config, d.action), Some((d.action, L3));
    }
  }
}
