/**
 Connects without any assumption about resource ids: address and port can be read back from a
 socket's id, so a cached connect decision is coherent in every run, whatever execs and files do.
 */
module Sockets {
  import opened Common
  import opened Policy
  import opened Hooks
  import opened Protocol
  import opened Stores

  /** Any run of hook calls, evictions and reload steps in which no epoch write fails. */
  ghost predicate AnyRun(s: State, es: seq<Event>)
    decreases |es|
  {
    es == [] || (Possible(s, es[0]) && !es[0].Abort? && AnyRun(Next(s, es[0]), es[1..]))
  }

  /** `action` is what policy `m` answers to connecting to the socket the id stands for. */
  predicate Connects(m: Maps, id: U64, action: U32) {
    id / 0x1_0000 <= U32_MAX && action == ConnectAnswer(m, id / 0x1_0000, id % 0x1_0000)
  }

  ghost predicate SocketOk(s: State, id: U64, v: CacheValue) {
    && id != 0 && v.epoch <= s.maps.epoch
    && (v.epoch == s.maps.epoch ==> Connects(Before(s), id, v.action) || Connects(s.maps, id, v.action))
  }

  ghost predicate SocketInv(s: State) {
    && 1 <= s.loads == s.maps.epoch
    && (s.prior.Some? ==> s.prior.value.epoch == s.maps.epoch)
    && forall key: CacheKey, cpu :: key.hook == SocketConnect && SlotValue(s.l1, key, cpu).Some? ==>
                            SocketOk(s, key.resourceId, SlotValue(s.l1, key, cpu).value)
  }

  /** A call stores a socket entry only for a connect, and then the live answer to it. */
  lemma CallKeepsSocketInv(s: State, t: Task, call: Call, ret: int)
    requires SocketInv(s)
    ensures SocketInv(Next(s, HookCall(t, call, ret)))
  {
    HookStores(s.maps, s.l1, t, call, ret);
    if call.ConnectCall? {
      ConnectDecision(s, t, call, ret);
    }
    var after := Next(s, HookCall(t, call, ret));
    forall k: CacheKey, c | k.hook == SocketConnect && SlotValue(after.l1, k, c).Some?
      ensures SocketOk(after, k.resourceId, SlotValue(after.l1, k, c).value)
    {
      if k !in StoredKeys(s.maps, s.l1, t, call, ret) || c != t.cpu {
        assert SlotValue(after.l1, k, c) == SlotValue(s.l1, k, c);
      }
    }
  }

  /** What a connect stores is the live answer under the socket's id. */
  lemma ConnectDecision(s: State, t: Task, call: Call, ret: int)
    requires call.ConnectCall?
    ensures forall k | k in StoredKeys(s.maps, s.l1, t, call, ret) ::
              Connects(s.maps, k.resourceId, HookStep(s.maps, s.l1, t, call, ret).decided.value.0)
  {
    var a := call.address;
    if a.Inet? {
      SocketIdInverse(a.addr, a.port);
      MissAnswers(s.maps, s.l1, t, call);
    }
  }

  lemma QuietKeepsConnects(m: Maps, n: Maps)
    requires Quiet(m, n)
    ensures forall id: U64, action: U32 :: Connects(m, id, action) == Connects(n, id, action)
  {
    QuietKeepsAnswers(m, n);
    forall id: U64, action: U32
      ensures Connects(m, id, action) == Connects(n, id, action)
    {
      if id / 0x1_0000 <= U32_MAX {
        assert NetworkDecide(m, id / 0x1_0000, id % 0x1_0000) == NetworkDecide(n, id / 0x1_0000, id % 0x1_0000);
      }
    }
  }

  lemma StepKeepsSocketInv(s: State, e: Event)
    requires SocketInv(s) && Possible(s, e) && !e.Abort? && Next(s, e).loads <= U64_MAX
    ensures SocketInv(Next(s, e))
  {
    if e.HookCall? {
      CallKeepsSocketInv(s, e.task, e.call, e.ret);
    } else {
      if e.Stage? { QuietKeepsConnects(s.maps, e.maps); }
      var after := Next(s, e);
      forall k: CacheKey, c | k.hook == SocketConnect && SlotValue(after.l1, k, c).Some?
        ensures SocketOk(after, k.resourceId, SlotValue(after.l1, k, c).value)
      {
        assert SlotValue(after.l1, k, c) == SlotValue(s.l1, k, c);
      }
    }
  }

  /** The invariant holds along every run of fewer than 2^64 loads. */
  lemma {:induction false} RunKeepsSocketInv(s: State, es: seq<Event>)
    requires SocketInv(s) && AnyRun(s, es) && Run(s, es).loads <= U64_MAX
    ensures SocketInv(Run(s, es))
    decreases |es|
  {
    if es != [] {
      LoadsGrow(Next(s, es[0]), es[1..]);
      StepKeepsSocketInv(s, es[0]);
      RunKeepsSocketInv(Next(s, es[0]), es[1..]);
    }
  }

  /** Cache coherence of connects: in every run, outside a flip, a current-epoch entry is the answer L3 would give
      now. */
  lemma SocketCacheIsCoherent(s: State, es: seq<Event>, key: CacheKey, cpu: nat)
    requires Attached(s) && AnyRun(s, es) && key.hook == SocketConnect
    requires var r := Run(s, es); r.loads <= U64_MAX && r.prior.None?
    requires var r := Run(s, es); key in r.l1 && cpu in r.l1[key] && r.l1[key][cpu].epoch == r.maps.epoch
    ensures var r := Run(s, es);
            && key.resourceId / 0x1_0000 <= U32_MAX
            && r.l1[key][cpu].action == ConnectAnswer(r.maps, key.resourceId / 0x1_0000, key.resourceId % 0x1_0000)
  {
    assert forall k, c :: SlotValue(s.l1, k, c) == None;
    RunKeepsSocketInv(s, es);
    assert SlotValue(Run(s, es).l1, key, cpu).Some?;
  }

  /** In every run the action of a connect is the answer of the live policy or, between flip and bump, of the previous
      one. */
  lemma ConnectActions(s: State, es: seq<Event>, t: Task, a: Address, ret: int)
    requires Attached(s) && AnyRun(s, es) && Run(s, es).loads <= U64_MAX
    ensures var r, call := Run(s, es), ConnectCall(a);
            var d := HookStep(r.maps, r.l1, t, call, ret).decided;
            d.Some? ==> d.value.0 == Answer(Before(r), call) || d.value.0 == Answer(r.maps, call)
  {
    assert forall k, c :: SlotValue(s.l1, k, c) == None;
    RunKeepsSocketInv(s, es);
    ConnectAnswers(Run(s, es), t, a, ret);
  }

  lemma ConnectAnswers(s: State, t: Task, a: Address, ret: int)
    requires SocketInv(s)
    ensures var call := ConnectCall(a);
            var d := HookStep(s.maps, s.l1, t, call, ret).decided;
            d.Some? ==> d.value.0 == Answer(Before(s), call) || d.value.0 == Answer(s.maps, call)
  {
    var call := ConnectCall(a);
    MissAnswers(s.maps, s.l1, t, call);
    if a.Inet? {
      SocketIdInverse(a.addr, a.port);
      var key := KeyFor(t, SocketConnect, SocketId(a.addr, a.port));
      assert L1Lookup(s.l1, key, t.cpu, s.maps.epoch) != UNSET ==> SlotValue(s.l1, key, t.cpu).Some?;
    }
  }

  /** Runs that conform to some environment are among them. */
  lemma {:induction false} ForwardRunsAreRuns(env: Env, s: State, es: seq<Event>)
    requires ForwardRun(env, s, es)
    ensures AnyRun(s, es)
    decreases |es|
  {
    if es != [] { ForwardRunsAreRuns(env, Next(s, es[0]), es[1..]); }
  }

  /** One inode executed under two names conforms to no environment, yet is a run. */
  lemma SomeRunsConformToNone(env: Env, t: Task)
    ensures var s := State(EMPTY_POLICY, map[], None, 1);
            var es := [HookCall(t, ExecCall(Bprm([1], 5, 1)), 0), HookCall(t, ExecCall(Bprm([2], 5, 1)), 0)];
            Attached(s) && AnyRun(s, es) && !ForwardRun(env, s, es)
  {
    var s := State(EMPTY_POLICY, map[], None, 1);
    var e1, e2 := HookCall(t, ExecCall(Bprm([1], 5, 1)), 0), HookCall(t, ExecCall(Bprm([2], 5, 1)), 0);
    assert [e1, e2][1..] == [e2] && [e2][1..] == [];
    assert AnyRun(Next(s, e1), [e2]);
    assert Conforms(env, e1.call) ==> !Conforms(env, e2.call) by {
      assert e1.call.bprm.name[0] != e2.call.bprm.name[0];
    }
  }
}
