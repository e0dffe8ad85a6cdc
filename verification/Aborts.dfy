/**
 A failed epoch write: the config is rolled back while the epoch still vouches for what hooks stored
 since it was written. When the cache is coherent afterwards, for every policy and every traffic in
 between, and how it recovers when it is not.
 */
module Aborts {
  import opened Common
  import opened Policy
  import opened Hooks
  import opened Protocol
  import opened Stores

  /** What can happen between the config write and the rollback: hook calls and evictions. */
  ghost predicate Traffic(env: Env, es: seq<Event>) {
    forall i | 0 <= i < |es| :: es[i].Evict? || (es[i].HookCall? && Conforms(env, es[i].call))
  }

  /** The event writes or removes the slot. */
  predicate Touches(s: State, e: Event, key: CacheKey, cpu: nat) {
    match e
    case HookCall(t, call, ret) => cpu == t.cpu && key in StoredKeys(s.maps, s.l1, t, call, ret)
    case Evict(k) => k == key
    case _ => false
  }

  predicate TouchedBy(s: State, es: seq<Event>, key: CacheKey, cpu: nat)
    decreases |es|
  {
    es != [] && (Touches(s, es[0], key, cpu) || TouchedBy(Next(s, es[0]), es[1..], key, cpu))
  }

  /** What the call decides, `live` allows under the key. */
  ghost predicate AgreesUnder(env: Env, live: Maps, s: State, e: Event, key: CacheKey)
    requires e.HookCall?
  {
    var d := HookStep(s.maps, s.l1, e.task, e.call, e.ret).decided;
    d.Some? && Allowed(env, live, key.hook, key.resourceId, d.value.0)
  }

  /** `live` allows every decision stored by a call, under each key it is stored under, unless the slot is overwritten
      or evicted later. */
  ghost predicate SurvivorsAgree(env: Env, live: Maps, s: State, es: seq<Event>)
    decreases |es|
  {
    es == [] ||
    (&& (es[0].HookCall? ==>
           forall k | k in StoredKeys(s.maps, s.l1, es[0].task, es[0].call, es[0].ret) ::
             TouchedBy(Next(s, es[0]), es[1..], k, es[0].task.cpu) || AgreesUnder(env, live, s, es[0], k))
     && SurvivorsAgree(env, live, Next(s, es[0]), es[1..]))
  }

  /** The same without looking ahead: every stored decision agrees. */
  ghost predicate StoresAgree(env: Env, live: Maps, s: State, es: seq<Event>)
    decreases |es|
  {
    es == [] ||
    (&& (es[0].HookCall? ==>
           forall k | k in StoredKeys(s.maps, s.l1, es[0].task, es[0].call, es[0].ret) ::
             AgreesUnder(env, live, s, es[0], k))
     && StoresAgree(env, live, Next(s, es[0]), es[1..]))
  }

  /** A slot the current epoch vouches for, which holds an answer of `live`. */
  ghost predicate SlotAgrees(env: Env, live: Maps, s: State, key: CacheKey, cpu: nat) {
    var v := SlotValue(s.l1, key, cpu);
    v.Some? && v.value.epoch == s.maps.epoch ==> Allowed(env, live, key.hook, key.resourceId, v.value.action)
  }

  ghost predicate UntouchedAgree(env: Env, live: Maps, s: State, es: seq<Event>) {
    forall k, c :: TouchedBy(s, es, k, c) || SlotAgrees(env, live, s, k, c)
  }

  lemma VouchedIsUntouched(env: Env, live: Maps, s: State)
    ensures Vouched(env, live, s) <==> UntouchedAgree(env, live, s, [])
  {
    if Vouched(env, live, s) {
      forall k, c ensures SlotAgrees(env, live, s, k, c) {}
    } else {
      var k, c :| k in s.l1 && c in s.l1[k] && s.l1[k][c].epoch == s.maps.epoch
                  && !Allowed(env, live, k.hook, k.resourceId, s.l1[k][c].action);
      assert !SlotAgrees(env, live, s, k, c);
      assert !TouchedBy(s, [], k, c);
    }
  }

  /** One event: the slots it leaves alone stay, those it stores hold its decision, those it evicts are gone. */
  lemma SlotAfter(env: Env, live: Maps, s: State, e: Event, key: CacheKey, cpu: nat)
    requires e.Evict? || e.HookCall?
    ensures var after := SlotAgrees(env, live, Next(s, e), key, cpu);
            if !Touches(s, e, key, cpu) then after <==> SlotAgrees(env, live, s, key, cpu)
            else if e.Evict? then after
            else after <==> AgreesUnder(env, live, s, e, key)
  {
    if e.HookCall? {
      HookStores(s.maps, s.l1, e.task, e.call, e.ret);
      var after := HookStep(s.maps, s.l1, e.task, e.call, e.ret).l1;
      assert SlotValue(after, key, cpu) == SlotValue(Next(s, e).l1, key, cpu);
    }
  }

  lemma TrafficStep(env: Env, live: Maps, s: State, es: seq<Event>)
    requires es != [] && (es[0].Evict? || es[0].HookCall?)
    ensures UntouchedAgree(env, live, Next(s, es[0]), es[1..]) <==>
            && UntouchedAgree(env, live, s, es)
            && (es[0].HookCall? ==>
                  forall k | k in StoredKeys(s.maps, s.l1, es[0].task, es[0].call, es[0].ret) ::
                    TouchedBy(Next(s, es[0]), es[1..], k, es[0].task.cpu) || AgreesUnder(env, live, s, es[0], k))
  {
    var e, next, rest := es[0], Next(s, es[0]), es[1..];
    forall k, c
      ensures TouchedBy(s, es, k, c) <==> Touches(s, e, k, c) || TouchedBy(next, rest, k, c)
      ensures !Touches(s, e, k, c) ==> (SlotAgrees(env, live, next, k, c) <==> SlotAgrees(env, live, s, k, c))
      ensures Touches(s, e, k, c) && e.Evict? ==> SlotAgrees(env, live, next, k, c)
      ensures Touches(s, e, k, c) && e.HookCall? ==>
                (SlotAgrees(env, live, next, k, c) <==> AgreesUnder(env, live, s, e, k))
    {
      SlotAfter(env, live, s, e, k, c);
    }
    if e.HookCall? {
      assert forall k | k in StoredKeys(s.maps, s.l1, e.task, e.call, e.ret) :: Touches(s, e, k, e.task.cpu);
    }
  }

  lemma {:induction false} TrafficVouched(env: Env, live: Maps, s: State, es: seq<Event>)
    requires Traffic(env, es)
    ensures Vouched(env, live, Run(s, es)) <==> UntouchedAgree(env, live, s, es) && SurvivorsAgree(env, live, s, es)
    decreases |es|
  {
    if es == [] {
      VouchedIsUntouched(env, live, s);
    } else {
      TrafficStep(env, live, s, es);
      TrafficVouched(env, live, Next(s, es[0]), es[1..]);
    }
  }

  lemma {:induction false} TrafficKeepsInv(env: Env, s: State, es: seq<Event>)
    requires Traffic(env, es) && Inv(env, s) && NoZeroIds(s.l1)
    ensures var r := Run(s, es);
            Inv(env, r) && NoZeroIds(r.l1) && r == s.(l1 := r.l1)
    decreases |es|
  {
    if es != [] {
      StepKeepsInv(env, s, es[0]);
      TrafficKeepsInv(env, Next(s, es[0]), es[1..]);
    }
  }

  /**
   For every new policy and every traffic since the config write: after a failed epoch write and its
   rollback the cache is coherent exactly when the old policy allows every surviving stored decision,
   under each key it was stored under.
   */
  lemma AbortIsCoherentIffSurvivors(env: Env, s: State, c: Config, es: seq<Event>, n: Maps)
    requires Inv(env, s) && NoZeroIds(s.l1) && s.prior.None? && Traffic(env, es) && Quiet(s.maps, n)
    ensures var flipped := Next(s, Flip(c));
            Inv(env, Next(Run(flipped, es), Abort(n))) <==> SurvivorsAgree(env, s.maps, flipped, es)
  {
    var flipped := Next(s, Flip(c));
    FlipKeepsInv(env, s, c);
    TrafficKeepsInv(env, flipped, es);
    FlippedAgree(env, s, c, es);
    TrafficVouched(env, s.maps, flipped, es);
    AbortKeepsVouched(env, Run(flipped, es), n);
  }

  lemma FlippedAgree(env: Env, s: State, c: Config, es: seq<Event>)
    requires Inv(env, s) && s.prior.None?
    ensures UntouchedAgree(env, s.maps, Next(s, Flip(c)), es)
  {
    InvIsVouched(env, s);
    forall k, cpu
      ensures SlotAgrees(env, s.maps, Next(s, Flip(c)), k, cpu)
    {
    }
  }

  lemma {:induction false} StoresAgreeIsEnough(env: Env, live: Maps, s: State, es: seq<Event>)
    requires StoresAgree(env, live, s, es)
    ensures SurvivorsAgree(env, live, s, es)
    decreases |es|
  {
    if es != [] { StoresAgreeIsEnough(env, live, Next(s, es[0]), es[1..]); }
  }

  /** In particular, it is coherent when the old policy allows whatever was stored. */
  lemma AgreeingStoresKeepCoherence(env: Env, s: State, c: Config, es: seq<Event>, n: Maps)
    requires Inv(env, s) && NoZeroIds(s.l1) && s.prior.None? && Traffic(env, es) && Quiet(s.maps, n)
    requires StoresAgree(env, s.maps, Next(s, Flip(c)), es)
    ensures Inv(env, Next(Run(Next(s, Flip(c)), es), Abort(n)))
  {
    StoresAgreeIsEnough(env, s.maps, Next(s, Flip(c)), es);
    AbortIsCoherentIffSurvivors(env, s, c, es, n);
  }

  // ---------------------------------------------------------------- over the two policies

  /** For whatever an in-scope call can store under the new policy, the old one allows the new one's answer. */
  ghost predicate PoliciesAgree(env: Env, live: Maps, next: Maps) {
    forall t, call, k
      | Conforms(env, call) && ScopeMatches(next, t) && k in MissKeys(next, t, call) && k.resourceId != 0 ::
      Allowed(env, live, k.hook, k.resourceId, Answer(next, call))
  }

  lemma StoredAgrees(env: Env, live: Maps, s: State, e: Event, k: CacheKey)
    requires e.HookCall? && Conforms(env, e.call) && PoliciesAgree(env, live, s.maps)
    requires k in StoredKeys(s.maps, s.l1, e.task, e.call, e.ret)
    ensures AgreesUnder(env, live, s, e, k)
  {
    MissAnswers(s.maps, s.l1, e.task, e.call);
    assert k in MissKeys(s.maps, e.task, e.call);
  }

  lemma {:induction false} AgreeingPoliciesStore(env: Env, live: Maps, s: State, es: seq<Event>)
    requires Traffic(env, es) && PoliciesAgree(env, live, s.maps)
    ensures StoresAgree(env, live, s, es)
    decreases |es|
  {
    if es != [] {
      var e := es[0];
      if e.HookCall? {
        forall k | k in StoredKeys(s.maps, s.l1, e.task, e.call, e.ret)
          ensures AgreesUnder(env, live, s, e, k)
        {
          StoredAgrees(env, live, s, e, k);
        }
      }
      AgreeingPoliciesStore(env, live, Next(s, e), es[1..]);
    }
  }

  /** The traffic that makes a call miss: evict the slot it would hit, then call. */
  function Missing(t: Task, call: Call): seq<Event> {
    [Evict(KeyFor(t, CallHook(call), CallId(call))), HookCall(t, call, 0)]
  }

  lemma MissingStores(env: Env, live: Maps, s: State, t: Task, call: Call, k: CacheKey)
    requires ScopeMatches(s.maps, t) && k in MissKeys(s.maps, t, call) && k.resourceId != 0
    requires SurvivorsAgree(env, live, s, Missing(t, call))
    ensures Allowed(env, live, k.hook, k.resourceId, Answer(s.maps, call))
  {
    var es := Missing(t, call);
    var evicted := Next(s, es[0]);
    assert es[1..] == [es[1]] && es[1..][1..] == [];
    assert SurvivorsAgree(env, live, evicted, es[1..]);
    MissAnswers(evicted.maps, evicted.l1, t, call);
    MissStores(evicted.maps, evicted.l1, t, call);
    assert k in StoredKeys(evicted.maps, evicted.l1, t, call, 0);
    assert !TouchedBy(Next(evicted, es[1]), [], k, t.cpu);
  }

  /** The rollback keeps the cache coherent whatever the traffic since the config write. */
  ghost predicate CoherentUnderAnyTraffic(env: Env, s: State, c: Config, n: Maps) {
    forall es | Traffic(env, es) :: Inv(env, Next(Run(Next(s, Flip(c)), es), Abort(n)))
  }

  /**
   A condition on the two policies, to be checked before the load: a failed epoch write leaves the cache
   coherent for every traffic if and only if the old policy allows the new one's answer to every call, under
   each key the call would be stored under.
   */
  lemma AbortIsCoherentForAllTrafficIff(env: Env, s: State, c: Config, n: Maps)
    requires Inv(env, s) && NoZeroIds(s.l1) && s.prior.None? && Quiet(s.maps, n)
    ensures CoherentUnderAnyTraffic(env, s, c, n) <==> PoliciesAgree(env, s.maps, s.maps.(config := c))
  {
    var flipped := Next(s, Flip(c));
    if PoliciesAgree(env, s.maps, flipped.maps) {
      forall es | Traffic(env, es)
        ensures Inv(env, Next(Run(flipped, es), Abort(n)))
      {
        AgreeingPoliciesStore(env, s.maps, flipped, es);
        AgreeingStoresKeepCoherence(env, s, c, es, n);
      }
    }
    if CoherentUnderAnyTraffic(env, s, c, n) {
      forall t, call, k | Conforms(env, call) && ScopeMatches(flipped.maps, t) && k in MissKeys(flipped.maps, t, call)
                          && k.resourceId != 0
        ensures Allowed(env, s.maps, k.hook, k.resourceId, Answer(flipped.maps, call))
      {
        var es := Missing(t, call);
        assert Traffic(env, es);
        AbortIsCoherentIffSurvivors(env, s, c, es, n);
        MissingStores(env, s.maps, flipped, t, call, k);
      }
    }
  }

  // ---------------------------------------------------------------- recovery

  /** No entry is ahead of the epoch. */
  ghost predicate Bounded(s: State) {
    && 1 <= s.loads == s.maps.epoch && NoZeroIds(s.l1)
    && (s.prior.Some? ==> s.prior.value.epoch == s.maps.epoch)
    && forall k, c :: SlotValue(s.l1, k, c).Some? ==> SlotValue(s.l1, k, c).value.epoch <= s.maps.epoch
  }

  lemma StoresNoZeroIds(s: State, t: Task, call: Call, ret: int)
    requires NoZeroIds(s.l1)
    ensures NoZeroIds(HookStep(s.maps, s.l1, t, call, ret).l1)
  {
  }

  lemma StepStaysBounded(s: State, e: Event)
    requires Bounded(s) && Possible(s, e) && Next(s, e).loads <= U64_MAX
    ensures Bounded(Next(s, e))
  {
    if e.HookCall? {
      HookStores(s.maps, s.l1, e.task, e.call, e.ret);
      StoresNoZeroIds(s, e.task, e.call, e.ret);
    } else {
      var after := Next(s, e).l1;
      assert forall k, c :: SlotValue(after, k, c).Some? ==> SlotValue(s.l1, k, c) == SlotValue(after, k, c);
    }
  }

  lemma {:induction false} RunStaysBounded(s: State, es: seq<Event>)
    requires Bounded(s) && PossibleRun(s, es) && Run(s, es).loads <= U64_MAX
    ensures Bounded(Run(s, es))
    decreases |es|
  {
    if es != [] {
      LoadsGrow(Next(s, es[0]), es[1..]);
      StepStaysBounded(s, es[0]);
      RunStaysBounded(Next(s, es[0]), es[1..]);
    }
  }

  /** A successful epoch write makes the cache coherent, whatever was in it. */
  lemma BumpCoheres(env: Env, s: State)
    requires Bounded(s) && s.prior.Some? && s.loads < U64_MAX
    ensures var next := Next(s, Bump);
            Inv(env, next) && NoZeroIds(next.l1)
  {
    var next := Next(s, Bump);
    forall k, c | k in next.l1 && c in next.l1[k]
      ensures EntryOk(env, next, k, next.l1[k][c])
    {
      assert SlotValue(s.l1, k, c) == Some(next.l1[k][c]);
    }
  }

  /** Whatever failed epoch writes left in the cache, the next epoch write that succeeds makes it coherent again. */
  lemma NextBumpRestoresCoherence(env: Env, s: State, es: seq<Event>)
    requires Attached(s) && PossibleRun(s, es)
    requires var r := Run(s, es); r.prior.Some? && r.loads < U64_MAX
    ensures var next := Next(Run(s, es), Bump);
            Inv(env, next) && NoZeroIds(next.l1)
  {
    assert forall k, c :: SlotValue(s.l1, k, c) == None;
    RunStaysBounded(s, es);
    BumpCoheres(env, Run(s, es));
  }
}
