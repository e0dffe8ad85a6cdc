/**
 Return codes while a reload is between its config write and its epoch write: the action may still be the old
 policy's, but whether it is enforced is already up to the new one.
 */
module Enforcement {
  import opened Common
  import opened Policy
  import opened Hooks
  import opened Calls
  import opened Protocol

  /** The policy may answer the call with this code. */
  ghost predicate CodeOf(m: Maps, call: Call, code: int) {
    exists action: U32 :: Answers(m, call, action) && code == if action == DENY && m.config.enforce then -13 else 0
  }

  /** A cache that some run under policy `m` may have left. */
  ghost predicate Coherent(env: Env, m: Maps, l1: Cache) {
    m.epoch >= 1 && Inv(env, State(m, l1, None, m.epoch)) && NoZeroIds(l1)
  }

  /** Once config `c` is written, every code is still wholly one of the old policy's or one of the new one's, whatever
      the cache. */
  ghost predicate CodesArePure(env: Env, m: Maps, c: Config) {
    forall l1, t, call | Coherent(env, m, l1) && Conforms(env, call) && ScopeMatches(m.(config := c), t) ::
      var code := HookStep(m.(config := c), l1, t, call, 0).code;
      CodeOf(m, call, code) || CodeOf(m.(config := c), call, code)
  }

  /** The call can be answered from the cache. */
  predicate Cacheable(call: Call) {
    CallId(call) != 0 && (call.ConnectCall? ==> call.address.Inet?)
  }

  /** What the old policy may deny, the new one may deny as well. */
  ghost predicate DenialsStay(env: Env, m: Maps, next: Maps) {
    forall t, call | Conforms(env, call) && ScopeMatches(next, t) && Cacheable(call) && Answers(m, call, DENY) ::
      Answers(next, call, DENY)
  }

  /** An answer is allowed in the cache for every call that would hit it. */
  lemma AnswersAllowed(env: Env, m: Maps, call: Call, action: U32)
    requires Conforms(env, call) && Cacheable(call) && Answers(m, call, action)
    ensures Allowed(env, m, CallHook(call), CallId(call), action)
  {
    if call.ConnectCall? { SocketIdInverse(call.address.addr, call.address.port); }
  }

  function OneSlot(m: Maps, t: Task, call: Call): Cache {
    map[KeyFor(t, CallHook(call), CallId(call)) := map[t.cpu := CacheValue(m.epoch, DENY, 0)]]
  }

  /** A cached denial that the old policy did not enforce blocks under the new one. */
  lemma CachedDenialBlocks(env: Env, m: Maps, c: Config, t: Task, call: Call)
    requires m.epoch >= 1 && !m.config.enforce && c.enforce
    requires Conforms(env, call) && ScopeMatches(m.(config := c), t) && Cacheable(call) && Answers(m, call, DENY)
    ensures Coherent(env, m, OneSlot(m, t, call))
    ensures HookStep(m.(config := c), OneSlot(m, t, call), t, call, 0).code == -13
    ensures !CodeOf(m, call, -13)
  {
    AnswersAllowed(env, m, call, DENY);
  }

  lemma CodeIsPure(env: Env, m: Maps, c: Config, l1: Cache, t: Task, call: Call)
    requires Coherent(env, m, l1) && Conforms(env, call) && ScopeMatches(m.(config := c), t)
    requires m.config.enforce || !c.enforce || DenialsStay(env, m, m.(config := c))
    ensures var code := HookStep(m.(config := c), l1, t, call, 0).code;
            CodeOf(m, call, code) || CodeOf(m.(config := c), call, code)
  {
    var s, next := State(m, l1, None, m.epoch), m.(config := c);
    var out := HookStep(next, l1, t, call, 0);
    FlipKeepsInv(env, s, c);
    HookAnswers(env, Next(s, Flip(c)), t, call, 0);
    CodeIff(next, l1, t, call, 0);
    MissAnswers(next, l1, t, call);
    var action := out.decided.value.0;
    if !Answers(next, call, action) && m.config.enforce != c.enforce {
      if c.enforce {
        assert action == DENY ==> Cacheable(call);
      } else {
        assert Answers(next, call, Answer(next, call));
      }
    }
  }

  /**
   Exactly when no call gets a code that neither policy would give: the old policy enforced already, or the new
   one does not, or the new one denies as well whatever the old one denied without blocking it.
   */
  lemma CodesArePureIff(env: Env, m: Maps, c: Config)
    requires m.epoch >= 1
    ensures CodesArePure(env, m, c) <==> m.config.enforce || !c.enforce || DenialsStay(env, m, m.(config := c))
  {
    var next := m.(config := c);
    if m.config.enforce || !c.enforce || DenialsStay(env, m, next) {
      forall l1, t, call | Coherent(env, m, l1) && Conforms(env, call) && ScopeMatches(next, t)
        ensures var code := HookStep(next, l1, t, call, 0).code;
                CodeOf(m, call, code) || CodeOf(next, call, code)
      {
        CodeIsPure(env, m, c, l1, t, call);
      }
    } else if CodesArePure(env, m, c) {
      forall t, call | Conforms(env, call) && ScopeMatches(next, t) && Cacheable(call) && Answers(m, call, DENY)
        ensures Answers(next, call, DENY)
      {
        CachedDenialBlocks(env, m, c, t, call);
        assert CodeOf(next, call, -13);
      }
    }
  }

  const LENIENT := EMPTY_POLICY.(config := DEFAULT_CONFIG.(defaultAction := DENY, enforce := false))
  const STRICT := LENIENT.(config := DEFAULT_CONFIG)
  const CALLER := Task(0, 7, 7, [])
  const CONNECT := ConnectCall(Inet(1, 80))
  const DENIED: Cache := map[CacheKey(7, 7, SocketConnect, 0x1_0050) := map[0 := CacheValue(1, DENY, 0)]]

  lemma LenientCallPasses()
    ensures HookStep(LENIENT, map[], CALLER, CONNECT, 0) == HookOutcome(DENIED, 0, Some((DENY, L3)))
  {
  }

  lemma CachedCallIsBlocked()
    ensures HookStep(STRICT, DENIED, CALLER, CONNECT, 0) == HookOutcome(DENIED, -13, Some((DENY, L1)))
  {
    assert KeyFor(CALLER, SocketConnect, CallId(CONNECT)) == CacheKey(7, 7, SocketConnect, 0x1_0050);
  }

  lemma StrictCallPasses()
    ensures HookStep(STRICT.(epoch := 2), DENIED, CALLER, CONNECT, 0).code == 0
  {
    assert KeyFor(CALLER, SocketConnect, CallId(CONNECT)) == CacheKey(7, 7, SocketConnect, 0x1_0050);
    MissAnswers(STRICT.(epoch := 2), DENIED, CALLER, CONNECT);
  }

  /** Such a reload: the old policy denies by default without enforcing, the new one enforces and allows; in between a
      connect that neither blocks is blocked. */
  lemma SomeReloadBlocksWhatNeitherBlocks(env: Env)
    ensures var s := State(LENIENT, map[], None, 1);
            var s1 := Next(s, HookCall(CALLER, CONNECT, 0));
            var s2 := Next(s1, Flip(DEFAULT_CONFIG));
            var s3 := Next(s2, Bump);
            && Attached(s) && Legal(env, s, HookCall(CALLER, CONNECT, 0)) && Legal(env, s1, Flip(DEFAULT_CONFIG))
            && HookStep(s.maps, s.l1, CALLER, CONNECT, 0).code == 0
            && HookStep(s2.maps, s2.l1, CALLER, CONNECT, 0).code == -13
            && HookStep(s3.maps, s3.l1, CALLER, CONNECT, 0).code == 0
  {
    LenientCallPasses();
    CachedCallIsBlocked();
    StrictCallPasses();
    var s1 := Next(State(LENIENT, map[], None, 1), HookCall(CALLER, CONNECT, 0));
    assert s1 == State(LENIENT, DENIED, None, 1);
    assert Next(s1, Flip(DEFAULT_CONFIG)) == State(STRICT, DENIED, Some(LENIENT), 1);
    assert Next(State(STRICT, DENIED, Some(LENIENT), 1), Bump) == State(STRICT.(epoch := 2), DENIED, None, 2);
  }
}
