/**
 Scoping while a load is under way. The scope maps are not keyed by generation: the loader empties them and
 fills them entry by entry while the old config is live. What a hook may find of them in the meantime, and
 what that means for the processes the old policy guards.
 */
module Scoping {
  import opened Common
  import opened Policy
  import opened Rules
  import opened Hooks
  import opened Kernel
  import opened Loader
  import opened Protocol
  import Reload

  /** The maps with other scope maps. */
  function Rescoped(m: Maps, s: Scopes): Maps {
    m.(comms := s.comms, pids := s.pids, tgids := s.tgids)
  }

  /** A selector of the lists names the process. */
  predicate Named(lists: ScopeLists, t: Task) {
    t.pid in lists.pids || t.tgid in lists.tgids || t.comm in lists.comms
  }

  /** Hooks decide nothing for a call exactly when it is refused already or its process is out of scope. */
  lemma DecidedIff(m: Maps, l1: Cache, t: Task, call: Call, ret: int)
    ensures HookStep(m, l1, t, call, ret).decided.Some? <==> ret == 0 && ScopeMatches(m, t)
    ensures ret == 0 && !ScopeMatches(m, t) ==> HookStep(m, l1, t, call, ret) == HookOutcome(l1, 0, None)
  {
    MissAnswers(m, l1, t, call);
  }

  /** At every moment up to the config write a process in scope is one the old selectors put in scope, or one the new
      selectors name under the old profile and agent ids; whatever mixture of moments the hook finds. */
  lemma InScopeMeansNamed(m: Maps, p: Parsed, c: Config, o: LoadOutcome, tr: ScopeTrace, h: ScopeHistories, t: Task)
    requires ScopeSpec(m, p, c, o, tr) && Between(tr.start, h, tr.end)
    requires ScopeMatches(Rescoped(m, ScopesAt(h)), t)
    ensures || ScopeMatches(m, t)
            || (c.profileId == m.config.profileId && c.agentId == m.config.agentId && Named(p.lists, t))
  {
  }

  /** In scope at every moment from the start of the load to its config write, or to its failure before that. */
  ghost predicate StaysInScope(m: Maps, tr: ScopeTrace, t: Task) {
    forall h | Between(tr.start, h, tr.end) :: ScopeMatches(Rescoped(m, ScopesAt(h)), t)
  }

  /** A load that gets as far as the scope maps keeps a process in scope all the time if and only if the old mode is
      system-wide: there is a time at which all three scope maps are empty. */
  lemma StaysInScopeIff(m: Maps, p: Parsed, c: Config, o: LoadOutcome, tr: ScopeTrace, t: Task)
    requires ScopeSpec(m, p, c, o, tr) && Reaches(o)
    ensures StaysInScope(m, tr, t) <==> m.config.scopeMode == SystemWide
  {
    if StaysInScope(m, tr, t) {
      assert ScopeMatches(Rescoped(m, ScopesAt(tr.empty)), t);
    }
  }

  /** At that time, in scoped mode, every call of every process passes undecided, and leaves nothing in the cache. */
  lemma EmptiedScopesGuardNothing(m: Maps, p: Parsed, c: Config, o: LoadOutcome, tr: ScopeTrace,
                                  l1: Cache, t: Task, call: Call)
    requires ScopeSpec(m, p, c, o, tr) && Reaches(o) && m.config.scopeMode == Scoped
    ensures Between(tr.start, tr.empty, tr.end)
    ensures HookStep(Rescoped(m, ScopesAt(tr.empty)), l1, t, call, 0) == HookOutcome(l1, 0, None)
  {
    DecidedIff(Rescoped(m, ScopesAt(tr.empty)), l1, t, call, 0);
  }

  /** A load that fails before leaves scoping alone at every moment. */
  lemma EarlyFailureKeepsScoping(m: Maps, p: Parsed, c: Config, o: LoadOutcome, tr: ScopeTrace, h: ScopeHistories,
                                 t: Task)
    requires ScopeSpec(m, p, c, o, tr) && !Reaches(o) && Between(tr.start, h, tr.end)
    ensures ScopeMatches(Rescoped(m, ScopesAt(h)), t) <==> ScopeMatches(m, t)
  {
    assert h.comms == tr.start.comms && h.pids == tr.start.pids && h.tgids == tr.start.tgids;
  }

  /** A process that old and new policy both guard, which a successful load leaves unguarded for a moment: such loads
      exist from every admitted scoped policy. */
  lemma SomeLoadUnguards(m: Maps, p: Parsed, t: Task, call: Call) returns (l: Load, tr: ScopeTrace)
    requires ParsedOk(p) && Admitted(m, p.config) && m.config.scopeMode == Scoped && p.config.scopeMode == Scoped
    requires ScopeMatches(m, t) && Named(p.lists, t)
    ensures LoadSpec(l) && l.outcome.Loaded? && l.m == m && l.p == p && ScopeSpec(m, p, l.c, l.outcome, tr)
    ensures ScopeMatches(l.n, t) && Between(tr.start, tr.empty, tr.end)
    ensures forall l1: Cache :: HookStep(Rescoped(m, ScopesAt(tr.empty)), l1, t, call, 0) == HookOutcome(l1, 0, None)
  {
    l := Reload.AdmittedPolicyLoads(m, p, Histories([], [], [], []));
    tr := WholeTrace(ScopesOf(m), NewScopes(p.lists, l.c));
    Reload.ScopingIsExact(l, t);
    forall l1: Cache
      ensures HookStep(Rescoped(m, ScopesAt(tr.empty)), l1, t, call, 0) == HookOutcome(l1, 0, None)
    {
      EmptiedScopesGuardNothing(m, p, l.c, l.outcome, tr, l1, t, call);
    }
  }

  /** A trace through these contents. */
  lemma WholeTrace(was: Scopes, next: Scopes) returns (tr: ScopeTrace)
    ensures Traced(was, next, tr, true)
  {
    var start := ScopeHistories([was.comms], [was.pids], [was.tgids]);
    var empty := ScopeHistories([was.comms, map[]], [was.pids, map[]], [was.tgids, map[]]);
    var end := ScopeHistories([was.comms, map[], next.comms], [was.pids, map[], next.pids],
                              [was.tgids, map[], next.tgids]);
    tr := ScopeTrace(start, empty, end);
  }
}
