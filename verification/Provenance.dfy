/**
 Whose answer a cached action is, in any life: also after failed epoch writes, whose policies stay candidates
 until the next load that succeeds.
 */
module Provenance {
  import opened Common
  import opened Policy
  import opened Compile
  import opened Hooks
  import opened Calls
  import opened Protocol
  import opened Stores
  import opened Aborts
  import opened Kernel
  import opened Loader
  import opened Reload
  import opened EndToEnd
  import opened Traffic

  /** A policy as its files state it. */
  datatype Source = Source(config: Config, rules: seq<Rule>)

  ghost predicate InForce(m: Maps, pol: Source) {
    m.config == pol.config && Serves(m, pol.rules) && Accepted(pol.rules)
  }

  /** One of the policies is the live one. */
  ghost predicate Live(m: Maps, pols: set<Source>) {
    exists pol :: pol in pols && InForce(m, pol)
  }

  /** The action follows from the policy, for every call the entry answers. */
  ghost predicate Vouches(env: Env, pol: Source, key: CacheKey, action: U32) {
    forall call | Conforms(env, call) && Readable(call) && CallHook(call) == key.hook && CallId(call) == key.resourceId
                  && (call.ConnectCall? ==> call.address.Inet?) ::
      Means(pol.config, pol.rules, call, action)
  }

  ghost predicate HasSource(env: Env, pols: set<Source>, key: CacheKey, action: U32) {
    exists pol :: pol in pols && Vouches(env, pol, key, action)
  }

  /** Every entry the current epoch vouches for is an answer of one of the policies. */
  ghost predicate Sourced(env: Env, s: State, pols: set<Source>) {
    && Bounded(s)
    && forall k, cpu ::
         var v := SlotValue(s.l1, k, cpu);
         v.Some? && v.value.epoch == s.maps.epoch && k.resourceId != 0 ==> HasSource(env, pols, k, v.value.action)
  }

  ghost predicate MeansOne(pols: set<Source>, call: Call, action: U32) {
    exists pol :: pol in pols && Means(pol.config, pol.rules, call, action)
  }

  // ---------------------------------------------------------------- one step

  lemma AllowedVouches(env: Env, m: Maps, pol: Source, key: CacheKey, action: U32)
    requires InForce(m, pol) && key.resourceId != 0 && Allowed(env, m, key.hook, key.resourceId, action)
    ensures Vouches(env, pol, key, action)
  {
    forall call | Conforms(env, call) && Readable(call) && CallHook(call) == key.hook && CallId(call) == key.resourceId
                  && (call.ConnectCall? ==> call.address.Inet?)
      ensures Means(pol.config, pol.rules, call, action)
    {
      AllowedAnswers(env, m, call, action);
      AnswersMean(m, pol.rules, call, action);
    }
  }

  /** What a call stores, the live policy allows. */
  lemma StoredAllowed(env: Env, s: State, t: Task, call: Call, ret: int, key: CacheKey)
    requires 1 <= s.loads == s.maps.epoch && Conforms(env, call) && key in StoredKeys(s.maps, s.l1, t, call, ret)
    ensures var d := HookStep(s.maps, s.l1, t, call, ret).decided;
            d.Some? && Allowed(env, s.maps, key.hook, key.resourceId, d.value.0)
  {
    var empty := State(s.maps, map[], None, s.loads);
    assert Inv(env, empty);
    MissKeepsInv(env, empty, t, call);
    MissStores(empty.maps, empty.l1, t, call);
    MissAnswers(empty.maps, empty.l1, t, call);
    MissAnswers(s.maps, s.l1, t, call);
    var after := empty.(l1 := Miss(empty.maps, empty.l1, t, call).l1);
    assert SlotValue(after.l1, key, t.cpu).Some?;
    assert EntryOk(env, after, key, after.l1[key][t.cpu]);
  }

  lemma CallStaysSourced(env: Env, s: State, pols: set<Source>, t: Task, call: Call, ret: int)
    requires Sourced(env, s, pols) && Live(s.maps, pols) && Conforms(env, call)
    requires Bounded(Next(s, HookCall(t, call, ret)))
    ensures Sourced(env, Next(s, HookCall(t, call, ret)), pols)
  {
    var out := HookStep(s.maps, s.l1, t, call, ret);
    var pol :| pol in pols && InForce(s.maps, pol);
    HookStores(s.maps, s.l1, t, call, ret);
    forall k, cpu | SlotValue(out.l1, k, cpu).Some? && SlotValue(out.l1, k, cpu).value.epoch == s.maps.epoch
                    && k.resourceId != 0
      ensures HasSource(env, pols, k, SlotValue(out.l1, k, cpu).value.action)
    {
      if k in StoredKeys(s.maps, s.l1, t, call, ret) && cpu == t.cpu {
        StoredAllowed(env, s, t, call, ret, k);
        AllowedVouches(env, s.maps, pol, k, out.decided.value.0);
      }
    }
  }

  lemma StepStaysSourced(env: Env, s: State, pols: set<Source>, e: Event)
    requires Sourced(env, s, pols) && Live(s.maps, pols) && Legal(env, s, e) && Next(s, e).loads <= U64_MAX
    ensures Sourced(env, Next(s, e), pols)
  {
    StepStaysBounded(s, e);
    if e.HookCall? {
      CallStaysSourced(env, s, pols, e.task, e.call, e.ret);
    } else {
      var after := Next(s, e).l1;
      assert forall k, c :: SlotValue(after, k, c).Some? ==> SlotValue(s.l1, k, c) == SlotValue(after, k, c);
    }
  }

  /** Cached or computed, an action follows from one of the policies. */
  lemma SourcedActionsMean(env: Env, s: State, pols: set<Source>, t: Task, call: Call, ret: int)
    requires Sourced(env, s, pols) && Live(s.maps, pols) && Conforms(env, call) && Readable(call)
    ensures var out := HookStep(s.maps, s.l1, t, call, ret);
            && (out.decided.Some? ==> MeansOne(pols, call, out.decided.value.0))
            && CodeFollows(s.maps.config, ret, out.code, out.decided)
  {
    CodeIff(s.maps, s.l1, t, call, ret);
    var d := HookStep(s.maps, s.l1, t, call, ret).decided;
    if d.Some? {
      var key := KeyFor(t, CallHook(call), CallId(call));
      var hit := L1Lookup(s.l1, key, t.cpu, s.maps.epoch);
      if hit != UNSET && (call.ConnectCall? ==> call.address.Inet?) {
        assert SlotValue(s.l1, key, t.cpu).Some?;
        var pol :| pol in pols && Vouches(env, pol, key, hit);
      } else {
        var pol :| pol in pols && InForce(s.maps, pol);
        MissAnswers(s.maps, s.l1, t, call);
        AnswersMean(s.maps, pol.rules, call, d.value.0);
      }
    }
  }

  // ---------------------------------------------------------------- runs

  /** At every point of the run one of the policies is live. */
  ghost predicate LiveThrough(s: State, es: seq<Event>, pols: set<Source>) {
    forall j | 0 <= j <= |es| :: Live(Run(s, es[..j]).maps, pols)
  }

  ghost predicate CallsConform(env: Env, es: seq<Event>) {
    forall i | 0 <= i < |es| && es[i].HookCall? :: Conforms(env, es[i].call)
  }

  lemma RunTail(s: State, es: seq<Event>, j: nat)
    requires j < |es|
    ensures Run(s, es[..j + 1]) == Run(Next(s, es[0]), es[1..][..j])
  {
    assert es[..j + 1][1..] == es[1..][..j];
  }

  lemma LiveTail(s: State, es: seq<Event>, pols: set<Source>)
    requires LiveThrough(s, es, pols) && es != []
    ensures Live(s.maps, pols) && LiveThrough(Next(s, es[0]), es[1..], pols)
  {
    assert Run(s, es[..0]) == s;
    forall j | 0 <= j <= |es[1..]|
      ensures Live(Run(Next(s, es[0]), es[1..][..j]).maps, pols)
    {
      RunTail(s, es, j);
      assert Live(Run(s, es[..j + 1]).maps, pols);
    }
  }

  lemma {:induction false} RunStaysSourced(env: Env, s: State, pols: set<Source>, es: seq<Event>)
    requires Sourced(env, s, pols) && PossibleRun(s, es) && CallsConform(env, es) && LiveThrough(s, es, pols)
    requires Run(s, es).loads <= U64_MAX
    ensures Sourced(env, Run(s, es), pols)
    decreases |es|
  {
    if es != [] {
      LoadsGrow(Next(s, es[0]), es[1..]);
      LiveTail(s, es, pols);
      StepStaysSourced(env, s, pols, es[0]);
      RunStaysSourced(env, Next(s, es[0]), pols, es[1..]);
    }
  }

  lemma {:induction false} PossiblePrefix(s: State, es: seq<Event>, k: nat)
    requires PossibleRun(s, es) && k <= |es|
    ensures PossibleRun(s, es[..k]) && Run(s, es[..k]).loads <= Run(s, es).loads
    decreases |es|
  {
    if k == 0 {
      LoadsGrow(s, es);
    } else {
      assert es[..k][1..] == es[1..][..k - 1];
      PossiblePrefix(Next(s, es[0]), es[1..], k - 1);
    }
  }

  /** Hooks and evictions change nothing about which policy is live. */
  lemma InterleavingStaysLive(s: State, es: seq<Event>, pols: set<Source>)
    requires PossibleRun(s, LoaderEvents(es)) && LiveThrough(s, LoaderEvents(es), pols)
    ensures LiveThrough(s, es, pols) && PossibleRun(s, es)
  {
    InterleavingIsPossible(s, s, es);
    forall k | 0 <= k <= |es|
      ensures Live(Run(s, es[..k]).maps, pols)
    {
      var j := LoaderEventsPrefix(es, k);
      PossiblePrefix(s, LoaderEvents(es), j);
      InterleavingIsPossible(s, s, es[..k]);
    }
  }

  lemma LivePrefix(s: State, es: seq<Event>, pols: set<Source>, part: seq<Event>)
    requires LiveThrough(s, es, pols) && part <= es
    ensures LiveThrough(s, part, pols) && Live(Run(s, part).maps, pols)
  {
    forall j | 0 <= j <= |part|
      ensures Live(Run(s, part[..j]).maps, pols)
    {
      assert part[..j] == es[..j];
    }
    assert part[..|part|] == part;
  }

  lemma PrefixSourced(env: Env, s: State, pols: set<Source>, es: seq<Event>, part: seq<Event>)
    requires Sourced(env, s, pols) && CallsConform(env, es) && part <= es && Run(s, es).loads <= U64_MAX
    requires PossibleRun(s, LoaderEvents(es)) && LiveThrough(s, LoaderEvents(es), pols)
    ensures Sourced(env, Run(s, part), pols) && Live(Run(s, part).maps, pols)
  {
    InterleavingStaysLive(s, es, pols);
    PossiblePart(s, es, part);
    LivePrefix(s, es, pols, part);
    RunStaysSourced(env, s, pols, part);
  }

  lemma PossiblePart(s: State, es: seq<Event>, part: seq<Event>)
    requires PossibleRun(s, es) && part <= es
    ensures PossibleRun(s, part) && Run(s, part).loads <= Run(s, es).loads
  {
    PossiblePrefix(s, es, |part|);
    assert es[..|part|] == part;
  }

  // ---------------------------------------------------------------- one load

  /** What the files of a load state, under the generation the loader chose. */
  function Proposed(l: Load): Source {
    Source(l.c, l.p.rules)
  }

  /** The policies an action may follow from while a load is under way. */
  function During(pols: set<Source>, l: Load): set<Source> {
    if l.outcome.Loaded? || l.outcome.EpochWriteFailed? then pols + {Proposed(l)} else pols
  }

  /** And after it. */
  function Afterwards(pols: set<Source>, l: Load): set<Source> {
    if l.outcome.Loaded? then {Proposed(l)} else During(pols, l)
  }

  lemma QuietStaysLive(m: Maps, n: Maps, pols: set<Source>)
    requires Quiet(m, n) && Live(m, pols)
    ensures Live(n, pols)
  {
    var pol :| pol in pols && InForce(m, pol);
    QuietServes(m, n, pol.rules);
    assert InForce(n, pol);
  }

  lemma MorePolicies(env: Env, s: State, pols: set<Source>, more: set<Source>)
    requires pols <= more && Sourced(env, s, pols)
    ensures Sourced(env, s, more)
  {
    forall k, cpu | SlotValue(s.l1, k, cpu).Some? && SlotValue(s.l1, k, cpu).value.epoch == s.maps.epoch
                    && k.resourceId != 0
      ensures HasSource(env, more, k, SlotValue(s.l1, k, cpu).value.action)
    {
      assert HasSource(env, pols, k, SlotValue(s.l1, k, cpu).value.action);
    }
  }

  lemma InsideIsLive(m: Maps, pols: set<Source>, l: Load, r: State)
    requires Live(m, pols) && Accepted(l.p.rules) && Inside(m, l.c, l.p.rules, r)
    ensures Live(r.maps, pols + {Proposed(l)})
  {
    if r.prior.None? && Quiet(m, r.maps) {
      QuietStaysLive(m, r.maps, pols);
    } else {
      assert InForce(r.maps, Proposed(l));
    }
  }

  lemma StagesStayLive(s: State, states: seq<Maps>, pols: set<Source>)
    requires Live(s.maps, pols) && AllQuiet(s.maps, states)
    ensures LiveThrough(s, StageAll(states), pols)
  {
    forall j | 0 <= j <= |states|
      ensures Live(Run(s, StageAll(states)[..j]).maps, pols)
    {
      assert StageAll(states)[..j] == StageAll(states[..j]);
      StagesInPart(s, states, j);
      if j > 0 {
        assert Quiet(s.maps, states[j - 1]);
        QuietStaysLive(s.maps, states[j - 1], pols);
      }
    }
  }

  lemma LoadedLive(env: Env, s: State, pols: set<Source>, seg: Segment)
    requires Live(s.maps, pols) && s.prior.None? && SegmentOk(env, s, seg) && seg.load.outcome.Loaded?
    ensures PossibleRun(s, OutcomeEvents(seg)) && LiveThrough(s, OutcomeEvents(seg), During(pols, seg.load))
  {
    var l, es := seg.load, OutcomeEvents(seg);
    LoadFollowsProtocol(env, s, l, seg.seen1, seg.seen2);
    ForwardRunIff(env, s, es);
    forall j | 0 <= j <= |es|
      ensures Live(Run(s, es[..j]).maps, pols + {Proposed(l)})
    {
      LoadStaysInside(s, l, seg.seen1, seg.seen2, j);
      InsideIsLive(l.m, pols, l, Run(s, es[..j]));
    }
  }

  lemma MoreLive(m: Maps, n: Maps, pols: set<Source>, pol: Source)
    requires Live(m, pols) && InForce(n, pol)
    ensures Live(m, pols + {pol}) && Live(n, pols + {pol})
  {
    var p :| p in pols && InForce(m, p);
    assert p in pols + {pol} && pol in pols + {pol};
  }

  lemma FailedLive(s: State, pols: set<Source>, l: Load, states: seq<Maps>, staged: Maps, es: seq<Event>,
                   more: set<Source>)
    requires Live(s.maps, pols) && s.prior.None? && states != [] && staged == states[|states| - 1]
    requires AllQuiet(s.maps, states) && Quiet(s.maps, l.n) && InForce(staged.(config := l.c), Proposed(l))
    requires es == StageAll(states) + [Flip(l.c), Abort(l.n)] && more == pols + {Proposed(l)}
    ensures LiveThrough(s, es, more)
  {
    MoreLive(s.maps, staged.(config := l.c), pols, Proposed(l));
    FailingChainLive(s, states, staged, l.c, l.n, more);
  }

  lemma FailingChainLive(s: State, states: seq<Maps>, last: Maps, c: Config, n: Maps, pols: set<Source>)
    requires s.prior.None? && states != [] && last == states[|states| - 1] && AllQuiet(s.maps, states)
    requires Quiet(s.maps, n) && Live(s.maps, pols) && Live(last.(config := c), pols)
    ensures LiveThrough(s, StageAll(states) + [Flip(c), Abort(n)], pols)
  {
    var es := StageAll(states) + [Flip(c), Abort(n)];
    StagesStayLive(s, states, pols);
    FailingChain(s, states, c, n);
    QuietStaysLive(s.maps, n, pols);
    forall j | 0 <= j <= |es|
      ensures Live(Run(s, es[..j]).maps, pols)
    {
      FailingChainCut(states, c, n, j);
      if j == |states| + 1 { FlippedLive(s, states, last, c, pols); }
    }
  }

  lemma FailingChainCut(states: seq<Maps>, c: Config, n: Maps, j: nat)
    requires j <= |states| + 2
    ensures var es := StageAll(states) + [Flip(c), Abort(n)];
            es[..j] == if j <= |states| then StageAll(states)[..j]
                       else if j == |states| + 1 then StageAll(states) + [Flip(c)]
                       else es
  {
  }

  lemma FlippedLive(s: State, states: seq<Maps>, last: Maps, c: Config, pols: set<Source>)
    requires states != [] && last == states[|states| - 1] && Live(last.(config := c), pols)
    ensures Live(Run(s, StageAll(states) + [Flip(c)]).maps, pols)
  {
    StagedThen(s, states, last, [Flip(c)]);
    assert Run(s.(maps := last), [Flip(c)]) == Next(s.(maps := last), Flip(c));
  }

  lemma RolledBackLive(env: Env, s: State, pols: set<Source>, seg: Segment)
    requires Live(s.maps, pols) && s.prior.None? && SegmentOk(env, s, seg)
    requires !seg.load.outcome.Loaded? && !seg.load.outcome.EpochWriteFailed?
    ensures PossibleRun(s, OutcomeEvents(seg)) && LiveThrough(s, OutcomeEvents(seg), pols)
    ensures Run(s, OutcomeEvents(seg)) == s
  {
    var l := seg.load;
    var states := if l.outcome.RolledBack? then seg.seen1 + [l.n] else [];
    if l.outcome.RolledBack? { SeenQuiet(l, seg.seen1, l.n); }
    assert OutcomeEvents(seg) == StageAll(states) == StageAll(states) + [];
    StagesPossible(s, s.maps, states, []);
    StagesStayLive(s, states, pols);
  }

  lemma SegmentLive(env: Env, s: State, pols: set<Source>, seg: Segment)
    requires Live(s.maps, pols) && s.prior.None? && SegmentOk(env, s, seg)
    ensures PossibleRun(s, LoaderEvents(seg.events)) && LiveThrough(s, LoaderEvents(seg.events), During(pols, seg.load))
  {
    if seg.load.outcome.Loaded? {
      LoadedLive(env, s, pols, seg);
    } else if seg.load.outcome.EpochWriteFailed? {
      FailureIsPossible(env, s, seg);
      var staged := Staged(seg.load.m, seg.load.p.rules, seg.load.p.lists, seg.load.c);
      FailureIsQuiet(env, s, seg, staged);
      FailedLive(s, pols, seg.load, seg.seen1 + [staged], staged, OutcomeEvents(seg), During(pols, seg.load));
    } else {
      RolledBackLive(env, s, pols, seg);
    }
  }

  /** A coherent cache under one policy. */
  lemma CoherentIsSourced(env: Env, s: State, pol: Source)
    requires Bounded(s) && Inv(env, s) && s.prior.None? && InForce(s.maps, pol)
    ensures Sourced(env, s, {pol})
  {
    forall k, cpu | SlotValue(s.l1, k, cpu).Some? && SlotValue(s.l1, k, cpu).value.epoch == s.maps.epoch
                    && k.resourceId != 0
      ensures HasSource(env, {pol}, k, SlotValue(s.l1, k, cpu).value.action)
    {
      assert EntryOk(env, s, k, s.l1[k][cpu]);
      AllowedVouches(env, s.maps, pol, k, s.l1[k][cpu].action);
    }
  }

  /** Between loads. */
  ghost predicate Rests(env: Env, s: State, pols: set<Source>) {
    Sourced(env, s, pols) && Live(s.maps, pols) && s.prior.None?
  }

  /** Wherever a load stands, with traffic: the policies of before, and the one under load. */
  lemma SegmentSourced(env: Env, s: State, pols: set<Source>, seg: Segment, es: seq<Event>)
    requires Rests(env, s, pols) && SegmentOk(env, s, seg) && s.loads < U64_MAX && es <= seg.events
    ensures Sourced(env, Run(s, es), During(pols, seg.load)) && Live(Run(s, es).maps, During(pols, seg.load))
  {
    SegmentLive(env, s, pols, seg);
    SegmentEnds(env, s, pols, seg);
    MorePolicies(env, s, pols, During(pols, seg.load));
    PrefixSourced(env, s, During(pols, seg.load), seg.events, es);
  }

  lemma SegmentEnds(env: Env, s: State, pols: set<Source>, seg: Segment)
    requires Live(s.maps, pols) && s.prior.None? && SegmentOk(env, s, seg)
    ensures var r := Run(s, seg.events);
            && r.loads <= s.loads + 1 && r.prior.None?
            && (if seg.load.outcome.Loaded? then r.maps == seg.load.n else Quiet(s.maps, r.maps))
  {
    var l := seg.load;
    SegmentLive(env, s, pols, seg);
    InterleavingIsPossible(s, s, seg.events);
    if l.outcome.Loaded? {
      LoadFollowsProtocol(env, s, l, seg.seen1, seg.seen2);
    } else if l.outcome.EpochWriteFailed? {
      FailureIsPossible(env, s, seg);
      LeftOverIsQuiet(l.m, l.p, l.c);
    } else {
      RolledBackLive(env, s, pols, seg);
    }
  }

  /** A successful load leaves answers of its own policy only. */
  lemma LoadedRests(env: Env, s: State, pols: set<Source>, seg: Segment)
    requires Rests(env, s, pols) && SegmentOk(env, s, seg) && s.loads < U64_MAX && seg.load.outcome.Loaded?
    ensures Rests(env, Run(s, seg.events), {Proposed(seg.load)})
  {
    var l := seg.load;
    var pol :| pol in pols && InForce(s.maps, pol);
    LoadedSettles(env, s, pol.rules, false, seg);
    LoadIsForward(env, s, l, seg.seen1, seg.seen2, seg.events);
    assert InForce(Run(s, seg.events).maps, Proposed(l));
    CoherentIsSourced(env, Run(s, seg.events), Proposed(l));
  }

  lemma SegmentRests(env: Env, s: State, pols: set<Source>, seg: Segment)
    requires Rests(env, s, pols) && SegmentOk(env, s, seg) && s.loads < U64_MAX
    ensures Rests(env, Run(s, seg.events), Afterwards(pols, seg.load)) && Run(s, seg.events).loads <= s.loads + 1
  {
    var l := seg.load;
    SegmentEnds(env, s, pols, seg);
    if l.outcome.Loaded? {
      LoadedRests(env, s, pols, seg);
    } else {
      SegmentSourced(env, s, pols, seg, seg.events);
    }
  }

  // ---------------------------------------------------------------- any life

  /** The policies an action may follow from after these loads: the last one loaded, and those whose epoch write has
      failed since. */
  function Candidates(pols: set<Source>, segs: seq<Segment>): set<Source>
    decreases |segs|
  {
    if segs == [] then pols else Candidates(Afterwards(pols, segs[0].load), segs[1..])
  }

  lemma {:induction false} LifetimeRests(env: Env, s: State, pols: set<Source>, segs: seq<Segment>)
    requires Rests(env, s, pols) && Lifetime(env, s, segs) && s.loads + |segs| <= U64_MAX
    ensures Rests(env, After(s, segs), Candidates(pols, segs)) && After(s, segs).loads <= s.loads + |segs|
    decreases |segs|
  {
    if segs != [] {
      SegmentRests(env, s, pols, segs[0]);
      LifetimeRests(env, Run(s, segs[0].events), Afterwards(pols, segs[0].load), segs[1..]);
    }
  }

  /**
   In any life whose rollbacks complete, failed epoch writes included, every action after the loads so far follows
   wholly from the policy loaded last, or wholly from one whose epoch write has failed since.
   */
  lemma LifetimeActionsHaveSource(env: Env, s: State, rs: seq<Rule>, segs: seq<Segment>, t: Task, call: Call, ret: int)
    requires Settles(env, s, rs, true) && Lifetime(env, s, segs) && s.loads + |segs| <= U64_MAX
    requires Conforms(env, call) && Readable(call)
    ensures var r := After(s, segs);
            var out := HookStep(r.maps, r.l1, t, call, ret);
            var pols := Candidates({Source(s.maps.config, rs)}, segs);
            && (out.decided.Some? ==> MeansOne(pols, call, out.decided.value.0))
            && CodeFollows(r.maps.config, ret, out.code, out.decided)
  {
    var pol := Source(s.maps.config, rs);
    assert InForce(s.maps, pol);
    CoherentIsSourced(env, s, pol);
    LifetimeRests(env, s, {pol}, segs);
    SourcedActionsMean(env, After(s, segs), Candidates({pol}, segs), t, call, ret);
  }

  /** The same at every point of the next load, whatever its outcome; the policy under load is one more candidate if
      the load gets past the config write. */
  lemma ActionsDuringAnyLoadHaveSource(env: Env, s: State, rs: seq<Rule>, segs: seq<Segment>, seg: Segment, k: nat,
                                       t: Task, call: Call, ret: int)
    requires Settles(env, s, rs, true) && Lifetime(env, s, segs) && s.loads + |segs| < U64_MAX
    requires SegmentOk(env, After(s, segs), seg) && k <= |seg.events| && Conforms(env, call) && Readable(call)
    ensures var r := Run(After(s, segs), seg.events[..k]);
            var out := HookStep(r.maps, r.l1, t, call, ret);
            var pols := During(Candidates({Source(s.maps.config, rs)}, segs), seg.load);
            && (out.decided.Some? ==> MeansOne(pols, call, out.decided.value.0))
            && CodeFollows(r.maps.config, ret, out.code, out.decided)
  {
    var pol := Source(s.maps.config, rs);
    var pols := Candidates({pol}, segs);
    assert InForce(s.maps, pol);
    CoherentIsSourced(env, s, pol);
    LifetimeRests(env, s, {pol}, segs);
    SegmentSourced(env, After(s, segs), pols, seg, seg.events[..k]);
    SourcedActionsMean(env, Run(After(s, segs), seg.events[..k]), During(pols, seg.load), t, call, ret);
  }

  lemma OneOfTwo(a: Source, b: Source, call: Call, action: U32)
    requires MeansOne({a} + {b}, call, action)
    ensures Means(a.config, a.rules, call, action) || Means(b.config, b.rules, call, action)
  {
  }

  /** In particular, while a load whose epoch write fails is under way an action follows from the old policy or from
      the rejected one. */
  lemma ActionsDuringFailedEpochMean(env: Env, s: State, rs: seq<Rule>, seg: Segment, k: nat, t: Task, call: Call,
                                     ret: int)
    requires Settles(env, s, rs, true) && s.loads < U64_MAX
    requires SegmentOk(env, s, seg) && seg.load.outcome.EpochWriteFailed? && k <= |seg.events|
    requires Conforms(env, call) && Readable(call)
    ensures var r := Run(s, seg.events[..k]);
            var out := HookStep(r.maps, r.l1, t, call, ret);
            && (out.decided.Some? ==> || Means(s.maps.config, rs, call, out.decided.value.0)
                                      || Means(seg.load.c, seg.load.p.rules, call, out.decided.value.0))
            && CodeFollows(r.maps.config, ret, out.code, out.decided)
  {
    var pol := Source(s.maps.config, rs);
    assert Candidates({pol}, []) == {pol} && Lifetime(env, s, []) && After(s, []) == s;
    ActionsDuringAnyLoadHaveSource(env, s, rs, [], seg, k, t, call, ret);
    var r := Run(s, seg.events[..k]);
    var d := HookStep(r.maps, r.l1, t, call, ret).decided;
    if d.Some? { OneOfTwo(pol, Proposed(seg.load), call, d.value.0); }
  }
}
