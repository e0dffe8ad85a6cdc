/** Loads under traffic: what every action in the middle of a load means, and what any sequence of loads leaves. */
module Traffic {
  import opened Common
  import opened Lpm
  import opened Policy
  import opened Compile
  import opened Hooks
  import opened Calls
  import opened Protocol
  import opened Kernel
  import opened Loader
  import opened Reload
  import opened EndToEnd
  import opened Aborts

  // ---------------------------------------------------------------- runs in parts

  lemma {:induction false} RunInParts(s: State, a: seq<Event>, b: seq<Event>)
    ensures Run(s, a + b) == Run(Run(s, a), b)
    decreases |a|
  {
    if a == [] {
      assert a + b == b;
    } else {
      assert (a + b)[1..] == a[1..] + b;
      RunInParts(Next(s, a[0]), a[1..], b);
    }
  }

  lemma {:induction false} ForwardPrefix(env: Env, s: State, es: seq<Event>, k: nat)
    requires ForwardRun(env, s, es) && k <= |es|
    ensures ForwardRun(env, s, es[..k]) && Run(s, es[..k]).loads <= Run(s, es).loads
    decreases |es|
  {
    if k == 0 {
      LoadsGrow(s, es);
    } else {
      assert es[..k][1..] == es[1..][..k - 1];
      ForwardPrefix(env, Next(s, es[0]), es[1..], k - 1);
    }
  }

  /** The loader events of a prefix are a prefix of the loader events. */
  lemma {:induction false} LoaderEventsPrefix(es: seq<Event>, k: nat) returns (j: nat)
    requires k <= |es|
    ensures j <= |LoaderEvents(es)| && LoaderEvents(es[..k]) == LoaderEvents(es)[..j]
    decreases |es|
  {
    if k == 0 {
      j := 0;
    } else {
      assert es[..k][0] == es[0] && es[..k][1..] == es[1..][..k - 1];
      j := LoaderEventsPrefix(es[1..], k - 1);
      if IsLoaderEvent(es[0]) {
        assert LoaderEvents(es)[..j + 1] == [es[0]] + LoaderEvents(es[1..])[..j];
        j := j + 1;
      }
    }
  }

  lemma {:induction false} StagesInPart(s: State, states: seq<Maps>, j: nat)
    requires j <= |states|
    ensures Run(s, StageAll(states[..j])) == if j == 0 then s else s.(maps := states[j - 1])
    decreases j
  {
    if j > 0 {
      var before := StageAll(states[..j - 1]);
      assert StageAll(states[..j]) == before + [Stage(states[j - 1])];
      StagesInPart(s, states, j - 1);
      RunInParts(s, before, [Stage(states[j - 1])]);
    }
  }

  // ---------------------------------------------------------------- inside a load

  lemma QuietServes(m: Maps, n: Maps, rs: seq<Rule>)
    requires Quiet(m, n) && Serves(m, rs)
    ensures Serves(n, rs)
  {
  }

  /** A state while maps `m` are being replaced by config `c` and rule list `rs`: before the flip, between flip and
      bump, or after the bump. */
  ghost predicate Inside(m: Maps, c: Config, rs: seq<Rule>, r: State) {
    || (r.prior.None? && Quiet(m, r.maps))
    || ((r.prior.Some? ==> Quiet(m, r.prior.value)) && r.maps.config == c && Serves(r.maps, rs))
  }

  lemma BeforeFlipInside(s: State, c: Config, rs: seq<Rule>, states: seq<Maps>, j: nat)
    requires s.prior.None? && AllQuiet(s.maps, states) && j <= |states|
    ensures Inside(s.maps, c, rs, Run(s, StageAll(states[..j])))
  {
    StagesInPart(s, states, j);
    if j > 0 { assert Quiet(s.maps, states[j - 1]); }
  }

  lemma AfterBumpInside(s: State, m: Maps, rs: seq<Rule>, states: seq<Maps>, j: nat)
    requires s.prior.None? && Serves(s.maps, rs) && AllQuiet(s.maps, states) && j <= |states|
    ensures Inside(m, s.maps.config, rs, Run(s, StageAll(states[..j])))
  {
    StagesInPart(s, states, j);
    if j > 0 {
      assert Quiet(s.maps, states[j - 1]);
      QuietServes(s.maps, states[j - 1], rs);
    }
  }

  function Chain(states1: seq<Maps>, c: Config, states2: seq<Maps>): (es: seq<Event>)
    ensures |es| == |states1| + 2 + |states2|
  {
    StageAll(states1) + ([Flip(c), Bump] + StageAll(states2))
  }

  lemma ChainCutTail(states1: seq<Maps>, c: Config, states2: seq<Maps>, j: nat)
    requires j <= |states2|
    ensures Chain(states1, c, states2)[..|states1| + 2 + j] ==
            StageAll(states1) + ([Flip(c), Bump] + StageAll(states2[..j]))
  {
  }

  lemma FlippedInside(s: State, m: Maps, c: Config, rs: seq<Rule>)
    requires s.prior.None? && Quiet(m, s.maps) && Serves(s.maps.(config := c), rs)
    ensures Inside(m, c, rs, Run(s, [Flip(c)]))
  {
    assert Run(s, [Flip(c)]) == Next(s, Flip(c));
  }

  lemma ServesAtAnyEpoch(m: Maps, epoch: U64, rs: seq<Rule>)
    requires Serves(m, rs)
    ensures Serves(m.(epoch := epoch), rs)
  {
  }

  lemma BumpedInside(s: State, m: Maps, c: Config, rs: seq<Rule>, states: seq<Maps>, j: nat)
    requires s.prior.None? && Serves(s.maps.(config := c), rs) && j <= |states|
    requires AllQuiet(s.maps.(config := c, epoch := NextEpoch(s.maps.epoch)), states)
    ensures Inside(m, c, rs, Run(s, [Flip(c), Bump] + StageAll(states[..j])))
  {
    var flipped := s.maps.(config := c);
    ServesAtAnyEpoch(flipped, NextEpoch(s.maps.epoch), rs);
    FlipThenBump(s, c, StageAll(states[..j]));
    AfterBumpInside(State(flipped.(epoch := NextEpoch(s.maps.epoch)), s.l1, None, s.loads + 1), m, rs, states, j);
  }

  lemma StagedThen(s: State, states: seq<Maps>, last: Maps, rest: seq<Event>)
    requires states != [] && last == states[|states| - 1]
    ensures Run(s, StageAll(states) + rest) == Run(s.(maps := last), rest)
  {
    assert states[..|states|] == states;
    StagesInPart(s, states, |states|);
    RunInParts(s, StageAll(states), rest);
  }

  lemma CutBeforeFlip(s: State, states1: seq<Maps>, c: Config, rs: seq<Rule>, states2: seq<Maps>, j: nat)
    requires s.prior.None? && AllQuiet(s.maps, states1) && j <= |states1|
    ensures Inside(s.maps, c, rs, Run(s, Chain(states1, c, states2)[..j]))
  {
    assert Chain(states1, c, states2)[..j] == StageAll(states1[..j]);
    BeforeFlipInside(s, c, rs, states1, j);
  }

  lemma CutAtFlip(s: State, states1: seq<Maps>, last: Maps, c: Config, rs: seq<Rule>, states2: seq<Maps>)
    requires s.prior.None? && states1 != [] && last == states1[|states1| - 1]
    requires Quiet(s.maps, last) && Serves(last.(config := c), rs)
    ensures Inside(s.maps, c, rs, Run(s, Chain(states1, c, states2)[..|states1| + 1]))
  {
    assert Chain(states1, c, states2)[..|states1| + 1] == StageAll(states1) + [Flip(c)];
    StagedThen(s, states1, last, [Flip(c)]);
    FlippedInside(s.(maps := last), s.maps, c, rs);
  }

  lemma CutAfterBump(s: State, states1: seq<Maps>, last: Maps, c: Config, rs: seq<Rule>, states2: seq<Maps>, j: nat)
    requires s.prior.None? && states1 != [] && last == states1[|states1| - 1] && j <= |states2|
    requires Serves(last.(config := c), rs) && AllQuiet(last.(config := c, epoch := NextEpoch(last.epoch)), states2)
    ensures Inside(s.maps, c, rs, Run(s, Chain(states1, c, states2)[..|states1| + 2 + j]))
  {
    var tail := [Flip(c), Bump] + StageAll(states2[..j]);
    ChainCutTail(states1, c, states2, j);
    StagedThen(s, states1, last, tail);
    BumpedInside(s.(maps := last), s.maps, c, rs, states2, j);
  }

  /** Wherever a chain of quiet steps, flip, bump and quiet steps is cut, the state is one of these. */
  lemma ChainStaysInside(s: State, states1: seq<Maps>, last: Maps, c: Config, rs: seq<Rule>, states2: seq<Maps>, j: nat)
    requires s.prior.None? && states1 != [] && last == states1[|states1| - 1] && AllQuiet(s.maps, states1)
    requires Quiet(s.maps, last) && Serves(last.(config := c), rs)
    requires AllQuiet(last.(config := c, epoch := NextEpoch(last.epoch)), states2)
    requires j <= |states1| + 2 + |states2|
    ensures Inside(s.maps, c, rs, Run(s, Chain(states1, c, states2)[..j]))
  {
    if j <= |states1| {
      CutBeforeFlip(s, states1, c, rs, states2, j);
    } else if j == |states1| + 1 {
      CutAtFlip(s, states1, last, c, rs, states2);
    } else {
      CutAfterBump(s, states1, last, c, rs, states2, j - |states1| - 2);
    }
  }

  /** What the loader stages, flips and bumps. */
  lemma StagedFlips(l: Load, staged: Maps)
    requires LoadSpec(l) && staged == Staged(l.m, l.p.rules, l.p.lists, l.c)
    ensures Quiet(l.m, staged) && Serves(staged.(config := l.c), l.p.rules)
    ensures staged.(config := l.c, epoch := NextEpoch(staged.epoch)) == Bumped(l)
  {
    StagedAgrees(l.m, l.p, l.c);
    InstalledServes(l.m, l.p, l.c);
  }

  /** Wherever the loader stands in a successful load, the state is one of these. */
  lemma LoadStaysInside(s: State, l: Load, seen1: seq<Maps>, seen2: seq<Maps>, j: nat)
    requires LoadSpec(l) && l.outcome.Loaded? && l.m == s.maps && s.prior.None? && Seen(l, seen1, seen2)
    requires j <= |LoadEvents(l, seen1, seen2)|
    ensures Inside(l.m, l.c, l.p.rules, Run(s, LoadEvents(l, seen1, seen2)[..j]))
  {
    var staged := Staged(l.m, l.p.rules, l.p.lists, l.c);
    LoadStatesQuiet(l, seen1, seen2);
    StagedFlips(l, staged);
    ChainStaysInside(s, seen1 + [staged], staged, l.c, l.p.rules, seen2 + [l.n], j);
  }

  lemma AnswersInside(m: Maps, c: Config, rs: seq<Rule>, r: State, before: seq<Rule>, call: Call, action: U32)
    requires Inside(m, c, rs, r) && Accepted(rs) && Serves(m, before) && Accepted(before) && Readable(call)
    requires Answers(Before(r), call, action) || Answers(r.maps, call, action)
    ensures Means(m.config, before, call, action) || Means(c, rs, call, action)
  {
    if r.prior.None? && Quiet(m, r.maps) {
      QuietServes(m, r.maps, before);
      AnswersMean(r.maps, before, call, action);
    } else if Answers(r.maps, call, action) {
      AnswersMean(r.maps, rs, call, action);
    } else {
      QuietServes(m, r.prior.value, before);
      AnswersMean(r.prior.value, before, call, action);
    }
  }

  /**
   The switch is atomic for cached actions too: at every point of a successful load, with hooks and
   evictions interleaved in any way, every action follows wholly from the old rule list or wholly from
   the new one.
   */
  lemma ActionsDuringLoadMean(env: Env, s: State, before: seq<Rule>, l: Load, seen1: seq<Maps>, seen2: seq<Maps>,
                              es: seq<Event>, k: nat, t: Task, call: Call, ret: int)
    requires Inv(env, s) && NoZeroIds(s.l1) && s.prior.None? && s.loads < U64_MAX
    requires LoadSpec(l) && l.outcome.Loaded? && l.m == s.maps && Seen(l, seen1, seen2)
    requires LoaderEvents(es) == LoadEvents(l, seen1, seen2) && k <= |es|
    requires forall i | 0 <= i < |es| && es[i].HookCall? :: Conforms(env, es[i].call)
    requires Serves(s.maps, before) && Accepted(before) && Conforms(env, call) && Readable(call)
    ensures var r := Run(s, es[..k]);
            var out := HookStep(r.maps, r.l1, t, call, ret);
            && (out.decided.Some? ==> || Means(l.m.config, before, call, out.decided.value.0)
                                      || Means(l.c, l.p.rules, call, out.decided.value.0))
            && (r.maps.config == l.m.config || r.maps.config == l.c)
            && CodeFollows(r.maps.config, ret, out.code, out.decided)
  {
    var r := Run(s, es[..k]);
    CodeIff(r.maps, r.l1, t, call, ret);
    PrefixIsInside(env, s, l, seen1, seen2, es, k);
    HookAnswers(env, r, t, call, ret);
    var d := HookStep(r.maps, r.l1, t, call, ret).decided;
    if d.Some? {
      AnswersInside(l.m, l.c, l.p.rules, r, before, call, d.value.0);
    }
  }

  lemma LoadIsForward(env: Env, s: State, l: Load, seen1: seq<Maps>, seen2: seq<Maps>, es: seq<Event>)
    requires s.prior.None? && LoadSpec(l) && l.outcome.Loaded? && l.m == s.maps && Seen(l, seen1, seen2)
    requires LoaderEvents(es) == LoadEvents(l, seen1, seen2)
    requires forall i | 0 <= i < |es| && es[i].HookCall? :: Conforms(env, es[i].call)
    ensures ForwardRun(env, s, es) && ForwardRun(env, s, LoaderEvents(es))
    ensures var r := Run(s, es); r == State(l.n, r.l1, None, s.loads + 1)
  {
    LoadFollowsProtocol(env, s, l, seen1, seen2);
    InterleavingIsForward(env, s, s, es);
  }

  /** At any point of a run the maps are those after as many of the loader's events. */
  lemma PrefixState(env: Env, s: State, es: seq<Event>, k: nat) returns (j: nat)
    requires ForwardRun(env, s, es) && ForwardRun(env, s, LoaderEvents(es)) && k <= |es|
    requires forall i | 0 <= i < |es| && es[i].HookCall? :: Conforms(env, es[i].call)
    requires Inv(env, s) && NoZeroIds(s.l1) && Run(s, es).loads <= U64_MAX
    ensures j <= |LoaderEvents(es)|
    ensures var r := Run(s, es[..k]);
            Inv(env, r) && NoZeroIds(r.l1) && r == Run(s, LoaderEvents(es)[..j]).(l1 := r.l1)
  {
    ForwardPrefix(env, s, es, k);
    RunKeepsInv(env, s, es[..k]);
    j := LoaderEventsPrefix(es, k);
    ForwardPrefix(env, s, LoaderEvents(es), j);
    InterleavingIsForward(env, s, s, es[..k]);
  }

  lemma PrefixIsInside(env: Env, s: State, l: Load, seen1: seq<Maps>, seen2: seq<Maps>, es: seq<Event>, k: nat)
    requires Inv(env, s) && NoZeroIds(s.l1) && s.prior.None? && s.loads < U64_MAX
    requires LoadSpec(l) && l.outcome.Loaded? && l.m == s.maps && Seen(l, seen1, seen2)
    requires LoaderEvents(es) == LoadEvents(l, seen1, seen2) && k <= |es|
    requires forall i | 0 <= i < |es| && es[i].HookCall? :: Conforms(env, es[i].call)
    ensures var r := Run(s, es[..k]);
            Inv(env, r) && NoZeroIds(r.l1) && Inside(l.m, l.c, l.p.rules, r)
  {
    LoadIsForward(env, s, l, seen1, seen2, es);
    var j := PrefixState(env, s, es, k);
    LoadStaysInside(s, l, seen1, seen2, j);
  }

  lemma SeenQuiet(l: Load, seen1: seq<Maps>, last: Maps)
    requires LoadSpec(l) && Quiet(l.m, last) && forall i | 0 <= i < |seen1| :: SeenIn(l.h0, l.mid, l.m, seen1[i])
    ensures AllQuiet(l.m, seen1 + [last])
  {
    forall i | 0 <= i < |seen1| ensures Quiet(l.m, seen1[i]) {
      WindowIsQuiet(l.h0, l.mid, l.m, seen1[i], l.c.generation);
    }
  }

  /** At any point of a run of quiet steps under traffic the maps are quiet. */
  lemma QuietPrefix(env: Env, s: State, states: seq<Maps>, es: seq<Event>, k: nat)
    requires Inv(env, s) && NoZeroIds(s.l1) && s.prior.None? && AllQuiet(s.maps, states)
    requires LoaderEvents(es) == StageAll(states) && k <= |es|
    requires forall i | 0 <= i < |es| && es[i].HookCall? :: Conforms(env, es[i].call)
    ensures var r := Run(s, es[..k]);
            Inv(env, r) && NoZeroIds(r.l1) && r.prior.None? && Quiet(s.maps, r.maps)
  {
    QuietStages(env, s, s.maps, states, []);
    assert StageAll(states) + [] == StageAll(states);
    InterleavingIsForward(env, s, s, es);
    var j := PrefixState(env, s, es, k);
    assert StageAll(states)[..j] == StageAll(states[..j]);
    StagesInPart(s, states, j);
    if j > 0 { assert Quiet(s.maps, states[j - 1]); }
  }

  /** During a load that is rolled back every action follows from the old rule list alone. */
  lemma ActionsDuringFailedLoadMean(env: Env, s: State, before: seq<Rule>, l: Load, seen1: seq<Maps>,
                                    es: seq<Event>, k: nat, t: Task, call: Call, ret: int)
    requires Inv(env, s) && NoZeroIds(s.l1) && s.prior.None?
    requires LoadSpec(l) && l.outcome.RolledBack? && l.outcome.rollback.Done? && l.m == s.maps
    requires forall i | 0 <= i < |seen1| :: SeenIn(l.h0, l.mid, l.m, seen1[i])
    requires LoaderEvents(es) == StageAll(seen1 + [l.n]) && k <= |es|
    requires forall i | 0 <= i < |es| && es[i].HookCall? :: Conforms(env, es[i].call)
    requires Serves(s.maps, before) && Accepted(before) && Conforms(env, call) && Readable(call)
    ensures var r := Run(s, es[..k]);
            var out := HookStep(r.maps, r.l1, t, call, ret);
            && (out.decided.Some? ==> Means(s.maps.config, before, call, out.decided.value.0))
            && CodeFollows(s.maps.config, ret, out.code, out.decided)
  {
    var r := Run(s, es[..k]);
    SeenQuiet(l, seen1, l.n);
    QuietPrefix(env, s, seen1 + [l.n], es, k);
    QuietServes(s.maps, r.maps, before);
    ServedActionMeans(env, r, before, t, call, ret);
  }

  // ---------------------------------------------------------------- any sequence of loads

  /** One load with the traffic meanwhile: what hooks could see of the maps, and all events. */
  datatype Segment = Segment(load: Load, seen1: seq<Maps>, seen2: seq<Maps>, events: seq<Event>)

  /** The loader's events of a load, by its outcome; a rollback is one step. */
  function OutcomeEvents(seg: Segment): seq<Event>
    requires |seg.load.p.rules| <= MAX_RULES
  {
    var l := seg.load;
    match l.outcome
    case Loaded(_) => LoadEvents(l, seg.seen1, seg.seen2)
    case RolledBack(_, _, _) => StageAll(seg.seen1 + [l.n])
    case EpochWriteFailed(_) => StageAll(seg.seen1 + [Staged(l.m, l.p.rules, l.p.lists, l.c)]) + [Flip(l.c), Abort(l.n)]
    case _ => []
  }

  /** A load of the loader's, whose rollback, if it has one, completes, among calls that conform. */
  ghost predicate SegmentOk(env: Env, s: State, seg: Segment) {
    var l := seg.load;
    && LoadSpec(l) && l.m == s.maps && Seen(l, seg.seen1, seg.seen2)
    && (l.outcome.RolledBack? || l.outcome.EpochWriteFailed? ==> l.outcome.rollback.Done?)
    && LoaderEvents(seg.events) == OutcomeEvents(seg)
    && forall i | 0 <= i < |seg.events| && seg.events[i].HookCall? :: Conforms(env, seg.events[i].call)
  }

  ghost predicate Lifetime(env: Env, s: State, segs: seq<Segment>)
    decreases |segs|
  {
    segs == [] || (SegmentOk(env, s, segs[0]) && Lifetime(env, Run(s, segs[0].events), segs[1..]))
  }

  function After(s: State, segs: seq<Segment>): State
    decreases |segs|
  {
    if segs == [] then s else After(Run(s, segs[0].events), segs[1..])
  }

  /** The rule list of the last successful load, `rs` if there is none. */
  function LastLoaded(rs: seq<Rule>, segs: seq<Segment>): seq<Rule>
    decreases |segs|
  {
    if segs == [] then rs
    else LastLoaded(if segs[0].load.outcome.Loaded? then segs[0].load.p.rules else rs, segs[1..])
  }

  /** No epoch write has failed since the last success. */
  predicate Sound(start: bool, segs: seq<Segment>)
    decreases |segs|
  {
    if segs == [] then start
    else
      var o := segs[0].load.outcome;
      Sound(if o.Loaded? then true else if o.EpochWriteFailed? then false else start, segs[1..])
  }

  /** Between loads: no flip is pending, `rs` is served, and the cache is coherent unless an epoch write failed. */
  ghost predicate Settles(env: Env, s: State, rs: seq<Rule>, sound: bool) {
    && Bounded(s) && s.prior.None? && Serves(s.maps, rs) && Accepted(rs)
    && (sound ==> Inv(env, s))
  }

  /** A run that passes a successful epoch write ends coherent, however it started. */
  lemma {:induction false} BumpOnTheWay(env: Env, s: State, es: seq<Event>)
    requires Bounded(s) && ForwardRun(env, s, es) && Bump in es && Run(s, es).loads <= U64_MAX
    ensures Inv(env, Run(s, es)) && NoZeroIds(Run(s, es).l1)
    decreases |es|
  {
    LoadsGrow(Next(s, es[0]), es[1..]);
    if es[0] == Bump {
      BumpCoheres(env, s);
      RunKeepsInv(env, Next(s, Bump), es[1..]);
    } else {
      StepStaysBounded(s, es[0]);
      BumpOnTheWay(env, Next(s, es[0]), es[1..]);
    }
  }

  lemma {:induction false} LoaderEventsOccur(es: seq<Event>, e: Event)
    requires e in LoaderEvents(es)
    ensures e in es
    decreases |es|
  {
    if es != [] && e != es[0] {
      LoaderEventsOccur(es[1..], e);
    }
  }

  /** A load that starts with no entry ahead of the epoch ends coherent. */
  lemma ForwardSettles(env: Env, s: State, es: seq<Event>)
    requires Bounded(s) && ForwardRun(env, s, es) && Bump in es && Run(s, es).loads <= U64_MAX
    ensures Bounded(Run(s, es)) && Inv(env, Run(s, es))
  {
    ForwardRunIff(env, s, es);
    RunStaysBounded(s, es);
    BumpOnTheWay(env, s, es);
  }

  lemma LoadBumps(l: Load, seen1: seq<Maps>, seen2: seq<Maps>, es: seq<Event>)
    requires |l.p.rules| <= MAX_RULES && LoaderEvents(es) == LoadEvents(l, seen1, seen2)
    ensures Bump in es
  {
    var n := |seen1| + 1;
    assert LoadEvents(l, seen1, seen2)[n + 1] == Bump;
    LoaderEventsOccur(es, Bump);
  }

  lemma LoadedSettles(env: Env, s: State, rs: seq<Rule>, sound: bool, seg: Segment)
    requires Settles(env, s, rs, sound) && SegmentOk(env, s, seg) && seg.load.outcome.Loaded? && s.loads < U64_MAX
    ensures Settles(env, Run(s, seg.events), seg.load.p.rules, true) && Run(s, seg.events).loads == s.loads + 1
  {
    var l, es := seg.load, seg.events;
    LoadIsForward(env, s, l, seg.seen1, seg.seen2, es);
    LoadBumps(l, seg.seen1, seg.seen2, es);
    ForwardSettles(env, s, es);
    InstalledServes(l.m, l.p, l.c);
  }

  /** Quiet steps that lead back to where they began, with traffic. */
  lemma RoundTripSettles(env: Env, s: State, es: seq<Event>, states: seq<Maps>, sound: bool)
    requires Bounded(s) && s.prior.None? && (sound ==> Inv(env, s))
    requires LoaderEvents(es) == StageAll(states) && AllQuiet(s.maps, states)
    requires states != [] ==> states[|states| - 1] == s.maps
    requires forall i | 0 <= i < |es| && es[i].HookCall? :: Conforms(env, es[i].call)
    ensures var r := Run(s, es);
            Bounded(r) && r == s.(l1 := r.l1) && (sound ==> Inv(env, r))
  {
    QuietStages(env, s, s.maps, states, []);
    assert StageAll(states) + [] == StageAll(states);
    InterleavingIsForward(env, s, s, es);
    ForwardRunIff(env, s, es);
    RunStaysBounded(s, es);
    if sound { RunKeepsInv(env, s, es); }
  }

  lemma RolledBackSettles(env: Env, s: State, rs: seq<Rule>, sound: bool, seg: Segment)
    requires Settles(env, s, rs, sound) && SegmentOk(env, s, seg)
    requires !seg.load.outcome.Loaded? && !seg.load.outcome.EpochWriteFailed?
    ensures Settles(env, Run(s, seg.events), rs, sound)
    ensures Run(s, seg.events).loads == s.loads
  {
    var l := seg.load;
    assert l.n == s.maps;
    if l.outcome.RolledBack? {
      SeenQuiet(l, seg.seen1, l.n);
      RoundTripSettles(env, s, seg.events, seg.seen1 + [l.n], sound);
    } else {
      RoundTripSettles(env, s, seg.events, [], sound);
    }
  }

  /** What a load whose epoch write fails is about. */
  lemma FailureFacts(env: Env, s: State, seg: Segment)
    requires SegmentOk(env, s, seg) && seg.load.outcome.EpochWriteFailed?
    ensures var l := seg.load;
            && l.m == s.maps && ParsedOk(l.p) && l.n == LeftOver(l.m, l.p, l.c) && AllQuiet(l.m, seg.seen1)
            && l.c == l.p.config.(generation := NextGeneration(l.m.config.generation))
  {
    var l := seg.load;
    forall i | 0 <= i < |seg.seen1| ensures Quiet(l.m, seg.seen1[i]) {
      WindowIsQuiet(l.h0, l.mid, l.m, seg.seen1[i], l.c.generation);
    }
  }

  /** Everything such a load does before the config write, and what its rollback leaves, is quiet; in between it serves
      its own rules. */
  lemma FailureIsQuiet(env: Env, s: State, seg: Segment, staged: Maps)
    requires SegmentOk(env, s, seg) && seg.load.outcome.EpochWriteFailed?
    requires staged == Staged(seg.load.m, seg.load.p.rules, seg.load.p.lists, seg.load.c)
    ensures AllQuiet(s.maps, seg.seen1 + [staged]) && Quiet(s.maps, seg.load.n)
    ensures Serves(staged.(config := seg.load.c), seg.load.p.rules) && Accepted(seg.load.p.rules)
  {
    FailureFacts(env, s, seg);
    QuietFailure(s.maps, seg.load.p, seg.load.c, seg.seen1, staged, seg.load.n);
  }

  lemma QuietFailure(m: Maps, p: Parsed, c: Config, seen: seq<Maps>, staged: Maps, left: Maps)
    requires ParsedOk(p) && c == p.config.(generation := NextGeneration(m.config.generation)) && AllQuiet(m, seen)
    requires staged == Staged(m, p.rules, p.lists, c) && left == LeftOver(m, p, c)
    ensures AllQuiet(m, seen + [staged]) && Quiet(m, left)
    ensures Serves(staged.(config := c), p.rules) && Accepted(p.rules)
  {
    StagedAgrees(m, p, c);
    LeftOverIsQuiet(m, p, c);
    InstalledServes(m, p, c);
  }

  lemma FailedSettles(env: Env, s: State, rs: seq<Rule>, sound: bool, seg: Segment)
    requires Settles(env, s, rs, sound) && SegmentOk(env, s, seg) && seg.load.outcome.EpochWriteFailed?
    ensures Settles(env, Run(s, seg.events), rs, false) && Run(s, seg.events).loads == s.loads
  {
    FailureIsPossible(env, s, seg);
    FailureFacts(env, s, seg);
    LeftOverIsQuiet(s.maps, seg.load.p, seg.load.c);
    FailedRunSettles(env, s, rs, seg.events, seg.load.n);
  }

  lemma FailedRunSettles(env: Env, s: State, rs: seq<Rule>, es: seq<Event>, n: Maps)
    requires Settles(env, s, rs, false) && Quiet(s.maps, n)
    requires PossibleRun(s, LoaderEvents(es)) && Run(s, LoaderEvents(es)) == s.(maps := n)
    ensures Settles(env, Run(s, es), rs, false) && Run(s, es).loads == s.loads
  {
    InterleavingIsPossible(s, s, es);
    RunStaysBounded(s, es);
    QuietServes(s.maps, n, rs);
  }

  lemma FailureIsPossible(env: Env, s: State, seg: Segment)
    requires SegmentOk(env, s, seg) && seg.load.outcome.EpochWriteFailed? && s.prior.None?
    ensures PossibleRun(s, LoaderEvents(seg.events)) && LoaderEvents(seg.events) == OutcomeEvents(seg)
    ensures Run(s, LoaderEvents(seg.events)) == s.(maps := seg.load.n)
  {
    FailureFacts(env, s, seg);
    var l := seg.load;
    var staged := Staged(l.m, l.p.rules, l.p.lists, l.c);
    QuietFailure(s.maps, l.p, l.c, seg.seen1, staged, l.n);
    FailingChain(s, seg.seen1 + [staged], l.c, l.n);
  }

  /** Quiet steps, the flip, and the rollback of a failed epoch write. */
  lemma FailingChain(s: State, states: seq<Maps>, c: Config, n: Maps)
    requires s.prior.None? && states != [] && AllQuiet(s.maps, states) && Quiet(s.maps, n)
    ensures var es := StageAll(states) + [Flip(c), Abort(n)];
            PossibleRun(s, es) && Run(s, es) == s.(maps := n)
  {
    var staged := states[|states| - 1];
    assert Quiet(s.maps, staged);
    FlipThenAbort(s.(maps := staged), c, n);
    StagesPossible(s, s.maps, states, [Flip(c), Abort(n)]);
  }

  lemma FlipThenAbort(s: State, c: Config, n: Maps)
    requires s.prior.None? && Quiet(s.maps, n)
    ensures PossibleRun(s, [Flip(c), Abort(n)]) && Run(s, [Flip(c), Abort(n)]) == s.(maps := n)
  {
    var es, flipped := [Flip(c), Abort(n)], Next(s, Flip(c));
    assert es[1..] == [Abort(n)] && es[1..][1..] == [];
    assert PossibleRun(Next(flipped, Abort(n)), []);
    assert PossibleRun(flipped, [Abort(n)]);
    assert Run(s, es) == Run(flipped, [Abort(n)]) == Run(Next(flipped, Abort(n)), []);
  }

  lemma SegmentSettles(env: Env, s: State, rs: seq<Rule>, sound: bool, seg: Segment)
    requires Settles(env, s, rs, sound) && SegmentOk(env, s, seg) && s.loads < U64_MAX
    ensures var o := seg.load.outcome;
            && Settles(env, Run(s, seg.events), if o.Loaded? then seg.load.p.rules else rs,
                       if o.Loaded? then true else if o.EpochWriteFailed? then false else sound)
            && Run(s, seg.events).loads <= s.loads + 1
  {
    if seg.load.outcome.Loaded? {
      LoadedSettles(env, s, rs, sound, seg);
    } else if seg.load.outcome.EpochWriteFailed? {
      FailedSettles(env, s, rs, sound, seg);
    } else {
      RolledBackSettles(env, s, rs, sound, seg);
    }
  }

  /**
   A whole life under traffic: after any sequence of loads, successful, rejected, rolled back or failed
   at the epoch write, with rollbacks that complete and hooks and evictions interleaved in any way, the last
   rule list loaded is served, and the cache is coherent unless an epoch write has failed since.
   */
  lemma {:induction false} LifetimeSettles(env: Env, s: State, rs: seq<Rule>, sound: bool, segs: seq<Segment>)
    requires Settles(env, s, rs, sound) && Lifetime(env, s, segs) && s.loads + |segs| <= U64_MAX
    ensures Settles(env, After(s, segs), LastLoaded(rs, segs), Sound(sound, segs))
    decreases |segs|
  {
    if segs != [] {
      var o := segs[0].load.outcome;
      SegmentSettles(env, s, rs, sound, segs[0]);
      LifetimeSettles(env, Run(s, segs[0].events), if o.Loaded? then segs[0].load.p.rules else rs,
                      if o.Loaded? then true else if o.EpochWriteFailed? then false else sound, segs[1..]);
    }
  }

  /** Every action then follows from the last rule list loaded, unless an epoch write has failed since. */
  lemma LifetimeActionsMean(env: Env, s: State, rs: seq<Rule>, sound: bool, segs: seq<Segment>,
                            t: Task, call: Call, ret: int)
    requires Settles(env, s, rs, sound) && Lifetime(env, s, segs) && s.loads + |segs| <= U64_MAX
    requires Sound(sound, segs) && Conforms(env, call) && Readable(call)
    ensures var r := After(s, segs);
            var out := HookStep(r.maps, r.l1, t, call, ret);
            && (out.decided.Some? ==> Means(r.maps.config, LastLoaded(rs, segs), call, out.decided.value.0))
            && CodeFollows(r.maps.config, ret, out.code, out.decided)
  {
    LifetimeSettles(env, s, rs, sound, segs);
    ServedActionMeans(env, After(s, segs), LastLoaded(rs, segs), t, call, ret);
  }

  /** A life starts with the first successful load. */
  lemma FirstLoadSettles(env: Env, l: Load)
    requires LoadSpec(l) && l.outcome.Loaded? && l.m == FRESH_MAPS
    ensures Settles(env, State(l.n, map[], None, 1), l.p.rules, true)
  {
    FirstLoadAttaches(env, l);
  }
}
