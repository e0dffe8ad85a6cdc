/** From the rule files to the verdicts: what an action means, cached or not, once a policy is loaded. */
module EndToEnd {
  import opened Common
  import opened Policy
  import opened Compile
  import opened Hooks
  import opened Calls
  import opened Stores
  import opened Protocol
  import opened Kernel
  import opened Loader
  import opened Reload

  /** The ruling of the winning rule, else the default. */
  function Ruled(c: Config, rs: seq<Rule>, lengths: Rule -> Option<nat>): Decision {
    Verdict(c, rs, Winner(rs, lengths))
  }

  function RuledConnect(c: Config, rs: seq<Rule>, addr: U32, port: U16): Decision {
    var exact, any := Winner(rs, NetMatch(port, addr)), Winner(rs, NetMatch(0, addr));
    Verdict(c, rs, if exact.Some? then exact else any)
  }

  /** The decision on a call in terms of the rule list alone: no index, no generation, no cache. */
  function RuleDecision(c: Config, rs: seq<Rule>, call: Call): Decision {
    if DecidedByL2(c, call) then Decision(if call.ExecCall? then DENY else ALLOW, 0)
    else match call
      case ExecCall(b) => Ruled(c, rs, NameMatch(CommandPrefix, b.name))
      case OpenCall(f) => Ruled(c, rs, NameMatch(PathPrefix, if f.NoFile? then [] else f.path))
      case PermissionCall(f, _) => Ruled(c, rs, InodeMatch(if f.File? then f.ino else 0))
      case ConnectCall(a) => RuledConnect(c, rs, if a.Inet? then a.addr else 0, if a.Inet? then a.port else 0)
  }

  function RuleAnswer(c: Config, rs: seq<Rule>, call: Call): U32 {
    RuleDecision(c, rs, call).action
  }

  /** The names a call carries are C strings. */
  predicate Readable(call: Call) {
    match call
    case ExecCall(b) => CString(b.name)
    case OpenCall(f) => CString(FilePath(f))
    case PermissionCall(f, _) => CString(FilePath(f))
    case ConnectCall(_) => true
  }

  /** What is decided and stored after a miss over the served indexes is the rule list's own decision, on every call. */
  lemma DecisionIsRuled(m: Maps, rs: seq<Rule>, call: Call)
    requires Serves(m, rs) && Accepted(rs) && Readable(call)
    ensures MissDecision(m, call) == RuleDecision(m.config, rs, call)
  {
    match call
    case ExecCall(b) => CommandMeaning(m, rs, b.name);
    case OpenCall(f) => PathMeaning(m, rs, FileOpen, FilePath(f));
    case PermissionCall(f, mask) => ResourceMeaning(m, rs, PermissionHookOf(mask), FileId(f));
    case ConnectCall(a) => NetworkMeaning(m, rs, if a.Inet? then a.addr else 0, if a.Inet? then a.port else 0);
  }

  /** L2 and L3 over the served indexes give the rule list's own answer, on every call. */
  lemma AnswerIsRuled(m: Maps, rs: seq<Rule>, call: Call)
    requires Serves(m, rs) && Accepted(rs) && Readable(call)
    ensures Answer(m, call) == RuleAnswer(m.config, rs, call)
  {
    var t := Task(0, 0, 0, []);
    DecisionIsRuled(m, rs, call);
    MissAnswers(m, map[], t, call);
    MissStores(m, map[], t, call);
  }

  /** A call that misses is answered by the rule list, and stores its decision, rule id included, for its own kind of
      call and, if the policy says so, for reads and writes of a file opened. */
  lemma MissIsRuled(m: Maps, rs: seq<Rule>, l1: Cache, t: Task, call: Call, ret: int)
    requires Serves(m, rs) && Accepted(rs) && Readable(call)
    ensures var out, d := HookStep(m, l1, t, call, ret), RuleDecision(m.config, rs, call);
            && Stored(l1, out.l1, StoredKeys(m, l1, t, call, ret), t.cpu, m.epoch, d)
            && (out.decided.Some? && out.decided.value.1 != L1 ==> out.decided.value.0 == d.action)
  {
    DecisionIsRuled(m, rs, call);
    HookStores(m, l1, t, call, ret);
    MissStores(m, l1, t, call);
  }

  /** What the action of a call may be under a rule list: its answer, or, for reads and writes when follow-ups are
      cached, the answer to opening the same file. */
  predicate Means(c: Config, rs: seq<Rule>, call: Call, action: U32) {
    || action == RuleAnswer(c, rs, call)
    || (call.PermissionCall? && call.file.File? && c.cacheFollowups && action == RuleAnswer(c, rs, OpenCall(call.file)))
  }

  lemma AnswersMean(m: Maps, rs: seq<Rule>, call: Call, action: U32)
    requires Serves(m, rs) && Accepted(rs) && Readable(call) && Answers(m, call, action)
    ensures Means(m.config, rs, call, action)
  {
    AnswerIsRuled(m, rs, call);
    if call.PermissionCall? && call.file.File? {
      AnswerIsRuled(m, rs, OpenCall(call.file));
    }
  }

  lemma LoadAtEpochZeroAttaches(env: Env, l: Load)
    requires LoadSpec(l) && l.outcome.Loaded? && Hygienic(l.m) && l.m.epoch == 0
    ensures var s := State(l.n, map[], None, 1);
            Attached(s) && Inv(env, s) && NoZeroIds(s.l1) && Serves(s.maps, l.p.rules) && Hygienic(s.maps)
  {
    InstalledServes(l.m, l.p, l.c);
  }

  /** The state in which hooks are attached: the first successful load from the freshly created maps gives epoch 1. */
  lemma FirstLoadAttaches(env: Env, l: Load)
    requires LoadSpec(l) && l.outcome.Loaded? && l.m == FRESH_MAPS
    ensures var s := State(l.n, map[], None, 1);
            Attached(s) && Inv(env, s) && NoZeroIds(s.l1) && Serves(s.maps, l.p.rules) && Hygienic(s.maps)
  {
    assert Hygienic(l.m) && l.m.epoch == 0 by { FreshIsCounted(); }
    LoadAtEpochZeroAttaches(env, l);
  }

  /**
   After a reload under traffic every action, from the cache or computed, follows from the new rule
   list alone, whatever the cache and the indexes held before.
   */
  lemma ReloadedActionsMean(env: Env, s: State, l: Load, seen1: seq<Maps>, seen2: seq<Maps>, es: seq<Event>,
                            t: Task, call: Call, ret: int)
    requires Inv(env, s) && NoZeroIds(s.l1) && s.prior.None? && s.loads < U64_MAX
    requires LoadSpec(l) && l.outcome.Loaded? && l.m == s.maps && Seen(l, seen1, seen2)
    requires LoaderEvents(es) == LoadEvents(l, seen1, seen2)
    requires forall i | 0 <= i < |es| && es[i].HookCall? :: Conforms(env, es[i].call)
    requires Conforms(env, call) && Readable(call)
    ensures var r := Run(s, es);
            var out := HookStep(r.maps, r.l1, t, call, ret);
            && (out.decided.Some? ==> Means(l.c, l.p.rules, call, out.decided.value.0))
            && CodeFollows(l.c, ret, out.code, out.decided)
  {
    ReloadUnderTraffic(env, s, l, seen1, seen2, es);
    ServedActionMeans(env, Run(s, es), l.p.rules, t, call, ret);
  }

  lemma ServedActionMeans(env: Env, s: State, rs: seq<Rule>, t: Task, call: Call, ret: int)
    requires Inv(env, s) && NoZeroIds(s.l1) && s.prior.None? && Conforms(env, call) && Readable(call)
    requires Serves(s.maps, rs) && Accepted(rs)
    ensures var out := HookStep(s.maps, s.l1, t, call, ret);
            && (out.decided.Some? ==> Means(s.maps.config, rs, call, out.decided.value.0))
            && CodeFollows(s.maps.config, ret, out.code, out.decided)
  {
    CodeIff(s.maps, s.l1, t, call, ret);
    HookAnswers(env, s, t, call, ret);
    var d := HookStep(s.maps, s.l1, t, call, ret).decided;
    if d.Some? {
      AnswersMean(s.maps, rs, call, d.value.0);
    }
  }

  /** While a load is under way, in whatever state a hook finds the maps, an uncached action follows from the old rule
      list before the config write and from the new one after it, never from a mixture. */
  lemma SwitchIsAtomic(l: Load, before: seq<Rule>, seen: Maps, call: Call)
    requires LoadSpec(l) && Readable(call) && Serves(l.m, before) && Accepted(before)
    ensures SeenIn(l.h0, l.mid, l.m, seen) ==> Answer(seen, call) == RuleAnswer(l.m.config, before, call)
    ensures l.outcome.Loaded? && SeenIn(l.mid, l.h1, Flipped(l.m, l.p, l.c), seen.(epoch := l.m.epoch)) ==>
              Answer(seen, call) == RuleAnswer(l.c, l.p.rules, call)
  {
    if SeenIn(l.h0, l.mid, l.m, seen) {
      BeforeTheFlip(l, seen);
      AnswerIsRuled(l.m, before, call);
      QuietKeepsAnswer(l.m, seen, call);
    }
    if l.outcome.Loaded? && SeenIn(l.mid, l.h1, Flipped(l.m, l.p, l.c), seen.(epoch := l.m.epoch)) {
      AfterTheFlip(l, seen);
      AnswerIsRuled(seen, l.p.rules, call);
    }
  }

  lemma QuietKeepsAnswer(m: Maps, n: Maps, call: Call)
    requires Quiet(m, n)
    ensures Answer(m, call) == Answer(n, call)
  {
    QuietKeepsAnswers(m, n);
  }
}
