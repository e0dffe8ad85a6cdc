/**
 What a policy directory says about a call, from its entries alone, and that the hooks say the same once it is
 loaded.
 */
module Verdicts {
  import opened Common
  import opened NetBits
  import opened Policy
  import opened Compile
  import opened Rules
  import opened Hooks
  import opened Calls
  import opened Protocol
  import opened Kernel
  import opened Loader
  import opened Reload
  import opened EndToEnd
  import opened Directory
  import opened Traffic
  import opened Provenance

  // ---------------------------------------------------------------- what an entry covers

  /** A path entry covers what starts with its value, trailing slashes aside. */
  function CoversPath(path: Bytes): RuleSpec -> Option<nat> {
    (s: RuleSpec) => if Normalized(s.value) <= path then Some(|Normalized(s.value)|) else None
  }

  function CoversCommand(name: Bytes): RuleSpec -> Option<nat> {
    (s: RuleSpec) => if s.value <= name then Some(|s.value|) else None
  }

  /** A path entry also covers the inode its value named when it was loaded. */
  function CoversInode(id: U64): RuleSpec -> Option<nat> {
    (s: RuleSpec) => if id != 0 && s.inode == id then Some(0) else None
  }

  /** A network entry covers the addresses of its block, on its port; without a port it is one for port 0. */
  function CoversAddress(port: U32, addr: U32): RuleSpec -> Option<nat> {
    (s: RuleSpec) =>
      if s.quad.Some? && 0 <= s.prefix <= 32 && port == (if s.port.Some? then s.port.value else 0)
         && SameBlock(addr, s.quad.value, s.prefix)
      then Some(s.prefix) else None
  }

  // ---------------------------------------------------------------- what the directory says

  function DefaultOf(s: Settings): U32 {
    if s.defaultAction.Some? then s.defaultAction.value else ALLOW
  }

  predicate Enforced(s: Settings) {
    s.enforce != Some(false)
  }

  /** The action of the most specific entry that covers the call, the last one among equals, if there is one. */
  function Covering(specs: seq<RuleSpec>, covers: RuleSpec -> Option<nat>): Option<U32> {
    var w := Winner(specs, covers);
    if w.Some? then Some(specs[w.value].action) else None
  }

  function OrDefault(d: PolicyDir, action: Option<U32>): U32 {
    if action.Some? then action.value else DefaultOf(d.settings)
  }

  /** Special files, and reads of directories, are allowed whatever the entries say, unless the settings differ. */
  predicate SafeByType(s: Settings, f: FileArg, reading: bool) {
    && f.File? && !(s.skipL2Safe == Some(true) || (s.skipL2Safe.None? && SkipL2Safe in s.listed))
    && (f.kind == OtherType || (f.kind == Directory && reading && s.skipDirRead != Some(false)))
  }

  function Says(d: PolicyDir, call: Call): U32 {
    match call
    case ExecCall(b) => if b.name == [] then DENY else OrDefault(d, Covering(d.commands, CoversCommand(b.name)))
    case OpenCall(f) =>
      if SafeByType(d.settings, f, false) then ALLOW
      else OrDefault(d, Covering(d.paths, CoversPath(if f.NoFile? then [] else f.path)))
    case PermissionCall(f, mask) =>
      if SafeByType(d.settings, f, !mask.write && !mask.append) then ALLOW
      else OrDefault(d, Covering(d.paths, CoversInode(if f.File? then f.ino else 0)))
    case ConnectCall(a) =>
      if a.OtherFamily? then ALLOW
      else
        var addr, port := if a.Inet? then a.addr else 0, if a.Inet? then a.port else 0;
        var exact := Covering(d.network, CoversAddress(port, addr));
        OrDefault(d, if exact.Some? then exact else Covering(d.network, CoversAddress(0, addr)))
  }

  // ---------------------------------------------------------------- winners among rules and among entries

  /** How specific the winner is, and its action. */
  ghost function Choice<T(!new)>(ts: seq<T>, lengths: T -> Option<nat>, action: T -> U32): Option<(nat, U32)> {
    var w := Winner(ts, lengths);
    if w.Some? then Some((lengths(ts[w.value]).value, action(ts[w.value]))) else None
  }

  function ActionOf(r: Rule): U32 { r.action }

  function ActionSaid(s: RuleSpec): U32 { s.action }

  lemma ChoiceSnoc<T(!new)>(ts: seq<T>, t: T, lengths: T -> Option<nat>, action: T -> U32)
    ensures var before := Choice(ts, lengths, action);
            Choice(ts + [t], lengths, action) ==
            if lengths(t).Some? && (before.None? || before.value.0 <= lengths(t).value)
            then Some((lengths(t).value, action(t))) else before
  {
    assert (ts + [t])[..|ts|] == ts;
  }

  /** What covers nothing makes no difference behind the others, */
  lemma {:induction false} ChoiceBefore<T(!new)>(a: seq<T>, b: seq<T>, lengths: T -> Option<nat>, action: T -> U32)
    requires forall i | 0 <= i < |b| :: lengths(b[i]).None?
    ensures Choice(a + b, lengths, action) == Choice(a, lengths, action)
  {
    if b == [] {
      assert a + b == a;
    } else {
      var n := |b| - 1;
      ChoiceBefore(a, b[..n], lengths, action);
      assert a + b == (a + b[..n]) + [b[n]];
      ChoiceSnoc(a + b[..n], b[n], lengths, action);
    }
  }

  /** nor before them. */
  lemma {:induction false} ChoiceBehind<T(!new)>(a: seq<T>, b: seq<T>, lengths: T -> Option<nat>, action: T -> U32)
    requires forall i | 0 <= i < |a| :: lengths(a[i]).None?
    ensures Choice(a + b, lengths, action) == Choice(b, lengths, action)
  {
    if b == [] {
      assert a + b == a;
    } else {
      var n := |b| - 1;
      ChoiceBehind(a, b[..n], lengths, action);
      assert a + b == (a + b[..n]) + [b[n]] && b == b[..n] + [b[n]];
      ChoiceSnoc(a + b[..n], b[n], lengths, action);
      ChoiceSnoc(b[..n], b[n], lengths, action);
    }
  }

  /** Rules that measure and act like their entries have the same choice. */
  lemma {:induction false} ChoiceOfEntries(rs: seq<Rule>, specs: seq<RuleSpec>, lengths: Rule -> Option<nat>,
                                           covers: RuleSpec -> Option<nat>)
    requires |rs| == |specs|
    requires forall i | 0 <= i < |rs| :: lengths(rs[i]) == covers(specs[i]) && rs[i].action == specs[i].action
    ensures Choice(rs, lengths, ActionOf) == Choice(specs, covers, ActionSaid)
  {
    if rs != [] {
      var n := |rs| - 1;
      ChoiceOfEntries(rs[..n], specs[..n], lengths, covers);
      assert rs == rs[..n] + [rs[n]] && specs == specs[..n] + [specs[n]];
      ChoiceSnoc(rs[..n], rs[n], lengths, ActionOf);
      ChoiceSnoc(specs[..n], specs[n], covers, ActionSaid);
    }
  }

  /** Entries that do not count cover nothing. */
  lemma {:induction false} ChoiceOfKept(specs: seq<RuleSpec>, kind: RuleKind, covers: RuleSpec -> Option<nat>)
    requires forall i | 0 <= i < |specs| && !Counts(specs[i], kind) :: covers(specs[i]).None?
    ensures Choice(Kept(specs, kind), covers, ActionSaid) == Choice(specs, covers, ActionSaid)
  {
    if specs != [] {
      var n := |specs| - 1;
      ChoiceOfKept(specs[..n], kind, covers);
      assert specs == specs[..n] + [specs[n]];
      ChoiceSnoc(specs[..n], specs[n], covers, ActionSaid);
      ChoiceSnoc(Kept(specs[..n], kind), specs[n], covers, ActionSaid);
      assert Kept(specs[..n], kind) + [] == Kept(specs[..n], kind);
    }
  }

  /** A rule is as specific as its entry. */
  ghost predicate Agree(kind: RuleKind, lengths: Rule -> Option<nat>, covers: RuleSpec -> Option<nat>) {
    forall r: Rule, s: RuleSpec | RuleOf(r, s, kind) :: lengths(r) == covers(s)
  }

  ghost predicate Silent<T(!new)>(ts: seq<T>, lengths: T -> Option<nat>) {
    forall i | 0 <= i < |ts| :: lengths(ts[i]).None?
  }

  /** The rules of one file, in between others that do not match, choose as the file's entries do. */
  lemma FileChooses(before: seq<Rule>, mine: seq<Rule>, after: seq<Rule>, specs: seq<RuleSpec>, kind: RuleKind,
                    base: nat, lengths: Rule -> Option<nat>, covers: RuleSpec -> Option<nat>)
    requires RulesOf(mine, Kept(specs, kind), kind, base) && Agree(kind, lengths, covers)
    requires Silent(before, lengths) && Silent(after, lengths)
    requires forall i | 0 <= i < |specs| && !Counts(specs[i], kind) :: covers(specs[i]).None?
    ensures Choice(before + mine + after, lengths, ActionOf) == Choice(specs, covers, ActionSaid)
  {
    ChoiceBefore(before + mine, after, lengths, ActionOf);
    ChoiceBehind(before, mine, lengths, ActionOf);
    ChoiceOfEntries(mine, Kept(specs, kind), lengths, covers);
    ChoiceOfKept(specs, kind, covers);
  }

  // ---------------------------------------------------------------- the four indexes

  lemma {:induction false} TrimmedIsNormalized(value: Bytes, v: Bytes)
    requires Trimmed(value, v)
    ensures v == Normalized(value)
  {
    if |value| > 1 && value[|value| - 1] == 47 {
      assert |v| < |value|;
      TrimmedIsNormalized(value[..|value| - 1], v);
    } else {
      assert |v| == |value|;
    }
  }

  ghost predicate Shaped(d: PolicyDir, rs: seq<Rule>) {
    WellShapedDir(d) && RulesOfDir(d, rs)
  }

  /** How the rules are made up. */
  lemma Parts(d: PolicyDir, rs: seq<Rule>) returns (paths: seq<Rule>, commands: seq<Rule>, network: seq<Rule>)
    requires Shaped(d, rs)
    ensures rs == paths + commands + network && rs == [] + paths + (commands + network)
    ensures rs == paths + commands + network + []
    ensures RulesOf(paths, Kept(d.paths, PathPrefix), PathPrefix, 0)
    ensures RulesOf(commands, Kept(d.commands, CommandPrefix), CommandPrefix, |paths|)
    ensures RulesOf(network, Kept(d.network, Ipv4Connect), Ipv4Connect, |paths| + |commands|)
  {
    var a, b := |Kept(d.paths, PathPrefix)|, |Kept(d.commands, CommandPrefix)|;
    paths, commands, network := rs[..a], rs[a..a + b], rs[a + b..];
    InThree(rs, a, b);
  }

  lemma InThree<T>(ts: seq<T>, a: nat, b: nat)
    requires a + b <= |ts|
    ensures var x, y, z := ts[..a], ts[a..a + b], ts[a + b..];
            ts == x + y + z == [] + x + (y + z) == x + y + z + []
  {
  }

  /** Rules of other kinds do not match. */
  lemma OthersAreSilent(rs: seq<Rule>, specs: seq<RuleSpec>, kind: RuleKind, base: nat, lengths: Rule -> Option<nat>)
    requires RulesOf(rs, specs, kind, base)
    requires forall r: Rule | r.kind == kind && (kind != PathPrefix ==> r.resourceId == 0) :: lengths(r).None?
    ensures Silent(rs, lengths)
  {
  }

  lemma SilentTogether<T(!new)>(a: seq<T>, b: seq<T>, lengths: T -> Option<nat>)
    requires Silent(a, lengths) && Silent(b, lengths)
    ensures Silent(a + b, lengths)
  {
  }

  lemma PathsAgree(path: Bytes)
    ensures Agree(PathPrefix, NameMatch(PathPrefix, path), CoversPath(path))
  {
    forall r: Rule, s: RuleSpec | RuleOf(r, s, PathPrefix)
      ensures NameMatch(PathPrefix, path)(r) == CoversPath(path)(s)
    {
      TrimmedIsNormalized(s.value, r.value);
    }
  }

  lemma BlocksAgree(port: U32, addr: U32)
    ensures Agree(Ipv4Connect, NetMatch(port, addr), CoversAddress(port, addr))
  {
    forall r: Rule, s: RuleSpec | RuleOf(r, s, Ipv4Connect)
      ensures NetMatch(port, addr)(r) == CoversAddress(port, addr)(s)
    {
      BlockAgrees(port, addr, r, s);
    }
  }

  lemma BlockAgrees(port: U32, addr: U32, r: Rule, s: RuleSpec)
    requires RuleOf(r, s, Ipv4Connect)
    ensures NetMatch(port, addr)(r) == CoversAddress(port, addr)(s)
  {
    var n := MaskBits(r.mask);
    InBlockIff(addr, r.addr, n);
    assert s.prefix == n && s.quad.value == r.addr;
  }

  /** What looks at path entries only. */
  lemma PathFileChooses(d: PolicyDir, rs: seq<Rule>, lengths: Rule -> Option<nat>, covers: RuleSpec -> Option<nat>)
    requires Shaped(d, rs) && Agree(PathPrefix, lengths, covers)
    requires forall r: Rule | r.kind != PathPrefix && r.resourceId == 0 :: lengths(r).None?
    ensures Choice(rs, lengths, ActionOf) == Choice(d.paths, covers, ActionSaid)
  {
    var paths, commands, network := Parts(d, rs);
    OthersAreSilent(commands, Kept(d.commands, CommandPrefix), CommandPrefix, |paths|, lengths);
    OthersAreSilent(network, Kept(d.network, Ipv4Connect), Ipv4Connect, |paths| + |commands|, lengths);
    SilentTogether(commands, network, lengths);
    FileChooses([], paths, commands + network, d.paths, PathPrefix, 0, lengths, covers);
  }

  lemma PathsChoose(d: PolicyDir, rs: seq<Rule>, path: Bytes)
    requires Shaped(d, rs)
    ensures Choice(rs, NameMatch(PathPrefix, path), ActionOf) == Choice(d.paths, CoversPath(path), ActionSaid)
  {
    PathsAgree(path);
    PathFileChooses(d, rs, NameMatch(PathPrefix, path), CoversPath(path));
  }

  lemma InodesChoose(d: PolicyDir, rs: seq<Rule>, id: U64)
    requires Shaped(d, rs)
    ensures Choice(rs, InodeMatch(id), ActionOf) == Choice(d.paths, CoversInode(id), ActionSaid)
  {
    assert Agree(PathPrefix, InodeMatch(id), CoversInode(id));
    PathFileChooses(d, rs, InodeMatch(id), CoversInode(id));
  }

  lemma CommandsChoose(d: PolicyDir, rs: seq<Rule>, name: Bytes)
    requires Shaped(d, rs)
    ensures Choice(rs, NameMatch(CommandPrefix, name), ActionOf) ==
            Choice(d.commands, CoversCommand(name), ActionSaid)
  {
    var lengths, covers := NameMatch(CommandPrefix, name), CoversCommand(name);
    var paths, commands, network := Parts(d, rs);
    assert Agree(CommandPrefix, lengths, covers);
    OthersAreSilent(paths, Kept(d.paths, PathPrefix), PathPrefix, 0, lengths);
    OthersAreSilent(network, Kept(d.network, Ipv4Connect), Ipv4Connect, |paths| + |commands|, lengths);
    FileChooses(paths, commands, network, d.commands, CommandPrefix, |paths|, lengths, covers);
  }

  lemma BlocksChoose(d: PolicyDir, rs: seq<Rule>, port: U32, addr: U32)
    requires Shaped(d, rs)
    ensures Choice(rs, NetMatch(port, addr), ActionOf) == Choice(d.network, CoversAddress(port, addr), ActionSaid)
  {
    var lengths, covers := NetMatch(port, addr), CoversAddress(port, addr);
    var paths, commands, network := Parts(d, rs);
    BlocksAgree(port, addr);
    OthersAreSilent(paths, Kept(d.paths, PathPrefix), PathPrefix, 0, lengths);
    OthersAreSilent(commands, Kept(d.commands, CommandPrefix), CommandPrefix, |paths|, lengths);
    SilentTogether(paths, commands, lengths);
    FileChooses(paths + commands, network, [], d.network, Ipv4Connect, |paths| + |commands|, lengths, covers);
  }

  // ---------------------------------------------------------------- the whole answer

  lemma RuledAsCovered(d: PolicyDir, c: Config, rs: seq<Rule>, lengths: Rule -> Option<nat>,
                       specs: seq<RuleSpec>, covers: RuleSpec -> Option<nat>)
    requires WellShapedDir(d) && AsSettled(d.settings, c)
    requires Choice(rs, lengths, ActionOf) == Choice(specs, covers, ActionSaid)
    ensures Winner(rs, lengths).Some? <==> Covering(specs, covers).Some?
    ensures Ruled(c, rs, lengths).action == OrDefault(d, Covering(specs, covers))
  {
  }

  /** L2 decides the calls the directory leaves to the type of the file. */
  lemma L2IsSaid(d: PolicyDir, c: Config, f: FileArg, mask: Mask)
    requires AsSettled(d.settings, c)
    ensures DecidedByL2(c, OpenCall(f)) <==> SafeByType(d.settings, f, false)
    ensures DecidedByL2(c, PermissionCall(f, mask)) <==> SafeByType(d.settings, f, !mask.write && !mask.append)
  {
  }

  /** The rule list of a directory, under the config it asks for, answers as the directory says. */
  lemma RulesSay(d: PolicyDir, c: Config, rs: seq<Rule>, call: Call)
    requires Shaped(d, rs) && AsSettled(d.settings, c)
    ensures RuleAnswer(c, rs, call) == Says(d, call)
  {
    match call
    case ExecCall(b) =>
      CommandsChoose(d, rs, b.name);
      RuledAsCovered(d, c, rs, NameMatch(CommandPrefix, b.name), d.commands, CoversCommand(b.name));
    case OpenCall(f) => OpensSay(d, c, rs, f);
    case PermissionCall(f, mask) => PermissionsSay(d, c, rs, f, mask);
    case ConnectCall(a) =>
      ConnectsSay(d, c, rs, if a.Inet? then a.addr else 0, if a.Inet? then a.port else 0);
  }

  lemma OpensSay(d: PolicyDir, c: Config, rs: seq<Rule>, f: FileArg)
    requires Shaped(d, rs) && AsSettled(d.settings, c)
    ensures RuleAnswer(c, rs, OpenCall(f)) == Says(d, OpenCall(f))
  {
    var path: Bytes := if f.NoFile? then [] else f.path;
    L2IsSaid(d, c, f, Mask(false, false, false));
    PathsChoose(d, rs, path);
    RuledAsCovered(d, c, rs, NameMatch(PathPrefix, path), d.paths, CoversPath(path));
  }

  lemma PermissionsSay(d: PolicyDir, c: Config, rs: seq<Rule>, f: FileArg, mask: Mask)
    requires Shaped(d, rs) && AsSettled(d.settings, c)
    ensures RuleAnswer(c, rs, PermissionCall(f, mask)) == Says(d, PermissionCall(f, mask))
  {
    var id: U64 := if f.File? then f.ino else 0;
    L2IsSaid(d, c, f, mask);
    InodesChoose(d, rs, id);
    RuledAsCovered(d, c, rs, InodeMatch(id), d.paths, CoversInode(id));
  }

  lemma ConnectsSay(d: PolicyDir, c: Config, rs: seq<Rule>, addr: U32, port: U16)
    requires Shaped(d, rs) && AsSettled(d.settings, c)
    ensures var exact := Covering(d.network, CoversAddress(port, addr));
            RuledConnect(c, rs, addr, port).action ==
            OrDefault(d, if exact.Some? then exact else Covering(d.network, CoversAddress(0, addr)))
  {
    BlocksChoose(d, rs, port, addr);
    BlocksChoose(d, rs, 0, addr);
    RuledAsCovered(d, c, rs, NetMatch(port, addr), d.network, CoversAddress(port, addr));
    RuledAsCovered(d, c, rs, NetMatch(0, addr), d.network, CoversAddress(0, addr));
  }

  /** What a call may be answered with: what the directory says about it, or, for reads and writes when it caches
      follow-ups, about opening the same file. */
  predicate MaySay(d: PolicyDir, call: Call, action: U32) {
    || action == Says(d, call)
    || (call.PermissionCall? && call.file.File? && d.settings.cacheFollowups != Some(false)
        && action == Says(d, OpenCall(call.file)))
  }

  /** The outcome of a call under a directory: undecided, or an action it says, and the return code that follows from
      the action and from whether the directory enforces. */
  predicate AsSaid(d: PolicyDir, call: Call, ret: int, out: HookOutcome) {
    if ret != 0 then out.decided.None? && out.code == ret
    else if out.decided.None? then out.code == 0
    else
      && MaySay(d, call, out.decided.value.0)
      && out.code == if out.decided.value.0 == DENY && Enforced(d.settings) then -13 else 0
  }

  lemma MeaningIsSaid(d: PolicyDir, c: Config, rs: seq<Rule>, call: Call, ret: int, out: HookOutcome)
    requires Shaped(d, rs) && AsSettled(d.settings, c)
    requires out.decided.Some? ==> Means(c, rs, call, out.decided.value.0)
    requires CodeFollows(c, ret, out.code, out.decided)
    ensures AsSaid(d, call, ret, out)
  {
    RulesSay(d, c, rs, call);
    if call.PermissionCall? && call.file.File? { RulesSay(d, c, rs, OpenCall(call.file)); }
  }

  /** A load of a directory. */
  ghost predicate LoadsDir(d: PolicyDir, l: Load) {
    WellShapedDir(d) && ParsedDir(d) == Ok(l.p) && LoadSpec(l) && l.outcome.Loaded?
  }

  lemma LoadedIsShaped(d: PolicyDir, l: Load)
    requires LoadsDir(d, l)
    ensures Shaped(d, l.p.rules) && AsSettled(d.settings, l.c) && AsDirected(d, l.p, l.c)
  {
    DirectoryIsRead(d);
    LoadedConfig(l);
    assert DirRead(d, Ok(l.p));
    DirectedAtAnyGeneration(d, l.p, l.p.config, NextGeneration(l.m.config.generation));
  }

  /** Right after a successful load L2 and L3 answer every call as the directory says. */
  lemma LoadedDirectoryAnswers(d: PolicyDir, l: Load, call: Call)
    requires LoadsDir(d, l) && Readable(call)
    ensures Answer(l.n, call) == Says(d, call)
  {
    LoadedIsShaped(d, l);
    LoadedConfig(l);
    InstalledServes(l.m, l.p, l.c);
    assert Accepted(l.p.rules);
    AnswerIsRuled(l.n, l.p.rules, call);
    RulesSay(d, l.c, l.p.rules, call);
  }

  /** From the files to the return code: after a reload of a directory under any traffic every call is answered as the
      directory says, whatever cache and indexes held before. */
  lemma ReloadedDirectoryRules(env: Env, s: State, d: PolicyDir, l: Load, seen1: seq<Maps>, seen2: seq<Maps>,
                               es: seq<Event>, t: Task, call: Call, ret: int)
    requires Inv(env, s) && NoZeroIds(s.l1) && s.prior.None? && s.loads < U64_MAX
    requires LoadsDir(d, l) && l.m == s.maps && Seen(l, seen1, seen2)
    requires LoaderEvents(es) == LoadEvents(l, seen1, seen2)
    requires forall i | 0 <= i < |es| && es[i].HookCall? :: Conforms(env, es[i].call)
    requires Conforms(env, call) && Readable(call)
    ensures var r := Run(s, es);
            AsSaid(d, call, ret, HookStep(r.maps, r.l1, t, call, ret))
  {
    var r := Run(s, es);
    LoadedIsShaped(d, l);
    ReloadedActionsMean(env, s, l, seen1, seen2, es, t, call, ret);
    MeaningIsSaid(d, l.c, l.p.rules, call, ret, HookStep(r.maps, r.l1, t, call, ret));
  }

  /** The policy in force is a directory's. */
  ghost predicate InDirection(d: PolicyDir, m: Maps, rs: seq<Rule>) {
    Shaped(d, rs) && AsSettled(d.settings, m.config)
  }

  /** At every point of the reload each action decided is one the old directory says or one the new one says, and the
      return code follows from the action and from whether the config live then enforces. */
  lemma DirectoriesDuringReload(env: Env, s: State, was: PolicyDir, before: seq<Rule>, d: PolicyDir, l: Load,
                                seen1: seq<Maps>, seen2: seq<Maps>, es: seq<Event>, k: nat, t: Task, call: Call,
                                ret: int)
    requires Inv(env, s) && NoZeroIds(s.l1) && s.prior.None? && s.loads < U64_MAX
    requires InDirection(was, s.maps, before) && Serves(s.maps, before) && Accepted(before)
    requires LoadsDir(d, l) && l.m == s.maps && Seen(l, seen1, seen2)
    requires LoaderEvents(es) == LoadEvents(l, seen1, seen2) && k <= |es|
    requires forall i | 0 <= i < |es| && es[i].HookCall? :: Conforms(env, es[i].call)
    requires Conforms(env, call) && Readable(call)
    ensures var r := Run(s, es[..k]);
            var out := HookStep(r.maps, r.l1, t, call, ret);
            && (out.decided.Some? ==> MaySay(was, call, out.decided.value.0) || MaySay(d, call, out.decided.value.0))
            && (|| (r.maps.config.enforce <==> Enforced(was.settings))
                || (r.maps.config.enforce <==> Enforced(d.settings)))
            && CodeFollows(r.maps.config, ret, out.code, out.decided)
  {
    LoadedIsShaped(d, l);
    ActionsDuringLoadMean(env, s, before, l, seen1, seen2, es, k, t, call, ret);
    MeaningMaySay(was, s.maps.config, before, call);
    MeaningMaySay(d, l.c, l.p.rules, call);
  }

  lemma MeaningMaySay(d: PolicyDir, c: Config, rs: seq<Rule>, call: Call)
    requires Shaped(d, rs) && AsSettled(d.settings, c)
    ensures forall action: U32 :: Means(c, rs, call, action) ==> MaySay(d, call, action)
  {
    RulesSay(d, c, rs, call);
    if call.PermissionCall? && call.file.File? { RulesSay(d, c, rs, OpenCall(call.file)); }
  }

  // ---------------------------------------------------------------- any sequence of directories

  /** The loads that succeed are loads of these directories. */
  ghost predicate FromDirs(ds: seq<PolicyDir>, segs: seq<Segment>)
    decreases |segs|
  {
    && |ds| == |segs|
    && (segs != [] ==>
          (segs[0].load.outcome.Loaded? ==> LoadsDir(ds[0], segs[0].load)) && FromDirs(ds[1..], segs[1..]))
  }

  /** The directory loaded last. */
  function LastDir(d: PolicyDir, ds: seq<PolicyDir>, segs: seq<Segment>): PolicyDir
    requires |ds| == |segs|
    decreases |segs|
  {
    if segs == [] then d else LastDir(if segs[0].load.outcome.Loaded? then ds[0] else d, ds[1..], segs[1..])
  }

  lemma SegmentDirects(env: Env, s: State, rs: seq<Rule>, sound: bool, d: PolicyDir, next: PolicyDir, seg: Segment)
    requires Settles(env, s, rs, sound) && SegmentOk(env, s, seg) && s.loads < U64_MAX && InDirection(d, s.maps, rs)
    requires seg.load.outcome.Loaded? ==> LoadsDir(next, seg.load)
    ensures var r := Run(s, seg.events);
            if seg.load.outcome.Loaded? then InDirection(next, r.maps, seg.load.p.rules) else InDirection(d, r.maps, rs)
  {
    var pol := Source(s.maps.config, rs);
    assert InForce(s.maps, pol);
    SegmentEnds(env, s, {pol}, seg);
    if seg.load.outcome.Loaded? {
      LoadedIsShaped(next, seg.load);
      LoadedConfig(seg.load);
    }
  }

  lemma {:induction false} LifetimeDirects(env: Env, s: State, rs: seq<Rule>, sound: bool, d: PolicyDir,
                                           ds: seq<PolicyDir>, segs: seq<Segment>)
    requires Settles(env, s, rs, sound) && Lifetime(env, s, segs) && s.loads + |segs| <= U64_MAX
    requires InDirection(d, s.maps, rs) && FromDirs(ds, segs)
    ensures InDirection(LastDir(d, ds, segs), After(s, segs).maps, LastLoaded(rs, segs))
    decreases |segs|
  {
    if segs != [] {
      var o := segs[0].load.outcome;
      SegmentSettles(env, s, rs, sound, segs[0]);
      SegmentDirects(env, s, rs, sound, d, ds[0], segs[0]);
      LifetimeDirects(env, Run(s, segs[0].events), if o.Loaded? then segs[0].load.p.rules else rs,
                      if o.Loaded? then true else if o.EpochWriteFailed? then false else sound,
                      if o.Loaded? then ds[0] else d, ds[1..], segs[1..]);
    }
  }

  /** After any loads of directories under traffic every call is answered as the directory loaded last says, unless an
      epoch write has failed since. */
  lemma LastDirectoryRules(env: Env, s: State, rs: seq<Rule>, sound: bool, d: PolicyDir, ds: seq<PolicyDir>,
                           segs: seq<Segment>, t: Task, call: Call, ret: int)
    requires Settles(env, s, rs, sound) && Lifetime(env, s, segs) && s.loads + |segs| <= U64_MAX
    requires InDirection(d, s.maps, rs) && FromDirs(ds, segs) && Sound(sound, segs)
    requires Conforms(env, call) && Readable(call)
    ensures var r := After(s, segs);
            AsSaid(LastDir(d, ds, segs), call, ret, HookStep(r.maps, r.l1, t, call, ret))
  {
    var r := After(s, segs);
    LifetimeDirects(env, s, rs, sound, d, ds, segs);
    LifetimeActionsMean(env, s, rs, sound, segs, t, call, ret);
    MeaningIsSaid(LastDir(d, ds, segs), r.maps.config, LastLoaded(rs, segs), call, ret,
                  HookStep(r.maps, r.l1, t, call, ret));
  }

  /** Such a life starts with the first directory loaded. */
  lemma FirstDirectoryRules(env: Env, d: PolicyDir, l: Load)
    requires LoadsDir(d, l) && l.m == FRESH_MAPS
    ensures Settles(env, State(l.n, map[], None, 1), l.p.rules, true) && InDirection(d, l.n, l.p.rules)
  {
    FirstLoadSettles(env, l);
    LoadedIsShaped(d, l);
    LoadedConfig(l);
  }
}
