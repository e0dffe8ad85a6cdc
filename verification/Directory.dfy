/**
 What a policy directory says: its entries as they stand in the files, without rule list, index or generation. A
 successful load of a directory makes the hooks decide as it says.
 */
module Directory {
  import opened Common
  import opened NetBits
  import opened Policy
  import opened Compile
  import opened Rules
  import Scanners
  import opened Hooks
  import opened Calls
  import opened Protocol
  import opened Kernel
  import opened Loader
  import opened Reload
  import opened EndToEnd

  // ---------------------------------------------------------------- from entries to rules

  /** The entry counts: one for a block must have a valid one. */
  predicate Counts(s: RuleSpec, kind: RuleKind) {
    kind == Ipv4Connect ==> s.quad.Some? && 0 <= s.prefix <= 32
  }

  /** The entries of a file that count, in order. */
  function Kept(specs: seq<RuleSpec>, kind: RuleKind): (kept: seq<RuleSpec>)
    ensures |kept| <= |specs|
  {
    if specs == [] then []
    else
      var n := |specs| - 1;
      Kept(specs[..n], kind) + (if Counts(specs[n], kind) then [specs[n]] else [])
  }

  /** `v` is `value` less the slashes it ends with; a lone slash stays. */
  ghost predicate Trimmed(value: Bytes, v: Bytes) {
    && v <= value && v != [] && (|v| == 1 || v[|v| - 1] != 47)
    && forall i | |v| <= i < |value| :: value[i] == 47
  }

  /** The rule says what the entry says. */
  ghost predicate RuleOf(r: Rule, s: RuleSpec, kind: RuleKind) {
    && r.enabled && r.kind == kind && r.action == s.action
    && match kind
       case PathPrefix =>
         Trimmed(s.value, r.value) && r.resourceId == s.inode && r.hooks == {FileOpen, FileRead, FileWrite}
       case CommandPrefix => r.value == s.value && r.resourceId == 0 && r.hooks == {Exec}
       case Ipv4Connect =>
         && s.quad.Some? && r.addr == s.quad.value && MaskBits(r.mask) == s.prefix
         && r.port == (if s.port.Some? then s.port.value else 0)
         && r.resourceId == 0 && r.hooks == {SocketConnect}
  }

  /** The rules are the entries, one for one, with ids that go on from `base`. */
  ghost predicate RulesOf(rs: seq<Rule>, specs: seq<RuleSpec>, kind: RuleKind, base: nat) {
    |rs| == |specs| && forall i | 0 <= i < |rs| :: RuleOf(rs[i], specs[i], kind) && rs[i].ruleId == base + i + 1
  }

  /** What is wrong with an entry, if anything is. */
  function Refusal(s: RuleSpec, kind: RuleKind): Option<Errno> {
    if !s.flagsKnown then Some(EINVAL)
    else if kind == PathPrefix && |s.value| >= 191 then Some(ENAMETOOLONG)
    else if kind == PathPrefix && (s.value == [] || s.value[0] != 47) then Some(EINVAL)
    else None
  }

  /** What stops a file at entry `i` when there is room for `room` more rules, if anything does. */
  function StopsAt(room: nat, specs: seq<RuleSpec>, kind: RuleKind, i: nat): Option<Errno>
    requires i < |specs|
  {
    if Refusal(specs[i], kind).Some? then Refusal(specs[i], kind)
    else if Counts(specs[i], kind) && |Kept(specs[..i], kind)| >= room then Some(ENOSPC)
    else None
  }

  /** A file fails with the error of its first entry that stops it. */
  ghost predicate FailsWith(room: nat, specs: seq<RuleSpec>, kind: RuleKind, e: Errno) {
    exists i :: 0 <= i < |specs| && StopsAt(room, specs, kind, i) == Some(e) && NoneStops(room, specs, kind, i)
  }

  ghost predicate NoneStops(room: nat, specs: seq<RuleSpec>, kind: RuleKind, n: nat)
    requires n <= |specs|
  {
    forall i | 0 <= i < n :: StopsAt(room, specs, kind, i).None?
  }

  lemma NormalizedIsTrimmed(value: Bytes)
    requires value != []
    ensures Trimmed(value, Normalized(value))
  {
  }

  lemma {:induction false} AppendedSnoc(rs: seq<Rule>, specs: seq<RuleSpec>, kind: RuleKind, s: RuleSpec)
    requires |rs| <= MAX_RULES
    ensures var before := Appended(rs, specs, kind);
            Appended(rs, specs + [s], kind) == if before.Err? then before else Appended(before.value, [s], kind)
    decreases |specs|
  {
    var all := specs + [s];
    if specs == [] {
      assert all == [s];
    } else {
      assert all[0] == specs[0] && all[1..] == specs[1..] + [s];
      var r := RuleFrom(specs[0], kind, |rs|);
      if r.Ok? && r.value.None? {
        AppendedSnoc(rs, specs[1..], kind, s);
      } else if r.Ok? && |rs| < MAX_RULES {
        AppendedSnoc(rs + [r.value.value], specs[1..], kind, s);
      }
    }
  }

  /** One entry is read as it stands. */
  lemma EntryIsRead(s: RuleSpec, kind: RuleKind, index: nat)
    requires WellShaped(s) && index < U32_MAX
    ensures var r := RuleFrom(s, kind, index);
            if Refusal(s, kind).Some? then r == Err(Refusal(s, kind).value)
            else r.Ok? && (if Counts(s, kind) then r.value.Some? && RuleOf(r.value.value, s, kind)
                                                   && r.value.value.ruleId == index + 1
                           else r.value.None?)
  {
    NormalizedIsTrimmed(s.value);
    if Counts(s, Ipv4Connect) && kind == Ipv4Connect { MaskRoundTrip(s.prefix); }
  }

  /** The entries before the last one stop a file as they would without it. */
  lemma StopsBefore(room: nat, specs: seq<RuleSpec>, kind: RuleKind)
    requires specs != []
    ensures var before := specs[..|specs| - 1];
            && (NoneStops(room, before, kind, |before|) <==> NoneStops(room, specs, kind, |before|))
            && (forall e :: FailsWith(room, before, kind, e) ==> FailsWith(room, specs, kind, e))
  {
    var n := |specs| - 1;
    var before := specs[..n];
    forall i | 0 <= i < n
      ensures StopsAt(room, specs, kind, i) == StopsAt(room, before, kind, i)
    {
      assert specs[..i] == before[..i];
    }
    forall e | FailsWith(room, before, kind, e)
      ensures FailsWith(room, specs, kind, e)
    {
      var i :| 0 <= i < n && StopsAt(room, before, kind, i) == Some(e) && NoneStops(room, before, kind, i);
      assert StopsAt(room, specs, kind, i) == Some(e) && NoneStops(room, specs, kind, i);
    }
  }

  lemma RulesOfMore(all: seq<Rule>, specs: seq<RuleSpec>, kind: RuleKind, base: nat, r: Rule, s: RuleSpec)
    requires base <= |all| && RulesOf(all[base..], specs, kind, base) && RuleOf(r, s, kind) && r.ruleId == |all| + 1
    ensures RulesOf((all + [r])[base..], specs + [s], kind, base)
  {
    assert (all + [r])[base..] == all[base..] + [r];
  }

  ghost predicate ReadAs(rs: seq<Rule>, specs: seq<RuleSpec>, kind: RuleKind, r: Result<seq<Rule>>)
    requires |rs| <= MAX_RULES
  {
    match r
    case Ok(all) =>
      && NoneStops(MAX_RULES - |rs|, specs, kind, |specs|) && rs <= all
      && RulesOf(all[|rs|..], Kept(specs, kind), kind, |rs|)
    case Err(e) => FailsWith(MAX_RULES - |rs|, specs, kind, e)
  }

  lemma LastEntry(rs: seq<Rule>, specs: seq<RuleSpec>, kind: RuleKind, all: seq<Rule>)
    requires |rs| <= MAX_RULES && |all| <= MAX_RULES && specs != [] && WellShaped(specs[|specs| - 1])
    requires ReadAs(rs, specs[..|specs| - 1], kind, Ok(all))
    ensures ReadAs(rs, specs, kind, Appended(all, [specs[|specs| - 1]], kind))
  {
    var n, s, room := |specs| - 1, specs[|specs| - 1], MAX_RULES - |rs|;
    EntryIsRead(s, kind, |all|);
    StopsBefore(room, specs, kind);
    assert [s][0] == s && [s][1..] == [];
    if StopsAt(room, specs, kind, n).Some? {
      assert FailsWith(room, specs, kind, StopsAt(room, specs, kind, n).value);
    } else if Counts(s, kind) {
      var r := RuleFrom(s, kind, |all|).value.value;
      RulesOfMore(all, Kept(specs[..n], kind), kind, |rs|, r, s);
    } else {
      assert Kept(specs, kind) == Kept(specs[..n], kind) + [] == Kept(specs[..n], kind);
    }
  }

  /**
   A file is read as it stands: either the rules after it are those before it and, one for one and in order, its
   entries that count, or the first entry that stops it gives the error.
   */
  lemma {:induction false} FileIsRead(rs: seq<Rule>, specs: seq<RuleSpec>, kind: RuleKind)
    requires |rs| <= MAX_RULES && forall i | 0 <= i < |specs| :: WellShaped(specs[i])
    ensures ReadAs(rs, specs, kind, Appended(rs, specs, kind))
    decreases |specs|
  {
    if specs == [] {
      assert rs[|rs|..] == [];
    } else {
      var n := |specs| - 1;
      FileIsRead(rs, specs[..n], kind);
      assert specs == specs[..n] + [specs[n]];
      AppendedSnoc(rs, specs[..n], kind, specs[n]);
      match Appended(rs, specs[..n], kind)
      case Err(_) => StopsBefore(MAX_RULES - |rs|, specs, kind);
      case Ok(all) => LastEntry(rs, specs, kind, all);
    }
  }

  // ---------------------------------------------------------------- the profile

  function ScanErrno<T>(r: Scanners.Scan<T>): Option<Errno> {
    match r
    case Ok(_) => None
    case Fail(NoSpace) => Some(ENOSPC)
    case Fail(Invalid) => Some(EINVAL)
  }

  /** The arrays of a profile, each with the room its single selector leaves. */
  function Comms(p: Profile): Scanners.Scan<string> {
    Scanners.StringArray(p.text, "comms", if p.comm.Some? then 63 else 64)
  }

  function Pids(p: Profile): Scanners.Scan<nat> {
    Scanners.NumberArray(p.text, "pids", if p.pid.Some? then 63 else 64)
  }

  function Tgids(p: Profile): Scanners.Scan<nat> {
    Scanners.NumberArray(p.text, "tgids", if p.tgid.Some? then 63 else 64)
  }

  /** The first thing wrong with a profile, if anything is. */
  function ProfileError(p: Profile): Option<Errno> {
    if p.mode == BadMode || p.comm == Some([]) then Some(EINVAL)
    else if ScanErrno(Comms(p)).Some? then ScanErrno(Comms(p))
    else if p.pid == Some(0) then Some(EINVAL)
    else if ScanErrno(Pids(p)).Some? then ScanErrno(Pids(p))
    else if p.tgid == Some(0) then Some(EINVAL)
    else if ScanErrno(Tgids(p)).Some? then ScanErrno(Tgids(p))
    else if p.mode == ScopedMode && p.comm.None? && p.pid.None? && p.tgid.None?
            && Comms(p).values == [] && Pids(p).values == [] && Tgids(p).values == [] then Some(EINVAL)
    else None
  }

  /** The selectors are the single ones, then those of the arrays. */
  ghost predicate SelectorsOf(p: Profile, lists: ScopeLists) {
    && Comms(p).Ok? && Pids(p).Ok? && Tgids(p).Ok?
    && lists.pids == (if p.pid.Some? then [p.pid.value] else []) + Pids(p).values
    && lists.tgids == (if p.tgid.Some? then [p.tgid.value] else []) + Tgids(p).values
    && BytesOf(if p.comm.Some? then [p.comm.value] else [], Comms(p).values, lists.comms)
  }

  /** The single entries, then the texts as bytes. */
  ghost predicate BytesOf(single: seq<Bytes>, texts: seq<string>, all: seq<Bytes>) {
    && |all| == |single| + |texts| && single <= all
    && forall i | 0 <= i < |texts| :: SameBytes(texts[i], all[|single| + i])
  }

  ghost predicate SameBytes(text: string, bytes: Bytes) {
    |text| == |bytes| && forall i | 0 <= i < |text| :: bytes[i] == text[i] as int % 0x100
  }

  ghost predicate CommsRead(p: Profile, r: Result<seq<Bytes>>) {
    match r
    case Ok(comms) =>
      && p.comm != Some([]) && Comms(p).Ok?
      && BytesOf(if p.comm.Some? then [p.comm.value] else [], Comms(p).values, comms)
    case Err(e) => if p.comm == Some([]) then e == EINVAL else ScanErrno(Comms(p)) == Some(e)
  }

  lemma CommsAreRead(p: Profile)
    ensures CommsRead(p, CommList(p))
  {
    assert MAX_SCOPES - |Single(p.comm)| == if p.comm.Some? then 63 else 64;
    if p.comm != Some([]) && Comms(p).Ok? {
      BytesOfAll(Single(p.comm), Comms(p).values);
    }
  }

  lemma BytesOfAll(single: seq<Bytes>, texts: seq<string>)
    ensures BytesOf(single, texts, single + EncodedAll(texts))
  {
  }

  ghost predicate IdsRead(single: Option<U32>, many: Scanners.Scan<nat>, r: Result<seq<U32>>) {
    match r
    case Ok(ids) => single != Some(0) && many.Ok? && ids == (if single.Some? then [single.value] else []) + many.values
    case Err(e) => if single == Some(0) then e == EINVAL else ScanErrno(many) == Some(e)
  }

  lemma IdsAreRead(text: string, key: string, single: Option<U32>)
    ensures IdsRead(single, Scanners.NumberArray(text, key, if single.Some? then 63 else 64), IdList(text, key, single))
  {
    assert MAX_SCOPES - |Single(single)| == if single.Some? then 63 else 64;
  }

  ghost predicate ProfileRead(p: Profile, r: Result<(Config, ScopeLists)>) {
    match r
    case Ok((_, lists)) => ProfileError(p).None? && SelectorsOf(p, lists)
    case Err(e) => ProfileError(p) == Some(e)
  }

  lemma ProfileIsRead(p: Profile, c: Config)
    requires c.scopeMode == SystemWide
    ensures ProfileRead(p, ProfileResult(p, c))
  {
    CommsAreRead(p);
    IdsAreRead(p.text, "pids", p.pid);
    IdsAreRead(p.text, "tgids", p.tgid);
  }

  // ---------------------------------------------------------------- the directory

  /** The rules are the entries of the three files that count, path entries first, then commands, then blocks. */
  ghost predicate RulesOfDir(d: PolicyDir, rs: seq<Rule>) {
    var a, b := |Kept(d.paths, PathPrefix)|, |Kept(d.commands, CommandPrefix)|;
    && a + b <= |rs|
    && RulesOf(rs[..a], Kept(d.paths, PathPrefix), PathPrefix, 0)
    && RulesOf(rs[a..a + b], Kept(d.commands, CommandPrefix), CommandPrefix, a)
    && RulesOf(rs[a + b..], Kept(d.network, Ipv4Connect), Ipv4Connect, a + b)
  }

  /** The command file fails with the room the path file leaves. */
  ghost predicate CommandsFail(d: PolicyDir, e: Errno) {
    var a := |Kept(d.paths, PathPrefix)|;
    && NoneStops(32, d.paths, PathPrefix, |d.paths|)
    && a <= 32 && FailsWith(32 - a, d.commands, CommandPrefix, e)
  }

  /** The network file fails with the room the others leave. */
  ghost predicate NetworkFails(d: PolicyDir, e: Errno) {
    var a, b := |Kept(d.paths, PathPrefix)|, |Kept(d.commands, CommandPrefix)|;
    && NoneStops(32, d.paths, PathPrefix, |d.paths|)
    && a + b <= 32 && NoneStops(32 - a, d.commands, CommandPrefix, |d.commands|)
    && FailsWith(32 - a - b, d.network, Ipv4Connect, e)
  }

  /** The rule files fail with the first error in them. */
  ghost predicate FilesFail(d: PolicyDir, e: Errno) {
    FailsWith(32, d.paths, PathPrefix, e) || CommandsFail(d, e) || NetworkFails(d, e)
  }

  /** A directory is refused for the first thing wrong: in its settings, its profile, its path, command or network
      file. */
  ghost predicate RefusedFor(d: PolicyDir, e: Errno) {
    if !d.settings.flagsKnown then e == EINVAL
    else if ProfileError(d.profile).Some? then e == ProfileError(d.profile).value
    else FilesFail(d, e)
  }

  lemma AppendedKept(rs: seq<Rule>, specs: seq<RuleSpec>, kind: RuleKind, all: seq<Rule>)
    requires |rs| <= MAX_RULES && ReadAs(rs, specs, kind, Ok(all))
    ensures all == rs + all[|rs|..] && |all| == |rs| + |Kept(specs, kind)|
  {
  }

  ghost predicate FilesFit(d: PolicyDir) {
    var a, b := |Kept(d.paths, PathPrefix)|, |Kept(d.commands, CommandPrefix)|;
    && a + b + |Kept(d.network, Ipv4Connect)| <= 32
    && NoneStops(32, d.paths, PathPrefix, |d.paths|)
    && NoneStops(32 - a, d.commands, CommandPrefix, |d.commands|)
    && NoneStops(32 - a - b, d.network, Ipv4Connect, |d.network|)
  }

  /** Nothing is wrong with the directory. */
  ghost predicate Acceptable(d: PolicyDir) {
    d.settings.flagsKnown && ProfileError(d.profile).None? && FilesFit(d)
  }

  lemma AcceptableIsNotRefused(d: PolicyDir, e: Errno)
    requires Acceptable(d)
    ensures !RefusedFor(d, e)
  {
  }

  ghost predicate DirRead(d: PolicyDir, r: Result<Parsed>) {
    match r
    case Ok(p) =>
      Acceptable(d) && RulesOfDir(d, p.rules) && SelectorsOf(d.profile, p.lists) && AsDirected(d, p, p.config)
    case Err(e) => RefusedFor(d, e)
  }

  /** A directory is read as it stands, or refused for the first thing wrong with it. */
  lemma DirectoryIsRead(d: PolicyDir)
    requires WellShapedDir(d)
    ensures DirRead(d, ParsedDir(d))
  {
    ProfileIsRead(d.profile, BaseConfig(d.settings));
    RulesAreRead(d);
    if ParsedDir(d).Ok? { ParsedAsDirected(d); }
  }

  ghost predicate FilesRead(d: PolicyDir, r: Result<seq<Rule>>) {
    match r
    case Ok(rs) => RulesOfDir(d, rs) && FilesFit(d)
    case Err(e) => FilesFail(d, e)
  }

  lemma NetworkIsRefused(d: PolicyDir, a: nat, ab: nat, e: Errno)
    requires a == |Kept(d.paths, PathPrefix)| && ab == a + |Kept(d.commands, CommandPrefix)| && ab <= 32
    requires NoneStops(32, d.paths, PathPrefix, |d.paths|) && NoneStops(32 - a, d.commands, CommandPrefix, |d.commands|)
    requires FailsWith(32 - ab, d.network, Ipv4Connect, e)
    ensures NetworkFails(d, e)
  {
  }

  lemma NetworkIsTaken(d: PolicyDir, paths: seq<Rule>, commands: seq<Rule>, all: seq<Rule>)
    requires |paths| <= MAX_RULES && ReadAs([], d.paths, PathPrefix, Ok(paths))
    requires |commands| <= MAX_RULES && ReadAs(paths, d.commands, CommandPrefix, Ok(commands))
    requires |all| <= MAX_RULES && ReadAs(commands, d.network, Ipv4Connect, Ok(all))
    ensures RulesOfDir(d, all) && FilesFit(d)
  {
    AppendedKept([], d.paths, PathPrefix, paths);
    AppendedKept(paths, d.commands, CommandPrefix, commands);
    AppendedKept(commands, d.network, Ipv4Connect, all);
    assert paths[0..] == paths;
    ThreeParts(d, paths, commands, all);
  }

  lemma NetworkIsRefusedAfter(d: PolicyDir, paths: seq<Rule>, commands: seq<Rule>, e: Errno)
    requires |paths| <= MAX_RULES && ReadAs([], d.paths, PathPrefix, Ok(paths))
    requires |commands| <= MAX_RULES && ReadAs(paths, d.commands, CommandPrefix, Ok(commands))
    requires FailsWith(32 - |commands|, d.network, Ipv4Connect, e)
    ensures NetworkFails(d, e)
  {
    AppendedKept([], d.paths, PathPrefix, paths);
    AppendedKept(paths, d.commands, CommandPrefix, commands);
    NetworkIsRefused(d, |paths|, |commands|, e);
  }

  /** The outcomes of the three files, each read after the ones before it. */
  lemma FilesInOrder(d: PolicyDir, paths: Result<seq<Rule>>, commands: Result<seq<Rule>>, network: Result<seq<Rule>>)
    requires paths.Ok? ==> |paths.value| <= MAX_RULES
    requires commands.Ok? ==> |commands.value| <= MAX_RULES
    requires network.Ok? ==> |network.value| <= MAX_RULES
    requires ReadAs([], d.paths, PathPrefix, paths)
    requires paths.Ok? ==> ReadAs(paths.value, d.commands, CommandPrefix, commands)
    requires paths.Ok? && commands.Ok? ==> ReadAs(commands.value, d.network, Ipv4Connect, network)
    ensures FilesRead(d, if paths.Err? then paths else if commands.Err? then commands else network)
  {
    if paths.Ok? && commands.Ok? {
      if network.Ok? {
        NetworkIsTaken(d, paths.value, commands.value, network.value);
      } else {
        NetworkIsRefusedAfter(d, paths.value, commands.value, network.errno);
      }
    } else if paths.Ok? {
      AppendedKept([], d.paths, PathPrefix, paths.value);
    }
  }

  lemma RulesAreRead(d: PolicyDir)
    requires WellShapedDir(d)
    ensures FilesRead(d, AllRules(d))
  {
    var all := d.paths + d.commands + d.network;
    assert forall i | 0 <= i < |d.paths| :: d.paths[i] in all;
    assert forall i | 0 <= i < |d.commands| :: d.commands[i] in all;
    assert forall i | 0 <= i < |d.network| :: d.network[i] in all;
    FileIsRead([], d.paths, PathPrefix);
    var paths := Appended([], d.paths, PathPrefix);
    var after: seq<Rule> := if paths.Ok? then paths.value else [];
    FileIsRead(after, d.commands, CommandPrefix);
    var commands := Appended(after, d.commands, CommandPrefix);
    var last: seq<Rule> := if commands.Ok? then commands.value else [];
    FileIsRead(last, d.network, Ipv4Connect);
    FilesInOrder(d, paths, commands, Appended(last, d.network, Ipv4Connect));
  }

  lemma ThreeParts(d: PolicyDir, paths: seq<Rule>, commands: seq<Rule>, all: seq<Rule>)
    requires |all| <= MAX_RULES && paths <= commands <= all
    requires RulesOf(paths, Kept(d.paths, PathPrefix), PathPrefix, 0)
    requires RulesOf(commands[|paths|..], Kept(d.commands, CommandPrefix), CommandPrefix, |paths|)
    requires RulesOf(all[|commands|..], Kept(d.network, Ipv4Connect), Ipv4Connect, |commands|)
    ensures RulesOfDir(d, all)
  {
    assert all[..|paths|] == paths && all[|paths|..|commands|] == commands[|paths|..];
  }
}
