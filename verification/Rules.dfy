/** From policy entries to the rule list and the scope lists (the parsing half of `policy_loader.c`, after JSON). */
module Rules {
  import opened Common
  import opened NetBits
  import opened Policy
  import opened Compile
  import Scanners

  datatype Errno = EINVAL | ENOSPC | ENAMETOOLONG

  datatype Result<+T> = Ok(value: T) | Err(errno: Errno)

  const SLASH: Byte := 47

  /**
   One object of a rule file: its value, its action, whether its flags are all known, its port if it
   has one, the inode `stat` finds at the value, and what `inet_pton` and `atoi` make of the value as
   a block.
   */
  datatype RuleSpec = RuleSpec(value: Bytes, action: U32, flagsKnown: bool, port: Option<U32>, inode: U64,
                               quad: Option<U32>, prefix: int)

  ghost predicate WellShaped(s: RuleSpec) {
    0 < |s.value| < RULE_VALUE_LEN && CString(s.value) && s.action in {ALLOW, DENY, AUDIT}
  }

  /** `normalize_path_value`: reject what is not an absolute path that fits, drop trailing slashes. */
  method NormalizePath(value: Bytes) returns (r: Result<Bytes>)
    requires |value| < RULE_VALUE_LEN
    ensures r == if value == [] then Err(EINVAL)
                 else if |value| >= RULE_VALUE_LEN - 1 then Err(ENAMETOOLONG)
                 else if value[0] != SLASH then Err(EINVAL)
                 else Ok(Normalized(value))
  {
    var len := |value|;
    if len == 0 { return Err(EINVAL); }
    if len >= RULE_VALUE_LEN - 1 { return Err(ENAMETOOLONG); }
    if value[0] != SLASH { return Err(EINVAL); }
    var v := value;
    while len > 1 && v[len - 1] == SLASH
      invariant 1 <= len == |v| && Normalized(v) == Normalized(value)
    {
      v := v[..len - 1];
      len := len - 1;
    }
    return Ok(v);
  }

  function Normalized(value: Bytes): (v: Bytes)
    ensures v <= value
    ensures forall i | |v| <= i < |value| :: value[i] == SLASH
    ensures value != [] ==> v != [] && (|v| == 1 || v[|v| - 1] != SLASH)
  {
    if |value| > 1 && value[|value| - 1] == SLASH then Normalized(value[..|value| - 1]) else value
  }

  /** `parse_ipv4_cidr`: the mask is built in host order and swapped; the prefix length can be read back from it. */
  method ParseIpv4Cidr(quad: Option<U32>, prefix: int) returns (r: Option<(U32, U32)>)
    ensures r.Some? <==> 0 <= prefix <= 32 && quad.Some?
    ensures r.Some? ==> r.value.0 == quad.value && r.value.1 == Ntohl(HostMask(prefix)) && MaskBits(r.value.1) == prefix
  {
    if prefix < 0 || prefix > 32 || quad.None? {
      return None;
    }
    var hostMask := if prefix == 0 then 0 else ShiftLeft32(U32_MAX, 32 - prefix);
    MaskRoundTrip(prefix);
    return Some((quad.value, Ntohl(hostMask)));
  }

  /** What one entry becomes at position `index`: an error, nothing (a bad block), or a rule. */
  function RuleFrom(s: RuleSpec, kind: RuleKind, index: nat): Result<Option<Rule>>
    requires index < U32_MAX
  {
    if !s.flagsKnown then Err(EINVAL)
    else match kind
    case PathPrefix =>
      if s.value == [] then Err(EINVAL)
      else if |s.value| >= RULE_VALUE_LEN - 1 then Err(ENAMETOOLONG)
      else if s.value[0] != SLASH then Err(EINVAL)
      else Ok(Some(Rule(true, index + 1, kind, s.action, DefaultHooks(kind), 0, 0, 0, s.inode, Normalized(s.value))))
    case CommandPrefix =>
      Ok(Some(Rule(true, index + 1, kind, s.action, DefaultHooks(kind), 0, 0, 0, 0, s.value)))
    case Ipv4Connect =>
      if s.quad.None? || s.prefix < 0 || s.prefix > 32 then Ok(None)
      else Ok(Some(Rule(true, index + 1, kind, s.action, DefaultHooks(kind),
                        if s.port.Some? then s.port.value else 0,
                        s.quad.value, Ntohl(HostMask(s.prefix)), 0, s.value)))
  }

  /** The rule list after a file, or the first error in it. */
  function Appended(rs: seq<Rule>, specs: seq<RuleSpec>, kind: RuleKind): (r: Result<seq<Rule>>)
    requires |rs| <= MAX_RULES
    ensures r.Ok? ==> rs <= r.value && |r.value| <= MAX_RULES
    decreases |specs|
  {
    if specs == [] then Ok(rs)
    else match RuleFrom(specs[0], kind, |rs|)
      case Err(e) => Err(e)
      case Ok(None) => Appended(rs, specs[1..], kind)
      case Ok(Some(r)) => if |rs| >= MAX_RULES then Err(ENOSPC) else Appended(rs + [r], specs[1..], kind)
  }

  /** The body of the loop of `load_rule_file`, up to `add_rule`. */
  method BuildRule(s: RuleSpec, kind: RuleKind, index: nat) returns (r: Result<Option<Rule>>)
    requires WellShaped(s) && index <= MAX_RULES
    ensures r == RuleFrom(s, kind, index)
    ensures r.Ok? && r.value.Some? ==> AcceptedRule(r.value.value, index)
  {
    if !s.flagsKnown { return Err(EINVAL); }
    var rule := ZERO_RULE.(kind := kind, action := s.action, hooks := DefaultHooks(kind), value := s.value);
    if kind == PathPrefix {
      var normal := NormalizePath(s.value);
      if normal.Err? { return Err(normal.errno); }
      rule := rule.(value := normal.value, resourceId := s.inode);
    }
    if kind == Ipv4Connect {
      var block := ParseIpv4Cidr(s.quad, s.prefix);
      if block.None? { return Ok(None); }
      rule := rule.(addr := block.value.0, mask := block.value.1);
      if s.port.Some? { rule := rule.(port := s.port.value); }
    }
    return Ok(Some(rule.(enabled := true, ruleId := index + 1)));
  }

  /** `load_rule_file`: entries in order, bad blocks skipped, stopping at the first error. */
  method LoadRuleFile(specs: seq<RuleSpec>, kind: RuleKind, state: seq<Rule>) returns (r: Result<seq<Rule>>)
    requires Accepted(state)
    requires forall i | 0 <= i < |specs| :: WellShaped(specs[i])
    ensures r == Appended(state, specs, kind)
    ensures r.Ok? ==> Accepted(r.value) && state <= r.value
  {
    var rules := state;
    var i := 0;
    while i < |specs|
      invariant 0 <= i <= |specs|
      invariant Accepted(rules) && state <= rules
      invariant Appended(state, specs, kind) == Appended(rules, specs[i..], kind)
    {
      assert specs[i..][0] == specs[i] && specs[i..][1..] == specs[i + 1..];
      var rule := BuildRule(specs[i], kind, |rules|);
      if rule.Err? { return Err(rule.errno); }
      if rule.value.Some? {
        if |rules| >= MAX_RULES { return Err(ENOSPC); }
        rules := rules + [rule.value.value];
      }
      i := i + 1;
    }
    return Ok(rules);
  }

  // ---------------------------------------------------------------- scopes

  datatype ModeField = NoMode | SystemWideMode | ScopedMode | BadMode

  /** The single fields of the profile file, and its text, from which the arrays are scanned. */
  datatype Profile = Profile(profileId: Option<U32>, agentId: Option<U32>, mode: ModeField,
                             comm: Option<Bytes>, pid: Option<U32>, tgid: Option<U32>, text: string)

  datatype ScopeLists = ScopeLists(comms: seq<Bytes>, pids: seq<U32>, tgids: seq<U32>)

  function Single<T>(field: Option<T>): (list: seq<T>)
    ensures |list| <= 1
  {
    if field.Some? then [field.value] else []
  }

  function ErrnoOf(e: Scanners.ScanError): Errno {
    match e
    case NoSpace => ENOSPC
    case Invalid => EINVAL
  }

  /** The bytes of a text. */
  function Encoded(text: string): (bytes: Bytes)
    ensures |bytes| == |text|
  {
    seq(|text|, i requires 0 <= i < |text| => text[i] as int % 256)
  }

  function EncodedAll(texts: seq<string>): (all: seq<Bytes>)
    ensures |all| == |texts| && forall i | 0 <= i < |all| :: all[i] == Encoded(texts[i])
  {
    seq(|texts|, i requires 0 <= i < |texts| => Encoded(texts[i]))
  }

  /** The comm selectors: the single one, then those of the array, at most 64 together. */
  function CommList(p: Profile): (r: Result<seq<Bytes>>)
    ensures r.Ok? ==> |r.value| <= MAX_SCOPES
  {
    if p.comm == Some([]) then Err(EINVAL)
    else match Scanners.StringArray(p.text, "comms", MAX_SCOPES - |Single(p.comm)|)
      case Fail(e) => Err(ErrnoOf(e))
      case Ok(many) => Ok(Single(p.comm) + EncodedAll(many))
  }

  /** The selectors of one kind of id: the single one, which must not be zero, then those of the array. */
  function IdList(text: string, key: string, single: Option<U32>): (r: Result<seq<U32>>)
    ensures r.Ok? ==> |r.value| <= MAX_SCOPES
  {
    if single == Some(0) then Err(EINVAL)
    else match Scanners.NumberArray(text, key, MAX_SCOPES - |Single(single)|)
      case Fail(e) => Err(ErrnoOf(e))
      case Ok(many) => Ok(Single(single) + many)
  }

  function Configured(p: Profile, lists: ScopeLists, c: Config): Config
    requires |lists.comms| <= MAX_SCOPES && |lists.pids| <= MAX_SCOPES && |lists.tgids| <= MAX_SCOPES
  {
    c.(profileId := if p.profileId.Some? then p.profileId.value else c.profileId,
       agentId := if p.agentId.Some? then p.agentId.value else c.agentId,
       scopeMode := if p.mode == SystemWideMode then SystemWide
                    else if p.mode == ScopedMode then Scoped
                    else c.scopeMode,
       scopeCount := |lists.comms| + |lists.pids| + |lists.tgids|)
  }

  /** What a profile file makes of the config, or the first error in it. */
  function ProfileResult(p: Profile, c: Config): (r: Result<(Config, ScopeLists)>)
    ensures r.Ok? ==> var lists := r.value.1;
                      |lists.comms| <= MAX_SCOPES && |lists.pids| <= MAX_SCOPES && |lists.tgids| <= MAX_SCOPES
  {
    if p.mode == BadMode then Err(EINVAL)
    else
      var comms, pids, tgids := CommList(p), IdList(p.text, "pids", p.pid), IdList(p.text, "tgids", p.tgid);
      if comms.Err? then Err(comms.errno)
      else if pids.Err? then Err(pids.errno)
      else if tgids.Err? then Err(tgids.errno)
      else
        var lists := ScopeLists(comms.value, pids.value, tgids.value);
        var config := Configured(p, lists, c);
        if config.scopeMode == Scoped && config.scopeCount == 0 then Err(EINVAL) else Ok((config, lists))
  }

  /** `load_profile_file`: at most 64 selectors of each kind, and at least one in scoped mode. */
  method LoadProfile(p: Profile, c: Config) returns (r: Result<(Config, ScopeLists)>)
    ensures r == ProfileResult(p, c)
  {
    if p.mode == BadMode { return Err(EINVAL); }
    var comms := AddComms(p);
    if comms.Err? { return Err(comms.errno); }
    var pids := AddIds(p.text, "pids", p.pid);
    if pids.Err? { return Err(pids.errno); }
    var tgids := AddIds(p.text, "tgids", p.tgid);
    if tgids.Err? { return Err(tgids.errno); }
    var lists := ScopeLists(comms.value, pids.value, tgids.value);
    var config := Configured(p, lists, c);
    if config.scopeMode == Scoped && config.scopeCount == 0 { return Err(EINVAL); }
    return Ok((config, lists));
  }

  method AddComms(p: Profile) returns (r: Result<seq<Bytes>>)
    ensures r == CommList(p)
  {
    if p.comm == Some([]) { return Err(EINVAL); }
    var comms := Single(p.comm);
    var buffer := new string[MAX_SCOPES - |comms|](_ => "");
    var error, count := Scanners.GetStringArray(p.text, "comms", buffer);
    if error.Some? { return Err(ErrnoOf(error.value)); }
    return Ok(comms + EncodedAll(buffer[..count]));
  }

  method AddIds(text: string, key: string, single: Option<U32>) returns (r: Result<seq<U32>>)
    ensures r == IdList(text, key, single)
  {
    if single == Some(0) { return Err(EINVAL); }
    var ids := Single(single);
    var buffer := new nat[MAX_SCOPES - |ids|](_ => 0);
    var error, count := Scanners.GetU32Array(text, key, buffer);
    if error.Some? { return Err(ErrnoOf(error.value)); }
    ghost var scan := Scanners.NumberArray(text, key, MAX_SCOPES - |ids|);
    assert buffer[..count] == scan.values;
    return Ok(ids + buffer[..count]);
  }
}
