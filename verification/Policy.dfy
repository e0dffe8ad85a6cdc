/** The policy maps, and the decisions L2 and L3 take from them (`bpf/l2_*`, `bpf/l3_*`). */
module Policy {
  import opened Common
  import opened Lpm
  import opened NetBits

  datatype Rule = Rule(enabled: bool, ruleId: U32, kind: RuleKind, action: U32, hooks: set<Hook>,
                       port: U32, addr: U32, mask: U32, resourceId: U64, value: Bytes)

  const ZERO_RULE := Rule(false, 0, PathPrefix, ALLOW, {}, 0, 0, 0, 0, [])

  /** The fields of an index value that the deciders read. */
  datatype Entry = Entry(enabled: bool, ruleId: U32, action: U32, hooks: set<Hook>)

  datatype ScopeMode = SystemWide | Scoped

  datatype Config = Config(defaultAction: U32, enforce: bool, auditAllowed: bool, ruleCount: U32,
                           skipDirRead: bool, cacheFollowups: bool, denyTailcallFail: bool, skipL2Safe: bool,
                           generation: U32, profileId: U32, agentId: U32,
                           scopeMode: ScopeMode, scopeCount: U32)

  datatype Selector = ByComm | ByPid | ByTgid

  datatype ScopeValue = ScopeValue(profileId: U32, agentId: U32, selector: Selector)

  /** Everything the loader writes. The one-element config and epoch arrays always hold a value. */
  datatype Maps = Maps(rules: seq<Rule>, config: Config, epoch: U64,
                       path: Index<Bytes, Entry>,
                       command: Index<Bytes, Entry>,
                       network: Index<Bits, Entry>,
                       resource: Index<(RuleKind, U64), Entry>,
                       comms: map<Bytes, ScopeValue>, pids: map<U32, ScopeValue>, tgids: map<U32, ScopeValue>)

  datatype Decision = Decision(action: U32, ruleId: U32)

  function EntryOf(r: Rule): Entry {
    Entry(r.enabled, r.ruleId, r.action, r.hooks)
  }

  // ---------------------------------------------------------------- L3

  function DefaultAction(c: Config): U32 {
    if ActionValid(c.defaultAction) then c.defaultAction else DENY
  }

  function DefaultDecision(c: Config): Decision {
    Decision(DefaultAction(c), 0)
  }

  function Ruling(c: Config, found: Option<Entry>, hook: Hook): Decision {
    if found.Some? && found.value.enabled && hook in found.value.hooks then
      Decision(if ActionValid(found.value.action) then found.value.action else DENY, found.value.ruleId)
    else
      DefaultDecision(c)
  }

  /** A name as the 192-byte trie key holds it: cut off, or filled with zeros. */
  function Padded(name: Bytes): (key: Bytes)
    ensures |key| == RULE_VALUE_LEN
  {
    if |name| >= RULE_VALUE_LEN then name[..RULE_VALUE_LEN]
    else name + seq(RULE_VALUE_LEN - |name|, _ => 0)
  }

  function NameDecide(c: Config, trie: Index<Bytes, Entry>, hook: Hook, name: Bytes): Decision {
    if c.ruleCount == 0 || name == [] then DefaultDecision(c)
    else Ruling(c, Lookup(trie, c.generation, Padded(name)), hook)
  }

  function PathDecide(m: Maps, hook: Hook, path: Bytes): Decision {
    NameDecide(m.config, m.path, hook, path)
  }

  function CommandDecide(m: Maps, hook: Hook, name: Bytes): Decision {
    NameDecide(m.config, m.command, hook, name)
  }

  function ResourceDecide(m: Maps, hook: Hook, id: U64): Decision {
    if m.config.ruleCount == 0 then DefaultDecision(m.config)
    else Ruling(m.config, Get(m.resource, m.config.generation, (PathPrefix, id)), hook)
  }

  function NetworkLookup(t: Index<Bits, Entry>, gen: U32, addr: U32, port: U32): Option<Entry> {
    var exact := Lookup(t, gen, NetItem(port, addr, 32));
    if exact.None? then Lookup(t, gen, NetItem(0, addr, 32)) else exact
  }

  function NetworkDecide(m: Maps, addr: U32, port: U16): Decision {
    if m.config.ruleCount == 0 then DefaultDecision(m.config)
    else Ruling(m.config, NetworkLookup(m.network, m.config.generation, addr, port), SocketConnect)
  }

  // ---------------------------------------------------------------- L2

  datatype FileType = Regular | Directory | OtherType

  function L2File(c: Config, kind: FileType, hook: Hook): U32 {
    if c.skipL2Safe then UNSET
    else if kind == OtherType then ALLOW
    else if c.skipDirRead && hook == FileRead && kind == Directory then ALLOW
    else UNSET
  }

  // ---------------------------------------------------------------- the answer of L2 then L3, without the cache

  function ExecAnswer(m: Maps, name: Bytes): U32 {
    if name == [] then DENY else CommandDecide(m, Exec, name).action
  }

  function OpenAnswer(m: Maps, kind: FileType, path: Bytes): U32 {
    var l2 := L2File(m.config, kind, FileOpen);
    if l2 != UNSET then l2 else PathDecide(m, FileOpen, path).action
  }

  function PermissionAnswer(m: Maps, hook: Hook, kind: FileType, id: U64): U32 {
    var l2 := L2File(m.config, kind, hook);
    if l2 != UNSET then l2 else ResourceDecide(m, hook, id).action
  }

  function ConnectAnswer(m: Maps, addr: U32, port: U16): U32 {
    NetworkDecide(m, addr, port).action
  }

  // ---------------------------------------------------------------- what a decision can depend on

  /** No decision sees the difference: same config and epoch, same entries of the active generation. */
  ghost predicate Quiet(m: Maps, n: Maps) {
    && m.config == n.config && m.epoch == n.epoch
    && SameActive(m, n)
  }

  ghost predicate SameActive(m: Maps, n: Maps) {
    var gen := m.config.generation;
    && Slice(m.path, gen) == Slice(n.path, gen)
    && Slice(m.command, gen) == Slice(n.command, gen)
    && Slice(m.network, gen) == Slice(n.network, gen)
    && Slice(m.resource, gen) == Slice(n.resource, gen)
  }

  /** Staging, clearing and scope writes are invisible to every decider on every input. */
  lemma QuietKeepsAnswers(m: Maps, n: Maps)
    requires m.config == n.config && SameActive(m, n)
    ensures forall name :: CommandDecide(m, Exec, name) == CommandDecide(n, Exec, name)
    ensures forall hook, path :: PathDecide(m, hook, path) == PathDecide(n, hook, path)
    ensures forall hook, id :: ResourceDecide(m, hook, id) == ResourceDecide(n, hook, id)
    ensures forall addr: U32, port: U16 :: NetworkDecide(m, addr, port) == NetworkDecide(n, addr, port)
  {
    var gen := m.config.generation;
    forall name
      ensures CommandDecide(m, Exec, name) == CommandDecide(n, Exec, name)
    {
      LookupReadsOwnGeneration(m.command, n.command, gen, Padded(name));
    }
    forall hook, path
      ensures PathDecide(m, hook, path) == PathDecide(n, hook, path)
    {
      LookupReadsOwnGeneration(m.path, n.path, gen, Padded(path));
    }
    forall hook, id
      ensures ResourceDecide(m, hook, id) == ResourceDecide(n, hook, id)
    {
      GetReadsOwnGeneration(m.resource, n.resource, gen, (PathPrefix, id));
    }
    forall addr: U32, port: U16
      ensures NetworkDecide(m, addr, port) == NetworkDecide(n, addr, port)
    {
      LookupReadsOwnGeneration(m.network, n.network, gen, NetItem(port, addr, 32));
      LookupReadsOwnGeneration(m.network, n.network, gen, NetItem(0, addr, 32));
    }
  }
}
