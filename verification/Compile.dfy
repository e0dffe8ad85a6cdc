/**
 What the four indexes mean. Compiling a rule list into longest-prefix indexes and looking a
 request up gives the ruling of the most specific matching rule, the later one among equals.
 */
module Compile {
  import opened Common
  import opened Lpm
  import opened NetBits
  import opened Policy

  // ---------------------------------------------------------------- the rule list's own meaning

  /** `lengths` says whether a rule matches, and how specifically. */
  ghost predicate Wins<T>(rs: seq<T>, lengths: T -> Option<nat>, i: nat) {
    && i < |rs| && lengths(rs[i]).Some?
    && forall j | 0 <= j < |rs| && lengths(rs[j]).Some? ::
         lengths(rs[j]).value < lengths(rs[i]).value || (lengths(rs[j]).value == lengths(rs[i]).value && j <= i)
  }

  /** The most specific matching rule, the last one among equally specific ones. */
  function Winner<T>(rs: seq<T>, lengths: T -> Option<nat>): (w: Option<nat>)
    ensures w.Some? ==> Wins(rs, lengths, w.value)
    ensures w.None? ==> forall i | 0 <= i < |rs| :: lengths(rs[i]).None?
  {
    if rs == [] then None
    else
      var n := |rs| - 1;
      var before := Winner(rs[..n], lengths);
      if lengths(rs[n]).Some? && (before.None? || lengths(rs[before.value]).value <= lengths(rs[n]).value)
      then Some(n) else before
  }

  /** A name rule matches when its value is a byte prefix of the name. */
  function NameMatch(kind: RuleKind, name: Bytes): Rule -> Option<nat> {
    (r: Rule) => if r.kind == kind && r.value <= name then Some(|r.value|) else None
  }

  /** A network rule matches when its port is `port` and its block holds `addr`. */
  function NetMatch(port: U32, addr: U32): Rule -> Option<nat> {
    (r: Rule) =>
      if r.kind == Ipv4Connect && r.port == port && InBlock(addr, r.addr, MaskBits(r.mask))
      then Some(MaskBits(r.mask)) else None
  }

  /** A path rule also covers the inode its path named at load time. */
  function InodeMatch(id: U64): Rule -> Option<nat> {
    (r: Rule) => if r.resourceId != 0 && r.resourceId == id then Some(0) else None
  }

  /** The ruling of the winner, else the default, which is to deny if it is no valid action. */
  function Verdict(c: Config, rs: seq<Rule>, w: Option<nat>): Decision
    requires w.Some? ==> w.value < |rs|
  {
    if w.Some? then Decision(rs[w.value].action, rs[w.value].ruleId)
    else Decision(if c.defaultAction in {ALLOW, DENY, AUDIT} then c.defaultAction else DENY, 0)
  }

  // ---------------------------------------------------------------- compilation

  function PathItem(r: Rule): Option<Bytes> {
    if r.kind == PathPrefix then Some(r.value) else None
  }

  function CommandItem(r: Rule): Option<Bytes> {
    if r.kind == CommandPrefix then Some(r.value) else None
  }

  function NetworkItem(r: Rule): Option<Bits> {
    if r.kind == Ipv4Connect then Some(NetItem(r.port, r.addr, MaskBits(r.mask))) else None
  }

  function ResourceItem(r: Rule): Option<(RuleKind, U64)> {
    if r.resourceId != 0 then Some((r.kind, r.resourceId)) else None
  }

  /** The entries the `write_*` loops leave for a rule list: later writes overwrite equal keys. */
  function Compiled<T>(rs: seq<Rule>, gen: U32, item: Rule -> Option<T>): (m: Index<T, Entry>)
    ensures |m| <= |rs|
    ensures forall k :: k in m ==> k.gen == gen
  {
    if rs == [] then map[]
    else
      var n := |rs| - 1;
      var before := Compiled(rs[..n], gen, item);
      match item(rs[n])
      case None => before
      case Some(x) => before[Key(gen, x) := EntryOf(rs[n])]
  }

  function LastWith<T(==)>(rs: seq<Rule>, item: Rule -> Option<T>, x: T): (w: Option<nat>)
    ensures w.Some? ==> w.value < |rs| && item(rs[w.value]) == Some(x)
    ensures w.Some? ==> forall j | w.value < j < |rs| :: item(rs[j]) != Some(x)
    ensures w.None? ==> forall j | 0 <= j < |rs| :: item(rs[j]) != Some(x)
  {
    if rs == [] then None
    else if item(rs[|rs| - 1]) == Some(x) then Some(|rs| - 1)
    else LastWith(rs[..|rs| - 1], item, x)
  }

  lemma {:induction false} CompiledHoldsLast<T>(rs: seq<Rule>, gen: U32, item: Rule -> Option<T>, x: T)
    ensures var w := LastWith(rs, item, x);
            Get(Compiled(rs, gen, item), gen, x) == if w.Some? then Some(EntryOf(rs[w.value])) else None
  {
    if rs != [] {
      CompiledHoldsLast(rs[..|rs| - 1], gen, item, x);
    }
  }

  /** `lengths` measures how long a stored prefix of `full` each rule's item is. */
  ghost predicate Measures<T(!new)>(rs: seq<Rule>, item: Rule -> Option<seq<T>>, full: seq<T>,
                                    lengths: Rule -> Option<nat>, base: nat)
  {
    forall i | 0 <= i < |rs| ::
      var it := item(rs[i]);
      && (it.Some? ==> |it.value| >= base)
      && lengths(rs[i]) == if it.Some? && it.value <= full then Some(|it.value| - base) else None
  }

  lemma IndexedByRule<T>(rs: seq<Rule>, gen: U32, item: Rule -> Option<T>, x: T) returns (j: nat)
    requires Key(gen, x) in Compiled(rs, gen, item)
    ensures j < |rs| && item(rs[j]) == Some(x) && LastWith(rs, item, x) == Some(j)
    ensures Compiled(rs, gen, item)[Key(gen, x)] == EntryOf(rs[j])
  {
    CompiledHoldsLast(rs, gen, item, x);
    j := LastWith(rs, item, x).value;
  }

  lemma IndexesRule<T>(rs: seq<Rule>, gen: U32, item: Rule -> Option<T>, i: nat)
    requires i < |rs| && item(rs[i]).Some?
    ensures Key(gen, item(rs[i]).value) in Compiled(rs, gen, item)
  {
    CompiledHoldsLast(rs, gen, item, item(rs[i]).value);
  }

  lemma NoneIsLonger<T(!new)>(rs: seq<Rule>, gen: U32, item: Rule -> Option<seq<T>>,
                              full: seq<T>, lengths: Rule -> Option<nat>, base: nat, i: nat, q: seq<T>)
    requires Measures(rs, item, full, lengths, base) && Wins(rs, lengths, i)
    requires Key(gen, q) in Compiled(rs, gen, item) && q <= full
    ensures item(rs[i]).Some? && |q| <= |item(rs[i]).value|
  {
    var j := IndexedByRule(rs, gen, item, q);
    assert lengths(rs[j]) == Some(|q| - base);
  }

  lemma WinnerIsLast<T(!new)>(rs: seq<Rule>, gen: U32, item: Rule -> Option<seq<T>>,
                              full: seq<T>, lengths: Rule -> Option<nat>, base: nat, i: nat)
    requires Measures(rs, item, full, lengths, base) && Wins(rs, lengths, i)
    ensures item(rs[i]).Some? && item(rs[i]).value <= full
    ensures Get(Compiled(rs, gen, item), gen, item(rs[i]).value) == Some(EntryOf(rs[i]))
  {
    IndexesRule(rs, gen, item, i);
    var last := IndexedByRule(rs, gen, item, item(rs[i]).value);
    assert lengths(rs[last]) == lengths(rs[i]);
  }

  lemma WinnerIsLongest<T(!new)>(rs: seq<Rule>, gen: U32, item: Rule -> Option<seq<T>>,
                                 full: seq<T>, lengths: Rule -> Option<nat>, base: nat, i: nat)
    requires Measures(rs, item, full, lengths, base) && Wins(rs, lengths, i)
    ensures item(rs[i]).Some?
    ensures LongestMatch(Compiled(rs, gen, item), gen, full, item(rs[i]).value)
    ensures Compiled(rs, gen, item)[Key(gen, item(rs[i]).value)] == EntryOf(rs[i])
  {
    WinnerIsLast(rs, gen, item, full, lengths, base, i);
    forall q | Key(gen, q) in Compiled(rs, gen, item) && q <= full
      ensures |q| <= |item(rs[i]).value|
    {
      NoneIsLonger(rs, gen, item, full, lengths, base, i, q);
    }
  }

  /** Longest-prefix lookup in the compiled index finds the winning rule. */
  lemma LookupFindsWinner<T(!new)>(rs: seq<Rule>, gen: U32, item: Rule -> Option<seq<T>>,
                                   full: seq<T>, lengths: Rule -> Option<nat>, base: nat)
    requires Measures(rs, item, full, lengths, base)
    ensures var w := Winner(rs, lengths);
            Lookup(Compiled(rs, gen, item), gen, full) == if w.Some? then Some(EntryOf(rs[w.value])) else None
  {
    var index := Compiled(rs, gen, item);
    match Winner(rs, lengths)
    case None =>
      forall q | Key(gen, q) in index
        ensures !(q <= full)
      {
        var j := IndexedByRule(rs, gen, item, q);
        assert lengths(rs[j]).None?;
      }
      LookupMiss(index, gen, full);
    case Some(i) =>
      WinnerIsLongest(rs, gen, item, full, lengths, base, i);
      LookupFindsLongest(index, gen, full, item(rs[i]).value);
  }

  // ---------------------------------------------------------------- what the loader accepts

  function DefaultHooks(kind: RuleKind): set<Hook> {
    match kind
    case CommandPrefix => {Exec}
    case Ipv4Connect => {SocketConnect}
    case PathPrefix => {FileOpen, FileRead, FileWrite}
  }

  ghost predicate AcceptedRule(r: Rule, index: nat) {
    && r.enabled && r.ruleId == index + 1 && ActionValid(r.action) && r.hooks == DefaultHooks(r.kind)
    && (r.kind != Ipv4Connect ==> 0 < |r.value| < RULE_VALUE_LEN && CString(r.value))
    && (r.resourceId != 0 ==> r.kind == PathPrefix)
  }

  /** A rule list as `load_rule_file` builds it. */
  ghost predicate Accepted(rs: seq<Rule>) {
    && |rs| <= MAX_RULES
    && forall i | 0 <= i < |rs| :: AcceptedRule(rs[i], i)
  }

  /** The active generation of `m` is exactly the compiled rule list. */
  ghost predicate Serves(m: Maps, rs: seq<Rule>) {
    var gen := m.config.generation;
    && m.config.ruleCount == |rs|
    && Slice(m.path, gen) == Compiled(rs, gen, PathItem)
    && Slice(m.command, gen) == Compiled(rs, gen, CommandItem)
    && Slice(m.network, gen) == Compiled(rs, gen, NetworkItem)
    && Slice(m.resource, gen) == Compiled(rs, gen, ResourceItem)
  }

  lemma SliceOfCompiled<T>(rs: seq<Rule>, gen: U32, item: Rule -> Option<T>)
    ensures Slice(Compiled(rs, gen, item), gen) == Compiled(rs, gen, item)
  {
  }

  // ---------------------------------------------------------------- meaning theorems

  /** Cutting a name at 192 bytes or filling it with zeros never changes which values are its prefixes. */
  lemma PaddedPrefix(value: Bytes, name: Bytes)
    requires CString(value) && CString(name) && |value| < RULE_VALUE_LEN
    ensures value <= Padded(name) <==> value <= name
  {
    var key := Padded(name);
    assert |name| < RULE_VALUE_LEN ==> key[|name|] == 0;
    if value <= key {
      assert forall i | 0 <= i < |value| :: key[i] == value[i] != 0;
      assert value == key[..|value|] == name[..|value|];
    }
    if value <= name {
      assert value == name[..|value|] == key[..|value|];
    }
  }

  lemma NameMeaning(c: Config, trie: Index<Bytes, Entry>, rs: seq<Rule>, kind: RuleKind,
                    item: Rule -> Option<Bytes>, hook: Hook, name: Bytes)
    requires Accepted(rs) && c.ruleCount == |rs| && CString(name)
    requires kind != Ipv4Connect && hook in DefaultHooks(kind)
    requires forall r :: item(r) == if r.kind == kind then Some(r.value) else None
    requires Slice(trie, c.generation) == Compiled(rs, c.generation, item)
    ensures NameDecide(c, trie, hook, name) == Verdict(c, rs, Winner(rs, NameMatch(kind, name)))
  {
    var gen, lengths := c.generation, NameMatch(kind, name);
    var w := Winner(rs, lengths);
    if rs == [] || name == [] {
      assert w.None?;
    } else {
      var key := Padded(name);
      assert Measures(rs, item, key, lengths, 0) by {
        forall i | 0 <= i < |rs| && rs[i].kind == kind
          ensures rs[i].value <= key <==> rs[i].value <= name
        {
          assert AcceptedRule(rs[i], i);
          PaddedPrefix(rs[i].value, name);
        }
      }
      LookupFindsWinner(rs, gen, item, key, lengths, 0);
      SliceOfCompiled(rs, gen, item);
      LookupReadsOwnGeneration(trie, Compiled(rs, gen, item), gen, key);
      if w.Some? { assert AcceptedRule(rs[w.value], w.value); }
    }
  }

  /** File opens: the longest path value that is a byte prefix of the path, else the default. */
  lemma PathMeaning(m: Maps, rs: seq<Rule>, hook: Hook, path: Bytes)
    requires Serves(m, rs) && Accepted(rs) && CString(path) && hook in DefaultHooks(PathPrefix)
    ensures PathDecide(m, hook, path) == Verdict(m.config, rs, Winner(rs, NameMatch(PathPrefix, path)))
  {
    NameMeaning(m.config, m.path, rs, PathPrefix, PathItem, hook, path);
  }

  /** Execs: the longest command value that is a byte prefix of the file name, else the default. */
  lemma CommandMeaning(m: Maps, rs: seq<Rule>, name: Bytes)
    requires Serves(m, rs) && Accepted(rs) && CString(name)
    ensures CommandDecide(m, Exec, name) == Verdict(m.config, rs, Winner(rs, NameMatch(CommandPrefix, name)))
  {
    NameMeaning(m.config, m.command, rs, CommandPrefix, CommandItem, Exec, name);
  }

  lemma NetworkLookupMeaning(rs: seq<Rule>, gen: U32, port: U32, addr: U32)
    ensures var w := Winner(rs, NetMatch(port, addr));
            Lookup(Compiled(rs, gen, NetworkItem), gen, NetItem(port, addr, 32))
            == if w.Some? then Some(EntryOf(rs[w.value])) else None
  {
    var full, lengths := NetItem(port, addr, 32), NetMatch(port, addr);
    assert Measures(rs, NetworkItem, full, lengths, 32) by {
      forall i | 0 <= i < |rs| && rs[i].kind == Ipv4Connect
        ensures NetworkItem(rs[i]).value <= full <==>
                rs[i].port == port && InBlock(addr, rs[i].addr, MaskBits(rs[i].mask))
      {
        NetItemMatch(rs[i].port, rs[i].addr, MaskBits(rs[i].mask), port, addr);
      }
    }
    LookupFindsWinner(rs, gen, NetworkItem, full, lengths, 32);
  }

  /**
   Connects: the longest block holding the address among rules with exactly this port,
   else the longest among port-0 rules, else the default.
   */
  lemma NetworkMeaning(m: Maps, rs: seq<Rule>, addr: U32, port: U16)
    requires Serves(m, rs) && Accepted(rs)
    ensures var exact, any := Winner(rs, NetMatch(port, addr)), Winner(rs, NetMatch(0, addr));
            NetworkDecide(m, addr, port) == Verdict(m.config, rs, if exact.Some? then exact else any)
  {
    var gen := m.config.generation;
    var index := Compiled(rs, gen, NetworkItem);
    SliceOfCompiled(rs, gen, NetworkItem);
    forall p: U32
      ensures Lookup(m.network, gen, NetItem(p, addr, 32)) == Lookup(index, gen, NetItem(p, addr, 32))
    {
      LookupReadsOwnGeneration(m.network, index, gen, NetItem(p, addr, 32));
    }
    NetworkLookupMeaning(rs, gen, port, addr);
    NetworkLookupMeaning(rs, gen, 0, addr);
    forall p: U32 | Winner(rs, NetMatch(p, addr)).Some?
      ensures var i := Winner(rs, NetMatch(p, addr)).value; AcceptedRule(rs[i], i) && rs[i].kind == Ipv4Connect
    {
    }
  }

  /** Reads and writes: the last path rule whose path named this inode at load time, else the default. */
  lemma ResourceMeaning(m: Maps, rs: seq<Rule>, hook: Hook, id: U64)
    requires Serves(m, rs) && Accepted(rs) && hook in DefaultHooks(PathPrefix)
    ensures ResourceDecide(m, hook, id) == Verdict(m.config, rs, Winner(rs, InodeMatch(id)))
  {
    var gen := m.config.generation;
    var index := Compiled(rs, gen, ResourceItem);
    SliceOfCompiled(rs, gen, ResourceItem);
    GetReadsOwnGeneration(m.resource, index, gen, (PathPrefix, id));
    CompiledHoldsLast(rs, gen, ResourceItem, (PathPrefix, id));
    var last, w := LastWith(rs, ResourceItem, (PathPrefix, id)), Winner(rs, InodeMatch(id));
    forall i | 0 <= i < |rs|
      ensures ResourceItem(rs[i]) == Some((PathPrefix, id)) <==> InodeMatch(id)(rs[i]).Some?
    {
      assert AcceptedRule(rs[i], i);
    }
    assert last == w;
    if w.Some? { assert AcceptedRule(rs[w.value], w.value); }
  }
}
