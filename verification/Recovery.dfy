/** Runs of loads in which epoch writes may fail: what they leave adds up, until a success removes it or the snapshot
    has no room for it. */
module Recovery {
  import opened Common
  import opened Lpm
  import opened NetBits
  import opened Policy
  import opened Compile
  import opened Rules
  import opened Protocol
  import opened Kernel
  import opened Loader
  import opened Reload

  ghost predicate OnlyGenerations<T, V>(m: Index<T, V>, gen: U32, next: U32) {
    forall k :: k in m ==> k.gen == gen || k.gen == next
  }

  /** Only entries of the live generation and, left over from failed epoch writes, of the next one. */
  ghost predicate Tidy(m: Maps) {
    var gen, next := m.config.generation, NextGeneration(m.config.generation);
    && OnlyGenerations(m.path, gen, next) && OnlyGenerations(m.command, gen, next)
    && OnlyGenerations(m.network, gen, next) && OnlyGenerations(m.resource, gen, next)
  }

  lemma SucceededIndex<T>(m: Index<T, Entry>, rs: seq<Rule>, item: Rule -> Option<T>, prev: U32, gen: U32)
    requires prev != gen && OnlyGenerations(m, prev, gen)
    ensures Without(Without(m, gen) + Compiled(rs, gen, item), prev) == Compiled(rs, gen, item)
  {
  }

  lemma FailedIndex<T>(m: Index<T, Entry>, rs: seq<Rule>, item: Rule -> Option<T>, prev: U32, gen: U32)
    requires OnlyGenerations(m, prev, gen)
    ensures OnlyGenerations(Without(Without(m, gen) + Compiled(rs, gen, item), prev) + m, prev, gen)
  {
  }

  /** A success leaves only live entries, and few enough, whatever failed epoch writes had left. */
  lemma SuccessTidies(m: Maps, p: Parsed, c: Config)
    requires ParsedOk(p) && Tidy(m) && c == p.config.(generation := NextGeneration(m.config.generation))
    ensures Hygienic(Finished(m, p, c)) && Serves(Finished(m, p, c), p.rules)
  {
    var prev := m.config.generation;
    InstalledServes(m, p, c);
    SucceededIndex(m.path, p.rules, PathItem, prev, c.generation);
    SucceededIndex(m.command, p.rules, CommandItem, prev, c.generation);
    SucceededIndex(m.network, p.rules, NetworkItem, prev, c.generation);
    SucceededIndex(m.resource, p.rules, ResourceItem, prev, c.generation);
    ScopeMapSize(p.lists.comms, c, ByComm);
    ScopeMapSize(p.lists.pids, c, ByPid);
    ScopeMapSize(p.lists.tgids, c, ByTgid);
  }

  lemma FailureStaysTidy(m: Maps, p: Parsed, c: Config)
    requires ParsedOk(p) && Tidy(m) && c == p.config.(generation := NextGeneration(m.config.generation))
    ensures Tidy(LeftOver(m, p, c))
  {
    var prev := m.config.generation;
    FailedIndex(m.command, p.rules, CommandItem, prev, c.generation);
    FailedIndex(m.network, p.rules, NetworkItem, prev, c.generation);
    FailedIndex(m.resource, p.rules, ResourceItem, prev, c.generation);
  }

  lemma HygienicIsTidy(m: Maps)
    requires Hygienic(m)
    ensures Tidy(m)
  {
  }

  /** A load that completes its rollback, if it has one. */
  predicate Completed(o: LoadOutcome) {
    match o
    case RolledBack(_, _, rollback) => rollback.Done?
    case EpochWriteFailed(rollback) => rollback.Done?
    case _ => true
  }

  /** What a completed load does to a tidy system: a success counts and leaves only live entries, anything else leaves
      epoch and generation alone. */
  ghost predicate TidyFacts(m: Maps, n: Maps, o: LoadOutcome) {
    && Tidy(n)
    && if o.Loaded? then
         Hygienic(n) && n.epoch == NextEpoch(m.epoch) && n.config.generation == NextGeneration(m.config.generation)
       else n.epoch == m.epoch && n.config.generation == m.config.generation
  }

  lemma LoadedIsTidy(l: Load)
    requires LoadSpec(l) && Tidy(l.m) && l.outcome.Loaded?
    ensures TidyFacts(l.m, l.n, l.outcome)
  {
    SuccessTidies(l.m, l.p, l.c);
    HygienicIsTidy(l.n);
  }

  lemma FailedIsTidy(l: Load)
    requires LoadSpec(l) && Tidy(l.m) && l.outcome.EpochWriteFailed? && l.outcome.rollback.Done?
    ensures TidyFacts(l.m, l.n, l.outcome)
  {
    FailureStaysTidy(l.m, l.p, l.c);
  }

  /** Failed epoch writes leave entries of one generation besides the live one, and a success removes them. */
  lemma LoadKeepsTidy(l: Load)
    requires LoadSpec(l) && Tidy(l.m) && Completed(l.outcome)
    ensures TidyFacts(l.m, l.n, l.outcome)
  {
    if l.outcome.Loaded? {
      LoadedIsTidy(l);
    } else if l.outcome.EpochWriteFailed? {
      FailedIsTidy(l);
    } else {
      assert l.n == l.m;
    }
  }

  lemma StepKeepsTidy(m: Maps, n: Maps, o: LoadOutcome)
    requires LoadStep(m, n, o) && Completed(o) && Tidy(m)
    ensures TidyFacts(m, n, o)
  {
    if !(o.Rejected? && n == m) {
      var l :| LoadSpec(l) && l.m == m && l.n == n && l.outcome == o;
      LoadKeepsTidy(l);
    }
  }

  /** Tidy, with epoch and generation counting `loads`. */
  ghost predicate TidyCounted(m: Maps, loads: nat) {
    Tidy(m) && m.epoch == EpochAfter(loads) && m.config.generation == GenerationAfter(loads)
  }

  lemma FreshIsTidy()
    ensures TidyCounted(FRESH_MAPS, 0)
  {
  }

  /** Loads one after another from the freshly created maps; rollbacks complete, epoch writes may fail. */
  ghost predicate CompletedRun(maps: seq<Maps>, outcomes: seq<LoadOutcome>) {
    && |maps| == |outcomes| + 1 && maps[0] == FRESH_MAPS
    && forall i | 0 <= i < |outcomes| :: StepAt(maps, outcomes, i)
  }

  ghost predicate StepAt(maps: seq<Maps>, outcomes: seq<LoadOutcome>, i: nat)
    requires |maps| == |outcomes| + 1 && i < |outcomes|
  {
    Completed(outcomes[i]) && LoadStep(maps[i], maps[i + 1], outcomes[i])
  }

  lemma StepOfRun(maps: seq<Maps>, outcomes: seq<LoadOutcome>, k: nat, loads: nat)
    requires CompletedRun(maps, outcomes) && k < |outcomes| && TidyCounted(maps[k], loads)
    ensures TidyFacts(maps[k], maps[k + 1], outcomes[k]) && TidyCounted(maps[k + 1], loads + Tally(outcomes[k]))
  {
    assert StepAt(maps, outcomes, k);
    StepKeepsTidy(maps[k], maps[k + 1], outcomes[k]);
  }

  /** Over every such run the indexes never hold more than two generations, and epoch and generation count the
      successes. */
  lemma {:induction false} RunsStayTidy(maps: seq<Maps>, outcomes: seq<LoadOutcome>, k: nat)
    requires CompletedRun(maps, outcomes) && k <= |outcomes|
    ensures TidyCounted(maps[k], Successes(outcomes[..k]))
  {
    if k == 0 {
      FreshIsTidy();
    } else {
      RunsStayTidy(maps, outcomes, k - 1);
      StepOfRun(maps, outcomes, k - 1, Successes(outcomes[..k - 1]));
      SuccessesStep(outcomes, k - 1);
    }
  }

  /** And each success leaves only live entries, so that what failed epoch writes left is gone. */
  lemma SuccessRecovers(maps: seq<Maps>, outcomes: seq<LoadOutcome>, k: nat)
    requires CompletedRun(maps, outcomes) && k < |outcomes| && outcomes[k].Loaded?
    ensures Hygienic(maps[k + 1])
  {
    RunsStayTidy(maps, outcomes, k);
    StepOfRun(maps, outcomes, k, Successes(outcomes[..k]));
  }

  // ---------------------------------------------------------------- failures since the last success

  function EndOf(m: Maps, ls: seq<Load>): Maps {
    if ls == [] then m else ls[|ls| - 1].n
  }

  /** A load of `m` that does not succeed, and whose rollback is not refused anything. */
  ghost predicate Failure(m: Maps, l: Load) {
    LoadSpec(l) && l.m == m && Completed(l.outcome) && !l.outcome.Loaded?
  }

  /** Such loads one after another. */
  ghost predicate Failures(m: Maps, ls: seq<Load>) {
    ls == [] || (Failures(m, ls[..|ls| - 1]) && Failure(EndOf(m, ls[..|ls| - 1]), ls[|ls| - 1]))
  }

  ghost function Items<T(!new)>(rs: seq<Rule>, item: Rule -> Option<T>): set<T> {
    set i | 0 <= i < |rs| && item(rs[i]).Some? :: item(rs[i]).value
  }

  /** What a rule list, or several, stand for in the three indexes that a failed epoch write does not clear. */
  datatype Contents = Contents(commands: set<Bytes>, blocks: set<Bits>, inodes: set<(RuleKind, U64)>)

  ghost function ContentsOf(rs: seq<Rule>): Contents {
    Contents(Items(rs, CommandItem), Items(rs, NetworkItem), Items(rs, ResourceItem))
  }

  function Together(a: Contents, b: Contents): Contents {
    Contents(a.commands + b.commands, a.blocks + b.blocks, a.inodes + b.inodes)
  }

  ghost function RejectedBy(l: Load): Contents {
    if l.outcome.EpochWriteFailed? then ContentsOf(l.p.rules) else Contents({}, {}, {})
  }

  /** All that the policies stand for whose epoch write failed. */
  ghost function Rejected(ls: seq<Load>): Contents {
    if ls == [] then Contents({}, {}, {}) else Together(Rejected(ls[..|ls| - 1]), RejectedBy(ls[|ls| - 1]))
  }

  /** Items as keys of one generation. */
  ghost function Tagged<T(!new)>(gen: U32, items: set<T>): set<Key<T>> {
    set x | x in items :: Key(gen, x)
  }

  lemma CompiledItems<T(!new)>(rs: seq<Rule>, gen: U32, item: Rule -> Option<T>)
    ensures Compiled(rs, gen, item).Keys == Tagged(gen, Items(rs, item))
  {
    forall k | k in Compiled(rs, gen, item)
      ensures k in Tagged(gen, Items(rs, item))
    {
      assert k == Key(gen, k.item);
      var i := IndexedByRule(rs, gen, item, k.item);
    }
    forall i | 0 <= i < |rs| && item(rs[i]).Some?
      ensures Key(gen, item(rs[i]).value) in Compiled(rs, gen, item)
    {
      IndexesRule(rs, gen, item, i);
    }
  }

  lemma {:induction false} TaggedSize<T(!new)>(gen: U32, items: set<T>)
    ensures |Tagged(gen, items)| == |items|
    decreases items
  {
    if items != {} {
      var x :| x in items;
      TaggedSize(gen, items - {x});
      assert Tagged(gen, items) == Tagged(gen, items - {x}) + {Key(gen, x)};
    }
  }

  lemma TaggedUnion<T(!new)>(gen: U32, a: set<T>, b: set<T>)
    ensures Tagged(gen, a + b) == Tagged(gen, a) + Tagged(gen, b)
  {
  }

  /** The three indexes hold what they held in `m`, and these contents besides, under the next generation. */
  ghost predicate Added(m: Maps, n: Maps, more: Contents) {
    var next := NextGeneration(m.config.generation);
    && n == m.(command := n.command, network := n.network, resource := n.resource)
    && n.command.Keys == m.command.Keys + Tagged(next, more.commands)
    && n.network.Keys == m.network.Keys + Tagged(next, more.blocks)
    && n.resource.Keys == m.resource.Keys + Tagged(next, more.inodes)
  }

  lemma LeftOverAdds(m: Maps, p: Parsed, c: Config)
    requires ParsedOk(p) && c.generation == NextGeneration(m.config.generation)
    ensures Added(m, LeftOver(m, p, c), ContentsOf(p.rules))
  {
    LeftOverKeys(m, p, c);
    CompiledItems(p.rules, c.generation, CommandItem);
    CompiledItems(p.rules, c.generation, NetworkItem);
    CompiledItems(p.rules, c.generation, ResourceItem);
  }

  lemma NothingAdds(m: Maps)
    ensures Added(m, m, Contents({}, {}, {}))
  {
  }

  /** What a failure leaves. */
  lemma FailureLeaves(m: Maps, l: Load)
    requires Failure(m, l)
    ensures ParsedOk(l.p) && l.c.generation == NextGeneration(m.config.generation)
    ensures l.n == if l.outcome.EpochWriteFailed? then LeftOver(m, l.p, l.c) else m
  {
  }

  lemma FailureAdds(m: Maps, l: Load)
    requires Failure(m, l)
    ensures Added(m, l.n, RejectedBy(l))
  {
    FailureLeaves(m, l);
    if l.outcome.EpochWriteFailed? {
      LeftOverAdds(m, l.p, l.c);
      assert Added(m, l.n, ContentsOf(l.p.rules)) by { assert l.n == LeftOver(m, l.p, l.c); }
    } else {
      NothingAdds(m);
      assert Added(m, l.n, Contents({}, {}, {})) by { assert l.n == m; }
    }
  }

  lemma AddedTwice(m: Maps, n: Maps, o: Maps, a: Contents, b: Contents)
    requires Added(m, n, a) && Added(n, o, b)
    ensures Added(m, o, Together(a, b))
  {
    var next := NextGeneration(m.config.generation);
    TaggedUnion(next, a.commands, b.commands);
    TaggedUnion(next, a.blocks, b.blocks);
    TaggedUnion(next, a.inodes, b.inodes);
  }

  /**
   Failures add up: after any loads without a success, and from any maps, the three indexes hold what they
   held, and what the policies stand for whose epoch write failed.
   */
  lemma {:induction false} FailuresAddUp(m: Maps, ls: seq<Load>)
    requires Failures(m, ls)
    ensures Added(m, EndOf(m, ls), Rejected(ls))
  {
    if ls != [] {
      var before, l := ls[..|ls| - 1], ls[|ls| - 1];
      FailuresAddUp(m, before);
      FailureAdds(EndOf(m, before), l);
      AddedTwice(m, EndOf(m, before), l.n, Rejected(before), RejectedBy(l));
    }
  }

  /** The snapshot has no room for what an index held and what was rejected since. */
  ghost predicate Overflows(m: Maps, more: Contents) {
    var next := NextGeneration(m.config.generation);
    || |m.command.Keys + Tagged(next, more.commands)| > MAX_RULES
    || |m.network.Keys + Tagged(next, more.blocks)| > MAX_RULES
    || |m.resource.Keys + Tagged(next, more.inodes)| > MAX_RULES
  }

  /** From any maps that fit the snapshot, and after any failures, the maps fit it exactly when it has. */
  lemma FailuresFitIff(m: Maps, ls: seq<Load>)
    requires FitsSnapshot(m) && Failures(m, ls)
    ensures FitsSnapshot(EndOf(m, ls)) <==> !Overflows(m, Rejected(ls))
  {
    FailuresAddUp(m, ls);
  }

  lemma LiveAndRejected<T(!new)>(rs: seq<Rule>, item: Rule -> Option<T>, prev: U32, next: U32, rejected: set<T>)
    requires prev != next
    ensures |Compiled(rs, prev, item).Keys + Tagged(next, rejected)| == |Items(rs, item)| + |rejected|
  {
    CompiledItems(rs, prev, item);
    TaggedSize(prev, Items(rs, item));
    TaggedSize(next, rejected);
    DisjointSize(Tagged(prev, Items(rs, item)), Tagged(next, rejected));
  }

  /** Too many for a snapshot array, each item counted once on either side. */
  ghost predicate TooMany(live: Contents, rejected: Contents) {
    || |live.commands| + |rejected.commands| > MAX_RULES
    || |live.blocks| + |rejected.blocks| > MAX_RULES
    || |live.inodes| + |rejected.inodes| > MAX_RULES
  }

  lemma FitsSinceSuccessIff(first: Load, ls: seq<Load>)
    requires LoadSpec(first) && first.outcome.Loaded? && Tidy(first.m) && Failures(first.n, ls)
    ensures FitsSnapshot(EndOf(first.n, ls)) <==> !TooMany(ContentsOf(first.p.rules), Rejected(ls))
  {
    SuccessCompiles(first);
    FailuresFitIff(first.n, ls);
    var gen, next, rejected := first.c.generation, NextGeneration(first.c.generation), Rejected(ls);
    LiveAndRejected(first.p.rules, CommandItem, gen, next, rejected.commands);
    LiveAndRejected(first.p.rules, NetworkItem, gen, next, rejected.blocks);
    LiveAndRejected(first.p.rules, ResourceItem, gen, next, rejected.inodes);
  }

  /**
   In terms of the policies alone: after a success, and any failures since, the next load is refused at the
   snapshot exactly when the distinct commands, blocks or inodes of the policy loaded, and those of all
   policies whose epoch write has failed since, are more than 32 in sum.
   */
  lemma NextLoadIsBlockedIff(first: Load, ls: seq<Load>, l: Load)
    requires LoadSpec(first) && first.outcome.Loaded? && Tidy(first.m)
    requires Failures(first.n, ls) && LoadSpec(l) && l.m == EndOf(first.n, ls)
    ensures l.outcome.SnapshotOverflow? <==> TooMany(ContentsOf(first.p.rules), Rejected(ls))
  {
    FitsSinceSuccessIff(first, ls);
  }

  lemma SuccessCompiles(l: Load)
    requires LoadSpec(l) && l.outcome.Loaded? && Tidy(l.m)
    ensures FitsSnapshot(l.n) && l.n.config.generation == l.c.generation
    ensures l.n.command == Compiled(l.p.rules, l.c.generation, CommandItem)
    ensures l.n.network == Compiled(l.p.rules, l.c.generation, NetworkItem)
    ensures l.n.resource == Compiled(l.p.rules, l.c.generation, ResourceItem)
  {
    var prev, gen := l.m.config.generation, l.c.generation;
    SuccessTidies(l.m, l.p, l.c);
    SucceededIndex(l.m.command, l.p.rules, CommandItem, prev, gen);
    SucceededIndex(l.m.network, l.p.rules, NetworkItem, prev, gen);
    SucceededIndex(l.m.resource, l.p.rules, ResourceItem, prev, gen);
  }

  /** And from then on every load is refused, whatever it is. */
  lemma TooManyBlockEveryLoad(first: Load, ls: seq<Load>, maps: seq<Maps>, outcomes: seq<LoadOutcome>, k: nat)
    requires LoadSpec(first) && first.outcome.Loaded? && Tidy(first.m)
    requires Failures(first.n, ls) && TooMany(ContentsOf(first.p.rules), Rejected(ls))
    requires Loads(maps, outcomes) && maps[0] == EndOf(first.n, ls) && k <= |outcomes|
    ensures maps[k] == maps[0]
    ensures k < |outcomes| ==> outcomes[k].Rejected? || outcomes[k].SnapshotOverflow?
  {
    FitsSinceSuccessIff(first, ls);
    OverfullBlocksEveryLoad(maps, outcomes, k);
  }
}
