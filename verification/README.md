# Proofs about the guard

mcp-guard decides exec, file and connect requests inside the kernel. Each of its four LSM hooks asks a
per-CPU cache (L1), then a cheap classifier (L2), then the policy indexes (L3); a user-space loader
installs policies into the same maps while the hooks run. This project models those two parties and the
maps between them, and proves what the design is for:

* **the cache never shows** — along every run of hooks, evictions and reload steps, an entry that the
  current epoch vouches for holds the action L2 and L3 would compute now (`Protocol`);
* **the fast pipeline is the simple one** — in its fast configuration it gives the action and the return
  code of the cacheless baseline handlers, on every comparable call (`Baseline`);
* **a reload switches decisions at once** — before the config write nothing the loader does changes any
  decision, from it on every decision follows from the new rule list; at every point of a load, with any
  traffic, each action that is decided, cached or not, is wholly the old policy's or wholly the new one's
  (`Kernel`, `Loader`, `Reload`, `Traffic`). This is about actions, not about which processes get one, nor
  about whether a denial is enforced: both change on the way (`Scoping`, `Enforcement`, and below);
* **a failed load leaves nothing behind** — whichever map write fails, at whichever element, a completed
  rollback gives back the maps exactly (`Loader.RollbackIsExact`), with one exception, a failed epoch write,
  for which `Reload.LeftOverIsExactIff` says exactly when it does, and `Recovery.FailuresAddUp` what several
  leave together (below);
* **the indexes mean the rule list** — byte for byte and bit for bit (`NetBits`, `Lpm`, `Compile`);
* **the hooks say what the files say** — from the entries as they stand in a policy directory to the action
  and the return code of every call, cached or not, after any sequence of loads (`Calls`, `Directory`,
  `Verdicts`);
* and, put together, **after any sequence of loads under traffic**, successful, rejected, rolled back or
  failed at the epoch write, the last rule list loaded is served, and every action, wherever it came from,
  follows from it, or else from a policy whose epoch write has failed since (`EndToEnd`, `Traffic`,
  `Provenance`).

Around that core stand the per-CPU metrics and the percentile estimated from them, the loader's JSON array
scanners, and the GUI's event window and line framer.

## How the files fit together

| file | what it holds |
|---|---|
| `Common` | machine integers, C strings, the shared constants |
| `NetBits` | keys as the kernel sees them: bytes, bits, byte swap, CIDR masks |
| `Lpm` | longest-prefix tries and the generation-keyed hash as finite maps |
| `BitTrie` | the kernel's bit-keyed trie, and that it answers as `Lpm` does |
| `Policy` | the maps, and the L2 and L3 deciders over them |
| `Compile` | rule list to indexes, and what a lookup then means |
| `Hooks` | one hook invocation as a function: scope, L1, L2, L3, stores |
| `Stores` | which cache slots a hook call stores to, and what |
| `Calls` | what one hook call does, written out: scope, layers, actions of L1 and L2, return code |
| `Guard` | the twelve LSM programs as methods, each equal to its part of `Hooks` |
| `Protocol` | hooks, evictions and reload steps as a state machine; coherence; the epoch counter |
| `Sockets` | coherence of connects in every run, without assumptions about ids |
| `Aborts` | a failed epoch write: when the cache stays coherent, and how it recovers |
| `Baseline` | the cacheless handlers, the refinement, and exactly where the two agree |
| `BpfMap` | one kernel map and the loader's loops over it |
| `Rules` | policy entries to rule list and scope lists |
| `Kernel` | all maps together: snapshot, staging, clean-up, rollback |
| `Loader` | `mcp_policy_load_dir` |
| `Reload` | what loads keep, install and leave; reloads under traffic; scoping |
| `Scoping` | which processes are in scope while a load is under way |
| `Recovery` | runs of loads in which epoch writes may fail |
| `EndToEnd` | from the rule files to the verdicts |
| `Traffic` | actions in the middle of a load; any sequence of loads under traffic |
| `Enforcement` | return codes between config write and epoch write |
| `Directory` | what the loader makes of the files of a policy directory, entry by entry |
| `Verdicts` | what a directory says about a call, and that the hooks say so |
| `Provenance` | whose answer an action is in any life, after failed epoch writes too |
| `Metrics`, `ZeroDurations`, `Percentile` | recording, aggregating, estimating |
| `Scanners` | JSON arrays of numbers and strings |
| `EventWindow`, `Framer` | the GUI's event store and table, and its socket framing |

The loader and the hooks are methods over classes that hold the maps. The hooks' effect is also a function
(`Hooks.HookStep`), so that runs can be talked about; the methods in `Guard` are proved equal to it. The
loader's loops record every content an index ever has, so that "whatever a hook sees in the middle of a
load" is a statement about the actual writes and not about a few chosen states: `Kernel.SeenIn` lets a hook
find each index at any of its moments, independently. The same holds for the three scope maps
(`Kernel.Traced`, `Kernel.Between`).

## Hypotheses

The theorems assume what the code needs, and nothing else:

* a hook invocation is one atomic step, and so are the config write and each map operation of the loader;
* `Protocol.Env`: the executed file name, the path and the inode type are functions of the resource id,
  because the cache key of exec and file decisions holds only that id. Connects need no such assumption:
  `Sockets` proves their coherence over every run, including runs that conform to no environment
  (`Sockets.SomeRunsConformToNone`);
* fewer than 2^64 successful loads. `Protocol.FullTurnRevivesStaleEntry` shows that one more is too many;
* hooks do not run inside a rollback, which for a moment removes entries of the live generation and the
  scope selectors;
* deleting a map entry that is present succeeds;
* the theorems about what follows a failed load (`Recovery`, `Traffic`, `Provenance`) assume that none of its
  rollback writes is refused, since the code gives no guarantee then. A map is never found full in a
  rollback: only a refusal by the kernel itself can make it incomplete (`Loader.RoomAfterFailure`,
  `Loader.RoomAfterFlip`).

## Where the code does not do what one might expect

* `bump_epoch` can fail after the config write. That branch restores the snapshot but does not delete what
  was staged, unlike the other branches and unlike what the repository's README.md says about reloads that
  fail before the epoch bump (lines 301-303). The maps come back exactly if and only if every key staged in
  the command, network and resource index was there already (`Reload.LeftOverIsExactIff`); from maps with
  only live entries, if and only if the rejected policy has only path rules, none of whose paths named an
  inode (`Reload.LeftOverIsExactIffOnlyPaths`). `Reload.LeftOverIsQuiet` proves that no decision sees the
  leftovers. But the next snapshot takes them in and the next rollback writes them back, so that failures
  add up until a load succeeds (`Recovery.FailuresAddUp`; the same policy failing again adds nothing,
  `Reload.RetryLeavesNothingMore`). The next load is refused at the snapshot exactly when the distinct
  commands, network blocks or inodes of the policy loaded last, and those of all policies whose epoch write
  has failed since, are more than 32 in sum (`Recovery.NextLoadIsBlockedIff`), and then every later load is refused, whatever it is
  (`Recovery.TooManyBlockEveryLoad`). One failure can do it (`Reload.SomeFailureBlocksEveryLoad`), or two of
  which each would fit (`Reload.TwoFailuresBlockEveryLoad`). As long as it has not come to that, a success
  removes what was left (`Recovery.SuccessRecovers`).
* In the same branch the epoch still vouches for what hooks stored between the config write and the
  rollback. `Protocol.UsedAbortBreaksCoherence` is a run that leaves an incoherent cache.
  `Aborts.AbortIsCoherentIffSurvivors` says for every policy and every traffic of hooks and evictions
  exactly when it stays coherent; for policies without follow-up caching, and hook calls only,
  `Protocol.AbortIsCoherentIff` says it without looking at overwritten slots. Before the load one can ask
  whether no traffic at all would do harm: that is so exactly when the old policy allows the new one's
  answer to every call, under each key the call would be stored under
  (`Aborts.AbortIsCoherentForAllTrafficIff`). Until the next success an action follows from the policy
  loaded last or from one whose epoch write has failed since (`Provenance.LifetimeActionsHaveSource`). The
  next successful epoch write makes the cache coherent again in any case
  (`Aborts.NextBumpRestoresCoherence`).
* Between the config write and the epoch write a hit is still the old policy's, but whether a denial blocks is
  already up to the new one. So a call can be blocked that neither policy blocks
  (`Enforcement.SomeReloadBlocksWhatNeitherBlocks`). No call gets a code that neither policy would give exactly
  when the old policy enforces, or the new one does not, or the new one also denies whatever the old one denied
  (`Enforcement.CodesArePureIff`).
* A missing socket address is decided as 0.0.0.0 port 0, an execute-only permission check as a read, and
  an exec without a name is denied, where the baseline lets the first two pass and takes its default for
  the third (`Baseline.ConditionsAreNeeded`). `Baseline.HookAgreesIff` says exactly where the two agree.
* Scope maps are not keyed by generation. The loader empties all three and refills them entry by entry
  while the old config is live, so a load that gets this far in scoped mode lets every guarded process
  through for a moment, undecided, although old and new policy may both guard it
  (`Scoping.EmptiedScopesGuardNothing`, `Scoping.SomeLoadUnguards`). Such a load keeps a process in scope
  throughout if and only if the old mode is system-wide (`Scoping.StaysInScopeIff`). It never puts in scope
  a process that neither the old selectors nor, under the same profile and agent ids, the new ones name
  (`Scoping.InScopeMeansNamed`).
* A metric of zero nanoseconds makes the aggregate's minimum depend on which CPU recorded it, since a
  minimum of zero also stands for "none yet" (`Metrics.ZeroDurationBreaksSharding`). Nothing else in the
  aggregate is affected, and the minimum is right for every spread exactly when a least nonzero duration
  comes after the last zero (`ZeroDurations`).
* The GUI keeps an unfinished line when it loses its connection and prepends it to what the next connection
  sends (`Framer.ReconnectGluesLines`; exactly when what is emitted is the same nonetheless:
  `Framer.ReconnectKeepsMessagesIff`).

## Model

| member | source | states |
|---|---|---|
| Protocol.CacheIsCoherent | bpf/l1_fast_path.bpf.c:32-66 | after any run from attachment that conforms to an environment, with no config write awaiting its epoch bump, a current-epoch entry for an exec, open or connect holds exactly the action L2/L3 would compute now; a read or write entry holds the permission answer or, only if follow-ups are cached, the open answer for the same inode |
| Sockets.SocketCacheIsCoherent | bpf/mcp_guard.bpf.c:115-147 | after any run at all, whatever execs and files do, a current-epoch connect entry holds exactly the action L3 would compute now |
| Sockets.RunKeepsSocketInv | bpf/mcp_guard.bpf.c:513-633 | the coherence invariant of connects holds along every run of fewer than 2^64 loads |
| Sockets.StepKeepsSocketInv | bpf/mcp_guard.bpf.c:513-633 | each single step keeps it |
| Sockets.ConnectActions | bpf/mcp_guard.bpf.c:513-633 | in every run the action of a connect is the answer of the live policy or, between config and epoch write, of the previous one |
| Sockets.SomeRunsConformToNone | bpf/l1_fast_path.bpf.c:19-30 | one inode executed under two names is a run that conforms to no environment |
| Stores.HookStores | bpf/l1_fast_path.bpf.c:49-66 | a hook call stores its decision on its CPU under exactly the keys written out for the call, follow-ups included, with epoch, action and rule id, and changes no other slot |
| Calls.CodeIff | bpf/mcp_guard.bpf.c:12-26 | in every state a call refused before keeps its code; any other returns -13 if and only if its action is to deny and the policy is enforced, and 0 otherwise |
| Calls.DecidedWhereAndHow | bpf/mcp_guard.bpf.c:166-633 | in every state: undecided exactly when refused before or unguarded; decided by L1 exactly when the calling CPU's slot under the call's key holds a valid action of the live epoch, which is the action; else by L2 exactly for an exec without a name (denied), a special file or a directory read unless switched off, and another address family (allowed); else by L3 |
| Calls.GuardedIff | bpf/l3_slow_path.bpf.c:66-96 | in scope means system-wide mode or a selector of the right kind for pid, tgid or comm under the live profile and agent ids |
| Protocol.RunKeepsInv | loader/policy_loader.c:1731-1744 | the coherence invariant holds along every interleaving of hooks, evictions and reload steps of fewer than 2^64 loads |
| Protocol.StepKeepsInv | loader/policy_loader.c:1731-1759 | each single step of hooks, cache or loader keeps the invariant |
| Protocol.HookKeepsInv | bpf/mcp_guard.bpf.c:166-633 | what a hook invocation stores is an answer of the live policy, and nothing is stored under id 0 |
| Protocol.HookAnswers | bpf/mcp_guard.bpf.c:166-633 | every action of a hook, hit or miss, is wholly an answer of the live policy or, between config and epoch write, of the previous one |
| Protocol.RunAnswers | bpf/mcp_guard.bpf.c:166-633 | the same at any point of any run from attachment |
| Protocol.MissAnswers | bpf/mcp_guard.bpf.c:205-287 | after an L1 miss the action is the L2-then-L3 answer, and valid |
| Protocol.SocketIdInverse | bpf/mcp_guard.bpf.c:146 | address and port can be read back from a socket's resource id |
| Protocol.ZeroSlotNeverHits | bpf/l1_fast_path.bpf.c:38-42 | a zero-filled per-CPU slot is never a hit once hooks are attached |
| Protocol.MissStoresOwnKey | bpf/mcp_guard.bpf.c:206-633 | without follow-up caching a miss stores nothing or its own decision under its own key |
| Protocol.HookStoresOwnSlot | bpf/l1_fast_path.bpf.c:49-66 | without follow-up caching a hook writes at most its own slot, and only after missing there |
| Protocol.AbortIsCoherentIff | loader/policy_loader.c:1744-1751 | for a new policy without follow-up caching, and hook calls only since the config write: after a failed epoch write the cache is coherent if and only if the old policy agrees with every answer stored |
| Aborts.AbortIsCoherentIffSurvivors | loader/policy_loader.c:1744-1751 | for every new policy and every traffic of hooks and evictions: it is coherent if and only if the old policy allows every stored decision that is neither overwritten nor evicted, under each key it was stored under |
| Aborts.AbortIsCoherentForAllTrafficIff | loader/policy_loader.c:1744-1751 | it is coherent for every traffic if and only if the old policy allows the new one's answer to every in-scope call, under each key the call would be stored under |
| Aborts.AgreeingStoresKeepCoherence | loader/policy_loader.c:1744-1751 | in particular, it is coherent when the old policy allows whatever was stored |
| Aborts.NextBumpRestoresCoherence | loader/policy_loader.c:1471-1487 | after any run, failed epoch writes included, the next successful epoch write makes the cache coherent |
| Aborts.RunStaysBounded | loader/policy_loader.c:1744-1751 | no run, failed epoch writes included, puts an entry ahead of the epoch |
| Protocol.AbortKeepsVouched | loader/policy_loader.c:1744-1751 | the rollback itself keeps exactly the coherence there was towards the old policy |
| Protocol.UsedAbortBreaksCoherence | loader/policy_loader.c:1744-1751 | a run in which the rejected policy's denial stays in the cache of the restored policy |
| Protocol.EpochClosedForm | loader/policy_loader.c:1471-1487 | after n loads the epoch is (n-1) mod (2^64-1) + 1; consecutive epochs differ |
| Protocol.EpochAliases | loader/policy_loader.c:1471-1487 | two loads share an epoch if and only if whole turns of the counter lie between them |
| Protocol.FullTurnRevivesStaleEntry | loader/policy_loader.c:1471-1487 | the bound on loads is tight: one full turn later a stale entry is a hit again |
| Baseline.PipelineRefinesBaseline | experiments/baselines/naive_ebpf_lsm/naive_guard.bpf.c:320-425 | in the fast configuration, after any run, a comparable call gets from the cached pipeline the action and return code of the baseline handler |
| Baseline.HookIsBaseline | bpf/mcp_guard.bpf.c:166-633 | the same for one call in one coherent state |
| Baseline.AnswerIsBaseline | experiments/baselines/naive_ebpf_lsm/naive_guard.bpf.c:194-318 | L2 and L3 alone agree with the baseline deciders |
| Baseline.ServedIsLoaderWritten | loader/policy_loader.c:1204-1227 | a served rule list has no entries when empty and none for inode 0 |
| Baseline.HookAgreesIff | experiments/baselines/naive_ebpf_lsm/naive_guard.bpf.c:320-425 | in every coherent fast state pipeline and baseline agree on action and code if and only if the call is refused already, or comparable, or an exec without name under a denying default, or a connect without address where 0.0.0.0 port 0 is allowed |
| Baseline.PipelineAgreesIff | experiments/baselines/naive_ebpf_lsm/naive_guard.bpf.c:320-425 | the same at any point of any run outside a flip |
| Baseline.DecisionAgreesIff | experiments/baselines/naive_ebpf_lsm/naive_guard.bpf.c:194-318 | the same without the cache, and without any environment |
| Baseline.ConditionsAreNeeded | experiments/baselines/naive_ebpf_lsm/naive_guard.bpf.c:370-425 | a call of each kind on which the two differ |
| Guard.Guard.Store | bpf/l1_fast_path.bpf.c:49-66 | one slot changes, unless the id is 0 or the action invalid |
| Guard.Guard.CacheFollowups | bpf/mcp_guard.bpf.c:149-164 | read and write entries are added when, and only when, the policy flag is set |
| Guard.Guard.BprmCheckSecurity | bpf/mcp_guard.bpf.c:166-203 | return code, action, layer and cache of an exec are those of the hook step; -13 exactly for an enforced denial |
| Guard.Guard.BprmCheckSecurityL2 | bpf/mcp_guard.bpf.c:205-237 | its part of the exec miss |
| Guard.Guard.BprmCheckSecurityL3 | bpf/mcp_guard.bpf.c:239-287 | its part of the exec miss, including the allow without rules, which stores under the inode only |
| Guard.Guard.FileOpenHook | bpf/mcp_guard.bpf.c:289-320 | return code, action, layer and cache of an open are those of the hook step; -13 exactly for an enforced denial |
| Guard.Guard.FileOpenL2 | bpf/mcp_guard.bpf.c:322-345 | its part of the open miss, with follow-up entries |
| Guard.Guard.FileOpenL3 | bpf/mcp_guard.bpf.c:347-396 | its part of the open miss, with follow-up entries |
| Guard.Guard.FilePermission | bpf/mcp_guard.bpf.c:398-432 | return code, action, layer and cache of a read or write are those of the hook step; -13 exactly for an enforced denial |
| Guard.Guard.FilePermissionL2 | bpf/mcp_guard.bpf.c:434-460 | its part of the permission miss |
| Guard.Guard.FilePermissionL3 | bpf/mcp_guard.bpf.c:462-511 | its part of the permission miss |
| Guard.Guard.SocketConnectHook | bpf/mcp_guard.bpf.c:513-556 | return code, action, layer and cache of a connect are those of the hook step; -13 exactly for an enforced denial |
| Guard.Guard.SocketConnectL2 | bpf/mcp_guard.bpf.c:558-580 | its part of the connect miss |
| Guard.Guard.SocketConnectL3 | bpf/mcp_guard.bpf.c:582-633 | its part of the connect miss |
| Policy.Padded | bpf/l3_slow_path.bpf.c:196-238 | the lookup key is always 192 bytes |
| Policy.QuietKeepsAnswers | bpf/l3_slow_path.bpf.c:196-408 | decisions depend on nothing but the config and the entries of the active generation, on every input |
| Lpm.LookupFindsLongest | bpf/maps.bpf.h:70-92 | a lookup returns the stored value whose prefix is the longest match |
| Lpm.LookupMiss | bpf/maps.bpf.h:70-92 | a lookup fails when no stored prefix matches |
| Lpm.LookupReadsOwnGeneration | bpf/l3_slow_path.bpf.c:196-238 | a lookup sees only entries of its own generation |
| NetBits.BytesKeyMatch | loader/policy_loader.c:1073-1081 | the kernel's bit comparison of path and command keys is: same generation, and the stored bytes are a prefix |
| NetBits.BitsKeyMatch | loader/policy_loader.c:1083-1094 | the same for network keys, whose prefix may end inside a byte |
| NetBits.BytePrefixIsBitPrefix | loader/policy_loader.c:1073-1081 | matching the first 8n bits is matching the first n bytes |
| BitTrie.NameTrieAnswers | bpf/l3_slow_path.bpf.c:196-281 | on path and command keys the kernel's trie, longest matching bit prefix, answers as the model's lookup |
| BitTrie.NetworkTrieAnswers | bpf/l3_slow_path.bpf.c:372-408 | the same on network keys |
| BitTrie.TrieAnswersLookup | bpf/maps.bpf.h:70-92 | the same for any layout whose bit prefixes are item prefixes |
| BitTrie.UpdateKeepsEncoding | loader/policy_loader.c:1113-1202 | an update of the kernel's trie is an update of the index: an equal prefix of an equal generation overwrites, every other stays |
| BitTrie.DeletionKeepsEncoding | loader/policy_loader.c:993-1052 | a deletion from the kernel's trie is a deletion from the index |
| NetBits.MaskRoundTrip | loader/policy_loader.c:387-418 | building the mask, swapping it and counting its leading ones gives back the prefix length |
| NetBits.NtohlInvolution | loader/policy_loader.c:387-418 | the byte swap undoes itself |
| NetBits.MemoryBitsAreNetworkOrder | bpf/l3_slow_path.bpf.c:372-408 | the trie compares addresses most significant bit first |
| NetBits.InBlockIff | loader/policy_loader.c:387-418 | a block holds the addresses that agree with its own in network order when divided by 2^(32-n) |
| NetBits.NtohlIsHostOrder | loader/policy_loader.c:387-418 | the byte swap, byte by byte |
| NetBits.NetItemMatch | loader/policy_loader.c:1177-1202 | a stored network prefix matches if and only if the port is equal and the address lies in the block (section 3.1 of RFC 4632) |
| NetBits.Ipv4PrefixBits | loader/policy_loader.c:1083-1094 | 64 plus the number of leading ones of the mask |
| Compile.Winner | loader/policy_loader.c:1113-1202 | the most specific matching rule, the last among equally specific ones; none only if none matches |
| Compile.CompiledHoldsLast | loader/policy_loader.c:1113-1147 | the index holds for each key the last rule with that key, and no other key |
| Compile.LookupFindsWinner | loader/policy_loader.c:1113-1202 | longest-prefix lookup in the compiled index finds the winning rule |
| Compile.PaddedPrefix | bpf/l3_slow_path.bpf.c:196-281 | cutting a name at 192 bytes or filling it with zeros never changes which rule values are its prefixes |
| Compile.PathMeaning | bpf/l3_slow_path.bpf.c:196-238 | a path decision is the action of the longest path value that is a byte prefix of the path, else the default |
| Compile.CommandMeaning | bpf/l3_slow_path.bpf.c:240-281 | the same for commands and file names |
| Compile.NetworkMeaning | bpf/l3_slow_path.bpf.c:372-408 | a connect decision is the longest block holding the address among rules with that port, else among port-0 rules, else the default (longest match as in section 5.1 of RFC 4632) |
| Compile.ResourceMeaning | bpf/l3_slow_path.bpf.c:338-370 | a read or write decision is that of the last path rule whose path named the inode at load time, else the default |
| Rules.NormalizePath | loader/policy_loader.c:430-451 | absolute paths that fit lose exactly their trailing slashes; the rest is refused with the code's error |
| Rules.Normalized | loader/policy_loader.c:445-449 | only slashes are dropped, and none is left to drop |
| Rules.ParseIpv4Cidr | loader/policy_loader.c:387-418 | accepts exactly prefix lengths 0 to 32 with a valid quad, with a mask from which the length can be read back |
| Rules.BuildRule | loader/policy_loader.c:468-554 | one entry becomes an error, nothing or an acceptable rule, by the function whose meaning Directory.EntryIsRead states |
| Rules.LoadRuleFile | loader/policy_loader.c:453-554 | entries in order, bad blocks skipped, the first error wins, unknown flags among them, never more than 32 rules, by the function whose meaning Directory.FileIsRead states; every rule satisfies what the indexes rely on |
| Directory.EntryIsRead | loader/policy_loader.c:468-554 | one entry gives the exact error, nothing for a bad block, or a rule with its action, its value less trailing slashes, its inode, its address, prefix length and port, 0 if it has none, and the hooks of its kind |
| Directory.FileIsRead | loader/policy_loader.c:453-554 | the rules of a file are its entries less those with a bad block, one for one and in order, numbered on; or the error is that of the first entry that is wrong or finds no room |
| Directory.ProfileIsRead | loader/policy_loader.c:618-720 | the selectors are the single ones followed by those of the arrays, or the error is the first thing wrong |
| Loader.ParsedAsDirected | loader/policy_loader.c:556-590 | default action, enforce, audit_allowed and the four flags are the directory's or else allow, on, off, and all but the last on; ids, mode and counts are the profile's |
| Directory.DirectoryIsRead | loader/policy_loader.c:1540-1607 | a directory with nothing wrong gives the rules of its path, command and network entries in this order, its selectors and its settings; any other the error of the first thing wrong |
| Rules.LoadProfile | loader/policy_loader.c:592-720 | the selector lists, the config or the exact error: a single id must not be zero (those in arrays may be), arrays must scan and leave at most 64 selectors of a kind, scoped mode needs one |
| BpfMap.ClearGeneration | loader/policy_loader.c:993-1071 | for any iteration order the restarting loop ends, leaving exactly the other generations' entries, and touches no other generation on the way |
| BpfMap.ClearAll | loader/policy_loader.c:981-991 | the loop ends with an empty map, and holds only old entries on the way |
| BpfMap.SnapshotMap | loader/policy_loader.c:767-937 | succeeds if and only if the map fits the array, and then remembers it entirely |
| BpfMap.WriteBack | loader/policy_loader.c:1301-1322 | without a failure the map is the old one overlaid with the snapshot; it is found full only if both together exceed it |
| BpfMap.RestoreAll | loader/policy_loader.c:1301-1322 | without a failure the map is the snapshot; it is found full only if the snapshot alone exceeds it |
| BpfMap.RestoreGeneration | loader/policy_loader.c:1324-1391 | without a failure the snapshot overlays what is left when one generation is cleared; the map is found full only if both together exceed it |
| BpfMap.WriteIndex | loader/policy_loader.c:1113-1227 | done, it has overlaid the compiled rule list; stopped at any element, it has changed no other generation; it finds the map full only if there was no room for all rules |
| BpfMap.WriteScopes | loader/policy_loader.c:1253-1299 | the map holds one value under exactly the given keys, and on the way under some of them |
| BpfMap.FromEntriesOfWalk | loader/policy_loader.c:767-796 | the copied array stands for the walked map |
| Kernel.Kernel.TakeSnapshot | loader/policy_loader.c:939-979 | succeeds if and only if every map fits its array, and remembers all of them |
| Kernel.Kernel.ClearIndexes | loader/policy_loader.c:1632-1663 | all four indexes lose exactly one generation, and no other is touched at any moment |
| Kernel.Kernel.WriteIndexes | loader/policy_loader.c:1664-1705 | all four hold the compiled list, or the failing write is named and no other generation was touched |
| Kernel.Kernel.WriteRules | loader/policy_loader.c:722-733 | the rule array is the rules followed by zeroed slots |
| Kernel.Kernel.WriteScopeMaps | loader/policy_loader.c:1253-1299 | the scope maps hold exactly the loaded selectors, whatever they held before, and are never full; all three are empty at some time, and at each moment each holds only old entries or only new ones |
| Kernel.Kernel.BumpEpoch | loader/policy_loader.c:1471-1487 | the next epoch in 64-bit arithmetic, zero skipped; unchanged on failure |
| Kernel.Kernel.Unstage | loader/policy_loader.c:1664-1742 | each failure branch clears the indexes staged so far, and no other |
| Kernel.Kernel.Restore | loader/policy_loader.c:1393-1469 | without a failure all maps are the snapshot's, other generations of three indexes aside; a map is found full only if it has no room for both |
| Kernel.WindowIsQuiet | loader/policy_loader.c:1632-1742 | whatever mixture of moments of the indexes a hook sees while another generation is worked on, no decision tells it apart |
| Loader.RollbackIsExact | loader/policy_loader.c:1664-1742 | whichever write failed, unstaging and a complete restore give back exactly the maps before the load |
| Loader.Parse | loader/policy_loader.c:1575-1607 | the result of settings, profile and the three rule files in order, or the first error, by the function whose meaning Directory.DirectoryIsRead states |
| Loader.StageAndFlip | loader/policy_loader.c:1632-1742 | either the new maps are complete, or some write was refused and the maps are in a state the rollback undoes |
| Loader.BumpAndClear | loader/policy_loader.c:1744-1759 | the epoch is bumped and the previous generation gone, or the snapshot is restored; the result reports the maps |
| Loader.ChooseGeneration | loader/policy_loader.c:1623-1626 | the next generation in 32-bit arithmetic, zero skipped |
| Loader.NextGeneration | loader/policy_loader.c:1623-1626 | never zero and never the current one |
| Loader.LoadParsed | loader/policy_loader.c:1608-1772 | every outcome of a load with the exact maps it leaves; maps beyond the snapshot arrays and zero profile or agent ids are always refused; a rollback never finds a map full |
| Loader.LoadDir | loader/policy_loader.c:1540-1775 | the same from the policy files; what does not parse is rejected with its error and changes nothing; after a success the live config has the directory's settings, ids, mode and counts, the rule array the rules, and the result reports them |
| Reload.RefusedIff | loader/policy_loader.c:1608-1630 | a parsed policy is refused at the snapshot exactly when an index holds more than 32 entries or a scope map more than 64, and else as invalid exactly when its profile or agent id is zero |
| Reload.InstalledServes | loader/policy_loader.c:1731-1759 | from the config write on the active generation is the compiled new rule list, and the clean-up leaves only that generation |
| Reload.LoadKeepsHygiene | loader/policy_loader.c:767-883 | from a state with only live entries no load overflows a snapshot array or finds an index full, and every settled load leaves such a state |
| Reload.RunsStayHygienic | bpf/maps.bpf.h:70-99 | over every run of successful and rolled-back loads the indexes hold only live entries, at most 32 each, and epoch and generation count the successes |
| Reload.RunsNeverOverflow | loader/policy_loader.c:1761-1772 | in such a run no load overflows, each success reports all the result fields as the maps hold them, and each failure changes nothing |
| Reload.AdmittedPolicyLoads | loader/policy_loader.c:1540-1775 | maps that fit the snapshot and a policy with nonzero ids have a successful load, so the statements about successful loads are not empty |
| Reload.OnlyAdmittedPoliciesLoad | loader/policy_loader.c:1608-1630 | any other load changes nothing and is refused at the snapshot or by validation |
| Reload.GenerationClosedForm | loader/policy_loader.c:1623-1626 | after n loads the generation is (n-1) mod (2^32-1) + 1 |
| Reload.BeforeTheFlip | loader/policy_loader.c:1632-1730 | before the config write no decider changes its answer on any input, at any moment |
| Reload.AfterTheFlip | loader/policy_loader.c:1731-1759 | from the config write on, at every moment, the deciders serve the new rule list |
| Reload.LoadFollowsProtocol | loader/policy_loader.c:1632-1759 | a successful load, with every state visible on the way, is a run of the protocol |
| Reload.InterleavingIsForward | bpf/mcp_guard.bpf.c:166-633 | hooks and evictions interleave with loader steps in every way without disturbing them |
| Reload.ReloadUnderTraffic | loader/policy_loader.c:1540-1775 | hooks and evictions interleaved in any way with a successful load leave a coherent cache and the new rule list served |
| Reload.ScopingIsExact | bpf/l3_slow_path.bpf.c:66-96 | after a successful load a process is in scope if and only if the mode is system-wide or its pid, tgid or comm is among the selectors; no table exceeds 64 entries |
| Reload.ScopingDuringStaging | loader/policy_loader.c:1716-1730 | after the last scope write and before the config write the old config reads the new selectors, and only if the ids are unchanged |
| Scoping.DecidedIff | bpf/mcp_guard.bpf.c:166-203 | a hook decides exactly the calls that are not refused already and whose process is in scope; out of scope it returns 0 and leaves the cache alone |
| Scoping.InScopeMeansNamed | loader/policy_loader.c:1253-1299 | at every moment up to the config write, whatever mixture of moments of the scope maps a hook finds, a process in scope is one the old selectors put there or one the new selectors name under equal ids |
| Scoping.StaysInScopeIff | loader/policy_loader.c:1253-1299 | a load that gets as far as the scope maps keeps a process in scope at every moment up to the config write if and only if the old mode is system-wide |
| Scoping.EmptiedScopesGuardNothing | loader/policy_loader.c:1267-1275 | once the scope maps are emptied, in scoped mode, every call of every process passes undecided |
| Scoping.EarlyFailureKeepsScoping | loader/policy_loader.c:1664-1715 | a load that fails before the scope maps leaves scoping unchanged at every moment |
| Scoping.SomeLoadUnguards | bpf/l3_slow_path.bpf.c:66-96 | between any two scoped policies, the new one admitted, there is a successful load with a moment at which a process both policies guard is let through |
| Reload.LeftOverIsQuiet | loader/policy_loader.c:1744-1751 | after a failed epoch write every decision of the restored generation is unchanged, whatever earlier failures left |
| Reload.LeftOverIsExactIff | loader/policy_loader.c:1744-1751 | a failed epoch write gives back the maps exactly if and only if every key staged in the command, network and resource index was there already, whatever earlier failures left |
| Reload.LeftOverIsExactIffOnlyPaths | loader/policy_loader.c:1744-1751 | from maps with only live entries: if and only if the rejected policy has only path rules and none of its paths named an inode at load time |
| Reload.LeftOverKeys | loader/policy_loader.c:1744-1751 | a failed epoch write leaves in three indexes the keys there were and the keys staged, whatever earlier failures left, and all other maps as they were |
| Reload.RetryLeavesNothingMore | loader/policy_loader.c:1744-1751 | the same policy failing again changes nothing |
| Reload.LeftOverBlocksSnapshot | loader/policy_loader.c:1744-1751 | from any maps that fit, leftovers included, the next snapshot fits if and only if in each of three indexes the keys there were and the keys staged are at most 32 together |
| Reload.OverfullBlocksEveryLoad | loader/policy_loader.c:939-979 | from maps beyond the snapshot arrays no load of any sequence succeeds or changes anything |
| Reload.LeftOverBlocksEveryLoad | loader/policy_loader.c:1744-1751 | if they do not fit, every later load is refused and changes nothing, whatever maps the failure started from |
| Reload.SomeFailureBlocksEveryLoad | loader/policy_loader.c:1744-1751 | such inputs: more than 16 command rules live and as many staged |
| Reload.TwoFailuresBlockEveryLoad | loader/policy_loader.c:1744-1751 | two policies of more than 16 commands: the next snapshot fits after either's failed epoch write alone, and does not after both |
| Recovery.FailuresAddUp | loader/policy_loader.c:1744-1751 | after any loads without a success, from any maps, the three indexes hold what they held and what all policies whose epoch write failed stand for, and everything else is as it was |
| Recovery.FailuresFitIff | loader/policy_loader.c:767-937 | from any maps that fit, the snapshot fits afterwards if and only if both together are at most 32 in each index |
| Recovery.NextLoadIsBlockedIff | loader/policy_loader.c:767-937 | in terms of the policies alone: after a success and any failures the next load is refused at the snapshot if and only if the distinct commands, blocks or inodes of the policy loaded and those of all policies rejected since exceed 32 in sum |
| Recovery.TooManyBlockEveryLoad | loader/policy_loader.c:939-979 | and then no later load succeeds or changes anything |
| Loader.RoomAfterFailure | loader/policy_loader.c:1664-1742 | after a failure before the epoch write the indexes have room for the rollback |
| Loader.RoomAfterFlip | loader/policy_loader.c:1744-1751 | so they have after a failed epoch write, where old and staged entries meet |
| Recovery.RunsStayTidy | loader/policy_loader.c:1744-1759 | over every run with completed rollbacks, failed epoch writes included, the indexes hold at most two generations, and epoch and generation count the successes |
| Recovery.SuccessRecovers | loader/policy_loader.c:1753-1759 | each success in such a run leaves only live entries, at most 32 each |
| Recovery.LoadKeepsTidy | loader/policy_loader.c:1744-1759 | the same for one load |
| EndToEnd.MissIsRuled | bpf/mcp_guard.bpf.c:205-633 | after a miss over a served policy the action is the rule list's, and it is stored with the winning rule's id under exactly the call's keys |
| EndToEnd.AnswerIsRuled | bpf/l3_slow_path.bpf.c:196-408 | L2 and L3 over a served policy give the rule list's own answer on every call |
| EndToEnd.SwitchIsAtomic | loader/policy_loader.c:1632-1759 | during a load an uncached action follows wholly from the old rule list before the config write and wholly from the new one after it |
| EndToEnd.FirstLoadAttaches | loader/main.c:665-671 | the first successful load gives the state hooks are attached in: epoch 1, coherent, serving the rules |
| EndToEnd.ServedActionMeans | bpf/mcp_guard.bpf.c:166-633 | in a coherent state every action, cached or not, follows from the served rule list |
| EndToEnd.ReloadedActionsMean | loader/policy_loader.c:1540-1775 | after a reload under traffic every action follows from the new rule list, whatever cache and indexes held before |
| Traffic.ActionsDuringLoadMean | loader/policy_loader.c:1632-1759 | at every point of a successful load under any traffic every action, from the cache or computed, follows wholly from the old or wholly from the new rule list, and the return code from the action and the config live then |
| Enforcement.CodesArePureIff | loader/policy_loader.c:1731-1744 | between config write and epoch write no call, whatever the cache, gets a code that neither policy would give if and only if the old policy enforces, or the new one does not, or the new one may deny whatever cacheable call the old one may deny |
| Enforcement.SomeReloadBlocksWhatNeitherBlocks | loader/policy_loader.c:1731-1744 | a run in which a connect that passes before the config write and after the epoch write is blocked in between |
| Verdicts.RulesSay | bpf/l3_slow_path.bpf.c:196-408 | the rule list of a directory answers every call as the directory's entries say: the longest covering entry, the last among equals, else the default; exact port before no port |
| Verdicts.LoadedDirectoryAnswers | loader/policy_loader.c:1540-1775 | after a successful load L2 and L3 answer every call as the directory says |
| Verdicts.ReloadedDirectoryRules | loader/policy_loader.c:1540-1775 | after a reload under any traffic every call gets an action the directory says, and -13 exactly if that is to deny and the directory enforces |
| Verdicts.DirectoriesDuringReload | loader/policy_loader.c:1632-1759 | at every point of a reload every action is one the old directory says or one the new one says |
| Verdicts.LastDirectoryRules | loader/main.c:690-705 | after any sequence of loads with rollbacks that complete, action and return code are what the directory loaded last says, unless an epoch write has failed since |
| Verdicts.FirstDirectoryRules | loader/main.c:665-671 | such a life starts with the first directory loaded |
| Traffic.ActionsDuringFailedLoadMean | loader/policy_loader.c:1664-1742 | at every point of a rolled-back load every action follows from the old rule list |
| Traffic.LifetimeSettles | loader/main.c:690-705 | after any sequence of loads under traffic whose rollbacks, if any, complete, the last rule list loaded is served, and the cache is coherent unless an epoch write has failed since |
| Traffic.LifetimeActionsMean | loader/main.c:690-705 | with rollbacks that complete, every action then follows from that rule list, unless an epoch write has failed since |
| Provenance.LifetimeActionsHaveSource | loader/policy_loader.c:1744-1751 | in any life whose rollbacks complete, failed epoch writes included, every action follows wholly from the policy loaded last or wholly from one whose epoch write has failed since |
| Provenance.ActionsDuringAnyLoadHaveSource | loader/policy_loader.c:1632-1759 | the same at every point of a further load of any outcome but an incomplete rollback, the policy under load being one more candidate if the load gets past the config write |
| Provenance.ActionsDuringFailedEpochMean | loader/policy_loader.c:1744-1751 | at every point of a load whose epoch write fails every action follows wholly from the old policy or wholly from the rejected one |
| Provenance.StepStaysSourced | bpf/mcp_guard.bpf.c:166-633 | each single step of hooks, cache or loader, rollback included, keeps every current entry an answer of one of the candidate policies |
| Traffic.FirstLoadSettles | loader/main.c:665-671 | such a life starts with the first successful load |
| Metrics.IndexRoundTrip | bpf/l3_slow_path.bpf.c:98-103 | hook, layer and action can be read back from a slot index, so slots never mix |
| Metrics.MetricsMap.RecordMetric | bpf/l3_slow_path.bpf.c:124-145 | every slot of every CPU is the sequential record of the decisions logged for it |
| Metrics.MetricsMap.ReadSnapshot | loader/main.c:138-194 | for any log every slot aggregated over the CPUs, and, in 64-bit arithmetic, the number of decisions logged in all and for layers 1, 2 and 3 |
| Metrics.CountsAreLogged | loader/main.c:177-190 | adding up slots by the layer in their index counts the events logged for the layer |
| Metrics.IndexLayout | bpf/l3_slow_path.bpf.c:98-103 | the index is 32 times the hook plus 4 times the layer plus the action |
| Metrics.ShardedIsSequential | loader/main.c:138-194 | however durations of at least 1 ns spread over CPUs, the aggregate is what one slot would hold, even through 64-bit overflow |
| Metrics.SnapshotSlotIsSequential | loader/main.c:138-194 | the same for each slot of a snapshot and the decisions of its hook, layer and action |
| Metrics.SnapshotLayersAddUp | loader/main.c:180-190 | the three layer counts add up to the total |
| Metrics.ZeroDurationBreaksSharding | bpf/l3_slow_path.bpf.c:140-141 | two samples, one of 0 ns, for which the aggregate differs |
| ZeroDurations.OnlyMinimumDiffers | loader/main.c:158-168 | zeros included, count, total, maximum and buckets aggregate right for every spread |
| ZeroDurations.SpreadsAgreeIff | loader/main.c:158-168 | with two or more CPUs every spread aggregates to one sequential slot if and only if that slot's minimum is the least nonzero duration |
| ZeroDurations.SpreadsAgreeIffLeastComesLast | loader/main.c:158-168 | that is, if and only if all durations are zero or a least nonzero one comes after the last zero |
| Metrics.SlotDescribesSamples | bpf/l3_slow_path.bpf.c:138-144 | without overflow a slot holds the exact count, sum, minimum, maximum and histogram |
| Metrics.BucketsAddUp | bpf/l3_slow_path.bpf.c:105-144 | the buckets of a slot add up to its count, for durations of any kind |
| Metrics.MeanBetweenExtremes | bpf/l3_slow_path.bpf.c:138-143 | min times count is at most the total, which is at most max times count |
| Percentile.ApproximatePercentile | experiments/tools/analyze_results.py:26-38 | the loop returns the clamped bound of the first bucket that reaches the rank |
| Percentile.FirstReaching | experiments/tools/analyze_results.py:31-37 | the first bucket up to which enough samples lie |
| Percentile.EstimateSound | experiments/tools/analyze_results.py:26-38 | for buckets of a real sample the estimate lies in its range, is at least the ranked sample and within its bucket, and at most the ranked sample in the open last bucket |
| Percentile.EstimateHasSample | experiments/tools/analyze_results.py:30 | up to the hundredth percentile there is always a sample of the rank looked for |
| Percentile.EstimateMonotone | experiments/tools/analyze_results.py:26-38 | a higher percentile never gives a smaller estimate |
| Percentile.BucketFoundIff | experiments/tools/analyze_results.py:32-38 | the loop returns from a bucket if and only if the rank does not exceed the total, always so up to the hundredth percentile |
| Percentile.PrefixCounts | bpf/l3_slow_path.bpf.c:105-122 | the buckets up to one hold exactly the samples below its bound |
| Percentile.WholePercentileIsNearestRank | experiments/tools/analyze_results.py:30 | for whole percentiles the rank is the least one covering the percentage |
| Scanners.GetU32Array | loader/policy_loader.c:196-233 | buffer, counter and error of the scanner for every text |
| Scanners.GetStringArray | loader/policy_loader.c:235-277 | buffer, counter and error of the scanner for every text |
| Scanners.ScanNumbers | loader/policy_loader.c:196-233 | on any text, by strict progress: never more elements than the limit, none beyond 32 bits |
| Scanners.ScanStrings | loader/policy_loader.c:235-277 | on any text, by strict progress: never more elements than the limit, none longer than 15 bytes |
| Scanners.StrtoulReads | loader/policy_loader.c:225-229 | after spaces and a sign, any number printed in decimal, octal or hexadecimal is converted, negated in 64-bit arithmetic by a minus sign, or recognised as too large |
| Scanners.FieldOfDocument | loader/policy_loader.c:141-158 | the value of a document's first key is found |
| Scanners.StrtoulOfDecimal | loader/policy_loader.c:225-229 | a plain decimal of any size is read back, or recognised as too large |
| Scanners.NumbersRoundTrip | loader/policy_loader.c:196-233 | scanning any printed list of numbers, with any separators, gives the list, no space, or invalid, exactly as the outcome says |
| Scanners.NumbersComeBackIff | loader/policy_loader.c:217-230 | the list itself comes back if and only if it fits and every number has 32 bits |
| Scanners.FindsFirst | loader/policy_loader.c:141-158 | a pattern is found where it stands first before the end of the text, and not found only if it stands nowhere |
| Scanners.AbsentKeyIsEmpty | loader/policy_loader.c:196-245 | a document without the key in quotes, or without a colon behind it, has an empty array of either kind |
| Scanners.NoArrayIsInvalid | loader/policy_loader.c:196-250 | a value that is no array is refused |
| Scanners.StrayIsInvalid | loader/policy_loader.c:213-233 | where a number is due, anything else, or the end of the text, is refused |
| Scanners.StrayStringIsInvalid | loader/policy_loader.c:252-277 | where a string is due, anything else, or the end of the text, is refused |
| Scanners.BackslashTakesNext | loader/policy_loader.c:265-271 | a backslash takes the next byte as it is |
| Scanners.CapitalsCount | loader/policy_loader.c:225-229 | capital hexadecimal digits and 0X read like small ones; 0X without a digit is a zero |
| Scanners.ScansEscaped | loader/policy_loader.c:265-271 | an escaped string (section 7 of RFC 8259, only quote and backslash) is read back whole if it has at most 15 bytes, and is refused otherwise |
| Scanners.StringsRoundTrip | loader/policy_loader.c:235-277 | scanning any printed list of strings gives the list if it fits and each has at most 15 bytes, and is refused otherwise |
| EventWindow.EventStore.Add | gui/mcp_guard_gui/models.py:181-191 | after any sequence of additions: the last records that fit, the newest epoch, the latest record of high risk, and the counters |
| EventWindow.EventStore.Append | gui/mcp_guard_gui/models.py:183-198 | the five counters follow an arriving event |
| EventWindow.EachFieldIsCounted | gui/mcp_guard_gui/models.py:193-198 | each counter counts its own field |
| EventWindow.EventStore.RemoveFirst | gui/mcp_guard_gui/models.py:188-211 | the five counters follow a leaving event |
| EventWindow.TallyIsExact | gui/mcp_guard_gui/models.py:193-198 | a counter holds every key with its exact number of live events, and no key with zero |
| EventWindow.TallyOfFewer | gui/mcp_guard_gui/models.py:200-211 | dropping the oldest event's key gives the counter of the remaining events |
| EventWindow.NewestEpoch | gui/mcp_guard_gui/models.py:187-188 | the largest epoch ever added, never negative |
| EventWindow.LastHighRisk | gui/mcp_guard_gui/models.py:185-186 | the position of the last denied or audited record ever added |
| EventWindow.MatchingRowsShow | gui/mcp_guard_gui/models.py:324-329 | the rows are exactly the matching indexes, in increasing order |
| EventWindow.EventTableModel.EventAt | gui/mcp_guard_gui/models.py:294-295 | every row shows a live event that passes the filters |
| EventWindow.EventTableModel.AddPayload | gui/mcp_guard_gui/models.py:297-300 | the rows are up to date after every event |
| EventWindow.EventTableModel.SetFilters | gui/mcp_guard_gui/models.py:302-322 | filters not given stay, and the rows are up to date |
| EventWindow.EventTableModel.Refresh | gui/mcp_guard_gui/models.py:324-329 | the rows are, in order, exactly the events that no filter rejects |
| EventWindow.RowsAreUnrejected | gui/mcp_guard_gui/models.py:331-348 | an event is rejected exactly by a filter other than "all" that its action, hook, layer, profile or agent differs from, or by a text it does not contain |
| EventWindow.TextInjective | gui/mcp_guard_gui/models.py:338-341 | a profile or agent filter picks one number |
| Framer.SocketClient.OnReadyRead | gui/mcp_guard_gui/socket_client.py:86-91 | however the bytes are split into reads, what was emitted are the complete nonblank lines of all bytes together, and the buffer is the rest |
| Framer.SocketClient.EmitLine | gui/mcp_guard_gui/socket_client.py:93-95 | blank lines are dropped, all others handed on |
| Framer.BlankMeans | gui/mcp_guard_gui/socket_client.py:93-95 | a line is blank if and only if it holds nothing but white space |
| Framer.FramedInParts | gui/mcp_guard_gui/socket_client.py:86-91 | a later read meets only the rest of the earlier ones |
| Framer.FramedUniquely | gui/mcp_guard_gui/socket_client.py:88-90 | lines and rest are the only way to cut a stream at its newlines |
| Framer.FramedWholly | gui/mcp_guard_gui/socket_client.py:88-90 | lines and rest together are the whole stream |
| Framer.ReconnectKeepsLinesIff | gui/mcp_guard_gui/socket_client.py:76-91 | blank lines included, the lines of a new connection come out as sent if and only if nothing was left over or it completes no line |
| Framer.ReconnectKeepsMessagesIff | gui/mcp_guard_gui/socket_client.py:76-95 | what is emitted is that of the two connections on their own if and only if nothing was left over, or the new connection completes no line, or what was left over and its first line are both blank |
| Framer.ReconnectGluesLines | gui/mcp_guard_gui/socket_client.py:76-91 | a line cut in two by a lost connection is glued to the next connection's first |

## Left out

What the members above do not say:

- Loader.BumpAndClear: a failing delete is not modelled, here and in every clearing loop, so the four branches in which clearing fails do not occur.
- Traffic.LifetimeSettles: a load whose rollback is itself refused a write is not one of the loads, here, in Traffic.LifetimeActionsMean and in the lives of `Provenance`, since the code leaves the maps as they happen to be.
- BpfMap.WriteBack: after a refused write the content of the map is not stated, since the code gives no guarantee either.
- Kernel.Kernel.Restore: it is one atomic step for the hooks, because it removes live entries for a moment.
- Guard.Guard.BprmCheckSecurity: a failing tail call or a missing scratch buffer, which deny the request, are not modelled, here and in the other hooks; `mcp_tail_fail_ret` denies whatever the policy's tail-call flag says, and the flag is never read.
- Baseline.PipelineRefinesBaseline: it speaks about runs outside the gap between config and epoch write, where the pipeline may still answer from the previous policy.
- Percentile.ApproximatePercentile: arithmetic is over reals, so rounding of floating-point percentiles is not covered.
- Scanners.FieldOfDocument: the key is the first of its document; a mention of the key inside an earlier value would mislead the code's substring search.
- Protocol.AbortIsCoherentIff: new policies that cache follow-ups, and evictions, are left to Aborts.AbortIsCoherentIffSurvivors, which covers every policy and traffic.
- Scanners.GetStringArray: an element is the string itself, without the zero bytes that pad its buffer.
- EventWindow.EventTableModel.SetFilters: Unicode lower-casing and stripping are inputs, as is the text a record offers to a search.

What the repository does beyond the model:

- the rest of JSON parsing, file reading, `stat` and `inet_pton`: the parsed fields are inputs, with which flags a file lists, whether all are known, and the inode and the address these calls find; arrays of selectors are scanned from the text;
- the kernel's trie, hash and array code: maps with the documented behaviour; updates may be refused at any time;
- torn reads of the config and interleavings inside one hook invocation: the code takes no lock there;
- the FNV hash of a file name: any nonzero id that `Protocol.Env` respects;
- the ring buffer and its events, rule names, reasons and flags of cache and index values: no decision reads them;
- the branches for a missing config or epoch element: the elements of an array map always exist;
- checks of `validate_policy_state` that parsing has already established, and scope modes outside the enumeration;
- the linear scan at the end of `mcp_l3_string_decide`: no caller reaches it;
- the baseline's own metrics, timing values, and reports;
- decoding of event payloads, Qt signals and widgets, reconnection timing, the socket server, process start and privileges.
