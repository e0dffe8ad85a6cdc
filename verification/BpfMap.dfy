/** A kernel map behind a file descriptor, and the loader's loops over one map. */
module BpfMap {
  import opened Common
  import opened Lpm
  import opened Policy
  import opened Compile

  /** The kernel refuses an update for reasons of its own, or because the map is full. */
  datatype Update = Done | Refused | Full

  /** `q` lists the elements of `s`, each once. */
  ghost predicate Lists<K(!new)>(q: seq<K>, s: set<K>) {
    && (forall k :: k in q <==> k in s)
    && forall i, j | 0 <= i < j < |q| :: q[i] != q[j]
  }

  /** What a map holds after the changes recorded so far. */
  function Current<K, V>(history: seq<map<K, V>>): map<K, V> {
    if history == [] then map[] else history[|history| - 1]
  }

  /** Every entry of `m` is one of `n`. */
  ghost predicate SubMap<K, V>(m: map<K, V>, n: map<K, V>) {
    forall k | k in m :: k in n && m[k] == n[k]
  }

  /** Between the two histories the map held nothing that is not in `bound`. */
  ghost predicate Within<K, V>(before: seq<map<K, V>>, after: seq<map<K, V>>, bound: map<K, V>) {
    before <= after && forall i | |before| <= i < |after| :: SubMap(after[i], bound)
  }

  class BpfMap<K(==,!new), V(!new)> {
    var contents: map<K, V>
    /** The contents after every change so far, oldest first. */
    ghost var history: seq<map<K, V>>
    const capacity: nat
    /** The order in which the kernel walks the keys: any, but the same while the keys are the same. */
    const order: set<K> -> seq<K>

    ghost predicate Valid()
      reads this
    {
      contents == Current(history) && forall s: set<K> :: Lists(order(s), s)
    }

    function Walk(): seq<K>
      reads this
    {
      order(contents.Keys)
    }

    constructor (capacity: nat, order: set<K> -> seq<K>)
      requires forall s: set<K> :: Lists(order(s), s)
      ensures Valid() && contents == map[] && history == [] && this.capacity == capacity
    {
      contents := map[];
      history := [];
      this.capacity := capacity;
      this.order := order;
    }

    /** `bpf_map_update_elem` with `BPF_ANY` */
    method UpdateElem(k: K, v: V) returns (r: Update)
      requires Valid()
      modifies this
      ensures Valid()
      ensures r.Done? ==> contents == old(contents)[k := v]
      ensures !r.Done? ==> contents == old(contents)
      ensures history == if r.Done? then old(history) + [contents] else old(history)
      ensures r.Full? <==> k !in old(contents) && |old(contents)| >= capacity
    {
      if k !in contents && |contents| >= capacity {
        r := Full;
      } else if * {
        r := Refused;
      } else {
        contents := contents[k := v];
        history := history + [contents];
        r := Done;
      }
    }

    /** `bpf_map_delete_elem` on a key that is present */
    method DeleteElem(k: K)
      requires Valid() && k in contents
      modifies this
      ensures Valid() && contents == old(contents) - {k} && history == old(history) + [contents]
    {
      contents := contents - {k};
      history := history + [contents];
    }

    /** `bpf_map_get_next_key`: the first key, or the one after the cursor. */
    method GetNextKey(cursor: Option<K>, ghost place: nat) returns (next: Option<K>)
      requires Valid()
      requires cursor.None? <==> place == 0
      requires cursor.Some? ==> place <= |Walk()| && Walk()[place - 1] == cursor.value
      ensures next == if place < |Walk()| then Some(Walk()[place]) else None
    {
      var walk := Walk();
      var i := 0;
      if cursor.Some? {
        while walk[i] != cursor.value
          invariant i < place
          decreases place - i
        {
          i := i + 1;
        }
        i := i + 1;
      }
      next := if i < |walk| then Some(walk[i]) else None;
    }
  }

  lemma RemoveShrinks<K, V>(m: map<K, V>, k: K)
    requires k in m
    ensures |m - {k}| == |m| - 1
  {
    assert (m - {k}).Keys == m.Keys - {k};
  }

  lemma {:induction false} ListsLength<K(!new)>(q: seq<K>, s: set<K>)
    requires Lists(q, s)
    ensures |q| == |s|
  {
    if q == [] {
      assert forall k :: k in s ==> k in q;
      assert s == {};
    } else {
      var k := q[0];
      forall x
        ensures x in q[1..] <==> x in s - {k}
      {
        if x in s - {k} {
          assert x in q;
          var i :| 0 <= i < |q| && q[i] == x;
          assert q[1..][i - 1] == x;
        }
        if x in q[1..] {
          var i :| 0 <= i < |q[1..]| && q[1..][i] == x;
          assert q[i + 1] == x && x in q;
        }
      }
      ListsLength(q[1..], s - {k});
    }
  }

  /** Everything that happened to a map between two histories left the other generations as in `base`. */
  ghost predicate Kept<T, V>(before: seq<Index<T, V>>, after: seq<Index<T, V>>, base: Index<T, V>, gen: U32) {
    before <= after && forall i | |before| <= i < |after| :: Without(after[i], gen) == Without(base, gen)
  }

  /**
   `clear_*_generation`: walk the map, delete every key of the generation, start over after each
   deletion.
   */
  method ClearGeneration<T(==,!new), V(!new)>(fd: BpfMap<Key<T>, V>, gen: U32)
    requires fd.Valid()
    modifies fd
    ensures fd.Valid() && fd.contents == Without(old(fd.contents), gen)
    ensures Kept(old(fd.history), fd.history, old(fd.contents), gen)
  {
    var cursor: Option<Key<T>> := None;
    ghost var place := 0;
    var next := fd.GetNextKey(cursor, place);
    while next.Some?
      invariant fd.Valid()
      invariant Without(fd.contents, gen) == Without(old(fd.contents), gen)
      invariant Kept(old(fd.history), fd.history, old(fd.contents), gen)
      invariant place <= |fd.Walk()| && (cursor.None? <==> place == 0)
      invariant cursor.Some? ==> fd.Walk()[place - 1] == cursor.value
      invariant next == if place < |fd.Walk()| then Some(fd.Walk()[place]) else None
      invariant forall i | 0 <= i < place :: fd.Walk()[i].gen != gen
      decreases |fd.contents|, |fd.Walk()| - place
    {
      var key := next.value;
      assert key in fd.contents by { assert key in fd.Walk(); }
      if key.gen == gen {
        DeletedInGeneration(fd.contents, key, gen);
        fd.DeleteElem(key);
        cursor, place := None, 0;
      } else {
        cursor, place := Some(key), place + 1;
      }
      next := fd.GetNextKey(cursor, place);
    }
    NothingLeft(fd.contents, fd.Walk(), gen);
  }

  lemma DeletedInGeneration<T, V>(m: Index<T, V>, k: Key<T>, gen: U32)
    requires k in m && k.gen == gen
    ensures Without(m - {k}, gen) == Without(m, gen) && |m - {k}| < |m|
  {
    RemoveShrinks(m, k);
  }

  lemma NothingLeft<T(!new), V>(m: Index<T, V>, walk: seq<Key<T>>, gen: U32)
    requires Lists(walk, m.Keys)
    requires forall i | 0 <= i < |walk| :: walk[i].gen != gen
    ensures m == Without(m, gen)
  {
    forall k | k in m
      ensures k.gen != gen
    {
      assert k in walk;
    }
  }

  /** `clear_path_trie`, `clear_comm_scopes`, `clear_id_scopes`: delete the first key until none is left. */
  method ClearAll<K(!new), V(!new)>(fd: BpfMap<K, V>)
    requires fd.Valid()
    modifies fd
    ensures fd.Valid() && fd.contents == map[]
    ensures Within(old(fd.history), fd.history, old(fd.contents))
  {
    var next := fd.GetNextKey(None, 0);
    while next.Some?
      invariant fd.Valid()
      invariant SubMap(fd.contents, old(fd.contents)) && Within(old(fd.history), fd.history, old(fd.contents))
      invariant next == if |fd.Walk()| > 0 then Some(fd.Walk()[0]) else None
      decreases |fd.contents|
    {
      assert next.value in fd.contents by { assert next.value in fd.Walk(); }
      RemoveShrinks(fd.contents, next.value);
      fd.DeleteElem(next.value);
      next := fd.GetNextKey(None, 0);
    }
    assert forall k :: k in fd.contents.Keys ==> k in fd.Walk();
    assert fd.contents == map[];
  }

  /** The map a list of snapshot entries stands for. */
  function FromEntries<K, V>(entries: seq<(K, V)>): (m: map<K, V>) {
    if entries == [] then map[]
    else FromEntries(entries[..|entries| - 1])[entries[|entries| - 1].0 := entries[|entries| - 1].1]
  }

  lemma {:induction false} FromEntriesOfWalk<K, V>(m: map<K, V>, q: seq<K>, entries: seq<(K, V)>)
    requires |entries| == |q|
    requires forall i | 0 <= i < |q| :: q[i] in m && entries[i] == (q[i], m[q[i]])
    ensures FromEntries(entries) == map k | k in q :: m[k]
  {
    if q != [] {
      var n := |q| - 1;
      FromEntriesOfWalk(m, q[..n], entries[..n]);
      assert q == q[..n] + [q[n]];
    }
  }

  /** `snapshot_*`: copy at most `limit` entries, or give up. */
  method SnapshotMap<K(!new), V(!new)>(fd: BpfMap<K, V>, limit: nat) returns (r: Option<seq<(K, V)>>)
    requires fd.Valid()
    ensures r.Some? <==> |fd.contents| <= limit
    ensures r.Some? ==> FromEntries(r.value) == fd.contents
  {
    var entries: seq<(K, V)> := [];
    var cursor: Option<K> := None;
    var next := fd.GetNextKey(cursor, 0);
    ListsLength(fd.Walk(), fd.contents.Keys);
    while next.Some?
      invariant |entries| <= limit && |entries| <= |fd.Walk()|
      invariant cursor.None? <==> |entries| == 0
      invariant cursor.Some? ==> fd.Walk()[|entries| - 1] == cursor.value
      invariant next == if |entries| < |fd.Walk()| then Some(fd.Walk()[|entries|]) else None
      invariant forall i | 0 <= i < |entries| ::
                  fd.Walk()[i] in fd.contents && entries[i] == (fd.Walk()[i], fd.contents[fd.Walk()[i]])
      decreases |fd.Walk()| - |entries|
    {
      if |entries| >= limit {
        return None;
      }
      var key := next.value;
      assert key in fd.contents by { assert key in fd.Walk(); }
      entries := entries + [(key, fd.contents[key])];
      cursor := Some(key);
      next := fd.GetNextKey(cursor, |entries|);
    }
    FromEntriesOfWalk(fd.contents, fd.Walk(), entries);
    r := Some(entries);
  }

  lemma OverlayStep<K, V>(m: map<K, V>, entries: seq<(K, V)>, i: nat)
    requires i < |entries|
    ensures m + FromEntries(entries[..i + 1]) == (m + FromEntries(entries[..i]))[entries[i].0 := entries[i].1]
  {
    assert entries[..i + 1][..i] == entries[..i];
  }

  lemma {:induction false} EntriesSoFar<K, V>(entries: seq<(K, V)>, i: nat)
    requires i <= |entries|
    ensures FromEntries(entries[..i]).Keys <= FromEntries(entries).Keys
  {
    var n := |entries|;
    if i < n {
      EntriesSoFar(entries[..n - 1], i);
      assert entries[..n - 1][..i] == entries[..i];
    } else {
      assert entries[..i] == entries;
    }
  }

  lemma SubsetSize<K>(a: set<K>, b: set<K>)
    requires a <= b
    ensures |a| <= |b|
  {
    assert b == a + (b - a);
  }

  lemma NextEntryIn<K, V>(m: map<K, V>, entries: seq<(K, V)>, i: nat)
    requires i < |entries|
    ensures (m + FromEntries(entries[..i])).Keys + {entries[i].0} <= m.Keys + FromEntries(entries).Keys
  {
    EntriesSoFar(entries, i + 1);
    assert entries[..i + 1][..i] == entries[..i];
    assert FromEntries(entries[..i + 1]).Keys == FromEntries(entries[..i]).Keys + {entries[i].0};
  }

  /** A map that is full before entry `i` is new to it has no room for all entries. */
  lemma FullOnlyBeyond<K, V>(m: map<K, V>, soFar: map<K, V>, entries: seq<(K, V)>, i: nat, capacity: nat)
    requires i < |entries|
    ensures soFar == m + FromEntries(entries[..i]) && entries[i].0 !in soFar && |soFar| >= capacity ==>
              |m.Keys + FromEntries(entries).Keys| > capacity
  {
    if soFar == m + FromEntries(entries[..i]) && entries[i].0 !in soFar {
      NextEntryIn(m, entries, i);
      SubsetSize(soFar.Keys + {entries[i].0}, m.Keys + FromEntries(entries).Keys);
      assert |soFar.Keys + {entries[i].0}| == |soFar| + 1;
    }
  }

  /**
   The write-back loops of the rollback. The trie and hash loops stop at the first failure (`stop`), the
   scope loops go on; either way `r` is the first failure, if there is one. The map can only be found full
   if it has no room for the entries besides what it holds.
   */
  method WriteBack<K(!new), V(!new)>(fd: BpfMap<K, V>, entries: seq<(K, V)>, stop: bool) returns (r: Update)
    requires fd.Valid()
    modifies fd
    ensures fd.Valid()
    ensures r.Done? ==> fd.contents == old(fd.contents) + FromEntries(entries)
    ensures r.Full? ==> |old(fd.contents).Keys + FromEntries(entries).Keys| > fd.capacity
  {
    ghost var base, all := fd.contents, fd.contents.Keys + FromEntries(entries).Keys;
    r := Done;
    var i := 0;
    while i < |entries| && (r.Done? || !stop)
      invariant 0 <= i <= |entries| && fd.Valid()
      invariant r.Done? ==> fd.contents == base + FromEntries(entries[..i])
      invariant r.Full? ==> |all| > fd.capacity
      decreases |entries| - i
    {
      OverlayStep(base, entries, i);
      FullOnlyBeyond(base, fd.contents, entries, i, fd.capacity);
      var one := fd.UpdateElem(entries[i].0, entries[i].1);
      if r.Done? { r := one; }
      i := i + 1;
    }
    assert entries[..|entries|] == entries;
  }

  /** `restore_path_trie`, and the scope part of `restore_policy_maps`: empty the map, then write back. */
  method RestoreAll<K(!new), V(!new)>(fd: BpfMap<K, V>, entries: seq<(K, V)>, stop: bool) returns (r: Update)
    requires fd.Valid()
    modifies fd
    ensures fd.Valid()
    ensures r.Done? ==> fd.contents == FromEntries(entries)
    ensures r.Full? ==> |FromEntries(entries)| > fd.capacity
  {
    ClearAll(fd);
    r := WriteBack(fd, entries, stop);
    ghost var none: map<K, V> := map[];
    assert none + FromEntries(entries) == FromEntries(entries);
    assert none.Keys + FromEntries(entries).Keys == FromEntries(entries).Keys;
  }

  /** `restore_command_trie`, `restore_network_trie`, `restore_resource_hash`: clear one generation, then write back. */
  method RestoreGeneration<T(==,!new), V(!new)>(fd: BpfMap<Key<T>, V>, entries: seq<(Key<T>, V)>, gen: U32)
    returns (r: Update)
    requires fd.Valid()
    modifies fd
    ensures fd.Valid()
    ensures r.Done? ==> fd.contents == Without(old(fd.contents), gen) + FromEntries(entries)
    ensures r.Full? ==> |Without(old(fd.contents), gen).Keys + FromEntries(entries).Keys| > fd.capacity
  {
    ClearGeneration(fd, gen);
    r := WriteBack(fd, entries, true);
  }

  lemma OverlaySize<K, V>(m: map<K, V>, over: map<K, V>)
    ensures |m + over| <= |m| + |over|
  {
    assert (m + over).Keys == m.Keys + over.Keys;
    assert |m.Keys + over.Keys| <= |m.Keys| + |over.Keys|;
  }

  /** Entries of generation `gen` do not show outside it. */
  lemma OverlayInGeneration<T, V>(m: Index<T, V>, over: Index<T, V>, gen: U32)
    requires forall k :: k in over ==> k.gen == gen
    ensures Without(m + over, gen) == Without(m, gen)
  {
  }

  lemma OverlayUpdate<K, V>(m: map<K, V>, over: map<K, V>, k: K, v: V)
    ensures (m + over)[k := v] == m + over[k := v]
  {
  }

  /** One more rule is at most one more update. */
  lemma CompiledStep<T(!new)>(m: Index<T, Entry>, rs: seq<Rule>, gen: U32, item: Rule -> Option<T>, i: nat)
    requires i < |rs|
    ensures var before := m + Compiled(rs[..i], gen, item);
            m + Compiled(rs[..i + 1], gen, item)
            == if item(rs[i]).Some? then before[Key(gen, item(rs[i]).value) := EntryOf(rs[i])] else before
  {
    assert rs[..i + 1][..i] == rs[..i];
    if item(rs[i]).Some? {
      OverlayUpdate(m, Compiled(rs[..i], gen, item), Key(gen, item(rs[i]).value), EntryOf(rs[i]));
    }
  }

  /**
   `write_path_trie`, `write_command_trie`, `write_network_trie`, `write_resource_hash`: stage the
   items of a rule list under a generation, stopping at the first update that fails.
   */
  method WriteIndex<T(==,!new)>(fd: BpfMap<Key<T>, Entry>, rs: seq<Rule>, gen: U32, item: Rule -> Option<T>)
    returns (r: Update)
    requires fd.Valid()
    modifies fd
    ensures fd.Valid()
    ensures r.Done? ==> fd.contents == old(fd.contents) + Compiled(rs, gen, item)
    ensures Without(fd.contents, gen) == Without(old(fd.contents), gen)
    ensures Kept(old(fd.history), fd.history, old(fd.contents), gen)
    ensures r.Full? ==> |old(fd.contents)| + |rs| > fd.capacity
  {
    ghost var base := fd.contents;
    r := Done;
    var i := 0;
    while i < |rs|
      invariant 0 <= i <= |rs| && fd.Valid() && r.Done?
      invariant fd.contents == base + Compiled(rs[..i], gen, item)
      invariant Kept(old(fd.history), fd.history, base, gen)
    {
      CompiledStep(base, rs, gen, item, i);
      var it := item(rs[i]);
      if it.Some? {
        r := fd.UpdateElem(Key(gen, it.value), EntryOf(rs[i]));
        if !r.Done? {
          OverlaySize(base, Compiled(rs[..i], gen, item));
          break;
        }
        OverlayInGeneration(base, Compiled(rs[..i + 1], gen, item), gen);
      }
      i := i + 1;
    }
    OverlayInGeneration(base, Compiled(rs[..i], gen, item), gen);
    assert i == |rs| ==> rs[..i] == rs;
  }

  function OneValue<K, V>(keys: seq<K>, value: V): map<K, V> {
    map k | k in keys :: value
  }

  lemma OneValueStep<K, V>(keys: seq<K>, value: V, i: nat)
    requires i < |keys|
    ensures OneValue(keys[..i + 1], value) == OneValue(keys[..i], value)[keys[i] := value]
    ensures SubMap(OneValue(keys[..i + 1], value), OneValue(keys, value))
  {
    assert keys[..i + 1] == keys[..i] + [keys[i]];
  }

  lemma {:induction false} OneValueSize<K, V>(keys: seq<K>, value: V)
    ensures |OneValue(keys, value)| <= |keys|
  {
    if keys != [] {
      var n := |keys| - 1;
      OneValueSize(keys[..n], value);
      OneValueStep(keys, value, n);
      assert keys[..n + 1] == keys;
      OverlaySize(OneValue(keys[..n], value), map[keys[n] := value]);
      assert OneValue(keys, value) == OneValue(keys[..n], value) + map[keys[n] := value];
    }
  }

  /** The three loops of `write_scope_maps`: one value under every key. */
  method WriteScopes<K(!new)>(fd: BpfMap<K, ScopeValue>, keys: seq<K>, value: ScopeValue)
    returns (r: Update)
    requires fd.Valid() && fd.contents == map[]
    modifies fd
    ensures fd.Valid()
    ensures r.Done? ==> fd.contents == OneValue(keys, value)
    ensures r.Full? ==> |keys| > fd.capacity
    ensures Within(old(fd.history), fd.history, OneValue(keys, value))
  {
    r := Done;
    var i := 0;
    while i < |keys|
      invariant 0 <= i <= |keys| && fd.Valid() && r.Done?
      invariant Within(old(fd.history), fd.history, OneValue(keys, value))
      invariant fd.contents == OneValue(keys[..i], value)
    {
      OneValueSize(keys[..i], value);
      OneValueStep(keys, value, i);
      r := fd.UpdateElem(keys[i], value);
      if !r.Done? {
        return;
      }
      i := i + 1;
    }
    assert keys[..|keys|] == keys;
  }
}
