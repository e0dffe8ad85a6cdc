/**
 The kernel's longest-prefix-match tries and the generation-keyed hash, as finite maps.

 Every key of the four policy indexes starts with the 32-bit generation, and every prefix the
 loader stores covers it, so a key is a generation with an item: a byte prefix (paths, commands),
 a bit prefix (port and address), or a whole hash key (resource ids).
 */
module Lpm {
  import opened Common

  datatype Key<T> = Key(gen: U32, item: T)

  type Index<T(==), V> = map<Key<T>, V>

  /** The entries of one generation. */
  function Slice<T(==), V>(m: Index<T, V>, gen: U32): Index<T, V> {
    map k | k in m && k.gen == gen :: m[k]
  }

  /** The entries of every other generation. */
  function Without<T(==), V>(m: Index<T, V>, gen: U32): Index<T, V> {
    map k | k in m && k.gen != gen :: m[k]
  }

  /** The longest prefix of `full` of length at most `n` that is stored under `gen`. */
  function Search<T(==), V>(t: Index<seq<T>, V>, gen: U32, full: seq<T>, n: nat): Option<V>
    requires n <= |full|
  {
    if Key(gen, full[..n]) in t then Some(t[Key(gen, full[..n])])
    else if n == 0 then None
    else Search(t, gen, full, n - 1)
  }

  /** Trie lookup with a full-length key. */
  function Lookup<T(==), V>(t: Index<seq<T>, V>, gen: U32, full: seq<T>): Option<V> {
    Search(t, gen, full, |full|)
  }

  function Get<T(==), V>(t: Index<T, V>, gen: U32, item: T): Option<V> {
    if Key(gen, item) in t then Some(t[Key(gen, item)]) else None
  }

  /** `p` is stored, matches `full`, and no longer stored prefix does. */
  ghost predicate LongestMatch<T(!new), V>(t: Index<seq<T>, V>, gen: U32, full: seq<T>, p: seq<T>) {
    && Key(gen, p) in t
    && p <= full
    && forall q :: Key(gen, q) in t && q <= full ==> |q| <= |p|
  }

  lemma {:induction false} SearchFindsLongest<T(!new), V>(t: Index<seq<T>, V>, gen: U32, full: seq<T>, n: nat,
                                                           p: seq<T>)
    requires |p| <= n <= |full|
    requires LongestMatch(t, gen, full, p)
    ensures Search(t, gen, full, n) == Some(t[Key(gen, p)])
  {
    if n == |p| {
      assert full[..n] == p;
    } else {
      assert full[..n] <= full;
      assert Key(gen, full[..n]) !in t;
      SearchFindsLongest(t, gen, full, n - 1, p);
    }
  }

  lemma {:induction false} SearchMiss<T(!new), V>(t: Index<seq<T>, V>, gen: U32, full: seq<T>, n: nat)
    requires n <= |full|
    requires forall q :: Key(gen, q) in t ==> !(q <= full)
    ensures Search(t, gen, full, n) == None
  {
    assert full[..n] <= full;
    if n > 0 {
      SearchMiss(t, gen, full, n - 1);
    }
  }

  /** Longest match wins. */
  lemma LookupFindsLongest<T(!new), V>(t: Index<seq<T>, V>, gen: U32, full: seq<T>, p: seq<T>)
    requires LongestMatch(t, gen, full, p)
    ensures Lookup(t, gen, full) == Some(t[Key(gen, p)])
  {
    SearchFindsLongest(t, gen, full, |full|, p);
  }

  /** Nothing matches, nothing found. */
  lemma LookupMiss<T(!new), V>(t: Index<seq<T>, V>, gen: U32, full: seq<T>)
    requires forall q :: Key(gen, q) in t ==> !(q <= full)
    ensures Lookup(t, gen, full) == None
  {
    SearchMiss(t, gen, full, |full|);
  }

  /** A lookup reads no other generation. */
  lemma {:induction false} SearchReadsOwnGeneration<T(!new), V>(t: Index<seq<T>, V>, u: Index<seq<T>, V>, gen: U32,
                                                                 full: seq<T>, n: nat)
    requires n <= |full|
    requires Slice(t, gen) == Slice(u, gen)
    ensures Search(t, gen, full, n) == Search(u, gen, full, n)
  {
    var k := Key(gen, full[..n]);
    assert k in t <==> k in Slice(t, gen);
    assert k in u <==> k in Slice(u, gen);
    if k in t {
      assert t[k] == Slice(t, gen)[k] == u[k];
    } else if n > 0 {
      SearchReadsOwnGeneration(t, u, gen, full, n - 1);
    }
  }

  lemma LookupReadsOwnGeneration<T(!new), V>(t: Index<seq<T>, V>, u: Index<seq<T>, V>, gen: U32, full: seq<T>)
    requires Slice(t, gen) == Slice(u, gen)
    ensures Lookup(t, gen, full) == Lookup(u, gen, full)
  {
    SearchReadsOwnGeneration(t, u, gen, full, |full|);
  }

  lemma GetReadsOwnGeneration<T, V>(t: Index<T, V>, u: Index<T, V>, gen: U32, item: T)
    requires Slice(t, gen) == Slice(u, gen)
    ensures Get(t, gen, item) == Get(u, gen, item)
  {
    var k := Key(gen, item);
    assert k in t <==> k in Slice(t, gen);
    assert k in u <==> k in Slice(u, gen);
    if k in t {
      assert t[k] == Slice(t, gen)[k] == Slice(u, gen)[k] == u[k];
    }
  }

  /** Agreeing off one generation means agreeing on every other one. */
  lemma WithoutKeepsSlices<T, V>(t: Index<T, V>, u: Index<T, V>, cleared: U32, gen: U32)
    requires Without(t, cleared) == Without(u, cleared) && gen != cleared
    ensures Slice(t, gen) == Slice(u, gen)
  {
    forall k: Key<T> | k.gen == gen
      ensures k in t <==> k in u
      ensures k in t ==> t[k] == u[k]
    {
      assert k in t <==> k in Without(t, cleared);
      assert k in u <==> k in Without(u, cleared);
      if k in t {
        assert t[k] == Without(t, cleared)[k] == Without(u, cleared)[k] == u[k];
      }
    }
    assert Slice(t, gen).Keys == Slice(u, gen).Keys;
  }
}
