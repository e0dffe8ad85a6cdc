/**
 The kernel's trie as it is: data bits, a stored entry matching when its bits begin the looked-up bits,
 the longest match winning. On the keys the loader and the hooks build, it answers as `Lpm.Lookup`.
 */
module BitTrie {
  import opened Common
  import opened Lpm
  import opened NetBits

  type Trie<V> = map<Bits, V>

  /** `b` is stored, matches, and no longer stored prefix does. */
  ghost predicate Longest<V>(t: Trie<V>, full: Bits, b: Bits) {
    b in t && b <= full && forall c | c in t && c <= full :: |c| <= |b|
  }

  /** What the kernel may answer: a longest match, or nothing when nothing matches. */
  ghost predicate Answers<V>(t: Trie<V>, full: Bits, r: Option<V>) {
    match r
    case None => forall b | b in t :: !(b <= full)
    case Some(v) => exists b :: Longest(t, full, b) && v == t[b]
  }

  function Encoded<T>(k: Key<seq<T>>, bits: seq<T> -> Bits): Bits {
    KeyBits(k.gen, bits(k.item))
  }

  ghost predicate Stored<T, V>(t: Trie<V>, index: Index<seq<T>, V>, bits: seq<T> -> Bits) {
    forall k | k in index :: Encoded(k, bits) in t && t[Encoded(k, bits)] == index[k]
  }

  ghost predicate Only<T, V>(t: Trie<V>, index: Index<seq<T>, V>, bits: seq<T> -> Bits) {
    forall b | b in t :: exists k | k in index :: b == Encoded(k, bits)
  }

  /** The trie holds exactly the entries of the index, each under its generation and the bits of its item. */
  ghost predicate Encodes<T, V>(t: Trie<V>, index: Index<seq<T>, V>, bits: seq<T> -> Bits) {
    Stored(t, index, bits) && Only(t, index, bits)
  }

  /** Key bits begin other key bits exactly when the generations are equal and the items are prefixes. */
  ghost predicate Faithful<T(!new)>(bits: seq<T> -> Bits) {
    forall k: Key<seq<T>>, h: Key<seq<T>> ::
      Encoded(k, bits) <= Encoded(h, bits) <==> k.gen == h.gen && k.item <= h.item
  }

  lemma ProperPrefix<T>(a: seq<T>, b: seq<T>)
    requires a <= b && a != b
    ensures |a| < |b|
  {
    assert b[..|b|] == b;
  }

  lemma LongerItemLongerKey<T(!new)>(bits: seq<T> -> Bits, gen: U32, p: seq<T>, q: seq<T>)
    requires Faithful(bits) && p <= q && |p| < |q|
    ensures |Encoded(Key(gen, p), bits)| < |Encoded(Key(gen, q), bits)|
  {
    var a, b := Encoded(Key(gen, p), bits), Encoded(Key(gen, q), bits);
    assert a <= b && !(b <= a);
    ProperPrefix(a, b);
  }

  lemma NothingMatches<T(!new), V>(t: Trie<V>, index: Index<seq<T>, V>, bits: seq<T> -> Bits, gen: U32, full: seq<T>)
    requires Faithful(bits) && Encodes(t, index, bits) && Answers(t, Encoded(Key(gen, full), bits), None)
    ensures Lookup(index, gen, full) == None
  {
    forall q | Key(gen, q) in index
      ensures !(q <= full)
    {
      var k := Key(gen, q);
      assert Encoded(k, bits) in t;
      assert !(Encoded(k, bits) <= Encoded(Key(gen, full), bits));
    }
    LookupMiss(index, gen, full);
  }

  lemma NoLongerItem<T(!new), V>(t: Trie<V>, index: Index<seq<T>, V>, bits: seq<T> -> Bits, gen: U32, full: seq<T>,
                                 p: seq<T>, q: seq<T>)
    requires Faithful(bits) && Encodes(t, index, bits) && p <= full
    requires Longest(t, Encoded(Key(gen, full), bits), Encoded(Key(gen, p), bits))
    requires Key(gen, q) in index && q <= full
    ensures |q| <= |p|
  {
    var c := Encoded(Key(gen, q), bits);
    assert c in t && c <= Encoded(Key(gen, full), bits);
    if |q| > |p| {
      assert p <= q;
      LongerItemLongerKey(bits, gen, p, q);
    }
  }

  lemma BeginsOwn<T(!new)>(bits: seq<T> -> Bits, k: Key<seq<T>>, gen: U32, full: seq<T>)
    requires Faithful(bits) && Encoded(k, bits) <= Encoded(Key(gen, full), bits)
    ensures k == Key(gen, k.item) && k.item <= full
  {
  }

  lemma EntryMatches<T(!new), V>(t: Trie<V>, index: Index<seq<T>, V>, bits: seq<T> -> Bits, gen: U32, full: seq<T>,
                                 k: Key<seq<T>>)
    requires Faithful(bits) && Encodes(t, index, bits) && k in index
    requires Longest(t, Encoded(Key(gen, full), bits), Encoded(k, bits))
    ensures Lookup(index, gen, full) == Some(index[k])
  {
    BeginsOwn(bits, k, gen, full);
    forall q | Key(gen, q) in index && q <= full
      ensures |q| <= |k.item|
    {
      NoLongerItem(t, index, bits, gen, full, k.item, q);
    }
    LookupFindsLongest(index, gen, full, k.item);
  }

  lemma EntryStored<T, V>(t: Trie<V>, index: Index<seq<T>, V>, bits: seq<T> -> Bits, b: Bits) returns (k: Key<seq<T>>)
    requires Encodes(t, index, bits) && b in t
    ensures k in index && b == Encoded(k, bits) && t[b] == index[k]
  {
    k :| k in index && b == Encoded(k, bits);
  }

  /** The kernel's answer is the model's. */
  lemma TrieAnswersLookup<T(!new), V>(t: Trie<V>, index: Index<seq<T>, V>, bits: seq<T> -> Bits, gen: U32, full: seq<T>,
                                      r: Option<V>)
    requires Faithful(bits) && Encodes(t, index, bits) && Answers(t, Encoded(Key(gen, full), bits), r)
    ensures r == Lookup(index, gen, full)
  {
    match r
    case None => NothingMatches(t, index, bits, gen, full);
    case Some(v) =>
      var key := Encoded(Key(gen, full), bits);
      var b :| Longest(t, key, b) && v == t[b];
      var k := EntryStored(t, index, bits, b);
      EntryMatches(t, index, bits, gen, full, k);
  }

  lemma EncodedOnce<T(!new)>(bits: seq<T> -> Bits, k: Key<seq<T>>, h: Key<seq<T>>)
    requires Faithful(bits) && Encoded(k, bits) == Encoded(h, bits)
    ensures k == h
  {
    assert Encoded(k, bits) <= Encoded(h, bits) && Encoded(h, bits) <= Encoded(k, bits);
    EachOthersPrefix(k.item, h.item);
  }

  lemma EachOthersPrefix<T>(a: seq<T>, b: seq<T>)
    requires a <= b && b <= a
    ensures a == b
  {
  }

  /** An update in the kernel's trie is an update of the index: an equal prefix of an equal generation overwrites. */
  lemma UpdateKeepsEncoding<T(!new), V>(t: Trie<V>, index: Index<seq<T>, V>, bits: seq<T> -> Bits, k: Key<seq<T>>, v: V)
    requires Faithful(bits) && Encodes(t, index, bits)
    ensures Encodes(t[Encoded(k, bits) := v], index[k := v], bits)
  {
    var updated, more := t[Encoded(k, bits) := v], index[k := v];
    forall h | h in more
      ensures Encoded(h, bits) in updated && updated[Encoded(h, bits)] == more[h]
    {
      if Encoded(h, bits) == Encoded(k, bits) { EncodedOnce(bits, h, k); }
    }
    forall b | b in updated
      ensures exists h | h in more :: b == Encoded(h, bits)
    {
      if b == Encoded(k, bits) {
        assert k in more;
      } else {
        var h := EntryStored(t, index, bits, b);
        assert h in more;
      }
    }
  }

  lemma OthersStay<T(!new), V>(t: Trie<V>, index: Index<seq<T>, V>, bits: seq<T> -> Bits,
                               k: Key<seq<T>>, h: Key<seq<T>>)
    requires Faithful(bits) && Encodes(t, index, bits) && h in index && h != k
    ensures var rest := t - {Encoded(k, bits)};
            Encoded(h, bits) in rest && rest[Encoded(h, bits)] == index[h]
  {
    if Encoded(h, bits) == Encoded(k, bits) { EncodedOnce(bits, h, k); }
  }

  lemma OthersOnly<T(!new), V>(t: Trie<V>, index: Index<seq<T>, V>, bits: seq<T> -> Bits, k: Key<seq<T>>, b: Bits)
    returns (h: Key<seq<T>>)
    requires Encodes(t, index, bits) && b in t - {Encoded(k, bits)}
    ensures h in index - {k} && b == Encoded(h, bits)
  {
    h := EntryStored(t, index, bits, b);
  }

  /** A deletion in the kernel's trie is a deletion from the index. */
  lemma DeletionKeepsEncoding<T(!new), V>(t: Trie<V>, index: Index<seq<T>, V>, bits: seq<T> -> Bits, k: Key<seq<T>>)
    requires Faithful(bits) && Encodes(t, index, bits)
    ensures Encodes(t - {Encoded(k, bits)}, index - {k}, bits)
  {
    var rest, left := t - {Encoded(k, bits)}, index - {k};
    assert Stored(rest, left, bits) by {
      forall h | h in left
        ensures Encoded(h, bits) in rest && rest[Encoded(h, bits)] == left[h]
      {
        OthersStay(t, index, bits, k, h);
      }
    }
    assert Only(rest, left, bits) by {
      forall b | b in rest
        ensures exists h | h in left :: b == Encoded(h, bits)
      {
        var h := OthersOnly(t, index, bits, k, b);
      }
    }
  }

  lemma BytesAreFaithful()
    ensures Faithful(BytesBits)
  {
    forall k: Key<Bytes>, h: Key<Bytes>
      ensures Encoded(k, BytesBits) <= Encoded(h, BytesBits) <==> k.gen == h.gen && k.item <= h.item
    {
      BytesKeyMatch(k.gen, k.item, h.gen, h.item);
    }
  }

  function Same(b: Bits): Bits { b }

  lemma BitsAreFaithful()
    ensures Faithful(Same)
  {
    forall k: Key<Bits>, h: Key<Bits>
      ensures Encoded(k, Same) <= Encoded(h, Same) <==> k.gen == h.gen && k.item <= h.item
    {
      BitsKeyMatch(k.gen, k.item, h.gen, h.item);
    }
  }

  /** Path and command tries: the kernel's lookup with a 192-byte key is the model's. */
  lemma NameTrieAnswers<V>(t: Trie<V>, index: Index<Bytes, V>, gen: U32, key: Bytes, r: Option<V>)
    requires Encodes(t, index, BytesBits) && Answers(t, KeyBits(gen, BytesBits(key)), r)
    ensures r == Lookup(index, gen, key)
  {
    BytesAreFaithful();
    TrieAnswersLookup(t, index, BytesBits, gen, key, r);
  }

  /** Network tries: prefixes may end inside a byte. */
  lemma NetworkTrieAnswers<V>(t: Trie<V>, index: Index<Bits, V>, gen: U32, key: Bits, r: Option<V>)
    requires Encodes(t, index, Same) && Answers(t, KeyBits(gen, key), r)
    ensures r == Lookup(index, gen, key)
  {
    BitsAreFaithful();
    TrieAnswersLookup(t, index, Same, gen, key, r);
  }
}
