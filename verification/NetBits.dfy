/** How the loader and the BPF programs lay trie keys out in memory, down to the bit. */
module NetBits {
  import opened Common
  import opened Lpm

  type Bits = seq<bool>

  /** The low `n` bits of `x`, most significant first. */
  function BeBits(x: nat, n: nat): (b: Bits)
    ensures |b| == n
  {
    if n == 0 then [] else BeBits(x / 2, n - 1) + [x % 2 == 1]
  }

  function ShiftRight(x: nat, k: nat): nat {
    if k == 0 then x else ShiftRight(x / 2, k - 1)
  }

  /** `x << k` in 32-bit arithmetic. */
  function ShiftLeft32(x: U32, k: nat): U32 {
    if k == 0 then x else ShiftLeft32(x, k - 1) * 2 % 0x1_0000_0000
  }

  function Pow2(n: nat): (p: nat)
    ensures p >= 1
  {
    if n == 0 then 1 else 2 * Pow2(n - 1)
  }

  function Trues(n: nat): (b: Bits)
    ensures |b| == n
  {
    seq(n, _ => true)
  }

  function Falses(n: nat): (b: Bits)
    ensures |b| == n
  {
    seq(n, _ => false)
  }

  // ---------------------------------------------------------------- bit arithmetic

  lemma {:induction false} BeBitsAt(x: nat, n: nat, i: nat)
    requires i < n
    ensures BeBits(x, n)[i] <==> ShiftRight(x, n - 1 - i) % 2 == 1
  {
    if i < n - 1 {
      BeBitsAt(x / 2, n - 1, i);
    }
  }

  lemma {:induction false} BeBitsInjective(x: nat, y: nat, n: nat)
    requires x < Pow2(n) && y < Pow2(n)
    ensures BeBits(x, n) == BeBits(y, n) <==> x == y
    decreases n
  {
    if n > 0 {
      BeBitsInjective(x / 2, y / 2, n - 1);
      var xs, ys := BeBits(x, n), BeBits(y, n);
      assert xs[..n - 1] == BeBits(x / 2, n - 1) && ys[..n - 1] == BeBits(y / 2, n - 1);
      assert xs[n - 1] == (x % 2 == 1) && ys[n - 1] == (y % 2 == 1);
    }
  }

  /** Two numbers below 2^n share their first `p` bits exactly when they agree after dropping the others. */
  lemma {:induction false} SharedPrefix(x: nat, y: nat, n: nat, p: nat)
    requires p <= n && x < Pow2(n) && y < Pow2(n)
    ensures BeBits(x, n)[..p] == BeBits(y, n)[..p] <==> ShiftRight(x, n - p) == ShiftRight(y, n - p)
    decreases n
  {
    if p == n {
      BeBitsInjective(x, y, n);
      assert BeBits(x, n)[..n] == BeBits(x, n) && BeBits(y, n)[..n] == BeBits(y, n);
    } else {
      SharedPrefix(x / 2, y / 2, n - 1, p);
      assert BeBits(x, n)[..p] == BeBits(x / 2, n - 1)[..p];
      assert BeBits(y, n)[..p] == BeBits(y / 2, n - 1)[..p];
    }
  }

  lemma {:induction false} BeBitsIgnoresCarry(x: nat, n: nat)
    ensures BeBits(x + Pow2(n), n) == BeBits(x, n)
  {
    if n > 0 {
      assert (x + Pow2(n)) / 2 == x / 2 + Pow2(n - 1);
      BeBitsIgnoresCarry(x / 2, n - 1);
    }
  }

  lemma {:induction false} BeBitsDropFirst(x: nat, n: nat)
    requires n > 0
    ensures BeBits(x, n)[1..] == BeBits(x, n - 1)
  {
    if n > 1 {
      BeBitsDropFirst(x / 2, n - 1);
      assert BeBits(x, n)[1..] == BeBits(x / 2, n - 1)[1..] + [x % 2 == 1];
    }
  }

  lemma {:induction false} BeBitsConcat(hi: nat, lo: nat, n: nat, k: nat)
    requires lo < Pow2(k)
    ensures BeBits(hi * Pow2(k) + lo, n + k) == BeBits(hi, n) + BeBits(lo, k)
  {
    if k == 0 {
      assert BeBits(hi, n) + [] == BeBits(hi, n);
    } else {
      var half := Pow2(k - 1);
      assert hi * Pow2(k) == 2 * (hi * half);
      assert (hi * Pow2(k) + lo) / 2 == hi * half + lo / 2;
      assert (hi * Pow2(k) + lo) % 2 == lo % 2;
      BeBitsConcat(hi, lo / 2, n, k - 1);
    }
  }

  lemma Pow2Literals()
    ensures Pow2(8) == 0x100 && Pow2(16) == 0x1_0000 && Pow2(24) == 0x100_0000 && Pow2(32) == 0x1_0000_0000
  {
    assert Pow2(8) == 0x100;
    assert Pow2(16) == 0x1_0000;
    assert Pow2(24) == 0x100_0000;
  }

  // ---------------------------------------------------------------- bytes in memory

  function BytesBits(s: Bytes): (b: Bits)
    ensures |b| == 8 * |s|
  {
    if s == [] then [] else BeBits(s[0], 8) + BytesBits(s[1..])
  }

  /** The low `n` bytes of `x`, least significant first. */
  function LeBytes(x: nat, n: nat): (s: Bytes)
    ensures |s| == n
  {
    if n == 0 then [] else [x % 0x100] + LeBytes(x / 0x100, n - 1)
  }

  /** The number whose bytes, most significant first, are `s`. */
  function BeValue(s: Bytes): (x: nat)
    ensures x < Pow2(8 * |s|)
  {
    if s == [] then 0
    else
      var n := |s| - 1;
      assert Pow2(8 * |s|) == 0x100 * Pow2(8 * n) by { Pow2Byte(n); }
      BeValue(s[..n]) * 0x100 + s[n]
  }

  function Reverse(s: Bytes): (r: Bytes)
    ensures |r| == |s|
  {
    if s == [] then [] else [s[|s| - 1]] + Reverse(s[..|s| - 1])
  }

  /** A 32-bit integer as the little-endian host stores it. */
  function Le32(x: U32): (s: Bytes)
    ensures |s| == 4
  {
    LeBytes(x, 4)
  }

  /** `ntohl` and `htonl` on a little-endian host. */
  function Ntohl(x: U32): U32 {
    assert Pow2(8 * |Le32(x)|) == 0x1_0000_0000 by { Pow2Literals(); }
    BeValue(Le32(x))
  }

  lemma Pow2Byte(n: nat)
    ensures Pow2(8 * (n + 1)) == 0x100 * Pow2(8 * n)
  {
    var k := 8 * n;
    assert Pow2(k + 2) == 4 * Pow2(k);
    assert Pow2(k + 4) == 16 * Pow2(k);
    assert Pow2(k + 6) == 64 * Pow2(k);
    assert Pow2(k + 8) == 256 * Pow2(k);
  }

  lemma {:induction false} LeBytesOfBeValue(s: Bytes)
    ensures LeBytes(BeValue(s), |s|) == Reverse(s)
  {
    if s != [] {
      var high, low := BeValue(s[..|s| - 1]), s[|s| - 1];
      LeBytesOfBeValue(s[..|s| - 1]);
      assert (high * 0x100 + low) / 0x100 == high && (high * 0x100 + low) % 0x100 == low;
    }
  }

  lemma {:induction false} ReverseCons(b: Byte, s: Bytes)
    ensures Reverse([b] + s) == Reverse(s) + [b]
  {
    if s != [] {
      ReverseCons(b, s[..|s| - 1]);
      assert ([b] + s)[..|s|] == [b] + s[..|s| - 1];
    }
  }

  lemma {:induction false} BeValueOfLeBytes(x: nat, n: nat)
    requires x < Pow2(8 * n)
    ensures BeValue(Reverse(LeBytes(x, n))) == x
  {
    if n > 0 {
      Pow2Byte(n - 1);
      var tail := LeBytes(x / 0x100, n - 1);
      BeValueOfLeBytes(x / 0x100, n - 1);
      ReverseCons(x % 0x100, tail);
      assert (Reverse(tail) + [x % 0x100])[..n - 1] == Reverse(tail);
    }
  }

  lemma Le32Inverse(x: U32)
    ensures BeValue(Reverse(Le32(x))) == x
  {
    assert Pow2(8 * 4) == 0x1_0000_0000 by { Pow2Literals(); }
    BeValueOfLeBytes(x, 4);
  }

  lemma NtohlInvolution(x: U32)
    ensures Ntohl(Ntohl(x)) == x
  {
    LeBytesOfBeValue(Le32(x));
    Le32Inverse(x);
  }

  lemma {:induction false} BytesBitsSnoc(s: Bytes, b: Byte)
    ensures BytesBits(s + [b]) == BytesBits(s) + BeBits(b, 8)
  {
    if s == [] {
      assert [] + [b] == [b] && [b][1..] == [];
    } else {
      BytesBitsSnoc(s[1..], b);
      assert (s + [b])[1..] == s[1..] + [b];
    }
  }

  /** Bytes in memory, bit by bit, are the big-endian number they spell. */
  lemma {:induction false} BytesBitsAreBigEndian(s: Bytes)
    ensures BytesBits(s) == BeBits(BeValue(s), 8 * |s|)
  {
    if s != [] {
      var n := |s| - 1;
      BytesBitsAreBigEndian(s[..n]);
      BytesBitsSnoc(s[..n], s[n]);
      assert s[..n] + [s[n]] == s;
      Pow2Literals();
      BeBitsConcat(BeValue(s[..n]), s[n], 8 * n, 8);
    }
  }

  /** The trie compares an address most significant host bit first. */
  lemma MemoryBitsAreNetworkOrder(x: U32)
    ensures BytesBits(Le32(x)) == BeBits(Ntohl(x), 32)
  {
    BytesBitsAreBigEndian(Le32(x));
  }

  lemma {:induction false} ByteBitsInjective(a: Byte, b: Byte)
    ensures BeBits(a, 8) == BeBits(b, 8) <==> a == b
  {
    Pow2Literals();
    BeBitsInjective(a, b, 8);
  }

  /** Matching the first `8 * |p|` bits is matching the first `|p|` bytes. */
  lemma {:induction false} BytePrefixIsBitPrefix(p: Bytes, s: Bytes)
    ensures BytesBits(p) <= BytesBits(s) <==> p <= s
  {
    if p == [] {
    } else if s == [] {
      assert |BytesBits(p)| >= 8;
    } else {
      ByteBitsInjective(p[0], s[0]);
      BytePrefixIsBitPrefix(p[1..], s[1..]);
      var hp, hs, tp, ts := BeBits(p[0], 8), BeBits(s[0], 8), BytesBits(p[1..]), BytesBits(s[1..]);
      PrefixSplit(hp, tp, hs, ts);
      assert p == [p[0]] + p[1..] && s == [s[0]] + s[1..];
      PrefixSplit([p[0]], p[1..], [s[0]], s[1..]);
    }
  }

  /** With heads of equal length, prefix means equal heads and prefix of the tails. */
  lemma PrefixSplit<T>(a: seq<T>, b: seq<T>, c: seq<T>, d: seq<T>)
    requires |a| == |c|
    ensures a + b <= c + d <==> a == c && b <= d
  {
    if a + b <= c + d {
      assert (a + b)[..|a|] == a && (c + d)[..|c|] == c;
      assert a == c;
      assert (a + b)[|a|..] == b && (c + d)[|c|..] == d;
      assert b == (c + d)[..|a + b|][|a|..] == d[..|b|];
    }
    if a == c && b <= d {
      assert c + d == (a + b) + d[|b|..];
    }
  }

  lemma Le32Injective(x: U32, y: U32)
    ensures Le32(x) == Le32(y) <==> x == y
  {
    Le32Inverse(x);
    Le32Inverse(y);
  }

  lemma Le32BitsInjective(x: U32, y: U32)
    ensures BytesBits(Le32(x)) == BytesBits(Le32(y)) <==> x == y
  {
    BytePrefixIsBitPrefix(Le32(x), Le32(y));
    BytePrefixIsBitPrefix(Le32(y), Le32(x));
    Le32Injective(x, y);
  }

  /** The data bits the kernel trie compares: the generation, then the item. */
  function KeyBits(gen: U32, item: Bits): Bits {
    BytesBits(Le32(gen)) + item
  }

  /**
   The kernel's rule (the first `prefixlen` data bits agree, with
   `prefixlen = 32 + 8 * strnlen`) on path and command keys is the model's rule:
   same generation, and the stored bytes are a prefix of the looked-up bytes.
   */
  lemma BytesKeyMatch(gen: U32, stored: Bytes, lookupGen: U32, name: Bytes)
    ensures KeyBits(gen, BytesBits(stored)) <= KeyBits(lookupGen, BytesBits(name))
       <==> gen == lookupGen && stored <= name
  {
    Le32BitsInjective(gen, lookupGen);
    PrefixSplit(BytesBits(Le32(gen)), BytesBits(stored), BytesBits(Le32(lookupGen)), BytesBits(name));
    BytePrefixIsBitPrefix(stored, name);
  }

  /** The same for network keys, whose prefix may end inside a byte. */
  lemma BitsKeyMatch(gen: U32, stored: Bits, lookupGen: U32, full: Bits)
    ensures KeyBits(gen, stored) <= KeyBits(lookupGen, full) <==> gen == lookupGen && stored <= full
  {
    Le32BitsInjective(gen, lookupGen);
    PrefixSplit(BytesBits(Le32(gen)), stored, BytesBits(Le32(lookupGen)), full);
  }

  // ---------------------------------------------------------------- CIDR

  /** The host-order mask `parse_ipv4_cidr` builds. */
  function HostMask(prefix: nat): U32
    requires prefix <= 32
  {
    if prefix == 0 then 0 else ShiftLeft32(U32_MAX, 32 - prefix)
  }

  function LeadingOnes(b: Bits): (n: nat)
    ensures n <= |b|
  {
    if b == [] || !b[0] then 0 else 1 + LeadingOnes(b[1..])
  }

  /** `ipv4_prefix_bits` less the 64 bits of generation and port. */
  function MaskBits(mask: U32): (n: nat)
    ensures n <= 32
  {
    LeadingOnes(BeBits(Ntohl(mask), 32))
  }

  /** The item of a network key: port, then the first `n` bits of the address. */
  function NetItem(port: U32, addr: U32, n: nat): Bits
    requires n <= 32
  {
    BytesBits(Le32(port)) + BytesBits(Le32(addr))[..n]
  }

  lemma {:induction false} AllOnes(n: nat)
    ensures BeBits(Pow2(n) - 1, n) == Trues(n)
  {
    if n > 0 {
      assert (Pow2(n) - 1) / 2 == Pow2(n - 1) - 1;
      AllOnes(n - 1);
    }
  }

  /** Doubling in `n`-bit arithmetic shifts the bits one place to the left. */
  lemma DoubledBits(x: nat, y: nat, n: nat)
    requires n > 0 && x < Pow2(n)
    requires y == if x * 2 >= Pow2(n) then x * 2 - Pow2(n) else x * 2
    ensures BeBits(y, n) == BeBits(x, n)[1..] + [false]
  {
    if x * 2 >= Pow2(n) {
      BeBitsIgnoresCarry(y, n);
    }
    assert BeBits(x * 2, n) == BeBits(x, n - 1) + [false];
    BeBitsDropFirst(x, n);
  }

  lemma ShiftStep(x: U32, n: nat)
    requires n == 32
    ensures BeBits(x * 2 % 0x1_0000_0000, n) == BeBits(x, n)[1..] + [false]
  {
    assert Pow2(n) == 0x1_0000_0000 by { Pow2Literals(); }
    DoubledBits(x, x * 2 % 0x1_0000_0000, n);
  }

  lemma {:induction false} ShiftedOnes(k: nat, n: nat)
    requires k <= n == 32
    ensures BeBits(ShiftLeft32(U32_MAX, k), n) == Trues(n - k) + Falses(k)
  {
    if k == 0 {
      assert Pow2(n) == 0x1_0000_0000 by { Pow2Literals(); }
      AllOnes(n);
      assert Trues(n) + Falses(0) == Trues(n);
    } else {
      var x := ShiftLeft32(U32_MAX, k - 1);
      assert BeBits(x, n) == Trues(n + 1 - k) + Falses(k - 1) by { ShiftedOnes(k - 1, n); }
      assert BeBits(ShiftLeft32(U32_MAX, k), n) == BeBits(x, n)[1..] + [false] by { ShiftStep(x, n); }
      assert (Trues(n + 1 - k) + Falses(k - 1))[1..] + [false] == Trues(n - k) + Falses(k);
    }
  }

  lemma {:induction false} LeadingOnesOfRun(n: nat, k: nat)
    ensures LeadingOnes(Trues(n) + Falses(k)) == n
  {
    if n > 0 {
      assert (Trues(n) + Falses(k))[1..] == Trues(n - 1) + Falses(k);
      LeadingOnesOfRun(n - 1, k);
    }
  }

  lemma {:induction false} NoOnes(n: nat)
    ensures BeBits(0, n) == Falses(n)
  {
    if n > 0 { NoOnes(n - 1); }
  }

  lemma HostMaskBits(prefix: nat, n: nat)
    requires prefix <= n == 32
    ensures BeBits(HostMask(prefix), n) == Trues(prefix) + Falses(n - prefix)
  {
    if prefix == 0 {
      NoOnes(n);
    } else {
      ShiftedOnes(n - prefix, n);
    }
  }

  /** Mask construction, byte swap and leading-ones count agree: the prefix length survives the round trip. */
  lemma MaskRoundTrip(prefix: nat)
    requires prefix <= 32
    ensures MaskBits(Ntohl(HostMask(prefix))) == prefix
  {
    NtohlInvolution(HostMask(prefix));
    var n := 32;
    HostMaskBits(prefix, n);
    LeadingOnesOfRun(prefix, n - prefix);
  }

  /** `addr` lies in the block `base/n`: the leftmost `n` bits agree (both in network byte order). */
  predicate InBlock(addr: U32, base: U32, n: nat)
    requires n <= 32
  {
    ShiftRight(Ntohl(addr), 32 - n) == ShiftRight(Ntohl(base), 32 - n)
  }

  /** The number an address in network byte order stands for. */
  function HostOrder(x: U32): nat {
    x % 0x100 * 0x100_0000 + x / 0x100 % 0x100 * 0x1_0000 + x / 0x1_0000 % 0x100 * 0x100 + x / 0x100_0000
  }

  lemma NtohlIsHostOrder(x: U32)
    ensures Ntohl(x) == HostOrder(x)
  {
    var a, b, c, d: Byte := x % 0x100, x / 0x100 % 0x100, x / 0x1_0000 % 0x100, x / 0x100_0000;
    assert x / 0x100 / 0x100 == x / 0x1_0000 && x / 0x1_0000 / 0x100 == x / 0x100_0000;
    assert LeBytes(d, 1) == [d];
    assert LeBytes(x / 0x1_0000, 2) == [c, d];
    assert LeBytes(x / 0x100, 3) == [b, c, d];
    assert Le32(x) == [a, b, c, d];
    assert [a, b, c, d][..3] == [a, b, c] && [a, b, c][..2] == [a, b] && [a, b][..1] == [a] && [a][..0] == [];
    assert BeValue([a]) == a;
    assert BeValue([a, b]) == a * 0x100 + b;
    assert BeValue([a, b, c]) == (a * 0x100 + b) * 0x100 + c;
  }

  lemma {:induction false} ShiftIsDivision(x: nat, k: nat)
    ensures ShiftRight(x, k) == x / Pow2(k)
  {
    if k > 0 {
      ShiftIsDivision(x / 2, k - 1);
      HalfDivides(x, Pow2(k - 1));
    }
  }

  lemma HalfDivides(x: nat, p: nat)
    requires p > 0
    ensures x / 2 / p == x / (2 * p)
  {
    var q, r := x / 2 / p, x / 2 % p;
    assert x / 2 == q * p + r;
    var rest := 2 * r + x % 2;
    assert x == q * (2 * p) + rest && 0 <= rest < 2 * p;
    QuotientOf(x, q, rest, 2 * p);
  }

  lemma QuotientOf(x: nat, q: nat, r: nat, p: nat)
    requires p > 0 && r < p && x == q * p + r
    ensures x / p == q
  {
    var quotient, remainder := x / p, x % p;
    assert x == quotient * p + remainder;
    if quotient < q {
      NextTimes(quotient, q, p);
    } else if q < quotient {
      NextTimes(q, quotient, p);
    }
  }

  lemma NextTimes(a: nat, b: nat, p: nat)
    requires a < b
    ensures a * p + p <= b * p
  {
    assert b * p == a * p + p + (b - a - 1) * p;
  }

  /** The addresses agree when divided by 2^(32-n). */
  predicate SameBlock(addr: U32, base: U32, n: nat)
    requires n <= 32
  {
    HostOrder(addr) / Pow2(32 - n) == HostOrder(base) / Pow2(32 - n)
  }

  /** Those are the addresses of a block of prefix length `n`. */
  lemma InBlockIff(addr: U32, base: U32, n: nat)
    requires n <= 32
    ensures InBlock(addr, base, n) <==> SameBlock(addr, base, n)
  {
    NtohlIsHostOrder(addr);
    NtohlIsHostOrder(base);
    ShiftIsDivision(HostOrder(addr), 32 - n);
    ShiftIsDivision(HostOrder(base), 32 - n);
  }

  lemma BlockBits(addr: U32, base: U32, n: nat, width: nat)
    requires n <= width == 32
    ensures BytesBits(Le32(base))[..n] == BytesBits(Le32(addr))[..n]
       <==> InBlock(addr, base, n)
  {
    MemoryBitsAreNetworkOrder(base);
    MemoryBitsAreNetworkOrder(addr);
    assert Pow2(width) == 0x1_0000_0000 by { Pow2Literals(); }
    SharedPrefix(Ntohl(addr), Ntohl(base), width, n);
  }

  lemma NetItemSplit(port: U32, base: U32, n: nat, lookupPort: U32, addr: U32)
    requires n <= 32
    ensures NetItem(port, base, n) <= NetItem(lookupPort, addr, 32)
       <==> port == lookupPort && BytesBits(Le32(base))[..n] == BytesBits(Le32(addr))[..n]
  {
    var baseBits, addrBits := BytesBits(Le32(base)), BytesBits(Le32(addr));
    Le32BitsInjective(port, lookupPort);
    PrefixSplit(BytesBits(Le32(port)), baseBits[..n], BytesBits(Le32(lookupPort)), addrBits[..32]);
    assert addrBits[..32][..n] == addrBits[..n];
  }

  /** A stored network prefix matches a lookup exactly when port and block do. */
  lemma NetItemMatch(port: U32, base: U32, n: nat, lookupPort: U32, addr: U32)
    requires n <= 32
    ensures NetItem(port, base, n) <= NetItem(lookupPort, addr, 32) <==> port == lookupPort && InBlock(addr, base, n)
  {
    NetItemSplit(port, base, n, lookupPort, addr);
    BlockBits(addr, base, n, 32);
  }

  /** `ipv4_prefix_bits` */
  method Ipv4PrefixBits(mask: U32) returns (total: nat)
    ensures total == 64 + MaskBits(mask)
  {
    var hostMask := Ntohl(mask);
    var bits := 0;
    ghost var all := BeBits(hostMask, 32);
    var i := 0;
    while i < 32
      invariant 0 <= i <= 32 && bits == i
      invariant LeadingOnes(all) == i + LeadingOnes(all[i..])
    {
      BeBitsAt(hostMask, 32, i);
      if ShiftRight(hostMask, 31 - i) % 2 != 1 {
        break;
      }
      assert all[i..][1..] == all[i + 1..];
      bits := bits + 1;
      i := i + 1;
    }
    total := 32 + 32 + bits;
  }
}
