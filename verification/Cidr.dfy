/** Fn::Cidr: carving equal IPv4 subnets out of an address block.  A block is an address and a
    prefix length, in the notation of section 3.1 of RFC 4632. */
module Cidr {

  datatype IpBlock = V4(address: nat, prefix: nat) | NotV4 | NotCidr {
    predicate Valid() {
      V4? ==> address < Pow2(32) && prefix <= 32
    }
  }

  datatype Subnet = Subnet(address: nat, prefix: nat)

  datatype Carved = Subnets(list: seq<Subnet>) | Finding

  function Pow2(n: nat): (p: nat)
    ensures p > 0
  {
    if n == 0 then 1 else 2 * Pow2(n - 1)
  }

  lemma {:induction false} Pow2Sum(a: nat, b: nat)
    ensures Pow2(a + b) == Pow2(a) * Pow2(b)
  {
    if a > 0 {
      Pow2Sum(a - 1, b);
    }
  }

  /** The network address of a block: ParseCIDR clears the host bits. */
  function Network(address: nat, prefix: nat): nat
    requires prefix <= 32
  {
    Floor(address, Pow2(32 - prefix))
  }

  /** The largest multiple of `size` not above `x`. */
  function Floor(x: nat, size: nat): nat
    requires size > 0
  {
    (x / size) * size
  }

  lemma DivMod(x: nat, size: nat)
    requires size > 0
    ensures x == (x / size) * size + x % size && 0 <= x % size < size
  {
  }

  /** Addresses of a subnet. */
  predicate Contains(s: Subnet, x: nat)
    requires s.prefix <= 32
  {
    s.address <= x < s.address + Pow2(32 - s.prefix)
  }

  /** A block's network is a multiple of its size and ends within the address space. */
  lemma NetworkAligned(address: nat, prefix: nat)
    requires prefix <= 32 && address < Pow2(32)
    ensures Network(address, prefix) == (address / Pow2(32 - prefix)) * Pow2(32 - prefix)
    ensures Network(address, prefix) + Pow2(32 - prefix) <= Pow2(32)
  {
    hide Pow2;
    var size := Pow2(32 - prefix);
    Pow2Sum(prefix, 32 - prefix);
    FloorFits(address, size, Pow2(prefix));
  }

  lemma FloorFits(x: nat, size: nat, n: nat)
    requires size > 0 && x < n * size
    ensures Floor(x, size) + size <= n * size
  {
    var q := x / size;
    DivMod(x, size);
    if q >= n {
      MulLe(n, q, size);
    } else {
      MulLe(q + 1, n, size);
      Successor(q, size);
    }
  }

  lemma Successor(q: nat, size: nat)
    ensures (q + 1) * size == q * size + size
  {
  }

  lemma MulMod(q: nat, size: nat)
    requires size > 0
    ensures (q * size) % size == 0
  {
    if q > 0 {
      MulMod(q - 1, size);
      Successor(q - 1, size);
      AddMod((q - 1) * size, size);
    }
  }

  lemma AddMod(x: nat, size: nat)
    requires size > 0
    ensures (x + size) % size == x % size
  {
    DivMod(x, size);
    DivMod(x + size, size);
    var a, b := x / size, (x + size) / size;
    Successor(a, size);
    if b > a + 1 {
      MulLe(a + 2, b, size);
      Successor(a + 1, size);
    } else if b < a + 1 {
      MulLe(b, a, size);
    }
  }

  lemma MulLe(a: nat, b: nat, size: nat)
    ensures a <= b ==> a * size <= b * size
  {
    if a <= b {
      assert b * size == a * size + (b - a) * size;
    }
  }

  /** Equal, aligned, consecutive subnets from the start of the block. */
  ghost predicate Tiles(base: nat, size: nat, bits: nat, list: seq<Subnet>)
    requires bits <= 32
  {
    && (forall i :: 0 <= i < |list| ==>
          && list[i] == Subnet(base + i * Pow2(bits), 32 - bits)
          && list[i].address % Pow2(bits) == 0
          && list[i].address + Pow2(bits) <= base + size)
    && (forall i :: 0 <= i < |list| - 1 ==> list[i + 1].address == list[i].address + Pow2(bits))
  }

  /** fnCidr behind cidr's argument checks, with the machine's 32-bit addition spelled out. */
  method FnCidr(block: IpBlock, count: int, bits: int) returns (r: Carved)
    requires block.Valid()
    ensures r.Subnets? <==>
              && block.V4? && count >= 1 && 0 <= bits <= 32
              && block.prefix <= 32 - bits && count <= Pow2(32 - bits - block.prefix)
    ensures r.Subnets? ==>
              && |r.list| == count
              && Tiles(Network(block.address, block.prefix), Pow2(32 - block.prefix), bits, r.list)
  {
    hide Pow2, Network;
    if count < 1 || bits < 0 || bits > 32 {
      return Finding;
    }
    if !block.V4? {
      return Finding;
    }
    var newMask := 32 - bits;
    if newMask < block.prefix {
      return Finding;
    }
    var maxSubnets := Pow2(newMask - block.prefix);
    if count > maxSubnets {
      return Finding;
    }
    var base := Network(block.address, block.prefix);
    var step := Pow2(bits);
    var out: seq<Subnet> := [];
    for i := 0 to count
      invariant |out| == i
      invariant Tiles(base, Pow2(32 - block.prefix), bits, out)
      invariant i > 0 ==> out[i - 1].address + step == base + i * step
    {
      SubnetFits(block.address, block.prefix, bits, i);
      var offset := (i * step) % Pow2(32);
      var address := (base + offset) % Pow2(32);
      Successor(i, step);
      out := out + [Subnet(address, newMask)];
    }
    return Subnets(out);
  }

  /** No addition wraps, and the subnet is aligned and inside the block. */
  lemma SubnetFits(address: nat, prefix: nat, bits: nat, i: nat)
    requires prefix <= 32 && bits <= 32 - prefix && address < Pow2(32) && i < Pow2(32 - bits - prefix)
    ensures var base, step := Network(address, prefix), Pow2(bits);
            && base + i * step + step <= base + Pow2(32 - prefix) <= Pow2(32)
            && (i * step) % Pow2(32) == i * step
            && (base + i * step) % Pow2(32) == base + i * step
            && (base + i * step) % step == 0
  {
    hide Pow2;
    var base, step, n := Network(address, prefix), Pow2(bits), Pow2(32 - bits - prefix);
    NetworkAligned(address, prefix);
    Pow2Sum(32 - bits - prefix, bits);
    assert n * step == Pow2(32 - prefix);
    MulLe(i + 1, n, step);
    Successor(i, step);
    var q := address / Pow2(32 - prefix);
    Regroup(q, n, step, i);
    MulMod(q * n + i, step);
    SmallMod(i * step, Pow2(32));
    SmallMod(base + i * step, Pow2(32));
  }

  lemma Regroup(q: nat, n: nat, step: nat, i: nat)
    ensures q * (n * step) + i * step == (q * n + i) * step
  {
  }

  lemma SmallMod(x: nat, size: nat)
    requires x < size
    ensures x % size == x
  {
  }

  /** Subnets are pairwise disjoint and ascending. */
  lemma {:induction false} TilesDisjoint(base: nat, size: nat, bits: nat, list: seq<Subnet>, i: nat, j: nat, x: nat)
    requires bits <= 32 && Tiles(base, size, bits, list) && i < j < |list|
    ensures list[i].address < list[j].address
    ensures !(Contains(list[i], x) && Contains(list[j], x))
  {
    hide Pow2;
    var step := Pow2(bits);
    MulLe(i + 1, j, step);
    Successor(i, step);
  }

  /** At the maximum count they cover the block exactly. */
  lemma TilesCover(base: nat, prefix: nat, bits: nat, list: seq<Subnet>, x: nat)
    requires prefix <= 32 && bits <= 32 - prefix
    requires Tiles(base, Pow2(32 - prefix), bits, list) && |list| == Pow2(32 - bits - prefix)
    ensures base <= x < base + Pow2(32 - prefix) <==> exists i :: 0 <= i < |list| && Contains(list[i], x)
  {
    hide Pow2;
    var step := Pow2(bits);
    Pow2Sum(32 - bits - prefix, bits);
    if base <= x < base + Pow2(32 - prefix) {
      var i := (x - base) / step;
      DivMod(x - base, step);
      MulLe(|list|, i, step);
      assert i < |list|;
      assert Contains(list[i], x);
    }
    if i :| 0 <= i < |list| && Contains(list[i], x) {
      assert list[i].address + step <= base + Pow2(32 - prefix);
      assert 0 <= i * step;
    }
  }
}
