/** IPv4 networks as the `ipaddress` library sees them, and the block
    arithmetic of create_subnets (lambda/vpc_api.py, lines 129-146). */
module Ipv4 {
  import opened Python

  /** Bits in an IPv4 address: the library's `max_prefixlen`. */
  const AddressBits: nat := 32

  function Pow2(n: nat): (r: nat)
    ensures r > 0
  {
    if n == 0 then 1 else 2 * Pow2(n - 1)
  }

  type PrefixLen = p: nat | p <= AddressBits

  /** The network `base/prefix`, the base address as an unsigned 32-bit integer. */
  datatype Cidr = Cidr(base: nat, prefix: PrefixLen)

  /** `num_addresses`. */
  function NumAddresses(c: Cidr): nat {
    Pow2(AddressBits - c.prefix)
  }

  /** What `ip_network` accepts in its default strict mode: the block lies in
      the 32-bit address space and has no host bits set. */
  ghost predicate Valid(c: Cidr) {
    c.base + NumAddresses(c) <= Pow2(AddressBits) && c.base % NumAddresses(c) == 0
  }

  /** A network as `ip_network` returns it. */
  type Network = c: Cidr | Valid(c) witness Cidr(0, 32)

  ghost predicate InBlock(c: Cidr, a: nat) {
    c.base <= a < c.base + NumAddresses(c)
  }

  /** 2^e for any integer e, as the float arithmetic of line 135 sees it. */
  function Pow2Real(e: int): real
    decreases if e < 0 then -e else e
  {
    if e == 0 then 1.0
    else if e > 0 then 2.0 * Pow2Real(e - 1)
    else Pow2Real(e + 1) / 2.0
  }

  lemma {:induction false} Pow2RealOfNat(n: nat)
    ensures Pow2Real(n) == Pow2(n) as real
  {
    if n > 0 {
      Pow2RealOfNat(n - 1);
    }
  }

  /** The exponent of `subnet_num_addresses` (line 135). */
  function QuarterExponent(c: Cidr): int {
    (AddressBits - c.prefix) as int - 2
  }

  /** `original_num_addresses / 4` is a true division of a power of two by
      four: exactly 2^QuarterExponent, also when that is 0.5 or 0.25, so that
      `math.log2` at line 136 returns QuarterExponent with no rounding. */
  lemma QuarterIsExact(c: Cidr)
    ensures NumAddresses(c) as real / 4.0 == Pow2Real(QuarterExponent(c))
  {
    var n := AddressBits - c.prefix;
    Pow2RealOfNat(n);
    if n >= 2 {
      assert Pow2Real(n) == 4.0 * Pow2Real(n - 2);
    } else if n == 1 {
      assert Pow2Real(-1) == 0.5;
    } else {
      assert Pow2Real(-2) == 0.25;
    }
  }

  /** `subnet_prefix_len` (line 136). */
  function ChildPrefixLen(c: Cidr): int {
    AddressBits as int - QuarterExponent(c)
  }

  /** `prefix_len_diff` (line 137). */
  function PrefixLenDiff(c: Cidr): int {
    ChildPrefixLen(c) - c.prefix
  }

  /** The children are always two bits longer than the parent, so
      `prefix_len_diff` is 2 and the "too small" branch (line 140) is dead. */
  lemma PrefixLenDiffIsTwo(c: Cidr)
    ensures ChildPrefixLen(c) == c.prefix + 2
    ensures PrefixLenDiff(c) == 2
  {
  }

  /** `list(net.subnets(prefixlen_diff=diff))`: a /32 yields only itself; a
      negative difference, or one that would lengthen the prefix past 32
      bits, raises ValueError; otherwise the 2^diff blocks of prefix
      `prefix + diff` in address order. */
  function Subnets(c: Cidr, diff: int): Result<seq<Cidr>> {
    if c.prefix == AddressBits then Ok([c])
    else if diff < 0 then Raised(ValueError("prefix length diff must be > 0"))
    else if c.prefix + diff > AddressBits then Raised(ValueError("prefix length diff is invalid for netblock"))
    else
      var step := Pow2(AddressBits - c.prefix - diff);
      Ok(seq(Pow2(diff), i requires 0 <= i => Cidr(c.base + i * step, c.prefix + diff)))
  }

  /** `subnet_cidr_blocks` (lines 143-146): entries 0..3 of that list. */
  function QuarterBlocks(c: Cidr): Result<seq<Cidr>> {
    var all :- Subnets(c, PrefixLenDiff(c));
    if |all| < 4 then Raised(IndexError) else Ok(all[..4])
  }

  /** The four blocks exist exactly for parents of prefix 30 or shorter; a /31
      cannot be split two bits further (ValueError) and a /32 yields a
      one-element list, so index 1 fails (IndexError). */
  lemma QuarterBlocksOutcome(c: Cidr)
    ensures QuarterBlocks(c).Ok? <==> c.prefix <= 30
    ensures c.prefix == 31 ==> QuarterBlocks(c).Raised? && QuarterBlocks(c).fault.ValueError?
    ensures c.prefix == 32 ==> QuarterBlocks(c) == Raised(IndexError)
  {
    PrefixLenDiffIsTwo(c);
    assert Pow2(2) == 4;
  }

  /** Number of addresses in each of the four children of a /prefix. */
  function QuarterSize(c: Cidr): nat
    requires c.prefix <= 30
  {
    Pow2(30 - c.prefix)
  }

  lemma QuarterSizeTimesFour(c: Cidr)
    requires c.prefix <= 30
    ensures NumAddresses(c) == 4 * QuarterSize(c)
  {
    var q := 30 - c.prefix;
    assert AddressBits - c.prefix == q + 2;
    assert Pow2(q + 2) == 2 * Pow2(q + 1) == 4 * Pow2(q);
  }

  /** For a parent of prefix P <= 30: four children of prefix P + 2 with
      2^(30-P) addresses each, the i-th starting at base + i * 2^(30-P). */
  lemma QuarterBlocksLayout(c: Cidr)
    requires c.prefix <= 30
    ensures QuarterBlocks(c).Ok? && |QuarterBlocks(c).value| == 4
    ensures forall i :: 0 <= i < 4 ==>
              var b := QuarterBlocks(c).value[i];
              b.prefix == c.prefix + 2 && NumAddresses(b) == QuarterSize(c) &&
              b.base == c.base + i * QuarterSize(c)
  {
    QuarterBlocksOutcome(c);
    PrefixLenDiffIsTwo(c);
    assert AddressBits - c.prefix - 2 == 30 - c.prefix;
  }

  /** A multiple of q leaves no remainder. */
  lemma MultipleMod(m: nat, q: nat)
    requires q > 0
    ensures (m * q) % q == 0
  {
    var d, r := (m * q) / q, (m * q) % q;
    var t := m - d;
    assert t * q == r;
    assert (t - 1) * q == r - q;
  }

  /** Child i of an aligned parent starts at a multiple of its own size. */
  lemma ChildAligned(base: nat, q: nat, i: nat)
    requires q > 0 && base % (4 * q) == 0
    ensures (base + i * q) % q == 0
  {
    var k := base / (4 * q);
    assert base == k * (4 * q);
    assert base + i * q == (4 * k + i) * q;
    MultipleMod(4 * k + i, q);
  }

  /** Child i of an aligned block of 4q addresses that fits below `limit` is
      aligned to q and fits below `limit` too. */
  lemma ChildFits(base: nat, q: nat, i: nat, limit: nat)
    requires q > 0 && base % (4 * q) == 0 && base + 4 * q <= limit && i < 4
    ensures base + i * q + q <= limit && (base + i * q) % q == 0
  {
    ChildAligned(base, q, i);
    assert i * q + q <= 4 * q;
  }

  /** For a valid parent of prefix P <= 30 the four children are valid networks. */
  lemma QuarterBlocksValid(c: Network)
    requires c.prefix <= 30
    ensures QuarterBlocks(c).Ok? && |QuarterBlocks(c).value| == 4
    ensures forall i :: 0 <= i < 4 ==> Valid(QuarterBlocks(c).value[i])
  {
    QuarterBlocksLayout(c);
    QuarterSizeTimesFour(c);
    var bs := QuarterBlocks(c).value;
    var q := QuarterSize(c);
    forall i | 0 <= i < 4
      ensures Valid(bs[i])
    {
      ChildFits(c.base, q, i, Pow2(AddressBits));
    }
  }

  /** The four children of a parent of prefix P <= 30 lie inside it, are
      pairwise disjoint and together cover it exactly. */
  lemma QuarterBlocksPartition(c: Cidr)
    requires c.prefix <= 30
    ensures QuarterBlocks(c).Ok? && |QuarterBlocks(c).value| == 4
    ensures forall i, a :: 0 <= i < 4 && InBlock(QuarterBlocks(c).value[i], a) ==> InBlock(c, a)
    ensures forall i, j, a :: 0 <= i < j < 4 && InBlock(QuarterBlocks(c).value[i], a) ==>
              !InBlock(QuarterBlocks(c).value[j], a)
    ensures forall a :: InBlock(c, a) ==> exists i :: 0 <= i < 4 && InBlock(QuarterBlocks(c).value[i], a)
  {
    QuarterBlocksLayout(c);
    QuarterSizeTimesFour(c);
    var bs := QuarterBlocks(c).value;
    var q := QuarterSize(c);
    assert bs[0].base == c.base && bs[1].base == c.base + q;
    assert bs[2].base == c.base + 2 * q && bs[3].base == c.base + 3 * q;
    forall a: nat | InBlock(c, a)
      ensures exists i :: 0 <= i < 4 && InBlock(bs[i], a)
    {
      if a < c.base + q {
        assert InBlock(bs[0], a);
      } else if a < c.base + 2 * q {
        assert InBlock(bs[1], a);
      } else if a < c.base + 3 * q {
        assert InBlock(bs[2], a);
      } else {
        assert InBlock(bs[3], a);
      }
    }
  }
}
