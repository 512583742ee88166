/** The VPC's address plan: three groups of subnets, one subnet per availability zone in each, cut
    out of the VPC block with four extra prefix bits. */
module Subnets {
  import opened Base

  const NEW_BITS: nat := 4
  const GROUP_STRIDE: nat := 3

  /** An IPv4 block: addresses base up to base + 2^(32 - length) - 1. */
  datatype Cidr = Cidr(base: nat, length: nat)

  function Pow2(n: nat): (p: nat)
    ensures p >= 1
  {
    if n == 0 then 1 else 2 * Pow2(n - 1)
  }

  function Size(c: Cidr): nat
    requires c.length <= 32
  {
    Pow2(32 - c.length)
  }

  /** The largest multiple of n that is not above a. */
  function RoundDown(a: nat, n: nat): (r: nat)
    requires n > 0
    ensures r <= a < r + n
  {
    if a < n then 0 else n + RoundDown(a - n, n)
  }

  /** The network address: host bits of the given base are cleared. */
  function Network(c: Cidr): nat
    requires c.length <= 32
  {
    RoundDown(c.base, Size(c))
  }

  /** terraform's cidrsubnet: an error when the prefix gets too long or the number needs more bits. */
  function CidrSubnet(c: Cidr, bits: nat, number: nat): Option<Cidr>
    requires c.length <= 32
  {
    if c.length + bits > 32 || number >= Pow2(bits) then None
    else Some(Cidr(Network(c) + number * Pow2(32 - c.length - bits), c.length + bits))
  }

  /** One list of the plan; an error in any element is an error of the plan. */
  function Group(c: Cidr, azCount: nat, offset: nat): Option<seq<Cidr>>
    requires c.length <= 32
  {
    if azCount == 0 then Some([])
    else
      match (Group(c, azCount - 1, offset), CidrSubnet(c, NEW_BITS, azCount - 1 + offset))
      case (Some(before), Some(last)) => Some(before + [last])
      case _ => None
  }

  /** Public, private and intra subnets, in one list. */
  function Plan(c: Cidr, azCount: nat): Option<seq<Cidr>>
    requires c.length <= 32
  {
    match (Group(c, azCount, 0), Group(c, azCount, GROUP_STRIDE), Group(c, azCount, 2 * GROUP_STRIDE))
    case (Some(a), Some(b), Some(d)) => Some(a + b + d)
    case _ => None
  }

  predicate Inside(inner: Cidr, outer: Cidr)
    requires inner.length <= 32 && outer.length <= 32
  {
    Network(outer) <= inner.base && inner.base + Size(inner) <= Network(outer) + Size(outer)
  }

  predicate Apart(a: Cidr, b: Cidr)
    requires a.length <= 32 && b.length <= 32
  {
    a.base + Size(a) <= b.base || b.base + Size(b) <= a.base
  }

  /** Block k of the sixteen a VPC block divides into. */
  function Block(c: Cidr, k: nat): Cidr
    requires c.length <= 28
  {
    Cidr(Network(c) + k * Pow2(28 - c.length), c.length + NEW_BITS)
  }

  lemma Sixteenths(c: Cidr)
    requires c.length <= 28
    ensures Size(c) == 16 * Pow2(28 - c.length)
  {
    var n := 28 - c.length;
    assert Pow2(n + 4) == 2 * Pow2(n + 3) == 4 * Pow2(n + 2) == 8 * Pow2(n + 1) == 16 * Pow2(n);
  }

  lemma FourBits()
    ensures Pow2(NEW_BITS) == 16
  {
  }

  lemma {:induction false} TimesMonotone(a: nat, b: nat, n: nat)
    requires a < b
    ensures a * n + n <= b * n
  {
    if a + 1 < b {
      TimesMonotone(a, b - 1, n);
      assert (b - 1) * n + n == b * n;
    } else {
      assert (a + 1) * n == a * n + n;
    }
  }

  lemma BlockSize(c: Cidr, k: nat)
    requires c.length <= 28
    ensures Size(Block(c, k)) == Pow2(28 - c.length)
  {
  }

  lemma BlockInside(c: Cidr, k: nat)
    requires c.length <= 28 && k < 16
    ensures Inside(Block(c, k), c)
  {
    Sixteenths(c);
    BlockSize(c, k);
    TimesMonotone(k, 16, Pow2(28 - c.length));
  }

  lemma BlocksApart(c: Cidr, j: nat, k: nat)
    requires c.length <= 28
    ensures Apart(Block(c, j), Block(c, k)) <==> j != k
  {
    var n := Pow2(28 - c.length);
    assert Size(Block(c, j)) == n && Size(Block(c, k)) == n;
    if j < k {
      TimesMonotone(j, k, n);
    } else if k < j {
      TimesMonotone(k, j, n);
    }
  }

  lemma {:induction false} GroupIs(c: Cidr, azCount: nat, offset: nat)
    requires c.length <= 32
    ensures Group(c, azCount, offset).None? <==> azCount > 0 && (c.length > 28 || azCount - 1 + offset >= 16)
    ensures Group(c, azCount, offset).Some? ==>
              && |Group(c, azCount, offset).value| == azCount
              && (azCount > 0 ==> c.length <= 28)
              && forall i :: 0 <= i < azCount ==> Group(c, azCount, offset).value[i] == Block(c, i + offset)
  {
    FourBits();
    if azCount > 0 {
      GroupIs(c, azCount - 1, offset);
    }
  }

  ghost predicate Multiple(a: nat, n: nat) {
    exists q: nat :: a == q * n
  }

  lemma {:induction false} RoundDownMultiple(a: nat, n: nat)
    requires n > 0
    ensures Multiple(RoundDown(a, n), n)
  {
    if a < n {
      assert 0 == 0 * n;
    } else {
      RoundDownMultiple(a - n, n);
      var q: nat :| RoundDown(a - n, n) == q * n;
      assert n + RoundDown(a - n, n) == (q + 1) * n;
    }
  }

  lemma MultiplesClose(p: nat, q: nat, n: nat)
    requires p * n <= q * n < p * n + n
    ensures p * n == q * n
  {
    if p < q {
      TimesMonotone(p, q, n);
    } else if q < p {
      TimesMonotone(q, p, n);
    }
  }

  /** A block's own base is its network address exactly when it is a multiple of the block's size. */
  lemma NetworkIs(c: Cidr)
    requires c.length <= 32
    ensures Network(c) == c.base <==> Multiple(c.base, Pow2(32 - c.length))
  {
    var n, r := Pow2(32 - c.length), Network(c);
    RoundDownMultiple(c.base, n);
    if Multiple(c.base, n) {
      var q: nat :| c.base == q * n;
      var p: nat :| r == p * n;
      MultiplesClose(p, q, n);
    }
  }

  /** The plan fails exactly when the VPC prefix is longer than /28 or the last index needs a fifth
      bit, that is for more than ten zones. */
  lemma PlanFails(c: Cidr, azCount: nat)
    requires c.length <= 32
    ensures Plan(c, azCount) == None <==> azCount > 0 && (c.length > 28 || azCount > 10)
  {
    GroupIs(c, azCount, 0);
    GroupIs(c, azCount, GROUP_STRIDE);
    GroupIs(c, azCount, 2 * GROUP_STRIDE);
  }

  /** The index of the i-th subnet of the plan among the sixteen blocks. */
  function IndexOf(azCount: nat, i: nat): nat {
    if i < azCount then i
    else if i < 2 * azCount then i - azCount + GROUP_STRIDE
    else i - 2 * azCount + 2 * GROUP_STRIDE
  }

  lemma PlanIs(c: Cidr, azCount: nat, i: nat)
    requires c.length <= 28 && 0 < azCount <= 10 && i < 3 * azCount
    ensures Plan(c, azCount).Some? && |Plan(c, azCount).value| == 3 * azCount
    ensures IndexOf(azCount, i) < 16
    ensures Plan(c, azCount).value[i] == Block(c, IndexOf(azCount, i))
  {
    GroupIs(c, azCount, 0);
    GroupIs(c, azCount, GROUP_STRIDE);
    GroupIs(c, azCount, 2 * GROUP_STRIDE);
    Pick(Group(c, azCount, 0).value, Group(c, azCount, GROUP_STRIDE).value,
         Group(c, azCount, 2 * GROUP_STRIDE).value, i);
  }

  /** The k-th sixteenth of an aligned block. */
  function Nth(c: Cidr, k: nat): Cidr
    requires c.length <= 28
  {
    var offset: nat := k * Pow2(28 - c.length);
    Cidr(c.base + offset, c.length + 4)
  }

  lemma BlockAt(c: Cidr, k: nat)
    requires c.length <= 28 && Multiple(c.base, Pow2(32 - c.length))
    ensures Block(c, k) == Nth(c, k)
  {
    NetworkIs(c);
  }

  lemma PlanAt(c: Cidr, azCount: nat, i: nat)
    requires c.length <= 28 && 0 < azCount <= 10 && i < 3 * azCount && Multiple(c.base, Pow2(32 - c.length))
    ensures Plan(c, azCount).Some? && |Plan(c, azCount).value| == 3 * azCount
    ensures Plan(c, azCount).value[i] ==
            Nth(c, if i < azCount then i else if i < 2 * azCount then i - azCount + 3 else i - 2 * azCount + 6)
  {
    PlanIs(c, azCount, i);
    BlockAt(c, IndexOf(azCount, i));
  }

  /** Where each subnet of an aligned VPC lies: zone i's public, private and intra subnets are blocks i,
      i + 3 and i + 6 of the sixteen, each four bits longer in its prefix. */
  lemma PlanBlocks(c: Cidr, azCount: nat, i: nat)
    requires c.length <= 28 && i < azCount <= 10 && Multiple(c.base, Pow2(32 - c.length))
    ensures Plan(c, azCount).Some? && |Plan(c, azCount).value| == 3 * azCount
    ensures Plan(c, azCount).value[i] == Nth(c, i)
    ensures Plan(c, azCount).value[azCount + i] == Nth(c, i + 3)
    ensures Plan(c, azCount).value[2 * azCount + i] == Nth(c, i + 6)
  {
    PlanAt(c, azCount, i);
    PlanAt(c, azCount, azCount + i);
    PlanAt(c, azCount, 2 * azCount + i);
  }

  lemma Pick<T>(a: seq<T>, b: seq<T>, d: seq<T>, i: nat)
    requires i < |a + b + d|
    ensures (a + b + d)[i] == if i < |a| then a[i] else if i < |a| + |b| then b[i - |a|] else d[i - |a| - |b|]
  {
  }

  ghost predicate PairwiseApart(blocks: seq<Cidr>)
    requires forall i :: 0 <= i < |blocks| ==> blocks[i].length <= 32
  {
    forall i, j :: 0 <= i < j < |blocks| ==> Apart(blocks[i], blocks[j])
  }

  /** Whenever the plan exists all its subnets lie inside the VPC, and they are pairwise disjoint
      exactly for at most three zones, the stride of the groups. */
  lemma PlanLayout(c: Cidr, azCount: nat)
    requires c.length <= 28 && azCount <= 10
    ensures Plan(c, azCount).Some?
    ensures forall i :: 0 <= i < |Plan(c, azCount).value| ==>
              Plan(c, azCount).value[i].length <= 32 && Inside(Plan(c, azCount).value[i], c)
    ensures PairwiseApart(Plan(c, azCount).value) <==> azCount <= 3
  {
    PlanFails(c, azCount);
    var plan := Plan(c, azCount).value;
    if azCount == 0 {
      assert plan == [];
    } else {
      PlanIs(c, azCount, 0);
      forall i | 0 <= i < |plan|
        ensures plan[i] == Block(c, IndexOf(azCount, i)) && Inside(plan[i], c)
      {
        PlanIs(c, azCount, i);
        BlockInside(c, IndexOf(azCount, i));
      }
      if azCount <= 3 {
        forall i, j | 0 <= i < j < |plan|
          ensures Apart(plan[i], plan[j])
        {
          BlocksApart(c, IndexOf(azCount, i), IndexOf(azCount, j));
        }
      } else {
        // the fourth public subnet is the first private one
        assert IndexOf(azCount, 3) == 3;
        assert IndexOf(azCount, azCount) == 3;
        BlocksApart(c, 3, 3);
        assert !Apart(plan[3], plan[azCount]);
      }
    }
  }
}
