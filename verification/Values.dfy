/** Coalition values: the additive calculator, under which grouping never matters, and the
    integer-partition bounds applied to the fitness of a coalition structure. */
module Values {
  import opened Agents
  import opened Draws
  import opened IntegerPartitions
  import opened PartitionBounds
  import opened Search
  import opened SetPartitions
  import opened Sums

  const CapabilityBonus: CapabilityAgent -> real := (a: CapabilityAgent) => |a.capabilities| as real * 10.0
  const Trust: CapabilityAgent -> real := (a: CapabilityAgent) => a.trust as real

  /** Size bonus, capability count and trust, summed; nothing for nobody. */
  function AdditiveValue(agents: seq<CapabilityAgent>): real {
    if agents == [] then 0.0
    else |agents| as real * 50.0 + Sum(CapabilityBonus, agents) + Sum(Trust, agents)
  }

  // ----- Sums over blocks are sums over agents -----

  function BlockSum(w: nat -> real): seq<nat> -> real {
    (blk: seq<nat>) => Sum(w, blk)
  }

  lemma {:induction false} OneMoreAgent(w: nat -> real, a: Assignment, x: nat, k: nat)
    ensures Sum(BlockSum(w), BlocksBelow(a + [x], k)) ==
            Sum(BlockSum(w), BlocksBelow(a, k)) + if x < k then w(|a|) else 0.0
  {
    hide Sum, Block, BlockSum;
    if k > 0 {
      OneMoreAgent(w, a, x, k - 1);
      LastBlock(w, a, k);
      LastBlock(w, a + [x], k);
      BlockGains(w, a, x, k - 1);
    }
  }

  lemma BlockGains(w: nat -> real, a: Assignment, x: nat, b: nat)
    ensures Sum(w, Block(a + [x], b)) == Sum(w, Block(a, b)) + if x == b then w(|a|) else 0.0
  {
    assert (a + [x])[..|a|] == a;
    assert Block(a, b) + [] == Block(a, b);
    if x == b {
      SumLast<nat>(w, Block(a, b), |a|);
    }
  }

  lemma LastBlock(w: nat -> real, a: Assignment, k: nat)
    requires k > 0
    ensures Sum(BlockSum(w), BlocksBelow(a, k)) ==
            Sum(BlockSum(w), BlocksBelow(a, k - 1)) + Sum(w, Block(a, k - 1))
  {
    hide Block;
    var blk := Block(a, k - 1);
    assert BlocksBelow(a, k - 1) + [] == BlocksBelow(a, k - 1);
    if blk != [] {
      SumLast<seq<nat>>(BlockSum(w), BlocksBelow(a, k - 1), blk);
    }
  }

  lemma {:induction false} NoBlocks(w: nat -> real, k: nat)
    ensures Sum(BlockSum(w), BlocksBelow([], k)) == 0.0
  {
    if k > 0 {
      NoBlocks(w, k - 1);
      assert BlocksBelow([], k) == BlocksBelow([], k - 1);
    }
  }

  lemma {:induction false} SumOverBlocksBelow(w: nat -> real, a: Assignment, k: nat)
    requires forall i :: 0 <= i < |a| ==> a[i] < k
    ensures Sum(BlockSum(w), BlocksBelow(a, k)) == Sum(w, Identity(|a|))
    decreases |a|
  {
    hide BlocksBelow, BlockSum;
    if a == [] {
      NoBlocks(w, k);
    } else {
      var init, x := a[..|a| - 1], a[|a| - 1];
      assert a == init + [x];
      SumOverBlocksBelow(w, init, k);
      OneMoreAgent(w, init, x, k);
      assert Identity(|a|) == Identity(|init|) + [|init|];
      SumLast<nat>(w, Identity(|init|), |init|);
    }
  }

  /** Summing over blocks and their members is summing over the agents. */
  lemma SumOverBlocks(w: nat -> real, a: Assignment)
    ensures Sum(BlockSum(w), Blocks(a)) == Sum(w, Identity(|a|))
  {
    SumOverBlocksBelow(w, a, NextId(a));
  }

  // ----- The additive calculator -----

  /** What the agent with index `i` adds to its block. */
  function Contribution(agents: seq<CapabilityAgent>): nat -> real {
    (i: nat) => if i < |agents| then 50.0 + CapabilityBonus(agents[i]) + Trust(agents[i]) else 0.0
  }

  lemma {:induction false} AdditiveBlock(agents: seq<CapabilityAgent>, blk: seq<nat>)
    requires forall i :: i in blk ==> i < |agents|
    ensures AdditiveValue(Views(agents, blk)) == Sum(Contribution(agents), blk)
  {
    if blk != [] {
      assert blk[0] in blk;
      var head, rest := agents[blk[0]], Views(agents, blk[1..]);
      forall i | i in blk[1..] ensures i < |agents| {
        assert i in blk;
      }
      AdditiveBlock(agents, blk[1..]);
      assert Views(agents, blk) == [head] + rest;
      AdditiveStep(head, rest);
    }
  }

  lemma AdditiveStep(head: CapabilityAgent, rest: seq<CapabilityAgent>)
    ensures AdditiveValue([head] + rest) ==
            50.0 + CapabilityBonus(head) + Trust(head) + AdditiveValue(rest)
  {
    assert ([head] + rest)[1..] == rest;
    assert |[head] + rest| as real == 1.0 + |rest| as real;
  }

  lemma SumAgrees(f: seq<nat> -> real, g: seq<nat> -> real, s: seq<seq<nat>>)
    requires forall x :: x in s ==> f(x) == g(x)
    ensures Sum(f, s) == Sum(g, s)
  {
    SumAtMost(f, g, s);
    SumAtMost(g, f, s);
  }

  lemma AdditiveFitness(agents: seq<CapabilityAgent>, a: Assignment)
    requires |a| == |agents|
    ensures Fitness(agents, AdditiveValue, a) == Sum(Contribution(agents), Identity(|agents|))
  {
    forall blk | blk in Blocks(a)
      ensures BlockValue(agents, AdditiveValue)(blk) == BlockSum(Contribution(agents))(blk)
    {
      BlocksPartitionAgents(a, blk);
      AdditiveBlock(agents, blk);
    }
    SumAgrees(BlockValue(agents, AdditiveValue), BlockSum(Contribution(agents)), Blocks(a));
    SumOverBlocks(Contribution(agents), a);
  }

  /** Under the additive calculator every structure of a pool is worth the same. */
  lemma AdditiveIsConstant(agents: seq<CapabilityAgent>, a: Assignment, b: Assignment)
    requires |a| == |b| == |agents|
    ensures Fitness(agents, AdditiveValue, a) == Fitness(agents, AdditiveValue, b)
  {
    AdditiveFitness(agents, a);
    AdditiveFitness(agents, b);
  }

  lemma ConstantLineage(sw: Swarm, agents: seq<CapabilityAgent>)
    requires LineageHolds(sw, agents, AdditiveValue)
    ensures |sw.lineage| == 1
  {
    hide Fitness, IsCanonical, Seen;
    if |sw.lineage| > 1 {
      AdditiveIsConstant(agents, sw.lineage[0].assignment, sw.lineage[1].assignment);
    }
  }

  /** So a search under it never improves on its first global best. */
  lemma AdditiveSearchHasOneEpoch(agents: seq<CapabilityAgent>, cfg: Config)
    ensures |Result(agents, AdditiveValue, cfg).lineage| == 1
  {
    hide Final, BestsHold, LineageHolds;
    SearchHolds(agents, AdditiveValue, cfg);
    ConstantLineage(Final(agents, AdditiveValue, cfg), agents);
  }

  // ----- The bounds and the fitness -----

  const One: nat -> real := (i: nat) => 1.0

  lemma {:induction false} TotalOfSizes(blocks: seq<seq<nat>>)
    ensures Total(Map(Length, blocks)) as real == Sum(BlockSum(One), blocks)
  {
    if blocks != [] {
      TotalOfSizes(blocks[1..]);
      assert Map(Length, blocks)[1..] == Map(Length, blocks[1..]);
      SumOfOnes(blocks[0]);
    }
  }

  lemma {:induction false} SumOfOnes(blk: seq<nat>)
    ensures Sum(One, blk) == |blk| as real
  {
    if blk != [] {
      SumOfOnes(blk[1..]);
    }
  }

  /** The block sizes of an assignment add up to the number of agents. */
  lemma SizesTotal(a: Assignment)
    ensures Total(BlockSizes(a)) == |a|
  {
    TotalOfSizes(Blocks(a));
    SumOverBlocks(One, a);
    SumOfOnes(Identity(|a|));
  }

  /** The bounds are sound for the search: when the buckets hold the value of every block of
      the structure at its size, the fitness lies between the minimum and the upper bound of
      the structure's shape, and at most at the best partition's upper bound. */
  lemma FitnessWithinBounds<A>(agents: seq<A>, worth: seq<A> -> real, a: Assignment, values: Buckets)
    requires forall blk :: blk in Blocks(a) ==>
               |blk| in values && worth(Views(agents, blk)) in values[|blk|]
    ensures var shape := Shape(BlockSizes(a));
            IsPartition(shape, |a|) && multiset(shape) == multiset(BlockSizes(a)) &&
            MinBound(shape, values) <= Fitness(agents, worth, a) <= UpperBound(shape, values) &&
            FindBestPartition(|a|, values).Some? &&
            UpperBound(shape, values) <= FindBestPartition(|a|, values).value.upper
  {
    hide Blocks, FindBestPartition, Views;
    SizesTotal(a);
    ShapeSorts(BlockSizes(a));
    forall blk | blk in Blocks(a) ensures Length(blk) > 0 {
      BlocksPartitionAgents(a, blk);
    }
    StructureWithinBounds(Blocks(a), Length, BlockValue(agents, worth), |a|, values);
  }
}
