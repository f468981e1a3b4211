/** The particle swarm over coalition structures: seeding from integer-partition shapes,
    the velocity step, and the improvement lineage of the global best. */
module Search {
  import opened Draws
  import opened IntegerPartitions
  import opened SetPartitions
  import opened Sums
  import opened Words

  datatype Structure = Structure(assignment: Assignment, fitness: real)

  datatype Config = Config(population: nat, iterations: nat, pGbest: real, pPbest: real, seed: U64)

  datatype Outcome = Outcome(best: Structure, lineage: seq<Structure>, iterationsRun: nat)

  datatype Particle = Particle(current: Assignment, pbest: Structure)

  // ----- Fitness -----

  /** The value a calculator gives the agents of a block; it sees their views only. */
  function BlockValue<A>(agents: seq<A>, worth: seq<A> -> real): seq<nat> -> real {
    (blk: seq<nat>) => worth(Views(agents, blk))
  }

  function Views<A>(agents: seq<A>, blk: seq<nat>): seq<A> {
    if blk == [] then []
    else (if blk[0] < |agents| then [agents[blk[0]]] else []) + Views(agents, blk[1..])
  }

  function Fitness<A>(agents: seq<A>, worth: seq<A> -> real, a: Assignment): real {
    Sum(BlockValue(agents, worth), Blocks(a))
  }

  // ----- Seeding -----

  /** The cut of a permutation into consecutive blocks of the shape's sizes. */
  function CutAlong(perm: seq<nat>, shape: Partition): (a: Assignment)
    requires Total(shape) == |perm|
    ensures |a| == |perm|
  {
    seq(|perm|, (i: nat) => if Find(perm, i) < |perm| then CutLabels(shape, 0)[Find(perm, i)] else 0)
  }

  lemma CutAlongIsCut(perm: seq<nat>, shape: Partition, a: Assignment)
    requires Total(shape) == |perm| && multiset(perm) == multiset(Identity(|perm|))
    ensures IsCut(CutAlong(perm, shape), perm, shape)
    ensures IsCut(a, perm, shape) ==> a == CutAlong(perm, shape)
  {
    PermutationOfIdentity(|perm|, perm);
    forall pos | 0 <= pos < |perm| ensures Find(perm, perm[pos]) == pos {
      var j := Find(perm, perm[pos]);
      assert perm[j] == perm[pos];
    }
    if IsCut(a, perm, shape) {
      forall i | 0 <= i < |a| ensures a[i] == CutAlong(perm, shape)[i] {
        assert i in perm;
        assert a[perm[Find(perm, i)]] == CutLabels(shape, 0)[Find(perm, i)];
      }
    }
  }

  /** The permutation a stream in state `s` draws. */
  ghost function DrawnPermutation(s: U64, n: nat): (perm: seq<nat>)
    ensures |perm| == n && multiset(perm) == multiset(Identity(n))
  {
    if n == 0 then [] else Shuffle(Identity(n), DrawnPicks(s, n - 1))
  }

  /** The first `count` seeds and the state they leave the stream in: particle `p` cuts a
      fresh permutation by the shape `p mod |shapes|` and relabels it. */
  ghost function Seeds(n: nat, count: nat, s: U64): (r: (seq<Assignment>, U64))
    ensures |r.0| == count
    ensures forall p :: 0 <= p < count ==> |r.0[p]| == n
  {
    if count == 0 then ([], s)
    else
      var (before, t) := Seeds(n, count - 1, s);
      (before + [SeedOf(n, count - 1, t)], StateAfter(t, if n == 0 then 0 else n - 1))
  }

  ghost function ShapeOf(n: nat, p: nat): (shape: Partition)
    ensures IsPartition(shape, n)
  {
    PartitionsExist(n);
    var shapes := Generated(n);
    var shape := shapes[p % |shapes|];
    assert shape in shapes;
    EnumerationIsExact(n);
    shape
  }

  ghost function SeedOf(n: nat, p: nat, s: U64): (a: Assignment)
    ensures |a| == n
  {
    Canonical(CutAlong(DrawnPermutation(s, n), ShapeOf(n, p)))
  }

  lemma SeedRealises(n: nat, p: nat, s: U64)
    ensures IsCanonical(SeedOf(n, p, s))
    ensures multiset(BlockSizes(SeedOf(n, p, s))) == multiset(ShapeOf(n, p))
  {
    hide CutAlong, Canonical, DrawnPermutation, ShapeOf, BlockSizes, IsCut;
    var perm, shape := DrawnPermutation(s, n), ShapeOf(n, p);
    CutAlongIsCut(perm, shape, []);
    CutSized(perm, shape);
    SeedRealisesShape(CutAlong(perm, shape), perm, shape);
  }

  lemma CutSized(perm: seq<nat>, shape: Partition)
    requires Total(shape) == |perm|
    ensures |CutAlong(perm, shape)| == |perm|
  {
  }

  /** Every seeded particle is a canonical set-partition of the pool whose block sizes are,
      as a multiset, the parts of the particle's shape. */
  lemma {:induction false} SeedsRealiseShapes(n: nat, count: nat, s: U64, p: nat)
    requires p < count
    ensures var a := Seeds(n, count, s).0[p];
            IsCanonical(a) && multiset(BlockSizes(a)) == multiset(ShapeOf(n, p))
    decreases count
  {
    hide SeedOf, StateAfter, IsCanonical, BlockSizes, ShapeOf;
    var (before, t) := Seeds(n, count - 1, s);
    if p == count - 1 {
      SeedRealises(n, p, t);
      assert Seeds(n, count, s).0[p] == SeedOf(n, p, t);
    } else {
      SeedsRealiseShapes(n, count - 1, s, p);
      assert Seeds(n, count, s).0[p] == before[p];
    }
  }

  /** The outputs `p` seeds draw. */
  function OutputsOf(n: nat, p: nat): nat {
    if n == 0 then 0 else p * (n - 1)
  }

  /** Seed `p` is drawn where the seeds before it left the stream, each having drawn `n - 1`
      outputs. */
  lemma {:induction false} SeedsInTurn(n: nat, count: nat, s: U64, p: nat)
    ensures Seeds(n, count, s).1 == StateAfter(s, OutputsOf(n, count))
    ensures p < count ==> Seeds(n, count, s).0[p] == SeedOf(n, p, StateAfter(s, OutputsOf(n, p)))
  {
    hide SeedOf, StateAfter, Seeds, OutputsOf;
    SeedsStep(n, count, s);
    OutputsStep(n, count);
    if count == 0 {
      NothingStepped(s);
    } else {
      SeedsInTurn(n, count - 1, s, p);
      StepsAdd(s, OutputsOf(n, count - 1), if n == 0 then 0 else n - 1);
    }
  }

  lemma SeedsStep(n: nat, count: nat, s: U64)
    ensures count == 0 ==> Seeds(n, count, s) == ([], s)
    ensures count > 0 ==>
              var before, now := Seeds(n, count - 1, s), Seeds(n, count, s);
              now.0 == before.0 + [SeedOf(n, count - 1, before.1)] &&
              now.1 == StateAfter(before.1, if n == 0 then 0 else n - 1)
  {
    hide SeedOf, StateAfter;
  }

  lemma OutputsStep(n: nat, count: nat)
    ensures OutputsOf(n, 0) == 0
    ensures count > 0 ==> OutputsOf(n, count) == OutputsOf(n, count - 1) + if n == 0 then 0 else n - 1
  {
  }

  lemma NothingStepped(s: U64)
    ensures StateAfter(s, 0) == s
  {
  }

  /** A seed: the shape is the enumeration's, cyclically, and the permutation it cuts is the
      shuffle by picks that are the stream's next outputs. */
  lemma SeedIsDrawn(n: nat, p: nat, s: U64) returns (perm: seq<nat>, picks: seq<nat>, cut: Assignment)
    requires n > 0
    ensures |picks| == n - 1 && ValidPicks(picks) && perm == Shuffle(Identity(n), picks)
    ensures forall k :: 0 <= k < n - 1 ==> picks[k] == Output(s, k) % (n - k)
    ensures |Generated(n)| > 0 && IsPartition(Generated(n)[p % |Generated(n)|], n)
    ensures IsCut(cut, perm, Generated(n)[p % |Generated(n)|]) && SeedOf(n, p, s) == Canonical(cut)
  {
    hide CutAlong, Canonical, Output, IsCut, Shuffle;
    picks := DrawnPicks(s, n - 1);
    forall k | 0 <= k < n - 1 ensures picks[k] == Output(s, k) % (n - k) {
      PicksAreOutputs(s, n - 1, k);
    }
    perm := DrawnPermutation(s, n);
    cut := CutAlong(perm, ShapeOf(n, p));
    CutAlongIsCut(perm, ShapeOf(n, p), []);
    PartitionsExist(n);
  }

  /** A population as large as the number of shapes has a seed of every shape. */
  lemma EveryShapeIsSeeded(n: nat, count: nat, s: U64, shape: Partition) returns (p: nat)
    requires IsPartition(shape, n) && count >= |Generated(n)|
    ensures p < count && multiset(BlockSizes(Seeds(n, count, s).0[p])) == multiset(shape)
  {
    hide Seeds, BlockSizes, IsCanonical;
    EnumerationIsExact(n);
    p :| 0 <= p < |Generated(n)| && Generated(n)[p] == shape;
    SeedsRealiseShapes(n, count, s, p);
    assert p % |Generated(n)| == p;
  }

  method SeedAssignments(n: nat, population: nat, rng: SplitMix64) returns (seeds: seq<Assignment>)
    modifies rng
    ensures (seeds, rng.state) == Seeds(n, population, old(rng.state))
  {
    hide CutAlong, Canonical, StateAfter, DrawnPermutation;
    var shapes := GenerateIntegerPartitions(n);
    PartitionsExist(n);
    seeds := [];
    for p := 0 to population
      invariant (seeds, rng.state) == Seeds(n, p, old(rng.state))
    {
      var shape := shapes[p % |shapes|];
      assert shape == ShapeOf(n, p);
      var a := SeedAssignment(n, shape, rng);
      seeds := seeds + [a];
    }
  }

  method SeedAssignment(n: nat, shape: Partition, rng: SplitMix64) returns (seed: Assignment)
    requires Total(shape) == n
    modifies rng
    ensures seed == Canonical(CutAlong(DrawnPermutation(old(rng.state), n), shape))
    ensures rng.state == StateAfter(old(rng.state), if n == 0 then 0 else n - 1)
  {
    hide CutAlong, Canonical, StateAfter, Shuffle, DrawnPicks, Total;
    var perm := Permutation(rng, n);
    var cut := Cut(perm, shape);
    var a := new nat[n](i requires 0 <= i < n => cut[i]);
    assert a[..] == cut;
    Canonicalize(a);
    seed := a[..];
  }

  /** Walks the shape block by block, labelling the next positions of the permutation. */
  method Cut(perm: seq<nat>, shape: Partition) returns (a: Assignment)
    requires Total(shape) == |perm| && multiset(perm) == multiset(Identity(|perm|))
    ensures a == CutAlong(perm, shape)
  {
    hide Find, CutAlong, CutLabels;
    PermutationOfIdentity(|perm|, perm);
    ghost var labels := CutLabels(shape, 0);
    a := seq(|perm|, _ => 0);
    var pos := 0;
    for b := 0 to |shape|
      invariant pos + Total(shape[b..]) == |perm| && labels[pos..] == CutLabels(shape[b..], b)
      invariant |a| == |perm| && forall q :: 0 <= q < pos ==> a[perm[q]] == labels[q]
    {
      CutLabelsStep(shape, b);
      ghost var start := pos;
      for k := 0 to shape[b]
        invariant pos == start + k
        invariant |a| == |perm| && forall q :: 0 <= q < pos ==> a[perm[q]] == labels[q]
      {
        assert labels[pos] == labels[start..][k] == b;
        a := a[perm[pos] := b];
        pos := pos + 1;
      }
      assert labels[pos..] == labels[start..][shape[b]..];
    }
    CutAlongIsCut(perm, shape, a);
  }

  lemma CutLabelsStep(shape: Partition, b: nat)
    requires b < |shape|
    ensures Total(shape[b..]) == shape[b] + Total(shape[b + 1..])
    ensures CutLabels(shape[b..], b) == Repeat(b, shape[b]) + CutLabels(shape[b + 1..], b + 1)
  {
    assert shape[b..][1..] == shape[b + 1..];
  }

  // ----- The swarm -----

  /** The swarm between two moves. `evaluated` lists every assignment whose fitness was ever
      computed, with the particle it was computed for. */
  datatype Swarm = Swarm(particles: seq<Particle>, gbest: Structure, lineage: seq<Structure>,
                         rng: U64, evaluated: seq<(nat, Assignment)>)

  ghost predicate Sized(sw: Swarm, n: nat) {
    sw.particles != [] && |sw.gbest.assignment| == n &&
    forall k :: 0 <= k < |sw.particles| ==>
      |sw.particles[k].current| == n && |sw.particles[k].pbest.assignment| == n
  }

  function Evaluated<A>(agents: seq<A>, worth: seq<A> -> real, a: Assignment): Structure {
    Structure(a, Fitness(agents, worth, a))
  }

  /** The first of the personal bests that is largest. */
  function FirstBest(ps: seq<Particle>): Structure
    requires ps != []
  {
    if |ps| == 1 then ps[0].pbest
    else
      var best, last := FirstBest(ps[..|ps| - 1]), ps[|ps| - 1].pbest;
      if last.fitness > best.fitness then last else best
  }

  /** The swarm on a seeded population: each particle is its own best. */
  function SwarmOf<A>(seeds: seq<Assignment>, s: U64, agents: seq<A>, worth: seq<A> -> real): (sw: Swarm)
    requires seeds != []
    ensures |sw.particles| == |sw.evaluated| == |seeds|
  {
    var particles := Map(a => Particle(a, Evaluated(agents, worth, a)), seeds);
    var gbest := FirstBest(particles);
    Swarm(particles, gbest, [gbest], s, seq(|seeds|, k requires 0 <= k < |seeds| => (k, seeds[k])))
  }

  ghost function Start<A>(agents: seq<A>, worth: seq<A> -> real, cfg: Config): (sw: Swarm)
    ensures |sw.particles| == |sw.evaluated| == Population(cfg)
  {
    var seeded := Seeds(|agents|, Population(cfg), cfg.seed);
    SwarmOf(seeded.0, seeded.1, agents, worth)
  }

  /** A population of zero is raised to one. */
  function Population(cfg: Config): nat {
    if cfg.population == 0 then 1 else cfg.population
  }

  /** The ids drawn for agents `0..i` and the state left behind: the global best's with
      probability `pGbest`, else the personal best's with `pPbest`, else a random id up to
      one past the largest in use. */
  ghost function Velocity(i: nat, s: U64, p: Particle, gbest: Structure, cfg: Config): (r: (Assignment, U64))
    requires i <= |gbest.assignment| && i <= |p.pbest.assignment|
    ensures |r.0| == i
  {
    if i == 0 then ([], s)
    else
      var (before, t) := Velocity(i - 1, s, p, gbest, cfg);
      var t1 := Advance(t);
      var r := Unit(Mix(t1));
      if r < cfg.pGbest then (before + [gbest.assignment[i - 1]], t1)
      else if r < cfg.pGbest + cfg.pPbest then (before + [p.pbest.assignment[i - 1]], t1)
      else (before + [Mix(Advance(t1)) % (MaxId(p.current) + 2)], Advance(t1))
  }

  /** One agent's id in a move, from output number `from` of a stream in state `s` on: that
      output steers, and with neither pull the next one is the id, up to one past the largest. */
  ghost predicate Drawn(id: nat, s: U64, from: nat, to: nat, ownId: nat, bestId: nat, largest: nat, cfg: Config) {
    var r := Unit(Output(s, from));
    (r < cfg.pGbest ==> id == bestId && to == from + 1) &&
    (cfg.pGbest <= r < cfg.pGbest + cfg.pPbest ==> id == ownId && to == from + 1) &&
    (r >= cfg.pGbest && r >= cfg.pGbest + cfg.pPbest ==> id == Output(s, from + 1) % (largest + 2) && to == from + 2)
  }

  /** A move's ids: agent `i`'s output is number `at[i]`, and `at[n]` outputs are used in all. */
  ghost predicate IsMove(ids: Assignment, at: seq<nat>, s: U64, own: Assignment, best: Assignment, largest: nat,
                         cfg: Config)
  {
    |at| == |ids| + 1 && |ids| <= |own| && |ids| <= |best| && at[0] == 0 &&
    forall i :: 0 <= i < |ids| ==> Drawn(ids[i], s, at[i], at[i + 1], own[i], best[i], largest, cfg)
  }

  ghost predicate IsLargest(largest: nat, a: Assignment) {
    (forall i :: 0 <= i < |a| ==> a[i] <= largest) && (a == [] ==> largest == 0) && (a != [] ==> largest in a)
  }

  lemma OneMoreDraw(ids: Assignment, at: seq<nat>, s: U64, own: Assignment, best: Assignment, largest: nat,
                    cfg: Config, id: nat, to: nat)
    requires IsMove(ids, at, s, own, best, largest, cfg) && |ids| < |own| && |ids| < |best|
    requires Drawn(id, s, at[|ids|], to, own[|ids|], best[|ids|], largest, cfg)
    ensures IsMove(ids + [id], at + [to], s, own, best, largest, cfg)
  {
    hide Drawn;
  }

  /** The velocity step in terms of the stream's outputs. */
  lemma {:induction false} VelocityIsMove(i: nat, s: U64, p: Particle, gbest: Structure, cfg: Config)
    returns (at: seq<nat>)
    requires i <= |gbest.assignment| && i <= |p.pbest.assignment|
    ensures var v := Velocity(i, s, p, gbest, cfg);
            IsMove(v.0, at, s, p.pbest.assignment, gbest.assignment, MaxId(p.current), cfg) &&
            v.1 == StateAfter(s, at[i])
  {
    hide Mix, Advance, StateAfter, Unit, MaxId, IsMove, Drawn;
    if i == 0 {
      at := [0];
      NothingMoved(s, p.pbest.assignment, gbest.assignment, MaxId(p.current), cfg);
    } else {
      at := VelocityIsMove(i - 1, s, p, gbest, cfg);
      var before := Velocity(i - 1, s, p, gbest, cfg);
      MoveSize(before.0, at, s, p.pbest.assignment, gbest.assignment, MaxId(p.current), cfg);
      var from := at[i - 1];
      AfterOutputs(s, from);
      var r := Unit(Output(s, from));
      var to := if r < cfg.pGbest || r < cfg.pGbest + cfg.pPbest then from + 1 else from + 2;
      var id := Velocity(i, s, p, gbest, cfg).0[i - 1];
      IdIsDrawn(id, s, from, to, p.pbest.assignment[i - 1], gbest.assignment[i - 1], MaxId(p.current), cfg);
      OneMoreDraw(before.0, at, s, p.pbest.assignment, gbest.assignment, MaxId(p.current), cfg, id, to);
      at := at + [to];
    }
  }

  lemma IdIsDrawn(id: nat, s: U64, from: nat, to: nat, ownId: nat, bestId: nat, largest: nat, cfg: Config)
    requires var r := Unit(Output(s, from));
             if r < cfg.pGbest then id == bestId && to == from + 1
             else if r < cfg.pGbest + cfg.pPbest then id == ownId && to == from + 1
             else id == Output(s, from + 1) % (largest + 2) && to == from + 2
    ensures Drawn(id, s, from, to, ownId, bestId, largest, cfg)
  {
    hide Unit, Output;
  }

  lemma NothingMoved(s: U64, own: Assignment, best: Assignment, largest: nat, cfg: Config)
    ensures IsMove([], [0], s, own, best, largest, cfg) && StateAfter(s, 0) == s
  {
  }

  lemma MoveSize(ids: Assignment, at: seq<nat>, s: U64, own: Assignment, best: Assignment, largest: nat, cfg: Config)
    requires IsMove(ids, at, s, own, best, largest, cfg)
    ensures |at| == |ids| + 1
  {
  }

  lemma AfterOutputs(s: U64, from: nat)
    ensures var t := StateAfter(s, from);
            Advance(t) == StateAfter(s, from + 1) && Mix(Advance(t)) == Output(s, from) &&
            Advance(Advance(t)) == StateAfter(s, from + 2) && Mix(Advance(Advance(t))) == Output(s, from + 1)
  {
    hide Mix, Advance;
  }

  /** Particle `k` moves: new position, then personal best, then global best and lineage. */
  ghost function Move<A>(sw: Swarm, k: nat, agents: seq<A>, worth: seq<A> -> real, cfg: Config): (r: Swarm)
    requires Sized(sw, |agents|) && k < |sw.particles|
    ensures Sized(r, |agents|) && |r.particles| == |sw.particles|
  {
    var p := sw.particles[k];
    var (drawn, t) := Velocity(|agents|, sw.rng, p, sw.gbest, cfg);
    var next := Evaluated(agents, worth, Canonical(drawn));
    Settle(sw, k, next, t)
  }

  /** The bookkeeping of one evaluated position. */
  ghost function Settle(sw: Swarm, k: nat, next: Structure, t: U64): (r: Swarm)
    requires k < |sw.particles|
    ensures |r.particles| == |sw.particles|
  {
    var p := sw.particles[k];
    var pbest := if next.fitness > p.pbest.fitness then next else p.pbest;
    Swarm(sw.particles[k := Particle(next.assignment, pbest)],
          if next.fitness > sw.gbest.fitness then next else sw.gbest,
          if next.fitness > sw.gbest.fitness then sw.lineage + [next] else sw.lineage,
          t,
          sw.evaluated + [(k, next.assignment)])
  }

  ghost function Sweep<A>(sw: Swarm, k: nat, agents: seq<A>, worth: seq<A> -> real, cfg: Config): (r: Swarm)
    requires Sized(sw, |agents|) && k <= |sw.particles|
    ensures Sized(r, |agents|) && |r.particles| == |sw.particles|
  {
    if k == 0 then sw
    else Move(Sweep(sw, k - 1, agents, worth, cfg), k - 1, agents, worth, cfg)
  }

  ghost function Iterate<A>(sw: Swarm, m: nat, agents: seq<A>, worth: seq<A> -> real, cfg: Config): (r: Swarm)
    requires Sized(sw, |agents|)
    ensures Sized(r, |agents|) && |r.particles| == |sw.particles|
  {
    if m == 0 then sw
    else Sweep(Iterate(sw, m - 1, agents, worth, cfg), |sw.particles|, agents, worth, cfg)
  }

  lemma {:induction false} FirstBestIsBest(ps: seq<Particle>) returns (k: nat)
    requires ps != []
    ensures k < |ps| && FirstBest(ps) == ps[k].pbest
    ensures forall i :: 0 <= i < |ps| ==> ps[i].pbest.fitness <= ps[k].pbest.fitness
    ensures forall i :: 0 <= i < k ==> ps[i].pbest.fitness < ps[k].pbest.fitness
    decreases |ps|
  {
    if |ps| == 1 {
      k := 0;
    } else {
      var init := ps[..|ps| - 1];
      k := FirstBestIsBest(init);
      assert forall i :: 0 <= i < |init| ==> ps[i] == init[i];
      if ps[|ps| - 1].pbest.fitness > init[k].pbest.fitness {
        k := |ps| - 1;
      }
    }
  }

  lemma StartIsSized<A>(agents: seq<A>, worth: seq<A> -> real, cfg: Config)
    ensures Sized(Start(agents, worth, cfg), |agents|)
  {
    hide Fitness, Seeds, FirstBest;
    var sw := Start(agents, worth, cfg);
    var _ := FirstBestIsBest(sw.particles);
  }

  /** The swarm when the search of a non-empty pool ends. */
  ghost function Final<A>(agents: seq<A>, worth: seq<A> -> real, cfg: Config): Swarm {
    StartIsSized(agents, worth, cfg);
    Iterate(Start(agents, worth, cfg), cfg.iterations, agents, worth, cfg)
  }

  ghost function Result<A>(agents: seq<A>, worth: seq<A> -> real, cfg: Config): Outcome {
    if agents == [] then
      Outcome(Structure([], 0.0), [Structure([], 0.0)], 0)
    else
      var sw := Final(agents, worth, cfg);
      Outcome(sw.gbest, sw.lineage, cfg.iterations)
  }

  // ----- What holds in every run -----

  ghost predicate Good<A>(x: Structure, agents: seq<A>, worth: seq<A> -> real) {
    |x.assignment| == |agents| && IsCanonical(x.assignment) &&
    x.fitness == Fitness(agents, worth, x.assignment)
  }

  ghost predicate Seen(sw: Swarm, a: Assignment) {
    exists e :: e in sw.evaluated && e.1 == a
  }

  /** Every stored structure is a canonical assignment of the pool with its true fitness;
      each personal best is the best position its particle ever took; the global best
      dominates them and is one of the positions taken. */
  ghost predicate BestsHold<A>(sw: Swarm, agents: seq<A>, worth: seq<A> -> real) {
    Sized(sw, |agents|) &&
    Good(sw.gbest, agents, worth) && Seen(sw, sw.gbest.assignment) &&
    (forall k :: 0 <= k < |sw.particles| ==>
       var p := sw.particles[k];
       Good(p.pbest, agents, worth) && p.pbest.fitness <= sw.gbest.fitness &&
       IsCanonical(p.current) && (k, p.current) in sw.evaluated && (k, p.pbest.assignment) in sw.evaluated) &&
    forall e :: e in sw.evaluated ==>
      |e.1| == |agents| && IsCanonical(e.1) && e.0 < |sw.particles| &&
      Fitness(agents, worth, e.1) <= sw.particles[e.0].pbest.fitness
  }

  /** The lineage ends in the global best and strictly improves through positions taken. */
  ghost predicate LineageHolds<A>(sw: Swarm, agents: seq<A>, worth: seq<A> -> real) {
    sw.lineage != [] && sw.lineage[|sw.lineage| - 1] == sw.gbest &&
    (forall i, j :: 0 <= i < j < |sw.lineage| ==> sw.lineage[i].fitness < sw.lineage[j].fitness) &&
    forall i :: 0 <= i < |sw.lineage| ==>
      Good(sw.lineage[i], agents, worth) && Seen(sw, sw.lineage[i].assignment)
  }

  lemma StartHolds<A>(agents: seq<A>, worth: seq<A> -> real, cfg: Config)
    ensures var sw := Start(agents, worth, cfg);
            BestsHold(sw, agents, worth) && LineageHolds(sw, agents, worth)
  {
    hide Seeds, IsCanonical, SwarmOf;
    SeedsAreCanonical(|agents|, Population(cfg), cfg.seed);
    var seeded := Seeds(|agents|, Population(cfg), cfg.seed);
    SeededHolds(seeded.0, seeded.1, agents, worth);
  }

  lemma SeededHolds<A>(seeds: seq<Assignment>, s: U64, agents: seq<A>, worth: seq<A> -> real)
    requires seeds != []
    requires forall p :: 0 <= p < |seeds| ==> IsCanonical(seeds[p]) && |seeds[p]| == |agents|
    ensures var sw := SwarmOf(seeds, s, agents, worth);
            BestsHold(sw, agents, worth) && LineageHolds(sw, agents, worth)
  {
    hide Fitness, IsCanonical, FirstBest;
    var sw := SwarmOf(seeds, s, agents, worth);
    var best := FirstBestIsBest(sw.particles);
    forall k | 0 <= k < |seeds|
      ensures (k, sw.particles[k].current) in sw.evaluated && sw.particles[k].pbest.assignment == seeds[k]
    {
      assert sw.evaluated[k] == (k, seeds[k]);
    }
    assert (best, sw.gbest.assignment) in sw.evaluated;
  }

  lemma SeedsAreCanonical(n: nat, count: nat, s: U64)
    ensures forall p :: 0 <= p < count ==> IsCanonical(Seeds(n, count, s).0[p])
  {
    hide Seeds, IsCanonical, BlockSizes, ShapeOf;
    forall p | 0 <= p < count ensures IsCanonical(Seeds(n, count, s).0[p]) {
      SeedsRealiseShapes(n, count, s, p);
    }
  }

  lemma SettleHolds<A>(sw: Swarm, k: nat, next: Structure, t: U64, agents: seq<A>, worth: seq<A> -> real)
    requires k < |sw.particles|
    ensures BestsHold(sw, agents, worth) && Good(next, agents, worth) ==>
            BestsHold(Settle(sw, k, next, t), agents, worth)
  {
    hide Fitness, IsCanonical;
    if BestsHold(sw, agents, worth) && Good(next, agents, worth) {
      var r := Settle(sw, k, next, t);
      assert (k, next.assignment) in r.evaluated;
      forall e | e in sw.evaluated ensures e in r.evaluated {
      }
      assert Seen(r, r.gbest.assignment);
    }
  }

  lemma SettleExtendsLineage<A>(sw: Swarm, k: nat, next: Structure, t: U64, agents: seq<A>, worth: seq<A> -> real)
    requires k < |sw.particles|
    ensures LineageHolds(sw, agents, worth) && Good(next, agents, worth) ==>
              LineageHolds(Settle(sw, k, next, t), agents, worth)
  {
    hide Good;
    if LineageHolds(sw, agents, worth) && Good(next, agents, worth) {
      var r := Settle(sw, k, next, t);
      assert (k, next.assignment) in r.evaluated;
      forall a | Seen(sw, a) ensures Seen(r, a) {
        var e :| e in sw.evaluated && e.1 == a;
        assert e in r.evaluated;
      }
      assert Seen(r, next.assignment);
    }
  }

  /** What every move keeps. */
  ghost predicate SwarmHolds<A>(sw: Swarm, agents: seq<A>, worth: seq<A> -> real) {
    BestsHold(sw, agents, worth) && LineageHolds(sw, agents, worth)
  }

  /** One move keeps everything and evaluates one position. */
  lemma MoveHolds<A>(sw: Swarm, k: nat, agents: seq<A>, worth: seq<A> -> real, cfg: Config)
    requires Sized(sw, |agents|) && k < |sw.particles|
    ensures var r := Move(sw, k, agents, worth, cfg);
            |r.evaluated| == |sw.evaluated| + 1 &&
            (SwarmHolds(sw, agents, worth) ==> SwarmHolds(r, agents, worth))
  {
    hide LineageHolds, Settle, Velocity, Canonical, Fitness, IsCanonical;
    var (drawn, t) := Velocity(|agents|, sw.rng, sw.particles[k], sw.gbest, cfg);
    CanonicalIsCanonical(drawn);
    var next := Evaluated(agents, worth, Canonical(drawn));
    SettleHolds(sw, k, next, t, agents, worth);
    SettleExtendsLineage(sw, k, next, t, agents, worth);
    SettleCounts(sw, k, next, t);
  }

  lemma SettleCounts(sw: Swarm, k: nat, next: Structure, t: U64)
    requires k < |sw.particles|
    ensures |Settle(sw, k, next, t).evaluated| == |sw.evaluated| + 1
  {
  }

  lemma {:induction false} SweepHolds<A>(sw: Swarm, k: nat, agents: seq<A>, worth: seq<A> -> real, cfg: Config)
    requires Sized(sw, |agents|) && k <= |sw.particles|
    ensures var r := Sweep(sw, k, agents, worth, cfg);
            |r.evaluated| == |sw.evaluated| + k &&
            (SwarmHolds(sw, agents, worth) ==> SwarmHolds(r, agents, worth))
  {
    hide SwarmHolds, Move, Sized;
    if k > 0 {
      SweepHolds(sw, k - 1, agents, worth, cfg);
      MoveHolds(Sweep(sw, k - 1, agents, worth, cfg), k - 1, agents, worth, cfg);
    }
  }

  lemma {:induction false} IterateHolds<A>(sw: Swarm, m: nat, agents: seq<A>, worth: seq<A> -> real, cfg: Config)
    requires Sized(sw, |agents|)
    ensures var r := Iterate(sw, m, agents, worth, cfg);
            |r.evaluated| == |sw.evaluated| + m * |sw.particles| &&
            (SwarmHolds(sw, agents, worth) ==> SwarmHolds(r, agents, worth))
  {
    hide SwarmHolds, Sweep, Sized;
    if m > 0 {
      IterateHolds(sw, m - 1, agents, worth, cfg);
      SweepHolds(Iterate(sw, m - 1, agents, worth, cfg), |sw.particles|, agents, worth, cfg);
      assert m * |sw.particles| == (m - 1) * |sw.particles| + |sw.particles|;
    }
  }

  /** The swarm theorem: in the final state of every search all bests and the lineage hold,
      and each of the population was evaluated once per iteration and once as a seed. */
  lemma SearchHolds<A>(agents: seq<A>, worth: seq<A> -> real, cfg: Config)
    ensures var sw := Final(agents, worth, cfg);
            SwarmHolds(sw, agents, worth) &&
            |sw.evaluated| == Population(cfg) * (1 + cfg.iterations)
  {
    hide BestsHold, LineageHolds, Iterate, Start, Sized;
    StartHolds(agents, worth, cfg);
    StartIsSized(agents, worth, cfg);
    IterateHolds(Start(agents, worth, cfg), cfg.iterations, agents, worth, cfg);
    assert Population(cfg) * (1 + cfg.iterations) == Population(cfg) + cfg.iterations * Population(cfg);
  }

  /** The global best is the largest fitness over every assignment ever evaluated. */
  lemma BestIsLargestEvaluated<A>(agents: seq<A>, worth: seq<A> -> real, cfg: Config, k: nat, a: Assignment)
    ensures agents != [] && (k, a) in Final(agents, worth, cfg).evaluated ==>
              Fitness(agents, worth, a) <= Result(agents, worth, cfg).best.fitness
    ensures Seen(Final(agents, worth, cfg), Final(agents, worth, cfg).gbest.assignment)
  {
    hide Iterate, Fitness, Start;
    SearchHolds(agents, worth, cfg);
    assert (k, a).1 == a;
  }

  // ----- The loop -----

  method Search<A>(agents: seq<A>, worth: seq<A> -> real, cfg: Config) returns (outcome: Outcome)
    ensures outcome == Result(agents, worth, cfg)
  {
    hide Fitness, Seeds, Settle, Velocity, Canonical, Start;
    var n := |agents|;
    if n == 0 {
      var best := Structure([], 0.0);
      return Outcome(best, [best], 0);
    }
    ghost var sw := Start(agents, worth, cfg);
    StartIsSized(agents, worth, cfg);
    var rng := new SplitMix64(cfg.seed);
    var particles, gbest := InitialSwarm(agents, worth, cfg, rng);
    var lineage := [gbest];
    for it := 0 to cfg.iterations
      invariant sw == Iterate(Start(agents, worth, cfg), it, agents, worth, cfg)
      invariant Matches(sw, particles, gbest, lineage, rng.state)
      invariant |particles| == Population(cfg)
    {
      ghost var before := sw;
      for k := 0 to |particles|
        invariant |particles| == Population(cfg)
        invariant sw == Sweep(before, k, agents, worth, cfg)
        invariant Matches(sw, particles, gbest, lineage, rng.state)
      {
        var particle := particles[k];
        var drawn, _ := DrawVelocity(n, particle, gbest, cfg, rng);
        var position := new nat[n](i requires 0 <= i < n => drawn[i]);
        assert position[..] == drawn;
        Canonicalize(position);
        var next := Structure(position[..], Fitness(agents, worth, position[..]));
        SettleIs(sw, k, next, rng.state);
        sw := Settle(sw, k, next, rng.state);
        if next.fitness > particle.pbest.fitness {
          particle := particle.(pbest := next);
        }
        if next.fitness > gbest.fitness {
          gbest := next;
          lineage := lineage + [gbest];
        }
        particle := particle.(current := next.assignment);
        particles := particles[k := particle];
      }
    }
    outcome := Outcome(gbest, lineage, cfg.iterations);
  }

  /** The loop's variables hold the swarm. */
  ghost predicate Matches(sw: Swarm, particles: seq<Particle>, gbest: Structure,
                          lineage: seq<Structure>, rng: U64)
  {
    sw.particles == particles && sw.gbest == gbest && sw.lineage == lineage && sw.rng == rng
  }

  lemma SettleIs(sw: Swarm, k: nat, next: Structure, t: U64)
    requires k < |sw.particles|
    ensures var p := sw.particles[k];
            Matches(Settle(sw, k, next, t),
                    sw.particles[k := Particle(next.assignment,
                                               if next.fitness > p.pbest.fitness then next else p.pbest)],
                    if next.fitness > sw.gbest.fitness then next else sw.gbest,
                    if next.fitness > sw.gbest.fitness then sw.lineage + [next] else sw.lineage,
                    t)
  {
  }

  /** Seeds and evaluates the population, then scans for the first strict maximum. */
  method InitialSwarm<A>(agents: seq<A>, worth: seq<A> -> real, cfg: Config, rng: SplitMix64)
    returns (particles: seq<Particle>, gbest: Structure)
    requires rng.state == cfg.seed
    modifies rng
    ensures var sw := Start(agents, worth, cfg);
            Matches(sw, particles, gbest, [gbest], rng.state) && |particles| == Population(cfg)
  {
    hide Fitness, Seeds;
    var seeds := SeedAssignments(|agents|, if cfg.population == 0 then 1 else cfg.population, rng);
    particles := Map(a => Particle(a, Evaluated(agents, worth, a)), seeds);
    gbest := particles[0].pbest;
    for k := 1 to |particles|
      invariant gbest == FirstBest(particles[..k])
    {
      assert particles[..k + 1][..k] == particles[..k];
      if particles[k].pbest.fitness > gbest.fitness {
        gbest := particles[k].pbest;
      }
    }
    assert particles[..|particles|] == particles;
  }

  method DrawVelocity(n: nat, p: Particle, gbest: Structure, cfg: Config, rng: SplitMix64)
    returns (drawn: Assignment, ghost at: seq<nat>)
    requires n == |gbest.assignment| == |p.pbest.assignment|
    modifies rng
    ensures (drawn, rng.state) == Velocity(n, old(rng.state), p, gbest, cfg)
    ensures |drawn| == n && IsLargest(MaxId(p.current), p.current)
    ensures IsMove(drawn, at, old(rng.state), p.pbest.assignment, gbest.assignment, MaxId(p.current), cfg)
    ensures rng.state == StateAfter(old(rng.state), at[n])
  {
    hide Mix, Advance, Unit, MaxId;
    var maxId := MaxId(p.current);
    drawn := [];
    for i := 0 to n
      invariant (drawn, rng.state) == Velocity(i, old(rng.state), p, gbest, cfg)
    {
      var r := rng.NextUnit();
      if r < cfg.pGbest {
        drawn := drawn + [gbest.assignment[i]];
      } else if r < cfg.pGbest + cfg.pPbest {
        drawn := drawn + [p.pbest.assignment[i]];
      } else {
        var id := rng.Below(maxId + 2);
        drawn := drawn + [id];
      }
    }
    MaxIdIsLargest(p.current);
    at := VelocityIsMove(n, old(rng.state), p, gbest, cfg);
  }

  lemma MaxIdIsLargest(a: Assignment)
    ensures IsLargest(MaxId(a), a)
  {
  }
}
