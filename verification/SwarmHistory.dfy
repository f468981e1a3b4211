/** A whole search read off what it evaluated: who is the best at every moment, which outputs of
    the stream every move and every seed is drawn from, and what the pulls amount to at their
    extremes. */
module SwarmHistory {
  import opened Draws
  import opened IntegerPartitions
  import opened Search
  import opened SetPartitions
  import opened Words

  /** Every evaluated assignment with the particle it was evaluated for, oldest first. */
  type History = seq<(nat, Assignment)>

  ghost function Fit<A>(agents: seq<A>, worth: seq<A> -> real, e: (nat, Assignment)): real {
    Fitness(agents, worth, e.1)
  }

  /** Entry `j` is the first of the fittest. */
  ghost predicate BestAt<A>(h: History, agents: seq<A>, worth: seq<A> -> real, j: nat) {
    j < |h| &&
    (forall i :: 0 <= i < |h| ==> Fit(agents, worth, h[i]) <= Fit(agents, worth, h[j])) &&
    forall i :: 0 <= i < j ==> Fit(agents, worth, h[i]) < Fit(agents, worth, h[j])
  }

  /** Entry `j` is the first of particle `k`'s fittest. */
  ghost predicate OwnBestAt<A>(h: History, k: nat, agents: seq<A>, worth: seq<A> -> real, j: nat) {
    j < |h| && h[j].0 == k &&
    (forall i :: 0 <= i < |h| && h[i].0 == k ==> Fit(agents, worth, h[i]) <= Fit(agents, worth, h[j])) &&
    forall i :: 0 <= i < j && h[i].0 == k ==> Fit(agents, worth, h[i]) < Fit(agents, worth, h[j])
  }

  ghost predicate LastAt(h: History, k: nat, j: nat) {
    j < |h| && h[j].0 == k && forall i :: j < i < |h| ==> h[i].0 != k
  }

  /** What a move was made of: the drawn ids, where in the stream, and the entries that were the
      best, the particle's best and its last. */
  datatype Making = Making(ids: Assignment, at: seq<nat>, best: nat, own: nat, last: nat, largest: nat)

  /** The entry `e` evaluated after `h` is a move from stream state `s` to `t`: each agent's id is
      pulled from the best or the particle's best so far or drawn, and the ids relabelled. */
  ghost predicate MovedBy<A>(h: History, e: (nat, Assignment), s: U64, t: U64, w: Making, agents: seq<A>,
                             worth: seq<A> -> real, cfg: Config)
  {
    BestAt(h, agents, worth, w.best) && OwnBestAt(h, e.0, agents, worth, w.own) && LastAt(h, e.0, w.last) &&
    IsLargest(w.largest, h[w.last].1) && |w.ids| == |agents| &&
    IsMove(w.ids, w.at, s, h[w.own].1, h[w.best].1, w.largest, cfg) &&
    t == StateAfter(s, w.at[|agents|]) && e.1 == Canonical(w.ids)
  }

  /** After the seeds of the first `p` entries the particles move in turn, each move from the
      state the one before left. */
  ghost predicate RunMoves<A>(h: History, p: nat, states: seq<U64>, agents: seq<A>, worth: seq<A> -> real,
                              cfg: Config)
    requires p > 0
  {
    p <= |h| && |states| == |h| - p + 1 &&
    forall m :: p <= m < |h| ==>
      h[m].0 == m % p && IsMade(h[..m], h[m], states[m - p], states[m - p + 1], agents, worth, cfg)
  }

  ghost predicate IsMade<A>(h: History, e: (nat, Assignment), s: U64, t: U64, agents: seq<A>, worth: seq<A> -> real,
                            cfg: Config)
  {
    exists w :: MovedBy(h, e, s, t, w, agents, worth, cfg)
  }

  // ----- The swarm's fields are read off its history -----

  ghost predicate OwnTracked<A>(sw: Swarm, k: nat, agents: seq<A>, worth: seq<A> -> real)
    requires k < |sw.particles|
  {
    exists j: nat :: OwnBestAt(sw.evaluated, k, agents, worth, j) &&
                     sw.particles[k].pbest == Evaluated(agents, worth, sw.evaluated[j].1)
  }

  ghost predicate LastTracked(sw: Swarm, k: nat)
    requires k < |sw.particles|
  {
    exists j: nat :: LastAt(sw.evaluated, k, j) && sw.particles[k].current == sw.evaluated[j].1
  }

  ghost predicate BestTracked<A>(sw: Swarm, agents: seq<A>, worth: seq<A> -> real) {
    exists j: nat :: BestAt(sw.evaluated, agents, worth, j) && sw.gbest == Evaluated(agents, worth, sw.evaluated[j].1)
  }

  ghost predicate Tracked<A>(sw: Swarm, agents: seq<A>, worth: seq<A> -> real) {
    BestTracked(sw, agents, worth) &&
    forall k :: 0 <= k < |sw.particles| ==> OwnTracked(sw, k, agents, worth) && LastTracked(sw, k)
  }

  lemma BestSettles<A>(sw: Swarm, k: nat, next: Structure, t: U64, agents: seq<A>, worth: seq<A> -> real)
    requires k < |sw.particles| && BestTracked(sw, agents, worth)
    requires next == Evaluated(agents, worth, next.assignment)
    ensures BestTracked(Settle(sw, k, next, t), agents, worth)
  {
    hide Fitness;
    var r := Settle(sw, k, next, t);
    var j: nat :| BestAt(sw.evaluated, agents, worth, j) && sw.gbest == Evaluated(agents, worth, sw.evaluated[j].1);
    var n := |sw.evaluated|;
    assert r.evaluated[n] == (k, next.assignment) && forall i :: 0 <= i < n ==> r.evaluated[i] == sw.evaluated[i];
    assert BestAt(r.evaluated, agents, worth, if next.fitness > sw.gbest.fitness then n else j);
  }

  lemma OwnSettles<A>(sw: Swarm, k: nat, next: Structure, t: U64, q: nat, agents: seq<A>, worth: seq<A> -> real)
    requires k < |sw.particles| && q < |sw.particles| && OwnTracked(sw, q, agents, worth)
    requires next == Evaluated(agents, worth, next.assignment)
    ensures OwnTracked(Settle(sw, k, next, t), q, agents, worth)
  {
    hide Fitness;
    var r := Settle(sw, k, next, t);
    var j: nat :| OwnBestAt(sw.evaluated, q, agents, worth, j) &&
                  sw.particles[q].pbest == Evaluated(agents, worth, sw.evaluated[j].1);
    var n := |sw.evaluated|;
    assert r.evaluated[n] == (k, next.assignment) && forall i :: 0 <= i < n ==> r.evaluated[i] == sw.evaluated[i];
    assert OwnBestAt(r.evaluated, q, agents, worth,
                     if q == k && next.fitness > sw.particles[k].pbest.fitness then n else j);
  }

  lemma LastSettles(sw: Swarm, k: nat, next: Structure, t: U64, q: nat)
    requires k < |sw.particles| && q < |sw.particles| && LastTracked(sw, q)
    ensures LastTracked(Settle(sw, k, next, t), q)
  {
    var r := Settle(sw, k, next, t);
    var l: nat :| LastAt(sw.evaluated, q, l) && sw.particles[q].current == sw.evaluated[l].1;
    var n := |sw.evaluated|;
    assert r.evaluated[n] == (k, next.assignment) && forall i :: 0 <= i < n ==> r.evaluated[i] == sw.evaluated[i];
    assert LastAt(r.evaluated, q, if q == k then n else l);
  }

  lemma SettleTracks<A>(sw: Swarm, k: nat, next: Structure, t: U64, agents: seq<A>, worth: seq<A> -> real)
    requires k < |sw.particles| && Tracked(sw, agents, worth) && next == Evaluated(agents, worth, next.assignment)
    ensures Tracked(Settle(sw, k, next, t), agents, worth)
  {
    hide OwnTracked, LastTracked, BestTracked, Evaluated, Settle;
    BestSettles(sw, k, next, t, agents, worth);
    forall q | 0 <= q < |sw.particles|
      ensures OwnTracked(Settle(sw, k, next, t), q, agents, worth) && LastTracked(Settle(sw, k, next, t), q)
    {
      OwnSettles(sw, k, next, t, q, agents, worth);
      LastSettles(sw, k, next, t, q);
    }
  }

  lemma SettledFields(sw: Swarm, k: nat, next: Structure, t: U64)
    requires k < |sw.particles|
    ensures var r := Settle(sw, k, next, t);
            r.evaluated == sw.evaluated + [(k, next.assignment)] && r.rng == t
  {
  }

  /** The entries a particle's move reads. */
  lemma EntriesOf<A>(sw: Swarm, k: nat, agents: seq<A>, worth: seq<A> -> real) returns (g: nat, o: nat, l: nat)
    requires k < |sw.particles| && Tracked(sw, agents, worth)
    ensures BestAt(sw.evaluated, agents, worth, g) && g < |sw.evaluated|
    ensures OwnBestAt(sw.evaluated, k, agents, worth, o) && o < |sw.evaluated|
    ensures LastAt(sw.evaluated, k, l) && l < |sw.evaluated|
    ensures sw.gbest.assignment == sw.evaluated[g].1 && sw.particles[k].pbest.assignment == sw.evaluated[o].1
    ensures sw.particles[k].current == sw.evaluated[l].1
  {
    hide Fitness, OwnTracked;
    g :| BestAt(sw.evaluated, agents, worth, g) && sw.gbest == Evaluated(agents, worth, sw.evaluated[g].1);
    assert OwnTracked(sw, k, agents, worth) && LastTracked(sw, k);
    o := OwnEntry(sw, k, agents, worth);
    l :| LastAt(sw.evaluated, k, l) && sw.particles[k].current == sw.evaluated[l].1;
  }

  lemma OwnEntry<A>(sw: Swarm, k: nat, agents: seq<A>, worth: seq<A> -> real) returns (o: nat)
    requires k < |sw.particles| && OwnTracked(sw, k, agents, worth)
    ensures OwnBestAt(sw.evaluated, k, agents, worth, o) && o < |sw.evaluated|
    ensures sw.particles[k].pbest.assignment == sw.evaluated[o].1
  {
    hide Fitness;
    o :| OwnBestAt(sw.evaluated, k, agents, worth, o) &&
         sw.particles[k].pbest == Evaluated(agents, worth, sw.evaluated[o].1);
  }

  /** One move of particle `k`, as an entry of the history. */
  lemma MoveIsMade<A>(sw: Swarm, k: nat, agents: seq<A>, worth: seq<A> -> real, cfg: Config) returns (w: Making)
    requires Sized(sw, |agents|) && k < |sw.particles| && Tracked(sw, agents, worth)
    ensures var r := Move(sw, k, agents, worth, cfg);
            |r.evaluated| == |sw.evaluated| + 1 && r.evaluated[..|sw.evaluated|] == sw.evaluated &&
            r.evaluated[|sw.evaluated|].0 == k && Tracked(r, agents, worth) &&
            MovedBy(sw.evaluated, r.evaluated[|sw.evaluated|], sw.rng, r.rng, w, agents, worth, cfg)
  {
    hide Velocity, IsMove, Canonical, Fitness, Settle, IsLargest, BestAt, OwnBestAt, LastAt, StateAfter, MaxId;
    var p := sw.particles[k];
    var v := Velocity(|agents|, sw.rng, p, sw.gbest, cfg);
    var next := Evaluated(agents, worth, Canonical(v.0));
    var at := VelocityIsMove(|agents|, sw.rng, p, sw.gbest, cfg);
    MoveSize(v.0, at, sw.rng, p.pbest.assignment, sw.gbest.assignment, MaxId(p.current), cfg);
    MaxIdIsLargest(p.current);
    SettleTracks(sw, k, next, v.1, agents, worth);
    SettledFields(sw, k, next, v.1);
    var g, o, l := EntriesOf(sw, k, agents, worth);
    w := Making(v.0, at, g, o, l, MaxId(p.current));
  }

  // ----- Whole runs -----

  /** A swarm in the middle of a run: `states` holds the stream's state before every move and now. */
  ghost predicate InRun<A>(sw: Swarm, states: seq<U64>, agents: seq<A>, worth: seq<A> -> real, cfg: Config) {
    sw.particles != [] && Tracked(sw, agents, worth) &&
    RunMoves(sw.evaluated, |sw.particles|, states, agents, worth, cfg) && states[|states| - 1] == sw.rng
  }

  lemma OneMoreMove<A>(h: History, p: nat, states: seq<U64>, agents: seq<A>, worth: seq<A> -> real, cfg: Config,
                       e: (nat, Assignment), t: U64, w: Making)
    requires p > 0 && RunMoves(h, p, states, agents, worth, cfg) && e.0 == |h| % p
    requires MovedBy(h, e, states[|states| - 1], t, w, agents, worth, cfg)
    ensures RunMoves(h + [e], p, states + [t], agents, worth, cfg)
  {
    hide MovedBy;
    var longer, more := h + [e], states + [t];
    forall m | p <= m < |longer|
      ensures longer[m].0 == m % p && IsMade(longer[..m], longer[m], more[m - p], more[m - p + 1], agents, worth, cfg)
    {
      if m == |h| {
        assert longer[..m] == h;
      } else {
        assert longer[..m] == h[..m];
      }
    }
  }

  lemma MoveInRun<A>(sw: Swarm, states: seq<U64>, k: nat, agents: seq<A>, worth: seq<A> -> real, cfg: Config)
    requires Sized(sw, |agents|) && k < |sw.particles| && InRun(sw, states, agents, worth, cfg)
    requires |sw.evaluated| % |sw.particles| == k
    ensures var r := Move(sw, k, agents, worth, cfg);
            |r.evaluated| == |sw.evaluated| + 1 && sw.evaluated <= r.evaluated &&
            InRun(r, states + [r.rng], agents, worth, cfg)
  {
    hide Tracked, MovedBy, RunMoves, Move;
    var w := MoveIsMade(sw, k, agents, worth, cfg);
    var r := Move(sw, k, agents, worth, cfg);
    var n := |sw.evaluated|;
    assert r.evaluated == r.evaluated[..n] + [r.evaluated[n]];
    OneMoreMove(sw.evaluated, |sw.particles|, states, agents, worth, cfg, r.evaluated[n], r.rng, w);
  }

  lemma NextTurn(rounds: nat, p: nat, k: nat)
    requires k < p
    ensures (rounds * p + k) % p == k
  {
    RemainderOf(rounds * p + k, rounds, p, k);
  }

  lemma RemainderOf(x: nat, q: nat, p: nat, k: nat)
    requires k < p && x == q * p + k
    ensures x % p == k
  {
    var d := x / p;
    assert x == d * p + x % p;
    if d < q {
      TimesAtLeast(q - d, p);
      Distribute(q, d, p);
    } else if d > q {
      TimesAtLeast(d - q, p);
      Distribute(d, q, p);
    }
  }

  lemma TimesAtLeast(n: nat, p: nat)
    requires n > 0
    ensures n * p >= p
  {
    assert n * p == (n - 1) * p + p;
  }

  lemma Distribute(a: nat, b: nat, p: nat)
    requires a >= b
    ensures (a - b) * p == a * p - b * p
  {
  }

  lemma {:induction false} SweepInRun<A>(sw: Swarm, states: seq<U64>, rounds: nat, k: nat, agents: seq<A>,
                                         worth: seq<A> -> real, cfg: Config) returns (more: seq<U64>)
    requires Sized(sw, |agents|) && k <= |sw.particles| && InRun(sw, states, agents, worth, cfg)
    requires |sw.evaluated| == rounds * |sw.particles|
    ensures var r := Sweep(sw, k, agents, worth, cfg);
            |r.evaluated| == rounds * |sw.particles| + k && sw.evaluated <= r.evaluated &&
            InRun(r, more, agents, worth, cfg) && states[0] == more[0]
  {
    hide Tracked, RunMoves, Move;
    StatesHold(sw, states, agents, worth, cfg);
    if k == 0 {
      more := states;
    } else {
      var init := SweepInRun(sw, states, rounds, k - 1, agents, worth, cfg);
      var before := Sweep(sw, k - 1, agents, worth, cfg);
      StatesHold(before, init, agents, worth, cfg);
      NextTurn(rounds, |sw.particles|, k - 1);
      MoveInRun(before, init, k - 1, agents, worth, cfg);
      more := init + [Sweep(sw, k, agents, worth, cfg).rng];
    }
  }

  lemma StatesHold<A>(sw: Swarm, states: seq<U64>, agents: seq<A>, worth: seq<A> -> real, cfg: Config)
    requires InRun(sw, states, agents, worth, cfg)
    ensures |states| > 0 && |states| == |sw.evaluated| - |sw.particles| + 1
  {
  }

  lemma {:induction false} IterateInRun<A>(sw: Swarm, states: seq<U64>, m: nat, agents: seq<A>, worth: seq<A> -> real,
                                           cfg: Config) returns (more: seq<U64>)
    requires Sized(sw, |agents|) && InRun(sw, states, agents, worth, cfg) && |sw.evaluated| == |sw.particles|
    ensures var r := Iterate(sw, m, agents, worth, cfg);
            |r.evaluated| == (1 + m) * |sw.particles| && sw.evaluated <= r.evaluated &&
            InRun(r, more, agents, worth, cfg) && |states| > 0 && |more| > 0 && states[0] == more[0]
  {
    hide InRun, Sweep, Sized;
    StatesHold(sw, states, agents, worth, cfg);
    if m == 0 {
      more := states;
    } else {
      var init := IterateInRun(sw, states, m - 1, agents, worth, cfg);
      var before := Iterate(sw, m - 1, agents, worth, cfg);
      more := SweepInRun(before, init, m, |sw.particles|, agents, worth, cfg);
      StatesHold(Iterate(sw, m, agents, worth, cfg), more, agents, worth, cfg);
      assert m * |sw.particles| + |sw.particles| == (1 + m) * |sw.particles|;
    }
  }

  lemma StartTracked<A>(seeds: seq<Assignment>, s: U64, agents: seq<A>, worth: seq<A> -> real)
    requires seeds != []
    ensures Tracked(SwarmOf(seeds, s, agents, worth), agents, worth)
  {
    hide Fitness;
    var sw := SwarmOf(seeds, s, agents, worth);
    var best := FirstBestIsBest(sw.particles);
    forall k | 0 <= k < |seeds| ensures sw.evaluated[k] == (k, seeds[k]) {
    }
    assert BestAt(sw.evaluated, agents, worth, best);
    forall k | 0 <= k < |seeds| ensures OwnTracked(sw, k, agents, worth) && LastTracked(sw, k) {
      assert OwnBestAt(sw.evaluated, k, agents, worth, k) && LastAt(sw.evaluated, k, k);
    }
  }

  lemma StartInRun<A>(agents: seq<A>, worth: seq<A> -> real, cfg: Config)
    ensures var sw := Start(agents, worth, cfg);
            InRun(sw, [sw.rng], agents, worth, cfg) && |sw.evaluated| == |sw.particles| == Population(cfg)
  {
    hide Seeds, Tracked, FirstBest;
    var seeded := Seeds(|agents|, Population(cfg), cfg.seed);
    StartTracked(seeded.0, seeded.1, agents, worth);
  }

  /** The whole search read off its evaluations. The seeds come first, one per particle; then the
      particles move in turn, every move drawn from the stream
      where the one before left it, out of the best assignment so far, the particle's own best so
      far and its last; and the result is the first of the fittest. */
  lemma EveryMoveIsDrawn<A>(agents: seq<A>, worth: seq<A> -> real, cfg: Config) returns (states: seq<U64>, best: nat)
    requires agents != []
    ensures var h, p := Final(agents, worth, cfg).evaluated, Population(cfg);
            var seeded, result := Seeds(|agents|, p, cfg.seed), Result(agents, worth, cfg);
            p <= |h| && (forall k :: 0 <= k < p ==> h[k] == (k, seeded.0[k])) &&
            RunMoves(h, p, states, agents, worth, cfg) && states[0] == seeded.1 &&
            BestAt(h, agents, worth, best) && result.best == Evaluated(agents, worth, h[best].1) &&
            result.iterationsRun == cfg.iterations
  {
    hide Seeds, Final, Result, InRun, RunMoves, Tracked, Evaluated, BestAt, Population;
    ResultIsFinal(agents, worth, cfg);
    states := FinalInRun(agents, worth, cfg);
    RunParts(Final(agents, worth, cfg), states, agents, worth, cfg);
    best := BestEntry(Final(agents, worth, cfg), agents, worth);
  }

  lemma ResultIsFinal<A>(agents: seq<A>, worth: seq<A> -> real, cfg: Config)
    requires agents != []
    ensures Result(agents, worth, cfg).best == Final(agents, worth, cfg).gbest
    ensures Result(agents, worth, cfg).iterationsRun == cfg.iterations
  {
    hide Final;
  }

  lemma RunParts<A>(sw: Swarm, states: seq<U64>, agents: seq<A>, worth: seq<A> -> real, cfg: Config)
    requires InRun(sw, states, agents, worth, cfg)
    ensures Tracked(sw, agents, worth) && RunMoves(sw.evaluated, |sw.particles|, states, agents, worth, cfg)
  {
  }

  lemma FinalInRun<A>(agents: seq<A>, worth: seq<A> -> real, cfg: Config) returns (states: seq<U64>)
    ensures var sw, p, seeded := Final(agents, worth, cfg), Population(cfg), Seeds(|agents|, Population(cfg), cfg.seed);
            InRun(sw, states, agents, worth, cfg) && |sw.particles| == p > 0 && |states| > 0 &&
            p <= |sw.evaluated| && states[0] == seeded.1 &&
            forall k :: 0 <= k < p ==> sw.evaluated[k] == (k, seeded.0[k])
  {
    hide Seeds, Iterate, InRun, FirstBest, Fitness;
    StartIsSized(agents, worth, cfg);
    StartInRun(agents, worth, cfg);
    var start := Start(agents, worth, cfg);
    states := IterateInRun(start, [start.rng], cfg.iterations, agents, worth, cfg);
    var seeded := Seeds(|agents|, Population(cfg), cfg.seed);
    forall k | 0 <= k < Population(cfg) ensures Final(agents, worth, cfg).evaluated[k] == (k, seeded.0[k]) {
      assert start.evaluated[k] == (k, seeded.0[k]);
    }
  }

  lemma BestEntry<A>(sw: Swarm, agents: seq<A>, worth: seq<A> -> real) returns (best: nat)
    requires Tracked(sw, agents, worth)
    ensures BestAt(sw.evaluated, agents, worth, best) && best < |sw.evaluated|
    ensures sw.gbest == Evaluated(agents, worth, sw.evaluated[best].1)
  {
    hide Fitness;
    best :| BestAt(sw.evaluated, agents, worth, best) && sw.gbest == Evaluated(agents, worth, sw.evaluated[best].1);
  }

  // ----- The pulls at their extremes -----

  /** Every draw pulls: to the global best always, or never to it and to the own best always. */
  predicate Certain(cfg: Config) {
    cfg.pGbest >= 1.0 || (cfg.pGbest <= 0.0 && cfg.pGbest + cfg.pPbest >= 1.0)
  }

  function PulledTo(p: Particle, gbest: Structure, cfg: Config): Structure {
    if cfg.pGbest >= 1.0 then gbest else p.pbest
  }

  lemma CertainDraw(id: nat, s: U64, from: nat, to: nat, ownId: nat, bestId: nat, largest: nat, cfg: Config)
    requires Certain(cfg) && Drawn(id, s, from, to, ownId, bestId, largest, cfg)
    ensures id == if cfg.pGbest >= 1.0 then bestId else ownId
  {
    hide Output;
    assert 0.0 <= Unit(Output(s, from)) < 1.0;
  }

  lemma CertainIds(ids: Assignment, at: seq<nat>, s: U64, own: Assignment, best: Assignment, largest: nat, cfg: Config)
    requires Certain(cfg) && IsMove(ids, at, s, own, best, largest, cfg) && |ids| == |own| == |best|
    ensures ids == if cfg.pGbest >= 1.0 then best else own
  {
    hide Drawn, Certain;
    var target := if cfg.pGbest >= 1.0 then best else own;
    forall i | 0 <= i < |ids| ensures ids[i] == target[i] {
      CertainDraw(ids[i], s, at[i], at[i + 1], own[i], best[i], largest, cfg);
    }
  }

  lemma CanonicalStays(a: Assignment)
    requires IsCanonical(a)
    ensures Canonical(a) == a
  {
    hide IsCanonical, SamePartition, Canonical;
    CanonicalIsCanonical(a);
    CanonicalIsUnique(a, Canonical(a));
  }

  /** A certain move evaluates what it is pulled to and changes no best. */
  lemma CertainMove<A>(sw: Swarm, k: nat, agents: seq<A>, worth: seq<A> -> real, cfg: Config)
    requires Certain(cfg) && k < |sw.particles| && BestsHold(sw, agents, worth)
    ensures var r, target := Move(sw, k, agents, worth, cfg), PulledTo(sw.particles[k], sw.gbest, cfg);
            r.gbest == sw.gbest && r.lineage == sw.lineage && |r.particles| == |sw.particles| &&
            r.evaluated == sw.evaluated + [(k, target.assignment)] &&
            (cfg.pGbest < 1.0 ==> forall q :: 0 <= q < |sw.particles| ==> r.particles[q].pbest == sw.particles[q].pbest)
  {
    hide Velocity, IsMove, Canonical, Fitness, IsCanonical, MaxId, StateAfter, Certain;
    var p := sw.particles[k];
    var v, target := Velocity(|agents|, sw.rng, p, sw.gbest, cfg), PulledTo(p, sw.gbest, cfg);
    var at := VelocityIsMove(|agents|, sw.rng, p, sw.gbest, cfg);
    CertainIds(v.0, at, sw.rng, p.pbest.assignment, sw.gbest.assignment, MaxId(p.current), cfg);
    CanonicalStays(target.assignment);
  }

  /** Since `start` nothing but what the pulls point to was evaluated, and no best changed. */
  ghost predicate Stuck<A>(sw: Swarm, start: Swarm, agents: seq<A>, worth: seq<A> -> real, cfg: Config) {
    SwarmHolds(sw, agents, worth) && |sw.particles| == |start.particles| &&
    sw.gbest == start.gbest && sw.lineage == start.lineage &&
    (cfg.pGbest < 1.0 ==> forall q :: 0 <= q < |sw.particles| ==> sw.particles[q].pbest == start.particles[q].pbest) &&
    start.evaluated <= sw.evaluated &&
    forall m :: |start.evaluated| <= m < |sw.evaluated| ==>
      sw.evaluated[m].0 < |start.particles| &&
      sw.evaluated[m].1 == PulledTo(start.particles[sw.evaluated[m].0], start.gbest, cfg).assignment
  }

  lemma StuckStays<A>(sw: Swarm, start: Swarm, k: nat, agents: seq<A>, worth: seq<A> -> real, cfg: Config)
    requires Certain(cfg) && k < |sw.particles| && Sized(sw, |agents|) && Stuck(sw, start, agents, worth, cfg)
    ensures Stuck(Move(sw, k, agents, worth, cfg), start, agents, worth, cfg)
  {
    hide Move, BestsHold, LineageHolds, Certain;
    MoveHolds(sw, k, agents, worth, cfg);
    CertainMove(sw, k, agents, worth, cfg);
  }

  lemma {:induction false} SweepStuck<A>(sw: Swarm, start: Swarm, k: nat, agents: seq<A>, worth: seq<A> -> real,
                                         cfg: Config)
    requires Certain(cfg) && k <= |sw.particles| && Sized(sw, |agents|) && Stuck(sw, start, agents, worth, cfg)
    ensures Stuck(Sweep(sw, k, agents, worth, cfg), start, agents, worth, cfg)
  {
    hide Move, Stuck, Certain, Sized;
    if k > 0 {
      SweepStuck(sw, start, k - 1, agents, worth, cfg);
      StuckStays(Sweep(sw, k - 1, agents, worth, cfg), start, k - 1, agents, worth, cfg);
    }
  }

  lemma {:induction false} IterateStuck<A>(sw: Swarm, start: Swarm, m: nat, agents: seq<A>, worth: seq<A> -> real,
                                           cfg: Config)
    requires Certain(cfg) && Sized(sw, |agents|) && Stuck(sw, start, agents, worth, cfg)
    ensures Stuck(Iterate(sw, m, agents, worth, cfg), start, agents, worth, cfg)
  {
    hide Sweep, Stuck, Certain, Sized;
    if m > 0 {
      IterateStuck(sw, start, m - 1, agents, worth, cfg);
      SweepStuck(Iterate(sw, m - 1, agents, worth, cfg), start, |sw.particles|, agents, worth, cfg);
    }
  }

  /** With a certain pull a search finds nothing beyond its seeds: the lineage has one epoch, and
      every move lands on the global best, or on the particle's own seed. */
  lemma CertainPullStays<A>(agents: seq<A>, worth: seq<A> -> real, cfg: Config)
    requires Certain(cfg) && agents != []
    ensures var h, result := Final(agents, worth, cfg).evaluated, Result(agents, worth, cfg);
            |result.lineage| == 1 && Population(cfg) <= |h| &&
            forall m :: Population(cfg) <= m < |h| ==>
              h[m].0 < Population(cfg) &&
              h[m].1 == if cfg.pGbest >= 1.0 then result.best.assignment else h[h[m].0].1
  {
    hide Seeds, Iterate, SwarmHolds, Certain, Fitness, FirstBest;
    StartHolds(agents, worth, cfg);
    StartIsSized(agents, worth, cfg);
    var start := Start(agents, worth, cfg);
    assert SwarmHolds(start, agents, worth) by { BothHold(start, agents, worth); }
    IterateStuck(start, start, cfg.iterations, agents, worth, cfg);
  }

  lemma BothHold<A>(sw: Swarm, agents: seq<A>, worth: seq<A> -> real)
    requires BestsHold(sw, agents, worth) && LineageHolds(sw, agents, worth)
    ensures SwarmHolds(sw, agents, worth)
  {
  }
}
