/** The replica scaler and the GPU placer of src/gpuopt/inference_extended.py. */
module ReplicaScaler {
  import opened Arith
  import opened Seqs

  datatype Policy = Policy(minReplicas: int, maxReplicas: int, throughput: real, current: int)

  datatype Action = GoUp | GoDown | Keep

  datatype Decision = Decision(action: Action, target: int)

  /** Python's `int()` of a float. */
  function Trunc(x: real): int { if x >= 0.0 then x.Floor else -((-x).Floor) }

  function Capacity(p: Policy): real {
    var c := p.throughput * p.current as real;
    if c >= 1.0 then c else 1.0
  }

  function Load(p: Policy, tps: real): real { tps / Capacity(p) }

  function EvaluateScale(p: Policy, tps: real): Decision {
    var util := Load(p, tps);
    if util > 0.8 && p.current < p.maxReplicas then
      Decision(GoUp, Min(p.maxReplicas, Trunc(p.current as real * (util / 0.6))))
    else if util < 0.3 && p.current > p.minReplicas then
      Decision(GoDown, Max(p.minReplicas, Trunc(p.current as real * 0.5)))
    else Decision(Keep, p.current)
  }

  function RecommendedReplicas(p: Policy, tps: real): int { EvaluateScale(p, tps).target }

  /** Evaluating under a constant load and committing the target, k times. */
  function Iterate(p: Policy, tps: real, k: nat): Policy {
    if k == 0 then p
    else
      var q := Iterate(p, tps, k - 1);
      q.(current := RecommendedReplicas(q, tps))
  }

  predicate Proper(p: Policy) { 1 <= p.minReplicas <= p.current <= p.maxReplicas }

  /** Not below the scale-down threshold: such a policy can only grow. */
  predicate Busy(p: Policy, tps: real) { Load(p, tps) >= 0.3 }

  /** Not above the scale-up threshold, or in the corner where "up" keeps a single replica. */
  predicate Calm(p: Policy, tps: real) { Load(p, tps) <= 0.8 || (p.current == 1 && Load(p, tps) < 1.2) }

  /** Capacity grows at most in proportion to the replicas. */
  lemma CapacityRatio(p: Policy, q: Policy)
    requires q == p.(current := q.current) && 1 <= q.current <= p.current
    ensures 1.0 <= Capacity(q) && Capacity(p) * q.current as real <= Capacity(q) * p.current as real
  {
  }

  /** Load times replicas does not grow when replicas are taken away. */
  lemma LoadRatio(p: Policy, q: Policy, tps: real)
    requires q == p.(current := q.current) && 1 <= q.current <= p.current && tps >= 0.0
    ensures Load(q, tps) * q.current as real <= Load(p, tps) * p.current as real
  {
  }

  lemma NegativeLoad(p: Policy, tps: real)
    requires tps < 0.0
    ensures Load(p, tps) < 0.0
  {
  }

  lemma UpEffect(p: Policy, tps: real)
    requires Proper(p) && EvaluateScale(p, tps).action == GoUp
    ensures
      var (t, want) := (RecommendedReplicas(p, tps), p.current as real * (Load(p, tps) / 0.6));
      && p.current <= t <= p.maxReplicas && t as real <= want
      && (p.current >= 3 ==> t > p.current)
  {
    UpWantsMore(p.current, Load(p, tps));
  }

  /** A reported "up" never shrinks, grows strictly from three replicas on, and leaves the policy busy. */
  lemma UpStep(p: Policy, tps: real)
    requires Proper(p) && EvaluateScale(p, tps).action == GoUp
    ensures
      var q := Iterate(p, tps, 1);
      && p.current <= q.current <= p.maxReplicas
      && (p.current >= 3 ==> q.current > p.current)
      && Busy(q, tps)
  {
    assert Iterate(p, tps, 0) == p;
    UpEffect(p, tps);
    BusyAfter(p, p.(current := RecommendedReplicas(p, tps)), tps);
  }

  lemma BusyAfter(p: Policy, q: Policy, tps: real)
    requires q == p.(current := q.current) && 1 <= p.current <= q.current && Load(p, tps) > 0.8
    requires q.current as real <= p.current as real * (Load(p, tps) / 0.6)
    ensures Busy(q, tps)
  {
    CapacityRatio(q, p);
    QuotientIs(tps, Capacity(p));
    QuotientIs(tps, Capacity(q));
    BusyAfterUp(p.current as real, q.current as real, Load(p, tps), Load(q, tps), Capacity(p), Capacity(q));
  }

  lemma UpWantsMore(n: int, u: real)
    requires n >= 1 && u > 0.8
    ensures
      var want := n as real * (u / 0.6);
      n <= Trunc(want) && Trunc(want) as real <= want && (n >= 3 ==> n < Trunc(want))
  {
    MulMono(n as real, 4.0 / 3.0, u / 0.6);
  }

  lemma BusyAfterUp(n: real, m: real, u: real, v: real, a: real, b: real)
    requires n >= 1.0 && a >= 1.0 && b >= 1.0 && u > 0.8
    requires u * a == v * b && b * n <= a * m && m <= n * (u / 0.6)
    ensures v >= 0.3
  {
  }

  /** A reported "down" never grows, halves at least, and leaves the policy calm. */
  lemma DownStep(p: Policy, tps: real)
    requires Proper(p) && EvaluateScale(p, tps).action == GoDown
    ensures
      var q := Iterate(p, tps, 1);
      && q.current == Max(p.minReplicas, p.current / 2)
      && p.minReplicas <= q.current < p.current
      && Calm(q, tps)
  {
    assert Iterate(p, tps, 0) == p;
    var q := Iterate(p, tps, 1);
    assert (p.current as real * 0.5).Floor == p.current / 2;
    if tps < 0.0 {
      NegativeLoad(q, tps);
    } else {
      LoadRatio(p, q, tps);
      CalmAfterDown(p.current, q.current, Load(p, tps), Load(q, tps));
    }
  }

  lemma CalmAfterDown(n: int, m: int, u: real, v: real)
    requires 1 <= m < n && m >= n / 2 && u < 0.3 && v * m as real <= u * n as real
    ensures v <= 0.8 || (m == 1 && v < 1.2)
  {
    var (x, y) := (n as real, m as real);
    MulMono(x, u, 0.3);
    assert y * v <= 0.3 * x;
    if m == 1 {
      assert n <= 3;
    } else {
      assert 2 * n <= 5 * m;
      assert 2.0 * x <= 5.0 * y;
      MulCancel(y, v, 0.8);
    }
  }

  /** Each step keeps its mode: busy policies stay busy and never shrink, calm ones stay calm and never grow. */
  lemma ModeStep(p: Policy, tps: real)
    requires Proper(p)
    ensures
      var q := Iterate(p, tps, 1);
      && Proper(q) && q == p.(current := q.current)
      && (Busy(p, tps) ==> Busy(q, tps) && p.current <= q.current)
      && (Calm(p, tps) ==> Calm(q, tps) && q.current <= p.current)
      && (Busy(p, tps) || Calm(p, tps))
  {
    assert Iterate(p, tps, 0) == p;
    var q := Iterate(p, tps, 1);
    match EvaluateScale(p, tps).action
    case GoUp =>
      UpStep(p, tps);
      if Calm(p, tps) {
        // the corner: one replica with load between 0.8 and 1.2
        assert p.current as real * (Load(p, tps) / 0.6) < 2.0;
        assert q.current == 1;
      }
    case GoDown => DownStep(p, tps);
    case Keep =>
  }

  lemma {:induction false} IterateSplit(p: Policy, tps: real, k: nat)
    ensures Iterate(p, tps, k + 1) == Iterate(Iterate(p, tps, 1), tps, k)
  {
    if k > 0 {
      IterateSplit(p, tps, k - 1);
    }
  }

  /** Committing under constant load stays inside [min, max] and never turns round, for every real load. */
  lemma {:induction false} MonotoneReplicas(p: Policy, tps: real, j: nat, k: nat)
    requires Proper(p) && j <= k
    ensures Proper(Iterate(p, tps, j)) && Proper(Iterate(p, tps, k))
    ensures Busy(p, tps) ==> Iterate(p, tps, j).current <= Iterate(p, tps, k).current
    ensures !Busy(p, tps) ==> Iterate(p, tps, k).current <= Iterate(p, tps, j).current
    decreases k
  {
    hide Busy, Calm, EvaluateScale, Load;
    if k > 0 {
      RunMode(p, tps, k);
      RunMode(p, tps, j);
      if j < k {
        MonotoneReplicas(p, tps, j, k - 1);
        RunMode(p, tps, k - 1);
        ModeStep(Iterate(p, tps, k - 1), tps);
        IterateOnce(p, tps, k - 1);
      }
    }
  }

  lemma IterateOnce(p: Policy, tps: real, k: nat)
    ensures Iterate(p, tps, k + 1) == Iterate(Iterate(p, tps, k), tps, 1)
  {
  }

  lemma {:induction false} RunMode(p: Policy, tps: real, k: nat)
    requires Proper(p)
    ensures
      var q := Iterate(p, tps, k);
      && Proper(q) && q == p.(current := q.current)
      && (Busy(p, tps) ==> Busy(q, tps))
      && (Calm(p, tps) ==> Calm(q, tps))
      && (Busy(p, tps) || Calm(p, tps))
  {
    if k == 0 {
      ModeStep(p, tps);
    } else {
      RunMode(p, tps, k - 1);
      ModeStep(Iterate(p, tps, k - 1), tps);
      IterateOnce(p, tps, k - 1);
    }
  }

  // ---- how fast it settles ----

  predicate Settled(p: Policy, tps: real) { RecommendedReplicas(p, tps) == p.current }

  lemma {:induction false} SettledStays(p: Policy, tps: real, k: nat)
    requires Settled(p, tps)
    ensures Iterate(p, tps, k) == p
  {
    if k > 0 {
      SettledStays(p, tps, k - 1);
    }
  }

  lemma SameWishLater(p: Policy, q: Policy, tps: real)
    requires q == p.(current := q.current) && 1 <= p.current <= q.current && p.throughput * p.current as real >= 1.0
    ensures p.current as real * (Load(p, tps) / 0.6) == q.current as real * (Load(q, tps) / 0.6)
  {
  }

  /** One "up" reaches the final size: the next evaluation may still say "up", but asks for the same size. */
  lemma UpSettlesAtOnce(p: Policy, tps: real)
    requires Proper(p) && p.throughput * p.current as real >= 1.0 && EvaluateScale(p, tps).action == GoUp
    ensures Settled(Iterate(p, tps, 1), tps)
  {
    assert Iterate(p, tps, 0) == p;
    var q := p.(current := RecommendedReplicas(p, tps));
    UpEffect(p, tps);
    BusyAfter(p, q, tps);
    SameWishLater(p, q, tps);
    SameWish(p, q, tps, p.current as real * (Load(p, tps) / 0.6));
  }

  lemma SameWish(p: Policy, q: Policy, tps: real, want: real)
    requires EvaluateScale(p, tps).action == GoUp && q == p.(current := RecommendedReplicas(p, tps))
    requires p.current as real * (Load(p, tps) / 0.6) == want == q.current as real * (Load(q, tps) / 0.6)
    requires Busy(q, tps)
    ensures Settled(q, tps)
  {
    hide Load;
  }

  function Log2(n: nat): nat { if n <= 1 then 0 else 1 + Log2(n / 2) }

  lemma {:induction false} CalmSettles(p: Policy, tps: real, k: nat)
    requires Proper(p) && Calm(p, tps) && Log2(p.current) <= k
    ensures Settled(Iterate(p, tps, k), tps)
    decreases p.current, k
  {
    assert Iterate(p, tps, 0) == p;
    ModeStep(p, tps);
    var q := Iterate(p, tps, 1);
    if Settled(p, tps) {
      SettledStays(p, tps, k);
    } else {
      assert EvaluateScale(p, tps).action == GoDown;
      DownStep(p, tps);
      assert k > 0;
      IterateSplit(p, tps, k - 1);
      if q.current == p.minReplicas {
        ModeStep(q, tps);
        assert Iterate(q, tps, 0) == q;
        SettledStays(q, tps, k - 1);
      } else {
        CalmSettles(q, tps, k - 1);
      }
    }
  }

  /** From any proper policy of capacity at least one, the replica count is final after 1 + log2(current) steps. */
  lemma Settles(p: Policy, tps: real, k: nat)
    requires Proper(p) && p.throughput * p.current as real >= 1.0 && 1 + Log2(p.current) <= k
    ensures Settled(Iterate(p, tps, k), tps)
    ensures forall j: nat :: k <= j ==> Iterate(p, tps, j) == Iterate(p, tps, k)
  {
    assert Iterate(p, tps, 0) == p;
    ModeStep(p, tps);
    if EvaluateScale(p, tps).action == GoUp {
      UpSettlesAtOnce(p, tps);
      IterateSplit(p, tps, k - 1);
      SettledStays(Iterate(p, tps, 1), tps, k - 1);
    } else if EvaluateScale(p, tps).action == Keep {
      SettledStays(p, tps, k);
    } else {
      CalmSettles(p, tps, k);
    }
    forall j: nat | k <= j ensures Iterate(p, tps, j) == Iterate(p, tps, k) {
      StaysFrom(p, tps, k, j);
    }
  }

  lemma {:induction false} StaysFrom(p: Policy, tps: real, k: nat, j: nat)
    requires Settled(Iterate(p, tps, k), tps) && k <= j
    ensures Iterate(p, tps, j) == Iterate(p, tps, k)
  {
    if k < j {
      StaysFrom(p, tps, k, j - 1);
    }
  }

  /** A reported "up" grows the policy exactly when the load, in replicas, pays for one more replica at 60 percent;
      otherwise it is reported for ever and nothing changes. */
  lemma UpGrowsIff(p: Policy, tps: real)
    requires Proper(p) && EvaluateScale(p, tps).action == GoUp
    ensures Iterate(p, tps, 1).current > p.current <==>
        p.current as real * Load(p, tps) >= 0.6 * (p.current + 1) as real
    ensures Iterate(p, tps, 1).current > p.current || forall k: nat :: Iterate(p, tps, k) == p
  {
    assert Iterate(p, tps, 0) == p;
    UpEffect(p, tps);
    if Settled(p, tps) {
      forall k: nat ensures Iterate(p, tps, k) == p { SettledStays(p, tps, k); }
    }
  }

  // ---- the answer, from throughput, load and replica count alone ----

  /** Above 80 percent of the capacity the answer is "up", below 30 percent "down", unless the limit is reached, and
      otherwise the count stays. The capacity is throughput times replicas, but at least one. */
  lemma DecisionIff(p: Policy, tps: real)
    ensures
      var rated := p.throughput * p.current as real;
      var capacity := if rated >= 1.0 then rated else 1.0;
      && (EvaluateScale(p, tps).action == GoUp <==> tps > 0.8 * capacity && p.current < p.maxReplicas)
      && (EvaluateScale(p, tps).action == GoDown <==> tps < 0.3 * capacity && p.current > p.minReplicas)
      && (EvaluateScale(p, tps).action == Keep ==> EvaluateScale(p, tps).target == p.current)
  {
    LoadTests(p, tps, 0.8);
    LoadTests(p, tps, 0.3);
  }

  lemma LoadTests(p: Policy, tps: real, t: real)
    ensures Capacity(p) >= 1.0
    ensures Load(p, tps) > t <==> tps > t * Capacity(p)
    ensures Load(p, tps) < t <==> tps < t * Capacity(p)
  {
    QuotientTests(tps, Capacity(p), t);
  }

  /** "Up" asks for as many replicas as serve the load at 60 percent each, rounded down and cut off at the maximum;
      with a capacity below one, for the replicas times the load over 0.6. */
  lemma UpTarget(p: Policy, tps: real)
    requires EvaluateScale(p, tps).action == GoUp && p.current >= 1
    ensures p.throughput * p.current as real >= 1.0 ==>
      p.throughput > 0.0 && EvaluateScale(p, tps).target == Min(p.maxReplicas, (tps / (0.6 * p.throughput)).Floor)
    ensures p.throughput * p.current as real < 1.0 ==>
      EvaluateScale(p, tps).target == Min(p.maxReplicas, (p.current as real * tps / 0.6).Floor)
  {
    hide Load, Capacity;
    DecisionIff(p, tps);
    UpWish(p, tps);
  }

  /** The real number of replicas that "up" rounds down. */
  lemma UpWish(p: Policy, tps: real)
    requires p.current >= 1 && tps > 0.0
    ensures
      var want := p.current as real * (Load(p, tps) / 0.6);
      if p.throughput * p.current as real >= 1.0 then p.throughput > 0.0 && want == tps / (0.6 * p.throughput) >= 0.0
      else want == p.current as real * tps / 0.6 >= 0.0
  {
    if p.throughput * p.current as real >= 1.0 {
      WishIs(p.current as real, p.throughput, tps);
    }
  }

  lemma WishIs(n: real, throughput: real, tps: real)
    requires n >= 1.0 && throughput * n >= 1.0 && tps > 0.0
    ensures throughput > 0.0
    ensures n * (tps / (throughput * n) / 0.6) == tps / (0.6 * throughput) >= 0.0
  {
  }

  /** `int` cuts towards zero. */
  lemma TruncIs(x: real)
    ensures x >= 0.0 ==> Trunc(x) as real <= x < Trunc(x) as real + 1.0
    ensures x <= 0.0 ==> Trunc(x) as real - 1.0 < x <= Trunc(x) as real
  {
  }

  /** "Down" halves the replicas, rounding down, but not below the minimum. */
  lemma DownTarget(p: Policy, tps: real)
    requires EvaluateScale(p, tps).action == GoDown && p.current >= 0
    ensures EvaluateScale(p, tps).target == Max(p.minReplicas, p.current / 2)
  {
    assert (p.current as real * 0.5).Floor == p.current / 2;
  }

  /** The floor corner, a witness: three idle replicas drop to one, which then reports "up" for ever and stays one. */
  lemma FloorCorner(k: nat)
    ensures
      var p, q := Policy(1, 32, 100.0, 3), Policy(1, 32, 100.0, 1);
      && EvaluateScale(p, 85.0) == Decision(GoDown, 1)
      && EvaluateScale(q, 85.0) == Decision(GoUp, 1) && Iterate(q, 85.0, k) == q
  {
    SettledStays(Policy(1, 32, 100.0, 1), 85.0, k);
  }
}

module GpuPlacer {
  import opened Arith
  import opened Seqs

  datatype Placement = Placement(instance: nat, node: int, gpus: seq<int>)

  datatype PlaceError = NoGpus

  function ReplicaCount(replicas: int, perReplica: int, gpuCount: nat): nat {
    Max(0, Min(replicas, Max(1, gpuCount / Max(perReplica, 1))))
  }

  function Indices(start: int, perReplica: int, gpuCount: nat): seq<int> {
    seq(Max(0, perReplica), i => (start + i) % Max(gpuCount, 1))
  }

  function PlacementAt(r: nat, perReplica: int, gpuCount: nat): Placement {
    var start := (r * perReplica) % Max(gpuCount, 1);
    Placement(r, start / 4, Indices(start, perReplica, gpuCount))
  }

  function AllGpus(placements: seq<Placement>): seq<int> {
    if placements == [] then [] else AllGpus(placements[..|placements| - 1]) + placements[|placements| - 1].gpus
  }

  function Block(start: int, n: nat): seq<int> { seq(n, i => start + i) }

  /** The placement loop. With an empty GPU list the memory figure divides by zero as soon as a GPU is needed. */
  method DistributeAcrossGpus(replicas: int, perReplica: int, gpuCount: nat)
    returns (result: Result<seq<Placement>, PlaceError>)
    ensures result.Err? <==> gpuCount == 0 && perReplica >= 1 && replicas >= 1
    ensures result.Ok? ==> |result.value| == ReplicaCount(replicas, perReplica, gpuCount)
    ensures result.Ok? ==> forall r :: 0 <= r < |result.value| ==>
        result.value[r] == PlacementAt(r, perReplica, gpuCount)
    ensures result.Ok? && 1 <= perReplica <= gpuCount ==> AllGpus(result.value) == Block(0, |result.value| * perReplica)
  {
    var placements := [];
    var count := ReplicaCount(replicas, perReplica, gpuCount);
    for r := 0 to count
      invariant |placements| == r
      invariant forall k :: 0 <= k < r ==> placements[k] == PlacementAt(k, perReplica, gpuCount)
      invariant r > 0 ==> gpuCount > 0 || perReplica < 1
    {
      var start := (r * perReplica) % Max(gpuCount, 1);
      var indices := Indices(start, perReplica, gpuCount);
      if gpuCount == 0 && perReplica >= 1 {
        return Err(NoGpus);
      }
      placements := placements + [Placement(r, start / 4, indices)];
    }
    if 1 <= perReplica <= gpuCount {
      Contiguous(placements, replicas, perReplica, gpuCount);
    }
    result := Ok(placements);
  }

  lemma BlocksFit(count: nat, perReplica: nat, gpuCount: nat)
    requires perReplica >= 1 && count <= gpuCount / perReplica
    ensures count * perReplica <= gpuCount
  {
  }

  lemma CountFits(replicas: int, perReplica: nat, gpuCount: nat)
    requires 1 <= perReplica <= gpuCount
    ensures ReplicaCount(replicas, perReplica, gpuCount) == Max(0, Min(replicas, gpuCount / perReplica))
  {
  }

  lemma SmallMod(x: int, m: int)
    requires 0 <= x < m
    ensures x % m == x
  {
  }

  lemma BlockAt(start: nat, perReplica: nat, gpuCount: nat)
    requires start + perReplica <= gpuCount && perReplica >= 1
    ensures start % Max(gpuCount, 1) == start
    ensures Indices(start, perReplica, gpuCount) == Block(start, perReplica)
  {
    SmallMod(start, gpuCount);
    var (xs, ys) := (Indices(start, perReplica, gpuCount), Block(start, perReplica));
    forall i | 0 <= i < perReplica ensures xs[i] == ys[i] {
      SmallMod(start + i, gpuCount);
    }
  }

  /** Replica r holds the contiguous block of GPUs r * per .. (r + 1) * per. */
  lemma BlockOf(r: nat, replicas: int, perReplica: nat, gpuCount: nat)
    requires 1 <= perReplica <= gpuCount && r < ReplicaCount(replicas, perReplica, gpuCount)
    ensures r * perReplica + perReplica <= gpuCount
    ensures PlacementAt(r, perReplica, gpuCount).gpus == Block(r * perReplica, perReplica)
  {
    CountFits(replicas, perReplica, gpuCount);
    BlocksFit(r + 1, perReplica, gpuCount);
    assert (r + 1) * perReplica == r * perReplica + perReplica;
    BlockAt(r * perReplica, perReplica, gpuCount);
  }

  lemma Extend(n: nat, m: nat)
    ensures Block(0, n) + Block(n, m) == Block(0, n + m)
  {
  }

  lemma EmptyBlock(perReplica: nat)
    ensures Block(0, 0 * perReplica) == []
  {
  }

  /** Read in order, the placements use up the GPUs 0, 1, 2, ... one by one. */
  lemma {:induction false} Contiguous(placements: seq<Placement>, replicas: int, perReplica: nat, gpuCount: nat)
    requires 1 <= perReplica <= gpuCount && |placements| <= ReplicaCount(replicas, perReplica, gpuCount)
    requires forall r :: 0 <= r < |placements| ==> placements[r] == PlacementAt(r, perReplica, gpuCount)
    ensures AllGpus(placements) == Block(0, |placements| * perReplica)
  {
    hide PlacementAt, ReplicaCount, Block;
    if placements == [] {
      EmptyBlock(perReplica);
    } else {
      var r := |placements| - 1;
      Contiguous(placements[..r], replicas, perReplica, gpuCount);
      BlockOf(r, replicas, perReplica, gpuCount);
      assert (r + 1) * perReplica == r * perReplica + perReplica;
      Extend(r * perReplica, perReplica);
    }
  }

  predicate Distinct(xs: seq<int>) { forall i, j :: 0 <= i < j < |xs| ==> xs[i] != xs[j] }

  /** Exactly the right number of distinct, existing GPUs. */
  predicate WellFormed(p: Placement, perReplica: nat, gpuCount: nat) {
    |p.gpus| == perReplica && Distinct(p.gpus) && forall g :: g in p.gpus ==> 0 <= g < gpuCount
  }

  predicate Disjoint(p: Placement, q: Placement) { forall g :: g in p.gpus ==> g !in q.gpus }

  lemma BlockSound(r: nat, replicas: int, perReplica: nat, gpuCount: nat)
    requires 1 <= perReplica <= gpuCount && r < ReplicaCount(replicas, perReplica, gpuCount)
    ensures WellFormed(PlacementAt(r, perReplica, gpuCount), perReplica, gpuCount)
  {
    BlockOf(r, replicas, perReplica, gpuCount);
  }

  lemma BlocksApart(r: nat, q: nat, replicas: int, perReplica: nat, gpuCount: nat)
    requires 1 <= perReplica <= gpuCount && r < q < ReplicaCount(replicas, perReplica, gpuCount)
    ensures Disjoint(PlacementAt(r, perReplica, gpuCount), PlacementAt(q, perReplica, gpuCount))
  {
    BlockOf(r, replicas, perReplica, gpuCount);
    BlockOf(q, replicas, perReplica, gpuCount);
    IntMulMono(perReplica, r + 1, q);
    assert (r + 1) * perReplica == r * perReplica + perReplica;
  }

  /** No GPU is given to two replicas, every replica gets exactly its number of distinct existing GPUs, and a
      replica is refused only when less than one replica's worth of GPUs is left. */
  lemma SoundPlacement(replicas: int, perReplica: nat, gpuCount: nat)
    requires 1 <= perReplica <= gpuCount
    ensures
      var count := ReplicaCount(replicas, perReplica, gpuCount);
      && (forall r :: 0 <= r < count ==> WellFormed(PlacementAt(r, perReplica, gpuCount), perReplica, gpuCount))
      && (forall r, q :: 0 <= r < q < count ==>
            Disjoint(PlacementAt(r, perReplica, gpuCount), PlacementAt(q, perReplica, gpuCount)))
      && (count < replicas ==> 0 <= gpuCount - count * perReplica < perReplica)
  {
    hide WellFormed, Disjoint, PlacementAt;
    var count := ReplicaCount(replicas, perReplica, gpuCount);
    forall r | 0 <= r < count ensures WellFormed(PlacementAt(r, perReplica, gpuCount), perReplica, gpuCount) {
      BlockSound(r, replicas, perReplica, gpuCount);
    }
    forall r, q | 0 <= r < q < count
      ensures Disjoint(PlacementAt(r, perReplica, gpuCount), PlacementAt(q, perReplica, gpuCount))
    {
      BlocksApart(r, q, replicas, perReplica, gpuCount);
    }
    if count < replicas {
      CountFits(replicas, perReplica, gpuCount);
      assert gpuCount == (gpuCount / perReplica) * perReplica + gpuCount % perReplica;
    }
  }

  /** As many replicas as asked for and as fit side by side, but one if not even one fits. */
  lemma ReplicaCountIs(replicas: int, perReplica: int, gpuCount: nat)
    ensures
      var count := ReplicaCount(replicas, perReplica, gpuCount);
      && count <= Max(replicas, 0) && (replicas >= 1 ==> count >= 1)
      && (perReplica >= 1 ==> count <= 1 || count * perReplica <= gpuCount)
      && (perReplica >= 1 && count < replicas ==> (count + 1) * perReplica > gpuCount)
      && (perReplica < 1 ==> count == Max(0, Min(replicas, Max(1, gpuCount))))
  {
    if perReplica >= 1 {
      var q := gpuCount / perReplica;
      WholeReplicas(q, perReplica, gpuCount);
      var count := ReplicaCount(replicas, perReplica, gpuCount);
      if count <= q { IntMulMono(perReplica, count, q); }
      if count >= q { IntMulMono(perReplica, q + 1, count + 1); }
    }
  }

  lemma WholeReplicas(q: int, perReplica: nat, gpuCount: nat)
    requires perReplica >= 1 && q == gpuCount / perReplica
    ensures q * perReplica <= gpuCount < (q + 1) * perReplica
  {
    assert (q + 1) * perReplica == q * perReplica + perReplica;
  }

  /** Replica r starts at GPU r * per, counted round the list, and takes the following ones; its node is the one that
      holds the first, four GPUs to a node. */
  lemma PlacementIs(r: nat, perReplica: int, gpuCount: nat)
    ensures
      var (p, round) := (PlacementAt(r, perReplica, gpuCount), if gpuCount == 0 then 1 else gpuCount);
      && p.instance == r && |p.gpus| == (if perReplica >= 1 then perReplica else 0)
      && 4 * p.node <= (r * perReplica) % round < 4 * p.node + 4
      && forall i :: 0 <= i < perReplica ==> p.gpus[i] == (r * perReplica + i) % round
  {
    var (p, round) := (PlacementAt(r, perReplica, gpuCount), if gpuCount == 0 then 1 else gpuCount);
    forall i | 0 <= i < perReplica ensures p.gpus[i] == (r * perReplica + i) % round {
      ModPlus(r * perReplica, i, round);
    }
  }

  lemma ModPlus(a: nat, i: nat, m: nat)
    requires m >= 1
    ensures (a % m + i) % m == (a + i) % m
  {
    var (q, q') := (a / m, (a % m + i) / m);
    var rest := (a % m + i) % m;
    assert a + i == (q + q') * m + rest by {
      assert a == q * m + a % m && a % m + i == q' * m + rest;
      assert (q + q') * m == q * m + q' * m;
    }
    RemainderIs(a + i, m, q + q', rest);
  }

  lemma RemainderIs(x: nat, m: nat, q: nat, rest: nat)
    requires m >= 1 && x == q * m + rest && rest < m
    ensures x % m == rest
  {
    var (p, s) := (x / m, x % m);
    assert x == p * m + s;
    if p < q { IntMulMono(m, p + 1, q); }
    if q < p { IntMulMono(m, q + 1, p); }
    assert (p + 1) * m == p * m + m && (q + 1) * m == q * m + m;
  }

  /** Asked for more GPUs per replica than exist, the only placement wraps round: its GPUs repeat. */
  lemma DistinctIff(perReplica: nat, gpuCount: nat)
    requires gpuCount >= 1
    ensures Distinct(PlacementAt(0, perReplica, gpuCount).gpus) <==> perReplica <= gpuCount
  {
    assert 0 * perReplica == 0;
    var gpus := PlacementAt(0, perReplica, gpuCount).gpus;
    if perReplica > gpuCount {
      assert gpus[0] == 0 && gpus[gpuCount] == 0;
    } else if perReplica >= 1 {
      BlockAt(0, perReplica, gpuCount);
    }
  }
}
