/** The GPU node autoscaler of src/gpuopt/autoscaler.py: what each operation computes.
    A node list stands for the API server's nodes. An API call either answers or raises; since the code
    gives up at the first call that raises, an outage is "the first `calls` calls answer". */
module AutoscalerSpec {
  import opened Seqs

  /** Names of created nodes are formatted from group, second and index; other names are opaque. */
  datatype NodeName = Given(id: string) | Scaled(group: string, stamp: int, index: nat)

  datatype Node = Node(name: NodeName, group: string, gpuNode: bool, gpus: nat)

  datatype Direction = Up | Down

  /** `at` is the moment written to the event; `auto` is false for manual requests. */
  datatype ScaleEvent = ScaleEvent(direction: Direction, group: string, delta: int, auto: bool, at: real,
                                   executed: bool, target: int)

  datatype Config = Config(upThreshold: real, downThreshold: real, increment: int, decrement: int,
                           cooldown: real, minNodes: int, maxNodes: int, groups: seq<string>)

  datatype State = State(nodes: seq<Node>, events: seq<ScaleEvent>, lastScale: real)

  /** What one pass of the control loop meets: clock readings on entry, at the event and at the end, the pod
      requests, the capacity that created nodes report, and which calls raise. */
  datatype Cycle = Cycle(now: real, at: real, done: real, stamp: int, pods: seq<seq<nat>>, gpus: nat,
                         utilFault: bool, checkFault: bool, countFault: bool, calls: nat)

  datatype Manual = Manual(group: string, target: int, at: real, stamp: int, gpus: nat,
                           firstSizeFault: bool, secondSizeFault: bool, calls: nat)

  // ---- cluster queries ----

  function IsGpu(): Node -> bool { (n: Node) => n.gpuNode }

  function InGroup(g: string): Node -> bool { (n: Node) => n.group == g }

  function NotInGroup(g: string): Node -> bool { (n: Node) => n.group != g }

  function OtherThan(name: NodeName): Node -> bool { (n: Node) => n.name != name }

  function GpuNodes(nodes: seq<Node>): seq<Node> { Filter(IsGpu(), nodes) }

  function Group(nodes: seq<Node>, g: string): seq<Node> { Filter(InGroup(g), nodes) }

  function Others(nodes: seq<Node>, g: string): seq<Node> { Filter(NotInGroup(g), nodes) }

  predicate HasName(nodes: seq<Node>, name: NodeName) {
    exists n :: n in nodes && n.name == name
  }

  predicate UniqueNames(nodes: seq<Node>) {
    nodes == [] || (!HasName(nodes[1..], nodes[0].name) && UniqueNames(nodes[1..]))
  }

  function Capacity(nodes: seq<Node>): nat {
    if nodes == [] then 0 else Capacity(nodes[..|nodes| - 1]) + nodes[|nodes| - 1].gpus
  }

  function Sum(xs: seq<nat>): nat {
    if xs == [] then 0 else Sum(xs[..|xs| - 1]) + xs[|xs| - 1]
  }

  function Requested(pods: seq<seq<nat>>): nat {
    if pods == [] then 0 else Requested(pods[..|pods| - 1]) + Sum(pods[|pods| - 1])
  }

  function TotalNodes(nodes: seq<Node>, fault: bool): nat {
    if fault then 0 else |GpuNodes(nodes)|
  }

  function Utilization(nodes: seq<Node>, pods: seq<seq<nat>>, fault: bool): real {
    if fault then 50.0
    else if Capacity(GpuNodes(nodes)) == 0 then 0.0
    else (Requested(pods) as real / Capacity(GpuNodes(nodes)) as real) * 100.0
  }

  function SelectNodeGroup(cfg: Config): string {
    if cfg.groups != [] then cfg.groups[0] else "default-gpu-group"
  }

  // ---- resizing one group ----

  function NewNode(g: string, stamp: int, index: nat, gpus: nat): Node {
    Node(Scaled(g, stamp, index), g, true, gpus)
  }

  /** Creating nodes `index..count`; a name conflict or an outage ends the loop early. */
  function Create(nodes: seq<Node>, g: string, stamp: int, gpus: nat, index: nat, count: nat, calls: nat)
    : (seq<Node>, bool)
    decreases count - index
  {
    if index >= count then (nodes, true)
    else if calls == 0 || HasName(nodes, Scaled(g, stamp, index)) then (nodes, false)
    else Create(nodes + [NewNode(g, stamp, index, gpus)], g, stamp, gpus, index + 1, count, calls - 1)
  }

  /** Deleting the victims one by one, by name. */
  function Remove(nodes: seq<Node>, victims: seq<Node>, calls: nat): (seq<Node>, bool)
    decreases |victims|
  {
    if victims == [] then (nodes, true)
    else if calls == 0 then (nodes, false)
    else Remove(Filter(OtherThan(victims[0].name), nodes), victims[1..], calls - 1)
  }

  /** `nodes[:abs(delta)]` of the group listing, for a target below the current size. */
  function Victims(nodes: seq<Node>, g: string, target: int): seq<Node> {
    var listed := Group(nodes, g);
    listed[..Min(|listed|, Max(|listed| - target, 0))]
  }

  function Resize(nodes: seq<Node>, g: string, target: int, stamp: int, gpus: nat, calls: nat)
    : (seq<Node>, bool)
  {
    var current := |Group(nodes, g)|;
    if calls == 0 then (nodes, false)
    else if target > current then Create(nodes, g, stamp, gpus, 0, target - current, calls - 1)
    else Remove(nodes, Victims(nodes, g, target), calls - 1)
  }

  // ---- the control loop ----

  function ScaleTo(cfg: Config, s: State, c: Cycle, direction: Direction, delta: int, target: int): State {
    var g := SelectNodeGroup(cfg);
    var (nodes, ok) := Resize(s.nodes, g, target, c.stamp, c.gpus, c.calls);
    State(nodes, s.events + [ScaleEvent(direction, g, delta, true, c.at, ok, target)], c.done)
  }

  function ScaleUp(cfg: Config, s: State, c: Cycle): State {
    var total := TotalNodes(s.nodes, c.countFault);
    if total >= cfg.maxNodes then s
    else
      var delta := Min(cfg.increment, cfg.maxNodes - total);
      ScaleTo(cfg, s, c, Up, delta, total + delta)
  }

  function ScaleDown(cfg: Config, s: State, c: Cycle): State {
    var total := TotalNodes(s.nodes, c.countFault);
    if total <= cfg.minNodes then s
    else
      var delta := Min(cfg.decrement, total - cfg.minNodes);
      ScaleTo(cfg, s, c, Down, delta, total - delta)
  }

  function AutoscaleCycle(cfg: Config, s: State, c: Cycle): State {
    var util := Utilization(s.nodes, c.pods, c.utilFault);
    if c.now - s.lastScale < cfg.cooldown then s
    else if util >= cfg.upThreshold then ScaleUp(cfg, s, c)
    else if util <= cfg.downThreshold && TotalNodes(s.nodes, c.checkFault) > cfg.minNodes then ScaleDown(cfg, s, c)
    else s
  }

  function GroupSize(nodes: seq<Node>, g: string, fault: bool): nat {
    if fault then 0 else |Group(nodes, g)|
  }

  /** An operator's request: not clamped to the limits and without effect on the cooldown. */
  function ScaleManual(s: State, m: Manual): State {
    var direction := if m.target > GroupSize(s.nodes, m.group, m.firstSizeFault) then Up else Down;
    var delta := Abs(m.target - GroupSize(s.nodes, m.group, m.secondSizeFault));
    var (nodes, ok) := Resize(s.nodes, m.group, m.target, m.stamp, m.gpus, m.calls);
    State(nodes, s.events + [ScaleEvent(direction, m.group, delta, false, m.at, ok, m.target)], s.lastScale)
  }

  // ---- runs ----

  datatype Step = Auto(cycle: Cycle) | Operator(request: Manual)

  function Do(cfg: Config, s: State, step: Step): State {
    match step
    case Auto(c) => AutoscaleCycle(cfg, s, c)
    case Operator(m) => ScaleManual(s, m)
  }

  /** The state after the first `k` steps. */
  function After(cfg: Config, s: State, steps: seq<Step>, k: nat): State
    requires k <= |steps|
  {
    if k == 0 then s else Do(cfg, After(cfg, s, steps, k - 1), steps[k - 1])
  }
}

/** What a resize leaves behind, whether it finishes or raises part way. */
module AutoscalerResize {
  import opened Seqs
  import opened AutoscalerSpec

  lemma {:induction false} UniqueFilter(nodes: seq<Node>, p: Node -> bool)
    requires UniqueNames(nodes)
    ensures UniqueNames(Filter(p, nodes))
  {
    if nodes != [] {
      UniqueFilter(nodes[1..], p);
      forall n | n in Filter(p, nodes[1..]) ensures n.name != nodes[0].name {
        FilterMember(p, nodes[1..], n);
      }
      assert p(nodes[0]) ==> Filter(p, nodes)[1..] == Filter(p, nodes[1..]);
      assert !p(nodes[0]) ==> Filter(p, nodes) == Filter(p, nodes[1..]);
    }
  }

  lemma {:induction false} UniqueAppend(nodes: seq<Node>, n: Node)
    requires UniqueNames(nodes) && !HasName(nodes, n.name)
    ensures UniqueNames(nodes + [n])
  {
    if nodes != [] {
      assert forall x :: x in nodes[1..] ==> x in nodes;
      UniqueAppend(nodes[1..], n);
      assert (nodes + [n])[1..] == nodes[1..] + [n];
      assert nodes[0].name != n.name;
    }
  }

  lemma DropHead(listed: seq<Node>)
    requires UniqueNames(listed) && listed != []
    ensures Filter(OtherThan(listed[0].name), listed) == listed[1..]
  {
    var other := OtherThan(listed[0].name);
    assert listed == [listed[0]] + listed[1..];
    FilterCons(other, listed[0], listed[1..]);
    assert forall x :: x in listed[1..] ==> other(x);
    FilterAll(other, listed[1..]);
  }

  lemma OthersAvoid(nodes: seq<Node>, g: string, member: Node)
    requires UniqueNames(nodes) && member in nodes && member.group == g
    ensures Filter(OtherThan(member.name), Others(nodes, g)) == Others(nodes, g)
  {
    forall x | x in Others(nodes, g) ensures OtherThan(member.name)(x) {
      FilterMember(NotInGroup(g), nodes, x);
      SameNameSameNode(nodes, x, member);
    }
    FilterAll(OtherThan(member.name), Others(nodes, g));
  }

  /** With unique names, deleting the group's first node by name drops exactly that node. */
  lemma RemoveFirst(nodes: seq<Node>, g: string)
    requires UniqueNames(nodes) && Group(nodes, g) != []
    ensures
      var rest := Filter(OtherThan(Group(nodes, g)[0].name), nodes);
      UniqueNames(rest) && Group(rest, g) == Group(nodes, g)[1..] && Others(rest, g) == Others(nodes, g)
  {
    hide Filter, UniqueNames;
    var victim := Group(nodes, g)[0];
    FilterMember(InGroup(g), nodes, victim);
    UniqueFilter(nodes, OtherThan(victim.name));
    UniqueFilter(nodes, InGroup(g));
    DropHead(Group(nodes, g));
    FilterCommute(InGroup(g), OtherThan(victim.name), nodes);
    OthersAvoid(nodes, g, victim);
    FilterCommute(NotInGroup(g), OtherThan(victim.name), nodes);
  }

  lemma {:induction false} SameNameSameNode(nodes: seq<Node>, x: Node, y: Node)
    requires UniqueNames(nodes) && x in nodes && y in nodes
    ensures x.name == y.name ==> x == y
  {
    if x in nodes[1..] && y in nodes[1..] {
      SameNameSameNode(nodes[1..], x, y);
    }
  }

  /** Deleting the first k nodes of the group listing, with `calls` calls answered. */
  lemma {:induction false} RemoveEffect(nodes: seq<Node>, g: string, victims: seq<Node>, calls: nat)
    requires UniqueNames(nodes) && victims <= Group(nodes, g)
    ensures
      var r := Remove(nodes, victims, calls);
      && UniqueNames(r.0)
      && Group(r.0, g) == Group(nodes, g)[Min(|victims|, calls)..]
      && Others(r.0, g) == Others(nodes, g)
      && (r.1 <==> |victims| <= calls)
    decreases |victims|
  {
    hide UniqueNames, Group, Others, Filter;
    var listed := Group(nodes, g);
    if victims != [] && calls != 0 {
      assert victims[0] == listed[0] && victims[1..] <= listed[1..];
      RemoveFirst(nodes, g);
      RemoveEffect(Filter(OtherThan(victims[0].name), nodes), g, victims[1..], calls - 1);
      assert listed[1..][Min(|victims| - 1, calls - 1)..] == listed[Min(|victims|, calls)..];
    } else {
      assert listed[0..] == listed;
    }
  }

  /** A new node joins its own group only, at the end. */
  lemma JoinEffect(nodes: seq<Node>, g: string, n: Node)
    requires n.group == g
    ensures Group(nodes + [n], g) == Group(nodes, g) + [n] && Others(nodes + [n], g) == Others(nodes, g)
  {
    FilterConcat(InGroup(g), nodes, [n]);
    FilterConcat(NotInGroup(g), nodes, [n]);
  }

  /** Every node of `r` was there before or is a new GPU node of the group. */
  predicate OnlyNew(nodes: seq<Node>, r: seq<Node>, g: string, gpus: nat) {
    forall n :: n in r ==> n in nodes || (n.group == g && n.gpuNode && n.gpus == gpus)
  }

  lemma {:induction false} CreateEffect(nodes: seq<Node>, g: string, stamp: int, gpus: nat, index: nat,
                                        count: nat, calls: nat)
    requires UniqueNames(nodes) && index <= count
    ensures
      var (r, ok) := Create(nodes, g, stamp, gpus, index, count, calls);
      && UniqueNames(r)
      && nodes <= r
      && OnlyNew(nodes, r, g, gpus)
      && Group(nodes, g) <= Group(r, g)
      && |Group(r, g)| == |Group(nodes, g)| + |r| - |nodes|
      && Others(r, g) == Others(nodes, g)
      && |r| - |nodes| <= Min(count - index, calls)
      && (ok <==> |r| - |nodes| == count - index)
    decreases count - index
  {
    hide UniqueNames, Group, Others, Filter;
    if index < count && calls != 0 && !HasName(nodes, Scaled(g, stamp, index)) {
      var n := NewNode(g, stamp, index, gpus);
      UniqueAppend(nodes, n);
      JoinEffect(nodes, g, n);
      CreateEffect(nodes + [n], g, stamp, gpus, index + 1, count, calls - 1);
    }
  }

  /** No node carries a name made in this second. */
  ghost predicate FreshStamp(nodes: seq<Node>, g: string, stamp: int) {
    forall i: nat :: !HasName(nodes, Scaled(g, stamp, i))
  }

  lemma {:induction false} CreateSucceeds(nodes: seq<Node>, g: string, stamp: int, gpus: nat, index: nat,
                                          count: nat, calls: nat)
    requires index <= count && count - index <= calls
    requires forall i: nat :: index <= i ==> !HasName(nodes, Scaled(g, stamp, i))
    ensures Create(nodes, g, stamp, gpus, index, count, calls).1
    decreases count - index
  {
    if index < count {
      var more := nodes + [NewNode(g, stamp, index, gpus)];
      assert forall i: nat :: index + 1 <= i ==> !HasName(nodes, Scaled(g, stamp, i));
      CreateSucceeds(more, g, stamp, gpus, index + 1, count, calls - 1);
    }
  }

  /** Between the old size and the target, and on the target iff the call reported success. */
  predicate Landed(before: nat, after: nat, target: int, ok: bool) {
    && (target >= before ==> before <= after <= target)
    && (target < before ==> Max(target, 0) <= after <= before)
    && (ok ==> after == Max(target, 0))
    && (!ok && before != Max(target, 0) ==> after != Max(target, 0))
  }

  /** What `set_node_group_size` may leave: growth only appends to the group, shrinking only drops from the
      front of its listing, and every other group is untouched. */
  predicate Resized(nodes: seq<Node>, r: seq<Node>, ok: bool, g: string, target: int, gpus: nat) {
    var before, after := Group(nodes, g), Group(r, g);
    && UniqueNames(r)
    && OnlyNew(nodes, r, g, gpus)
    && Others(r, g) == Others(nodes, g)
    && Landed(|before|, |after|, target, ok)
    && (target >= |before| ==> before <= after)
    && (target < |before| ==> after == before[|before| - |after|..])
  }

  /** The contract of `set_node_group_size`, also when a call raises part way. */
  lemma ResizeEffect(nodes: seq<Node>, g: string, target: int, stamp: int, gpus: nat, calls: nat)
    requires UniqueNames(nodes)
    ensures
      var r := Resize(nodes, g, target, stamp, gpus, calls);
      Resized(nodes, r.0, r.1, g, target, gpus)
  {
    hide Resized, UniqueNames, Create, Remove, Victims, Filter;
    if calls == 0 {
      Untouched(nodes, g, target, gpus);
    } else if target > |Group(nodes, g)| {
      GrowEffect(nodes, g, target, stamp, gpus, calls - 1);
    } else {
      ShrinkEffect(nodes, g, target, gpus, calls - 1);
    }
  }

  lemma Untouched(nodes: seq<Node>, g: string, target: int, gpus: nat)
    requires UniqueNames(nodes)
    ensures Resized(nodes, nodes, false, g, target, gpus)
  {
  }

  lemma GrowEffect(nodes: seq<Node>, g: string, target: int, stamp: int, gpus: nat, calls: nat)
    requires UniqueNames(nodes) && target > |Group(nodes, g)|
    ensures
      var r := Create(nodes, g, stamp, gpus, 0, target - |Group(nodes, g)|, calls);
      Resized(nodes, r.0, r.1, g, target, gpus)
  {
    CreateEffect(nodes, g, stamp, gpus, 0, target - |Group(nodes, g)|, calls);
  }

  lemma ShrinkEffect(nodes: seq<Node>, g: string, target: int, gpus: nat, calls: nat)
    requires UniqueNames(nodes) && target <= |Group(nodes, g)|
    ensures
      var r := Remove(nodes, Victims(nodes, g, target), calls);
      Resized(nodes, r.0, r.1, g, target, gpus)
  {
    hide Filter, Remove, UniqueNames, Group, Others;
    RemoveEffect(nodes, g, Victims(nodes, g, target), calls);
    RemoveSubset(nodes, Victims(nodes, g, target), calls);
    assert Group(nodes, g)[0..] == Group(nodes, g);
  }

  lemma {:induction false} RemoveSubset(nodes: seq<Node>, victims: seq<Node>, calls: nat)
    ensures forall n :: n in Remove(nodes, victims, calls).0 ==> n in nodes
    decreases |victims|
  {
    if victims != [] && calls != 0 {
      var rest := Filter(OtherThan(victims[0].name), nodes);
      RemoveSubset(rest, victims[1..], calls - 1);
      forall n | n in rest ensures n in nodes { FilterMember(OtherThan(victims[0].name), nodes, n); }
    }
  }
}

/** Claims over whole runs, for the case the code is written for: one group holds all GPU nodes. */
module AutoscalerRuns {
  import opened Arith
  import opened Seqs
  import opened AutoscalerSpec
  import opened AutoscalerResize

  predicate OneGroup(nodes: seq<Node>, g: string) {
    UniqueNames(nodes) && forall n :: n in nodes ==> (n.gpuNode <==> n.group == g)
  }

  predicate EqualNodes(nodes: seq<Node>, gpus: nat) {
    forall n :: n in nodes && n.gpuNode ==> n.gpus == gpus
  }

  function Size(s: State): nat { |GpuNodes(s.nodes)| }

  predicate SaneLimits(cfg: Config) {
    cfg.minNodes <= cfg.maxNodes && cfg.increment >= 0 && cfg.decrement >= 0
  }

  /** How far a size is outside the configured limits. */
  function Excess(cfg: Config, n: int): nat {
    Max(0, Max(cfg.minNodes - n, n - cfg.maxNodes))
  }

  /** The cooldown is over. */
  predicate Eligible(cfg: Config, s: State, c: Cycle) {
    c.now - s.lastScale >= cfg.cooldown
  }

  /** The target of the resize that a cycle asks for, if it asks for one. */
  function Target(cfg: Config, s: State, c: Cycle): Option<int> {
    var util, total := Utilization(s.nodes, c.pods, c.utilFault), TotalNodes(s.nodes, c.countFault);
    if !Eligible(cfg, s, c) then None
    else if util >= cfg.upThreshold then
      if total >= cfg.maxNodes then None else Some(Min(total + cfg.increment, cfg.maxNodes))
    else if util <= cfg.downThreshold && TotalNodes(s.nodes, c.checkFault) > cfg.minNodes && total > cfg.minNodes then
      Some(Max(total - cfg.decrement, cfg.minNodes))
    else None
  }

  lemma GroupIsAll(nodes: seq<Node>, g: string)
    requires OneGroup(nodes, g)
    ensures GpuNodes(nodes) == Group(nodes, g)
  {
    FilterSame(IsGpu(), InGroup(g), nodes);
  }

  lemma ResizeKeepsGroup(nodes: seq<Node>, g: string, target: int, stamp: int, gpus: nat, calls: nat)
    requires OneGroup(nodes, g)
    ensures
      var r := Resize(nodes, g, target, stamp, gpus, calls);
      && OneGroup(r.0, g)
      && (EqualNodes(nodes, gpus) ==> EqualNodes(r.0, gpus))
      && Landed(|GpuNodes(nodes)|, |GpuNodes(r.0)|, target, r.1)
  {
    ResizeEffect(nodes, g, target, stamp, gpus, calls);
    GroupIsAll(nodes, g);
    GroupIsAll(Resize(nodes, g, target, stamp, gpus, calls).0, g);
  }

  /** A resize to a target, its event and the start of the cooldown. */
  lemma ScaleToEffect(cfg: Config, s: State, c: Cycle, direction: Direction, delta: int, target: int)
    requires OneGroup(s.nodes, SelectNodeGroup(cfg))
    ensures
      var s' := ScaleTo(cfg, s, c, direction, delta, target);
      && OneGroup(s'.nodes, SelectNodeGroup(cfg))
      && (EqualNodes(s.nodes, c.gpus) ==> EqualNodes(s'.nodes, c.gpus))
      && s.events + [s'.events[|s.events|]] == s'.events
      && Landed(Size(s), Size(s'), target, s'.events[|s.events|].executed)
  {
    ResizeKeepsGroup(s.nodes, SelectNodeGroup(cfg), target, c.stamp, c.gpus, c.calls);
  }

  /** A cycle asks for nothing and changes nothing, or is one resize to its target. */
  lemma CycleIsScaleTo(cfg: Config, s: State, c: Cycle)
    ensures
      var t, s' := Target(cfg, s, c), AutoscaleCycle(cfg, s, c);
      && (t.None? ==> s' == s)
      && (t.Some? ==>
            var up := Utilization(s.nodes, c.pods, c.utilFault) >= cfg.upThreshold;
            && Eligible(cfg, s, c)
            && s' == ScaleTo(cfg, s, c, if up then Up else Down,
                Distance(t.value, TotalNodes(s.nodes, c.countFault), up), t.value))
  {
  }

  /** The signed distance that the event reports, seen from the direction of the resize. */
  function Distance(target: int, total: int, up: bool): int { if up then target - total else total - target }

  /** One cycle in terms of sizes: it changes nothing, or logs one event and lands between the old size and its
      target. */
  lemma CycleEffect(cfg: Config, s: State, c: Cycle)
    requires OneGroup(s.nodes, SelectNodeGroup(cfg))
    ensures
      var t, s' := Target(cfg, s, c), AutoscaleCycle(cfg, s, c);
      && OneGroup(s'.nodes, SelectNodeGroup(cfg))
      && (EqualNodes(s.nodes, c.gpus) ==> EqualNodes(s'.nodes, c.gpus))
      && (t.None? ==> s' == s)
      && (t.Some? ==>
            && s.events + [s'.events[|s.events|]] == s'.events
            && Landed(Size(s), Size(s'), t.value, s'.events[|s.events|].executed))
  {
    CycleIsScaleTo(cfg, s, c);
    var t := Target(cfg, s, c);
    if t.Some? {
      var up := Utilization(s.nodes, c.pods, c.utilFault) >= cfg.upThreshold;
      ScaleToEffect(cfg, s, c, if up then Up else Down,
          Distance(t.value, TotalNodes(s.nodes, c.countFault), up), t.value);
    }
  }

  /** The size a shrinking resize stops at when the API goes away part way. */
  lemma ShrinkSize(nodes: seq<Node>, g: string, target: int, stamp: int, gpus: nat, calls: nat)
    requires OneGroup(nodes, g) && target <= |GpuNodes(nodes)| && calls > 0
    ensures
      var n := |GpuNodes(nodes)|;
      |GpuNodes(Resize(nodes, g, target, stamp, gpus, calls).0)| == n - Min(Min(n, n - target), calls - 1)
  {
    GroupIsAll(nodes, g);
    RemoveEffect(nodes, g, Victims(nodes, g, target), calls - 1);
    ResizeKeepsGroup(nodes, g, target, stamp, gpus, calls);
    GroupIsAll(Resize(nodes, g, target, stamp, gpus, calls).0, g);
  }

  // ---- limits ----

  /** The failing family: the node count inside `_scale_up` raised and was read as zero, so the "scale up" asks
      for fewer nodes than the lowest size that is not further out, and enough deletions are answered to get below
      that size. Started inside the limits that size is the minimum. */
  predicate BlindScaleUp(cfg: Config, s: State, c: Cycle) {
    var floor := cfg.minNodes - Excess(cfg, Size(s));
    && Eligible(cfg, s, c)
    && Utilization(s.nodes, c.pods, c.utilFault) >= cfg.upThreshold
    && c.countFault && 0 < cfg.maxNodes
    && Min(cfg.increment, cfg.maxNodes) < floor
    && c.calls - 1 > Size(s) - floor
  }

  /** From every size, a cycle moves further outside the limits exactly when it is a blind scale-up. */
  lemma FurtherOutIff(cfg: Config, s: State, c: Cycle)
    requires OneGroup(s.nodes, SelectNodeGroup(cfg)) && SaneLimits(cfg)
    ensures Excess(cfg, Size(AutoscaleCycle(cfg, s, c))) <= Excess(cfg, Size(s)) <==> !BlindScaleUp(cfg, s, c)
  {
    hide OneGroup, Utilization, Filter, EqualNodes, AutoscaleCycle, Create, Remove;
    CycleEffect(cfg, s, c);
    CycleIsScaleTo(cfg, s, c);
    var t := Target(cfg, s, c);
    if t.Some? && c.countFault && t.value < Size(s) && c.calls > 0 {
      ShrinkSize(s.nodes, SelectNodeGroup(cfg), t.value, c.stamp, c.gpus, c.calls);
    }
  }

  /** A cycle that starts inside the limits ends inside them exactly when it is not a blind scale-up. */
  lemma StaysInsideIff(cfg: Config, s: State, c: Cycle)
    requires OneGroup(s.nodes, SelectNodeGroup(cfg)) && SaneLimits(cfg)
    requires cfg.minNodes <= Size(s) <= cfg.maxNodes
    ensures cfg.minNodes <= Size(AutoscaleCycle(cfg, s, c)) <= cfg.maxNodes <==> !BlindScaleUp(cfg, s, c)
  {
    FurtherOutIff(cfg, s, c);
  }

  /** Witnesses of the failing family, one for every minimum from two on: a "scale up" at full load deletes one of
      two nodes, from a size inside the limits or already below them. */
  lemma BlindScaleUpExample(minNodes: int)
    requires 2 <= minNodes <= 20
    ensures
      var nodes := [NewNode("g", 0, 0, 8), NewNode("g", 0, 1, 8)];
      var cfg := Config(80.0, 30.0, 1, 1, 300.0, minNodes, 20, ["g"]);
      var c := Cycle(300.0, 300.0, 300.0, 1, [[16]], 8, false, false, true, 2);
      var s := State(nodes, [], 0.0);
      && OneGroup(nodes, "g") && Size(s) == 2 && Size(AutoscaleCycle(cfg, s, c)) == 1
      && Excess(cfg, 1) == Excess(cfg, 2) + 1
  {
    var nodes := [NewNode("g", 0, 0, 8), NewNode("g", 0, 1, 8)];
    var cfg := Config(80.0, 30.0, 1, 1, 300.0, minNodes, 20, ["g"]);
    var s := State(nodes, [], 0.0);
    var c := Cycle(300.0, 300.0, 300.0, 1, [[16]], 8, false, false, true, 2);
    assert UniqueNames(nodes) by { assert nodes[1..] == [NewNode("g", 0, 1, 8)]; }
    FilterAll(IsGpu(), nodes);
    CapacityOfEqual(nodes, 8);
    assert Sum([16]) == 16 by { assert [16][..0] == []; }
    assert Requested([[16]]) == 16 by { assert [[16]][..0] == []; }
    assert Target(cfg, s, c) == Some(1);
    ShrinkSize(nodes, "g", 1, 1, 8, 2);
  }

  lemma {:induction false} CapacityOfEqual(nodes: seq<Node>, gpus: nat)
    requires forall n :: n in nodes ==> n.gpus == gpus
    ensures Capacity(nodes) == |nodes| * gpus
  {
    if nodes != [] {
      CapacityOfEqual(nodes[..|nodes| - 1], gpus);
    }
  }

  /** Operators resize the engine's own group. */
  predicate OwnGroup(cfg: Config, steps: seq<Step>) {
    forall k :: 0 <= k < |steps| && steps[k].Operator? ==> steps[k].request.group == SelectNodeGroup(cfg)
  }

  lemma {:induction false} RunKeepsGroup(cfg: Config, s: State, steps: seq<Step>, k: nat)
    requires k <= |steps| && OneGroup(s.nodes, SelectNodeGroup(cfg)) && OwnGroup(cfg, steps)
    ensures OneGroup(After(cfg, s, steps, k).nodes, SelectNodeGroup(cfg))
  {
    if k > 0 {
      RunKeepsGroup(cfg, s, steps, k - 1);
      var before := After(cfg, s, steps, k - 1);
      match steps[k - 1]
      case Auto(c) => CycleEffect(cfg, before, c);
      case Operator(m) => ResizeKeepsGroup(before.nodes, m.group, m.target, m.stamp, m.gpus, m.calls);
    }
  }

  /** In any run with manual resizes of any size in between and any calls raising, an automatic step moves the size
      further outside the limits exactly when it is a blind scale-up. */
  lemma NeverFurtherOut(cfg: Config, s: State, steps: seq<Step>, k: nat)
    requires k < |steps| && steps[k].Auto?
    requires OneGroup(s.nodes, SelectNodeGroup(cfg)) && OwnGroup(cfg, steps) && SaneLimits(cfg)
    ensures Excess(cfg, Size(After(cfg, s, steps, k + 1))) <= Excess(cfg, Size(After(cfg, s, steps, k))) <==>
      !BlindScaleUp(cfg, After(cfg, s, steps, k), steps[k].cycle)
  {
    RunKeepsGroup(cfg, s, steps, k);
    FurtherOutIff(cfg, After(cfg, s, steps, k), steps[k].cycle);
  }

  // ---- the event log accounts for the size ----

  function SignedDelta(e: ScaleEvent): int { if e.direction == Up then e.delta else -e.delta }

  function NetChange(events: seq<ScaleEvent>): int {
    if events == [] then 0 else NetChange(events[..|events| - 1]) + SignedDelta(events[|events| - 1])
  }

  predicate AllExecuted(events: seq<ScaleEvent>) { forall e :: e in events ==> e.executed }

  /** All reads are answered, and operators ask for possible sizes of the engine's own group. */
  predicate ReadsAnswered(cfg: Config, step: Step) {
    match step
    case Auto(c) => !c.countFault
    case Operator(m) => m.group == SelectNodeGroup(cfg) && m.target >= 0 && !m.firstSizeFault && !m.secondSizeFault
  }

  lemma OneStepAccounts(cfg: Config, s: State, step: Step)
    requires OneGroup(s.nodes, SelectNodeGroup(cfg)) && SaneLimits(cfg) && 0 <= cfg.minNodes && ReadsAnswered(cfg, step)
    ensures
      var s' := Do(cfg, s, step);
      && OneGroup(s'.nodes, SelectNodeGroup(cfg))
      && s.events <= s'.events
      && (AllExecuted(s'.events) ==> Size(s') == Size(s) + NetChange(s'.events) - NetChange(s.events))
  {
    var s' := Do(cfg, s, step);
    match step
    case Auto(c) =>
      CycleEffect(cfg, s, c);
      CycleIsScaleTo(cfg, s, c);
    case Operator(m) =>
      ResizeKeepsGroup(s.nodes, m.group, m.target, m.stamp, m.gpus, m.calls);
      GroupIsAll(s.nodes, m.group);
    if |s'.events| > |s.events| {
      assert s'.events == s.events + [s'.events[|s.events|]];
      assert s'.events[..|s'.events| - 1] == s.events;
    }
  }

  /** As long as every resize in the log was executed, the size is the initial one plus the logged changes. */
  lemma {:induction false} LogAccounts(cfg: Config, s: State, steps: seq<Step>, k: nat)
    requires k <= |steps| && OneGroup(s.nodes, SelectNodeGroup(cfg)) && SaneLimits(cfg) && 0 <= cfg.minNodes
    requires forall i :: 0 <= i < |steps| ==> ReadsAnswered(cfg, steps[i])
    ensures OneGroup(After(cfg, s, steps, k).nodes, SelectNodeGroup(cfg))
    ensures AllExecuted(After(cfg, s, steps, k).events) ==>
      Size(After(cfg, s, steps, k)) == Size(s) + NetChange(After(cfg, s, steps, k).events) - NetChange(s.events)
  {
    if k > 0 {
      LogAccounts(cfg, s, steps, k - 1);
      OneStepAccounts(cfg, After(cfg, s, steps, k - 1), steps[k - 1]);
      var (before, after) := (After(cfg, s, steps, k - 1).events, After(cfg, s, steps, k).events);
      assert forall e :: e in before ==> e in after;
    }
  }

  // ---- no oscillation under constant demand ----

  function Stride(cfg: Config): int { Max(cfg.increment, cfg.decrement) }

  /** The thresholds are far enough apart for the step width at the smallest size. */
  predicate Separated(cfg: Config) {
    && 1 <= cfg.minNodes && SaneLimits(cfg)
    && cfg.downThreshold * (cfg.minNodes + Stride(cfg)) as real < cfg.upThreshold * cfg.minNodes as real
  }

  /** Cycles that see the same demand on nodes of the same size; resizes may still fail part way. */
  predicate Constant(steps: seq<Step>, demand: nat, gpus: nat) {
    forall k :: 0 <= k < |steps| ==> steps[k].Auto? && ConstantCycle(steps[k].cycle, demand, gpus)
  }

  predicate ConstantCycle(c: Cycle, demand: nat, gpus: nat) {
    Requested(c.pods) == demand && c.gpus == gpus && !c.utilFault && !c.checkFault && !c.countFault
  }

  /** Demand is above the scale-down threshold at size n, without division. */
  predicate Loaded(cfg: Config, demand: nat, gpus: nat, n: nat) {
    100.0 * demand as real > cfg.downThreshold * (n * gpus) as real
  }

  predicate Reaches(cfg: Config, demand: nat, gpus: nat, n: nat) {
    100.0 * demand as real >= cfg.upThreshold * (n * gpus) as real
  }

  lemma DivideOut(d: real, a: real, t: real)
    requires a > 0.0
    ensures d / a * 100.0 >= t <==> 100.0 * d >= t * a
    ensures d / a * 100.0 <= t <==> 100.0 * d <= t * a
  {
  }

  lemma UtilizationIs(s: State, c: Cycle, demand: nat, gpus: nat)
    requires EqualNodes(s.nodes, gpus) && ConstantCycle(c, demand, gpus) && gpus >= 1 && Size(s) >= 1
    ensures Size(s) * gpus >= 1
    ensures Utilization(s.nodes, c.pods, false) == demand as real / (Size(s) * gpus) as real * 100.0
  {
    var all := GpuNodes(s.nodes);
    forall n | n in all ensures n.gpus == gpus { FilterMember(IsGpu(), s.nodes, n); }
    CapacityOfEqual(all, gpus);
  }

  lemma UtilizationTests(cfg: Config, s: State, c: Cycle, demand: nat, gpus: nat)
    requires EqualNodes(s.nodes, gpus) && ConstantCycle(c, demand, gpus) && gpus >= 1 && Size(s) >= 1
    ensures Utilization(s.nodes, c.pods, false) >= cfg.upThreshold <==> Reaches(cfg, demand, gpus, Size(s))
    ensures Utilization(s.nodes, c.pods, false) <= cfg.downThreshold <==> !Loaded(cfg, demand, gpus, Size(s))
  {
    hide Utilization, Capacity, Filter, EqualNodes;
    UtilizationIs(s, c, demand, gpus);
    var capacity := (Size(s) * gpus) as real;
    DivideOut(demand as real, capacity, cfg.upThreshold);
    DivideOut(demand as real, capacity, cfg.downThreshold);
  }

  /** The arithmetic heart: a size where one threshold fired stays clear of the other one for a whole stride. */
  lemma ThresholdGap(cfg: Config, demand: nat, gpus: nat, n: nat, n': nat)
    requires Separated(cfg) && gpus >= 1 && cfg.minNodes <= n && cfg.minNodes <= n'
    ensures n <= n' <= n + Stride(cfg) && Reaches(cfg, demand, gpus, n) ==> Loaded(cfg, demand, gpus, n')
    ensures n' <= n <= n' + Stride(cfg) && !Loaded(cfg, demand, gpus, n) ==> !Reaches(cfg, demand, gpus, n')
  {
    var (u, l, g) := (cfg.upThreshold, cfg.downThreshold, gpus as real);
    if n <= n' <= n + Stride(cfg) && Reaches(cfg, demand, gpus, n) {
      StrideMargin(cfg, gpus, n, n');
    }
    if n' <= n <= n' + Stride(cfg) && !Loaded(cfg, demand, gpus, n) {
      StrideMargin(cfg, gpus, n', n);
    }
  }

  /** u * low > l * high as soon as high is at most a stride above low. */
  lemma StrideMargin(cfg: Config, gpus: nat, low: nat, high: nat)
    requires Separated(cfg) && gpus >= 1 && cfg.minNodes <= low <= high <= low + Stride(cfg)
    ensures cfg.downThreshold < 0.0 || cfg.upThreshold * (low * gpus) as real
        > cfg.downThreshold * (high * gpus) as real
  {
    var (u, l, g) := (cfg.upThreshold, cfg.downThreshold, gpus as real);
    if l >= 0.0 {
      var (m, st, a, b) := (cfg.minNodes as real, Stride(cfg) as real, low as real, high as real);
      assert (u - l) * m > l * st by { assert l * (m + st) == l * m + l * st; assert (u - l) * m == u * m - l * m; }
      assert l * st >= 0.0;
      assert u - l > 0.0;
      assert (u - l) * a >= (u - l) * m by { assert (u - l) * (a - m) >= 0.0; }
      assert l * b <= l * (a + st) by { assert l * (a + st - b) >= 0.0; }
      assert u * a > l * b by { assert l * (a + st) == l * a + l * st; assert (u - l) * a == u * a - l * a; }
      assert (u * a - l * b) * g > 0.0;
      assert (low * gpus) as real == a * g && (high * gpus) as real == b * g;
      assert u * (a * g) - l * (b * g) == (u * a - l * b) * g;
    }
  }

  /** At every size one of two modes holds, and a cycle keeps it: loaded sizes never shrink, the others never grow. */
  lemma CycleDirection(cfg: Config, s: State, c: Cycle, demand: nat, gpus: nat)
    requires Separated(cfg) && gpus >= 1 && ConstantCycle(c, demand, gpus)
    requires OneGroup(s.nodes, SelectNodeGroup(cfg)) && EqualNodes(s.nodes, gpus)
    requires cfg.minNodes <= Size(s) <= cfg.maxNodes
    ensures
      var s' := AutoscaleCycle(cfg, s, c);
      && OneGroup(s'.nodes, SelectNodeGroup(cfg)) && EqualNodes(s'.nodes, gpus)
      && cfg.minNodes <= Size(s') <= cfg.maxNodes
      && s.events <= s'.events
      && (Loaded(cfg, demand, gpus, Size(s)) ==>
            Size(s) <= Size(s') && Loaded(cfg, demand, gpus, Size(s')) && AllDirected(s'.events[|s.events|..], Up))
      && (!Loaded(cfg, demand, gpus, Size(s)) ==> !Reaches(cfg, demand, gpus, Size(s)))
      && (!Reaches(cfg, demand, gpus, Size(s)) ==>
            Size(s') <= Size(s) && !Reaches(cfg, demand, gpus, Size(s')) && AllDirected(s'.events[|s.events|..], Down))
  {
    CycleEffect(cfg, s, c);
    UtilizationTests(cfg, s, c, demand, gpus);
    var n, n' := Size(s), Size(AutoscaleCycle(cfg, s, c));
    ThresholdGap(cfg, demand, gpus, n, n);
    ThresholdGap(cfg, demand, gpus, n, n');
  }

  predicate AllDirected(events: seq<ScaleEvent>, direction: Direction) {
    forall e :: e in events ==> e.direction == direction
  }

  /** Sizes move one way between two points of a run and all events logged in between point that way. */
  predicate Monotone(before: State, after: State, direction: Direction) {
    && before.events <= after.events
    && AllDirected(after.events[|before.events|..], direction)
    && (if direction == Up then Size(before) <= Size(after) else Size(after) <= Size(before))
  }

  predicate OneWay(cfg: Config, s: State, steps: seq<Step>, direction: Direction) {
    forall i, k :: 0 <= i <= k <= |steps| ==> Monotone(After(cfg, s, steps, i), After(cfg, s, steps, k), direction)
  }

  lemma MonotoneTransitive(a: State, b: State, c: State, direction: Direction)
    requires Monotone(a, b, direction) && Monotone(b, c, direction)
    ensures Monotone(a, c, direction)
  {
  }

  /** The mode of a constant run: loaded throughout, or never reaching the scale-up threshold. */
  predicate InMode(cfg: Config, s: State, demand: nat, gpus: nat, direction: Direction) {
    && OneGroup(s.nodes, SelectNodeGroup(cfg)) && EqualNodes(s.nodes, gpus)
    && cfg.minNodes <= Size(s) <= cfg.maxNodes
    && (if direction == Up then Loaded(cfg, demand, gpus, Size(s)) else !Reaches(cfg, demand, gpus, Size(s)))
  }

  function Mode(cfg: Config, s: State, demand: nat, gpus: nat): Direction {
    if Loaded(cfg, demand, gpus, Size(s)) then Up else Down
  }

  lemma ModeStep(cfg: Config, s: State, c: Cycle, demand: nat, gpus: nat, direction: Direction)
    requires Separated(cfg) && gpus >= 1 && ConstantCycle(c, demand, gpus) && InMode(cfg, s, demand, gpus, direction)
    ensures InMode(cfg, AutoscaleCycle(cfg, s, c), demand, gpus, direction)
    ensures Monotone(s, AutoscaleCycle(cfg, s, c), direction)
  {
    CycleDirection(cfg, s, c, demand, gpus);
  }

  /** One step of a constant run. */
  lemma ConstantNext(cfg: Config, s: State, steps: seq<Step>, demand: nat, gpus: nat, k: nat, direction: Direction)
    requires Separated(cfg) && gpus >= 1 && Constant(steps, demand, gpus) && k < |steps|
    requires InMode(cfg, After(cfg, s, steps, k), demand, gpus, direction)
    ensures InMode(cfg, After(cfg, s, steps, k + 1), demand, gpus, direction)
    ensures Monotone(After(cfg, s, steps, k), After(cfg, s, steps, k + 1), direction)
  {
    hide Separated, ConstantCycle, InMode, Monotone;
    ModeStep(cfg, After(cfg, s, steps, k), steps[k].cycle, demand, gpus, direction);
  }

  lemma MonotoneSame(s: State, direction: Direction)
    ensures Monotone(s, s, direction)
  {
  }

  lemma {:induction false} ConstantMode(cfg: Config, s: State, steps: seq<Step>, demand: nat, gpus: nat, k: nat,
                                        direction: Direction)
    requires Separated(cfg) && gpus >= 1 && Constant(steps, demand, gpus) && k <= |steps|
    requires InMode(cfg, s, demand, gpus, direction)
    ensures InMode(cfg, After(cfg, s, steps, k), demand, gpus, direction)
  {
    hide Separated, Constant, InMode, Do;
    if k > 0 {
      ConstantMode(cfg, s, steps, demand, gpus, k - 1, direction);
      ConstantNext(cfg, s, steps, demand, gpus, k - 1, direction);
    }
  }

  lemma {:induction false} ConstantRun(cfg: Config, s: State, steps: seq<Step>, demand: nat, gpus: nat, i: nat, k: nat,
                                       direction: Direction)
    requires Separated(cfg) && gpus >= 1 && Constant(steps, demand, gpus) && i <= k <= |steps|
    requires InMode(cfg, s, demand, gpus, direction)
    ensures InMode(cfg, After(cfg, s, steps, i), demand, gpus, direction)
    ensures InMode(cfg, After(cfg, s, steps, k), demand, gpus, direction)
    ensures Monotone(After(cfg, s, steps, i), After(cfg, s, steps, k), direction)
    decreases k
  {
    hide Separated, Constant, InMode, Monotone, After;
    ConstantMode(cfg, s, steps, demand, gpus, k, direction);
    if i == k {
      MonotoneSame(After(cfg, s, steps, k), direction);
    } else {
      ConstantRun(cfg, s, steps, demand, gpus, i, k - 1, direction);
      ConstantNext(cfg, s, steps, demand, gpus, k - 1, direction);
      MonotoneTransitive(After(cfg, s, steps, i), After(cfg, s, steps, k - 1), After(cfg, s, steps, k), direction);
    }
  }

  lemma StartMode(cfg: Config, s: State, demand: nat, gpus: nat)
    requires Separated(cfg) && gpus >= 1
    requires OneGroup(s.nodes, SelectNodeGroup(cfg)) && EqualNodes(s.nodes, gpus)
    requires cfg.minNodes <= Size(s) <= cfg.maxNodes
    ensures InMode(cfg, s, demand, gpus, Mode(cfg, s, demand, gpus))
  {
    ThresholdGap(cfg, demand, gpus, Size(s), Size(s));
  }

  /** Under constant demand on equal nodes an automatic run started inside the limits never reverses: all its
      events point the same way and its sizes are monotone, even when resizes fail part way. */
  lemma NoReversal(cfg: Config, s: State, steps: seq<Step>, demand: nat, gpus: nat)
    requires Separated(cfg) && gpus >= 1 && Constant(steps, demand, gpus)
    requires OneGroup(s.nodes, SelectNodeGroup(cfg)) && EqualNodes(s.nodes, gpus)
    requires cfg.minNodes <= Size(s) <= cfg.maxNodes
    ensures OneWay(cfg, s, steps, Up) || OneWay(cfg, s, steps, Down)
  {
    var direction := Mode(cfg, s, demand, gpus);
    StartMode(cfg, s, demand, gpus);
    forall i, k | 0 <= i <= k <= |steps|
      ensures Monotone(After(cfg, s, steps, i), After(cfg, s, steps, k), direction)
    {
      ConstantRun(cfg, s, steps, demand, gpus, i, k, direction);
    }
  }

  // ---- settling, for cycles whose resizes go through ----

  /** How many of the first k cycles find the cooldown over. The loop polls more often than that. */
  function EligibleCount(cfg: Config, s: State, steps: seq<Step>, k: nat): nat
    requires k <= |steps|
  {
    if k == 0 then 0
    else
      var before := After(cfg, s, steps, k - 1);
      EligibleCount(cfg, s, steps, k - 1)
      + (if steps[k - 1].Auto? && steps[k - 1].cycle.now - before.lastScale >= cfg.cooldown then 1 else 0)
  }

  lemma {:induction false} EligibleCountGrows(cfg: Config, s: State, steps: seq<Step>, j: nat, k: nat)
    requires j <= k <= |steps|
    ensures EligibleCount(cfg, s, steps, j) <= EligibleCount(cfg, s, steps, k)
    decreases k
  {
    hide After;
    if j < k {
      EligibleCountGrows(cfg, s, steps, j, k - 1);
    }
  }

  /** Every read is answered, and so is any resize of at most one stride. */
  ghost predicate Clean(cfg: Config, s: State, c: Cycle) {
    && !c.checkFault && !c.countFault && c.calls > Stride(cfg)
    && FreshStamp(s.nodes, SelectNodeGroup(cfg), c.stamp)
  }

  /** The first k steps are cycles, and clean whenever the cooldown is over. */
  ghost predicate CleanRun(cfg: Config, s: State, steps: seq<Step>, k: nat)
    requires k <= |steps|
  {
    k > 0 ==>
      var before := After(cfg, s, steps, k - 1);
      && CleanRun(cfg, s, steps, k - 1) && steps[k - 1].Auto?
      && (Eligible(cfg, before, steps[k - 1].cycle) ==> Clean(cfg, before, steps[k - 1].cycle))
  }

  /** Enough answered calls and fresh names make a resize go through. */
  lemma ResizeSucceeds(nodes: seq<Node>, g: string, target: int, stamp: int, gpus: nat, calls: nat)
    requires OneGroup(nodes, g) && 0 <= target && calls > Abs(target - |GpuNodes(nodes)|) && FreshStamp(nodes, g, stamp)
    ensures Resize(nodes, g, target, stamp, gpus, calls).1
  {
    GroupIsAll(nodes, g);
    if target > |Group(nodes, g)| {
      CreateSucceeds(nodes, g, stamp, gpus, 0, target - |Group(nodes, g)|, calls - 1);
    } else {
      RemoveEffect(nodes, g, Victims(nodes, g, target), calls - 1);
    }
  }

  lemma CleanCycle(cfg: Config, s: State, c: Cycle)
    requires OneGroup(s.nodes, SelectNodeGroup(cfg)) && SaneLimits(cfg) && Clean(cfg, s, c) && 0 <= cfg.minNodes
    ensures OneGroup(AutoscaleCycle(cfg, s, c).nodes, SelectNodeGroup(cfg))
    ensures Target(cfg, s, c).Some? ==> Size(AutoscaleCycle(cfg, s, c)) == Target(cfg, s, c).value
  {
    hide AutoscaleCycle, Utilization, OneGroup, Filter, Resize;
    CycleEffect(cfg, s, c);
    CycleIsScaleTo(cfg, s, c);
    var t, g := Target(cfg, s, c), SelectNodeGroup(cfg);
    if t.Some? {
      ResizeSucceeds(s.nodes, g, t.value, c.stamp, c.gpus, c.calls);
    }
  }

  /** The first k steps are cycles, and clean and under high load whenever the cooldown is over. */
  ghost predicate HighRun(cfg: Config, s: State, steps: seq<Step>, k: nat)
    requires k <= |steps|
  {
    k > 0 ==>
      var before := After(cfg, s, steps, k - 1);
      && HighRun(cfg, s, steps, k - 1) && steps[k - 1].Auto?
      && (Eligible(cfg, before, steps[k - 1].cycle) ==> HighCycle(cfg, before, steps[k - 1].cycle))
  }

  ghost predicate HighCycle(cfg: Config, s: State, c: Cycle) {
    Clean(cfg, s, c) && Utilization(s.nodes, c.pods, c.utilFault) >= cfg.upThreshold
  }

  lemma HighCycleGrows(cfg: Config, s: State, c: Cycle)
    requires Eligible(cfg, s, c) && HighCycle(cfg, s, c) && SaneLimits(cfg) && 0 <= cfg.minNodes
    requires OneGroup(s.nodes, SelectNodeGroup(cfg)) && Size(s) <= cfg.maxNodes
    ensures OneGroup(AutoscaleCycle(cfg, s, c).nodes, SelectNodeGroup(cfg))
    ensures Size(AutoscaleCycle(cfg, s, c)) == Min(cfg.maxNodes, Size(s) + cfg.increment)
  {
    CycleEffect(cfg, s, c);
    CleanCycle(cfg, s, c);
  }

  /** Under sustained high load the size is exactly min(max, n0 + e * increment), where e counts the cycles so far
      that found the cooldown over. */
  lemma {:induction false} SustainedLoad(cfg: Config, s: State, steps: seq<Step>, k: nat)
    requires k <= |steps| && HighRun(cfg, s, steps, k) && SaneLimits(cfg) && 0 <= cfg.minNodes
    requires OneGroup(s.nodes, SelectNodeGroup(cfg)) && Size(s) <= cfg.maxNodes
    ensures OneGroup(After(cfg, s, steps, k).nodes, SelectNodeGroup(cfg))
    ensures Size(After(cfg, s, steps, k))
         == Min(cfg.maxNodes, Size(s) + EligibleCount(cfg, s, steps, k) * cfg.increment)
  {
    hide HighCycle, OneGroup, SaneLimits, AutoscaleCycle, Size;
    if k > 0 {
      SustainedLoad(cfg, s, steps, k - 1);
      var (before, c) := (After(cfg, s, steps, k - 1), steps[k - 1].cycle);
      if Eligible(cfg, before, c) {
        HighCycleGrows(cfg, before, c);
        NextMinimum(cfg, Size(s), EligibleCount(cfg, s, steps, k - 1));
      } else {
        TooEarly(cfg, before, c);
      }
    }
  }

  lemma TooEarly(cfg: Config, s: State, c: Cycle)
    requires !Eligible(cfg, s, c)
    ensures AutoscaleCycle(cfg, s, c) == s
  {
  }

  lemma NextMinimum(cfg: Config, n: nat, e: nat)
    requires SaneLimits(cfg)
    ensures Min(cfg.maxNodes, Min(cfg.maxNodes, n + e * cfg.increment) + cfg.increment)
         == Min(cfg.maxNodes, n + (e + 1) * cfg.increment)
  {
  }

  /** The size that follows n when everything is answered. */
  function NextSize(cfg: Config, demand: nat, gpus: nat, n: int): (m: int)
    requires SaneLimits(cfg) && 0 <= cfg.minNodes <= n <= cfg.maxNodes
    ensures cfg.minNodes <= m <= cfg.maxNodes
  {
    if Reaches(cfg, demand, gpus, n) then Min(n + cfg.increment, cfg.maxNodes)
    else if !Loaded(cfg, demand, gpus, n) then Max(n - cfg.decrement, cfg.minNodes)
    else n
  }

  lemma CleanNextSize(cfg: Config, s: State, c: Cycle, demand: nat, gpus: nat)
    requires OneGroup(s.nodes, SelectNodeGroup(cfg)) && EqualNodes(s.nodes, gpus) && gpus >= 1
    requires SaneLimits(cfg) && 1 <= cfg.minNodes <= Size(s) <= cfg.maxNodes
    requires Eligible(cfg, s, c) && Clean(cfg, s, c) && ConstantCycle(c, demand, gpus)
    ensures Size(AutoscaleCycle(cfg, s, c)) == NextSize(cfg, demand, gpus, Size(s))
  {
    CycleEffect(cfg, s, c);
    UtilizationTests(cfg, s, c, demand, gpus);
    CleanCycle(cfg, s, c);
  }

  /** The sizes of a clean run under constant demand, one after each cycle that finds the cooldown over. */
  function Sizes(cfg: Config, demand: nat, gpus: nat, n: int, e: nat): (m: int)
    requires SaneLimits(cfg) && 0 <= cfg.minNodes <= n <= cfg.maxNodes
    ensures cfg.minNodes <= m <= cfg.maxNodes
  {
    if e == 0 then n else NextSize(cfg, demand, gpus, Sizes(cfg, demand, gpus, n, e - 1))
  }

  /** For every configuration: the size at any point of a clean constant run depends only on the number of cycles
      that found the cooldown over. */
  lemma {:induction false} CleanRunSizes(cfg: Config, s: State, steps: seq<Step>, demand: nat, gpus: nat, k: nat)
    requires k <= |steps| && CleanRun(cfg, s, steps, k) && Constant(steps, demand, gpus) && gpus >= 1
    requires OneGroup(s.nodes, SelectNodeGroup(cfg)) && EqualNodes(s.nodes, gpus)
    requires SaneLimits(cfg) && 1 <= cfg.minNodes <= Size(s) <= cfg.maxNodes
    ensures
      var sk := After(cfg, s, steps, k);
      && OneGroup(sk.nodes, SelectNodeGroup(cfg)) && EqualNodes(sk.nodes, gpus)
      && Size(sk) == Sizes(cfg, demand, gpus, Size(s), EligibleCount(cfg, s, steps, k))
  {
    hide Clean, NextSize, OneGroup, EqualNodes, Size, AutoscaleCycle, Target, Landed;
    if k > 0 {
      CleanRunSizes(cfg, s, steps, demand, gpus, k - 1);
      var (before, c) := (After(cfg, s, steps, k - 1), steps[k - 1].cycle);
      CycleEffect(cfg, before, c);
      if Eligible(cfg, before, c) {
        CleanNextSize(cfg, before, c, demand, gpus);
      } else {
        TooEarly(cfg, before, c);
      }
    }
  }

  /** With separated thresholds the sizes of a clean run stay in the mode of the first one and move one way. */
  lemma {:induction false} SizesOneWay(cfg: Config, demand: nat, gpus: nat, n: int, e: nat)
    requires Separated(cfg) && gpus >= 1 && cfg.minNodes <= n <= cfg.maxNodes
    ensures
      var m, m' := Sizes(cfg, demand, gpus, n, e), Sizes(cfg, demand, gpus, n, e + 1);
      if Loaded(cfg, demand, gpus, n) then n <= m <= m' && Loaded(cfg, demand, gpus, m)
      else m' <= m <= n && !Reaches(cfg, demand, gpus, m)
  {
    hide Reaches, Loaded;
    var m := Sizes(cfg, demand, gpus, n, e);
    if e == 0 {
      ThresholdGap(cfg, demand, gpus, n, n);
    } else {
      SizesOneWay(cfg, demand, gpus, n, e - 1);
      ThresholdGap(cfg, demand, gpus, Sizes(cfg, demand, gpus, n, e - 1), m);
    }
  }

  /** After e eligible cycles the size is final or has moved a node in every one of them. */
  lemma {:induction false} Progress(cfg: Config, demand: nat, gpus: nat, n: int, e: nat)
    requires Separated(cfg) && gpus >= 1 && cfg.minNodes <= n <= cfg.maxNodes
    ensures
      var m, m' := Sizes(cfg, demand, gpus, n, e), Sizes(cfg, demand, gpus, n, e + 1);
      m' == m || Abs(m - n) >= e
  {
    hide Separated, Reaches, Loaded, NextSize;
    if e > 0 {
      Progress(cfg, demand, gpus, n, e - 1);
      SizesOneWay(cfg, demand, gpus, n, e - 1);
    }
  }

  lemma {:induction false} SizesSettle(cfg: Config, demand: nat, gpus: nat, n: int, d: nat, e: nat)
    requires Separated(cfg) && gpus >= 1 && cfg.minNodes <= n <= cfg.maxNodes
    requires cfg.maxNodes - cfg.minNodes <= d <= e
    ensures Sizes(cfg, demand, gpus, n, e) == Sizes(cfg, demand, gpus, n, d)
    decreases e
  {
    hide Separated, Reaches, Loaded, NextSize;
    if d < e {
      SizesSettle(cfg, demand, gpus, n, d, e - 1);
      Progress(cfg, demand, gpus, n, e - 1);
      SizesOneWay(cfg, demand, gpus, n, e - 1);
    }
  }

  /** Once max - min cycles have found the cooldown over, the size never changes again. */
  lemma SettlesWithinRange(cfg: Config, s: State, steps: seq<Step>, demand: nat, gpus: nat, j: nat, k: nat)
    requires j <= k <= |steps| && CleanRun(cfg, s, steps, k)
    requires EligibleCount(cfg, s, steps, j) >= cfg.maxNodes - cfg.minNodes
    requires Separated(cfg) && gpus >= 1 && Constant(steps, demand, gpus)
    requires OneGroup(s.nodes, SelectNodeGroup(cfg)) && EqualNodes(s.nodes, gpus)
    requires cfg.minNodes <= Size(s) <= cfg.maxNodes
    ensures Size(After(cfg, s, steps, k)) == Size(After(cfg, s, steps, j))
  {
    CleanPrefix(cfg, s, steps, j, k);
    CleanRunSizes(cfg, s, steps, demand, gpus, j);
    CleanRunSizes(cfg, s, steps, demand, gpus, k);
    var (d, e) := (EligibleCount(cfg, s, steps, j), EligibleCount(cfg, s, steps, k));
    EligibleCountGrows(cfg, s, steps, j, k);
    SizesSettle(cfg, demand, gpus, Size(s), d, e);
  }

  lemma {:induction false} CleanPrefix(cfg: Config, s: State, steps: seq<Step>, j: nat, k: nat)
    requires j <= k <= |steps| && CleanRun(cfg, s, steps, k)
    ensures CleanRun(cfg, s, steps, j)
    decreases k
  {
    if j < k {
      CleanPrefix(cfg, s, steps, j, k - 1);
    }
  }

  /** How many resizes of the log were executed. */
  function ExecutedCount(events: seq<ScaleEvent>): nat {
    if events == [] then 0
    else ExecutedCount(events[..|events| - 1]) + (if events[|events| - 1].executed then 1 else 0)
  }

  lemma ExecutedMoves(cfg: Config, s: State, c: Cycle, demand: nat, gpus: nat, direction: Direction)
    requires Separated(cfg) && cfg.increment >= 1 && cfg.decrement >= 1 && gpus >= 1 && ConstantCycle(c, demand, gpus)
    requires InMode(cfg, s, demand, gpus, direction)
    ensures
      var s' := AutoscaleCycle(cfg, s, c);
      ExecutedCount(s'.events) - ExecutedCount(s.events) <= Abs(Size(s') - Size(s))
  {
    CycleEffect(cfg, s, c);
    var s' := AutoscaleCycle(cfg, s, c);
    if s' != s {
      assert s'.events[..|s'.events| - 1] == s.events;
    }
  }

  lemma {:induction false} ExecutedBound(cfg: Config, s: State, steps: seq<Step>, demand: nat, gpus: nat, k: nat,
                                         direction: Direction)
    requires Separated(cfg) && cfg.increment >= 1 && cfg.decrement >= 1 && gpus >= 1 && k <= |steps|
    requires Constant(steps, demand, gpus) && InMode(cfg, s, demand, gpus, direction)
    ensures
      var sk := After(cfg, s, steps, k);
      ExecutedCount(sk.events) - ExecutedCount(s.events) <= Abs(Size(sk) - Size(s))
  {
    hide Separated, InMode, Do, Constant, ConstantCycle, AllDirected, ExecutedCount;
    if k > 0 {
      ExecutedBound(cfg, s, steps, demand, gpus, k - 1, direction);
      ConstantRun(cfg, s, steps, demand, gpus, 0, k - 1, direction);
      ConstantRun(cfg, s, steps, demand, gpus, k - 1, k, direction);
      ConstantStep(cfg, s, steps, demand, gpus, k - 1, direction);
    }
  }

  lemma ConstantStep(cfg: Config, s: State, steps: seq<Step>, demand: nat, gpus: nat, k: nat, direction: Direction)
    requires Separated(cfg) && cfg.increment >= 1 && cfg.decrement >= 1 && gpus >= 1 && k < |steps|
    requires Constant(steps, demand, gpus) && InMode(cfg, After(cfg, s, steps, k), demand, gpus, direction)
    ensures
      var (before, after) := (After(cfg, s, steps, k), After(cfg, s, steps, k + 1));
      ExecutedCount(after.events) - ExecutedCount(before.events) <= Abs(Size(after) - Size(before))
  {
    hide Separated, InMode, AutoscaleCycle, ExecutedCount, ConstantCycle, Size;
    ExecutedMoves(cfg, After(cfg, s, steps, k), steps[k].cycle, demand, gpus, direction);
    assert After(cfg, s, steps, k + 1) == AutoscaleCycle(cfg, After(cfg, s, steps, k), steps[k].cycle);
  }

  /** Under constant demand at most max - min resizes are ever executed, whatever other resizes fail part way. */
  lemma ScalingStepsBounded(cfg: Config, s: State, steps: seq<Step>, demand: nat, gpus: nat, k: nat)
    requires Separated(cfg) && cfg.increment >= 1 && cfg.decrement >= 1 && gpus >= 1 && k <= |steps|
    requires Constant(steps, demand, gpus)
    requires OneGroup(s.nodes, SelectNodeGroup(cfg)) && EqualNodes(s.nodes, gpus)
    requires cfg.minNodes <= Size(s) <= cfg.maxNodes
    ensures ExecutedCount(After(cfg, s, steps, k).events) - ExecutedCount(s.events) <= cfg.maxNodes - cfg.minNodes
  {
    hide Separated, After, Constant, ExecutedCount, Monotone, Loaded, Reaches, OneGroup, EqualNodes, Size;
    var direction := Mode(cfg, s, demand, gpus);
    StartMode(cfg, s, demand, gpus);
    ExecutedBound(cfg, s, steps, demand, gpus, k, direction);
    ConstantRun(cfg, s, steps, demand, gpus, 0, k, direction);
  }

  // ---- oscillation, when the thresholds are not separated ----

  /** Demand reaches the upper threshold at n and is at or below both thresholds at m, and one step leads from each
      size to the other. */
  predicate Rocking(cfg: Config, demand: nat, gpus: nat, n: nat, m: nat) {
    && Reaches(cfg, demand, gpus, n) && m == Min(n + cfg.increment, cfg.maxNodes)
    && !Reaches(cfg, demand, gpus, m) && !Loaded(cfg, demand, gpus, m) && n == Max(m - cfg.decrement, cfg.minNodes)
  }

  ghost predicate Alternate(cfg: Config, demand: nat, gpus: nat, n: nat, m: nat)
    requires SaneLimits(cfg) && 0 <= cfg.minNodes <= n <= cfg.maxNodes
  {
    forall e: nat :: Sizes(cfg, demand, gpus, n, e) == if e % 2 == 0 then n else m
  }

  /** For every configuration and every two sizes: the sizes alternate for ever exactly when demand rocks between
      them. */
  lemma AlternateIff(cfg: Config, demand: nat, gpus: nat, n: nat, m: nat)
    requires SaneLimits(cfg) && 0 <= cfg.minNodes <= n < m <= cfg.maxNodes
    ensures Alternate(cfg, demand, gpus, n, m) <==> Rocking(cfg, demand, gpus, n, m)
  {
    if Rocking(cfg, demand, gpus, n, m) {
      forall e: nat ensures Sizes(cfg, demand, gpus, n, e) == if e % 2 == 0 then n else m {
        RockingSizes(cfg, demand, gpus, n, m, e);
      }
    }
    if Alternate(cfg, demand, gpus, n, m) {
      assert Sizes(cfg, demand, gpus, n, 0) == n;
      assert Sizes(cfg, demand, gpus, n, 1) == m;
      assert Sizes(cfg, demand, gpus, n, 2) == n;
    }
  }

  lemma {:induction false} RockingSizes(cfg: Config, demand: nat, gpus: nat, n: nat, m: nat, e: nat)
    requires SaneLimits(cfg) && 0 <= cfg.minNodes <= n < m <= cfg.maxNodes && Rocking(cfg, demand, gpus, n, m)
    ensures Sizes(cfg, demand, gpus, n, e) == if e % 2 == 0 then n else m
  {
    hide Reaches, Loaded;
    if e > 0 {
      RockingSizes(cfg, demand, gpus, n, m, e - 1);
    }
  }

  /** Only thresholds that touch or cross between the two sizes let demand rock. */
  lemma RockingCrosses(cfg: Config, demand: nat, gpus: nat, n: nat, m: nat)
    requires Rocking(cfg, demand, gpus, n, m) && gpus >= 1
    ensures cfg.upThreshold * n as real <= cfg.downThreshold * m as real
  {
    var (low, high, g) := (cfg.upThreshold * n as real, cfg.downThreshold * m as real, gpus as real);
    assert cfg.upThreshold * (n * gpus) as real == low * g;
    assert cfg.downThreshold * (m * gpus) as real == high * g;
    MulCancel(g, low, high);
  }

  /** Thresholds that cross between two sizes one step apart let some demand, on nodes of some size, rock. */
  lemma SomeDemandRocks(cfg: Config, n: nat, m: nat) returns (demand: nat, gpus: nat)
    requires n < m == Min(n + cfg.increment, cfg.maxNodes) && n == Max(m - cfg.decrement, cfg.minNodes)
    requires cfg.upThreshold > 0.0 && cfg.upThreshold * n as real < cfg.downThreshold * m as real
    ensures gpus >= 1 && Rocking(cfg, demand, gpus, n, m)
  {
    var (low, high, top) := (cfg.upThreshold * n as real, cfg.downThreshold * m as real, cfg.upThreshold * m as real);
    MulMono(cfg.upThreshold, n as real, m as real);
    assert top - low == cfg.upThreshold * (m - n) as real > 0.0;
    demand, gpus := HundredBetween(low, high, top);
    AtCapacity(cfg.upThreshold, n, gpus);
    AtCapacity(cfg.upThreshold, m, gpus);
    AtCapacity(cfg.downThreshold, m, gpus);
  }

  lemma AtCapacity(t: real, n: nat, gpus: nat)
    ensures t * (n * gpus) as real == (t * n as real) * gpus as real
  {
  }

  /** A wide enough multiple of an interval holds a multiple of one hundred. */
  lemma HundredBetween(low: real, high: real, top: real) returns (demand: nat, gpus: nat)
    requires 0.0 <= low < high && low < top
    ensures gpus >= 1 && low * gpus as real <= 100.0 * demand as real <= high * gpus as real
    ensures 100.0 * demand as real < top * gpus as real
  {
    var gap := if high < top then high - low else top - low;
    gpus := (100.0 / gap).Floor + 1;
    MulMono(gpus as real, 0.0, low);
    demand := NextHundred(low * gpus as real);
    Spread(low, high, gap, gpus as real);
    Spread(low, top, gap, gpus as real);
  }

  lemma NextHundred(x: real) returns (d: nat)
    requires x >= 0.0
    ensures x < 100.0 * d as real <= x + 100.0
  {
    d := (x / 100.0).Floor + 1;
  }

  lemma Spread(low: real, high: real, gap: real, g: real)
    requires gap > 0.0 && low + gap <= high && g > 100.0 / gap
    ensures low * g + 100.0 < high * g
  {
    WideEnough(gap, g);
    assert g > 0.0 by { QuotientAtLeast(100.0, gap, 0.0); }
    MulMono(g, low + gap, high);
    assert (low + gap) * g == low * g + gap * g;
  }

  lemma QuotientAtLeast(a: real, b: real, c: real)
    requires b > 0.0 && b * c <= a
    ensures c <= a / b
  {
    QuotientIs(a, b);
    MulCancel(b, c, a / b);
  }

  lemma WideEnough(gap: real, g: real)
    requires gap > 0.0 && g > 100.0 / gap
    ensures gap * g > 100.0
  {
    if gap * g <= 100.0 {
      QuotientAtLeast(100.0, gap, g);
    }
  }

  /** A clean constant run started at the smaller of two sizes that demand rocks between alternates for ever. */
  lemma RunOscillates(cfg: Config, s: State, steps: seq<Step>, demand: nat, gpus: nat, m: nat, k: nat)
    requires k <= |steps| && CleanRun(cfg, s, steps, k) && Constant(steps, demand, gpus) && gpus >= 1
    requires OneGroup(s.nodes, SelectNodeGroup(cfg)) && EqualNodes(s.nodes, gpus)
    requires SaneLimits(cfg) && 1 <= cfg.minNodes <= Size(s) < m <= cfg.maxNodes
    requires Rocking(cfg, demand, gpus, Size(s), m)
    ensures Size(After(cfg, s, steps, k)) == if EligibleCount(cfg, s, steps, k) % 2 == 0 then Size(s) else m
  {
    CleanRunSizes(cfg, s, steps, demand, gpus, k);
    RockingSizes(cfg, demand, gpus, Size(s), m, EligibleCount(cfg, s, steps, k));
  }

  /** Separation must be strict: thresholds that only touch, 40 * (1 + 1) == 80 * 1, let demand for 8 GPUs rock
      between one and two nodes of 10. */
  lemma TouchingThresholdsOscillate()
    ensures
      var cfg := Config(80.0, 40.0, 1, 1, 300.0, 1, 20, []);
      && cfg.downThreshold * (cfg.minNodes + Stride(cfg)) as real == cfg.upThreshold * cfg.minNodes as real
      && Rocking(cfg, 8, 10, 1, 2)
  {
  }

  // ---- rate ----

  function AutoTimes(events: seq<ScaleEvent>): seq<real> {
    if events == [] then []
    else AutoTimes(events[..|events| - 1]) + (if events[|events| - 1].auto then [events[|events| - 1].at] else [])
  }

  predicate Spaced(times: seq<real>, gap: real) {
    forall i, j :: 0 <= i < j < |times| ==> times[j] - times[i] >= gap
  }

  /** Within a cycle the clock does not run backwards. */
  predicate Timely(steps: seq<Step>) {
    forall k :: 0 <= k < |steps| && steps[k].Auto? ==> steps[k].cycle.now <= steps[k].cycle.at <= steps[k].cycle.done
  }

  lemma SpacedSnoc(times: seq<real>, gap: real, last: real, t: real)
    requires Spaced(times, gap) && (forall x :: x in times ==> x <= last) && t - last >= gap
    ensures Spaced(times + [t], gap)
  {
    assert forall i :: 0 <= i < |times| ==> times[i] in times;
  }

  /** What a step does to the log of automatic events: nothing, or one entry after the cooldown. */
  lemma AutoLog(cfg: Config, s: State, step: Step)
    ensures
      var s' := Do(cfg, s, step);
      || (AutoTimes(s'.events) == AutoTimes(s.events) && s'.lastScale == s.lastScale)
      || (step.Auto? && Eligible(cfg, s, step.cycle) && s'.lastScale == step.cycle.done
          && AutoTimes(s'.events) == AutoTimes(s.events) + [step.cycle.at])
  {
  }

  lemma NoEventsSpaced(cfg: Config)
    ensures AutoTimes([]) == [] && Spaced(AutoTimes([]), cfg.cooldown)
  {
  }

  /** Automatic events, executed or failed, are a cooldown apart, whatever manual requests lie between. */
  lemma {:induction false} AutoEventsSpaced(cfg: Config, s: State, steps: seq<Step>, k: nat)
    requires k <= |steps| && Timely(steps) && s.events == [] && cfg.cooldown >= 0.0
    ensures
      var sk := After(cfg, s, steps, k);
      Spaced(AutoTimes(sk.events), cfg.cooldown) && forall t :: t in AutoTimes(sk.events) ==> t <= sk.lastScale
  {
    hide Do, AutoTimes, Spaced;
    if k == 0 {
      NoEventsSpaced(cfg);
    } else {
      AutoEventsSpaced(cfg, s, steps, k - 1);
      var before := After(cfg, s, steps, k - 1);
      AutoLog(cfg, before, steps[k - 1]);
      if AutoTimes(After(cfg, s, steps, k).events) != AutoTimes(before.events) {
        SpacedSnoc(AutoTimes(before.events), cfg.cooldown, before.lastScale, steps[k - 1].cycle.at);
      }
    }
  }

  function Within(a: real, b: real): real -> bool { (t: real) => a <= t <= b }

  /** The least stretch of time that n events a gap apart need. */
  function Span(n: nat, gap: real): real { if n <= 1 then 0.0 else gap + Span(n - 1, gap) }

  lemma {:induction false} SpanIs(n: nat, gap: real)
    requires n >= 1
    ensures Span(n, gap) == (n - 1) as real * gap
  {
    if n > 1 {
      SpanIs(n - 1, gap);
      assert (n - 1) as real * gap == (n - 2) as real * gap + gap;
    }
  }

  lemma {:induction false} WindowBound(times: seq<real>, gap: real, a: real, b: real)
    requires Spaced(times, gap) && gap >= 0.0
    ensures Filter(Within(a, b), times) == [] || Span(|Filter(Within(a, b), times)|, gap) <= b - a
  {
    if times != [] {
      var first, rest := times[0], times[1..];
      assert Spaced(rest, gap);
      if a <= first <= b {
        WindowTail(times, gap, a, b);
        WindowBound(rest, gap, first + gap, b);
        assert |Filter(Within(a, b), times)| == 1 + |Filter(Within(a, b), rest)|;
      } else {
        WindowBound(rest, gap, a, b);
      }
    }
  }

  lemma WindowTail(times: seq<real>, gap: real, a: real, b: real)
    requires Spaced(times, gap) && gap >= 0.0 && times != [] && a <= times[0] <= b
    ensures Filter(Within(a, b), times[1..]) == Filter(Within(times[0] + gap, b), times[1..])
  {
    forall t | t in times[1..] ensures Within(a, b)(t) == Within(times[0] + gap, b)(t) {
      var i :| 0 <= i < |times[1..]| && times[1..][i] == t;
      assert times[i + 1] - times[0] >= gap;
    }
    FilterSame(Within(a, b), Within(times[0] + gap, b), times[1..]);
  }

  lemma QuotientFloor(n: int, gap: real, w: real)
    requires gap > 0.0 && n as real * gap <= w
    ensures n <= (w / gap).Floor
  {
    var q := w / gap;
    assert q * gap == w;
    assert (q - n as real) * gap >= 0.0;
    assert q >= n as real;
  }

  /** Any window of length w holds at most 1 + floor(w / cooldown) automatic events. */
  lemma RateBound(cfg: Config, s: State, steps: seq<Step>, k: nat, a: real, w: real)
    requires k <= |steps| && Timely(steps) && s.events == [] && cfg.cooldown > 0.0 && w >= 0.0
    ensures |Filter(Within(a, a + w), AutoTimes(After(cfg, s, steps, k).events))| <= 1 + (w / cfg.cooldown).Floor
  {
    AutoEventsSpaced(cfg, s, steps, k);
    WindowCount(AutoTimes(After(cfg, s, steps, k).events), cfg.cooldown, a, w);
  }

  lemma WindowCount(times: seq<real>, gap: real, a: real, w: real)
    requires Spaced(times, gap) && gap > 0.0 && w >= 0.0
    ensures |Filter(Within(a, a + w), times)| <= 1 + (w / gap).Floor
  {
    WindowBound(times, gap, a, a + w);
    var n := |Filter(Within(a, a + w), times)|;
    if n > 0 {
      SpanIs(n, gap);
    }
    QuotientFloor(if n == 0 then 0 else n - 1, gap, w);
  }
}

/** What single operations do, in terms of nodes, requests and clock readings alone. */
module AutoscalerMeaning {
  import opened Arith
  import opened Seqs
  import opened AutoscalerSpec
  import opened AutoscalerResize
  import opened AutoscalerRuns

  // ---- the measurement ----

  /** The requests of all containers of all pods, one after the other. */
  function Flat(pods: seq<seq<nat>>): seq<nat> { if pods == [] then [] else pods[0] + Flat(pods[1..]) }

  function GpuCounts(nodes: seq<Node>): seq<nat> { Map((n: Node) => n.gpus, nodes) }

  lemma {:induction false} SumConcat(xs: seq<nat>, ys: seq<nat>)
    ensures Sum(xs + ys) == Sum(xs) + Sum(ys)
  {
    if ys == [] {
      assert xs + ys == xs;
    } else {
      assert (xs + ys)[..|xs + ys| - 1] == xs + ys[..|ys| - 1];
      SumConcat(xs, ys[..|ys| - 1]);
    }
  }

  /** A sum is the sum of its parts, and one number is its own sum: this fixes `Sum`. */
  lemma SumIs(x: nat, xs: seq<nat>)
    ensures Sum([]) == 0 && Sum([x] + xs) == x + Sum(xs)
  {
    SumConcat([x], xs);
    assert [x][..0] == [];
  }

  lemma {:induction false} FlatConcat(a: seq<seq<nat>>, b: seq<seq<nat>>)
    ensures Flat(a + b) == Flat(a) + Flat(b)
  {
    if a == [] {
      assert a + b == b;
    } else {
      assert (a + b)[1..] == a[1..] + b;
      FlatConcat(a[1..], b);
    }
  }

  lemma {:induction false} RequestedIsSum(pods: seq<seq<nat>>)
    ensures Requested(pods) == Sum(Flat(pods))
  {
    if pods != [] {
      var (front, last) := (pods[..|pods| - 1], pods[|pods| - 1]);
      RequestedIsSum(front);
      FlatConcat(front, [last]);
      assert pods == front + [last] && Flat([last]) == last + [] == last;
      SumConcat(Flat(front), last);
    }
  }

  lemma {:induction false} CapacityIsSum(nodes: seq<Node>)
    ensures Capacity(nodes) == Sum(GpuCounts(nodes))
  {
    if nodes != [] {
      CapacityIsSum(nodes[..|nodes| - 1]);
      assert GpuCounts(nodes)[..|nodes| - 1] == GpuCounts(nodes[..|nodes| - 1]);
    }
  }

  /** Fifty percent if the query raises, zero without capacity, and otherwise all requests over all GPUs of the GPU
      nodes, in percent. */
  lemma UtilizationIsPercent(nodes: seq<Node>, pods: seq<seq<nat>>, fault: bool)
    ensures
      var (util, capacity) := (Utilization(nodes, pods, fault), Sum(GpuCounts(Filter(IsGpu(), nodes))));
      if fault then util == 50.0
      else if capacity == 0 then util == 0.0
      else util * capacity as real == 100.0 * Sum(Flat(pods)) as real
  {
    hide Filter, Sum, Flat, Requested, Capacity, GpuCounts;
    RequestedIsSum(pods);
    CapacityIsSum(Filter(IsGpu(), nodes));
    var capacity := Capacity(GpuNodes(nodes));
    if !fault && capacity > 0 {
      PercentTimes(Requested(pods) as real, capacity as real);
    }
  }

  lemma PercentTimes(x: real, a: real)
    requires a > 0.0
    ensures x / a * 100.0 * a == 100.0 * x
  {
    QuotientIs(x, a);
    assert x / a * 100.0 * a == 100.0 * (x / a * a);
  }

  // ---- one cycle ----

  /** One more event than before, written by the cycle, and the cooldown restarted. */
  predicate Logged(cfg: Config, s: State, s': State, c: Cycle, direction: Direction, delta: int, target: int) {
    && |s'.events| == |s.events| + 1 && s.events <= s'.events
    && s'.lastScale == c.done
    && var e := s'.events[|s.events|];
       && e.direction == direction && e.auto && e.at == c.at && e.delta == delta && e.target == target
       && e.group == (if cfg.groups == [] then "default-gpu-group" else cfg.groups[0])
  }

  /** Exactly when a cycle scales up or down and what it asks for; in all other cases it changes nothing. A read that
      raises counts as no nodes. */
  lemma CycleActsIff(cfg: Config, s: State, c: Cycle)
    ensures
      var (s', util) := (AutoscaleCycle(cfg, s, c), Utilization(s.nodes, c.pods, c.utilFault));
      var (total, checked) := (if c.countFault then 0 else Size(s), if c.checkFault then 0 else Size(s));
      var over := c.now - s.lastScale >= cfg.cooldown;
      if over && util >= cfg.upThreshold && total < cfg.maxNodes then
        if total + cfg.increment <= cfg.maxNodes then Logged(cfg, s, s', c, Up, cfg.increment, total + cfg.increment)
        else Logged(cfg, s, s', c, Up, cfg.maxNodes - total, cfg.maxNodes)
      else if over && util < cfg.upThreshold && util <= cfg.downThreshold
              && checked > cfg.minNodes && total > cfg.minNodes then
        if total - cfg.decrement >= cfg.minNodes then
          Logged(cfg, s, s', c, Down, cfg.decrement, total - cfg.decrement)
        else Logged(cfg, s, s', c, Down, total - cfg.minNodes, cfg.minNodes)
      else s' == s
  {
    hide Utilization, Filter, Resize;
  }

  /** Comparing the utilisation with a threshold, without division. */
  lemma LoadTests(nodes: seq<Node>, pods: seq<seq<nat>>, t: real)
    requires Sum(GpuCounts(Filter(IsGpu(), nodes))) > 0
    ensures
      var (util, demand, capacity) :=
        (Utilization(nodes, pods, false), Sum(Flat(pods)) as real, Sum(GpuCounts(Filter(IsGpu(), nodes))) as real);
      (util >= t <==> 100.0 * demand >= t * capacity) && (util <= t <==> 100.0 * demand <= t * capacity)
  {
    hide Utilization, Sum, Flat, GpuCounts, Filter;
    UtilizationIsPercent(nodes, pods, false);
    ProductTests(Utilization(nodes, pods, false), Sum(GpuCounts(Filter(IsGpu(), nodes))) as real, t);
  }

  /** A cycle scales up exactly when the cooldown has passed, demand has reached the threshold and there is room. */
  lemma ScalesUpIff(cfg: Config, s: State, c: Cycle)
    requires !c.utilFault && !c.countFault && Sum(GpuCounts(Filter(IsGpu(), s.nodes))) > 0
    ensures
      var (s', capacity) := (AutoscaleCycle(cfg, s, c), Sum(GpuCounts(Filter(IsGpu(), s.nodes))));
      |s'.events| == |s.events| + 1 && s'.events[|s.events|].direction == Up <==>
        && c.now - s.lastScale >= cfg.cooldown && Size(s) < cfg.maxNodes
        && 100.0 * Sum(Flat(c.pods)) as real >= cfg.upThreshold * capacity as real
  {
    hide Utilization, Filter, AutoscaleCycle, Sum, Flat, GpuCounts;
    CycleActsIff(cfg, s, c);
    LoadTests(s.nodes, c.pods, cfg.upThreshold);
  }

  /** A cycle scales down exactly when the cooldown has passed, demand is at or below the lower threshold and below the
      upper one, and there are nodes to spare. */
  lemma ScalesDownIff(cfg: Config, s: State, c: Cycle)
    requires !c.utilFault && !c.checkFault && !c.countFault && Sum(GpuCounts(Filter(IsGpu(), s.nodes))) > 0
    ensures
      var (s', capacity) := (AutoscaleCycle(cfg, s, c), Sum(GpuCounts(Filter(IsGpu(), s.nodes))));
      |s'.events| == |s.events| + 1 && s'.events[|s.events|].direction == Down <==>
        && c.now - s.lastScale >= cfg.cooldown && Size(s) > cfg.minNodes
        && 100.0 * Sum(Flat(c.pods)) as real < cfg.upThreshold * capacity as real
        && 100.0 * Sum(Flat(c.pods)) as real <= cfg.downThreshold * capacity as real
  {
    hide Utilization, Filter, AutoscaleCycle, Sum, Flat, GpuCounts;
    CycleActsIff(cfg, s, c);
    LoadTests(s.nodes, c.pods, cfg.upThreshold);
    LoadTests(s.nodes, c.pods, cfg.downThreshold);
  }

  lemma ProductTests(u: real, a: real, t: real)
    requires a > 0.0
    ensures u >= t <==> u * a >= t * a
    ensures u <= t <==> u * a <= t * a
  {
  }

  // ---- manual requests ----

  /** A request resizes its own group to its own target and logs one manual event, with the distance from the sizes
      read (zero if a read raises); it leaves the cooldown alone. */
  lemma ManualRecords(s: State, m: Manual)
    ensures
      var s' := ScaleManual(s, m);
      var (first, second) := (if m.firstSizeFault then 0 else |Filter(InGroup(m.group), s.nodes)|,
                              if m.secondSizeFault then 0 else |Filter(InGroup(m.group), s.nodes)|);
      && s'.nodes == Resize(s.nodes, m.group, m.target, m.stamp, m.gpus, m.calls).0
      && s'.lastScale == s.lastScale
      && |s'.events| == |s.events| + 1 && s.events <= s'.events
      && var e := s'.events[|s.events|];
         && !e.auto && e.at == m.at && e.group == m.group && e.target == m.target
         && (e.direction == Up <==> m.target > first)
         && e.delta >= 0 && (e.delta == m.target - second || e.delta == second - m.target)
         && (e.executed <==> Resize(s.nodes, m.group, m.target, m.stamp, m.gpus, m.calls).1)
  {
    hide Resize, Filter;
  }

  // ---- resizing ----

  /** Creation goes on with consecutive names exactly until it is done, a name is taken or the calls run out. */
  lemma {:induction false} CreateExactly(nodes: seq<Node>, g: string, stamp: int, gpus: nat, index: nat, count: nat,
                                         calls: nat)
    requires index <= count
    ensures
      var r := Create(nodes, g, stamp, gpus, index, count, calls).0;
      var made := |r| - |nodes|;
      && 0 <= made <= count - index && made <= calls
      && r == nodes + seq(made, (i: nat) => Node(Scaled(g, stamp, index + i), g, true, gpus))
      && (made < count - index && made < calls ==> HasName(r, Scaled(g, stamp, index + made)))
    decreases count - index
  {
    hide HasName;
    if index < count && calls != 0 && !HasName(nodes, Scaled(g, stamp, index)) {
      var n := NewNode(g, stamp, index, gpus);
      CreateExactly(nodes + [n], g, stamp, gpus, index + 1, count, calls - 1);
      var later := |Create(nodes + [n], g, stamp, gpus, index + 1, count, calls - 1).0| - |nodes| - 1;
      assert (nodes + [n]) + seq(later, (i: nat) => Node(Scaled(g, stamp, index + 1 + i), g, true, gpus))
          == nodes + seq(later + 1, (i: nat) => Node(Scaled(g, stamp, index + i), g, true, gpus));
    }
  }

  /** With fresh names a growing resize stops only when the calls run out; the first call reads the size. */
  lemma GrowSize(nodes: seq<Node>, g: string, target: int, stamp: int, gpus: nat, calls: nat)
    requires OneGroup(nodes, g) && target > |GpuNodes(nodes)| && calls > 0 && FreshStamp(nodes, g, stamp)
    ensures
      var (n, r) := (|GpuNodes(nodes)|, Resize(nodes, g, target, stamp, gpus, calls));
      |GpuNodes(r.0)| == n + Min(target - n, calls - 1) && (r.1 <==> target - n <= calls - 1)
  {
    var (n, r) := (|GpuNodes(nodes)|, Resize(nodes, g, target, stamp, gpus, calls));
    GroupIsAll(nodes, g);
    CreateEffect(nodes, g, stamp, gpus, 0, target - n, calls - 1);
    CreateUntilOutage(nodes, g, stamp, gpus, 0, target - n, calls - 1);
    ResizeKeepsGroup(nodes, g, target, stamp, gpus, calls);
    GroupIsAll(r.0, g);
  }

  lemma {:induction false} CreateUntilOutage(nodes: seq<Node>, g: string, stamp: int, gpus: nat, index: nat,
                                             count: nat, calls: nat)
    requires index <= count && forall i: nat :: index <= i ==> !HasName(nodes, Scaled(g, stamp, i))
    ensures |Create(nodes, g, stamp, gpus, index, count, calls).0| == |nodes| + Min(count - index, calls)
    decreases count - index
  {
    if index < count && calls > 0 {
      var more := nodes + [NewNode(g, stamp, index, gpus)];
      assert forall i: nat :: index + 1 <= i ==> !HasName(more, Scaled(g, stamp, i));
      CreateUntilOutage(more, g, stamp, gpus, index + 1, count, calls - 1);
    }
  }
}

/** The services themselves, each method tied to its specification. */
module AutoscalerEngines {
  import opened Seqs
  import opened AutoscalerSpec
  import opened AutoscalerResize

  /** The resize client together with the node list it edits through the API server. */
  class ClusterAutoscalerClient {
    var nodes: seq<Node>

    constructor (nodes: seq<Node>)
      ensures this.nodes == nodes
    {
      this.nodes := nodes;
    }

    method CreateDummyNodes(g: string, stamp: int, gpus: nat, count: nat, calls: nat) returns (ok: bool)
      modifies this
      ensures (nodes, ok) == Create(old(nodes), g, stamp, gpus, 0, count, calls)
    {
      var left := calls;
      for i := 0 to count
        invariant Create(nodes, g, stamp, gpus, i, count, left) == Create(old(nodes), g, stamp, gpus, 0, count, calls)
      {
        if left == 0 || HasName(nodes, Scaled(g, stamp, i)) { return false; }
        nodes := nodes + [NewNode(g, stamp, i, gpus)];
        left := left - 1;
      }
      ok := true;
    }

    method RemoveNodes(victims: seq<Node>, calls: nat) returns (ok: bool)
      modifies this
      ensures (nodes, ok) == Remove(old(nodes), victims, calls)
    {
      var left := calls;
      for i := 0 to |victims|
        invariant Remove(nodes, victims[i..], left) == Remove(old(nodes), victims, calls)
      {
        if left == 0 { return false; }
        assert victims[i..][1..] == victims[i + 1..];
        nodes := Filter(OtherThan(victims[i].name), nodes);
        left := left - 1;
      }
      ok := true;
    }

    /** An exception anywhere inside is reported as `false`. */
    method SetNodeGroupSize(g: string, target: int, stamp: int, gpus: nat, calls: nat) returns (ok: bool)
      modifies this
      ensures (nodes, ok) == Resize(old(nodes), g, target, stamp, gpus, calls)
      ensures UniqueNames(old(nodes)) ==> Resized(old(nodes), nodes, ok, g, target, gpus)
    {
      if calls == 0 {
        ok := false;
      } else {
        var delta := target - |Group(nodes, g)|;
        if delta > 0 {
          ok := CreateDummyNodes(g, stamp, gpus, delta, calls - 1);
        } else if delta < 0 {
          ok := RemoveNodes(Victims(nodes, g, target), calls - 1);
        } else {
          ok := true;
        }
      }
      if UniqueNames(old(nodes)) {
        ResizeEffect(old(nodes), g, target, stamp, gpus, calls);
      }
    }
  }

  class AutoscalerEngine {
    const client: ClusterAutoscalerClient
    var config: Config
    var events: seq<ScaleEvent>
    var lastScaleTime: real

    ghost function Abs(): State
      reads this, client
    {
      State(client.nodes, events, lastScaleTime)
    }

    constructor (client: ClusterAutoscalerClient, config: Config)
      ensures this.client == client && this.config == config && Abs() == State(client.nodes, [], 0.0)
    {
      this.client, this.config, this.events, this.lastScaleTime := client, config, [], 0.0;
    }

    method ComputeClusterUtilization(pods: seq<seq<nat>>, fault: bool) returns (util: real)
      ensures util == Utilization(client.nodes, pods, fault)
    {
      if fault { return 50.0; }
      var listed := GpuNodes(client.nodes);
      if listed == [] { return 0.0; }
      var allocatable := 0;
      for i := 0 to |listed|
        invariant allocatable == Capacity(listed[..i])
      {
        assert listed[..i + 1][..i] == listed[..i];
        allocatable := allocatable + listed[i].gpus;
      }
      assert listed[..|listed|] == listed;
      var requested := RequestedGpus(pods);
      if allocatable == 0 { return 0.0; }
      util := (requested as real / allocatable as real) * 100.0;
    }

    /** The loop over the pods and their containers. */
    method RequestedGpus(pods: seq<seq<nat>>) returns (requested: nat)
      ensures requested == Requested(pods)
    {
      requested := 0;
      for i := 0 to |pods|
        invariant requested == Requested(pods[..i])
      {
        var limits := pods[i];
        assert pods[..i + 1][..i] == pods[..i];
        for j := 0 to |limits|
          invariant requested == Requested(pods[..i]) + Sum(limits[..j])
        {
          assert limits[..j + 1][..j] == limits[..j];
          requested := requested + limits[j];
        }
        assert limits[..|limits|] == limits;
      }
      assert pods[..|pods|] == pods;
    }

    method ScaleUp(c: Cycle)
      modifies this`events, this`lastScaleTime, client
      ensures Abs() == AutoscalerSpec.ScaleUp(config, old(Abs()), c)
    {
      var total := TotalNodes(client.nodes, c.countFault);
      if total >= config.maxNodes { return; }
      var delta := Min(config.increment, config.maxNodes - total);
      Apply(c, Up, delta, total + delta);
    }

    method ScaleDown(c: Cycle)
      modifies this`events, this`lastScaleTime, client
      ensures Abs() == AutoscalerSpec.ScaleDown(config, old(Abs()), c)
    {
      var total := TotalNodes(client.nodes, c.countFault);
      if total <= config.minNodes { return; }
      var delta := Min(config.decrement, total - config.minNodes);
      Apply(c, Down, delta, total - delta);
    }

    /** The common tail of both scale methods: resize, log the event, start the cooldown. */
    method Apply(c: Cycle, direction: Direction, delta: int, target: int)
      modifies this`events, this`lastScaleTime, client
      ensures Abs() == ScaleTo(config, old(Abs()), c, direction, delta, target)
    {
      var g := SelectNodeGroup(config);
      var ok := client.SetNodeGroupSize(g, target, c.stamp, c.gpus, c.calls);
      events := events + [ScaleEvent(direction, g, delta, true, c.at, ok, target)];
      lastScaleTime := c.done;
    }

    method AutoscaleCycle(c: Cycle)
      modifies this`events, this`lastScaleTime, client
      ensures Abs() == Do(config, old(Abs()), Auto(c))
    {
      if c.now - lastScaleTime < config.cooldown { return; }
      var util := ComputeClusterUtilization(c.pods, c.utilFault);
      if util >= config.upThreshold {
        ScaleUp(c);
      } else if util <= config.downThreshold && TotalNodes(client.nodes, c.checkFault) > config.minNodes {
        ScaleDown(c);
      }
    }

    method ScaleManual(m: Manual)
      modifies this`events, client
      ensures Abs() == Do(config, old(Abs()), Operator(m))
    {
      hide Resize, Filter;
      var direction := if m.target > GroupSize(client.nodes, m.group, m.firstSizeFault) then Up else Down;
      var delta := Seqs.Abs(m.target - GroupSize(client.nodes, m.group, m.secondSizeFault));
      var ok := client.SetNodeGroupSize(m.group, m.target, m.stamp, m.gpus, m.calls);
      events := events + [ScaleEvent(direction, m.group, delta, false, m.at, ok, m.target)];
    }
  }
}
