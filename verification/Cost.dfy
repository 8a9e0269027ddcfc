/** Cost roll-ups: the report of src/gpuopt/cost_analysis.py and the allocation of src/gpuopt/finops.py, with exact
    real arithmetic in place of floats. */
module CostSpec {
  import opened Arith
  import opened Seqs

  datatype Gpu = Gpu(total: int, used: int)

  datatype Node = Node(labels: map<string, string>, gpus: seq<Gpu>)

  /** The running totals of the report loops, before any rounding. */
  datatype Totals = Totals(gpus: nat, active: nat, idle: nat, hourly: real, waste: real, utilSum: real)

  const ZERO := Totals(0, 0, 0, 0.0, 0.0, 0.0)

  function Util(g: Gpu): real {
    if g.total > 0 then g.used as real / g.total as real * 100.0 else 0.0
  }

  /** A GPU costs 0.85 an hour. */
  function Waste(util: real): real { if util < 100.0 then 0.85 * (1.0 - util / 100.0) else 0.0 }

  /** One GPU of the given utilisation counted into the totals. */
  function Add(t: Totals, util: real): Totals {
    Totals(t.gpus + 1, t.active + (if util > 10.0 then 1 else 0), t.idle + (if util > 10.0 then 0 else 1),
           t.hourly + 0.85, t.waste + Waste(util), t.utilSum + util)
  }

  function TotalsOf(utils: seq<real>): Totals {
    if utils == [] then ZERO else Add(TotalsOf(utils[..|utils| - 1]), utils[|utils| - 1])
  }

  function Utils(gpus: seq<Gpu>): seq<real> { Map(Util, gpus) }

  function NodeSum(node: Node): Totals { TotalsOf(Utils(node.gpus)) }

  function ReportTotals(nodes: seq<Node>): Totals { TotalsOf(Utils(AllGpus(nodes))) }

  function AllGpus(nodes: seq<Node>): seq<Gpu> {
    if nodes == [] then [] else AllGpus(nodes[..|nodes| - 1]) + nodes[|nodes| - 1].gpus
  }

  function SumCounts(nodes: seq<Node>): nat {
    if nodes == [] then 0 else SumCounts(nodes[..|nodes| - 1]) + |nodes[|nodes| - 1].gpus|
  }

  function Plus(a: Totals, b: Totals): Totals {
    Totals(a.gpus + b.gpus, a.active + b.active, a.idle + b.idle,
        a.hourly + b.hourly, a.waste + b.waste, a.utilSum + b.utilSum)
  }

  lemma PlusAdd(a: Totals, b: Totals, util: real)
    ensures Add(Plus(a, b), util) == Plus(a, Add(b, util))
  {
  }

  lemma TotalsSnoc(utils: seq<real>, util: real)
    ensures TotalsOf(utils + [util]) == Add(TotalsOf(utils), util)
  {
  }

  /** The totals of a concatenation are the sums of the totals. */
  lemma {:induction false} TotalsConcat(a: seq<real>, b: seq<real>)
    ensures TotalsOf(a + b) == Plus(TotalsOf(a), TotalsOf(b))
  {
    if b == [] {
      assert a + b == a;
    } else {
      var (front, last) := (b[..|b| - 1], b[|b| - 1]);
      assert b == front + [last] && a + b == (a + front) + [last];
      TotalsConcat(a, front);
      TotalsSnoc(a + front, last);
      TotalsSnoc(front, last);
      PlusAdd(TotalsOf(a), TotalsOf(front), last);
    }
  }

  // ---- rounding ----

  /** Python's `round` to an integer: to the nearest, ties to even. */
  function RoundHalfEven(x: real): int {
    var (f, d) := (x.Floor, x - x.Floor as real);
    if d < 0.5 || (d == 0.5 && f % 2 == 0) then f else f + 1
  }

  function Round1(x: real): real { RoundHalfEven(x * 10.0) as real / 10.0 }

  function Round2(x: real): real { RoundHalfEven(x * 100.0) as real / 100.0 }

  lemma RoundError(x: real)
    ensures Near(Round1(x), x, 0.05) && Near(Round2(x), x, 0.005)
  {
  }

  // ---- the report ----

  datatype Report = Report(gpus: nat, active: nat, idle: nat, hourlyCost: real, monthlyCost: real, wasteHourly: real,
                           efficiency: real)

  function Rounded(t: Totals): Report {
    Report(t.gpus, t.active, t.idle, Round2(t.hourly), Round2(t.hourly * 730.0), Round2(t.waste),
           Round1(t.utilSum / Max(t.gpus, 1) as real))
  }

  /** The inner loop: one node's GPUs. */
  method NodeTotals(node: Node) returns (t: Totals)
    ensures t == NodeSum(node)
  {
    var gpus := node.gpus;
    t := ZERO;
    ghost var utils := Utils(gpus);
    for i := 0 to |gpus|
      invariant t == TotalsOf(utils[..i])
    {
      assert utils[..i + 1][..i] == utils[..i];
      var util := Util(gpus[i]);
      var active, idle := t.active, t.idle;
      if util > 10.0 { active := active + 1; } else { idle := idle + 1; }
      t := Totals(t.gpus + 1, active, idle, t.hourly + 0.85, t.waste + Waste(util), t.utilSum + util);
    }
    assert utils[..|gpus|] == utils;
  }

  /** The outer loop. */
  method SumNodes(nodes: seq<Node>) returns (totals: Totals, byNode: seq<Totals>)
    ensures totals == ReportTotals(nodes)
    ensures |byNode| == |nodes| && forall n :: 0 <= n < |nodes| ==> byNode[n] == NodeSum(nodes[n])
  {
    hide Plus;
    totals, byNode := ZERO, [];
    for n := 0 to |nodes|
      invariant totals == ReportTotals(nodes[..n])
      invariant |byNode| == n && forall k :: 0 <= k < n ==> byNode[k] == NodeSum(nodes[k])
    {
      NodeJoins(nodes, n);
      var node := NodeTotals(nodes[n]);
      totals := Plus(totals, node);
      byNode := byNode + [node];
    }
    assert nodes[..|nodes|] == nodes;
  }

  /** The unrounded totals, the breakdown by node and the rounded report. */
  method GenerateCostReport(nodes: seq<Node>) returns (totals: Totals, byNode: seq<Totals>, report: Report)
    ensures totals == ReportTotals(nodes)
    ensures |byNode| == |nodes| && forall n :: 0 <= n < |nodes| ==> byNode[n] == NodeSum(nodes[n])
    ensures report == Rounded(totals)
  {
    totals, byNode := SumNodes(nodes);
    report := Rounded(totals);
  }

  lemma NodeJoins(nodes: seq<Node>, n: nat)
    requires n < |nodes|
    ensures ReportTotals(nodes[..n + 1]) == Plus(ReportTotals(nodes[..n]), NodeSum(nodes[n]))
  {
    assert nodes[..n + 1][..n] == nodes[..n];
    MapConcat(Util, AllGpus(nodes[..n]), nodes[n].gpus);
    TotalsConcat(Utils(AllGpus(nodes[..n])), Utils(nodes[n].gpus));
  }

  // ---- allocation by environment ----

  datatype Share = Share(tag: string, gpus: nat)

  datatype Allocation = Allocation(tag: string, cost: real, gpus: nat, percentage: real)

  const ENVIRONMENT := "environment"

  function Tag(n: Node): string { if ENVIRONMENT in n.labels then n.labels[ENVIRONMENT] else "default" }

  /** One node counted into the shares: an existing tag grows in place, a new one goes to the end. */
  function Tally(shares: seq<Share>, tag: string, gpus: nat): seq<Share> {
    if shares == [] then [Share(tag, gpus)]
    else if shares[0].tag == tag then [Share(tag, shares[0].gpus + gpus)] + shares[1..]
    else [shares[0]] + Tally(shares[1..], tag, gpus)
  }

  function Shares(nodes: seq<Node>): seq<Share> {
    if nodes == [] then []
    else Tally(Shares(nodes[..|nodes| - 1]), Tag(nodes[|nodes| - 1]), |nodes[|nodes| - 1].gpus|)
  }

  function SumShares(shares: seq<Share>): nat {
    if shares == [] then 0 else shares[0].gpus + SumShares(shares[1..])
  }

  /** The part of the total that a tag stands for. */
  function Part(gpus: nat, total: nat): real { gpus as real / Max(total, 1) as real }

  function Percentage(part: real): real { Round1(part * 100.0) }

  function PercentOf(cost: real, pct: real): real { cost * pct / 100.0 }

  function ChargeFor(part: real, cost: real): real { Round2(PercentOf(cost, Percentage(part))) }

  function Allocate(share: Share, total: nat, cost: real): Allocation {
    var part := Part(share.gpus, total);
    Allocation(share.tag, ChargeFor(part, cost), share.gpus, Percentage(part))
  }

  /** Insertion behind everything at least as expensive: descending and stable. */
  function Insert(sorted: seq<Allocation>, x: Allocation): seq<Allocation> {
    if sorted == [] then [x]
    else if sorted[0].cost >= x.cost then [sorted[0]] + Insert(sorted[1..], x)
    else [x] + sorted
  }

  function SortDescending(xs: seq<Allocation>): seq<Allocation> {
    if xs == [] then [] else Insert(SortDescending(xs[..|xs| - 1]), xs[|xs| - 1])
  }

  function Charges(shares: seq<Share>, total: nat, cost: real): seq<Allocation> {
    Map(s => Allocate(s, total, cost), shares)
  }

  /** The loop that turns shares into allocations. */
  method Charge(shares: seq<Share>, total: nat, cost: real) returns (xs: seq<Allocation>)
    ensures xs == Charges(shares, total, cost)
  {
    xs := [];
    ghost var all := Charges(shares, total, cost);
    for i := 0 to |shares|
      invariant |xs| == i && forall k :: 0 <= k < i ==> xs[k] == all[k]
    {
      xs := xs + [Allocate(shares[i], total, cost)];
    }
  }

  function MonthlyCost(nodes: seq<Node>): real { Rounded(ReportTotals(nodes)).monthlyCost }

  /** `known` says whether the cost report can be made; if not, the cost to allocate is zero. */
  method GetCostAllocation(nodes: seq<Node>, known: bool) returns (result: seq<Allocation>)
    ensures
      var cost := if known then MonthlyCost(nodes) else 0.0;
      result == SortDescending(Charges(Shares(nodes), SumShares(Shares(nodes)), cost))
  {
    var shares: seq<Share> := [];
    for n := 0 to |nodes|
      invariant shares == Shares(nodes[..n])
    {
      assert nodes[..n + 1][..n] == nodes[..n];
      shares := Tally(shares, Tag(nodes[n]), |nodes[n].gpus|);
    }
    assert nodes[..|nodes|] == nodes;
    var cost := 0.0;
    if known {
      var _, _, report := GenerateCostReport(nodes);
      cost := report.monthlyCost;
    }
    var unsorted := Charge(shares, SumShares(shares), cost);
    result := SortDescending(unsorted);
  }
}

module CostLaws {
  import opened Arith
  import opened Seqs
  import opened CostSpec

  lemma {:induction false} CountsAddUp(utils: seq<real>)
    ensures TotalsOf(utils).active + TotalsOf(utils).idle == TotalsOf(utils).gpus == |utils|
    ensures TotalsOf(utils).hourly == 0.85 * |utils| as real
  {
    if utils != [] {
      CountsAddUp(utils[..|utils| - 1]);
    }
  }

  /** Every GPU is counted once, as active or as idle; the total is the sum of the node counts. */
  lemma {:induction false} GpusConserved(nodes: seq<Node>)
    ensures ReportTotals(nodes).active + ReportTotals(nodes).idle == ReportTotals(nodes).gpus == SumCounts(nodes)
  {
    CountsAddUp(Utils(AllGpus(nodes)));
    if nodes != [] {
      GpusConserved(nodes[..|nodes| - 1]);
      CountsAddUp(Utils(AllGpus(nodes[..|nodes| - 1])));
    }
  }

  predicate Overcommitted(g: Gpu) { g.total > 0 && g.used > g.total }

  lemma OvercommittedIff(g: Gpu)
    ensures Util(g) > 100.0 <==> Overcommitted(g)
  {
    if g.total > 0 {
      var q := g.used as real / g.total as real;
      QuotientIs(g.used as real, g.total as real);
      if q <= 1.0 {
        MulMono(g.total as real, q, 1.0);
      } else {
        MulMono(g.total as real, 1.0, q);
      }
    }
  }

  /** What the waste would be if it were not cut off at zero per GPU. */
  function LinearWaste(t: Totals): real { t.hourly - 0.85 * t.utilSum / 100.0 }

  predicate NoneAbove(utils: seq<real>) { forall u :: u in utils ==> u <= 100.0 }

  lemma NoneAboveSnoc(utils: seq<real>, util: real)
    ensures NoneAbove(utils + [util]) <==> NoneAbove(utils) && util <= 100.0
  {
    assert util in utils + [util];
    assert forall u :: u in utils ==> u in utils + [util];
  }

  lemma {:induction false} WasteSum(utils: seq<real>)
    ensures TotalsOf(utils).waste >= LinearWaste(TotalsOf(utils))
    ensures TotalsOf(utils).waste == LinearWaste(TotalsOf(utils)) <==> NoneAbove(utils)
  {
    if utils != [] {
      var (front, util) := (utils[..|utils| - 1], utils[|utils| - 1]);
      assert utils == front + [util];
      WasteSum(front);
      NoneAboveSnoc(front, util);
      assert LinearWaste(Add(TotalsOf(front), util)) == LinearWaste(TotalsOf(front)) + 0.85 * (1.0 - util / 100.0);
    }
  }

  /** `hourly * (1 - mean / 100)` for totals with the given mean utilisation. */
  function Expected(t: Totals): real {
    t.hourly * (1.0 - (t.utilSum / Max(t.gpus, 1) as real) / 100.0)
  }

  lemma ExpectedIsLinear(hourly: real, n: nat, sum: real)
    requires hourly == 0.85 * n as real && (n == 0 ==> sum == 0.0)
    ensures hourly * (1.0 - (sum / Max(n, 1) as real) / 100.0) == hourly - 0.85 * sum / 100.0
  {
  }

  lemma ExpectedTotals(utils: seq<real>)
    ensures Expected(TotalsOf(utils)) == LinearWaste(TotalsOf(utils))
  {
    CountsAddUp(utils);
    ExpectedIsLinear(TotalsOf(utils).hourly, |utils|, TotalsOf(utils).utilSum);
  }

  /** The unrounded waste is hourly cost times one minus mean utilisation exactly when no GPU uses more memory than
      it has; otherwise it is larger. */
  lemma WasteIff(nodes: seq<Node>)
    ensures ReportTotals(nodes).waste >= Expected(ReportTotals(nodes))
    ensures ReportTotals(nodes).waste == Expected(ReportTotals(nodes)) <==> NoneOver(AllGpus(nodes))
  {
    var utils := Utils(AllGpus(nodes));
    WasteSum(utils);
    ExpectedTotals(utils);
    OverIsAbove(AllGpus(nodes));
  }

  predicate NoneOver(gpus: seq<Gpu>) { forall i :: 0 <= i < |gpus| ==> !Overcommitted(gpus[i]) }

  lemma OverIsAbove(gpus: seq<Gpu>)
    ensures NoneAbove(Utils(gpus)) <==> NoneOver(gpus)
  {
    var utils := Utils(gpus);
    forall i | 0 <= i < |gpus| ensures utils[i] in utils && (utils[i] > 100.0 <==> Overcommitted(gpus[i])) {
      OvercommittedIff(gpus[i]);
    }
  }

  // ---- allocation ----

  lemma {:induction false} TallySum(shares: seq<Share>, tag: string, gpus: nat)
    ensures SumShares(Tally(shares, tag, gpus)) == SumShares(shares) + gpus
  {
    if shares != [] && shares[0].tag != tag {
      TallySum(shares[1..], tag, gpus);
    }
  }

  lemma {:induction false} SharesAddUp(nodes: seq<Node>)
    ensures SumShares(Shares(nodes)) == SumCounts(nodes)
  {
    if nodes != [] {
      SharesAddUp(nodes[..|nodes| - 1]);
      TallySum(Shares(nodes[..|nodes| - 1]), Tag(nodes[|nodes| - 1]), |nodes[|nodes| - 1].gpus|);
    }
  }

  /** The tags' GPU counts add up to the report's total. */
  lemma SharesConserved(nodes: seq<Node>)
    ensures SumShares(Shares(nodes)) == SumCounts(nodes) == ReportTotals(nodes).gpus
  {
    SharesAddUp(nodes);
    GpusConserved(nodes);
  }

  /** The GPUs booked under a tag. */
  function Booked(shares: seq<Share>, tag: string): nat {
    if shares == [] then 0 else if shares[0].tag == tag then shares[0].gpus else Booked(shares[1..], tag)
  }

  function HasTag(tag: string): Node -> bool { (n: Node) => Tag(n) == tag }

  predicate DistinctTags(shares: seq<Share>) {
    forall i, j :: 0 <= i < j < |shares| ==> shares[i].tag != shares[j].tag
  }

  function Tags(shares: seq<Share>): set<string> { set x | x in shares :: x.tag }

  function NodeTags(nodes: seq<Node>): set<string> { set n | n in nodes :: Tag(n) }

  lemma {:induction false} TallyBooks(shares: seq<Share>, tag: string, gpus: nat, q: string)
    ensures Booked(Tally(shares, tag, gpus), q) == Booked(shares, q) + (if q == tag then gpus else 0)
  {
    if shares != [] && shares[0].tag != tag {
      TallyBooks(shares[1..], tag, gpus, q);
    }
  }

  lemma {:induction false} TallyTags(shares: seq<Share>, tag: string, gpus: nat)
    ensures Tags(Tally(shares, tag, gpus)) == Tags(shares) + {tag}
  {
    if shares != [] {
      assert shares == [shares[0]] + shares[1..];
      if shares[0].tag != tag {
        TallyTags(shares[1..], tag, gpus);
        TagsCons(shares[0], Tally(shares[1..], tag, gpus));
      } else {
        TagsCons(Share(tag, shares[0].gpus + gpus), shares[1..]);
      }
      TagsCons(shares[0], shares[1..]);
    }
  }

  lemma TagsCons(x: Share, rest: seq<Share>)
    ensures Tags([x] + rest) == {x.tag} + Tags(rest)
  {
  }

  lemma {:induction false} TallyDistinct(shares: seq<Share>, tag: string, gpus: nat)
    requires DistinctTags(shares)
    ensures DistinctTags(Tally(shares, tag, gpus))
  {
    if shares != [] && shares[0].tag != tag {
      var grown := Tally(shares[1..], tag, gpus);
      TallyDistinct(shares[1..], tag, gpus);
      TallyTags(shares[1..], tag, gpus);
      forall x | x in grown ensures x.tag != shares[0].tag {
        assert x.tag in Tags(grown);
      }
    }
  }

  lemma SharesSnoc(nodes: seq<Node>, n: Node)
    ensures Shares(nodes + [n]) == Tally(Shares(nodes), Tag(n), |n.gpus|)
    ensures NodeTags(nodes + [n]) == NodeTags(nodes) + {Tag(n)}
  {
    hide Tally, Tag;
    assert (nodes + [n])[..|nodes|] == nodes;
  }

  lemma {:induction false} SharesDistinct(nodes: seq<Node>)
    ensures DistinctTags(Shares(nodes)) && Tags(Shares(nodes)) == NodeTags(nodes)
  {
    hide Tally, Tag;
    if nodes != [] {
      hide Tags, NodeTags, DistinctTags, Shares;
      var (front, n) := (nodes[..|nodes| - 1], nodes[|nodes| - 1]);
      SharesDistinct(front);
      TallyDistinct(Shares(front), Tag(n), |n.gpus|);
      TallyTags(Shares(front), Tag(n), |n.gpus|);
      SharesSnoc(front, n);
      assert nodes == front + [n];
    }
  }

  lemma CountsSnoc(nodes: seq<Node>, n: Node, q: string)
    ensures SumCounts(Filter(HasTag(q), nodes + [n]))
         == SumCounts(Filter(HasTag(q), nodes)) + (if Tag(n) == q then |n.gpus| else 0)
  {
    FilterConcat(HasTag(q), nodes, [n]);
    var kept := Filter(HasTag(q), nodes);
    assert (kept + [n])[..|kept|] == kept && kept + [] == kept;
  }

  lemma NothingBooked(q: string)
    ensures Booked(Shares([]), q) == SumCounts(Filter(HasTag(q), []))
  {
  }

  lemma {:induction false} SharesBooked(nodes: seq<Node>, q: string)
    ensures Booked(Shares(nodes), q) == SumCounts(Filter(HasTag(q), nodes))
  {
    hide Tally, Booked, Tag, SumCounts, Shares, Filter;
    if nodes == [] {
      NothingBooked(q);
    } else {
      var (front, n) := (nodes[..|nodes| - 1], nodes[|nodes| - 1]);
      SharesBooked(front, q);
      TallyBooks(Shares(front), Tag(n), |n.gpus|, q);
      CountsSnoc(front, n, q);
      SharesSnoc(front, n);
      assert nodes == front + [n];
    }
  }

  lemma {:induction false} BookedIsEntry(shares: seq<Share>, k: nat)
    requires DistinctTags(shares) && k < |shares|
    ensures Booked(shares, shares[k].tag) == shares[k].gpus
  {
    if k > 0 {
      BookedIsEntry(shares[1..], k - 1);
    }
  }

  /** The tags are distinct, they are the tags of the nodes, and each stands for exactly the GPUs of its nodes. */
  lemma SharesByTag(nodes: seq<Node>)
    ensures DistinctTags(Shares(nodes)) && Tags(Shares(nodes)) == NodeTags(nodes)
    ensures forall k :: 0 <= k < |Shares(nodes)| ==>
      Shares(nodes)[k].gpus == SumCounts(Filter(HasTag(Shares(nodes)[k].tag), nodes))
  {
    var shares := Shares(nodes);
    SharesDistinct(nodes);
    forall k | 0 <= k < |shares| ensures shares[k].gpus == SumCounts(Filter(HasTag(shares[k].tag), nodes)) {
      SharesBooked(nodes, shares[k].tag);
      BookedIsEntry(shares, k);
    }
  }

  function SumCosts(xs: seq<Allocation>): real {
    if xs == [] then 0.0 else xs[0].cost + SumCosts(xs[1..])
  }

  predicate Descending(xs: seq<Allocation>) { forall i, j :: 0 <= i < j < |xs| ==> xs[i].cost >= xs[j].cost }

  lemma {:induction false} InsertSum(sorted: seq<Allocation>, x: Allocation)
    ensures SumCosts(Insert(sorted, x)) == SumCosts(sorted) + x.cost
  {
    if sorted != [] && sorted[0].cost >= x.cost {
      InsertSum(sorted[1..], x);
    }
  }

  lemma {:induction false} InsertMultiset(sorted: seq<Allocation>, x: Allocation)
    ensures multiset(Insert(sorted, x)) == multiset(sorted) + multiset{x}
  {
    if sorted != [] && sorted[0].cost >= x.cost {
      InsertMultiset(sorted[1..], x);
      assert sorted == [sorted[0]] + sorted[1..];
    }
  }

  lemma {:induction false} InsertDescending(sorted: seq<Allocation>, x: Allocation)
    requires Descending(sorted)
    ensures Descending(Insert(sorted, x))
  {
    if sorted != [] && sorted[0].cost >= x.cost {
      InsertDescending(sorted[1..], x);
      var rest := Insert(sorted[1..], x);
      InsertMultiset(sorted[1..], x);
      forall i | 0 <= i < |rest| ensures rest[i].cost <= sorted[0].cost {
        assert rest[i] in multiset(rest);
      }
    }
  }

  lemma InsertKeeps(sorted: seq<Allocation>, x: Allocation)
    requires Descending(sorted)
    ensures SumCosts(Insert(sorted, x)) == SumCosts(sorted) + x.cost
    ensures Descending(Insert(sorted, x))
    ensures multiset(Insert(sorted, x)) == multiset(sorted) + multiset{x}
  {
    InsertSum(sorted, x);
    InsertDescending(sorted, x);
    InsertMultiset(sorted, x);
  }

  lemma {:induction false} SortKeeps(xs: seq<Allocation>)
    ensures SumCosts(SortDescending(xs)) == SumCosts(xs)
    ensures Descending(SortDescending(xs))
    ensures multiset(SortDescending(xs)) == multiset(xs)
  {
    hide Insert;
    if xs != [] {
      var front := xs[..|xs| - 1];
      SortKeeps(front);
      InsertKeeps(SortDescending(front), xs[|xs| - 1]);
      SumCostsSnoc(front, xs[|xs| - 1]);
      assert xs == front + [xs[|xs| - 1]];
    }
  }

  lemma {:induction false} SumCostsSnoc(xs: seq<Allocation>, x: Allocation)
    ensures SumCosts(xs + [x]) == SumCosts(xs) + x.cost
  {
    if xs != [] {
      assert (xs + [x])[1..] == xs[1..] + [x];
      SumCostsSnoc(xs[1..], x);
    }
  }

  lemma CentError(x: real, exact: real, error: real)
    requires Near(x, exact, error)
    ensures Near(Round2(x), exact, error + 0.005)
  {
  }

  /** The exact charge of a part of the cost. */
  function Exact(cost: real, part: real): real { cost * part }

  lemma ChargeError(cost: real, part: real, pct: real)
    requires cost >= 0.0 && Near(pct, part * 100.0, 0.05)
    ensures Near(Round2(PercentOf(cost, pct)), Exact(cost, part), 0.0005 * cost + 0.005)
  {
    PercentError(cost, part, pct);
    CentError(PercentOf(cost, pct), Exact(cost, part), 0.0005 * cost);
  }

  /** One tag's cost is off its exact part of the total by at most 0.0005 of the total plus half a cent. */
  lemma ShareError(part: real, cost: real)
    requires cost >= 0.0
    ensures Near(ChargeFor(part, cost), Exact(cost, part), 0.0005 * cost + 0.005)
  {
    RoundError(part * 100.0);
    ChargeError(cost, part, Percentage(part));
  }

  lemma PercentError(cost: real, part: real, pct: real)
    requires cost >= 0.0 && Near(pct, part * 100.0, 0.05)
    ensures Near(PercentOf(cost, pct), Exact(cost, part), 0.0005 * cost)
  {
    NearScaled(cost, pct / 100.0, part, 0.0005);
    assert PercentOf(cost, pct) == cost * (pct / 100.0);
    assert Exact(cost, part) == cost * part && 0.0005 * cost == cost * 0.0005;
  }

  function SumParts(shares: seq<Share>, total: nat, cost: real): real {
    if shares == [] then 0.0 else Exact(cost, Part(shares[0].gpus, total)) + SumParts(shares[1..], total, cost)
  }

  function Times(k: nat, x: real): real { if k == 0 then 0.0 else x + Times(k - 1, x) }

  lemma {:induction false} TimesIs(k: nat, x: real)
    ensures Times(k, x) == k as real * x
  {
    if k > 0 {
      TimesIs(k - 1, x);
      assert k as real * x == (k - 1) as real * x + x;
    }
  }

  /** The distance between the allocated costs and the exact parts adds up over the tags. */
  lemma {:induction false} AllocationError(shares: seq<Share>, xs: seq<Allocation>, total: nat, cost: real)
    requires cost >= 0.0 && |xs| == |shares|
    requires forall i :: 0 <= i < |xs| ==> Near(xs[i].cost, Exact(cost, Part(shares[i].gpus, total)),
        0.0005 * cost + 0.005)
    ensures Near(SumCosts(xs), SumParts(shares, total, cost), Times(|shares|, 0.0005 * cost + 0.005))
  {
    if shares != [] {
      AllocationError(shares[1..], xs[1..], total, cost);
    }
  }

  /** The exact parts add up to the part of the sum. */
  lemma {:induction false} PartsAddUp(shares: seq<Share>, total: nat, cost: real)
    ensures SumParts(shares, total, cost) == Exact(cost, Part(SumShares(shares), total))
  {
    if shares == [] {
      assert Part(0, total) == 0.0;
    } else {
      PartsAddUp(shares[1..], total, cost);
      PartsAdd(shares[0].gpus, SumShares(shares[1..]), total, cost);
    }
  }

  lemma PartsAdd(a: nat, b: nat, total: nat, cost: real)
    ensures Exact(cost, Part(a + b, total)) == Exact(cost, Part(a, total)) + Exact(cost, Part(b, total))
  {
  }

  /** What rounding k percentages and k amounts can add up to. */
  function RoundingBound(k: nat, cost: real): real { k as real * (0.0005 * cost + 0.005) }

  /** Allocating a monthly total over k tags loses or gains at most k (0.0005 C + 0.005) as soon as there is a GPU. */
  lemma AllocationConserves(nodes: seq<Node>, cost: real)
    requires SumCounts(nodes) >= 1 && cost >= 0.0
    ensures
      var shares := Shares(nodes);
      var result := SortDescending(Charges(shares, SumShares(shares), cost));
      Near(SumCosts(result), cost, RoundingBound(|shares|, cost))
  {
    SharesAddUp(nodes);
    AllChargesNear(Shares(nodes), cost);
    SortKeeps(Charges(Shares(nodes), SumShares(Shares(nodes)), cost));
  }

  lemma AllChargesNear(shares: seq<Share>, cost: real)
    requires SumShares(shares) >= 1 && cost >= 0.0
    ensures Near(SumCosts(Charges(shares, SumShares(shares), cost)), cost, RoundingBound(|shares|, cost))
  {
    hide SumCosts, Charges, Part, Exact;
    ChargesNear(shares, SumShares(shares), cost);
    WholePart(SumShares(shares), cost);
    TimesIs(|shares|, 0.0005 * cost + 0.005);
  }

  lemma ChargesNear(shares: seq<Share>, total: nat, cost: real)
    requires cost >= 0.0
    ensures Near(SumCosts(Charges(shares, total, cost)), Exact(cost, Part(SumShares(shares), total)),
                 Times(|shares|, 0.0005 * cost + 0.005))
  {
    var xs := Charges(shares, total, cost);
    forall i | 0 <= i < |xs| ensures Near(xs[i].cost, Exact(cost, Part(shares[i].gpus, total)), 0.0005 * cost + 0.005) {
      ShareError(Part(shares[i].gpus, total), cost);
    }
    AllocationError(shares, xs, total, cost);
    PartsAddUp(shares, total, cost);
  }

  lemma WholePart(total: nat, cost: real)
    requires total >= 1
    ensures Exact(cost, Part(total, total)) == cost
  {
  }
}

/** What the figures are, from memory sizes and counts alone. */
module CostMeaning {
  import opened Arith
  import opened Seqs
  import opened CostSpec
  import opened CostLaws

  /** More than a tenth of the memory is used. */
  function Active(): Gpu -> bool { (g: Gpu) => g.total > 0 && 10 * g.used > g.total }

  lemma UtilIs(g: Gpu)
    ensures g.total > 0 ==> Util(g) * g.total as real == 100.0 * g.used as real
    ensures g.total <= 0 ==> Util(g) == 0.0
    ensures Util(g) > 10.0 <==> Active()(g)
    ensures Util(g) < 100.0 <==> g.total <= 0 || g.used < g.total
  {
    if g.total > 0 {
      var (used, total) := (g.used as real, g.total as real);
      QuotientIs(used, total);
      QuotientTests(used, total, 0.1);
      QuotientTests(used, total, 1.0);
      assert used / total * 100.0 * total == 100.0 * (used / total * total);
    }
  }

  /** One GPU costs 0.85 an hour, of which the unused part is waste; a GPU without memory is all waste, one with more
      in use than it has is none. */
  lemma OneGpu(g: Gpu)
    ensures
      var t := TotalsOf(Utils([g]));
      && t.gpus == 1 && t.active == (if Active()(g) then 1 else 0) && t.hourly == 0.85
      && (g.total <= 0 ==> t.waste == 0.85)
      && (g.total > 0 && g.used <= g.total ==> t.waste * g.total as real == 0.85 * (g.total - g.used) as real)
      && (g.total > 0 && g.used > g.total ==> t.waste == 0.0)
      && (if g.total > 0 then t.utilSum * g.total as real == 100.0 * g.used as real else t.utilSum == 0.0)
  {
    assert Utils([g])[..0] == [];
    assert TotalsOf(Utils([g])) == Add(ZERO, Util(g));
    UtilIs(g);
    if g.total > 0 {
      UnusedPart(Util(g), g.total as real, g.used as real);
    }
  }

  lemma UnusedPart(util: real, total: real, used: real)
    requires util * total == 100.0 * used
    ensures 0.85 * (1.0 - util / 100.0) * total == 0.85 * (total - used)
  {
    assert util / 100.0 * total == used;
    assert (1.0 - util / 100.0) * total == total - util / 100.0 * total;
  }

  /** The report's totals are one GPU's, added up: each GPU once, whatever node it is in. */
  lemma NodesAddUp(nodes: seq<Node>, n: Node)
    ensures ReportTotals(nodes + [n]) == Plus(ReportTotals(nodes), TotalsOf(Utils(n.gpus)))
  {
    hide Plus, TotalsOf, Utils, AllGpus;
    assert (nodes + [n])[..|nodes|] == nodes;
    NodeJoins(nodes + [n], |nodes|);
    assert (nodes + [n])[..|nodes| + 1] == nodes + [n];
  }

  /** Exactly the GPUs with more than a tenth of their memory in use are active, and every GPU costs 0.85 an hour. */
  lemma {:induction false} ActiveIs(gpus: seq<Gpu>)
    ensures TotalsOf(Utils(gpus)).active == |Filter(Active(), gpus)|
    ensures TotalsOf(Utils(gpus)).hourly == 0.85 * |gpus| as real
  {
    CountsAddUp(Utils(gpus));
    if gpus != [] {
      var (front, g) := (gpus[..|gpus| - 1], gpus[|gpus| - 1]);
      ActiveIs(front);
      assert gpus == front + [g];
      UtilsSnoc(front, g);
      UtilIs(g);
      FilterConcat(Active(), front, [g]);
      assert Filter(Active(), [g][1..]) == [];
    }
  }

  lemma UtilsSnoc(gpus: seq<Gpu>, g: Gpu)
    ensures TotalsOf(Utils(gpus + [g])) == Add(TotalsOf(Utils(gpus)), Util(g))
  {
    MapConcat(Util, gpus, [g]);
    assert Utils([g]) == [Util(g)];
    TotalsSnoc(Utils(gpus), Util(g));
  }

  /** `round`: no whole number is nearer, and of two equally near ones the even one is taken. */
  lemma RoundIsNearest(x: real, k: int)
    ensures
      var (r, d) := (RoundHalfEven(x), x - RoundHalfEven(x) as real);
      && -0.5 <= d <= 0.5
      && (k != r ==> x - k as real >= 0.5 || x - k as real <= -0.5)
      && (d == 0.5 || d == -0.5 ==> r % 2 == 0)
  {
  }

  /** The report: 730 hours a month, amounts to the cent, efficiency as the mean utilisation to a tenth. */
  lemma ReportIs(nodes: seq<Node>)
    ensures
      var (t, r) := (ReportTotals(nodes), Rounded(ReportTotals(nodes)));
      && r.gpus == |AllGpus(nodes)| && r.active == |Filter(Active(), AllGpus(nodes))| && r.idle == r.gpus - r.active
      && Cents(r.hourlyCost, 0.85 * r.gpus as real)
      && Cents(r.monthlyCost, 730.0 * 0.85 * r.gpus as real)
      && Cents(r.wasteHourly, t.waste)
      && (r.gpus == 0 ==> r.efficiency == 0.0)
      && (r.gpus > 0 ==> Tenths(r.efficiency, t.utilSum / r.gpus as real))
  {
    hide TotalsOf, AllGpus, Cents, Tenths, Round1, Round2, Filter;
    ActiveIs(AllGpus(nodes));
    CountsAddUp(Utils(AllGpus(nodes)));
    RoundedIs(ReportTotals(nodes));
    NoUtil();
    assert 0.85 * |AllGpus(nodes)| as real * 730.0 == 730.0 * 0.85 * |AllGpus(nodes)| as real;
  }

  lemma RoundedIs(t: Totals)
    ensures
      var r := Rounded(t);
      && r.gpus == t.gpus && r.active == t.active && r.idle == t.idle
      && Cents(r.hourlyCost, t.hourly) && Cents(r.monthlyCost, t.hourly * 730.0) && Cents(r.wasteHourly, t.waste)
      && (t.gpus > 0 ==> Tenths(r.efficiency, t.utilSum / t.gpus as real))
      && (t.gpus == 0 && t.utilSum == 0.0 ==> r.efficiency == 0.0)
  {
    hide Cents, Tenths;
    CentsOf(t.hourly);
    CentsOf(t.hourly * 730.0);
    CentsOf(t.waste);
    if t.gpus > 0 {
      TenthsOf(t.utilSum / t.gpus as real);
    } else if t.utilSum == 0.0 {
      assert t.utilSum / Max(t.gpus, 1) as real == 0.0;
    }
  }

  lemma NoUtil()
    ensures TotalsOf(Utils([])).utilSum == 0.0
  {
  }

  /** A whole number of cents, the nearest to x. */
  ghost predicate Cents(r: real, x: real) { exists k :: Hundredth(k) == r && Nearest(k, x * 100.0) }

  ghost predicate Tenths(r: real, x: real) { exists k :: Tenth(k) == r && Nearest(k, x * 10.0) }

  function Hundredth(k: int): real { k as real / 100.0 }

  function Tenth(k: int): real { k as real / 10.0 }

  /** k is a nearest whole number of x, the even one if there are two. */
  predicate Nearest(k: int, x: real) {
    -0.5 <= x - k as real <= 0.5 && (x - k as real == 0.5 || x - k as real == -0.5 ==> k % 2 == 0)
  }

  lemma CentsOf(x: real)
    ensures Cents(Round2(x), x)
  {
    RoundIsNearest(x * 100.0, 0);
    assert Hundredth(RoundHalfEven(x * 100.0)) == Round2(x) && Nearest(RoundHalfEven(x * 100.0), x * 100.0);
  }

  lemma TenthsOf(x: real)
    ensures Tenths(Round1(x), x)
  {
    RoundIsNearest(x * 10.0, 0);
    assert Tenth(RoundHalfEven(x * 10.0)) == Round1(x) && Nearest(RoundHalfEven(x * 10.0), x * 10.0);
  }

  /** A node's environment is its label, or the default if it has none. */
  lemma TagIs(n: Node, env: string)
    requires env != "default"
    ensures Tag(n) == env <==> "environment" in n.labels && n.labels["environment"] == env
    ensures "environment" !in n.labels ==> Tag(n) == "default"
  {
  }

  /** A tag's percentage is its part of the GPUs to a tenth of a percent, and its cost that percentage to the cent. */
  lemma AllocationIs(share: Share, total: nat, cost: real)
    requires total >= 1
    ensures
      var x := Allocate(share, total, cost);
      && x.tag == share.tag && x.gpus == share.gpus
      && Tenths(x.percentage, share.gpus as real / total as real * 100.0)
      && Cents(x.cost, Hundredths(cost, x.percentage))
  {
    hide Round1, Round2, Cents, Tenths, PercentOf, Hundredths;
    var x := Allocate(share, total, cost);
    TenthsOf(share.gpus as real / total as real * 100.0);
    ChargeIs(cost, x.percentage);
  }

  lemma ChargeIs(cost: real, percentage: real)
    ensures Cents(Round2(PercentOf(cost, percentage)), Hundredths(cost, percentage))
  {
    CentsOf(Hundredths(cost, percentage));
  }

  function Hundredths(x: real, n: real): real { x * n / 100.0 }

  function OfCost(cost: real): Allocation -> bool { (x: Allocation) => x.cost == cost }

  lemma {:induction false} InsertStable(sorted: seq<Allocation>, x: Allocation, cost: real)
    requires Descending(sorted)
    ensures Filter(OfCost(cost), Insert(sorted, x))
         == Filter(OfCost(cost), sorted) + (if x.cost == cost then [x] else [])
  {
    hide Filter;
    if sorted == [] {
      OfCostCons(x, [], cost);
      NoneOfCost([], cost);
      assert [x] + [] == [x] && (if x.cost == cost then [x] else []) + [] == if x.cost == cost then [x] else [];
    } else if sorted[0].cost >= x.cost {
      var (first, rest) := (sorted[0], sorted[1..]);
      InsertStable(rest, x, cost);
      assert sorted == [first] + rest;
      OfCostCons(first, rest, cost);
      OfCostCons(first, Insert(rest, x), cost);
      Associates(if first.cost == cost then [first] else [], Filter(OfCost(cost), rest),
                 if x.cost == cost then [x] else []);
    } else {
      OfCostCons(x, sorted, cost);
      if cost == x.cost {
        NoneOfCost(sorted, cost);
      }
    }
  }

  lemma OfCostCons(x: Allocation, rest: seq<Allocation>, cost: real)
    ensures Filter(OfCost(cost), [x] + rest) == (if x.cost == cost then [x] else []) + Filter(OfCost(cost), rest)
  {
    FilterCons(OfCost(cost), x, rest);
  }

  lemma OfCostSnoc(xs: seq<Allocation>, x: Allocation, cost: real)
    ensures Filter(OfCost(cost), xs + [x]) == Filter(OfCost(cost), xs) + (if x.cost == cost then [x] else [])
  {
    FilterConcat(OfCost(cost), xs, [x]);
    OfCostCons(x, [], cost);
    assert [x] + [] == [x] && Filter(OfCost(cost), []) == [];
    assert (if x.cost == cost then [x] else []) + [] == if x.cost == cost then [x] else [];
  }

  lemma {:induction false} NoneOfCost(sorted: seq<Allocation>, cost: real)
    requires forall x :: x in sorted ==> x.cost < cost
    ensures Filter(OfCost(cost), sorted) == []
  {
    if sorted != [] {
      NoneOfCost(sorted[1..], cost);
    }
  }

  /** Sorting is stable: entries of the same cost keep their order. */
  lemma {:induction false} SortStable(xs: seq<Allocation>, cost: real)
    ensures Filter(OfCost(cost), SortDescending(xs)) == Filter(OfCost(cost), xs)
  {
    hide Filter, Insert;
    if xs != [] {
      var (front, x) := (xs[..|xs| - 1], xs[|xs| - 1]);
      SortStable(front, cost);
      SortKeeps(front);
      InsertStable(SortDescending(front), x, cost);
      OfCostSnoc(front, x, cost);
      assert xs == front + [x];
    }
  }

  function TagOf(): Share -> string { (s: Share) => s.tag }

  lemma {:induction false} TallyTagOrder(shares: seq<Share>, tag: string, gpus: nat)
    ensures Map(TagOf(), shares) <= Map(TagOf(), Tally(shares, tag, gpus))
  {
    if shares != [] && shares[0].tag != tag {
      TallyTagOrder(shares[1..], tag, gpus);
      var (rest, grown) := (shares[1..], Tally(shares[1..], tag, gpus));
      assert forall i :: 0 <= i < |rest| ==> Map(TagOf(), rest)[i] == Map(TagOf(), grown)[i];
    }
  }

  /** The tags come in the order in which the nodes first show them. */
  lemma {:induction false} TagOrder(nodes: seq<Node>, k: nat)
    requires k <= |nodes|
    ensures Map(TagOf(), Shares(nodes[..k])) <= Map(TagOf(), Shares(nodes))
    decreases |nodes|
  {
    if k < |nodes| {
      var front := nodes[..|nodes| - 1];
      TagOrder(front, k);
      assert front[..k] == nodes[..k];
      TallyTagOrder(Shares(front), Tag(nodes[|nodes| - 1]), |nodes[|nodes| - 1].gpus|);
    } else {
      assert nodes[..k] == nodes;
    }
  }
}
