/** The digital twin of src/gpuopt/digital_twin.py: applying recommendations and resetting. */
module TwinSpec {
  import opened Seqs

  datatype Gpu = Gpu(total: int, used: int)

  datatype Node = Node(name: string, gpus: seq<Gpu>)

  datatype ClusterState = ClusterState(nodeCount: int, gpuCount: int, totalMemory: int, nodes: seq<Node>)

  /** Identity and synchronisation time of a twin are left out; its state is kept as data, not as JSON text. */
  datatype Twin = Twin(nodeCount: int, gpuCount: int, state: ClusterState, diverged: bool, reason: string)

  datatype Recommendation = Recommendation(id: nat, title: string, actions: seq<string>)

  datatype Failure = NoCluster | NoState | NoTwin | NoRecommendations | UnknownRecommendation

  // ---- action texts ----

  /** `part in text` */
  predicate Contains(text: string, part: string) {
    part <= text || (text != [] && Contains(text[1..], part))
  }

  function LowerChar(c: char): char { if 'A' <= c <= 'Z' then c - 'A' + 'a' else c }

  function Lower(s: string): string { Map(LowerChar, s) }

  datatype Change = Resize | Consolidate

  /** What an action does to a node of this name. Consolidation is applied after, hence over, a resize. */
  function ChangeOf(action: string, name: string): Option<Change> {
    if !Contains(action, name) then None
    else if Contains(Lower(action), "consolidate") then Some(Consolidate)
    else if Contains(Lower(action), "resize") then Some(Resize)
    else None
  }

  /** `int(total * 0.6)`, truncating towards zero. */
  function SixtyPercent(total: int): int {
    var x := total as real * 0.6;
    if x >= 0.0 then x.Floor else -((-x).Floor)
  }

  function ChangeGpu(change: Change): Gpu -> Gpu {
    (g: Gpu) => Gpu(g.total, if change == Resize then SixtyPercent(g.total) else 0)
  }

  function ChangeNode(node: Node, change: Option<Change>): Node {
    if change.None? then node else node.(gpus := Map(ChangeGpu(change.value), node.gpus))
  }

  /** The name map keeps, for each name, the last node that carries it; only those nodes are touched. */
  predicate Mapped(nodes: seq<Node>, i: nat)
    requires i < |nodes|
  {
    forall j :: i < j < |nodes| ==> nodes[j].name != nodes[i].name
  }

  function ApplyAction(nodes: seq<Node>, action: string): (r: seq<Node>)
    ensures |r| == |nodes|
    ensures forall i :: 0 <= i < |nodes| ==>
      r[i] == if Mapped(nodes, i) then ChangeNode(nodes[i], ChangeOf(action, nodes[i].name)) else nodes[i]
  {
    seq(|nodes|, i requires 0 <= i < |nodes| =>
      if Mapped(nodes, i) then ChangeNode(nodes[i], ChangeOf(action, nodes[i].name)) else nodes[i])
  }

  function ApplyActions(nodes: seq<Node>, actions: seq<string>): seq<Node> {
    if actions == [] then nodes
    else ApplyAction(ApplyActions(nodes, actions[..|actions| - 1]), actions[|actions| - 1])
  }

  // ---- the service ----

  datatype Store = Store(known: bool, state: Option<ClusterState>, twin: Option<Twin>,
                         recommendations: Option<seq<Recommendation>>)

  function FreshTwin(state: ClusterState): Twin { Twin(state.nodeCount, state.gpuCount, state, false, "") }

  function Sync(s: Store): Result<Store, Failure> {
    if !s.known then Err(NoCluster)
    else if s.state.None? then Err(NoState)
    else Ok(s.(twin := Some(FreshTwin(s.state.value))))
  }

  function Find(recs: seq<Recommendation>, id: nat): Option<Recommendation> {
    if recs == [] then None else if recs[0].id == id then Some(recs[0]) else Find(recs[1..], id)
  }

  function ApplyRec(twin: Twin, rec: Recommendation): Twin {
    var state := twin.state.(nodes := ApplyActions(twin.state.nodes, rec.actions));
    Twin(state.nodeCount, state.gpuCount, state, true, "Applied recommendation: " + rec.title)
  }

  function Apply(s: Store, id: nat): Result<Store, Failure> {
    if !s.known then Err(NoCluster)
    else if s.twin.None? then Err(NoTwin)
    else if s.recommendations.None? then Err(NoRecommendations)
    else
      match Find(s.recommendations.value, id)
      case None => Err(UnknownRecommendation)
      case Some(rec) => Ok(s.(twin := Some(ApplyRec(s.twin.value, rec))))
  }

  /** Applying any recommendations one after the other; a call that raises saves nothing. */
  function ApplyMany(s: Store, ids: seq<nat>): Store {
    if ids == [] then s
    else
      var before := ApplyMany(s, ids[..|ids| - 1]);
      match Apply(before, ids[|ids| - 1])
      case Ok(after) => after
      case Err(_) => before
  }
}

module TwinLaws {
  import opened Seqs
  import opened TwinSpec

  /** The last action that changes nodes of this name. */
  function LastChange(actions: seq<string>, name: string): Option<Change> {
    if actions == [] then None
    else
      var last := ChangeOf(actions[|actions| - 1], name);
      if last.Some? then last else LastChange(actions[..|actions| - 1], name)
  }

  /** Changing a node twice is changing it once, by the later change. */
  lemma ChangeTwice(node: Node, first: Option<Change>, second: Option<Change>)
    ensures ChangeNode(ChangeNode(node, first), second) == ChangeNode(node, if second.Some? then second else first)
  {
  }

  /** Each named node ends with the value of the last matching action; every other node stays as it was. */
  lemma {:induction false} LastActionWins(nodes: seq<Node>, actions: seq<string>, i: nat)
    requires i < |nodes|
    ensures
      var r := ApplyActions(nodes, actions);
      && |r| == |nodes|
      && (forall j :: 0 <= j < |nodes| ==> r[j].name == nodes[j].name)
      && r[i] == if Mapped(nodes, i) then ChangeNode(nodes[i], LastChange(actions, nodes[i].name)) else nodes[i]
  {
    if actions != [] {
      var front := actions[..|actions| - 1];
      LastActionWins(nodes, front, i);
      var before := ApplyActions(nodes, front);
      assert Mapped(before, i) == Mapped(nodes, i);
      ChangeTwice(nodes[i], LastChange(front, nodes[i].name), ChangeOf(actions[|actions| - 1], nodes[i].name));
    }
  }

  lemma SameLength(nodes: seq<Node>, actions: seq<string>)
    ensures |ApplyActions(nodes, actions)| == |nodes|
  {
  }

  lemma {:induction false} EmptyStays(actions: seq<string>)
    ensures ApplyActions([], actions) == []
  {
    if actions != [] {
      EmptyStays(actions[..|actions| - 1]);
    }
  }

  /** Applying a list of actions twice is applying it once. */
  lemma ActionsIdempotent(nodes: seq<Node>, actions: seq<string>)
    ensures ApplyActions(ApplyActions(nodes, actions), actions) == ApplyActions(nodes, actions)
  {
    var once := ApplyActions(nodes, actions);
    SameLength(nodes, actions);
    SameLength(once, actions);
    forall i | 0 <= i < |nodes| ensures ApplyActions(once, actions)[i] == once[i] {
      LastActionWins(nodes, actions, i);
      LastActionWins(once, actions, i);
      assert Mapped(once, i) == Mapped(nodes, i);
      var change := LastChange(actions, nodes[i].name);
      ChangeTwice(nodes[i], change, change);
    }
  }

  /** Applying a recommendation to its own result changes nothing. */
  lemma ApplyIdempotent(twin: Twin, rec: Recommendation)
    ensures ApplyRec(ApplyRec(twin, rec), rec) == ApplyRec(twin, rec)
  {
    ActionsIdempotent(twin.state.nodes, rec.actions);
  }

  /** Same GPUs with the same memory; only the used bytes may differ. */
  predicate SameHardware(a: Node, b: Node) {
    a.name == b.name && |a.gpus| == |b.gpus| && forall k :: 0 <= k < |a.gpus| ==> a.gpus[k].total == b.gpus[k].total
  }

  predicate WithinMemory(node: Node) {
    forall k :: 0 <= k < |node.gpus| ==> 0 <= node.gpus[k].used <= node.gpus[k].total
  }

  lemma ChangeNodeKeeps(node: Node, change: Option<Change>)
    ensures SameHardware(node, ChangeNode(node, change))
    ensures WithinMemory(node) ==> WithinMemory(ChangeNode(node, change))
  {
  }

  function TotalMemory(gpus: seq<Gpu>): int { if gpus == [] then 0 else gpus[0].total + TotalMemory(gpus[1..]) }

  lemma {:induction false} SameTotal(a: seq<Gpu>, b: seq<Gpu>)
    requires |a| == |b| && forall k :: 0 <= k < |a| ==> a[k].total == b[k].total
    ensures TotalMemory(a) == TotalMemory(b)
  {
    if a != [] {
      SameTotal(a[1..], b[1..]);
    }
  }

  /** A recommendation preserves the nodes, every GPU and its memory size, the reported counts and the bound
      0 <= used <= total. */
  lemma ApplyConserves(twin: Twin, rec: Recommendation)
    ensures
      var after := ApplyRec(twin, rec);
      && |after.state.nodes| == |twin.state.nodes|
      && after.state == twin.state.(nodes := after.state.nodes)
      && forall i :: 0 <= i < |twin.state.nodes| ==>
           && SameHardware(twin.state.nodes[i], after.state.nodes[i])
           && TotalMemory(after.state.nodes[i].gpus) == TotalMemory(twin.state.nodes[i].gpus)
           && (WithinMemory(twin.state.nodes[i]) ==> WithinMemory(after.state.nodes[i]))
  {
    var (before, after) := (twin.state.nodes, ApplyRec(twin, rec).state.nodes);
    SameLength(before, rec.actions);
    forall i | 0 <= i < |before|
      ensures SameHardware(before[i], after[i]) && TotalMemory(after[i].gpus) == TotalMemory(before[i].gpus)
      ensures WithinMemory(before[i]) ==> WithinMemory(after[i])
    {
      LastActionWins(before, rec.actions, i);
      ChangeNodeKeeps(before[i], LastChange(rec.actions, before[i].name));
      SameTotal(before[i].gpus, after[i].gpus);
    }
  }

  /** After any recommendations, applied or refused, a reset gives what a fresh synchronisation gives. */
  lemma {:induction false} ResetIsFreshSync(s: Store, ids: seq<nat>)
    ensures Sync(ApplyMany(s, ids)) == Sync(s)
  {
    if ids != [] {
      ResetIsFreshSync(s, ids[..|ids| - 1]);
    }
  }
}

/** What actions and calls do, in terms of texts and bytes alone. */
module TwinMeaning {
  import opened Seqs
  import opened TwinSpec
  import opened TwinLaws

  /** `part in text`: the part stands at some position. */
  lemma {:induction false} ContainsIff(text: string, part: string)
    ensures Contains(text, part) <==> exists k :: 0 <= k <= |text| && part <= text[k..]
  {
    if part <= text {
      assert text[0..] == text;
    } else if text == [] {
      assert text[0..] == text;
    } else {
      ContainsIff(text[1..], part);
      assert forall k :: 1 <= k <= |text| ==> text[k..] == text[1..][k - 1..];
      if Contains(text[1..], part) {
        var k :| 0 <= k <= |text[1..]| && part <= text[1..][k..];
        assert text[k + 1..] == text[1..][k..];
      }
      assert text[0..] == text;
    }
  }

  /** Lower-casing keeps everything but upper-case letters, which move by the distance of the two alphabets. */
  lemma LowerIs(s: string)
    ensures |Lower(s)| == |s|
    ensures forall i :: 0 <= i < |s| ==>
      Lower(s)[i] as int == if 'A' <= s[i] <= 'Z' then s[i] as int + 32 else s[i] as int
  {
  }

  /** An action that names a node consolidates it if it says so, in any case of letters, else resizes it if it says so:
      no bytes used, or three fifths of the memory, rounded towards zero. Otherwise the node is left alone. */
  lemma ActionEffect(node: Node, action: string, k: nat)
    requires k < |node.gpus|
    ensures
      var r := ChangeNode(node, ChangeOf(action, node.name));
      var (named, text) := (Contains(action, node.name), Lower(action));
      && r.name == node.name && |r.gpus| == |node.gpus| && r.gpus[k].total == node.gpus[k].total
      && r.gpus[k].used ==
           if named && Contains(text, "consolidate") then 0
           else if named && Contains(text, "resize") then
             (if node.gpus[k].total >= 0 then 3 * node.gpus[k].total / 5 else -(3 * (-node.gpus[k].total) / 5))
           else node.gpus[k].used
  {
    ThreeFifths(node.gpus[k].total);
  }

  lemma ThreeFifths(total: int)
    ensures SixtyPercent(total) == if total >= 0 then 3 * total / 5 else -(3 * (-total) / 5)
  {
    var n := Abs(total);
    var q := 3 * n / 5;
    assert 5 * q <= 3 * n < 5 * q + 5;
    assert (n as real * 0.6).Floor == q by { assert q as real <= n as real * 0.6 < q as real + 1.0; }
    assert total < 0 ==> -(total as real * 0.6) == n as real * 0.6;
  }

  /** Exactly one node of each name is in the map: the last one. */
  lemma MappedIsLast(nodes: seq<Node>, i: nat)
    requires i < |nodes|
    ensures Mapped(nodes, i) <==> forall j :: 0 <= j < |nodes| && nodes[j].name == nodes[i].name ==> j <= i
  {
  }

  /** Applications are carried out one after the other; one that raises leaves the store as it is. */
  lemma ApplyManySnoc(s: Store, ids: seq<nat>, id: nat)
    ensures ApplyMany(s, []) == s
    ensures
      var (before, after) := (ApplyMany(s, ids), ApplyMany(s, ids + [id]));
      after == if Apply(before, id).Ok? then Apply(before, id).value else before
  {
    assert (ids + [id])[..|ids|] == ids;
  }

  /** The recommendation found is the first one with this id. */
  lemma {:induction false} FindIs(recs: seq<Recommendation>, id: nat)
    ensures Find(recs, id).None? <==> forall i :: 0 <= i < |recs| ==> recs[i].id != id
    ensures Find(recs, id).Some? ==>
      exists i :: 0 <= i < |recs| && recs[i] == Find(recs, id).value && recs[i].id == id
                  && forall j :: 0 <= j < i ==> recs[j].id != id
  {
    if recs != [] {
      FindIs(recs[1..], id);
      assert forall i :: 1 <= i < |recs| ==> recs[i] == recs[1..][i - 1];
      if recs[0].id != id && Find(recs, id).Some? {
        var i :| 0 <= i < |recs[1..]| && recs[1..][i] == Find(recs, id).value && recs[1..][i].id == id
                 && forall j :: 0 <= j < i ==> recs[1..][j].id != id;
        assert recs[i + 1] == Find(recs, id).value;
      }
    }
  }

  /** A synchronisation succeeds exactly for a known cluster with a state, and makes an undiverged twin of it. */
  lemma SyncIff(s: Store)
    ensures Sync(s).Ok? <==> s.known && s.state.Some?
    ensures !s.known ==> Sync(s) == Err(NoCluster)
    ensures s.known && s.state.None? ==> Sync(s) == Err(NoState)
    ensures Sync(s).Ok? ==>
      && Sync(s).value == s.(twin := Sync(s).value.twin) && Sync(s).value.twin.Some?
      && var twin := Sync(s).value.twin.value;
         && twin.state == s.state.value && !twin.diverged && twin.reason == ""
         && twin.nodeCount == s.state.value.nodeCount && twin.gpuCount == s.state.value.gpuCount
  {
  }

  /** An application succeeds exactly for a known cluster with a twin and the recommendation among its latest ones; the
      errors come in that order. It rewrites the twin only, and marks it as diverged. */
  lemma ApplyIff(s: Store, id: nat)
    ensures !s.known ==> Apply(s, id) == Err(NoCluster)
    ensures s.known && s.twin.None? ==> Apply(s, id) == Err(NoTwin)
    ensures s.known && s.twin.Some? && s.recommendations.None? ==> Apply(s, id) == Err(NoRecommendations)
    ensures s.known && s.twin.Some? && s.recommendations.Some? ==>
      var found := Find(s.recommendations.value, id);
      if found.None? then Apply(s, id) == Err(UnknownRecommendation)
      else
        && Apply(s, id).Ok? && Apply(s, id).value.twin.Some?
        && Apply(s, id).value == s.(twin := Apply(s, id).value.twin)
        && var (before, after) := (s.twin.value, Apply(s, id).value.twin.value);
           && after.state.nodes == ApplyActions(before.state.nodes, found.value.actions)
           && after.nodeCount == before.state.nodeCount && after.gpuCount == before.state.gpuCount
           && after.diverged && after.reason == "Applied recommendation: " + found.value.title
  {
  }
}

module TwinService {
  import opened Seqs
  import opened TwinSpec
  import opened TwinLaws

  class DigitalTwinService {
    var store: Store

    constructor (store: Store)
      ensures this.store == store
    {
      this.store := store;
    }

    method SyncTwin() returns (result: Result<Twin, Failure>)
      modifies this
      ensures match Sync(old(store))
        case Ok(after) => store == after && result == Ok(after.twin.value)
        case Err(e) => store == old(store) && result == Err(e)
    {
      if !store.known { return Err(NoCluster); }
      if store.state.None? { return Err(NoState); }
      var twin := FreshTwin(store.state.value);
      store := store.(twin := Some(twin));
      result := Ok(twin);
    }

    method ResetTwin() returns (result: Result<Twin, Failure>)
      modifies this
      ensures match Sync(old(store))
        case Ok(after) => store == after && result == Ok(after.twin.value)
        case Err(e) => store == old(store) && result == Err(e)
    {
      result := SyncTwin();
    }

    /** The two loops over the devices of one node. */
    method TouchNode(node: Node, action: string) returns (touched: Node)
      ensures touched == ChangeNode(node, ChangeOf(action, node.name))
    {
      var gpus := node.gpus;
      if Contains(action, node.name) && Contains(Lower(action), "resize") {
        for k := 0 to |gpus|
          invariant |gpus| == |node.gpus|
          invariant forall j :: 0 <= j < k ==> gpus[j] == ChangeGpu(Resize)(node.gpus[j])
          invariant forall j :: k <= j < |gpus| ==> gpus[j] == node.gpus[j]
        {
          gpus := gpus[k := Gpu(gpus[k].total, SixtyPercent(gpus[k].total))];
        }
        assert gpus == Map(ChangeGpu(Resize), node.gpus);
      }
      if Contains(Lower(action), "consolidate") && Contains(action, node.name) {
        for k := 0 to |gpus|
          invariant |gpus| == |node.gpus|
          invariant forall j :: 0 <= j < k ==> gpus[j] == ChangeGpu(Consolidate)(node.gpus[j])
          invariant forall j :: k <= j < |gpus| ==> gpus[j].total == node.gpus[j].total
        {
          gpus := gpus[k := Gpu(gpus[k].total, 0)];
        }
        assert gpus == Map(ChangeGpu(Consolidate), node.gpus);
      }
      touched := node.(gpus := gpus);
    }

    /** Name to position of the last node carrying it. */
    method NodeMap(nodes: seq<Node>) returns (index: map<string, nat>)
      ensures forall i :: 0 <= i < |nodes| ==>
        nodes[i].name in index && index[nodes[i].name] < |nodes| && (index[nodes[i].name] == i <==> Mapped(nodes, i))
    {
      index := map[];
      for i := 0 to |nodes|
        invariant forall k :: 0 <= k < i ==> nodes[k].name in index && k <= index[nodes[k].name] < i
        invariant forall name :: name in index ==> index[name] < |nodes| && nodes[index[name]].name == name
      {
        index := index[nodes[i].name := i];
      }
    }

    method ApplyOne(nodes: seq<Node>, action: string, index: map<string, nat>) returns (r: seq<Node>)
      requires forall i :: 0 <= i < |nodes| ==>
          nodes[i].name in index && (index[nodes[i].name] == i <==> Mapped(nodes, i))
      ensures r == ApplyAction(nodes, action)
    {
      hide Mapped, ChangeOf, ChangeNode;
      ghost var goal := ApplyAction(nodes, action);
      r := nodes;
      for i := 0 to |nodes|
        invariant |r| == |nodes|
        invariant forall j :: 0 <= j < i ==> r[j] == goal[j]
        invariant forall j :: i <= j < |nodes| ==> r[j] == nodes[j]
      {
        if index[nodes[i].name] == i {
          var touched := TouchNode(r[i], action);
          assert touched == goal[i];
          r := r[i := touched];
        } else {
          assert r[i] == goal[i];
        }
      }
    }

    /** The loop over the actions of a recommendation. */
    method ApplyAll(nodes: seq<Node>, actions: seq<string>) returns (r: seq<Node>)
      ensures r == ApplyActions(nodes, actions)
    {
      var index := NodeMap(nodes);
      r := nodes;
      for k := 0 to |actions|
        invariant r == ApplyActions(nodes, actions[..k])
        invariant |r| == |nodes| && forall i :: 0 <= i < |nodes| ==> r[i].name == nodes[i].name
      {
        assert actions[..k + 1][..k] == actions[..k];
        SameMapping(nodes, r);
        r := ApplyOne(r, actions[k], index);
      }
      assert actions[..|actions|] == actions;
    }

    method ApplyRecommendation(id: nat) returns (result: Result<Twin, Failure>)
      modifies this
      ensures match Apply(old(store), id)
        case Ok(after) => store == after && result == Ok(after.twin.value)
        case Err(e) => store == old(store) && result == Err(e)
    {
      if !store.known { return Err(NoCluster); }
      if store.twin.None? { return Err(NoTwin); }
      if store.recommendations.None? { return Err(NoRecommendations); }
      var found := Find(store.recommendations.value, id);
      if found.None? { return Err(UnknownRecommendation); }
      var rec, twin := found.value, store.twin.value;
      var nodes := ApplyAll(twin.state.nodes, rec.actions);
      var state := twin.state.(nodes := nodes);
      twin := Twin(state.nodeCount, state.gpuCount, state, true, "Applied recommendation: " + rec.title);
      store := store.(twin := Some(twin));
      result := Ok(twin);
    }
  }

  lemma SameMapping(a: seq<Node>, b: seq<Node>)
    requires |a| == |b| && forall i :: 0 <= i < |a| ==> a[i].name == b[i].name
    ensures forall i :: 0 <= i < |a| ==> Mapped(a, i) == Mapped(b, i)
  {
  }
}
