/** The agent registry of src/gpuopt/agent_protocol.py. Agents are numbered in order of registration, which stands
    for their touched ids and for the insertion order of the dictionary. Times are microseconds. */
module AgentSpec {
  import opened Seqs

  datatype Status = Registered | Active | Inactive | Degraded | Unreachable | Decommissioned

  datatype Agent = Agent(lastHeartbeat: int, status: Status)

  datatype Event = Event(agent: nat, previous: Option<Status>, next: Status)

  /** `history` is the whole event history; the registry keeps its tail. */
  datatype State = State(agents: seq<Agent>, heartbeats: map<nat, nat>, history: seq<Event>)

  const EMPTY := State([], map[], [])

  const TIMEOUT := 180 * 1000000

  function Register(s: State, now: int): State {
    State(s.agents + [Agent(now, Registered)], s.heartbeats, s.history + [Event(|s.agents|, None, Registered)])
  }

  function Sequence(heartbeats: map<nat, nat>, id: nat): nat { if id in heartbeats then heartbeats[id] else 0 }

  /** Sets the status of an agent and logs the change, if it is one. */
  function SetStatus(s: State, id: nat, status: Status): State
    requires id < |s.agents|
  {
    if s.agents[id].status == status then s
    else s.(agents := s.agents[id := s.agents[id].(status := status)],
            history := s.history + [Event(id, Some(s.agents[id].status), status)])
  }

  /** A heartbeat makes an agent active from every status, decommissioned included. */
  function Heartbeat(s: State, id: nat, now: int): State {
    if id >= |s.agents| then s
    else
      var touched := s.(agents := s.agents[id := s.agents[id].(lastHeartbeat := now)],
                      heartbeats := s.heartbeats[id := Sequence(s.heartbeats, id) + 1]);
      SetStatus(touched, id, Active)
  }

  function UpdateStatus(s: State, id: nat, status: Status): State {
    if id < |s.agents| then SetStatus(s, id, status) else s
  }

  predicate Stale(a: Agent, now: int) {
    a.status != Decommissioned && a.status != Unreachable && now - a.lastHeartbeat > TIMEOUT
  }

  /** The stale check up to agent n: every stale agent becomes unreachable. */
  function CheckUpTo(s: State, now: int, n: nat): State
    requires n <= |s.agents|
    ensures |CheckUpTo(s, now, n).agents| == |s.agents|
  {
    if n == 0 then s
    else
      var t := CheckUpTo(s, now, n - 1);
      if Stale(t.agents[n - 1], now) then SetStatus(t, n - 1, Unreachable) else t
  }

  function CheckStale(s: State, now: int): State { CheckUpTo(s, now, |s.agents|) }

  /** The ids that a check reports, in registry order. */
  function StaleIds(agents: seq<Agent>, now: int): seq<nat> {
    if agents == [] then []
    else StaleIds(agents[..|agents| - 1], now) + (if Stale(agents[|agents| - 1], now) then [|agents| - 1] else [])
  }

  datatype Op = Join(now: int) | Beat(id: nat, now: int) | Update(id: nat, status: Status) | Check(now: int)

  function Do(s: State, op: Op): State {
    match op
    case Join(now) => Register(s, now)
    case Beat(id, now) => Heartbeat(s, id, now)
    case Update(id, status) => UpdateStatus(s, id, status)
    case Check(now) => CheckStale(s, now)
  }

  function Run(ops: seq<Op>): State {
    if ops == [] then EMPTY else Do(Run(ops[..|ops| - 1]), ops[|ops| - 1])
  }

  /** How many heartbeats of an agent a run accepted: those sent after it had registered. */
  function Accepted(ops: seq<Op>, id: nat): nat {
    if ops == [] then 0
    else
      var front := ops[..|ops| - 1];
      var op := ops[|ops| - 1];
      Accepted(front, id) + (if op.Beat? && op.id == id && id < |Run(front).agents| then 1 else 0)
  }
}

module AgentLaws {
  import opened Seqs
  import opened AgentSpec

  function Of(id: nat): Event -> bool { (e: Event) => e.agent == id }

  /** One agent's events: registered once, then changes that fit together and are no self-loops. */
  predicate Chain(events: seq<Event>) {
    && events != []
    && events[0].previous == None && events[0].next == Registered
    && forall i :: 1 <= i < |events| ==>
         events[i].previous == Some(events[i - 1].next) && events[i].next != events[i - 1].next
  }

  /** Replaying a history from nothing: every event sets the status of its agent. */
  function Replay(history: seq<Event>): map<nat, Status> {
    if history == [] then map[]
    else Replay(history[..|history| - 1])[history[|history| - 1].agent := history[|history| - 1].next]
  }

  function StatusMap(agents: seq<Agent>): map<nat, Status> {
    map id: nat | id < |agents| :: agents[id].status
  }

  /** An agent's own history is a chain that ends in its current status; an id not given out has no history. */
  predicate Own(s: State, id: nat) {
    var mine := Filter(Of(id), s.history);
    if id < |s.agents| then Chain(mine) && LastOf(mine) == Some(s.agents[id].status) else mine == []
  }

  ghost predicate Told(s: State) {
    (forall id: nat :: Own(s, id)) && Replay(s.history) == StatusMap(s.agents)
  }

  function LastOf(events: seq<Event>): Option<Status> {
    if events == [] then None else Some(events[|events| - 1].next)
  }

  lemma AppendOwn(history: seq<Event>, e: Event, id: nat)
    ensures Filter(Of(id), history + [e]) == Filter(Of(id), history) + (if e.agent == id then [e] else [])
    ensures Replay(history + [e]) == Replay(history)[e.agent := e.next]
  {
    FilterConcat(Of(id), history, [e]);
    assert (history + [e])[..|history|] == history;
  }

  lemma ChainAppend(events: seq<Event>, e: Event)
    requires Chain(events) && e.previous == LastOf(events) && LastOf(events) != Some(e.next)
    ensures Chain(events + [e]) && LastOf(events + [e]) == Some(e.next)
  {
  }

  lemma RegisterOwn(s: State, now: int, id: nat)
    requires Own(s, id)
    ensures Own(Register(s, now), id)
  {
    AppendOwn(s.history, Event(|s.agents|, None, Registered), id);
  }

  lemma RegisterTold(s: State, now: int)
    requires Told(s)
    ensures Told(Register(s, now))
  {
    hide Own, Filter, Replay;
    var e := Event(|s.agents|, None, Registered);
    var s' := Register(s, now);
    forall id: nat ensures Own(s', id) {
      assert Own(s, id);
      RegisterOwn(s, now, id);
    }
    AppendOwn(s.history, e, 0);
    assert StatusMap(s'.agents) == StatusMap(s.agents)[e.agent := e.next];
  }

  lemma SetStatusOwn(s: State, id: nat, status: Status, k: nat)
    requires id < |s.agents| && s.agents[id].status != status && Own(s, k)
    ensures Own(SetStatus(s, id, status), k)
  {
    var e := Event(id, Some(s.agents[id].status), status);
    AppendOwn(s.history, e, k);
    if k == id {
      ChainAppend(Filter(Of(k), s.history), e);
    } else {
      assert Filter(Of(k), s.history) + [] == Filter(Of(k), s.history);
    }
  }

  lemma SetStatusTold(s: State, id: nat, status: Status)
    requires Told(s) && id < |s.agents|
    ensures Told(SetStatus(s, id, status))
  {
    hide Own, Filter, Replay;
    if s.agents[id].status != status {
      var s' := SetStatus(s, id, status);
      forall k: nat ensures Own(s', k) {
        assert Own(s, k);
        SetStatusOwn(s, id, status, k);
      }
      AppendOwn(s.history, Event(id, Some(s.agents[id].status), status), 0);
      assert StatusMap(s'.agents) == StatusMap(s.agents)[id := status];
    }
  }

  /** Only statuses and events matter for the history invariant. */
  lemma SameStatuses(s: State, t: State)
    requires Told(s) && t.history == s.history && |t.agents| == |s.agents|
    requires forall id :: 0 <= id < |s.agents| ==> t.agents[id].status == s.agents[id].status
    ensures Told(t)
  {
    assert StatusMap(t.agents) == StatusMap(s.agents);
    forall id: nat ensures Own(t, id) {
      assert Own(s, id);
    }
  }

  lemma {:induction false} CheckTold(s: State, now: int, n: nat)
    requires Told(s) && n <= |s.agents|
    ensures Told(CheckUpTo(s, now, n))
  {
    hide Told, SetStatus;
    if n > 0 {
      CheckTold(s, now, n - 1);
      var t := CheckUpTo(s, now, n - 1);
      SetStatusTold(t, n - 1, Unreachable);
    }
  }

  lemma StepTold(s: State, op: Op)
    requires Told(s)
    ensures Told(Do(s, op))
  {
    hide Told, SetStatus, CheckUpTo, Register;
    match op
    case Join(now) => RegisterTold(s, now);
    case Beat(id, now) =>
      if id < |s.agents| {
        var touched := s.(agents := s.agents[id := s.agents[id].(lastHeartbeat := now)],
                        heartbeats := s.heartbeats[id := Sequence(s.heartbeats, id) + 1]);
        SameStatuses(s, touched);
        SetStatusTold(touched, id, Active);
      }
    case Update(id, status) =>
      if id < |s.agents| { SetStatusTold(s, id, status); }
    case Check(now) => CheckTold(s, now, |s.agents|);
  }

  /** In every run each agent's history is a chain without self-loops that ends in its current status, and replaying
      the whole history rebuilds the status map. */
  lemma {:induction false} HistoryTellsAll(ops: seq<Op>)
    ensures Told(Run(ops))
  {
    if ops != [] {
      HistoryTellsAll(ops[..|ops| - 1]);
      StepTold(Run(ops[..|ops| - 1]), ops[|ops| - 1]);
    }
  }

  lemma {:induction false} CheckKeepsBeats(s: State, now: int, n: nat)
    requires n <= |s.agents|
    ensures CheckUpTo(s, now, n).heartbeats == s.heartbeats
  {
    if n > 0 {
      CheckKeepsBeats(s, now, n - 1);
    }
  }

  /** The stored sequence number of an agent is the number of its accepted heartbeats. */
  lemma {:induction false} SequenceCounts(ops: seq<Op>, id: nat)
    ensures Sequence(Run(ops).heartbeats, id) == Accepted(ops, id)
    ensures id in Run(ops).heartbeats <==> Accepted(ops, id) > 0
  {
    if ops != [] {
      var front := ops[..|ops| - 1];
      SequenceCounts(front, id);
      if ops[|ops| - 1].Check? {
        CheckKeepsBeats(Run(front), ops[|ops| - 1].now, |Run(front).agents|);
      }
    }
  }

  // ---- single operations ----

  /** A registration adds one agent, registered and heard of now, and its first event. */
  lemma RegisterEffect(s: State, now: int)
    ensures Do(s, Join(now)) ==
      State(s.agents + [Agent(now, Registered)], s.heartbeats, s.history + [Event(|s.agents|, None, Registered)])
  {
  }

  /** An update sets the status and nothing else, and logs one event exactly when the status differs. */
  lemma UpdateEffect(s: State, id: nat, status: Status)
    requires id < |s.agents|
    ensures
      var s' := Do(s, Update(id, status));
      && s'.agents == s.agents[id := Agent(s.agents[id].lastHeartbeat, status)]
      && s'.heartbeats == s.heartbeats
      && (|s'.history| == |s.history| + 1 <==> s.agents[id].status != status)
      && s'.history == s.history +
           (if s.agents[id].status == status then [] else [Event(id, Some(s.agents[id].status), status)])
  {
    assert s.history + [] == s.history;
  }

  /** A heartbeat makes the agent active and heard of now, counts up its sequence number, and logs one event exactly
      when the agent was not active. */
  lemma BeatEffect(s: State, id: nat, now: int)
    requires id < |s.agents|
    ensures
      var s' := Do(s, Beat(id, now));
      && s'.agents == s.agents[id := Agent(now, Active)]
      && s'.heartbeats == s.heartbeats[id := (if id in s.heartbeats then s.heartbeats[id] else 0) + 1]
      && s'.history == s.history +
           (if s.agents[id].status == Active then [] else [Event(id, Some(s.agents[id].status), Active)])
  {
    assert s.history + [] == s.history;
  }

  lemma UnknownIgnored(s: State, id: nat, status: Status, now: int)
    requires id >= |s.agents|
    ensures Do(s, Update(id, status)) == s == Do(s, Beat(id, now))
  {
  }

  /** One event for each agent that a check loses, in registry order. */
  function LostEvents(agents: seq<Agent>, ids: seq<nat>): seq<Event>
    requires forall i :: 0 <= i < |ids| ==> ids[i] < |agents|
  {
    seq(|ids|, i requires 0 <= i < |ids| => Event(ids[i], Some(agents[ids[i]].status), Unreachable))
  }

  predicate InOrder(ids: seq<nat>, n: nat) {
    (forall i :: 0 <= i < |ids| ==> ids[i] < n) && forall i, j :: 0 <= i < j < |ids| ==> ids[i] < ids[j]
  }

  lemma {:induction false} StaleIdsInOrder(agents: seq<Agent>, now: int)
    ensures InOrder(StaleIds(agents, now), |agents|)
  {
    if agents != [] {
      StaleIdsInOrder(agents[..|agents| - 1], now);
      var front := StaleIds(agents[..|agents| - 1], now);
      assert InOrder(front, |agents| - 1);
      if Stale(agents[|agents| - 1], now) {
        assert StaleIds(agents, now) == front + [|agents| - 1];
      } else {
        assert StaleIds(agents, now) == front + [] == front;
      }
    }
  }

  /** The events of a check: one for each reported agent, from its status to unreachable, in registry order. */
  lemma {:induction false} CheckLogs(s: State, now: int, n: nat)
    requires n <= |s.agents|
    ensures forall i :: 0 <= i < |StaleIds(s.agents[..n], now)| ==> StaleIds(s.agents[..n], now)[i] < |s.agents|
    ensures CheckUpTo(s, now, n).history == s.history + LostEvents(s.agents, StaleIds(s.agents[..n], now))
  {
    StaleIdsInOrder(s.agents[..n], now);
    if n == 0 {
      assert s.history + [] == s.history;
    } else {
      CheckLogs(s, now, n - 1);
      CheckIsPointwise(s, now, n - 1);
      assert s.agents[..n][..n - 1] == s.agents[..n - 1];
      var (before, ids) := (StaleIds(s.agents[..n - 1], now), StaleIds(s.agents[..n], now));
      if Stale(s.agents[n - 1], now) {
        assert LostEvents(s.agents, ids) ==
          LostEvents(s.agents, before) + [Event(n - 1, Some(s.agents[n - 1].status), Unreachable)];
      }
    }
  }

  // ---- stale checks ----

  function Lost(a: Agent, now: int): Agent { if Stale(a, now) then a.(status := Unreachable) else a }

  /** The closed form of a check: each agent on its own. */
  lemma {:induction false} CheckIsPointwise(s: State, now: int, n: nat)
    requires n <= |s.agents|
    ensures
      var t := CheckUpTo(s, now, n);
      && (forall i :: 0 <= i < n ==> t.agents[i] == Lost(s.agents[i], now))
      && (forall i :: n <= i < |s.agents| ==> t.agents[i] == s.agents[i])
      && t.heartbeats == s.heartbeats
  {
    if n > 0 {
      CheckIsPointwise(s, now, n - 1);
    }
  }

  lemma {:induction false} StaleIdsMember(agents: seq<Agent>, now: int, id: nat)
    ensures id in StaleIds(agents, now) <==> id < |agents| && Stale(agents[id], now)
  {
    if agents != [] {
      StaleIdsMember(agents[..|agents| - 1], now, id);
    }
  }

  /** Checks at a sequence of times, with nothing in between. */
  function CheckAll(s: State, times: seq<int>): State {
    if times == [] then s else CheckStale(CheckAll(s, times[..|times| - 1]), times[|times| - 1])
  }

  /** Whether some check of the sequence reports the agent. */
  ghost predicate Reported(s: State, times: seq<int>, id: nat) {
    exists k :: 0 <= k < |times| && id in StaleIds(CheckAll(s, times[..k]).agents, times[k])
  }

  predicate Increasing(times: seq<int>) { forall i, j :: 0 <= i < j < |times| ==> times[i] <= times[j] }

  lemma {:induction false} CheckAllAgents(s: State, times: seq<int>)
    requires times != [] && Increasing(times)
    ensures
      var t := CheckAll(s, times);
      && |t.agents| == |s.agents| && t.heartbeats == s.heartbeats
      && forall i :: 0 <= i < |s.agents| ==> t.agents[i] == Lost(s.agents[i], times[|times| - 1])
  {
    var front := times[..|times| - 1];
    var before := CheckAll(s, front);
    CheckIsPointwise(before, times[|times| - 1], |before.agents|);
    if front != [] {
      CheckAllAgents(s, front);
    }
  }

  /** Polling frequency does not matter: checks at any increasing times ending at `last` leave the same agents and
      report the same ids as one check at `last`, and then nobody who could be lost is past the timeout. */
  lemma PollingIndependent(s: State, times: seq<int>, last: int)
    requires Increasing(times + [last])
    ensures CheckAll(s, times + [last]).agents == CheckStale(s, last).agents
    ensures forall id: nat :: Reported(s, times + [last], id) <==> id in StaleIds(s.agents, last)
    ensures forall a :: a in CheckAll(s, times + [last]).agents ==> !Stale(a, last)
  {
    var all := times + [last];
    CheckAllAgents(s, all);
    CheckIsPointwise(s, last, |s.agents|);
    assert CheckStale(s, last).agents == CheckAll(s, all).agents;
    forall id: nat ensures Reported(s, all, id) <==> id in StaleIds(s.agents, last) {
      ReportedIff(s, all, id);
      StaleIdsMember(s.agents, last, id);
    }
  }

  /** A check reports an agent iff it is the first one of the sequence that finds it stale. */
  lemma ReportedAt(s: State, times: seq<int>, id: nat, k: nat)
    requires k < |times| && Increasing(times)
    ensures id in StaleIds(CheckAll(s, times[..k]).agents, times[k]) <==>
      id < |s.agents| && Stale(s.agents[id], times[k]) && (k == 0 || !Stale(s.agents[id], times[k - 1]))
  {
    StaleIdsMember(CheckAll(s, times[..k]).agents, times[k], id);
    if k > 0 {
      CheckAllAgents(s, times[..k]);
    }
  }

  lemma StaleLater(a: Agent, times: seq<int>, k: nat)
    requires k < |times| && Increasing(times) && Stale(a, times[k])
    ensures Stale(a, times[|times| - 1])
  {
  }

  lemma ReportedIff(s: State, times: seq<int>, id: nat)
    requires times != [] && Increasing(times)
    ensures Reported(s, times, id) <==> id < |s.agents| && Stale(s.agents[id], times[|times| - 1])
  {
    hide CheckAll, StaleIds, Stale;
    if Reported(s, times, id) {
      var k :| 0 <= k < |times| && id in StaleIds(CheckAll(s, times[..k]).agents, times[k]);
      ReportedAt(s, times, id, k);
      StaleLater(s.agents[id], times, k);
    }
    if id < |s.agents| && Stale(s.agents[id], times[|times| - 1]) {
      var j := FirstStale(s.agents[id], times, |times| - 1);
      ReportedAt(s, times, id, j);
    }
  }

  /** The first time of an increasing sequence at which an agent is stale. */
  lemma {:induction false} FirstStale(a: Agent, times: seq<int>, k: nat) returns (j: nat)
    requires k < |times| && Stale(a, times[k])
    ensures j <= k && Stale(a, times[j]) && (j == 0 || !Stale(a, times[j - 1]))
  {
    j := k;
    if k > 0 && Stale(a, times[k - 1]) {
      j := FirstStale(a, times, k - 1);
    }
  }

  /** When an agent was last heard of: its registration or its latest accepted heartbeat. */
  function LastContact(ops: seq<Op>, id: nat): Option<int> {
    if ops == [] then None
    else
      var (front, op) := (ops[..|ops| - 1], ops[|ops| - 1]);
      var known := |Run(front).agents|;
      if op.Join? && id == known then Some(op.now)
      else if op.Beat? && op.id == id && id < known then Some(op.now)
      else LastContact(front, id)
  }

  lemma {:induction false} ContactRecorded(ops: seq<Op>, id: nat)
    ensures id < |Run(ops).agents| <==> LastContact(ops, id).Some?
    ensures id < |Run(ops).agents| ==> Run(ops).agents[id].lastHeartbeat == LastContact(ops, id).value
  {
    if ops != [] {
      var front := ops[..|ops| - 1];
      ContactRecorded(front, id);
      if ops[|ops| - 1].Check? {
        CheckIsPointwise(Run(front), ops[|ops| - 1].now, |Run(front).agents|);
      }
    }
  }

  /** After any run a check reports exactly the agents that are neither decommissioned nor unreachable and were last
      heard of more than the timeout ago. */
  lemma CheckReportsSilent(ops: seq<Op>, now: int, id: nat)
    ensures id in StaleIds(Run(ops).agents, now) <==>
      && id < |Run(ops).agents|
      && LastContact(ops, id).Some?
      && Run(ops).agents[id].status != Decommissioned && Run(ops).agents[id].status != Unreachable
      && now - LastContact(ops, id).value > 180 * 1000000
  {
    ContactRecorded(ops, id);
    StaleIdsMember(Run(ops).agents, now, id);
  }

  /** What brings a decommissioned agent back: a heartbeat, or a status update to anything else. */
  predicate Wakes(op: Op, id: nat) {
    (op.Beat? && op.id == id) || (op.Update? && op.id == id && op.status != Decommissioned)
  }

  predicate Retired(s: State, id: nat) { id < |s.agents| && s.agents[id].status == Decommissioned }

  lemma RetiredStep(s: State, op: Op, id: nat)
    requires Retired(s, id)
    ensures Retired(Do(s, op), id) <==> !Wakes(op, id)
  {
    if op.Check? {
      CheckIsPointwise(s, op.now, |s.agents|);
    }
  }

  /** The state after more operations. */
  function Continue(s: State, ops: seq<Op>): State {
    if ops == [] then s else Do(Continue(s, ops[..|ops| - 1]), ops[|ops| - 1])
  }

  ghost predicate StaysRetired(s: State, ops: seq<Op>, id: nat) {
    forall k :: 0 <= k <= |ops| ==> Retired(Continue(s, ops[..k]), id)
  }

  lemma StaysRetiredSnoc(s: State, ops: seq<Op>, id: nat)
    requires ops != []
    ensures StaysRetired(s, ops, id) <==>
      StaysRetired(s, ops[..|ops| - 1], id) && Retired(Continue(s, ops), id)
  {
    hide Retired, Continue;
    var front := ops[..|ops| - 1];
    assert forall k :: 0 <= k <= |front| ==> front[..k] == ops[..k];
    assert ops[..|ops|] == ops && front[..|front|] == front;
    if StaysRetired(s, front, id) && Retired(Continue(s, ops), id) {
      forall k | 0 <= k <= |ops| ensures Retired(Continue(s, ops[..k]), id) {
        if k <= |front| { assert Retired(Continue(s, front[..k]), id); }
      }
    }
  }

  /** From any state, a decommissioned agent stays so throughout exactly when no later operation is a heartbeat or
      another status for that agent. */
  lemma {:induction false} RetiredIff(s: State, ops: seq<Op>, id: nat)
    requires Retired(s, id)
    ensures StaysRetired(s, ops, id) <==> forall op :: op in ops ==> !Wakes(op, id)
  {
    hide Retired, Wakes, Do;
    if ops == [] {
      assert ops[..0] == ops;
    } else {
      var (front, op) := (ops[..|ops| - 1], ops[|ops| - 1]);
      RetiredIff(s, front, id);
      StaysRetiredSnoc(s, ops, id);
      assert ops == front + [op];
      if StaysRetired(s, front, id) {
        assert front[..|front|] == front;
        RetiredStep(Continue(s, front), op, id);
      }
    }
  }

  /** A heartbeat brings an agent back from every status, decommissioned included, and resets its clock: a check
      leaves it active exactly when it comes within the timeout. */
  lemma HeartbeatRevives(ops: seq<Op>, id: nat, beat: int, now: int)
    requires id < |Run(ops).agents|
    ensures
      var agents := Run(ops + [Beat(id, beat), Check(now)]).agents;
      id < |agents| && agents[id] == Agent(beat, if now - beat <= TIMEOUT then Active else Unreachable)
  {
    var beaten := ops + [Beat(id, beat)];
    var all := ops + [Beat(id, beat), Check(now)];
    assert beaten[..|beaten| - 1] == ops && all[..|all| - 1] == beaten;
    CheckIsPointwise(Run(beaten), now, |Run(beaten).agents|);
  }
}

/** The registry object, with the bounded event log. */
module AgentRegistries {
  import opened Seqs
  import opened AgentSpec
  import opened AgentLaws
  import opened Retention

  class AgentRegistry {
    var agents: seq<Agent>
    var heartbeats: map<nat, nat>
    var events: seq<Event>
    const eventLimit: nat := 10000
    /** Every event ever recorded. */
    ghost var history: seq<Event>

    ghost predicate Valid()
      reads this
    {
      events == LastN(history, eventLimit)
    }

    ghost function Abs(): State
      reads this
    {
      State(agents, heartbeats, history)
    }

    constructor ()
      ensures Valid() && Abs() == EMPTY
    {
      agents, heartbeats, events, history := [], map[], [], [];
    }

    method RecordEvent(e: Event)
      requires Valid()
      modifies this`events, this`history
      ensures Valid() && history == old(history) + [e]
    {
      ResliceStep(history, e, eventLimit);
      events := events + [e];
      if |events| > eventLimit {
        events := Tail(events, eventLimit);
      }
      history := history + [e];
    }

    method RegisterAgent(now: int) returns (id: nat)
      requires Valid()
      modifies this
      ensures Valid() && Abs() == Do(old(Abs()), Join(now))
      ensures id == |old(agents)|
    {
      id := |agents|;
      agents := agents + [Agent(now, Registered)];
      RecordEvent(Event(id, None, Registered));
    }

    /** Returns the new sequence number, or None for an unknown agent. */
    method ProcessHeartbeat(id: nat, now: int) returns (sequence: Option<nat>)
      requires Valid()
      modifies this
      ensures Valid() && Abs() == Do(old(Abs()), Beat(id, now))
      ensures sequence == if id < |old(agents)| then Some(Sequence(heartbeats, id)) else None
    {
      if id >= |agents| { return None; }
      var next := if id in heartbeats then heartbeats[id] + 1 else 1;
      var previous := agents[id].status;
      agents := agents[id := Agent(now, Active)];
      heartbeats := heartbeats[id := next];
      if previous != Active {
        RecordEvent(Event(id, Some(previous), Active));
      }
      sequence := Some(next);
    }

    method UpdateAgentStatus(id: nat, status: Status) returns (known: bool)
      requires Valid()
      modifies this
      ensures Valid() && Abs() == Do(old(Abs()), Update(id, status))
      ensures known <==> id < |old(agents)|
    {
      if id >= |agents| { return false; }
      var previous := agents[id].status;
      if previous == status { return true; }
      agents := agents[id := agents[id].(status := status)];
      RecordEvent(Event(id, Some(previous), status));
      known := true;
    }

    method CheckStaleAgents(now: int) returns (stale: seq<nat>)
      requires Valid()
      modifies this
      ensures Valid() && Abs() == Do(old(Abs()), Check(now))
      ensures stale == StaleIds(old(agents), now)
    {
      stale := [];
      for id := 0 to |agents|
        invariant Valid() && |agents| == |old(agents)|
        invariant Abs() == CheckUpTo(old(Abs()), now, id)
        invariant stale == StaleIds(old(agents)[..id], now)
      {
        CheckIsPointwise(old(Abs()), now, id);
        assert old(agents)[..id + 1][..id] == old(agents)[..id];
        if Stale(agents[id], now) {
          var previous := agents[id].status;
          agents := agents[id := agents[id].(status := Unreachable)];
          RecordEvent(Event(id, Some(previous), Unreachable));
          stale := stale + [id];
        }
      }
      assert old(agents)[..|agents|] == old(agents);
    }

    /** The retained events, of one agent if one is given. Up to the limit of the log, a listing of all agents is the
        end of the whole history; a listing of one agent is the end of its retained events, which are its whole history
        as long as the log is not full. */
    function ListEvents(id: Option<nat>, limit: int): (r: seq<Event>)
      requires Valid()
      reads this
      ensures id.None? && 1 <= limit <= eventLimit ==> r == LastN(history, limit)
      ensures id.Some? && limit >= 1 ==> r == LastN(Filter(Of(id.value), LastN(history, eventLimit)), limit)
      ensures id.Some? && limit >= 1 && |history| <= eventLimit ==> r == LastN(Filter(Of(id.value), history), limit)
    {
      Tail(if id.Some? then Filter(Of(id.value), events) else events, limit)
    }
  }
}
