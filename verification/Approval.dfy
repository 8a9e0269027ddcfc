/** The approval workflow of src/gpuopt/guarded_automation.py: what each decision does to a record. */
module ApprovalSpec {
  import opened Seqs

  datatype Status = Pending | Approved | Rejected

  datatype Step = Step(order: nat, approver: string, status: Status, decidedAt: Option<nat>, reason: string)

  datatype Record = Record(id: nat, actuation: nat, createdAt: nat, status: Status, steps: seq<Step>,
                           requiredApprovers: seq<string>, reason: string, decidedAt: Option<nat>, finalReason: string)

  datatype Failure = NotFound | AlreadyDecided(status: Status) | NotAnApprover

  const DEFAULT_APPROVER := "default_approver"

  function FreshSteps(approvers: seq<string>): seq<Step> {
    var names := if approvers == [] then [DEFAULT_APPROVER] else approvers;
    seq(|names|, i requires 0 <= i < |names| => Step(i + 1, names[i], Pending, None, ""))
  }

  function NewRecord(id: nat, actuation: nat, approvers: seq<string>, reason: string, now: nat): Record {
    Record(id, actuation, now, Pending, FreshSteps(approvers), approvers, reason, None, "")
  }

  predicate Matches(step: Step, approver: string) { step.approver == approver && step.status == Pending }

  /** The index of the first pending step of an approver; the length if there is none. */
  function FindStep(steps: seq<Step>, approver: string): (i: nat)
    ensures i <= |steps|
    ensures i < |steps| ==> Matches(steps[i], approver)
    ensures forall j :: 0 <= j < i ==> !Matches(steps[j], approver)
  {
    if steps == [] || Matches(steps[0], approver) then 0 else 1 + FindStep(steps[1..], approver)
  }

  lemma {:induction false} FoundFirst(steps: seq<Step>, approver: string, i: nat)
    requires i <= |steps| && (i < |steps| ==> Matches(steps[i], approver))
    requires forall j :: 0 <= j < i ==> !Matches(steps[j], approver)
    ensures FindStep(steps, approver) == i
  {
  }

  predicate AllDecided(steps: seq<Step>) { forall i :: 0 <= i < |steps| ==> steps[i].status != Pending }

  predicate AllApproved(steps: seq<Step>) { forall i :: 0 <= i < |steps| ==> steps[i].status == Approved }

  predicate AnyRejected(steps: seq<Step>) { exists i :: 0 <= i < |steps| && steps[i].status == Rejected }

  function Or(reason: string, default: string): string { if reason == "" then default else reason }

  function Decide(step: Step, status: Status, now: nat, reason: string): Step {
    step.(status := status, decidedAt := Some(now), reason := reason)
  }

  /** What both decisions check before they touch the record. */
  function Refusal(r: Record, approver: string): Option<Failure> {
    if r.status != Pending then Some(AlreadyDecided(r.status))
    else if FindStep(r.steps, approver) == |r.steps| then Some(NotAnApprover)
    else None
  }

  function Approve(r: Record, approver: string, reason: string, now: nat): Result<Record, Failure> {
    if Refusal(r, approver).Some? then Err(Refusal(r, approver).value)
    else
      var i := FindStep(r.steps, approver);
      var steps := r.steps[i := Decide(r.steps[i], Approved, now, reason)];
      if AllDecided(steps) && AllApproved(steps) then
        Ok(r.(steps := steps, status := Approved, decidedAt := Some(now),
            finalReason := Or(reason, "All approvers approved")))
      else if AnyRejected(steps) then
        Ok(r.(steps := steps, status := Rejected, decidedAt := Some(now),
            finalReason := Or(reason, "Rejected by approver")))
      else Ok(r.(steps := steps))
  }

  function Reject(r: Record, approver: string, reason: string, now: nat): Result<Record, Failure> {
    if Refusal(r, approver).Some? then Err(Refusal(r, approver).value)
    else
      var i := FindStep(r.steps, approver);
      var steps := r.steps[i := Decide(r.steps[i], Rejected, now, reason)];
      Ok(r.(steps := steps, status := Rejected, decidedAt := Some(now),
          finalReason := Or(reason, "Rejected by approver")))
  }

  // ---- runs over the whole store; records are numbered in order of creation ----

  datatype Op = Create(actuation: nat, approvers: seq<string>, why: string, at: nat)
              | Vote(id: nat, approver: string, approve: bool, reason: string, now: nat)

  function Cast(r: Record, op: Op): Result<Record, Failure>
    requires op.Vote?
  {
    if op.approve then Approve(r, op.approver, op.reason, op.now) else Reject(r, op.approver, op.reason, op.now)
  }

  /** A call that raises saves nothing. */
  function Do(store: seq<Record>, op: Op): seq<Record> {
    match op
    case Create(actuation, approvers, why, at) => store + [NewRecord(|store|, actuation, approvers, why, at)]
    case Vote(id, _, _, _, _) =>
      if id < |store| && Cast(store[id], op).Ok? then store[id := Cast(store[id], op).value] else store
  }

  function Run(ops: seq<Op>): seq<Record> {
    if ops == [] then [] else Do(Run(ops[..|ops| - 1]), ops[|ops| - 1])
  }

  /** The same operations, continuing from a store. */
  function Continue(store: seq<Record>, ops: seq<Op>): seq<Record> {
    if ops == [] then store else Do(Continue(store, ops[..|ops| - 1]), ops[|ops| - 1])
  }

  /** Whether the last operation of a run is a successful decision on record `id`. */
  predicate Decides(ops: seq<Op>, id: nat)
    requires ops != []
  {
    var (before, op) := (Run(ops[..|ops| - 1]), ops[|ops| - 1]);
    op.Vote? && op.id == id && id < |before| && Cast(before[id], op).Ok?
  }

  function Decisions(ops: seq<Op>, id: nat): nat {
    if ops == [] then 0 else Decisions(ops[..|ops| - 1], id) + (if Decides(ops, id) then 1 else 0)
  }
}

/** Invariants of every reachable record, and the order-free law of unanimous approval. */
module ApprovalLaws {
  import opened Seqs
  import opened ApprovalSpec

  function Count(steps: seq<Step>, status: Status): nat {
    if steps == [] then 0 else (if steps[0].status == status then 1 else 0) + Count(steps[1..], status)
  }

  /** The record's status is exactly what its steps say. */
  predicate Consistent(r: Record) {
    && r.steps != []
    && (r.status == Approved <==> Count(r.steps, Approved) == |r.steps|)
    && (r.status == Rejected <==> Count(r.steps, Rejected) == 1)
    && (r.status == Pending <==> Count(r.steps, Pending) > 0 && Count(r.steps, Rejected) == 0)
    && Count(r.steps, Rejected) <= 1
  }

  lemma {:induction false} CountTotal(steps: seq<Step>)
    ensures Count(steps, Pending) + Count(steps, Approved) + Count(steps, Rejected) == |steps|
  {
    if steps != [] {
      CountTotal(steps[1..]);
    }
  }

  lemma {:induction false} CountUpdate(steps: seq<Step>, i: nat, s: Step, status: Status)
    requires i < |steps|
    ensures Count(steps[i := s], status) ==
      Count(steps, status) - (if steps[i].status == status then 1 else 0) + (if s.status == status then 1 else 0)
  {
    if i == 0 {
      assert steps[i := s][1..] == steps[1..];
    } else {
      CountUpdate(steps[1..], i - 1, s, status);
      assert steps[i := s][1..] == steps[1..][i - 1 := s];
    }
  }

  lemma {:induction false} CountZero(steps: seq<Step>, status: Status)
    ensures Count(steps, status) == 0 <==> forall i :: 0 <= i < |steps| ==> steps[i].status != status
  {
    if steps != [] {
      CountZero(steps[1..], status);
      assert forall i :: 0 < i < |steps| ==> steps[i] == steps[1..][i - 1];
      assert forall i :: 0 <= i < |steps[1..]| ==> steps[1..][i] == steps[i + 1];
    }
  }

  lemma {:induction false} CountFull(steps: seq<Step>, status: Status)
    ensures Count(steps, status) <= |steps|
    ensures Count(steps, status) == |steps| <==> forall i :: 0 <= i < |steps| ==> steps[i].status == status
  {
    if steps != [] {
      CountFull(steps[1..], status);
      assert forall i :: 0 < i < |steps| ==> steps[i] == steps[1..][i - 1];
      assert forall i :: 0 <= i < |steps[1..]| ==> steps[1..][i] == steps[i + 1];
    }
  }

  lemma FreshConsistent(id: nat, actuation: nat, approvers: seq<string>, why: string, at: nat)
    ensures Consistent(NewRecord(id, actuation, approvers, why, at))
  {
    var steps := NewRecord(id, actuation, approvers, why, at).steps;
    CountZero(steps, Approved);
    CountZero(steps, Rejected);
    CountTotal(steps);
  }

  // ---- when a decision succeeds and what it changes ----

  /** Step i is the first pending one of the approver. */
  predicate FirstOpen(steps: seq<Step>, approver: string, i: nat) {
    && i < |steps| && steps[i].approver == approver && steps[i].status == Pending
    && forall j :: 0 <= j < i ==> steps[j].approver != approver || steps[j].status != Pending
  }

  /** The same steps, but step i decided at this moment for this reason. */
  predicate OnlyDecided(before: seq<Step>, after: seq<Step>, i: nat, status: Status, now: nat, reason: string) {
    && i < |before| == |after|
    && after[i] == Step(before[i].order, before[i].approver, status, Some(now), reason)
    && forall j :: 0 <= j < |before| && j != i ==> after[j] == before[j]
  }

  /** A record that is decided for good now: the given reason, or the default text if it is empty. */
  predicate Closed(before: Record, after: Record, status: Status, now: nat, reason: string, default: string) {
    after == before.(steps := after.steps, status := status, decidedAt := Some(now),
                     finalReason := if reason != "" then reason else default)
  }

  /** A decision of either kind succeeds exactly when the record is pending and the approver has a pending step;
      otherwise the error names the status, or the missing approver. */
  lemma DecisionOkIff(r: Record, approver: string, reason: string, now: nat, approve: bool)
    ensures
      var result := if approve then Approve(r, approver, reason, now) else Reject(r, approver, reason, now);
      && (result.Ok? <==> r.status == Pending && exists i :: FirstOpen(r.steps, approver, i))
      && (r.status != Pending ==> result == Err(AlreadyDecided(r.status)))
      && (r.status == Pending && !result.Ok? ==> result == Err(NotAnApprover))
  {
    hide AllDecided, AllApproved, AnyRejected;
    var i := FindStep(r.steps, approver);
    if i < |r.steps| {
      assert FirstOpen(r.steps, approver, i);
    }
  }

  /** A rejection decides the approver's first pending step and closes the record as rejected. */
  lemma RejectEffect(r: Record, approver: string, reason: string, now: nat, i: nat)
    requires r.status == Pending && FirstOpen(r.steps, approver, i)
    ensures Reject(r, approver, reason, now).Ok?
    ensures
      var r' := Reject(r, approver, reason, now).value;
      && OnlyDecided(r.steps, r'.steps, i, Rejected, now, reason)
      && Closed(r, r', Rejected, now, reason, "Rejected by approver")
  {
    FoundFirst(r.steps, approver, i);
  }

  /** An approval decides the approver's first pending step; it closes the record as approved exactly when every other
      step was approved before, as rejected when another one was rejected, and otherwise changes nothing else. */
  lemma ApproveEffect(r: Record, approver: string, reason: string, now: nat, i: nat)
    requires r.status == Pending && FirstOpen(r.steps, approver, i)
    ensures Approve(r, approver, reason, now).Ok?
    ensures
      var r' := Approve(r, approver, reason, now).value;
      && OnlyDecided(r.steps, r'.steps, i, Approved, now, reason)
      && if forall j :: 0 <= j < |r.steps| && j != i ==> r.steps[j].status == Approved then
           Closed(r, r', Approved, now, reason, "All approvers approved")
         else if exists j :: 0 <= j < |r.steps| && j != i && r.steps[j].status == Rejected then
           Closed(r, r', Rejected, now, reason, "Rejected by approver")
         else r' == r.(steps := r'.steps)
  {
    hide AllDecided, AllApproved, AnyRejected;
    FoundFirst(r.steps, approver, i);
    AfterApproval(r.steps, i, Decide(r.steps[i], Approved, now, reason));
  }

  /** What the tests of `approve` find once step i is approved. */
  lemma AfterApproval(steps: seq<Step>, i: nat, s: Step)
    requires i < |steps| && s.status == Approved
    ensures AllApproved(steps[i := s]) <==> forall j :: 0 <= j < |steps| && j != i ==> steps[j].status == Approved
    ensures AllApproved(steps[i := s]) ==> AllDecided(steps[i := s])
    ensures AnyRejected(steps[i := s]) <==> exists j :: 0 <= j < |steps| && j != i && steps[j].status == Rejected
  {
    var after := steps[i := s];
    forall j | 0 <= j < |steps| && j != i ensures after[j] == steps[j] {
    }
    if AnyRejected(after) {
      var j :| 0 <= j < |after| && after[j].status == Rejected;
      assert steps[j].status == Rejected;
    }
    if AllApproved(after) {
      forall j | 0 <= j < |steps| && j != i ensures steps[j].status == Approved {
        assert after[j].status == Approved;
      }
    }
  }

  /** A new request is pending, with one open step for each required approver, numbered from one; without approvers
      there is one for the default approver. */
  lemma NewRequest(id: nat, actuation: nat, approvers: seq<string>, reason: string, now: nat)
    ensures
      var (r, names) := (NewRecord(id, actuation, approvers, reason, now),
                         if |approvers| > 0 then approvers else ["default_approver"]);
      && r.id == id && r.actuation == actuation && r.createdAt == now && r.status == Pending
      && r.requiredApprovers == approvers && r.reason == reason && r.decidedAt == None && r.finalReason == ""
      && |r.steps| == |names|
      && forall i :: 0 <= i < |names| ==> r.steps[i] == Step(i + 1, names[i], Pending, None, "")
  {
  }

  /** A vote that succeeds replaces its own record by the decided one, and one that raises or names no record changes
      nothing; a creation only adds a record. */
  lemma VoteTouchesOne(store: seq<Record>, op: Op, j: nat)
    requires j < |store|
    ensures |Do(store, op)| == if op.Create? then |store| + 1 else |store|
    ensures op.Create? || op.id != j ==> Do(store, op)[j] == store[j]
    ensures op.Vote? && op.id == j ==>
      var result := if op.approve then Approve(store[j], op.approver, op.reason, op.now)
                    else Reject(store[j], op.approver, op.reason, op.now);
      Do(store, op)[j] == if result.Ok? then result.value else store[j]
  {
    hide Approve, Reject, NewRecord;
  }

  /** A successful approval keeps the record consistent; the `any_rejected` branch is never the one taken. */
  lemma ApproveConsistent(r: Record, approver: string, reason: string, now: nat)
    requires Consistent(r) && Approve(r, approver, reason, now).Ok?
    ensures
      var r' := Approve(r, approver, reason, now).value;
      Consistent(r') && r'.status != Rejected && !AnyRejected(r'.steps)
          && Count(r'.steps, Pending) == Count(r.steps, Pending) - 1
  {
    var i := FindStep(r.steps, approver);
    var s := Decide(r.steps[i], Approved, now, reason);
    var steps := r.steps[i := s];
    CountUpdate(r.steps, i, s, Pending);
    CountUpdate(r.steps, i, s, Approved);
    CountUpdate(r.steps, i, s, Rejected);
    CountTotal(steps);
    CountZero(steps, Rejected);
    CountFull(steps, Approved);
  }

  lemma RejectConsistent(r: Record, approver: string, reason: string, now: nat)
    requires Consistent(r) && Reject(r, approver, reason, now).Ok?
    ensures
      var r' := Reject(r, approver, reason, now).value;
      Consistent(r') && Count(r'.steps, Pending) == Count(r.steps, Pending) - 1
  {
    var i := FindStep(r.steps, approver);
    var s := Decide(r.steps[i], Rejected, now, reason);
    CountUpdate(r.steps, i, s, Pending);
    CountUpdate(r.steps, i, s, Approved);
    CountUpdate(r.steps, i, s, Rejected);
    CountTotal(r.steps);
    CountTotal(r.steps[i := s]);
  }

  /** A successful decision decides one more step. */
  lemma CastCounts(r: Record, op: Op)
    requires Consistent(r) && op.Vote? && Cast(r, op).Ok?
    ensures
      var r' := Cast(r, op).value;
      Consistent(r') && r'.id == r.id && |r'.steps| == |r.steps|
          && Count(r'.steps, Pending) == Count(r.steps, Pending) - 1
  {
    hide Consistent, Count, AllDecided, AllApproved, AnyRejected, FindStep;
    if op.approve {
      ApproveConsistent(r, op.approver, op.reason, op.now);
    } else {
      RejectConsistent(r, op.approver, op.reason, op.now);
    }
  }

  /** Every record of every reachable store is consistent and keeps its number. */
  lemma {:induction false} Reachable(ops: seq<Op>)
    ensures forall id :: 0 <= id < |Run(ops)| ==> Consistent(Run(ops)[id]) && Run(ops)[id].id == id
  {
    hide Consistent, Cast, Count;
    if ops != [] {
      var (front, op) := (ops[..|ops| - 1], ops[|ops| - 1]);
      Reachable(front);
      var store := Run(front);
      match op
      case Create(actuation, approvers, why, at) => FreshConsistent(|store|, actuation, approvers, why, at);
      case Vote(id, _, _, _, _) =>
        if id < |store| && Cast(store[id], op).Ok? {
          CastCounts(store[id], op);
        }
    }
  }

  /** What later operations may do to a record: nothing once it is decided, and never to a decided step. */
  predicate Grows(before: Record, after: Record) {
    && (before.status != Pending ==> after == before)
    && after.id == before.id && after.actuation == before.actuation && after.createdAt == before.createdAt
    && |after.steps| == |before.steps|
    && forall i :: 0 <= i < |before.steps| ==>
         && after.steps[i].approver == before.steps[i].approver
         && (before.steps[i].status != Pending ==> after.steps[i] == before.steps[i])
  }

  lemma StepGrows(store: seq<Record>, op: Op, id: nat)
    requires id < |store|
    ensures id < |Do(store, op)| && Grows(store[id], Do(store, op)[id])
  {
    hide AllDecided, AllApproved, AnyRejected, FindStep, NewRecord;
  }

  lemma GrowsTransitive(a: Record, b: Record, c: Record)
    requires Grows(a, b) && Grows(b, c)
    ensures Grows(a, c)
  {
  }

  lemma {:induction false} ContinueGrows(store: seq<Record>, more: seq<Op>, id: nat)
    requires id < |store|
    ensures id < |Continue(store, more)| && Grows(store[id], Continue(store, more)[id])
  {
    if more != [] {
      var (front, op) := (more[..|more| - 1], more[|more| - 1]);
      ContinueGrows(store, front, id);
      StepGrows(Continue(store, front), op, id);
      GrowsTransitive(store[id], Continue(store, front)[id], Continue(store, more)[id]);
    }
  }

  lemma {:induction false} RunContinues(ops: seq<Op>, more: seq<Op>)
    ensures Run(ops + more) == Continue(Run(ops), more)
  {
    hide Do;
    if more == [] {
      assert ops + more == ops;
    } else {
      RunContinues(ops, more[..|more| - 1]);
      assert (ops + more)[..|ops + more| - 1] == ops + more[..|more| - 1];
    }
  }

  /** Decisions are final: in every continuation of a run, decided records and decided steps stay as they are. */
  lemma DecisionsFinal(ops: seq<Op>, more: seq<Op>, id: nat)
    requires id < |Run(ops)|
    ensures id < |Run(ops + more)| && Grows(Run(ops)[id], Run(ops + more)[id])
  {
    RunContinues(ops, more);
    ContinueGrows(Run(ops), more, id);
  }

  function Decided(r: Record): int { |r.steps| - Count(r.steps, Pending) }

  lemma FreshUndecided(id: nat, actuation: nat, approvers: seq<string>, why: string, at: nat)
    ensures Decided(NewRecord(id, actuation, approvers, why, at)) == 0
  {
    CountFull(FreshSteps(approvers), Pending);
  }

  /** What one more operation adds to a record's decided steps. */
  lemma DecisionStep(ops: seq<Op>, id: nat)
    requires ops != [] && id < |Run(ops)|
    ensures
      var (before, after) := (Run(ops[..|ops| - 1]), Run(ops));
      if id < |before| then Decided(after[id]) == Decided(before[id]) + (if Decides(ops, id) then 1 else 0)
      else Decided(after[id]) == 0 && !Decides(ops, id)
  {
    hide Consistent, Decided, NewRecord, Cast;
    var (front, op) := (ops[..|ops| - 1], ops[|ops| - 1]);
    Reachable(front);
    match op
    case Create(actuation, approvers, why, at) => FreshUndecided(|Run(front)|, actuation, approvers, why, at);
    case Vote(_, _, _, _, _) =>
      if Decides(ops, id) {
        CastDecides(Run(front)[id], op);
      }
  }

  lemma CastDecides(r: Record, op: Op)
    requires Consistent(r) && op.Vote? && Cast(r, op).Ok?
    ensures Decided(Cast(r, op).value) == Decided(r) + 1
  {
    hide Cast, Consistent, Count;
    CastCounts(r, op);
  }

  /** The number of successful decisions on a record is the number of its decided steps, so at most all of them. */
  lemma {:induction false} DecisionsCounted(ops: seq<Op>, id: nat)
    ensures id >= |Run(ops)| ==> Decisions(ops, id) == 0
    ensures id < |Run(ops)| ==> Decisions(ops, id) == |Run(ops)[id].steps| - Count(Run(ops)[id].steps, Pending)
  {
    hide Count, Decides;
    if ops != [] {
      DecisionsCounted(ops[..|ops| - 1], id);
      if id < |Run(ops)| {
        DecisionStep(ops, id);
      } else {
        LaterUndecided(ops, id);
      }
    }
  }

  lemma LaterUndecided(ops: seq<Op>, id: nat)
    requires ops != [] && id >= |Run(ops)|
    ensures id >= |Run(ops[..|ops| - 1])| && !Decides(ops, id)
  {
    hide Cast, NewRecord;
  }

  // ---- unanimity in any order ----

  function Approvers(steps: seq<Step>): multiset<string> {
    if steps == [] then multiset{} else multiset{steps[0].approver} + Approvers(steps[1..])
  }

  function PendingApprovers(steps: seq<Step>): multiset<string> {
    if steps == [] then multiset{}
    else (if steps[0].status == Pending then multiset{steps[0].approver} else multiset{}) + PendingApprovers(steps[1..])
  }

  datatype Call = Call(approver: string, reason: string, now: nat)

  function Callers(calls: seq<Call>): multiset<string> {
    if calls == [] then multiset{} else multiset{calls[0].approver} + Callers(calls[1..])
  }

  /** A sequence of approve calls on one record; it stops at the first one that raises. */
  function ApproveAll(r: Record, calls: seq<Call>): Result<Record, Failure>
    decreases |calls|
  {
    if calls == [] then Ok(r)
    else
      match Approve(r, calls[0].approver, calls[0].reason, calls[0].now)
      case Err(e) => Err(e)
      case Ok(r') => ApproveAll(r', calls[1..])
  }

  lemma {:induction false} PendingMember(steps: seq<Step>, approver: string)
    ensures approver in PendingApprovers(steps) <==> FindStep(steps, approver) < |steps|
  {
    if steps != [] {
      PendingMember(steps[1..], approver);
    }
  }

  lemma {:induction false} PendingDecided(steps: seq<Step>, i: nat, s: Step)
    requires i < |steps| && steps[i].status == Pending && s.status != Pending
    ensures PendingApprovers(steps) == PendingApprovers(steps[i := s]) + multiset{steps[i].approver}
  {
    if i == 0 {
      assert steps[i := s][1..] == steps[1..];
    } else {
      var rest := steps[1..];
      PendingDecided(rest, i - 1, s);
      assert steps[i := s][1..] == rest[i - 1 := s] && rest[i - 1] == steps[i];
    }
  }

  lemma OneLess(required: multiset<string>, rest: multiset<string>, callers: multiset<string>, name: string)
    requires required == rest + multiset{name}
    ensures multiset{name} + callers <= required <==> callers <= rest
    ensures multiset{name} + callers == required <==> callers == rest
  {
    assert callers == (multiset{name} + callers) - multiset{name};
    assert rest == required - multiset{name};
  }

  lemma {:induction false} PendingSize(steps: seq<Step>)
    ensures |PendingApprovers(steps)| == Count(steps, Pending)
  {
    if steps != [] {
      PendingSize(steps[1..]);
    }
  }

  /** Whatever branch is taken, an approval that does not raise decides the step it found. */
  lemma ApproveSteps(r: Record, c: Call)
    requires r.status == Pending
    ensures
      var (i, result) := (FindStep(r.steps, c.approver), Approve(r, c.approver, c.reason, c.now));
      && (result.Ok? <==> i < |r.steps|)
      && (result.Ok? ==> result.value.steps == r.steps[i := Decide(r.steps[i], Approved, c.now, c.reason)])
  {
    hide AllDecided, AllApproved, AnyRejected, FindStep;
  }

  /** One approve call succeeds iff its caller is still pending, and takes that caller off the list. */
  lemma ApproveOne(r: Record, c: Call)
    requires Consistent(r) && r.status == Pending
    ensures Approve(r, c.approver, c.reason, c.now).Ok? <==> c.approver in PendingApprovers(r.steps)
    ensures Approve(r, c.approver, c.reason, c.now).Ok? ==>
      var r' := Approve(r, c.approver, c.reason, c.now).value;
      && Consistent(r') && r'.status != Rejected
      && PendingApprovers(r.steps) == PendingApprovers(r'.steps) + multiset{c.approver}
  {
    hide Consistent, Approve;
    PendingMember(r.steps, c.approver);
    ApproveSteps(r, c);
    if Approve(r, c.approver, c.reason, c.now).Ok? {
      var i := FindStep(r.steps, c.approver);
      ApproveConsistent(r, c.approver, c.reason, c.now);
      PendingDecided(r.steps, i, Decide(r.steps[i], Approved, c.now, c.reason));
    }
  }

  /** From any consistent record: the calls all succeed iff the callers, with repetition, are pending approvers, and
      the record ends approved iff they are all of them. The order of the calls does not matter. */
  lemma {:induction false} ApproveAllIff(r: Record, calls: seq<Call>)
    requires Consistent(r) && r.status != Rejected
    ensures ApproveAll(r, calls).Ok? <==> Callers(calls) <= PendingApprovers(r.steps)
    ensures ApproveAll(r, calls).Ok? ==>
      (ApproveAll(r, calls).value.status == Approved <==> Callers(calls) == PendingApprovers(r.steps))
    decreases |calls|
  {
    if r.status == Approved {
      ApprovedRefusesMore(r, calls);
    } else if calls == [] {
      PendingSize(r.steps);
    } else {
      ApproveOne(r, calls[0]);
      var result := Approve(r, calls[0].approver, calls[0].reason, calls[0].now);
      if result.Ok? {
        ApproveAllIff(result.value, calls[1..]);
        OneLess(PendingApprovers(r.steps), PendingApprovers(result.value.steps),
            Callers(calls[1..]), calls[0].approver);
      } else {
        assert calls[0].approver in Callers(calls);
      }
    }
  }

  lemma ApprovedRefusesMore(r: Record, calls: seq<Call>)
    requires Consistent(r) && r.status == Approved
    ensures ApproveAll(r, calls).Ok? <==> calls == []
    ensures PendingApprovers(r.steps) == multiset{}
    ensures Callers(calls) <= multiset{} <==> calls == []
  {
    CountTotal(r.steps);
    PendingSize(r.steps);
    if calls != [] {
      assert calls[0].approver in Callers(calls);
    }
  }

  lemma {:induction false} AllPending(steps: seq<Step>)
    requires forall i :: 0 <= i < |steps| ==> steps[i].status == Pending
    ensures PendingApprovers(steps) == Approvers(steps)
  {
    if steps != [] {
      AllPending(steps[1..]);
    }
  }

  lemma {:induction false} ApproversAre(steps: seq<Step>, names: seq<string>)
    requires |steps| == |names| && forall i :: 0 <= i < |steps| ==> steps[i].approver == names[i]
    ensures Approvers(steps) == multiset(names)
  {
    if steps != [] {
      ApproversAre(steps[1..], names[1..]);
      assert names == [names[0]] + names[1..];
    }
  }

  /** The law for a new request: the required approvers, counted with repetition, decide, in whatever order. */
  lemma UnanimousApproval(id: nat, actuation: nat, approvers: seq<string>, why: string, at: nat, calls: seq<Call>)
    ensures
      var required := multiset(if approvers == [] then [DEFAULT_APPROVER] else approvers);
      var result := ApproveAll(NewRecord(id, actuation, approvers, why, at), calls);
      && (result.Ok? <==> Callers(calls) <= required)
      && (result.Ok? ==> (result.value.status == Approved <==> Callers(calls) == required))
  {
    var r := NewRecord(id, actuation, approvers, why, at);
    FreshConsistent(id, actuation, approvers, why, at);
    AllPending(r.steps);
    ApproversAre(r.steps, if approvers == [] then [DEFAULT_APPROVER] else approvers);
    ApproveAllIff(r, calls);
  }

  // ---- the gate in front of an actuation ----

  function ForActuation(actuation: nat): Record -> bool { (r: Record) => r.actuation == actuation }

  /** `max(rows, key=created_at)`: the first of the rows with the greatest creation time. */
  function Latest(rows: seq<Record>): (r: Record)
    requires rows != []
    ensures r in rows && forall x :: x in rows ==> x.createdAt <= r.createdAt
  {
    if |rows| == 1 then rows[0]
    else
      var best := Latest(rows[..|rows| - 1]);
      if rows[|rows| - 1].createdAt > best.createdAt then rows[|rows| - 1] else best
  }

  function CheckActuationApproved(rows: seq<Record>): bool { rows != [] && Latest(rows).status == Approved }

  predicate LatestFirst(rows: seq<Record>, i: nat) {
    && i < |rows|
    && (forall j :: 0 <= j < i ==> rows[j].createdAt < rows[i].createdAt)
    && (forall j :: i < j < |rows| ==> rows[j].createdAt <= rows[i].createdAt)
  }

  /** Of several rows with the greatest creation time the first one counts. */
  lemma {:induction false} LatestIsFirst(rows: seq<Record>) returns (i: nat)
    requires rows != []
    ensures LatestFirst(rows, i) && rows[i] == Latest(rows)
  {
    if |rows| == 1 {
      i := 0;
    } else {
      var front := rows[..|rows| - 1];
      i := LatestIsFirst(front);
      assert forall j :: 0 <= j < |front| ==> rows[j] == front[j];
      if rows[|rows| - 1].createdAt > front[i].createdAt {
        i := |rows| - 1;
      }
    }
  }

  /** In whatever order the query lists an actuation's requests, the gate opens only if a latest request of it exists
      with every one of its steps approved, and it does open if every latest request is approved. */
  lemma GateSound(ops: seq<Op>, actuation: nat, rows: seq<Record>)
    requires multiset(rows) == multiset(Filter(ForActuation(actuation), Run(ops)))
    ensures CheckActuationApproved(rows) ==>
      exists r :: r in Run(ops) && r.actuation == actuation && AllApproved(r.steps) && IsLatest(Run(ops), r)
    ensures !CheckActuationApproved(rows) ==>
      (forall r :: r in Run(ops) ==> r.actuation != actuation) ||
      exists r :: r in Run(ops) && r.actuation == actuation && !AllApproved(r.steps) && IsLatest(Run(ops), r)
  {
    var store := Run(ops);
    Reachable(ops);
    forall r ensures r in rows <==> r in store && r.actuation == actuation {
      assert r in rows <==> r in multiset(rows);
      assert r in Filter(ForActuation(actuation), store) <==> r in multiset(Filter(ForActuation(actuation), store));
      FilterMember(ForActuation(actuation), store, r);
    }
    if rows != [] {
      var r := Latest(rows);
      CountFull(r.steps, Approved);
      assert IsLatest(store, r);
    }
  }

  predicate IsLatest(store: seq<Record>, r: Record) {
    forall x :: x in store && x.actuation == r.actuation ==> x.createdAt <= r.createdAt
  }
}

/** The workflow object over its repository. */
module ApprovalWorkflows {
  import opened Seqs
  import opened ApprovalSpec
  import opened ApprovalLaws

  class ApprovalWorkflow {
    /** The saved records; a record's id is its position. */
    var records: seq<Record>

    constructor ()
      ensures records == Run([])
    {
      records := [];
    }

    method CreateRequest(actuation: nat, approvers: seq<string>, reason: string, now: nat) returns (record: Record)
      modifies this
      ensures records == Do(old(records), Create(actuation, approvers, reason, now))
      ensures record == records[|records| - 1] && record.status == Pending
    {
      var names := if approvers == [] then [DEFAULT_APPROVER] else approvers;
      var steps: seq<Step> := [];
      for i := 0 to |names|
        invariant steps == FreshSteps(approvers)[..i]
      {
        steps := steps + [Step(i + 1, names[i], Pending, None, "")];
      }
      assert FreshSteps(approvers)[..|names|] == FreshSteps(approvers);
      record := Record(|records|, actuation, now, Pending, steps, approvers, reason, None, "");
      records := records + [record];
    }

    /** The `for ... else` search of both decisions. */
    method FirstPending(steps: seq<Step>, approver: string) returns (i: nat)
      ensures i == FindStep(steps, approver)
    {
      i := 0;
      while i < |steps| && !Matches(steps[i], approver)
        invariant i <= |steps| && forall j :: 0 <= j < i ==> !Matches(steps[j], approver)
      {
        i := i + 1;
      }
      FoundFirst(steps, approver, i);
    }

    method Approve(id: nat, approver: string, reason: string, now: nat) returns (result: Result<Record, Failure>)
      modifies this
      ensures result == if id < |old(records)| then ApprovalSpec.Approve(old(records)[id], approver, reason, now)
          else Err(NotFound)
      ensures records == Do(old(records), Vote(id, approver, true, reason, now))
    {
      if id >= |records| { return Err(NotFound); }
      var record := records[id];
      if record.status != Pending { return Err(AlreadyDecided(record.status)); }
      var i := FirstPending(record.steps, approver);
      if i == |record.steps| { return Err(NotAnApprover); }
      var steps := record.steps[i := Decide(record.steps[i], Approved, now, reason)];
      record := record.(steps := steps);
      if AllDecided(steps) && AllApproved(steps) {
        record := record.(status := Approved, decidedAt := Some(now),
            finalReason := Or(reason, "All approvers approved"));
      } else if AnyRejected(steps) {
        record := record.(status := Rejected, decidedAt := Some(now),
            finalReason := Or(reason, "Rejected by approver"));
      }
      records := records[id := record];
      result := Ok(record);
    }

    method Reject(id: nat, approver: string, reason: string, now: nat) returns (result: Result<Record, Failure>)
      modifies this
      ensures result == if id < |old(records)| then ApprovalSpec.Reject(old(records)[id], approver, reason, now)
          else Err(NotFound)
      ensures records == Do(old(records), Vote(id, approver, false, reason, now))
    {
      if id >= |records| { return Err(NotFound); }
      var record := records[id];
      if record.status != Pending { return Err(AlreadyDecided(record.status)); }
      var i := FirstPending(record.steps, approver);
      if i == |record.steps| { return Err(NotAnApprover); }
      record := record.(steps := record.steps[i := Decide(record.steps[i], Rejected, now, reason)]);
      record := record.(status := Rejected, decidedAt := Some(now), finalReason := Or(reason, "Rejected by approver"));
      records := records[id := record];
      result := Ok(record);
    }
  }
}
