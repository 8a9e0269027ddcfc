/** Shadow deployments and recommendation expiry of src/gpuopt/explanation_service.py. Shadows are numbered in order
    of creation, which stands for their fresh ids. */
module ShadowSpec {
  import opened Seqs

  datatype Status = Waiting | Running | Completed | Failed

  type Metrics = map<string, real>

  datatype Shadow = Shadow(status: Status, baseline: Metrics, measured: Metrics, delta: Metrics, outcome: string,
                           confidence: real)

  datatype Verdict = Promoted(delta: Metrics) | NotCompleted | NegativeImpact

  datatype Op = Create(baseline: Metrics) | Start(id: nat)
              | Complete(id: nat, metrics: Metrics, outcome: string, confidence: real) | Fail(id: nat, reason: string)

  function Value(m: Metrics, key: string): real { if key in m then m[key] else 0.0 }

  /** Pointwise difference over the baseline's metrics; a metric that was not measured counts as zero. */
  function Delta(baseline: Metrics, measured: Metrics): Metrics {
    map k | k in baseline :: Value(measured, k) - baseline[k]
  }

  /** Completion is accepted in every status; the stored delta is only rewritten if there is a baseline. */
  function CompleteShadow(s: Shadow, metrics: Metrics, outcome: string, confidence: real): Shadow {
    s.(status := Completed, measured := metrics, outcome := outcome,
       confidence := if confidence == 0.0 then 0.8 else confidence,
       delta := if s.baseline == map[] then s.delta else Delta(s.baseline, metrics))
  }

  function Do(shadows: seq<Shadow>, op: Op): seq<Shadow> {
    match op
    case Create(baseline) => shadows + [Shadow(Waiting, baseline, map[], map[], "", 0.0)]
    case Start(id) =>
      if id < |shadows| && shadows[id].status == Waiting then shadows[id := shadows[id].(status := Running)]
          else shadows
    case Complete(id, metrics, outcome, confidence) =>
      if id < |shadows| then shadows[id := CompleteShadow(shadows[id], metrics, outcome, confidence)] else shadows
    case Fail(id, reason) =>
      if id < |shadows| then
        shadows[id := shadows[id].(status := Failed, outcome := if reason == "" then "failed" else reason)]
      else shadows
  }

  predicate AnyNegative(m: Metrics) { exists k :: k in m && m[k] < 0.0 }

  function Promote(shadows: seq<Shadow>, id: nat): Verdict {
    if id >= |shadows| || shadows[id].status != Completed then NotCompleted
    else if AnyNegative(shadows[id].delta) then NegativeImpact
    else Promoted(shadows[id].delta)
  }

  function Run(ops: seq<Op>): seq<Shadow> {
    if ops == [] then [] else Do(Run(ops[..|ops| - 1]), ops[|ops| - 1])
  }
}

module ShadowLaws {
  import opened Seqs
  import opened ShadowSpec

  datatype Ending = NoEnding
                  | CompletedWith(metrics: Metrics, outcome: string, confidence: real)
                  | FailedFor(reason: string)

  /** The latest terminal call that reached a shadow in a run. */
  function LatestEnding(ops: seq<Op>, id: nat): Ending {
    if ops == [] then NoEnding
    else
      var (front, op) := (ops[..|ops| - 1], ops[|ops| - 1]);
      if op.Complete? && op.id == id && id < |Run(front)| then CompletedWith(op.metrics, op.outcome, op.confidence)
      else if op.Fail? && op.id == id && id < |Run(front)| then FailedFor(op.reason)
      else LatestEnding(front, id)
  }

  /** Whether a start has reached a shadow in a run. */
  predicate Started(ops: seq<Op>, id: nat) {
    ops != [] &&
    var (front, op) := (ops[..|ops| - 1], ops[|ops| - 1]);
    Started(front, id) || (op.Start? && op.id == id && id < |Run(front)|)
  }

  /** The baseline given at the creation of a shadow. */
  function Baseline(ops: seq<Op>, id: nat): Option<Metrics> {
    if ops == [] then None
    else
      var (front, op) := (ops[..|ops| - 1], ops[|ops| - 1]);
      if op.Create? && id == |Run(front)| then Some(op.baseline) else Baseline(front, id)
  }

  /** A shadow's record is what its latest ending says, or waiting or running before the first one. A completed one with
      a baseline holds the exact difference between the metrics of that completion and the baseline. */
  predicate Agrees(s: Shadow, ending: Ending, started: bool) {
    && (s.baseline == map[] ==> s.delta == map[])
    && match ending
       case NoEnding =>
         && s.status == (if started then Running else Waiting)
         && s.measured == map[] && s.outcome == "" && s.confidence == 0.0
       case CompletedWith(metrics, outcome, confidence) =>
         && s.status == Completed && s.measured == metrics && s.outcome == outcome
         && s.confidence == (if confidence != 0.0 then confidence else 0.8)
         && (s.baseline != map[] ==> s.delta == Delta(s.baseline, metrics))
       case FailedFor(reason) => s.status == Failed && s.outcome == (if reason != "" then reason else "failed")
  }

  lemma StepAgrees(shadows: seq<Shadow>, op: Op, id: nat, ending: Ending, started: bool)
    requires id < |shadows| && Agrees(shadows[id], ending, started)
    ensures |shadows| <= |Do(shadows, op)| && Do(shadows, op)[id].baseline == shadows[id].baseline
    ensures Agrees(Do(shadows, op)[id],
                   if op.Complete? && op.id == id then CompletedWith(op.metrics, op.outcome, op.confidence)
                   else if op.Fail? && op.id == id then FailedFor(op.reason) else ending,
                   started || (op.Start? && op.id == id))
  {
    hide Delta;
    if op.Complete? && op.id == id && shadows[id].baseline == map[] {
      assert CompleteShadow(shadows[id], op.metrics, op.outcome, op.confidence).delta == map[];
    }
  }

  lemma CreationAgrees(shadows: seq<Shadow>, op: Op, id: nat)
    requires id >= |shadows|
    ensures |Do(shadows, op)| == if op.Create? then |shadows| + 1 else |shadows|
    ensures op.Create? && id == |shadows| ==>
      Do(shadows, op)[id].baseline == op.baseline && Agrees(Do(shadows, op)[id], NoEnding, false)
  {
    hide CompleteShadow;
  }

  lemma {:induction false} RunAgrees(ops: seq<Op>, id: nat)
    ensures
      if id < |Run(ops)| then
        && Agrees(Run(ops)[id], LatestEnding(ops, id), Started(ops, id))
        && Baseline(ops, id) == Some(Run(ops)[id].baseline)
      else LatestEnding(ops, id) == NoEnding && !Started(ops, id) && Baseline(ops, id) == None
  {
    hide Do, Agrees;
    if ops != [] {
      var (front, op) := (ops[..|ops| - 1], ops[|ops| - 1]);
      RunAgrees(front, id);
      if id < |Run(front)| {
        StepAgrees(Run(front), op, id, LatestEnding(front, id), Started(front, id));
      } else {
        CreationAgrees(Run(front), op, id);
      }
    }
  }

  /** The difference has the baseline's metrics: what was measured is the baseline plus the difference, and what was not
      measured counts as zero. */
  lemma DeltaIs(baseline: Metrics, measured: Metrics, k: string)
    ensures k in Delta(baseline, measured) <==> k in baseline
    ensures k in baseline ==>
      baseline[k] + Delta(baseline, measured)[k] == if k in measured then measured[k] else 0.0
  {
  }

  /** The baseline fell behind in no metric. */
  predicate NoRegression(baseline: Metrics, measured: Metrics) {
    forall k :: k in baseline ==> Value(measured, k) >= baseline[k]
  }

  lemma DeltaSign(baseline: Metrics, measured: Metrics)
    ensures AnyNegative(Delta(baseline, measured)) <==> !NoRegression(baseline, measured)
  {
    var d := Delta(baseline, measured);
    forall k | k in baseline ensures k in d && (d[k] < 0.0 <==> Value(measured, k) < baseline[k]) {
    }
  }

  /** Promotion succeeds exactly when the latest terminal call of the shadow was a completion in whose metrics no
      baseline metric regressed; the difference it returns is that of this completion. */
  lemma PromoteIff(ops: seq<Op>, id: nat)
    requires id < |Run(ops)|
    ensures
      var (s, ending, verdict) := (Run(ops)[id], LatestEnding(ops, id), Promote(Run(ops), id));
      && (verdict.Promoted? <==> ending.CompletedWith? && NoRegression(s.baseline, ending.metrics))
      && (verdict.Promoted? ==> verdict.delta == Delta(s.baseline, ending.metrics))
      && (verdict == NegativeImpact <==> ending.CompletedWith? && !NoRegression(s.baseline, ending.metrics))
  {
    RunAgrees(ops, id);
    var (s, ending) := (Run(ops)[id], LatestEnding(ops, id));
    if ending.CompletedWith? {
      DeltaSign(s.baseline, ending.metrics);
      if s.baseline == map[] {
        assert Delta(s.baseline, ending.metrics) == map[];
      }
    }
  }

  /** A failed shadow can be completed, and then promoted: the lifecycle does not end with a failure. */
  lemma FailureIsNotFinal(metrics: Metrics)
    ensures Promote(Run([Create(map[]), Fail(0, "x"), Complete(0, metrics, "success", 0.0)]), 0).Promoted?
  {
    var ops := [Create(map[]), Fail(0, "x"), Complete(0, metrics, "success", 0.0)];
    assert ops[..2] == [Create(map[]), Fail(0, "x")];
    assert [Create(map[]), Fail(0, "x")][..1] == [Create(map[])];
    assert [Create(map[])][..0] == [];
  }
}

/** Expiry of recommendations. Times are in hours. */
module ExpirySpec {
  import opened Seqs

  datatype Expiry = Expiry(expiresAt: int, expired: bool, extended: nat)

  const DEFAULT_TTL := 720
  const MAX_EXTENSIONS := 3

  datatype Op = Generate(rec: string, now: int, ttl: int) | Extend(rec: string, now: int, hours: int)
      | Check(rec: string, now: int)

  function Ttl(ttl: int): int { if ttl == 0 then DEFAULT_TTL else ttl }

  predicate CanExtend(m: map<string, Expiry>, rec: string) { rec in m && m[rec].extended < MAX_EXTENSIONS }

  function Do(m: map<string, Expiry>, op: Op): map<string, Expiry> {
    match op
    case Generate(rec, now, ttl) => m[rec := Expiry(now + Ttl(ttl), false, 0)]
    case Extend(rec, now, hours) =>
      if CanExtend(m, rec) then m[rec := Expiry(now + hours, false, m[rec].extended + 1)] else m
    case Check(rec, now) => if rec in m then m[rec := m[rec].(expired := now > m[rec].expiresAt)] else m
  }

  function Run(ops: seq<Op>): map<string, Expiry> {
    if ops == [] then map[] else Do(Run(ops[..|ops| - 1]), ops[|ops| - 1])
  }

  predicate IsExpired(m: map<string, Expiry>, rec: string, now: int) { rec in m && now > m[rec].expiresAt }

  /** Successful extensions of a recommendation since it was last explained. */
  function Extensions(ops: seq<Op>, rec: string): nat {
    if ops == [] then 0
    else
      var (front, op) := (ops[..|ops| - 1], ops[|ops| - 1]);
      if op.rec != rec then Extensions(front, rec)
      else
        match op
        case Generate(_, _, _) => 0
        case Extend(_, _, _) => Extensions(front, rec) + (if CanExtend(Run(front), rec) then 1 else 0)
        case Check(_, _) => Extensions(front, rec)
  }

  /** When a recommendation runs out: set by its latest explanation or successful extension. */
  function Deadline(ops: seq<Op>, rec: string): Option<int> {
    if ops == [] then None
    else
      var (front, op) := (ops[..|ops| - 1], ops[|ops| - 1]);
      if op.rec != rec then Deadline(front, rec)
      else
        match op
        case Generate(_, now, ttl) => Some(now + Ttl(ttl))
        case Extend(_, now, hours) => if CanExtend(Run(front), rec) then Some(now + hours) else Deadline(front, rec)
        case Check(_, _) => Deadline(front, rec)
  }

  /** In every run the counter is exact, never passes three, and the stored deadline is the latest one granted. */
  lemma {:induction false} ExtensionsBounded(ops: seq<Op>, rec: string)
    ensures rec in Run(ops) <==> Deadline(ops, rec).Some?
    ensures rec in Run(ops) ==>
      && Run(ops)[rec].extended == Extensions(ops, rec) <= MAX_EXTENSIONS
      && Run(ops)[rec].expiresAt == Deadline(ops, rec).value
    ensures rec !in Run(ops) ==> Extensions(ops, rec) == 0
  {
    if ops != [] {
      ExtensionsBounded(ops[..|ops| - 1], rec);
    }
  }

  /** After any run an extension is granted exactly to a known recommendation with fewer than three since its latest
      explanation. */
  lemma ExtendIff(ops: seq<Op>, rec: string)
    ensures CanExtend(Run(ops), rec) <==> Deadline(ops, rec).Some? && Extensions(ops, rec) < 3
  {
    ExtensionsBounded(ops, rec);
  }

  /** After any run a recommendation has expired exactly when it is known and its latest deadline has passed, not merely
      been reached; the check marks it so, and an explanation or extension clears the mark. */
  lemma ExpiredIff(ops: seq<Op>, rec: string, now: int, hours: int)
    ensures IsExpired(Run(ops), rec, now) <==> Deadline(ops, rec).Some? && Deadline(ops, rec).value < now
    ensures rec in Run(ops) ==>
      && Deadline(ops, rec).Some? && rec in Do(Run(ops), Check(rec, now))
      && (Do(Run(ops), Check(rec, now))[rec].expired <==> Deadline(ops, rec).value < now)
      && (CanExtend(Run(ops), rec) ==> !Do(Run(ops), Extend(rec, now, hours))[rec].expired)
    ensures !Do(Run(ops), Generate(rec, now, hours))[rec].expired
  {
    ExtensionsBounded(ops, rec);
  }

  /** An explanation lasts 720 hours unless it says otherwise. */
  lemma DefaultDeadline(ops: seq<Op>, rec: string, now: int, ttl: int)
    ensures Deadline(ops + [Generate(rec, now, ttl)], rec) == Some(if ttl != 0 then now + ttl else now + 720)
  {
  }
}

module ShadowService {
  import opened Seqs
  import S = ShadowSpec
  import E = ExpirySpec

  class ExplanationService {
    var shadows: seq<S.Shadow>
    var expiries: map<string, E.Expiry>

    constructor ()
      ensures shadows == S.Run([]) && expiries == E.Run([])
    {
      shadows, expiries := [], map[];
    }

    method GenerateExplanation(rec: string, now: int, ttl: int)
      modifies this`expiries
      ensures expiries == E.Do(old(expiries), E.Generate(rec, now, ttl))
    {
      expiries := expiries[rec := E.Expiry(now + (if ttl == 0 then E.DEFAULT_TTL else ttl), false, 0)];
    }

    method CheckExpiry(rec: string, now: int) returns (expired: bool)
      modifies this`expiries
      ensures expiries == E.Do(old(expiries), E.Check(rec, now))
      ensures expired <==> E.IsExpired(old(expiries), rec, now)
    {
      if rec !in expiries { return false; }
      expired := now > expiries[rec].expiresAt;
      expiries := expiries[rec := expiries[rec].(expired := expired)];
    }

    method ExtendExpiry(rec: string, now: int, hours: int) returns (ok: bool)
      modifies this`expiries
      ensures expiries == E.Do(old(expiries), E.Extend(rec, now, hours))
      ensures ok <==> E.CanExtend(old(expiries), rec)
    {
      if rec !in expiries || expiries[rec].extended >= E.MAX_EXTENSIONS { return false; }
      expiries := expiries[rec := E.Expiry(now + hours, false, expiries[rec].extended + 1)];
      ok := true;
    }

    method CreateShadow(baseline: S.Metrics) returns (id: nat)
      modifies this`shadows
      ensures shadows == S.Do(old(shadows), S.Create(baseline)) && id == |old(shadows)|
    {
      id := |shadows|;
      shadows := shadows + [S.Shadow(S.Waiting, baseline, map[], map[], "", 0.0)];
    }

    method StartShadow(id: nat) returns (ok: bool)
      modifies this`shadows
      ensures shadows == S.Do(old(shadows), S.Start(id))
      ensures ok <==> id < |old(shadows)| && old(shadows)[id].status == S.Waiting
    {
      if id >= |shadows| || shadows[id].status != S.Waiting { return false; }
      shadows := shadows[id := shadows[id].(status := S.Running)];
      ok := true;
    }

    method CompleteShadow(id: nat, metrics: S.Metrics, outcome: string, confidence: real) returns (ok: bool)
      modifies this`shadows
      ensures shadows == S.Do(old(shadows), S.Complete(id, metrics, outcome, confidence))
      ensures ok <==> id < |old(shadows)|
    {
      if id >= |shadows| { return false; }
      var shadow := shadows[id].(status := S.Completed, measured := metrics, outcome := outcome,
                                 confidence := if confidence == 0.0 then 0.8 else confidence);
      if shadow.baseline != map[] {
        shadow := shadow.(delta := map k | k in shadow.baseline :: S.Value(metrics, k) - shadow.baseline[k]);
      }
      shadows := shadows[id := shadow];
      ok := true;
    }

    method FailShadow(id: nat, reason: string) returns (ok: bool)
      modifies this`shadows
      ensures shadows == S.Do(old(shadows), S.Fail(id, reason))
      ensures ok <==> id < |old(shadows)|
    {
      if id >= |shadows| { return false; }
      shadows := shadows[id := shadows[id].(status := S.Failed, outcome := if reason == "" then "failed" else reason)];
      ok := true;
    }

    method PromoteShadow(id: nat) returns (verdict: S.Verdict)
      ensures verdict == S.Promote(shadows, id)
    {
      if id >= |shadows| || shadows[id].status != S.Completed { return S.NotCompleted; }
      if S.AnyNegative(shadows[id].delta) { return S.NegativeImpact; }
      verdict := S.Promoted(shadows[id].delta);
    }
  }
}
