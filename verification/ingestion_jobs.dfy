/** Ingestion jobs and the table that doubles as their queue:
    `ingestion_job.py`, `onboarding_service.py`, `ingestion_service.py`,
    `ingestion_job_repository.py` and one pass of `worker.py`. */
module IngestionJobs {
  import opened Options

  // ------------------------------------------------------------------------- steps

  datatype StepName =
    | SchemaRegistration | Discovery | SemanticOverlay | SemanticCompile | GraphAnalysis | DomainDiscovery

  datatype StepStatus = Pending | Running | Succeeded | Skipped | Failed

  datatype Step = Step(name: StepName, status: StepStatus)

  const STEP_COUNT := 6

  /** A step's place in `STEP_SEQUENCE`. */
  function Rank(n: StepName): (r: nat)
    ensures r < STEP_COUNT
  {
    match n
    case SchemaRegistration => 0
    case Discovery => 1
    case SemanticOverlay => 2
    case SemanticCompile => 3
    case GraphAnalysis => 4
    case DomainDiscovery => 5
  }

  /** `STEP_SEQUENCE[k]` */
  function NameAt(k: nat): (n: StepName)
    requires k < STEP_COUNT
    ensures Rank(n) == k
  {
    match k
    case 0 => SchemaRegistration
    case 1 => Discovery
    case 2 => SemanticOverlay
    case 3 => SemanticCompile
    case 4 => GraphAnalysis
    case _ => DomainDiscovery
  }

  predicate Done(s: Step) { s.status == Succeeded || s.status == Skipped }

  /** Pending or failed: what a worker takes up. */
  predicate Unfinished(s: Step) { s.status == Pending || s.status == Failed }

  predicate AllDone(steps: seq<Step>) { forall i :: 0 <= i < |steps| ==> Done(steps[i]) }

  predicate HasRunning(steps: seq<Step>) { exists i :: 0 <= i < |steps| && steps[i].status == Running }

  /** Each step at most once, in the sequence's order. */
  predicate InOrder(steps: seq<Step>) {
    forall i, j :: 0 <= i < j < |steps| ==> Rank(steps[i].name) < Rank(steps[j].name)
  }

  /** done*, then at most one failed, then pending*, running steps left aside. */
  predicate Staged(steps: seq<Step>) {
    forall i, j :: 0 <= i < j < |steps| && steps[i].status != Running && steps[j].status != Running ==>
      Done(steps[i]) || steps[j].status == Pending
  }

  /** done*, then at most one running or failed, then pending*. */
  predicate Shaped(steps: seq<Step>) {
    forall i, j :: 0 <= i < j < |steps| ==> Done(steps[i]) || steps[j].status == Pending
  }

  /** `pending_steps` */
  function PendingFrom(k: nat): (r: seq<Step>)
    requires k <= STEP_COUNT
    ensures |r| == STEP_COUNT - k
    ensures forall i :: 0 <= i < |r| ==> r[i] == Step(NameAt(k + i), Pending)
  {
    seq(STEP_COUNT - k, i requires 0 <= i < STEP_COUNT - k => Step(NameAt(k + i), Pending))
  }

  /** The steps of an earlier job that come before `k` in the sequence. */
  function Kept(steps: seq<Step>, k: nat): (r: seq<Step>)
    ensures forall s :: s in r <==> s in steps && Rank(s.name) < k
  {
    if steps == [] then []
    else (if Rank(steps[0].name) < k then [steps[0]] else []) + Kept(steps[1..], k)
  }

  /** `_carry_forward` */
  function CarryForward(startFrom: Option<StepName>, previous: Option<seq<Step>>): seq<Step> {
    var k := if startFrom.Some? then Rank(startFrom.value) else 0;
    if startFrom.None? || previous.None? then PendingFrom(k)
    else Kept(previous.value, k) + PendingFrom(k)
  }

  /** The read-modify-write of `record_step`. */
  function Record(steps: seq<Step>, step: Step): seq<Step> {
    var replaced := seq(|steps|, i requires 0 <= i < |steps| => if steps[i].name == step.name then step else steps[i]);
    if forall i :: 0 <= i < |steps| ==> steps[i].name != step.name then replaced + [step] else replaced
  }

  /** The steps a worker that claims the job will run. */
  function Todo(steps: seq<Step>): (r: seq<Step>)
    ensures forall s :: s in r <==> s in steps && Unfinished(s)
  {
    if steps == [] then []
    else (if Unfinished(steps[0]) then [steps[0]] else []) + Todo(steps[1..])
  }

  /** First step recorded as failed. */
  function FirstFailed(steps: seq<Step>): Option<StepName> {
    if steps == [] then None
    else if steps[0].status == Failed then Some(steps[0].name)
    else FirstFailed(steps[1..])
  }

  // -------------------------------------------------------------------------- jobs

  datatype JobStatus = Queued | Active | Won | Lost

  type JobId = nat
  type WorkerId = nat

  datatype Job = Job(
    datasource: string,
    status: JobStatus,
    steps: seq<Step>,
    errorStep: Option<StepName>,
    createdAt: int,
    claimedBy: Option<WorkerId>,
    claimedAt: int)

  type Rows = map<JobId, Job>

  /** Queued or running, as the partial unique index has it. */
  predicate Live(j: Job) { j.status == Queued || j.status == Active }

  predicate Busy(rows: Rows, datasource: string) {
    exists id :: id in rows && rows[id].datasource == datasource && Live(rows[id])
  }

  function NewJob(datasource: string, steps: seq<Step>, now: int): Job {
    Job(datasource, Queued, steps, None, now, None, 0)
  }

  function Claimed(j: Job, w: WorkerId, now: int): Job {
    j.(status := Active, claimedBy := Some(w), claimedAt := now)
  }

  function FinishedJob(j: Job, won: bool): Job {
    j.(status := if won then Won else Lost, errorStep := if won then None else FirstFailed(j.steps))
  }

  predicate Stale(j: Job, now: int, limit: nat) { j.status == Active && j.claimedAt < now - limit }

  function ReleasedJob(j: Job): Job { j.(status := Queued, claimedBy := None, claimedAt := 0) }

  function ReleaseStale(rows: Rows, now: int, limit: nat): Rows {
    map id | id in rows :: if Stale(rows[id], now, limit) then ReleasedJob(rows[id]) else rows[id]
  }

  // ---------------------------------------------------------------------- progress

  function Halves(steps: seq<Step>): nat {
    if steps == [] then 0
    else (if Done(steps[0]) then 2 else if steps[0].status == Running then 1 else 0) + Halves(steps[1..])
  }

  /** `progress` */
  function Progress(j: Job): real {
    var p := Halves(j.steps) as real / 12.0;
    if j.status == Won then 1.0 else if p <= 1.0 then p else 1.0
  }

  // ------------------------------------------------------------------ carry forward

  lemma {:induction false} KeptOfOrdered(steps: seq<Step>, k: nat)
    requires InOrder(steps)
    ensures Kept(steps, k) <= steps
    ensures forall i :: |Kept(steps, k)| <= i < |steps| ==> Rank(steps[i].name) >= k
  {
    hide Rank;
    if steps != [] {
      var rest := steps[1..];
      assert forall i :: 0 <= i < |rest| ==> rest[i] == steps[i + 1];
      if Rank(steps[0].name) < k {
        KeptOfOrdered(rest, k);
        assert Kept(steps, k) == [steps[0]] + Kept(rest, k);
        assert forall i :: |Kept(steps, k)| <= i < |steps| ==> steps[i] == rest[i - 1];
      } else {
        assert forall i :: 0 <= i < |rest| ==> Rank(rest[i].name) >= k;
        KeptOfLater(rest, k);
      }
    }
  }

  lemma {:induction false} KeptOfLater(steps: seq<Step>, k: nat)
    requires forall s :: s in steps ==> Rank(s.name) >= k
    ensures Kept(steps, k) == []
  {
    if steps != [] { KeptOfLater(steps[1..], k); }
  }

  lemma CarriedAt(startFrom: StepName, previous: seq<Step>)
    requires InOrder(previous)
    ensures var k, kept, r := Rank(startFrom), Kept(previous, Rank(startFrom)),
        CarryForward(Some(startFrom), Some(previous));
            && |kept| <= |previous| && |r| == |kept| + STEP_COUNT - k
            && (forall i :: 0 <= i < |kept| ==> r[i] == previous[i] && Rank(r[i].name) < k)
            && (forall i :: |kept| <= i < |r| ==> r[i] == Step(NameAt(k + i - |kept|), Pending))
            && (forall i :: |kept| <= i < |previous| ==> Rank(previous[i].name) >= k)
  {
    hide Rank, NameAt, Kept, InOrder;
    var k := Rank(startFrom);
    var kept := Kept(previous, k);
    KeptOfOrdered(previous, k);
    assert forall i :: 0 <= i < |kept| ==> kept[i] in kept && kept[i] == previous[i];
  }

  /** A job queued behind another is in order again; unless it inherits a running
      step it has the shape, and the shape of its finished part is inherited. */
  lemma CarryForwardIsStaged(startFrom: Option<StepName>, previous: Option<seq<Step>>)
    requires previous.Some? ==> InOrder(previous.value) && Staged(previous.value)
    ensures var r := CarryForward(startFrom, previous);
            InOrder(r) && Staged(r) && (!HasRunning(r) ==> Shaped(r))
  {
    var r := CarryForward(startFrom, previous);
    if startFrom.Some? && previous.Some? {
      hide Rank, NameAt, Kept, CarryForward;
      CarriedAt(startFrom.value, previous.value);
    } else {
      hide Rank, NameAt;
    }
  }

  /** All six steps, in order. */
  predicate Full(steps: seq<Step>) {
    |steps| == STEP_COUNT && forall i :: 0 <= i < STEP_COUNT ==> Rank(steps[i].name) == i
  }

  /** Down a chain of retries that began with a full run every job lists all six
      steps: those before the start as the previous job left them, the others
      pending; and a worker runs exactly the latter and what was unfinished. */
  lemma RetryKeepsAllSteps(startFrom: Option<StepName>, previous: seq<Step>)
    requires Full(previous)
    ensures var k := if startFrom.Some? then Rank(startFrom.value) else 0;
            var r := CarryForward(startFrom, Some(previous));
            && Full(r)
            && (forall i :: 0 <= i < k ==> r[i] == previous[i])
            && (forall i :: k <= i < STEP_COUNT ==> r[i].status == Pending)
            && (forall i :: 0 <= i < STEP_COUNT ==> (r[i] in Todo(r) <==> i >= k || Unfinished(previous[i])))
  {
    hide Rank, NameAt, Kept, Todo;
    if startFrom.Some? {
      CarriedAt(startFrom.value, previous);
      var k, kept := Rank(startFrom.value), Kept(previous, Rank(startFrom.value));
      assert forall i :: 0 <= i < STEP_COUNT ==> Rank(previous[i].name) == i;
      var n := |kept|;
      assert n < STEP_COUNT ==> Rank(previous[n].name) == n;
      assert Rank(previous[k].name) == k;
    }
  }

  lemma {:induction false} HalvesBounded(steps: seq<Step>)
    ensures Halves(steps) <= 2 * |steps|
    ensures Halves(steps) == 2 * |steps| <==> AllDone(steps)
  {
    if steps != [] {
      HalvesBounded(steps[1..]);
      assert AllDone(steps) <==> Done(steps[0]) && AllDone(steps[1..]);
    }
  }

  lemma {:induction false} HalvesMove(steps: seq<Step>, i: nat, status: StepStatus)
    requires i < |steps|
    ensures var one := steps[i].(status := status);
            Halves(steps[i := one]) - Halves([one]) == Halves(steps) - Halves([steps[i]])
  {
    if i > 0 {
      HalvesMove(steps[1..], i - 1, status);
      assert steps[i := steps[i].(status := status)][1..] == steps[1..][i - 1 := steps[i].(status := status)];
    } else {
      var one := steps[0].(status := status);
      assert steps[0 := one][1..] == steps[1..] && [one][1..] == [] && [steps[0]][1..] == [];
    }
  }

  lemma {:induction false} PendingWeighsNothing(steps: seq<Step>)
    requires forall i :: 0 <= i < |steps| ==> steps[i].status == Pending
    ensures Halves(steps) == 0
  {
    if steps != [] { PendingWeighsNothing(steps[1..]); }
  }

  /** Progress starts at 0, and each of the two reports that take a step from its start to
      its end moves it on by a twelfth; a step that raises gives its half back. */
  lemma ProgressMoves(j: Job, i: nat, done: StepStatus)
    requires Full(j.steps) && j.status != Won && i < |j.steps| && (done == Succeeded || done == Skipped)
    ensures (forall k :: 0 <= k < |j.steps| ==> j.steps[k].status == Pending) ==> Progress(j) == 0.0
    ensures Unfinished(j.steps[i]) ==>
      Progress(j.(steps := j.steps[i := j.steps[i].(status := Running)])) == Progress(j) + 1.0 / 12.0
    ensures j.steps[i].status == Running ==>
      && Progress(j.(steps := j.steps[i := j.steps[i].(status := done)])) == Progress(j) + 1.0 / 12.0
      && Progress(j.(steps := j.steps[i := j.steps[i].(status := Failed)])) == Progress(j) - 1.0 / 12.0
  {
    HalvesBounded(j.steps);
    forall status ensures Halves(j.steps[i := j.steps[i].(status := status)]) <= 12 {
      HalvesBounded(j.steps[i := j.steps[i].(status := status)]);
    }
    HalvesMove(j.steps, i, Running);
    HalvesMove(j.steps, i, done);
    HalvesMove(j.steps, i, Failed);
    assert forall s: Step :: [s][1..] == [];
    if forall k :: 0 <= k < |j.steps| ==> j.steps[k].status == Pending { PendingWeighsNothing(j.steps); }
  }

  /** Progress stays within [0, 1] and, on a full job, is 1 exactly when the job
      won or nothing is left to do. */
  lemma ProgressIsAFraction(j: Job)
    ensures 0.0 <= Progress(j) <= 1.0
    ensures Full(j.steps) ==> (Progress(j) == 1.0 <==> j.status == Won || AllDone(j.steps))
  {
    HalvesBounded(j.steps);
  }
}
