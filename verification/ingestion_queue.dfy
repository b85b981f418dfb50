/** The durable queue as a timed protocol: any number of workers, crashes,
    sweeps and retries over one job table, each database statement one step. */
module IngestionQueue {
  import opened Options
  import opened IngestionJobs

  // ------------------------------------------------------------------------- system

  /** What a live worker is doing with its job: between steps, inside the first
      step of `todo`, or about to record that the run failed. */
  datatype Phase = Idle(begun: bool) | Working | Broken(raised: Option<StepName>)

  datatype Run = Run(job: JobId, todo: seq<Step>, phase: Phase, claimedAt: int)

  /** `retries` holds, per retry request under way, the steps it read of the
      latest job; the request checks for an active job and submits only later.
      `tainted` is history: jobs that were queued, or returned to the queue, with
      a running step. */
  datatype System = System(
    rows: Rows,
    runs: map<WorkerId, Run>,
    retries: map<nat, (string, Option<seq<Step>>)>,
    tainted: set<JobId>,
    now: int)

  datatype Event =
    | Register(id: JobId, datasource: string)
    | ReadLatest(request: nat, source: Option<JobId>, datasource: string)
    | SubmitRetry(request: nat, id: JobId, startFrom: Option<StepName>)
    | Claim(worker: WorkerId, id: JobId)
    | Begin(worker: WorkerId)
    | Complete(worker: WorkerId, skipped: bool)
    | Raise(worker: WorkerId)
    | NoService(worker: WorkerId)
    | FinishWon(worker: WorkerId)
    | FinishLost(worker: WorkerId)
    | Crash(worker: WorkerId)
    | Sweep
    | Tick(elapsed: nat)

  predicate Latest(rows: Rows, source: Option<JobId>, datasource: string) {
    match source
    case None => forall id :: id in rows ==> rows[id].datasource != datasource
    case Some(j) => j in rows && rows[j].datasource == datasource
                    && forall id :: id in rows && rows[id].datasource == datasource
                        ==> rows[id].createdAt <= rows[j].createdAt
  }

  /** When an event can happen. A submission meets both the service's check and
      the unique index: it goes through only if the datasource is not busy. */
  predicate Enabled(s: System, e: Event) {
    match e
    case Register(id, d) => id !in s.rows && !Busy(s.rows, d)
    case ReadLatest(q, src, d) => Latest(s.rows, src, d)
    case SubmitRetry(q, id, k) => q in s.retries && id !in s.rows && !Busy(s.rows, s.retries[q].0)
    case Claim(w, id) => w !in s.runs && id in s.rows && s.rows[id].status == Queued
    case Begin(w) => w in s.runs && s.runs[w].phase.Idle? && s.runs[w].todo != [] && s.runs[w].job in s.rows
    case Complete(w, skipped) => w in s.runs && s.runs[w].phase == Working && s.runs[w].todo != []
        && s.runs[w].job in s.rows && (skipped ==> s.runs[w].todo[0].name == SemanticOverlay)
    case Raise(w) => w in s.runs && s.runs[w].phase == Working && s.runs[w].todo != [] && s.runs[w].job in s.rows
    case NoService(w) => w in s.runs && s.runs[w].phase == Idle(false)
    case FinishWon(w) => w in s.runs && s.runs[w].phase.Idle? && s.runs[w].todo == [] && s.runs[w].job in s.rows
    case FinishLost(w) => w in s.runs && s.runs[w].phase.Broken? && s.runs[w].job in s.rows
    case Crash(w) => w in s.runs
    case Sweep => true
    case Tick(_) => true
  }

  function WriteStep(s: System, w: WorkerId, status: StepStatus): Rows
    requires w in s.runs && s.runs[w].todo != [] && s.runs[w].job in s.rows
  {
    var id := s.runs[w].job;
    s.rows[id := s.rows[id].(steps := Record(s.rows[id].steps, s.runs[w].todo[0].(status := status)))]
  }

  function Finish(s: System, w: WorkerId, won: bool): System
    requires w in s.runs && s.runs[w].job in s.rows
  {
    var id := s.runs[w].job;
    s.(rows := s.rows[id := FinishedJob(s.rows[id], won)], runs := s.runs - {w})
  }

  function Apply(s: System, e: Event, limit: nat): System
    requires Enabled(s, e)
  {
    match e
    case Register(id, d) => Insert(s, id, d, CarryForward(None, None))
    case ReadLatest(q, src, d) =>
      s.(retries := s.retries[q := (d, if src.Some? then Some(s.rows[src.value].steps) else None)])
    case SubmitRetry(q, id, k) => Insert(s, id, s.retries[q].0, CarryForward(k, s.retries[q].1))
    case Claim(w, id) =>
      s.(rows := s.rows[id := Claimed(s.rows[id], w, s.now)],
         runs := s.runs[w := Run(id, Todo(s.rows[id].steps), Idle(false), s.now)])
    case Begin(w) => s.(rows := WriteStep(s, w, Running), runs := s.runs[w := s.runs[w].(phase := Working)])
    case Complete(w, skipped) =>
      s.(rows := WriteStep(s, w, if skipped then Skipped else Succeeded),
         runs := s.runs[w := s.runs[w].(phase := Idle(true), todo := s.runs[w].todo[1..])])
    case Raise(w) =>
      s.(rows := WriteStep(s, w, Failed),
          runs := s.runs[w := s.runs[w].(phase := Broken(Some(s.runs[w].todo[0].name)))])
    case NoService(w) => s.(runs := s.runs[w := s.runs[w].(phase := Broken(None))])
    case FinishWon(w) => Finish(s, w, true)
    case FinishLost(w) => Finish(s, w, false)
    case Crash(w) => s.(runs := s.runs - {w})
    case Sweep =>
      s.(rows := ReleaseStale(s.rows, s.now, limit),
         tainted := s.tainted + set id | id in s.rows && Stale(s.rows[id], s.now, limit)
             && HasRunning(s.rows[id].steps))
    case Tick(d) => s.(now := s.now + d)
  }

  function Insert(s: System, id: JobId, datasource: string, steps: seq<Step>): System {
    s.(rows := s.rows[id := NewJob(datasource, steps, s.now)],
       tainted := if HasRunning(steps) then s.tainted + {id} else s.tainted)
  }

  const EMPTY := System(map[], map[], map[], {}, 0)

  // ---------------------------------------------------------------------- executions

  /** States passed through, from `s` on; an event that is not enabled ends it. */
  ghost predicate Execution(ss: seq<System>, es: seq<Event>, limit: nat) {
    && |ss| == |es| + 1 && ss[0] == EMPTY
    && forall i :: 0 <= i < |es| ==> Enabled(ss[i], es[i]) && ss[i + 1] == Apply(ss[i], es[i], limit)
  }

  /** Every live run is no older than the limit after which a sweep takes its job
      away. It bounds a whole run, because a job's claim time is set once, at the
      claim. */
  predicate Prompt(s: System, limit: nat) {
    forall w :: w in s.runs ==> s.now <= s.runs[w].claimedAt + limit
  }

  /** The timing hypothesis: whenever one of the first `n` events is a sweep, live
      runs are prompt. Between sweeps a run may take as long as it likes. */
  ghost predicate PromptAtSweeps(ss: seq<System>, es: seq<Event>, limit: nat, n: nat)
    requires |ss| == |es| + 1 && n <= |es|
  {
    forall i :: 0 <= i < n && es[i] == Sweep ==> Prompt(ss[i], limit)
  }

  ghost predicate PromptExecution(ss: seq<System>, es: seq<Event>, limit: nat) {
    Execution(ss, es, limit) && PromptAtSweeps(ss, es, limit, |es|)
  }

  // ------------------------------------------------------------------- one active job

  /** At most one queued or running job per datasource: any other has ended. */
  predicate OneActive(rows: Rows) {
    forall a, b ::
      a in rows && b in rows && rows[a].datasource == rows[b].datasource ==>
        a == b || rows[a].status in {Won, Lost} || rows[b].status in {Won, Lost}
  }

  /** A registration is refused only for a job id that is taken, or while some job of the
      same datasource has not ended. */
  lemma RefusedExactly(s: System, id: JobId, datasource: string)
    ensures Enabled(s, Register(id, datasource)) <==>
      id !in s.rows && forall k :: k in s.rows && s.rows[k].datasource == datasource ==> s.rows[k].status in {Won, Lost}
  {
    if Busy(s.rows, datasource) {
      var k :| k in s.rows && s.rows[k].datasource == datasource && Live(s.rows[k]);
      assert s.rows[k].status !in {Won, Lost};
    }
  }

  /** A retry reads a job of its datasource that none of the datasource is younger than,
      and none only if the datasource has no job. */
  lemma RetryReadsTheLatest(s: System, request: nat, source: Option<JobId>, datasource: string)
    ensures Enabled(s, ReadLatest(request, source, datasource)) <==>
      if source.None? then forall k :: k in s.rows ==> s.rows[k].datasource != datasource
      else && source.value in s.rows && s.rows[source.value].datasource == datasource
           && !exists k :: k in s.rows && s.rows[k].datasource == datasource
                           && s.rows[k].createdAt > s.rows[source.value].createdAt
  {
  }

  lemma OneActiveStep(s: System, e: Event, limit: nat)
    requires OneActive(s.rows) && Enabled(s, e)
    ensures OneActive(Apply(s, e, limit).rows)
  {
    hide CarryForward, Record, Todo, FirstFailed, HasRunning;
    match e
    case Sweep => assert forall id :: id in s.rows ==> Live(Apply(s, e, limit).rows[id]) == Live(s.rows[id]);
    case _ =>
  }

  /** Under any interleaving, stale workers included and with no hypothesis on
      time, a datasource never has two jobs queued or running. */
  lemma {:induction false} AlwaysOneActive(ss: seq<System>, es: seq<Event>, limit: nat, i: nat)
    requires Execution(ss, es, limit) && i < |ss|
    ensures OneActive(ss[i].rows)
  {
    if i > 0 {
      AlwaysOneActive(ss, es, limit, i - 1);
      OneActiveStep(ss[i - 1], es[i - 1], limit);
    }
  }

  // ----------------------------------------------------------- one job and its worker

  function Names(todo: seq<Step>): set<StepName> { set t | t in todo :: t.name }

  /** Where one recorded step stands with respect to the run that holds the job. */
  predicate FitsStep(run: Run, st: Step) {
    if st.name !in Names(run.todo) then
      st.status == Running || (Done(st) && (run.todo != [] ==> Rank(st.name) < Rank(run.todo[0].name)))
    else if st.name != run.todo[0].name then st.status == Pending
    else
      match run.phase
      case Idle(_) => Unfinished(st)
      case Working => st.status == Running
      case Broken(None) => Unfinished(st)
      case Broken(Some(n)) => st.status == Failed && n == st.name
  }

  predicate Fits(run: Run, steps: seq<Step>) {
    && InOrder(run.todo)
    && (run.phase == Working || (run.phase.Broken? && run.phase.raised.Some?) ==> run.todo != [])
    && (forall t :: t in run.todo ==> exists i :: 0 <= i < |steps| && steps[i].name == t.name)
    && (forall i :: 0 <= i < |steps| ==> FitsStep(run, steps[i]))
  }

  /** No step but the worker's own is recorded as running. */
  predicate NothingElseRuns(run: Run, steps: seq<Step>) {
    forall i :: 0 <= i < |steps| && steps[i].name !in Names(run.todo) ==> Done(steps[i])
  }

  lemma HeadIsLeast(todo: seq<Step>, n: StepName)
    requires InOrder(todo) && todo != [] && n in Names(todo) && n != todo[0].name
    ensures Rank(todo[0].name) < Rank(n)
  {
    var t :| t in todo && t.name == n;
    var j :| 0 <= j < |todo| && todo[j] == t;
  }

  lemma FitsIsStaged(run: Run, steps: seq<Step>)
    requires Fits(run, steps) && InOrder(steps)
    ensures Staged(steps) && (NothingElseRuns(run, steps) ==> Shaped(steps))
  {
    hide Rank, Names;
    forall i, j | 0 <= i < j < |steps| && (steps[i].status != Running || NothingElseRuns(run, steps))
        && (steps[j].status != Running || NothingElseRuns(run, steps))
      ensures Done(steps[i]) || steps[j].status == Pending
    {
      if steps[i].name in Names(run.todo) {
        TodoNotEmpty(run.todo, steps[i].name);
        if steps[i].name != run.todo[0].name { HeadIsLeast(run.todo, steps[i].name); }
      }
    }
  }

  lemma TodoNotEmpty(todo: seq<Step>, n: StepName)
    requires n in Names(todo)
    ensures todo != []
  {
  }

  lemma {:induction false} TodoInOrder(steps: seq<Step>)
    requires InOrder(steps)
    ensures InOrder(Todo(steps))
    ensures forall t ::
        t in Todo(steps) && steps != [] && steps[0] !in Todo(steps) ==> Rank(steps[0].name) < Rank(t.name)
  {
    hide Rank;
    if steps != [] {
      TodoInOrder(steps[1..]);
      var rest := Todo(steps[1..]);
      forall t | t in rest ensures Rank(steps[0].name) < Rank(t.name)
      {
        var j :| 0 <= j < |steps[1..]| && steps[1..][j] == t;
        assert steps[j + 1] == t;
      }
    }
  }

  lemma TodoNames(steps: seq<Step>, i: nat)
    requires InOrder(steps) && i < |steps|
    ensures steps[i].name in Names(Todo(steps)) <==> Unfinished(steps[i])
  {
    hide Rank, Todo;
    var todo := Todo(steps);
    if Unfinished(steps[i]) { assert steps[i] in todo; }
    if steps[i].name in Names(todo) {
      var t :| t in todo && t.name == steps[i].name;
      var j :| 0 <= j < |steps| && steps[j] == t;
      SameName(steps, i, j);
    }
  }

  lemma SameName(steps: seq<Step>, i: nat, j: nat)
    requires InOrder(steps) && i < |steps| && j < |steps| && steps[i].name == steps[j].name
    ensures i == j
  {
  }

  lemma ClaimFitsStep(steps: seq<Step>, run: Run, i: nat)
    requires InOrder(steps) && Staged(steps) && i < |steps|
    requires run.todo == Todo(steps) && run.phase == Idle(false) && InOrder(run.todo)
    ensures FitsStep(run, steps[i])
  {
    hide Rank, Todo, Names;
    TodoNames(steps, i);
    if run.todo != [] {
      assert run.todo[0] in run.todo;
      var k :| 0 <= k < |steps| && steps[k] == run.todo[0];
      TodoNames(steps, k);
      if steps[i].name in Names(run.todo) && steps[i].name != run.todo[0].name {
        HeadIsLeast(run.todo, steps[i].name);
        assert k < i;
      }
      if Done(steps[i]) { assert i < k; }
    }
  }

  /** Claiming a job fits its steps, whatever an earlier worker left. */
  lemma ClaimFits(steps: seq<Step>, id: JobId, now: int)
    requires InOrder(steps) && Staged(steps)
    ensures var run := Run(id, Todo(steps), Idle(false), now);
            Fits(run, steps) && (!HasRunning(steps) ==> NothingElseRuns(run, steps))
    ensures forall i :: 0 <= i < |steps| && steps[i].status == Running ==> steps[i].name !in Names(Todo(steps))
  {
    hide Rank, Todo, Names, FitsStep;
    var todo := Todo(steps);
    var run := Run(id, todo, Idle(false), now);
    TodoInOrder(steps);
    forall i | 0 <= i < |steps|
      ensures FitsStep(run, steps[i]) && (steps[i].name in Names(todo) <==> Unfinished(steps[i]))
    {
      ClaimFitsStep(steps, run, i);
      TodoNames(steps, i);
    }
    forall t | t in todo ensures exists i :: 0 <= i < |steps| && steps[i].name == t.name
    {
      var j :| 0 <= j < |steps| && steps[j] == t;
    }
  }

  // ------------------------------------------------------------------- step reports

  lemma RecordAt(steps: seq<Step>, step: Step)
    requires InOrder(steps) && exists i :: 0 <= i < |steps| && steps[i].name == step.name
    ensures var r := Record(steps, step);
            && |r| == |steps| && InOrder(r)
            && forall i :: 0 <= i < |steps| ==> r[i] == if steps[i].name == step.name then step else steps[i]
  {
    hide Rank;
  }

  /** The run after its worker reported `status` for the first step to do. */
  function Reported(run: Run, status: StepStatus): Run
    requires run.todo != []
  {
    match status
    case Running => run.(phase := Working)
    case Failed => run.(phase := Broken(Some(run.todo[0].name)))
    case _ => run.(phase := Idle(true), todo := run.todo[1..])
  }

  lemma NamesOfTail(todo: seq<Step>)
    requires InOrder(todo) && todo != []
    ensures Names(todo[1..]) == Names(todo) - {todo[0].name}
    ensures InOrder(todo[1..]) && todo[0].name in Names(todo)
    ensures |todo| > 1 ==> Rank(todo[0].name) < Rank(todo[1].name)
  {
    hide Rank;
    assert todo == [todo[0]] + todo[1..];
    forall t | t in todo[1..] ensures t.name != todo[0].name
    {
      var j :| 0 <= j < |todo[1..]| && todo[1..][j] == t;
      assert todo[j + 1] == t;
    }
  }

  lemma ReportFitsStep(run: Run, st: Step, status: StepStatus)
    requires run.todo != [] && InOrder(run.todo) && FitsStep(run, st) && status != Pending
    ensures FitsStep(Reported(run, status), if st.name == run.todo[0].name then run.todo[0].(status := status) else st)
  {
    hide Rank, Names;
    NamesOfTail(run.todo);
    if |run.todo| > 1 && st.name in Names(run.todo) && st.name != run.todo[0].name && st.name != run.todo[1].name {
      HeadIsLeast(run.todo[1..], st.name);
    }
  }

  /** Every report of a worker keeps run and steps in agreement. */
  lemma ReportFits(run: Run, steps: seq<Step>, status: StepStatus)
    requires Fits(run, steps) && InOrder(steps) && run.todo != [] && status != Pending
    ensures var r := Record(steps, run.todo[0].(status := status));
            && InOrder(r) && Fits(Reported(run, status), r)
            && (NothingElseRuns(run, steps) ==> NothingElseRuns(Reported(run, status), r))
            && |r| == |steps|
            && forall i :: 0 <= i < |steps| && steps[i].name !in Names(run.todo) ==> r[i] == steps[i]
  {
    hide Rank, Names, FitsStep, Record;
    var head := run.todo[0].(status := status);
    assert run.todo[0] in run.todo;
    RecordAt(steps, head);
    NamesOfTail(run.todo);
    var r := Record(steps, head);
    forall i | 0 <= i < |r| ensures FitsStep(Reported(run, status), r[i])
    {
      ReportFitsStep(run, steps[i], status);
    }
    forall t | t in Reported(run, status).todo ensures exists i :: 0 <= i < |r| && r[i].name == t.name
    {
      assert t in run.todo;
      var i :| 0 <= i < |steps| && steps[i].name == t.name;
      assert r[i].name == t.name;
    }
  }
}
