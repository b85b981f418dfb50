/** What holds in every state of an execution whose sweeps find live runs prompt. */
module IngestionProtocol {
  import opened Options
  import opened IngestionJobs
  import opened IngestionQueue

  // ---------------------------------------------------------------------- invariant

  /** A running step of the job that no worker will ever come back to. */
  predicate Stuck(s: System, id: JobId)
    requires id in s.rows
  {
    exists i :: 0 <= i < |s.rows[id].steps| && s.rows[id].steps[i].status == Running
      && forall w :: w in s.runs && s.runs[w].job == id ==> s.rows[id].steps[i].name !in Names(s.runs[w].todo)
  }

  predicate JobOk(s: System, id: JobId)
    requires id in s.rows
  {
    var j := s.rows[id];
    && InOrder(j.steps) && Staged(j.steps)
    && (if id in s.tainted then Stuck(s, id)
        else Shaped(j.steps) && (j.status != Active ==> !HasRunning(j.steps)) && (j.status == Won ==> AllDone(j.steps)))
  }

  /** A live run owns its job: the row is active under this worker's claim. */
  predicate RunOk(s: System, w: WorkerId)
    requires w in s.runs
  {
    var run := s.runs[w];
    && run.job in s.rows
    && s.rows[run.job].status == Active && s.rows[run.job].claimedBy == Some(w)
        && s.rows[run.job].claimedAt == run.claimedAt
    && Fits(run, s.rows[run.job].steps)
    && (run.job !in s.tainted ==> NothingElseRuns(run, s.rows[run.job].steps))
  }

  predicate Inv(s: System) {
    && (forall id :: id in s.tainted ==> id in s.rows)
    && (forall id :: id in s.rows ==> JobOk(s, id))
    && (forall w :: w in s.runs ==> RunOk(s, w))
    && (forall q :: q in s.retries && s.retries[q].1.Some? ==>
          InOrder(s.retries[q].1.value) && Staged(s.retries[q].1.value))
  }

  // ------------------------------------------------------------- one event at a time

  lemma InsertKeeps(s: System, id: JobId, datasource: string, steps: seq<Step>)
    requires Inv(s) && id !in s.rows && InOrder(steps) && Staged(steps) && (!HasRunning(steps) ==> Shaped(steps))
    ensures Inv(Insert(s, id, datasource, steps))
  {
    hide InOrder, Staged, Shaped, Fits, NothingElseRuns, AllDone;
    var s' := Insert(s, id, datasource, steps);
    assert forall w :: w in s.runs ==> s.runs[w].job != id;
    if HasRunning(steps) {
      var i :| 0 <= i < |steps| && steps[i].status == Running;
      assert s'.rows[id].steps[i].status == Running;
      assert Stuck(s', id);
    }
    forall k | k in s'.rows ensures JobOk(s', k)
    {
      if k != id { assert JobOk(s, k); }
    }
    forall w | w in s'.runs ensures RunOk(s', w) { assert RunOk(s, w); }
  }

  lemma ClaimKeeps(s: System, w: WorkerId, id: JobId, limit: nat)
    requires Inv(s) && Enabled(s, Claim(w, id))
    ensures Inv(Apply(s, Claim(w, id), limit))
  {
    hide InOrder, Staged, Shaped, Fits, NothingElseRuns, AllDone, Names, HasRunning;
    var s' := Apply(s, Claim(w, id), limit);
    assert JobOk(s, id);
    ClaimFits(s.rows[id].steps, id, s.now);
    forall v | v in s'.runs ensures RunOk(s', v)
    {
      if v != w { assert RunOk(s, v); }
    }
    forall k | k in s'.rows ensures JobOk(s', k)
    {
      assert JobOk(s, k);
      if k in s.tainted {
        var i :| 0 <= i < |s.rows[k].steps| && s.rows[k].steps[i].status == Running
          && forall v :: v in s.runs && s.runs[v].job == k ==> s.rows[k].steps[i].name !in Names(s.runs[v].todo);
        assert s'.rows[k].steps[i].status == Running;
        assert Stuck(s', k);
      }
    }
  }

  /** Begin, complete and raise all report one step. */
  lemma ReportKeeps(s: System, w: WorkerId, status: StepStatus, s': System)
    requires Inv(s) && w in s.runs && s.runs[w].todo != [] && s.runs[w].job in s.rows && status != Pending
    requires s' == s.(rows := WriteStep(s, w, status), runs := s.runs[w := Reported(s.runs[w], status)])
    ensures Inv(s')
  {
    hide InOrder, Staged, Shaped, Fits, NothingElseRuns, AllDone, Names, HasRunning, Record;
    var run := s.runs[w];
    var id := run.job;
    var steps := s.rows[id].steps;
    assert RunOk(s, w) && JobOk(s, id);
    ReportFits(run, steps, status);
    FitsIsStaged(Reported(run, status), s'.rows[id].steps);
    forall v | v in s'.runs ensures RunOk(s', v)
    {
      assert RunOk(s, v);
    }
    forall k | k in s'.rows ensures JobOk(s', k)
    {
      assert JobOk(s, k);
      if k in s.tainted {
        var i :| 0 <= i < |s.rows[k].steps| && s.rows[k].steps[i].status == Running
          && forall v :: v in s.runs && s.runs[v].job == k ==> s.rows[k].steps[i].name !in Names(s.runs[v].todo);
        if k == id { StillOutside(run, steps, status, steps[i].name); }
        assert s'.rows[k].steps[i] == s.rows[k].steps[i];
        assert Stuck(s', k);
      }
    }
  }

  lemma StillOutside(run: Run, steps: seq<Step>, status: StepStatus, n: StepName)
    requires run.todo != [] && Fits(run, steps) && n !in Names(run.todo)
    ensures n !in Names(Reported(run, status).todo)
  {
    NamesOfTail(run.todo);
  }

  lemma NoServiceFits(run: Run, steps: seq<Step>)
    requires run.phase.Idle? && Fits(run, steps)
    ensures var run' := run.(phase := Broken(None));
            Fits(run', steps) && (NothingElseRuns(run, steps) ==> NothingElseRuns(run', steps))
  {
    hide InOrder, Names, Rank;
    var run' := run.(phase := Broken(None));
    forall i | 0 <= i < |steps| ensures FitsStep(run', steps[i]) { assert FitsStep(run, steps[i]); }
  }

  lemma NoServiceKeeps(s: System, w: WorkerId, limit: nat)
    requires Inv(s) && Enabled(s, NoService(w))
    ensures Inv(Apply(s, NoService(w), limit))
  {
    hide InOrder, Staged, Shaped, AllDone, Names, HasRunning, Fits, NothingElseRuns;
    var s' := Apply(s, NoService(w), limit);
    forall v | v in s'.runs ensures RunOk(s', v)
    {
      assert RunOk(s, v);
      if v == w { NoServiceFits(s.runs[w], s.rows[s.runs[w].job].steps); }
    }
    forall k | k in s'.rows ensures JobOk(s', k)
    {
      assert JobOk(s, k);
      if k in s.tainted { SameTodoStuck(s, s', k); }
    }
  }

  /** A stuck step stays stuck while its job's steps do and no run gains names. */
  lemma SameTodoStuck(s: System, s': System, id: JobId)
    requires id in s.rows && id in s'.rows && s'.rows[id].steps == s.rows[id].steps && Stuck(s, id)
    requires forall w :: w in s'.runs ==>
      w in s.runs && s'.runs[w].job == s.runs[w].job && s'.runs[w].todo == s.runs[w].todo
    ensures Stuck(s', id)
  {
    var i :| 0 <= i < |s.rows[id].steps| && s.rows[id].steps[i].status == Running
      && forall v :: v in s.runs && s.runs[v].job == id ==> s.rows[id].steps[i].name !in Names(s.runs[v].todo);
    assert s'.rows[id].steps[i].status == Running;
  }

  /** The end of a run leaves nothing running in an untainted job, and nothing
      undone in one that won. */
  lemma EndOfRun(run: Run, steps: seq<Step>)
    requires Fits(run, steps) && NothingElseRuns(run, steps)
    ensures run.phase != Working ==> !HasRunning(steps)
    ensures run.todo == [] ==> AllDone(steps)
  {
  }

  lemma FinishKeeps(s: System, w: WorkerId, won: bool)
    requires Inv(s) && w in s.runs && s.runs[w].job in s.rows && s.runs[w].phase != Working
        && (won ==> s.runs[w].todo == [])
    ensures Inv(Finish(s, w, won))
  {
    hide InOrder, Staged, Shaped, Fits, NothingElseRuns, AllDone, Names, HasRunning;
    var s' := Finish(s, w, won);
    var id := s.runs[w].job;
    assert RunOk(s, w);
    if id !in s.tainted { EndOfRun(s.runs[w], s.rows[id].steps); }
    forall v | v in s'.runs ensures RunOk(s', v) { assert RunOk(s, v); }
    forall k | k in s'.rows ensures JobOk(s', k)
    {
      assert JobOk(s, k);
      if k in s.tainted { SameTodoStuck(s, s', k); }
    }
  }

  lemma CrashKeeps(s: System, w: WorkerId, limit: nat)
    requires Inv(s) && w in s.runs
    ensures Inv(Apply(s, Crash(w), limit))
  {
    hide InOrder, Staged, Shaped, Fits, NothingElseRuns, AllDone, Names, HasRunning;
    var s' := Apply(s, Crash(w), limit);
    forall v | v in s'.runs ensures RunOk(s', v) { assert RunOk(s, v); }
    forall k | k in s'.rows ensures JobOk(s', k)
    {
      assert JobOk(s, k);
      if k in s.tainted { SameTodoStuck(s, s', k); }
    }
  }

  lemma SweepKeeps(s: System, limit: nat)
    requires Inv(s) && Prompt(s, limit)
    ensures Inv(Apply(s, Sweep, limit))
  {
    hide InOrder, Staged, Shaped, Fits, NothingElseRuns, AllDone, Names;
    var s' := Apply(s, Sweep, limit);
    forall v | v in s'.runs ensures RunOk(s', v) && !Stale(s.rows[s.runs[v].job], s.now, limit) { assert RunOk(s, v); }
    forall k | k in s'.rows ensures JobOk(s', k)
    {
      assert JobOk(s, k);
      if k in s.tainted {
        SameTodoStuck(s, s', k);
      } else if k in s'.tainted {
        var i :| 0 <= i < |s.rows[k].steps| && s.rows[k].steps[i].status == Running;
        assert s'.rows[k].steps[i].status == Running;
        assert Stuck(s', k);
      }
    }
  }

  /** Every event keeps the invariant, a sweep provided that live runs are prompt. */
  lemma EventKeeps(s: System, e: Event, limit: nat)
    requires Inv(s) && Enabled(s, e) && (e == Sweep ==> Prompt(s, limit))
    ensures Inv(Apply(s, e, limit))
  {
    hide Inv, JobOk, RunOk, Prompt, WriteStep;
    match e
    case Register(id, d) =>
      CarryForwardIsStaged(None, None);
      InsertKeeps(s, id, d, CarryForward(None, None));
    case SubmitRetry(q, id, k) =>
      RetryIsStaged(s, q);
      CarryForwardIsStaged(k, s.retries[q].1);
      InsertKeeps(s, id, s.retries[q].0, CarryForward(k, s.retries[q].1));
    case ReadLatest(q, src, d) => ReadKeeps(s, q, src, d, limit);
    case Claim(w, id) => ClaimKeeps(s, w, id, limit);
    case Begin(w) => ReportKeeps(s, w, Running, Apply(s, e, limit));
    case Complete(w, skipped) => ReportKeeps(s, w, if skipped then Skipped else Succeeded, Apply(s, e, limit));
    case Raise(w) => ReportKeeps(s, w, Failed, Apply(s, e, limit));
    case NoService(w) => NoServiceKeeps(s, w, limit);
    case FinishWon(w) => FinishKeeps(s, w, true);
    case FinishLost(w) => FinishKeeps(s, w, false);
    case Crash(w) => CrashKeeps(s, w, limit);
    case Sweep => SweepKeeps(s, limit);
    case Tick(d) => TickKeeps(s, d, limit);
  }

  lemma RetryIsStaged(s: System, q: nat)
    requires Inv(s) && q in s.retries
    ensures s.retries[q].1.Some? ==> InOrder(s.retries[q].1.value) && Staged(s.retries[q].1.value)
  {
  }

  lemma ReadKeeps(s: System, q: nat, src: Option<JobId>, d: string, limit: nat)
    requires Inv(s) && Enabled(s, ReadLatest(q, src, d))
    ensures Inv(Apply(s, ReadLatest(q, src, d), limit))
  {
    hide InOrder, Staged, Shaped, Fits, NothingElseRuns, AllDone, Names, HasRunning;
    var s' := Apply(s, ReadLatest(q, src, d), limit);
    if src.Some? { assert JobOk(s, src.value); }
    forall v | v in s'.runs ensures RunOk(s', v) { assert RunOk(s, v); }
    forall k | k in s'.rows ensures JobOk(s', k)
    {
      assert JobOk(s, k);
      if k in s.tainted { SameTodoStuck(s, s', k); }
    }
  }

  lemma TickKeeps(s: System, d: nat, limit: nat)
    requires Inv(s)
    ensures Inv(Apply(s, Tick(d), limit))
  {
    hide InOrder, Staged, Shaped, Fits, NothingElseRuns, AllDone, Names, HasRunning;
    var s' := Apply(s, Tick(d), limit);
    forall v | v in s'.runs ensures RunOk(s', v) { assert RunOk(s, v); }
    forall k | k in s'.rows ensures JobOk(s', k)
    {
      assert JobOk(s, k);
      if k in s.tainted { SameTodoStuck(s, s', k); }
    }
  }

  lemma {:induction false} AlwaysInv(ss: seq<System>, es: seq<Event>, limit: nat, i: nat)
    requires Execution(ss, es, limit) && i < |ss| && PromptAtSweeps(ss, es, limit, i)
    ensures Inv(ss[i])
  {
    hide Enabled, Apply;
    if i == 0 {
      assert ss[0] == EMPTY;
    } else {
      AlwaysInv(ss, es, limit, i - 1);
      hide Inv;
      EventKeeps(ss[i - 1], es[i - 1], limit);
    }
  }

  // ------------------------------------------------------------------ main results

  /** Every live worker owns its job: the row is active under its own claim. */
  predicate Owned(s: System) {
    forall w :: w in s.runs ==>
      && s.runs[w].job in s.rows && s.rows[s.runs[w].job].status == Active
      && s.rows[s.runs[w].job].claimedBy == Some(w)
  }

  /** No job ever has two live workers, and a worker that is live owns its job. */
  lemma WorkersAreExclusive(ss: seq<System>, es: seq<Event>, limit: nat, i: nat)
    requires Execution(ss, es, limit) && i < |ss| && PromptAtSweeps(ss, es, limit, i)
    ensures Owned(ss[i])
    ensures forall w, v :: w in ss[i].runs && v in ss[i].runs && ss[i].runs[w].job == ss[i].runs[v].job ==> w == v
  {
    AlwaysInv(ss, es, limit, i);
    assert forall w :: w in ss[i].runs ==> RunOk(ss[i], w);
  }

  /** A sweep that finds a run too old takes the job away from under it. */
  lemma LateSweepDisowns(s: System, limit: nat)
    requires Inv(s) && !Prompt(s, limit)
    ensures !Owned(Apply(s, Sweep, limit))
  {
    var w :| w in s.runs && s.now > s.runs[w].claimedAt + limit;
    assert RunOk(s, w);
    assert Stale(s.rows[s.runs[w].job], s.now, limit);
  }

  /** The timing hypothesis is exact: over any prefix of any execution, workers own
      their jobs throughout if and only if each sweep finds the live runs prompt. */
  lemma {:induction false} OwnedExactlyWhenPrompt(ss: seq<System>, es: seq<Event>, limit: nat, n: nat)
    requires Execution(ss, es, limit) && n < |ss|
    ensures (forall i :: 0 <= i <= n ==> Owned(ss[i])) <==> PromptAtSweeps(ss, es, limit, n)
  {
    hide Owned, Apply, Enabled, Prompt, Inv;
    if n == 0 {
      WorkersAreExclusive(ss, es, limit, 0);
    } else {
      OwnedExactlyWhenPrompt(ss, es, limit, n - 1);
      if PromptAtSweeps(ss, es, limit, n - 1) {
        assert ss[n] == Apply(ss[n - 1], es[n - 1], limit);
        AlwaysInv(ss, es, limit, n - 1);
        if es[n - 1] == Sweep && !Prompt(ss[n - 1], limit) {
          LateSweepDisowns(ss[n - 1], limit);
        } else {
          WorkersAreExclusive(ss, es, limit, n);
        }
      }
    }
  }

  /** Exactly the untainted jobs that won have every listed step done; a tainted
      one that won still shows a step as running that nobody will finish. */
  lemma WonMeansDoneUnlessTainted(ss: seq<System>, es: seq<Event>, limit: nat, i: nat, id: JobId)
    requires Execution(ss, es, limit) && i < |ss| && PromptAtSweeps(ss, es, limit, i)
    requires id in ss[i].rows && ss[i].rows[id].status == Won
    ensures AllDone(ss[i].rows[id].steps) <==> id !in ss[i].tainted
    ensures id in ss[i].tainted ==> HasRunning(ss[i].rows[id].steps)
  {
    AlwaysInv(ss, es, limit, i);
    assert JobOk(ss[i], id);
  }

  /** In every state, an untainted job's steps read done*, then at most one
      running or failed, then pending*, across any chain of retries and crashes. */
  lemma StepsKeepTheirShape(ss: seq<System>, es: seq<Event>, limit: nat, i: nat, id: JobId)
    requires Execution(ss, es, limit) && i < |ss| && PromptAtSweeps(ss, es, limit, i)
    requires id in ss[i].rows
    ensures InOrder(ss[i].rows[id].steps) && Staged(ss[i].rows[id].steps)
    ensures id !in ss[i].tainted ==> Shaped(ss[i].rows[id].steps)
    ensures id !in ss[i].tainted && HasRunning(ss[i].rows[id].steps) ==> ss[i].rows[id].status == Active
  {
    AlwaysInv(ss, es, limit, i);
    assert JobOk(ss[i], id);
  }

  predicate Terminal(j: Job) { j.status == Won || j.status == Lost }

  /** Terminal jobs are never touched again. */
  lemma TerminalIsAbsorbing(ss: seq<System>, es: seq<Event>, limit: nat, i: nat, id: JobId)
    requires Execution(ss, es, limit) && i < |es| && PromptAtSweeps(ss, es, limit, i)
    requires id in ss[i].rows && Terminal(ss[i].rows[id])
    ensures id in ss[i + 1].rows && ss[i + 1].rows[id] == ss[i].rows[id]
  {
    hide Apply, Enabled, Prompt, Terminal;
    AlwaysInv(ss, es, limit, i);
    assert ss[i + 1] == Apply(ss[i], es[i], limit);
    TerminalStays(ss[i], es[i], limit, id);
  }

  lemma TerminalStays(s: System, e: Event, limit: nat, id: JobId)
    requires Inv(s) && Enabled(s, e) && id in s.rows && Terminal(s.rows[id])
    ensures id in Apply(s, e, limit).rows && Apply(s, e, limit).rows[id] == s.rows[id]
  {
    hide Record, Todo, CarryForward, Fits, NothingElseRuns, JobOk, HasRunning, FirstFailed, Latest, Busy;
    assert forall w :: w in s.runs ==> RunOk(s, w);
  }

  lemma {:induction false} FirstFailedIs(steps: seq<Step>, k: nat)
    requires k < |steps| && steps[k].status == Failed
    requires forall i :: 0 <= i < k ==> steps[i].status != Failed
    ensures FirstFailed(steps) == Some(steps[k].name)
  {
    if k > 0 { FirstFailedIs(steps[1..], k - 1); }
  }

  lemma {:induction false} NoneFailed(steps: seq<Step>)
    requires forall i :: 0 <= i < |steps| ==> steps[i].status != Failed
    ensures FirstFailed(steps) == None
  {
    if steps != [] { NoneFailed(steps[1..]); }
  }

  /** The failed step that is recorded is the one that raised in this run. When
      no step raised, because the run never got its service, it is the step an
      earlier job left failed, if there is one. */
  lemma ErrorStepIsAccurate(ss: seq<System>, es: seq<Event>, limit: nat, i: nat, w: WorkerId)
    requires Execution(ss, es, limit) && i < |es| && PromptAtSweeps(ss, es, limit, i)
    requires es[i] == FinishLost(w)
    ensures w in ss[i].runs && ss[i].runs[w].phase.Broken? && ss[i].runs[w].job in ss[i + 1].rows
    ensures var run, job := ss[i].runs[w], ss[i + 1].rows[ss[i].runs[w].job];
            && job.status == Lost
            && (run.phase.raised.Some? ==> job.errorStep == run.phase.raised)
            && (run.phase.raised.None? ==>
                  job.errorStep.None? || (run.todo != [] && job.errorStep == Some(run.todo[0].name)))
  {
    AlwaysInv(ss, es, limit, i);
    assert ss[i + 1] == Apply(ss[i], es[i], limit);
    var run := ss[i].runs[w];
    assert RunOk(ss[i], w);
    FailedIsHead(run, ss[i].rows[run.job].steps);
  }

  lemma FailedIsHead(run: Run, steps: seq<Step>)
    requires Fits(run, steps) && run.phase.Broken?
    ensures run.phase.raised.Some? ==> FirstFailed(steps) == run.phase.raised
    ensures run.phase.raised.None? ==>
      FirstFailed(steps).None? || (run.todo != [] && FirstFailed(steps) == Some(run.todo[0].name))
  {
    hide Names;
    if run.phase.raised.Some? { RaisedIsRecorded(run, steps); }
    if exists i :: 0 <= i < |steps| && steps[i].status == Failed {
      var k := LeastFailed(steps);
      assert FitsStep(run, steps[k]);
      FirstFailedIs(steps, k);
      TodoHas(run.todo, steps[k].name);
    } else {
      NoneFailed(steps);
    }
  }

  lemma RaisedIsRecorded(run: Run, steps: seq<Step>)
    requires Fits(run, steps) && run.phase.Broken? && run.phase.raised.Some?
    ensures exists k :: 0 <= k < |steps| && steps[k].status == Failed
  {
    hide Names;
    assert run.todo[0] in run.todo;
    var k :| 0 <= k < |steps| && steps[k].name == run.todo[0].name;
    NamesOfTail(run.todo);
    assert FitsStep(run, steps[k]);
  }

  lemma TodoHas(todo: seq<Step>, n: StepName)
    ensures n in Names(todo) ==> todo != []
  {
  }

  lemma {:induction false} LeastFailed(steps: seq<Step>) returns (k: nat)
    requires exists i :: 0 <= i < |steps| && steps[i].status == Failed
    ensures k < |steps| && steps[k].status == Failed && forall i :: 0 <= i < k ==> steps[i].status != Failed
  {
    if steps[0].status == Failed {
      k := 0;
    } else {
      var i :| 0 <= i < |steps| && steps[i].status == Failed;
      assert steps[1..][i - 1].status == Failed;
      k := LeastFailed(steps[1..]);
      k := k + 1;
    }
  }
}
