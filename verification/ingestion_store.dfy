/** The job table as the object whose rows every call rewrites, and one pass of
    the worker over it: `ingestion_job_repository.py`, `worker.py` and the step
    loop of `ingestion_service.py`. */
module IngestionStore {
  import opened Options
  import opened IngestionJobs
  import opened IngestionQueue
  import opened IngestionProtocol

  /** The oldest queued job. */
  predicate IsNext(rows: Rows, id: JobId) {
    && id in rows && rows[id].status == Queued
    && forall k :: k in rows && rows[k].status == Queued ==> rows[id].createdAt <= rows[k].createdAt
  }

  predicate AnyQueued(rows: Rows) { exists id :: id in rows && rows[id].status == Queued }

  lemma {:induction false} OldestExists(rows: Rows, ids: set<JobId>) returns (best: JobId)
    requires ids != {} && forall id :: id in ids ==> id in rows && rows[id].status == Queued
    ensures best in ids && forall k :: k in ids ==> rows[best].createdAt <= rows[k].createdAt
    decreases |ids|
  {
    var id :| id in ids;
    best := id;
    if ids != {id} {
      var rest := ids - {id};
      assert ids == rest + {id};
      var other := OldestExists(rows, rest);
      best := if rows[id].createdAt <= rows[other].createdAt then id else other;
    }
  }

  /** What the services do in a run: which steps raise, and whether the datasource has an
      overlay file. */
  datatype Services = Services(raises: StepName -> bool, overlay: bool)

  /** How a step that does not raise ends. */
  function StatusOf(n: StepName, services: Services): StepStatus {
    if n == SemanticOverlay && !services.overlay then Skipped else Succeeded
  }

  /** The recorded steps after a run nobody disturbs, and whether it won. */
  function AfterRun(steps: seq<Step>, todo: seq<Step>, services: Services): (seq<Step>, bool)
    decreases |todo|
  {
    if todo == [] then (steps, true)
    else
      var n := todo[0].name;
      var started := Record(steps, todo[0].(status := Running));
      if services.raises(n) then (Record(started, todo[0].(status := Failed)), false)
      else AfterRun(Record(started, todo[0].(status := StatusOf(n, services))), todo[1..], services)
  }

  class JobStore {
    var rows: Rows

    constructor ()
      ensures rows == map[]
    {
      rows := map[];
    }

    /** `submit`, refused by the unique index while the datasource is busy. */
    method Submit(id: JobId, datasource: string, steps: seq<Step>, now: int) returns (ok: bool)
      modifies this
      ensures ok <==>
        && id !in old(rows)
        && forall k :: k in old(rows) && old(rows)[k].datasource == datasource ==> old(rows)[k].status in {Won, Lost}
      ensures rows == if ok then old(rows)[id := NewJob(datasource, steps, now)] else old(rows)
    {
      ok := id !in rows && !Busy(rows, datasource);
      if ok { rows := rows[id := NewJob(datasource, steps, now)]; }
    }

    /** `claim_next` */
    method ClaimNext(w: WorkerId, now: int) returns (claimed: Option<JobId>)
      modifies this
      ensures claimed.Some? <==> exists id :: id in old(rows) && old(rows)[id].status == Queued
      ensures claimed.Some? ==>
        && claimed.value in old(rows) && old(rows)[claimed.value].status == Queued
        && forall k :: k in old(rows) && old(rows)[k].status == Queued ==>
             old(rows)[claimed.value].createdAt <= old(rows)[k].createdAt
      ensures rows == if claimed.Some? then old(rows)[claimed.value := Claimed(old(rows)[claimed.value], w, now)]
          else old(rows)
    {
      if !AnyQueued(rows) { return None; }
      ghost var queued := set id | id in rows && rows[id].status == Queued;
      ghost var some :| some in rows && rows[some].status == Queued;
      assert some in queued;
      ghost var best := OldestExists(rows, queued);
      assert IsNext(rows, best);
      var id :| id in rows && IsNext(rows, id);
      ghost var before := rows;
      rows := rows[id := Claimed(rows[id], w, now)];
      claimed := Some(id);
      assert before == old(rows) && IsNext(before, id);
    }

    /** `record_step` */
    method RecordStep(id: JobId, step: Step) returns (known: bool)
      modifies this
      ensures known <==> id in old(rows)
      ensures rows == if known then old(rows)[id := old(rows)[id].(steps := Record(old(rows)[id].steps, step))]
          else old(rows)
    {
      known := id in rows;
      if known { rows := rows[id := rows[id].(steps := Record(rows[id].steps, step))]; }
    }

    /** `finish`, with the failed step read back from the table. */
    method FinishJob(id: JobId, won: bool) returns (known: bool)
      modifies this
      ensures known <==> id in old(rows)
      ensures rows == if known then old(rows)[id := FinishedJob(old(rows)[id], won)] else old(rows)
    {
      known := id in rows;
      if known { rows := rows[id := FinishedJob(rows[id], won)]; }
    }

    /** `release_stale` */
    method Release(now: int, limit: nat) returns (released: nat)
      modifies this
      ensures rows == ReleaseStale(old(rows), now, limit)
      ensures rows.Keys == old(rows).Keys
      ensures forall id :: id in old(rows) ==>
        var j := old(rows)[id];
        rows[id] == if j.status == Active && j.claimedAt < now - limit
                    then Job(j.datasource, Queued, j.steps, j.errorStep, j.createdAt, None, 0) else j
      ensures released == |set id | id in old(rows) && rows[id] != old(rows)[id]|
    {
      released := |set id | id in rows && Stale(rows[id], now, limit)|;
      rows := ReleaseStale(rows, now, limit);
      ghost var stale := set id | id in old(rows) && Stale(old(rows)[id], now, limit);
      assert released == |stale|;
      assert forall id :: id in stale <==> id in old(rows) && rows[id] != old(rows)[id];
      assert stale == set id | id in old(rows) && rows[id] != old(rows)[id];
    }

    /** The loop of `run`: report a step running, do it, report how it ended, and
        stop at the first that raises. */
    method RunSteps(id: JobId, todo: seq<Step>, services: Services) returns (won: bool)
      requires id in rows
      modifies this
      ensures id in rows
      ensures var r := AfterRun(old(rows)[id].steps, todo, services);
              won == r.1 && rows == old(rows)[id := old(rows)[id].(steps := r.0)]
    {
      var i := 0;
      won := true;
      ghost var start := rows;
      assert rows == start[id := start[id].(steps := rows[id].steps)];
      while i < |todo|
        invariant 0 <= i <= |todo| && won
        invariant id in rows && rows == start[id := start[id].(steps := rows[id].steps)]
        invariant AfterRun(start[id].steps, todo, services) == AfterRun(rows[id].steps, todo[i..], services)
      {
        var known := RecordStep(id, todo[i].(status := Running));
        assert todo[i..][1..] == todo[i + 1..];
        if services.raises(todo[i].name) {
          known := RecordStep(id, todo[i].(status := Failed));
          won := false;
          return;
        }
        known := RecordStep(id, todo[i].(status := StatusOf(todo[i].name, services)));
        i := i + 1;
      }
    }

    /** `run_once`: claim one job, run what is unfinished of it, finish it. A
        run that never gets its service (`ready` is false) fails at once. */
    method RunOnce(w: WorkerId, now: int, ready: bool, services: Services) returns (ran: Option<JobId>)
      modifies this
      ensures ran.Some? <==> exists id :: id in old(rows) && old(rows)[id].status == Queued
      ensures ran.None? ==> rows == old(rows)
      ensures ran.Some? ==>
        && IsNext(old(rows), ran.value)
        && var job := Claimed(old(rows)[ran.value], w, now);
           var (steps, won) := if ready then AfterRun(job.steps, Todo(job.steps), services) else (job.steps, false);
           rows == old(rows)[ran.value := FinishedJob(job.(steps := steps), won)]
    {
      ran := ClaimNext(w, now);
      if ran.None? { return; }
      var won := false;
      if ready {
        won := RunSteps(ran.value, Todo(rows[ran.value].steps), services);
      }
      var known := FinishJob(ran.value, won);
    }
  }

  lemma {:induction false} RunShape(run: Run, steps: seq<Step>, services: Services) returns (at: nat)
    requires InOrder(steps) && Fits(run, steps) && NothingElseRuns(run, steps) && run.phase.Idle?
    ensures var (r, won) := AfterRun(steps, run.todo, services);
            && InOrder(r) && Shaped(r) && |r| == |steps|
            && (won <==> forall i :: 0 <= i < |run.todo| ==> !services.raises(run.todo[i].name))
            && (won ==> AllDone(r))
            && (!won ==>
                  at < |run.todo| && services.raises(run.todo[at].name) && FirstFailed(r) == Some(run.todo[at].name))
    decreases |run.todo|
  {
    hide Fits, NothingElseRuns, InOrder, Shaped, AllDone, Record, Rank, StatusOf;
    at := 0;
    if run.todo == [] {
      FitsIsStaged(run, steps);
      EndOfRun(run, steps);
    } else {
      var n := run.todo[0].name;
      var begun := Reported(run, Running);
      var started := Record(steps, run.todo[0].(status := Running));
      ReportFits(run, steps, Running);
      var status := if services.raises(n) then Failed else StatusOf(n, services);
      assert status == Failed || status == Succeeded || status == Skipped by { StatusIsFinal(n, services); }
      assert !services.raises(n) ==> status != Failed by { StatusIsFinal(n, services); }
      var next := Reported(begun, status);
      var ended := Record(started, run.todo[0].(status := status));
      ReportFits(begun, started, status);
      if services.raises(n) {
        FitsIsStaged(next, ended);
        FailedIsHead(next, ended);
      } else {
        at := RunShape(next, ended, services);
        assert forall i :: 0 <= i < |next.todo| ==> next.todo[i] == run.todo[i + 1];
        at := at + 1;
      }
    }
  }

  lemma StatusIsFinal(n: StepName, services: Services)
    ensures StatusOf(n, services) == Succeeded || StatusOf(n, services) == Skipped
  {
  }

  /** A run nobody disturbs, of a job with no running step, wins exactly when no
      step raises, and then everything is done; otherwise the steps keep their
      shape and the first failed one is the one that raised. */
  lemma UndisturbedRun(steps: seq<Step>, services: Services)
    requires InOrder(steps) && Staged(steps) && !HasRunning(steps)
    ensures var (r, won) := AfterRun(steps, Todo(steps), services);
            && InOrder(r) && Shaped(r) && |r| == |steps|
            && (won <==> forall t :: t in steps && Unfinished(t) ==> !services.raises(t.name))
            && (won ==> AllDone(r))
            && (!won ==> exists t ::
                  t in steps && Unfinished(t) && services.raises(t.name) && FirstFailed(r) == Some(t.name))
  {
    hide Fits, NothingElseRuns, InOrder, Shaped, Staged, AllDone, AfterRun, HasRunning, Unfinished;
    ClaimFits(steps, 0, 0);
    var todo := Todo(steps);
    var at := RunShape(Run(0, todo, Idle(false), 0), steps, services);
    assert forall i :: 0 <= i < |todo| ==> todo[i] in todo;
  }

  // ------------------------------------------------------------- what each step ends as

  /** No unfinished step in front of place `i` raises, so the run comes as far as `i`. */
  predicate Reached(steps: seq<Step>, i: nat, services: Services)
    requires i <= |steps|
  {
    forall j :: 0 <= j < i && Unfinished(steps[j]) ==> !services.raises(steps[j].name)
  }

  /** How the step at place `i` is recorded when the run is over: as it was, if it was not
      to be done or was never reached; else failed exactly if it raised, skipped exactly if
      it is the overlay and there is none, and succeeded exactly in all other cases. */
  predicate EndsAs(steps: seq<Step>, r: seq<Step>, i: nat, services: Services)
    requires i < |steps| == |r|
  {
    var n := steps[i].name;
    && r[i].name == n
    && (!Unfinished(steps[i]) || !Reached(steps, i, services) ==> r[i] == steps[i])
    && (Unfinished(steps[i]) && Reached(steps, i, services) ==>
          && (r[i].status == Failed <==> services.raises(n))
          && (r[i].status == Skipped <==> !services.raises(n) && n == SemanticOverlay && !services.overlay)
          && (r[i].status == Succeeded <==> !services.raises(n) && (n == SemanticOverlay ==> services.overlay)))
  }

  lemma EndsAlike(steps: seq<Step>, a: seq<Step>, b: seq<Step>, i: nat, services: Services)
    requires i < |steps| == |a| == |b| && a[i] == b[i]
    ensures EndsAs(steps, a, i, services) <==> EndsAs(steps, b, i, services)
    ensures EndsAs(steps, a, i, services) ==> a[i].name == steps[i].name
  {
  }

  lemma LeftAlone(steps: seq<Step>, r: seq<Step>, i: nat, services: Services)
    requires i < |steps| == |r| && r[i] == steps[i] && (!Unfinished(steps[i]) || !Reached(steps, i, services))
    ensures EndsAs(steps, r, i, services)
  {
  }

  lemma EndsAsReported(steps: seq<Step>, r: seq<Step>, i: nat, services: Services)
    requires i < |steps| == |r| && Unfinished(steps[i]) && Reached(steps, i, services)
    requires r[i] == steps[i].(status := if services.raises(steps[i].name) then Failed
                                         else StatusOf(steps[i].name, services))
    ensures EndsAs(steps, r, i, services)
  {
  }

  /** Both reports of one step, in the middle of the run. */
  lemma TwoReports(steps: seq<Step>, now: seq<Step>, i: nat, services: Services) returns (ended: seq<Step>)
    requires InOrder(steps) && i < |steps| == |now| && Unfinished(steps[i]) && Reached(steps, i, services)
    requires forall k :: 0 <= k < i ==> EndsAs(steps, now, k, services)
    requires forall k :: i <= k < |steps| ==> now[k] == steps[k]
    ensures var status := if services.raises(steps[i].name) then Failed else StatusOf(steps[i].name, services);
            ended == Record(Record(now, steps[i].(status := Running)), steps[i].(status := status))
    ensures |ended| == |steps|
    ensures forall k :: 0 <= k <= i ==> EndsAs(steps, ended, k, services)
    ensures forall k :: i < k < |steps| ==> ended[k] == steps[k]
  {
    hide InOrder, Record, Unfinished, EndsAs, Reached, StatusOf;
    var t := steps[i];
    forall k | 0 <= k < i ensures now[k].name == steps[k].name { EndsAlike(steps, now, now, k, services); }
    var begun := Record(now, t.(status := Running));
    RecordOne(steps, now, i, t.(status := Running));
    var status := if services.raises(t.name) then Failed else StatusOf(t.name, services);
    ended := Record(begun, t.(status := status));
    RecordOne(steps, begun, i, t.(status := status));
    forall k | 0 <= k <= i ensures EndsAs(steps, ended, k, services) {
      if k < i { EndsAlike(steps, now, ended, k, services); } else { EndsAsReported(steps, ended, i, services); }
    }
  }

  /** The steps recorded while the run goes on: the work to do is that of `steps[i..]`. */
  lemma {:induction false} RunFrom(steps: seq<Step>, now: seq<Step>, i: nat, services: Services)
    requires InOrder(steps) && i <= |steps| == |now| && Reached(steps, i, services)
    requires forall k :: 0 <= k < i ==> EndsAs(steps, now, k, services)
    requires forall k :: i <= k < |steps| ==> now[k] == steps[k]
    ensures var r := AfterRun(now, Todo(steps[i..]), services).0;
            |r| == |steps| && forall k :: 0 <= k < |steps| ==> EndsAs(steps, r, k, services)
    decreases |steps| - i
  {
    hide InOrder, Record, Unfinished, EndsAs, StatusOf;
    if i == |steps| {
      assert steps[i..] == [];
      return;
    }
    var t := steps[i];
    assert steps[i..][0] == t && steps[i..][1..] == steps[i + 1..];
    if Unfinished(t) {
      var ended := TwoReports(steps, now, i, services);
      var todo := Todo(steps[i + 1..]);
      assert Todo(steps[i..]) == [t] + todo && ([t] + todo)[1..] == todo;
      if services.raises(t.name) {
        assert AfterRun(now, [t] + todo, services).0 == ended;
        forall k | i < k < |steps| ensures EndsAs(steps, ended, k, services) {
          assert !Reached(steps, k, services);
          LeftAlone(steps, ended, k, services);
        }
      } else {
        assert AfterRun(now, [t] + todo, services) == AfterRun(ended, todo, services);
        RunFrom(steps, ended, i + 1, services);
      }
    } else {
      assert Todo(steps[i..]) == Todo(steps[i + 1..]);
      LeftAlone(steps, now, i, services);
      RunFrom(steps, now, i + 1, services);
    }
  }

  lemma RecordOne(steps: seq<Step>, now: seq<Step>, i: nat, step: Step)
    requires InOrder(steps) && i < |steps| == |now| && step.name == steps[i].name
    requires forall k :: 0 <= k < |steps| ==> now[k].name == steps[k].name
    ensures Record(now, step) == now[i := step]
  {
    hide Rank;
    assert now[i].name == step.name;
    forall k | 0 <= k < |now| ensures now[k].name == step.name <==> k == i {
      if k != i { assert Rank(steps[k].name) != Rank(steps[i].name); }
    }
  }

  /** Step by step, what a run nobody disturbs leaves in the table. */
  lemma RunTellsEachStep(steps: seq<Step>, services: Services)
    requires InOrder(steps)
    ensures var r := AfterRun(steps, Todo(steps), services).0;
            |r| == |steps| && forall i :: 0 <= i < |steps| ==> EndsAs(steps, r, i, services)
  {
    hide InOrder, AfterRun, EndsAs;
    assert steps[0..] == steps;
    RunFrom(steps, steps, 0, services);
  }
}
