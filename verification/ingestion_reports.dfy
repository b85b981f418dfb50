/** What the recorded statuses say: each is the report of a worker that was there. */
module IngestionReports {
  import opened Options
  import opened IngestionJobs
  import opened IngestionQueue

  /** Step `n` is recorded with `status`. */
  predicate Says(steps: seq<Step>, n: StepName, status: StepStatus) { Step(n, status) in steps }

  lemma RecordSaysOne(steps: seq<Step>, step: Step)
    ensures var r := Record(steps, step);
            forall n, status ::
              Says(r, n, status) <==> if n == step.name then status == step.status else Says(steps, n, status)
  {
    var r := Record(steps, step);
    var replaced := seq(|steps|, i requires 0 <= i < |steps| => if steps[i].name == step.name then step else steps[i]);
    assert forall i :: 0 <= i < |steps| ==> r[i] == replaced[i];
    assert step in r by {
      if i :| 0 <= i < |steps| && steps[i].name == step.name {
        assert r[i] == step;
      } else {
        assert r[|steps|] == step;
      }
    }
    forall n, status | n != step.name ensures Says(r, n, status) <==> Says(steps, n, status) {
      if Says(steps, n, status) {
        var i :| 0 <= i < |steps| && steps[i] == Step(n, status);
        assert r[i] == steps[i];
      }
    }
  }

  /** The event is a worker's report on the step that it is at. */
  predicate Reports(e: Event) { e.Begin? || e.Raise? || e.Complete? }

  /** A report sets the status of one step of one job, and nothing else: running when the
      step begins, failed when it raises, skipped or succeeded when it ends. */
  lemma ReportSetsOne(s: System, e: Event, limit: nat)
    requires Enabled(s, e) && Reports(e)
    ensures e.worker in s.runs && s.runs[e.worker].todo != [] && s.runs[e.worker].job in s.rows
    ensures var id, n, next := s.runs[e.worker].job, s.runs[e.worker].todo[0].name, Apply(s, e, limit);
            && next.rows.Keys == s.rows.Keys
            && (forall k :: k in s.rows && k != id ==> next.rows[k] == s.rows[k])
            && next.rows[id] == s.rows[id].(steps := next.rows[id].steps)
            && (forall m, status :: m != n ==>
                  (Says(next.rows[id].steps, m, status) <==> Says(s.rows[id].steps, m, status)))
            && (Says(next.rows[id].steps, n, Running) <==> e.Begin?)
            && (Says(next.rows[id].steps, n, Failed) <==> e.Raise?)
            && (Says(next.rows[id].steps, n, Skipped) <==> e.Complete? && e.skipped)
            && (Says(next.rows[id].steps, n, Succeeded) <==> e.Complete? && !e.skipped)
            && !Says(next.rows[id].steps, n, Pending)
            && (e.Complete? && e.skipped ==> n == SemanticOverlay)
  {
    hide Record, Says;
    var id, step := s.runs[e.worker].job, s.runs[e.worker].todo[0];
    var status :=
      if e.Begin? then Running else if e.Raise? then Failed else if e == Complete(e.worker, true) then Skipped
      else Succeeded;
    RecordSaysOne(s.rows[id].steps, step.(status := status));
  }

  // ------------------------------------------------------------------ over executions

  /** Which report a status comes from. */
  predicate Means(e: Event, status: StepStatus) {
    match status
    case Succeeded => e.Complete? && !e.skipped
    case Skipped => e.Complete? && e.skipped
    case Failed => e.Raise?
    case Running => e.Begin?
    case Pending => false
  }

  /** Event `j` was such a report, on step `n` of a job of datasource `d`. */
  ghost predicate ReportedAt(ss: seq<System>, es: seq<Event>, j: nat, d: string, n: StepName, status: StepStatus)
    requires j < |es| < |ss|
  {
    Reports(es[j]) && Means(es[j], status) &&
    var w := es[j].worker;
    && w in ss[j].runs && ss[j].runs[w].todo != [] && ss[j].runs[w].todo[0].name == n
    && ss[j].runs[w].job in ss[j].rows && ss[j].rows[ss[j].runs[w].job].datasource == d
  }

  ghost predicate WasReported(ss: seq<System>, es: seq<Event>, i: nat, d: string, st: Step)
    requires i <= |es| < |ss|
  {
    st.status == Pending || exists j: nat :: j < i && ReportedAt(ss, es, j, d, st.name, st.status)
  }

  ghost predicate AllReported(ss: seq<System>, es: seq<Event>, i: nat, d: string, steps: seq<Step>)
    requires i <= |es| < |ss|
  {
    forall st :: st in steps ==> WasReported(ss, es, i, d, st)
  }

  /** Every status in the table, and in what retries have read, was reported. */
  ghost predicate Accounted(ss: seq<System>, es: seq<Event>, i: nat)
    requires i <= |es| < |ss|
  {
    && (forall id :: id in ss[i].rows ==> AllReported(ss, es, i, ss[i].rows[id].datasource, ss[i].rows[id].steps))
    && (forall q :: q in ss[i].retries && ss[i].retries[q].1.Some? ==>
          AllReported(ss, es, i, ss[i].retries[q].0, ss[i].retries[q].1.value))
  }

  lemma ReportedLater(ss: seq<System>, es: seq<Event>, i: nat, d: string, steps: seq<Step>)
    requires i < |es| < |ss| && AllReported(ss, es, i, d, steps)
    ensures AllReported(ss, es, i + 1, d, steps)
  {
    hide ReportedAt;
    forall st | st in steps ensures WasReported(ss, es, i + 1, d, st) {
      if st.status != Pending {
        var j: nat :| j < i && ReportedAt(ss, es, j, d, st.name, st.status);
        assert j < i + 1;
      }
    }
  }

  lemma CarriedIsReported(ss: seq<System>, es: seq<Event>, i: nat, d: string, startFrom: Option<StepName>,
                          previous: Option<seq<Step>>)
    requires i <= |es| < |ss| && (previous.Some? ==> AllReported(ss, es, i, d, previous.value))
    ensures AllReported(ss, es, i, d, CarryForward(startFrom, previous))
  {
    hide Rank, NameAt, ReportedAt;
  }

  lemma {:induction false} ReportKeepsAccounts(ss: seq<System>, es: seq<Event>, limit: nat, i: nat)
    requires Execution(ss, es, limit) && i < |es| && Accounted(ss, es, i) && Reports(es[i])
    ensures Accounted(ss, es, i + 1)
  {
    hide AllReported, Says;
    var s, next := ss[i], ss[i + 1];
    ReportSetsOne(s, es[i], limit);
    var id, n := s.runs[es[i].worker].job, s.runs[es[i].worker].todo[0].name;
    forall k | k in next.rows ensures AllReported(ss, es, i + 1, next.rows[k].datasource, next.rows[k].steps) {
      ReportedLater(ss, es, i, s.rows[k].datasource, s.rows[k].steps);
      if k == id { ReportIsAccounted(ss, es, limit, i); }
    }
    forall q | q in next.retries && next.retries[q].1.Some?
      ensures AllReported(ss, es, i + 1, next.retries[q].0, next.retries[q].1.value)
    {
      ReportedLater(ss, es, i, next.retries[q].0, next.retries[q].1.value);
    }
  }

  lemma {:induction false} ReportIsAccounted(ss: seq<System>, es: seq<Event>, limit: nat, i: nat)
    requires Execution(ss, es, limit) && i < |es| && Reports(es[i])
    requires es[i].worker in ss[i].runs && ss[i].runs[es[i].worker].job in ss[i].rows
    requires var row := ss[i].rows[ss[i].runs[es[i].worker].job]; AllReported(ss, es, i + 1, row.datasource, row.steps)
    ensures var id := ss[i].runs[es[i].worker].job;
            id in ss[i + 1].rows && AllReported(ss, es, i + 1, ss[i].rows[id].datasource, ss[i + 1].rows[id].steps)
  {
    var s, next := ss[i], ss[i + 1];
    hide Execution, Apply, Enabled;
    assert Enabled(s, es[i]) && next == Apply(s, es[i], limit) by { Happens(ss, es, limit, i); }
    ReportSetsOne(s, es[i], limit);
    var id, n := s.runs[es[i].worker].job, s.runs[es[i].worker].todo[0].name;
    var d := s.rows[id].datasource;
    forall st | st in next.rows[id].steps ensures WasReported(ss, es, i + 1, d, st) {
      assert Says(next.rows[id].steps, st.name, st.status);
      if st.name == n {
        assert Means(es[i], st.status);
        assert ReportedAt(ss, es, i, d, n, st.status);
      } else {
        assert Says(s.rows[id].steps, st.name, st.status);
      }
    }
  }

  lemma Happens(ss: seq<System>, es: seq<Event>, limit: nat, i: nat)
    requires Execution(ss, es, limit) && i < |es|
    ensures Enabled(ss[i], es[i]) && ss[i + 1] == Apply(ss[i], es[i], limit)
  {
  }

  /** The other events report nothing: what they write was there, or is pending. */
  lemma {:induction false} OthersKeepAccounts(ss: seq<System>, es: seq<Event>, limit: nat, i: nat)
    requires Execution(ss, es, limit) && i < |es| && Accounted(ss, es, i) && !Reports(es[i])
    ensures Accounted(ss, es, i + 1)
  {
    hide AllReported, CarryForward, Record, Todo, FirstFailed, HasRunning;
    var s, next, e := ss[i], ss[i + 1], es[i];
    Happens(ss, es, limit, i);
    forall id | id in s.rows ensures AllReported(ss, es, i + 1, s.rows[id].datasource, s.rows[id].steps) {
      ReportedLater(ss, es, i, s.rows[id].datasource, s.rows[id].steps);
    }
    forall q | q in s.retries && s.retries[q].1.Some?
      ensures AllReported(ss, es, i + 1, s.retries[q].0, s.retries[q].1.value)
    {
      ReportedLater(ss, es, i, s.retries[q].0, s.retries[q].1.value);
    }
    match e
    case Register(id, d) => CarriedIsReported(ss, es, i + 1, d, None, None);
    case SubmitRetry(q, id, k) => CarriedIsReported(ss, es, i + 1, s.retries[q].0, k, s.retries[q].1);
    case _ =>
  }

  /** Over every execution, with no hypothesis on time: a step stands as succeeded,
      skipped, failed or running only if a worker, at that step of a job of the same
      datasource, reported just that before; so only the overlay ever stands as skipped. */
  lemma {:induction false} StatusesWereReported(ss: seq<System>, es: seq<Event>, limit: nat, i: nat)
    requires Execution(ss, es, limit) && i <= |es|
    ensures Accounted(ss, es, i)
  {
    hide Execution, Accounted;
    Longer(ss, es, limit);
    if i == 0 {
      assert Accounted(ss, es, 0) by { NothingToAccountFor(ss, es, limit); }
    } else {
      StatusesWereReported(ss, es, limit, i - 1);
      if Reports(es[i - 1]) {
        ReportKeepsAccounts(ss, es, limit, i - 1);
      } else {
        OthersKeepAccounts(ss, es, limit, i - 1);
      }
    }
  }

  lemma Longer(ss: seq<System>, es: seq<Event>, limit: nat)
    requires Execution(ss, es, limit)
    ensures |ss| == |es| + 1
  {
  }

  lemma NothingToAccountFor(ss: seq<System>, es: seq<Event>, limit: nat)
    requires Execution(ss, es, limit)
    ensures Accounted(ss, es, 0)
  {
  }

  /** Only the overlay is ever skipped. */
  lemma OnlyTheOverlayIsSkipped(ss: seq<System>, es: seq<Event>, limit: nat, i: nat, id: JobId, n: StepName)
    requires Execution(ss, es, limit) && i <= |es| && id in ss[i].rows && Says(ss[i].rows[id].steps, n, Skipped)
    ensures n == SemanticOverlay
  {
    StatusesWereReported(ss, es, limit, i);
    hide Execution;
    Longer(ss, es, limit);
    assert WasReported(ss, es, i, ss[i].rows[id].datasource, Step(n, Skipped));
    var j: nat :| j < i && ReportedAt(ss, es, j, ss[i].rows[id].datasource, n, Skipped);
    Happens(ss, es, limit, j);
  }
}
