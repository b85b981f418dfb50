/** Chains of retries: which jobs list the whole pipeline. No hypothesis on time
    is needed here; crashes, sweeps and workers that outlive them are included. */
module IngestionChains {
  import opened Options
  import opened IngestionJobs
  import opened IngestionQueue

  predicate AllFull(rows: Rows) { forall id :: id in rows ==> Full(rows[id].steps) }

  /** Every row, and every list a retry request has read, names all six steps. */
  predicate Whole(s: System) {
    && AllFull(s.rows)
    && forall q :: q in s.retries && s.retries[q].1.Some? ==> Full(s.retries[q].1.value)
  }

  /** A retry that starts part-way although its request found no earlier job. */
  predicate Headless(s: System, e: Event) {
    && e.SubmitRetry? && e.request in s.retries && s.retries[e.request].1.None?
    && e.startFrom.Some? && Rank(e.startFrom.value) > 0
  }

  lemma RecordKeepsFull(steps: seq<Step>, step: Step)
    requires Full(steps)
    ensures Full(Record(steps, step))
  {
    hide Rank;
    var r := Rank(step.name);
    assert Rank(steps[r].name) == r;
    assert steps[r].name == step.name by { SameRankSameName(steps[r].name, step.name); }
  }

  lemma SameRankSameName(a: StepName, b: StepName)
    requires Rank(a) == Rank(b)
    ensures a == b
  {
  }

  lemma CarriedIsFull(startFrom: Option<StepName>, previous: Option<seq<Step>>)
    requires previous.Some? ==> Full(previous.value)
    ensures Full(CarryForward(startFrom, previous))
       <==> !(previous.None? && startFrom.Some? && Rank(startFrom.value) > 0)
  {
    hide Rank, Kept;
    if previous.Some? { RetryKeepsAllSteps(startFrom, previous.value); }
  }

  lemma EventKeepsWhole(s: System, e: Event, limit: nat)
    requires Whole(s) && Enabled(s, e)
    ensures Whole(Apply(s, e, limit)) <==> !Headless(s, e)
    ensures Headless(s, e) ==> !AllFull(Apply(s, e, limit).rows)
  {
    hide Full, Record, CarryForward, Todo, FirstFailed, HasRunning, Rank, Busy;
    match e
    case Register(id, d) => CarriedIsFull(None, None);
    case SubmitRetry(q, id, k) =>
      CarriedIsFull(k, s.retries[q].1);
      assert Apply(s, e, limit).rows[id].steps == CarryForward(k, s.retries[q].1);
    case Begin(w) => RecordKeepsFull(s.rows[s.runs[w].job].steps, s.runs[w].todo[0].(status := Running));
    case Complete(w, skipped) =>
      RecordKeepsFull(s.rows[s.runs[w].job].steps,
          s.runs[w].todo[0].(status := if skipped then Skipped else Succeeded));
    case Raise(w) => RecordKeepsFull(s.rows[s.runs[w].job].steps, s.runs[w].todo[0].(status := Failed));
    case _ =>
  }

  /** Every job of every state lists all six steps, in order, exactly when no
      request retried part-way from a history it had found empty. */
  lemma {:induction false} JobsAreFullUnlessHeadless(ss: seq<System>, es: seq<Event>, limit: nat, i: nat)
    requires Execution(ss, es, limit) && i < |ss|
    ensures (forall j :: 0 <= j <= i ==> AllFull(ss[j].rows)) <==> (forall j :: 0 <= j < i ==> !Headless(ss[j], es[j]))
    ensures (forall j :: 0 <= j < i ==> !Headless(ss[j], es[j])) ==> Whole(ss[i])
  {
    hide AllFull, Whole, Headless, Apply, Enabled;
    if i == 0 {
      assert Whole(EMPTY) && AllFull(EMPTY.rows) by { EmptyIsWhole(); }
    } else {
      JobsAreFullUnlessHeadless(ss, es, limit, i - 1);
      if forall j :: 0 <= j < i - 1 ==> !Headless(ss[j], es[j]) {
        EventKeepsWhole(ss[i - 1], es[i - 1], limit);
        WholeIsFull(ss[i]);
        assert ss[i] == Apply(ss[i - 1], es[i - 1], limit);
      }
    }
  }

  lemma EmptyIsWhole()
    ensures Whole(EMPTY) && AllFull(EMPTY.rows)
  {
  }

  lemma WholeIsFull(s: System)
    ensures Whole(s) ==> AllFull(s.rows)
  {
  }
}
