/** Executions that show why each hypothesis of the protocol is there. */
module IngestionHazards {
  import opened Options
  import opened IngestionJobs
  import opened IngestionQueue
  import opened IngestionProtocol

  lemma Extend(ss: seq<System>, es: seq<Event>, limit: nat, e: Event)
    requires Execution(ss, es, limit) && Enabled(ss[|es|], e)
    ensures var next := Apply(ss[|es|], e, limit);
            Execution(ss + [next], es + [e], limit) &&
            (PromptExecution(ss, es, limit) && (e == Sweep ==> Prompt(ss[|es|], limit)) ==>
              PromptExecution(ss + [next], es + [e], limit))
  {
    hide Enabled, Apply, Prompt;
  }

  /** A live worker whose steps all succeed brings its job to success, and leaves other
      workers alone. */
  lemma {:induction false} Drive(ss: seq<System>, es: seq<Event>, limit: nat, w: WorkerId, id: JobId)
      returns (ss': seq<System>, es': seq<Event>)
    requires Execution(ss, es, limit)
    requires var s := ss[|es|]; w in s.runs && s.runs[w].phase.Idle? && s.runs[w].job == id && id in s.rows
    ensures Execution(ss', es', limit) && |es'| > |es|
    ensures PromptExecution(ss, es, limit) ==> PromptExecution(ss', es', limit)
    ensures var s := ss'[|es'|];
            && id in s.rows && s.rows[id].status == Won && s.tainted == ss[|es|].tainted
            && s.runs == ss[|es|].runs - {w}
    decreases |ss[|es|].runs[w].todo|
  {
    hide Execution, PromptExecution, Record;
    SameLength(ss, es, limit);
    var s := ss[|es|];
    if s.runs[w].todo == [] {
      Extend(ss, es, limit, FinishWon(w));
      ss', es' := ss + [Apply(s, FinishWon(w), limit)], es + [FinishWon(w)];
    } else {
      var s1 := Apply(s, Begin(w), limit);
      Extend(ss, es, limit, Begin(w));
      var ss1, es1 := ss + [s1], es + [Begin(w)];
      assert ss1[|es1|] == s1;
      Extend(ss1, es1, limit, Complete(w, false));
      var s2 := Apply(s1, Complete(w, false), limit);
      var ss2, es2 := ss1 + [s2], es1 + [Complete(w, false)];
      assert ss2[|es2|] == s2;
      ss', es' := Drive(ss2, es2, limit, w, id);
    }
  }

  lemma SameLength(ss: seq<System>, es: seq<Event>, limit: nat)
    requires Execution(ss, es, limit)
    ensures |ss| == |es| + 1
  {
  }

  lemma PromptNow(ss: seq<System>, es: seq<Event>, limit: nat)
    requires PromptExecution(ss, es, limit)
    ensures Execution(ss, es, limit) && |ss| == |es| + 1 && PromptAtSweeps(ss, es, limit, |es|)
  {
  }

  /** The system with one fresh job, and then with worker 1 on it. */
  function Submitted(): System {
    System(map[0 := NewJob("warehouse", PendingFrom(0), 0)], map[], map[], {}, 0)
  }

  function Taken(): System {
    Submitted().(rows := map[0 := Claimed(NewJob("warehouse", PendingFrom(0), 0), 1, 0)],
                 runs := map[1 := Run(0, Todo(PendingFrom(0)), Idle(false), 0)])
  }

  lemma TakenIsReached(limit: nat)
    ensures PromptExecution([EMPTY, Submitted(), Taken()], [Register(0, "warehouse"), Claim(1, 0)], limit)
  {
    hide Todo, Record;
    var none: seq<Event> := [];
    assert Enabled(EMPTY, Register(0, "warehouse"));
    assert !HasRunning(PendingFrom(0));
    assert CarryForward(None, None) == PendingFrom(0);
    assert Apply(EMPTY, Register(0, "warehouse"), limit) == Submitted();
    assert Apply(Submitted(), Claim(1, 0), limit) == Taken();
  }

  lemma TodoStarts(steps: seq<Step>)
    requires steps != [] && Unfinished(steps[0])
    ensures Todo(steps) != [] && Todo(steps)[0] == steps[0]
  {
  }

  /** Worker 1 has reported its first step as running. */
  function Started(): (s: System)
    requires Todo(PendingFrom(0)) != []
  {
    Taken().(rows := WriteStep(Taken(), 1, Running), runs := map[1 := Run(0, Todo(PendingFrom(0)), Working, 0)])
  }

  lemma StartedRuns()
    ensures Todo(PendingFrom(0)) != [] && HasRunning(Started().rows[0].steps)
    ensures Started().rows[0].steps[0] == Step(NameAt(0), Running)
    ensures Enabled(Taken(), Begin(1)) && forall limit :: Apply(Taken(), Begin(1), limit) == Started()
  {
    hide Todo;
    TodoStarts(PendingFrom(0));
    assert PendingFrom(0)[0].name == NameAt(0);
    assert Started().rows[0].steps[0] == Step(NameAt(0), Running);
  }

  /** Without the timing hypothesis two workers hold one job: the run of worker 1
      outlives the limit, a sweep releases the job and worker 2 claims it. */
  lemma SlowRunIsShared(limit: nat) returns (ss: seq<System>, es: seq<Event>)
    ensures Execution(ss, es, limit) && |ss| == |es| + 1
    ensures var s := ss[|es|];
            && 1 in s.runs && 2 in s.runs && s.runs[1].job == s.runs[2].job == 0 && 0 in s.rows
            && s.runs[1].phase == Idle(false) && s.runs[2].phase == Idle(false)
  {
    hide Execution, PromptExecution, Todo, Prompt;
    TakenIsReached(limit);
    ss, es := [EMPTY, Submitted(), Taken()], [Register(0, "warehouse"), Claim(1, 0)];
    PromptNow(ss, es, limit);
    Extend(ss, es, limit, Tick(limit + 1));
    var s3 := Apply(Taken(), Tick(limit + 1), limit);
    ss, es := ss + [s3], es + [Tick(limit + 1)];
    Extend(ss, es, limit, Sweep);
    var s4 := Apply(s3, Sweep, limit);
    ss, es := ss + [s4], es + [Sweep];
    Extend(ss, es, limit, Claim(2, 0));
    ss, es := ss + [Apply(s4, Claim(2, 0), limit)], es + [Claim(2, 0)];
    SameLength(ss, es, limit);
  }

  /** Nor is a finished job safe then: worker 2 brings it to success, and the stale worker
      1, which never got its service, overwrites that with a failure. */
  lemma StaleWorkerOverwrites(limit: nat) returns (ss: seq<System>, es: seq<Event>, i: nat)
    ensures Execution(ss, es, limit) && |ss| == |es| + 1 && i < |es|
    ensures 0 in ss[i].rows && ss[i].rows[0].status == Won
    ensures 0 in ss[i + 1].rows && ss[i + 1].rows[0].status == Lost
  {
    hide Execution, PromptExecution, Todo, FirstFailed;
    ss, es := SlowRunIsShared(limit);
    ss, es := Drive(ss, es, limit, 2, 0);
    SameLength(ss, es, limit);
    var s1 := Apply(ss[|es|], NoService(1), limit);
    Extend(ss, es, limit, NoService(1));
    ss, es := ss + [s1], es + [NoService(1)];
    i := |es|;
    Extend(ss, es, limit, FinishLost(1));
    ss, es := ss + [Apply(s1, FinishLost(1), limit)], es + [FinishLost(1)];
    SameLength(ss, es, limit);
  }

  lemma StartedIsReached(limit: nat) returns (ss: seq<System>, es: seq<Event>)
    ensures Todo(PendingFrom(0)) != []
    ensures PromptExecution(ss, es, limit) && |ss| == |es| + 1 && ss[|es|] == Started()
  {
    hide Execution, PromptExecution, Todo, Record;
    TakenIsReached(limit);
    StartedRuns();
    ss, es := [EMPTY, Submitted(), Taken()], [Register(0, "warehouse"), Claim(1, 0)];
    PromptNow(ss, es, limit);
    Extend(ss, es, limit, Begin(1));
    ss, es := ss + [Started()], es + [Begin(1)];
  }

  lemma CrashTaints(limit: nat) returns (ss: seq<System>, es: seq<Event>)
    ensures PromptExecution(ss, es, limit) && |ss| == |es| + 1
    ensures var s := ss[|es|]; 0 in s.rows && 0 in s.tainted && s.rows[0].status == Queued && s.runs == map[]
  {
    hide Execution, PromptExecution, Todo, Record;
    ss, es := StartedIsReached(limit);
    PromptNow(ss, es, limit);
    StartedRuns();
    var s3 := Started();
    var s4 := Apply(s3, Crash(1), limit);
    Extend(ss, es, limit, Crash(1));
    ss, es := ss + [s4], es + [Crash(1)];
    var s5 := Apply(s4, Tick(limit + 1), limit);
    Extend(ss, es, limit, Tick(limit + 1));
    ss, es := ss + [s5], es + [Tick(limit + 1)];
    Extend(ss, es, limit, Sweep);
    ss, es := ss + [Apply(s5, Sweep, limit)], es + [Sweep];
  }

  /** A crash inside a step taints its job even when every sweep is prompt: the
      sweep returns the job with that step still running, no worker takes a
      running step up again, and the job succeeds without it. */
  lemma CrashInsideStepIsNeverRedone(limit: nat) returns (ss: seq<System>, es: seq<Event>)
    ensures PromptExecution(ss, es, limit) && |ss| == |es| + 1
    ensures var s := ss[|es|]; 0 in s.rows && s.rows[0].status == Won && HasRunning(s.rows[0].steps)
  {
    hide Execution, PromptExecution, Todo, HasRunning;
    ss, es := CrashTaints(limit);
    PromptNow(ss, es, limit);
    Extend(ss, es, limit, Claim(2, 0));
    ss, es := ss + [Apply(ss[|es|], Claim(2, 0), limit)], es + [Claim(2, 0)];
    ss, es := Drive(ss, es, limit, 2, 0);
    PromptNow(ss, es, limit);
    WonMeansDoneUnlessTainted(ss, es, limit, |es|, 0);
  }

  lemma LatestReadWhileRunning(limit: nat) returns (ss: seq<System>, es: seq<Event>)
    ensures Todo(PendingFrom(0)) != []
    ensures PromptExecution(ss, es, limit) && |ss| == |es| + 1
    ensures var s := ss[|es|];
            && s.retries == map[0 := ("warehouse", Some(Started().rows[0].steps))]
            && s.rows.Keys == {0} && s.rows[0].status == Lost && s.runs == map[] && s.now == 0
  {
    hide Execution, PromptExecution, Todo, Record;
    ss, es := StartedIsReached(limit);
    PromptNow(ss, es, limit);
    var s3 := Started();
    var s4 := Apply(s3, ReadLatest(0, Some(0), "warehouse"), limit);
    Extend(ss, es, limit, ReadLatest(0, Some(0), "warehouse"));
    ss, es := ss + [s4], es + [ReadLatest(0, Some(0), "warehouse")];
    var s5 := Apply(s4, Raise(1), limit);
    Extend(ss, es, limit, Raise(1));
    ss, es := ss + [s5], es + [Raise(1)];
    Extend(ss, es, limit, FinishLost(1));
    ss, es := ss + [Apply(s5, FinishLost(1), limit)], es + [FinishLost(1)];
  }

  /** A retry request that reads the latest job while a step of it runs, and
      submits once that job has failed, queues a job born with a running step:
      no crash and no sweep is needed. */
  lemma RetryRaceInheritsRunningStep(limit: nat) returns (ss: seq<System>, es: seq<Event>)
    ensures PromptExecution(ss, es, limit) && |ss| == |es| + 1
    ensures var s := ss[|es|]; 1 in s.rows && s.rows[1].status == Queued && HasRunning(s.rows[1].steps)
  {
    hide Execution, PromptExecution, Todo, Record, CarryForward;
    ss, es := LatestReadWhileRunning(limit);
    PromptNow(ss, es, limit);
    StartedRuns();
    var s6 := ss[|es|];
    var retry := SubmitRetry(0, 1, Some(NameAt(1)));
    KeepsFirst(Started().rows[0].steps);
    assert CarryForward(Some(NameAt(1)), s6.retries[0].1)[0].status == Running;
    Extend(ss, es, limit, retry);
    ss, es := ss + [Apply(s6, retry, limit)], es + [retry];
  }

  lemma KeepsFirst(steps: seq<Step>)
    requires steps != [] && steps[0].name == NameAt(0)
    ensures var r := CarryForward(Some(NameAt(1)), Some(steps)); r != [] && r[0] == steps[0]
  {
  }
}
