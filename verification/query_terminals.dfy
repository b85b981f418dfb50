/** What the last event of a stream says: the outcome of the run, by its name and by what
    it carries. */
module QueryTerminals {
  import opened Options
  import opened QueryGate
  import opened QuerySelection
  import opened QueryOptimizer
  import opened QueryGraph
  import opened QueryRuns
  import opened QueryOutcomes
  import opened QueryHistory
  import opened QueryStream
  import opened QueryDialogue
  import opened QueryEndings

  /** The response asks what the run paused for, with everything decided so far, and
      delivers nothing. */
  predicate Asks(r: Response, payload: Payload, s: QueryState) {
    && s.ambiguity.Some? && r.applied == s.ambiguity.value.applied && r.assumed == s.ambiguity.value.assumed
    && r.question == Some(payload.question) && r.options == payload.options
    && (r.suggested.Some? <==> payload.suggested.Some? && payload.suggested.value != "")
    && (r.suggested.Some? ==> r.suggested == payload.suggested)
    && r.intent.None? && r.validatedSql.None? && r.result.None? && r.narrowing.None? && r.planText.None?
    && r.how.None? && r.rules == [] && r.objects == [] && r.candidateCount == 0 && r.probeCount == 0
  }

  /** The response delivers what the ended run left: its statement and rows, what the
      user did not decide, and how the statement came about; instead of rows, the intent
      if that stopped the turn, or the suggestion if the budget did. */
  predicate Delivers(r: Response, s: QueryState) {
    && r.question.None? && r.suggested.None? && r.options == []
    && r.validatedSql == s.validatedSql && r.result == s.result
    && (s.ambiguity.Some? ==> r.applied == s.ambiguity.value.applied && r.assumed == s.ambiguity.value.assumed)
    && (s.ambiguity.None? ==> r.applied == [] && r.assumed == [])
    && (r.intent.Some? <==> s.plan.None?) && (r.intent.Some? ==> r.intent == s.intent)
    && (r.narrowing.Some? <==> s.plan.Some? && s.result.None?)
    && (r.narrowing.Some? ==> s.optimization.Some? && r.narrowing == s.optimization.value.suggestion)
    && (s.optimization.Some? ==> r.rules == s.optimization.value.rules)
    && (s.optimization.None? ==> r.rules == [])
    && (s.plan.Some? ==> r.planText == Some(s.plan.value.text) && r.objects == s.plan.value.objects)
    && (s.plan.None? ==> r.planText.None? && r.objects == [])
    && (s.selection.Some? ==> r.how == Some(s.selection.value.how)) && (s.selection.None? ==> r.how.None?)
    && r.candidateCount == |s.candidates| && r.probeCount == |s.probes|
  }

  lemma PausedAsks(cfg: Settings, t: Turn)
    requires Inv(cfg, t) && t.place.Waiting?
    ensures Asks(ToResponse(Blocking(t)), t.place.payload, t.state)
  {
    hide DialogueOk;
  }

  lemma FinishedDelivers(cfg: Settings, t: Turn)
    requires Inv(cfg, t) && t.place.Finished?
    ensures Delivers(ToResponse(Blocking(t)), t.state)
  {
    hide DialogueOk;
  }

  /** The run is that of a question, or of an answer to a turn that waits. */
  ghost predicate Invoked(cfg: Settings, t: Turn, answer: Option<string>, start: QueryState) {
    start == InitialState(start.question, start.datasource, start.domain) &&
    if answer.None? then t == Turn(At(Intent), start)
    else exists u: Turn :: u.place.Waiting? && Inv(cfg, u) && t == Resumed(u)
  }

  /** The response that the stream builds from its deltas is the blocking one. */
  lemma StreamResponds(cfg: Settings, t: Turn, answer: Option<string>, os: seq<Oracle>, bare: bool, start: QueryState)
    requires Invoked(cfg, t, answer, start) && Over(Last(Run(cfg, t, answer, os)))
    ensures var last := Last(Run(cfg, t, answer, os));
            Inv(cfg, last)
            && ToResponse(Fold(Raw(start, None), Chunks(cfg, t, answer, os, bare))) == ToResponse(Blocking(last))
  {
    hide Inv, Run, Chunks, Fold, ToResponse;
    if answer.None? {
      StartHolds(cfg, start.question, start.datasource, start.domain);
      FreshStreamAgrees(cfg, start.question, start.datasource, start.domain, os, bare);
    } else {
      var u: Turn :| u.place.Waiting? && Inv(cfg, u) && t == Resumed(u);
      ResumeHolds(cfg, u);
      ResumedStreamAgrees(cfg, u, answer.value, os, bare, start.question, start.datasource, start.domain);
    }
    LastKeeps(cfg, t, answer, os);
  }

  /** Over every run that has stopped, fresh or resumed, in any thread: if its stream ends
      properly, the last event is a clarification exactly if the run ended waiting, and asks
      what it waits for; a result exactly if it ran to its end, and delivers what it left;
      and an error exactly if an exception ended it. A warning stands in front of it exactly
      if the turn was to be recorded and could not. */
  lemma TerminalTellsTheOutcome(cfg: Settings, t: Turn, answer: Option<string>, os: seq<Oracle>, bare: bool,
                                start: QueryState, a: Archive, store: Option<Store>)
    requires Invoked(cfg, t, answer, start) && !Last(Run(cfg, t, answer, os)).place.At?
    requires EndsProperly(Streamed(cfg, t, answer, os, bare, start, a, store))
    ensures var es, last := Streamed(cfg, t, answer, os, bare, start, a, store), Last(Run(cfg, t, answer, os));
            var e := es[|es| - 1];
            && (e.Clarification? <==> last.place.Waiting?)
            && (e.Clarification? ==> Asks(e.response, last.place.payload, last.state))
            && (e.Result? <==> last.place.Finished?)
            && (e.Result? ==> Delivers(e.response, last.state))
            && (e.Error? <==> last.place.Failed?)
            && (last.place.Failed? ==> IsGenql(last.place.error))
            && (Warning in es <==> Ending(cfg, t, answer, os, bare, start, a, store).1.Unsaved?)
            && (Warning in es ==> |es| > 1 && es[|es| - 2] == Warning)
  {
    hide Inv, Run, Chunks, Fold, ToResponse, Asks, Delivers, Remembered, Invoked, Passes;
    var es, last := Streamed(cfg, t, answer, os, bare, start, a, store), Last(Run(cfg, t, answer, os));
    var chunks := Chunks(cfg, t, answer, os, bare);
    var raw := Fold(Raw(start, None), chunks);
    var history := Ending(cfg, t, answer, os, bare, start, a, store).1;
    var closing := Closing(raw, EndOf(last), history);
    assert es == Stages(chunks) + closing;
    assert Stages(chunks) + [] == Stages(chunks);
    assert closing != [];
    assert es[|es| - 1] == closing[|closing| - 1];
    assert Warning in es <==> Warning in closing;
    if Over(last) {
      StreamResponds(cfg, t, answer, os, bare, start);
      if last.place.Waiting? { PausedAsks(cfg, last); AskingIsQuestion(ToResponse(raw), last); }
      else { FinishedDelivers(cfg, last); DeliveringIsNoQuestion(ToResponse(raw), last); }
    } else {
      assert history == Unrecorded by { RaisedIsNotRecorded(a, InvokeOf(start, answer, ToResponse(raw), store), last); }
    }
  }

  lemma AskingIsQuestion(r: Response, t: Turn)
    requires t.place.Waiting? && Asks(r, t.place.payload, t.state)
    ensures r.question.Some?
  {
  }

  lemma DeliveringIsNoQuestion(r: Response, t: Turn)
    requires Delivers(r, t.state)
    ensures r.question.None?
  {
  }

  lemma RaisedIsNotRecorded(a: Archive, i: Invoke, last: Turn)
    requires last.place.Failed?
    ensures Remembered(a, i, EndOf(last)) == (a, Unrecorded)
  {
  }
}
