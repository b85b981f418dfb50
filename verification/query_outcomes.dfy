/** What a turn reports: `to_response`, the blocking transport and the streaming
    one (`genql/api/query_turn.py`, `genql/api/sse/event_stream.py`). */
module QueryOutcomes {
  import opened Options
  import opened QueryGate
  import opened QuerySelection
  import opened QueryOptimizer
  import opened QueryGraph
  import opened QueryRuns

  datatype Response = Response(
    question: Option<string>,
    suggested: Option<string>,
    options: seq<string>,
    intent: Option<string>,
    validatedSql: Option<string>,
    result: Option<Rows>,
    applied: seq<Pair>,
    assumed: seq<Pair>,
    narrowing: Option<string>,
    rules: seq<string>,
    planText: Option<string>,
    objects: seq<string>,
    how: Option<Method>,
    candidateCount: nat,
    probeCount: nat)

  /** The mapping a transport ends up with: the state, and `__interrupt__`. */
  datatype Raw = Raw(state: QueryState, interrupt: Option<Payload>)

  function AppliedOf(s: QueryState): seq<Pair> { if s.ambiguity.None? then [] else s.ambiguity.value.applied }

  function AssumedOf(s: QueryState): seq<Pair> { if s.ambiguity.None? then [] else s.ambiguity.value.assumed }

  /** `to_response` */
  function ToResponse(raw: Raw): Response {
    var s := raw.state;
    if raw.interrupt.Some? then
      var p := raw.interrupt.value;
      Response(Some(p.question), if p.suggested == Some("") then None else p.suggested, p.options, None, None, None,
               AppliedOf(s), AssumedOf(s), None, [], None, [], None, 0, 0)
    else
      var overBudget := s.optimization.Some? && !s.optimization.value.within;
      var shortCircuited := s.validatedSql.None? && s.result.None? && !overBudget;
      Response(None, None, [], if shortCircuited then s.intent else None, s.validatedSql, s.result,
               AppliedOf(s), AssumedOf(s),
               if overBudget then s.optimization.value.suggestion else None,
               if s.optimization.Some? then s.optimization.value.rules else [],
               if s.plan.Some? then Some(s.plan.value.text) else None,
               if s.plan.Some? then s.plan.value.objects else [],
               if s.selection.Some? then Some(s.selection.value.how) else None,
               |s.candidates|, |s.probes|)
  }

  predicate Over(t: Turn) { t.place.Waiting? || t.place.Finished? }

  /** What a blocking invoke returns: the whole state. */
  function Blocking(t: Turn): Raw
    requires Over(t)
  {
    Raw(t.state, if t.place.Waiting? then Some(t.place.payload) else None)
  }

  // ------------------------------------------------------------------- one outcome

  datatype View = Paused | OverBudget | OtherIntent | Delivered

  /** The command line's dispatch over a response. */
  function Render(r: Response): View {
    if r.question.Some? then Paused
    else if r.narrowing.Some? then OverBudget
    else if r.intent.Some? then OtherIntent
    else Delivered
  }

  /** The evaluator's case split: why there are no rows, if there are none. */
  function NoRows(r: Response): Option<View> {
    if r.question.Some? then Some(Paused)
    else if r.narrowing.Some? then Some(OverBudget)
    else if r.intent.Some? then Some(OtherIntent)
    else if r.result.None? then Some(Delivered)
    else None
  }

  /** Every turn that pauses or ends reports exactly one outcome, so the two
      dispatches are total, agree, and never reach the evaluator's last resort. */
  lemma ExactlyOneOutcome(cfg: Settings, t: Turn)
    requires Inv(cfg, t) && Over(t)
    ensures var r := ToResponse(Blocking(t));
            && One(r.question.Some?) + One(r.intent.Some?) + One(r.narrowing.Some?) + One(r.result.Some?) == 1
            && (Render(r) == Paused <==> r.question.Some?)
            && (Render(r) == OverBudget <==> r.narrowing.Some?)
            && (Render(r) == OtherIntent <==> r.intent.Some?)
            && (Render(r) == Delivered <==> r.result.Some?)
            && NoRows(r) == (if r.result.Some? then None else Some(Render(r)))
            && (r.question.Some? ==> r.question.value != "")
            && (r.intent.Some? ==> r.intent.value != "analytical_sql")
            && (r.narrowing.Some? ==> r.validatedSql.Some?)
  {
    hide DialogueOk, Untouched, Judged;
    if t.place.Finished? { OutcomeParts(cfg, t); }
  }

  lemma OutcomeParts(cfg: Settings, t: Turn)
    requires Inv(cfg, t) && t.place.Finished?
    ensures var s := t.state;
            || (s.validatedSql.None? && s.result.None? && s.optimization.None? && s.intent.Some?
                && s.intent.value != "analytical_sql")
            || (s.validatedSql.Some? && s.result.None? && s.optimization.Some? && !s.optimization.value.within
                && s.optimization.value.suggestion.Some?)
            || (s.validatedSql.Some? && s.result.Some? && s.optimization.Some? && s.optimization.value.within)
  {
    hide DialogueOk;
  }
}
