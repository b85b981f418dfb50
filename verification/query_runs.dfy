/** What holds in every reachable place of a turn, and how long a turn can be. */
module QueryRuns {
  import opened Options
  import opened QueryGate
  import opened QuerySelection
  import opened QueryOptimizer
  import opened QueryGraph

  // -------------------------------------------------------------------- invariant

  /** Each answered dimension is a listed one, none twice, within the budget. */
  predicate DialogueOk(gate: Gate, answers: seq<Pair>) {
    && (forall i :: 0 <= i < |answers| ==> answers[i].dimension in DIMENSIONS)
    && (forall i, j :: 0 <= i < j < |answers| ==> answers[i].dimension != answers[j].dimension)
    && (gate.maxQuestions.Some? && |answers| > 0 ==> |answers| <= gate.maxQuestions.value)
  }

  /** No stage behind the gate has written anything. */
  predicate Untouched(s: QueryState) {
    && s.plan.None? && s.candidates == [] && s.validatedSqls == [] && s.reports == [] && s.probes == []
    && s.selection.None? && s.optimization.None? && s.validatedSql.None? && s.result.None?
    && !s.escalated && s.retryCount == 0 && s.violations == []
  }

  /** The gate has a question it may ask. */
  predicate Asking(gate: Gate, s: QueryState) {
    && s.ambiguity.Some? && s.ambiguity.value.isAmbiguous && s.ambiguity.value.missing.Some?
    && s.ambiguity.value.missing.value in DIMENSIONS
    && s.ambiguity.value.missing.value !in Answered(s.clarifications)
    && s.ambiguity.value.question.Some? && s.ambiguity.value.question.value != ""
    && !BudgetSpent(gate, s.clarifications)
  }

  /** The gate has cleared the turn. */
  predicate Cleared(cfg: Settings, s: QueryState) {
    && s.ambiguity.Some? && !s.ambiguity.value.isAmbiguous
    && s.contested == (|s.clarifications| >= cfg.contestedMin)
  }

  predicate Undecided(s: QueryState) {
    && s.plan.Some? && s.probes == []
    && s.selection.None? && s.optimization.None? && s.validatedSql.None? && s.result.None?
  }

  predicate Paired(s: QueryState) { s.candidates != [] && |s.candidates| == |s.validatedSqls| }

  predicate Reported(s: QueryState) {
    if s.contested && |s.candidates| > 1 then Indexed(s.reports, |s.candidates|) && !AllFatal(s.reports)
    else s.reports == []
  }

  predicate Decided(s: QueryState) {
    s.plan.Some? && s.selection.Some? && s.validatedSql.Some? && s.result.None?
  }

  /** The statement on record is the one the cost gate passed judgement on, and
      costs no more than the selected statement does once rewritten. */
  predicate Judged(cfg: Settings, s: QueryState) {
    && s.selection.Some?
    && s.optimization.Some? && s.validatedSql == Some(s.optimization.value.sql)
    && cfg.optimizer.estimate(s.optimization.value.sql) == Ok(s.optimization.value.cost)
    && (s.optimization.value.within <==> s.optimization.value.cost <= cfg.optimizer.budget)
    && (s.optimization.value.within <==> s.optimization.value.suggestion.None?)
    && var plain := cfg.optimizer.estimate(Rewritten(cfg.optimizer, s.selection.value.sql).0);
       plain.Ok? && s.optimization.value.cost <= plain.value
  }

  /** The three ways a turn ends. */
  predicate Ended(cfg: Settings, s: QueryState) {
    || (Untouched(s) && !s.contested && s.ambiguity.None? && s.intent.Some? && s.intent != Some("analytical_sql"))
    || (Cleared(cfg, s) && Decided(s) && Judged(cfg, s) && !s.optimization.value.within)
    || (Cleared(cfg, s) && s.plan.Some? && s.selection.Some? && s.result.Some? && Judged(cfg, s)
        && s.optimization.value.within)
  }

  predicate Inv(cfg: Settings, t: Turn) {
    var s := t.state;
    && DialogueOk(cfg.gate, s.clarifications)
    && match t.place
       case At(Intent) => Untouched(s) && !s.contested && s.ambiguity.None?
       case At(Domain) => Untouched(s) && !s.contested
       case At(Linking) => Untouched(s) && !s.contested
       case At(AmbiguityGate) => Untouched(s) && !s.contested
       case At(Interrupt) => Untouched(s) && !s.contested && Asking(cfg.gate, s)
       case Waiting(p) => Untouched(s) && !s.contested && Asking(cfg.gate, s)
                          && p == Payload(s.ambiguity.value.question.value, s.ambiguity.value.suggested,
                              s.ambiguity.value.options)
       case At(Planning) => Untouched(s) && Cleared(cfg, s)
       case At(Generation) => Cleared(cfg, s) && Undecided(s)
       case At(Validation) => Cleared(cfg, s) && Undecided(s)
       case At(Critiquing) => Cleared(cfg, s) && Undecided(s) && Paired(s)
       case At(Probing) => Cleared(cfg, s) && Undecided(s) && Paired(s) && Reported(s)
       case At(Selecting) => Cleared(cfg, s) && Undecided(s.(probes := [])) && Paired(s) && Reported(s)
       case At(CostGate) => Cleared(cfg, s) && Decided(s) && s.optimization.None?
       case At(Execution) => Cleared(cfg, s) && Decided(s) && Judged(cfg, s) && s.optimization.value.within
       case Finished => Ended(cfg, s)
       case Failed(_) => true
  }

  // ----------------------------------------------------------- one node at a time

  lemma GateKeeps(cfg: Settings, t: Turn, answer: Option<string>, o: Oracle)
    requires t.place == At(AmbiguityGate) && Inv(cfg, t)
    ensures Inv(cfg, Visit(cfg, t, answer, o))
  {
    hide Assess, Answered, OpenDimensions, KnownNow, Defaults, LinksOf;
    var s := t.state;
    if o.rules.Ok? {
      var r := Assess(cfg.gate, o.rules.value, LinksOf(s), s.clarifications, s.gateScores, o.gate);
      if r.Ok? && r.value.isAmbiguous {
        QuestionIsFresh(cfg.gate, o.rules.value, LinksOf(s), s.clarifications, s.gateScores, o.gate);
        OpenIsUnanswered(o.rules.value, LinksOf(s), s.clarifications, r.value.missing.value);
      }
    }
  }

  lemma AnswerKeepsDialogue(gate: Gate, answers: seq<Pair>, d: Dimension, value: string)
    requires DialogueOk(gate, answers) && d in DIMENSIONS && d !in Answered(answers) && !BudgetSpent(gate, answers)
    ensures DialogueOk(gate, answers + [Pair(d, value)])
  {
    var more := answers + [Pair(d, value)];
    forall i | 0 <= i < |answers|
      ensures answers[i].dimension in Answered(answers)
    {
      assert answers[i] in answers;
    }
  }

  lemma InterruptKeeps(cfg: Settings, t: Turn, answer: Option<string>, o: Oracle)
    requires t.place == At(Interrupt) && Inv(cfg, t)
    ensures Inv(cfg, Visit(cfg, t, answer, o))
  {
    hide DialogueOk, Answered;
    if answer.Some? {
      AnswerKeepsDialogue(cfg.gate, t.state.clarifications, t.state.ambiguity.value.missing.value, answer.value);
    }
  }

  lemma CritiqueKeeps(cfg: Settings, t: Turn, answer: Option<string>, o: Oracle)
    requires t.place == At(Critiquing) && Inv(cfg, t)
    ensures Inv(cfg, Visit(cfg, t, answer, o))
  {
    hide ReportFor, IsFatal, DialogueOk;
  }

  lemma CostGateKeeps(cfg: Settings, t: Turn, answer: Option<string>, o: Oracle)
    requires t.place == At(CostGate) && Inv(cfg, t)
    ensures Inv(cfg, Visit(cfg, t, answer, o))
  {
    hide Optimize, DialogueOk;
    var sql := t.state.selection.value.sql;
    if Optimize(cfg.optimizer, sql, o.decomposed).Ok? {
      VerdictIsHonest(cfg.optimizer, sql, o.decomposed);
    }
  }

  lemma SelectingKeeps(cfg: Settings, t: Turn, answer: Option<string>, o: Oracle)
    requires t.place == At(Selecting) && Inv(cfg, t)
    ensures Inv(cfg, Visit(cfg, t, answer, o))
  {
    hide Select, DialogueOk, AllFatal;
  }

  lemma ValidationKeeps(cfg: Settings, t: Turn, answer: Option<string>, o: Oracle)
    requires t.place == At(Validation) && Inv(cfg, t)
    ensures Inv(cfg, Visit(cfg, t, answer, o))
  {
    hide Survivors, AllViolations, DialogueOk;
  }

  /** Every node keeps the invariant, whatever the oracles answer. */
  lemma VisitKeeps(cfg: Settings, t: Turn, answer: Option<string>, o: Oracle)
    requires t.place.At? && Inv(cfg, t)
    ensures Inv(cfg, Visit(cfg, t, answer, o))
  {
    match t.place.node
    case AmbiguityGate => GateKeeps(cfg, t, answer, o);
    case Interrupt => InterruptKeeps(cfg, t, answer, o);
    case Validation => ValidationKeeps(cfg, t, answer, o);
    case Critiquing => CritiqueKeeps(cfg, t, answer, o);
    case Selecting => SelectingKeeps(cfg, t, answer, o);
    case CostGate => CostGateKeeps(cfg, t, answer, o);
    case _ => PlainKeeps(cfg, t, answer, o);
  }

  lemma PlainKeeps(cfg: Settings, t: Turn, answer: Option<string>, o: Oracle)
    requires t.place.At? && Inv(cfg, t)
    requires t.place.node in {Intent, Domain, Linking, Planning, Generation, Probing, Execution}
    ensures Inv(cfg, Visit(cfg, t, answer, o))
  {
    hide DialogueOk, Decisive, AllFatal;
  }

  // ----------------------------------------------------------------------- bounds

  /** One escalated regeneration is still to be had. */
  function Escalation(s: QueryState): nat { if s.contested && !s.escalated then 1 else 0 }

  /** One plain regeneration is still to be had. */
  function Retry(s: QueryState, atGeneration: bool): nat {
    if !s.escalated && s.retryCount == 0 && (atGeneration ==> s.violations == []) then 1 else 0
  }

  /** Nodes that may yet be visited; `c` bounds whether the turn is contested. */
  function Visits(t: Turn, answer: Option<string>, c: bool): nat {
    var s := t.state;
    var more := if c then 3 else 0;
    match t.place
    case At(Intent) => 14 + more
    case At(Domain) => 13 + more
    case At(Linking) => 12 + more
    case At(AmbiguityGate) => 11 + more
    case At(Interrupt) => if answer.Some? then 12 + more else 1
    case At(Planning) => 10 + more
    case At(Generation) => 7 + 2 * Retry(s, true) + 3 * Escalation(s)
    case At(Validation) => 6 + 2 * Retry(s, false) + 3 * Escalation(s)
    case At(Critiquing) => 5 + 3 * Escalation(s)
    case At(Probing) => 4
    case At(Selecting) => 3
    case At(CostGate) => 2
    case At(Execution) => 1
    case _ => 0
  }

  /** Candidate generations that may yet happen. */
  function Generations(t: Turn, answer: Option<string>, c: bool): nat {
    var s := t.state;
    match t.place
    case At(Generation) => 1 + Retry(s, true) + Escalation(s)
    case At(Validation) => Retry(s, false) + Escalation(s)
    case At(Critiquing) => Escalation(s)
    case At(node) =>
      if node in {Probing, Selecting, CostGate, Execution} || (node == Interrupt && answer.None?) then 0
      else if c then 3 else 2
    case _ => 0
  }

  /** Escalated generations that may yet happen. */
  function StrongGenerations(t: Turn, answer: Option<string>, c: bool): nat {
    var s := t.state;
    match t.place
    case At(Generation) => if s.escalated then 1 else Escalation(s)
    case At(Validation) => Escalation(s)
    case At(Critiquing) => Escalation(s)
    case At(node) =>
      if node in {Probing, Selecting, CostGate, Execution} || (node == Interrupt && answer.None?) then 0
      else if c then 1 else 0
    case _ => 0
  }

  /** Critique passes that may yet happen. */
  function Critiques(t: Turn, answer: Option<string>, c: bool): nat {
    var s := t.state;
    match t.place
    case At(Generation) => 1 + Escalation(s)
    case At(Validation) => 1 + Escalation(s)
    case At(Critiquing) => 1 + Escalation(s)
    case At(node) =>
      if node in {Probing, Selecting, CostGate, Execution} || (node == Interrupt && answer.None?) then 0
      else if c then 2 else 1
    case _ => 0
  }

  function One(b: bool): nat { if b then 1 else 0 }

  /** A visit uses up what it is. */
  predicate Spends(t: Turn, t': Turn, answer: Option<string>, c: bool)
    requires t.place.At?
  {
    && Visits(t', None, c) + 1 <= Visits(t, answer, c)
    && Generations(t', None, c) + One(t.place.node == Generation) <= Generations(t, answer, c)
    && StrongGenerations(t', None, c) + One(t.place.node == Generation && t.state.escalated)
        <= StrongGenerations(t, answer, c)
    && Critiques(t', None, c) + One(t.place.node == Critiquing) <= Critiques(t, answer, c)
    && (t.state.escalated ==> t'.state.escalated)
  }

  lemma VisitSpends(cfg: Settings, t: Turn, answer: Option<string>, o: Oracle, c: bool)
    requires t.place.At? && Inv(cfg, t)
    requires t.state.contested ==> c
    ensures Spends(t, Visit(cfg, t, answer, o), answer, c)
  {
    hide Inv, Spends, Visit;
    match t.place.node
    case Validation => ValidationSpends(cfg, t, answer, o, c);
    case Critiquing => CritiqueSpends(cfg, t, answer, o, c);
    case Planning => EarlySpends(cfg, t, answer, o, c);
    case Intent => EarlySpends(cfg, t, answer, o, c);
    case Domain => EarlySpends(cfg, t, answer, o, c);
    case Linking => EarlySpends(cfg, t, answer, o, c);
    case AmbiguityGate => EarlySpends(cfg, t, answer, o, c);
    case Interrupt => EarlySpends(cfg, t, answer, o, c);
    case _ => LateSpends(cfg, t, answer, o, c);
  }

  lemma EarlySpends(cfg: Settings, t: Turn, answer: Option<string>, o: Oracle, c: bool)
    requires t.place.At? && Inv(cfg, t)
    requires t.place.node in {Intent, Domain, Linking, AmbiguityGate, Interrupt, Planning}
    requires t.state.contested ==> c
    ensures Spends(t, Visit(cfg, t, answer, o), answer, c)
  {
    hide DialogueOk, Assess, Answered;
  }

  lemma LateSpends(cfg: Settings, t: Turn, answer: Option<string>, o: Oracle, c: bool)
    requires t.place.At? && t.place.node in {Generation, Probing, Selecting, CostGate, Execution}
    requires t.state.contested ==> c
    ensures Spends(t, Visit(cfg, t, answer, o), answer, c)
  {
    hide Decisive, Select, Optimize;
  }

  lemma ValidationSpends(cfg: Settings, t: Turn, answer: Option<string>, o: Oracle, c: bool)
    requires t.place == At(Validation) && Inv(cfg, t)
    requires t.state.contested ==> c
    ensures Spends(t, Visit(cfg, t, answer, o), answer, c)
  {
    hide DialogueOk, Survivors, AllViolations, Cleared, Undecided;
  }

  lemma CritiqueSpends(cfg: Settings, t: Turn, answer: Option<string>, o: Oracle, c: bool)
    requires t.place == At(Critiquing) && Inv(cfg, t)
    requires t.state.contested ==> c
    ensures Spends(t, Visit(cfg, t, answer, o), answer, c)
  {
    hide DialogueOk, ReportFor, IsFatal, Cleared, Undecided;
  }

  // ------------------------------------------------------------------- whole runs

  function Count(ts: seq<Turn>, p: Turn -> bool): nat {
    if ts == [] then 0 else One(p(ts[0])) + Count(ts[1..], p)
  }

  lemma CountMore(t: Turn, ts: seq<Turn>, p: Turn -> bool)
    ensures Count([t] + ts, p) == One(p(t)) + Count(ts, p)
  {
    assert ([t] + ts)[1..] == ts;
  }

  lemma CountNone()
    ensures forall p :: Count([], p) == 0
  {
  }

  /** The visits of a run: every place but the one it stopped at. */
  function Visited(ts: seq<Turn>): seq<Turn>
    requires ts != []
  {
    ts[..|ts| - 1]
  }

  predicate AtGeneration(t: Turn) { t.place == At(Generation) }

  predicate AtStrongGeneration(t: Turn) { t.place == At(Generation) && t.state.escalated }

  predicate AtCritique(t: Turn) { t.place == At(Critiquing) }

  lemma {:induction false} RunKeeps(cfg: Settings, t: Turn, answer: Option<string>, os: seq<Oracle>)
    requires Inv(cfg, t)
    ensures forall u :: u in Run(cfg, t, answer, os) ==> Inv(cfg, u)
    decreases |os|
  {
    hide Inv, Visit;
    if os != [] && t.place.At? {
      VisitKeeps(cfg, t, answer, os[0]);
      RunKeeps(cfg, Visit(cfg, t, answer, os[0]), None, os[1..]);
    }
  }

  /** What the visits of `ts`, which starts at `t`, used up. */
  predicate Spent(t: Turn, ts: seq<Turn>, answer: Option<string>, c: bool)
    requires ts != []
  {
    && |Visited(ts)| + One(ts[|ts| - 1].place.At?) <= Visits(t, answer, c)
    && Count(Visited(ts), AtGeneration) <= Generations(t, answer, c)
    && Count(Visited(ts), AtStrongGeneration) <= StrongGenerations(t, answer, c)
    && Count(Visited(ts), AtCritique) <= Critiques(t, answer, c)
    && (t.state.escalated ==> ts[|ts| - 1].state.escalated)
  }

  lemma SpentMore(t: Turn, t': Turn, rest: seq<Turn>, answer: Option<string>, c: bool)
    requires t.place.At? && Spends(t, t', answer, c) && rest != [] && Spent(t', rest, None, c)
    ensures Spent(t, [t] + rest, answer, c)
  {
    hide Visits, Generations, StrongGenerations, Critiques, Count;
    assert Visited([t] + rest) == [t] + Visited(rest);
    CountMore(t, Visited(rest), AtGeneration);
    CountMore(t, Visited(rest), AtStrongGeneration);
    CountMore(t, Visited(rest), AtCritique);
  }

  lemma SpentNothing(t: Turn, answer: Option<string>, c: bool)
    ensures Spent(t, [t], answer, c)
  {
    hide Generations, StrongGenerations, Critiques;
    CountNone();
  }

  lemma {:induction false} RunSpends(cfg: Settings, t: Turn, answer: Option<string>, os: seq<Oracle>, c: bool)
    requires Inv(cfg, t)
    requires forall u :: u in Run(cfg, t, answer, os) && u.state.contested ==> c
    ensures Spent(t, Run(cfg, t, answer, os), answer, c)
    decreases |os|
  {
    hide Inv, Visit, Spent, Spends;
    var ts := Run(cfg, t, answer, os);
    if os == [] || !t.place.At? {
      SpentNothing(t, answer, c);
    } else {
      var t' := Visit(cfg, t, answer, os[0]);
      var rest := Run(cfg, t', None, os[1..]);
      assert ts == [t] + rest && t in ts && forall u :: u in rest ==> u in ts;
      VisitKeeps(cfg, t, answer, os[0]);
      VisitSpends(cfg, t, answer, os[0], c);
      RunSpends(cfg, t', None, os[1..], c);
      SpentMore(t, t', rest, answer, c);
    }
  }

  lemma StartHolds(cfg: Settings, question: string, datasource: string, domain: Option<int>)
    ensures Inv(cfg, Start(question, datasource, domain))
  {
  }

  lemma ResumeHolds(cfg: Settings, t: Turn)
    requires t.place.Waiting? && Inv(cfg, t)
    ensures Inv(cfg, Resumed(t))
  {
  }

  /** One invoke, fresh: at most 17 nodes, 3 candidate generations of which one
      escalated, and 2 critiques, whatever every service answers. A turn that is
      never contested visits at most 14 nodes, generates at most twice, never
      escalated, and critiques at most once. */
  lemma FreshInvokeIsBounded(cfg: Settings, question: string, datasource: string, domain: Option<int>, os: seq<Oracle>)
    ensures var ts := Run(cfg, Start(question, datasource, domain), None, os);
            && |Visited(ts)| <= 17
            && Count(Visited(ts), AtGeneration) <= 3
            && Count(Visited(ts), AtStrongGeneration) <= 1
            && Count(Visited(ts), AtCritique) <= 2
            && ((forall t :: t in ts ==> !t.state.contested) ==>
                 && |Visited(ts)| <= 14
                 && Count(Visited(ts), AtGeneration) <= 2
                 && Count(Visited(ts), AtStrongGeneration) == 0
                 && Count(Visited(ts), AtCritique) <= 1)
            && (|os| >= 17 ==> !ts[|ts| - 1].place.At?)
  {
    hide Run, Visit, Inv, Count;
    var t := Start(question, datasource, domain);
    var ts := Run(cfg, t, None, os);
    StartHolds(cfg, question, datasource, domain);
    RunSpends(cfg, t, None, os, true);
    if forall t :: t in ts ==> !t.state.contested {
      RunSpends(cfg, t, None, os, false);
    }
    RunStops(cfg, t, None, os);
  }

  /** One invoke, resumed with an answer: at most 15 nodes. */
  lemma ResumedInvokeIsBounded(cfg: Settings, t: Turn, answer: string, os: seq<Oracle>)
    requires t.place.Waiting? && Inv(cfg, t)
    ensures var ts := Run(cfg, Resumed(t), Some(answer), os);
            && |Visited(ts)| <= 15
            && Count(Visited(ts), AtGeneration) <= 3
            && Count(Visited(ts), AtStrongGeneration) <= 1
            && Count(Visited(ts), AtCritique) <= 2
            && (|os| >= 15 ==> !ts[|ts| - 1].place.At?)
  {
    hide Run, Visit, Inv, Count;
    ResumeHolds(cfg, t);
    RunSpends(cfg, Resumed(t), Some(answer), os, true);
    RunStops(cfg, Resumed(t), Some(answer), os);
  }

  lemma {:induction false} RunStops(cfg: Settings, t: Turn, answer: Option<string>, os: seq<Oracle>)
    ensures var ts := Run(cfg, t, answer, os); ts[|ts| - 1].place.At? ==> |Visited(ts)| == |os|
    decreases |os|
  {
    hide Visit;
    if os != [] && t.place.At? {
      RunStops(cfg, Visit(cfg, t, answer, os[0]), None, os[1..]);
    }
  }
}
