/** Whole conversations: a question, then any number of answers. */
module QueryDialogue {
  import opened Options
  import opened QueryGate
  import opened QuerySelection
  import opened QueryOptimizer
  import opened QueryGraph
  import opened QueryRuns

  /** One answer, and what the services say while the turn runs on. */
  datatype Exchange = Exchange(answer: string, oracles: seq<Oracle>)

  function Last(ts: seq<Turn>): Turn
    requires ts != []
  {
    ts[|ts| - 1]
  }

  /** Resume once per exchange, as long as the turn waits. */
  function Converse(cfg: Settings, t: Turn, es: seq<Exchange>): Turn
    decreases |es|
  {
    if es == [] || !t.place.Waiting? then t
    else Converse(cfg, Last(Run(cfg, Resumed(t), Some(es[0].answer), es[0].oracles)), es[1..])
  }

  /** Every exchange found the turn waiting, and got as far as its first node. */
  predicate AllTaken(cfg: Settings, t: Turn, es: seq<Exchange>)
    decreases |es|
  {
    es == [] ||
    (t.place.Waiting? && es[0].oracles != [] &&
     AllTaken(cfg, Last(Run(cfg, Resumed(t), Some(es[0].answer), es[0].oracles)), es[1..]))
  }

  // -------------------------------------------------------------------- termination

  /** Nothing but an answered interrupt adds a clarification. */
  lemma VisitKeepsAnswers(cfg: Settings, t: Turn, o: Oracle)
    requires t.place.At?
    ensures Visit(cfg, t, None, o).state.clarifications == t.state.clarifications
  {
    hide RunGate, RunGeneration, RunValidation, RunCritique, RunProbing, RunSelecting, RunCostGate, Route;
    if t.place.node in {AmbiguityGate, Generation, Validation, Critiquing, Probing, Selecting, CostGate} {
      ServiceNodesKeepAnswers(cfg, t, o);
    }
  }

  lemma ServiceNodesKeepAnswers(cfg: Settings, t: Turn, o: Oracle)
    requires t.place.At? && t.place.node in {AmbiguityGate, Generation, Validation, Critiquing, Probing, Selecting,
        CostGate}
    ensures Visit(cfg, t, None, o).state.clarifications == t.state.clarifications
  {
    hide Assess, Survivors, AllViolations, Reports, AllFatal, Decisive, Select, Optimize, Route, LinksOf;
  }

  lemma {:induction false} RunKeepsAnswers(cfg: Settings, t: Turn, os: seq<Oracle>)
    ensures Last(Run(cfg, t, None, os)).state.clarifications == t.state.clarifications
    decreases |os|
  {
    hide Visit;
    if os != [] && t.place.At? {
      VisitKeepsAnswers(cfg, t, os[0]);
      RunKeepsAnswers(cfg, Visit(cfg, t, None, os[0]), os[1..]);
    }
  }

  lemma Uncontested(cfg: Settings, t: Turn)
    requires Inv(cfg, t) && t.state.clarifications == [] && cfg.contestedMin > 0 && !t.place.Failed?
    ensures !t.state.contested
  {
    hide DialogueOk, Judged, Asking;
  }

  lemma FailureChangesNothing(cfg: Settings, t: Turn, answer: Option<string>, o: Oracle)
    requires t.place.At? && Visit(cfg, t, answer, o).place.Failed?
    ensures Visit(cfg, t, answer, o).state == t.state
  {
    hide RunNode, Merge, Route;
    if RunNode(cfg, t.place.node, t.state, answer, o).Update? {
      RouteDoesNotFail(t.place.node, Merge(t.state, RunNode(cfg, t.place.node, t.state, answer, o).delta));
    }
  }

  lemma RouteDoesNotFail(node: Node, s: QueryState)
    ensures !Route(node, s).Failed?
  {
    hide AllFatal;
  }

  lemma {:induction false} NoAnswerNoContest(cfg: Settings, t: Turn, os: seq<Oracle>)
    requires Inv(cfg, t) && t.state.clarifications == [] && cfg.contestedMin > 0 && !t.state.contested
    ensures forall u :: u in Run(cfg, t, None, os) ==> !u.state.contested
    decreases |os|
  {
    hide Inv, Visit;
    if os != [] && t.place.At? {
      var t' := Visit(cfg, t, None, os[0]);
      VisitKeeps(cfg, t, None, os[0]);
      VisitKeepsAnswers(cfg, t, os[0]);
      if t'.place.Failed? { FailureChangesNothing(cfg, t, None, os[0]); } else { Uncontested(cfg, t'); }
      NoAnswerNoContest(cfg, t', os[1..]);
    }
  }

  /** With a contested threshold of at least one, a fresh invoke is never contested,
      and so has the smaller bounds. */
  lemma FreshInvokeIsCalm(cfg: Settings, question: string, datasource: string, domain: Option<int>, os: seq<Oracle>)
    requires cfg.contestedMin > 0
    ensures var ts := Run(cfg, Start(question, datasource, domain), None, os);
            && (forall t :: t in ts ==> !t.state.contested)
            && |Visited(ts)| <= 14
            && Count(Visited(ts), AtGeneration) <= 2
            && Count(Visited(ts), AtStrongGeneration) == 0
            && Count(Visited(ts), AtCritique) <= 1
  {
    hide Run, Inv, Count;
    var t := Start(question, datasource, domain);
    StartHolds(cfg, question, datasource, domain);
    NoAnswerNoContest(cfg, t, os);
    FreshInvokeIsBounded(cfg, question, datasource, domain, os);
  }

  /** A resume records exactly one answer, to the dimension that was asked. */
  lemma ResumeRecordsOne(cfg: Settings, t: Turn, answer: string, os: seq<Oracle>)
    requires t.place.Waiting? && Inv(cfg, t) && os != []
    ensures Last(Run(cfg, Resumed(t), Some(answer), os)).state.clarifications
         == t.state.clarifications + [Pair(t.state.ambiguity.value.missing.value, answer)]
  {
    var first := Visit(cfg, Resumed(t), Some(answer), os[0]);
    RunKeepsAnswers(cfg, first, os[1..]);
    assert Run(cfg, Resumed(t), Some(answer), os) == [Resumed(t)] + Run(cfg, first, None, os[1..]);
    assert first.state.clarifications == t.state.clarifications + [Pair(t.state.ambiguity.value.missing.value, answer)];
  }

  lemma LastKeeps(cfg: Settings, t: Turn, answer: Option<string>, os: seq<Oracle>)
    requires Inv(cfg, t)
    ensures Inv(cfg, Last(Run(cfg, t, answer, os)))
  {
    RunKeeps(cfg, t, answer, os);
    assert Last(Run(cfg, t, answer, os)) in Run(cfg, t, answer, os);
  }

  lemma {:induction false} ConverseKeeps(cfg: Settings, t: Turn, es: seq<Exchange>)
    requires Inv(cfg, t)
    ensures Inv(cfg, Converse(cfg, t, es))
    ensures AllTaken(cfg, t, es) ==>
      |Converse(cfg, t, es).state.clarifications| == |t.state.clarifications| + |es|
    decreases |es|
  {
    hide Inv, Run;
    if es != [] && t.place.Waiting? {
      var next := Last(Run(cfg, Resumed(t), Some(es[0].answer), es[0].oracles));
      ResumeHolds(cfg, t);
      LastKeeps(cfg, Resumed(t), Some(es[0].answer), es[0].oracles);
      if es[0].oracles != [] { ResumeRecordsOne(cfg, t, es[0].answer, es[0].oracles); }
      ConverseKeeps(cfg, next, es[1..]);
    }
  }

  /** Distinct dimensions are at most six. */
  lemma AtMostSix(answers: seq<Pair>)
    requires forall i :: 0 <= i < |answers| ==> answers[i].dimension in DIMENSIONS
    requires forall i, j :: 0 <= i < j < |answers| ==> answers[i].dimension != answers[j].dimension
    ensures |answers| <= 6
  {
    var all := {Entity, Metric, TimeRange, Grain, Filter, ComparisonBaseline};
    forall i | 0 <= i < |answers| ensures answers[i].dimension in all { }
    DistinctFit(answers, all);
  }

  lemma {:induction false} DistinctFit(answers: seq<Pair>, all: set<Dimension>)
    requires forall i :: 0 <= i < |answers| ==> answers[i].dimension in all
    requires forall i, j :: 0 <= i < j < |answers| ==> answers[i].dimension != answers[j].dimension
    ensures |answers| <= |all|
    decreases |answers|
  {
    if answers != [] {
      var n := |answers| - 1;
      DistinctFit(answers[..n], all - {answers[n].dimension});
    }
  }

  /** The dialogue terminates: however the rules, the links and the model change
      from round to round, no conversation takes more answers than there are
      dimensions or than the budget allows, and the answers are to pairwise
      distinct dimensions. */
  lemma DialogueTerminates(cfg: Settings, question: string, datasource: string, domain: Option<int>,
                           os: seq<Oracle>, es: seq<Exchange>)
    requires AllTaken(cfg, Last(Run(cfg, Start(question, datasource, domain), None, os)), es)
    ensures |es| <= 6
    ensures cfg.gate.maxQuestions.Some? ==> es == [] || |es| <= cfg.gate.maxQuestions.value
    ensures var t := Converse(cfg, Last(Run(cfg, Start(question, datasource, domain), None, os)), es);
            DialogueOk(cfg.gate, t.state.clarifications) && |t.state.clarifications| == |es|
  {
    var start := Start(question, datasource, domain);
    StartHolds(cfg, question, datasource, domain);
    LastKeeps(cfg, start, None, os);
    RunKeepsAnswers(cfg, start, os);
    ConverseKeeps(cfg, Last(Run(cfg, start, None, os)), es);
    hide Run, Converse, AllTaken;
    AtMostSix(Converse(cfg, Last(Run(cfg, start, None, os)), es).state.clarifications);
  }

  // ------------------------------------------------------------------ a smaller set

  predicate AsksOpen(rules: seq<Rule>, t: Turn) {
    && t.state.ambiguity.Some? && t.state.ambiguity.value.missing.Some?
    && t.state.ambiguity.value.missing.value in OpenDimensions(rules, LinksOf(t.state), t.state.clarifications)
  }

  /** With fixed rules the gate only asks about what is still open ... */
  lemma GateAsksOpen(cfg: Settings, t: Turn, o: Oracle, rules: seq<Rule>)
    requires t.place == At(AmbiguityGate) && o.rules == Ok(rules)
    requires Visit(cfg, t, None, o).place == At(Interrupt)
    ensures AsksOpen(rules, Visit(cfg, t, None, o))
  {
    hide Assess, OpenDimensions;
    var s := t.state;
    QuestionIsFresh(cfg.gate, rules, LinksOf(s), s.clarifications, s.gateScores, o.gate);
  }

  /** ... and the answer makes the open set strictly smaller. */
  lemma ResumeShrinksOpen(cfg: Settings, t: Turn, answer: string, o: Oracle, rules: seq<Rule>)
    requires t.place.Waiting? && Inv(cfg, t) && AsksOpen(rules, t)
    ensures var s := Visit(cfg, Resumed(t), Some(answer), o).state;
            && LinksOf(s) == LinksOf(t.state)
            && (set d | d in OpenDimensions(rules, LinksOf(s), s.clarifications))
             < (set d | d in OpenDimensions(rules, LinksOf(t.state), t.state.clarifications))
  {
    hide OpenDimensions, DialogueOk, Answered;
    AnswerShrinksOpen(rules, LinksOf(t.state), t.state.clarifications, t.state.ambiguity.value.missing.value, answer);
  }

  // ------------------------------------------------- whole conversations, fixed rules

  function OpenSet(rules: seq<Rule>, t: Turn): set<Dimension> {
    set d | d in OpenDimensions(rules, LinksOf(t.state), t.state.clarifications)
  }

  ghost predicate FixedRules(rules: seq<Rule>, os: seq<Oracle>) { forall o :: o in os ==> o.rules == Ok(rules) }

  /** Whenever a question is due or asked, it is about an open dimension. */
  predicate AsksWell(rules: seq<Rule>, t: Turn) {
    t.place == At(Interrupt) || t.place.Waiting? ==> AsksOpen(rules, t)
  }

  /** Past the stage that retrieves the links. */
  predicate Linked(t: Turn) { t.place.At? ==> t.place.node !in {Intent, Domain, Linking} }

  lemma VisitAsksWell(cfg: Settings, t: Turn, o: Oracle, rules: seq<Rule>)
    requires t.place.At? && Inv(cfg, t) && AsksWell(rules, t) && o.rules == Ok(rules)
    ensures AsksWell(rules, Visit(cfg, t, None, o))
  {
    hide OpenDimensions, RunGate, RunGeneration, RunValidation, RunCritique, RunProbing, RunSelecting, RunCostGate,
        AllFatal;
    var u := Visit(cfg, t, None, o);
    if t.place.node == AmbiguityGate {
      if u.place == At(Interrupt) { GateAsksOpen(cfg, t, o, rules); } else { OnlyInterruptWaits(cfg, t, o); }
    } else if t.place.node != Interrupt {
      OnlyInterruptWaits(cfg, t, o);
    }
  }

  lemma OnlyInterruptWaits(cfg: Settings, t: Turn, o: Oracle)
    requires t.place.At? && t.place.node != Interrupt
    ensures !Visit(cfg, t, None, o).place.Waiting?
    ensures Visit(cfg, t, None, o).place == At(Interrupt) ==> t.place.node == AmbiguityGate
  {
    hide Assess, Survivors, AllViolations, Reports, AllFatal, Decisive, Select, Optimize;
  }

  lemma VisitStaysLinked(cfg: Settings, t: Turn, o: Oracle)
    requires t.place.At? && Linked(t)
    ensures var u := Visit(cfg, t, None, o); Linked(u) && u.state.links == t.state.links
  {
    hide Assess, Survivors, AllViolations, Reports, AllFatal, Decisive, Select, Optimize;
  }

  lemma {:induction false} RunAsksWell(cfg: Settings, t: Turn, os: seq<Oracle>, rules: seq<Rule>)
    requires Inv(cfg, t) && AsksWell(rules, t) && FixedRules(rules, os)
    ensures var u := Last(Run(cfg, t, None, os));
            AsksWell(rules, u) && (Linked(t) ==> u.state.links == t.state.links)
    decreases |os|
  {
    hide Inv, AsksWell, Visit, Linked;
    if os != [] && t.place.At? {
      assert os[0] in os && forall o :: o in os[1..] ==> o in os;
      VisitAsksWell(cfg, t, os[0], rules);
      VisitKeeps(cfg, t, None, os[0]);
      if Linked(t) { VisitStaysLinked(cfg, t, os[0]); }
      RunAsksWell(cfg, Visit(cfg, t, None, os[0]), os[1..], rules);
    }
  }

  /** One answer and the rest of its turn take at least one dimension off the open set. */
  lemma ExchangeShrinks(cfg: Settings, t: Turn, e: Exchange, rules: seq<Rule>)
    requires t.place.Waiting? && Inv(cfg, t) && AsksWell(rules, t) && e.oracles != [] && FixedRules(rules, e.oracles)
    ensures var u := Last(Run(cfg, Resumed(t), Some(e.answer), e.oracles));
            Inv(cfg, u) && AsksWell(rules, u) && OpenSet(rules, u) < OpenSet(rules, t)
  {
    hide Inv, OpenDimensions, Run, Visit, LinksOf;
    var o, os := e.oracles[0], e.oracles[1..];
    var first := Visit(cfg, Resumed(t), Some(e.answer), o);
    assert forall x :: x in os ==> x in e.oracles;
    RunOnce(cfg, Resumed(t), Some(e.answer), e.oracles);
    ResumeShrinksOpen(cfg, t, e.answer, o, rules);
    ResumeHolds(cfg, t);
    VisitKeeps(cfg, Resumed(t), Some(e.answer), o);
    AnswerGoesToGate(cfg, t, e.answer, o);
    RunAsksWell(cfg, first, os, rules);
    RunKeepsAnswers(cfg, first, os);
    LastKeeps(cfg, first, None, os);
    SameLinks(first.state, Last(Run(cfg, first, None, os)).state);
  }

  lemma RunOnce(cfg: Settings, t: Turn, answer: Option<string>, os: seq<Oracle>)
    requires os != [] && t.place.At?
    ensures Last(Run(cfg, t, answer, os)) == Last(Run(cfg, Visit(cfg, t, answer, os[0]), None, os[1..]))
  {
    hide Visit;
  }

  lemma SameLinks(a: QueryState, b: QueryState)
    requires a.links == b.links
    ensures LinksOf(a) == LinksOf(b)
  {
  }

  lemma AnswerGoesToGate(cfg: Settings, t: Turn, answer: string, o: Oracle)
    requires t.place.Waiting? && Inv(cfg, t)
    ensures Visit(cfg, Resumed(t), Some(answer), o).place == At(AmbiguityGate)
  {
    hide DialogueOk, Answered;
  }

  lemma {:induction false} ConverseShrinks(cfg: Settings, t: Turn, es: seq<Exchange>, rules: seq<Rule>)
    requires Inv(cfg, t) && AsksWell(rules, t) && AllTaken(cfg, t, es)
    requires forall e :: e in es ==> FixedRules(rules, e.oracles)
    ensures var u := Converse(cfg, t, es);
            && OpenSet(rules, u) <= OpenSet(rules, t) && (es != [] ==> OpenSet(rules, u) < OpenSet(rules, t))
            && |OpenSet(rules, u)| + |es| <= |OpenSet(rules, t)|
    decreases |es|
  {
    hide Inv, AsksWell, Run, OpenSet, FixedRules;
    if es != [] {
      assert es[0] in es && forall e :: e in es[1..] ==> e in es;
      ExchangeShrinks(cfg, t, es[0], rules);
      var u := Last(Run(cfg, Resumed(t), Some(es[0].answer), es[0].oracles));
      ConverseShrinks(cfg, u, es[1..], rules);
      Smaller(OpenSet(rules, u), OpenSet(rules, t));
    }
  }

  lemma Smaller<T>(a: set<T>, b: set<T>)
    requires a < b
    ensures |a| < |b|
  {
    var x :| x in b && x !in a;
    assert |b| == |b - {x}| + 1 && a <= b - {x};
    SubsetSize(a, b - {x});
  }

  lemma {:induction false} SubsetSize<T>(a: set<T>, b: set<T>)
    requires a <= b
    ensures |a| <= |b|
    decreases |a|
  {
    if a != {} {
      var x :| x in a;
      SubsetSize(a - {x}, b - {x});
    }
  }

  /** Over every conversation with fixed rules, each answer strictly shrinks what may
      still be asked, so that no more is answered than was open at the first pause. */
  lemma {:induction false} OpenShrinksEveryRound(cfg: Settings, question: string, datasource: string,
      domain: Option<int>,
                              os: seq<Oracle>, es: seq<Exchange>, rules: seq<Rule>)
    requires FixedRules(rules, os) && forall e :: e in es ==> FixedRules(rules, e.oracles)
    requires AllTaken(cfg, Last(Run(cfg, Start(question, datasource, domain), None, os)), es)
    ensures var t := Last(Run(cfg, Start(question, datasource, domain), None, os));
            var u := Converse(cfg, t, es);
            && (es != [] ==> OpenSet(rules, u) < OpenSet(rules, t))
            && |OpenSet(rules, u)| + |es| <= |OpenSet(rules, t)|
  {
    hide Run, Inv, AllTaken, OpenSet;
    var start := Start(question, datasource, domain);
    StartHolds(cfg, question, datasource, domain);
    LastKeeps(cfg, start, None, os);
    RunAsksWell(cfg, start, os, rules);
    ConverseShrinks(cfg, Last(Run(cfg, start, None, os)), es, rules);
  }

  // ------------------------------------------------------------- budget, contested

  /** The turn is not contested and nothing has acted as if it were. */
  predicate Calm(s: QueryState) {
    !s.contested && !s.escalated && s.reports == [] && s.probes == []
  }

  lemma CalmGate(cfg: Settings, t: Turn, answer: Option<string>, o: Oracle)
    requires t.place == At(AmbiguityGate) && Calm(t.state) && |t.state.clarifications| < cfg.contestedMin
    ensures Calm(Visit(cfg, t, answer, o).state)
  {
    hide Assess, Route;
  }

  lemma CalmVisit(cfg: Settings, t: Turn, answer: Option<string>, o: Oracle)
    requires t.place.At? && Calm(t.state) && |t.state.clarifications| < cfg.contestedMin
    ensures Calm(Visit(cfg, t, answer, o).state)
  {
    hide RunGate, Survivors, AllViolations, Select, Optimize, Route, AllFatal, Decisive;
    if t.place.node == AmbiguityGate { CalmGate(cfg, t, answer, o); }
  }

  predicate BudgetBelowContested(cfg: Settings) {
    cfg.contestedMin > 0 && cfg.gate.maxQuestions.Some? && cfg.gate.maxQuestions.value < cfg.contestedMin
  }

  lemma {:induction false} CalmRun(cfg: Settings, t: Turn, answer: Option<string>, os: seq<Oracle>)
    requires BudgetBelowContested(cfg) && Inv(cfg, t) && Calm(t.state)
    ensures forall u :: u in Run(cfg, t, answer, os) ==> Calm(u.state)
    decreases |os|
  {
    hide Calm, Visit;
    if os != [] && t.place.At? {
      assert |t.state.clarifications| < cfg.contestedMin;
      hide Inv;
      CalmVisit(cfg, t, answer, os[0]);
      VisitKeeps(cfg, t, answer, os[0]);
      CalmRun(cfg, Visit(cfg, t, answer, os[0]), None, os[1..]);
    }
  }

  /** Every turn passed through once the exchanges begin. */
  function Passed(cfg: Settings, t: Turn, es: seq<Exchange>): seq<Turn>
    decreases |es|
  {
    if es == [] || !t.place.Waiting? then []
    else
      var ts := Run(cfg, Resumed(t), Some(es[0].answer), es[0].oracles);
      ts + Passed(cfg, Last(ts), es[1..])
  }

  lemma {:induction false} CalmConversation(cfg: Settings, t: Turn, es: seq<Exchange>)
    requires BudgetBelowContested(cfg) && Inv(cfg, t) && Calm(t.state)
    ensures forall u :: u in Passed(cfg, t, es) ==> Calm(u.state)
    decreases |es|
  {
    hide Inv, Calm, Run;
    if es != [] && t.place.Waiting? {
      var e := es[0];
      ResumeHolds(cfg, t);
      LastKeeps(cfg, Resumed(t), Some(e.answer), e.oracles);
      CalmRun(cfg, Resumed(t), Some(e.answer), e.oracles);
      CalmConversation(cfg, Last(Run(cfg, Resumed(t), Some(e.answer), e.oracles)), es[1..]);
    }
  }

  /** With a question budget below the contested threshold, as in the default
      settings (1 and 2), no turn of any conversation is contested: critique and
      probing never act and the escalation is never spent. */
  lemma BudgetExcludesContested(cfg: Settings, question: string, datasource: string, domain: Option<int>,
                                os: seq<Oracle>, es: seq<Exchange>)
    requires BudgetBelowContested(cfg)
    ensures var ts := Run(cfg, Start(question, datasource, domain), None, os);
            forall u :: u in ts + Passed(cfg, Last(ts), es) ==> Calm(u.state)
  {
    hide Run, Passed;
    var start := Start(question, datasource, domain);
    StartHolds(cfg, question, datasource, domain);
    LastKeeps(cfg, start, None, os);
    CalmRun(cfg, start, None, os);
    CalmConversation(cfg, Last(Run(cfg, start, None, os)), es);
  }
}
