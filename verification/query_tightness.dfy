/** The bounds on one invoke cannot be lowered: answers exist under which a fresh
    turn visits seventeen nodes and a resumed one fifteen, each generating three
    times, once escalated, and critiquing twice. */
module QueryTightness {
  import opened Options
  import opened QueryGate
  import opened QuerySelection
  import opened QueryOptimizer
  import opened QueryGraph
  import opened QueryRuns

  // ---------------------------------------------------------------------- answers

  /** A rule for every dimension: nothing is left to ask. */
  const RULES: seq<Rule> := Map(DIMENSIONS, d => Rule("", d, ""))

  /** A rule for every dimension but the first. */
  const ALL_BUT_ENTITY: seq<Rule> := RULES[1..]

  /** Everything succeeds, with two candidates. */
  const CALM: Oracle := Oracle(
    Ok("analytical_sql"), Ok(0), Ok([]), Ok(RULES), Fail(GateFailed), Ok(Plan("", [])),
    Ok([Candidate("a"), Candidate("b")]), i => Valid(if i == 0 then "p" else "q"), i => [], Ok([]), Ok([]), Ok(""),
        Ok(Rows(0)))

  /** Every candidate is refused, repairably. */
  const REFUSING: Oracle := CALM.(verdict := i => Invalid([Violation("", true)]))

  /** Every candidate has a fatal defect. */
  const DOUBTING: Oracle := CALM.(certain := i => [Defect(Fatal, "")])

  /** The gate asks about the one dimension that no rule covers. */
  const ASKING: Oracle :=
    CALM.(rules := Ok(ALL_BUT_ENTITY), gate := Ok(GateResponse([], Entity, "which one?", "", [])))

  /** Contested from `least` answers on; any statement costs nothing. */
  function Set(least: int): Settings {
    Settings(Gate(0.5, None), least, None, Optimizer(_ => None, _ => "", [], _ => Ok(0.0), 0.0))
  }

  // --------------------------------------------------------- the way from the plan

  /** The stops of the longest way from planning to the end. */
  const STOPS: seq<Node> := [
    Planning, Generation, Validation, Generation, Validation, Critiquing,
    Generation, Validation, Critiquing, Probing, Selecting, CostGate, Execution]

  /** What is answered on that way; `last` speaks in the second critique and in the
      probing behind it. */
  function AnswerAt(k: nat, last: Oracle): Oracle {
    if k == 2 then REFUSING else if k == 5 then DOUBTING else if k == 8 || k == 9 then last else CALM
  }

  function Answers(k: nat, n: nat, last: Oracle): seq<Oracle>
    requires k <= n
  {
    seq(n - k, i requires 0 <= i < n - k => AnswerAt(k + i, last))
  }

  /** The second critique leaves some candidate alive. */
  predicate Lenient(last: Oracle) {
    last.critique == Ok([]) && last.probes.Ok? && !AllFatal(Reports(Certain(2, last.certain), []))
  }

  /** What the turn looks like before its `k`th visit on that way. */
  predicate OnCourse(k: nat, t: Turn, last: Oracle) {
    && (if k < 13 then t.place == At(STOPS[k]) else t.place == Finished)
    && var s := t.state;
       && s.contested && (k > 0 ==> s.plan.Some?)
       && (k == 2 || k > 3 ==> s.candidates == CALM.generated.value)
       && (k > 4 ==> s.validatedSqls == ["p", "q"])
       && s.retryCount == (if k > 3 then 1 else 0)
       && s.violations == (if k == 3 || k == 4 then AllViolations(2, REFUSING.verdict) else [])
       && s.escalated == (k > 5)
       && (k > 8 ==> s.reports == Reports(Certain(2, last.certain), []))
       && (k > 9 ==> last.probes.Ok? && s.probes == last.probes.value)
       && (k > 10 ==> s.selection.Some?) && (k > 11 ==> s.validatedSql.Some?)
  }

  lemma BothPass()
    ensures Survivors(CALM.generated.value, CALM.verdict) == (CALM.generated.value, ["p", "q"])
  {
    var c := CALM.generated.value;
    var one := c[..1];
    assert one == [c[0]] && one[..0] == [] && c == one + [c[1]];
    assert [] + [c[0]] == one && [] + ["p"] == ["p"] && ["p"] + ["q"] == ["p", "q"];
    assert Survivors(one, CALM.verdict) == (one, ["p"]);
  }

  lemma BothFail()
    ensures Survivors(CALM.generated.value, REFUSING.verdict) == ([], [])
    ensures exists v :: v in AllViolations(2, REFUSING.verdict) && v.repairable
    ensures AllViolations(2, REFUSING.verdict) != []
  {
    var c := CALM.generated.value;
    assert c[..1] == [c[0]] && c[..1][..0] == [];
    assert Survivors(c[..1], REFUSING.verdict) == ([], []);
    assert AllViolations(2, REFUSING.verdict) == [Violation("", true), Violation("", true)];
  }

  lemma Doubts()
    ensures AllFatal(Reports(Certain(2, DOUBTING.certain), []))
    ensures Lenient(CALM)
  {
    var doubted, calm := Reports(Certain(2, DOUBTING.certain), []), Reports(Certain(2, CALM.certain), []);
    forall r | r in doubted ensures IsFatal(r) {
      assert Defect(Fatal, "") in r.defects;
    }
    assert calm[0].defects == [] && !IsFatal(calm[0]);
  }

  lemma PlanStep(least: int, t: Turn, last: Oracle)
    requires OnCourse(0, t, last)
    ensures OnCourse(1, Visit(Set(least), t, None, AnswerAt(0, last)), last)
  {
  }

  lemma GenerationStep(least: int, k: nat, t: Turn, last: Oracle)
    requires (k == 1 || k == 3 || k == 6) && OnCourse(k, t, last)
    ensures OnCourse(k + 1, Visit(Set(least), t, None, AnswerAt(k, last)), last)
  {
    hide AllViolations;
    BothFail();
  }

  lemma ValidationStep(least: int, k: nat, t: Turn, last: Oracle)
    requires (k == 2 || k == 4 || k == 7) && OnCourse(k, t, last)
    ensures OnCourse(k + 1, Visit(Set(least), t, None, AnswerAt(k, last)), last)
  {
    hide Survivors, AllViolations;
    BothPass();
    BothFail();
  }

  lemma CritiqueStep(least: int, k: nat, t: Turn, last: Oracle)
    requires (k == 5 || k == 8) && OnCourse(k, t, last) && Lenient(last)
    ensures OnCourse(k + 1, Visit(Set(least), t, None, AnswerAt(k, last)), last)
  {
    hide Reports, AllFatal, Certain, AllViolations;
    Doubts();
  }

  lemma ReportsAreIndexed(last: Oracle)
    ensures Indexed(Reports(Certain(2, last.certain), []), 2)
  {
  }

  lemma LateStep(least: int, k: nat, t: Turn, last: Oracle)
    requires 9 <= k < 13 && OnCourse(k, t, last) && Lenient(last) && (k > 9 ==> last == CALM)
    ensures OnCourse(k + 1, Visit(Set(least), t, None, AnswerAt(k, last)), last)
  {
    hide Reports, AllFatal, Certain, AllViolations, RankWinner, IsFatal;
    ReportsAreIndexed(last);
    RankingIsSound(Reports(Certain(2, last.certain), []), 2);
  }

  lemma OneStep(least: int, k: nat, t: Turn, last: Oracle)
    requires k < 13 && OnCourse(k, t, last) && Lenient(last) && (k > 9 ==> last == CALM)
    ensures OnCourse(k + 1, Visit(Set(least), t, None, AnswerAt(k, last)), last)
  {
    hide OnCourse, Visit, AnswerAt, Set, Lenient;
    if k == 0 { PlanStep(least, t, last); }
    else if k == 1 || k == 3 || k == 6 { GenerationStep(least, k, t, last); }
    else if k == 2 || k == 4 || k == 7 { ValidationStep(least, k, t, last); }
    else if k == 5 || k == 8 { CritiqueStep(least, k, t, last); }
    else { LateStep(least, k, t, last); }
  }

  lemma AtStop(k: nat, t: Turn, last: Oracle)
    requires k < 13 && OnCourse(k, t, last)
    ensures t.place == At(STOPS[k]) && t.state.escalated == (k > 5)
  {
  }

  lemma AnswersFrom(k: nat, n: nat, last: Oracle)
    requires k < n
    ensures Answers(k, n, last) == [AnswerAt(k, last)] + Answers(k + 1, n, last)
  {
  }

  lemma RunMore(cfg: Settings, t: Turn, answer: Option<string>, o: Oracle, os: seq<Oracle>)
    requires t.place.At?
    ensures Run(cfg, t, answer, [o] + os) == [t] + Run(cfg, Visit(cfg, t, answer, o), None, os)
  {
    hide Visit;
    assert ([o] + os)[1..] == os;
  }

  /** From place `k` on, the turn stays on course up to place `n`. */
  lemma {:induction false} CourseRuns(least: int, k: nat, n: nat, t: Turn, last: Oracle)
    requires k <= n <= 13 && OnCourse(k, t, last) && Lenient(last) && (n > 10 ==> last == CALM)
    ensures var ts := Run(Set(least), t, None, Answers(k, n, last));
            |ts| == n + 1 - k && forall i :: 0 <= i < |ts| ==> OnCourse(k + i, ts[i], last)
    decreases n - k
  {
    hide OnCourse, Visit, Answers, AnswerAt, Set, Lenient, Run;
    if k < n {
      AtStop(k, t, last);
      AnswersFrom(k, n, last);
      RunMore(Set(least), t, None, AnswerAt(k, last), Answers(k + 1, n, last));
      OneStep(least, k, t, last);
      CourseRuns(least, k + 1, n, Visit(Set(least), t, None, AnswerAt(k, last)), last);
    } else {
      assert Answers(k, n, last) == [] by { NoAnswers(k, last); }
      RunNothing(Set(least), t);
    }
  }

  lemma NoAnswers(k: nat, last: Oracle)
    ensures Answers(k, k, last) == []
  {
  }

  lemma RunNothing(cfg: Settings, t: Turn)
    ensures Run(cfg, t, None, []) == [t]
  {
  }

  lemma {:induction false} CountFrom(ts: seq<Turn>, k: nat, last: Oracle)
    requires k + |ts| == 13 && forall i :: 0 <= i < |ts| ==> OnCourse(k + i, ts[i], last)
    ensures Count(ts, AtGeneration) == One(k <= 1) + One(k <= 3) + One(k <= 6)
    ensures Count(ts, AtStrongGeneration) == One(k <= 6)
    ensures Count(ts, AtCritique) == One(k <= 5) + One(k <= 8)
    decreases |ts|
  {
    hide OnCourse;
    if ts != [] {
      AtStop(k, ts[0], last);
      CountFrom(ts[1..], k + 1, last);
    }
  }

  /** Every bound of a run that takes `before` visits to the plan and then the long
      way. */
  predicate Long(ts: seq<Turn>, before: nat) {
    && |ts| == before + 14 && ts[before + 13].place == Finished
    && Count(Visited(ts), AtGeneration) == 3
    && Count(Visited(ts), AtStrongGeneration) == 1
    && Count(Visited(ts), AtCritique) == 2
  }

  lemma CourseIsLong(least: int, t: Turn)
    requires OnCourse(0, t, CALM)
    ensures Long(Run(Set(least), t, None, Answers(0, 13, CALM)), 0)
  {
    hide Run, Count, OnCourse, Answers, Set, Lenient;
    Doubts();
    CourseRuns(least, 0, 13, t, CALM);
    var ts := Run(Set(least), t, None, Answers(0, 13, CALM));
    assert ts[13].place == Finished by { assert OnCourse(13, ts[13], CALM); FinishedAtLast(ts[13]); }
    CountFrom(Visited(ts), 0, CALM);
  }

  lemma FinishedAtLast(t: Turn)
    requires OnCourse(13, t, CALM)
    ensures t.place == Finished
  {
  }

  lemma LongMore(t: Turn, ts: seq<Turn>, before: nat)
    requires Long(ts, before) && t.place.At? && t.place.node != Generation && t.place.node != Critiquing
    ensures Long([t] + ts, before + 1)
  {
    hide Count;
    assert Visited([t] + ts) == [t] + Visited(ts);
    CountMore(t, Visited(ts), AtGeneration);
    CountMore(t, Visited(ts), AtStrongGeneration);
    CountMore(t, Visited(ts), AtCritique);
  }

  // ------------------------------------------------------------------ a fresh turn

  lemma {:induction false} RuledIsDefaulted(rules: seq<Rule>)
    ensures forall r :: r in rules && r.dimension in DIMENSIONS ==> r.dimension in Defaults(rules)
  {
    if rules != [] {
      RuledIsDefaulted(rules[..|rules| - 1]);
      assert forall r :: r in rules ==> r in rules[..|rules| - 1] || r == rules[|rules| - 1];
    }
  }

  /** What the two rule lists leave open. */
  lemma OpenUnderRules(answers: seq<Pair>)
    ensures OpenDimensions(RULES, [], answers) == []
    ensures forall d ::
      d in OpenDimensions(ALL_BUT_ENTITY, [], answers) <==> d == Entity && Entity !in Answered(answers)
    ensures Entity in Answered(answers) ==> OpenDimensions(ALL_BUT_ENTITY, [], answers) == []
  {
    hide Defaults, Keep, Answered;
    RuledIsDefaulted(RULES);
    RuledIsDefaulted(ALL_BUT_ENTITY);
    forall d | d in DIMENSIONS ensures d in Defaults(RULES) && (d != Entity ==> d in Defaults(ALL_BUT_ENTITY)) {
      var i :| 0 <= i < |DIMENSIONS| && DIMENSIONS[i] == d;
      assert RULES[i] in RULES && RULES[i].dimension == d;
      if i > 0 { assert ALL_BUT_ENTITY[i - 1] == RULES[i]; }
    }
    assert Entity !in Defaults(ALL_BUT_ENTITY);
    forall d ensures d in OpenDimensions(ALL_BUT_ENTITY, [], answers) <==> d == Entity && Entity !in Answered(answers) {
      OpenIsUnanswered(ALL_BUT_ENTITY, [], answers, d);
    }
  }

  const HEAD: seq<Node> := [Intent, Domain, Linking, AmbiguityGate]

  /** A turn on its way to the gate. */
  predicate OnHead(k: nat, t: Turn) {
    && k < 4 && t.place == At(HEAD[k]) && Untouched(t.state) && !t.state.contested
    && t.state.clarifications == [] && t.state.gateScores == [] && (k == 3 ==> t.state.links == Some([]))
  }

  lemma HeadStep(cfg: Settings, k: nat, t: Turn, o: Oracle)
    requires k < 3 && OnHead(k, t) && o.intent == CALM.intent && o.domain.Ok? && o.links == CALM.links
    ensures OnHead(k + 1, Visit(cfg, t, None, o))
  {
  }

  lemma GateClears(t: Turn)
    requires OnHead(3, t)
    ensures OnCourse(0, Visit(Set(0), t, None, CALM), CALM)
  {
    hide OpenDimensions, Defaults, Keep;
    OpenUnderRules([]);
  }

  /** Every bound of `FreshInvokeIsBounded` is met by one and the same run. */
  lemma FreshBoundsAreReached(question: string, datasource: string) returns (os: seq<Oracle>)
    ensures Long(Run(Set(0), Start(question, datasource, None), None, os), 4)
  {
    hide Run, Visit, OnCourse, Long, Set, Answers;
    var cfg := Set(0);
    var t0 := Start(question, datasource, None);
    HeadStep(cfg, 0, t0, CALM);
    var t1 := Visit(cfg, t0, None, CALM);
    HeadStep(cfg, 1, t1, CALM);
    var t2 := Visit(cfg, t1, None, CALM);
    HeadStep(cfg, 2, t2, CALM);
    var t3 := Visit(cfg, t2, None, CALM);
    GateClears(t3);
    os := Answers(0, 13, CALM);
    CourseIsLong(0, Visit(cfg, t3, None, CALM));
    os := Prepend(cfg, t3, None, CALM, os, 0);
    os := Prepend(cfg, t2, None, CALM, os, 1);
    os := Prepend(cfg, t1, None, CALM, os, 2);
    os := Prepend(cfg, t0, None, CALM, os, 3);
  }

  lemma Prepend(cfg: Settings, t: Turn, answer: Option<string>, o: Oracle, os: seq<Oracle>, before: nat)
      returns (os': seq<Oracle>)
    requires t.place.At? && t.place.node != Generation && t.place.node != Critiquing
    requires Long(Run(cfg, Visit(cfg, t, answer, o), None, os), before)
    ensures os' == [o] + os && Long(Run(cfg, t, answer, os'), before + 1)
  {
    hide Run, Visit, Long;
    os' := [o] + os;
    RunMore(cfg, t, answer, o, os);
    LongMore(t, Run(cfg, Visit(cfg, t, answer, o), None, os), before);
  }

  // ---------------------------------------------------------------- a resumed turn

  /** A turn that waits for the entity. */
  predicate Asked(t: Turn) {
    && t.place.Waiting? && Untouched(t.state) && t.state.links == Some([]) && t.state.clarifications == []
    && t.state.ambiguity.Some? && t.state.ambiguity.value.isAmbiguous
    && t.state.ambiguity.value.missing == Some(Entity) && t.state.ambiguity.value.question == Some("which one?")
  }

  function Asking(n: nat): seq<Oracle> { if n == 0 then [] else [ASKING] + Asking(n - 1) }

  lemma AssessAsks()
    ensures var a := Assess(Set(1).gate, ALL_BUT_ENTITY, [], [], [], ASKING.gate);
            a.Ok? && a.value.isAmbiguous && a.value.missing == Some(Entity) && a.value.question == Some("which one?")
  {
    hide OpenDimensions, Defaults, Keep, Settle;
    OpenUnderRules([]);
    var open := OpenDimensions(ALL_BUT_ENTITY, [], []);
    var asked := ToScore(open, map[], 0.5);
    assert Entity in open && Entity in asked;
    var known := KnownAfter(map[], asked, ASKING.gate);
    assert Record(map[], []) == map[];
    assert known == Settle(map[], asked) && Confidence(known, Entity) == 0.0;
    assert Entity in Unsure(open, known, 0.5);
    assert FromScores([]) == map[];
    QuestionIsFresh(Set(1).gate, ALL_BUT_ENTITY, [], [], [], ASKING.gate);
  }

  lemma GateAsks(t: Turn)
    requires OnHead(3, t)
    ensures var u := Visit(Set(1), t, None, ASKING);
            u.place == At(Interrupt) && Asked(Visit(Set(1), u, None, ASKING))
  {
    hide Assess;
    AssessAsks();
  }

  lemma AssessClears(answer: string, scores: seq<Score>)
    ensures var a := Assess(Set(1).gate, ALL_BUT_ENTITY, [], [Pair(Entity, answer)], scores, ASKING.gate);
            a.Ok? && !a.value.isAmbiguous
  {
    hide OpenDimensions, Defaults, Keep;
    var answers := [Pair(Entity, answer)];
    assert answers[0] in answers && Entity in Answered(answers);
    OpenUnderRules(answers);
  }

  lemma AnswerClears(t: Turn, answer: string)
    requires Asked(t)
    ensures var u := Visit(Set(1), Resumed(t), Some(answer), ASKING);
            u.place == At(AmbiguityGate) && OnCourse(0, Visit(Set(1), u, None, ASKING), CALM)
  {
    hide Assess;
    AssessClears(answer, t.state.gateScores);
    assert [] + [Pair(Entity, answer)] == [Pair(Entity, answer)];
  }

  /** A fresh run pauses, and resuming it meets every bound of
      `ResumedInvokeIsBounded`, with the same rules before and after. */
  lemma ResumedBoundsAreReached(question: string, datasource: string, answer: string) returns (t: Turn, os: seq<Oracle>)
    ensures var ts := Run(Set(1), Start(question, datasource, None), None, Asking(5));
            t == ts[|ts| - 1] && t.place.Waiting?
    ensures Long(Run(Set(1), Resumed(t), Some(answer), os), 2)
  {
    hide Run, Visit, OnCourse, Long, Set, Answers;
    var cfg := Set(1);
    var t0 := Start(question, datasource, None);
    HeadStep(cfg, 0, t0, ASKING);
    var t1 := Visit(cfg, t0, None, ASKING);
    HeadStep(cfg, 1, t1, ASKING);
    var t2 := Visit(cfg, t1, None, ASKING);
    HeadStep(cfg, 2, t2, ASKING);
    var t3 := Visit(cfg, t2, None, ASKING);
    GateAsks(t3);
    var t4 := Visit(cfg, t3, None, ASKING);
    t := Visit(cfg, t4, None, ASKING);
    RunNothing(cfg, t);
    RunMore(cfg, t4, None, ASKING, Asking(0));
    RunMore(cfg, t3, None, ASKING, Asking(1));
    RunMore(cfg, t2, None, ASKING, Asking(2));
    RunMore(cfg, t1, None, ASKING, Asking(3));
    RunMore(cfg, t0, None, ASKING, Asking(4));
    assert Run(cfg, t3, None, Asking(2)) == [t3, t4, t];
    assert Run(cfg, t0, None, Asking(5)) == [t0, t1, t2, t3, t4, t];
    AnswerClears(t, answer);
    var u := Visit(cfg, Resumed(t), Some(answer), ASKING);
    os := Answers(0, 13, CALM);
    CourseIsLong(1, Visit(cfg, u, None, ASKING));
    os := Prepend(cfg, u, None, ASKING, os, 0);
    os := Prepend(cfg, Resumed(t), Some(answer), ASKING, os, 1);
  }
}
