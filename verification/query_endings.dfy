/** How a streamed turn ends: which turns deliver the terminal event that the stream
    promises, and which cannot. */
module QueryEndings {
  import opened Options
  import opened QueryGate
  import opened QuerySelection
  import opened QueryOptimizer
  import opened QueryGraph
  import opened QueryRuns
  import opened QueryOutcomes
  import opened QueryHistory
  import opened QueryStream
  import opened QueryDialogue
  import opened QueryAlignment
  import opened QueryTightness

  // ----------------------------------------------------------------- over every run

  function EndOf(t: Turn): Option<QueryGate.Error> {
    if t.place.Failed? then Some(t.place.error) else None
  }

  /** What becomes of the thread at the end of a streamed invoke, fresh or resumed. */
  function Ending(cfg: Settings, t: Turn, answer: Option<string>, os: seq<Oracle>, bare: bool,
                  start: QueryState, a: Archive, store: Option<Store>): (Archive, History)
  {
    var raw := Fold(Raw(start, None), Chunks(cfg, t, answer, os, bare));
    Remembered(a, InvokeOf(start, answer, ToResponse(raw), store), EndOf(Last(Run(cfg, t, answer, os))))
  }

  /** The stream of one invoke over a blank state `start`, in a thread that holds `a`. */
  function Streamed(cfg: Settings, t: Turn, answer: Option<string>, os: seq<Oracle>, bare: bool,
                    start: QueryState, a: Archive, store: Option<Store>): seq<StreamEvent>
  {
    var chunks := Chunks(cfg, t, answer, os, bare);
    Stages(chunks) + Closing(Fold(Raw(start, None), chunks), EndOf(Last(Run(cfg, t, answer, os))),
                             Ending(cfg, t, answer, os, bare, start, a, store).1)
  }

  /** Exactly one terminal event, and nothing after it. */
  predicate EndsProperly(es: seq<StreamEvent>) {
    es != [] && Terminal(es[|es| - 1]) && forall i :: 0 <= i < |es| - 1 ==> !Terminal(es[i])
  }

  predicate NeverEnds(es: seq<StreamEvent>) { forall e :: e in es ==> !Terminal(e) }

  /** The turn was ended by an exception that the stream does not catch. */
  predicate Uncaught(t: Turn) { t.place.Failed? && !IsGenql(t.place.error) }

  /** Recording breaks the stream: an answer in a thread without saved turns, or a write
      that lets through an exception which is not GenQL's. */
  predicate HistoryBreaks(a: Archive, resumed: bool, s: Store) {
    if s.list.Raised? then s.list.error == Foreign
    else (a.turns == [] && resumed) || s.open == Raised(Foreign) || (s.open.Done? && s.append == Raised(Foreign))
  }

  lemma RecordingBreaksExactly(a: Archive, start: QueryState, answer: Option<string>, r: Response, store: Option<Store>)
    ensures var h := Recorded(a, InvokeOf(start, answer, r, store)).1;
            h.Unsaved? && !IsGenql(h.error) <==> store.Some? && HistoryBreaks(a, answer.Some?, store.value)
  {
  }

  /** Over every run, from any turn and with any answers, in any thread: the stream ends
      with exactly one terminal event unless an exception that is not GenQL's ended the
      run or broke the recording; then, and only then, it just stops. */
  lemma StreamEndsExactly(cfg: Settings, t: Turn, answer: Option<string>, os: seq<Oracle>, bare: bool,
                          start: QueryState, a: Archive, store: Option<Store>)
    requires !Last(Run(cfg, t, answer, os)).place.At?
    ensures var es, last := Streamed(cfg, t, answer, os, bare, start, a, store), Last(Run(cfg, t, answer, os));
            var broken :=
              Uncaught(last) || (Over(last) && store.Some? && HistoryBreaks(a, answer.Some?, store.value));
            && (EndsProperly(es) <==> !broken)
            && (NeverEnds(es) <==> broken)
  {
    hide Run, Chunks, Fold, ToResponse, Passes, Recorded, InvokeOf, HistoryBreaks, RecordTurn;
    var chunks := Chunks(cfg, t, answer, os, bare);
    var raw := Fold(Raw(start, None), chunks);
    var history := Ending(cfg, t, answer, os, bare, start, a, store).1;
    var closing := Closing(raw, EndOf(Last(Run(cfg, t, answer, os))), history);
    RecordingBreaksExactly(a, start, answer, ToResponse(raw), store);
    var es := Stages(chunks) + closing;
    if closing != [] {
      assert es[|es| - 1] == closing[|closing| - 1] && es[|es| - 1] in es;
    } else {
      assert es == Stages(chunks);
    }
  }

  // ------------------------------------------------------ what is raised and not caught

  predicate Own<T>(a: Answer<T>) { a.Fail? ==> a.error != Foreign }

  /** No service lets an exception through that is not GenQL's. */
  predicate Tame(o: Oracle) {
    && Own(o.intent) && Own(o.domain) && Own(o.links) && Own(o.rules) && Own(o.gate) && Own(o.plan)
    && Own(o.generated) && Own(o.critique) && Own(o.probes) && Own(o.decomposed) && Own(o.rows)
  }

  lemma GateIsCaught(cfg: Settings, s: QueryState, o: Oracle)
    requires Tame(o)
    ensures var r := RunGate(cfg, s, o); r.Raise? ==> IsGenql(r.error)
  {
    hide OpenDimensions, FromScores, KnownAfter, Unsure, ToScore, Keep, Map, Defaults;
    if o.rules.Ok? {
      AssertionsHold(cfg.gate, o.rules.value, LinksOf(s), s.clarifications, s.gateScores, o.gate);
    }
  }

  lemma OthersAreCaught(cfg: Settings, t: Turn, answer: Option<string>, o: Oracle)
    requires t.place.At? && t.place.node != AmbiguityGate && t.place.node != Selecting && Tame(o)
    ensures var r := RunNode(cfg, t.place.node, t.state, answer, o); r.Raise? ==> IsGenql(r.error)
  {
    hide RunGate, RunSelecting, Survivors, AllViolations, Reports, AllFatal, Decisive, Certain, Rewritten, Decompose;
  }

  /** If the services raise only GenQL's own errors, what the stream fails to catch is
      the IndexError of selection, and it is raised exactly when the probes agree on a
      place that does not exist. */
  lemma UncaughtExactly(cfg: Settings, t: Turn, answer: Option<string>, o: Oracle)
    requires t.place.At? && Inv(cfg, t) && Tame(o)
    ensures Uncaught(Visit(cfg, t, answer, o)) <==> t.place == At(Selecting) && Stray(t.state)
  {
    hide Inv, RunNode, Merge, Tame, Stray, Route;
    if t.place.node == Selecting {
      SelectionFailsExactly(cfg, t, answer, o);
      OnlyIndexFails(cfg, t, answer, o);
    } else {
      if t.place.node == AmbiguityGate { GateRaises(cfg, t, answer, o); } else { OthersAreCaught(cfg, t, answer, o); }
      if Visit(cfg, t, answer, o).place.Failed? { FailureIsRaised(cfg, t, answer, o); }
    }
  }

  lemma GateRaises(cfg: Settings, t: Turn, answer: Option<string>, o: Oracle)
    requires t.place == At(AmbiguityGate) && Tame(o)
    ensures var r := RunNode(cfg, t.place.node, t.state, answer, o); r.Raise? ==> IsGenql(r.error)
  {
    hide RunGate, Tame;
    GateIsCaught(cfg, t.state, o);
  }

  lemma FailureIsRaised(cfg: Settings, t: Turn, answer: Option<string>, o: Oracle)
    requires t.place.At? && Visit(cfg, t, answer, o).place.Failed?
    ensures RunNode(cfg, t.place.node, t.state, answer, o) == Raise(Visit(cfg, t, answer, o).place.error)
  {
    hide RunNode, Merge, Route;
    var r := RunNode(cfg, t.place.node, t.state, answer, o);
    if r.Update? { RouteDoesNotFail(t.place.node, Merge(t.state, r.delta)); }
  }

  lemma OnlyIndexFails(cfg: Settings, t: Turn, answer: Option<string>, o: Oracle)
    requires t.place == At(Selecting)
    ensures var p := Visit(cfg, t, answer, o).place; p.Failed? ==> p.error == IndexOutOfRange
  {
    hide ProbeWinner, RankWinner;
  }

  /** Over whole runs: a run that has stopped was ended by an uncaught exception if and
      only if it came to selection with stray probes. */
  lemma {:induction false} RunIsUncaughtExactly(cfg: Settings, t: Turn, answer: Option<string>, os: seq<Oracle>)
    requires Inv(cfg, t) && !Uncaught(t) && (forall o :: o in os ==> Tame(o))
    requires !Last(Run(cfg, t, answer, os)).place.At?
    ensures Uncaught(Last(Run(cfg, t, answer, os)))
       <==> exists u :: u in Run(cfg, t, answer, os) && u.place == At(Selecting) && Stray(u.state)
    decreases |os|
  {
    hide Inv, Visit, Tame, Stray;
    if os != [] && t.place.At? {
      var t' := Visit(cfg, t, answer, os[0]);
      var rest := Run(cfg, t', None, os[1..]);
      assert Run(cfg, t, answer, os) == [t] + rest;
      assert os[0] in os && forall o :: o in os[1..] ==> o in os;
      VisitKeeps(cfg, t, answer, os[0]);
      UncaughtExactly(cfg, t, answer, os[0]);
      if Uncaught(t') {
        assert rest == [t'] && t in Run(cfg, t, answer, os);
      } else {
        RunIsUncaughtExactly(cfg, t', None, os[1..]);
        assert forall u :: u in Run(cfg, t, answer, os) <==> u == t || u in rest;
      }
    }
  }

  lemma {:induction false} ConverseStaysCalm(cfg: Settings, t: Turn, es: seq<Exchange>)
    requires BudgetBelowContested(cfg) && Inv(cfg, t) && Calm(t.state)
    ensures Inv(cfg, Converse(cfg, t, es)) && Calm(Converse(cfg, t, es).state)
    decreases |es|
  {
    hide Inv, Calm, Run;
    if es != [] && t.place.Waiting? {
      var e := es[0];
      ResumeHolds(cfg, t);
      LastKeeps(cfg, Resumed(t), Some(e.answer), e.oracles);
      CalmRun(cfg, Resumed(t), Some(e.answer), e.oracles);
      ConverseStaysCalm(cfg, Last(Run(cfg, Resumed(t), Some(e.answer), e.oracles)), es[1..]);
    }
  }

  lemma CalmRunIsCaught(cfg: Settings, t: Turn, answer: Option<string>, os: seq<Oracle>)
    requires BudgetBelowContested(cfg) && Inv(cfg, t) && Calm(t.state) && t.place.At?
    requires (forall o :: o in os ==> Tame(o)) && !Last(Run(cfg, t, answer, os)).place.At?
    ensures !Uncaught(Last(Run(cfg, t, answer, os)))
  {
    hide Inv, Run, Tame;
    CalmRun(cfg, t, answer, os);
    RunIsUncaughtExactly(cfg, t, answer, os);
  }

  // ---------------------------------------------------------------------- witnesses

  /** Two candidates, and probes that agree on a third. */
  const STRAY_PROBES: Oracle := CALM.(probes := Ok([Probe(Some(2))]))

  /** The second candidate is fatally flawed, and the probes agree on it. */
  const FATAL_PROBES: Oracle :=
    CALM.(certain := i => if i == 1 then [Defect(Fatal, "")] else [], probes := Ok([Probe(Some(1))]))

  lemma BothAreLenient()
    ensures Lenient(STRAY_PROBES) && Lenient(FATAL_PROBES)
    ensures IsFatal(Reports(Certain(2, FATAL_PROBES.certain), [])[1])
  {
    var stray, fatal := Reports(Certain(2, STRAY_PROBES.certain), []), Reports(Certain(2, FATAL_PROBES.certain), []);
    assert stray[0].defects == [] && fatal[0].defects == [];
    assert stray[0] in stray && !IsFatal(stray[0]) && fatal[0] in fatal && !IsFatal(fatal[0]);
    assert Defect(Fatal, "") in fatal[1].defects;
  }

  lemma LastMore(cfg: Settings, t: Turn, answer: Option<string>, o: Oracle, os: seq<Oracle>)
    requires t.place.At?
    ensures Last(Run(cfg, t, answer, [o] + os)) == Last(Run(cfg, Visit(cfg, t, answer, o), None, os))
  {
    hide Run, Visit;
    RunMore(cfg, t, answer, o, os);
  }

  /** A fresh turn that comes to selection with what `last` says. */
  lemma SelectionIsReached(question: string, datasource: string, last: Oracle) returns (os: seq<Oracle>)
    requires Lenient(last) && last.probes.Ok?
    ensures OnCourse(10, Last(Run(Set(0), Start(question, datasource, None), None, os)), last)
    ensures forall o :: o in os ==> o == CALM || o == REFUSING || o == DOUBTING || o == last
  {
    hide Run, Visit, OnCourse, Set, Lenient;
    var cfg := Set(0);
    var t0 := Start(question, datasource, None);
    HeadStep(cfg, 0, t0, CALM);
    var t1 := Visit(cfg, t0, None, CALM);
    HeadStep(cfg, 1, t1, CALM);
    var t2 := Visit(cfg, t1, None, CALM);
    HeadStep(cfg, 2, t2, CALM);
    var t3 := Visit(cfg, t2, None, CALM);
    GateClears(t3);
    var t4 := Visit(cfg, t3, None, CALM);
    assert OnCourse(0, t4, last) by { SameStart(t4, last); }
    var way := Answers(0, 10, last);
    CourseRuns(0, 0, 10, t4, last);
    os := [CALM] + ([CALM] + ([CALM] + ([CALM] + way)));
    LastMore(cfg, t3, None, CALM, way);
    LastMore(cfg, t2, None, CALM, [CALM] + way);
    LastMore(cfg, t1, None, CALM, [CALM] + ([CALM] + way));
    LastMore(cfg, t0, None, CALM, [CALM] + ([CALM] + ([CALM] + way)));
  }

  lemma SameStart(t: Turn, last: Oracle)
    requires OnCourse(0, t, CALM)
    ensures OnCourse(0, t, last)
  {
  }

  lemma {:induction false} RunExtends(cfg: Settings, t: Turn, answer: Option<string>, os: seq<Oracle>, o: Oracle)
    requires os != [] && Last(Run(cfg, t, answer, os)).place.At?
    ensures Last(Run(cfg, t, answer, os + [o])) == Visit(cfg, Last(Run(cfg, t, answer, os)), None, o)
    decreases |os|
  {
    hide Visit;
    assert os == [os[0]] + os[1..] && os + [o] == [os[0]] + (os[1..] + [o]);
    assert t.place.At?;
    var t' := Visit(cfg, t, answer, os[0]);
    LastMore(cfg, t, answer, os[0], os[1..]);
    LastMore(cfg, t, answer, os[0], os[1..] + [o]);
    if os[1..] == [] {
      assert [] + [o] == [o] + [];
      RunNothing(cfg, t');
      LastMore(cfg, t', None, o, []);
      RunNothing(cfg, Visit(cfg, t', None, o));
    } else {
      RunExtends(cfg, t', None, os[1..], o);
    }
  }

  lemma Tamed()
    ensures Tame(CALM) && Tame(REFUSING) && Tame(DOUBTING) && Tame(STRAY_PROBES) && Tame(FATAL_PROBES)
  {
  }

  /** A stream that just stops, although every service answered: the probes agree on a
      candidate that does not exist, selection raises an IndexError, and no terminal
      event follows. */
  lemma StrayProbesStopTheStream(question: string, datasource: string, bare: bool, start: QueryState, a: Archive,
                                 store: Option<Store>) returns (os: seq<Oracle>)
    ensures forall o :: o in os ==> Tame(o)
    ensures var t := Start(question, datasource, None);
            && Last(Run(Set(0), t, None, os)).place == Failed(IndexOutOfRange)
            && NeverEnds(Streamed(Set(0), t, None, os, bare, start, a, store))
  {
    hide Run, Visit, Lenient, Tame, Streamed, Inv, Stray, OnCourse;
    var cfg, t := Set(0), Start(question, datasource, None);
    Tamed();
    BothAreLenient();
    os := SelectionIsReached(question, datasource, STRAY_PROBES);
    var u := Last(Run(cfg, t, None, os));
    StartHolds(cfg, question, datasource, None);
    LastKeeps(cfg, t, None, os);
    assert u.place == At(Selecting) && Stray(u.state) by { CourseIsStray(u); }
    if os == [] { RunNothing(cfg, t); }
    RunExtends(cfg, t, None, os, CALM);
    SelectionFailsExactly(cfg, u, None, CALM);
    os := os + [CALM];
    StreamEndsExactly(cfg, t, None, os, bare, start, a, store);
  }

  lemma CourseIsStray(u: Turn)
    requires OnCourse(10, u, STRAY_PROBES)
    ensures u.place == At(Selecting) && Stray(u.state)
  {
    assert AllSay(u.state.probes, 2);
  }

  /** A fatally flawed candidate does get selected. */
  lemma FatalIsSelected(question: string, datasource: string) returns (os: seq<Oracle>)
    ensures var t := Last(Run(Set(0), Start(question, datasource, None), None, os));
            && t.place == At(CostGate) && |t.state.reports| == |t.state.candidates| == 2
            && IsFatal(t.state.reports[1]) && t.state.candidates[0] != t.state.candidates[1]
            && t.state.selection.Some? && t.state.selection.value.selected == t.state.candidates[1]
  {
    hide Run, Visit, Lenient, Inv, OnCourse, IsFatal;
    var cfg, t := Set(0), Start(question, datasource, None);
    BothAreLenient();
    os := SelectionIsReached(question, datasource, FATAL_PROBES);
    var u := Last(Run(cfg, t, None, os));
    StartHolds(cfg, question, datasource, None);
    LastKeeps(cfg, t, None, os);
    if os == [] { RunNothing(cfg, t); }
    CourseIsFatal(u);
    RunExtends(cfg, t, None, os, CALM);
    SelectionFailsExactly(cfg, u, None, CALM);
    SelectingOnlySelects(cfg, u, CALM);
    os := os + [CALM];
  }

  lemma CourseIsFatal(u: Turn)
    requires OnCourse(10, u, FATAL_PROBES)
    ensures u.place == At(Selecting) && SelectedPlace(u.state) == Some(1)
    ensures u.state.candidates == [Candidate("a"), Candidate("b")]
    ensures u.state.reports == Reports(Certain(2, FATAL_PROBES.certain), []) && |u.state.reports| == 2
  {
    assert AllSay(u.state.probes, 1);
    ChosenIs(u.state.reports, u.state.probes);
  }

  lemma SelectingOnlySelects(cfg: Settings, t: Turn, o: Oracle)
    requires t.place == At(Selecting)
    ensures var s := Visit(cfg, t, None, o).state; s.candidates == t.state.candidates && s.reports == t.state.reports
  {
    hide Select;
  }
}
