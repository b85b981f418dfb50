/** Streams in their threads: what a conversation leaves in the history of its thread,
    and when recording keeps a stream from its terminal event. */
module QueryThreads {
  import opened Options
  import opened QueryGate
  import opened QuerySelection
  import opened QueryOptimizer
  import opened QueryGraph
  import opened QueryRuns
  import opened QueryOutcomes
  import opened QueryHistory
  import opened QueryStream
  import opened QueryDialogue
  import opened QueryAlignment
  import opened QueryTightness
  import opened QueryEndings

  // ------------------------------------------------------------- the two transports

  /** What a blocking invoke that ended at `last` hands on to be recorded. */
  function Heard(start: QueryState, answer: Option<string>, last: Turn, store: Option<Store>): seq<Invoke> {
    if Over(last) then [InvokeOf(start, answer, ToResponse(Blocking(last)), store)] else []
  }

  lemma LifeMore(past: seq<Invoke>, i: Invoke)
    ensures Life(past + [i]) == Recorded(Life(past), i).0
  {
    hide Recorded;
    assert (past + [i])[..|past|] == past;
  }

  /** Both transports leave the same history: a turn that was streamed is recorded as the
      blocking transport records it, fresh or resumed, and not at all if it raised. */
  lemma TransportsRecordAlike(cfg: Settings, t: Turn, answer: Option<string>, os: seq<Oracle>, bare: bool,
                              question: string, datasource: string, domain: Option<int>,
                              past: seq<Invoke>, store: Option<Store>)
    requires if answer.None? then t == Start(question, datasource, domain)
             else t.place == At(Interrupt) && exists u: Turn :: u.place.Waiting? && Inv(cfg, u) && t == Resumed(u)
    ensures var start, last := InitialState(question, datasource, domain), Last(Run(cfg, t, answer, os));
            !last.place.At? ==>
              Ending(cfg, t, answer, os, bare, start, Life(past), store).0
                == Life(past + Heard(start, answer, last, store))
  {
    hide Inv, Run, Chunks, Fold, ToResponse, InvokeOf, Recorded, Life;
    var start, last := InitialState(question, datasource, domain), Last(Run(cfg, t, answer, os));
    if answer.None? {
      FreshStreamAgrees(cfg, question, datasource, domain, os, bare);
    } else {
      var u: Turn :| u.place.Waiting? && Inv(cfg, u) && t == Resumed(u);
      ResumedStreamAgrees(cfg, u, answer.value, os, bare, question, datasource, domain);
    }
    if Over(last) {
      LifeMore(past, InvokeOf(start, answer, ToResponse(Blocking(last)), store));
    } else {
      assert past + [] == past;
    }
  }

  /** A streamed turn that pauses or ends and whose writes go through is kept under its own
      words: a question under the question, and in a new thread with the datasource that it
      was asked of; an answer, in a thread that holds its question, under the answer. */
  lemma KeptUnderItsWords(cfg: Settings, t: Turn, answer: Option<string>, os: seq<Oracle>, bare: bool,
                          question: string, datasource: string, domain: Option<int>, a: Archive)
    requires Over(Last(Run(cfg, t, answer, os))) && (answer.Some? ==> a.turns != [])
    ensures var start := InitialState(question, datasource, domain);
            var (kept, history) := Ending(cfg, t, answer, os, bare, start, a, Some(Store(Done, Done, Done)));
            && history == Saved && |kept.turns| == |a.turns| + 1 && kept.turns[..|a.turns|] == a.turns
            && kept.turns[|a.turns|].question == (if answer.Some? then answer.value else question)
            && (a == NOTHING_KEPT ==> kept.thread.Some? && kept.thread.value.datasource == datasource)
  {
    hide Run, Chunks, Fold, ToResponse, Title;
  }

  // ----------------------------------------------------------------- a conversation

  /** What the answers of a conversation hand on, with the store each one finds. */
  function Replies(cfg: Settings, start: QueryState, t: Turn, es: seq<Exchange>, stores: seq<Option<Store>>):
      seq<Invoke>
    requires |es| == |stores|
    decreases |es|
  {
    if es == [] || !t.place.Waiting? then []
    else
      var last := Last(Run(cfg, Resumed(t), Some(es[0].answer), es[0].oracles));
      Heard(start, Some(es[0].answer), last, stores[0]) + Replies(cfg, start, last, es[1..], stores[1..])
  }

  lemma {:induction false} AnswersRootNothing(past: seq<Invoke>, more: seq<Invoke>)
    requires forall j :: 0 <= j < |more| ==> more[j].datasource.None?
    ensures Rooted(past + more) <==> Rooted(past)
    decreases |more|
  {
    hide Rooted, Willing;
    if more == [] {
      assert past + more == past;
    } else {
      var n := |more| - 1;
      AnswersRootNothing(past, more[..n]);
      RootedMore(past + more[..n], more[n]);
      assert past + more == past + more[..n] + [more[n]];
    }
  }

  lemma {:induction false} RepliesAreAnswers(cfg: Settings, start: QueryState, t: Turn, es: seq<Exchange>,
                                             stores: seq<Option<Store>>)
    requires |es| == |stores|
    ensures forall j :: 0 <= j < |Replies(cfg, start, t, es, stores)| ==>
      Replies(cfg, start, t, es, stores)[j].datasource.None?
    decreases |es|
  {
    hide Run, ToResponse;
    if es != [] && t.place.Waiting? {
      var last := Last(Run(cfg, Resumed(t), Some(es[0].answer), es[0].oracles));
      RepliesAreAnswers(cfg, start, last, es[1..], stores[1..]);
    }
  }

  /** No write lets an exception through that is not GenQL's. */
  predicate TameStore(store: Option<Store>) {
    store.Some? ==>
      var s := store.value;
      s.list != Raised(Foreign) && s.open != Raised(Foreign) && s.append != Raised(Foreign)
  }

  /** With a question budget below the contested threshold, as in the default settings,
      and with services and a database that raise only GenQL's own errors, in a thread
      with any past: a question's stream always ends with exactly one terminal event; an
      answer's does unless the turn is to be recorded in a thread none of whose questions,
      this conversation's included, was saved. Then it just stops. */
  lemma BudgetKeepsStreamsProper(cfg: Settings, question: string, datasource: string, domain: Option<int>,
                                 past: seq<Invoke>, os: seq<Oracle>, store: Option<Store>,
                                 es: seq<Exchange>, stores: seq<Option<Store>>,
                                 e: Exchange, bare: bool, final: Option<Store>)
    requires BudgetBelowContested(cfg) && |es| == |stores| && TameStore(store) && TameStore(final)
    requires forall o :: o in os + e.oracles ==> Tame(o)
    ensures var start, t := InitialState(question, datasource, domain), Start(question, datasource, domain);
            !Last(Run(cfg, t, None, os)).place.At? ==>
              EndsProperly(Streamed(cfg, t, None, os, bare, start, Life(past), store))
    ensures var start, first := InitialState(question, datasource, domain),
              Last(Run(cfg, Start(question, datasource, domain), None, os));
            var asked, t := past + Heard(start, None, first, store), Converse(cfg, first, es);
            t.place.Waiting? ==>
              var last := Last(Run(cfg, Resumed(t), Some(e.answer), e.oracles));
              var stream := Streamed(cfg, Resumed(t), Some(e.answer), e.oracles, bare, start,
                                     Life(asked + Replies(cfg, start, first, es, stores)), final);
              var lost := Over(last) && final.Some? && final.value.list.Done? && !Rooted(asked);
              && (Rooted(asked) <==> Rooted(past) || (store.Some? && store.value == Store(Done, Done, Done)))
              && (!last.place.At? ==> (EndsProperly(stream) <==> !lost) && (NeverEnds(stream) <==> lost))
  {
    hide Inv, Run, Tame, Streamed, EndsProperly, NeverEnds, Converse, Life, Rooted, Replies, ToResponse;
    var start, t := InitialState(question, datasource, domain), Start(question, datasource, domain);
    StartHolds(cfg, question, datasource, domain);
    var first := Last(Run(cfg, t, None, os));
    if !first.place.At? {
      CalmRunIsCaught(cfg, t, None, os);
      StreamEndsExactly(cfg, t, None, os, bare, start, Life(past), store);
    }
    LastKeeps(cfg, t, None, os);
    CalmRun(cfg, t, None, os);
    ConverseStaysCalm(cfg, first, es);
    var u := Converse(cfg, first, es);
    if u.place.Waiting? {
      ConverseWaits(cfg, first, es);
      var asked, replies := past + Heard(start, None, first, store), Replies(cfg, start, first, es, stores);
      RepliesAreAnswers(cfg, start, first, es, stores);
      AnswersRootNothing(asked, replies);
      RootedMore(past, InvokeOf(start, None, ToResponse(Blocking(first)), store));
      HeldExactlyWhenRooted(asked + replies);
      if !Last(Run(cfg, Resumed(u), Some(e.answer), e.oracles)).place.At? {
        ResumeHolds(cfg, u);
        CalmRunIsCaught(cfg, Resumed(u), Some(e.answer), e.oracles);
        StreamEndsExactly(cfg, Resumed(u), Some(e.answer), e.oracles, bare, start, Life(asked + replies), final);
      }
    }
  }

  lemma ConverseWaits(cfg: Settings, t: Turn, es: seq<Exchange>)
    requires Converse(cfg, t, es).place.Waiting?
    ensures t.place.Waiting?
  {
    hide Run;
  }

  // ---------------------------------------------------------------------- a witness

  /** Everything succeeds with one candidate; there are no rules, and the gate asks. */
  const PLAIN: Oracle :=
    CALM.(rules := Ok([]), gate := Ok(GateResponse([], Entity, "which one?", "", [])),
          generated := Ok([Candidate("a")]), verdict := i => Valid("p"))

  function Plain(n: nat): seq<Oracle> { if n == 0 then [] else [PLAIN] + Plain(n - 1) }

  lemma {:induction false} PlainIsTame(n: nat)
    ensures forall o :: o in Plain(n) ==> Tame(o)
  {
    if n > 0 { PlainIsTame(n - 1); }
  }

  /** One question at most, as in the default settings, and a statement that may run. */
  predicate AsksOnce(cfg: Settings) {
    && cfg.gate.threshold > 0.0 && cfg.gate.maxQuestions == Some(1) && cfg.contestedMin > 1
    && var x := Optimize(cfg.optimizer, "p", PLAIN.decomposed); x.Ok? && x.value.within
  }

  /** The default thresholds, with statements that cost nothing. */
  const DEFAULTS: Settings := Set(2).(gate := Gate(0.55, Some(1)))

  lemma DefaultsAskOnce()
    ensures AsksOnce(DEFAULTS)
  {
  }

  lemma AssessAsksFirst(gate: Gate)
    requires gate.threshold > 0.0 && gate.maxQuestions == Some(1)
    ensures var a := Assess(gate, [], [], [], [], PLAIN.gate); a.Ok? && a.value.isAmbiguous
  {
    hide Keep, Settle;
    assert Defaults([]) == map[];
    var open := OpenDimensions([], [], []);
    var asked := ToScore(open, map[], gate.threshold);
    assert Entity in DIMENSIONS && Entity in open && Entity in asked;
    assert FromScores([]) == map[] && Record(map[], []) == map[];
    var known := KnownAfter(map[], asked, PLAIN.gate);
    assert known == Settle(map[], asked) && Confidence(known, Entity) == 0.0;
    assert Entity in Unsure(open, known, gate.threshold);
  }

  lemma AssessAssumes(gate: Gate, rules: seq<Rule>, links: seq<Link>, answers: seq<Pair>, scores: seq<Score>,
                      reply: Answer<GateResponse>)
    requires BudgetSpent(gate, answers) && reply.Ok?
    ensures var a := Assess(gate, rules, links, answers, scores, reply); a.Ok? && !a.value.isAmbiguous
  {
    hide Keep, Map, Defaults, OpenDimensions, ToScore, Unsure, FromScores, Settle, Record, Assumptions;
    AssertionsHold(gate, rules, links, answers, scores, reply);
  }

  lemma GateAsksFirst(cfg: Settings, t: Turn)
    requires AsksOnce(cfg) && OnHead(3, t)
    ensures var u := Visit(cfg, t, None, PLAIN);
            u.place == At(Interrupt) && u.state.clarifications == [] && u.state.ambiguity.Some?
            && u.state.ambiguity.value.isAmbiguous
  {
    hide Assess, Optimize;
    AssessAsksFirst(cfg.gate);
  }

  lemma InterruptPauses(cfg: Settings, t: Turn)
    requires t.place == At(Interrupt) && Inv(cfg, t) && t.state.ambiguity.Some? && t.state.ambiguity.value.isAmbiguous
    ensures var u := Visit(cfg, t, None, PLAIN); u.place.Waiting? && u.state == t.state
  {
  }

  /** A question that makes the turn pause. */
  lemma QuestionPauses(cfg: Settings, question: string, datasource: string)
    requires AsksOnce(cfg)
    ensures var t := Last(Run(cfg, Start(question, datasource, None), None, Plain(5)));
            t.place.Waiting? && t.state.clarifications == [] && Inv(cfg, t)
  {
    hide Run, Visit, AsksOnce, Inv;
    var t0 := Start(question, datasource, None);
    StartHolds(cfg, question, datasource, None);
    LastKeeps(cfg, t0, None, Plain(5));
    HeadStep(cfg, 0, t0, PLAIN);
    var t1 := Visit(cfg, t0, None, PLAIN);
    HeadStep(cfg, 1, t1, PLAIN);
    var t2 := Visit(cfg, t1, None, PLAIN);
    HeadStep(cfg, 2, t2, PLAIN);
    var t3 := Visit(cfg, t2, None, PLAIN);
    GateAsksFirst(cfg, t3);
    var t4 := Visit(cfg, t3, None, PLAIN);
    VisitKeeps(cfg, t0, None, PLAIN);
    VisitKeeps(cfg, t1, None, PLAIN);
    VisitKeeps(cfg, t2, None, PLAIN);
    VisitKeeps(cfg, t3, None, PLAIN);
    InterruptPauses(cfg, t4);
    RunNothing(cfg, Visit(cfg, t4, None, PLAIN));
    LastMore(cfg, t4, None, PLAIN, Plain(0));
    LastMore(cfg, t3, None, PLAIN, Plain(1));
    LastMore(cfg, t2, None, PLAIN, Plain(2));
    LastMore(cfg, t1, None, PLAIN, Plain(3));
    LastMore(cfg, t0, None, PLAIN, Plain(4));
  }

  const WAY: seq<Node> := [Planning, Generation, Validation, Critiquing, Probing, Selecting, CostGate, Execution]

  /** An uncontested turn on its way from the plan to its rows. */
  predicate OnWay(k: nat, t: Turn) {
    && k <= 8 && t.place == (if k < 8 then At(WAY[k]) else Finished)
    && var s := t.state;
       && !s.contested && (k > 0 ==> s.plan.Some?)
       && (k > 1 ==> s.candidates == PLAIN.generated.value) && (k > 2 ==> s.validatedSqls == ["p"])
       && (k > 5 ==> s.selection.Some? && s.selection.value.sql == "p") && (k > 6 ==> s.validatedSql.Some?)
       && (k == 8 ==> s.result.Some?)
  }

  lemma OnePasses()
    ensures Survivors(PLAIN.generated.value, PLAIN.verdict) == (PLAIN.generated.value, ["p"])
  {
    var c := PLAIN.generated.value;
    assert c == [c[0]] && c[..0] == [] && [] + [c[0]] == c && [] + ["p"] == ["p"];
  }

  lemma WayStep(cfg: Settings, k: nat, t: Turn)
    requires AsksOnce(cfg) && k < 8 && OnWay(k, t)
    ensures OnWay(k + 1, Visit(cfg, t, None, PLAIN))
  {
    hide Survivors, AllViolations, Optimize, Reports, Certain, Select, Decisive, RunGate;
    OnePasses();
  }

  lemma {:induction false} WayRuns(cfg: Settings, k: nat, t: Turn)
    requires AsksOnce(cfg) && OnWay(k, t)
    ensures OnWay(8, Last(Run(cfg, t, None, Plain(8 - k))))
    decreases 8 - k
  {
    hide AsksOnce, Visit, Run;
    if k < 8 {
      WayStep(cfg, k, t);
      LastMore(cfg, t, None, PLAIN, Plain(7 - k));
      WayRuns(cfg, k + 1, Visit(cfg, t, None, PLAIN));
    } else {
      RunNothing(cfg, t);
    }
  }

  lemma AnswerIsTaken(cfg: Settings, t: Turn, answer: string)
    requires AsksOnce(cfg) && Inv(cfg, t) && t.place.Waiting? && t.state.clarifications == []
    ensures var u := Visit(cfg, Resumed(t), Some(answer), PLAIN);
            u.place == At(AmbiguityGate) && |u.state.clarifications| == 1
  {
    hide Optimize;
  }

  lemma GateAssumes(cfg: Settings, t: Turn)
    requires AsksOnce(cfg) && t.place == At(AmbiguityGate) && |t.state.clarifications| == 1
    ensures OnWay(0, Visit(cfg, t, None, PLAIN))
  {
    hide Assess, Optimize;
    AssessAssumes(cfg.gate, [], LinksOf(t.state), t.state.clarifications, t.state.gateScores, PLAIN.gate);
  }

  /** An answered turn that runs to its rows. */
  lemma AnswerFinishes(cfg: Settings, t: Turn, answer: string)
    requires AsksOnce(cfg) && Inv(cfg, t) && t.place.Waiting? && t.state.clarifications == []
    ensures var last := Last(Run(cfg, Resumed(t), Some(answer), Plain(10)));
            last.place == Finished && last.state.result.Some?
  {
    hide AsksOnce, Visit, Run, Inv;
    AnswerIsTaken(cfg, t, answer);
    var u := Visit(cfg, Resumed(t), Some(answer), PLAIN);
    GateAssumes(cfg, u);
    WayRuns(cfg, 0, Visit(cfg, u, None, PLAIN));
    LastMore(cfg, u, None, PLAIN, Plain(8));
    LastMore(cfg, Resumed(t), Some(answer), PLAIN, Plain(9));
  }

  /** A stream that just stops after a turn that went well, although every service
      answered and the budget is below the contested threshold. The question was asked
      where no history is kept, or could not be saved, and was followed by its
      clarification; the answer gets its rows, and no event says so. */
  lemma UnsavedQuestionStopsItsAnswer(cfg: Settings, question: string, datasource: string, answer: string, bare: bool,
                                      store: Option<Store>, final: Store)
    requires AsksOnce(cfg) && TameStore(store) && store != Some(Store(Done, Done, Done))
    requires TameStore(Some(final)) && final.list.Done?
    ensures forall o :: o in Plain(5) + Plain(10) ==> Tame(o)
    ensures var start, t0 := InitialState(question, datasource, None), Start(question, datasource, None);
            var t := Last(Run(cfg, t0, None, Plain(5)));
            && t.place.Waiting? && EndsProperly(Streamed(cfg, t0, None, Plain(5), bare, start, NOTHING_KEPT, store))
            && var last := Last(Run(cfg, Resumed(t), Some(answer), Plain(10)));
               && last.place == Finished && last.state.result.Some?
               && NeverEnds(Streamed(cfg, Resumed(t), Some(answer), Plain(10), bare, start,
                                     Life(Heard(start, None, t, store)), Some(final)))
  {
    hide AsksOnce, Run, Inv, Tame, Streamed, EndsProperly, NeverEnds, ToResponse, Plain, Optimize, Life, Rooted;
    var start, t0 := InitialState(question, datasource, None), Start(question, datasource, None);
    PlainIsTame(5);
    PlainIsTame(10);
    QuestionPauses(cfg, question, datasource);
    var t := Last(Run(cfg, t0, None, Plain(5)));
    AnswerFinishes(cfg, t, answer);
    assert BudgetBelowContested(cfg) by { OnceIsBelow(cfg); }
    NothingIsRooted();
    var e := Exchange(answer, Plain(10));
    BudgetKeepsStreamsProper(cfg, question, datasource, None, [], Plain(5), store, [], [], e, bare, Some(final));
    var heard := Heard(start, None, t, store);
    assert [] + heard == heard && heard + [] == heard;
    assert Converse(cfg, t, []) == t && Replies(cfg, start, t, [], []) == [];
    assert Life([]) == NOTHING_KEPT by { NothingIsKept(); }
  }

  lemma OnceIsBelow(cfg: Settings)
    requires AsksOnce(cfg)
    ensures BudgetBelowContested(cfg)
  {
  }

  lemma NothingIsKept()
    ensures Life([]) == NOTHING_KEPT
  {
  }
}
