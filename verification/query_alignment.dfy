/** From validation to execution: the statement that runs is the validated form
    of the candidate that was chosen. */
module QueryAlignment {
  import opened Options
  import opened QueryGate
  import opened QuerySelection
  import opened QueryOptimizer
  import opened QueryGraph
  import opened QueryRuns

  /** Validation answers, on this visit, only with forms in the relation `form`. */
  ghost predicate Honest(form: (Candidate, string) -> bool, s: QueryState, o: Oracle) {
    forall i :: 0 <= i < |s.candidates| && o.verdict(i).Valid? ==> form(s.candidates[i], o.verdict(i).sql)
  }

  /** `candidates` and `validated_sqls` are aligned, entry by entry. */
  ghost predicate Aligned(form: (Candidate, string) -> bool, candidates: seq<Candidate>, sqls: seq<string>) {
    |candidates| == |sqls| && forall i :: 0 <= i < |candidates| ==> form(candidates[i], sqls[i])
  }

  ghost predicate AlignedTurn(form: (Candidate, string) -> bool, t: Turn) {
    && (t.place in {At(Critiquing), At(Probing), At(Selecting), At(CostGate), At(Execution)} ==>
          Aligned(form, t.state.candidates, t.state.validatedSqls))
    && (t.state.selection.Some? ==> form(t.state.selection.value.selected, t.state.selection.value.sql))
  }

  lemma {:induction false} SurvivorsAreAligned(form: (Candidate, string) -> bool, candidates: seq<Candidate>,
      verdict: int -> Verdict)
    requires forall i :: 0 <= i < |candidates| && verdict(i).Valid? ==> form(candidates[i], verdict(i).sql)
    ensures Aligned(form, Survivors(candidates, verdict).0, Survivors(candidates, verdict).1)
    ensures forall i :: 0 <= i < |candidates| && verdict(i).Valid? ==> candidates[i] in Survivors(candidates, verdict).0
    decreases |candidates|
  {
    if candidates != [] {
      var n := |candidates| - 1;
      SurvivorsAreAligned(form, candidates[..n], verdict);
    }
  }

  lemma SelectingAligns(cfg: Settings, form: (Candidate, string) -> bool, t: Turn, o: Oracle)
    requires t.place == At(Selecting) && AlignedTurn(form, t)
    ensures AlignedTurn(form, Visit(cfg, t, None, o))
  {
    var s := t.state;
    hide Select;
    if s.contested && |s.candidates| > 1 && Select(s.candidates, s.validatedSqls, s.reports, s.probes).Ok? {
      SelectionIsAligned(s.candidates, s.validatedSqls, s.reports, s.probes);
    }
  }

  lemma ValidationAligns(cfg: Settings, form: (Candidate, string) -> bool, t: Turn, o: Oracle)
    requires t.place == At(Validation) && AlignedTurn(form, t) && Honest(form, t.state, o)
    ensures AlignedTurn(form, Visit(cfg, t, None, o))
  {
    hide Survivors, AllViolations;
    SurvivorsAreAligned(form, t.state.candidates, o.verdict);
  }

  lemma VisitAligns(cfg: Settings, form: (Candidate, string) -> bool, t: Turn, answer: Option<string>, o: Oracle)
    requires t.place.At? && AlignedTurn(form, t)
    requires t.place == At(Validation) ==> Honest(form, t.state, o)
    ensures AlignedTurn(form, Visit(cfg, t, answer, o))
  {
    hide Assess, Survivors, AllViolations, Reports, AllFatal, Decisive, Select, Optimize, Aligned, Honest;
    if t.place.node == Validation { ValidationAligns(cfg, form, t, o); }
    if t.place.node == Selecting { SelectingAligns(cfg, form, t, o); }
  }

  /** Every validation visit of the run answers honestly. */
  ghost predicate HonestRun(cfg: Settings, form: (Candidate, string) -> bool, t: Turn, answer: Option<string>,
      os: seq<Oracle>)
    decreases |os|
  {
    os == [] || !t.place.At? ||
    ((t.place == At(Validation) ==> Honest(form, t.state, os[0])) &&
     HonestRun(cfg, form, Visit(cfg, t, answer, os[0]), None, os[1..]))
  }

  /** Alignment to execution, over every run and for every relation between a
      candidate and its validated form. */
  lemma {:induction false} RunStaysAligned(cfg: Settings, form: (Candidate, string) -> bool, t: Turn,
      answer: Option<string>, os: seq<Oracle>)
    requires AlignedTurn(form, t) && HonestRun(cfg, form, t, answer, os)
    ensures forall u :: u in Run(cfg, t, answer, os) ==> AlignedTurn(form, u)
    decreases |os|
  {
    hide AlignedTurn, Visit, Honest;
    if os != [] && t.place.At? {
      VisitAligns(cfg, form, t, answer, os[0]);
      RunStaysAligned(cfg, form, Visit(cfg, t, answer, os[0]), None, os[1..]);
    }
  }

  /** A candidate chosen by critique rank among contested survivors carries no
      fatal report. */
  lemma CritiqueNeverPicksFatal(cfg: Settings, t: Turn)
    requires t.place == At(Selecting) && Inv(cfg, t)
    requires RunSelecting(t.state).Update? && RunSelecting(t.state).delta.Selected?
    requires RunSelecting(t.state).delta.selection.how == CritiqueRanked
    ensures t.state.contested && |t.state.candidates| > 1 && |t.state.reports| == |t.state.candidates|
    ensures exists w :: 0 <= w < |t.state.candidates| && !IsFatal(t.state.reports[w])
                     && RunSelecting(t.state).delta.selection.selected == t.state.candidates[w]
  {
    hide DialogueOk, Select, IsFatal, AllFatal;
    var s := t.state;
    HowIsProbed(s.candidates, s.validatedSqls, s.reports, s.probes);
    RankedWinnerIsNotFatal(s.candidates, s.validatedSqls, s.reports, s.probes);
  }

  lemma HowIsProbed(candidates: seq<Candidate>, sqls: seq<string>, reports: seq<Report>, probes: seq<Probe>)
    ensures var r := Select(candidates, sqls, reports, probes);
            r.Ok? ==> (r.value.how == CritiqueRanked <==> Inconclusive(probes))
  {
    hide RankWinner;
    WinnerIsSaid(probes);
  }

  /** Every probe says one and the same place, and that place does not exist. */
  ghost predicate Stray(s: QueryState) {
    s.contested && |s.candidates| > 1 && exists i :: AllSay(s.probes, i) && Position(i, |s.candidates|).None?
  }

  /** The place a reachable turn selects from. */
  ghost function SelectedPlace(s: QueryState): Option<nat> {
    if !s.contested || |s.candidates| <= 1 then Position(0, |s.candidates|)
    else Position(Chosen(s.reports, s.probes), |s.candidates|)
  }

  /** Selection fails, with an IndexError, exactly when the probes agree on a place
      that does not exist; otherwise it takes the pair at the selected place. */
  lemma SelectionFailsExactly(cfg: Settings, t: Turn, answer: Option<string>, o: Oracle)
    requires t.place == At(Selecting) && Inv(cfg, t)
    ensures var s, next := t.state, Visit(cfg, t, answer, o);
            && (next.place == Failed(IndexOutOfRange) <==> Stray(s))
            && (next.place.Failed? <==> SelectedPlace(s).None?)
            && (!next.place.Failed? ==>
                 && next.place == At(CostGate) && next.state.selection.Some?
                 && next.state.selection.value.selected == s.candidates[SelectedPlace(s).value]
                 && next.state.selection.value.sql == s.validatedSqls[SelectedPlace(s).value])
  {
    hide DialogueOk, Select, Chosen, ProbeWinner, RankWinner, AllFatal, IsFatal, AllSay;
    var s := t.state;
    if s.contested && |s.candidates| > 1 {
      SelectedFrom(s.candidates, s.validatedSqls, s.reports, s.probes);
      RankingIsSound(s.reports, |s.candidates|);
      ChosenIs(s.reports, s.probes);
    }
  }

  /** A fatal candidate is selected exactly when every probe says its place. */
  lemma FatalIsSelectedExactly(cfg: Settings, t: Turn)
    requires t.place == At(Selecting) && Inv(cfg, t) && t.state.contested && |t.state.candidates| > 1
    ensures var s := t.state;
            && |s.reports| == |s.candidates|
            && (SelectedPlace(s).Some? && IsFatal(s.reports[SelectedPlace(s).value])
                <==> exists i :: AllSay(s.probes, i)
                       && var p := Position(i, |s.candidates|); p.Some? && IsFatal(s.reports[p.value]))
  {
    hide DialogueOk, Select, Chosen, ProbeWinner, RankWinner, IsFatal, AllSay;
    RankingIsSound(t.state.reports, |t.state.candidates|);
    ChosenIs(t.state.reports, t.state.probes);
  }

  /** Over every run: the statement that executes is the one whose estimate was
      checked, is within the budget, and costs no more than the rewritten form of
      the selected statement. */
  lemma ExecutedIsWithinBudget(cfg: Settings, t: Turn, answer: Option<string>, os: seq<Oracle>, u: Turn,
                               trees: seq<Tree>)
    requires Inv(cfg, t) && u in Run(cfg, t, answer, os) && u.place == At(Execution)
    requires u.state.selection.Some? ==>
      var sql := u.state.selection.value.sql; cfg.optimizer.parse(sql).None? || Rewriting(cfg.optimizer, sql, trees)
    ensures u.state.validatedSql.Some? && u.state.selection.Some?
    ensures var cost := cfg.optimizer.estimate(u.state.validatedSql.value);
            var plain := cfg.optimizer.estimate(PricedText(cfg.optimizer, u.state.selection.value.sql, trees));
            cost.Ok? && plain.Ok? && cost.value <= cfg.optimizer.budget && cost.value <= plain.value
  {
    RunKeeps(cfg, t, answer, os);
    hide Run, DialogueOk, Rewritten, Rewriting, PricedText;
    assert Inv(cfg, u);
    PricedIsRewritten(cfg.optimizer, u.state.selection.value.sql, trees);
  }
}
