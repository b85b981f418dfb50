/** What the nodes behind the plan decide, told from their answers alone. */
module QueryNodes {
  import opened Options
  import opened QueryGate
  import opened QuerySelection
  import opened QueryOptimizer
  import opened QueryGraph

  // --------------------------------------------------------------------- validation

  /** `at` are the places of the candidates that passed, in order; of each, the candidate
      and its validated form are kept. */
  predicate KeptAt(candidates: seq<Candidate>, verdict: int -> Verdict, at: seq<nat>, kept: seq<Candidate>,
                   sqls: seq<string>)
  {
    && |at| == |kept| == |sqls|
    && (forall k :: 0 <= k < |at| ==> at[k] < |candidates| && verdict(at[k]).Valid?)
    && (forall k :: 0 <= k < |at| ==> kept[k] == candidates[at[k]] && sqls[k] == verdict(at[k]).sql)
    && (forall j, k :: 0 <= j < k < |at| ==> at[j] < at[k])
    && (forall i: nat :: i < |candidates| && verdict(i).Valid? ==> i in at)
  }

  ghost predicate KeptExactly(candidates: seq<Candidate>, verdict: int -> Verdict, kept: seq<Candidate>,
                              sqls: seq<string>)
  {
    exists at: seq<nat> :: KeptAt(candidates, verdict, at, kept, sqls)
  }

  lemma PassedMore(n: nat, verdict: int -> Verdict, at: seq<nat>, more: seq<nat>)
    requires forall i: nat :: i < n && verdict(i).Valid? ==> i in at
    requires more == if verdict(n).Valid? then at + [n] else at
    ensures forall i: nat :: i < n + 1 && verdict(i).Valid? ==> i in more
  {
    forall i: nat | i < n + 1 && verdict(i).Valid? ensures i in more {
      if i < n { assert i in at; } else { assert i == n; }
    }
  }

  lemma KeptMore(candidates: seq<Candidate>, verdict: int -> Verdict, at: seq<nat>, kept: seq<Candidate>,
                 sqls: seq<string>)
    requires candidates != [] && KeptAt(candidates[..|candidates| - 1], verdict, at, kept, sqls)
    ensures var n := |candidates| - 1;
            if verdict(n).Valid? then
              KeptAt(candidates, verdict, at + [n], kept + [candidates[n]], sqls + [verdict(n).sql])
            else KeptAt(candidates, verdict, at, kept, sqls)
  {
    var n := |candidates| - 1;
    var before := candidates[..n];
    assert forall i :: 0 <= i < n ==> before[i] == candidates[i];
    PassedMore(n, verdict, at, if verdict(n).Valid? then at + [n] else at);
  }

  lemma {:induction false} SurvivorsAreKept(candidates: seq<Candidate>, verdict: int -> Verdict) returns (at: seq<nat>)
    ensures var (kept, sqls) := Survivors(candidates, verdict); KeptAt(candidates, verdict, at, kept, sqls)
    decreases |candidates|
  {
    at := [];
    if candidates != [] {
      hide KeptAt;
      var n := |candidates| - 1;
      at := SurvivorsAreKept(candidates[..n], verdict);
      var (kept, sqls) := Survivors(candidates[..n], verdict);
      KeptMore(candidates, verdict, at, kept, sqls);
      if verdict(n).Valid? { at := at + [n]; }
    }
  }

  /** A violation that some candidate was refused for. */
  predicate Refused(n: nat, verdict: int -> Verdict, v: Violation) {
    exists i :: 0 <= i < n && verdict(i).Invalid? && v in verdict(i).violations
  }

  lemma {:induction false} ViolationsAreAll(n: nat, verdict: int -> Verdict)
    ensures forall v :: v in AllViolations(n, verdict) <==> Refused(n, verdict, v)
  {
    if n > 0 {
      ViolationsAreAll(n - 1, verdict);
      forall v ensures v in AllViolations(n, verdict) <==> Refused(n, verdict, v) {
        if Refused(n - 1, verdict, v) {
          var i :| 0 <= i < n - 1 && verdict(i).Invalid? && v in verdict(i).violations;
          assert 0 <= i < n;
        }
      }
    }
  }

  /** Validation, for every state and every verdict. If some candidate passes, exactly
      those that do are kept, in order, each with its validated form. If none does, the
      turn goes back to generation with all violations exactly if one can be repaired, no
      escalation was spent, and it is the first repair or the turn is contested; it spends
      the escalation unless it is the first. In every other case it fails. */
  lemma ValidationExactly(s: QueryState, o: Oracle)
    ensures var r, n := RunValidation(s, o), |s.candidates|;
            var passes := exists i :: 0 <= i < n && o.verdict(i).Valid?;
            var mends := exists v: Violation :: Refused(n, o.verdict, v) && v.repairable;
            var again := mends && !s.escalated && (s.retryCount == 0 || s.contested);
            && (r.Raise? <==> !passes && (n == 0 || !again))
            && (r.Raise? ==> r.error == ValidationFailed)
            && (!r.Raise? ==> r.Update? && r.delta.Validated?)
            && (passes ==>
                 && KeptExactly(s.candidates, o.verdict, r.delta.survivors, r.delta.sqls)
                 && r.delta.sqls != [] && r.delta.violations == [] && !r.delta.escalates)
            && (!passes && n > 0 && again ==>
                 && r.delta.survivors == [] && r.delta.sqls == []
                 && (forall v :: v in r.delta.violations <==> Refused(n, o.verdict, v))
                 && (r.delta.escalates <==> s.retryCount > 0))
  {
    hide Survivors, AllViolations, Refused;
    var n := |s.candidates|;
    var at := SurvivorsAreKept(s.candidates, o.verdict);
    ViolationsAreAll(n, o.verdict);
    var (kept, sqls) := Survivors(s.candidates, o.verdict);
    assert KeptAt(s.candidates, o.verdict, at, kept, sqls) && KeptExactly(s.candidates, o.verdict, kept, sqls);
    if at != [] { assert o.verdict(at[0]).Valid?; }
  }

  // ------------------------------------------------------------------- one visit each

  /** The nodes in front of the gate: each takes over the answer of its service and
      changes nothing else; only an analytical question goes on. */
  lemma HeadNodesExactly(cfg: Settings, t: Turn, answer: Option<string>, o: Oracle)
    requires t.place.At?
    ensures var next := Visit(cfg, t, answer, o);
            && (t.place.node == Intent && o.intent.Ok? ==>
                 && next.state == t.state.(intent := Some(o.intent.value))
                 && next.place == if o.intent.value == "analytical_sql" then At(Domain) else Finished)
            && (t.place.node == Domain && t.state.domain.Some? ==> next == Turn(At(Linking), t.state))
            && (t.place.node == Domain && t.state.domain.None? && o.domain.Ok? ==>
                 next == Turn(At(Linking), t.state.(domain := Some(o.domain.value))))
            && (t.place.node == Linking && o.links.Ok? ==>
                 next == Turn(At(AmbiguityGate), t.state.(links := Some(o.links.value))))
  {
  }

  /** The gate: the assessment of the rules, links, answers and scores at hand is kept with
      its scores and assumptions; the turn goes on to the plan exactly if nothing is left
      to ask, and is contested from then on exactly if enough was answered. */
  lemma GateExactly(cfg: Settings, t: Turn, answer: Option<string>, o: Oracle)
    requires t.place == At(AmbiguityGate) && o.rules.Ok?
    ensures var links := if t.state.links.Some? then t.state.links.value else [];
            var a := Assess(cfg.gate, o.rules.value, links, t.state.clarifications, t.state.gateScores, o.gate);
            var next := Visit(cfg, t, answer, o);
            && (next.place.Failed? <==> a.Fail?)
            && (a.Ok? ==>
                 && next.place == (if a.value.isAmbiguous then At(Interrupt) else At(Planning))
                 && next.state == t.state.(ambiguity := Some(a.value), gateScores := a.value.scores,
                                           assumptions := a.value.assumed, contested := next.state.contested)
                 && (a.value.isAmbiguous ==> next.state.contested == t.state.contested)
                 && (!a.value.isAmbiguous ==>
                       (next.state.contested <==> |t.state.clarifications| >= cfg.contestedMin)))
  {
    hide Assess;
  }

  /** Generation takes over the candidates, and counts a repair exactly if there are
      violations to repair. */
  lemma GenerationExactly(cfg: Settings, t: Turn, answer: Option<string>, o: Oracle)
    requires t.place == At(Generation) && t.state.plan.Some? && o.generated.Ok?
    ensures var next := Visit(cfg, t, answer, o);
            && next.place == At(Validation)
            && next.state == t.state.(candidates := o.generated.value, retryCount := next.state.retryCount)
            && next.state.retryCount == t.state.retryCount + (if t.state.violations == [] then 0 else 1)
  {
  }

  /** Critique and probing: only for contested turns with more than one candidate. A
      critique that finds all fatal goes back to generation, once; otherwise it goes on. */
  lemma CritiqueExactly(cfg: Settings, t: Turn, answer: Option<string>, o: Oracle)
    requires t.place == At(Critiquing) && t.state.plan.Some? && o.critique.Ok?
    ensures var s, next, n := t.state, Visit(cfg, t, answer, o), |t.state.candidates|;
            var due := s.contested && n > 1;
            var reports := Reports(Certain(n, o.certain), o.critique.value);
            var hopeless := due && forall i :: 0 <= i < n ==> IsFatal(reports[i]);
            && (next.place.Failed? <==> hopeless && s.escalated)
            && (!next.place.Failed? ==>
                 && next.state == s.(reports := if due then reports else [], escalated := s.escalated || hopeless)
                 && next.place == (if hopeless then At(Generation) else At(Probing)))
  {
    hide IsFatal;
    var n := |t.state.candidates|;
    var reports := Reports(Certain(n, o.certain), o.critique.value);
    assert |reports| == n;
    if forall i :: 0 <= i < n ==> IsFatal(reports[i]) {
      forall r | r in reports ensures IsFatal(r) {
        var i :| 0 <= i < n && reports[i] == r;
      }
    }
    assert forall i :: 0 <= i < n ==> reports[i] in reports;
  }

  /** Probing is skipped exactly if the turn is not contested, has one candidate or was
      decided by critique. */
  lemma ProbingExactly(cfg: Settings, t: Turn, answer: Option<string>, o: Oracle)
    requires t.place == At(Probing) && t.state.plan.Some? && o.probes.Ok?
    ensures var s, next := t.state, Visit(cfg, t, answer, o);
            var due := s.contested && |s.candidates| > 1 && !Decisive(s.reports, cfg.skipMargin);
            next == Turn(At(Selecting), s.(probes := if due then o.probes.value else []))
  {
    hide Decisive;
  }

  /** Selection: of a turn that is not contested, or has one candidate, the first is taken
      and reported as the single survivor; of any other, what critique and probes choose. */
  lemma SelectingExactly(cfg: Settings, t: Turn, answer: Option<string>, o: Oracle)
    requires t.place == At(Selecting)
    ensures var s, next := t.state, Visit(cfg, t, answer, o);
            var due := s.contested && |s.candidates| > 1;
            && (!due ==>
                 && (next.place.Failed? <==> s.candidates == [] || s.validatedSqls == [])
                 && (!next.place.Failed? ==>
                      var x := Selection(s.candidates[0], s.validatedSqls[0], SingleSurvivor);
                      next == Turn(At(CostGate), s.(selection := Some(x), validatedSql := Some(x.sql)))))
            && (due ==>
                 var x := Select(s.candidates, s.validatedSqls, s.reports, s.probes);
                 && (next.place.Failed? <==> x.Fail?)
                 && (x.Ok? ==>
                      next == Turn(At(CostGate), s.(selection := Some(x.value), validatedSql := Some(x.value.sql)))))
  {
    hide Select;
  }

  /** Behind the selection: the gate's statement is the one on record, it is executed
      exactly if it is within the budget, and its rows are the result. */
  lemma TailNodesExactly(cfg: Settings, t: Turn, answer: Option<string>, o: Oracle)
    requires t.place.At?
    ensures var s, next := t.state, Visit(cfg, t, answer, o);
            && (t.place.node == Planning && o.plan.Ok? ==>
                 next == Turn(At(Generation), s.(plan := Some(o.plan.value))))
            && (t.place.node == CostGate && s.selection.Some? && s.plan.Some? ==>
                 var x := Optimize(cfg.optimizer, s.selection.value.sql, o.decomposed);
                 && (next.place.Failed? <==> x.Fail?)
                 && (x.Ok? ==>
                      && next.state == s.(optimization := Some(x.value), validatedSql := Some(x.value.sql))
                      && next.place == if x.value.within then At(Execution) else Finished))
            && (t.place.node == Execution && s.validatedSql.Some? && o.rows.Ok? ==>
                 next == Turn(Finished, s.(result := Some(o.rows.value))))
  {
    hide Optimize;
  }
}
