/** Critique reports and the deterministic choice among surviving candidates:
    `critique_service.py`, `candidate_selection_service.py` and the skip rule of
    `AmbiguityProbingNode`. */
module QuerySelection {
  import opened Options
  import opened QueryGate

  datatype Candidate = Candidate(sql: string)

  datatype Severity = Fatal | Repairable | Advisory

  datatype Defect = Defect(severity: Severity, message: string)

  /** One candidate's report; `index` is its place in the candidate tuple. */
  datatype Report = Report(index: int, defects: seq<Defect>, score: real)

  datatype Probe = Probe(resolved: Option<int>)

  datatype Method = SingleSurvivor | ProbeResolved | CritiqueRanked

  datatype Selection = Selection(selected: Candidate, sql: string, how: Method)

  predicate IsFatal(r: Report) { exists d :: d in r.defects && d.severity == Fatal }

  predicate AllFatal(reports: seq<Report>) { reports != [] && forall r :: r in reports ==> IsFatal(r) }

  /** Any one defect that is fatal makes the report fatal, and no other does. */
  lemma FatalExactly(r: Report)
    ensures IsFatal(r) <==> exists k :: 0 <= k < |r.defects| && r.defects[k].severity == Fatal
  {
    if IsFatal(r) {
      var d :| d in r.defects && d.severity == Fatal;
      var k :| 0 <= k < |r.defects| && r.defects[k] == d;
    }
    if k :| 0 <= k < |r.defects| && r.defects[k].severity == Fatal { assert r.defects[k] in r.defects; }
  }

  // --------------------------------------------------------------------- critique

  /** The model's last report for candidate `i`, as building a dictionary by
      index leaves it. */
  function Found(replies: seq<Report>, i: int): Option<Report> {
    if replies == [] then None
    else
      var last := replies[|replies| - 1];
      if last.index == i then Some(last) else Found(replies[..|replies| - 1], i)
  }

  function ReportFor(i: int, certain: seq<Defect>, replies: seq<Report>): Report {
    var found := Found(replies, i);
    Report(i, certain + (if found.Some? then found.value.defects else []),
           if found.Some? then found.value.score else 0.0)
  }

  /** `critique`: exactly one report per candidate, in order, whatever the model
      returned. */
  method Critique(certain: seq<seq<Defect>>, replies: seq<Report>) returns (reports: seq<Report>)
    ensures |reports| == |certain|
    ensures forall i :: 0 <= i < |certain| ==> reports[i] == ReportFor(i, certain[i], replies)
  {
    reports := [];
    for i := 0 to |certain|
      invariant |reports| == i
      invariant forall j :: 0 <= j < i ==> reports[j] == ReportFor(j, certain[j], replies)
    {
      reports := reports + [ReportFor(i, certain[i], replies)];
    }
  }

  function Reports(certain: seq<seq<Defect>>, replies: seq<Report>): (r: seq<Report>)
    ensures |r| == |certain|
    ensures forall i :: 0 <= i < |r| ==> r[i].index == i && r[i] == ReportFor(i, certain[i], replies)
  {
    seq(|certain|, i requires 0 <= i < |certain| => ReportFor(i, certain[i], replies))
  }

  /** What the report of candidate `i` holds: the certain defects, and those and the score
      of the last reply that names it; without any, no more and a score of 0. */
  lemma {:induction false} LastReplyCounts(i: int, certain: seq<Defect>, replies: seq<Report>, k: nat)
    requires k < |replies| ==> replies[k].index == i
    requires forall j :: k < j < |replies| ==> replies[j].index != i
    requires k >= |replies| ==> forall j :: 0 <= j < |replies| ==> replies[j].index != i
    ensures var r := ReportFor(i, certain, replies);
            && r.index == i
            && r.defects == certain + (if k < |replies| then replies[k].defects else [])
            && r.score == if k < |replies| then replies[k].score else 0.0
  {
    FoundIsLast(i, replies, k);
  }

  lemma {:induction false} FoundIsLast(i: int, replies: seq<Report>, k: nat)
    requires k < |replies| ==> replies[k].index == i
    requires forall j :: k < j < |replies| ==> replies[j].index != i
    requires k >= |replies| ==> forall j :: 0 <= j < |replies| ==> replies[j].index != i
    ensures Found(replies, i) == if k < |replies| then Some(replies[k]) else None
  {
    if replies != [] && k != |replies| - 1 { FoundIsLast(i, replies[..|replies| - 1], k); }
  }

  // -------------------------------------------------------------------- selection

  /** Every probe resolved, and all of them to the same candidate. */
  function ProbeWinner(probes: seq<Probe>): Option<int> {
    if probes != [] && forall p :: p in probes ==> p == probes[0] then probes[0].resolved else None
  }

  /** `a` ranks above `b` under the key (score, -index). */
  predicate Above(a: Report, b: Report) {
    a.score > b.score || (a.score == b.score && a.index < b.index)
  }

  /** `max`: the first report that none ranks above. */
  function Best(pool: seq<Report>): (r: Report)
    requires pool != []
    ensures r in pool && forall x :: x in pool ==> !Above(x, r)
  {
    if |pool| == 1 then pool[0]
    else
      var b := Best(pool[..|pool| - 1]);
      assert forall x :: x in pool ==> x in pool[..|pool| - 1] || x == pool[|pool| - 1];
      if Above(pool[|pool| - 1], b) then pool[|pool| - 1] else b
  }

  function Pool(reports: seq<Report>): seq<Report> {
    var nonFatal := Keep(reports, (r: Report) => !IsFatal(r));
    if nonFatal != [] then nonFatal else reports
  }

  function RankWinner(reports: seq<Report>): Option<int> {
    if Pool(reports) == [] then None else Some(Best(Pool(reports)).index)
  }

  /** Indexing a tuple the way the source's language does: from the end for
      negative places, and failing outside. */
  function At<T>(xs: seq<T>, i: int): Option<T> {
    if 0 <= i < |xs| then Some(xs[i])
    else if -|xs| <= i < 0 then Some(xs[|xs| + i])
    else None
  }

  function Pick(candidates: seq<Candidate>, sqls: seq<string>, i: int, how: Method): Answer<Selection> {
    var c, s := At(candidates, i), At(sqls, i);
    if c.Some? && s.Some? then Ok(Selection(c.value, s.value, how)) else Fail(IndexOutOfRange)
  }

  /** `select` */
  function Select(candidates: seq<Candidate>, sqls: seq<string>, reports: seq<Report>,
      probes: seq<Probe>): Answer<Selection> {
    var probed := ProbeWinner(probes);
    if probed.Some? then Pick(candidates, sqls, probed.value, ProbeResolved)
    else
      var ranked := RankWinner(reports);
      Pick(candidates, sqls, if ranked.Some? then ranked.value else 0, CritiqueRanked)
  }

  /** The reports that critique writes: one per candidate, at its own place. */
  predicate Indexed(reports: seq<Report>, n: nat) {
    |reports| == n && forall i :: 0 <= i < n ==> reports[i].index == i
  }

  /** Ranking by critique picks the best report that is not fatal, the earliest
      of equals, and never a fatal candidate unless all are. */
  lemma RankingIsSound(reports: seq<Report>, n: nat)
    requires n > 0 && Indexed(reports, n)
    ensures RankWinner(reports).Some?
    ensures var w := RankWinner(reports).value;
            && 0 <= w < n
            && (IsFatal(reports[w]) ==> AllFatal(reports))
            && forall i :: 0 <= i < n && (IsFatal(reports[i]) ==> AllFatal(reports)) ==>
                 reports[i].score < reports[w].score || (reports[i].score == reports[w].score && w <= i)
  {
    hide Keep, IsFatal;
    var pool := Pool(reports);
    assert forall i :: 0 <= i < n ==> reports[i] in reports;
    assert pool != [] by { assert reports[0] in reports; }
    var best := Best(pool);
    assert best in reports;
    forall i | 0 <= i < n && (IsFatal(reports[i]) ==> AllFatal(reports))
      ensures reports[i] in pool
    {
    }
  }

  lemma PickIsAligned(candidates: seq<Candidate>, sqls: seq<string>, i: int, how: Method)
    requires |candidates| == |sqls| && Pick(candidates, sqls, i, how).Ok?
    ensures var s := Pick(candidates, sqls, i, how).value;
            exists k :: 0 <= k < |candidates| && s.selected == candidates[k] && s.sql == sqls[k]
  {
    var k := if i < 0 then |candidates| + i else i;
    assert candidates[k] == At(candidates, i).value && sqls[k] == At(sqls, i).value;
  }

  /** Whatever two aligned tuples hold, the statement selected is the one that
      stands at the selected candidate's place. */
  lemma SelectionIsAligned(candidates: seq<Candidate>, sqls: seq<string>, reports: seq<Report>, probes: seq<Probe>)
    requires |candidates| == |sqls|
    requires Select(candidates, sqls, reports, probes).Ok?
    ensures var s := Select(candidates, sqls, reports, probes).value;
            exists i :: 0 <= i < |candidates| && s.selected == candidates[i] && s.sql == sqls[i]
  {
    hide ProbeWinner, RankWinner, Pick;
    var probed, ranked := ProbeWinner(probes), RankWinner(reports);
    if probed.Some? {
      PickIsAligned(candidates, sqls, probed.value, ProbeResolved);
    } else {
      PickIsAligned(candidates, sqls, if ranked.Some? then ranked.value else 0, CritiqueRanked);
    }
  }

  // -------------------------------------------------------------- what the probes say

  /** There are probes, and every one of them says `i`. */
  predicate AllSay(probes: seq<Probe>, i: int) { probes != [] && forall p :: p in probes ==> p == Probe(Some(i)) }

  ghost predicate Inconclusive(probes: seq<Probe>) { forall i :: !AllSay(probes, i) }

  lemma WinnerIsSaid(probes: seq<Probe>)
    ensures forall i :: AllSay(probes, i) <==> ProbeWinner(probes) == Some(i)
    ensures Inconclusive(probes) <==> ProbeWinner(probes).None?
  {
    forall i ensures AllSay(probes, i) <==> ProbeWinner(probes) == Some(i) {
      if probes != [] { assert probes[0] in probes; }
    }
    if ProbeWinner(probes).Some? { assert AllSay(probes, ProbeWinner(probes).value); }
  }

  /** One probe that did not resolve, or two that differ, leave the matter undecided. */
  lemma InconclusiveExactly(probes: seq<Probe>)
    ensures Inconclusive(probes) <==>
      probes == [] || Probe(None) in probes || exists p, q :: p in probes && q in probes && p != q
  {
    if probes != [] {
      var first := probes[0];
      assert first in probes;
      if first.resolved.Some? && forall p :: p in probes ==> p == first { assert AllSay(probes, first.resolved.value); }
      if i :| AllSay(probes, i) { assert forall p :: p in probes ==> p == Probe(Some(i)); }
    }
  }

  /** Where an index leads in a tuple of `n`. */
  function Position(i: int, n: nat): Option<nat> {
    var k := if i < 0 then n + i else i;
    if 0 <= k < n then var place: nat := k; Some(place) else None
  }

  /** What the probes do to the choice, whatever critique reports: it is theirs if and
      only if every one of them says the same place and that place exists, and then the
      pair there is taken; if they agree on a place that does not exist it fails; and in
      every other case it is the choice that would have been made without any probe. */
  lemma ProbesDecideExactly(candidates: seq<Candidate>, sqls: seq<string>, reports: seq<Report>, probes: seq<Probe>)
    requires |candidates| == |sqls|
    ensures var s, n := Select(candidates, sqls, reports, probes), |candidates|;
            && (s.Ok? && s.value.how == ProbeResolved <==> exists i :: AllSay(probes, i) && Position(i, n).Some?)
            && (forall i :: AllSay(probes, i) ==>
                  s == match Position(i, n)
                       case None => Fail(IndexOutOfRange)
                       case Some(k) => Ok(Selection(candidates[k], sqls[k], ProbeResolved)))
            && (Inconclusive(probes) ==> s == Select(candidates, sqls, reports, []))
  {
    hide RankWinner, ProbeWinner;
    WinnerIsSaid(probes);
    WinnerIsSaid([]);
    if ProbeWinner(probes).Some? { assert AllSay(probes, ProbeWinner(probes).value); }
    assert ProbeWinner([]).None? by { if i :| AllSay([], i) { } }
  }

  /** Without a say of the probes critique decides: the choice is the report that ranks
      best, the earliest of equals, and never a fatal one unless all are. */
  lemma CritiqueDecidesExactly(candidates: seq<Candidate>, sqls: seq<string>, reports: seq<Report>, probes: seq<Probe>)
    requires |candidates| == |sqls| > 0 && Indexed(reports, |candidates|) && Inconclusive(probes)
    ensures exists w ::
      && 0 <= w < |candidates|
      && Select(candidates, sqls, reports, probes) == Ok(Selection(candidates[w], sqls[w], CritiqueRanked))
      && (IsFatal(reports[w]) ==> AllFatal(reports))
      && forall i :: 0 <= i < |candidates| && (IsFatal(reports[i]) ==> AllFatal(reports)) ==>
           reports[i].score < reports[w].score || (reports[i].score == reports[w].score && w <= i)
  {
    hide RankWinner, ProbeWinner, IsFatal, AllFatal;
    WinnerIsSaid(probes);
    RankingIsSound(reports, |candidates|);
    var w := RankWinner(reports).value;
    assert Select(candidates, sqls, reports, probes) == Ok(Selection(candidates[w], sqls[w], CritiqueRanked));
  }

  /** Without any report the first candidate is taken. */
  lemma FirstIsTheFallback(candidates: seq<Candidate>, sqls: seq<string>, probes: seq<Probe>)
    requires |candidates| == |sqls| > 0 && Inconclusive(probes)
    ensures Select(candidates, sqls, [], probes) == Ok(Selection(candidates[0], sqls[0], CritiqueRanked))
  {
    hide ProbeWinner;
    WinnerIsSaid(probes);
  }

  /** A winner by critique is not fatal, once critique let the turn go on. */
  lemma RankedWinnerIsNotFatal(candidates: seq<Candidate>, sqls: seq<string>, reports: seq<Report>, probes: seq<Probe>)
    requires |candidates| == |sqls| > 0 && Indexed(reports, |candidates|) && !AllFatal(reports)
    requires Inconclusive(probes)
    ensures var s := Select(candidates, sqls, reports, probes);
            && s.Ok? && s.value.how == CritiqueRanked
            && exists w :: 0 <= w < |candidates| && s.value.selected == candidates[w] && !IsFatal(reports[w])
  {
    hide RankWinner, ProbeWinner, IsFatal, AllFatal, Select;
    CritiqueDecidesExactly(candidates, sqls, reports, probes);
  }

  // ----------------------------------------------------------------- skipped probes

  /** The index that the choice should fall on: the probes' if they all say it, else
      critique's. */
  ghost function Chosen(reports: seq<Report>, probes: seq<Probe>): int {
    if i :| AllSay(probes, i) then i
    else var ranked := RankWinner(reports); if ranked.Some? then ranked.value else 0
  }

  lemma ChosenIs(reports: seq<Report>, probes: seq<Probe>)
    ensures forall i :: AllSay(probes, i) ==> Chosen(reports, probes) == i
    ensures Inconclusive(probes) ==>
      Chosen(reports, probes) == if RankWinner(reports).Some? then RankWinner(reports).value else 0
  {
    hide RankWinner, ProbeWinner;
    WinnerIsSaid(probes);
  }

  /** A choice succeeds exactly when its index leads somewhere, and takes candidate and
      statement from there. */
  lemma SelectedFrom(candidates: seq<Candidate>, sqls: seq<string>, reports: seq<Report>, probes: seq<Probe>)
    requires |candidates| == |sqls|
    ensures var s, p := Select(candidates, sqls, reports, probes), Position(Chosen(reports, probes), |candidates|);
            if p.None? then s == Fail(IndexOutOfRange)
            else s.Ok? && s.value.selected == candidates[p.value] && s.value.sql == sqls[p.value]
  {
    hide ProbeWinner, RankWinner;
    WinnerIsSaid(probes);
    ChosenIs(reports, probes);
  }

  predicate SameChoice(a: Selection, b: Selection) { a.selected == b.selected && a.sql == b.sql }

  lemma OneProbeDecides(reports: seq<Report>, i: nat)
    ensures Chosen(reports, [Probe(Some(i))]) == i
  {
    hide RankWinner;
    assert AllSay([Probe(Some(i))], i);
    ChosenIs(reports, [Probe(Some(i))]);
  }

  /** No reports and no margin make it safe to skip the probes: whatever critique
      found, the choice is the same under every outcome of the probes if and only if
      all candidates are copies of the one that critique ranks first. */
  lemma SkippingProbes(candidates: seq<Candidate>, sqls: seq<string>, reports: seq<Report>)
    requires |candidates| == |sqls| > 0 && Indexed(reports, |candidates|)
    ensures var w, skipped := RankWinner(reports).value, Select(candidates, sqls, reports, []);
            && RankWinner(reports).Some? && 0 <= w < |candidates| && skipped.Ok?
            && ((forall probes: seq<Probe> ::
                   var s := Select(candidates, sqls, reports, probes); s.Ok? ==> SameChoice(s.value, skipped.value))
                <==> forall i :: 0 <= i < |candidates| ==> candidates[i] == candidates[w] && sqls[i] == sqls[w])
  {
    hide ProbeWinner, RankWinner, Select, Chosen;
    RankingIsSound(reports, |candidates|);
    var w := RankWinner(reports).value;
    SelectedFrom(candidates, sqls, reports, []);
    assert Chosen(reports, []) == w by { NoProbesNoSay(reports); }
    if forall probes: seq<Probe> ::
         var s := Select(candidates, sqls, reports, probes);
         s.Ok? ==> SameChoice(s.value, Select(candidates, sqls, reports, []).value)
    {
      forall i: nat | i < |candidates| ensures candidates[i] == candidates[w] && sqls[i] == sqls[w] {
        SelectedFrom(candidates, sqls, reports, [Probe(Some(i))]);
        OneProbeDecides(reports, i);
      }
    }
    if forall i :: 0 <= i < |candidates| ==> candidates[i] == candidates[w] && sqls[i] == sqls[w] {
      forall probes: seq<Probe> | Select(candidates, sqls, reports, probes).Ok?
        ensures SameChoice(Select(candidates, sqls, reports, probes).value, Select(candidates, sqls, reports, []).value)
      {
        SelectedFrom(candidates, sqls, reports, probes);
      }
    }
  }

  lemma NoProbesNoSay(reports: seq<Report>)
    requires RankWinner(reports).Some?
    ensures Chosen(reports, []) == RankWinner(reports).value
  {
    hide RankWinner;
    ChosenIs(reports, []);
  }

  /** A decisive critique, and probes that would have picked the fatal candidate. */
  lemma ProbesMayPickFatal(a: Candidate, b: Candidate, p: string, q: string)
    ensures var reports := [Report(0, [], 1.0), Report(1, [Defect(Fatal, "")], 0.0)];
            && Indexed(reports, 2) && !AllFatal(reports) && IsFatal(reports[1]) && Decisive(reports, Some(0.5))
            && Select([a, b], [p, q], reports, [Probe(Some(1))]) == Ok(Selection(b, q, ProbeResolved))
            && Select([a, b], [p, q], reports, []) == Ok(Selection(a, p, CritiqueRanked))
  {
    var reports := [Report(0, [], 1.0), Report(1, [Defect(Fatal, "")], 0.0)];
    assert Defect(Fatal, "") in reports[1].defects && reports[0] in reports;
    assert !IsFatal(reports[0]) && IsFatal(reports[1]);
    var alive := (r: Report) => !IsFatal(r);
    assert reports[1..] == [reports[1]] && reports[1..][1..] == [];
    assert Keep(reports[1..], alive) == [];
    assert Keep(reports, alive) == [reports[0]];
    assert Pool(reports) == [reports[0]] && RankWinner(reports) == Some(0);
  }

  function MaxScore(pool: seq<Report>): (k: nat)
    requires pool != []
    ensures k < |pool| && forall i :: 0 <= i < |pool| ==> pool[i].score <= pool[k].score
  {
    if |pool| == 1 then 0
    else
      var k := MaxScore(pool[..|pool| - 1]);
      if pool[|pool| - 1].score > pool[k].score then |pool| - 1 else k
  }

  /** `_critique_already_decisive` */
  predicate Decisive(reports: seq<Report>, margin: Option<real>) {
    if margin.None? then false
    else if |Keep(reports, (r: Report) => !IsFatal(r))| == 1 then true
    else
      var pool := Pool(reports);
      if |pool| < 2 then false
      else
        var k := MaxScore(pool);
        var others := pool[..k] + pool[k + 1..];
        pool[k].score - others[MaxScore(others)].score >= margin.value
  }

  // ----------------------------------------------------------------- decisive critique

  /** Candidate `i` is in the running: not fatally flawed, unless all are. */
  predicate InRunning(reports: seq<Report>, i: nat)
    requires i < |reports|
  {
    !IsFatal(reports[i]) || AllFatal(reports)
  }

  /** Candidate `i` is ahead of every other that is in the running, by the margin. */
  predicate Leads(reports: seq<Report>, i: nat, margin: real)
    requires i < |reports|
  {
    && InRunning(reports, i)
    && forall j :: 0 <= j < |reports| && j != i && InRunning(reports, j) ==>
         reports[i].score - reports[j].score >= margin
  }

  predicate HasRival(reports: seq<Report>, i: nat)
    requires i < |reports|
  {
    exists j :: 0 <= j < |reports| && j != i && InRunning(reports, j)
  }

  /** Candidate `i` is the only one that is not fatally flawed. */
  predicate OnlySound(reports: seq<Report>, i: nat)
    requires i < |reports|
  {
    !IsFatal(reports[i]) && forall j :: 0 <= j < |reports| && j != i ==> IsFatal(reports[j])
  }

  predicate Sorted(reports: seq<Report>) {
    forall i, j :: 0 <= i < j < |reports| ==> reports[i].index < reports[j].index
  }

  lemma SortedParts(head: Report, tail: seq<Report>)
    ensures Sorted([head] + tail) <==> Sorted(tail) && forall r :: r in tail ==> head.index < r.index
  {
    var all := [head] + tail;
    if Sorted(all) {
      forall r | r in tail ensures head.index < r.index {
        var j :| 0 <= j < |tail| && tail[j] == r;
        assert all[j + 1] == r && all[0] == head;
      }
      forall i, j | 0 <= i < j < |tail| ensures tail[i].index < tail[j].index {
        assert all[i + 1] == tail[i] && all[j + 1] == tail[j];
      }
    }
  }

  lemma {:induction false} KeepSorted(reports: seq<Report>, p: Report -> bool)
    requires Sorted(reports)
    ensures Sorted(Keep(reports, p))
  {
    hide Sorted;
    if reports != [] {
      var head, tail := reports[0], reports[1..];
      var rest := Keep(tail, p);
      assert reports == [head] + tail;
      SortedParts(head, tail);
      KeepSorted(tail, p);
      SortedParts(head, rest);
      if p(head) {
        assert Keep(reports, p) == [head] + rest;
      } else {
        assert Keep(reports, p) == [] + rest && [] + rest == rest;
      }
    } else {
      assert Keep(reports, p) == reports;
    }
  }

  /** The pool holds each candidate in the running once. */
  lemma PoolIsRunning(reports: seq<Report>, n: nat)
    requires n > 0 && Indexed(reports, n)
    ensures forall r :: r in Pool(reports) <==> 0 <= r.index < n && r == reports[r.index] && InRunning(reports, r.index)
    ensures forall i, j :: 0 <= i < j < |Pool(reports)| ==> Pool(reports)[i].index < Pool(reports)[j].index
  {
    hide Keep, IsFatal;
    KeepSorted(reports, (r: Report) => !IsFatal(r));
    assert forall i :: 0 <= i < n ==> reports[i] in reports;
  }

  predicate AheadInPool(pool: seq<Report>, k: nat, margin: real)
    requires k < |pool|
  {
    forall j :: 0 <= j < |pool| && j != k ==> pool[k].score - pool[j].score >= margin
  }

  function Others(pool: seq<Report>, k: nat): (r: seq<Report>)
    requires k < |pool|
    ensures |r| == |pool| - 1
    ensures forall j :: 0 <= j < |r| ==> r[j] == pool[if j < k then j else j + 1]
  {
    pool[..k] + pool[k + 1..]
  }

  lemma BestOfRest(pool: seq<Report>, k: nat, margin: real)
    requires |pool| >= 2 && k == MaxScore(pool)
    ensures var others := pool[..k] + pool[k + 1..];
            others != []
            && (pool[k].score - others[MaxScore(others)].score >= margin <==> AheadInPool(pool, k, margin))
  {
    hide MaxScore;
    var others := Others(pool, k);
    assert others == pool[..k] + pool[k + 1..];
    var b := MaxScore(others);
    var second := if b < k then b else b + 1;
    assert others[b] == pool[second] && second != k;
    if pool[k].score - others[b].score >= margin {
      forall j | 0 <= j < |pool| && j != k ensures pool[k].score - pool[j].score >= margin {
        assert pool[j] == others[if j < k then j else j - 1];
      }
    }
  }

  /** When critique is decisive: if exactly one candidate is sound; or if some candidate in
      the running has a rival and leads every rival by the margin. Without a margin it
      never is. */
  lemma DecisiveExactly(reports: seq<Report>, margin: Option<real>)
    requires reports != [] && Indexed(reports, |reports|)
    ensures Decisive(reports, margin) <==>
      margin.Some? &&
      ((exists i :: 0 <= i < |reports| && OnlySound(reports, i))
       || exists i :: 0 <= i < |reports| && HasRival(reports, i) && Leads(reports, i, margin.value))
  {
    if margin.Some? {
      OneSoundExactly(reports);
      var sound := Keep(reports, (r: Report) => !IsFatal(r));
      if |sound| != 1 {
        hide Keep, IsFatal, AllFatal, OnlySound;
        PoolDecides(reports, margin.value);
      }
    }
  }

  lemma {:induction false} SortedAlike(reports: seq<Report>, i: int)
    requires Sorted(reports)
    ensures |reports| > 1 ==> exists k :: 0 <= k < |reports| && reports[k].index != i
  {
    if |reports| > 1 { assert reports[0].index < reports[1].index; }
  }

  lemma {:induction false} OneSoundExactly(reports: seq<Report>)
    requires reports != [] && Indexed(reports, |reports|)
    ensures |Keep(reports, (r: Report) => !IsFatal(r))| == 1 <==>
      exists i :: 0 <= i < |reports| && OnlySound(reports, i)
  {
    hide Keep, IsFatal;
    var sound := Keep(reports, (r: Report) => !IsFatal(r));
    KeepSorted(reports, (r: Report) => !IsFatal(r));
    assert forall i :: 0 <= i < |reports| ==> (reports[i] in sound <==> !IsFatal(reports[i]));
    if |sound| == 1 {
      assert sound[0] in sound;
      var i := sound[0].index;
      forall j | 0 <= j < |reports| && !IsFatal(reports[j]) ensures j == i {
        assert reports[j] in sound;
      }
      assert OnlySound(reports, i);
    }
    if i :| 0 <= i < |reports| && OnlySound(reports, i) {
      assert reports[i] in sound;
      forall k | 0 <= k < |sound| ensures sound[k].index == i { assert sound[k] in sound && sound[k] in reports; }
      SortedAlike(sound, i);
    }
  }

  lemma AheadLeads(reports: seq<Report>, k: nat, margin: real)
    requires reports != [] && Indexed(reports, |reports|) && k < |Pool(reports)| && |Pool(reports)| >= 2
    requires AheadInPool(Pool(reports), k, margin)
    ensures var i := Pool(reports)[k].index; 0 <= i < |reports| && HasRival(reports, i) && Leads(reports, i, margin)
  {
    hide Keep, IsFatal, AllFatal, InRunning, Pool;
    var pool, n := Pool(reports), |reports|;
    PoolIsRunning(reports, n);
    assert pool[k] in pool;
    var top, rival := pool[k].index, pool[if k == 0 then 1 else 0];
    assert rival in pool && rival.index != top;
    forall j | 0 <= j < n && j != top && InRunning(reports, j) ensures reports[top].score - reports[j].score >= margin {
      assert reports[j] in pool;
    }
  }

  lemma LeaderIsAhead(reports: seq<Report>, i: nat, margin: real)
    requires reports != [] && Indexed(reports, |reports|) && i < |reports|
    requires HasRival(reports, i) && Leads(reports, i, margin)
    ensures var pool := Pool(reports); |pool| >= 2 && AheadInPool(pool, MaxScore(pool), margin)
  {
    hide Keep, IsFatal, AllFatal, InRunning, Pool;
    var pool, n := Pool(reports), |reports|;
    PoolIsRunning(reports, n);
    var j :| 0 <= j < n && j != i && InRunning(reports, j);
    assert reports[i] in pool && reports[j] in pool && reports[i] != reports[j];
    var k := MaxScore(pool);
    forall j | 0 <= j < |pool| && j != k ensures pool[k].score - pool[j].score >= margin {
      assert pool[j] in pool && pool[k] in pool && pool[j].index != pool[k].index;
    }
  }

  lemma PoolDecides(reports: seq<Report>, margin: real)
    requires reports != [] && Indexed(reports, |reports|)
    ensures var pool := Pool(reports);
            (|pool| >= 2 &&
             var k := MaxScore(pool);
             var others := pool[..k] + pool[k + 1..];
             pool[k].score - others[MaxScore(others)].score >= margin)
            <==> exists i :: 0 <= i < |reports| && HasRival(reports, i) && Leads(reports, i, margin)
  {
    hide Keep, IsFatal, AllFatal, InRunning, Pool, Leads, HasRival;
    var pool := Pool(reports);
    if |pool| >= 2 {
      var k := MaxScore(pool);
      BestOfRest(pool, k, margin);
      if AheadInPool(pool, k, margin) { AheadLeads(reports, k, margin); }
    }
    if i :| 0 <= i < |reports| && HasRival(reports, i) && Leads(reports, i, margin) {
      LeaderIsAhead(reports, i, margin);
    }
  }
}
