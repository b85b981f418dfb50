/** The ambiguity gate of `genql/services/query/ambiguity_gate_service.py`:
    decide whether to ask the user, and about which single dimension. */
module QueryGate {
  import opened Options

  /** The six dimensions, and any other name a rule or a model may come up with. */
  datatype Dimension =
    | Entity | Metric | TimeRange | Grain | Filter | ComparisonBaseline
    | Unlisted(name: string)

  /** `AMBIGUITY_DIMENSIONS`, in priority order. */
  const DIMENSIONS: seq<Dimension> := [Entity, Metric, TimeRange, Grain, Filter, ComparisonBaseline]

  datatype Rule = Rule(name: string, dimension: Dimension, value: string)

  /** A retrieved object; `timed` says whether one of its columns is a date. */
  datatype Link = Link(name: string, timed: bool)

  datatype Pair = Pair(dimension: Dimension, value: string)

  datatype Score = Score(dimension: Dimension, confidence: real)

  datatype ModelScore = ModelScore(dimension: Dimension, confidence: real, assumption: string)

  /** The model's answer, with surrounding blanks already stripped. */
  datatype GateResponse = GateResponse(
    scores: seq<ModelScore>,
    clarifyingDimension: Dimension,
    clarifyingQuestion: string,
    suggestedAnswer: string,
    options: seq<string>)

  datatype Assessment = Assessment(
    isAmbiguous: bool,
    missing: Option<Dimension>,
    question: Option<string>,
    suggested: Option<string>,
    options: seq<string>,
    applied: seq<Pair>,
    assumed: seq<Pair>,
    scores: seq<Score>)

  /** What ends a turn early. `Foreign` is any exception that a service lets through
      and that is none of GenQL's own. */
  datatype Error =
    | ServiceFailed | GateFailed | AssertionFailed | StepMissing
    | ValidationFailed | CritiqueFailed | IndexOutOfRange | Foreign

  /** A `GenqlError`; an `AssertionError` or an `IndexError` is none. */
  predicate IsGenql(e: Error) { e != AssertionFailed && e != IndexOutOfRange && e != Foreign }

  /** What a service's failure is to its caller. */
  function Surfaced(e: Error): Error { if e == Foreign then Foreign else ServiceFailed }

  datatype Answer<+T> = Ok(value: T) | Fail(error: Error)

  // ------------------------------------------------------------- comprehensions

  function Keep<T(!new)>(xs: seq<T>, p: T -> bool): (r: seq<T>)
    ensures forall x :: x in r <==> x in xs && p(x)
    ensures r == [] <==> forall x :: x in xs ==> !p(x)
    ensures |r| <= |xs|
  {
    if xs == [] then [] else (if p(xs[0]) then [xs[0]] else []) + Keep(xs[1..], p)
  }

  function Map<T, U>(xs: seq<T>, f: T -> U): (r: seq<U>)
    ensures |r| == |xs| && forall i :: 0 <= i < |xs| ==> r[i] == f(xs[i])
  {
    seq(|xs|, i requires 0 <= i < |xs| => f(xs[i]))
  }

  // ------------------------------------------------------------------- the rules

  /** `_defaults`: the first rule that names a listed dimension wins it. */
  function Defaults(rules: seq<Rule>): (m: map<Dimension, Rule>)
    ensures forall d :: d in m ==> d in DIMENSIONS && m[d] in rules && m[d].dimension == d
  {
    if rules == [] then map[]
    else
      var m := Defaults(rules[..|rules| - 1]);
      var r := rules[|rules| - 1];
      if r.dimension in DIMENSIONS && r.dimension !in m then m[r.dimension := r] else m
  }

  function NamePair(m: map<Dimension, Rule>, d: Dimension): Pair { Pair(d, if d in m then m[d].name else "") }

  function ValuePair(m: map<Dimension, Rule>, d: Dimension): Pair { Pair(d, if d in m then m[d].value else "") }

  // ------------------------------------------------------------------- the model

  /** `known[score.dimension] = score.confidence`, one score after another. */
  function Record(known: map<Dimension, real>, scores: seq<ModelScore>): map<Dimension, real>
    decreases |scores|
  {
    if scores == [] then known
    else Record(known[scores[0].dimension := scores[0].confidence], scores[1..])
  }

  /** `known.setdefault(dimension, 0.0)`: silence is not evidence. */
  function Settle(known: map<Dimension, real>, asked: seq<Dimension>): (m: map<Dimension, real>)
    ensures m.Keys == known.Keys + set d | d in asked
    ensures forall d :: d in m ==> m[d] == if d in known then known[d] else 0.0
    decreases |asked|
  {
    if asked == [] then known
    else
      var head := if asked[0] in known then known else known[asked[0] := 0.0];
      Settle(head, asked[1..])
  }

  function Confidence(known: map<Dimension, real>, d: Dimension): real {
    if d in known then known[d] else 0.0
  }

  function FromScores(scores: seq<Score>): map<Dimension, real> {
    if scores == [] then map[]
    else FromScores(scores[..|scores| - 1])[scores[|scores| - 1].dimension := scores[|scores| - 1].confidence]
  }

  /** The model's own reading of each dimension it gave one for. */
  function Assumptions(scores: seq<ModelScore>): (m: map<Dimension, string>)
    ensures forall d :: d in m ==> m[d] != ""
  {
    if scores == [] then map[]
    else
      var m := Assumptions(scores[..|scores| - 1]);
      var s := scores[|scores| - 1];
      if s.assumption != "" then m[s.dimension := s.assumption] else m
  }

  function Guess(m: map<Dimension, string>, d: Dimension): Pair { Pair(d, if d in m then m[d] else "") }

  // -------------------------------------------------------------------- the gate

  datatype Gate = Gate(threshold: real, maxQuestions: Option<int>)

  function Answered(answers: seq<Pair>): set<Dimension> { set p | p in answers :: p.dimension }

  predicate NoTime(links: seq<Link>) {
    links != [] && forall l :: l in links ==> !l.timed
  }

  /** What may still be asked about: not covered by a rule, not answered, and
      expressible in the schema. */
  function OpenDimensions(rules: seq<Rule>, links: seq<Link>, answers: seq<Pair>): seq<Dimension> {
    Keep(DIMENSIONS, d => d !in Defaults(rules) && d !in Answered(answers) && !(d == TimeRange && NoTime(links)))
  }

  function Unsure(open: seq<Dimension>, known: map<Dimension, real>, threshold: real): seq<Dimension> {
    Keep(open, d => Confidence(known, d) < threshold)
  }

  function ToScore(open: seq<Dimension>, known: map<Dimension, real>, threshold: real): seq<Dimension> {
    Keep(open, d => d !in known || known[d] < threshold)
  }

  function Clear(applied: seq<Pair>, assumed: seq<Pair>, scores: seq<Score>): Assessment {
    Assessment(false, None, None, None, [], applied, assumed, scores)
  }

  predicate BudgetSpent(gate: Gate, answers: seq<Pair>) {
    gate.maxQuestions.Some? && |answers| >= gate.maxQuestions.value
  }

  /** With dimensions left unsure: assume when the budget is spent, else ask. */
  function AskOrAssume(gate: Gate, answers: seq<Pair>, applied: seq<Pair>, assumed: seq<Pair>,
                       scores: seq<Score>, under: seq<Dimension>, r: GateResponse): Answer<Assessment>
    requires under != []
  {
    if BudgetSpent(gate, answers) then
      var guesses := Assumptions(r.scores);
      Ok(Clear(applied, assumed + Map(Keep(under, d => d in guesses), d => Guess(guesses, d)), scores))
    else if r.clarifyingQuestion == "" then Fail(GateFailed)
    else
      var missing := if r.clarifyingDimension in under then r.clarifyingDimension else under[0];
      Ok(Assessment(true, Some(missing), Some(r.clarifyingQuestion),
                    if r.suggestedAnswer == "" then None else Some(r.suggestedAnswer),
                    Keep(r.options, o => o != ""), applied, assumed, scores))
  }

  /** What is known of the open dimensions after the call, if one was made. */
  function KnownAfter(before: map<Dimension, real>, asked: seq<Dimension>,
      reply: Answer<GateResponse>): map<Dimension, real> {
    if asked == [] || reply.Fail? then before else Settle(Record(before, reply.value.scores), asked)
  }

  /** `assess`. `reply` is what the model would answer if it were called. */
  function Assess(gate: Gate, rules: seq<Rule>, links: seq<Link>, answers: seq<Pair>,
                  knownScores: seq<Score>, reply: Answer<GateResponse>): Answer<Assessment>
  {
    var defaults := Defaults(rules);
    var ruled := Keep(DIMENSIONS, d => d in defaults);
    var applied := Map(ruled, d => NamePair(defaults, d));
    var assumed := Map(ruled, d => ValuePair(defaults, d));
    var open := OpenDimensions(rules, links, answers);
    if open == [] then Ok(Clear(applied, assumed, []))
    else
      var before := FromScores(knownScores);
      var asked := ToScore(open, before, gate.threshold);
      if asked != [] && reply.Fail? then Fail(if reply.error == Foreign then Foreign else GateFailed)
      else
        var known := KnownAfter(before, asked, reply);
        var scores := Map(Keep(open, d => d in known), d => Score(d, Confidence(known, d)));
        var under := Unsure(open, known, gate.threshold);
        if under == [] then Ok(Clear(applied, assumed, scores))
        else if asked == [] then Fail(AssertionFailed)
        else AskOrAssume(gate, answers, applied, assumed, scores, under, reply.value)
  }

  // ----------------------------------------------------------------------- loops

  method CollectDefaults(rules: seq<Rule>) returns (defaults: map<Dimension, Rule>)
    ensures defaults == Defaults(rules)
  {
    defaults := map[];
    var i := 0;
    while i < |rules|
      invariant 0 <= i <= |rules|
      invariant defaults == Defaults(rules[..i])
    {
      assert rules[..i + 1][..i] == rules[..i];
      if rules[i].dimension in DIMENSIONS && rules[i].dimension !in defaults {
        defaults := defaults[rules[i].dimension := rules[i]];
      }
      i := i + 1;
    }
    assert rules[..|rules|] == rules;
  }

  /** The two loops that write the model's scores into `known`. */
  method RecordScores(before: map<Dimension, real>, scores: seq<ModelScore>, asked: seq<Dimension>)
    returns (known: map<Dimension, real>)
    ensures known == Settle(Record(before, scores), asked)
  {
    known := before;
    var i := 0;
    while i < |scores|
      invariant 0 <= i <= |scores|
      invariant Record(before, scores) == Record(known, scores[i..])
    {
      assert scores[i..][1..] == scores[i + 1..];
      known := known[scores[i].dimension := scores[i].confidence];
      i := i + 1;
    }
    i := 0;
    while i < |asked|
      invariant 0 <= i <= |asked|
      invariant Settle(Record(before, scores), asked) == Settle(known, asked[i..])
    {
      assert asked[i..][1..] == asked[i + 1..];
      if asked[i] !in known { known := known[asked[i] := 0.0]; }
      i := i + 1;
    }
  }

  // ------------------------------------------------------------------ properties

  lemma {:induction false} DefaultsStep(rules: seq<Rule>, i: nat)
    requires i < |rules| && rules[i].dimension in DIMENSIONS
    ensures var n, d, m := |rules| - 1, rules[i].dimension, Defaults(rules[..|rules| - 1]);
            && (d in m ==> d in Defaults(rules) && Defaults(rules)[d] == m[d])
            && (d !in m && i == n ==> d in Defaults(rules) && Defaults(rules)[d] == rules[n])
  {
  }

  lemma {:induction false} NoRuleNoDefault(rules: seq<Rule>, d: Dimension)
    requires forall j :: 0 <= j < |rules| ==> rules[j].dimension != d
    ensures d !in Defaults(rules)
  {
    assert forall r :: r in rules ==> r.dimension != d;
  }

  /** The first rule of each listed dimension wins. */
  lemma {:induction false} FirstRuleWins(rules: seq<Rule>, i: nat)
    requires i < |rules| && rules[i].dimension in DIMENSIONS
    requires forall j :: 0 <= j < i ==> rules[j].dimension != rules[i].dimension
    ensures rules[i].dimension in Defaults(rules) && Defaults(rules)[rules[i].dimension] == rules[i]
  {
    hide Defaults, DIMENSIONS;
    var n := |rules| - 1;
    DefaultsStep(rules, i);
    if i < n { FirstRuleWins(rules[..n], i); } else { NoRuleNoDefault(rules[..n], rules[i].dimension); }
  }

  lemma UnsureWasAsked(open: seq<Dimension>, known: map<Dimension, real>, threshold: real)
    requires ToScore(open, known, threshold) == []
    ensures Unsure(open, known, threshold) == []
  {
    hide Keep;
  }

  /** Neither assertion of the gate can fail: whatever is unsure after the call
      was put to the model in that call. */
  lemma AssertionsHold(gate: Gate, rules: seq<Rule>, links: seq<Link>, answers: seq<Pair>,
                       knownScores: seq<Score>, reply: Answer<GateResponse>)
    ensures Assess(gate, rules, links, answers, knownScores, reply) != Fail(AssertionFailed)
  {
    hide Keep, Map, Defaults, OpenDimensions, ToScore, Unsure, FromScores, Settle, Record, Assumptions;
    var open := OpenDimensions(rules, links, answers);
    var before := FromScores(knownScores);
    if ToScore(open, before, gate.threshold) == [] {
      UnsureWasAsked(open, before, gate.threshold);
    }
  }

  /** The confidence in each dimension after this assessment. */
  function KnownNow(gate: Gate, rules: seq<Rule>, links: seq<Link>, answers: seq<Pair>,
                    knownScores: seq<Score>, reply: Answer<GateResponse>): map<Dimension, real>
  {
    var before := FromScores(knownScores);
    KnownAfter(before, ToScore(OpenDimensions(rules, links, answers), before, gate.threshold), reply)
  }

  /** An ambiguous assessment asks a real question about one listed dimension
      that was never answered, no rule covers, the schema can express and nobody
      is sure of, and it is within the budget. */
  lemma QuestionIsFresh(gate: Gate, rules: seq<Rule>, links: seq<Link>, answers: seq<Pair>,
                        knownScores: seq<Score>, reply: Answer<GateResponse>)
    requires var r := Assess(gate, rules, links, answers, knownScores, reply); r.Ok? && r.value.isAmbiguous
    ensures var a := Assess(gate, rules, links, answers, knownScores, reply).value;
            && a.missing.Some? && a.question.Some? && a.question.value != ""
            && a.missing.value in OpenDimensions(rules, links, answers)
            && !BudgetSpent(gate, answers)
            && reply.Ok? && Confidence(KnownNow(gate, rules, links, answers, knownScores, reply), a.missing.value)
                < gate.threshold
  {
    hide Keep, Map, Defaults, OpenDimensions, ToScore, FromScores, Settle, Record, Assumptions;
  }

  /** A dimension that is open and whose confidence, once the model has spoken, is below
      the threshold. */
  predicate Doubtful(gate: Gate, rules: seq<Rule>, links: seq<Link>, answers: seq<Pair>, knownScores: seq<Score>,
                     reply: Answer<GateResponse>, d: Dimension)
  {
    && d in OpenDimensions(rules, links, answers)
    && Confidence(KnownNow(gate, rules, links, answers, knownScores, reply), d) < gate.threshold
  }

  lemma {:induction false} KeepFirst<T(!new)>(xs: seq<T>, p: T -> bool) returns (k: nat)
    requires Keep(xs, p) != []
    ensures k < |xs| && Keep(xs, p)[0] == xs[k] && forall j :: 0 <= j < k ==> !p(xs[j])
  {
    k := 0;
    if !p(xs[0]) {
      k := KeepFirst(xs[1..], p);
      k := k + 1;
    }
  }

  function Both<T(!new)>(p: T -> bool, q: T -> bool): (r: T -> bool)
    ensures forall x :: r(x) <==> p(x) && q(x)
  {
    x => p(x) && q(x)
  }

  lemma {:induction false} KeepTwice<T(!new)>(xs: seq<T>, p: T -> bool, q: T -> bool)
    ensures Keep(Keep(xs, p), q) == Keep(xs, Both(p, q))
  {
    hide Both;
    if xs != [] {
      KeepTwice(xs[1..], p, q);
      var rest := Keep(xs[1..], p);
      if p(xs[0]) {
        assert Keep(xs, p) == [xs[0]] + rest && ([xs[0]] + rest)[1..] == rest;
      } else {
        assert Keep(xs, p) == [] + rest && [] + rest == rest;
      }
    }
  }

  /** The first of what is doubtful in the order of the dimensions. */
  lemma {:induction false} FirstDoubtful(open: seq<Dimension>, known: map<Dimension, real>, threshold: real,
                                         p: Dimension -> bool)
    requires open == Keep(DIMENSIONS, p) && Unsure(open, known, threshold) != []
    ensures exists k :: 0 <= k < |DIMENSIONS| && Unsure(open, known, threshold)[0] == DIMENSIONS[k]
                     && forall j :: 0 <= j < k ==> DIMENSIONS[j] !in Unsure(open, known, threshold)
  {
    hide Keep, Both;
    var q := (d: Dimension) => Confidence(known, d) < threshold;
    KeepTwice(DIMENSIONS, p, q);
    assert Unsure(open, known, threshold) == Keep(open, q) by { UnsureIsKept(open, known, threshold, q); }
    var k := KeepFirst(DIMENSIONS, Both(p, q));
    UnsureIsDoubtful(open, known, threshold);
    assert DIMENSIONS[k] == Unsure(open, known, threshold)[0];
    forall j | 0 <= j < k ensures DIMENSIONS[j] !in Unsure(open, known, threshold) {
      assert !Both(p, q)(DIMENSIONS[j]);
    }
  }

  lemma {:induction false} KeepAlike<T(!new)>(xs: seq<T>, p: T -> bool, q: T -> bool)
    requires forall x :: p(x) <==> q(x)
    ensures Keep(xs, p) == Keep(xs, q)
  {
    if xs != [] { KeepAlike(xs[1..], p, q); }
  }

  lemma UnsureIsKept(open: seq<Dimension>, known: map<Dimension, real>, threshold: real, q: Dimension -> bool)
    requires forall d :: q(d) <==> Confidence(known, d) < threshold
    ensures Unsure(open, known, threshold) == Keep(open, q)
  {
    hide Keep;
    KeepAlike(open, d => Confidence(known, d) < threshold, q);
  }

  /** When the gate asks, and what. If the model answers, it asks exactly if something is
      doubtful, the budget is not spent and the model worded a question, and fails exactly
      if it worded none. It asks about the dimension that the model names if that is
      doubtful, else about the first that is; in the model's words, with its suggestion if
      there is one and with every option that is not blank. */
  lemma AsksExactly(gate: Gate, rules: seq<Rule>, links: seq<Link>, answers: seq<Pair>,
                    knownScores: seq<Score>, reply: Answer<GateResponse>)
    requires reply.Ok?
    ensures var r, m := Assess(gate, rules, links, answers, knownScores, reply), reply.value;
            var due := !BudgetSpent(gate, answers)
                         && exists d :: Doubtful(gate, rules, links, answers, knownScores, reply, d);
            && (r.Fail? <==> due && m.clarifyingQuestion == "")
            && (r.Ok? && r.value.isAmbiguous <==> due && m.clarifyingQuestion != "")
            && (r.Ok? && r.value.isAmbiguous ==>
                 && r.value.question == Some(m.clarifyingQuestion) && r.value.missing.Some?
                 && Doubtful(gate, rules, links, answers, knownScores, reply, r.value.missing.value)
                 && (Doubtful(gate, rules, links, answers, knownScores, reply, m.clarifyingDimension) ==>
                       r.value.missing.value == m.clarifyingDimension)
                 && (r.value.missing.value == m.clarifyingDimension
                     || exists k :: 0 <= k < |DIMENSIONS| && r.value.missing.value == DIMENSIONS[k]
                          && forall j :: 0 <= j < k ==>
                               !Doubtful(gate, rules, links, answers, knownScores, reply, DIMENSIONS[j]))
                 && r.value.suggested == (if m.suggestedAnswer == "" then None else Some(m.suggestedAnswer))
                 && (forall o :: o in r.value.options <==> o in m.options && o != ""))
  {
    hide Keep, Map, Defaults, ToScore, FromScores, Settle, Record, Assumptions, Unsure;
    AssertionsHold(gate, rules, links, answers, knownScores, reply);
    var open := OpenDimensions(rules, links, answers);
    var known := KnownNow(gate, rules, links, answers, knownScores, reply);
    var under := Unsure(open, known, gate.threshold);
    assert forall d :: d in under <==> Doubtful(gate, rules, links, answers, knownScores, reply, d) by {
      UnsureIsDoubtful(open, known, gate.threshold);
    }
    if under != [] {
      assert under[0] in under;
      FirstDoubtful(open, known, gate.threshold,
                    d => d !in Defaults(rules) && d !in Answered(answers) && !(d == TimeRange && NoTime(links)));
    }
  }

  lemma UnsureIsDoubtful(open: seq<Dimension>, known: map<Dimension, real>, threshold: real)
    ensures forall d :: d in Unsure(open, known, threshold) <==> d in open && Confidence(known, d) < threshold
  {
  }

  /** What an assessment hands on to the next: the confidence of every open dimension that
      has one now, and no other. */
  lemma ScoresAreHandedOn(gate: Gate, rules: seq<Rule>, links: seq<Link>, answers: seq<Pair>,
                          knownScores: seq<Score>, reply: Answer<GateResponse>)
    requires Assess(gate, rules, links, answers, knownScores, reply).Ok?
    ensures var known := KnownNow(gate, rules, links, answers, knownScores, reply);
            forall d, c ::
              Score(d, c) in Assess(gate, rules, links, answers, knownScores, reply).value.scores <==>
                d in OpenDimensions(rules, links, answers) && d in known && known[d] == c
  {
    hide Keep, Map, Defaults, OpenDimensions, ToScore, FromScores, Settle, Record, Assumptions, Unsure;
    var known := KnownNow(gate, rules, links, answers, knownScores, reply);
    var open := OpenDimensions(rules, links, answers);
    var told := Keep(open, d => d in known);
    var scores := Map(told, d => Score(d, Confidence(known, d)));
    forall d, c ensures Score(d, c) in scores <==> d in open && d in known && known[d] == c {
      if Score(d, c) in scores {
        var k :| 0 <= k < |scores| && scores[k] == Score(d, c);
        assert told[k] in told;
      }
      if d in open && d in known && known[d] == c {
        assert d in told;
        var k :| 0 <= k < |told| && told[k] == d;
        assert scores[k] == Score(d, c);
      }
    }
  }

  /** What may still be asked about: each of the six that no rule names and no answer
      settled, but the time if the schema has links and none of them is timed. */
  lemma {:induction false} OpenExactly(rules: seq<Rule>, links: seq<Link>, answers: seq<Pair>, d: Dimension)
    ensures d in OpenDimensions(rules, links, answers) <==>
      && !d.Unlisted?
      && (forall r :: r in rules ==> r.dimension != d)
      && (forall a :: a in answers ==> a.dimension != d)
      && (d == TimeRange && links != [] ==> exists l :: l in links && l.timed)
  {
    hide Keep;
    DefaultsExactly(rules, d);
    ListedExactly(d);
    assert d in Answered(answers) <==> exists a :: a in answers && a.dimension == d;
  }

  lemma ListedExactly(d: Dimension)
    ensures d in DIMENSIONS <==> !d.Unlisted?
  {
    match d
    case Entity => assert DIMENSIONS[0] == d;
    case Metric => assert DIMENSIONS[1] == d;
    case TimeRange => assert DIMENSIONS[2] == d;
    case Grain => assert DIMENSIONS[3] == d;
    case Filter => assert DIMENSIONS[4] == d;
    case ComparisonBaseline => assert DIMENSIONS[5] == d;
    case Unlisted(_) =>
  }

  lemma {:induction false} DefaultsExactly(rules: seq<Rule>, d: Dimension)
    ensures d in Defaults(rules) <==> !d.Unlisted? && exists r :: r in rules && r.dimension == d
  {
    ListedExactly(d);
    if rules != [] {
      var n := |rules| - 1;
      DefaultsExactly(rules[..n], d);
      assert forall r :: r in rules <==> r in rules[..n] || r == rules[n];
    }
  }

  /** The model is needed exactly if some open dimension has no confidence yet, or one
      below the threshold: only then does its failure end the turn. */
  lemma ModelIsNeededExactly(gate: Gate, rules: seq<Rule>, links: seq<Link>, answers: seq<Pair>,
                             knownScores: seq<Score>, reply: Answer<GateResponse>)
    requires reply.Fail?
    ensures var before := FromScores(knownScores);
            var needed := exists d ::
              d in OpenDimensions(rules, links, answers) && (d in before ==> before[d] < gate.threshold);
            var r := Assess(gate, rules, links, answers, knownScores, reply);
            && (r.Fail? <==> needed)
            && (r.Fail? ==> (r.error == Foreign <==> reply.error == Foreign))
            && (r.Ok? ==> !r.value.isAmbiguous)
  {
    hide Map, Defaults, OpenDimensions, FromScores, Settle, Record, Assumptions, Keep;
    AssertionsHold(gate, rules, links, answers, knownScores, reply);
    var open, before := OpenDimensions(rules, links, answers), FromScores(knownScores);
    assert ToScore(open, before, gate.threshold) != [] <==>
      exists d :: d in open && (d in before ==> before[d] < gate.threshold) by {
      NeededIsScored(open, before, gate.threshold);
    }
  }

  lemma NeededIsScored(open: seq<Dimension>, known: map<Dimension, real>, threshold: real)
    ensures ToScore(open, known, threshold) != [] <==>
      exists d :: d in open && (d in known ==> known[d] < threshold)
  {
  }

  predicate Distinct(ds: seq<Dimension>) { forall i, j :: 0 <= i < j < |ds| ==> ds[i] != ds[j] }

  lemma {:induction false} KeepDistinct(ds: seq<Dimension>, p: Dimension -> bool)
    requires Distinct(ds)
    ensures Distinct(Keep(ds, p))
  {
    if ds != [] {
      KeepDistinct(ds[1..], p);
      assert forall d :: d in Keep(ds[1..], p) ==> d in ds[1..];
      assert forall i :: 0 <= i < |ds| - 1 ==> ds[1..][i] == ds[i + 1];
    }
  }

  /** The pairs made of `ds` mention `ds` in order, and so each dimension once. */
  function DimensionsOf(ps: seq<Pair>): (ds: seq<Dimension>)
    ensures |ds| == |ps| && forall i :: 0 <= i < |ps| ==> ds[i] == ps[i].dimension
  {
    Map(ps, (p: Pair) => p.dimension)
  }

  lemma RuledPairs(rules: seq<Rule>)
    ensures var defaults := Defaults(rules);
            var assumed := Map(Keep(DIMENSIONS, d => d in defaults), d => ValuePair(defaults, d));
            && Distinct(DimensionsOf(assumed))
            && (forall p :: p in assumed ==> p.dimension in defaults && p.value == defaults[p.dimension].value)
            && (forall d :: d in defaults ==> Pair(d, defaults[d].value) in assumed)
  {
    hide Defaults, Keep;
    var defaults := Defaults(rules);
    var ruled := Keep(DIMENSIONS, d => d in defaults);
    var assumed := Map(ruled, d => ValuePair(defaults, d));
    KeepDistinct(DIMENSIONS, d => d in defaults);
    forall p | p in assumed ensures p.dimension in defaults && p.value == defaults[p.dimension].value {
      var i :| 0 <= i < |assumed| && assumed[i] == p;
      assert ruled[i] in ruled;
    }
    forall d | d in defaults ensures Pair(d, defaults[d].value) in assumed {
      assert d in ruled;
      var i :| 0 <= i < |ruled| && ruled[i] == d;
      assert assumed[i] == Pair(d, defaults[d].value);
    }
  }

  lemma GuessedPairs(under: seq<Dimension>, guesses: map<Dimension, string>)
    requires Distinct(under) && forall d :: d in guesses ==> guesses[d] != ""
    ensures var guessed := Map(Keep(under, d => d in guesses), d => Guess(guesses, d));
            && Distinct(DimensionsOf(guessed))
            && (forall p :: p in guessed ==> p.dimension in under && p.value != "")
  {
    hide Keep;
    var open := Keep(under, d => d in guesses);
    KeepDistinct(under, d => d in guesses);
    forall p | p in Map(open, d => Guess(guesses, d)) ensures p.dimension in under && p.value != "" {
      var i :| 0 <= i < |open| && Guess(guesses, open[i]) == p;
      assert open[i] in open;
    }
  }

  lemma JoinedDistinct(a: seq<Pair>, b: seq<Pair>)
    requires Distinct(DimensionsOf(a)) && Distinct(DimensionsOf(b))
    requires forall p, q :: p in a && q in b ==> p.dimension != q.dimension
    ensures Distinct(DimensionsOf(a + b))
  {
    var da, db := DimensionsOf(a), DimensionsOf(b);
    assert DimensionsOf(a + b) == da + db;
    forall i, j | 0 <= i < j < |da + db| ensures (da + db)[i] != (da + db)[j] {
      if i < |da| <= j { assert a[i] in a && b[j - |a|] in b; }
    }
  }

  /** `assumed` before and after the guesses of a spent budget. */
  lemma GuessesAreOpen(rules: seq<Rule>, links: seq<Link>, answers: seq<Pair>, under: seq<Dimension>,
      guesses: map<Dimension, string>)
    requires Distinct(under) && forall d :: d in under ==> d in OpenDimensions(rules, links, answers)
    requires forall d :: d in guesses ==> guesses[d] != ""
    ensures var defaults := Defaults(rules);
            var assumed := Map(Keep(DIMENSIONS, d => d in defaults), d => ValuePair(defaults, d));
            var guessed := Map(Keep(under, d => d in guesses), d => Guess(guesses, d));
            && Distinct(DimensionsOf(assumed)) && Distinct(DimensionsOf(assumed + guessed))
            && (forall p :: p in assumed ==> p.dimension in defaults && p.value == defaults[p.dimension].value)
            && (forall d :: d in defaults ==> Pair(d, defaults[d].value) in assumed)
            && (forall p :: p in guessed ==> p.dimension in OpenDimensions(rules, links, answers) && p.value != "")
  {
    hide Defaults, OpenDimensions, Keep, Map, Distinct, DimensionsOf, Guess, ValuePair;
    var defaults := Defaults(rules);
    RuledPairs(rules);
    GuessedPairs(under, guesses);
    forall d | d in under ensures d !in defaults { OpenIsUnanswered(rules, links, answers, d); }
    JoinedDistinct(Map(Keep(DIMENSIONS, d => d in defaults), d => ValuePair(defaults, d)),
                   Map(Keep(under, d => d in guesses), d => Guess(guesses, d)));
  }

  /** What the planner is told was decided for the user: every rule's value, under
      its dimension; besides, only if the budget is spent, a reading the model
      offered of a dimension that is open. No dimension is decided twice, and none
      that the user answered is decided by a guess. */
  lemma AssumedIsDecided(gate: Gate, rules: seq<Rule>, links: seq<Link>, answers: seq<Pair>,
                         knownScores: seq<Score>, reply: Answer<GateResponse>)
    requires Assess(gate, rules, links, answers, knownScores, reply).Ok?
    ensures var a, defaults := Assess(gate, rules, links, answers, knownScores, reply).value, Defaults(rules);
            && Distinct(DimensionsOf(a.assumed))
            && (forall d :: d in defaults ==> Pair(d, defaults[d].value) in a.assumed)
            && (forall p :: p in a.assumed ==>
                 || (p.dimension in defaults && p.value == defaults[p.dimension].value)
                 || (BudgetSpent(gate, answers) && !a.isAmbiguous && p.value != ""
                     && p.dimension in OpenDimensions(rules, links, answers)))
  {
    hide Keep, Map, Defaults, ToScore, FromScores, Settle, Record, Assumptions, Distinct, DimensionsOf;
    var open := OpenDimensions(rules, links, answers);
    var before := FromScores(knownScores);
    var known := KnownAfter(before, ToScore(open, before, gate.threshold), reply);
    var under := Unsure(open, known, gate.threshold);
    assert Distinct(under) by { OpenIsDistinct(rules, links, answers, known, gate.threshold); }
    GuessesAreOpen(rules, links, answers, under, if reply.Ok? then Assumptions(reply.value.scores) else map[]);
  }

  lemma OpenIsDistinct(rules: seq<Rule>, links: seq<Link>, answers: seq<Pair>, known: map<Dimension, real>,
      threshold: real)
    ensures Distinct(Unsure(OpenDimensions(rules, links, answers), known, threshold))
  {
    hide Keep, Defaults, Answered, Confidence, NoTime;
    KeepDistinct(DIMENSIONS, d => d !in Defaults(rules) && d !in Answered(answers)
        && !(d == TimeRange && NoTime(links)));
    KeepDistinct(OpenDimensions(rules, links, answers), d => Confidence(known, d) < threshold);
  }

  lemma OpenIsUnanswered(rules: seq<Rule>, links: seq<Link>, answers: seq<Pair>, d: Dimension)
    ensures d in OpenDimensions(rules, links, answers) <==>
      d in DIMENSIONS && d !in Defaults(rules) && d !in Answered(answers) && !(d == TimeRange && NoTime(links))
  {
    hide Keep, Defaults;
  }

  /** Answering the question shrinks what may be asked, with the same rules and
      links. */
  lemma AnswerShrinksOpen(rules: seq<Rule>, links: seq<Link>, answers: seq<Pair>, d: Dimension, value: string)
    requires d in OpenDimensions(rules, links, answers)
    ensures (set x | x in OpenDimensions(rules, links, answers + [Pair(d, value)]))
          < (set x | x in OpenDimensions(rules, links, answers))
  {
    hide OpenDimensions, Defaults;
    var more := answers + [Pair(d, value)];
    assert more[|answers|] in more;
    assert d in Answered(more);
    assert Answered(answers) <= Answered(more);
    OpenIsUnanswered(rules, links, more, d);
    forall x | x in OpenDimensions(rules, links, more)
      ensures x in OpenDimensions(rules, links, answers)
    {
      OpenIsUnanswered(rules, links, more, x);
      OpenIsUnanswered(rules, links, answers, x);
    }
    var before := set x | x in OpenDimensions(rules, links, answers);
    var after := set x | x in OpenDimensions(rules, links, more);
    assert after <= before && d in before && d !in after;
  }
}
