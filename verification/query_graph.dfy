/** One turn of the query pipeline: the shared state, the thirteen nodes, the
    routers and the steps of the graph (`genql/api/query_state.py`,
    `query_nodes.py`, `query_turn_nodes.py`, `query_ambiguity_nodes.py`,
    `query_optimizer_nodes.py`, `query_graph.py`). */
module QueryGraph {
  import opened Options
  import opened QueryGate
  import opened QuerySelection
  import opened QueryOptimizer

  // ------------------------------------------------------------------------ state

  datatype Plan = Plan(text: string, objects: seq<string>)

  datatype Violation = Violation(message: string, repairable: bool)

  /** The rows of an executed statement. */
  datatype Rows = Rows(id: int)

  datatype QueryState = QueryState(
    question: string,
    datasource: string,
    domain: Option<int>,
    intent: Option<string>,
    ambiguity: Option<Assessment>,
    clarifications: seq<Pair>,
    gateScores: seq<Score>,
    assumptions: seq<Pair>,
    links: Option<seq<Link>>,
    plan: Option<Plan>,
    candidates: seq<Candidate>,
    validatedSqls: seq<string>,
    contested: bool,
    reports: seq<Report>,
    probes: seq<Probe>,
    selection: Option<Selection>,
    escalated: bool,
    optimization: Option<Optimization>,
    validatedSql: Option<string>,
    result: Option<Rows>,
    retryCount: nat,
    violations: seq<Violation>)

  /** `initial_state` */
  function InitialState(question: string, datasource: string, domain: Option<int>): QueryState {
    QueryState(question, datasource, domain, None, None, [], [], [], None, None, [], [], false,
               [], [], None, false, None, None, None, 0, [])
  }

  /** What one node returns: the fields it changed. */
  datatype Delta =
    | Nothing
    | IntentIs(intent: string)
    | DomainIs(domain: int)
    | LinksAre(links: seq<Link>)
    | Gated(ambiguity: Assessment, contested: Option<bool>)
    | Clarified(clarifications: seq<Pair>)
    | Planned(plan: Plan)
    | Generated(candidates: seq<Candidate>, retryCount: nat)
    | Validated(survivors: seq<Candidate>, sqls: seq<string>, violations: seq<Violation>, escalates: bool)
    | Critiqued(reports: seq<Report>, escalates: bool)
    | Probed(probes: seq<Probe>)
    | Selected(selection: Selection)
    | Optimized(optimization: Optimization)
    | Executed(result: Rows)

  /** `merged.update(delta)`, and the graph's own merge. */
  function Merge(s: QueryState, d: Delta): QueryState {
    match d
    case Nothing => s
    case IntentIs(i) => s.(intent := Some(i))
    case DomainIs(i) => s.(domain := Some(i))
    case LinksAre(l) => s.(links := Some(l))
    case Gated(a, c) =>
      s.(ambiguity := Some(a), gateScores := a.scores, assumptions := a.assumed,
         contested := if c.Some? then c.value else s.contested)
    case Clarified(c) => s.(clarifications := c)
    case Planned(p) => s.(plan := Some(p))
    case Generated(c, n) => s.(candidates := c, retryCount := n)
    case Validated(c, q, v, e) =>
      s.(candidates := c, validatedSqls := q, violations := v, escalated := e || s.escalated)
    case Critiqued(r, e) => s.(reports := r, escalated := e || s.escalated)
    case Probed(p) => s.(probes := p)
    case Selected(x) => s.(selection := Some(x), validatedSql := Some(x.sql))
    case Optimized(x) => s.(optimization := Some(x), validatedSql := Some(x.sql))
    case Executed(r) => s.(result := Some(r))
  }

  // ----------------------------------------------------------------------- oracles

  /** What validation says of one candidate. */
  datatype Verdict = Valid(sql: string) | Invalid(violations: seq<Violation>)

  /** Every answer a node may get from a model, the warehouse or the database in
      one visit. A later visit gets another oracle. */
  datatype Oracle = Oracle(
    intent: Answer<string>,
    domain: Answer<int>,
    links: Answer<seq<Link>>,
    rules: Answer<seq<Rule>>,
    gate: Answer<GateResponse>,
    plan: Answer<Plan>,
    generated: Answer<seq<Candidate>>,
    verdict: int -> Verdict,
    certain: int -> seq<Defect>,
    critique: Answer<seq<Report>>,
    probes: Answer<seq<Probe>>,
    decomposed: Answer<string>,
    rows: Answer<Rows>)

  datatype Settings = Settings(
    gate: Gate,
    contestedMin: int,
    skipMargin: Option<real>,
    optimizer: Optimizer)

  // ------------------------------------------------------------------------- nodes

  datatype Node =
    | Intent | Domain | Linking | AmbiguityGate | Interrupt | Planning | Generation
    | Validation | Critiquing | Probing | Selecting | CostGate | Execution

  /** What the interrupt hands to whoever answers. */
  datatype Payload = Payload(question: string, suggested: Option<string>, options: seq<string>)

  datatype Outcome = Update(delta: Delta) | Pause(payload: Payload) | Raise(error: Error)

  function LinksOf(s: QueryState): seq<Link> { if s.links.Some? then s.links.value else [] }

  function RunGate(cfg: Settings, s: QueryState, o: Oracle): Outcome {
    if o.rules.Fail? then Raise(Surfaced(o.rules.error))
    else
      match Assess(cfg.gate, o.rules.value, LinksOf(s), s.clarifications, s.gateScores, o.gate)
      case Fail(e) => Raise(e)
      case Ok(a) =>
        Update(Gated(a, if a.isAmbiguous then None else Some(|s.clarifications| >= cfg.contestedMin)))
  }

  function RunInterrupt(s: QueryState, answer: Option<string>): Outcome {
    if s.ambiguity.None? || !s.ambiguity.value.isAmbiguous then Update(Nothing)
    else
      var a := s.ambiguity.value;
      if a.missing.None? || a.question.None? || a.question.value == "" then Raise(GateFailed)
      else if answer.None? then Pause(Payload(a.question.value, a.suggested, a.options))
      else Update(Clarified(s.clarifications + [Pair(a.missing.value, answer.value)]))
  }

  function RunGeneration(s: QueryState, o: Oracle): Outcome {
    if s.plan.None? then Raise(StepMissing)
    else if o.generated.Fail? then Raise(Surfaced(o.generated.error))
    else Update(Generated(o.generated.value, s.retryCount + (if s.violations != [] then 1 else 0)))
  }

  /** The candidates that passed, with their validated statements. */
  function Survivors(candidates: seq<Candidate>, verdict: int -> Verdict): (r: (seq<Candidate>, seq<string>))
    ensures |r.0| == |r.1| <= |candidates|
  {
    if candidates == [] then ([], [])
    else
      var n := |candidates| - 1;
      var (c, q) := Survivors(candidates[..n], verdict);
      match verdict(n)
      case Valid(sql) => (c + [candidates[n]], q + [sql])
      case Invalid(_) => (c, q)
  }

  function AllViolations(n: nat, verdict: int -> Verdict): seq<Violation> {
    if n == 0 then []
    else AllViolations(n - 1, verdict) + (match verdict(n - 1) case Valid(_) => [] case Invalid(v) => v)
  }

  function RunValidation(s: QueryState, o: Oracle): Outcome {
    if s.candidates == [] then Raise(ValidationFailed)
    else
      var (survivors, sqls) := Survivors(s.candidates, o.verdict);
      if survivors != [] then Update(Validated(survivors, sqls, [], false))
      else
        var combined := AllViolations(|s.candidates|, o.verdict);
        var repairable := exists v :: v in combined && v.repairable;
        if repairable && !s.escalated && s.retryCount == 0 then Update(Validated([], [], combined, false))
        else if repairable && s.contested && !s.escalated then Update(Validated([], [], combined, true))
        else Raise(ValidationFailed)
  }

  function Certain(n: nat, certain: int -> seq<Defect>): seq<seq<Defect>> {
    seq(n, i requires 0 <= i < n => certain(i))
  }

  function RunCritique(s: QueryState, o: Oracle): Outcome {
    if !s.contested || |s.candidates| <= 1 then Update(Critiqued([], false))
    else if s.plan.None? then Raise(StepMissing)
    else if o.critique.Fail? then Raise(Surfaced(o.critique.error))
    else
      var reports := Reports(Certain(|s.candidates|, o.certain), o.critique.value);
      if AllFatal(reports) then
        if s.escalated then Raise(CritiqueFailed) else Update(Critiqued(reports, true))
      else Update(Critiqued(reports, false))
  }

  function RunProbing(cfg: Settings, s: QueryState, o: Oracle): Outcome {
    if !s.contested || |s.candidates| <= 1 then Update(Probed([]))
    else if Decisive(s.reports, cfg.skipMargin) then Update(Probed([]))
    else if s.plan.None? then Raise(StepMissing)
    else if o.probes.Fail? then Raise(Surfaced(o.probes.error))
    else Update(Probed(o.probes.value))
  }

  function RunSelecting(s: QueryState): Outcome {
    if !s.contested || |s.candidates| <= 1 then
      if s.candidates == [] || s.validatedSqls == [] then Raise(IndexOutOfRange)
      else Update(Selected(Selection(s.candidates[0], s.validatedSqls[0], SingleSurvivor)))
    else
      match Select(s.candidates, s.validatedSqls, s.reports, s.probes)
      case Fail(e) => Raise(e)
      case Ok(x) => Update(Selected(x))
  }

  function RunCostGate(cfg: Settings, s: QueryState, o: Oracle): Outcome {
    if s.selection.None? || s.plan.None? then Raise(StepMissing)
    else
      match Optimize(cfg.optimizer, s.selection.value.sql, o.decomposed)
      case Fail(e) => Raise(e)
      case Ok(x) => Update(Optimized(x))
  }

  function Lift<T>(a: Answer<T>, f: T -> Delta): Outcome {
    match a case Ok(v) => Update(f(v)) case Fail(e) => Raise(Surfaced(e))
  }

  /** One visit of a node. Only the interrupt looks at `answer`. */
  function RunNode(cfg: Settings, node: Node, s: QueryState, answer: Option<string>, o: Oracle): Outcome {
    match node
    case Intent => Lift(o.intent, v => IntentIs(v))
    case Domain => if s.domain.Some? then Update(Nothing) else Lift(o.domain, v => DomainIs(v))
    case Linking => Lift(o.links, v => LinksAre(v))
    case AmbiguityGate => RunGate(cfg, s, o)
    case Interrupt => RunInterrupt(s, answer)
    case Planning => Lift(o.plan, v => Planned(v))
    case Generation => RunGeneration(s, o)
    case Validation => RunValidation(s, o)
    case Critiquing => RunCritique(s, o)
    case Probing => RunProbing(cfg, s, o)
    case Selecting => RunSelecting(s)
    case CostGate => RunCostGate(cfg, s, o)
    case Execution => if s.validatedSql.None? then Raise(StepMissing) else Lift(o.rows, v => Executed(v))
  }

  // ----------------------------------------------------------------------- routing

  /** Where a turn is: about to run a node, waiting for an answer, or over. */
  datatype Place = At(node: Node) | Waiting(payload: Payload) | Finished | Failed(error: Error)

  /** The edges, read off the state the node just wrote. */
  function Route(node: Node, s: QueryState): Place {
    match node
    case Intent => if s.intent == Some("analytical_sql") then At(Domain) else Finished
    case Domain => At(Linking)
    case Linking => At(AmbiguityGate)
    case AmbiguityGate => if s.ambiguity.Some? && s.ambiguity.value.isAmbiguous then At(Interrupt) else At(Planning)
    case Interrupt => At(AmbiguityGate)
    case Planning => At(Generation)
    case Generation => At(Validation)
    case Validation => if s.validatedSqls != [] then At(Critiquing) else At(Generation)
    case Critiquing => if AllFatal(s.reports) then At(Generation) else At(Probing)
    case Probing => At(Selecting)
    case Selecting => At(CostGate)
    case CostGate => if s.optimization.Some? && s.optimization.value.within then At(Execution) else Finished
    case Execution => Finished
  }

  datatype Turn = Turn(place: Place, state: QueryState)

  /** One node visited, from a place that names a node. */
  function Visit(cfg: Settings, t: Turn, answer: Option<string>, o: Oracle): Turn
    requires t.place.At?
  {
    match RunNode(cfg, t.place.node, t.state, answer, o)
    case Raise(e) => Turn(Failed(e), t.state)
    case Pause(p) => Turn(Waiting(p), t.state)
    case Update(d) => var s := Merge(t.state, d); Turn(Route(t.place.node, s), s)
  }

  /** `invoke`: visit nodes until none is next. The first visit of a resumed
      turn carries the answer. */
  function Run(cfg: Settings, t: Turn, answer: Option<string>, os: seq<Oracle>): (ts: seq<Turn>)
    ensures |ts| > 0 && ts[0] == t
    decreases |os|
  {
    if os == [] || !t.place.At? then [t]
    else [t] + Run(cfg, Visit(cfg, t, answer, os[0]), None, os[1..])
  }

  function Start(question: string, datasource: string, domain: Option<int>): Turn {
    Turn(At(Intent), InitialState(question, datasource, domain))
  }

  /** `resume_query`: back to the node that paused. */
  function Resumed(t: Turn): Turn
    requires t.place.Waiting?
  {
    t.(place := At(Interrupt))
  }
}
