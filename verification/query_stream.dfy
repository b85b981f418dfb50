/** The streaming transport: it sees only the deltas of the segment it streams,
    folds them over a fresh initial state, and must still report what the
    blocking transport reports from the whole state. */
module QueryStream {
  import opened Options
  import opened QueryGate
  import opened QuerySelection
  import opened QueryOptimizer
  import opened QueryGraph
  import opened QueryRuns
  import opened QueryOutcomes
  import opened QueryHistory

  /** One item of the graph's update stream: a node with its delta, a node that
      wrote nothing, or the interrupt. */
  datatype Chunk = Wrote(node: Node, delta: Delta) | WroteNothing(node: Node) | Interrupted(payload: Payload)

  /** What one visit puts on the stream. A node that returns an empty mapping may
      be reported as an empty delta or as none at all: `bare` says which. */
  function ChunkOf(cfg: Settings, t: Turn, answer: Option<string>, o: Oracle, bare: bool): seq<Chunk>
    requires t.place.At?
  {
    match RunNode(cfg, t.place.node, t.state, answer, o)
    case Raise(_) => []
    case Pause(p) => [Interrupted(p)]
    case Update(d) => if d == Nothing && bare then [WroteNothing(t.place.node)] else [Wrote(t.place.node, d)]
  }

  function Chunks(cfg: Settings, t: Turn, answer: Option<string>, os: seq<Oracle>, bare: bool): seq<Chunk>
    decreases |os|
  {
    if os == [] || !t.place.At? then []
    else ChunkOf(cfg, t, answer, os[0], bare) + Chunks(cfg, Visit(cfg, t, answer, os[0]), None, os[1..], bare)
  }

  /** A mapping is merged; anything else lands under `__interrupt__`. */
  function FoldChunk(raw: Raw, c: Chunk): Raw {
    match c
    case Wrote(_, d) => raw.(state := Merge(raw.state, d))
    case WroteNothing(_) => raw.(interrupt := None)
    case Interrupted(p) => raw.(interrupt := Some(p))
  }

  function Fold(raw: Raw, cs: seq<Chunk>): Raw
    decreases |cs|
  {
    if cs == [] then raw else Fold(FoldChunk(raw, cs[0]), cs[1..])
  }

  // ---------------------------------------------------------------------- the stream

  datatype Stage = Stage(node: Option<Node>, attempt: nat)

  datatype StreamEvent =
    | StageEvent(stage: Stage) | Warning | Result(response: Response) | Clarification(response: Response) | Error

  function NodeOf(c: Chunk): Option<Node> { if c.Interrupted? then None else Some(c.node) }

  /** How many of `cs` belong to `node`. */
  function Passes(cs: seq<Chunk>, node: Option<Node>): nat {
    if cs == [] then 0 else Passes(cs[..|cs| - 1], node) + One(NodeOf(cs[|cs| - 1]) == node)
  }

  predicate Terminal(e: StreamEvent) { e.Result? || e.Clarification? || e.Error? }

  /** One stage event per chunk, numbered per node. */
  function Stages(cs: seq<Chunk>): (es: seq<StreamEvent>)
    ensures |es| == |cs|
    ensures forall i :: 0 <= i < |es| ==> es[i] == StageEvent(Stage(NodeOf(cs[i]), Passes(cs[..i + 1], NodeOf(cs[i]))))
  {
    seq(|cs|, i requires 0 <= i < |cs| => StageEvent(Stage(NodeOf(cs[i]), Passes(cs[..i + 1], NodeOf(cs[i])))))
  }

  function TerminalOf(r: Response): StreamEvent { if r.question.Some? then Clarification(r) else Result(r) }

  /** What follows the stages: `end` is what the graph raised, if it did. Only GenQL's
      own errors are caught; any other leaves the generator, and nothing follows. */
  function Closing(raw: Raw, end: Option<QueryGate.Error>, history: History): seq<StreamEvent> {
    if end.Some? then (if IsGenql(end.value) then [Error] else [])
    else if history.Unsaved? then (if IsGenql(history.error) then [Warning, TerminalOf(ToResponse(raw))] else [])
    else [TerminalOf(ToResponse(raw))]
  }

  /** An invoke as both transports hand it on: the answer of a resumed turn stands for
      its question, and its datasource is not passed. */
  function InvokeOf(start: QueryState, answer: Option<string>, r: Response, store: Option<Store>): Invoke {
    if answer.Some? then Invoke(answer.value, None, r, store)
    else Invoke(start.question, Some(start.datasource), r, store)
  }

  /** A turn that raised is not recorded. */
  function Remembered(a: Archive, i: Invoke, end: Option<QueryGate.Error>): (Archive, History) {
    if end.Some? then (a, Unrecorded) else Recorded(a, i)
  }

  /** `stage_event_stream`, with the tables behind its thread. */
  method StageEventStream(start: QueryState, chunks: seq<Chunk>, end: Option<QueryGate.Error>,
                          answer: Option<string>, archive: ThreadArchive, store: Option<Store>)
    returns (events: seq<StreamEvent>)
    modifies archive
    ensures var raw := Fold(Raw(start, None), chunks);
            var (kept, history) :=
              Remembered(old(archive.Contents()), InvokeOf(start, answer, ToResponse(raw), store), end);
            events == Stages(chunks) + Closing(raw, end, history) && archive.Contents() == kept
  {
    hide ToResponse, RecordTurn, Merge, TerminalOf;
    var merged := Raw(start, None);
    var attempts: map<Option<Node>, nat> := map[];
    events := [];
    var i := 0;
    while i < |chunks|
      invariant 0 <= i <= |chunks| && |events| == i
      invariant Fold(Raw(start, None), chunks) == Fold(merged, chunks[i..])
      invariant forall n :: (if n in attempts then attempts[n] else 0) == Passes(chunks[..i], n)
      invariant forall j :: 0 <= j < i ==> events[j] == Stages(chunks)[j]
      invariant archive.Contents() == old(archive.Contents())
    {
      var c := chunks[i];
      assert chunks[..i + 1][..i] == chunks[..i];
      assert chunks[i..][1..] == chunks[i + 1..];
      merged := FoldChunk(merged, c);
      var node := NodeOf(c);
      attempts := attempts[node := (if node in attempts then attempts[node] else 0) + 1];
      events := events + [StageEvent(Stage(node, attempts[node]))];
      i := i + 1;
    }
    assert events == Stages(chunks);
    if end.Some? {
      if IsGenql(end.value) { events := events + [Error]; }
      return;
    }
    var response := ToResponse(merged);
    if store.Some? {
      var history := archive.Save(if answer.Some? then answer.value else start.question,
                                  if answer.Some? then None else Some(start.datasource), response, store.value);
      if history.Unsaved? {
        if !IsGenql(history.error) { return; }
        events := events + [Warning];
      }
    }
    events := events + [TerminalOf(response)];
  }

  /** The places of the chunks that are the node's. */
  function PlacesOf(cs: seq<Chunk>, node: Option<Node>): set<int> { set j | 0 <= j < |cs| && NodeOf(cs[j]) == node }

  lemma PlacesMore(cs: seq<Chunk>, node: Option<Node>)
    requires cs != []
    ensures var n := |cs| - 1;
            n !in PlacesOf(cs[..n], node)
            && PlacesOf(cs, node) == PlacesOf(cs[..n], node) + if NodeOf(cs[n]) == node then {n} else {}
  {
    hide NodeOf;
  }

  /** The number of a stage is how many of the chunks up to it are its node's. */
  lemma {:induction false} AttemptsAreCounted(cs: seq<Chunk>, node: Option<Node>)
    ensures Passes(cs, node) == |PlacesOf(cs, node)|
    decreases |cs|
  {
    if cs != [] {
      hide PlacesOf, NodeOf;
      AttemptsAreCounted(cs[..|cs| - 1], node);
      PlacesMore(cs, node);
    }
  }

  // -------------------------------------------------------------------- refinement

  /** The fields a response reads that stages behind the gate write. */
  predicate SameBehindGate(a: QueryState, b: QueryState) {
    && a.plan == b.plan && a.candidates == b.candidates && a.probes == b.probes
    && a.selection == b.selection && a.optimization == b.optimization
    && a.validatedSql == b.validatedSql && a.result == b.result
  }

  /** How the folded mapping follows the whole state. In a resumed segment the
      assessment and the intent of the earlier segment are unknown to it. */
  predicate Follows(t: Turn, raw: Raw, answer: Option<string>, resumed: bool) {
    && SameBehindGate(t.state, raw.state)
    && (raw.interrupt == if t.place.Waiting? then Some(t.place.payload) else None)
    && (t.place != At(AmbiguityGate) && !(t.place == At(Interrupt) && answer.Some?)
        ==> t.state.ambiguity == raw.state.ambiguity)
    && (if resumed then t.state.ambiguity.Some? else t.state.intent == raw.state.intent)
    && (t.place == At(Interrupt) && answer.Some? ==> resumed)
    && (resumed ==> t.place != At(Intent) && t.place != At(Domain) && t.place != At(Linking))
  }

  lemma MergeFollows(a: QueryState, b: QueryState, d: Delta)
    requires SameBehindGate(a, b)
    ensures SameBehindGate(Merge(a, d), Merge(b, d))
    ensures a.ambiguity == b.ambiguity || d.Gated? ==> Merge(a, d).ambiguity == Merge(b, d).ambiguity
    ensures a.intent == b.intent ==> Merge(a, d).intent == Merge(b, d).intent
    ensures a.ambiguity.Some? ==> Merge(a, d).ambiguity.Some?
  {
  }

  lemma GateWritesAssessment(cfg: Settings, s: QueryState, answer: Option<string>, o: Oracle)
    ensures var r := RunNode(cfg, AmbiguityGate, s, answer, o); r.Update? ==> r.delta.Gated?
    ensures !RunNode(cfg, AmbiguityGate, s, answer, o).Pause?
  {
    hide Assess;
  }

  lemma OnlyInterruptPauses(cfg: Settings, node: Node, s: QueryState, answer: Option<string>, o: Oracle)
    ensures RunNode(cfg, node, s, answer, o).Pause? ==> node == Interrupt && answer.None?
  {
    hide RunGate, RunGeneration, RunValidation, RunCritique, RunProbing, RunSelecting, RunCostGate;
    if node == AmbiguityGate { GateWritesAssessment(cfg, s, answer, o); }
    else if node != Interrupt { PlainNodesDoNotPause(cfg, node, s, answer, o); }
  }

  lemma PlainNodesDoNotPause(cfg: Settings, node: Node, s: QueryState, answer: Option<string>, o: Oracle)
    requires node != AmbiguityGate && node != Interrupt
    ensures !RunNode(cfg, node, s, answer, o).Pause?
  {
    hide Survivors, AllViolations, Reports, AllFatal, Decisive, Select, Optimize;
  }

  lemma VisitFollows(cfg: Settings, t: Turn, answer: Option<string>, o: Oracle, raw: Raw, resumed: bool, bare: bool)
    requires t.place.At? && Follows(t, raw, answer, resumed)
    ensures var t' := Visit(cfg, t, answer, o);
            !t'.place.Failed? ==> Follows(t', Fold(raw, ChunkOf(cfg, t, answer, o, bare)), None, resumed)
  {
    hide RunNode, Merge, SameBehindGate;
    var r := RunNode(cfg, t.place.node, t.state, answer, o);
    OnlyInterruptPauses(cfg, t.place.node, t.state, answer, o);
    var cs := ChunkOf(cfg, t, answer, o, bare);
    if r.Update? {
      MergeFollows(t.state, raw.state, r.delta);
      if r.delta == Nothing { MergeNothing(t.state); MergeNothing(raw.state); }
      if t.place.node == AmbiguityGate { GateWritesAssessment(cfg, t.state, answer, o); }
    }
    if cs != [] {
      assert cs[1..] == [];
      assert Fold(raw, cs) == FoldChunk(raw, cs[0]);
    }
  }

  lemma MergeNothing(s: QueryState)
    ensures Merge(s, Nothing) == s
  {
  }

  lemma {:induction false} FoldConcat(raw: Raw, a: seq<Chunk>, b: seq<Chunk>)
    ensures Fold(raw, a + b) == Fold(Fold(raw, a), b)
    decreases |a|
  {
    if a == [] {
      assert a + b == b;
    } else {
      FoldConcat(FoldChunk(raw, a[0]), a[1..], b);
      assert (a + b)[1..] == a[1..] + b;
    }
  }

  lemma {:induction false} RunFollows(cfg: Settings, t: Turn, answer: Option<string>, os: seq<Oracle>, raw: Raw,
      resumed: bool, bare: bool)
    requires Follows(t, raw, answer, resumed)
    ensures var ts := Run(cfg, t, answer, os);
            var last := ts[|ts| - 1];
            Over(last) ==> Follows(last, Fold(raw, Chunks(cfg, t, answer, os, bare)), None, resumed)
    decreases |os|
  {
    hide Follows, Visit, ChunkOf;
    if os == [] || !t.place.At? {
      if Over(t) { EndFollows(t, raw, answer, resumed); }
    } else {
      var t' := Visit(cfg, t, answer, os[0]);
      var head := ChunkOf(cfg, t, answer, os[0], bare);
      VisitFollows(cfg, t, answer, os[0], raw, resumed, bare);
      FoldConcat(raw, head, Chunks(cfg, t', None, os[1..], bare));
      if !t'.place.Failed? {
        RunFollows(cfg, t', None, os[1..], Fold(raw, head), resumed, bare);
      }
    }
  }

  lemma EndFollows(t: Turn, raw: Raw, answer: Option<string>, resumed: bool)
    requires Follows(t, raw, answer, resumed) && Over(t)
    ensures Follows(t, raw, None, resumed)
  {
  }

  lemma FollowersRespondAlike(cfg: Settings, t: Turn, raw: Raw, resumed: bool)
    requires Inv(cfg, t) && Over(t) && Follows(t, raw, None, resumed)
    ensures ToResponse(raw) == ToResponse(Blocking(t))
  {
    hide DialogueOk, Judged;
  }

  /** A streamed turn, fresh: the response built from the deltas is the one the
      blocking transport builds from the whole state. */
  lemma FreshStreamAgrees(cfg: Settings, question: string, datasource: string, domain: Option<int>, os: seq<Oracle>,
      bare: bool)
    ensures var t := Start(question, datasource, domain);
            var ts := Run(cfg, t, None, os);
            var last := ts[|ts| - 1];
            Over(last) ==>
              ToResponse(Fold(Raw(InitialState(question, datasource, domain), None), Chunks(cfg, t, None, os, bare)))
                == ToResponse(Blocking(last))
  {
    var t := Start(question, datasource, domain);
    var raw := Raw(InitialState(question, datasource, domain), None);
    var ts := Run(cfg, t, None, os);
    var last := ts[|ts| - 1];
    StartHolds(cfg, question, datasource, domain);
    assert Follows(t, raw, None, false);
    hide Inv, Follows, Fold, Chunks, Visit;
    RunKeeps(cfg, t, None, os);
    RunFollows(cfg, t, None, os, raw, false, bare);
    assert last in ts;
    if Over(last) {
      FollowersRespondAlike(cfg, last, Fold(raw, Chunks(cfg, t, None, os, bare)), false);
    }
  }

  /** A streamed turn, resumed: the same, although the stream starts from a blank
      state for whatever question and datasource it was given and never loads
      what the turn had learned before it paused. */
  lemma ResumedStreamAgrees(cfg: Settings, t: Turn, answer: string, os: seq<Oracle>, bare: bool,
                            question: string, datasource: string, domain: Option<int>)
    requires t.place.Waiting? && Inv(cfg, t)
    ensures var ts := Run(cfg, Resumed(t), Some(answer), os);
            var last := ts[|ts| - 1];
            Over(last) ==>
              ToResponse(Fold(Raw(InitialState(question, datasource, domain), None),
                  Chunks(cfg, Resumed(t), Some(answer), os, bare)))
                == ToResponse(Blocking(last))
  {
    var raw := Raw(InitialState(question, datasource, domain), None);
    var ts := Run(cfg, Resumed(t), Some(answer), os);
    var last := ts[|ts| - 1];
    ResumeHolds(cfg, t);
    assert Follows(Resumed(t), raw, Some(answer), true);
    hide Inv, Follows, Fold, Chunks, Visit;
    RunKeeps(cfg, Resumed(t), Some(answer), os);
    RunFollows(cfg, Resumed(t), Some(answer), os, raw, true, bare);
    assert last in ts;
    if Over(last) {
      FollowersRespondAlike(cfg, last, Fold(raw, Chunks(cfg, Resumed(t), Some(answer), os, bare)), true);
    }
  }
}
