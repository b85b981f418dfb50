/** The two progress streams of `genql/api/sse/ingestion_events.py`: one job watched
    to its end, and the feed of datasources that became ready or failed. */
module IngestionEvents {
  import opened Options
  import opened IngestionJobs

  /** One step as a client sees it. */
  datatype Line = Line(name: StepName, status: StepStatus, records: nat)

  /** One read of a job. */
  datatype Watched = Watched(id: JobId, datasource: string, status: JobStatus, lines: seq<Line>)

  predicate Ended(w: Watched) { w.status == Won || w.status == Lost }

  // ------------------------------------------------------------------- fingerprint

  predicate IsNameChar(c: char) { 'a' <= c <= 'z' || c == '_' }

  function NameText(n: StepName): (s: string)
    ensures forall c :: c in s ==> IsNameChar(c)
  {
    match n
    case SchemaRegistration => "schema_registration"
    case Discovery => "discovery"
    case SemanticOverlay => "semantic_overlay"
    case SemanticCompile => "semantic_compile"
    case GraphAnalysis => "graph_analysis"
    case DomainDiscovery => "domain_discovery"
  }

  function StepText(s: StepStatus): (t: string)
    ensures forall c :: c in t ==> IsNameChar(c)
  {
    match s
    case Pending => "pending"
    case Running => "running"
    case Succeeded => "succeeded"
    case Skipped => "skipped"
    case Failed => "failed"
  }

  function StatusText(s: JobStatus): (t: string)
    ensures forall c :: c in t ==> IsNameChar(c)
  {
    match s
    case Queued => "queued"
    case Active => "running"
    case Won => "succeeded"
    case Lost => "failed"
  }

  function Digit(d: nat): char
    requires d < 10
  {
    "0123456789"[d]
  }

  /** Decimal notation. */
  function Decimal(n: nat): (s: string)
    ensures s != "" && forall c :: c in s ==> '0' <= c <= '9'
  {
    if n < 10 then [Digit(n)] else Decimal(n / 10) + [Digit(n % 10)]
  }

  function LineText(l: Line): string { NameText(l.name) + ":" + StepText(l.status) + ":" + Decimal(l.records) }

  function LinesText(lines: seq<Line>): string {
    if lines == [] then ""
    else if |lines| == 1 then LineText(lines[0])
    else LineText(lines[0]) + ";" + LinesText(lines[1..])
  }

  /** `fingerprint` */
  function Fingerprint(w: Watched): string { StatusText(w.status) + "|" + LinesText(w.lines) }

  predicate Free(s: string, c: char) { c !in s }

  /** Text up to its first separator determines itself. */
  lemma FirstField(a: string, b: string, x: string, y: string, c: char)
    requires Free(a, c) && Free(b, c) && a + [c] + x == b + [c] + y
    ensures a == b && x == y
  {
    var s := a + [c] + x;
    assert s[|a|] == c && s[|b|] == c;
    assert forall i :: 0 <= i < |a| ==> s[i] == a[i] && a[i] in a;
    assert forall i :: 0 <= i < |b| ==> s[i] == b[i] && b[i] in b;
    assert a == s[..|a|] && b == s[..|b|];
    assert x == s[|a| + 1..] && y == s[|b| + 1..];
  }

  lemma {:induction false} DecimalIsUnique(m: nat, n: nat)
    requires Decimal(m) == Decimal(n)
    ensures m == n
    decreases m
  {
    var s, t := Decimal(m), Decimal(n);
    assert s[|s| - 1] == Digit(m % 10) && t[|t| - 1] == Digit(n % 10);
    assert m % 10 == n % 10;
    assert m >= 10 <==> |s| > 1;
    assert n >= 10 <==> |t| > 1;
    if m >= 10 {
      assert s[..|s| - 1] == Decimal(m / 10) && t[..|t| - 1] == Decimal(n / 10);
      DecimalIsUnique(m / 10, n / 10);
    }
  }

  lemma LineIsFree(l: Line)
    ensures Free(LineText(l), ';') && LineText(l) != ""
  {
    hide NameText, StepText, Decimal;
    var n, s, d := NameText(l.name), StepText(l.status), Decimal(l.records);
    assert forall c :: c in LineText(l) ==> c in n || c == ':' || c in s || c in d;
    assert !IsNameChar(';');
  }

  lemma LineIsUnique(a: Line, b: Line)
    requires LineText(a) == LineText(b)
    ensures a == b
  {
    hide NameText, StepText, Decimal;
    assert !IsNameChar(':');
    var da, db := Decimal(a.records), Decimal(b.records);
    assert LineText(a) == NameText(a.name) + [':'] + (StepText(a.status) + ":" + da);
    assert LineText(b) == NameText(b.name) + [':'] + (StepText(b.status) + ":" + db);
    FirstField(NameText(a.name), NameText(b.name), StepText(a.status) + ":" + da, StepText(b.status) + ":" + db, ':');
    FirstField(StepText(a.status), StepText(b.status), da, db, ':');
    DecimalIsUnique(a.records, b.records);
    NamesDiffer(a.name, b.name);
    StepTextsDiffer(a.status, b.status);
  }

  lemma NamesDiffer(a: StepName, b: StepName)
    requires NameText(a) == NameText(b)
    ensures a == b
  {
    assert |NameText(a)| == |NameText(b)|;
    if |NameText(a)| == 16 {
      assert NameText(a)[0] == NameText(b)[0] && NameText(a)[9] == NameText(b)[9];
    }
  }

  lemma StepTextsDiffer(a: StepStatus, b: StepStatus)
    requires StepText(a) == StepText(b)
    ensures a == b
  {
    assert StepText(a)[0] == StepText(b)[0] && StepText(a)[1] == StepText(b)[1];
  }

  lemma StatusTextsDiffer(a: JobStatus, b: JobStatus)
    requires StatusText(a) == StatusText(b)
    ensures a == b
  {
    assert StatusText(a)[0] == StatusText(b)[0];
  }

  lemma {:induction false} LinesAreUnique(a: seq<Line>, b: seq<Line>)
    requires LinesText(a) == LinesText(b)
    ensures a == b
    decreases |a|
  {
    hide LineText;
    if a != [] { LineIsFree(a[0]); }
    if b != [] { LineIsFree(b[0]); }
    if a != [] && b != [] {
      var s, t := LineText(a[0]), LineText(b[0]);
      if |a| > 1 && |b| > 1 {
        assert LinesText(a) == s + [';'] + LinesText(a[1..]) && LinesText(b) == t + [';'] + LinesText(b[1..]);
        FirstField(s, t, LinesText(a[1..]), LinesText(b[1..]), ';');
        LineIsUnique(a[0], b[0]);
        LinesAreUnique(a[1..], b[1..]);
      } else if |a| == 1 && |b| == 1 {
        LineIsUnique(a[0], b[0]);
      }
    }
  }

  /** Two reads have the same fingerprint exactly when the status and every step's
      name, status and count are the same. */
  lemma FingerprintIsFaithful(v: Watched, w: Watched)
    ensures Fingerprint(v) == Fingerprint(w) <==> v.status == w.status && v.lines == w.lines
  {
    hide LinesText, StatusText;
    if Fingerprint(v) == Fingerprint(w) {
      assert !IsNameChar('|');
      FirstField(StatusText(v.status), StatusText(w.status), LinesText(v.lines), LinesText(w.lines), '|');
      StatusTextsDiffer(v.status, w.status);
      LinesAreUnique(v.lines, w.lines);
    }
  }

  /** One fingerprint, written out. */
  lemma FingerprintReads(w: Watched)
    requires w.status == Active && w.lines == [Line(Discovery, Failed, 10), Line(SemanticOverlay, Skipped, 0)]
    ensures Fingerprint(w) == "running" + "|" + ("discovery:failed:10" + ";" + "semantic_overlay:skipped:0")
  {
    var l := w.lines;
    assert Decimal(10) == "10" && Decimal(0) == "0";
    assert l[1..] == [l[1]] && LinesText(l) == LineText(l[0]) + ";" + LinesText(l[1..]);
    assert LineText(l[0]) == "discovery:failed:10" && LineText(l[1]) == "semantic_overlay:skipped:0";
  }

  // --------------------------------------------------------------- one job watched

  datatype Event =
    | StepShown(line: Line) | ProgressShown(progress: real) 
    | DoneShown(job: Watched) | ErrorShown(job: Watched) | TimeoutShown(job: Watched)

  predicate Terminal(e: Event) { !e.StepShown? && !e.ProgressShown? }

  function ProgressOf(w: Watched): real {
    Progress(Job(w.datasource, w.status, seq(|w.lines|, i
        requires 0 <= i < |w.lines| => Step(w.lines[i].name, w.lines[i].status)), None, 0, None, 0))
  }

  function Shown(lines: seq<Line>): (es: seq<Event>)
    ensures |es| == |lines| && forall i :: 0 <= i < |es| ==> es[i] == StepShown(lines[i])
  {
    seq(|lines|, i requires 0 <= i < |lines| => StepShown(lines[i]))
  }

  function Batch(w: Watched): seq<Event> { Shown(w.lines) + [ProgressShown(ProgressOf(w))] }

  function Ending(w: Watched): Event { if w.status == Lost then ErrorShown(w) else DoneShown(w) }

  /** One read of the store: the job, or an exception that leaves the generator. */
  datatype Look = Saw(job: Watched) | Raised

  function Reported(w: Watched, previous: Option<string>): seq<Event> {
    if Some(Fingerprint(w)) != previous then Batch(w) else []
  }

  /** What the reads of a job put on the stream, `previous` being the fingerprint
      already reported. A deadline ends it when no read was terminal; the timeout
      carries what `late`, one more read, finds. */
  function Stream(looks: seq<Look>, previous: Option<string>, late: Look): seq<Event>
    decreases |looks|
  {
    if looks == [] then (if late.Saw? then [TimeoutShown(late.job)] else [])
    else if looks[0].Raised? then []
    else
      var w := looks[0].job;
      Reported(w, previous)
      + (if Ended(w) then [Ending(w)] else Stream(looks[1..], Some(Fingerprint(w)), late))
  }

  lemma StreamStep(looks: seq<Look>, i: nat, previous: Option<string>, late: Look)
    requires i < |looks|
    ensures Stream(looks[i..], previous, late) ==
      if looks[i].Raised? then []
      else
        var w := looks[i].job;
        Reported(w, previous) + (if Ended(w) then [Ending(w)] else Stream(looks[i + 1..], Some(Fingerprint(w)), late))
  {
    hide Fingerprint, Batch, Ending, Reported;
    assert looks[i..][1..] == looks[i + 1..];
  }

  lemma StreamOfNone(previous: Option<string>, late: Look)
    ensures Stream([], previous, late) == if late.Saw? then [TimeoutShown(late.job)] else []
  {
  }

  /** `ingestion_event_stream`: `looks` are the reads made before the deadline. */
  method WatchJob(looks: seq<Look>, late: Look) returns (events: seq<Event>)
    ensures events == Stream(looks, None, late)
  {
    hide Fingerprint, ProgressOf, Ending, Stream, Ended, Shown;
    var previous: Option<string> := None;
    events := [];
    assert looks[0..] == looks;
    var i := 0;
    while i < |looks|
      invariant 0 <= i <= |looks|
      invariant Stream(looks, None, late) == events + Stream(looks[i..], previous, late)
    {
      StreamStep(looks, i, previous, late);
      if looks[i].Raised? { return; }
      var job := looks[i].job;
      var current := Fingerprint(job);
      ghost var before, report := events, Reported(job, previous);
      if Some(current) != previous {
        previous := Some(current);
        events := events + Shown(job.lines);
        events := events + [ProgressShown(ProgressOf(job))];
      }
      assert events == before + report;
      ghost var rest :=
        if Ended(job) then [Ending(job)] else Stream(looks[i + 1..], Some(current), late);
      assert Stream(looks, None, late) == before + (report + rest) == events + rest;
      if Ended(job) {
        events := events + [Ending(job)];
        return;
      }
      i := i + 1;
    }
    assert looks[i..] == [];
    StreamOfNone(previous, late);
    if late.Saw? { events := events + [TimeoutShown(late.job)]; }
  }

  /** The read that ends the loop: the first that raises or finds the job ended. */
  function Deciding(looks: seq<Look>): (d: nat)
    ensures d <= |looks| && (d < |looks| ==> looks[d].Raised? || looks[d].job.status in {Won, Lost})
    ensures forall i :: 0 <= i < d ==> looks[i].Saw? && looks[i].job.status !in {Won, Lost}
  {
    if looks == [] || looks[0].Raised? || looks[0].job.status in {Won, Lost} then 0 else 1 + Deciding(looks[1..])
  }

  /** The last read of the stream, the late one included. */
  function LastLook(looks: seq<Look>, late: Look): Look {
    var d := Deciding(looks);
    if d < |looks| then looks[d] else late
  }

  lemma ReportsDoNotEnd(w: Watched, previous: Option<string>)
    ensures forall i :: 0 <= i < |Reported(w, previous)| ==> !Terminal(Reported(w, previous)[i])
    ensures Terminal(Ending(w))
  {
    hide Fingerprint, ProgressOf;
  }

  predicate EndsWith(es: seq<Event>, e: Event) {
    es != [] && es[|es| - 1] == e && Terminal(e) && forall i :: 0 <= i < |es| - 1 ==> !Terminal(es[i])
  }

  predicate NeverEnds(es: seq<Event>) { forall i :: 0 <= i < |es| ==> !Terminal(es[i]) }

  /** Exactly one terminal event, at the end, if and only if the last read does not
      raise: done if that read finds that the job won, error if it finds that it lost, a
      timeout if no read before the deadline found either; and it carries that read. Else
      the stream just stops. */
  lemma {:induction false} EndsOnce(looks: seq<Look>, previous: Option<string>, late: Look)
    ensures var es, last := Stream(looks, previous, late), LastLook(looks, late);
            && (last.Saw? ==>
                  EndsWith(es, if Deciding(looks) == |looks| then TimeoutShown(last.job)
                               else if last.job.status == Won then DoneShown(last.job) else ErrorShown(last.job)))
            && (last.Saw? && Deciding(looks) < |looks| ==> last.job.status == Won || last.job.status == Lost)
            && (last.Raised? <==> NeverEnds(es))
    decreases |looks|
  {
    hide Reported, Fingerprint, Stream;
    if looks == [] {
      StreamOfNone(previous, late);
    } else {
      assert looks[0..] == looks;
      StreamStep(looks, 0, previous, late);
      if looks[0].Saw? {
        ReportsDoNotEnd(looks[0].job, previous);
        if !Ended(looks[0].job) {
          EndsOnce(looks[1..], Some(Fingerprint(looks[0].job)), late);
          var head, rest := Reported(looks[0].job, previous), Stream(looks[1..], Some(Fingerprint(looks[0].job)), late);
          EndsBehind(head, rest);
        } else {
          EndsBehind(Reported(looks[0].job, previous), [Ending(looks[0].job)]);
        }
      }
    }
  }

  lemma EndsBehind(head: seq<Event>, rest: seq<Event>)
    requires NeverEnds(head)
    ensures NeverEnds(head + rest) <==> NeverEnds(rest)
    ensures forall e :: EndsWith(rest, e) ==> EndsWith(head + rest, e)
  {
    var all := head + rest;
    assert forall i :: 0 <= i < |rest| ==> all[|head| + i] == rest[i];
  }

  // -------------------------------------------------------------- what a client has

  /** A client that collects steps and takes them over with the progress. */
  datatype Client = Client(pending: seq<Line>, lines: seq<Line>, progress: real)

  function See(c: Client, e: Event): Client {
    match e
    case StepShown(l) => c.(pending := c.pending + [l])
    case ProgressShown(p) => Client([], c.pending, p)
    case _ => c
  }

  function SeeAll(c: Client, es: seq<Event>): Client
    decreases |es|
  {
    if es == [] then c else SeeAll(See(c, es[0]), es[1..])
  }

  lemma {:induction false} SeeConcat(c: Client, a: seq<Event>, b: seq<Event>)
    ensures SeeAll(c, a + b) == SeeAll(SeeAll(c, a), b)
    decreases |a|
  {
    if a == [] {
      assert a + b == b;
    } else {
      assert (a + b)[1..] == a[1..] + b;
      SeeConcat(See(c, a[0]), a[1..], b);
    }
  }

  lemma {:induction false} SeeShown(c: Client, lines: seq<Line>)
    ensures SeeAll(c, Shown(lines)) == c.(pending := c.pending + lines)
    decreases |lines|
  {
    if lines == [] {
      assert c.pending + lines == c.pending;
    } else {
      SeeShown(See(c, StepShown(lines[0])), lines[1..]);
      assert Shown(lines)[1..] == Shown(lines[1..]);
      assert c.pending + [lines[0]] + lines[1..] == c.pending + lines;
    }
  }

  /** The client holds what the read `w` shows. */
  predicate Holds(c: Client, w: Watched) { c == Client([], w.lines, ProgressOf(w)) }

  lemma SeeBatch(c: Client, w: Watched)
    requires c.pending == []
    ensures Holds(SeeAll(c, Batch(w)), w)
  {
    SeeShown(c, w.lines);
    SeeConcat(c, Shown(w.lines), [ProgressShown(ProgressOf(w))]);
    assert [] + w.lines == w.lines;
    var d := SeeAll(c, Shown(w.lines));
    assert SeeAll(d, [ProgressShown(ProgressOf(w))]) == See(d, ProgressShown(ProgressOf(w)));
  }

  lemma SeeEnding(c: Client, e: Event)
    requires Terminal(e)
    ensures SeeAll(c, [e]) == c
  {
  }

  /** The last job that the reads before the deadline found. */
  function LastSeen(looks: seq<Look>): Watched
    requires looks != [] && looks[0].Saw?
  {
    var d := Deciding(looks);
    if d < |looks| && looks[d].Saw? then looks[d].job else looks[d - 1].job
  }

  lemma LastSeenLater(looks: seq<Look>)
    requires looks != [] && looks[0].Saw?
    ensures if Ended(looks[0].job) || |looks| == 1 || looks[1].Raised? then LastSeen(looks) == looks[0].job
            else LastSeen(looks) == LastSeen(looks[1..])
  {
  }

  /** Nothing is lost: when the stream ends, or stops, the client holds the steps and
      the progress of the last read that found the job. */
  lemma {:induction false} ClientIsUpToDate(looks: seq<Look>, previous: Option<Watched>, late: Look, c: Client)
    requires c.pending == [] && (previous.Some? ==> Holds(c, previous.value)) && looks != [] && looks[0].Saw?
    ensures var known := if previous.Some? then Some(Fingerprint(previous.value)) else None;
            Holds(SeeAll(c, Stream(looks, known, late)), LastSeen(looks))
    decreases |looks|
  {
    hide Fingerprint, Batch, Holds, ProgressOf, Ending, LastSeen, Stream, Ended;
    var w := looks[0].job;
    var known := if previous.Some? then Some(Fingerprint(previous.value)) else None;
    assert looks[0..] == looks;
    StreamStep(looks, 0, known, late);
    LastSeenLater(looks);
    var d := SeeAll(c, Reported(w, known));
    if Some(Fingerprint(w)) != known {
      SeeBatch(c, w);
    } else {
      FingerprintIsFaithful(w, previous.value);
      SameView(c, previous.value, w);
    }
    HoldsNothing(d, w);
    var rest := if Ended(w) then [Ending(w)] else Stream(looks[1..], Some(Fingerprint(w)), late);
    SeeConcat(c, Reported(w, known), rest);
    if Ended(w) {
      ReportsDoNotEnd(w, known);
      SeeEnding(d, Ending(w));
    } else if |looks| == 1 {
      assert looks[1..] == [] && SeeAll(d, []) == d;
      StreamOfNone(Some(Fingerprint(w)), late);
      if late.Saw? { SeeEnding(d, TimeoutShown(late.job)); }
    } else if looks[1].Raised? {
      assert looks[1..][0..] == looks[1..];
      StreamStep(looks[1..], 0, Some(Fingerprint(w)), late);
    } else {
      ClientIsUpToDate(looks[1..], Some(w), late, d);
    }
  }

  lemma SameView(c: Client, v: Watched, w: Watched)
    requires Holds(c, v) && v.status == w.status && v.lines == w.lines
    ensures Holds(c, w)
  {
  }

  lemma HoldsNothing(c: Client, w: Watched)
    ensures Holds(c, w) ==> c.pending == []
  {
  }

  // ------------------------------------------------------------------------ the feed

  datatype Announcement = Ready(datasource: string, id: JobId) | Broken(datasource: string, id: JobId)

  /** One poll lists the latest job of each datasource. */
  predicate OnePerDatasource(jobs: seq<Watched>) {
    forall i, j :: 0 <= i < j < |jobs| ==> jobs[i].datasource != jobs[j].datasource
  }

  predicate News(w: Watched, seen: map<string, JobStatus>) {
    !(w.datasource in seen && seen[w.datasource] == w.status)
  }

  function Announce(w: Watched): Announcement {
    if w.status == Won then Ready(w.datasource, w.id) else Broken(w.datasource, w.id)
  }

  function SeenAfter(jobs: seq<Watched>, seen: map<string, JobStatus>): map<string, JobStatus>
    decreases |jobs|
  {
    if jobs == [] then seen else SeenAfter(jobs[1..], seen[jobs[0].datasource := jobs[0].status])
  }

  function Announced(jobs: seq<Watched>, seen: map<string, JobStatus>): seq<Announcement>
    decreases |jobs|
  {
    if jobs == [] then []
    else
      (if News(jobs[0], seen) && Ended(jobs[0]) then [Announce(jobs[0])] else [])
      + Announced(jobs[1..], seen[jobs[0].datasource := jobs[0].status])
  }

  lemma PollStep(jobs: seq<Watched>, i: nat, seen: map<string, JobStatus>)
    requires i < |jobs|
    ensures var more := seen[jobs[i].datasource := jobs[i].status];
            && SeenAfter(jobs[i..], seen) == SeenAfter(jobs[i + 1..], more)
            && Announced(jobs[i..], seen)
               == (if News(jobs[i], seen) && Ended(jobs[i]) then [Announce(jobs[i])] else [])
                   + Announced(jobs[i + 1..], more)
            && (!News(jobs[i], seen) ==> more == seen)
  {
    assert jobs[i..][1..] == jobs[i + 1..];
  }

  lemma NothingToPoll(seen: map<string, JobStatus>)
    ensures SeenAfter([], seen) == seen && Announced([], seen) == []
  {
  }

  /** The generator behind the feed, with the baseline it carries between polls. */
  class Feed {
    var seen: map<string, JobStatus>
    var seeded: bool

    constructor ()
      ensures seen == map[] && !seeded
    {
      seen := map[];
      seeded := false;
    }

    /** `transitions` */
    method Transitions(jobs: seq<Watched>) returns (events: seq<Announcement>)
      modifies this`seen
      ensures seen == SeenAfter(jobs, old(seen))
      ensures events == if seeded then Announced(jobs, old(seen)) else []
    {
      hide SeenAfter, Announced, Ended, Announce;
      events := [];
      assert jobs[0..] == jobs;
      var i := 0;
      while i < |jobs|
        invariant 0 <= i <= |jobs|
        invariant SeenAfter(jobs, old(seen)) == SeenAfter(jobs[i..], seen)
        invariant seeded ==> Announced(jobs, old(seen)) == events + Announced(jobs[i..], seen)
        invariant !seeded ==> events == []
      {
        var job := jobs[i];
        PollStep(jobs, i, seen);
        i := i + 1;
        if job.datasource in seen && seen[job.datasource] == job.status { continue; }
        seen := seen[job.datasource := job.status];
        if !seeded || !Ended(job) { continue; }
        events := events + [Announce(job)];
      }
      assert jobs[i..] == [];
      NothingToPoll(seen);
    }

    /** One turn of the endless loop. */
    method Poll(jobs: seq<Watched>) returns (events: seq<Announcement>)
      modifies this
      ensures seeded && seen == SeenAfter(jobs, old(seen))
      ensures events == if old(seeded) then Announced(jobs, old(seen)) else []
    {
      events := Transitions(jobs);
      seeded := true;
    }
  }

  /** The baseline after the first `n` polls. */
  function Baseline(polls: seq<seq<Watched>>, n: nat): map<string, JobStatus>
    requires n <= |polls|
  {
    if n == 0 then map[] else SeenAfter(polls[n - 1], Baseline(polls, n - 1))
  }

  /** What poll `n` puts on the feed. */
  function FeedAt(polls: seq<seq<Watched>>, n: nat): seq<Announcement>
    requires n < |polls|
  {
    if n == 0 then [] else Announced(polls[n], Baseline(polls, n))
  }

  function Listed(jobs: seq<Watched>, datasource: string): Option<JobStatus> {
    if jobs == [] then None
    else if jobs[0].datasource == datasource then Some(jobs[0].status)
    else Listed(jobs[1..], datasource)
  }

  /** The status a datasource had in the last of the first `n` polls that list it. */
  function LastStatus(polls: seq<seq<Watched>>, n: nat, datasource: string): Option<JobStatus>
    requires n <= |polls|
  {
    if n == 0 then None
    else if Listed(polls[n - 1], datasource).Some? then Listed(polls[n - 1], datasource)
    else LastStatus(polls, n - 1, datasource)
  }

  lemma {:induction false} ListedOnce(jobs: seq<Watched>, w: Watched)
    requires OnePerDatasource(jobs)
    ensures w in jobs ==> Listed(jobs, w.datasource) == Some(w.status)
    ensures Listed(jobs, w.datasource).None? ==> forall v :: v in jobs ==> v.datasource != w.datasource
  {
    if jobs != [] {
      assert forall i :: 0 <= i < |jobs| - 1 ==> jobs[1..][i] == jobs[i + 1];
      ListedOnce(jobs[1..], w);
    }
  }

  lemma {:induction false} SeenIsListed(jobs: seq<Watched>, seen: map<string, JobStatus>, d: string)
    requires OnePerDatasource(jobs)
    ensures var after := SeenAfter(jobs, seen);
            if Listed(jobs, d).Some? then d in after && after[d] == Listed(jobs, d).value
            else (d in after <==> d in seen) && (d in seen ==> after[d] == seen[d])
    decreases |jobs|
  {
    if jobs != [] {
      var more := seen[jobs[0].datasource := jobs[0].status];
      assert forall i :: 0 <= i < |jobs| - 1 ==> jobs[1..][i] == jobs[i + 1];
      SeenIsListed(jobs[1..], more, d);
      if jobs[0].datasource == d {
        ListedOnce(jobs, jobs[0]);
        NotListedAgain(jobs);
      }
    }
  }

  lemma {:induction false} NotListed(jobs: seq<Watched>, d: string)
    requires forall v :: v in jobs ==> v.datasource != d
    ensures Listed(jobs, d).None?
  {
    if jobs != [] { NotListed(jobs[1..], d); }
  }

  lemma NotListedAgain(jobs: seq<Watched>)
    requires jobs != [] && OnePerDatasource(jobs)
    ensures Listed(jobs[1..], jobs[0].datasource).None?
  {
    forall v | v in jobs[1..] ensures v.datasource != jobs[0].datasource {
      var i :| 0 <= i < |jobs| - 1 && jobs[1..][i] == v;
      assert jobs[i + 1] == v;
    }
    NotListed(jobs[1..], jobs[0].datasource);
  }

  lemma {:induction false} BaselineIsLast(polls: seq<seq<Watched>>, n: nat, d: string)
    requires n <= |polls| && forall jobs :: jobs in polls ==> OnePerDatasource(jobs)
    ensures LastStatus(polls, n, d) == if d in Baseline(polls, n) then Some(Baseline(polls, n)[d]) else None
  {
    if n > 0 {
      assert polls[n - 1] in polls;
      BaselineIsLast(polls, n - 1, d);
      SeenIsListed(polls[n - 1], Baseline(polls, n - 1), d);
    }
  }

  lemma {:induction false} AnnouncedAreNews(jobs: seq<Watched>, seen: map<string, JobStatus>, a: Announcement)
    requires OnePerDatasource(jobs)
    ensures a in Announced(jobs, seen) <==> exists w :: w in jobs && News(w, seen) && Ended(w) && Announce(w) == a
    decreases |jobs|
  {
    if jobs != [] {
      var head, more := jobs[0], seen[jobs[0].datasource := jobs[0].status];
      assert forall i :: 0 <= i < |jobs| - 1 ==> jobs[1..][i] == jobs[i + 1];
      AnnouncedAreNews(jobs[1..], more, a);
      assert forall w :: w in jobs <==> w == head || w in jobs[1..];
      forall w | w in jobs[1..] ensures News(w, more) <==> News(w, seen) {
        var i :| 0 <= i < |jobs| - 1 && jobs[1..][i] == w;
        assert jobs[i + 1].datasource != head.datasource;
      }
    }
  }

  /** The feed announces a job as ready exactly when it won, as broken exactly when it
      lost, and only if the datasource's status differs from the one last seen; nothing at
      all is announced on the first poll. */
  lemma FeedIsExact(polls: seq<seq<Watched>>, n: nat, w: Watched)
    requires n < |polls| && w in polls[n] && forall jobs :: jobs in polls ==> OnePerDatasource(jobs)
    ensures Ready(w.datasource, w.id) in FeedAt(polls, n) <==>
      n > 0 && w.status == Won && LastStatus(polls, n, w.datasource) != Some(Won)
    ensures Broken(w.datasource, w.id) in FeedAt(polls, n) <==>
      n > 0 && w.status == Lost && LastStatus(polls, n, w.datasource) != Some(Lost)
  {
    hide Announced, SeenAfter, LastStatus;
    assert polls[n] in polls;
    var seen := Baseline(polls, n);
    BaselineIsLast(polls, n, w.datasource);
    forall e | e == Ready(w.datasource, w.id) || e == Broken(w.datasource, w.id)
      ensures e in Announced(polls[n], seen) <==> News(w, seen) && Ended(w) && Announce(w) == e
    {
      AnnouncedAreNews(polls[n], seen, e);
      if v :| v in polls[n] && News(v, seen) && Ended(v) && Announce(v) == e { OnlyOneListed(polls[n], v, w); }
    }
  }

  lemma OnlyOneListed(jobs: seq<Watched>, v: Watched, w: Watched)
    requires OnePerDatasource(jobs) && v in jobs && w in jobs && v.datasource == w.datasource
    ensures v == w
  {
    var i :| 0 <= i < |jobs| && jobs[i] == v;
    var j :| 0 <= j < |jobs| && jobs[j] == w;
    assert i == j;
  }

  /** So a retry that succeeds between two polls, behind a job that had succeeded,
      is never announced: the feed compares statuses, not jobs. */
  lemma QuickRetryIsSilent(datasource: string, before: JobId, after: JobId)
    requires before != after
    ensures var polls := [[Watched(before, datasource, Won, [])], [Watched(after, datasource, Won, [])]];
            Ended(polls[1][0]) && FeedAt(polls, 1) == []
  {
    var first, second := Watched(before, datasource, Won, []), Watched(after, datasource, Won, []);
    var polls := [[first], [second]];
    var seen := map[datasource := Won];
    PollStep([first], 0, map[]);
    PollStep([second], 0, seen);
    NothingToPoll(seen);
    assert [first][0..] == [first] && [first][1..] == [] && [second][0..] == [second] && [second][1..] == [];
    assert Baseline(polls, 0) == map[] && Baseline(polls, 1) == SeenAfter([first], map[]);
    assert map[][datasource := Won] == seen;
  }
}
