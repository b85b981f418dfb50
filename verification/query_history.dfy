/** What a thread remembers of its turns: `record_turn` (`genql/api/query_turn.py`) over
    the thread's row and its saved turns. */
module QueryHistory {
  import opened Options
  import opened QueryGate
  import opened QueryGraph
  import opened QueryOutcomes

  datatype Thread = Thread(datasource: string, title: string)

  datatype TurnRecord = TurnRecord(
    sequence: nat,
    question: string,
    validatedSql: Option<string>,
    clarifying: Option<string>,
    result: Option<Rows>,
    applied: seq<Pair>)

  /** The row of one thread and its saved turns. */
  datatype Archive = Archive(thread: Option<Thread>, turns: seq<TurnRecord>)

  const NOTHING_KEPT := Archive(None, [])

  datatype Write = Done | Raised(error: QueryGate.Error)

  /** What the database says to listing the thread's turns, to creating or touching the
      thread, and to appending the turn. */
  datatype Store = Store(list: Write, open: Write, append: Write)

  /** What became of writing the turn to its thread's history. */
  datatype History = Unrecorded | Saved | Unsaved(error: QueryGate.Error)

  const TITLE_MAX := 80

  function Title(question: string): string {
    if |question| <= TITLE_MAX then question else question[..TITLE_MAX]
  }

  function RecordOf(sequence: nat, question: string, r: Response): TurnRecord {
    TurnRecord(sequence, question, r.validatedSql, r.question, r.result, r.applied)
  }

  /** `threads.create`, which leaves a thread that exists as it is. */
  function Created(a: Archive, datasource: string, question: string): Archive {
    if a.thread.Some? then a else a.(thread := Some(Thread(datasource, Title(question))))
  }

  /** `record_turn`. An answer comes without a datasource. */
  function RecordTurn(a: Archive, question: string, datasource: Option<string>, r: Response, store: Store):
      (Archive, History)
  {
    if store.list.Raised? then (a, Unsaved(Surfaced(store.list.error)))
    else if a.turns == [] && datasource.None? then (a, Unsaved(AssertionFailed))
    else if store.open.Raised? then (a, Unsaved(Surfaced(store.open.error)))
    else
      var begun := if a.turns == [] then Created(a, datasource.value, question) else a;
      if store.append.Raised? then (begun, Unsaved(Surfaced(store.append.error)))
      else (begun.(turns := a.turns + [RecordOf(|a.turns|, question, r)]), Saved)
  }

  /** The tables behind one thread, as they are written. */
  class ThreadArchive {
    var thread: Option<Thread>
    var turns: seq<TurnRecord>

    function Contents(): Archive
      reads this
    {
      Archive(thread, turns)
    }

    constructor ()
      ensures Contents() == NOTHING_KEPT
    {
      thread, turns := None, [];
    }

    method Save(question: string, datasource: Option<string>, r: Response, store: Store) returns (history: History)
      modifies this
      ensures (Contents(), history) == RecordTurn(old(Contents()), question, datasource, r, store)
    {
      if store.list.Raised? { return Unsaved(Surfaced(store.list.error)); }
      var sequence := |turns|;
      if sequence == 0 && datasource.None? { return Unsaved(AssertionFailed); }
      if store.open.Raised? { return Unsaved(Surfaced(store.open.error)); }
      if sequence == 0 && thread.None? {
        thread := Some(Thread(datasource.value, Title(question)));
      }
      if store.append.Raised? { return Unsaved(Surfaced(store.append.error)); }
      turns := turns + [RecordOf(sequence, question, r)];
      history := Saved;
    }
  }

  // ---------------------------------------------------------------- a thread's life

  /** One invoke that paused or ended, as it is handed on to be recorded: no store when
      the caller keeps no history, no datasource when it was an answer. */
  datatype Invoke = Invoke(question: string, datasource: Option<string>, response: Response, store: Option<Store>)

  function Recorded(a: Archive, i: Invoke): (Archive, History) {
    if i.store.None? then (a, Unrecorded) else RecordTurn(a, i.question, i.datasource, i.response, i.store.value)
  }

  /** What is kept of a thread after the invokes `past`. */
  function Life(past: seq<Invoke>): Archive {
    if past == [] then NOTHING_KEPT else Recorded(Life(past[..|past| - 1]), past[|past| - 1]).0
  }

  /** What became of recording the `k`th invoke of a thread. */
  function Outcome(past: seq<Invoke>, k: nat): History
    requires k < |past|
  {
    Recorded(Life(past[..k]), past[k]).1
  }

  /** History is kept and every write goes through. */
  predicate Willing(i: Invoke) {
    i.store.Some? && i.store.value == Store(Done, Done, Done)
  }

  /** Some question, not an answer, was kept with every write going through. */
  predicate Rooted(past: seq<Invoke>) {
    exists j :: 0 <= j < |past| && Willing(past[j]) && past[j].datasource.Some?
  }

  lemma RootedMore(past: seq<Invoke>, i: Invoke)
    ensures Rooted(past + [i]) <==> Rooted(past) || (Willing(i) && i.datasource.Some?)
  {
    var more := past + [i];
    if Rooted(past) {
      var j :| 0 <= j < |past| && Willing(past[j]) && past[j].datasource.Some?;
      assert more[j] == past[j];
    }
    assert more[|past|] == i;
  }

  lemma SavedExactly(a: Archive, i: Invoke)
    ensures Recorded(a, i).1 == Saved <==> Willing(i) && (i.datasource.Some? || a.turns != [])
    ensures |Recorded(a, i).0.turns| == |a.turns| + if Recorded(a, i).1 == Saved then 1 else 0
    ensures Recorded(a, i).1 == Unsaved(AssertionFailed)
       <==> i.store.Some? && i.store.value.list.Done? && i.datasource.None? && a.turns == []
  {
  }

  /** A thread holds saved turns if and only if a question of it was kept. */
  lemma {:induction false} HeldExactlyWhenRooted(past: seq<Invoke>)
    ensures Life(past).turns != [] <==> Rooted(past)
    decreases |past|
  {
    hide Recorded, Rooted, Willing;
    if past == [] {
      assert !Rooted(past) by { NothingIsRooted(); }
    } else {
      var before, i := past[..|past| - 1], past[|past| - 1];
      assert past == before + [i];
      HeldExactlyWhenRooted(before);
      RootedMore(before, i);
      SavedExactly(Life(before), i);
    }
  }

  lemma NothingIsRooted()
    ensures !Rooted([])
  {
  }

  /** Over the whole life of a thread, whatever its database answers: an invoke is saved
      if and only if its own writes go through and it, or an earlier invoke of the thread,
      is a question whose writes went through. Recording breaks on its assertion if and
      only if an answer is recorded in a thread that has no such question. */
  lemma RecordingIsExact(past: seq<Invoke>, k: nat)
    requires k < |past|
    ensures Outcome(past, k) == Saved <==> Willing(past[k]) && (past[k].datasource.Some? || Rooted(past[..k]))
    ensures Outcome(past, k) == Unsaved(AssertionFailed)
       <==> past[k].store.Some? && past[k].store.value.list.Done? && past[k].datasource.None? && !Rooted(past[..k])
  {
    hide Recorded, Rooted, Willing, Life;
    HeldExactlyWhenRooted(past[..k]);
    SavedExactly(Life(past[..k]), past[k]);
  }

  /** The invokes that were saved, in order. */
  function SavedOf(past: seq<Invoke>): seq<Invoke> {
    if past == [] then []
    else
      var n := |past| - 1;
      SavedOf(past[..n]) + if Willing(past[n]) && (past[n].datasource.Some? || Rooted(past[..n])) then [past[n]] else []
  }

  /** The record keeps, of its invoke, the question, the statement, the question that was
      asked back, the rows and the defaults applied. */
  predicate IsRecordOf(r: TurnRecord, k: nat, i: Invoke) {
    && r.sequence == k && r.question == i.question && r.validatedSql == i.response.validatedSql
    && r.clarifying == i.response.question && r.result == i.response.result && r.applied == i.response.applied
  }

  /** The history is the saved invokes in order, numbered from 0 without a gap; it begins
      with a question, and its thread has a row. */
  lemma {:induction false} HistoryIsWhatWasSaved(past: seq<Invoke>)
    ensures var a, kept := Life(past), SavedOf(past);
            && |a.turns| == |kept|
            && (forall k :: 0 <= k < |kept| ==> IsRecordOf(a.turns[k], k, kept[k]))
            && (kept != [] ==> kept[0].datasource.Some? && a.thread.Some?)
    decreases |past|
  {
    hide Willing, Rooted;
    if past != [] {
      var before, i := past[..|past| - 1], past[|past| - 1];
      HistoryIsWhatWasSaved(before);
      HeldExactlyWhenRooted(before);
      SavedExactly(Life(before), i);
    }
  }

  /** The invoke creates the row of a thread that has none yet. */
  predicate Opens(i: Invoke) {
    i.store.Some? && i.store.value.list.Done? && i.store.value.open.Done? && i.datasource.Some?
  }

  lemma TitleIsPrefix(q: string)
    ensures Title(q) <= q && (|Title(q)| == 80 || (|q| < 80 && Title(q) == q))
  {
  }

  /** The row is that of the first question that got as far as creating it, whether or
      not that turn was saved; it never changes. */
  lemma {:induction false} ThreadIsTheFirstOpened(past: seq<Invoke>, k: nat)
    requires k < |past| && Opens(past[k]) && forall j :: 0 <= j < k ==> !Opens(past[j])
    ensures var t, q := Life(past).thread, past[k].question;
            && t.Some? && t.value.datasource == past[k].datasource.value
            && t.value.title <= q && (|t.value.title| == 80 || (|q| < 80 && t.value.title == q))
    decreases |past|
  {
    hide Title, RecordOf;
    var before, i := past[..|past| - 1], past[|past| - 1];
    TitleIsPrefix(past[k].question);
    HistoryIsWhatWasSaved(before);
    if k < |before| {
      ThreadIsTheFirstOpened(before, k);
    } else {
      NoneOpened(before);
    }
  }

  lemma {:induction false} NoneOpened(past: seq<Invoke>)
    requires forall j :: 0 <= j < |past| ==> !Opens(past[j])
    ensures Life(past) == NOTHING_KEPT
    decreases |past|
  {
    if past != [] { NoneOpened(past[..|past| - 1]); }
  }
}
