/** Where the reader and the standard agree, for every text: each frame is told by the
    names under which the standard dispatches in it and by how many data lines it has. */
module SseAgreement {
  import opened SseReader
  import opened SseLines
  import opened SseRoundTrip
  import opened SseStandard
  import opened SsePieces

  // --------------------------------------------------------------- carriage returns

  predicate Unbroken(s: string) { '\r' !in s }

  lemma UnbrokenJoin(a: string, b: string)
    requires Unbroken(a) && Unbroken(b)
    ensures Unbroken(a + b)
  {
  }

  lemma UnbrokenPart(s: string, i: nat, j: nat)
    requires i <= j <= |s| && Unbroken(s)
    ensures Unbroken(s[i..j])
  {
  }

  lemma LinesStayUnbroken(b: Buffers, line: string)
    requires Unbroken(b.eventType) && Unbroken(b.data) && Unbroken(line)
    ensures var b' := ProcessLine(b, line); Unbroken(b'.eventType) && Unbroken(b'.data)
  {
    hide Unbroken;
    var k := IndexOf(line, ':');
    var value := if k == |line| then "" else DropSpace(line[k + 1..]);
    assert Unbroken(value) by {
      assert Unbroken("") by { EmptyIsUnbroken(); }
      if k < |line| {
        UnbrokenPart(line, k + 1, |line|);
        assert line[k + 1..] == line[k + 1..|line|];
        var rest := line[k + 1..];
        if rest != "" {
          UnbrokenPart(rest, 1, |rest|);
          assert rest[1..] == rest[1..|rest|];
        }
      }
    }
    UnbrokenJoin(b.data, value);
    assert Unbroken("\n") by { EmptyIsUnbroken(); }
    UnbrokenJoin(b.data + value, "\n");
  }

  lemma EmptyIsUnbroken()
    ensures Unbroken("") && Unbroken("\n") && Unbroken("message")
  {
  }

  /** No event of the standard holds a carriage return. */
  lemma {:induction false} StandardIsUnbroken(s: string, b: Buffers)
    requires Unbroken(b.eventType) && Unbroken(b.data)
    ensures forall e :: e in Interpretation(s, b) ==> Unbroken(e.name) && Unbroken(e.data)
    decreases |s|
  {
    hide Interpretation, ProcessLine, Unbroken, NextLine;
    var k := LineStop(s);
    EmptyIsUnbroken();
    if k == |s| {
      assert Interpretation(s, b) == [] by { UnfinishedLine(s, b); }
    } else {
      StandardStep(s, b);
      assert Unbroken(s[..k]) by { LineIsUnbroken(s, k); }
      if k == 0 {
        StandardIsUnbroken(s[NextLine(s, k)..], EMPTY);
        if b.data != "" {
          UnbrokenPart(b.data, 0, |b.data| - 1);
          assert b.data[..|b.data| - 1] == b.data[0..|b.data| - 1];
        }
      } else {
        LinesStayUnbroken(b, s[..k]);
        StandardIsUnbroken(s[NextLine(s, k)..], ProcessLine(b, s[..k]));
      }
    }
  }

  lemma LineIsUnbroken(s: string, k: nat)
    requires k == LineStop(s)
    ensures Unbroken(s[..k])
  {
    assert forall i :: 0 <= i < k ==> !EndsLine(s[i]);
  }

  lemma UnfinishedLine(s: string, b: Buffers)
    requires LineStop(s) == |s|
    ensures Interpretation(s, b) == []
  {
  }

  // ------------------------------------------------------------- what is dispatched

  /** The names under which the standard dispatches, told without the data: `pending`
      says whether a data line waits for its blank line. */
  function Names(s: string, pending: bool, name: string): seq<string>
    decreases |s|
  {
    var k := LineStop(s);
    if k == |s| then []
    else
      var rest := s[NextLine(s, k)..];
      if k == 0 then
        (if pending then [if name == "" then "message" else name] else []) + Names(rest, false, "")
      else
        Names(rest, pending || IsData(s[..k]), ProcessLine(Buffers(name, ""), s[..k]).eventType)
  }

  function NamesOf(es: seq<Event>): (r: seq<string>)
    ensures |r| == |es| && forall i :: 0 <= i < |es| ==> r[i] == es[i].name
  {
    seq(|es|, i requires 0 <= i < |es| => es[i].name)
  }

  lemma NamesMore(b: Buffers, es: seq<Event>)
    ensures NamesOf(Dispatch(b) + es) ==
      (if b.data != "" then [if b.eventType == "" then "message" else b.eventType] else []) + NamesOf(es)
  {
  }

  lemma {:induction false} NamesAreDispatched(s: string, b: Buffers)
    ensures NamesOf(Interpretation(s, b)) == Names(s, b.data != "", b.eventType)
    decreases |s|
  {
    hide LineStop, NextLine, Interpretation, ProcessLine, IsData, Dispatch, NamesOf;
    var k := LineStop(s);
    if k == |s| {
      UnfinishedLine(s, b);
      assert NamesOf([]) == [];
    } else {
      StandardStep(s, b);
      if k == 0 {
        NamesMore(b, Interpretation(s[NextLine(s, k)..], EMPTY));
        NamesAreDispatched(s[NextLine(s, k)..], EMPTY);
      } else {
        LineTells(b, s[..k]);
        NamesAreDispatched(s[NextLine(s, k)..], ProcessLine(b, s[..k]));
      }
    }
  }

  lemma LineTells(b: Buffers, line: string)
    ensures ProcessLine(b, line).data == b.data + if IsData(line) then ValueOf(line) + "\n" else ""
    ensures ProcessLine(b, line).data != "" <==> b.data != "" || IsData(line)
    ensures ProcessLine(b, line).eventType == ProcessLine(Buffers(b.eventType, ""), line).eventType
  {
    if IsData(line) { ColonOfData(line); } else { OthersAddNothing(b, line); }
  }

  lemma OthersAddNothing(b: Buffers, line: string)
    requires !IsData(line)
    ensures ProcessLine(b, line).data == b.data
  {
    var k := IndexOf(line, ':');
    if |line| > 4 { assert line[..5] == line[..4] + [line[4]] && "data:" == "data" + [':']; }
    assert k == |line| ==> line[..k] == line;
  }

  function ValueOf(line: string): string
    requires IsData(line)
  {
    if |line| == 4 then "" else DropSpace(line[5..])
  }

  function DataIn(line: string): seq<string> { if IsData(line) then [ValueOf(line)] else [] }

  /** The data that the standard finds, line by line, and the data that the reader finds. */
  function StandardData(s: string): seq<string>
    decreases |s|
  {
    var k := LineStop(s);
    if k == |s| then [] else DataIn(s[..k]) + StandardData(s[NextLine(s, k)..])
  }

  function ReadData(s: string): seq<string>
    decreases |s|
  {
    var k := LineEnd(s);
    if k == |s| then [] else DataIn(ChompAt(s, k)) + ReadData(s[k + 1..])
  }

  /** The data of all events, each ended by a newline. */
  function Text(es: seq<Event>): string { if es == [] then "" else es[0].data + "\n" + Text(es[1..]) }

  lemma {:induction false} LinedJoin(a: seq<string>, b: seq<string>)
    ensures Lined(a + b) == Lined(a) + Lined(b)
    decreases |a|
  {
    if a == [] {
      assert a + b == b;
    } else {
      LinedJoin(a[1..], b);
      assert (a + b)[1..] == a[1..] + b;
    }
  }

  lemma TextMore(head: seq<Event>, es: seq<Event>)
    requires |head| <= 1
    ensures Text(head + es) == (if head == [] then "" else head[0].data + "\n") + Text(es)
  {
    if head == [] { assert head + es == es; } else { assert (head + es)[1..] == es; }
  }

  lemma LinedOne(value: string)
    ensures Lined([value]) == value + "\n"
  {
    assert [value][1..] == [] && Lined([]) == "";
  }

  lemma DataStep(s: string)
    requires LineStop(s) < |s|
    ensures StandardData(s) == DataIn(s[..LineStop(s)]) + StandardData(s[NextLine(s, LineStop(s))..])
  {
  }

  lemma Reorder(a: string, b: string, c: string)
    ensures a + b + c == a + (b + c)
  {
  }

  predicate Ended(data: string) { data != "" ==> data[|data| - 1] == '\n' }

  lemma DispatchText(b: Buffers, es: seq<Event>)
    requires Ended(b.data)
    ensures Text(Dispatch(b) + es) == b.data + Text(es)
  {
    TextMore(Dispatch(b), es);
    if b.data != "" { assert b.data[..|b.data| - 1] + "\n" == b.data; } else { assert "" + Text(es) == Text(es); }
  }

  lemma LineText(b: Buffers, line: string)
    requires Ended(b.data)
    ensures ProcessLine(b, line).data == b.data + Lined(DataIn(line)) && Ended(ProcessLine(b, line).data)
  {
    hide ProcessLine, IsData, ValueOf;
    LineTells(b, line);
    if IsData(line) {
      LinedOne(ValueOf(line));
      Reorder(b.data, ValueOf(line), "\n");
    } else {
      assert Lined([]) == "" && b.data + "" == b.data;
    }
  }

  lemma BlankHasNoData(line: string, more: seq<string>)
    requires line == ""
    ensures DataIn(line) + more == more
  {
    assert !IsData(line) && [] + more == more;
  }

  lemma NothingPending()
    ensures Ended(EMPTY.data) && Lined(NO_FIELDS.data) == ""
  {
  }

  /** Up to a blank line the standard dispatches all data it finds, in order. */
  lemma {:induction false} StandardKeepsData(s: string, b: Buffers, z: nat)
    requires BlankAt(s, z, |s|) && Ended(b.data)
    ensures Text(Interpretation(s, b)) == b.data + Lined(StandardData(s))
    decreases |s|
  {
    hide BlankAt, LineStop, NextLine, Interpretation, ProcessLine, Dispatch, Text, Lined, DataIn, StandardData, Ended;
    FirstLineFits(s, z, |s|);
    StandardStep(s, b);
    DataStep(s);
    var k := LineStop(s);
    var rest := s[NextLine(s, k)..];
    if k == 0 {
      BlankHasNoData(s[..k], StandardData(rest));
      DispatchText(b, Interpretation(rest, EMPTY));
      NothingPending();
      if z == 0 { EmptySaysNothing(rest); } else { StandardKeepsData(rest, EMPTY, z - NextLine(s, k)); }
    } else {
      LineText(b, s[..k]);
      LinedJoin(DataIn(s[..k]), StandardData(rest));
      StandardKeepsData(rest, ProcessLine(b, s[..k]), z - NextLine(s, k));
      Reorder(b.data, Lined(DataIn(s[..k])), Lined(StandardData(rest)));
    }
  }

  lemma EmptySaysNothing(s: string)
    requires s == ""
    ensures Text(Interpretation(s, EMPTY)) == "" && Text(Interpret(s, NO_FIELDS)) == ""
    ensures Lined(StandardData(s)) == "" && Lined(ReadData(s)) == ""
  {
    NothingIsRead(NO_FIELDS);
    assert Interpretation(s, EMPTY) == [] && StandardData(s) == [] && ReadData(s) == [];
  }

  lemma YieldText(f: Fields, es: seq<Event>)
    ensures Text(Yield(f) + es) == Lined(f.data) + Text(es)
  {
    TextMore(Yield(f), es);
    if f.data != [] { LinedIsJoined(f.data); }
  }

  lemma ReadStep(s: string, f: Fields)
    requires LineEnd(s) < |s|
    ensures var e := LineEnd(s);
            && ReadData(s) == DataIn(ChompAt(s, e)) + ReadData(s[e + 1..])
            && Interpret(s, f) == if ChompAt(s, e) == "" then Yield(f) + Interpret(s[e + 1..], NO_FIELDS)
                                  else Interpret(s[e + 1..], TakeLine(f, ChompAt(s, e)))
  {
    hide DataIn, ChompAt, TakeLine, Yield, LineEnd;
  }

  /** So does the reader. */
  lemma {:induction false} ReaderKeepsData(s: string, f: Fields, z: nat)
    requires BlankAt(s, z, |s|)
    ensures Text(Interpret(s, f)) == Lined(f.data) + Lined(ReadData(s))
    decreases |s|
  {
    hide BlankAt, LineEnd, TakeLine, ChompAt, Text, Lined, DataIn, ReadData, Yield, Interpret;
    EndIsBlank(s, z);
    ReadStep(s, f);
    var e := LineEnd(s);
    var line, rest := ChompAt(s, e), s[e + 1..];
    if line == "" {
      BlankHasNoData(line, ReadData(rest));
      YieldText(f, Interpret(rest, NO_FIELDS));
      NothingPending();
      if z == 0 { EmptySaysNothing(rest); } else { ReaderKeepsData(rest, NO_FIELDS, z - e - 1); }
    } else {
      DataTaken(f, line);
      LinedJoin(f.data, DataIn(line));
      LinedJoin(DataIn(line), ReadData(rest));
      ReaderKeepsData(rest, TakeLine(f, line), z - e - 1);
      Reorder(Lined(f.data), Lined(DataIn(line)), Lined(ReadData(rest)));
    }
  }

  lemma EndIsBlank(s: string, z: nat)
    requires BlankAt(s, z, |s|)
    ensures var e := LineEnd(s);
            && e < |s| && (z == 0 ==> e + 1 == |s| && ChompAt(s, e) == "")
            && (z > 0 ==> e < z && BlankAt(s[e + 1..], z - e - 1, |s| - e - 1))
  {
  }

  lemma DataTaken(f: Fields, line: string)
    ensures TakeLine(f, line).data == f.data + DataIn(line)
  {
    DataLinesAreData(f, line);
    if IsData(line) { ColonOfData(line); }
  }

  // ------------------------------------------------------------------- the same data

  predicate AllUnbroken(ls: seq<string>) { forall l :: l in ls ==> Unbroken(l) }

  /** The standard's data lines before a newline, and behind it. */
  lemma {:induction false} DataUpTo(s: string, m: nat) returns (head: seq<string>)
    requires 0 < m <= |s| && s[m - 1] == '\n'
    ensures StandardData(s) == head + StandardData(s[m..])
    decreases |s|
  {
    hide LineStop, NextLine, IsData, DataIn, StandardData;
    var k := LineStop(s);
    var n := NextLineBy(s, m);
    DataStep(s);
    head := DataIn(s[..k]);
    if n < m {
      var more := DataUpTo(s[n..], m - n);
      assert s[n..][m - n..] == s[m..];
      assert head + (more + StandardData(s[m..])) == head + more + StandardData(s[m..]);
      head := head + more;
    }
  }

  lemma UnbrokenData(line: string)
    requires IsData(line) && Unbroken(ValueOf(line))
    ensures Unbroken(line)
  {
    ColonOfData(line);
    assert Unbroken("data") && Unbroken(":") && Unbroken(" ");
    if |line| > 4 {
      var tail, value := line[5..], ValueOf(line);
      assert line == "data" + ":" + tail;
      assert tail == value || tail == " " + value;
    } else {
      assert line == line[..4];
    }
  }

  /** A data line without a carriage return is a line of the standard. */
  lemma UnbrokenIsLine(s: string, e: nat)
    requires e == LineEnd(s) < |s| && IsData(ChompAt(s, e)) && Unbroken(ValueOf(ChompAt(s, e)))
    ensures var k := LineStop(s); k < |s| && s[..k] == ChompAt(s, e) && NextLine(s, k) == e + 1
  {
    hide IsData, ValueOf, LineStop, LineEnd;
    var line := ChompAt(s, e);
    UnbrokenData(line);
    forall i | 0 <= i < |line| ensures !EndsLine(s[i]) {
      assert line[i] in line && line[i] == s[i];
    }
    StopIs(s, |line|);
  }

  /** The standard finds all the data lines of the reader, if none holds a carriage
      return; so it finds the same ones if it finds as many. */
  lemma {:induction false} SameDataIfAsMany(s: string)
    requires AllUnbroken(ReadData(s))
    ensures |ReadData(s)| <= |StandardData(s)|
    ensures |ReadData(s)| == |StandardData(s)| ==> ReadData(s) == StandardData(s)
    decreases |s|
  {
    hide LineEnd, LineStop, NextLine, IsData, ValueOf, ChompAt, StandardData, Unbroken;
    var e := LineEnd(s);
    if e < |s| {
      var line, rest := ChompAt(s, e), s[e + 1..];
      assert ReadData(s) == DataIn(line) + ReadData(rest);
      SameDataIfAsMany(rest);
      if IsData(line) {
        assert ValueOf(line) in ReadData(s);
        UnbrokenIsLine(s, e);
        assert StandardData(s) == [ValueOf(line)] + StandardData(rest) by { DataStep(s); }
      } else {
        var head := DataUpTo(s, e + 1);
        assert [] + StandardData(rest) == StandardData(rest) && [] + ReadData(rest) == ReadData(rest);
      }
    }
  }

  predicate OneLine(s: string) { '\n' !in s }

  lemma {:induction false} NewlinesCount(ls: seq<string>)
    requires forall l :: l in ls ==> OneLine(l)
    ensures multiset(Lined(ls))['\n'] == |ls|
  {
    if ls != [] {
      assert OneLine(ls[0]) && multiset(ls[0])['\n'] == 0;
      NewlinesCount(ls[1..]);
      assert multiset("\n")['\n'] == 1;
    }
  }

  lemma {:induction false} DataAreLines(s: string)
    ensures forall l :: l in StandardData(s) ==> OneLine(l)
    ensures forall l :: l in ReadData(s) ==> OneLine(l)
    decreases |s|
  {
    hide LineEnd, LineStop, NextLine, IsData, ValueOf, ChompAt, OneLine;
    var k, e := LineStop(s), LineEnd(s);
    if k < |s| {
      DataAreLines(s[NextLine(s, k)..]);
      ValueIsLine(s[..k]);
      assert OneLine(s[..k]) by { StopIsLine(s, k); }
    }
    if e < |s| {
      DataAreLines(s[e + 1..]);
      ValueIsLine(ChompAt(s, e));
      assert OneLine(ChompAt(s, e)) by { ChompIsLine(s, e); }
    }
  }

  lemma StopIsLine(s: string, k: nat)
    requires k == LineStop(s)
    ensures OneLine(s[..k])
  {
    assert forall i :: 0 <= i < k ==> !EndsLine(s[i]);
  }

  lemma ChompIsLine(s: string, e: nat)
    requires e == LineEnd(s)
    ensures OneLine(ChompAt(s, e))
  {
  }

  lemma ValueIsLine(line: string)
    ensures IsData(line) && OneLine(line) ==> OneLine(ValueOf(line))
  {
  }

  lemma {:induction false} LinedIsUnbroken(ls: seq<string>)
    ensures Unbroken(Lined(ls)) <==> AllUnbroken(ls)
  {
    if ls != [] {
      LinedIsUnbroken(ls[1..]);
      assert forall l :: l in ls <==> l == ls[0] || l in ls[1..];
      EndIsUnbroken(ls[0]);
      assert forall c :: c in Lined(ls) <==> c in ls[0] + "\n" || c in Lined(ls[1..]);
    } else {
      EmptyIsUnbroken();
    }
  }

  /** What can be told of a text without comparing the data: the standard dispatches under
      the names the reader does; and if it dispatches, no event of the reader holds a
      carriage return, and both find as many data lines. */
  predicate InStep(x: string) {
    && Names(x, false, "") == NamesOf(Drain(x).0)
    && (Drain(x).0 != [] ==>
          (forall e :: e in Drain(x).0 ==> Unbroken(e.data)) && |StandardData(x)| == |ReadData(x)|)
  }

  lemma TextOfOne(es: seq<Event>)
    requires |es| == 1
    ensures Text(es) == es[0].data + "\n"
  {
    assert Text(es[1..]) == "";
  }

  /** A finished piece. */
  lemma {:induction false} PieceIsExact(x: string, z: nat)
    requires BlankAt(x, z, |x|) && |Drain(x).0| == 1
    ensures Agrees(x) <==> InStep(x)
  {
    hide BlankAt, Drain, Interpretation, Interpret, Names, StandardData, ReadData, Unbroken, AllUnbroken;
    var read, meant := Drain(x).0, Interpretation(x, EMPTY);
    ReaderGoesByLines(x);
    NamesAreDispatched(x, EMPTY);
    StandardKeepsData(x, EMPTY, z);
    ReaderKeepsData(x, NO_FIELDS, z);
    TextOfOne(read);
    LinedIsUnbroken(ReadData(x));
    assert Lined(ReadData(x)) == read[0].data + "\n" && (Unbroken(read[0].data) <==> AllUnbroken(ReadData(x))) by {
      EndIsUnbroken(read[0].data);
    }
    EmptyIsUnbroken();
    StandardIsUnbroken(x, EMPTY);
    if Agrees(x) {
      assert read[0] in meant && Unbroken(read[0].data);
      DataAreLines(x);
      NewlinesCount(StandardData(x));
      NewlinesCount(ReadData(x));
      assert forall e :: e in read ==> e == read[0];
    }
    if InStep(x) {
      assert read[0] in read;
      SameDataIfAsMany(x);
      assert |meant| == 1 by { assert |NamesOf(meant)| == 1; }
      TextOfOne(meant);
      assert meant[0].data + "\n" == read[0].data + "\n";
      SameEnd(meant[0].data, read[0].data);
      assert meant[0].name == NamesOf(meant)[0] == NamesOf(read)[0] == read[0].name;
      assert meant[0] == read[0] && meant == read;
    }
  }

  lemma EndIsUnbroken(s: string)
    ensures Unbroken(s + "\n") <==> Unbroken(s)
  {
    assert forall c :: c in s + "\n" <==> c in s || c == '\n';
  }

  lemma SameEnd(a: string, b: string)
    requires a + "\n" == b + "\n"
    ensures a == b
  {
    assert |a| == |b| && a == (a + "\n")[..|a|] && b == (b + "\n")[..|b|];
  }

  lemma {:induction false} QuietIsExact(x: string)
    requires Drain(x).0 == []
    ensures Agrees(x) <==> InStep(x)
  {
    hide Drain, Interpretation, Names, StandardData, ReadData;
    NamesAreDispatched(x, EMPTY);
  }

  lemma {:induction false} PiecesAreExact(s: string)
    ensures forall x :: x in Pieces(s) ==> (Agrees(x) <==> InStep(x))
    decreases |s|
  {
    hide Search, BoundaryAt, Interpretation, Drain, InStep, Agrees, BlankAt, FrameEvents;
    var p := Search(s);
    if p < |s| {
      var m := p + BoundaryAt(s, p);
      PieceIsFrame(s, p);
      BoundaryEndsBlank(s[..m], p);
      if Drain(s[..m]).0 == [] { QuietIsExact(s[..m]); } else { PieceIsExact(s[..m], LineBreakAt(s[..m], p)); }
      PiecesAreExact(s[m..]);
      assert Pieces(s) == [s[..m]] + Pieces(s[m..]);
    } else {
      DrainDone(s);
      QuietIsExact(s);
      assert Pieces(s) == [s];
    }
  }

  /** For every text, carriage returns wherever they stand: the reader follows the
      standard if and only if every piece of it is in step. */
  lemma ReaderFollowsExactly(s: string)
    ensures Drain(s).0 == Interpretation(s, EMPTY) <==> forall x :: x in Pieces(s) ==> InStep(x)
  {
    hide Drain, Interpretation, Pieces, InStep;
    AgreementIsLocal(s);
    PiecesAreExact(s);
    assert forall x :: x in Pieces(s) ==> (Agrees(x) <==> InStep(x));
  }
}
