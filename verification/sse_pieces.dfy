/** Frame by frame: the reader and the standard agree on a text if and only if they agree
    on each of its frames taken alone. */
module SsePieces {
  import opened SseReader
  import opened SseLines
  import opened SseRoundTrip
  import opened SseStandard

  predicate Agrees(s: string) { Drain(s).0 == Interpretation(s, EMPTY) }

  /** The frames of `s`, each with the blank line behind it, and what is left. */
  function Pieces(s: string): seq<string>
    decreases |s|
  {
    var p := Search(s);
    if p == |s| then [s] else [s[..p + BoundaryAt(s, p)]] + Pieces(s[p + BoundaryAt(s, p)..])
  }

  // ------------------------------------------------------------------- blank lines

  /** A blank line starts at `z` and ends at `m`, for the reader and the standard. */
  predicate BlankAt(s: string, z: nat, m: nat) {
    && z < m <= |s| && (z > 0 ==> s[z - 1] == '\n') && s[m - 1] == '\n'
    && (m == z + 1 || (m == z + 2 && s[z] == '\r'))
  }

  lemma BoundaryEndsBlank(s: string, p: nat)
    requires p <= |s| && BoundaryAt(s, p) > 0
    ensures BlankAt(s, LineBreakAt(s, p), p + BoundaryAt(s, p))
  {
  }

  /** The standard's first line ends at the blank line at the latest. */
  lemma FirstLineFits(s: string, z: nat, m: nat)
    requires BlankAt(s, z, m)
    ensures var k := LineStop(s);
            && k <= z && k < |s| && (z == 0 ==> NextLine(s, k) == m)
            && (z > 0 ==> NextLine(s, k) <= z && BlankAt(s[NextLine(s, k)..], z - NextLine(s, k), m - NextLine(s, k)))
  {
    var k := LineStop(s);
    if z > 0 {
      var n := NextLine(s, k);
      assert n < z ==> s[n..][z - n - 1] == s[z - 1];
      assert s[n..][m - n - 1] == s[m - 1] && s[n..][z - n] == s[z];
    }
  }

  lemma StandardStep(s: string, b: Buffers)
    requires LineStop(s) < |s|
    ensures var k := LineStop(s);
            Interpretation(s, b) ==
              if k == 0 then Dispatch(b) + Interpretation(s[NextLine(s, k)..], EMPTY)
              else Interpretation(s[NextLine(s, k)..], ProcessLine(b, s[..k]))
  {
    hide Dispatch, ProcessLine;
  }

  lemma {:induction false} PrefixStep(s: string, z: nat, m: nat)
    requires BlankAt(s, z, m)
    ensures var k := LineStop(s);
            && k < m && LineStop(s[..m]) == k && NextLine(s[..m], k) == NextLine(s, k) <= m && s[..m][..k] == s[..k]
            && s[..m][NextLine(s, k)..] == s[NextLine(s, k)..][..m - NextLine(s, k)]
  {
    FirstLineFits(s, z, m);
    StopIs(s[..m], LineStop(s));
  }

  /** Nothing that the standard builds up crosses a blank line. */
  lemma {:induction false} BlankLineCuts(s: string, b: Buffers, z: nat, m: nat)
    requires BlankAt(s, z, m)
    ensures Interpretation(s, b) == Interpretation(s[..m], b) + Interpretation(s[m..], EMPTY)
    decreases |s|
  {
    hide BlankAt, LineStop, NextLine, Interpretation, ProcessLine, Dispatch;
    FirstLineFits(s, z, m);
    PrefixStep(s, z, m);
    var k := LineStop(s);
    var n := NextLine(s, k);
    StandardStep(s, b);
    StandardStep(s[..m], b);
    if z == 0 {
      assert s[..m][n..] == "" && m == n;
      StandardNothing();
      assert Dispatch(b) + [] == Dispatch(b);
    } else {
      BlankLineCuts(s[n..], if k == 0 then EMPTY else ProcessLine(b, s[..k]), z - n, m - n);
      assert s[n..][m - n..] == s[m..];
    }
  }

  // ------------------------------------------------------------ as many events at least

  /** Data that have been built up are dispatched at the blank line. */
  lemma {:induction false} DataGetOut(s: string, b: Buffers, z: nat)
    requires BlankAt(s, z, |s|) && b.data != ""
    ensures Interpretation(s, b) != []
    decreases |s|
  {
    hide BlankAt, LineStop, NextLine, Interpretation, ProcessLine;
    FirstLineFits(s, z, |s|);
    StandardStep(s, b);
    var k := LineStop(s);
    if k > 0 {
      DataOnlyGrow(b, s[..k]);
      DataGetOut(s[NextLine(s, k)..], ProcessLine(b, s[..k]), z - NextLine(s, k));
    }
  }

  lemma DataOnlyGrow(b: Buffers, line: string)
    requires b.data != ""
    ensures ProcessLine(b, line).data != ""
  {
  }

  /** A newline always ends a line of the standard, whatever came before it. */
  lemma {:induction false} NewlineIsSeen(s: string, b: Buffers, m: nat) returns (es: seq<Event>, b': Buffers)
    requires 0 < m <= |s| && s[m - 1] == '\n'
    ensures Interpretation(s, b) == es + Interpretation(s[m..], b')
    decreases |s|
  {
    hide LineStop, NextLine, Interpretation, ProcessLine, Dispatch;
    var k := LineStop(s);
    var n := NextLineBy(s, m);
    StandardStep(s, b);
    var next := if k == 0 then EMPTY else ProcessLine(b, s[..k]);
    es, b' := if k == 0 then Dispatch(b) else [], next;
    if n < m {
      var more;
      more, b' := NewlineIsSeen(s[n..], next, m - n);
      assert s[n..][m - n..] == s[m..];
      es := es + more;
    }
  }

  lemma {:induction false} NextLineBy(s: string, m: nat) returns (n: nat)
    requires 0 < m <= |s| && s[m - 1] == '\n'
    ensures LineStop(s) < |s| && n == NextLine(s, LineStop(s)) <= m
    ensures n < m ==> s[n..][m - n - 1] == '\n'
  {
    n := NextLine(s, LineStop(s));
  }

  /** A line that the reader takes for data. */
  predicate IsData(line: string) { line == "data" || (|line| > 4 && line[..5] == "data:") }

  lemma ColonOfData(line: string)
    requires IsData(line)
    ensures |line| >= 4 && line[..4] == "data" && IndexOf(line, ':') == 4
    ensures |line| > 4 ==> line[4] == ':'
  {
    assert |line| > 4 ==> line[..5][..4] == line[..4] && line[4] == line[..5][4];
    var head := line[..4];
    assert head == "data" && forall i :: 0 <= i < 4 ==> line[i] == head[i] && head[i] != ':';
    if |line| > 4 { IndexIs(line, ':', 4); }
  }

  lemma DataLinesAreData(f: Fields, line: string)
    ensures IsData(line) <==> TakeLine(f, line).data != f.data
    ensures !IsData(line) ==> TakeLine(f, line).data == f.data
  {
    if IsData(line) {
      ColonOfData(line);
      var value := if |line| == 4 then "" else DropSpace(line[5..]);
      assert line[0] == line[..4][0] && line[0] == 'd';
      assert TakeLine(f, line).data == f.data + [value];
    } else {
      var k := IndexOf(line, ':');
      if |line| > 4 { assert line[..5] == line[..4] + [line[4]] && "data:" == "data" + [':']; }
    }
  }

  lemma StandardTakesData(b: Buffers, line: string)
    requires IsData(line)
    ensures ProcessLine(b, line).data != ""
  {
    ColonOfData(line);
  }

  /** A line of the reader that is data begins with a line of the standard that is. */
  lemma {:induction false} FirstSublineIsData(s: string, e: nat)
    requires e == LineEnd(s) < |s| && IsData(ChompAt(s, e))
    ensures var k := LineStop(s); k < |s| && IsData(s[..k])
  {
    var line, k := ChompAt(s, e), LineStop(s);
    if k < e {
      assert s[k] == '\r';
      if k < |line| {
        assert line[k] == s[k] == '\r';
        assert k >= 5 by {
          assert |line| > 4;
          forall i | 0 <= i < 5 ensures line[i] != '\r' { assert line[i] == line[..5][i]; }
        }
        assert s[..k][..5] == line[..5];
      } else {
        assert s[..k] == line;
      }
    } else {
      assert s[..k] == line;
    }
  }

  /** Where the reader yields something up to a blank line, so does the standard. */
  lemma {:induction false} SomethingGetsOut(s: string, f: Fields, b: Buffers, z: nat)
    requires BlankAt(s, z, |s|) && f.data == [] && Interpret(s, f) != []
    ensures Interpretation(s, b) != []
    decreases |s|
  {
    hide BlankAt, LineStop, LineEnd, NextLine, Interpretation, ProcessLine, TakeLine, Dispatch, IsData, ChompAt;
    var e := LineEnd(s);
    var line := ChompAt(s, e);
    if line != "" && IsData(line) {
      FirstSublineIsData(s, e);
      FirstLineFits(s, z, |s|);
      StandardStep(s, b);
      var k := LineStop(s);
      StandardTakesData(b, s[..k]);
      assert k > 0 by { DataIsNotBlank(s[..k]); }
      DataGetOut(s[NextLine(s, k)..], ProcessLine(b, s[..k]), z - NextLine(s, k));
    } else {
      DataLinesAreData(f, line);
      var es, b' := NewlineIsSeen(s, b, e + 1);
      var next := if line == "" then NO_FIELDS else TakeLine(f, line);
      assert Interpret(s, f) == Interpret(s[e + 1..], next);
      BlankFollows(s, z, e, next);
      SomethingGetsOut(s[e + 1..], next, b', z - e - 1);
    }
  }

  lemma DataIsNotBlank(line: string)
    requires IsData(line)
    ensures line != ""
  {
  }

  lemma {:induction false} BlankFollows(s: string, z: nat, e: nat, f: Fields)
    requires BlankAt(s, z, |s|) && e == LineEnd(s) < |s| && Interpret(s[e + 1..], f) != []
    ensures e < z && BlankAt(s[e + 1..], z - e - 1, |s| - e - 1)
  {
    NothingIsRead(f);
    assert |s[e + 1..]| > 0;
  }

  lemma NothingIsRead(f: Fields)
    ensures Interpret("", f) == []
  {
  }

  // ------------------------------------------------------------------ piece by piece

  /** The first piece on its own, and what is behind it. */
  lemma {:induction false} FirstPiece(s: string)
    requires Search(s) < |s|
    ensures var p := Search(s);
            var m := p + BoundaryAt(s, p);
            && Drain(s).0 == Drain(s[..m]).0 + Drain(s[m..]).0 && |Drain(s[..m]).0| <= 1
            && Interpretation(s, EMPTY) == Interpretation(s[..m], EMPTY) + Interpretation(s[m..], EMPTY)
            && |Drain(s[..m]).0| <= |Interpretation(s[..m], EMPTY)|
  {
    hide Search, BoundaryAt, Interpretation, FrameEvents, Interpret, BlankAt;
    var p := Search(s);
    var m := p + BoundaryAt(s, p);
    var first := s[..m];
    BoundaryEndsBlank(s, p);
    BlankLineCuts(s, EMPTY, LineBreakAt(s, p), m);
    PieceIsFrame(s, p);
    BoundaryEndsBlank(first, p);
    DrainStep(s);
    ReaderGoesByLines(first);
    if Drain(first).0 != [] { SomethingGetsOut(first, NO_FIELDS, EMPTY, LineBreakAt(first, p)); }
  }

  lemma {:induction false} PieceIsFrame(s: string, p: nat)
    requires p == Search(s) < |s|
    ensures var first := s[..p + BoundaryAt(s, p)];
            && BoundaryAt(first, p) == BoundaryAt(s, p) > 0
            && Drain(first).0 == FrameEvents(s[..p]) && |FrameEvents(s[..p])| <= 1
  {
    hide Search, Drain, FrameEvents;
    var first := s[..p + BoundaryAt(s, p)];
    forall i: nat | i < p ensures BoundaryAt(first, i) == 0 { BoundaryOfPrefix(s, p, i); }
    SearchIsFirst(first, p);
    DrainStep(first);
    DrainDone("");
    assert first[p + BoundaryAt(first, p)..] == "" && first[..p] == s[..p];
    assert |FrameEvents(s[..p])| <= 1 by { FrameYieldsOne(s[..p]); }
  }

  lemma FrameYieldsOne(frame: string)
    ensures |FrameEvents(frame)| <= 1
  {
    hide TakeLines, SplitLines;
  }

  lemma BoundaryOfPrefix(s: string, p: nat, i: nat)
    requires p <= |s| && i < p && BoundaryAt(s, i) == 0
    ensures BoundaryAt(s[..p + BoundaryAt(s, p)], i) == 0
  {
  }

  /** The standard yields at least as many events as the reader, for every text. */
  lemma {:induction false} AtLeastAsMany(s: string)
    ensures |Drain(s).0| <= |Interpretation(s, EMPTY)|
    decreases |s|
  {
    hide Search, BoundaryAt, Interpretation, Drain;
    var p := Search(s);
    if p < |s| {
      var m := p + BoundaryAt(s, p);
      FirstPiece(s);
      AtLeastAsMany(s[m..]);
      assert |Drain(s).0| == |Drain(s[..m]).0| + |Drain(s[m..]).0|;
    } else {
      DrainDone(s);
    }
  }

  lemma SplitAlike<T>(a: seq<T>, b: seq<T>, c: seq<T>, d: seq<T>)
    requires |a| <= |c| && |b| <= |d|
    ensures a + b == c + d <==> a == c && b == d
  {
    if a + b == c + d {
      assert |a| == |c|;
      assert a == (a + b)[..|a|] && c == (c + d)[..|a|] && b == (a + b)[|a|..] && d == (c + d)[|a|..];
    }
  }

  /** For every text, carriage returns wherever they stand: the reader follows the
      standard if and only if it does on each piece taken alone. */
  lemma {:induction false} AgreementIsLocal(s: string)
    ensures Agrees(s) <==> forall x :: x in Pieces(s) ==> Agrees(x)
    decreases |s|
  {
    hide Search, BoundaryAt, Interpretation, Drain;
    var p := Search(s);
    if p < |s| {
      var m := p + BoundaryAt(s, p);
      FirstPiece(s);
      AtLeastAsMany(s[m..]);
      SplitAlike(Drain(s[..m]).0, Drain(s[m..]).0, Interpretation(s[..m], EMPTY), Interpretation(s[m..], EMPTY));
      AgreementIsLocal(s[m..]);
      assert Agrees(s) <==> Agrees(s[..m]) && Agrees(s[m..]);
      assert Pieces(s) == [s[..m]] + Pieces(s[m..]);
      assert s[..m] in Pieces(s) && forall x :: x in Pieces(s) <==> x == s[..m] || x in Pieces(s[m..]);
    } else {
      assert Pieces(s) == [s] && s in [s];
    }
  }

  lemma {:induction false} PiecesLoseNothing(s: string)
    ensures Concat(Pieces(s)) == s
    decreases |s|
  {
    hide Search, BoundaryAt;
    var p := Search(s);
    if p < |s| {
      PiecesLoseNothing(s[p + BoundaryAt(s, p)..]);
      assert Pieces(s)[1..] == Pieces(s[p + BoundaryAt(s, p)..]);
    } else {
      assert [s][1..] == [] && s + "" == s;
    }
  }
}
