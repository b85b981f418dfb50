/** The reader as a machine that takes one line at a time: cutting at blank lines and
    parsing whole frames comes to the same, for every text. */
module SseLines {
  import opened SseReader

  /** Process the stream line by line: a blank line dispatches what the lines
      before it built up, and a line without its end is not processed. */
  function Interpret(s: string, f: Fields): seq<Event>
    decreases |s|
  {
    var k := LineEnd(s);
    if k == |s| then []
    else
      var line := ChompAt(s, k);
      if line == "" then Yield(f) + Interpret(s[k + 1..], NO_FIELDS)
      else Interpret(s[k + 1..], TakeLine(f, line))
  }

  /** The text starts with a finished line that is blank. */
  predicate BlankFirst(s: string) {
    LineEnd(s) < |s| && ChompAt(s, LineEnd(s)) == ""
  }

  lemma BreakIsBlankLine(s: string, q: nat)
    requires q <= |s|
    ensures LineBreakAt(s, q) > q <==> BlankFirst(s[q..])
    ensures BlankFirst(s[q..]) ==> LineBreakAt(s, q) == q + LineEnd(s[q..]) + 1
  {
    var t := s[q..];
    if q < |s| { assert t[0] == s[q]; }
    if q + 1 < |s| { assert t[1] == s[q + 1]; }
  }

  lemma {:induction false} BoundaryShifts(s: string, k: nat, i: nat)
    requires k + i <= |s|
    ensures BoundaryAt(s, k + i) == BoundaryAt(s[k..], i)
  {
    forall j: nat | j <= |s| - k
      ensures LineBreakAt(s, k + j) == k + LineBreakAt(s[k..], j)
    {
      if k + j < |s| { assert s[k..][j] == s[k + j]; }
      if k + j + 1 < |s| { assert s[k..][j + 1] == s[k + j + 1]; }
    }
  }

  /** A match that begins in the first line takes in its end, and needs a blank
      line behind it. */
  lemma {:induction false} BoundaryInFirstLine(s: string, i: nat)
    requires LineEnd(s) < |s| && i <= LineEnd(s)
    ensures var k := LineEnd(s);
            BoundaryAt(s, i) > 0 <==> BlankFirst(s[k + 1..]) && (i == k || (i == k - 1 && s[i] == '\r'))
    ensures BoundaryAt(s, i) > 0 ==> i + BoundaryAt(s, i) == LineEnd(s) + 1 + LineEnd(s[LineEnd(s) + 1..]) + 1
  {
    BreakIsBlankLine(s, LineEnd(s) + 1);
  }

  lemma SearchIsFirst(s: string, p: nat)
    requires p <= |s| && (p < |s| ==> BoundaryAt(s, p) > 0)
    requires forall i: nat :: i < p ==> BoundaryAt(s, i) == 0
    ensures Search(s) == p
  {
  }

  lemma NoBoundaryBefore(s: string, k: nat, p: nat)
    requires k == LineEnd(s) < |s| && p <= k
    requires p == k || !BlankFirst(s[k + 1..]) || (p == k - 1 && s[p] == '\r')
    requires p == k && k > 0 && s[k - 1] == '\r' ==> !BlankFirst(s[k + 1..])
    ensures forall i: nat :: i < p ==> BoundaryAt(s, i) == 0
  {
    hide BoundaryAt, BlankFirst, LineEnd;
    forall i: nat | i < p ensures BoundaryAt(s, i) == 0 { BoundaryInFirstLine(s, i); }
  }

  /** With a blank second line, the first line is the frame. */
  lemma {:induction false} FrameIsFirstLine(s: string, k: nat)
    requires k == LineEnd(s) < |s| && BlankFirst(s[k + 1..])
    ensures Search(s) < |s|
    ensures s[..Search(s)] == ChompAt(s, k)
    ensures Search(s) + BoundaryAt(s, Search(s)) == k + 1 + LineEnd(s[k + 1..]) + 1
  {
    hide BoundaryAt, Search, BlankFirst, LineEnd;
    var p := if k > 0 && s[k - 1] == '\r' then k - 1 else k;
    NoBoundaryBefore(s, k, p);
    BoundaryInFirstLine(s, p);
    SearchIsFirst(s, p);
  }

  /** Otherwise the frame goes on behind the first line. */
  lemma {:induction false} FrameGoesOn(s: string, k: nat)
    requires k == LineEnd(s) < |s| && !BlankFirst(s[k + 1..])
    ensures Search(s) == k + 1 + Search(s[k + 1..])
    ensures BoundaryAt(s, Search(s)) == BoundaryAt(s[k + 1..], Search(s[k + 1..]))
  {
    hide BoundaryAt, BlankFirst, Search, LineEnd;
    var rest := s[k + 1..];
    var p := k + 1 + Search(rest);
    BoundaryShifts(s, k + 1, Search(rest));
    NoBoundaryBefore(s, k, k);
    BoundaryInFirstLine(s, k);
    forall i: nat | k < i < p
      ensures BoundaryAt(s, i) == 0
    {
      BoundaryShifts(s, k + 1, i - k - 1);
    }
    SearchIsFirst(s, p);
  }

  lemma LineEndIs(s: string, k: nat)
    requires k <= |s| && (k < |s| ==> s[k] == '\n')
    requires forall i :: 0 <= i < k ==> s[i] != '\n'
    ensures LineEnd(s) == k
  {
  }

  /** One line of `s[..p]` at a time. */
  lemma {:induction false} SplitFirst(s: string, p: nat)
    requires LineEnd(s) < p <= |s|
    ensures SplitLines(s[..p]) == [ChompAt(s, LineEnd(s))] + SplitLines(s[LineEnd(s) + 1..][..p - LineEnd(s) - 1])
  {
    hide LineEnd, SplitLines, ChompAt;
    var k, t := LineEnd(s), s[..p];
    LineEndOfPrefix(s, p);
    ChompOfPrefix(s, p, k);
    SplitUnfold(t);
    TailOfPrefix(s, p, k + 1);
  }

  lemma TailOfPrefix(s: string, p: nat, n: nat)
    requires n <= p <= |s|
    ensures s[..p][n..] == s[n..][..p - n]
  {
  }

  lemma LineEndOfPrefix(s: string, p: nat)
    requires LineEnd(s) < p <= |s|
    ensures LineEnd(s[..p]) == LineEnd(s)
  {
    LineEndIs(s[..p], LineEnd(s));
  }

  lemma ChompOfPrefix(s: string, p: nat, k: nat)
    requires k <= p <= |s|
    ensures ChompAt(s[..p], k) == ChompAt(s, k)
  {
  }

  lemma {:induction false} SplitUnfold(t: string)
    requires LineEnd(t) < |t|
    ensures SplitLines(t) == [ChompAt(t, LineEnd(t))] + SplitLines(t[LineEnd(t) + 1..])
  {
    hide LineEnd;
  }

  lemma SplitLine(line: string)
    requires LineEnd(line) == |line|
    ensures SplitLines(line) == [line]
    ensures forall f :: TakeLines(f, SplitLines(line)) == TakeLine(f, line)
  {
    assert [line][1..] == [];
  }

  lemma {:induction false} ChompHasNoEnd(s: string, k: nat)
    requires k == LineEnd(s)
    ensures LineEnd(ChompAt(s, k)) == |ChompAt(s, k)|
  {
  }

  lemma BlankTakesNothing()
    ensures TakeLine(NO_FIELDS, "") == NO_FIELDS && Yield(NO_FIELDS) == []
  {
  }

  lemma InterpretLine(s: string, f: Fields)
    requires LineEnd(s) < |s| && (f == NO_FIELDS || !BlankFirst(s))
    ensures Interpret(s, f) == Interpret(s[LineEnd(s) + 1..], TakeLine(f, ChompAt(s, LineEnd(s))))
  {
    hide LineEnd, TakeLine, Yield;
    BlankTakesNothing();
    var rest := Interpret(s[LineEnd(s) + 1..], NO_FIELDS);
    assert [] + rest == rest;
  }

  lemma InterpretBlank(s: string, f: Fields)
    requires BlankFirst(s)
    ensures Interpret(s, f) == Yield(f) + Interpret(s[LineEnd(s) + 1..], NO_FIELDS)
  {
  }

  lemma TakeFirst(f: Fields, line: string, lines: seq<string>)
    ensures TakeLines(f, [line] + lines) == TakeLines(TakeLine(f, line), lines)
  {
    assert ([line] + lines)[1..] == lines;
  }

  /** Up to its first boundary a stream dispatches exactly what the frame there
      yields. */
  lemma {:induction false} InterpretFrame(s: string, f: Fields)
    requires Search(s) < |s| && (f == NO_FIELDS || !BlankFirst(s))
    ensures var p := Search(s);
            Interpret(s, f) == Yield(TakeLines(f, SplitLines(s[..p]))) + Interpret(s[p + BoundaryAt(s, p)..], NO_FIELDS)
    decreases |s|
  {
    hide Search, BoundaryAt, SplitLines, TakeLine, TakeLines, Yield, Interpret, LineEnd, ChompAt;
    HasLineEnd(s);
    var k, p := LineEnd(s), Search(s);
    var rest := s[k + 1..];
    var f' := TakeLine(f, ChompAt(s, k));
    InterpretLine(s, f);
    if BlankFirst(rest) {
      FrameIsFirstLine(s, k);
      ChompHasNoEnd(s, k);
      SplitLine(s[..p]);
      InterpretBlank(rest, f');
      assert rest[LineEnd(rest) + 1..] == s[p + BoundaryAt(s, p)..];
    } else {
      FrameGoesOn(s, k);
      SplitFirst(s, p);
      TakeFirst(f, ChompAt(s, k), SplitLines(rest[..p - k - 1]));
      InterpretFrame(rest, f');
      assert rest[Search(rest) + BoundaryAt(rest, Search(rest))..] == s[p + BoundaryAt(s, p)..];
    }
  }

  lemma HasLineEnd(s: string)
    requires Search(s) < |s|
    ensures LineEnd(s) < |s|
  {
    var p := Search(s);
    assert exists i :: p <= i < |s| && s[i] == '\n';
  }

  /** Without a boundary nothing is dispatched. */
  lemma {:induction false} InterpretTail(s: string, f: Fields)
    requires Search(s) == |s| && (f == NO_FIELDS || !BlankFirst(s))
    ensures Interpret(s, f) == []
    decreases |s|
  {
    hide Search, BoundaryAt, TakeLine, Yield;
    var k := LineEnd(s);
    if k < |s| {
      BlankTakesNothing();
      if BlankFirst(s[k + 1..]) {
        FrameIsFirstLine(s, k);
      } else {
        FrameGoesOn(s, k);
        InterpretTail(s[k + 1..], TakeLine(f, ChompAt(s, k)));
      }
    }
  }

  /** Cutting at blank lines and parsing each frame is the line-by-line reading. */
  lemma {:induction false} ReaderGoesByLines(s: string)
    ensures Drain(s).0 == Interpret(s, NO_FIELDS)
    decreases |s|
  {
    hide Search, BoundaryAt, Interpret;
    var p := Search(s);
    if p == |s| {
      InterpretTail(s, NO_FIELDS);
    } else {
      InterpretFrame(s, NO_FIELDS);
      DrainStep(s);
      ReaderGoesByLines(s[p + BoundaryAt(s, p)..]);
    }
  }
}
