/** The layout told without a stack, a buffer or a loop: what stands in front of
    each token follows from the tokens around it. The printer produces exactly
    this. */
module SqlReference {
  import opened Options
  import opened SqlLexer
  import opened SqlPrinter
  import opened SqlLayout
  import opened SqlTheorems

  // ------------------------------------------------------------ around one token

  predicate Mark(t: Token, text: string) { t.kind == Punctuation && t.text == text }

  /** Places of the parentheses that are open in front of token `i`. */
  function Opened(ts: seq<Token>, i: nat): (o: seq<nat>)
    requires i <= |ts|
    ensures forall k :: 0 <= k < |o| ==> o[k] < i
  {
    if i == 0 then []
    else
      var o := Opened(ts, i - 1);
      if Mark(ts[i - 1], "(") then o + [i - 1]
      else if Mark(ts[i - 1], ")") && o != [] then o[..|o| - 1]
      else o
  }

  /** Token `i` belongs to a statement, not to the inside of an expression. */
  predicate InStatement(ts: seq<Token>, i: nat)
    requires i <= |ts|
  {
    var o := Opened(ts, i);
    o == [] || OpensSubquery(UpperAt(ts, o[|o| - 1] + 1))
  }

  function Before(ts: seq<Token>, i: nat): Option<Token>
    requires i <= |ts|
  {
    if i == 0 then None else Some(ts[i - 1])
  }

  predicate ClauseAt(ts: seq<Token>, i: nat)
    requires i < |ts|
  {
    ts[i].kind == Keyword && InStatement(ts, i) && StartsClause(Before(ts, i), UpperAt(ts, i), UpperAt(ts, i + 1))
  }

  predicate ConditionAt(ts: seq<Token>, i: nat)
    requires i < |ts|
  {
    ts[i].kind == Keyword && InStatement(ts, i) && UpperAt(ts, i) in {"ON", "AND", "OR"}
  }

  predicate SelectAt(ts: seq<Token>, i: nat)
    requires i < |ts|
  {
    ClauseAt(ts, i) && UpperAt(ts, i) == "SELECT"
  }

  predicate Quantifies(ts: seq<Token>, i: nat) { UpperAt(ts, i) == "DISTINCT" || UpperAt(ts, i) == "ALL" }

  /** DISTINCT or ALL right behind a SELECT, or behind others of them there. */
  predicate OfSelect(ts: seq<Token>, i: nat)
    requires i < |ts|
  {
    i > 0 && Quantifies(ts, i) && (SelectAt(ts, i - 1) || OfSelect(ts, i - 1))
  }

  // ------------------------------------------------------------------ line breaks

  /** The indent of the line that token `i` opens for itself. */
  function OwnBreak(ts: seq<Token>, i: nat): Option<int>
    requires i < |ts|
  {
    var depth := |Opened(ts, i)|;
    if OfSelect(ts, i) then None
    else if ts[i].kind == Comment then (if IsLineComment(ts[i]) then Some(depth) else None)
    else if ts[i].kind == Punctuation then (if ts[i].text == ")" && InStatement(ts, i) then Some(depth - 1) else None)
    else if ClauseAt(ts, i) then Some(depth)
    else if ConditionAt(ts, i) then Some(depth + 1)
    else None
  }

  /** The indent of the line that token `i - 1` leaves behind it. */
  function LeftBreak(ts: seq<Token>, i: nat): Option<int>
    requires 0 < i <= |ts|
  {
    var t, depth := ts[i - 1], |Opened(ts, i - 1)|;
    if SelectAt(ts, i - 1) || OfSelect(ts, i - 1) then (if i < |ts| && Quantifies(ts, i) then None else Some(depth + 1))
    else if IsLineComment(t) || Mark(t, ";") then Some(0)
    else if Mark(t, "(") then (if OpensSubquery(UpperAt(ts, i)) then Some(depth + 1) else None)
    else if Mark(t, ",") && InStatement(ts, i - 1) then Some(depth + 1)
    else None
  }

  function BreakAt(ts: seq<Token>, i: nat): Option<int>
    requires i < |ts|
  {
    if OwnBreak(ts, i).Some? then OwnBreak(ts, i) else if i > 0 then LeftBreak(ts, i) else None
  }

  predicate SpacedAt(ts: seq<Token>, i: nat)
    requires i < |ts|
  {
    if OfSelect(ts, i) || ts[i].kind == Comment then true
    else if ts[i].kind == Punctuation then
      ts[i].text == "(" && i > 0 && !TightAfter(Before(ts, i)) && ts[i - 1].kind != Function
    else !TightAfter(Before(ts, i))
  }

  /** What is written in front of token `i`. */
  function GapAt(ts: seq<Token>, i: nat): string
    requires i < |ts|
  {
    var b := BreakAt(ts, i);
    if b.Some? then (if i == 0 then "" else "\n") + Indent(b.value)
    else if i > 0 && SpacedAt(ts, i) then " "
    else ""
  }

  /** The first `i` tokens, each behind its gap. */
  function Laid(ts: seq<Token>, i: nat): string
    requires i <= |ts|
  {
    if i == 0 then "" else Laid(ts, i - 1) + GapAt(ts, i - 1) + Shown(ts[i - 1])
  }

  // ---------------------------------------------------------- the printer's states

  predicate FramesAt(ts: seq<Token>, i: nat, stack: seq<Frame>)
    requires i <= |ts|
  {
    var o := Opened(ts, i);
    && |stack| == |o| + 1 && stack[0] == Frame(0, true)
    && forall k :: 0 <= k < |o| ==> stack[k + 1] == Frame(k + 1, OpensSubquery(UpperAt(ts, o[k] + 1)))
  }

  /** The page in front of token `i`, with the break `b` pending. */
  predicate PageAt(i: nat, b: Option<int>, page: Page) {
    if i == 0 then page == Page([], "")
    else if b.Some? then page.lines != [] && page.line == Indent(b.value)
    else !Blank(page.line) && Tidy(page)
  }

  predicate At(ts: seq<Token>, i: nat, b: Option<int>, st: State)
    requires i <= |ts|
  {
    && st.stack != [] && FramesAt(ts, i, st.stack) && st.prev == Before(ts, i) && PageAt(i, b, st.page)
    && Text(st.page) == Laid(ts, i)
  }

  lemma TopAt(ts: seq<Token>, i: nat, stack: seq<Frame>)
    requires i <= |ts| && FramesAt(ts, i, stack)
    ensures Top(stack) == Frame(|Opened(ts, i)|, InStatement(ts, i))
  {
  }

  /** Appending in place honours the pending break. */
  lemma AppendAt(i: nat, b: Option<int>, page: Page, t: Token, spaced: bool)
    requires PageAt(i, b, page) && (i == 0 ==> b.None?) && Visible(t)
    ensures var r := Append(page, t.text, spaced);
            && !Blank(r.line) && (!IsLineComment(t) ==> Tidy(r))
            && Text(r) == Text(page)
                 + (if b.Some? then "\n" + Indent(b.value) else if i > 0 && spaced then " " else "") + Shown(t)
  {
    AppendWrites(page, t.text, spaced);
  }

  /** Opening a line overrides the pending break. */
  lemma OpenAt(i: nat, b: Option<int>, page: Page, level: int, t: Token)
    requires PageAt(i, b, page) && (i == 0 ==> b.None?) && Visible(t)
    ensures var r := Append(Open(page, level), t.text, false);
            && !Blank(r.line) && (!IsLineComment(t) ==> Tidy(r))
            && Text(r) == Text(page) + ((if i == 0 then "" else "\n") + Indent(level)) + Shown(t)
  {
    OpenKeepsText(page, level);
    AppendWrites(Open(page, level), t.text, false);
    assert "" + Indent(level) == Indent(level);
  }

  lemma BreakLeaves(i: nat, page: Page, level: int)
    requires !Blank(page.line)
    ensures PageAt(i + 1, Some(level), Open(page, level)) && Text(Open(page, level)) == Text(page)
    ensures PageAt(i + 1, Some(0), Flush(page)) && Text(Flush(page)) == Text(page)
  {
    OpenKeepsText(page, level);
    FlushKeepsText(page);
  }

  // ---------------------------------------------------------------- one token

  function Pending(ts: seq<Token>, i: nat): Option<int>
    requires i <= |ts|
  {
    if i == 0 then None else LeftBreak(ts, i)
  }

  /** The state that `Print` leaves behind token `i`; the break behind a SELECT is
      not made yet. */
  predicate Printed(ts: seq<Token>, i: nat, st: State)
    requires i < |ts|
  {
    At(ts, i + 1, if SelectAt(ts, i) then None else LeftBreak(ts, i + 1), st)
  }

  lemma {:induction false} SameFrames(ts: seq<Token>, i: nat, stack: seq<Frame>)
    requires i < |ts| && FramesAt(ts, i, stack) && !Mark(ts[i], "(") && !Mark(ts[i], ")")
    ensures FramesAt(ts, i + 1, stack) && |Opened(ts, i + 1)| == |Opened(ts, i)|
  {
  }

  lemma {:induction false} PushFrame(ts: seq<Token>, i: nat, stack: seq<Frame>)
    requires i < |ts| && FramesAt(ts, i, stack) && Mark(ts[i], "(")
    ensures FramesAt(ts, i + 1, stack + [Frame(|Opened(ts, i)| + 1, OpensSubquery(UpperAt(ts, i + 1)))])
  {
    hide OpensSubquery, Upper;
    var o := Opened(ts, i);
    assert Opened(ts, i + 1) == o + [i];
  }

  lemma {:induction false} PopFrame(ts: seq<Token>, i: nat, stack: seq<Frame>)
    requires i < |ts| && FramesAt(ts, i, stack) && Mark(ts[i], ")")
    ensures FramesAt(ts, i + 1, if |stack| > 1 then stack[..|stack| - 1] else stack)
  {
  }

  /** The page after token `i`, written on a line of its own. */
  lemma WriteOwn(ts: seq<Token>, i: nat, st: State, level: int)
    requires i < |ts| && At(ts, i, Pending(ts, i), st) && Visible(ts[i]) && OwnBreak(ts, i) == Some(level)
    ensures var p := Append(Open(st.page, level), ts[i].text, false);
            !Blank(p.line) && (!IsLineComment(ts[i]) ==> Tidy(p)) && Text(p) == Laid(ts, i + 1)
  {
    hide Append, Open, Text, Visible, FramesAt, Shown, OwnBreak, IsLineComment, LeftBreak, SpacedAt, Tidy, PageAt;
    OpenAt(i, Pending(ts, i), st.page, level, ts[i]);
  }

  /** The page after token `i`, written where the page stands. */
  lemma WriteInline(ts: seq<Token>, i: nat, st: State)
    requires i < |ts| && At(ts, i, Pending(ts, i), st) && Visible(ts[i]) && OwnBreak(ts, i) == None
    ensures var p := Append(st.page, ts[i].text, SpacedAt(ts, i));
            !Blank(p.line) && (!IsLineComment(ts[i]) ==> Tidy(p)) && Text(p) == Laid(ts, i + 1)
  {
    hide Append, Open, Text, Visible, FramesAt, Shown, OwnBreak, IsLineComment, LeftBreak, SpacedAt, Tidy, PageAt;
    AppendAt(i, Pending(ts, i), st.page, ts[i], SpacedAt(ts, i));
    if i == 0 { assert "" + "" == ""; }
  }

  lemma {:induction false} PrintComment(ts: seq<Token>, i: nat, st: State)
    requires i < |ts| && At(ts, i, Pending(ts, i), st) && !OfSelect(ts, i) && Visible(ts[i])
    requires ts[i].kind == Comment
    ensures Printed(ts, i, Print(ts[i], UpperAt(ts, i + 1), st))
  {
    hide Append, Open, Flush, Text, Visible, FramesAt, Laid, Opened, InStatement, Tidy, Blank, Pending;
    TopAt(ts, i, st.stack);
    SameFrames(ts, i, st.stack);
    assert !SelectAt(ts, i);
    if StartsWithDashes(ts[i].text) {
      WriteOwn(ts, i, st, |Opened(ts, i)|);
      BreakLeaves(i, Append(Open(st.page, |Opened(ts, i)|), ts[i].text, false), 0);
    } else {
      WriteInline(ts, i, st);
      assert LeftBreak(ts, i + 1) == None;
    }
  }

  lemma {:induction false} PrintMark(ts: seq<Token>, i: nat, st: State)
    requires i < |ts| && At(ts, i, Pending(ts, i), st) && !OfSelect(ts, i) && Visible(ts[i])
    requires ts[i].kind == Punctuation
    ensures Printed(ts, i, Print(ts[i], UpperAt(ts, i + 1), st))
  {
    hide Append, Open, Flush, Text, Visible, FramesAt, Laid, Opened, InStatement, Tidy, Blank, Pending, OpensSubquery,
        OfSelect, TightAfter;
    TopAt(ts, i, st.stack);
    assert !SelectAt(ts, i);
    var depth := |Opened(ts, i)|;
    if OwnBreak(ts, i).Some? {
      PopFrame(ts, i, st.stack);
      WriteOwn(ts, i, st, depth - 1);
    } else {
      WriteInline(ts, i, st);
      BreakLeaves(i, Append(st.page, ts[i].text, SpacedAt(ts, i)), depth + 1);
      if ts[i].text == "(" { PushFrame(ts, i, st.stack); }
      else if ts[i].text == ")" { PopFrame(ts, i, st.stack); }
      else { SameFrames(ts, i, st.stack); }
    }
  }

  lemma {:induction false} PrintWord(ts: seq<Token>, i: nat, st: State)
    requires i < |ts| && At(ts, i, Pending(ts, i), st) && !OfSelect(ts, i) && Visible(ts[i])
    requires ts[i].kind != Comment && ts[i].kind != Punctuation
    ensures Printed(ts, i, Print(ts[i], UpperAt(ts, i + 1), st))
  {
    hide Append, Open, Flush, Text, Visible, FramesAt, Laid, Opened, InStatement, Tidy, Blank, Pending, OfSelect,
        TightAfter, StartsClause;
    var depth := |Opened(ts, i)|;
    TopAt(ts, i, st.stack);
    SameFrames(ts, i, st.stack);
    assert !IsLineComment(ts[i]);
    assert SelectAt(ts, i) || LeftBreak(ts, i + 1) == None;
    if ClauseAt(ts, i) {
      WriteOwn(ts, i, st, depth);
    } else if ConditionAt(ts, i) {
      WriteOwn(ts, i, st, depth + 1);
    } else {
      WriteInline(ts, i, st);
    }
  }

  // ----------------------------------------------------------------- whole runs

  lemma QuantifierIsNoMark(ts: seq<Token>, i: nat)
    requires i < |ts| && Visible(ts[i]) && (Quantifies(ts, i) || UpperAt(ts, i) == "SELECT")
    ensures !Mark(ts[i], "(") && !Mark(ts[i], ")") && !IsLineComment(ts[i])
  {
    WordsBreak(ts[i]);
    assert |Upper(ts[i].text)| == |ts[i].text|;
  }

  lemma OfSelectHere(ts: seq<Token>, i: nat)
    requires 0 < i < |ts| && Quantifies(ts, i) && (SelectAt(ts, i - 1) || OfSelect(ts, i - 1))
    ensures OfSelect(ts, i) && GapAt(ts, i) == " "
  {
    hide SelectAt, Quantifies, IsLineComment;
  }

  lemma {:induction false} AbsorbOne(ts: seq<Token>, i: nat, st: State)
    requires 0 < i < |ts| && At(ts, i, None, st) && Visible(ts[i])
    requires Quantifies(ts, i) && (SelectAt(ts, i - 1) || OfSelect(ts, i - 1))
    ensures OfSelect(ts, i)
    ensures At(ts, i + 1, None, st.(page := Append(st.page, ts[i].text, true), prev := Some(ts[i])))
  {
    hide Append, Text, Visible, FramesAt, Shown, SelectAt, OfSelect, Quantifies, Opened, GapAt, IsLineComment;
    OfSelectHere(ts, i);
    QuantifierIsNoMark(ts, i);
    SameFrames(ts, i, st.stack);
    AppendAt(i, None, st.page, ts[i], true);
  }

  /** DISTINCT and ALL behind a SELECT follow it on its line. */
  lemma {:induction false} AbsorbAt(ts: seq<Token>, i: nat, st: State)
    requires 0 < i <= |ts| && At(ts, i, None, st) && (SelectAt(ts, i - 1) || OfSelect(ts, i - 1))
    requires forall t :: t in ts ==> Visible(t)
    ensures var (j, r) := Absorb(ts, i, st);
            && i <= j && At(ts, j, None, r) && (SelectAt(ts, j - 1) || OfSelect(ts, j - 1)) && !Quantifies(ts, j)
    decreases |ts| - i
  {
    hide At, Append, Visible, SelectAt, OfSelect, Upper;
    if i < |ts| && Quantifies(ts, i) {
      AbsorbOne(ts, i, st);
      AbsorbAt(ts, i + 1, st.(page := Append(st.page, ts[i].text, true), prev := Some(ts[i])));
    }
  }

  lemma PrintAt(ts: seq<Token>, i: nat, st: State)
    requires i < |ts| && At(ts, i, Pending(ts, i), st) && !OfSelect(ts, i) && Visible(ts[i])
    ensures Printed(ts, i, Print(ts[i], UpperAt(ts, i + 1), st))
    ensures OpensSelect(ts[i], UpperAt(ts, i + 1), st) <==> SelectAt(ts, i)
  {
    hide Print, Printed, Text, Visible, FramesAt, Laid, Opened, StartsClause, InStatement, Pending, OfSelect, PageAt,
        Upper;
    TopAt(ts, i, st.stack);
    if ts[i].kind == Comment { PrintComment(ts, i, st); }
    else if ts[i].kind == Punctuation { PrintMark(ts, i, st); }
    else { PrintWord(ts, i, st); }
  }

  lemma BehindSelect(ts: seq<Token>, i: nat)
    requires 0 < i <= |ts| && (SelectAt(ts, i - 1) || OfSelect(ts, i - 1)) && !Quantifies(ts, i) && Visible(ts[i - 1])
    ensures Pending(ts, i) == Some(|Opened(ts, i)| + 1) && (i < |ts| ==> !OfSelect(ts, i))
  {
    hide Visible, Opened, SelectAt, Upper, Mark;
    assert Quantifies(ts, i - 1) || UpperAt(ts, i - 1) == "SELECT" by { OfSelectReads(ts, i - 1); }
    QuantifierIsNoMark(ts, i - 1);
    SameDepth(ts, i - 1);
  }

  lemma SelectLeaves(ts: seq<Token>, i: nat, printed: State)
    requires i < |ts| && SelectAt(ts, i) && Printed(ts, i, printed) && printed.stack != []
    requires forall t :: t in ts ==> Visible(t)
    ensures var (j, r) := Absorb(ts, i + 1, printed);
            At(ts, j, Pending(ts, j), r.(page := Open(r.page, Top(r.stack).base + 1)))
                && (j < |ts| ==> !OfSelect(ts, j))
  {
    hide Text, Visible, FramesAt, Laid, Opened, Open, SelectAt, OfSelect, Upper, Tidy, Blank, Top, Quantifies,
        Pending, Absorb, InStatement;
    AbsorbAt(ts, i + 1, printed);
    var (j, r) := Absorb(ts, i + 1, printed);
    TopAt(ts, j, r.stack);
    BehindSelect(ts, j);
    BreakLeaves(j - 1, r.page, |Opened(ts, j)| + 1);
  }

  lemma OfSelectReads(ts: seq<Token>, i: nat)
    requires i < |ts| && (SelectAt(ts, i) || OfSelect(ts, i))
    ensures Quantifies(ts, i) || UpperAt(ts, i) == "SELECT"
  {
  }

  lemma StepAt(ts: seq<Token>, i: nat, st: State)
    requires i < |ts| && st.stack != [] && At(ts, i, Pending(ts, i), st) && !OfSelect(ts, i)
    requires forall t :: t in ts ==> Visible(t)
    ensures var (j, r) := Step(ts, i, st); At(ts, j, Pending(ts, j), r) && (j < |ts| ==> !OfSelect(ts, j))
  {
    hide At, Print, Absorb, Visible, Open, SelectAt, OpensSelect, Upper, LeftBreak;
    PrintAt(ts, i, st);
    if SelectAt(ts, i) { SelectLeaves(ts, i, Print(ts[i], UpperAt(ts, i + 1), st)); }
  }

  lemma SameDepth(ts: seq<Token>, i: nat)
    requires i < |ts| && !Mark(ts[i], "(") && !Mark(ts[i], ")")
    ensures |Opened(ts, i + 1)| == |Opened(ts, i)|
  {
  }

  lemma {:induction false} RunAt(ts: seq<Token>, i: nat, st: State)
    requires i <= |ts| && At(ts, i, Pending(ts, i), st) && (i < |ts| ==> !OfSelect(ts, i))
    requires forall t :: t in ts ==> Visible(t)
    ensures Text(Run(ts, i, st).page) == Laid(ts, |ts|)
    decreases |ts| - i
  {
    hide Step, Visible, At, OfSelect, Pending, Laid;
    if i == |ts| {
      AtSaysText(ts, i, st);
    } else {
      assert st.stack != [] by { AtSaysText(ts, i, st); }
      StepAt(ts, i, st);
      RunAt(ts, Step(ts, i, st).0, Step(ts, i, st).1);
    }
  }

  lemma AtSaysText(ts: seq<Token>, i: nat, st: State)
    requires i <= |ts| && At(ts, i, Pending(ts, i), st)
    ensures st.stack != [] && Text(st.page) == Laid(ts, i)
  {
  }

  lemma PrintIsLaid(ts: seq<Token>)
    requires forall t :: t in ts ==> Visible(t)
    ensures PrintAll(ts) == Laid(ts, |ts|)
  {
    hide Visible, Run, Laid, Text, At, OfSelect;
    StartAt(ts);
    assert Pending(ts, 0) == None && (|ts| > 0 ==> !OfSelect(ts, 0)) by { NoneAtStart(ts); }
    RunAt(ts, 0, START);
  }

  lemma NoneAtStart(ts: seq<Token>)
    ensures Pending(ts, 0) == None && (|ts| > 0 ==> !OfSelect(ts, 0))
  {
  }

  /** The formatter's output, token by token: each stands behind the gap that its
      surroundings call for. */
  lemma FormatIsLaidOut(sql: string)
    ensures Format(sql) ==
      if Blank(sql) then "" else var ts := Significant(Tokens(Trim(sql))); Laid(ts, |ts|)
  {
    hide Format, Tokens, Significant, Trim, Blank, Visible, Laid;
    NeverFallsBack(sql);
    if !Blank(sql) {
      var ts := SourceIsVisible(sql);
      PrintIsLaid(ts);
    }
  }

  lemma StartAt(ts: seq<Token>)
    ensures At(ts, 0, None, START)
  {
  }
}
