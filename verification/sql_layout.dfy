/** The printed text seen as its tokens with blanks between them. Whatever the
    stack and the line buffer do, the output is a weave of the token texts and
    of gaps, and each gap suits the two tokens it stands between. */
module SqlLayout {
  import opened Options
  import opened SqlLexer
  import opened SqlLexemes
  import opened SqlPrinter

  /** The text a token is printed with. Only line comments, and a last token
      that lacks its closing mark, can end in blanks at all. */
  function Shown(t: Token): string { TrimEnd(t.text) }

  /** gaps[0] + ts[0] + gaps[1] + ts[1] + ... */
  function Weave(gaps: seq<string>, ts: seq<Token>): string
    requires |gaps| == |ts|
  {
    if ts == [] then "" else gaps[0] + Shown(ts[0]) + Weave(gaps[1..], ts[1..])
  }

  /** Gluing `b` to `a` would make the scanner read on: a plain number takes a
      dot, and a dot takes a digit. */
  predicate Clash(a: Token, b: Token) {
    || (a.kind == Number && !HasExponent(a.text) && b.text == ".")
    || (a.text == "." && b.kind == Number && b.text != "" && IsDigit(b.text[0]))
  }

  predicate NoClash(ts: seq<Token>) {
    forall i :: 0 <= i < |ts| - 1 ==> !Clash(ts[i], ts[i + 1])
  }

  /** A token that ends in a digit or a dot. Nothing breaks the line behind it. */
  predicate Sticky(t: Token) {
    t.text != "" && !IsLineComment(t) && IsDigitOrDot(t.text[|t.text| - 1])
  }

  /** What the printer may leave between `prev` and `t`. */
  predicate GapFits(prev: Option<Token>, gap: string, t: Token) {
    && Blank(gap)
    && (prev.Some? ==>
      && (IsLineComment(prev.value) ==> gap != "" && gap[0] == '\n')
      && (gap == "" ==> TightAfter(prev) || t.kind == Punctuation)
      && (Clash(prev.value, t) ==> gap == "")
      && (t.text == "." && Sticky(prev.value) ==> gap == ""))
  }

  predicate GapsFit(prev: Option<Token>, gaps: seq<string>, ts: seq<Token>)
    requires |gaps| == |ts|
    decreases |ts|
  {
    ts == [] || (GapFits(prev, gaps[0], ts[0]) && GapsFit(Some(ts[0]), gaps[1..], ts[1..]))
  }

  /** A token whose printed text is not lost in trimming. */
  predicate Visible(t: Token) {
    && t.text != "" && !IsSpace(t.text[0])
    && (IsLineComment(t) || !IsSpace(t.text[|t.text| - 1]))
    && (t.text == "." ==> t.kind == Punctuation)
    && (t.kind == Comment ==> t.text != ".")
    && (t.kind == Number ==> IsDigitOrDot(t.text[0]))
  }

  // -------------------------------------------------------------- line buffer

  /** The pending line carries no blanks that a flush would cut off. */
  predicate Tidy(p: Page) { Blank(p.line) || TrimEnd(p.line) == p.line }

  function Gap(p: Page, spaced: bool): string {
    if Blank(p.line) then (if p.lines == [] then p.line else "\n" + p.line)
    else if spaced then " "
    else ""
  }

  lemma {:induction false} TrimEndBlank(s: string)
    requires Blank(s)
    ensures TrimEnd(s) == ""
  {
    if s != "" { TrimEndBlank(s[..|s| - 1]); }
  }

  /** Blanks behind a visible prefix go, blanks inside it stay. */
  lemma {:induction false} TrimEndSplit(a: string, b: string)
    requires b != "" && !IsSpace(b[0])
    ensures TrimEnd(a + b) == a + TrimEnd(b) && TrimEnd(b) != ""
    decreases |b|
  {
    if !IsSpace(b[|b| - 1]) {
      assert (a + b)[|a + b| - 1] == b[|b| - 1];
    } else {
      var c := b[..|b| - 1];
      assert (a + b)[..|a + b| - 1] == a + c;
      TrimEndSplit(a, c);
    }
  }

  lemma JoinMore(lines: seq<string>, line: string)
    ensures Join(lines + [line]) == (if lines == [] then "" else Join(lines) + "\n") + line
  {
    assert (lines + [line])[..|lines|] == lines;
  }

  lemma TextOf(p: Page)
    ensures Blank(p.line) ==> Text(p) == Join(p.lines)
    ensures !Blank(p.line) ==>
      Text(p) == (if p.lines == [] then "" else Join(p.lines) + "\n") + TrimEnd(p.line)
  {
    if !Blank(p.line) { JoinMore(p.lines, TrimEnd(p.line)); }
  }

  lemma FlushKeepsText(p: Page)
    ensures Text(Flush(p)) == Text(p) && Flush(p).line == ""
    ensures Blank(p.line) ==> Flush(p).lines == p.lines
    ensures !Blank(p.line) ==> Flush(p).lines != []
  {
  }

  lemma OpenKeepsText(p: Page, level: int)
    ensures Text(Open(p, level)) == Text(p) && Blank(Open(p, level).line)
    ensures Blank(p.line) ==> Open(p, level).lines == p.lines
    ensures !Blank(p.line) ==> Open(p, level).lines != []
  {
  }

  lemma AppendLine(p: Page, text: string, spaced: bool)
    requires text != "" && !IsSpace(text[0])
    ensures !Blank(Append(p, text, spaced).line)
    ensures var glue := if !Blank(p.line) && spaced then " " else "";
            TrimEnd(Append(p, text, spaced).line) == p.line + glue + TrimEnd(text)
  {
    var glue := if !Blank(p.line) && spaced then " " else "";
    TrimEndSplit(p.line + glue, text);
    assert Append(p, text, spaced).line[|p.line + glue|] == text[0];
  }

  lemma Regroup(a: string, b: string, c: string, d: string)
    ensures a + (b + c + d) == (a + b) + c + d
    ensures (a + b) + "" + d == (a + b) + d
    ensures (a + b) + c == a + (b + c)
    ensures "" + a == a
  {
  }

  /** Appending writes the gap and the text, whatever the page looked like. */
  lemma AppendWrites(p: Page, text: string, spaced: bool)
    requires Tidy(p)
    requires text != "" && !IsSpace(text[0])
    ensures Text(Append(p, text, spaced)) == Text(p) + Gap(p, spaced) + TrimEnd(text)
    ensures !Blank(Append(p, text, spaced).line)
    ensures TrimEnd(text) == text ==> Tidy(Append(p, text, spaced))
  {
    var after := Append(p, text, spaced);
    AppendLine(p, text, spaced);
    TextOf(after);
    TextOf(p);
    var front := if p.lines == [] then "" else Join(p.lines) + "\n";
    var glue := if !Blank(p.line) && spaced then " " else "";
    Regroup(front, p.line, glue, TrimEnd(text));
    if Blank(p.line) && p.lines != [] {
      Regroup(Join(p.lines), "\n", p.line, "");
    }
  }

  // ------------------------------------------------------------------ printer

  /** Between tokens: the page is tidy and agrees with the last token. */
  predicate Ready(st: State) {
    && st.stack != [] && Settled(st.prev, st.page)
  }

  predicate Settled(prev: Option<Token>, page: Page) {
    && Tidy(page)
    && (prev.None? ==> page == Page([], ""))
    && (prev.Some? ==>
      && (Blank(page.line) ==> page.lines != [])
      && (IsLineComment(prev.value) ==> page.line == "")
      && (Unbroken(prev.value) ==> !Blank(page.line)))
  }

  predicate Unbroken(t: Token) { t.kind == Number || t.text == "." || Sticky(t) }

  /** Appending a token in place. */
  lemma InlineWrites(prev: Option<Token>, page: Page, t: Token, spaced: bool) returns (gap: string)
    requires Settled(prev, page) && Visible(t) && !IsLineComment(t)
    requires spaced || TightAfter(prev) || t.kind == Punctuation
    requires t.text == "." || (t.kind == Number && TightAfter(prev)) ==> !spaced
    ensures Settled(Some(t), Append(page, t.text, spaced)) && !Blank(Append(page, t.text, spaced).line)
    ensures Text(Append(page, t.text, spaced)) == Text(page) + gap + Shown(t)
    ensures GapFits(prev, gap, t)
  {
    AppendWrites(page, t.text, spaced);
    gap := Gap(page, spaced);
  }

  /** Appending a token on a line of its own. */
  lemma NewLineWrites(prev: Option<Token>, page: Page, level: int, t: Token) returns (gap: string)
    requires Settled(prev, page) && Visible(t) && t.kind != Number && t.text != "."
    ensures !IsLineComment(t) ==> Settled(Some(t), Append(Open(page, level), t.text, false))
    ensures !Blank(Append(Open(page, level), t.text, false).line)
    ensures Text(Append(Open(page, level), t.text, false)) == Text(page) + gap + Shown(t)
    ensures GapFits(prev, gap, t)
  {
    OpenKeepsText(page, level);
    AppendWrites(Open(page, level), t.text, false);
    gap := Gap(Open(page, level), false);
  }

  /** Breaking the line behind a token that is neither a number nor a dot. */
  lemma BreakSettles(t: Token, page: Page, level: int)
    requires !Blank(page.line) && !Unbroken(t)
    ensures Settled(Some(t), Flush(page)) && Text(Flush(page)) == Text(page)
    ensures !IsLineComment(t) ==> Settled(Some(t), Open(page, level)) && Text(Open(page, level)) == Text(page)
  {
    FlushKeepsText(page);
    OpenKeepsText(page, level);
  }

  lemma PrintPunctuationWrites(t: Token, next: string, st: State) returns (gap: string)
    requires Ready(st) && Visible(t) && t.kind == Punctuation
    ensures Ready(PrintPunctuation(t, next, st)) && PrintPunctuation(t, next, st).prev == Some(t)
    ensures Text(PrintPunctuation(t, next, st).page) == Text(st.page) + gap + Shown(t)
    ensures GapFits(st.prev, gap, t)
  {
    hide Text, Shown, TrimEnd, Settled, Flush, Append, Open, GapFits, IsSpace;
    var top := Top(st.stack);
    if t.text == "(" {
      var spaced := st.prev.Some? && !TightAfter(st.prev) && st.prev.value.kind != Function;
      gap := InlineWrites(st.prev, st.page, t, spaced);
      BreakSettles(t, Append(st.page, t.text, spaced), top.base + 1);
    } else if t.text == ")" && top.subquery {
      gap := NewLineWrites(st.prev, st.page, top.base - 1, t);
    } else {
      gap := InlineWrites(st.prev, st.page, t, false);
      if t.text == "," || t.text == ";" {
        BreakSettles(t, Append(st.page, t.text, false), top.base + 1);
      }
    }
  }

  lemma PrintWrites(t: Token, next: string, st: State) returns (gap: string)
    requires Ready(st) && Visible(t)
    ensures Ready(Print(t, next, st)) && Print(t, next, st).prev == Some(t)
    ensures Text(Print(t, next, st).page) == Text(st.page) + gap + Shown(t)
    ensures GapFits(st.prev, gap, t)
    ensures t.kind == Keyword ==> !Blank(Print(t, next, st).page.line)
  {
    hide StartsClause, Flush, Open, Append, Text, TrimEnd, Shown, PrintPunctuation, IsSpace;
    var base := Top(st.stack).base;
    if t.kind == Comment {
      if StartsWithDashes(t.text) {
        gap := NewLineWrites(st.prev, st.page, base, t);
        BreakSettles(t, Append(Open(st.page, base), t.text, false), 0);
      } else {
        gap := InlineWrites(st.prev, st.page, t, true);
      }
    } else if t.kind == Punctuation {
      gap := PrintPunctuationWrites(t, next, st);
    } else if ClauseToken(t, next, st) {
      gap := NewLineWrites(st.prev, st.page, base, t);
    } else if ConditionToken(t, st) {
      gap := NewLineWrites(st.prev, st.page, base + 1, t);
    } else {
      gap := InlineWrites(st.prev, st.page, t, !TightAfter(st.prev));
    }
  }

  // ---------------------------------------------------------------- whole runs

  lemma {:induction false} WeaveConcat(g1: seq<string>, t1: seq<Token>, g2: seq<string>, t2: seq<Token>)
    requires |g1| == |t1| && |g2| == |t2|
    ensures Weave(g1 + g2, t1 + t2) == Weave(g1, t1) + Weave(g2, t2)
  {
    hide Shown;
    if t1 == [] {
      assert g1 + g2 == g2 && t1 + t2 == t2;
    } else {
      WeaveConcat(g1[1..], t1[1..], g2, t2);
      assert (g1 + g2)[1..] == g1[1..] + g2 && (t1 + t2)[1..] == t1[1..] + t2;
    }
  }

  lemma {:induction false} GapsFitConcat(prev: Option<Token>, g1: seq<string>, t1: seq<Token>, g2: seq<string>,
      t2: seq<Token>)
    requires |g1| == |t1| && |g2| == |t2| && GapsFit(prev, g1, t1)
    requires GapsFit(if t1 == [] then prev else Some(t1[|t1| - 1]), g2, t2)
    ensures GapsFit(prev, g1 + g2, t1 + t2)
    decreases |t1|
  {
    if t1 == [] {
      assert g1 + g2 == g2 && t1 + t2 == t2;
    } else {
      GapsFitConcat(Some(t1[0]), g1[1..], t1[1..], g2, t2);
      assert (g1 + g2)[1..] == g1[1..] + g2 && (t1 + t2)[1..] == t1[1..] + t2;
    }
  }

  /** From `a` to `b` the printer wrote exactly `ts`, spaced by `gaps`. */
  predicate Wrote(a: State, gaps: seq<string>, ts: seq<Token>, b: State) {
    && |gaps| == |ts|
    && Text(b.page) == Text(a.page) + Weave(gaps, ts)
    && GapsFit(a.prev, gaps, ts)
    && b.prev == if ts == [] then a.prev else Some(ts[|ts| - 1])
  }

  lemma WroteOne(a: State, gap: string, t: Token, b: State)
    requires Text(b.page) == Text(a.page) + gap + Shown(t)
    requires GapFits(a.prev, gap, t) && b.prev == Some(t)
    ensures Wrote(a, [gap], [t], b)
  {
    assert Weave([gap], [t]) == gap + Shown(t) + Weave([], []) == gap + Shown(t);
    Regroup(Text(a.page), gap, Shown(t), "");
  }

  lemma WroteNone(st: State, ts: seq<Token>)
    requires ts == []
    ensures Wrote(st, [], ts, st)
  {
    assert Text(st.page) + "" == Text(st.page);
  }

  lemma WroteMore(a: State, g1: seq<string>, t1: seq<Token>, b: State, g2: seq<string>, t2: seq<Token>, c: State)
    requires Wrote(a, g1, t1, b) && Wrote(b, g2, t2, c)
    ensures Wrote(a, g1 + g2, t1 + t2, c)
  {
    WeaveConcat(g1, t1, g2, t2);
    GapsFitConcat(a.prev, g1, t1, g2, t2);
    Regroup(Text(a.page), Weave(g1, t1), Weave(g2, t2), "");
  }

  /** A word that spells SELECT, DISTINCT or ALL may be followed by a line break. */
  lemma WordsBreak(t: Token)
    requires Visible(t)
    requires Upper(t.text) == "SELECT" || Upper(t.text) == "DISTINCT" || Upper(t.text) == "ALL"
    ensures !Unbroken(t) && !IsLineComment(t)
  {
    var n := |t.text| - 1;
    assert Upper(t.text)[0] == UpperChar(t.text[0]) && Upper(t.text)[n] == UpperChar(t.text[n]);
  }

  lemma {:induction false} AbsorbWrites(ts: seq<Token>, i: nat, st: State) returns (gaps: seq<string>)
    requires i <= |ts| && Ready(st) && st.prev.Some? && !Blank(st.page.line)
    requires !Unbroken(st.prev.value) && !IsLineComment(st.prev.value)
    requires forall t :: t in ts ==> Visible(t)
    ensures var (j, r) := Absorb(ts, i, st);
            && Ready(r) && r.prev.Some? && !Blank(r.page.line)
            && !Unbroken(r.prev.value) && !IsLineComment(r.prev.value)
            && Wrote(st, gaps, ts[i..j], r)
    decreases |ts| - i
  {
    gaps := [];
    if i < |ts| && (UpperAt(ts, i) == "DISTINCT" || UpperAt(ts, i) == "ALL") {
      var t := ts[i];
      WordsBreak(t);
      var st' := st.(page := Append(st.page, t.text, true), prev := Some(t));
      var gap := InlineWrites(st.prev, st.page, t, true);
      var rest := AbsorbWrites(ts, i + 1, st');
      WroteOne(st, gap, t, st');
      var (j, r) := Absorb(ts, i, st);
      WroteMore(st, [gap], [t], st', rest, ts[i + 1..j], r);
      assert [t] + ts[i + 1..j] == ts[i..j];
      gaps := [gap] + rest;
    }
  }

  lemma ListWrites(ts: seq<Token>, i: nat, st: State) returns (gaps: seq<string>)
    requires i <= |ts| && Ready(st) && st.prev.Some? && !Blank(st.page.line)
    requires !Unbroken(st.prev.value) && !IsLineComment(st.prev.value)
    requires forall t :: t in ts ==> Visible(t)
    ensures var (j, r) := Absorb(ts, i, st);
            var broken := r.(page := Open(r.page, Top(r.stack).base + 1));
            Ready(broken) && Wrote(st, gaps, ts[i..j], broken)
  {
    hide Weave, GapsFit, Text, Visible, Settled, Open, Absorb, IsLineComment;
    gaps := AbsorbWrites(ts, i, st);
    var (j, r) := Absorb(ts, i, st);
    BreakSettles(r.prev.value, r.page, Top(r.stack).base + 1);
  }

  lemma StepWrites(ts: seq<Token>, i: nat, st: State) returns (gaps: seq<string>)
    requires i < |ts| && Ready(st)
    requires forall t :: t in ts ==> Visible(t)
    ensures Ready(Step(ts, i, st).1) && Wrote(st, gaps, ts[i..Step(ts, i, st).0], Step(ts, i, st).1)
  {
    hide Weave, GapsFit, Text, Settled, Print, Absorb, StartsClause;
    var t, next := ts[i], UpperAt(ts, i + 1);
    var printed := Print(t, next, st);
    var gap := PrintWrites(t, next, st);
    WroteOne(st, gap, t, printed);
    if OpensSelect(t, next, st) {
      WordsBreak(t);
      var rest := ListWrites(ts, i + 1, printed);
      var (j, after) := Step(ts, i, st);
      WroteMore(st, [gap], [t], printed, rest, ts[i + 1..j], after);
      assert [t] + ts[i + 1..j] == ts[i..j];
      gaps := [gap] + rest;
    } else {
      assert ts[i..i + 1] == [t];
      gaps := [gap];
    }
  }

  lemma {:induction false} RunWrites(ts: seq<Token>, i: nat, st: State) returns (gaps: seq<string>)
    requires i <= |ts| && Ready(st)
    requires forall t :: t in ts ==> Visible(t)
    ensures Wrote(st, gaps, ts[i..], Run(ts, i, st))
    decreases |ts| - i
  {
    hide Weave, GapsFit, Text, Settled, Step, Visible, Wrote;
    gaps := [];
    if i == |ts| {
      WroteNone(st, ts[i..]);
    } else {
      var (j, st') := Step(ts, i, st);
      var first := StepWrites(ts, i, st);
      var rest := RunWrites(ts, j, st');
      WroteMore(st, first, ts[i..j], st', rest, ts[j..], Run(ts, j, st'));
      assert ts[i..j] + ts[j..] == ts[i..];
      gaps := first + rest;
    }
  }

  lemma StartIsReady()
    ensures Ready(START) && Text(START.page) == ""
  {
  }

  /** The output is nothing but the token texts, in order, with blanks between
      them: nothing is reordered, inserted, dropped or re-cased. */
  lemma PrintIsWeave(ts: seq<Token>) returns (gaps: seq<string>)
    requires forall t :: t in ts ==> Visible(t)
    ensures |gaps| == |ts| && PrintAll(ts) == Weave(gaps, ts) && GapsFit(None, gaps, ts)
  {
    hide Weave, GapsFit, Visible, Run, Text, Ready;
    StartIsReady();
    gaps := RunWrites(ts, 0, START);
    assert ts[0..] == ts && "" + Weave(gaps, ts) == Weave(gaps, ts);
  }
}
