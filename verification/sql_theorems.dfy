/** The promises of `formatSql`, each over every input string. */
module SqlTheorems {
  import opened Options
  import opened SqlLexer
  import opened SqlLexemes
  import opened SqlTokens
  import opened SqlPrinter
  import opened SqlLayout
  import opened SqlRoundTrip
  import opened SqlFormatting

  // ------------------------------------------------------------- what is printed

  predicate ShowsAtEnd(s: string) { s != "" && !IsSpace(s[|s| - 1]) }

  lemma FirstTokenOf(s: string)
    requires s != ""
    ensures var n := TokenLength(s);
            var k := KindOf(s[..n], Peek(s[n..]));
            && Significant(Tokens(s)) == (if k == Whitespace then [] else [Token(k, s[..n])])
                + Significant(Tokens(s[n..]))
            && (k == Whitespace ==> IsSpace(s[n - 1]))
  {
    var n := TokenLength(s);
    CutToken(s);
    KindShowsClass(s[..n], Peek(s[n..]));
  }

  lemma {:induction false} LastTokenEnds(s: string)
    requires ShowsAtEnd(s)
    ensures var ts := Significant(Tokens(s)); ts != [] && ShowsAtEnd(ts[|ts| - 1].text)
    decreases |s|
  {
    hide TokenLength, KindOf, Tokens, Significant, IsSpace, Peek;
    var n := TokenLength(s);
    FirstTokenOf(s);
    if n == |s| {
      assert s[..n] == s && s[n..] == "";
      assert Significant(Tokens("")) == [] by { BlankReads(""); }
    } else {
      LastTokenEnds(s[n..]);
    }
  }

  lemma TrimShows(sql: string)
    ensures Trim(sql) == "" <==> Blank(sql)
    ensures var s := Trim(sql); s != "" ==> !IsSpace(s[|s| - 1]) && !IsSpace(s[0])
  {
    var body := TrimStart(sql);
    assert sql == sql[..Span(sql, IsSpace)] + body;
    if body != "" {
      assert sql[Span(sql, IsSpace)] == body[0];
      TrimEndKeeps(body, 0);
    } else {
      assert |sql| == Span(sql, IsSpace);
    }
  }

  lemma SourceIsVisible(sql: string) returns (ts: seq<Token>)
    requires !Blank(sql)
    ensures ts == Significant(Tokens(Trim(sql))) && ts != []
    ensures Coherent(ts) && forall t :: t in ts ==> Visible(t)
  {
    hide Tokens, Significant, Coherent, Visible, Trim, Blank;
    TrimShows(sql);
    ts := Significant(Tokens(Trim(sql)));
    ScanIsCoherent(Trim(sql));
    LastTokenEnds(Trim(sql));
    CoherentIsVisible(ts);
  }

  lemma WeaveShows(gaps: seq<string>, ts: seq<Token>)
    requires |gaps| == |ts| && ts != [] && Visible(ts[0])
    ensures !Blank(Weave(gaps, ts))
  {
    TrimEndKeeps(ts[0].text, 0);
    assert Weave(gaps, ts)[|gaps[0]|] == ts[0].text[0];
  }

  /** The formatter prints every non-blank source itself; the branch that falls
      back to the source is never taken. */
  lemma NeverFallsBack(sql: string)
    ensures Format(sql) == if Blank(sql) then "" else PrintAll(Significant(Tokens(Trim(sql))))
    ensures Blank(Format(sql)) <==> Blank(sql)
  {
    TrimShows(sql);
    if !Blank(sql) {
      var ts := SourceIsVisible(sql);
      var gaps := PrintIsWeave(ts);
      WeaveShows(gaps, ts);
    }
  }

  /** Only blanks move: the output is the source's token texts, in order, with
      blanks between them. */
  lemma OnlyBlanksMove(sql: string) returns (gaps: seq<string>)
    ensures var ts := Significant(Tokens(Trim(sql)));
            && |gaps| == |ts| && Format(sql) == Weave(gaps, ts)
            && forall g :: g in gaps ==> Blank(g)
  {
    NeverFallsBack(sql);
    TrimShows(sql);
    if Blank(sql) {
      gaps := [];
    } else {
      var ts := SourceIsVisible(sql);
      gaps := PrintIsWeave(ts);
      GapsAreBlank(None, gaps, ts);
    }
  }

  lemma {:induction false} GapsAreBlank(prev: Option<Token>, gaps: seq<string>, ts: seq<Token>)
    requires |gaps| == |ts| && GapsFit(prev, gaps, ts)
    ensures forall g :: g in gaps ==> Blank(g)
    decreases |ts|
  {
    if ts != [] {
      GapsAreBlank(Some(ts[0]), gaps[1..], ts[1..]);
    }
  }

  // ------------------------------------------------------------------ round trip

  /** The printer theorem. Scanning the formatted text gives back the tokens of
      the source, kinds and texts, exactly when no two neighbouring tokens of
      the source clash. */
  lemma FormatReadsBack(sql: string)
    ensures Significant(Tokens(Format(sql))) == ShownTokens(Significant(Tokens(sql)))
       <==> NoClash(Significant(Tokens(sql)))
  {
    var ts := Significant(Tokens(Trim(sql)));
    TrimReads(sql);
    ScanIsCoherent(sql);
    ScanIsCoherent(Trim(sql));
    ClashIsShown(Significant(Tokens(sql)));
    ClashIsShown(ts);
    NeverFallsBack(sql);
    if Blank(sql) {
      BlankReads(sql);
      BlankReads("");
    } else {
      var us := SourceIsVisible(sql);
      var gaps := PrintIsWeave(ts);
      WeaveReadsBack(None, gaps, ts);
    }
  }

  // ----------------------------------------------------------------- idempotence

  lemma {:induction false} ShownTwice(ts: seq<Token>)
    ensures ShownTokens(ShownTokens(ts)) == ShownTokens(ts)
  {
    if ts != [] {
      ShownTwice(ts[1..]);
      assert ShownTokens(ts)[1..] == ShownTokens(ts[1..]);
    }
  }

  lemma {:induction false} ShownAt(ts: seq<Token>, i: nat)
    requires i < |ts|
    ensures ShownTokens(ts)[i] == Token(ts[i].kind, Shown(ts[i]))
  {
    if i > 0 { ShownAt(ts[1..], i - 1); }
  }

  /** The states of two runs that differ in the trailing blanks of comments. */
  predicate Alike(a: State, b: State) {
    && a.stack == b.stack && a.page == b.page
    && (a.prev.Some? <==> b.prev.Some?)
    && (a.prev.Some? ==> b.prev.value == Token(a.prev.value.kind, Shown(a.prev.value)) && Visible(a.prev.value))
  }

  /** What the printer asks of a text it does not print. */
  predicate SameWord(a: string, b: string) {
    && (a == "(" <==> b == "(") && (a == "." <==> b == ".")
    && (Upper(a) in JOIN_PREFIX <==> Upper(b) in JOIN_PREFIX)
    && (OpensSubquery(Upper(a)) <==> OpensSubquery(Upper(b)))
    && (Upper(a) == "BY" <==> Upper(b) == "BY")
    && (Upper(a) == "JOIN" <==> Upper(b) == "JOIN")
    && (Upper(a) == "OUTER" <==> Upper(b) == "OUTER")
    && (Upper(a) == "DISTINCT" <==> Upper(b) == "DISTINCT")
    && (Upper(a) == "ALL" <==> Upper(b) == "ALL")
  }

  lemma DashesAreNoWord(s: string)
    requires s != "" && s[0] == '-'
    ensures SameWord(s, "-")
  {
    assert Upper(s)[0] == '-' && Upper("-")[0] == '-';
  }

  lemma ShownIsSameWord(t: Token)
    requires Visible(t)
    ensures SameWord(t.text, Shown(t))
    ensures !IsLineComment(t) ==> Shown(t) == t.text
    ensures IsLineComment(t) ==> StartsWithDashes(Shown(t))
  {
    if IsLineComment(t) {
      TrimEndKeeps(t.text, 1);
      DashesAreNoWord(t.text);
      DashesAreNoWord(Shown(t));
    }
  }

  lemma CommentLineTrimmed(p: Page, text: string, level: int)
    requires text != "" && !IsSpace(text[0])
    ensures Flush(Append(Open(p, level), text, false)) == Flush(Append(Open(p, level), TrimEnd(text), false))
  {
    var page := Open(p, level);
    TrimEndKeeps(text, 0);
    TrimEndSplit(page.line, text);
    TrimEndSplit(page.line, TrimEnd(text));
    assert page.line + "" + text == page.line + text;
    assert page.line + "" + TrimEnd(text) == page.line + TrimEnd(text);
    assert (page.line + text)[|page.line|] == text[0];
    assert (page.line + TrimEnd(text))[|page.line|] == text[0];
  }

  predicate SameNext(a: string, b: string) {
    && (OpensSubquery(a) <==> OpensSubquery(b))
    && (a == "BY" <==> b == "BY") && (a == "JOIN" <==> b == "JOIN") && (a == "OUTER" <==> b == "OUTER")
  }

  lemma ClauseAlike(t: Token, n1: string, n2: string, a: State, b: State)
    requires a.stack != [] && Alike(a, b) && SameNext(n1, n2)
    ensures ClauseToken(t, n1, a) <==> ClauseToken(t, n2, b)
    ensures ConditionToken(t, a) <==> ConditionToken(t, b)
    ensures TightAfter(a.prev) <==> TightAfter(b.prev)
  {
    if a.prev.Some? { ShownIsSameWord(a.prev.value); }
  }

  lemma PunctuationAlike(t: Token, n1: string, n2: string, a: State, b: State)
    requires a.stack != [] && Alike(a, b) && SameNext(n1, n2) && Visible(t) && t.kind == Punctuation
        && Shown(t) == t.text
    ensures Alike(PrintPunctuation(t, n1, a), PrintPunctuation(t, n2, b))
  {
    hide StartsClause, Visible, Shown, Flush, Open, Append;
    ClauseAlike(t, n1, n2, a, b);
  }

  lemma CommentAlike(t: Token, n1: string, n2: string, a: State, b: State)
    requires a.stack != [] && Alike(a, b) && Visible(t) && t.kind == Comment
    ensures Alike(Print(t, n1, a), Print(Token(t.kind, Shown(t)), n2, b))
  {
    hide TrimEnd, Open, Append, Flush;
    ShownIsSameWord(t);
    CommentLineTrimmed(a.page, t.text, Top(a.stack).base);
  }

  lemma PrintAlike(t: Token, n1: string, n2: string, a: State, b: State)
    requires a.stack != [] && Alike(a, b) && Visible(t) && SameNext(n1, n2)
    ensures Alike(Print(t, n1, a), Print(Token(t.kind, Shown(t)), n2, b))
    ensures OpensSelect(t, n1, a) <==> OpensSelect(Token(t.kind, Shown(t)), n2, b)
  {
    ClauseAlike(t, n1, n2, a, b);
    ShownIsSameWord(t);
    if t.kind == Comment {
      CommentAlike(t, n1, n2, a, b);
    } else {
      hide StartsClause, TrimEnd, Open, Append, Flush, PrintPunctuation, SameWord, OpensSubquery;
      assert Token(t.kind, Shown(t)) == t;
      if t.kind == Punctuation {
        PunctuationAlike(t, n1, n2, a, b);
      }
    }
  }

  lemma NextAlike(ts: seq<Token>, i: nat)
    requires forall t :: t in ts ==> Visible(t)
    ensures SameNext(UpperAt(ts, i), UpperAt(ShownTokens(ts), i))
    ensures UpperAt(ts, i) == "DISTINCT" <==> UpperAt(ShownTokens(ts), i) == "DISTINCT"
    ensures UpperAt(ts, i) == "ALL" <==> UpperAt(ShownTokens(ts), i) == "ALL"
  {
    if i < |ts| {
      ShownAt(ts, i);
      ShownIsSameWord(ts[i]);
    }
  }

  lemma QuantifierShows(t: Token)
    requires Visible(t) && (Upper(t.text) == "DISTINCT" || Upper(t.text) == "ALL")
    ensures Shown(t) == t.text
  {
    assert Upper(t.text)[0] == UpperChar(t.text[0]);
    ShownIsSameWord(t);
  }

  lemma {:induction false} AbsorbAlike(ts: seq<Token>, i: nat, a: State, b: State)
    requires i <= |ts| && a.stack != [] && Alike(a, b)
    requires forall t :: t in ts ==> Visible(t)
    ensures Absorb(ts, i, a).0 == Absorb(ShownTokens(ts), i, b).0
    ensures Alike(Absorb(ts, i, a).1, Absorb(ShownTokens(ts), i, b).1)
    decreases |ts| - i
  {
    hide Visible, Append, Upper, SameNext, Shown;
    NextAlike(ts, i);
    if i < |ts| && (UpperAt(ts, i) == "DISTINCT" || UpperAt(ts, i) == "ALL") {
      var t := ts[i];
      ShownAt(ts, i);
      QuantifierShows(t);
      AbsorbAlike(ts, i + 1, a.(page := Append(a.page, t.text, true), prev := Some(t)),
                  b.(page := Append(b.page, t.text, true), prev := Some(Token(t.kind, Shown(t)))));
    }
  }

  lemma {:induction false} RunAlike(ts: seq<Token>, i: nat, a: State, b: State)
    requires i <= |ts| && a.stack != [] && Alike(a, b)
    requires forall t :: t in ts ==> Visible(t)
    ensures Run(ts, i, a).page == Run(ShownTokens(ts), i, b).page
    decreases |ts| - i
  {
    hide Visible, Print, Absorb, ClauseToken, SameNext, Open;
    if i < |ts| {
      var us := ShownTokens(ts);
      var t := ts[i];
      ShownAt(ts, i);
      NextAlike(ts, i + 1);
      var n1, n2 := UpperAt(ts, i + 1), UpperAt(us, i + 1);
      PrintAlike(t, n1, n2, a, b);
      if OpensSelect(t, n1, a) {
        AbsorbAlike(ts, i + 1, Print(t, n1, a), Print(us[i], n2, b));
      }
      RunAlike(ts, Step(ts, i, a).0, Step(ts, i, a).1, Step(us, i, b).1);
    }
  }

  lemma PrintAllShown(ts: seq<Token>)
    requires forall t :: t in ts ==> Visible(t)
    ensures PrintAll(ShownTokens(ts)) == PrintAll(ts)
  {
    RunAlike(ts, 0, START, START);
  }

  /** Formatting is stable: formatting formatted text is a no-op whenever the
      tokens of the source do not clash. */
  lemma FormatIsIdempotent(sql: string)
    requires NoClash(Significant(Tokens(sql)))
    ensures Format(Format(sql)) == Format(sql)
  {
    hide Format, PrintAll, Tokens, Significant, Trim, Blank, NoClash, Visible, Coherent, Shown;
    NeverFallsBack(sql);
    NeverFallsBack(Format(sql));
    if !Blank(sql) {
      var once := Format(sql);
      var ts := SourceIsVisible(sql);
      var us := SourceIsVisible(once);
      FormatReadsBack(sql);
      TrimReads(sql);
      TrimReads(once);
      ShownTwice(Significant(Tokens(sql)));
      PrintAllShown(ts);
      PrintAllShown(us);
    }
  }
}
