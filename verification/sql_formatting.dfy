/** What the formatter promises, for every string. */
module SqlFormatting {
  import opened SqlLexer
  import opened SqlLexemes
  import opened SqlTokens
  import opened SqlPrinter
  import opened SqlLayout
  import opened SqlRoundTrip

  // ------------------------------------------------------- blanks at the edges

  lemma QuoteLengthStable(s: string, q: char, gap: string)
    requires QuoteTail(s, q) < |s|
    ensures QuoteTail(s + gap, q) == QuoteTail(s, q)
  {
    var t := s[..QuoteTail(s, q)];
    QuoteCut(s, q);
    QuoteExtend(t, q, s[|t|..] + gap);
    assert t + (s[|t|..] + gap) == s + gap;
  }

  lemma NumberLengthStable(s: string, gap: string)
    requires Blank(gap) && NumberTail(s) < |s|
    ensures NumberTail(s + gap) == NumberTail(s)
  {
    var d := Span(s, IsDigitOrDot);
    SpanExtend(s, gap, IsDigitOrDot);
    if ExponentAt(s, d) {
      assert (s + gap)[d + 2..] == s[d + 2..] + gap;
      SpanExtend(s[d + 2..], gap, IsDigit);
    }
  }

  lemma BlockLengthStable(s: string, gap: string)
    requires BlockTail(s) < |s|
    ensures BlockTail(s + gap) == BlockTail(s)
  {
    assert forall k: nat | k + 2 <= BlockTail(s) :: ClosesAt(s + gap, k) == ClosesAt(s, k);
  }

  lemma ClassStable(u: string, gap: string)
    requires u != "" && Blank(gap)
    ensures ClassOf(u + gap) == ClassOf(u)
  {
    if |u| > 1 {
      assert (u + gap)[1] == u[1];
    } else if gap != "" {
      assert (u + gap)[1] == gap[0];
    }
  }

  /** Blanks at the far end do not reach a token that ends before them. */
  lemma LengthStable(u: string, gap: string)
    requires u != "" && Blank(gap) && TokenLength(u) < |u|
    ensures TokenLength(u + gap) == TokenLength(u)
  {
    hide ClassOf, BlockTail, NumberTail, QuoteTail;
    ClassStable(u, gap);
    match ClassOf(u)
    case Space => SpanExtend(u, gap, IsSpace);
    case LineComment => SpanExtend(u, gap, NotNewline);
    case BlockComment =>
      assert |u| >= 2;
      assert (u + gap)[2..] == u[2..] + gap;
      BlockLengthStable(u[2..], gap);
    case Quoted =>
      assert (u + gap)[1..] == u[1..] + gap;
      QuoteLengthStable(u[1..], u[0], gap);
    case Numeric =>
      assert (u + gap)[1..] == u[1..] + gap;
      NumberLengthStable(u[1..], gap);
    case Word => SpanExtend(u, gap, IsWordChar);
    case Oper => SpanExtend(u, gap, IsOperatorChar);
    case _ =>
  }

  lemma BlankReads(gap: string)
    requires Blank(gap)
    ensures Significant(Tokens(gap)) == [] && Peek(gap) == ""
  {
    ScanSkipsBlanks(gap, "");
    assert gap + "" == gap;
    PeekIsHonest(gap);
  }

  lemma {:induction false} TrimEndAbsorbs(u: string, gap: string)
    requires Blank(gap)
    ensures TrimEnd(u + gap) == TrimEnd(u)
    decreases |gap|
  {
    if gap == "" {
      assert u + gap == u;
    } else {
      var shorter := gap[..|gap| - 1];
      assert (u + gap)[..|u + gap| - 1] == u + shorter;
      TrimEndAbsorbs(u, shorter);
    }
  }

  lemma {:induction false} QuoteRunsOn(s: string, q: char, gap: string)
    requires !QuoteCloses(s, q) && forall i :: 0 <= i < |gap| ==> gap[i] != q
    ensures QuoteTail(s, q) == |s| && QuoteTail(s + gap, q) == |s + gap|
    decreases |s| + |gap|
  {
    if s == "" {
      if gap != "" {
        QuoteRunsOn("", q, gap[1..]);
        assert "" + gap == gap && "" + gap[1..] == gap[1..];
      }
    } else if s[0] != q {
      QuoteRunsOn(s[1..], q, gap);
      assert (s + gap)[1..] == s[1..] + gap;
    } else {
      QuoteRunsOn(s[2..], q, gap);
      assert (s + gap)[2..] == s[2..] + gap;
    }
  }

  lemma BlockRunsOn(s: string, gap: string)
    requires BlockTail(s) == |s| && !(|s| >= 2 && ClosesAt(s, |s| - 2))
    requires Blank(gap)
    ensures BlockTail(s + gap) == |s + gap|
  {
    assert forall k: nat :: ClosesAt(s + gap, k) ==> k + 1 < |s| && ClosesAt(s, k);
  }

  /** A last token that may run on takes blanks in, and shows the same. */
  lemma LastTakesBlanks(u: string, gap: string)
    requires Lexeme(u) && !IsSpace(u[|u| - 1]) && Blank(gap) && !Ended(u)
    ensures TokenLength(u + gap) == |u + gap|
  {
    ClassStable(u, gap);
    if ClassOf(u) == BlockComment {
      assert (u + gap)[2..] == u[2..] + gap;
      assert |u| >= 4 ==> ClosesAt(u[2..], |u| - 4) == ClosesAt(u, |u| - 2);
      BlockRunsOn(u[2..], gap);
    } else {
      assert (u + gap)[1..] == u[1..] + gap;
      QuoteRunsOn(u[1..], u[0], gap);
    }
  }

  lemma OneTokenShows(s: string, n: nat)
    requires s != "" && n == TokenLength(s) && ClassOf(s) != Space && Blank(s[n..])
    ensures ShownTokens(Significant(Tokens(s))) == [Token(KindOf(s[..n], ""), TrimEnd(s[..n]))]
  {
    BlankReads(s[n..]);
    CutToken(s);
    KindShowsClass(s[..n], "");
  }

  lemma LastLength(u: string, gap: string)
    requires Lexeme(u) && !IsSpace(u[|u| - 1]) && Blank(gap)
    ensures TokenLength(u + gap) >= |u|
    ensures TokenLength(u + gap) > |u| ==>
      ClassOf(u) == LineComment || ClassOf(u) == BlockComment || ClassOf(u) == Quoted
  {
    ClassStable(u, gap);
    if !Ended(u) {
      LastTakesBlanks(u, gap);
    } else if ClassOf(u) == LineComment {
      SpanAtLeast(u, gap, NotNewline);
    } else if gap != "" {
      SeparatorStops(u, gap[0]);
      ExtendToken(u, gap);
    } else {
      assert u + gap == u;
    }
  }

  lemma SpanAtLeast(u: string, gap: string, p: char -> bool)
    requires Span(u, p) == |u|
    ensures Span(u + gap, p) >= |u|
  {
    assert forall i | 0 <= i < |u| :: (u + gap)[i] == u[i];
  }

  lemma SameKind(u: string, v: string)
    requires u != "" && v != "" && ClassOf(u) == ClassOf(v) && u[0] == v[0]
    requires ClassOf(u) != Word || u == v
    ensures KindOf(u, "") == KindOf(v, "")
  {
  }

  lemma LexemeParts(u: string)
    requires Lexeme(u) && !IsSpace(u[|u| - 1])
    ensures u != "" && TokenLength(u) == |u| && ClassOf(u) != Space && u[..|u|] == u && Blank(u[|u|..])
  {
  }

  /** A single last token with blanks behind it. */
  lemma LastReads(u: string, gap: string)
    requires Lexeme(u) && !IsSpace(u[|u| - 1]) && Blank(gap)
    ensures ShownTokens(Significant(Tokens(u + gap))) == ShownTokens(Significant(Tokens(u)))
  {
    hide Lexeme, ClassOf, TokenLength, KindOf, Tokens, Significant, ShownTokens, TrimEnd, Blank, IsSpace;
    var s := u + gap;
    LexemeParts(u);
    LastLength(u, gap);
    var n := TokenLength(s);
    var taken := gap[..n - |u|];
    ClassStable(u, gap);
    assert s[..n] == u + taken && s[n..] == gap[n - |u|..];
    assert n == |u| ==> s[..n] == u;
    BlankParts(gap, n - |u|);
    OneTokenShows(u, |u|);
    OneTokenShows(s, n);
    CutToken(s);
    SameKind(u, s[..n]);
    TrimEndAbsorbs(u, taken);
  }

  lemma BlankParts(gap: string, k: nat)
    requires Blank(gap) && k <= |gap|
    ensures Blank(gap[..k]) && Blank(gap[k..])
  {
  }

  /** Blanks behind a text change nothing that is shown. */
  lemma {:induction false} BlanksBehind(u: string, gap: string)
    requires Blank(gap) && (u == "" || !IsSpace(u[|u| - 1]))
    ensures ShownTokens(Significant(Tokens(u + gap))) == ShownTokens(Significant(Tokens(u)))
    decreases |u|
  {
    hide TokenLength, ClassOf, KindOf, Peek, Tokens, Significant, ShownTokens, TrimEnd, IsSpace;
    if u == "" {
      assert u + gap == gap;
      BlankReads("");
      BlankReads(gap);
    } else if TokenLength(u) == |u| {
      LastReads(u, gap);
    } else {
      var n := TokenLength(u);
      var t, rest := u[..n], u[n..];
      LengthStable(u, gap);
      ClassStable(u, gap);
      BlanksBehind(rest, gap);
      SamePeek(rest, rest + gap);
      assert (u + gap)[..n] == t && (u + gap)[n..] == rest + gap;
      FirstToken(u);
      FirstToken(u + gap);
    }
  }

  lemma SamePeek(a: string, b: string)
    requires ShownTokens(Significant(Tokens(a))) == ShownTokens(Significant(Tokens(b)))
    ensures Peek(a) == Peek(b)
  {
    PeekIsHonest(a);
    PeekIsHonest(b);
    ScanIsCoherent(a);
    ScanIsCoherent(b);
    FirstCodeShown(Significant(Tokens(a)));
    FirstCodeShown(Significant(Tokens(b)));
  }

  lemma FirstToken(s: string)
    requires s != ""
    ensures var n := TokenLength(s);
            var k := KindOf(s[..n], Peek(s[n..]));
            ShownTokens(Significant(Tokens(s)))
              == (if k == Whitespace then [] else [Token(k, TrimEnd(s[..n]))])
                  + ShownTokens(Significant(Tokens(s[n..])))
  {
  }

  /** `trim` on the source costs no token and shows every token the same. */
  lemma TrimReads(sql: string)
    ensures ShownTokens(Significant(Tokens(Trim(sql)))) == ShownTokens(Significant(Tokens(sql)))
  {
    hide Tokens, Significant, ShownTokens;
    var body := TrimStart(sql);
    var lead := sql[..Span(sql, IsSpace)];
    assert lead + body == sql;
    ScanSkipsBlanks(lead, body);
    var core := TrimEnd(body);
    assert core + body[|core|..] == body;
    BlanksBehind(core, body[|core|..]);
  }

  /** Whether tokens clash can be seen from what is shown of them. */
  lemma {:induction false} ClashIsShown(ts: seq<Token>)
    requires Coherent(ts)
    ensures NoClash(ShownTokens(ts)) <==> NoClash(ts)
  {
    if |ts| > 1 {
      var shown := ShownTokens(ts);
      ClashIsShown(ts[1..]);
      assert shown[1..] == ShownTokens(ts[1..]) && shown[1] == ShownTokens(ts[1..])[0];
      NoClashSplit(ts);
      NoClashSplit(shown);
      ShowsItself(ts[0], FirstCode(ts[1..]));
      ShowsItself(ts[1], FirstCode(ts[2..]));
      assert ts[1..][1..] == ts[2..];
    }
  }

  lemma ShowsItself(t: Token, next: string)
    requires Scanned(t, next)
    ensures t.kind == Number || t.kind == Punctuation ==> Shown(t) == t.text
    ensures t.kind != Punctuation ==> Shown(t) != "."
  {
    KindTellsText(t, next);
    if t.kind == Number || t.kind == Punctuation {
      EndsVisible(t.text);
    }
  }
}
