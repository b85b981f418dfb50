/** When one pass is enough. Clashing tokens are glued; whether that shows in a
    second pass can be told from the tokens around each glued run. */
module SqlStability {
  import opened Options
  import opened SqlLexer
  import opened SqlLexemes
  import opened SqlTokens
  import opened SqlPrinter
  import opened SqlLayout
  import opened SqlRoundTrip
  import opened SqlFormatting
  import opened SqlTheorems
  import opened SqlSettling
  import opened SqlReference

  // ---------------------------------------------------------------- glued tokens

  /** Nothing separates token `i` from the one before it any more: the scanner reads
      both as one number. A run goes on over numbers and dots, and over a word that
      looks like an exponent if no line break of its own keeps it apart. */
  predicate Joined(ts: seq<Token>, i: nat)
    requires i < |ts|
    decreases i
  {
    i > 0 &&
    (|| Clash(ts[i - 1], ts[i])
     || (&& ts[i - 1].text == "." && Joined(ts, i - 1)
         && (NumberOrDot(ts[i]) || (ExponentWordLike(ts[i]) && OwnBreak(ts, i).None?))))
  }

  /** A run that starts with a dot where a number would keep its distance. */
  predicate HarmedBefore(ts: seq<Token>, i: nat)
    requires i < |ts|
  {
    && i > 0 && ts[i].text == "." && !Joined(ts, i) && i + 1 < |ts| && Joined(ts, i + 1)
    && !TightAfter(Before(ts, i)) && LeftBreak(ts, i).None?
  }

  /** A run that ends with a dot, and behind it a token that is tight after a dot but
      not after a number. */
  predicate HarmedBehindDot(ts: seq<Token>, i: nat)
    requires i < |ts|
  {
    && i > 0 && ts[i - 1].text == "." && Joined(ts, i - 1) && !Joined(ts, i) && OwnBreak(ts, i).None?
    && ts[i].kind != Comment && (ts[i].kind == Punctuation ==> ts[i].text == "(")
  }

  /** A call whose function was taken for an exponent. */
  predicate HarmedCall(ts: seq<Token>, i: nat)
    requires i < |ts|
  {
    i > 0 && Mark(ts[i], "(") && ExponentWordLike(ts[i - 1]) && Joined(ts, i - 1) && ts[i - 1].kind == Function
  }

  /** A word that is only in part an exponent, and so is cut in two. */
  predicate HarmedInside(ts: seq<Token>, i: nat)
    requires i < |ts|
  {
    Joined(ts, i) && ExponentWordLike(ts[i]) && !WholeExponent(ts[i])
  }

  predicate HarmedAt(ts: seq<Token>, i: nat)
    requires i < |ts|
  {
    HarmedBefore(ts, i) || HarmedBehindDot(ts, i) || HarmedCall(ts, i)
  }

  predicate Harmed(ts: seq<Token>, i: nat)
    requires i < |ts|
  {
    HarmedAt(ts, i) || HarmedInside(ts, i)
  }

  /** Every glued run stands where one number would. */
  predicate Unharmed(ts: seq<Token>) { forall i :: 0 <= i < |ts| ==> !Harmed(ts, i) }

  // ------------------------------------------------------------------- single gaps

  /** Tokens as they are shown, and as a scan leaves them. */
  predicate Neat(ts: seq<Token>) {
    Coherent(ts) && forall t :: t in ts ==> Visible(t) && Shown(t) == t.text
  }

  /** The words that the layout looks for. */
  predicate Spelled(t: Token) {
    Upper(t.text) in {"SELECT", "WITH", "DISTINCT", "ALL", "BY", "JOIN", "OUTER", "ON", "AND", "OR"}
        || Upper(t.text) in JOIN_PREFIX
  }

  lemma SpelledStarts(t: Token)
    requires t.text != "" && Spelled(t)
    ensures UpperChar(t.text[0]) in {'S', 'W', 'D', 'A', 'B', 'J', 'O', 'I', 'L', 'R', 'F', 'C', 'N'}
  {
    assert Upper(t.text)[0] == UpperChar(t.text[0]);
  }

  /** No number, dot or exponent is a word of the layout. */
  lemma NotSpelled(t: Token)
    requires Visible(t) && (NumberOrDot(t) || ExponentWordLike(t))
    ensures !Spelled(t) && !Mark(t, "(") && !Mark(t, ")") && !Mark(t, ",") && !Mark(t, ";") && !IsLineComment(t)
    ensures t.kind == Number || t.text == "." || ExponentWordLike(t)
  {
    if Spelled(t) { SpelledStarts(t); }
  }

  lemma NotOfSelect(ts: seq<Token>, i: nat)
    requires i < |ts| && Visible(ts[i]) && (NumberOrDot(ts[i]) || ExponentWordLike(ts[i]))
    ensures !Quantifies(ts, i) && !SelectAt(ts, i) && !OfSelect(ts, i)
  {
    hide Visible, ExponentWordLike, NumberOrDot, ClauseAt;
    NotSpelled(ts[i]);
  }

  lemma OwnNothing(ts: seq<Token>, i: nat)
    requires i < |ts| && Visible(ts[i]) && NumberOrDot(ts[i])
    ensures OwnBreak(ts, i) == None
  {
  }

  /** Behind a number, a dot or an exponent nothing breaks the line by itself. */
  lemma BehindRun(ts: seq<Token>, i: nat)
    requires 0 < i <= |ts| && Visible(ts[i - 1]) && (NumberOrDot(ts[i - 1]) || ExponentWordLike(ts[i - 1]))
    ensures LeftBreak(ts, i) == None && (i < |ts| ==> !OfSelect(ts, i))
  {
    hide Visible, ExponentWordLike, NumberOrDot, SelectAt, IsLineComment;
    NotSpelled(ts[i - 1]);
    NotOfSelect(ts, i - 1);
  }

  lemma BehindDot(ts: seq<Token>, i: nat)
    requires 0 < i < |ts| && Visible(ts[i - 1]) && ts[i - 1].text == "."
    ensures GapAt(ts, i) == "" <==> OwnBreak(ts, i).None? && ts[i].kind != Comment
  {
    hide Visible, OwnBreak, LeftBreak, Indent;
    BehindRun(ts, i);
  }

  // -------------------------------------------------------------- the gaps as a weave

  function Gaps(ts: seq<Token>): (r: seq<string>)
    ensures |r| == |ts| && forall i :: 0 <= i < |ts| ==> r[i] == GapAt(ts, i)
  {
    seq(|ts|, i requires 0 <= i < |ts| => GapAt(ts, i))
  }

  lemma StickyIsNotSpelled(ts: seq<Token>, i: nat)
    requires i < |ts| && Sticky(ts[i]) && ts[i].kind != Comment
    ensures !Quantifies(ts, i) && UpperAt(ts, i) != "SELECT"
    ensures !Mark(ts[i], "(") && !Mark(ts[i], ",") && !Mark(ts[i], ";")
  {
    var t := ts[i].text;
    assert Upper(t)[|t| - 1] == UpperChar(t[|t| - 1]);
  }

  lemma BehindSticky(ts: seq<Token>, i: nat)
    requires 0 < i < |ts| && Visible(ts[i - 1]) && Sticky(ts[i - 1])
    ensures LeftBreak(ts, i) == None
  {
    hide Visible;
    if ts[i - 1].kind == Comment {
      BehindComment(ts, i);
    } else {
      hide Upper, Quantifies;
      StickyIsNotSpelled(ts, i - 1);
    }
  }

  lemma BehindComment(ts: seq<Token>, i: nat)
    requires 0 < i <= |ts| && ts[i - 1].kind == Comment && !IsLineComment(ts[i - 1]) && Sticky(ts[i - 1])
    ensures LeftBreak(ts, i) == None
  {
  }

  lemma GapIsBlank(ts: seq<Token>, i: nat)
    requires i < |ts|
    ensures Blank(GapAt(ts, i)) && (i > 0 && BreakAt(ts, i).Some? ==> GapAt(ts, i) != "" && GapAt(ts, i)[0] == '\n')
  {
    hide BreakAt, SpacedAt;
  }

  lemma BehindLine(ts: seq<Token>, i: nat)
    requires 0 < i < |ts| && Visible(ts[i - 1]) && IsLineComment(ts[i - 1])
    ensures BreakAt(ts, i).Some?
  {
    hide Visible, OwnBreak;
    assert Upper(ts[i - 1].text)[0] == UpperChar(ts[i - 1].text[0]);
    assert !Quantifies(ts, i - 1);
  }

  /** The gaps of the layout are of the kind that the printer leaves. */
  lemma GapAtFits(ts: seq<Token>, i: nat)
    requires i < |ts| && Visible(ts[i]) && (i > 0 ==> Visible(ts[i - 1]))
    ensures GapFits(Before(ts, i), GapAt(ts, i), ts[i])
  {
    hide OwnBreak, LeftBreak, Sticky, IsLineComment, OfSelect, HasExponent;
    GapIsBlank(ts, i);
    if i > 0 {
      var prev, t := ts[i - 1], ts[i];
      if IsLineComment(prev) { BehindLine(ts, i); }
      if Clash(prev, t) {
        ClashIsNumber(prev, t);
        BehindRun(ts, i);
        OwnNothing(ts, i);
      }
      if t.text == "." && Sticky(prev) {
        BehindSticky(ts, i);
        OwnNothing(ts, i);
      }
      if OfSelect(ts, i) { assert SpacedAt(ts, i) && !(t.text == "." && Sticky(prev)) by { OfSelectIsWord(ts, i); } }
    }
  }

  lemma OfSelectIsWord(ts: seq<Token>, i: nat)
    requires i < |ts| && Visible(ts[i]) && OfSelect(ts, i)
    ensures !NumberOrDot(ts[i])
  {
    hide Visible;
    if NumberOrDot(ts[i]) { NotOfSelect(ts, i); }
  }

  lemma ClashIsNumber(t: Token, u: Token)
    requires Visible(t) && Visible(u) && Clash(t, u)
    ensures NumberOrDot(t) && NumberOrDot(u) && (u.text == "." || TightAfter(Some(t))) && t.text != "("
  {
    hide HasExponent;
  }

  lemma {:induction false} GapsFitFrom(ts: seq<Token>, i: nat)
    requires i <= |ts| && forall t :: t in ts ==> Visible(t)
    ensures GapsFit(Before(ts, i), Gaps(ts)[i..], ts[i..])
    decreases |ts| - i
  {
    hide Visible, GapAt, GapFits;
    if i < |ts| {
      GapAtFits(ts, i);
      GapsFitFrom(ts, i + 1);
      assert Gaps(ts)[i..][1..] == Gaps(ts)[i + 1..] && ts[i..][1..] == ts[i + 1..];
    }
  }

  /** The layout from token `i` on. */
  function Rest(ts: seq<Token>, i: nat): string
    requires i <= |ts|
  {
    Weave(Gaps(ts)[i..], ts[i..])
  }

  lemma RestFrom(ts: seq<Token>, i: nat)
    requires i < |ts|
    ensures Rest(ts, i) == GapAt(ts, i) + (Shown(ts[i]) + Rest(ts, i + 1))
    ensures Rest(ts, |ts|) == ""
  {
    hide Shown, GapAt;
    assert Gaps(ts)[i..][1..] == Gaps(ts)[i + 1..] && ts[i..][1..] == ts[i + 1..];
  }

  lemma {:induction false} LaidIsWhole(ts: seq<Token>, i: nat)
    requires i <= |ts|
    ensures Laid(ts, i) + Rest(ts, i) == Laid(ts, |ts|)
    decreases |ts| - i
  {
    hide Shown, GapAt, Rest;
    if i < |ts| {
      RestFrom(ts, i);
      LaidIsWhole(ts, i + 1);
      assert Laid(ts, i) + Rest(ts, i) == Laid(ts, i + 1) + Rest(ts, i + 1);
    } else {
      assert Rest(ts, i) == "" by { NoRest(ts); }
    }
  }

  lemma NoRest(ts: seq<Token>)
    ensures Rest(ts, |ts|) == ""
  {
  }

  // -------------------------------------------------------------------- glued runs

  lemma {:induction false} CoherentFrom(ts: seq<Token>, i: nat)
    requires Coherent(ts) && i <= |ts|
    ensures Coherent(ts[i..])
    ensures i < |ts| ==> Scanned(ts[i], FirstCode(ts[i + 1..])) && (i + 1 < |ts| ==> Ended(ts[i].text))
  {
    hide Lexeme, Ended, KindOf, FirstCode;
    if i > 0 {
      CoherentFrom(ts[1..], i - 1);
      assert ts[1..][i - 1..] == ts[i..];
      if i < |ts| { assert ts[1..][i - 1] == ts[i] && ts[1..][i..] == ts[i + 1..]; }
    } else {
      assert ts[0..] == ts;
    }
  }

  /** After the token `i` the run has taken up the next `k`. */
  predicate RunOf(ts: seq<Token>, i: nat, k: nat) {
    && i + k < |ts|
    && (forall m :: i < m <= i + k ==> GapAt(ts, m) == "" && (NumberOrDot(ts[m]) || ExponentWordLike(ts[m])))
    && (forall m :: i < m < i + k ==> PlainDot(ts[m]))
  }

  lemma TailIsRun(ts: seq<Token>, i: nat, k: nat, r: string)
    requires i < |ts| && TailTokens(Gaps(ts)[i + 1..], ts[i + 1..], k, r)
    ensures RunOf(ts, i, k)
    ensures var e := i + k + 1;
            && (k == 0 || PlainDot(ts[i + k]) ==>
                 e == |ts| || GapAt(ts, e) != "" || (!NumberOrDot(ts[e]) && !ExponentWordLike(ts[e])))
            && (if k > 0 && ExponentWordLike(ts[i + k]) then r == "" <==> WholeExponent(ts[i + k]) else r == "")
  {
    hide PlainDot, NumberOrDot, ExponentWordLike, WholeExponent, GapAt;
    var gs, us := Gaps(ts)[i + 1..], ts[i + 1..];
    assert forall m :: 0 <= m < |us| ==> gs[m] == GapAt(ts, i + 1 + m) && us[m] == ts[i + 1 + m];
    forall m | i < m <= i + k ensures GapAt(ts, m) == "" && (NumberOrDot(ts[m]) || ExponentWordLike(ts[m]))
        && (m < i + k ==> PlainDot(ts[m])) {
      assert gs[m - i - 1] == GapAt(ts, m) && us[m - i - 1] == ts[m];
      if m < i + k { PlainIsNumberOrDot(ts[m]); }
    }
    if k > 0 { assert us[k - 1] == ts[i + k]; }
  }

  lemma NextIsJoined(ts: seq<Token>, m: nat)
    requires Neat(ts) && 0 < m < |ts| && GapAt(ts, m) == "" && (NumberOrDot(ts[m]) || ExponentWordLike(ts[m]))
    requires PlainDot(ts[m - 1]) && (ts[m - 1].text == "." ==> Joined(ts, m - 1))
    ensures Joined(ts, m)
  {
    hide Coherent, HasExponent, KindOf, FirstCode, OwnBreak, GapAt;
    assert ts[m] in ts && ts[m - 1] in ts;
    if ts[m - 1].text == "." {
      BehindDot(ts, m);
    } else {
      GapAtFits(ts, m);
      CoherentFrom(ts, m);
      KindTellsText(ts[m], FirstCode(ts[m + 1..]));
    }
  }

  lemma {:induction false} RunIsJoined(ts: seq<Token>, i: nat, k: nat, m: nat)
    requires Neat(ts) && i + 1 < |ts| && Clash(ts[i], ts[i + 1]) && RunOf(ts, i, k) && i < m <= i + k
    ensures Joined(ts, m)
  {
    hide Neat, Clash, GapAt, PlainDot, NumberOrDot, ExponentWordLike, Joined;
    if m == i + 1 {
      ClashIsJoined(ts, m);
    } else {
      RunIsJoined(ts, i, k, m - 1);
      NextIsJoined(ts, m);
    }
  }

  lemma ClashIsJoined(ts: seq<Token>, m: nat)
    requires 0 < m < |ts| && Clash(ts[m - 1], ts[m])
    ensures Joined(ts, m)
  {
  }

  /** Where the run stops, nothing is joined. */
  lemma RunStops(ts: seq<Token>, e: nat)
    requires Neat(ts) && 0 < e < |ts| && (NumberOrDot(ts[e - 1]) || ExponentWordLike(ts[e - 1]))
    requires PlainDot(ts[e - 1]) ==> GapAt(ts, e) != "" || (!NumberOrDot(ts[e]) && !ExponentWordLike(ts[e]))
    ensures !Joined(ts, e)
  {
    hide Coherent, HasExponent, OwnBreak, GapAt;
    assert ts[e] in ts && ts[e - 1] in ts;
    NotSpelled(ts[e - 1]);
    if Joined(ts, e) {
      if Clash(ts[e - 1], ts[e]) {
        GapAtFits(ts, e);
      } else {
        BehindDot(ts, e);
        DotOrNumberInline(ts, e);
        if ExponentWordLike(ts[e]) { ExponentIsNoComment(ts, e); }
      }
    }
  }

  lemma ExponentIsNoComment(ts: seq<Token>, e: nat)
    requires Neat(ts) && e < |ts| && ExponentWordLike(ts[e])
    ensures ts[e].kind != Comment && ts[e].kind != Number && ts[e].kind != Punctuation
  {
    hide Coherent, KindOf, FirstCode;
    assert ts[e] in ts;
    CoherentFrom(ts, e);
    WordParts(ts[e], FirstCode(ts[e + 1..]));
    KindTellsText(ts[e], FirstCode(ts[e + 1..]));
  }

  lemma DotOrNumberInline(ts: seq<Token>, e: nat)
    requires e < |ts| && Visible(ts[e]) && (NumberOrDot(ts[e]) || ExponentWordLike(ts[e]))
    ensures NumberOrDot(ts[e]) ==> OwnBreak(ts, e) == None && ts[e].kind != Comment
  {
    if NumberOrDot(ts[e]) { OwnNothing(ts, e); }
  }

  // ---------------------------------------------------------- reading the layout back

  /** One token read where token `i` starts: `b`, and then `r` and what follows from
      place `e` on. */
  predicate ReadsTo(ts: seq<Token>, i: nat, b: Token, r: string, e: nat) {
    && i < e <= |ts| && b.text != ""
    && Significant(Tokens(Rest(ts, i))) == [b] + Significant(Tokens(r + Rest(ts, e)))
    && ts[i].text + Rest(ts, i + 1) == b.text + (r + Rest(ts, e))
    && Shown(b) == b.text
  }

  /** It is the number that the run from token `i` to place `e` makes; `r` is left of
      a last word that is cut in two. */
  predicate ReadsRun(ts: seq<Token>, i: nat, b: Token, r: string, e: nat)
    requires i + 1 < e <= |ts|
  {
    && b.kind == Number && b.text != "" && IsDigitOrDot(b.text[0]) && b.text != "."
    && (forall m :: i < m < e ==> Joined(ts, m))
    && (NumberOrDot(ts[e - 1]) || ExponentWordLike(ts[e - 1]))
    && (r == "" <==> !HarmedInside(ts, e - 1)) && (r != "" ==> WordEnd(r, ts[e - 1]))
  }

  predicate GluedAt(ts: seq<Token>, i: nat) { i + 1 < |ts| && Clash(ts[i], ts[i + 1]) }

  /** It is that number, or token `i` itself. */
  predicate ReadsWhole(ts: seq<Token>, i: nat, b: Token, r: string, e: nat) {
    && i < e <= |ts| && b.text != ""
    && (if GluedAt(ts, i) then e > i + 1 && ReadsRun(ts, i, b, r, e)
        else b.text == ts[i].text && b.kind == KindOf(b.text, Peek(r + Rest(ts, e))) && e == i + 1 && r == "")
    && (e < |ts| ==> !Joined(ts, e))
  }

  lemma NeatFits(ts: seq<Token>, i: nat)
    requires Neat(ts) && i < |ts|
    ensures Fits(ts[i], Gaps(ts)[i + 1..], ts[i + 1..])
    ensures Scanned(ts[i], FirstCode(ts[i + 1..])) && Visible(ts[i]) && Shown(ts[i]) == ts[i].text
    ensures i + 1 < |ts| ==> Ended(ts[i].text)
  {
    hide Coherent, Visible, GapsFit, Lexeme, Ended, KindOf, FirstCode, GapAt, TrimEnd;
    CoherentFrom(ts, i);
    CoherentFrom(ts, i + 1);
    GapsFitFrom(ts, i + 1);
    assert ts[i] in ts;
  }

  lemma StartsAt(ts: seq<Token>, i: nat)
    requires Neat(ts) && i < |ts|
    ensures Significant(Tokens(Rest(ts, i))) == Significant(Tokens(ts[i].text + Rest(ts, i + 1)))
    ensures ts[i].text != "" && !IsSpace(ts[i].text[0])
  {
    hide Coherent, Tokens, Significant, Weave, TrimEnd, IsSpace, GapAt;
    assert ts[i] in ts;
    GapIsBlank(ts, i);
    OneWoven(Gaps(ts)[i..], ts[i..]);
    assert Gaps(ts)[i..][1..] == Gaps(ts)[i + 1..] && ts[i..][1..] == ts[i + 1..];
  }

  lemma ReachesRest(ts: seq<Token>, i: nat, x: string, a: string, k: nat, r: string)
    requires i < |ts| && Reaches(ts[i], Gaps(ts)[i + 1..], ts[i + 1..], x, a, k, r)
    ensures i + 1 + k <= |ts| && x == r + Rest(ts, i + 1 + k) && (r != "" ==> WordEnd(r, ts[i + k]))
  {
    hide Fits, Weave, WordEnd, Left, Gaps;
    assert Gaps(ts)[i + 1..][k..] == Gaps(ts)[i + 1 + k..] && ts[i + 1..][k..] == ts[i + 1 + k..];
    if k > 0 { assert ts[i + 1..][k - 1] == ts[i + k]; }
  }

  /** A number shows all of itself. */
  lemma NumberShows(x: string)
    requires x != "" && ClassOf(x) == Numeric
    ensures var a := x[..TokenLength(x)];
            a != "" && TrimEnd(a) == a && IsDigitOrDot(a[0]) && a != "." && ClassOf(a) == Numeric
  {
    CutToken(x);
    OneDot(x);
    EndsVisible(x[..TokenLength(x)]);
  }

  lemma RunFacts(ts: seq<Token>, i: nat, k: nat, r: string)
    requires Neat(ts) && i + 1 < |ts| && Clash(ts[i], ts[i + 1])
    requires TailTokens(Gaps(ts)[i + 1..], ts[i + 1..], k, r)
    ensures var e := i + 1 + k;
            && k > 0 && e <= |ts| && (forall m :: i < m < e ==> Joined(ts, m))
            && (NumberOrDot(ts[e - 1]) || ExponentWordLike(ts[e - 1]))
            && (r == "" <==> !HarmedInside(ts, e - 1))
            && (e < |ts| ==> !Joined(ts, e))
  {
    hide Neat, TailTokens, GapAt, Joined, ExponentWordLike, WholeExponent, PlainDot;
    TailIsRun(ts, i, k, r);
    ClashSticks(ts, i);
    var e := i + 1 + k;
    forall m | i < m < e ensures Joined(ts, m) { RunIsJoined(ts, i, k, m); }
    if e < |ts| { RunStops(ts, e); }
  }

  /** Clashing tokens touch, and the second is a number or a dot. */
  lemma ClashSticks(ts: seq<Token>, i: nat)
    requires Neat(ts) && i + 1 < |ts| && Clash(ts[i], ts[i + 1])
    ensures GapAt(ts, i + 1) == "" && NumberOrDot(ts[i + 1])
  {
    hide Coherent, GapAt, HasExponent;
    assert ts[i] in ts && ts[i + 1] in ts;
    GapAtFits(ts, i + 1);
  }

  lemma NoClashNoJoin(ts: seq<Token>, i: nat)
    requires i + 1 < |ts| && !Joined(ts, i) && !Clash(ts[i], ts[i + 1])
    ensures !Joined(ts, i + 1)
  {
  }

  /** Reading on from the start of token `i`. */
  lemma ReadAt(ts: seq<Token>, i: nat) returns (b: Token, r: string, e: nat)
    requires Neat(ts) && i < |ts| && !Joined(ts, i)
    ensures ReadsTo(ts, i, b, r, e) && ReadsWhole(ts, i, b, r, e)
  {
    hide Neat, Visible, Fits, Weave, GapAt, TokenLength, Tokens, Significant, KindOf, FirstCode, Peek, Lexeme, Ended,
        ClassOf, TrimEnd;
    hide TailTokens, Joined, Clash, HarmedInside, NumberOrDot, ExponentWordLike, WordEnd, Reaches, Rest, IsDigitOrDot,
        IsSpace;
    NeatFits(ts, i);
    assert Rest(ts, i + 1) == Weave(Gaps(ts)[i + 1..], ts[i + 1..]) by { RestIs(ts, i + 1); }
    var x := ts[i].text + Rest(ts, i + 1);
    var k, left := StepWhole(ts[i], FirstCode(ts[i + 1..]), Gaps(ts)[i + 1..], ts[i + 1..]);
    StartsAt(ts, i);
    ReadsOn(x);
    var n := TokenLength(x);
    b, r, e := Token(KindOf(x[..n], Peek(x[n..])), x[..n]), left, i + 1 + k;
    ReachesRest(ts, i, x[n..], x[..n], k, r);
    if i + 1 < |ts| && Clash(ts[i], ts[i + 1]) {
      assert ts[i + 1..][0] == ts[i + 1];
      RunFacts(ts, i, k, r);
      NumberShows(x);
      NumberKind(x[..n], Peek(x[n..]));
    } else {
      assert i + 1 < |ts| ==> ts[i + 1..][0] == ts[i + 1];
      if i + 1 < |ts| { NoClashNoJoin(ts, i); }
    }
  }

  lemma RestIs(ts: seq<Token>, i: nat)
    requires i <= |ts|
    ensures Rest(ts, i) == Weave(Gaps(ts)[i..], ts[i..])
  {
  }

  lemma NumberKind(a: string, next: string)
    requires a != "" && ClassOf(a) == Numeric
    ensures KindOf(a, next) == Number
  {
  }

  lemma FirstCodeOf(t: Token, ts: seq<Token>)
    ensures FirstCode([t] + ts) ==
      if t.kind == Comment || t.kind == Whitespace || t.text == "" then FirstCode(ts) else t.text[..1]
  {
    assert ([t] + ts)[1..] == ts;
  }

  lemma SameFirst(a: string, x: string, b: string, y: string)
    requires a != "" && b != "" && a + x == b + y
    ensures a[..1] == b[..1]
  {
    assert (a + x)[0] == (b + y)[0];
  }

  lemma GluedIsNoComment(ts: seq<Token>, i: nat)
    requires Neat(ts) && GluedAt(ts, i)
    ensures NumberOrDot(ts[i]) && NumberOrDot(ts[i + 1])
    ensures ts[i].kind != Comment && ts[i].kind != Whitespace && ts[i].text != ""
  {
    hide Coherent, HasExponent;
    assert ts[i] in ts && ts[i + 1] in ts;
  }

  /** What stands first behind a place is what the tokens there call for, however they
      are glued. */
  lemma {:induction false} PeekOfRest(ts: seq<Token>, e: nat)
    requires Neat(ts) && e <= |ts| && (e < |ts| ==> !Joined(ts, e))
    ensures Peek(Rest(ts, e)) == FirstCode(ts[e..])
    decreases |ts| - e
  {
    hide Neat, Joined, Peek, Tokens, Significant, FirstCode, Rest, GluedAt, ReadsRun, KindOf;
    if e == |ts| {
      assert Rest(ts, e) == "" by { NoRest(ts); }
      assert ts[e..] == [] && Peek("") == "" && FirstCode([]) == "" by { NothingToPeek(); }
    } else {
      var b, r, e' := ReadAt(ts, e);
      PeekIsHonest(Rest(ts, e));
      var behind := Significant(Tokens(r + Rest(ts, e')));
      FirstCodeOf(b, behind);
      assert ts[e..] == [ts[e]] + ts[e + 1..];
      FirstCodeOf(ts[e], ts[e + 1..]);
      NeatFits(ts, e);
      StartsAt(ts, e);
      SameFirst(ts[e].text, Rest(ts, e + 1), b.text, r + Rest(ts, e'));
      if GluedAt(ts, e) {
        GluedIsNoComment(ts, e);
        assert b.kind == Number by { RunIsNumber(ts, e, b, r, e'); }
      } else {
        KindShowsClass(b.text, Peek(r + Rest(ts, e')));
        KindShowsClass(ts[e].text, FirstCode(ts[e + 1..]));
        assert r + Rest(ts, e') == Rest(ts, e + 1);
        PeekIsHonest(Rest(ts, e + 1));
        if b.kind == Comment { PeekOfRest(ts, e + 1); }
      }
    }
  }

  lemma NothingToPeek()
    ensures Peek("") == "" && FirstCode([]) == ""
  {
  }

  lemma RunIsNumber(ts: seq<Token>, i: nat, b: Token, r: string, e: nat)
    requires i + 1 < e <= |ts| && ReadsRun(ts, i, b, r, e)
    ensures b.kind == Number
  {
  }

  /** A token that is not glued is read as itself. */
  lemma ReadsItself(ts: seq<Token>, i: nat, b: Token, r: string, e: nat)
    requires Neat(ts) && i < |ts| && !GluedAt(ts, i) && ReadsWhole(ts, i, b, r, e)
    ensures b == ts[i]
  {
    hide Neat, Joined, Peek, FirstCode, Rest, GluedAt, ReadsRun, KindOf;
    NeatFits(ts, i);
    assert r + Rest(ts, e) == Rest(ts, e);
    PeekOfRest(ts, e);
  }

  // -------------------------------------------------------- two layouts in parallel

  /** Which of the open parentheses hold a statement. */
  function Flags(ts: seq<Token>, i: nat): (f: seq<bool>)
    requires i <= |ts|
    ensures |f| == |Opened(ts, i)|
    ensures forall k :: 0 <= k < |f| ==> f[k] == OpensSubquery(UpperAt(ts, Opened(ts, i)[k] + 1))
  {
    var o := Opened(ts, i);
    seq(|o|, k requires 0 <= k < |o| => OpensSubquery(UpperAt(ts, o[k] + 1)))
  }

  predicate Lookahead(a: string, b: string) {
    SameNext(a, b) && (a == "DISTINCT" <==> b == "DISTINCT") && (a == "ALL" <==> b == "ALL")
  }

  predicate EndsRun(ts: seq<Token>, i: nat)
    requires i < |ts|
  {
    (NumberOrDot(ts[i]) || ExponentWordLike(ts[i])) && Joined(ts, i)
  }

  predicate IsRunNumber(t: Token) { t.kind == Number && t.text != "" && IsDigitOrDot(t.text[0]) && t.text != "." }

  /** The token before is the same in both, or ends a run in one and is the run's number
      in the other. */
  predicate SamePrev(ts: seq<Token>, i: nat, us: seq<Token>, j: nat)
    requires 0 < i <= |ts| && 0 < j <= |us|
  {
    (us[j - 1] == ts[i - 1] && !Joined(ts, i - 1)) || (IsRunNumber(us[j - 1]) && EndsRun(ts, i - 1))
  }

  predicate BehindSelectAt(ts: seq<Token>, i: nat)
    requires 0 < i <= |ts|
  {
    SelectAt(ts, i - 1) || OfSelect(ts, i - 1)
  }

  /** Up to `i` and `j` the two lists are laid out alike. */
  predicate Parallel(ts: seq<Token>, i: nat, us: seq<Token>, j: nat) {
    && i <= |ts| && j <= |us| && (i == 0 <==> j == 0)
    && Flags(ts, i) == Flags(us, j) && Laid(ts, i) == Laid(us, j) && Pending(ts, i) == Pending(us, j)
    && Lookahead(UpperAt(ts, i), UpperAt(us, j))
    && (i > 0 ==> SamePrev(ts, i, us, j) && (BehindSelectAt(ts, i) <==> BehindSelectAt(us, j)))
  }

  /** The token in front is the same in both, and glued to nothing; or it starts a run in
      one and is the run's number in the other. */
  predicate SameHere(ts: seq<Token>, i: nat, us: seq<Token>, j: nat)
    requires i < |ts| && j < |us|
  {
    && !Joined(ts, i)
    && (if GluedAt(ts, i) then IsRunNumber(us[j]) && NumberOrDot(ts[i])
        else us[j] == ts[i] && Lookahead(UpperAt(ts, i + 1), UpperAt(us, j + 1)))
  }

  lemma {:induction false} FlagsTellStatement(ts: seq<Token>, i: nat)
    requires i <= |ts|
    ensures InStatement(ts, i) <==> Flags(ts, i) == [] || Flags(ts, i)[|Flags(ts, i)| - 1]
  {
  }

  lemma RunNumberNotSpelled(t: Token)
    requires IsRunNumber(t)
    ensures !Spelled(t)
  {
    if Spelled(t) { SpelledStarts(t); }
  }

  lemma SameClause(ts: seq<Token>, i: nat, us: seq<Token>, j: nat, upper: string, n1: string, n2: string)
    requires Parallel(ts, i, us, j) && SameNext(n1, n2) && forall t :: t in ts ==> Visible(t)
    ensures StartsClause(Before(ts, i), upper, n1) <==> StartsClause(Before(us, j), upper, n2)
  {
    hide Flags, Laid, Pending, BehindSelectAt, Visible, Joined, ExponentWordLike, NumberOrDot, IsRunNumber;
    if i > 0 && us[j - 1] != ts[i - 1] {
      NotSpelled(ts[i - 1]);
      RunNumberNotSpelled(us[j - 1]);
    }
  }

  lemma SameClauseAt(ts: seq<Token>, i: nat, us: seq<Token>, j: nat)
    requires Parallel(ts, i, us, j) && i < |ts| && j < |us| && us[j] == ts[i] && forall t :: t in ts ==> Visible(t)
    requires SameNext(UpperAt(ts, i + 1), UpperAt(us, j + 1))
    ensures InStatement(ts, i) <==> InStatement(us, j)
    ensures (ClauseAt(ts, i) <==> ClauseAt(us, j)) && (ConditionAt(ts, i) <==> ConditionAt(us, j))
    ensures SelectAt(ts, i) <==> SelectAt(us, j)
  {
    hide Laid, Pending, Visible, Opened, InStatement, StartsClause, SamePrev, Upper, BehindSelectAt, Lookahead;
    FlagsTellStatement(ts, i);
    FlagsTellStatement(us, j);
    SameClause(ts, i, us, j, UpperAt(ts, i), UpperAt(ts, i + 1), UpperAt(us, j + 1));
  }

  lemma SameOfSelect(ts: seq<Token>, i: nat, us: seq<Token>, j: nat)
    requires Parallel(ts, i, us, j) && i < |ts| && j < |us| && us[j] == ts[i]
    ensures OfSelect(ts, i) <==> OfSelect(us, j)
  {
    hide Laid, Pending, Opened, SelectAt, SamePrev, Upper, Lookahead, Flags;
  }

  lemma {:induction false} OwnBreakTells(ts: seq<Token>, i: nat, us: seq<Token>, j: nat)
    requires i < |ts| && j < |us| && us[j] == ts[i] && |Opened(ts, i)| == |Opened(us, j)|
    requires (InStatement(ts, i) <==> InStatement(us, j)) && (OfSelect(ts, i) <==> OfSelect(us, j))
    requires (ClauseAt(ts, i) <==> ClauseAt(us, j)) && (ConditionAt(ts, i) <==> ConditionAt(us, j))
    ensures OwnBreak(ts, i) == OwnBreak(us, j)
  {
    hide Opened, InStatement, ClauseAt, ConditionAt, OfSelect, IsLineComment;
  }

  lemma {:induction false} SameOwnBreak(ts: seq<Token>, i: nat, us: seq<Token>, j: nat)
    requires Parallel(ts, i, us, j) && i < |ts| && j < |us| && us[j] == ts[i] && forall t :: t in ts ==> Visible(t)
    requires SameNext(UpperAt(ts, i + 1), UpperAt(us, j + 1))
    ensures OwnBreak(ts, i) == OwnBreak(us, j)
  {
    hide Parallel, Visible, Opened, InStatement, ClauseAt, ConditionAt, OfSelect, UpperAt, SameNext, OwnBreak;
    SameClauseAt(ts, i, us, j);
    SameOfSelect(ts, i, us, j);
    SameDepths(ts, i, us, j);
    OwnBreakTells(ts, i, us, j);
  }

  lemma SameDepths(ts: seq<Token>, i: nat, us: seq<Token>, j: nat)
    requires Parallel(ts, i, us, j)
    ensures |Opened(ts, i)| == |Opened(us, j)|
  {
    hide Laid, Pending, Opened, SamePrev, BehindSelectAt, Lookahead;
    assert |Flags(ts, i)| == |Flags(us, j)|;
  }

  lemma RunNumberOwnsNothing(us: seq<Token>, j: nat)
    requires j < |us| && IsRunNumber(us[j])
    ensures !Quantifies(us, j) && !OfSelect(us, j) && !SelectAt(us, j) && OwnBreak(us, j) == None
    ensures LeftBreak(us, j + 1) == None && !Mark(us[j], "(") && !Mark(us[j], ")")
  {
    hide IsRunNumber;
    RunNumberNotSpelled(us[j]);
    assert us[j].kind == Number by { RunNumberKind(us[j]); }
  }

  lemma RunNumberKind(t: Token)
    requires IsRunNumber(t)
    ensures t.kind == Number && !TightAfter(Some(t))
  {
  }

  lemma SameBreak(ts: seq<Token>, i: nat, us: seq<Token>, j: nat)
    requires Neat(ts) && Parallel(ts, i, us, j) && i < |ts| && j < |us| && SameHere(ts, i, us, j)
    ensures BreakAt(ts, i) == BreakAt(us, j)
  {
    hide Coherent, Flags, Laid, Joined, OwnBreak, LeftBreak, SamePrev, BehindSelectAt, SameNext, Visible, IsRunNumber,
        NumberOrDot;
    assert ts[i] in ts;
    if GluedAt(ts, i) {
      OwnNothing(ts, i);
      RunNumberOwnsNothing(us, j);
    } else {
      SameOwnBreak(ts, i, us, j);
    }
  }

  lemma BrokenIsUnharmed(ts: seq<Token>, i: nat)
    requires Neat(ts) && i < |ts| && HarmedAt(ts, i)
    ensures BreakAt(ts, i) == None
  {
    hide Coherent, Joined, OwnBreak, LeftBreak, Visible, ExponentWordLike;
    assert ts[i] in ts && ts[i - 1] in ts;
    if HarmedBefore(ts, i) {
      OwnNothing(ts, i);
    } else {
      BehindRun(ts, i);
      if HarmedCall(ts, i) { OpeningOwnsNothing(ts, i); }
    }
  }

  lemma OpeningOwnsNothing(ts: seq<Token>, i: nat)
    requires i < |ts| && Mark(ts[i], "(")
    ensures OwnBreak(ts, i) == None
  {
  }

  lemma SpacingSameSame(ts: seq<Token>, i: nat, us: seq<Token>, j: nat)
    requires 0 < i < |ts| && 0 < j < |us| && us[j] == ts[i] && us[j - 1] == ts[i - 1]
    requires !Joined(ts, i - 1) && !Joined(ts, i) && !GluedAt(ts, i) && (OfSelect(ts, i) <==> OfSelect(us, j))
    ensures SpacedAt(ts, i) == SpacedAt(us, j) && !HarmedAt(ts, i)
  {
    hide OfSelect, OwnBreak, LeftBreak, Clash;
  }

  lemma SpacingSameRun(ts: seq<Token>, i: nat, us: seq<Token>, j: nat)
    requires Neat(ts) && 0 < i < |ts| && 0 < j < |us| && us[j] == ts[i] && IsRunNumber(us[j - 1]) && EndsRun(ts, i - 1)
    requires !Joined(ts, i) && !GluedAt(ts, i) && BreakAt(ts, i) == None && (OfSelect(ts, i) <==> OfSelect(us, j))
    ensures SpacedAt(ts, i) == SpacedAt(us, j) <==> !HarmedAt(ts, i)
  {
    hide Coherent, Joined, OfSelect, OwnBreak, LeftBreak, Clash, Visible, IsRunNumber, ExponentWordLike;
    assert ts[i - 1] in ts && ts[i] in ts;
    RunNumberKind(us[j - 1]);
    BehindRun(ts, i);
    if i + 1 < |ts| { NoClashNoJoin(ts, i); }
    TightRun(ts[i - 1]);
  }

  lemma TightRun(t: Token)
    requires Visible(t) && (NumberOrDot(t) || ExponentWordLike(t))
    ensures TightAfter(Some(t)) <==> t.text == "."
    ensures NumberOrDot(t) ==> !ExponentWordLike(t) && (t.text != "." ==> t.kind == Number)
  {
  }

  lemma SpacingRunSame(ts: seq<Token>, i: nat, us: seq<Token>, j: nat)
    requires Neat(ts) && 0 < i < |ts| && 0 < j < |us| && us[j - 1] == ts[i - 1] && !Joined(ts, i - 1)
    requires !Joined(ts, i) && GluedAt(ts, i) && IsRunNumber(us[j]) && BreakAt(ts, i) == None
    ensures SpacedAt(ts, i) == SpacedAt(us, j) <==> !HarmedAt(ts, i)
  {
    hide Coherent, Joined, OwnBreak, Clash, Visible, IsRunNumber, ExponentWordLike, OfSelect, SelectAt;
    assert ts[i - 1] in ts && ts[i] in ts;
    RunNumberOwnsNothing(us, j);
    RunNumberKind(us[j]);
    GluedIsNoComment(ts, i);
    NotOfSelect(ts, i);
    OwnNothing(ts, i);
    ClashIsJoined(ts, i + 1);
    PlainKinds(ts[i]);
  }

  lemma PlainKinds(t: Token)
    requires Visible(t) && NumberOrDot(t)
    ensures if t.text == "." then t.kind == Punctuation else t.kind == Number
  {
  }

  lemma SpacingRunRun(ts: seq<Token>, i: nat, us: seq<Token>, j: nat)
    requires Neat(ts) && 0 < i < |ts| && 0 < j < |us| && IsRunNumber(us[j - 1]) && EndsRun(ts, i - 1)
    requires !Joined(ts, i) && GluedAt(ts, i) && IsRunNumber(us[j]) && BreakAt(ts, i) == None
    ensures SpacedAt(ts, i) == SpacedAt(us, j) <==> !HarmedAt(ts, i)
  {
    hide Coherent, OwnBreak, Visible, IsRunNumber, ExponentWordLike, OfSelect, SelectAt, HasExponent;
    assert ts[i - 1] in ts && ts[i] in ts;
    RunNumberOwnsNothing(us, j);
    RunNumberKind(us[j]);
    RunNumberKind(us[j - 1]);
    GluedIsNoComment(ts, i);
    NotOfSelect(ts, i);
    OwnNothing(ts, i);
    BehindRun(ts, i);
    ClashIsJoined(ts, i + 1);
    PlainKinds(ts[i]);
    TightRun(ts[i - 1]);
  }

  /** The decisive step: as long as two layouts run in parallel, the next gap is the same
      in both exactly where no harm is done. */
  lemma SameGap(ts: seq<Token>, i: nat, us: seq<Token>, j: nat)
    requires Neat(ts) && Parallel(ts, i, us, j) && i < |ts| && j < |us| && SameHere(ts, i, us, j)
    ensures GapAt(us, j) == GapAt(ts, i) <==> !HarmedAt(ts, i)
  {
    hide Neat, Flags, Laid, Joined, Lookahead, HarmedAt, BehindSelectAt, SpacedAt, BreakAt, GluedAt, IsRunNumber,
        EndsRun;
    SameBreak(ts, i, us, j);
    if BreakAt(ts, i).Some? {
      if HarmedAt(ts, i) { BrokenIsUnharmed(ts, i); }
    } else if i > 0 {
      if GluedAt(ts, i) {
        if IsRunNumber(us[j - 1]) && EndsRun(ts, i - 1) { SpacingRunRun(ts, i, us, j); }
            else { SpacingRunSame(ts, i, us, j); }
      } else {
        SameOfSelect(ts, i, us, j);
        if IsRunNumber(us[j - 1]) && EndsRun(ts, i - 1) { SpacingSameRun(ts, i, us, j); }
            else { SpacingSameSame(ts, i, us, j); }
      }
    } else {
      NoHarmAtStart(ts);
    }
  }

  lemma NoHarmAtStart(ts: seq<Token>)
    requires ts != []
    ensures !HarmedAt(ts, 0)
  {
  }

  // --------------------------------------------------------------------- going on

  lemma {:induction false} SameFlags(ts: seq<Token>, i: nat, us: seq<Token>, j: nat)
    requires i < |ts| && j < |us| && us[j] == ts[i] && Flags(ts, i) == Flags(us, j)
    requires OpensSubquery(UpperAt(ts, i + 1)) <==> OpensSubquery(UpperAt(us, j + 1))
    ensures Flags(ts, i + 1) == Flags(us, j + 1)
  {
    hide OpensSubquery, Upper;
    FlagsMore(ts, i);
    FlagsMore(us, j);
  }

  lemma {:induction false} FlagsMore(ts: seq<Token>, i: nat)
    requires i < |ts|
    ensures var f := Flags(ts, i);
            Flags(ts, i + 1) ==
              if Mark(ts[i], "(") then f + [OpensSubquery(UpperAt(ts, i + 1))]
              else if Mark(ts[i], ")") && f != [] then f[..|f| - 1]
              else f
  {
    hide OpensSubquery, Upper;
    var o := Opened(ts, i);
    if Mark(ts[i], "(") {
      assert Opened(ts, i + 1) == o + [i];
    } else if Mark(ts[i], ")") && o != [] {
      assert Opened(ts, i + 1) == o[..|o| - 1];
    } else {
      assert Opened(ts, i + 1) == o;
    }
  }

  lemma {:induction false} LeftBreakTells(ts: seq<Token>, i: nat, us: seq<Token>, j: nat)
    requires i < |ts| && j < |us| && us[j] == ts[i] && |Opened(ts, i)| == |Opened(us, j)|
    requires (InStatement(ts, i) <==> InStatement(us, j)) && (OfSelect(ts, i) <==> OfSelect(us, j))
    requires (SelectAt(ts, i) <==> SelectAt(us, j)) && Lookahead(UpperAt(ts, i + 1), UpperAt(us, j + 1))
    ensures LeftBreak(ts, i + 1) == LeftBreak(us, j + 1)
  {
    hide Opened, InStatement, SelectAt, OfSelect, IsLineComment, OpensSubquery;
  }

  lemma {:induction false} MakeParallel(ts: seq<Token>, i: nat, us: seq<Token>, j: nat)
    requires 0 < i <= |ts| && 0 < j <= |us|
    requires Flags(ts, i) == Flags(us, j) && Laid(ts, i) == Laid(us, j) && LeftBreak(ts, i) == LeftBreak(us, j)
    requires Lookahead(UpperAt(ts, i), UpperAt(us, j)) && SamePrev(ts, i, us, j)
    requires BehindSelectAt(ts, i) <==> BehindSelectAt(us, j)
    ensures Parallel(ts, i, us, j)
  {
    hide Flags, Laid, LeftBreak, Lookahead, SamePrev, BehindSelectAt;
  }

  lemma {:induction false} ParallelParts(ts: seq<Token>, i: nat, us: seq<Token>, j: nat)
    requires Parallel(ts, i, us, j)
    ensures i <= |ts| && j <= |us| && Flags(ts, i) == Flags(us, j) && Laid(ts, i) == Laid(us, j)
  {
    hide Flags, Laid, LeftBreak, Lookahead, SamePrev, BehindSelectAt;
  }

  lemma {:induction false} AdvanceSame(ts: seq<Token>, i: nat, us: seq<Token>, j: nat)
    requires Neat(ts) && Parallel(ts, i, us, j) && i < |ts| && j < |us| && SameHere(ts, i, us, j) && !GluedAt(ts, i)
    requires GapAt(ts, i) == GapAt(us, j)
    ensures Parallel(ts, i + 1, us, j + 1)
  {
    hide Neat, Parallel, Joined, SelectAt, OfSelect, LeftBreak, GapAt, InStatement, Opened, Flags, SamePrev, Shown,
        UpperAt, GluedAt, SameNext, OpensSubquery;
    NeatIsVisible(ts);
    ParallelParts(ts, i, us, j);
    assert SameNext(UpperAt(ts, i + 1), UpperAt(us, j + 1));
    SameNextOpens(UpperAt(ts, i + 1), UpperAt(us, j + 1));
    SameClauseAt(ts, i, us, j);
    SameOfSelect(ts, i, us, j);
    SameDepths(ts, i, us, j);
    SameFlags(ts, i, us, j);
    LeftBreakTells(ts, i, us, j);
    SamePrevAgain(ts, i, us, j);
    MakeParallel(ts, i + 1, us, j + 1);
  }

  lemma SameNextOpens(a: string, b: string)
    requires SameNext(a, b)
    ensures OpensSubquery(a) <==> OpensSubquery(b)
  {
  }

  lemma SamePrevAgain(ts: seq<Token>, i: nat, us: seq<Token>, j: nat)
    requires i < |ts| && j < |us| && us[j] == ts[i] && !Joined(ts, i)
    ensures SamePrev(ts, i + 1, us, j + 1)
  {
  }

  lemma NeatIsVisible(ts: seq<Token>)
    requires Neat(ts)
    ensures forall t :: t in ts ==> Visible(t)
  {
  }

  /** Inside a run no parenthesis opens or closes. */
  lemma {:induction false} RunKeepsFlags(ts: seq<Token>, i: nat, e: nat)
    requires Neat(ts) && i <= e <= |ts| && forall m :: i <= m < e ==> NumberOrDot(ts[m]) || ExponentWordLike(ts[m])
    ensures Flags(ts, e) == Flags(ts, i)
    decreases e - i
  {
    hide Neat, NumberOrDot, ExponentWordLike, Flags;
    if i < e {
      assert Visible(ts[e - 1]) by { NeatIsVisible(ts); assert ts[e - 1] in ts; }
      NotSpelled(ts[e - 1]);
      FlagsMore(ts, e - 1);
      RunKeepsFlags(ts, i, e - 1);
    }
  }

  /** What is joined is part of a number. */
  lemma JoinedIsRun(ts: seq<Token>, m: nat)
    requires Neat(ts) && m < |ts| && Joined(ts, m)
    ensures NumberOrDot(ts[m]) || ExponentWordLike(ts[m])
  {
    hide Coherent, HasExponent, ExponentWordLike, OwnBreak;
    assert ts[m] in ts && ts[m - 1] in ts;
  }

  lemma {:induction false} AdvanceRun(ts: seq<Token>, i: nat, us: seq<Token>, j: nat, e: nat)
    requires Neat(ts) && Parallel(ts, i, us, j) && j < |us| && i + 1 < e <= |ts| && NumberOrDot(ts[i])
    requires IsRunNumber(us[j]) && Shown(us[j]) == us[j].text && forall m :: i < m < e ==> Joined(ts, m)
    requires ts[i].text + Rest(ts, i + 1) == us[j].text + Rest(ts, e)
    requires GapAt(ts, i) == GapAt(us, j) && Lookahead(UpperAt(ts, e), UpperAt(us, j + 1))
    ensures Parallel(ts, e, us, j + 1)
  {
    hide Neat, Parallel, Joined, SelectAt, OfSelect, LeftBreak, GapAt, Flags, SamePrev, Rest, Shown, NumberOrDot,
        ExponentWordLike;
    hide IsRunNumber, Lookahead, Visible, UpperAt;
    ParallelParts(ts, i, us, j);
    forall m | i <= m < e ensures NumberOrDot(ts[m]) || ExponentWordLike(ts[m]) { if i < m { JoinedIsRun(ts, m); } }
    RunKeepsFlags(ts, i, e);
    FlagsMore(us, j);
    RunNumberOwnsNothing(us, j);
    assert Visible(ts[e - 1]) by { NeatIsVisible(ts); assert ts[e - 1] in ts; }
    BehindRun(ts, e);
    NotOfSelect(ts, e - 1);
    RunIsLaid(ts, i, e, us[j].text);
    SamePrevRun(ts, e, us, j);
    MakeParallel(ts, e, us, j + 1);
  }

  lemma SamePrevRun(ts: seq<Token>, e: nat, us: seq<Token>, j: nat)
    requires 0 < e <= |ts| && j < |us| && IsRunNumber(us[j])
    requires Joined(ts, e - 1) && (NumberOrDot(ts[e - 1]) || ExponentWordLike(ts[e - 1]))
    ensures SamePrev(ts, e, us, j + 1)
  {
  }

  /** The run's number takes up exactly the layout of the run. */
  lemma RunIsLaid(ts: seq<Token>, i: nat, e: nat, number: string)
    requires Neat(ts) && i < e <= |ts| && ts[i].text + Rest(ts, i + 1) == number + Rest(ts, e)
    ensures Laid(ts, e) == Laid(ts, i) + GapAt(ts, i) + number
  {
    hide Coherent, Visible, GapAt, Rest, TrimEnd, Laid;
    assert Shown(ts[i]) == ts[i].text by { assert ts[i] in ts; }
    LaidIsWhole(ts, i);
    LaidIsWhole(ts, e);
    RestFrom(ts, i);
    var a, b := Laid(ts, i) + GapAt(ts, i) + number, Laid(ts, e);
    assert a + Rest(ts, e) == Laid(ts, i) + (GapAt(ts, i) + (number + Rest(ts, e)));
    SameHead(a, b, Rest(ts, e));
  }

  lemma SameHead(a: string, b: string, x: string)
    requires a + x == b + x
    ensures a == b
  {
    assert |a| == |b|;
    assert a == (a + x)[..|a|] && b == (b + x)[..|b|];
  }

  // ---------------------------------------------------------------------- whole lists

  lemma UnspelledLooks(a: Token, b: Token)
    requires !Spelled(a) && !Spelled(b)
    ensures Lookahead(Upper(a.text), Upper(b.text))
  {
    hide Upper, JOIN_PREFIX;
  }

  /** Where nothing is joined, the next token read looks like the next token. */
  lemma {:induction false} NextLooks(ts: seq<Token>, e: nat, us: seq<Token>, j: nat)
    requires Neat(ts) && e <= |ts| && (e < |ts| ==> !Joined(ts, e))
    requires j <= |us| && us[j..] == Significant(Tokens(Rest(ts, e)))
    ensures Lookahead(UpperAt(ts, e), UpperAt(us, j))
  {
    hide Neat, Joined, Tokens, Significant, Rest, GluedAt, Lookahead, Upper, Spelled, ReadsRun;
    if e == |ts| {
      NoRest(ts);
      NothingReads();
      assert us[j..] == [] && Lookahead("", "") by { LooksTheSame(""); }
    } else {
      var b, r, e' := ReadAt(ts, e);
      assert us[j..][0] == us[j] == b;
      if GluedAt(ts, e) {
        GluedIsNoComment(ts, e);
        assert Visible(ts[e]) by { NeatIsVisible(ts); assert ts[e] in ts; }
        NotSpelled(ts[e]);
        RunIsRunNumber(ts, e, b, r, e');
        RunNumberNotSpelled(b);
        UnspelledLooks(ts[e], b);
      } else {
        LooksTheSame(Upper(b.text));
      }
    }
  }

  lemma NothingReads()
    ensures Significant(Tokens("")) == []
  {
  }

  lemma LooksTheSame(a: string)
    ensures Lookahead(a, a)
  {
  }

  lemma RunIsRunNumber(ts: seq<Token>, i: nat, b: Token, r: string, e: nat)
    requires i + 1 < e <= |ts| && ReadsRun(ts, i, b, r, e)
    ensures IsRunNumber(b)
  {
  }

  /** Blanks of different length in front of something visible make different texts. */
  lemma {:induction false} SameBlanks(head: string, g: string, x: string, h: string, y: string)
    requires Blank(g) && Blank(h) && x != "" && y != "" && !IsSpace(x[0]) && !IsSpace(y[0])
    requires head + g + x == head + h + y
    ensures g == h
  {
    var s := head + g + x;
    assert s[|head| + |g|] == x[0] && s[|head| + |h|] == y[0];
    assert forall k :: 0 <= k < |g| ==> s[|head| + k] == g[k];
    assert forall k :: 0 <= k < |h| ==> s[|head| + k] == h[k];
    assert |g| == |h|;
    assert g == s[|head|..|head| + |g|] && h == s[|head|..|head| + |h|];
  }

  lemma LaidFrom(ts: seq<Token>, i: nat)
    requires i < |ts|
    ensures Laid(ts, |ts|) == Laid(ts, i) + GapAt(ts, i) + (Shown(ts[i]) + Rest(ts, i + 1))
  {
    hide GapAt, Rest, Shown, Laid;
    LaidIsWhole(ts, i);
    RestFrom(ts, i);
    assert Laid(ts, i) + (GapAt(ts, i) + (Shown(ts[i]) + Rest(ts, i + 1))) == Laid(ts, i) + GapAt(ts, i)
        + (Shown(ts[i]) + Rest(ts, i + 1));
  }

  /** Where a gap differs, the texts do. */
  lemma {:induction false} GapShows(ts: seq<Token>, i: nat, us: seq<Token>, j: nat)
    requires i < |ts| && j < |us| && Laid(ts, i) == Laid(us, j) && GapAt(ts, i) != GapAt(us, j)
    requires Shown(ts[i]) != "" && Shown(us[j]) != "" && !IsSpace(Shown(ts[i])[0]) && !IsSpace(Shown(us[j])[0])
    ensures Laid(us, |us|) != Laid(ts, |ts|)
  {
    hide GapAt, Rest, Shown, Laid, IsSpace, Blank;
    LaidFrom(ts, i);
    LaidFrom(us, j);
    GapIsBlank(ts, i);
    GapIsBlank(us, j);
    var x, y := Shown(ts[i]) + Rest(ts, i + 1), Shown(us[j]) + Rest(us, j + 1);
    assert x[0] == Shown(ts[i])[0] && y[0] == Shown(us[j])[0];
    if Laid(us, |us|) == Laid(ts, |ts|) { SameBlanks(Laid(ts, i), GapAt(ts, i), x, GapAt(us, j), y); }
  }

  /** Behind a number any token but punctuation keeps its distance. */
  lemma GapBehindNumber(us: seq<Token>, j: nat)
    requires 0 < j < |us| && IsRunNumber(us[j - 1]) && us[j].kind != Punctuation
    ensures GapAt(us, j) != "" && IsSpace(GapAt(us, j)[0])
  {
    hide BreakAt;
    RunNumberKind(us[j - 1]);
    GapIsBlank(us, j);
  }

  /** What is left of a word is no punctuation. */
  lemma LeftoverReads(ts: seq<Token>, e: nat, r: string)
    requires Neat(ts) && 0 < e <= |ts| && ExponentWordLike(ts[e - 1]) && r != "" && WordEnd(r, ts[e - 1])
    ensures var us := Significant(Tokens(r + Rest(ts, e))); us != [] && us[0].kind != Punctuation
    ensures !IsSpace(r[0])
  {
    hide Coherent, Tokens, Significant, Weave, GapAt, Fits, TokenLength, StopsNumber, Visible, KindOf;
    var x := r + Rest(ts, e);
    NeatFits(ts, e - 1);
    RestIs(ts, e);
    assert Visible(ts[e - 1]);
    TightRun(ts[e - 1]);
    assert ts[e - 1].text != "." by { assert ts[e - 1].text[0] != '.'; }
    HeadStops(ts[e - 1], Gaps(ts)[e..], ts[e..]);
    SameStop(Rest(ts, e));
    if IsDigit(r[0]) { DigitsInWord(r, Rest(ts, e)); } else { RunInWord(r, Rest(ts, e)); }
    CutToken(x);
    ReadsOn(x);
    NotPunctKind(x[..TokenLength(x)], Peek(x[TokenLength(x)..]));
  }

  lemma NotPunctKind(a: string, next: string)
    requires a != "" && ClassOf(a) != Punct
    ensures KindOf(a, next) != Punctuation
  {
  }

  /** Where a word is cut in two, the texts differ. */
  lemma {:induction false} CutShows(ts: seq<Token>, i: nat, us: seq<Token>, j: nat, r: string, e: nat)
    requires Neat(ts) && i < |ts| && j + 1 < |us| && ReadsTo(ts, i, us[j], r, e) && IsRunNumber(us[j])
    requires Laid(ts, i) == Laid(us, j) && GapAt(ts, i) == GapAt(us, j)
    requires us[j + 1].kind != Punctuation && r != "" && !IsSpace(r[0])
    ensures Laid(us, |us|) != Laid(ts, |ts|)
  {
    hide Neat, GapAt, Rest, Laid, IsSpace, Tokens, Significant, IsRunNumber;
    assert Shown(ts[i]) == ts[i].text by { NeatFits(ts, i); }
    LaidFrom(ts, i);
    LaidFrom(us, j);
    RestFrom(us, j + 1);
    GapBehindNumber(us, j + 1);
    var front, mine, theirs := Laid(ts, i) + GapAt(ts, i), r + Rest(ts, e), Rest(us, j + 1);
    assert mine[0] == r[0] && theirs[0] == GapAt(us, j + 1)[0];
    Behind(front, us[j].text, mine);
    Behind(front, us[j].text, theirs);
    assert (front + (us[j].text + mine))[|front| + |us[j].text|] != (front + (us[j].text + theirs))[|front|
        + |us[j].text|];
  }

  lemma Behind(a: string, b: string, c: string)
    requires c != ""
    ensures (a + (b + c))[|a| + |b|] == c[0]
  {
  }

  /** Inside a run no other harm is done. */
  lemma InsideRun(ts: seq<Token>, m: nat)
    requires Neat(ts) && m < |ts| && Joined(ts, m)
    requires (m + 1 < |ts| && Joined(ts, m + 1)) || !HarmedInside(ts, m)
    ensures !Harmed(ts, m)
  {
    hide Coherent, HasExponent, OwnBreak, LeftBreak;
    JoinedIsRun(ts, m);
    assert ts[m] in ts;
    NotSpelled(ts[m]);
  }

  lemma NotJoinedNotInside(ts: seq<Token>, i: nat)
    requires i < |ts| && !Joined(ts, i)
    ensures Harmed(ts, i) <==> HarmedAt(ts, i)
  {
  }

  lemma {:induction false} Simulate(ts: seq<Token>, i: nat, us: seq<Token>, j: nat)
    requires Neat(ts) && Parallel(ts, i, us, j) && (i < |ts| ==> !Joined(ts, i))
    requires us[j..] == Significant(Tokens(Rest(ts, i)))
    ensures Laid(us, |us|) == Laid(ts, |ts|) <==> forall m :: i <= m < |ts| ==> !Harmed(ts, m)
    decreases |ts| - i
  {
    hide Neat, Parallel, Joined, Tokens, Significant, Rest, GluedAt, Lookahead, Laid, GapAt, Harmed, HarmedAt,
        HarmedInside, SameHere;
    hide ReadsRun, IsRunNumber, Shown, UpperAt, IsSpace, WordEnd, NumberOrDot, ExponentWordLike;
    ParallelParts(ts, i, us, j);
    if i == |ts| {
      NoRest(ts);
      NothingReads();
      assert us[j..] == [] && j == |us|;
    } else {
      var b, r, e := ReadAt(ts, i);
      var behind := r + Rest(ts, e);
      assert us[j..][0] == us[j] == b && us[j..][1..] == us[j + 1..];
      assert us[j + 1..] == Significant(Tokens(behind));
      NotJoinedNotInside(ts, i);
      HereIsSame(ts, i, us, j, b, r, e);
      SameGap(ts, i, us, j);
      ShownStarts(ts, i, b, r, e);
      if HarmedAt(ts, i) {
        GapShows(ts, i, us, j);
      } else if r != "" {
        RunCut(ts, i, b, r, e);
        LeftoverReads(ts, e, r);
        assert us[j + 1..][0] == us[j + 1];
        CutShows(ts, i, us, j, r, e);
      } else {
        assert behind == Rest(ts, e);
        NextLooks(ts, e, us, j + 1);
        Advance(ts, i, us, j, e);
        Simulate(ts, e, us, j + 1);
        forall m | i < m < e ensures !Harmed(ts, m) { InsideReads(ts, i, b, e, m); }
      }
    }
  }

  lemma HereIsSame(ts: seq<Token>, i: nat, us: seq<Token>, j: nat, b: Token, r: string, e: nat)
    requires Neat(ts) && i < |ts| && !Joined(ts, i) && j < |us| && us[j] == b && ReadsWhole(ts, i, b, r, e)
    requires us[j + 1..] == Significant(Tokens(r + Rest(ts, e)))
    ensures SameHere(ts, i, us, j)
  {
    hide Neat, Joined, Tokens, Significant, Rest, GluedAt, Lookahead, ReadsRun, IsRunNumber, NumberOrDot, UpperAt,
        KindOf;
    if GluedAt(ts, i) {
      GluedIsNoComment(ts, i);
      RunIsRunNumber(ts, i, b, r, e);
    } else {
      ReadsItself(ts, i, b, r, e);
      assert r + Rest(ts, e) == Rest(ts, i + 1);
      NextLooks(ts, i + 1, us, j + 1);
    }
  }

  lemma ShownStarts(ts: seq<Token>, i: nat, b: Token, r: string, e: nat)
    requires Neat(ts) && i < |ts| && ReadsTo(ts, i, b, r, e)
    ensures Shown(ts[i]) != "" && Shown(b) != "" && !IsSpace(Shown(ts[i])[0]) && !IsSpace(Shown(b)[0])
  {
    hide Neat, Tokens, Significant, Rest, IsSpace, TrimEnd;
    NeatFits(ts, i);
    StartsAt(ts, i);
    SameFirst(ts[i].text, Rest(ts, i + 1), b.text, r + Rest(ts, e));
    assert ts[i].text[..1][0] == b.text[..1][0];
  }

  lemma RunCut(ts: seq<Token>, i: nat, b: Token, r: string, e: nat)
    requires Neat(ts) && i < |ts| && ReadsWhole(ts, i, b, r, e) && r != ""
    ensures IsRunNumber(b) && HarmedInside(ts, e - 1) && Harmed(ts, e - 1) && i < e - 1
    ensures ExponentWordLike(ts[e - 1]) && WordEnd(r, ts[e - 1])
  {
    hide Neat, Joined, WordEnd, NumberOrDot, WholeExponent;
  }

  lemma InsideReads(ts: seq<Token>, i: nat, b: Token, e: nat, m: nat)
    requires Neat(ts) && i < m < e && ReadsWhole(ts, i, b, "", e)
    ensures !Harmed(ts, m)
  {
    hide Neat, Joined, Harmed, HarmedInside;
    InsideRun(ts, m);
  }

  lemma Advance(ts: seq<Token>, i: nat, us: seq<Token>, j: nat, e: nat)
    requires Neat(ts) && Parallel(ts, i, us, j) && i < |ts| && j < |us| && SameHere(ts, i, us, j)
    requires ReadsTo(ts, i, us[j], "", e) && ReadsWhole(ts, i, us[j], "", e)
    requires GapAt(ts, i) == GapAt(us, j) && Lookahead(UpperAt(ts, e), UpperAt(us, j + 1))
    ensures Parallel(ts, e, us, j + 1)
  {
    hide Neat, Parallel, Joined, Rest, GluedAt, Lookahead, GapAt, IsRunNumber, Shown, UpperAt, NumberOrDot,
        ExponentWordLike;
    hide Tokens, Significant, HarmedInside;
    if GluedAt(ts, i) {
      assert "" + Rest(ts, e) == Rest(ts, e);
      AdvanceRun(ts, i, us, j, e);
    } else {
      AdvanceSame(ts, i, us, j);
    }
  }

  // -------------------------------------------------------------------- main result

  lemma ShownIsNeat(t: Token, next: string)
    requires Scanned(t, next) && Visible(t)
    ensures var u := Token(t.kind, Shown(t));
            Scanned(u, next) && Visible(u) && Shown(u) == u.text && (Ended(t.text) ==> Ended(u.text))
  {
    ShownIsLexeme(t, next);
    ShownIsSameWord(t);
    KindTellsText(t, next);
  }

  lemma {:induction false} ShownIsCoherent(ts: seq<Token>)
    requires Coherent(ts) && forall t :: t in ts ==> Visible(t)
    ensures Neat(ShownTokens(ts))
  {
    hide Visible, Shown, Lexeme, Ended, KindOf, FirstCode, ClassOf;
    if ts != [] {
      var us := ShownTokens(ts);
      ShownIsCoherent(ts[1..]);
      assert us[1..] == ShownTokens(ts[1..]);
      FirstCodeShown(ts[1..]);
      ShownIsNeat(ts[0], FirstCode(ts[1..]));
      assert forall u :: u in us ==> u == us[0] || u in us[1..];
    }
  }

  /** Trimming formatted text takes off blanks in front only. */
  lemma {:induction false} TrimLeads(w: string)
    requires w != "" && !IsSpace(w[|w| - 1])
    ensures Significant(Tokens(Trim(w))) == Significant(Tokens(w)) && !Blank(w)
  {
    hide Tokens, Significant, IsSpace;
    var k := Span(w, IsSpace);
    assert w == w[..k] + w[k..];
    if k == |w| { SpanCovers(w, IsSpace); }
    assert w[k..][|w| - k - 1] == w[|w| - 1];
    assert Trim(w) == w[k..];
    ScanSkipsBlanks(w[..k], w[k..]);
  }

  lemma LaidEnds(ts: seq<Token>)
    requires Neat(ts) && ts != []
    ensures var w := Laid(ts, |ts|); w != "" && !IsSpace(w[|w| - 1])
  {
    hide Coherent, GapAt, IsSpace;
    var n := |ts| - 1;
    assert ts[n] in ts;
    assert Laid(ts, n + 1)[|Laid(ts, n + 1)| - 1] == Shown(ts[n])[|Shown(ts[n])| - 1];
  }

  lemma ParallelAtStart(ts: seq<Token>, us: seq<Token>)
    requires Lookahead(UpperAt(ts, 0), UpperAt(us, 0))
    ensures Parallel(ts, 0, us, 0) && (ts != [] ==> !Joined(ts, 0))
  {
  }

  /** One pass is enough exactly for the sources whose glued runs all stand where a number
      would: none starts with a dot that a number would keep away from what is before it,
      none ends with a dot in front of a token that a number would keep away from, and
      none cuts a word or takes a function for an exponent. */
  lemma FormatIsStableExactly(sql: string)
    ensures Format(Format(sql)) == Format(sql) <==> Unharmed(ShownTokens(Significant(Tokens(sql))))
  {
    hide Format, Tokens, Significant, Trim, Blank, Visible, Coherent, Laid, Neat, ShownTokens, PrintAll, Harmed,
        Joined, Lookahead;
    NeverFallsBack(sql);
    if Blank(sql) {
      BlankReads(sql);
      NoTokens();
      EmptyFormats();
    } else {
      var ts := SourceIsVisible(sql);
      var shown := ShownTokens(ts);
      TrimReads(sql);
      ShownIsCoherent(ts);
      PrintAllShown(ts);
      NeatIsVisible(shown);
      PrintIsLaid(shown);
      var w := Format(sql);
      LaidEnds(shown);
      TrimLeads(w);
      var us := Significant(Tokens(w));
      FormatIsLaidOut(w);
      assert Rest(shown, 0) == w by { LaidIsWhole(shown, 0); LaidNothing(shown); }
      NextLooks(shown, 0, us, 0) by { NotJoinedAtStart(shown); assert us[0..] == us; }
      ParallelAtStart(shown, us);
      assert us[0..] == us;
      Simulate(shown, 0, us, 0);
    }
  }

  lemma LaidNothing(ts: seq<Token>)
    ensures Laid(ts, 0) == "" && forall x: string :: Laid(ts, 0) + x == x
  {
  }

  lemma NotJoinedAtStart(ts: seq<Token>)
    ensures ts != [] ==> !Joined(ts, 0)
  {
  }

  lemma NoTokens()
    ensures ShownTokens([]) == [] && Unharmed([])
  {
  }

  lemma EmptyFormats()
    ensures Format("") == ""
  {
    NeverFallsBack("");
  }

  // ------------------------------------------------------- what the condition allows

  lemma {:induction false} NothingJoined(ts: seq<Token>, i: nat)
    requires NoClash(ts) && i < |ts|
    ensures !Joined(ts, i)
  {
    hide Clash, OwnBreak;
    if i > 0 { NothingJoined(ts, i - 1); }
  }

  /** Without a clash there is no harm ... */
  lemma NoClashNoHarm(ts: seq<Token>)
    requires NoClash(ts)
    ensures Unharmed(ts)
  {
    hide NoClash, Joined, LeftBreak, OwnBreak;
    forall i | 0 <= i < |ts| ensures !Harmed(ts, i) {
      NothingJoined(ts, i);
      if i > 0 { NothingJoined(ts, i - 1); }
      if i + 1 < |ts| { NothingJoined(ts, i + 1); }
    }
  }

  const FIVE := Token(Number, "5")

  /** ... but a clash need not do any: `1 . 5` does not. */
  lemma ClashMayBeHarmless()
    ensures !NoClash([ONE, DOT, FIVE]) && Unharmed([ONE, DOT, FIVE])
  {
    var ts := [ONE, DOT, FIVE];
    assert Clash(ts[0], ts[1]) && Clash(ts[1], ts[2]);
    ClashIsJoined(ts, 1);
    ClashIsJoined(ts, 2);
    assert !ExponentWordLike(FIVE) && !ExponentWordLike(DOT);
    assert !Harmed(ts, 0) && !Harmed(ts, 1) && !Harmed(ts, 2);
  }
}
