/** Reading the printed text back. */
module SqlRoundTrip {
  import opened Options
  import opened SqlLexer
  import opened SqlLexemes
  import opened SqlTokens
  import opened SqlPrinter
  import opened SqlLayout

  // --------------------------------------------------------- tokens are visible

  /** A token as a scan produces it, in front of the code that starts with `next`. */
  predicate Scanned(t: Token, next: string) {
    Lexeme(t.text) && ClassOf(t.text) != Space && t.kind == KindOf(t.text, next)
  }

  lemma {:induction false} QuoteLast(s: string, q: char)
    requires QuoteTail(s, q) == |s| && QuoteCloses(s, q)
    ensures s != "" && s[|s| - 1] == q
    decreases |s|
  {
    if s[0] != q {
      QuoteLast(s[1..], q);
    } else if |s| > 1 && s[1] == q {
      QuoteLast(s[2..], q);
    }
  }

  lemma EndsVisible(t: string)
    requires Lexeme(t) && Ended(t) && ClassOf(t) != Space && ClassOf(t) != LineComment
    ensures !IsSpace(t[|t| - 1])
  {
    match ClassOf(t)
    case Quoted =>
      QuoteLast(t[1..], t[0]);
    case Numeric =>
      var u := t[1..];
      var d := Span(u, IsDigitOrDot);
      if ExponentAt(u, d) && d + 2 < |u| {
        assert u[d + 2..][|u| - d - 3] == t[|t| - 1];
      }
    case _ =>
  }

  lemma KindTellsText(t: Token, next: string)
    requires Scanned(t, next)
    ensures IsLineComment(t) <==> ClassOf(t.text) == LineComment
    ensures t.kind == Punctuation <==> ClassOf(t.text) == Punct
    ensures t.kind == Number <==> ClassOf(t.text) == Numeric
    ensures !IsSpace(t.text[0])
    ensures t.text == "." ==> t.kind == Punctuation
    ensures t.kind == Number ==> IsDigitOrDot(t.text[0])
  {
    KindShowsClass(t.text, next);
  }

  lemma ScannedIsVisible(t: Token, next: string)
    requires Scanned(t, next)
    requires Ended(t.text) || !IsSpace(t.text[|t.text| - 1])
    ensures Visible(t)
  {
    KindTellsText(t, next);
    if ClassOf(t.text) != LineComment && Ended(t.text) {
      EndsVisible(t.text);
    }
  }

  /** Every token of a coherent list shows, if the last one does. */
  lemma {:induction false} CoherentIsVisible(ts: seq<Token>)
    requires Coherent(ts)
    requires ts != [] ==> var last := ts[|ts| - 1].text; last != "" && !IsSpace(last[|last| - 1])
    ensures forall t :: t in ts ==> Visible(t)
  {
    hide Lexeme, Ended, KindOf, Visible, FirstCode;
    if ts != [] {
      ScannedIsVisible(ts[0], FirstCode(ts[1..]));
      if |ts| > 1 {
        assert ts[1..][|ts| - 2] == ts[|ts| - 1];
      }
      CoherentIsVisible(ts[1..]);
    }
  }

  // ----------------------------------------------------------------- re-reading

  function ShownTokens(ts: seq<Token>): (r: seq<Token>)
    ensures |r| == |ts|
  {
    if ts == [] then [] else [Token(ts[0].kind, Shown(ts[0]))] + ShownTokens(ts[1..])
  }

  lemma {:induction false} TrimEndKeeps(s: string, k: nat)
    requires k < |s| && !IsSpace(s[k])
    ensures |TrimEnd(s)| > k
  {
    if IsSpace(s[|s| - 1]) { TrimEndKeeps(s[..|s| - 1], k); }
  }

  /** Trimming what is shown loses neither the token nor its class. */
  lemma ShownIsLexeme(t: Token, next: string)
    requires Scanned(t, next) && Visible(t)
    ensures Lexeme(Shown(t)) && ClassOf(Shown(t)) == ClassOf(t.text)
    ensures ClassOf(t.text) != LineComment ==> Shown(t) == t.text
    ensures !IsSpace(Shown(t)[0]) && Shown(t)[..1] == t.text[..1]
    ensures forall c :: KindOf(Shown(t), c) == KindOf(t.text, c)
  {
    KindTellsText(t, next);
    if ClassOf(t.text) == LineComment {
      TrimEndKeeps(t.text, 1);
    }
  }

  lemma SeparatorStops(t: string, c: char)
    requires Lexeme(t) && ClassOf(t) != Space && ClassOf(t) != LineComment
    requires IsSpace(c) || (IsPunctuation(c) && !(ClassOf(t) == Numeric && !HasExponent(t) && c == '.'))
    ensures Stops(t, c)
  {
  }

  /** What stands behind `t` in a woven text lets the scanner stop after `t`,
      unless the two tokens clash. */
  lemma GapStops(t: Token, tn: string, gap: string, u: Token, un: string)
    requires Scanned(t, tn) && Scanned(u, un) && Visible(t) && Visible(u)
    requires GapFits(Some(t), gap, u) && !Clash(t, u)
    ensures gap + Shown(u) != "" && Stops(Shown(t), (gap + Shown(u))[0])
  {
    KindTellsText(t, tn);
    KindTellsText(u, un);
    ShownIsLexeme(t, tn);
    ShownIsLexeme(u, un);
    if ClassOf(t.text) == LineComment {
      assert gap[0] == '\n';
    } else if gap != "" {
      SeparatorStops(t.text, gap[0]);
    } else {
      var c := u.text[0];
      assert Shown(u)[..1][0] == c;
      if u.kind == Punctuation {
        SeparatorStops(t.text, c);
      } else {
        assert t.text == "(" || t.text == ".";
        assert IsDigit(c) ==> ClassOf(u.text) == Numeric;
      }
    }
  }

  lemma NumberTakesDot(t: string, rest: string)
    requires Lexeme(t) && ClassOf(t) == Numeric && !HasExponent(t)
    requires rest != "" && rest[0] == '.'
    ensures TokenLength(t + rest) > |t|
  {
    ExponentPlace(t);
    var tail := t[1..] + rest;
    assert (t + rest)[1..] == tail;
    assert forall i :: 0 <= i < |t| - 1 ==> tail[i] == t[1..][i];
    assert tail[|t| - 1] == '.';
    assert (t + rest)[0] == t[0];
    assert t[0] == '.' ==> (t + rest)[1] == t[1];
  }

  lemma DotTakesDigit(rest: string)
    requires rest != "" && IsDigit(rest[0])
    ensures TokenLength("." + rest) > 1
  {
    assert ("." + rest)[1..] == rest;
    assert ("." + rest)[1] == rest[0];
  }

  /** Clashing tokens that touch are read as one longer token. */
  lemma ClashGlues(t: Token, tn: string, u: Token, un: string, rest: string)
    requires Scanned(t, tn) && Scanned(u, un) && Visible(t) && Visible(u) && Clash(t, u)
    ensures TokenLength(Shown(t) + (Shown(u) + rest)) > |Shown(t)|
  {
    hide TokenLength, TrimEnd;
    KindTellsText(t, tn);
    KindTellsText(u, un);
    ShownIsLexeme(t, tn);
    ShownIsLexeme(u, un);
    assert (u.text + rest)[0] == u.text[0];
    if t.text == "." {
      DotTakesDigit(u.text + rest);
    } else {
      NumberTakesDot(t.text, u.text + rest);
    }
  }

  lemma TailOfWeave(gaps: seq<string>, ts: seq<Token>)
    requires |gaps| == |ts| && |ts| > 1
    ensures Weave(gaps, ts) == gaps[0] + (Shown(ts[0]) + Weave(gaps[1..], ts[1..]))
    ensures Weave(gaps[1..], ts[1..]) == gaps[1] + (Shown(ts[1]) + Weave(gaps[2..], ts[2..]))
  {
    assert gaps[1..][1..] == gaps[2..] && ts[1..][1..] == ts[2..];
  }

  lemma {:induction false} FirstCodeShown(ts: seq<Token>)
    requires Coherent(ts)
    ensures FirstCode(ShownTokens(ts)) == FirstCode(ts)
  {
    if ts != [] {
      FirstCodeShown(ts[1..]);
      KindTellsText(ts[0], FirstCode(ts[1..]));
      TrimEndKeeps(ts[0].text, 0);
      assert ShownTokens(ts)[1..] == ShownTokens(ts[1..]);
    }
  }

  /** One token read off a text that goes on behind it. */
  lemma ReadOne(t: Token, tn: string, rest: string)
    requires Scanned(t, tn) && Visible(t)
    requires rest == "" || (Ended(t.text) && Stops(Shown(t), rest[0]))
    ensures Significant(Tokens(Shown(t) + rest))
         == [Token(KindOf(t.text, Peek(rest)), Shown(t))] + Significant(Tokens(rest))
  {
    ShownIsLexeme(t, tn);
    ExtendToken(Shown(t), rest);
    assert (Shown(t) + rest)[..|Shown(t)|] == Shown(t) && (Shown(t) + rest)[|Shown(t)|..] == rest;
    KindShowsClass(Shown(t), Peek(rest));
  }

  lemma ReadGlued(t: Token, tn: string, u: Token, un: string, rest: string)
    requires Scanned(t, tn) && Scanned(u, un) && Visible(t) && Visible(u) && Clash(t, u)
    ensures var r := Significant(Tokens(Shown(t) + (Shown(u) + rest))); r == [] || r[0].text != Shown(t)
  {
    ClashGlues(t, tn, u, un, rest);
    ShownIsLexeme(t, tn);
    var s := Shown(t) + (Shown(u) + rest);
    assert s[0] == Shown(t)[0];
    var n := TokenLength(s);
    KindShowsClass(s[..n], Peek(s[n..]));
    CutToken(s);
  }

  lemma OneWoven(gaps: seq<string>, ts: seq<Token>)
    requires |gaps| == |ts| && ts != [] && Blank(gaps[0])
    requires Visible(ts[0])
    ensures Significant(Tokens(Weave(gaps, ts)))
         == Significant(Tokens(Shown(ts[0]) + Weave(gaps[1..], ts[1..])))
  {
    hide Tokens, Significant, Coherent, FirstCode;
    var rest := Shown(ts[0]) + Weave(gaps[1..], ts[1..]);
    TrimEndKeeps(ts[0].text, 0);
    assert rest[0] == ts[0].text[0];
    assert Weave(gaps, ts) == gaps[0] + rest;
    ScanSkipsBlanks(gaps[0], rest);
  }

  /** Reading a woven text gives its tokens back exactly when no two neighbours
      clash. */
  lemma {:induction false} WeaveReadsBack(prev: Option<Token>, gaps: seq<string>, ts: seq<Token>)
    requires |gaps| == |ts| && GapsFit(prev, gaps, ts)
    requires Coherent(ts) && forall t :: t in ts ==> Visible(t)
    ensures Significant(Tokens(Weave(gaps, ts))) == ShownTokens(ts) <==> NoClash(ts)
    decreases |ts|
  {
    hide Visible, Weave, Shown, Tokens, Peek, KindOf, Lexeme, Ended, ClassOf, Stops, Clash, NoClash, FirstCode;
    if ts == [] {
      assert NoClash(ts) && Tokens(Weave(gaps, ts)) == [] by { EmptyReads(gaps, ts); }
    } else {
      var t, tn := ts[0], FirstCode(ts[1..]);
      var rest := Weave(gaps[1..], ts[1..]);
      OneWoven(gaps, ts);
      WeaveReadsBack(Some(t), gaps[1..], ts[1..]);
      if |ts| == 1 {
        EmptyReads(gaps[1..], ts[1..]);
        EmptyReads(gaps, ts);
        ReadOne(t, tn, rest);
        PeekIsHonest(rest);
        FirstCodeShown(ts[1..]);
      } else {
        TailOfWeave(gaps, ts);
        NoClashSplit(ts);
        if Clash(t, ts[1]) {
          assert gaps[1] == "";
          assert rest == Shown(ts[1]) + Weave(gaps[2..], ts[2..]);
          ReadGlued(t, tn, ts[1], FirstCode(ts[2..]), Weave(gaps[2..], ts[2..]));
        } else {
          GapStops(t, tn, gaps[1], ts[1], FirstCode(ts[2..]));
          assert rest == (gaps[1] + Shown(ts[1])) + Weave(gaps[2..], ts[2..]);
          ReadOne(t, tn, rest);
          PeekIsHonest(rest);
          FirstCodeShown(ts[1..]);
          assert Significant(Tokens(Shown(t) + rest))[1..] == Significant(Tokens(rest));
          assert ShownTokens(ts)[1..] == ShownTokens(ts[1..]);
        }
      }
    }
  }

  lemma EmptyReads(gaps: seq<string>, ts: seq<Token>)
    requires |gaps| == |ts| <= 1
    ensures NoClash(ts)
    ensures ts == [] ==> Weave(gaps, ts) == "" && Tokens(Weave(gaps, ts)) == []
  {
  }

  lemma NoClashSplit(ts: seq<Token>)
    requires |ts| > 1
    ensures NoClash(ts) <==> !Clash(ts[0], ts[1]) && NoClash(ts[1..])
  {
  }
}
