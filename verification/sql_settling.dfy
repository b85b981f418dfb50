/** Formatting settles. Clashing tokens are glued by the first pass and read as
    other tokens by a second one; but whatever they are read as, no two of those
    clash, so the second pass reads back and a third changes nothing. */
module SqlSettling {
  import opened Options
  import opened SqlLexer
  import opened SqlLexemes
  import opened SqlTokens
  import opened SqlPrinter
  import opened SqlLayout
  import opened SqlRoundTrip
  import opened SqlFormatting
  import opened SqlTheorems
  import opened SqlShape

  // --------------------------------------------------- places inside a woven text

  /** What stands behind the token `prev` in a woven text. */
  predicate Fits(prev: Token, gaps: seq<string>, ts: seq<Token>) {
    && |gaps| == |ts| && GapsFit(Some(prev), gaps, ts)
    && Coherent(ts) && forall t :: t in ts ==> Visible(t)
  }

  /** `r` is what an exponent has left over of the word `t`. */
  predicate WordEnd(r: string, t: Token) {
    && t.text != "" && ClassOf(t.text) == Word && t.kind != Comment && t.kind != Number
    && |r| <= |t.text| && r == t.text[|t.text| - |r|..] && forall i :: 0 <= i < |r| ==> IsWordChar(r[i])
  }

  predicate Plain(t: Token) { !(t.kind == Number && HasExponent(t.text)) }

  /** The scanner stands behind `prev`, or inside it with `r` still to be read. */
  predicate Landed(prev: Token, r: string, gaps: seq<string>, ts: seq<Token>) {
    Fits(prev, gaps, ts) && (r != "" ==> WordEnd(r, prev))
  }

  /** `a`, read last, ends where `prev` ends. */
  predicate Left(a: string, prev: Token)
    requires a != ""
  {
    && (ClassOf(a) == Numeric && !HasExponent(a) ==> Sticky(prev) && Plain(prev))
    && (a == "." ==> prev.text == ".")
  }

  lemma FitsTail(prev: Token, gaps: seq<string>, ts: seq<Token>)
    requires Fits(prev, gaps, ts) && ts != []
    ensures Fits(ts[0], gaps[1..], ts[1..]) && GapFits(Some(prev), gaps[0], ts[0]) && Blank(gaps[0])
    ensures Scanned(ts[0], FirstCode(ts[1..])) && Visible(ts[0]) && (|ts| > 1 ==> Ended(ts[0].text))
    ensures Weave(gaps, ts) == gaps[0] + (Shown(ts[0]) + Weave(gaps[1..], ts[1..]))
  {
    hide Visible, Shown, KindOf, FirstCode, Lexeme, IsSpace;
  }

  /** Behind a token that is neither an opening parenthesis nor a dot. */
  lemma HeadStops(prev: Token, gaps: seq<string>, ts: seq<Token>)
    requires Fits(prev, gaps, ts) && !TightAfter(Some(prev))
    ensures var w := Weave(gaps, ts); w == "" || IsSpace(w[0]) || IsPunctuation(w[0])
  {
    hide TrimEnd;
    if ts != [] {
      FitsTail(prev, gaps, ts);
      KindTellsText(ts[0], FirstCode(ts[1..]));
      TrimEndKeeps(ts[0].text, 0);
      if gaps[0] == "" {
        assert Weave(gaps, ts)[0] == Shown(ts[0])[0];
      }
    }
  }

  lemma SpanPast(u: string, w: string, p: char -> bool)
    requires forall i :: 0 <= i < |u| ==> p(u[i])
    ensures Span(u + w, p) == |u| + Span(w, p)
  {
    var n := Span(u + w, p);
    assert forall i :: 0 <= i < |w| ==> (u + w)[|u| + i] == w[i];
    assert forall i :: 0 <= i < |u| ==> (u + w)[i] == u[i];
  }

  // --------------------------------------------------------------- a run of digits

  predicate ExponentPart(r: string) { ExponentAt(r, 0) && Span(r[2..], IsDigit) == |r| - 2 }

  /** What a digit or a dot at the start of a token tells of it. */
  lemma NumberParts(t: Token, next: string)
    requires Scanned(t, next) && Visible(t)
    ensures IsDigitOrDot(t.text[0]) ==> t.text == "." || t.kind == Number
    ensures t.kind == Number || t.text == "." ==> Shown(t) == t.text && !IsLineComment(t)
    ensures t.kind == Number && !HasExponent(t.text) ==> forall i :: 0 <= i < |t.text| ==> IsDigitOrDot(t.text[i])
    ensures t.kind == Number && HasExponent(t.text) ==>
      var d := Span(t.text, IsDigitOrDot); d < |t.text| && ExponentPart(t.text[d..])
  {
    hide TrimEnd, HasExponent, ExponentPart;
    KindTellsText(t, next);
    ShownIsLexeme(t, next);
    if t.kind == Number { LexemeDigits(t.text); }
  }

  lemma LexemeDigits(u: string)
    requires u != "" && Lexeme(u) && ClassOf(u) == Numeric
    ensures !HasExponent(u) ==> forall i :: 0 <= i < |u| ==> IsDigitOrDot(u[i])
    ensures HasExponent(u) ==> var d := Span(u, IsDigitOrDot); d < |u| && ExponentPart(u[d..])
  {
    hide HasExponent, Span, ExponentAt, ExponentPart, Lexeme, NumberTail, IsDigit;
    var v := u[1..];
    var d := Span(v, IsDigitOrDot);
    ExponentPlace(u);
    assert u[..1] + v == u;
    assert IsDigitOrDot(u[0]);
    SpanPast(u[..1], v, IsDigitOrDot);
    if HasExponent(u) {
      assert NumberTail(v) == |v| by { LexemeTail(u); }
      ExponentEnds(v);
      assert u[d + 1..] == v[d..];
    } else {
      SpanCovers(v, IsDigitOrDot);
      assert forall i :: 1 <= i < |u| ==> u[i] == v[i - 1];
    }
  }

  lemma LexemeTail(u: string)
    requires Lexeme(u) && ClassOf(u) == Numeric
    ensures NumberTail(u[1..]) == |u| - 1
  {
  }

  lemma ExponentEnds(v: string)
    requires var d := Span(v, IsDigitOrDot); ExponentAt(v, d) && NumberTail(v) == |v|
    ensures var d := Span(v, IsDigitOrDot); d < |v| && ExponentPart(v[d..])
  {
    hide Span, HasExponent, IsDigit;
    var d := Span(v, IsDigitOrDot);
    ExponentShifts(v, v[d..], d);
  }

  lemma SpanCovers(s: string, p: char -> bool)
    requires Span(s, p) == |s|
    ensures forall i :: 0 <= i < |s| ==> p(s[i])
  {
  }

  /** The first character of a woven text. */
  lemma StartOfWeave(gaps: seq<string>, ts: seq<Token>)
    requires |gaps| == |ts| && ts != [] && Blank(gaps[0]) && Visible(ts[0])
    ensures gaps[0] == "" ==> Weave(gaps, ts) == Shown(ts[0]) + Weave(gaps[1..], ts[1..])
    ensures var w := Weave(gaps, ts); w != "" && w[0] == if gaps[0] == "" then ts[0].text[0] else gaps[0][0]
  {
    hide TrimEnd, IsSpace;
    TrimEndKeeps(ts[0].text, 0);
    var rest := Weave(gaps[1..], ts[1..]);
    assert Weave(gaps, ts) == gaps[0] + (Shown(ts[0]) + rest);
    if gaps[0] == "" {
      assert "" + (Shown(ts[0]) + rest) == Shown(ts[0]) + rest;
      assert (Shown(ts[0]) + rest)[0] == Shown(ts[0])[0];
    }
  }

  predicate PlainDot(t: Token) { t.text == "." || (t.kind == Number && !HasExponent(t.text)) }

  predicate NumberOrDot(t: Token) { t.text == "." || t.kind == Number }

  /** The tokens that a run of digits and dots takes up: plain numbers and dots, and
      at most one number with an exponent, the last. */
  predicate RunTokens(gaps: seq<string>, ts: seq<Token>, k: nat, r: string)
    requires |gaps| == |ts|
  {
    && k <= |ts|
    && (forall m :: 0 <= m < k ==> gaps[m] == "")
    && (forall m :: 0 <= m < k - 1 ==> PlainDot(ts[m]))
    && (if k == 0 then r == "" else NumberOrDot(ts[k - 1]) && (r == "" <==> PlainDot(ts[k - 1])))
    && (r == "" ==> k == |ts| || gaps[k] != "" || !NumberOrDot(ts[k]))
  }

  /** The run of digits and dots at the start of the woven text ends with `r` of
      the token before place `k` still to be read. */
  predicate RunEnds(gaps: seq<string>, ts: seq<Token>, k: nat, r: string)
    requires |gaps| == |ts|
  {
    var w := Weave(gaps, ts);
    && k <= |ts| && w[Span(w, IsDigitOrDot)..] == r + Weave(gaps[k..], ts[k..])
    && (k > 0 ==> Fits(ts[k - 1], gaps[k..], ts[k..]))
    && (r != "" ==> k > 0 && ExponentPart(r) && ts[k - 1].kind == Number)
    && (r == "" && k > 0 ==> Sticky(ts[k - 1]) && Plain(ts[k - 1]))
  }

  lemma RunStopsAtOnce(gaps: seq<string>, ts: seq<Token>)
    requires |gaps| == |ts|
    requires var w := Weave(gaps, ts); w == "" || !IsDigitOrDot(w[0])
    ensures RunEnds(gaps, ts, 0, "")
  {
    hide Weave;
    var w := Weave(gaps, ts);
    assert gaps[0..] == gaps && ts[0..] == ts && w[0..] == "" + w;
  }

  /** A number or a dot that touches what stands before it. */
  lemma TightNumber(prev: Token, gaps: seq<string>, ts: seq<Token>)
    requires |gaps| == |ts| && Fits(prev, gaps, ts) && ts != [] && gaps[0] == ""
        && (ts[0].kind == Number || ts[0].text == ".")
    ensures Weave(gaps, ts) == ts[0].text + Weave(gaps[1..], ts[1..]) && Fits(ts[0], gaps[1..], ts[1..])
    ensures if ts[0].kind == Number && HasExponent(ts[0].text) then
              var d := Span(ts[0].text, IsDigitOrDot); d < |ts[0].text| && ExponentPart(ts[0].text[d..])
            else Sticky(ts[0]) && Plain(ts[0]) && forall i :: 0 <= i < |ts[0].text| ==> IsDigitOrDot(ts[0].text[i])
  {
    hide Coherent, GapsFit, TrimEnd, HasExponent, KindOf, Lexeme, Weave, FirstCode, ExponentPart, Fits, IsSpace,
        GapFits, IsLineComment;
    FitsTail(prev, gaps, ts);
    NumberParts(ts[0], FirstCode(ts[1..]));
    StartOfWeave(gaps, ts);
  }

  lemma RunStopsInside(prev: Token, gaps: seq<string>, ts: seq<Token>) returns (r: string)
    requires |gaps| == |ts| && Fits(prev, gaps, ts) && ts != [] && gaps[0] == ""
    requires ts[0].kind == Number && HasExponent(ts[0].text)
    ensures RunEnds(gaps, ts, 1, r) && RunTokens(gaps, ts, 1, r)
  {
    hide Fits, HasExponent, Weave, ExponentPart, Sticky, Plain, IsDigitOrDot;
    TightNumber(prev, gaps, ts);
    var t, rest := ts[0].text, Weave(gaps[1..], ts[1..]);
    var d := Span(t, IsDigitOrDot);
    SpanExtend(t, rest, IsDigitOrDot);
    r := t[d..];
    assert (t + rest)[d..] == r + rest;
    assert !HasExponent(".") by { DotHasNoExponent(); }
  }

  lemma MoreTokens(gaps: seq<string>, ts: seq<Token>, k: nat, r: string)
    requires |gaps| == |ts| && ts != [] && gaps[0] == "" && PlainDot(ts[0])
    requires RunTokens(gaps[1..], ts[1..], k, r)
    ensures RunTokens(gaps, ts, k + 1, r)
  {
    hide PlainDot;
    assert NumberOrDot(ts[0]) by { PlainIsNumberOrDot(ts[0]); }
    forall m | 0 <= m < k + 1 ensures gaps[m] == "" && (m < k ==> PlainDot(ts[m])) {
      if m > 0 { assert gaps[1..][m - 1] == gaps[m] && ts[1..][m - 1] == ts[m]; }
    }
    if k > 0 { assert ts[1..][k - 1] == ts[k]; }
    if k + 1 < |ts| { assert gaps[1..][k] == gaps[k + 1] && ts[1..][k] == ts[k + 1]; }
  }

  lemma PlainIsNumberOrDot(t: Token)
    requires PlainDot(t)
    ensures NumberOrDot(t)
  {
  }

  lemma RunGoesOn(prev: Token, gaps: seq<string>, ts: seq<Token>, k: nat, r: string)
    requires |gaps| == |ts| && Fits(prev, gaps, ts) && ts != [] && gaps[0] == ""
    requires ts[0].text == "." || (ts[0].kind == Number && !HasExponent(ts[0].text))
    requires RunEnds(gaps[1..], ts[1..], k, r)
    ensures RunEnds(gaps, ts, k + 1, r)
  {
    hide Fits, HasExponent, Weave, ExponentPart, Sticky, Plain, IsDigitOrDot;
    assert !HasExponent(".") by { DotHasNoExponent(); }
    TightNumber(prev, gaps, ts);
    var t, rest := ts[0].text, Weave(gaps[1..], ts[1..]);
    SpanPast(t, rest, IsDigitOrDot);
    var d := Span(rest, IsDigitOrDot);
    assert (t + rest)[|t| + d..] == rest[d..];
    assert gaps[1..][k..] == gaps[k + 1..] && ts[1..][k..] == ts[k + 1..];
  }

  lemma DotHasNoExponent()
    ensures !HasExponent(".")
  {
  }

  /** Where a run of digits and dots that reaches a woven text ends: behind a
      number or a dot, or at a number's exponent. */
  lemma {:induction false} RunLands(prev: Token, gaps: seq<string>, ts: seq<Token>) returns (k: nat, r: string)
    requires Fits(prev, gaps, ts)
    ensures |gaps| == |ts| && RunEnds(gaps, ts, k, r) && RunTokens(gaps, ts, k, r)
    decreases |ts|
  {
    hide RunEnds, Visible, Coherent, GapsFit, TrimEnd, HasExponent, KindOf, Lexeme, Weave, FirstCode, IsSpace;
    k, r := 0, "";
    if ts == [] {
      assert Weave(gaps, ts) == "" by { EmptyReads(gaps, ts); }
      RunStopsAtOnce(gaps, ts);
    } else {
      FitsTail(prev, gaps, ts);
      NumberParts(ts[0], FirstCode(ts[1..]));
      StartOfWeave(gaps, ts);
      if gaps[0] != "" || !(ts[0].text == "." || ts[0].kind == Number) {
        if gaps[0] != "" { BlanksAreNoDigits(gaps[0]); }
        RunStopsAtOnce(gaps, ts);
      } else if ts[0].kind == Number && HasExponent(ts[0].text) {
        k := 1;
        r := RunStopsInside(prev, gaps, ts);
      } else {
        k, r := RunLands(ts[0], gaps[1..], ts[1..]);
        RunGoesOn(prev, gaps, ts, k, r);
        MoreTokens(gaps, ts, k, r);
        k := k + 1;
      }
    }
  }

  lemma BlanksAreNoDigits(gap: string)
    requires Blank(gap) && gap != ""
    ensures !IsDigitOrDot(gap[0])
  {
  }

  // ------------------------------------------------------------ a number's own end

  /** After `n` characters of the woven text, read as the rest of a number, `r` of
      the token before place `k` is left. */
  predicate TailEnds(gaps: seq<string>, ts: seq<Token>, n: nat, k: nat, r: string)
    requires |gaps| == |ts|
  {
    var w := Weave(gaps, ts);
    && n <= |w| && k <= |ts| && w[n..] == r + Weave(gaps[k..], ts[k..])
    && (k == 0 ==> n == 0 && r == "")
    && (k > 0 ==> Landed(ts[k - 1], r, gaps[k..], ts[k..]))
    && (r == "" && k > 0 ==> HasExponent(w[..n]) || (Sticky(ts[k - 1]) && Plain(ts[k - 1])))
  }

  /** A word that could be an exponent. */
  predicate ExponentWordLike(t: Token) {
    && t.text != "" && ClassOf(t.text) == Word
    && |t.text| > 1 && (t.text[0] == 'e' || t.text[0] == 'E') && IsDigit(t.text[1])
  }

  /** All of it. */
  predicate WholeExponent(t: Token) { forall i :: 1 <= i < |t.text| ==> IsDigit(t.text[i]) }

  /** The tokens that the rest of a number takes up: numbers and dots, and perhaps a
      last word as its exponent, of which `r` is left. */
  predicate TailTokens(gaps: seq<string>, ts: seq<Token>, k: nat, r: string)
    requires |gaps| == |ts|
  {
    && k <= |ts|
    && (forall m :: 0 <= m < k ==> gaps[m] == "")
    && (forall m :: 0 <= m < k - 1 ==> PlainDot(ts[m]))
    && (k > 0 ==> NumberOrDot(ts[k - 1]) || ExponentWordLike(ts[k - 1]))
    && (if k > 0 && ExponentWordLike(ts[k - 1]) then r == "" <==> WholeExponent(ts[k - 1]) else r == "")
    && (k == 0 || PlainDot(ts[k - 1]) ==>
         k == |ts| || gaps[k] != "" || (!NumberOrDot(ts[k]) && !ExponentWordLike(ts[k])))
  }

  lemma WordParts(t: Token, next: string)
    requires Scanned(t, next) && Visible(t) && IsWordStart(t.text[0])
    ensures ClassOf(t.text) == Word && Shown(t) == t.text && t.kind != Comment && t.kind != Number
    ensures !TightAfter(Some(t)) && forall i :: 0 <= i < |t.text| ==> IsWordChar(t.text[i])
  {
    KindTellsText(t, next);
    ShownIsLexeme(t, next);
    KindShowsClass(t.text, next);
  }

  lemma EmptyRun(gaps: seq<string>, ts: seq<Token>, n: nat)
    requires |gaps| == |ts| && n <= |Weave(gaps, ts)| && Weave(gaps, ts)[n..] == Weave(gaps, ts)
    ensures n == 0
  {
  }

  lemma ExponentShifts(w: string, v: string, d: nat)
    requires d <= |w| && w[d..] == v
    ensures ExponentAt(w, d) <==> ExponentAt(v, 0)
    ensures ExponentAt(v, 0) ==> |v| >= 2 && v[2..] == w[d + 2..]
    ensures ExponentAt(v, 0) ==> forall n :: d < n <= |w| ==> HasExponent(w[..n])
  {
    assert forall i :: 0 <= i < |v| ==> v[i] == w[d + i];
    if ExponentAt(v, 0) {
      forall n | d < n <= |w| ensures HasExponent(w[..n]) { assert w[..n][d] == w[d]; }
    }
  }

  /** The exponent of a number seen from where it starts. */
  lemma ExponentHere(w: string, v: string)
    requires var d := Span(w, IsDigitOrDot); w[d..] == v
    ensures ExponentAt(w, Span(w, IsDigitOrDot)) <==> ExponentAt(v, 0)
    ensures ExponentAt(v, 0) ==>
      var n := NumberTail(w); var m := 2 + Span(v[2..], IsDigit);
      n <= |w| && m <= |v| && w[n..] == v[m..] && HasExponent(w[..n])
  {
    hide ExponentAt, HasExponent, IsDigitOrDot, IsDigit;
    var d := Span(w, IsDigitOrDot);
    ExponentShifts(w, v, d);
    if ExponentAt(v, 0) {
      var n := NumberTail(w);
      assert w[n..] == v[n - d..];
    }
  }

  predicate StopsNumber(rest: string) { rest == "" || IsSpace(rest[0]) || IsPunctuation(rest[0]) }

  lemma PartThenStop(r: string, rest: string)
    requires ExponentPart(r) && StopsNumber(rest)
    ensures ExponentAt(r + rest, 0) && 2 + Span((r + rest)[2..], IsDigit) == |r| && (r + rest)[|r|..] == rest
  {
    assert (r + rest)[2..] == r[2..] + rest;
    SpanExtend(r[2..], rest, IsDigit);
  }

  lemma ExponentInside(v: string, rest: string, d: nat)
    requires StopsNumber(rest) && d < |v| && ExponentAt(v + rest, d)
    ensures d + 2 <= |v| && HasExponent(v) && (v + rest)[d + 2..] == v[d + 2..] + rest
  {
    assert (v + rest)[d] == v[d];
    assert v[d] in v;
    assert forall j :: 0 <= j < |rest| ==> (v + rest)[|v| + j] == rest[j];
  }

  lemma WordThenStop(t: string, rest: string) returns (m: nat)
    requires t != "" && StopsNumber(rest) && ExponentAt(t + rest, 0)
    ensures 2 <= m <= |t| && m == 2 + Span((t + rest)[2..], IsDigit) && (t + rest)[m..] == t[m..] + rest
    ensures m == 2 + Span(t[2..], IsDigit)
  {
    hide HasExponent, ExponentAt;
    ExponentInside(t, rest, 0);
    SpanExtend(t[2..], rest, IsDigit);
    m := 2 + Span(t[2..], IsDigit);
  }

  lemma NumberIsNotTight(t: Token)
    requires Visible(t) && t.kind == Number
    ensures !TightAfter(Some(t))
  {
  }

  lemma TokensAtExponent(prev: Token, gaps: seq<string>, ts: seq<Token>, k: nat, r: string)
    requires |gaps| == |ts| && Fits(prev, gaps, ts) && RunTokens(gaps, ts, k, r) && r != ""
    ensures TailTokens(gaps, ts, k, "")
  {
    hide Fits, ExponentWordLike, PlainDot, NumberOrDot;
    NumberIsNoWord(prev, gaps, ts, k - 1);
  }

  lemma TailAtExponent(prev: Token, gaps: seq<string>, ts: seq<Token>, k: nat, r: string)
    requires |gaps| == |ts| && Fits(prev, gaps, ts) && RunEnds(gaps, ts, k, r) && r != ""
    ensures TailEnds(gaps, ts, NumberTail(Weave(gaps, ts)), k, "")
  {
    hide Weave, Sticky, Plain, IsDigitOrDot, HasExponent, GapsFit, Coherent, ExponentAt, ExponentPart, Visible,
        WordEnd, NumberTail;
    NumberIsNotTight(ts[k - 1]);
    HeadStops(ts[k - 1], gaps[k..], ts[k..]);
    var rest := Weave(gaps[k..], ts[k..]);
    PartThenStop(r, rest);
    ExponentHere(Weave(gaps, ts), r + rest);
    assert "" + rest == rest;
  }

  /** A woven text that starts like an exponent starts with a word. */
  lemma ExponentWord(prev: Token, gaps: seq<string>, ts: seq<Token>)
    requires |gaps| == |ts| && Fits(prev, gaps, ts) && ExponentAt(Weave(gaps, ts), 0)
    ensures ts != [] && gaps[0] == "" && ts[0].text != "" && Fits(ts[0], gaps[1..], ts[1..])
        && WordEnd(ts[0].text, ts[0])
    ensures Weave(gaps, ts) == ts[0].text + Weave(gaps[1..], ts[1..]) && StopsNumber(Weave(gaps[1..], ts[1..]))
  {
    hide Weave, GapsFit, Coherent, TrimEnd, Fits, KindOf, Lexeme, GapFits, ClassOf;
    if ts == [] { EmptyReads(gaps, ts); }
    FitsTail(prev, gaps, ts);
    StartOfWeave(gaps, ts);
    WordParts(ts[0], FirstCode(ts[1..]));
    HeadStops(ts[0], gaps[1..], ts[1..]);
  }

  lemma RunEndsAt(prev: Token, gaps: seq<string>, ts: seq<Token>, k: nat)
    requires |gaps| == |ts| && Fits(prev, gaps, ts) && RunEnds(gaps, ts, k, "")
    ensures k <= |ts| && Fits(if k == 0 then prev else ts[k - 1], gaps[k..], ts[k..])
    ensures var w := Weave(gaps, ts); w[Span(w, IsDigitOrDot)..] == Weave(gaps[k..], ts[k..])
  {
    hide Fits, Weave;
    assert "" + Weave(gaps[k..], ts[k..]) == Weave(gaps[k..], ts[k..]);
    assert gaps[0..] == gaps && ts[0..] == ts;
  }

  lemma TailInWord(prev: Token, gaps: seq<string>, ts: seq<Token>, k: nat) returns (r: string)
    requires |gaps| == |ts| && Fits(prev, gaps, ts) && RunEnds(gaps, ts, k, "") && RunTokens(gaps, ts, k, "")
    requires var w := Weave(gaps, ts); ExponentAt(w, Span(w, IsDigitOrDot))
    ensures k < |ts| && TailEnds(gaps, ts, NumberTail(Weave(gaps, ts)), k + 1, r) && TailTokens(gaps, ts, k + 1, r)
  {
    hide Weave, Sticky, Plain, HasExponent, Fits, ExponentAt, IsDigitOrDot, ClassOf, NumberTail, RunEnds, Span,
        IsWordChar;
    hide ExponentWordLike, WholeExponent, PlainDot, NumberOrDot;
    RunEndsAt(prev, gaps, ts, k);
    var gs, us := gaps[k..], ts[k..];
    ExponentHere(Weave(gaps, ts), Weave(gs, us));
    ExponentWord(if k == 0 then prev else ts[k - 1], gs, us);
    var t := us[0].text;
    var m := WordThenStop(t, Weave(gs[1..], us[1..]));
    r := t[m..];
    assert gs[1..] == gaps[k + 1..] && us[1..] == ts[k + 1..];
    assert WordEnd(r, us[0]) by { WordSuffix(t, us[0], m); }
    LooksLikeExponent(us[0], Weave(gs[1..], us[1..]), m);
    assert !PlainDot(us[0]) by { WordIsNotPlain(us[0]); }
  }

  lemma WordIsNotPlain(t: Token)
    requires WordEnd(t.text, t)
    ensures !PlainDot(t)
  {
  }

  lemma {:induction false} LooksLikeExponent(t: Token, rest: string, m: nat)
    requires t.text != "" && WordEnd(t.text, t) && ExponentAt(t.text + rest, 0)
    requires 2 <= m <= |t.text| && m == 2 + Span(t.text[2..], IsDigit)
    ensures ExponentWordLike(t) && (t.text[m..] == "" <==> WholeExponent(t))
  {
    var v := t.text + rest;
    assert v[0] == t.text[0] && v[1] == t.text[1];
    assert forall i :: 2 <= i < |t.text| ==> t.text[i] == t.text[2..][i - 2];
    if m < |t.text| { assert !IsDigit(t.text[m]); }
  }

  lemma WordSuffix(r: string, t: Token, m: nat)
    requires WordEnd(r, t) && m <= |r|
    ensures WordEnd(r[m..], t)
  {
  }

  lemma TailPlain(prev: Token, gaps: seq<string>, ts: seq<Token>, k: nat)
    requires |gaps| == |ts| && Fits(prev, gaps, ts) && RunEnds(gaps, ts, k, "") && RunTokens(gaps, ts, k, "")
    requires var w := Weave(gaps, ts); !ExponentAt(w, Span(w, IsDigitOrDot))
    ensures TailEnds(gaps, ts, NumberTail(Weave(gaps, ts)), k, "") && TailTokens(gaps, ts, k, "")
  {
    hide Fits, HasExponent, Weave, Sticky, Plain, IsDigitOrDot, ExponentAt, WordEnd, ExponentWordLike, RunEnds;
    var w := Weave(gaps, ts);
    RunEndsAt(prev, gaps, ts, k);
    TailEndsAtRun(gaps, ts, k);
    ExponentHere(w, Weave(gaps[k..], ts[k..]));
    if k < |ts| && gaps[k] == "" && ExponentWordLike(ts[k]) {
      WordStartsExponent(if k == 0 then prev else ts[k - 1], gaps[k..], ts[k..]);
    }
    if k > 0 { NumberIsNoWord(prev, gaps, ts, k - 1); }
  }

  lemma TailEndsAtRun(gaps: seq<string>, ts: seq<Token>, k: nat)
    requires |gaps| == |ts| && RunEnds(gaps, ts, k, "")
    requires var w := Weave(gaps, ts); !ExponentAt(w, Span(w, IsDigitOrDot))
    ensures TailEnds(gaps, ts, NumberTail(Weave(gaps, ts)), k, "")
  {
    hide Fits, HasExponent, Weave, Sticky, Plain, IsDigitOrDot, ExponentAt, WordEnd;
    var w := Weave(gaps, ts);
    if k == 0 {
      assert gaps[0..] == gaps && ts[0..] == ts && "" + w == w;
      EmptyRun(gaps, ts, Span(w, IsDigitOrDot));
    }
  }

  lemma WordStartsExponent(prev: Token, gaps: seq<string>, ts: seq<Token>)
    requires |gaps| == |ts| && ts != [] && Fits(prev, gaps, ts) && gaps[0] == "" && ExponentWordLike(ts[0])
    ensures ExponentAt(Weave(gaps, ts), 0)
  {
    hide Coherent, GapsFit, TrimEnd, KindOf, Lexeme, Weave, FirstCode, Fits, IsSpace, GapFits;
    FitsTail(prev, gaps, ts);
    StartOfWeave(gaps, ts);
    WordParts(ts[0], FirstCode(ts[1..]));
  }

  lemma NumberIsNoWord(prev: Token, gaps: seq<string>, ts: seq<Token>, i: nat)
    requires Fits(prev, gaps, ts) && i < |ts| && NumberOrDot(ts[i])
    ensures !ExponentWordLike(ts[i])
  {
    hide GapsFit, Coherent;
    assert Visible(ts[i]);
  }

  /** The rest of a number that reaches a woven text ends behind a token, or inside
      a word that looks like an exponent. */
  lemma TailLands(prev: Token, gaps: seq<string>, ts: seq<Token>) returns (k: nat, r: string)
    requires |gaps| == |ts| && Fits(prev, gaps, ts)
    ensures TailEnds(gaps, ts, NumberTail(Weave(gaps, ts)), k, r) && TailTokens(gaps, ts, k, r)
  {
    hide Fits, RunEnds, TailEnds, Weave, ExponentAt, RunTokens, TailTokens;
    k, r := RunLands(prev, gaps, ts);
    var w := Weave(gaps, ts);
    if r != "" {
      TailAtExponent(prev, gaps, ts, k, r);
      TokensAtExponent(prev, gaps, ts, k, r);
      r := "";
    } else if ExponentAt(w, Span(w, IsDigitOrDot)) {
      r := TailInWord(prev, gaps, ts, k);
      k := k + 1;
    } else {
      TailPlain(prev, gaps, ts, k);
    }
  }

  // ---------------------------------------------------------------- one token read

  /** Having read `a`, with `x` to come, the scanner stands behind place `k`. */
  predicate Reaches(prev: Token, gaps: seq<string>, ts: seq<Token>, x: string, a: string, k: nat, r: string)
    requires |gaps| == |ts|
  {
    && a != "" && k <= |ts| && x == r + Weave(gaps[k..], ts[k..])
    && var last := if k == 0 then prev else ts[k - 1];
       Landed(last, r, gaps[k..], ts[k..]) && (r == "" ==> Left(a, last))
  }

  lemma ReachesHere(prev: Token, gaps: seq<string>, ts: seq<Token>, a: string, r: string)
    requires Fits(prev, gaps, ts) && a != ""
    requires if r == "" then Left(a, prev) else WordEnd(r, prev)
    ensures Reaches(prev, gaps, ts, r + Weave(gaps, ts), a, 0, r)
  {
    assert gaps[0..] == gaps && ts[0..] == ts;
  }

  lemma NumberSplits(u: string, w: string)
    requires u != "" && forall i :: 0 <= i < |u| ==> IsDigitOrDot(u[i])
    requires ClassOf(u + w) == Numeric
    ensures var s, m := u + w, NumberTail(w);
            TokenLength(s) == |u| + m && s[TokenLength(s)..] == w[m..] && s[..TokenLength(s)] == u + w[..m]
    ensures u + w[..NumberTail(w)] != "."
  {
    TailPast(u[1..], w);
    assert (u + w)[1..] == u[1..] + w;
    OneDot(u + w);
  }

  /** A number whose head `u` meets a woven text goes on as far as `TailLands` says. */
  lemma HeadLands(prev: Token, gaps: seq<string>, ts: seq<Token>, u: string) returns (k: nat, r: string)
    requires |gaps| == |ts| && Fits(prev, gaps, ts) && u != "" && forall i :: 0 <= i < |u| ==> IsDigitOrDot(u[i])
    requires ClassOf(u + Weave(gaps, ts)) == Numeric
    requires u == "." || (Sticky(prev) && Plain(prev))
    ensures var s := u + Weave(gaps, ts); var n := TokenLength(s);
            Reaches(prev, gaps, ts, s[n..], s[..n], k, r)
    ensures TailTokens(gaps, ts, k, r)
  {
    hide TailTokens;
    hide Fits, Weave, Sticky, Plain, HasExponent, WordEnd, TokenLength, NumberTail, ClassOf, IsDigitOrDot;
    var w := Weave(gaps, ts);
    k, r := TailLands(prev, gaps, ts);
    NumberSplits(u, w);
    var m := NumberTail(w);
    HasMore(u, w[..m]);
    if k == 0 { assert u + w[..m] == u && gaps[0..] == gaps && ts[0..] == ts; }
  }

  lemma HasMore(a: string, b: string)
    ensures HasExponent(b) ==> HasExponent(a + b)
  {
  }

  /** A number that is read is never a dot alone. */
  lemma OneDot(s: string)
    requires s != "" && ClassOf(s) == Numeric
    ensures s[..TokenLength(s)] != "."
  {
    CutToken(s);
  }

  lemma TailPast(u: string, w: string)
    requires forall i :: 0 <= i < |u| ==> IsDigitOrDot(u[i])
    ensures NumberTail(u + w) == |u| + NumberTail(w)
  {
    hide ExponentAt, IsDigitOrDot, IsDigit, HasExponent;
    var d := Span(w, IsDigitOrDot);
    SpanPast(u, w, IsDigitOrDot);
    assert (u + w)[|u| + d..] == w[d..];
    ExponentShifts(u + w, w[d..], |u| + d);
    ExponentShifts(w, w[d..], d);
  }

  /** Reading on from the start of the token `t`. */
  lemma StepWhole(t: Token, tn: string, gaps: seq<string>, ts: seq<Token>) returns (k: nat, r: string)
    requires |gaps| == |ts| && Scanned(t, tn) && Visible(t) && Fits(t, gaps, ts) && (ts != [] ==> Ended(t.text))
    ensures var s := Shown(t) + Weave(gaps, ts); var n := TokenLength(s);
            && ClassOf(s) != Space && Reaches(t, gaps, ts, s[n..], s[..n], k, r)
            && (if ts != [] && Clash(t, ts[0]) then ClassOf(s) == Numeric && TailTokens(gaps, ts, k, r)
                else ClassOf(s) == ClassOf(t.text) && s[..n] == Shown(t) && k == 0 && r == "")
  {
    hide TailTokens;
    hide Visible, KindOf, Lexeme, Fits, Weave, TrimEnd, HasExponent, TokenLength, IsDigitOrDot, Reaches, GapFits;
    var s := Shown(t) + Weave(gaps, ts);
    ShownIsLexeme(t, tn);
    NumberParts(t, tn);
    k, r := 0, "";
    if ts != [] && Clash(t, ts[0]) {
      ClashIsNumeric(t, tn, gaps, ts);
      k, r := HeadLands(t, gaps, ts, t.text);
    } else {
      WholeStops(t, tn, gaps, ts);
      assert s[|Shown(t)|..] == Weave(gaps, ts) == "" + Weave(gaps, ts) && s[..|Shown(t)|] == Shown(t);
      WholeIsLeft(t, tn);
      ReachesHere(t, gaps, ts, Shown(t), "");
    }
  }

  lemma ClashIsNumeric(t: Token, tn: string, gaps: seq<string>, ts: seq<Token>)
    requires |gaps| == |ts| && Scanned(t, tn) && Visible(t) && Fits(t, gaps, ts) && ts != [] && Clash(t, ts[0])
    ensures Shown(t) == t.text && ClassOf(t.text + Weave(gaps, ts)) == Numeric
    ensures forall i :: 0 <= i < |t.text| ==> IsDigitOrDot(t.text[i])
    ensures t.text == "." || (Sticky(t) && Plain(t))
  {
    hide Coherent, GapsFit, KindOf, Weave, TrimEnd, HasExponent, Fits, FirstCode, GapFits;
    FitsTail(t, gaps, ts);
    NumberParts(t, tn);
    KindTellsText(t, tn);
    assert gaps[0] == "" by { ClashTouches(t, gaps[0], ts[0]); }
    StartOfWeave(gaps, ts);
    assert forall i :: 0 <= i < |t.text| ==> (t.text + Weave(gaps, ts))[i] == t.text[i];
    assert (t.text + Weave(gaps, ts))[|t.text|] == ts[0].text[0];
  }

  lemma ClashTouches(t: Token, gap: string, u: Token)
    requires GapFits(Some(t), gap, u) && Clash(t, u)
    ensures gap == ""
  {
  }

  lemma WholeStops(t: Token, tn: string, gaps: seq<string>, ts: seq<Token>)
    requires |gaps| == |ts| && Scanned(t, tn) && Visible(t) && Fits(t, gaps, ts) && (ts != [] ==> Ended(t.text))
    requires ts == [] || !Clash(t, ts[0])
    ensures var s := Shown(t) + Weave(gaps, ts); ClassOf(s) == ClassOf(t.text) && TokenLength(s) == |Shown(t)|
  {
    hide Visible, KindOf, GapFits, Clash, TrimEnd, TokenLength, ClassOf, Weave, FirstCode, Fits, Stops, Ended, IsSpace;
    ShownIsLexeme(t, tn);
    if ts == [] {
      EmptyReads(gaps, ts);
    } else {
      FitsTail(t, gaps, ts);
      GapStops(t, tn, gaps[0], ts[0], FirstCode(ts[1..]));
      assert Weave(gaps, ts) == (gaps[0] + Shown(ts[0])) + Weave(gaps[1..], ts[1..]);
      assert Weave(gaps, ts)[0] == (gaps[0] + Shown(ts[0]))[0];
      ShownEnded(t, tn);
    }
    ExtendToken(Shown(t), Weave(gaps, ts));
  }

  lemma ShownEnded(t: Token, tn: string)
    requires Scanned(t, tn) && Visible(t) && Ended(t.text)
    ensures Shown(t) != "" && Ended(Shown(t))
  {
    ShownIsLexeme(t, tn);
  }

  lemma WholeIsLeft(t: Token, tn: string)
    requires Scanned(t, tn) && Visible(t)
    ensures Shown(t) != "" && Left(Shown(t), t)
  {
    hide TrimEnd, HasExponent, Lexeme;
    ShownIsLexeme(t, tn);
    NumberParts(t, tn);
    KindTellsText(t, tn);
  }

  /** The rest of a number inside a word that is more than digits. */
  lemma TailInsideWord(v: string, rest: string)
    requires StopsNumber(rest) && Span(v, IsDigitOrDot) < |v|
    ensures NumberTail(v + rest) <= |v| && (NumberTail(v + rest) == |v| ==> HasExponent(v))
  {
    hide HasExponent, ExponentAt;
    var d := Span(v, IsDigitOrDot);
    SpanExtend(v, rest, IsDigitOrDot);
    if ExponentAt(v + rest, d) {
      ExponentInside(v, rest, d);
      SpanExtend(v[d + 2..], rest, IsDigit);
    }
  }

  /** A number read off the end of a word stays in it, or takes it up whole. */
  lemma DigitsInWord(r: string, rest: string)
    requires r != "" && IsDigit(r[0]) && (forall i :: 0 <= i < |r| ==> IsWordChar(r[i])) && StopsNumber(rest)
    ensures ClassOf(r + rest) == Numeric
    ensures (exists i :: 0 <= i < |r| && !IsDigit(r[i])) ==>
      TokenLength(r + rest) <= |r| && (TokenLength(r + rest) == |r| ==> HasExponent(r))
  {
    hide NumberTail, StopsNumber, HasExponent;
    var v := r[1..];
    assert (r + rest)[1..] == v + rest;
    if i :| 0 <= i < |r| && !IsDigit(r[i]) {
      assert !IsDigitOrDot(v[i - 1]);
      TailInsideWord(v, rest);
      HasMore(r[..1], v);
      assert r[..1] + v == r;
    }
  }

  lemma RunInWord(r: string, rest: string)
    requires r != "" && !IsDigit(r[0]) && (forall i :: 0 <= i < |r| ==> IsWordChar(r[i])) && StopsNumber(rest)
    ensures var s := r + rest; (ClassOf(s) == Word || ClassOf(s) == Oper) && TokenLength(s) <= |r|
  {
    var s := r + rest;
    assert forall j :: 0 <= j < |rest| ==> s[|r| + j] == rest[j];
  }

  /** Reading on inside a word. */
  lemma StepTail(prev: Token, r: string, gaps: seq<string>, ts: seq<Token>) returns (k: nat, r': string)
    requires |gaps| == |ts| && Fits(prev, gaps, ts) && r != "" && WordEnd(r, prev)
    ensures var s := r + Weave(gaps, ts); var n := TokenLength(s);
            ClassOf(s) != Space && Reaches(prev, gaps, ts, s[n..], s[..n], k, r')
  {
    hide Fits, Weave, TokenLength, HasExponent, Reaches, StopsNumber;
    var w := Weave(gaps, ts);
    var s := r + w;
    var n := TokenLength(s);
    HeadStops(prev, gaps, ts);
    assert StopsNumber(w) by { SameStop(w); }
    CutToken(s);
    k, r' := 0, "";
    if IsDigit(r[0]) {
      DigitsInWord(r, w);
      if forall i :: 0 <= i < |r| ==> IsDigit(r[i]) {
        assert prev.text[|prev.text| - 1] == r[|r| - 1];
        k, r' := HeadLands(prev, gaps, ts, r);
        return;
      }
    } else {
      RunInWord(r, w);
    }
    r' := r[n..];
    assert s[n..] == r' + w && s[..n] == r[..n];
    ReachesHere(prev, gaps, ts, s[..n], r');
  }

  lemma SameStop(w: string)
    requires w == "" || IsSpace(w[0]) || IsPunctuation(w[0])
    ensures StopsNumber(w)
  {
  }

  // -------------------------------------------------------------- nothing clashes

  /** The token that the scanner makes of `a` clashes with `b`. */
  predicate ClashText(a: string, b: Token)
    requires a != ""
  {
    || (ClassOf(a) == Numeric && !HasExponent(a) && b.text == ".")
    || (a == "." && b.kind == Number && b.text != "" && IsDigit(b.text[0]))
  }

  lemma ClashIsText(a: string, next: string, b: Token)
    requires a != ""
    ensures Clash(Token(KindOf(a, next), a), b) <==> ClashText(a, b)
  {
    hide HasExponent;
  }

  /** Tokens that touch do not clash: the scanner would not have stopped between
      them. */
  lemma TouchingDoNotClash(a: string, s: string, b: Token)
    requires Lexeme(a) && s != "" && TokenLength(a + s) == |a|
    requires b.text != "" && b.text[0] == s[0]
    ensures !ClashText(a, b)
  {
    if ClassOf(a) == Numeric && !HasExponent(a) && s[0] == '.' {
      NumberTakesDot(a, s);
    }
    if a == "." && IsDigit(s[0]) {
      DotTakesDigit(s);
    }
  }

  /** Nor do tokens with a blank between them: the printer would not have put one
      there. */
  lemma ApartDoNotClash(a: string, prev: Token, gap: string, t: Token, tn: string, b: Token)
    requires a != "" && Left(a, prev) && GapFits(Some(prev), gap, t) && gap != ""
    requires Scanned(t, tn) && Visible(t)
    requires b.text != "" && b.text[0] == t.text[0] && (b.text == "." ==> t.text == ".")
    ensures !ClashText(a, b)
  {
    hide HasExponent, TrimEnd, Sticky, Lexeme;
    NumberParts(t, tn);
    KindTellsText(t, tn);
  }

  /** A text that starts with a token, read once and then on. */
  lemma ReadsOn(s: string)
    requires s != "" && ClassOf(s) != Space
    ensures var n := TokenLength(s); var a, x := s[..n], s[n..];
            && Lexeme(a) && ClassOf(a) != Space && a + x == s && a[0] == s[0] && |x| < |s|
            && Significant(Tokens(s)) == [Token(KindOf(a, Peek(x)), a)] + Significant(Tokens(x))
  {
    CutToken(s);
    KindShowsClass(s[..TokenLength(s)], Peek(s[TokenLength(s)..]));
  }

  lemma CalmMore(a: string, next: string, us: seq<Token>)
    requires a != "" && NoClash(us) && (us != [] ==> !ClashText(a, us[0]))
    ensures NoClash([Token(KindOf(a, next), a)] + us)
  {
    var all := [Token(KindOf(a, next), a)] + us;
    if us != [] { ClashIsText(a, next, us[0]); }
    assert all[1..] == us;
    if us != [] { NoClashSplit(all); }
  }

  /** A dot read where a token starts is that token. */
  lemma DotIsWhole(t: Token, tn: string, rest: string)
    requires Scanned(t, tn) && Visible(t)
    ensures Shown(t)[..1] == t.text[..1] && Shown(t) != ""
    ensures var s := Shown(t) + rest; s[..TokenLength(s)] == "." ==> t.text == "."
  {
    hide TrimEnd;
    ShownIsLexeme(t, tn);
    KindTellsText(t, tn);
    var s := Shown(t) + rest;
    if s[..TokenLength(s)] == "." {
      assert s[0] == s[..TokenLength(s)][0] == '.';
      assert Shown(t)[0] == Shown(t)[..1][0] == t.text[..1][0] == t.text[0];
      NumberParts(t, tn);
      if t.kind == Number {
        assert |t.text| > 1 && IsDigit(t.text[1]);
        assert s[1] == t.text[1];
        OneDot(s);
      }
    }
  }

  /** What is read behind the gap after `prev`. */
  lemma GapIsCalm(a: string, prev: Token, gaps: seq<string>, ts: seq<Token>)
    requires |gaps| == |ts| && ts != [] && Fits(prev, gaps, ts)
    requires Lexeme(a) && TokenLength(a + Weave(gaps, ts)) == |a| && Left(a, prev)
    ensures var x := Shown(ts[0]) + Weave(gaps[1..], ts[1..]);
            && x != "" && |x| <= |Weave(gaps, ts)|
            && Significant(Tokens(Weave(gaps, ts))) == Significant(Tokens(x))
            && forall b: Token :: b.text == x[..TokenLength(x)] ==> !ClashText(a, b)
  {
    hide Weave, TokenLength, ClassOf, ClashText, Tokens, Significant, KindOf, Visible, TrimEnd, GapFits, GapsFit,
        Coherent, Fits, FirstCode, IsSpace, Sticky;
    FitsTail(prev, gaps, ts);
    var t, tn, w := ts[0], FirstCode(ts[1..]), Weave(gaps[1..], ts[1..]);
    var x := Shown(t) + w;
    OneWoven(gaps, ts);
    DotIsWhole(t, tn, w);
    StartOfWeave(gaps, ts);
    forall b: Token | b.text == x[..TokenLength(x)] ensures !ClashText(a, b) {
      assert b.text[0] == x[0] == Shown(t)[..1][0] == t.text[..1][0];
      if gaps[0] == "" {
        TouchingDoNotClash(a, x, b);
      } else {
        ApartDoNotClash(a, prev, gaps[0], t, tn, b);
      }
    }
  }

  lemma NothingClashes()
    ensures NoClash([]) && Significant(Tokens("")) == []
  {
  }

  /** From any place of a woven text, reached by reading `a`, the scanner goes on
      without meeting a clash. */
  lemma {:induction false} Calm(a: string, prev: Token, r: string, gaps: seq<string>, ts: seq<Token>)
    requires |gaps| == |ts| && Landed(prev, r, gaps, ts)
    requires Lexeme(a) && TokenLength(a + (r + Weave(gaps, ts))) == |a| && (r == "" ==> Left(a, prev))
    ensures var us := Significant(Tokens(r + Weave(gaps, ts))); NoClash(us) && (us != [] ==> !ClashText(a, us[0]))
    decreases |r + Weave(gaps, ts)|, 1
  {
    hide Fits, Weave, TokenLength, Lexeme, Left, ClassOf, ClashText, NoClash, WordEnd, Tokens, Significant, KindOf,
        Peek, Visible, TrimEnd, GapFits, FirstCode;
    var s := r + Weave(gaps, ts);
    if s == "" {
      NothingClashes();
    } else if r != "" {
      var k, r' := StepTail(prev, r, gaps, ts);
      CalmBehind(s, prev, gaps, ts, k, r');
      ReadsOn(s);
      TouchingDoNotClash(a, s, Significant(Tokens(s))[0]);
    } else {
      assert s == Weave(gaps, ts);
      if ts == [] { EmptyReads(gaps, ts); }
      FitsTail(prev, gaps, ts);
      GapIsCalm(a, prev, gaps, ts);
      var x := Shown(ts[0]) + Weave(gaps[1..], ts[1..]);
      var k, r' := StepWhole(ts[0], FirstCode(ts[1..]), gaps[1..], ts[1..]);
      CalmBehind(x, ts[0], gaps[1..], ts[1..], k, r');
      ReadsOn(x);
    }
  }

  /** The same for what is left of `s` after its first token. */
  lemma {:induction false} CalmBehind(s: string, prev: Token, gaps: seq<string>, ts: seq<Token>, k: nat, r: string)
    requires |gaps| == |ts| && s != "" && ClassOf(s) != Space
    requires var n := TokenLength(s); Reaches(prev, gaps, ts, s[n..], s[..n], k, r)
    ensures NoClash(Significant(Tokens(s)))
    decreases |s|, 0
  {
    hide Fits, Weave, TokenLength, Lexeme, Left, ClassOf, ClashText, NoClash, WordEnd, Tokens, Significant, KindOf,
        Peek;
    var n := TokenLength(s);
    ReadsOn(s);
    Calm(s[..n], if k == 0 then prev else ts[k - 1], r, gaps[k..], ts[k..]);
    CalmMore(s[..n], Peek(s[n..]), Significant(Tokens(s[n..])));
  }

  /** Whatever a fitting weave is read as, no two neighbours of it clash. */
  lemma WeaveIsCalm(gaps: seq<string>, ts: seq<Token>)
    requires |gaps| == |ts| && GapsFit(None, gaps, ts) && Coherent(ts) && forall t :: t in ts ==> Visible(t)
    ensures NoClash(Significant(Tokens(Weave(gaps, ts))))
  {
    hide Weave, NoClash, Tokens, Significant, KindOf, Visible, TrimEnd, FirstCode, Lexeme, Ended, IsSpace;
    if ts == [] {
      EmptyReads(gaps, ts);
      NothingClashes();
    } else {
      OneWoven(gaps, ts);
      assert Fits(ts[0], gaps[1..], ts[1..]);
      var k, r := StepWhole(ts[0], FirstCode(ts[1..]), gaps[1..], ts[1..]);
      var x := Shown(ts[0]) + Weave(gaps[1..], ts[1..]);
      DotIsWhole(ts[0], FirstCode(ts[1..]), Weave(gaps[1..], ts[1..]));
      CalmBehind(x, ts[0], gaps[1..], ts[1..], k, r);
    }
  }

  /** Formatted text has no clashing tokens, whatever the source had. */
  lemma FormattedIsCalm(sql: string)
    ensures NoClash(Significant(Tokens(Format(sql))))
  {
    hide Format, PrintAll, Tokens, Significant, Trim, Blank, NoClash, Visible, Coherent, Weave, GapsFit;
    NeverFallsBack(sql);
    if Blank(sql) {
      BlankReads("");
      NothingClashes();
    } else {
      var ts := SourceIsVisible(sql);
      var gaps := PrintIsWeave(ts);
      WeaveIsCalm(gaps, ts);
    }
  }

  /** With no condition at all: formatting settles in two passes, and the second
      one loses no token of the first. */
  lemma FormatSettles(sql: string)
    ensures Format(Format(Format(sql))) == Format(Format(sql))
    ensures Significant(Tokens(Format(Format(sql)))) == ShownTokens(Significant(Tokens(Format(sql))))
  {
    hide Format, Tokens, Significant, NoClash, ShownTokens;
    FormattedIsCalm(sql);
    FormatIsIdempotent(Format(sql));
    FormatReadsBack(Format(sql));
  }

  // --------------------------------------------------------------- counterexample

  const ONE := Token(Number, "1")
  const DOT := Token(Punctuation, ".")
  const STAR := Token(Operator, "*")
  const ONE_DOT := Token(Number, "1.")

  lemma ReadStar()
    ensures Significant(Tokens("*")) == [STAR]
  {
    ReadNext("*", "*", "");
  }

  lemma ReadSpacedStar()
    ensures Significant(Tokens(". *")) == [DOT, STAR]
  {
    ReadStar();
    hide Tokens, Significant;
    ReadNext(" *", " ", "*");
    ReadNext(". *", ".", " *");
  }

  lemma ReadSpaced()
    ensures Significant(Tokens("1 . *")) == [ONE, DOT, STAR]
  {
    ReadSpacedStar();
    hide Tokens, Significant;
    ReadNext(" . *", " ", ". *");
    ReadNext("1 . *", "1", " . *");
  }

  lemma ReadTight()
    ensures Significant(Tokens("1.*")) == [ONE_DOT, STAR]
  {
    ReadStar();
    hide Tokens, Significant;
    ReadNext("1.*", "1.", "*");
  }

  function OnTop(line: string, prev: Option<Token>): State { State([Frame(0, true)], Page([], line), prev) }

  lemma PlainStep(ts: seq<Token>, i: nat, line: string, prev: Option<Token>)
    requires i < |ts| && (ts[i].kind == Number || ts[i].kind == Operator)
    ensures Step(ts, i, OnTop(line, prev)) ==
      (i + 1, OnTop(line + (if !Blank(line) && !TightAfter(prev) then " " else "") + ts[i].text, Some(ts[i])))
  {
    hide Upper, Blank;
  }

  lemma DotStep(ts: seq<Token>, i: nat, line: string, prev: Option<Token>)
    requires i < |ts| && ts[i] == DOT
    ensures Step(ts, i, OnTop(line, prev)) == (i + 1, OnTop(line + "" + ".", Some(DOT)))
  {
    hide Upper;
  }

  lemma RunFrom(ts: seq<Token>, i: nat, st: State)
    requires i < |ts| && st.stack != []
    ensures Run(ts, i, st) == Run(ts, Step(ts, i, st).0, Step(ts, i, st).1)
    ensures i + 1 == |ts| && Step(ts, i, st).0 == |ts| ==> Run(ts, i, st) == Step(ts, i, st).1
  {
  }

  lemma PageOf(line: string)
    requires line != "" && !IsSpace(line[0]) && !IsSpace(line[|line| - 1])
    ensures !Blank(line) && Text(Page([], line)) == line
  {
  }

  lemma PrintSpaced()
    ensures PrintAll([ONE, DOT, STAR]) == "1.*"
  {
    hide Step, Blank, Text, Run;
    var ts := [ONE, DOT, STAR];
    assert Blank("") && "" + "" + "1" == "1" && "1" + "" + "." == "1."
        && "1." + "" + "*" == "1.*" by { BlankParts("", 0); }
    PlainStep(ts, 0, "", None);
    DotStep(ts, 1, "1", Some(ONE));
    PlainStep(ts, 2, "1.", Some(DOT));
    RunFrom(ts, 2, OnTop("1.", Some(DOT)));
    RunFrom(ts, 1, OnTop("1", Some(ONE)));
    RunFrom(ts, 0, OnTop("", None));
    PageOf("1.*");
  }

  lemma PrintTight()
    ensures PrintAll([ONE_DOT, STAR]) == "1. *"
  {
    hide Step, Blank, Text, Run;
    var ts := [ONE_DOT, STAR];
    assert Blank("") && "" + "" + "1." == "1." && "1." + " " + "*" == "1. *" by { BlankParts("", 0); }
    PlainStep(ts, 0, "", None);
    RunFrom(ts, 0, OnTop("", None));
    assert !Blank("1.") by { PageOf("1."); }
    PlainStep(ts, 1, "1.", Some(ONE_DOT));
    RunFrom(ts, 1, OnTop("1.", Some(ONE_DOT)));
    assert Text(Page([], "1. *")) == "1. *" by { PageOf("1. *"); }
  }

  /** One pass is not always enough: `1 . *` is printed `1.*`, and that `1. *`. */
  lemma OnePassMayNotSettle()
    ensures Format("1 . *") == "1.*" && Format("1.*") == "1. *"
  {
    ReadSpaced();
    ReadTight();
    PrintSpaced();
    PrintTight();
    hide Format, PrintAll, Tokens, Significant;
    NeverFallsBack("1 . *");
    NeverFallsBack("1.*");
    assert "1 . *"[0] == '1' && "1.*"[0] == '1';
  }
}
