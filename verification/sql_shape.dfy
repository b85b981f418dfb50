/** Further promises of the formatter: characters, parentheses, functions, and
    the family of inputs on which the round trip fails. */
module SqlShape {
  import opened Options
  import opened SqlLexer
  import opened SqlLexemes
  import opened SqlTokens
  import opened SqlPrinter
  import opened SqlLayout
  import opened SqlRoundTrip
  import opened SqlFormatting
  import opened SqlTheorems

  // ------------------------------------------------------------------ characters

  /** The characters of `s` that are no blanks, in order. */
  function Ink(s: string): string {
    if s == "" then "" else (if IsSpace(s[0]) then "" else [s[0]]) + Ink(s[1..])
  }

  lemma {:induction false} InkConcat(a: string, b: string)
    ensures Ink(a + b) == Ink(a) + Ink(b)
  {
    if a == "" {
      assert a + b == b;
    } else {
      InkConcat(a[1..], b);
      assert (a + b)[1..] == a[1..] + b && (a + b)[0] == a[0];
      var head := if IsSpace(a[0]) then "" else [a[0]];
      hide Ink, IsSpace;
      assert head + (Ink(a[1..]) + Ink(b)) == (head + Ink(a[1..])) + Ink(b);
    }
  }

  lemma {:induction false} InkOfBlank(s: string)
    requires Blank(s)
    ensures Ink(s) == ""
  {
    if s != "" { InkOfBlank(s[1..]); }
  }

  lemma InkOfTrimEnd(s: string)
    ensures Ink(TrimEnd(s)) == Ink(s)
  {
    var r := TrimEnd(s);
    InkConcat(r, s[|r|..]);
    InkOfBlank(s[|r|..]);
    assert r + s[|r|..] == s;
  }

  lemma InkOfTrim(s: string)
    ensures Ink(Trim(s)) == Ink(s)
  {
    var n := Span(s, IsSpace);
    InkConcat(s[..n], s[n..]);
    InkOfBlank(s[..n]);
    assert s[..n] + s[n..] == s;
    InkOfTrimEnd(s[n..]);
  }

  lemma {:induction false} InkOfTokens(s: string)
    ensures Ink(Texts(Significant(Tokens(s)))) == Ink(s)
    decreases |s|
  {
    if s != "" {
      var n := TokenLength(s);
      FirstTokenOf(s);
      InkOfTokens(s[n..]);
      InkConcat(s[..n], s[n..]);
      assert s[..n] + s[n..] == s;
      if KindOf(s[..n], Peek(s[n..])) == Whitespace {
        WhitespaceIsBlank(s);
        InkOfBlank(s[..n]);
      } else {
        InkConcat(s[..n], Texts(Significant(Tokens(s[n..]))));
      }
    }
  }

  lemma WhitespaceIsBlank(s: string)
    requires s != "" && KindOf(s[..TokenLength(s)], Peek(s[TokenLength(s)..])) == Whitespace
    ensures Blank(s[..TokenLength(s)])
  {
    CutToken(s);
    KindShowsClass(s[..TokenLength(s)], Peek(s[TokenLength(s)..]));
  }

  lemma {:induction false} InkOfWeave(gaps: seq<string>, ts: seq<Token>)
    requires |gaps| == |ts| && forall g :: g in gaps ==> Blank(g)
    ensures Ink(Weave(gaps, ts)) == Ink(Texts(ts))
    decreases |ts|
  {
    if ts != [] {
      var rest := Weave(gaps[1..], ts[1..]);
      hide Ink, Blank;
      InkOfWeave(gaps[1..], ts[1..]);
      InkConcat(gaps[0] + Shown(ts[0]), rest);
      InkConcat(gaps[0], Shown(ts[0]));
      InkOfBlank(gaps[0]);
      InkOfTrimEnd(ts[0].text);
      InkConcat(ts[0].text, Texts(ts[1..]));
    }
  }

  /** With no condition at all: every character that is no blank survives, in
      order, and none is added. */
  lemma FormatKeepsCharacters(sql: string)
    ensures Ink(Format(sql)) == Ink(sql)
  {
    var gaps := OnlyBlanksMove(sql);
    InkOfWeave(gaps, Significant(Tokens(Trim(sql))));
    InkOfTokens(Trim(sql));
    InkOfTrim(sql);
  }

  // ----------------------------------------------------------------- parentheses

  /** Open parentheses after `ts[..i]`, where a closing one without a partner
      counts for nothing, plus one for the statement itself. */
  function Depth(ts: seq<Token>, i: nat): (d: nat)
    requires i <= |ts|
    ensures d >= 1
  {
    if i == 0 then 1
    else
      var d := Depth(ts, i - 1);
      var t := ts[i - 1];
      if t.kind != Punctuation then d
      else if t.text == "(" then d + 1
      else if t.text == ")" && d > 1 then d - 1
      else d
  }

  /** The indent of every open parenthesis is its place on the stack. */
  predicate Framed(stack: seq<Frame>) {
    && stack != [] && stack[0].subquery
    && forall k :: 0 <= k < |stack| ==> stack[k].base == k
  }

  lemma {:induction false} AbsorbKeepsDepth(ts: seq<Token>, i: nat, st: State)
    requires i <= |ts| && st.stack != []
    requires forall t :: t in ts ==> Visible(t)
    ensures Depth(ts, Absorb(ts, i, st).0) == Depth(ts, i)
    decreases |ts| - i
  {
    hide Append, Visible;
    if i < |ts| && (UpperAt(ts, i) == "DISTINCT" || UpperAt(ts, i) == "ALL") {
      assert Upper(ts[i].text)[0] == UpperChar(ts[i].text[0]);
      AbsorbKeepsDepth(ts, i + 1, st.(page := Append(st.page, ts[i].text, true), prev := Some(ts[i])));
    }
  }

  lemma StepFrames(ts: seq<Token>, i: nat, st: State)
    requires i < |ts| && Framed(st.stack) && |st.stack| == Depth(ts, i)
    requires forall t :: t in ts ==> Visible(t)
    ensures var (j, r) := Step(ts, i, st); Framed(r.stack) && |r.stack| == Depth(ts, j)
  {
    hide Append, Flush, Open, Visible, StartsClause;
    var printed := Print(ts[i], UpperAt(ts, i + 1), st);
    assert |printed.stack| == Depth(ts, i + 1);
    AbsorbKeepsDepth(ts, i + 1, printed);
  }

  /** The stack never empties, whatever parentheses are missing or left over;
      its height is the nesting depth and its indents count up from zero. */
  lemma {:induction false} StackFollowsParentheses(ts: seq<Token>, i: nat, st: State)
    requires i <= |ts| && Framed(st.stack) && |st.stack| == Depth(ts, i)
    requires forall t :: t in ts ==> Visible(t)
    ensures Framed(Run(ts, i, st).stack) && |Run(ts, i, st).stack| == Depth(ts, |ts|)
    decreases |ts| - i
  {
    if i < |ts| {
      StepFrames(ts, i, st);
      StackFollowsParentheses(ts, Step(ts, i, st).0, Step(ts, i, st).1);
    }
  }

  // ------------------------------------------------------------------- functions

  lemma {:induction false} CoherentFunctions(ts: seq<Token>, i: nat)
    requires Coherent(ts) && i < |ts|
    ensures ts[i].kind == Function <==>
      && ts[i].text != "" && ClassOf(ts[i].text) == Word
      && FirstCode(ts[i + 1..]) == "(" && Upper(ts[i].text) !in NEVER_FUNCTIONS
  {
    if i > 0 {
      CoherentFunctions(ts[1..], i - 1);
      assert ts[1..][i..] == ts[i + 1..];
    }
  }

  /** In every text a word is a function exactly when the next token that is no
      blank and no comment opens a parenthesis and the word is none of those that
      never are. */
  lemma FunctionsAreCalls(sql: string, i: nat)
    requires i < |Significant(Tokens(sql))|
    ensures var ts := Significant(Tokens(sql));
            ts[i].kind == Function <==>
      && ts[i].text != "" && ClassOf(ts[i].text) == Word
      && FirstCode(ts[i + 1..]) == "(" && Upper(ts[i].text) !in NEVER_FUNCTIONS
  {
    hide Tokens, Significant, Coherent, FirstCode;
    ScanIsCoherent(sql);
    CoherentFunctions(Significant(Tokens(sql)), i);
  }

  // ------------------------------------------------------------- counterexamples

  lemma ReadNext(s: string, text: string, rest: string)
    requires text != "" && s == text + rest && |text| == TokenLength(s) && ClassOf(text) != Word
    ensures Significant(Tokens(s)) == (if ClassOf(text) == Space then [] else [Token(KindOf(text, ""), text)])
        + Significant(Tokens(rest))
  {
    assert s[..|text|] == text && s[|text|..] == rest;
    KindShowsClass(text, "");
  }

  lemma ReadDot()
    ensures Significant(Tokens(".")) == [Token(Punctuation, ".")]
  {
    ReadNext(".", ".", "");
  }

  lemma ReadNumberDot()
    ensures Significant(Tokens("1 .")) == [Token(Number, "1"), Token(Punctuation, ".")]
  {
    ReadDot();
    hide Tokens, Significant;
    assert Significant(Tokens(" .")) == Significant(Tokens(".")) by { ReadNext(" .", " ", "."); }
    ReadNext("1 .", "1", " .");
  }

  /** The round trip does fail: `1 .` is printed `1.`, which is one number. */
  lemma SpacedDotIsLost()
    ensures Significant(Tokens(Format("1 ."))) != ShownTokens(Significant(Tokens("1 .")))
  {
    ReadNumberDot();
    hide Tokens, Significant, ShownTokens, Format;
    FormatReadsBack("1 .");
    assert '1' in "1";
    assert Clash(Significant(Tokens("1 ."))[0], Significant(Tokens("1 ."))[1]);
  }
}
