/** The token list told without the scanner: what kind each token is, from its text and
    the next code behind it, and how far it reaches, from what follows it. */
module SqlKinds {
  import opened SqlLexer
  import opened SqlLexemes
  import opened SqlTokens
  import opened SqlPrinter

  // ------------------------------------------------------------------------- classes

  function Count(b: bool): nat { if b then 1 else 0 }

  /** Every visible ASCII character but the backslash begins tokens of exactly one sort,
      and none of them is a blank. */
  lemma CharactersAreSorted(c: char)
    requires '!' <= c <= '~'
    ensures Count(IsQuote(c)) + Count(IsDigit(c)) + Count(IsWordStart(c)) + Count(IsPunctuation(c))
              + Count(IsOperatorChar(c)) == Count(c != '\\')
    ensures !IsSpace(c)
  {
  }

  /** The ASCII blanks are the blank itself and the five characters from tab to carriage
      return; beyond ASCII the run of blanks of fixed widths counts whole. */
  lemma BlanksAreThese(c: char)
    ensures c <= '~' ==> (IsSpace(c) <==> c == ' ' || 9 <= c as int <= 13)
    ensures 0x2000 <= c as int <= 0x200A ==> IsSpace(c)
  {
  }

  /** A word that is looked for in the word lists is found whatever its case. */
  lemma UpperIgnoresCase(v: string, w: string)
    ensures Upper(v) == Upper(w) <==>
      |v| == |w| && forall i :: 0 <= i < |v| ==>
        v[i] == w[i]
        || ('a' <= v[i] <= 'z' && v[i] as int - w[i] as int == 32)
        || ('a' <= w[i] <= 'z' && w[i] as int - v[i] as int == 32)
    ensures (forall i :: 0 <= i < |v| ==> !('a' <= v[i] <= 'z')) ==> Upper(v) == v
  {
    if Upper(v) == Upper(w) {
      assert forall i :: 0 <= i < |v| ==> Upper(v)[i] == UpperChar(v[i]) && Upper(w)[i] == UpperChar(w[i]);
    }
  }

  lemma ClausesAreReserved()
    ensures CLAUSE <= KEYWORDS
  {
    assert {"SELECT", "FROM", "WHERE", "HAVING", "LIMIT", "OFFSET"} <= KEYWORDS;
    assert {"UNION", "INTERSECT", "EXCEPT", "VALUES", "RETURNING", "WINDOW"} <= KEYWORDS;
    assert {"QUALIFY", "FETCH", "INSERT", "UPDATE", "DELETE", "WITH"} <= KEYWORDS;
  }

  lemma JoinsAreReserved()
    ensures JOIN <= KEYWORDS
  {
  }

  lemma OthersAreReserved()
    ensures {"GROUP", "BY", "ORDER", "ON", "AND", "OR", "DISTINCT", "ALL"} <= KEYWORDS
  {
    assert {"GROUP", "BY", "ORDER", "ON"} <= KEYWORDS && {"AND", "OR", "DISTINCT", "ALL"} <= KEYWORDS;
  }

  lemma HalfReserved()
    ensures {"IN", "EXISTS", "VALUES", "AND", "OR", "NOT", "ON", "USING", "SELECT", "FROM", "WHERE", "WHEN", "THEN"}
         <= KEYWORDS
  {
    assert {"IN", "EXISTS", "VALUES", "AND", "OR", "NOT"} <= KEYWORDS;
    assert {"ON", "USING", "SELECT", "FROM", "WHERE", "WHEN", "THEN"} <= KEYWORDS;
  }

  lemma OtherHalfReserved()
    ensures {"ELSE", "BETWEEN", "BY", "ALL", "ANY", "SOME", "AS", "OVER", "PARTITION", "RETURNING", "DISTINCT",
             "FILTER", "WITHIN"} <= KEYWORDS
  {
    assert {"ELSE", "BETWEEN", "BY", "ALL", "ANY", "SOME"} <= KEYWORDS;
    assert {"AS", "OVER", "PARTITION", "RETURNING", "DISTINCT", "FILTER", "WITHIN"} <= KEYWORDS;
  }

  /** Only reserved words are kept from being functions, so with a parenthesis behind them
      they are keywords still. */
  lemma NeverFunctionsAreReserved()
    ensures NEVER_FUNCTIONS <= KEYWORDS
  {
    hide KEYWORDS;
    HalfReserved();
    OtherHalfReserved();
  }

  /** The words that the printer looks for are reserved. */
  lemma PrintedWordsAreReserved()
    ensures CLAUSE + JOIN + {"GROUP", "BY", "ORDER", "ON", "AND", "OR", "DISTINCT", "ALL"} <= KEYWORDS
  {
    hide KEYWORDS, CLAUSE, JOIN;
    ClausesAreReserved();
    JoinsAreReserved();
    OthersAreReserved();
  }

  // --------------------------------------------------------------------------- kinds

  predicate StartsWith(s: string, a: char, b: char) { |s| > 1 && s[0] == a && s[1] == b }

  /** A word with a parenthesis behind it that is none of those never called. */
  predicate Called(text: string, next: string)
    requires text != ""
  {
    IsWordStart(text[0]) && next == "(" && Upper(text) !in NEVER_FUNCTIONS
  }

  /** The kind that a text has in front of the code `next`. */
  predicate TellsKind(t: Token, next: string)
    requires t.text != ""
  {
    var c := t.text[0];
    var comment := StartsWith(t.text, '-', '-') || StartsWith(t.text, '/', '*');
    var number := IsDigit(c) || (c == '.' && |t.text| > 1 && IsDigit(t.text[1]));
    var word := IsWordStart(c) && !Called(t.text, next);
    && (t.kind == Whitespace <==> IsSpace(c))
    && (t.kind == Comment <==> comment)
    && (t.kind == String <==> c == '\'')
    && (t.kind == Number <==> number)
    && (t.kind == Function <==> Called(t.text, next))
    && (t.kind == Keyword <==> word && Upper(t.text) in KEYWORDS)
    && (t.kind == Identifier <==> c == '"' || c == '`' || (word && Upper(t.text) !in KEYWORDS))
    && (t.kind == Punctuation <==> IsPunctuation(c) && !number)
    && (t.kind == Operator <==>
          !comment && !number && !IsSpace(c) && !IsQuote(c) && !IsWordStart(c) && !IsPunctuation(c))
  }

  lemma KindIsTold(text: string, next: string)
    requires text != ""
    ensures TellsKind(Token(KindOf(text, next), text), next)
  {
    hide Upper;
  }

  lemma {:induction false} CodeIsSignificant(ts: seq<Token>)
    ensures FirstCode(Significant(ts)) == FirstCode(ts)
  {
    if ts != [] { CodeIsSignificant(ts[1..]); }
  }

  /** For every text and each of its tokens, blanks included: its kind follows from its
      own text and from the first character of the next token that is neither blank nor
      comment. */
  lemma {:induction false} KindsAreTold(sql: string, i: nat)
    requires i < |Tokens(sql)|
    ensures var ts := Tokens(sql); ts[i].text != "" && TellsKind(ts[i], FirstCode(ts[i + 1..]))
    decreases i
  {
    hide TellsKind, KindOf, FirstCode, Significant, TokenLength, Peek;
    var n := TokenLength(sql);
    var rest := Tokens(sql[n..]);
    assert Tokens(sql) == [Token(KindOf(sql[..n], Peek(sql[n..])), sql[..n])] + rest;
    if i == 0 {
      PeekIsHonest(sql[n..]);
      CodeIsSignificant(rest);
      KindIsTold(sql[..n], Peek(sql[n..]));
      assert Tokens(sql)[1..] == rest;
    } else {
      KindsAreTold(sql[n..], i - 1);
      assert Tokens(sql)[i + 1..] == rest[i..];
    }
  }

  // -------------------------------------------------------------------------- extents

  /** `content` as it is written between quotes `q`. */
  function Doubled(content: string, q: char): string {
    if content == "" then "" else (if content[0] == q then [q, q] else [content[0]]) + Doubled(content[1..], q)
  }

  /** A run that takes everything it can. */
  predicate Longest(text: string, rest: string, p: char -> bool) {
    (forall i :: 0 <= i < |text| ==> p(text[i])) && (rest == "" || !p(rest[0]))
  }

  predicate InWord(c: char) { 'A' <= c <= 'Z' || 'a' <= c <= 'z' || c == '_' || '0' <= c <= '9' || c == '$' }

  predicate ExponentFollows(s: string) {
    |s| > 1 && (s[0] == 'e' || s[0] == 'E') && (IsDigit(s[1]) || s[1] == '+' || s[1] == '-')
  }

  /** The first `d` characters are the run, and an exponent behind it is taken too. */
  predicate NumberSplits(text: string, rest: string, d: nat) {
    && 0 < d <= |text|
    && Longest(text[1..d], text[d..] + rest, IsDigitOrDot)
    && if ExponentFollows(text[d..] + rest) then |text| >= d + 2 && Longest(text[d + 2..], rest, IsDigit)
       else |text| == d
  }

  /** Digits and dots, and at most one exponent, taken as far as they go. */
  ghost predicate NumberExtends(text: string, rest: string) { exists d: nat :: NumberSplits(text, rest, d) }

  /** A quoted run holds its content with every quote doubled; only at the end of the
      text may its closing quote be missing. */
  ghost predicate QuoteExtends(text: string, rest: string)
    requires text != ""
  {
    exists content: string ::
      || (text == [text[0]] + Doubled(content, text[0]) + [text[0]] && (rest == "" || rest[0] != text[0]))
      || (text == [text[0]] + Doubled(content, text[0]) && rest == "")
  }

  predicate MarkAt(s: string, k: nat, a: char, b: char) { k + 1 < |s| && s[k] == a && s[k + 1] == b }

  /** A block comment ends with the first closing mark behind its opening one; only at
      the end of the text may it be missing. */
  predicate BlockExtends(text: string, rest: string) {
    |text| >= 2 &&
    var inner := text[2..];
    || (|inner| >= 2 && MarkAt(inner, |inner| - 2, '*', '/')
        && forall k :: 0 <= k < |inner| - 2 ==> !MarkAt(inner, k, '*', '/'))
    || (rest == "" && forall k :: 0 <= k < |inner| ==> !MarkAt(inner, k, '*', '/'))
  }

  /** How far a token reaches into the text that starts with it. */
  ghost predicate Extends(text: string, rest: string)
    requires text != ""
  {
    var c := text[0];
    if IsSpace(c) then Longest(text, rest, IsSpace)
    else if StartsWith(text, '-', '-') then Longest(text, rest, NotNewline)
    else if StartsWith(text, '/', '*') then BlockExtends(text, rest)
    else if IsQuote(c) then QuoteExtends(text, rest)
    else if IsDigit(c) || (c == '.' && |text| > 1) then NumberExtends(text, rest)
    else if IsWordStart(c) then Longest(text, rest, InWord)
    else if IsOperatorChar(c) then Longest(text, rest, IsOperatorChar)
    else |text| == 1
  }

  lemma SpanIsLongest(s: string, p: char -> bool)
    ensures Longest(s[..Span(s, p)], s[Span(s, p)..], p)
  {
  }

  lemma {:induction false} QuoteHolds(s: string, q: char) returns (content: string)
    ensures var n := QuoteTail(s, q);
            || (s[..n] == Doubled(content, q) + [q] && (n < |s| ==> s[n] != q))
            || (s[..n] == Doubled(content, q) && n == |s|)
    decreases |s|
  {
    var n := QuoteTail(s, q);
    content := "";
    if s == "" {
    } else if s[0] != q {
      var more := QuoteHolds(s[1..], q);
      content := [s[0]] + more;
      assert content[1..] == more && s[..n] == [s[0]] + s[1..][..n - 1];
    } else if |s| > 1 && s[1] == q {
      var more := QuoteHolds(s[2..], q);
      content := [q] + more;
      assert content[1..] == more && s[..n] == [q, q] + s[2..][..n - 2];
    } else {
      assert s[..1] == [q];
    }
  }

  lemma QuotedExtends(s: string)
    requires s != "" && ClassOf(s) == Quoted
    ensures QuoteExtends(s[..TokenLength(s)], s[TokenLength(s)..])
  {
    var n, q := TokenLength(s), s[0];
    var content := QuoteHolds(s[1..], q);
    var text, rest := s[..n], s[n..];
    assert text == [q] + s[1..][..n - 1];
    if n < |s| { assert s[n] == s[1..][n - 1]; }
    assert text == [q] + Doubled(content, q) + [q] || text == [q] + Doubled(content, q);
  }

  lemma BlockReaches(s: string)
    requires s != "" && ClassOf(s) == BlockComment
    ensures BlockExtends(s[..TokenLength(s)], s[TokenLength(s)..])
  {
    var n, t := TokenLength(s), s[2..];
    var m := BlockTail(t);
    var inner := s[..n][2..];
    assert inner == t[..m];
    assert forall k: nat :: MarkAt(inner, k, '*', '/') <==> ClosesAt(inner, k);
    assert forall k: nat :: ClosesAt(inner, k) ==> ClosesAt(t, k);
    if m >= 2 && ClosesAt(t, m - 2) { assert ClosesAt(inner, m - 2); }
  }

  lemma ExponentSeen(t: string, e: nat)
    requires e <= |t|
    ensures ExponentAt(t, e) <==> ExponentFollows(t[e..])
  {
  }

  lemma NumberReaches(s: string)
    requires s != "" && ClassOf(s) == Numeric
    ensures NumberExtends(s[..TokenLength(s)], s[TokenLength(s)..])
  {
    hide Span, Longest, ExponentAt, ExponentFollows;
    var n, t := TokenLength(s), s[1..];
    var e := Span(t, IsDigitOrDot);
    var text, rest := s[..n], s[n..];
    var d := 1 + e;
    SpanIsLongest(t, IsDigitOrDot);
    ExponentSeen(t, e);
    assert n == 1 + NumberTail(t) && text[1..d] == t[..e] && text[d..] + rest == t[e..];
    if ExponentAt(t, e) {
      SpanIsLongest(t[e + 2..], IsDigit);
      var k := Span(t[e + 2..], IsDigit);
      assert text[d + 2..] == t[e + 2..][..k] && rest == t[e + 2..][k..];
    }
    assert NumberSplits(text, rest, d);
  }

  lemma FirstExtends(s: string)
    requires s != ""
    ensures Extends(s[..TokenLength(s)], s[TokenLength(s)..])
  {
    hide QuoteExtends, BlockExtends, NumberExtends, BlockTail, QuoteTail, NumberTail, Longest, Span;
    CutToken(s);
    FirstCharacters(s);
    var n := TokenLength(s);
    match ClassOf(s)
    case Space => SpanIsLongest(s, IsSpace);
    case LineComment => SpanIsLongest(s, NotNewline);
    case Quoted => QuotedExtends(s);
    case BlockComment => BlockReaches(s);
    case Numeric => NumberReaches(s);
    case Word => WordReaches(s);
    case Oper => SpanIsLongest(s, IsOperatorChar);
    case Punct => assert Extends(s[..n], s[n..]);
    case Other => assert Extends(s[..n], s[n..]);
  }

  lemma WordReaches(s: string)
    ensures Longest(s[..Span(s, IsWordChar)], s[Span(s, IsWordChar)..], InWord)
  {
  }

  /** What a token shows of its sort. */
  lemma FirstCharacters(s: string)
    requires s != ""
    ensures var text := s[..TokenLength(s)];
            && text[0] == s[0]
            && (StartsWith(text, '-', '-') <==> ClassOf(s) == LineComment)
            && (StartsWith(text, '/', '*') <==> ClassOf(s) == BlockComment)
            && (s[0] == '.' && |text| > 1 ==> ClassOf(s) == Numeric)
            && (s[0] == '.' && ClassOf(s) == Numeric ==> |text| > 1)
  {
    hide Span, BlockTail, QuoteTail;
    assert Span(s, NotNewline) > 1 || ClassOf(s) != LineComment by { DashesAreTaken(s); }
    var text := s[..TokenLength(s)];
    CutToken(s);
    if |text| > 1 { assert text[1] == s[1]; }
    if s[0] == '.' && ClassOf(s) == Numeric {
      assert IsDigitOrDot(s[1..][0]);
      assert Span(s[1..], IsDigitOrDot) > 0 by { SpanTakes(s[1..], IsDigitOrDot); }
    }
  }

  lemma DashesAreTaken(s: string)
    ensures |s| > 1 && s[0] == '-' && s[1] == '-' ==> Span(s, NotNewline) > 1
  {
  }

  lemma SpanTakes(s: string, p: char -> bool)
    requires s != "" && p(s[0])
    ensures Span(s, p) > 0
  {
  }

  lemma {:induction false} TextsSplit(ts: seq<Token>, i: nat)
    requires i <= |ts|
    ensures Texts(ts[..i]) + Texts(ts[i..]) == Texts(ts)
  {
    if i > 0 {
      TextsSplit(ts[1..], i - 1);
      assert ts[..i][1..] == ts[1..][..i - 1] && ts[i..] == ts[1..][i - 1..];
      assert ts[0].text + (Texts(ts[1..][..i - 1]) + Texts(ts[i..])) == Texts(ts);
    } else {
      assert ts[0..] == ts && Texts(ts[..0]) == "";
    }
  }

  /** For every text each token reaches exactly as far as its sort allows, and the next
      one starts there. */
  lemma {:induction false} TokensReach(sql: string, i: nat)
    requires i < |Tokens(sql)|
    ensures var ts := Tokens(sql);
            && ts[i].text != "" && Texts(ts[..i + 1]) + Texts(ts[i + 1..]) == sql
            && Extends(ts[i].text, Texts(ts[i + 1..]))
    decreases i
  {
    hide Extends, KindOf, TokenLength, Peek;
    var n := TokenLength(sql);
    var rest := Tokens(sql[n..]);
    var ts := Tokens(sql);
    TokensLoseNothing(sql);
    TextsSplit(ts, i + 1);
    assert ts == [Token(KindOf(sql[..n], Peek(sql[n..])), sql[..n])] + rest;
    if i == 0 {
      TokensLoseNothing(sql[n..]);
      FirstExtends(sql);
      assert ts[1..] == rest;
    } else {
      TokensReach(sql[n..], i - 1);
      assert ts[i + 1..] == rest[i..];
    }
  }
}
