/** When a token's text, put in front of other text, is read back as the same
    token. Everything the printer theorem needs from the scanner is here. */
module SqlLexemes {
  import opened SqlLexer

  /** Read alone, `t` is exactly one token. */
  predicate Lexeme(t: string) {
    t != "" && TokenLength(t) == |t|
  }

  predicate HasExponent(t: string) { 'e' in t || 'E' in t }

  /** `t` is no quoted run or block comment that lacks its closing mark. */
  predicate Ended(t: string)
    requires t != ""
  {
    match ClassOf(t)
    case BlockComment => |t| >= 4 && ClosesAt(t, |t| - 2)
    case Quoted => QuoteCloses(t[1..], t[0])
    case _ => true
  }

  /** The scanner, having read `t`, would not take `c` into the same token. */
  predicate Stops(t: string, c: char)
    requires t != ""
  {
    match ClassOf(t)
    case Space => !IsSpace(c)
    case LineComment => c == '\n'
    case BlockComment => true
    case Quoted => c != t[0]
    case Numeric => if HasExponent(t) then !IsDigit(c) else !IsDigitOrDot(c) && c != 'e' && c != 'E'
    case Word => !IsWordChar(c)
    case Punct => !(t == "." && IsDigit(c))
    case Oper => !IsOperatorChar(c)
    case Other => true
  }

  // ------------------------------------------------------------------ cutting

  lemma {:induction false} QuoteCut(s: string, q: char)
    ensures var n := QuoteTail(s, q);
            && QuoteTail(s[..n], q) == n
            && QuoteCloses(s[..n], q) == QuoteCloses(s, q)
            && (n < |s| ==> QuoteCloses(s, q) && s[n] != q)
    decreases |s|
  {
    var n := QuoteTail(s, q);
    if s == "" {
    } else if s[0] != q {
      QuoteCut(s[1..], q);
      assert s[..n][1..] == s[1..][..n - 1];
    } else if |s| > 1 && s[1] == q {
      QuoteCut(s[2..], q);
      assert s[..n][2..] == s[2..][..n - 2];
    }
  }

  lemma NumberCut(s: string)
    ensures var n := NumberTail(s); NumberTail(s[..n]) == n
  {
    var d := Span(s, IsDigitOrDot);
    var n := NumberTail(s);
    assert Span(s[..n], IsDigitOrDot) == d;
    if ExponentAt(s, d) {
      assert s[..n][d + 2..] == s[d + 2..][..n - d - 2];
    }
  }

  lemma BlockCut(s: string)
    ensures var n := BlockTail(s); BlockTail(s[..n]) == n
  {
    var n := BlockTail(s);
    var m := BlockTail(s[..n]);
    assert forall k: nat :: ClosesAt(s[..n], k) ==> ClosesAt(s, k);
  }

  lemma CutClass(s: string)
    requires s != ""
    ensures ClassOf(s[..TokenLength(s)]) == ClassOf(s)
  {
    var n := TokenLength(s);
    if ClassOf(s) == LineComment || ClassOf(s) == BlockComment || ClassOf(s) == Numeric {
      if |s| > 1 && n > 1 { assert s[..n][1] == s[1]; }
    }
  }

  lemma CutBlock(s: string)
    requires s != "" && ClassOf(s) == BlockComment
    ensures var n := TokenLength(s);
            Lexeme(s[..n]) && (n < |s| ==> Ended(s[..n]))
  {
    var n := TokenLength(s);
    CutClass(s);
    BlockCut(s[2..]);
    assert s[..n][2..] == s[2..][..n - 2];
    if n < |s| { assert ClosesAt(s[2..], n - 4); }
  }

  lemma CutQuoted(s: string)
    requires s != "" && ClassOf(s) == Quoted
    ensures var n := TokenLength(s);
            Lexeme(s[..n]) && (n < |s| ==> Ended(s[..n]))
  {
    var n := TokenLength(s);
    CutClass(s);
    QuoteCut(s[1..], s[0]);
    assert s[..n][1..] == s[1..][..n - 1];
  }

  lemma CutNumeric(s: string)
    requires s != "" && ClassOf(s) == Numeric
    ensures var n := TokenLength(s);
            Lexeme(s[..n]) && (n < |s| ==> Ended(s[..n]))
  {
    var n := TokenLength(s);
    CutClass(s);
    NumberCut(s[1..]);
    assert s[..n][1..] == s[1..][..n - 1];
  }

  lemma CutRun(s: string)
    requires s != "" && ClassOf(s) != BlockComment && ClassOf(s) != Quoted && ClassOf(s) != Numeric
    ensures var n := TokenLength(s);
            Lexeme(s[..n]) && (n < |s| ==> Ended(s[..n]))
  {
    hide ClassOf;
    CutClass(s);
  }

  /** A token cut off from what followed it is still that token, and a token
      that something followed has its closing mark. */
  lemma CutToken(s: string)
    requires s != ""
    ensures var t := s[..TokenLength(s)];
            && Lexeme(t) && ClassOf(t) == ClassOf(s)
            && (TokenLength(s) < |s| ==> Ended(t))
  {
    hide TokenLength, ClassOf, Lexeme, Ended;
    CutClass(s);
    if ClassOf(s) == BlockComment { CutBlock(s); }
    else if ClassOf(s) == Quoted { CutQuoted(s); }
    else if ClassOf(s) == Numeric { CutNumeric(s); }
    else { CutRun(s); }
  }

  // ---------------------------------------------------------------- extending

  lemma SpanExtend(t: string, rest: string, p: char -> bool)
    requires Span(t, p) < |t| || rest == "" || !p(rest[0])
    ensures Span(t + rest, p) == Span(t, p)
  {
    assert forall i | 0 <= i < |t| :: (t + rest)[i] == t[i];
    assert rest != "" ==> (t + rest)[|t|] == rest[0];
  }

  lemma {:induction false} QuoteExtend(t: string, q: char, rest: string)
    requires QuoteTail(t, q) == |t| && QuoteCloses(t, q)
    requires rest == "" || rest[0] != q
    ensures QuoteTail(t + rest, q) == |t|
    decreases |t|
  {
    if t[0] != q {
      QuoteExtend(t[1..], q, rest);
      assert (t + rest)[1..] == t[1..] + rest;
    } else if |t| > 1 && t[1] == q {
      QuoteExtend(t[2..], q, rest);
      assert (t + rest)[2..] == t[2..] + rest;
    }
  }

  lemma BlockExtend(t: string, rest: string)
    requires BlockTail(t) == |t| >= 2 && ClosesAt(t, |t| - 2)
    ensures BlockTail(t + rest) == |t|
  {
    assert ClosesAt(t + rest, |t| - 2);
    assert forall k: nat | k + 2 <= |t| :: ClosesAt(t + rest, k) == ClosesAt(t, k);
  }

  /** In a numeric lexeme the exponent starts right after the leading run. */
  lemma ExponentPlace(t: string)
    requires Lexeme(t) && ClassOf(t) == Numeric
    ensures HasExponent(t) <==> ExponentAt(t[1..], Span(t[1..], IsDigitOrDot))
    ensures !HasExponent(t) ==> Span(t[1..], IsDigitOrDot) == |t| - 1
  {
    var d := Span(t[1..], IsDigitOrDot);
    if ExponentAt(t[1..], d) {
      assert t[d + 1] in t;
    } else {
      assert forall i :: 0 <= i < |t| - 1 ==> IsDigitOrDot(t[1..][i]);
      assert forall c :: c in t ==> c == t[0] || c in t[1..];
    }
  }

  lemma NumberExtend(t: string, rest: string)
    requires Lexeme(t) && ClassOf(t) == Numeric
    requires rest == "" || Stops(t, rest[0])
    ensures NumberTail(t[1..] + rest) == |t| - 1
  {
    ExponentPlace(t);
    var u := t[1..];
    var d := Span(u, IsDigitOrDot);
    SpanExtend(u, rest, IsDigitOrDot);
    if HasExponent(t) {
      assert (u + rest)[d + 2..] == u[d + 2..] + rest;
      SpanExtend(u[d + 2..], rest, IsDigit);
    }
  }

  /** The heart of re-reading: in front of text that stops it, an ended lexeme
      is read back whole. */
  lemma ExtendToken(t: string, rest: string)
    requires Lexeme(t)
    requires rest == "" || (Ended(t) && Stops(t, rest[0]))
    ensures ClassOf(t + rest) == ClassOf(t) && TokenLength(t + rest) == |t|
  {
    if rest == "" {
      assert t + rest == t;
    } else {
      ExtendClass(t, rest);
      match ClassOf(t)
      case BlockComment =>
        assert (t + rest)[2..] == t[2..] + rest;
        BlockExtend(t[2..], rest);
      case Quoted =>
        assert (t + rest)[1..] == t[1..] + rest;
        QuoteExtend(t[1..], t[0], rest);
      case Numeric =>
        assert (t + rest)[1..] == t[1..] + rest;
        NumberExtend(t, rest);
      case LineComment => SpanExtend(t, rest, NotNewline);
      case Word => SpanExtend(t, rest, IsWordChar);
      case Oper => SpanExtend(t, rest, IsOperatorChar);
      case Space => SpanExtend(t, rest, IsSpace);
      case _ =>
    }
  }

  lemma ExtendClass(t: string, rest: string)
    requires Lexeme(t)
    requires rest != "" && Ended(t) && Stops(t, rest[0])
    ensures ClassOf(t + rest) == ClassOf(t)
  {
    if |t| == 1 {
      assert (t + rest)[1] == rest[0];
    } else {
      assert (t + rest)[1] == t[1];
    }
  }
}
