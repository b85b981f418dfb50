/** What the token list of a whole string satisfies: nothing is lost, the
    function lookahead sees the next real token, and the list is coherent. */
module SqlTokens {
  import opened SqlLexer
  import opened SqlLexemes

  /** Every character lands in exactly one token, and no token is empty. */
  lemma {:induction false} TokensLoseNothing(s: string)
    ensures Texts(Tokens(s)) == s
    ensures forall t :: t in Tokens(s) ==> t.text != ""
    decreases |s|
  {
    if s != "" {
      TokensLoseNothing(s[TokenLength(s)..]);
    }
  }

  lemma KindShowsClass(text: string, next: string)
    requires text != ""
    ensures KindOf(text, next) == Whitespace <==> ClassOf(text) == Space
    ensures KindOf(text, next) == Comment <==> ClassOf(text) == LineComment || ClassOf(text) == BlockComment
  {
  }

  lemma {:induction false} PeekSkipsBlanks(s: string, n: nat)
    requires n <= |s| && forall i :: 0 <= i < n ==> IsSpace(s[i])
    ensures Peek(s) == Peek(s[n..])
  {
    if n > 0 {
      PeekSkipsBlanks(s[1..], n - 1);
      assert s[1..][n - 1..] == s[n..];
    }
  }

  /** The scanner's lookahead, a second loop over the raw text, finds exactly
      the first character of the next token that is no blank and no comment. */
  lemma {:induction false} PeekIsHonest(s: string)
    ensures Peek(s) == FirstCode(Significant(Tokens(s)))
    decreases |s|
  {
    if s != "" {
      var n := TokenLength(s);
      CutToken(s);
      PeekIsHonest(s[n..]);
      KindShowsClass(s[..n], Peek(s[n..]));
      if ClassOf(s) == Space {
        PeekSkipsBlanks(s, n);
      } else if ClassOf(s) != LineComment && ClassOf(s) != BlockComment {
        assert s[..n][..1] == s[..1];
      }
    }
  }

  /** A list of significant tokens that a scan can produce: every text is one
      lexeme, only the last may lack its closing mark, and every kind is the
      one the text and the following code call for. */
  predicate Coherent(ts: seq<Token>) {
    ts == [] ||
    (var t := ts[0];
     && Lexeme(t.text)
     && ClassOf(t.text) != Space
     && t.kind == KindOf(t.text, FirstCode(ts[1..]))
     && (|ts| > 1 ==> Ended(t.text))
     && Coherent(ts[1..]))
  }

  lemma {:induction false} ScanIsCoherent(s: string)
    ensures Coherent(Significant(Tokens(s)))
    decreases |s|
  {
    if s != "" {
      var n := TokenLength(s);
      CutToken(s);
      ScanIsCoherent(s[n..]);
      PeekIsHonest(s[n..]);
    }
  }

  /** Blanks in front of code become one whitespace token and change nothing. */
  lemma ScanSkipsBlanks(gap: string, rest: string)
    requires forall i :: 0 <= i < |gap| ==> IsSpace(gap[i])
    requires rest == "" || !IsSpace(rest[0])
    ensures Significant(Tokens(gap + rest)) == Significant(Tokens(rest))
  {
    if gap == "" {
      assert gap + rest == rest;
    } else {
      SpanExtend(gap, rest, IsSpace);
      assert Span(gap, IsSpace) == |gap|;
      assert (gap + rest)[|gap|..] == rest;
    }
  }
}
