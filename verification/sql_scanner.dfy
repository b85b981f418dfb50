/** The loops of `sql-format.ts`, proved against the scanner's and the
    printer's definitions. */
module SqlScanner {
  import opened Options
  import opened SqlLexer
  import opened SqlPrinter

  /** `while (i < sql.length && p(sql[i])) i += 1` */
  method ScanWhile(sql: string, from: nat, p: char -> bool) returns (i: nat)
    requires from <= |sql|
    ensures from <= i <= |sql| && i - from == Span(sql[from..], p)
  {
    i := from;
    while i < |sql| && p(sql[i])
      invariant from <= i <= |sql|
      invariant forall k :: 0 <= k < i - from ==> p(sql[from..][k])
    {
      assert sql[i] == sql[from..][i - from];
      i := i + 1;
    }
    assert i < |sql| ==> sql[i] == sql[from..][i - from];
  }

  /** The inside of a block comment, up to and past its closing mark; `end` may
      lie two characters past the text when there is none. */
  method ScanBlock(sql: string, from: nat) returns (end: nat)
    requires from <= |sql|
    ensures (if end < |sql| then end else |sql|) == from + BlockTail(sql[from..])
    ensures end >= from
  {
    var i := from;
    var s := sql[from..];
    while i < |sql| && !ClosesAt(sql, i)
      invariant from <= i <= |sql|
      invariant forall k: nat :: k < i - from ==> !ClosesAt(s, k)
    {
      assert ClosesAt(s, i - from) == ClosesAt(sql, i);
      i := i + 1;
    }
    if i < |sql| {
      assert ClosesAt(s, i - from);
    }
    end := i + 2;
  }

  method ScanQuoted(sql: string, start: nat) returns (i: nat)
    requires start < |sql|
    ensures start < i <= |sql| && i == start + 1 + QuoteTail(sql[start + 1..], sql[start])
  {
    var q := sql[start];
    i := start + 1;
    while i < |sql|
      invariant start < i <= |sql|
      invariant QuoteTail(sql[start + 1..], q) == i - start - 1 + QuoteTail(sql[i..], q)
    {
      if sql[i] == q {
        if i + 1 < |sql| && sql[i + 1] == q {
          assert sql[i..][2..] == sql[i + 2..];
          i := i + 2;
          continue;
        }
        i := i + 1;
        return;
      }
      assert sql[i..][1..] == sql[i + 1..];
      i := i + 1;
    }
  }

  method ScanNumber(sql: string, start: nat) returns (i: nat)
    requires start < |sql|
    ensures start < i <= |sql| && i == start + 1 + NumberTail(sql[start + 1..])
  {
    var s := sql[start + 1..];
    i := ScanWhile(sql, start + 1, IsDigitOrDot);
    var d := i - start - 1;
    if i + 1 < |sql| && (sql[i] == 'e' || sql[i] == 'E') &&
       (IsDigit(sql[i + 1]) || sql[i + 1] == '+' || sql[i + 1] == '-') {
      assert s[d] == sql[i] && s[d + 1] == sql[i + 1];
      assert s[d + 2..] == sql[i + 2..];
      i := ScanWhile(sql, i + 2, IsDigit);
    } else {
      assert i < |sql| ==> s[d] == sql[i];
      assert i + 1 < |sql| ==> s[d + 1] == sql[i + 1];
    }
  }

  lemma PeekNothing()
    ensures Peek("") == ""
  {
  }

  lemma PeekBlank(s: string)
    requires s != "" && IsSpace(s[0])
    ensures Peek(s) == Peek(s[1..])
  {
  }

  lemma PeekLine(s: string)
    requires s != "" && ClassOf(s) == LineComment
    ensures Peek(s) == Peek(s[Span(s, NotNewline)..])
  {
    hide Span;
  }

  lemma PeekBlock(s: string)
    requires s != "" && ClassOf(s) == BlockComment
    ensures Peek(s) == Peek(s[2 + BlockTail(s[2..])..])
  {
    hide BlockTail;
  }

  lemma PeekCode(s: string)
    requires s != "" && !IsSpace(s[0]) && ClassOf(s) != LineComment && ClassOf(s) != BlockComment
    ensures Peek(s) == [s[0]]
  {
  }

  /** `peekSignificant` */
  method PeekSignificant(sql: string, from: nat) returns (next: string)
    requires from <= |sql|
    ensures next == Peek(sql[from..])
  {
    hide Peek, BlockTail, Span, IsSpace, ClosesAt;
    var i := from;
    assert Peek("") == "" by { PeekNothing(); }
    assert sql[|sql|..] == "";
    while i < |sql|
      invariant Peek(sql[from..]) == if i <= |sql| then Peek(sql[i..]) else ""
      decreases |sql| - i
    {
      ghost var s := sql[i..];
      var c := sql[i];
      if IsSpace(c) {
        PeekBlank(s);
        assert s[1..] == sql[i + 1..];
        i := i + 1;
        continue;
      }
      if c == '-' && i + 1 < |sql| && sql[i + 1] == '-' {
        var j := ScanWhile(sql, i, NotNewline);
        PeekLine(s);
        assert s[j - i..] == sql[j..];
        i := j;
        continue;
      }
      if c == '/' && i + 1 < |sql| && sql[i + 1] == '*' {
        var j := ScanBlock(sql, i + 2);
        PeekBlock(s);
        assert s[2..] == sql[i + 2..];
        assert j <= |sql| ==> s[j - i..] == sql[j..];
        assert s[|s|..] == "";
        i := j;
        continue;
      }
      PeekCode(s);
      return [c];
    }
    next := "";
  }

  /** Where the token at `start` ends. */
  method ScanToken(sql: string, start: nat) returns (i: nat)
    requires start < |sql|
    ensures i == start + TokenLength(sql[start..])
  {
    var c := sql[start];
    ghost var s := sql[start..];
    if IsSpace(c) {
      i := ScanWhile(sql, start, IsSpace);
    } else if c == '-' && start + 1 < |sql| && sql[start + 1] == '-' {
      i := ScanWhile(sql, start, NotNewline);
    } else if c == '/' && start + 1 < |sql| && sql[start + 1] == '*' {
      i := ScanBlock(sql, start + 2);
      assert s[2..] == sql[start + 2..];
      if i > |sql| { i := |sql|; }
    } else if IsQuote(c) {
      assert s[1..] == sql[start + 1..];
      i := ScanQuoted(sql, start);
    } else if IsDigit(c) || (c == '.' && start + 1 < |sql| && IsDigit(sql[start + 1])) {
      assert s[1..] == sql[start + 1..];
      i := ScanNumber(sql, start);
    } else if IsWordStart(c) {
      i := ScanWhile(sql, start, IsWordChar);
    } else if IsPunctuation(c) {
      i := start + 1;
    } else if IsOperatorChar(c) {
      i := ScanWhile(sql, start, IsOperatorChar);
    } else {
      i := start + 1;
    }
  }

  /** `tokenizeSql` */
  method TokenizeSql(sql: string) returns (tokens: seq<Token>)
    ensures tokens == Tokens(sql)
  {
    hide KindOf, ClassOf, TokenLength, Peek;
    tokens := [];
    var i := 0;
    while i < |sql|
      invariant 0 <= i <= |sql|
      invariant Tokens(sql) == tokens + Tokens(sql[i..])
    {
      var end := ScanToken(sql, i);
      var text := sql[i..end];
      ghost var s := sql[i..];
      assert s[..end - i] == text && s[end - i..] == sql[end..];
      var next := PeekSignificant(sql, end);
      tokens := tokens + [Token(KindOf(text, next), text)];
      i := end;
    }
  }

  // ------------------------------------------------------------------ formatting

  /** The `lines` and `line` of `formatSql` with its three closures. */
  class LineBuffer {
    var lines: seq<string>
    var line: string

    function Value(): Page
      reads this
    {
      Page(lines, line)
    }

    constructor ()
      ensures Value() == Page([], "")
    {
      lines, line := [], "";
    }

    method FlushLine()
      modifies this
      ensures Value() == Flush(old(Value()))
    {
      if !Blank(line) { lines := lines + [TrimEnd(line)]; }
      line := "";
    }

    method OpenLine(level: int)
      modifies this
      ensures Value() == Open(old(Value()), level)
    {
      FlushLine();
      line := Indent(level);
    }

    method AppendText(text: string, spaced: bool)
      modifies this
      ensures Value() == Append(old(Value()), text, spaced)
    {
      line := line + (if !Blank(line) && spaced then " " else "") + text;
    }
  }

  method PrintParenthesis(t: Token, next: string, stack: seq<Frame>, prev: Option<Token>, buffer: LineBuffer)
    returns (stack': seq<Frame>)
    requires stack != [] && t.kind == Punctuation
    modifies buffer
    ensures State(stack', buffer.Value(), Some(t)) == PrintPunctuation(t, next, State(stack, old(buffer.Value()), prev))
  {
    stack' := stack;
    if t.text == "(" {
      var isSubquery := OpensSubquery(next);
      buffer.AppendText("(", prev.Some? && !TightAfter(prev) && prev.value.kind != Function);
      stack' := stack + [Frame(Top(stack).base + 1, isSubquery)];
      if isSubquery { buffer.OpenLine(Top(stack').base); }
    } else if t.text == ")" {
      var closing := Top(stack);
      if |stack| > 1 { stack' := stack[..|stack| - 1]; }
      if closing.subquery && |stack'| >= 1 { buffer.OpenLine(closing.base - 1); }
      buffer.AppendText(")", false);
    } else if t.text == "," {
      buffer.AppendText(",", false);
      if Top(stack).subquery { buffer.OpenLine(Top(stack).base + 1); }
    } else {
      buffer.AppendText(t.text, false);
      if t.text == ";" { buffer.FlushLine(); }
    }
  }

  /** The body of the printing loop: from one token to the next one it leaves
      unprinted. */
  method PrintStep(ts: seq<Token>, index: nat, stack: seq<Frame>, prev: Option<Token>, buffer: LineBuffer)
    returns (index': nat, stack': seq<Frame>, prev': Option<Token>)
    requires index < |ts| && stack != []
    modifies buffer
    ensures (index', State(stack', buffer.Value(), prev')) == Step(ts, index, State(stack, old(buffer.Value()), prev))
  {
    hide StartsClause, Flush, Open, Append, TrimEnd, PrintPunctuation, Upper;
    var t, next := ts[index], UpperAt(ts, index + 1);
    ghost var st := State(stack, buffer.Value(), prev);
    index', stack', prev' := index + 1, stack, Some(t);
    var top := Top(stack);
    if t.kind == Comment {
      if StartsWithDashes(t.text) {
        buffer.OpenLine(top.base);
        buffer.AppendText(t.text, false);
        buffer.FlushLine();
      } else {
        buffer.AppendText(t.text, true);
      }
      return;
    }
    if t.kind == Punctuation {
      stack' := PrintParenthesis(t, next, stack, prev, buffer);
      return;
    }
    if t.kind == Keyword && top.subquery {
      if StartsClause(prev, Upper(t.text), next) {
        buffer.OpenLine(top.base);
        buffer.AppendText(t.text, false);
        if Upper(t.text) == "SELECT" {
          ghost var printed := State(stack, buffer.Value(), prev');
          while index' < |ts| && (UpperAt(ts, index') == "DISTINCT" || UpperAt(ts, index') == "ALL")
            invariant index < index' <= |ts|
            invariant Absorb(ts, index + 1, printed) == Absorb(ts, index', State(stack, buffer.Value(), prev'))
          {
            prev' := Some(ts[index']);
            buffer.AppendText(ts[index'].text, true);
            index' := index' + 1;
          }
          buffer.OpenLine(top.base + 1);
        }
        return;
      }
      if Upper(t.text) == "ON" || Upper(t.text) == "AND" || Upper(t.text) == "OR" {
        buffer.OpenLine(top.base + 1);
        buffer.AppendText(t.text, false);
        return;
      }
    }
    buffer.AppendText(t.text, !TightAfter(prev));
  }

  /** `formatSql` */
  method FormatSql(sql: string) returns (out: string)
    ensures out == Format(sql)
  {
    var source := Trim(sql);
    if source == "" { return ""; }
    var tokens := TokenizeSql(source);
    tokens := Significant(tokens);
    if tokens == [] { return source; }

    var buffer := new LineBuffer();
    var stack := [Frame(0, true)];
    var prev: Option<Token> := None;
    var index := 0;
    while index < |tokens|
      invariant 0 <= index <= |tokens| && stack != []
      invariant Run(tokens, 0, START) == Run(tokens, index, State(stack, buffer.Value(), prev))
    {
      index, stack, prev := PrintStep(tokens, index, stack, prev, buffer);
    }
    buffer.FlushLine();
    var formatted := Join(buffer.lines);
    out := if Blank(formatted) then source else formatted;
  }
}
