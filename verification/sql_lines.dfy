/** What a reader of the formatted text sees: which words stand first on their line, and
    how far in. */
module SqlLines {
  import opened Options
  import opened SqlLexer
  import opened SqlLexemes
  import opened SqlTokens
  import opened SqlKinds
  import opened SqlPrinter
  import opened SqlLayout
  import opened SqlTheorems
  import opened SqlReference

  // ------------------------------------------------------------- what surrounds a token

  /** The token is a word that is not called. */
  predicate PlainWord(ts: seq<Token>, i: nat)
    requires i < |ts|
  {
    ts[i].text != "" && IsWordStart(ts[i].text[0]) && !Called(ts[i].text, FirstCode(ts[i + 1..]))
  }

  predicate Reads(ts: seq<Token>, i: int, word: string) { 0 <= i < |ts| && Upper(ts[i].text) == word }

  /** The innermost open parenthesis, if there is one, holds a statement of its own. */
  predicate StatementAt(ts: seq<Token>, i: nat)
    requires i <= |ts|
  {
    var o := Opened(ts, i);
    o == [] || Reads(ts, o[|o| - 1] + 1, "SELECT") || Reads(ts, o[|o| - 1] + 1, "WITH")
  }

  /** The word before it began a join that this one goes on with. */
  predicate GoesOnWithJoin(ts: seq<Token>, i: nat)
    requires i < |ts|
  {
    i > 0 && (Reads(ts, i - 1, "OUTER") || Upper(ts[i - 1].text) in JOIN)
  }

  /** A word of the statement that begins a line of its own. */
  predicate BeginsClause(ts: seq<Token>, i: nat)
    requires i < |ts|
  {
    && StatementAt(ts, i) && !GoesOnWithJoin(ts, i)
    && (|| Upper(ts[i].text) in CLAUSE
        || ((Reads(ts, i, "GROUP") || Reads(ts, i, "ORDER")) && Reads(ts, i + 1, "BY"))
        || Reads(ts, i, "JOIN")
        || (Upper(ts[i].text) in JOIN && (Reads(ts, i + 1, "JOIN") || Reads(ts, i + 1, "OUTER"))))
  }

  predicate BeginsCondition(ts: seq<Token>, i: nat)
    requires i < |ts|
  {
    StatementAt(ts, i) && (Reads(ts, i, "ON") || Reads(ts, i, "AND") || Reads(ts, i, "OR"))
  }

  /** The tokens that count, of what is formatted. */
  function Source(sql: string): seq<Token> { Significant(Tokens(Trim(sql))) }

  lemma {:induction false} CoherentKinds(ts: seq<Token>, i: nat)
    requires Coherent(ts) && i < |ts|
    ensures ts[i].text != "" && TellsKind(ts[i], FirstCode(ts[i + 1..]))
  {
    hide TellsKind, KindOf;
    if i > 0 {
      CoherentKinds(ts[1..], i - 1);
      assert ts[1..][i..] == ts[i + 1..];
    } else {
      KindIsTold(ts[0].text, FirstCode(ts[1..]));
    }
  }

  /** The kind of every token that counts follows from its text and from the first
      character of the next one that is no comment. */
  lemma SourceKinds(sql: string, i: nat)
    requires i < |Source(sql)|
    ensures var ts := Source(sql); ts[i].text != "" && TellsKind(ts[i], FirstCode(ts[i + 1..]))
  {
    hide Coherent, TellsKind, Tokens, Significant, Trim;
    ScanIsCoherent(Trim(sql));
    CoherentKinds(Source(sql), i);
  }

  lemma InStatementExactly(ts: seq<Token>, i: nat)
    requires i <= |ts|
    ensures InStatement(ts, i) <==> StatementAt(ts, i)
  {
    hide Opened;
  }

  lemma ClauseExactly(ts: seq<Token>, i: nat)
    requires i < |ts|
    ensures ClauseAt(ts, i) <==> ts[i].kind == Keyword && BeginsClause(ts, i)
    ensures ConditionAt(ts, i) <==> ts[i].kind == Keyword && BeginsCondition(ts, i)
  {
    hide Opened, InStatement, StatementAt, Upper;
    InStatementExactly(ts, i);
    assert Upper("") == "" by { NoWord(); }
    assert "BY" != "" && "JOIN" != "" && "OUTER" != "";
  }

  lemma NoWord()
    ensures Upper("") == ""
  {
  }

  // ------------------------------------------------------------------- the text itself

  /** A new line, `level` steps of two blanks in. */
  function Line(level: nat): string { "\n" + seq(2 * level, i => ' ') }

  lemma IndentIsTwoBlanks(level: nat)
    ensures "\n" + Indent(level) == Line(level)
    ensures Indent(level) == seq(2 * level, i => ' ')
  {
    if level > 0 {
      IndentIsTwoBlanks(level - 1);
      assert Indent(level) == "  " + Indent(level - 1);
      assert seq(2 * level, i => ' ') == "  " + seq(2 * (level - 1), i => ' ');
    }
  }

  lemma {:induction false} LaidGrows(ts: seq<Token>, i: nat, j: nat)
    requires i <= j <= |ts|
    ensures Laid(ts, i) <= Laid(ts, j)
    decreases j
  {
    hide GapAt;
    if i < j { LaidGrows(ts, i, j - 1); }
  }

  /** In the formatted text, token `i` stands behind the first `i` tokens and the gap. */
  predicate Stands(sql: string, i: nat, gap: string)
    requires i < |Source(sql)|
  {
    Laid(Source(sql), i) + gap + Shown(Source(sql)[i]) <= Format(sql)
  }

  lemma StandsBehindGap(sql: string, i: nat)
    requires i < |Source(sql)|
    ensures Stands(sql, i, GapAt(Source(sql), i))
  {
    hide Format, Tokens, Significant, Trim, GapAt, Shown;
    FormatIsLaidOut(sql);
    BlankHasNoTokens(sql);
    LaidGrows(Source(sql), i + 1, |Source(sql)|);
  }

  lemma BlankHasNoTokens(sql: string)
    ensures Blank(sql) ==> Source(sql) == []
  {
    if Blank(sql) { assert Trim(sql) == ""; }
  }

  /** A word of a statement that begins a clause, and goes on with no join, stands first
      on its line, at the indent of its statement: two blanks per open parenthesis. */
  lemma ClauseStandsFirst(sql: string, i: nat)
    requires i < |Source(sql)| && PlainWord(Source(sql), i) && BeginsClause(Source(sql), i)
    ensures var depth := |Opened(Source(sql), i)|;
            Stands(sql, i, if i == 0 then "" else Line(depth))
  {
    hide Format, Tokens, Significant, Trim, Opened, BeginsClause, Stands, OfSelect, ClauseAt, ConditionAt, Upper;
    var ts := Source(sql);
    WordIsReserved(sql, i);
    ClauseExactly(ts, i);
    StandsBehindGap(sql, i);
    IndentIsTwoBlanks(|Opened(ts, i)|);
    assert !OfSelect(ts, i) by { ClauseIsNoQuantifier(ts, i); }
    NothingOpen(ts);
  }

  lemma NothingOpen(ts: seq<Token>)
    ensures Opened(ts, 0) == [] && Indent(0) == ""
  {
  }

  /** A join condition or a further predicate stands first on its line, one step in. */
  lemma ConditionStandsFirst(sql: string, i: nat)
    requires 0 < i < |Source(sql)| && PlainWord(Source(sql), i) && BeginsCondition(Source(sql), i)
    ensures Stands(sql, i, Line(|Opened(Source(sql), i)| + 1))
  {
    hide Format, Tokens, Significant, Trim, Opened, Stands, OfSelect, ClauseAt, ConditionAt, Upper;
    var ts := Source(sql);
    ConditionIsReserved(sql, i);
    ClauseExactly(ts, i);
    StandsBehindGap(sql, i);
    IndentIsTwoBlanks(|Opened(ts, i)| + 1);
    assert !OfSelect(ts, i) && !ClauseAt(ts, i) by { ConditionIsNoClause(ts, i); }
  }

  lemma WordIsReserved(sql: string, i: nat)
    requires i < |Source(sql)| && PlainWord(Source(sql), i) && BeginsClause(Source(sql), i)
    ensures Source(sql)[i].kind == Keyword
  {
    hide Tokens, Significant, Trim, Opened, Upper, CLAUSE, KEYWORDS, StatementAt;
    SourceKinds(sql, i);
    PrintedWordsAreReserved();
  }

  lemma ConditionIsReserved(sql: string, i: nat)
    requires i < |Source(sql)| && PlainWord(Source(sql), i) && BeginsCondition(Source(sql), i)
    ensures Source(sql)[i].kind == Keyword
  {
    hide Tokens, Significant, Trim, Opened, Upper, CLAUSE, KEYWORDS, StatementAt;
    SourceKinds(sql, i);
    PrintedWordsAreReserved();
  }

  lemma ClauseIsNoQuantifier(ts: seq<Token>, i: nat)
    requires i < |ts| && BeginsClause(ts, i)
    ensures !OfSelect(ts, i)
  {
    hide StatementAt, SelectAt;
  }

  lemma ConditionIsNoClause(ts: seq<Token>, i: nat)
    requires i < |ts| && BeginsCondition(ts, i)
    ensures !OfSelect(ts, i) && !ClauseAt(ts, i)
  {
    hide StatementAt, SelectAt, InStatement;
  }

  // --------------------------------------------------------------------- lists, calls

  predicate IsMark(ts: seq<Token>, i: int, text: string) {
    0 <= i < |ts| && ts[i].kind == Punctuation && ts[i].text == text
  }

  /** A name, a value or a call: nothing that lays out the text. */
  predicate IsItem(ts: seq<Token>, i: nat)
    requires i < |ts|
  {
    ts[i].kind == Identifier || ts[i].kind == Number || ts[i].kind == String || ts[i].kind == Function
  }

  lemma ItemGap(ts: seq<Token>, i: nat)
    requires 0 < i < |ts| && IsItem(ts, i) && !Quantifies(ts, i)
    ensures GapAt(ts, i) ==
      if LeftBreak(ts, i).Some? then "\n" + Indent(LeftBreak(ts, i).value)
      else if ts[i - 1].text == "(" || ts[i - 1].text == "." then ""
      else " "
  {
    hide Opened, LeftBreak, StartsClause, Upper, Indent, InStatement;
  }

  /** Behind a comma an item stands on a line of its own, one step in, if the list is the
      statement's; inside any other parenthesis it stays in the line, behind one blank. */
  lemma ListItemStands(sql: string, i: nat)
    requires 0 < i < |Source(sql)| && IsItem(Source(sql), i) && IsMark(Source(sql), i - 1, ",")
    requires !Quantifies(Source(sql), i)
    ensures var ts := Source(sql);
            Stands(sql, i, if StatementAt(ts, i - 1) then Line(|Opened(ts, i - 1)| + 1) else " ")
  {
    hide Format, Tokens, Significant, Trim, Opened, Stands, Upper, StatementAt, InStatement, GapAt;
    var ts := Source(sql);
    StandsBehindGap(sql, i);
    ItemGap(ts, i);
    InStatementExactly(ts, i - 1);
    IndentIsTwoBlanks(|Opened(ts, i - 1)| + 1);
    MarkIsNoSelect(ts, i - 1);
  }

  /** A mark opens no select list, even behind one. */
  lemma MarkIsNoSelect(ts: seq<Token>, i: nat)
    requires i < |ts| && ts[i].kind == Punctuation && ts[i].text != "" && !IsWordStart(ts[i].text[0])
    ensures !SelectAt(ts, i) && !OfSelect(ts, i)
  {
    hide InStatement, StartsClause;
    assert Upper(ts[i].text)[0] == UpperChar(ts[i].text[0]);
  }

  /** The first item of a select list stands on a line of its own, one step in. */
  lemma SelectItemStands(sql: string, i: nat)
    requires 0 < i < |Source(sql)| && IsItem(Source(sql), i) && !Quantifies(Source(sql), i)
    requires PlainWord(Source(sql), i - 1) && BeginsClause(Source(sql), i - 1) && Reads(Source(sql), i - 1, "SELECT")
    ensures Stands(sql, i, Line(|Opened(Source(sql), i - 1)| + 1))
  {
    hide Format, Tokens, Significant, Trim, Opened, Stands, Upper, BeginsClause, ClauseAt, GapAt, OfSelect;
    var ts := Source(sql);
    StandsBehindGap(sql, i);
    ItemGap(ts, i);
    WordIsReserved(sql, i - 1);
    ClauseExactly(ts, i - 1);
    IndentIsTwoBlanks(|Opened(ts, i - 1)| + 1);
  }

  /** A parenthesis stands tight behind the name it calls. */
  lemma CallStandsTight(sql: string, i: nat)
    requires 0 < i < |Source(sql)| && IsMark(Source(sql), i, "(") && Source(sql)[i - 1].kind == Function
    requires !Quantifies(Source(sql), i - 1)
    ensures Stands(sql, i, "")
  {
    hide Format, Tokens, Significant, Trim, Stands, GapAt;
    StandsBehindGap(sql, i);
    CallGap(Source(sql), i);
  }

  /** What a parenthesis holds, if it is no statement, stands tight behind it, and so does
      what a dot qualifies. */
  lemma HeldStandsTight(sql: string, i: nat)
    requires 0 < i < |Source(sql)| && IsItem(Source(sql), i) && !Quantifies(Source(sql), i)
    requires IsMark(Source(sql), i - 1, ".") ||
             (IsMark(Source(sql), i - 1, "(") && !Reads(Source(sql), i, "SELECT") && !Reads(Source(sql), i, "WITH"))
    ensures Stands(sql, i, "")
  {
    hide Format, Tokens, Significant, Trim, Opened, Stands, Upper, GapAt, StatementAt, InStatement, OfSelect, SelectAt;
    var ts := Source(sql);
    StandsBehindGap(sql, i);
    ItemGap(ts, i);
    MarkIsNoSelect(ts, i - 1);
  }

  lemma CallGap(ts: seq<Token>, i: nat)
    requires 0 < i < |ts| && IsMark(ts, i, "(") && ts[i - 1].kind == Function && !Quantifies(ts, i - 1)
    ensures GapAt(ts, i) == ""
  {
    hide Opened, InStatement, StartsClause;
    MarkIsNoSelect(ts, i);
  }

  // ----------------------------------------------------------------------- a witness

  lemma ReadToken(text: string, rest: string)
    requires text != "" && TokenLength(text + rest) == |text|
    ensures Significant(Tokens(text + rest)) ==
      (if KindOf(text, Peek(rest)) == Whitespace then [] else [Token(KindOf(text, Peek(rest)), text)])
        + Significant(Tokens(rest))
  {
    hide KindOf, Peek, TokenLength;
    assert (text + rest)[..|text|] == text && (text + rest)[|text|..] == rest;
  }

  lemma WordClass(s: string)
    requires s != "" && IsWordStart(s[0])
    ensures ClassOf(s) == Word && Peek(s) == s[..1]
  {
    hide Span, BlockTail;
  }

  lemma ReadWord(word: string, rest: string)
    requires word != "" && IsWordStart(word[0]) && (forall i :: 0 <= i < |word| ==> IsWordChar(word[i]))
    requires rest == "" || !IsWordChar(rest[0])
    ensures Significant(Tokens(word + rest)) ==
      [Token(WordKind(word, Peek(rest)), word)] + Significant(Tokens(rest))
  {
    hide Tokens, Significant, Peek, WordKind, ClassOf, Span, IsWordChar;
    assert Span(word, IsWordChar) <= |word|;
    SpanExtend(word, rest, IsWordChar);
    WordClass(word);
    WordClass(word + rest);
    assert Span(word, IsWordChar) == |word| by { WholeSpan(word, IsWordChar); }
    ReadToken(word, rest);
    assert WordKind(word, Peek(rest)) != Whitespace by { WordsAreNoBlanks(word, Peek(rest)); }
  }

  lemma WordsAreNoBlanks(word: string, next: string)
    ensures WordKind(word, next) != Whitespace
  {
    hide Upper;
  }

  lemma WholeSpan(s: string, p: char -> bool)
    requires forall i :: 0 <= i < |s| ==> p(s[i])
    ensures Span(s, p) == |s|
  {
  }

  lemma ReadBlank(rest: string)
    requires rest != "" && !IsSpace(rest[0])
    ensures Significant(Tokens(" " + rest)) == Significant(Tokens(rest))
    ensures Peek(" " + rest) == Peek(rest)
  {
    hide Tokens;
    SpanExtend(" ", rest, IsSpace);
    ReadToken(" ", rest);
    assert (" " + rest)[1..] == rest;
  }

  lemma ReadWordAndBlank(word: string, rest: string)
    requires word != "" && IsWordStart(word[0]) && (forall i :: 0 <= i < |word| ==> IsWordChar(word[i]))
    requires rest != "" && IsWordStart(rest[0])
    ensures Significant(Tokens(word + (" " + rest))) ==
      [Token(WordKind(word, rest[..1]), word)] + Significant(Tokens(rest))
  {
    hide Tokens, Significant, Peek, WordKind;
    ReadWord(word, " " + rest);
    ReadBlank(rest);
    WordClass(rest);
  }

  /** The tokens of the witness; the names may be any words that are not called. */
  predicate Witness(ts: seq<Token>) {
    && |ts| == 4 && ts[0] == Token(Keyword, "SELECT") && ts[2] == Token(Keyword, "FROM")
    && ts[1].text == "a" && (ts[1].kind == Keyword || ts[1].kind == Identifier)
    && ts[3].text == "b" && (ts[3].kind == Keyword || ts[3].kind == Identifier)
  }

  lemma WitnessTokens()
    ensures Witness(Significant(Tokens("SELECT a FROM b")))
  {
    hide Tokens, Significant, WordKind, Peek;
    var t3, t2, t1 := "b", "FROM b", "a FROM b";
    assert Significant(Tokens("")) == [] && Peek("") == "" by { NothingRead(); }
    assert t3 == "b" + "" && t2 == "FROM" + (" " + t3) && t1 == "a" + (" " + t2);
    assert "SELECT a FROM b" == "SELECT" + (" " + t1);
    ReadWord("b", "");
    ReadWordAndBlank("FROM", t3);
    ReadWordAndBlank("a", t2);
    ReadWordAndBlank("SELECT", t1);
    ReservedWord("SELECT", "a");
    ReservedWord("FROM", "b");
    OtherWord("a", "F");
    OtherWord("b", "");
    assert t3[..1] == "b" && t2[..1] == "F" && t1[..1] == "a";
  }

  lemma NothingRead()
    ensures Significant(Tokens("")) == [] && Peek("") == ""
  {
  }

  lemma ReservedWord(word: string, next: string)
    requires word in CLAUSE && (forall i :: 0 <= i < |word| ==> !('a' <= word[i] <= 'z')) && next != "("
    ensures WordKind(word, next) == Keyword
  {
    hide KEYWORDS, CLAUSE, Upper;
    PrintedWordsAreReserved();
    UpperIgnoresCase(word, word);
  }

  lemma OtherWord(word: string, next: string)
    requires next != "("
    ensures WordKind(word, next) == Keyword || WordKind(word, next) == Identifier
  {
    hide KEYWORDS, NEVER_FUNCTIONS, Upper;
  }

  lemma UpperWords()
    ensures Upper("SELECT") == "SELECT" && Upper("FROM") == "FROM" && Upper("a") == "A" && Upper("b") == "B"
  {
    hide Upper;
    UpperIgnoresCase("SELECT", "SELECT");
    UpperIgnoresCase("FROM", "FROM");
    UpperLetters();
  }

  lemma UpperLetters()
    ensures Upper("a") == "A" && Upper("b") == "B"
  {
  }

  /** The formatter at work: each clause on its line, the select list under its own. */
  lemma SelectIsLaidOut()
    ensures Format("SELECT a FROM b") == "SELECT\n  a\nFROM b"
  {
    hide Format, Tokens, Significant, Trim, Blank, Upper, Opened, Laid, GapAt;
    var sql := "SELECT a FROM b";
    FormatIsLaidOut(sql);
    WitnessTokens();
    assert Trim(sql) == sql && !Blank(sql) by { WitnessIsTrimmed(); }
    var ts := Source(sql);
    WitnessGaps(ts);
    WitnessIsLaid(ts);
  }

  lemma WitnessIsTrimmed()
    ensures Trim("SELECT a FROM b") == "SELECT a FROM b" && !Blank("SELECT a FROM b")
  {
    var s := "SELECT a FROM b";
    assert s[0] == 'S' && s[|s| - 1] == 'b';
    ShownIsTrimmed(s);
  }

  lemma ShownIsTrimmed(s: string)
    requires s != "" && !IsSpace(s[0]) && !IsSpace(s[|s| - 1])
    ensures Trim(s) == s && !Blank(s)
  {
    assert Span(s, IsSpace) == 0 && s[0..] == s;
  }

  lemma WitnessGaps(ts: seq<Token>)
    requires Witness(ts)
    ensures GapAt(ts, 0) == "" && GapAt(ts, 1) == "\n  " && GapAt(ts, 2) == "\n" && GapAt(ts, 3) == " "
  {
    hide Upper;
    UpperWords();
    assert Opened(ts, 1) == [] && Opened(ts, 2) == [] && Opened(ts, 3) == [];
    assert ClauseAt(ts, 0) && ClauseAt(ts, 2);
    assert !OfSelect(ts, 0) && !OfSelect(ts, 1) && !OfSelect(ts, 2) && !OfSelect(ts, 3);
    IndentIsTwoBlanks(0);
    IndentIsTwoBlanks(1);
    assert Indent(1) == "  " && "\n" + "  " == "\n  " && "\n" + "" == "\n";
  }

  lemma WitnessIsLaid(ts: seq<Token>)
    requires Witness(ts)
    requires GapAt(ts, 0) == "" && GapAt(ts, 1) == "\n  " && GapAt(ts, 2) == "\n" && GapAt(ts, 3) == " "
    ensures Laid(ts, 4) == "SELECT\n  a\nFROM b"
  {
    hide GapAt;
    assert Laid(ts, 1) == "SELECT";
    assert Laid(ts, 2) == "SELECT\n  a";
    assert Laid(ts, 3) == "SELECT\n  a\nFROM";
  }
}
