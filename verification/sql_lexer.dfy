/** The SQL scanner of `apps/web/lib/sql-format.ts`: what one token is, what a
    whole string splits into, and the two index-driven loops that compute it.

    A character stands for one JavaScript code unit. The scanner never looks to
    the left of its position, so every function here takes the text that is
    still to be read. */
module SqlLexer {

  // ---------------------------------------------------------------- characters

  /** JavaScript's `\s`, which is also what `trim` and `trimEnd` remove. */
  predicate IsSpace(c: char) {
    || c == ' ' || '\t' <= c <= '\r' || c == '\U{00A0}' || c == '\U{1680}'
    || '\U{2000}' <= c <= '\U{200A}' || c == '\U{2028}' || c == '\U{2029}'
    || c == '\U{202F}' || c == '\U{205F}' || c == '\U{3000}' || c == '\U{FEFF}'
  }

  predicate IsDigit(c: char) { '0' <= c <= '9' }

  predicate IsDigitOrDot(c: char) { IsDigit(c) || c == '.' }

  predicate IsWordStart(c: char) { 'A' <= c <= 'Z' || 'a' <= c <= 'z' || c == '_' }

  predicate IsWordChar(c: char) { IsWordStart(c) || IsDigit(c) || c == '$' }

  predicate IsQuote(c: char) { c == '\'' || c == '"' || c == '`' }

  predicate IsPunctuation(c: char) { c == '(' || c == ')' || c == ',' || c == ';' || c == '.' }

  predicate IsOperatorChar(c: char) {
    || c == '+' || c == '-' || c == '*' || c == '/' || c == '%' || c == '<' || c == '>' || c == '='
    || c == '!' || c == '|' || c == '&' || c == '^' || c == '~' || c == ':' || c == '@' || c == '$'
    || c == '#' || c == '?' || c == '[' || c == ']' || c == '{' || c == '}'
  }

  predicate NotNewline(c: char) { c != '\n' }

  function UpperChar(c: char): char {
    if 'a' <= c <= 'z' then c - 'a' + 'A' else c
  }

  /** `toUpperCase`, exact on the ASCII words it is compared for. */
  function Upper(s: string): (u: string)
    ensures |u| == |s|
  {
    seq(|s|, i requires 0 <= i < |s| => UpperChar(s[i]))
  }

  // -------------------------------------------------------------------- scans

  /** Length of the longest prefix of `s` whose characters all satisfy `p`. */
  function Span(s: string, p: char -> bool): (n: nat)
    ensures n <= |s|
    ensures forall i :: 0 <= i < n ==> p(s[i])
    ensures n < |s| ==> !p(s[n])
  {
    if s == "" || !p(s[0]) then 0 else 1 + Span(s[1..], p)
  }

  predicate ClosesAt(s: string, k: nat) {
    k + 1 < |s| && s[k] == '*' && s[k + 1] == '/'
  }

  /** What remains of a block comment after its opening, closing mark included. */
  function BlockTail(s: string): (n: nat)
    ensures n <= |s|
    ensures forall k: nat :: k + 2 < n ==> !ClosesAt(s, k)
    ensures n < |s| ==> n >= 2 && ClosesAt(s, n - 2)
    ensures (n >= 2 && ClosesAt(s, n - 2)) || (n == |s| && forall k: nat :: !ClosesAt(s, k))
  {
    if s == "" then 0
    else if ClosesAt(s, 0) then 2
    else
      assert forall k: nat | k >= 1 :: ClosesAt(s, k) == ClosesAt(s[1..], k - 1);
      1 + BlockTail(s[1..])
  }

  /** What remains of a quoted run after its opening quote `q`. */
  function QuoteTail(s: string, q: char): (n: nat)
    ensures n <= |s|
  {
    if s == "" then 0
    else if s[0] != q then 1 + QuoteTail(s[1..], q)
    else if |s| > 1 && s[1] == q then 2 + QuoteTail(s[2..], q)
    else 1
  }

  /** Whether that run really meets its closing quote. */
  predicate QuoteCloses(s: string, q: char) {
    if s == "" then false
    else if s[0] != q then QuoteCloses(s[1..], q)
    else if |s| > 1 && s[1] == q then QuoteCloses(s[2..], q)
    else true
  }

  predicate ExponentAt(s: string, d: nat) {
    d + 1 < |s| && (s[d] == 'e' || s[d] == 'E') &&
    (IsDigit(s[d + 1]) || s[d + 1] == '+' || s[d + 1] == '-')
  }

  /** What remains of a number after its first character. */
  function NumberTail(s: string): (n: nat)
    ensures n <= |s|
  {
    var d := Span(s, IsDigitOrDot);
    if ExponentAt(s, d) then d + 2 + Span(s[d + 2..], IsDigit) else d
  }

  // ------------------------------------------------------------------- tokens

  datatype Kind =
    | Keyword | Function | String | Number | Comment
    | Operator | Punctuation | Identifier | Whitespace

  datatype Token = Token(kind: Kind, text: string)

  /** Which branch of the scanner the next token takes. */
  datatype Class = Space | LineComment | BlockComment | Quoted | Numeric | Word | Punct | Oper | Other

  function ClassOf(s: string): Class
    requires s != ""
  {
    var c := s[0];
    if IsSpace(c) then Space
    else if c == '-' && |s| > 1 && s[1] == '-' then LineComment
    else if c == '/' && |s| > 1 && s[1] == '*' then BlockComment
    else if IsQuote(c) then Quoted
    else if IsDigit(c) || (c == '.' && |s| > 1 && IsDigit(s[1])) then Numeric
    else if IsWordStart(c) then Word
    else if IsPunctuation(c) then Punct
    else if IsOperatorChar(c) then Oper
    else Other
  }

  /** Length of the token that starts `s`. */
  function TokenLength(s: string): (n: nat)
    requires s != ""
    ensures 0 < n <= |s|
  {
    match ClassOf(s)
    case Space => Span(s, IsSpace)
    case LineComment => Span(s, NotNewline)
    case BlockComment => 2 + BlockTail(s[2..])
    case Quoted => 1 + QuoteTail(s[1..], s[0])
    case Numeric => 1 + NumberTail(s[1..])
    case Word => Span(s, IsWordChar)
    case Punct => 1
    case Oper => Span(s, IsOperatorChar)
    case Other => 1
  }

  /** The next character that is neither blank nor inside a comment, or "". */
  function Peek(s: string): (c: string)
    ensures |c| <= 1
    decreases |s|
  {
    if s == "" then ""
    else if IsSpace(s[0]) then Peek(s[1..])
    else if ClassOf(s) == LineComment then Peek(s[Span(s, NotNewline)..])
    else if ClassOf(s) == BlockComment then Peek(s[2 + BlockTail(s[2..])..])
    else s[..1]
  }

  const KEYWORDS: set<string> := {
    "SELECT", "FROM", "WHERE", "GROUP", "BY", "ORDER", "HAVING", "LIMIT", "OFFSET", "UNION",
    "INTERSECT", "EXCEPT", "ALL", "DISTINCT", "AS", "ON", "USING", "JOIN", "INNER", "LEFT",
    "RIGHT", "FULL", "CROSS", "NATURAL", "LATERAL", "AND", "OR", "NOT", "IN", "EXISTS",
    "BETWEEN", "LIKE", "ILIKE", "SIMILAR", "IS", "NULL", "TRUE", "FALSE", "CASE", "WHEN",
    "THEN", "ELSE", "END", "WITH", "RECURSIVE", "OVER", "PARTITION", "WINDOW", "ROWS", "RANGE",
    "PRECEDING", "FOLLOWING", "UNBOUNDED", "CURRENT", "ROW", "ASC", "DESC", "NULLS", "FIRST",
    "LAST", "INSERT", "INTO", "VALUES", "UPDATE", "SET", "DELETE", "RETURNING", "CAST",
    "FILTER", "WITHIN", "QUALIFY", "FETCH", "NEXT", "ONLY", "INTERVAL", "DATE", "TIME",
    "TIMESTAMP", "ARRAY", "ANY", "SOME"
  }

  const NEVER_FUNCTIONS: set<string> := {
    "IN", "EXISTS", "VALUES", "AND", "OR", "NOT", "ON", "USING", "SELECT", "FROM", "WHERE",
    "WHEN", "THEN", "ELSE", "BETWEEN", "BY", "ALL", "ANY", "SOME", "AS", "OVER", "PARTITION",
    "RETURNING", "DISTINCT", "FILTER", "WITHIN"
  }

  function WordKind(word: string, next: string): Kind {
    var upper := Upper(word);
    if next == "(" && upper !in NEVER_FUNCTIONS then Function
    else if upper in KEYWORDS then Keyword
    else Identifier
  }

  /** The kind of a token, given its own text and the character `next` that
      follows it once blanks and comments are skipped. */
  function KindOf(text: string, next: string): Kind
    requires text != ""
  {
    match ClassOf(text)
    case Space => Whitespace
    case LineComment => Comment
    case BlockComment => Comment
    case Quoted => if text[0] == '\'' then String else Identifier
    case Numeric => Number
    case Word => WordKind(text, next)
    case Punct => Punctuation
    case Oper => Operator
    case Other => Operator
  }

  /** All tokens of `s`, blanks included. */
  function Tokens(s: string): seq<Token>
    decreases |s|
  {
    if s == "" then []
    else
      var n := TokenLength(s);
      [Token(KindOf(s[..n], Peek(s[n..])), s[..n])] + Tokens(s[n..])
  }

  /** The tokens that carry meaning: everything but blanks. */
  function Significant(ts: seq<Token>): (r: seq<Token>) {
    if ts == [] then []
    else if ts[0].kind == Whitespace then Significant(ts[1..])
    else [ts[0]] + Significant(ts[1..])
  }

  function Texts(ts: seq<Token>): string {
    if ts == [] then "" else ts[0].text + Texts(ts[1..])
  }

  /** First character of the first token that is no comment, or "". */
  function FirstCode(ts: seq<Token>): string {
    if ts == [] then ""
    else if ts[0].kind == Comment || ts[0].kind == Whitespace || ts[0].text == "" then FirstCode(ts[1..])
    else ts[0].text[..1]
  }
}
