/** The formatter of `apps/web/lib/sql-format.ts` as a state machine: a stack of
    open parentheses and a buffer of lines, advanced by one token at a time. */
module SqlPrinter {
  import opened Options
  import opened SqlLexer

  const CLAUSE: set<string> := {
    "SELECT", "FROM", "WHERE", "HAVING", "LIMIT", "OFFSET", "UNION", "INTERSECT", "EXCEPT",
    "VALUES", "RETURNING", "WINDOW", "QUALIFY", "FETCH", "INSERT", "UPDATE", "DELETE", "WITH"
  }

  const JOIN: set<string> := {"JOIN", "INNER", "LEFT", "RIGHT", "FULL", "CROSS", "NATURAL"}

  const JOIN_PREFIX: set<string> := JOIN + {"OUTER"}

  // ----------------------------------------------------------------- trimming

  predicate Blank(s: string) { forall i :: 0 <= i < |s| ==> IsSpace(s[i]) }

  function TrimEnd(s: string): (r: string)
    ensures r <= s
    ensures forall i :: |r| <= i < |s| ==> IsSpace(s[i])
    ensures r == "" || !IsSpace(r[|r| - 1])
  {
    if s == "" || !IsSpace(s[|s| - 1]) then s else TrimEnd(s[..|s| - 1])
  }

  function TrimStart(s: string): (r: string)
    ensures r == "" || !IsSpace(r[0])
  {
    s[Span(s, IsSpace)..]
  }

  function Trim(s: string): string { TrimEnd(TrimStart(s)) }

  // -------------------------------------------------------------- line buffer

  /** The finished lines, and the one being written. */
  datatype Page = Page(lines: seq<string>, line: string)

  function Flush(p: Page): Page {
    Page(if Blank(p.line) then p.lines else p.lines + [TrimEnd(p.line)], "")
  }

  function Indent(level: int): (s: string)
    ensures Blank(s)
  {
    if level <= 0 then "" else "  " + Indent(level - 1)
  }

  function Open(p: Page, level: int): Page {
    Flush(p).(line := Indent(level))
  }

  function Append(p: Page, text: string, spaced: bool): Page {
    p.(line := p.line + (if !Blank(p.line) && spaced then " " else "") + text)
  }

  function Join(lines: seq<string>): string {
    if lines == [] then ""
    else if |lines| == 1 then lines[0]
    else Join(lines[..|lines| - 1]) + "\n" + lines[|lines| - 1]
  }

  // ------------------------------------------------------------------ printer

  datatype Frame = Frame(base: nat, subquery: bool)

  datatype State = State(stack: seq<Frame>, page: Page, prev: Option<Token>)

  const START := State([Frame(0, true)], Page([], ""), None)

  function Top(stack: seq<Frame>): Frame
    requires stack != []
  {
    stack[|stack| - 1]
  }

  predicate StartsWithDashes(s: string) { |s| >= 2 && s[0] == '-' && s[1] == '-' }

  predicate IsLineComment(t: Token) { t.kind == Comment && StartsWithDashes(t.text) }

  predicate TightAfter(prev: Option<Token>) {
    prev.Some? && (prev.value.text == "(" || prev.value.text == ".")
  }

  function UpperAt(ts: seq<Token>, i: nat): string {
    if i < |ts| then Upper(ts[i].text) else ""
  }

  predicate OpensSubquery(next: string) { next == "SELECT" || next == "WITH" }

  /** A keyword of the statement itself that begins a line at its indent. */
  predicate StartsClause(prev: Option<Token>, upper: string, next: string) {
    && !(prev.Some? && Upper(prev.value.text) in JOIN_PREFIX)
    && (|| upper in CLAUSE
        || ((upper == "GROUP" || upper == "ORDER") && next == "BY")
        || (upper in JOIN && (upper == "JOIN" || next == "JOIN" || next == "OUTER")))
  }

  predicate ClauseToken(t: Token, next: string, st: State)
    requires st.stack != []
  {
    t.kind == Keyword && Top(st.stack).subquery && StartsClause(st.prev, Upper(t.text), next)
  }

  predicate ConditionToken(t: Token, st: State)
    requires st.stack != []
  {
    && t.kind == Keyword && Top(st.stack).subquery
    && (Upper(t.text) == "ON" || Upper(t.text) == "AND" || Upper(t.text) == "OR")
  }

  function PrintPunctuation(t: Token, next: string, st: State): (r: State)
    requires st.stack != []
    ensures r.stack != []
  {
    var page := st.page;
    var top := Top(st.stack);
    var prev := Some(t);
    if t.text == "(" then
      var sub := OpensSubquery(next);
      var begun := Append(page, "(", st.prev.Some? && !TightAfter(st.prev) && st.prev.value.kind != Function);
      State(st.stack + [Frame(top.base + 1, sub)],
            if sub then Open(begun, top.base + 1) else begun, prev)
    else if t.text == ")" then
      var stack := if |st.stack| > 1 then st.stack[..|st.stack| - 1] else st.stack;
      State(stack, Append(if top.subquery then Open(page, top.base - 1) else page, ")", false), prev)
    else if t.text == "," then
      var listed := Append(page, ",", false);
      State(st.stack, if top.subquery then Open(listed, top.base + 1) else listed, prev)
    else
      var tight := Append(page, t.text, false);
      State(st.stack, if t.text == ";" then Flush(tight) else tight, prev)
  }

  /** One token, without what a SELECT does to the tokens behind it. */
  function Print(t: Token, next: string, st: State): (r: State)
    requires st.stack != []
    ensures r.stack != []
  {
    var page := st.page;
    var base := Top(st.stack).base;
    if t.kind == Comment then
      st.(page := if StartsWithDashes(t.text) then Flush(Append(Open(page, base), t.text, false))
                  else Append(page, t.text, true),
          prev := Some(t))
    else if t.kind == Punctuation then PrintPunctuation(t, next, st)
    else if ClauseToken(t, next, st) then
      st.(page := Append(Open(page, base), t.text, false), prev := Some(t))
    else if ConditionToken(t, st) then
      st.(page := Append(Open(page, base + 1), t.text, false), prev := Some(t))
    else
      st.(page := Append(page, t.text, !TightAfter(st.prev)), prev := Some(t))
  }

  /** DISTINCT and ALL stay on the line of the SELECT they follow. */
  function Absorb(ts: seq<Token>, i: nat, st: State): (r: (nat, State))
    requires i <= |ts| && st.stack != []
    ensures i <= r.0 <= |ts| && r.1.stack == st.stack
    decreases |ts| - i
  {
    if i < |ts| && (UpperAt(ts, i) == "DISTINCT" || UpperAt(ts, i) == "ALL") then
      Absorb(ts, i + 1, st.(page := Append(st.page, ts[i].text, true), prev := Some(ts[i])))
    else
      (i, st)
  }

  predicate OpensSelect(t: Token, next: string, st: State)
    requires st.stack != []
  {
    ClauseToken(t, next, st) && Upper(t.text) == "SELECT"
  }

  /** One turn of the loop: the next position and the state there. */
  function Step(ts: seq<Token>, i: nat, st: State): (r: (nat, State))
    requires i < |ts| && st.stack != []
    ensures i < r.0 <= |ts| && r.1.stack != []
  {
    var next := UpperAt(ts, i + 1);
    var printed := Print(ts[i], next, st);
    if OpensSelect(ts[i], next, st) then
      var (j, absorbed) := Absorb(ts, i + 1, printed);
      (j, absorbed.(page := Open(absorbed.page, Top(absorbed.stack).base + 1)))
    else
      (i + 1, printed)
  }

  function Run(ts: seq<Token>, i: nat, st: State): (r: State)
    requires i <= |ts| && st.stack != []
    ensures r.stack != []
    decreases |ts| - i
  {
    if i == |ts| then st
    else
      var (j, st') := Step(ts, i, st);
      Run(ts, j, st')
  }

  /** What the lines written so far, and the pending one, come to. */
  function Text(p: Page): string { Join(Flush(p).lines) }

  function PrintAll(ts: seq<Token>): string { Text(Run(ts, 0, START).page) }

  /** `formatSql` */
  function Format(sql: string): string {
    var source := Trim(sql);
    if source == "" then ""
    else
      var ts := Significant(Tokens(source));
      if ts == [] then source
      else
        var formatted := PrintAll(ts);
        if Blank(formatted) then source else formatted
  }
}
