/** The reader against the interpretation of an event stream in section 9.2.6 of the
    WHATWG HTML Living Standard. */
module SseStandard {
  import opened SseReader
  import opened SseLines
  import opened SseRoundTrip

  // ------------------------------------------------------------------ the standard

  /** The event type buffer and the data buffer. */
  datatype Buffers = Buffers(eventType: string, data: string)

  const EMPTY := Buffers("", "")

  predicate EndsLine(c: char) { c == '\n' || c == '\r' }

  /** Place of the first character that ends a line, or the length of `s`. */
  function LineStop(s: string): (k: nat)
    ensures k <= |s| && (k < |s| ==> EndsLine(s[k]))
    ensures forall i :: 0 <= i < k ==> !EndsLine(s[i])
  {
    if s == "" || EndsLine(s[0]) then 0 else 1 + LineStop(s[1..])
  }

  /** Where the next line starts: CRLF ends one line, LF or CR alone do too. */
  function NextLine(s: string, k: nat): (n: nat)
    requires k < |s|
    ensures k < n <= |s|
  {
    if s[k] == '\r' && k + 1 < |s| && s[k + 1] == '\n' then k + 2 else k + 1
  }

  /** A field with its value. */
  function Process(b: Buffers, field: string, value: string): Buffers {
    if field == "event" then b.(eventType := value)
    else if field == "data" then b.(data := b.data + value + "\n")
    else b
  }

  /** If the value starts with a blank, that blank is removed. */
  function Value(s: string): string { if s != "" && s[0] == ' ' then s[1..] else s }

  function ProcessLine(b: Buffers, line: string): Buffers {
    var k := IndexOf(line, ':');
    if k == |line| then Process(b, line, "")
    else if k == 0 then b
    else Process(b, line[..k], Value(line[k + 1..]))
  }

  /** Dispatching: nothing without data; the data lose their last LF, and the type
      is `message` unless a name is in the buffer. */
  function Dispatch(b: Buffers): seq<Event> {
    if b.data == "" then []
    else [Event(if b.eventType == "" then "message" else b.eventType,
                if b.data[|b.data| - 1] == '\n' then b.data[..|b.data| - 1] else b.data)]
  }

  function Interpretation(s: string, b: Buffers): seq<Event>
    decreases |s|
  {
    var k := LineStop(s);
    if k == |s| then []
    else
      var rest := s[NextLine(s, k)..];
      if k == 0 then Dispatch(b) + Interpretation(rest, EMPTY) else Interpretation(rest, ProcessLine(b, s[..k]))
  }

  // -------------------------------------------------------------------- agreement

  /** No carriage return but before a newline. */
  predicate NoLoneReturn(s: string) {
    forall i :: 0 <= i < |s| && s[i] == '\r' ==> i + 1 < |s| && s[i + 1] == '\n'
  }

  function Lined(data: seq<string>): string {
    if data == [] then "" else data[0] + "\n" + Lined(data[1..])
  }

  /** The two states say the same, but for a name that was set to nothing. */
  predicate Agree(b: Buffers, f: Fields) {
    && (b.eventType == f.event || (b.eventType == "" && f.event == "message"))
    && b.data == Lined(f.data)
  }

  lemma {:induction false} LinedMore(data: seq<string>, value: string)
    ensures Lined(data + [value]) == Lined(data) + value + "\n"
  {
    if data == [] {
      assert data + [value] == [value];
    } else {
      LinedMore(data[1..], value);
      assert (data + [value])[1..] == data[1..] + [value];
    }
  }

  lemma {:induction false} LinedIsJoined(data: seq<string>)
    requires data != []
    ensures Lined(data) == JoinLines(data) + "\n"
  {
    if |data| > 1 { LinedIsJoined(data[1..]); }
  }

  lemma LinesAgree(b: Buffers, f: Fields, line: string)
    requires Agree(b, f) && line != ""
    ensures Agree(ProcessLine(b, line), TakeLine(f, line))
  {
    var k := IndexOf(line, ':');
    var value := if k == |line| then "" else DropSpace(line[k + 1..]);
    LinedMore(f.data, value);
    assert k == |line| ==> line[..k] == line;
  }

  /** The name that the standard gives an event of the reader. */
  function Renamed(es: seq<Event>): (r: seq<Event>)
    ensures |r| == |es|
    ensures forall i :: 0 <= i < |es| ==> r[i] == es[i].(name := if es[i].name == "" then "message" else es[i].name)
  {
    seq(|es|, i requires 0 <= i < |es| => es[i].(name := if es[i].name == "" then "message" else es[i].name))
  }

  lemma DispatchAgrees(b: Buffers, f: Fields)
    requires Agree(b, f)
    ensures Dispatch(b) == Renamed(Yield(f))
  {
    if f.data != [] { LinedIsJoined(f.data); }
  }

  /** Without lone carriage returns the first line ends at the same place for both. */
  lemma {:induction false} SameStop(s: string)
    requires NoLoneReturn(s)
    ensures var k := LineStop(s);
            LineEnd(s) == if k < |s| && s[k] == '\r' then k + 1 else k
  {
    var k := LineStop(s);
    LineEndIs(s, if k < |s| && s[k] == '\r' then k + 1 else k);
  }

  lemma RestHasNoLoneReturn(s: string, n: nat)
    requires NoLoneReturn(s) && n <= |s|
    ensures NoLoneReturn(s[n..])
  {
  }

  lemma {:induction false} SameLine(s: string)
    requires NoLoneReturn(s)
    ensures var k, e := LineStop(s), LineEnd(s);
            && (k == |s| <==> e == |s|)
            && (k < |s| ==> ChompAt(s, e) == s[..k] && NextLine(s, k) == e + 1 && NoLoneReturn(s[e + 1..]))
  {
    SameStop(s);
    var k, e := LineStop(s), LineEnd(s);
    if k < |s| {
      RestHasNoLoneReturn(s, e + 1);
    }
  }

  lemma {:induction false} InterpretationAgrees(s: string, b: Buffers, f: Fields)
    requires NoLoneReturn(s) && Agree(b, f)
    ensures Interpretation(s, b) == Renamed(Interpret(s, f))
    decreases |s|
  {
    hide NoLoneReturn, LineStop, LineEnd, NextLine, ChompAt, Agree, ProcessLine, TakeLine, Dispatch, Yield;
    SameLine(s);
    var k, e := LineStop(s), LineEnd(s);
    if k < |s| {
      var rest := s[e + 1..];
      if k == 0 {
        DispatchAgrees(b, f);
        assert Agree(EMPTY, NO_FIELDS) by { NothingAgrees(); }
        InterpretationAgrees(rest, EMPTY, NO_FIELDS);
      } else {
        LinesAgree(b, f, s[..k]);
        InterpretationAgrees(rest, ProcessLine(b, s[..k]), TakeLine(f, s[..k]));
      }
    }
  }

  lemma NothingAgrees()
    ensures Agree(EMPTY, NO_FIELDS)
  {
  }

  /** For every text without a lone carriage return the reader yields the standard's
      events but for empty names; so it follows the standard exactly when no event it
      yields has an empty name. */
  lemma ReaderFollowsStandard(s: string)
    requires NoLoneReturn(s)
    ensures Interpretation(s, EMPTY) == Renamed(Drain(s).0)
    ensures Drain(s).0 == Interpretation(s, EMPTY) <==> forall e :: e in Drain(s).0 ==> e.name != ""
  {
    hide Drain, Interpretation, Interpret;
    ReaderGoesByLines(s);
    NothingAgrees();
    InterpretationAgrees(s, EMPTY, NO_FIELDS);
    var es := Drain(s).0;
    assert forall i :: 0 <= i < |es| ==> es[i] in es;
  }

  // -------------------------------------------------------------------- differences

  /** An empty name stays empty in the reader; the standard says `message`. */
  lemma EmptyNameIsKept()
    ensures var s := "event: \ndata: x\n\n";
            && NoLoneReturn(s) && Drain(s).0 == [Event("", "x")] && Interpretation(s, EMPTY) == [Event("message", "x")]
  {
    hide Drain, Interpretation;
    var s := "event: \ndata: x\n\n";
    assert NoLoneReturn(s);
    ReaderKeepsName(s);
    StandardDefaultsName(s);
  }

  lemma ReaderKeepsName(s: string)
    requires s == "event: \ndata: x\n\n"
    ensures Drain(s).0 == [Event("", "x")]
  {
    hide Drain, Interpret, TakeLine, LineEnd, ChompAt, Clean;
    var named := NO_FIELDS.(event := "");
    FieldIsTaken(NO_FIELDS, "");
    FieldIsTaken(named, "x");
    assert Clean("") && Clean("x") by { ShortIsClean(); }
    PrefixIsClean("");
    PrefixIsClean("x");
    assert [] + ["x"] == ["x"];
    var tail := "\n";
    var body := "data: " + "x" + LineBreak(false) + tail;
    assert s == "event: " + "" + LineBreak(false) + body;
    InterpretClean("event: " + "", false, body, NO_FIELDS);
    InterpretClean("data: " + "x", false, tail, named);
    InterpretEnd(named.(data := ["x"]));
    ReaderGoesByLines(s);
  }

  lemma ShortIsClean()
    ensures Clean("") && Clean("x")
  {
  }

  lemma StandardDefaultsName(s: string)
    requires s == "event: \ndata: x\n\n"
    ensures Interpretation(s, EMPTY) == [Event("message", "x")]
  {
    hide Interpretation, ProcessLine;
    var full := EMPTY.(data := "x\n");
    EventLine(EMPTY, "");
    DataLine(EMPTY, "x");
    assert "event: " + "" == "event: " && "data: " + "x" == "data: x" && "" + "x" + "\n" == "x\n";
    assert s == "event: " + ['\n'] + "data: x\n\n";
    StandardLine("event: ", '\n', "data: x\n\n", EMPTY);
    assert "data: x\n\n" == "data: x" + ['\n'] + "\n";
    StandardLine("data: x", '\n', "\n", EMPTY);
    assert "\n" == "" + ['\n'] + "";
    StandardLine("", '\n', "", full);
    StandardNothing();
    assert "x\n"[..1] == "x";
  }

  lemma EventLine(b: Buffers, value: string)
    ensures ProcessLine(b, "event: " + value) == b.(eventType := value)
  {
    var line := "event: " + value;
    IndexIs(line, ':', 5);
    assert line[..5] == "event" && line[6..] == " " + value;
  }

  /** The blank line at the end of a stream. */
  lemma InterpretEnd(f: Fields)
    ensures Interpret("\n", f) == Yield(f)
  {
    assert "\n"[1..] == "" && Interpret("", NO_FIELDS) == [];
  }

  lemma StopIs(s: string, k: nat)
    requires k <= |s| && (k < |s| ==> EndsLine(s[k])) && forall i :: 0 <= i < k ==> !EndsLine(s[i])
    ensures LineStop(s) == k
  {
  }

  /** One line of the standard, ended by `c` alone. */
  lemma StandardLine(line: string, c: char, rest: string, b: Buffers)
    requires (forall i :: 0 <= i < |line| ==> !EndsLine(line[i])) && EndsLine(c)
    requires c == '\r' ==> rest == "" || rest[0] != '\n'
    ensures Interpretation(line + [c] + rest, b) ==
      if line == "" then Dispatch(b) + Interpretation(rest, EMPTY) else Interpretation(rest, ProcessLine(b, line))
  {
    hide Dispatch, ProcessLine;
    var s := line + [c] + rest;
    StopIs(s, |line|);
    assert s[..|line|] == line && s[|line| + 1..] == rest;
    assert |line| + 1 < |s| ==> s[|line| + 1] == rest[0];
  }

  /** A carriage return alone ends a line for the standard, and none for the reader. */
  lemma LoneReturnIsKept()
    ensures var s := "data: a\rdata: b\n\n";
            && Drain(s).0 == [Event("message", "a\rdata: b")] && Interpretation(s, EMPTY) == [Event("message", "a\nb")]
  {
    var s := "data: a\rdata: b\n\n";
    hide Drain, Interpretation, Interpret, TakeLine, ProcessLine, LineEnd, ChompAt;
    ReaderGoesByLines(s);
    FieldIsTaken(NO_FIELDS, "a\rdata: b");
    assert "data: " + "a\rdata: b" == "data: a\rdata: b" && [] + ["a\rdata: b"] == ["a\rdata: b"];
    assert s == "data: a\rdata: b" + LineBreak(false) + "\n";
    InterpretClean("data: a\rdata: b", false, "\n", NO_FIELDS);
    InterpretEnd(NO_FIELDS.(data := ["a\rdata: b"]));
    ReturnEndsLine(s);
  }

  lemma DataLine(b: Buffers, value: string)
    ensures ProcessLine(b, "data: " + value) == b.(data := b.data + value + "\n")
  {
    var line := "data: " + value;
    IndexIs(line, ':', 4);
    assert line[..4] == "data" && line[5..] == " " + value;
  }

  lemma ReturnEndsLine(s: string)
    requires s == "data: a\rdata: b\n\n"
    ensures Interpretation(s, EMPTY) == [Event("message", "a\nb")]
  {
    hide Interpretation, ProcessLine;
    var one, two := EMPTY.(data := "a\n"), EMPTY.(data := "a\nb\n");
    DataLine(EMPTY, "a");
    DataLine(one, "b");
    assert "data: " + "a" == "data: a" && "data: " + "b" == "data: b" && "" + "a" + "\n" == "a\n"
        && "a\n" + "b" + "\n" == "a\nb\n";
    assert s == "data: a" + ['\r'] + "data: b\n\n";
    StandardLine("data: a", '\r', "data: b\n\n", EMPTY);
    assert "data: b\n\n" == "data: b" + ['\n'] + "\n";
    StandardLine("data: b", '\n', "\n", one);
    assert "\n" == "" + ['\n'] + "";
    StandardLine("", '\n', "", two);
    assert Interpretation("", EMPTY) == [] by { StandardNothing(); }
    assert "a\nb\n"[..3] == "a\nb";
  }

  lemma StandardNothing()
    ensures Interpretation("", EMPTY) == []
  {
  }
}
