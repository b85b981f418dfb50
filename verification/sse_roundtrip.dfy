/** Events written by a server come out of the reader unchanged, however the
    bytes are cut into chunks and whichever line ends a proxy leaves. */
module SseRoundTrip {
  import opened SseReader
  import opened SseLines

  /** A line that survives the framing: no newline inside, no carriage return
      at its end. */
  predicate Clean(line: string) {
    (forall i :: 0 <= i < |line| ==> line[i] != '\n') && (line != "" ==> line[|line| - 1] != '\r')
  }

  /** What a server sends: a name and at least one line of data. */
  datatype Message = Message(name: string, data: seq<string>)

  predicate Sendable(m: Message) {
    m.data != [] && Clean(m.name) && forall d :: d in m.data ==> Clean(d)
  }

  /** The line ends used for one message: of the name, of each data line, and of
      the blank line. `true` stands for CRLF. */
  datatype Ends = Ends(name: bool, data: seq<bool>, blank: bool)

  function LineBreak(crlf: bool): string { if crlf then "\r\n" else "\n" }

  function EncodeData(data: seq<string>, crlf: seq<bool>): string
    requires |data| == |crlf|
  {
    if data == [] then "" else "data: " + data[0] + LineBreak(crlf[0]) + EncodeData(data[1..], crlf[1..])
  }

  function Encode(m: Message, e: Ends): string
    requires |m.data| == |e.data|
  {
    "event: " + m.name + LineBreak(e.name) + EncodeData(m.data, e.data) + LineBreak(e.blank)
  }

  predicate Matches(ms: seq<Message>, es: seq<Ends>) {
    |ms| == |es| && forall i :: 0 <= i < |ms| ==> Sendable(ms[i]) && |ms[i].data| == |es[i].data|
  }

  function EncodeAll(ms: seq<Message>, es: seq<Ends>): string
    requires Matches(ms, es)
  {
    if ms == [] then "" else Encode(ms[0], es[0]) + EncodeAll(ms[1..], es[1..])
  }

  function Received(ms: seq<Message>): seq<Event> {
    if ms == [] then [] else [Event(ms[0].name, JoinLines(ms[0].data))] + Received(ms[1..])
  }

  lemma LineIsRead(line: string, crlf: bool, rest: string)
    requires Clean(line)
    ensures var s := line + LineBreak(crlf) + rest;
            && LineEnd(s) < |s| && ChompAt(s, LineEnd(s)) == line && s[LineEnd(s) + 1..] == rest
  {
    var s := line + LineBreak(crlf) + rest;
    var k := |line| + (if crlf then 1 else 0);
    LineEndIs(s, k);
    assert s[k + 1..] == rest;
    assert s[..|line|] == line;
  }

  lemma InterpretClean(line: string, crlf: bool, rest: string, f: Fields)
    requires Clean(line)
    ensures Interpret(line + LineBreak(crlf) + rest, f)
         == if line == "" then Yield(f) + Interpret(rest, NO_FIELDS) else Interpret(rest, TakeLine(f, line))
  {
    hide TakeLine, Yield, LineEnd, ChompAt;
    LineIsRead(line, crlf, rest);
  }

  lemma FieldIsTaken(f: Fields, value: string)
    ensures TakeLine(f, "event: " + value) == f.(event := value)
    ensures TakeLine(f, "data: " + value) == f.(data := f.data + [value])
  {
    var a, b := "event: " + value, "data: " + value;
    IndexIs(a, ':', 5);
    IndexIs(b, ':', 4);
    assert a[..5] == "event" && a[6..] == " " + value && b[..4] == "data" && b[5..] == " " + value;
  }

  lemma IndexIs(s: string, c: char, k: nat)
    requires k < |s| && s[k] == c && forall i :: 0 <= i < k ==> s[i] != c
    ensures IndexOf(s, c) == k
  {
  }

  lemma PrefixIsClean(line: string)
    requires Clean(line)
    ensures Clean("data: " + line) && Clean("event: " + line)
  {
  }

  lemma {:induction false} DataIsTaken(data: seq<string>, crlf: seq<bool>, rest: string, f: Fields)
    requires |data| == |crlf| && forall d :: d in data ==> Clean(d)
    ensures Interpret(EncodeData(data, crlf) + rest, f) == Interpret(rest, f.(data := f.data + data))
    decreases |data|
  {
    hide Interpret, TakeLine, LineBreak, Clean;
    if data == [] {
      assert EncodeData(data, crlf) + rest == rest && f.data + data == f.data;
    } else {
      var line := "data: " + data[0];
      var more := EncodeData(data[1..], crlf[1..]) + rest;
      PrefixIsClean(data[0]);
      assert EncodeData(data, crlf) + rest == line + LineBreak(crlf[0]) + more;
      InterpretClean(line, crlf[0], more, f);
      FieldIsTaken(f, data[0]);
      DataIsTaken(data[1..], crlf[1..], rest, f.(data := f.data + [data[0]]));
      assert f.data + data == (f.data + [data[0]]) + data[1..];
    }
  }

  lemma MessageIsRead(m: Message, e: Ends, rest: string)
    requires Sendable(m) && |m.data| == |e.data|
    ensures Interpret(Encode(m, e) + rest, NO_FIELDS)
         == [Event(m.name, JoinLines(m.data))] + Interpret(rest, NO_FIELDS)
  {
    hide Interpret, TakeLine, EncodeData, LineBreak, JoinLines;
    var line := "event: " + m.name;
    var tail := LineBreak(e.blank) + rest;
    var body := EncodeData(m.data, e.data) + tail;
    var f := NO_FIELDS.(event := m.name);
    PrefixIsClean(m.name);
    assert Encode(m, e) + rest == line + LineBreak(e.name) + body;
    InterpretClean(line, e.name, body, NO_FIELDS);
    FieldIsTaken(NO_FIELDS, m.name);
    DataIsTaken(m.data, e.data, tail, f);
    assert f.data + m.data == m.data;
    assert tail == "" + LineBreak(e.blank) + rest;
    InterpretClean("", e.blank, rest, f.(data := m.data));
  }

  lemma {:induction false} MessagesAreRead(ms: seq<Message>, es: seq<Ends>)
    requires Matches(ms, es)
    ensures Interpret(EncodeAll(ms, es), NO_FIELDS) == Received(ms)
    decreases |ms|
  {
    if ms != [] {
      MessageIsRead(ms[0], es[0], EncodeAll(ms[1..], es[1..]));
      MessagesAreRead(ms[1..], es[1..]);
    }
  }

  /** The round trip: any messages, any mixture of line ends, any chunks. */
  lemma ReceivedAsSent(ms: seq<Message>, es: seq<Ends>, chunks: seq<string>)
    requires Matches(ms, es) && Concat(chunks) == EncodeAll(ms, es)
    ensures Drain(Concat(chunks)).0 == Received(ms)
  {
    MessagesAreRead(ms, es);
    ReaderGoesByLines(Concat(chunks));
  }
}
