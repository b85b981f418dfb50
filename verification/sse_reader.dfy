/** The Server-Sent Events reader of `apps/web/lib/sse.ts`: a buffer fed with
    chunks, cut at blank lines. */
module SseReader {
  datatype Event = Event(name: string, data: string)

  // -------------------------------------------------------------------- one frame

  /** `frame.split(/\r?\n/)` */
  function SplitLines(s: string): (lines: seq<string>)
    ensures lines != []
  {
    var k := LineEnd(s);
    if k == |s| then [s] else [ChompAt(s, k)] + SplitLines(s[k + 1..])
  }

  /** Place of the first newline, or the length of `s`. */
  function LineEnd(s: string): (k: nat)
    ensures k <= |s| && (k < |s| ==> s[k] == '\n')
    ensures forall i :: 0 <= i < k ==> s[i] != '\n'
  {
    if s == "" || s[0] == '\n' then 0 else 1 + LineEnd(s[1..])
  }

  /** The line that ends at `k`, without a carriage return before it. */
  function ChompAt(s: string, k: nat): string
    requires k <= |s|
  {
    if k > 0 && s[k - 1] == '\r' then s[..k - 1] else s[..k]
  }

  function IndexOf(s: string, c: char): (k: nat)
    ensures k <= |s| && (k < |s| ==> s[k] == c)
    ensures forall i :: 0 <= i < k ==> s[i] != c
  {
    if s == "" || s[0] == c then 0 else 1 + IndexOf(s[1..], c)
  }

  function DropSpace(s: string): string {
    if s != "" && s[0] == ' ' then s[1..] else s
  }

  /** The `event` and `data` of `parseFrame`. */
  datatype Fields = Fields(event: string, data: seq<string>)

  const NO_FIELDS := Fields("message", [])

  /** One line of a frame: a comment, a field with a value, or a bare field. */
  function TakeLine(f: Fields, line: string): Fields {
    if line != "" && line[0] == ':' then f
    else
      var k := IndexOf(line, ':');
      var field := line[..k];
      var value := if k == |line| then "" else DropSpace(line[k + 1..]);
      if field == "event" then f.(event := value)
      else if field == "data" then f.(data := f.data + [value])
      else f
  }

  function TakeLines(f: Fields, lines: seq<string>): Fields
    decreases |lines|
  {
    if lines == [] then f else TakeLines(TakeLine(f, lines[0]), lines[1..])
  }

  function JoinLines(lines: seq<string>): string {
    if lines == [] then "" else if |lines| == 1 then lines[0] else lines[0] + "\n" + JoinLines(lines[1..])
  }

  /** What a finished frame yields: nothing when it carried no data. */
  function Yield(f: Fields): seq<Event> {
    if f.data == [] then [] else [Event(f.event, JoinLines(f.data))]
  }

  function FrameEvents(frame: string): seq<Event> {
    Yield(TakeLines(NO_FIELDS, SplitLines(frame)))
  }

  // ------------------------------------------------------------------- the buffer

  /** One past a line end at `p`, or `p` itself when there is none. */
  function LineBreakAt(s: string, p: nat): (q: nat)
    requires p <= |s|
    ensures p <= q <= |s|
  {
    if p < |s| && s[p] == '\n' then p + 1
    else if p + 1 < |s| && s[p] == '\r' && s[p + 1] == '\n' then p + 2
    else p
  }

  /** Length of the match of `\r?\n\r?\n` at `p`, or 0. */
  function BoundaryAt(s: string, p: nat): (n: nat)
    requires p <= |s|
    ensures p + n <= |s|
  {
    var q := LineBreakAt(s, p);
    var r := LineBreakAt(s, q);
    if p < q < r then r - p else 0
  }

  /** `search(/\r?\n\r?\n/)`, with the length of `s` for "none". */
  function Search(s: string): (p: nat)
    ensures p <= |s|
    ensures p < |s| ==> BoundaryAt(s, p) > 0
    ensures forall i: nat :: i < p ==> BoundaryAt(s, i) == 0
  {
    SearchFrom(s, 0)
  }

  function SearchFrom(s: string, p: nat): (q: nat)
    requires p <= |s|
    ensures p <= q <= |s|
    ensures q < |s| ==> BoundaryAt(s, q) > 0
    ensures forall i: nat :: p <= i < q ==> BoundaryAt(s, i) == 0
    decreases |s| - p
  {
    if p == |s| || BoundaryAt(s, p) > 0 then p else SearchFrom(s, p + 1)
  }

  /** Everything the buffer `s` yields, and what stays in it. */
  function Drain(s: string): (r: (seq<Event>, string))
    decreases |s|
  {
    var p := Search(s);
    if p == |s| then ([], s)
    else
      var (events, rest) := Drain(s[p + BoundaryAt(s, p)..]);
      (FrameEvents(s[..p]) + events, rest)
  }

  function Concat(chunks: seq<string>): string {
    if chunks == [] then "" else chunks[0] + Concat(chunks[1..])
  }

  lemma DrainDone(s: string)
    ensures Search(s) == |s| ==> Drain(s) == ([], s)
    ensures Search("") == 0
  {
  }

  lemma DrainStep(s: string)
    requires Search(s) < |s|
    ensures BoundaryAt(s, Search(s)) > 0
    ensures var rest := s[Search(s) + BoundaryAt(s, Search(s))..];
            Drain(s) == (FrameEvents(s[..Search(s)]) + Drain(rest).0, Drain(rest).1)
  {
  }

  // ---------------------------------------------------------------------- methods

  /** `parseFrame` */
  method ParseFrame(frame: string) returns (events: seq<Event>)
    ensures events == FrameEvents(frame)
  {
    var fields := NO_FIELDS;
    var lines := SplitLines(frame);
    var i := 0;
    while i < |lines|
      invariant 0 <= i <= |lines|
      invariant TakeLines(NO_FIELDS, lines) == TakeLines(fields, lines[i..])
    {
      var line := lines[i];
      i := i + 1;
      if line != "" && line[0] == ':' { continue; }
      var separator := IndexOf(line, ':');
      var field := line[..separator];
      var value := if separator == |line| then "" else DropSpace(line[separator + 1..]);
      if field == "event" {
        fields := fields.(event := value);
      } else if field == "data" {
        fields := fields.(data := fields.data + [value]);
      }
    }
    events := if fields.data == [] then [] else [Event(fields.event, JoinLines(fields.data))];
  }

  /** The loop of `readEventStream` over the chunks the connection delivers. */
  method ReadEventStream(chunks: seq<string>) returns (events: seq<Event>)
    ensures events == Drain(Concat(chunks)).0
  {
    hide Drain, Search, BoundaryAt, FrameEvents;
    var buffer := "";
    events := [];
    DrainDone("");
    var i := 0;
    ghost var taken := "";
    while i < |chunks|
      invariant 0 <= i <= |chunks|
      invariant Concat(chunks) == taken + Concat(chunks[i..])
      invariant Drain(taken) == (events, buffer)
    {
      DrainMore(taken, chunks[i]);
      taken := taken + chunks[i];
      buffer := buffer + chunks[i];
      i := i + 1;
      var boundary := Search(buffer);
      while boundary < |buffer|
        invariant boundary == Search(buffer)
        invariant Drain(taken) == (events + Drain(buffer).0, Drain(buffer).1)
        decreases |buffer|
      {
        DrainStep(buffer);
        ghost var before := events;
        var frame := buffer[..boundary];
        buffer := buffer[boundary + BoundaryAt(buffer, boundary)..];
        var parsed := ParseFrame(frame);
        events := events + parsed;
        assert before + (parsed + Drain(buffer).0) == events + Drain(buffer).0;
        boundary := Search(buffer);
      }
      DrainDone(buffer);
      assert events + [] == events;
    }
    assert taken + "" == taken;
  }

  // ------------------------------------------------------------- chunk boundaries

  /** A blank line, once complete, is matched at the same place and length
      whatever is appended, and nothing to its left becomes a match. */
  lemma BoundaryIsFinal(s: string, more: string)
    requires Search(s) < |s|
    ensures Search(s + more) == Search(s)
    ensures BoundaryAt(s + more, Search(s)) == BoundaryAt(s, Search(s))
  {
    var p := Search(s);
    var t := s + more;
    assert forall i :: 0 <= i < |s| ==> t[i] == s[i];
    assert BoundaryAt(t, p) == BoundaryAt(s, p);
    forall i: nat | i < p
      ensures BoundaryAt(t, i) == 0
    {
      assert BoundaryAt(s, i) == 0;
    }
  }

  /** Draining early costs nothing: what stays in the buffer, with more text
      behind it, yields what the whole text would have yielded next. */
  lemma {:induction false} DrainMore(s: string, more: string)
    ensures var (events, rest) := Drain(s);
            Drain(s + more) == (events + Drain(rest + more).0, Drain(rest + more).1)
    decreases |s|
  {
    hide Drain, Search, BoundaryAt, FrameEvents;
    var p := Search(s);
    if p == |s| {
      DrainDone(s);
      assert [] + Drain(s + more).0 == Drain(s + more).0;
    } else {
      BoundaryIsFinal(s, more);
      DrainStep(s);
      DrainStep(s + more);
      var n := p + BoundaryAt(s, p);
      DrainMore(s[n..], more);
      assert (s + more)[n..] == s[n..] + more;
      assert (s + more)[..p] == s[..p];
      var after := Drain(s[n..]);
      assert FrameEvents(s[..p]) + (after.0 + Drain(after.1 + more).0)
          == (FrameEvents(s[..p]) + after.0) + Drain(after.1 + more).0;
    }
  }
}
