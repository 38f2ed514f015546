/**
  What a client that has half-read something makes of the next frame: its buffers hold data and a name that were meant
  for another event, and `stub` is a line whose end has not come.
 */
module SseMerge {
  import opened Text
  import opened EventStream
  import opened SseFrame
  import opened SseProtocol
  import opened SseTheorems

  function Named(kind: string): string {
    if kind == "" then "message" else kind
  }

  /** The name of the field that an unfinished line gives, when it has got as far as the colon. */
  function StubField(stub: string): string {
    if ':' in stub then stub[..IndexOfColon(stub)] else stub
  }

  /**
    The next line goes into an unfinished line that the client then ignores: a comment, or a field it does not know.
   */
  predicate Swallows(stub: string) {
    stub != "" && (':' !in stub || (StubField(stub) != "event" && StubField(stub) != "data"))
  }

  /** The client reads the next frame as if nothing had been left before it. */
  predicate ReadsNext(data: string, kind: string, stub: string, next: Job) {
    if !next.Send? then data == "" && StubField(stub) != "data"
    else if stub == "" then data == "" && (next.event != "" || Named(kind) == "message")
    else
      && Swallows(stub)
      && if next.event != "" then data == "" && Named(kind) == Sanitize(next.event)
         else data == Split(Normalise(next.data), '\n')[0] + "\n" && Named(kind) == "message"
  }

  /** The client dispatches nothing when it reads the next frame. */
  predicate SkipsNext(data: string, stub: string, next: Job) {
    if !next.Send? then data == "" && StubField(stub) != "data"
    else
      && next.event == "" && |Split(Normalise(next.data), '\n')| == 1
      && stub != "" && data == "" && !(':' in stub && StubField(stub) == "data")
  }

  // ---- the line that runs into the unfinished one ----

  lemma {:induction false} DataLineAt(parts: seq<string>, i: nat)
    requires i < |parts|
    ensures DataLines(parts)[i] == "data: " + parts[i]
  {
    if i > 0 {
      DataLineAt(parts[1..], i - 1);
    }
  }

  lemma {:induction false} FirstColon(line: string, i: nat)
    requires i < |line| && line[i] == ':' && ':' !in line[..i]
    ensures IndexOfColon(line) == i
  {
    if i > 0 {
      assert line[..i][0] == line[0] && line[..i][1..] == line[1..][..i - 1];
      FirstColon(line[1..], i - 1);
    }
  }

  function WithoutSpace(value: string): string {
    if value != "" && value[0] == ' ' then value[1..] else value
  }

  /** A field name cut short, with the next line's name behind it, is a name that no client knows. */
  lemma UnknownName(c: Client, stub: string, next: string, value: string)
    requires Opens(stub) && ':' !in stub && (next == "event" || next == "data")
    ensures Line(c, stub + (next + ": " + value)) == c
  {
    var x := stub + next;
    assert x[0] == stub[0] && x[|stub|..] == next;
    assert stub + (next + ": " + value) == x + ": " + value;
    FieldLine(c, x, value);
  }

  /** A line cut after its colon keeps its field, and takes the whole of what follows into its value. */
  lemma LongerLine(c: Client, stub: string, x: string)
    requires Opens(stub) && ':' in stub
    ensures var i := IndexOfColon(stub);
            Line(c, stub + x) == if i == 0 then c else Field(c, stub[..i], WithoutSpace(stub[i + 1..] + x))
  {
    var line, i := stub + x, IndexOfColon(stub);
    assert line[..i] == stub[..i] && line[i] == ':' && line[0] == stub[0] && line[i + 1..] == stub[i + 1..] + x;
    FirstColon(line, i);
  }

  lemma SpaceStays(a: string, x: string)
    requires x != "" && x[0] != ' '
    ensures WithoutSpace(a + x) == WithoutSpace(a) + x
  {
    if a == "" {
      assert a + x == x;
    } else {
      assert (a + x)[1..] == a[1..] + x;
    }
  }

  lemma LongerValue(c: Client, stub: string, x: string) returns (w: string)
    requires Opens(stub) && ':' in stub && x != "" && x[0] != ' '
    ensures |x| <= |w| && w[|w| - |x|..] == x
    ensures Line(c, stub + x)
         == if StubField(stub) == "event" || StubField(stub) == "data" then Field(c, StubField(stub), w) else c
  {
    hide Line, WithoutSpace;
    var i := IndexOfColon(stub);
    LongerLine(c, stub, x);
    SpaceStays(stub[i + 1..], x);
    w := WithoutSpace(stub[i + 1..]) + x;
    if i > 0 {
      assert stub[..i][0] == stub[0];
    }
  }

  /** What the unfinished line makes of a first line `next: value` that follows it. */
  lemma MergedLine(c: Client, stub: string, next: string, value: string) returns (w: string)
    requires (stub != "" ==> Opens(stub)) && (next == "event" || next == "data")
    ensures var line := next + ": " + value;
            && (stub == "" ==> Line(c, stub + line) == Field(c, next, value))
            && (Swallows(stub) ==> Line(c, stub + line) == c)
            && (stub != "" && !Swallows(stub) ==>
                  && |line| <= |w| && ':' in w && StubField(stub) in {"event", "data"}
                  && Line(c, stub + line) == Field(c, StubField(stub), w))
  {
    var line := next + ": " + value;
    w := "";
    if stub == "" {
      assert stub + line == line;
      FieldLine(c, next, value);
    } else if ':' !in stub {
      UnknownName(c, stub, next, value);
    } else {
      assert line[0] == next[0] && line[|next|] == ':';
      w := LongerValue(c, stub, line);
      assert w[|w| - |line|..][|next|] == ':';
    }
  }

  // ---- the rest of the frame ----

  lemma TailRead(c: Client, parts: seq<string>)
    ensures Feed(c, DataLines(parts) + [""]) == Dispatch(c.(data := c.data + Terminated(parts)))
  {
    FeedAppend(c, DataLines(parts), [""]);
    FeedDataLines(c, parts);
    FeedOne(c.(data := c.data + Terminated(parts)), "");
  }

  /** Exactly which buffers dispatch an event with this name and text. */
  lemma DispatchIff(c: Client, kind: string, text: string)
    requires c.id == "" && (c.data != "" ==> c.data[|c.data| - 1] == '\n')
    ensures Dispatch(c).got == c.got + [Message(kind, text, "")] <==> c.data == text + "\n" && Named(c.kind) == kind
    ensures Dispatch(c).got == c.got <==> c.data == ""
    ensures Clean(Dispatch(c)) && Dispatch(c).id == ""
  {
    var got := Dispatch(c).got;
    if c.data == "" {
      assert |got| == |c.got|;
    } else {
      assert got[|c.got|] == Message(Named(c.kind), c.data[..|c.data| - 1], "");
      assert c.data == c.data[..|c.data| - 1] + "\n";
      if c.data == text + "\n" {
        assert c.data[..|c.data| - 1] == text;
      }
    }
  }

  lemma {:induction false} TerminatedEnds(parts: seq<string>)
    ensures Terminated(parts) != "" ==> Terminated(parts)[|Terminated(parts)| - 1] == '\n'
    ensures parts != [] ==> Terminated(parts) != ""
  {
    if parts != [] {
      TerminatedEnds(parts[1..]);
    }
  }

  /** The data of a frame is its parts, each terminated. */
  lemma TextOfParts(data: string)
    ensures Terminated(Split(Normalise(data), '\n')) == Newlines(data) + "\n"
  {
    TerminatedIsJoin(Split(Normalise(data), '\n'));
    CrLfThenCr(data);
  }

  predicate Ended(data: string) {
    data != "" ==> data[|data| - 1] == '\n'
  }

  lemma SameFront<T>(a: seq<T>, b: seq<T>, s: seq<T>)
    ensures a + s == b + s <==> a == b
  {
    if a + s == b + s {
      assert (a + s)[..|a|] == a && (b + s)[..|b|] == b;
    }
  }

  /** The rest of a named frame, after a first line that left the client as `c`. */
  lemma RestOfNamed(c: Client, event: string, data: string)
    requires c.id == "" && Ended(c.data) && event != ""
    ensures var c' := Feed(c, FrameLines(event, data)[1..]);
            && Clean(c') && c'.id == ""
            && (c'.got == c.got + [Intended(event, data)] <==> c.data == "" && Named(c.kind) == Sanitize(event))
            && c'.got != c.got
  {
    hide Terminated, Split, Sanitize, Newlines;
    var parts := Split(Normalise(data), '\n');
    var full := Terminated(parts);
    assert FrameLines(event, data)[1..] == DataLines(parts) + [""];
    TailRead(c, parts);
    TerminatedEnds(parts);
    TextOfParts(data);
    var c2 := c.(data := c.data + full);
    assert c2.data[|c2.data| - 1] == full[|full| - 1];
    DispatchIff(c2, Sanitize(event), Newlines(data));
    SameFront(c.data, "", full);
    assert "" + full == full;
  }

  lemma RestOfUnnamed(c: Client, data: string)
    requires c.id == "" && Ended(c.data)
    ensures var c' := Feed(c, FrameLines("", data)[1..]);
            && Clean(c') && c'.id == ""
            && (c'.got == c.got + [Intended("", data)]
                <==> c.data == Split(Normalise(data), '\n')[0] + "\n" && Named(c.kind) == "message")
            && (c'.got == c.got <==> c.data == "" && |Split(Normalise(data), '\n')| == 1)
  {
    var parts := Split(Normalise(data), '\n');
    var tail := Terminated(parts[1..]);
    assert FrameLines("", data)[1..] == DataLines(parts[1..]) + [""];
    TailRead(c, parts[1..]);
    TerminatedEnds(parts[1..]);
    TextOfParts(data);
    assert Terminated(parts) == parts[0] + "\n" + tail;
    var c2 := c.(data := c.data + tail);
    if tail == "" {
      assert c2.data == c.data;
    } else {
      assert c2.data[|c2.data| - 1] == tail[|tail| - 1];
    }
    DispatchIff(c2, "message", Newlines(data));
    SameFront(c.data, parts[0] + "\n", tail);
  }

  // ---- the next frame ----

  /** Half-read, but only frames have been read. */
  predicate Middle(c: Client, stub: string) {
    c.id == "" && Ended(c.data) && (stub != "" ==> Opens(stub))
  }

  lemma NextNamed(c: Client, stub: string, event: string, data: string)
    requires Middle(c, stub) && event != ""
    ensures var lines := FrameLines(event, data);
            var c' := Feed(Line(c, stub + lines[0]), lines[1..]);
            && Clean(c') && c'.id == "" && c'.got != c.got
            && (c'.got == c.got + [Intended(event, data)] <==> ReadsNext(c.data, c.kind, stub, Send(event, data)))
  {
    hide Line, Feed, Split, Sanitize, Normalise, Newlines;
    var first := FrameLines(event, data)[0];
    assert first == "event" + ": " + Sanitize(event);
    var w := MergedLine(c, stub, "event", Sanitize(event));
    RestOfNamed(Line(c, stub + first), event, data);
    SameFront(c.data, "", w + "\n");
  }

  lemma NextUnnamed(c: Client, stub: string, data: string)
    requires Middle(c, stub)
    ensures var lines := FrameLines("", data);
            var c' := Feed(Line(c, stub + lines[0]), lines[1..]);
            && Clean(c') && c'.id == ""
            && (c'.got == c.got + [Intended("", data)] <==> ReadsNext(c.data, c.kind, stub, Send("", data)))
            && (c'.got == c.got <==> SkipsNext(c.data, stub, Send("", data)))
  {
    hide Line, Feed, Normalise, Newlines;
    var parts, first := Split(Normalise(data), '\n'), FrameLines("", data)[0];
    DataLineAt(parts, 0);
    assert first == "data" + ": " + parts[0];
    var w := MergedLine(c, stub, "data", parts[0]);
    RestOfUnnamed(Line(c, stub + first), data);
    SameFront(c.data, "", parts[0] + "\n");
    assert ':' !in "message";
  }

  /** A heartbeat that runs into the unfinished line. */
  lemma PingLine(c: Client, stub: string)
    requires Middle(c, stub)
    ensures var c' := Line(c, stub + ": ping");
            && c'.id == "" && c'.got == c.got && Ended(c'.data)
            && (c'.data == "" <==> c.data == "" && StubField(stub) != "data")
  {
    if stub == "" {
      assert (stub + ": ping")[0] == ':';
    } else if ':' !in stub {
      assert stub + ": ping" == stub + ": " + "ping";
      FieldLine(c, stub, "ping");
    } else {
      var w := LongerValue(c, stub, ": ping");
    }
  }

  /** The next frame, of whatever kind: exactly when it is read as meant, and exactly when nothing is dispatched. */
  lemma NextFrame(c: Client, stub: string, next: Job)
    requires Middle(c, stub) && !next.Close?
    ensures var c' := Feed(Line(c, stub + JobLines(next)[0]), JobLines(next)[1..]);
            && Clean(c') && c'.id == ""
            && (c'.got == c.got + Received(next) <==> ReadsNext(c.data, c.kind, stub, next))
            && (c'.got == c.got <==> SkipsNext(c.data, stub, next))
  {
    if next.Send? && next.event == "" {
      NextUnnamed(c, stub, next.data);
    } else if next.Send? {
      NextNamed(c, stub, next.event, next.data);
    } else {
      PingLine(c, stub);
      var c2 := Line(c, stub + ": ping");
      assert JobLines(next)[1..] == [""];
      FeedOne(c2, "");
      DispatchIff(c2, "", "");
      assert c.got + [] == c.got;
    }
  }
}
