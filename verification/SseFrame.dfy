/** The text `SSEWriter.Send` puts on the wire for one event, and what a client makes of it. */
module SseFrame {
  import opened Text
  import opened EventStream

  /** `sanitizeSSEField`: every control character becomes a space. */
  function Sanitize(s: string): (r: string)
    ensures |r| == |s|
    ensures forall i :: 0 <= i < |s| ==> r[i] == if IsControl(s[i]) then ' ' else s[i]
  {
    if s == "" then ""
    else
      var c := if s[0] == '\r' || s[0] == '\n' || IsControl(s[0]) then ' ' else s[0];
      [c] + Sanitize(s[1..])
  }

  /** The two replacements `Send` makes, in its order. */
  function Normalise(data: string): string {
    ReplaceAll(ReplaceAll(data, "\r\n", "\n"), "\r", "\n")
  }

  /** Newline normalisation said independently: CR LF is one newline, any other CR or LF is one newline. */
  function Newlines(s: string): string {
    if s == "" then ""
    else if s[0] == '\r' then "\n" + Newlines(if |s| > 1 && s[1] == '\n' then s[2..] else s[1..])
    else [s[0]] + Newlines(s[1..])
  }

  function EventPart(event: string): string {
    if event == "" then "" else "event: " + Sanitize(event) + "\n"
  }

  function DataLines(lines: seq<string>): (r: seq<string>)
    ensures |r| == |lines|
  {
    if lines == [] then [] else ["data: " + lines[0]] + DataLines(lines[1..])
  }

  function EventLines(event: string): seq<string> {
    if event == "" then [] else ["event: " + Sanitize(event)]
  }

  /** The lines of one frame, the closing blank line included. */
  function FrameLines(event: string, data: string): (lines: seq<string>)
    ensures |lines| > 0
  {
    EventLines(event) + DataLines(Split(Normalise(data), '\n')) + [""]
  }

  /** One write for each line. */
  function Writes(lines: seq<string>): (r: seq<string>)
    ensures |r| == |lines|
    ensures Concat(r) == Terminated(lines)
  {
    if lines == [] then [] else [lines[0] + "\n"] + Writes(lines[1..])
  }

  /** The size that `Send` adds up for the data lines. */
  function DataSize(lines: seq<string>): nat {
    if lines == [] then 0 else 6 + ByteLen(lines[0]) + 1 + DataSize(lines[1..])
  }

  /** The total that `Send` compares with the limit. */
  function DeclaredSize(event: string, data: string): nat {
    ByteLen(EventPart(event)) + DataSize(Split(Normalise(data), '\n')) + 1
  }

  predicate TooLarge(maxEventBytes: int, event: string, data: string) {
    maxEventBytes > 0 && DeclaredSize(event, data) > maxEventBytes
  }

  /** The event a client is meant to receive. */
  function Intended(event: string, data: string): Message {
    Message(if event == "" then "message" else Sanitize(event), Newlines(data), "")
  }

  lemma {:induction false} CrLfThenCr(s: string)
    ensures Normalise(s) == Newlines(s)
  {
    if s == "" {
    } else if |s| >= 2 && s[..2] == "\r\n" {
      assert s[0] == s[..2][0] && s[1] == s[..2][1];
      var rest := ReplaceAll(s[2..], "\r\n", "\n");
      ReplaceAfterPlain('\n', rest);
      CrLfThenCr(s[2..]);
    } else {
      var rest := ReplaceAll(s[1..], "\r\n", "\n");
      assert ReplaceAll(s, "\r\n", "\n") == [s[0]] + rest;
      if s[0] == '\r' {
        var t := [s[0]] + rest;
        assert t[..1] == "\r" && t[1..] == rest;
      } else {
        ReplaceAfterPlain(s[0], rest);
      }
      CrLfThenCr(s[1..]);
    }
  }

  lemma ReplaceAfterPlain(c: char, rest: string)
    requires c != '\r'
    ensures ReplaceAll([c] + rest, "\r", "\n") == [c] + ReplaceAll(rest, "\r", "\n")
  {
    var t := [c] + rest;
    assert t[..1][0] == c;
    assert t[1..] == rest;
  }

  lemma {:induction false} NewlinesHaveNoCr(s: string)
    ensures '\r' !in Newlines(s)
  {
    if s != "" {
      if s[0] == '\r' && |s| > 1 && s[1] == '\n' {
        NewlinesHaveNoCr(s[2..]);
      } else {
        NewlinesHaveNoCr(s[1..]);
      }
    }
  }

  /** Every frame line really is one line to the client, and only the last one is blank. */
  lemma FrameLinesAreLines(event: string, data: string)
    ensures forall l :: l in FrameLines(event, data) ==> OneLine(l)
    ensures var ls := FrameLines(event, data); ls[|ls| - 1] == "" && "" !in ls[..|ls| - 1]
  {
    var parts := Split(Normalise(data), '\n');
    CrLfThenCr(data);
    NewlinesHaveNoCr(data);
    PartsHaveNo(parts, '\n', '\r');
    DataLinesAreLines(parts);
    var ls := FrameLines(event, data);
    assert ls[..|ls| - 1] == EventLines(event) + DataLines(parts);
    if event != "" {
      var e := Sanitize(event);
      assert forall c :: c in e ==> !IsControl(c);
      assert OneLine("event: ");
      OneLineAppend("event: ", e);
    }
  }

  lemma OneLineAppend(a: string, b: string)
    requires OneLine(a) && OneLine(b)
    ensures OneLine(a + b)
  {
    forall c | c in a + b
      ensures c in a || c in b
    {
      var i :| 0 <= i < |a + b| && (a + b)[i] == c;
      assert c == if i < |a| then a[i] else b[i - |a|];
    }
  }

  lemma {:induction false} PartsHaveNo(parts: seq<string>, sep: char, c: char)
    requires |parts| >= 1 && c !in Join(parts, sep)
    ensures forall p :: p in parts ==> c !in p
  {
    if |parts| > 1 {
      PartsHaveNo(parts[1..], sep, c);
    }
  }

  lemma {:induction false} DataLinesAreLines(parts: seq<string>)
    requires forall p :: p in parts ==> OneLine(p)
    ensures forall l :: l in DataLines(parts) ==> OneLine(l) && l != ""
  {
    if parts != [] {
      DataLinesAreLines(parts[1..]);
      assert OneLine("data: ");
      OneLineAppend("data: ", parts[0]);
    }
  }

  lemma FeedDataLine(c: Client, part: string)
    ensures Line(c, "data: " + part) == c.(data := c.data + part + "\n")
  {
    FieldLine(c, "data", part);
    assert "data" + ": " + part == "data: " + part;
  }

  lemma {:induction false} FeedDataLines(c: Client, parts: seq<string>)
    ensures Feed(c, DataLines(parts)) == c.(data := c.data + Terminated(parts))
    decreases parts
  {
    if parts == [] {
      assert c.data + "" == c.data;
    } else {
      FeedDataLine(c, parts[0]);
      var c' := c.(data := c.data + parts[0] + "\n");
      assert c'.data + Terminated(parts[1..]) == c.data + Terminated(parts);
      FeedDataLines(c', parts[1..]);
    }
  }

  lemma {:induction false} TerminatedIsJoin(parts: seq<string>)
    requires |parts| >= 1
    ensures Terminated(parts) == Join(parts, '\n') + "\n"
  {
    if |parts| > 1 {
      TerminatedIsJoin(parts[1..]);
    } else {
      assert Terminated(parts[1..]) == "";
    }
  }

  lemma FeedEventLine(c: Client, event: string)
    requires Clean(c)
    ensures Feed(c, EventLines(event)) == c.(kind := if event == "" then "" else Sanitize(event))
  {
    hide Line, Sanitize;
    if event != "" {
      FieldLine(c, "event", Sanitize(event));
      assert "event" + ": " + Sanitize(event) == "event: " + Sanitize(event);
      FeedOne(c, "event: " + Sanitize(event));
    }
  }

  lemma FeedOne(c: Client, line: string)
    ensures Feed(c, [line]) == Line(c, line)
  {
    assert [line][1..] == [];
  }

  lemma DispatchWhole(c: Client, event: string, text: string)
    requires c.id == "" && c.data == text + "\n" && c.kind == if event == "" then "" else Sanitize(event)
    ensures var kind := if event == "" then "message" else Sanitize(event);
            Dispatch(c) == c.(data := "", kind := "", got := c.got + [Message(kind, text, "")])
  {
    assert c.data[..|c.data| - 1] == text;
    assert c.data[|c.data| - 1] == '\n';
  }

  /** A client with clean buffers dispatches exactly the intended event when it has read a frame, and is clean again. */
  lemma FrameRoundTrip(c: Client, event: string, data: string)
    requires Clean(c) && c.id == ""
    ensures Feed(c, FrameLines(event, data)) == c.(got := c.got + [Intended(event, data)])
  {
    var head := EventLines(event);
    var parts := Split(Normalise(data), '\n');
    var c1, c2 := Feed(c, head), Feed(c, head + DataLines(parts));
    assert c2 == c1.(data := Newlines(data) + "\n") by {
      FeedAppend(c, head, DataLines(parts));
      FeedEventLine(c, event);
      FeedDataLines(c1, parts);
      TerminatedIsJoin(parts);
      CrLfThenCr(data);
    }
    FeedEventLine(c, event);
    FeedAppend(c, head + DataLines(parts), [""]);
    FeedOne(c2, "");
    DispatchWhole(c2, event, Newlines(data));
  }

  /** Until its blank line has been read, a frame dispatches nothing. */
  lemma PartialFrameIsSilent(c: Client, event: string, data: string, n: nat)
    requires n < |FrameLines(event, data)|
    ensures Feed(c, FrameLines(event, data)[..n]).got == c.got
  {
    var ls := FrameLines(event, data);
    FrameLinesAreLines(event, data);
    assert ls[..n] == ls[..|ls| - 1][..n];
    FeedNoBlank(c, ls[..n]);
  }

  /** The size declared before writing is the size then written. */
  lemma DeclaredSizeIsWritten(event: string, data: string)
    ensures DeclaredSize(event, data) == ByteLen(Terminated(FrameLines(event, data)))
    ensures DeclaredSize(event, data) == |Encoded(Terminated(FrameLines(event, data)))|
  {
    ByteLenIsEncoded(Terminated(FrameLines(event, data)));
    var head := EventLines(event);
    var parts := Split(Normalise(data), '\n');
    TerminatedAppend(head + DataLines(parts), [""]);
    TerminatedAppend(head, DataLines(parts));
    assert Terminated([""]) == "\n" by { assert [""][1..] == []; }
    assert Terminated(head) == EventPart(event) by {
      if event != "" {
        assert head[1..] == [];
        assert head[0] + "\n" + "" == EventPart(event);
      }
    }
    ByteLenAppend(Terminated(head) + Terminated(DataLines(parts)), "\n");
    ByteLenAppend(Terminated(head), Terminated(DataLines(parts)));
    DataSizeIsWritten(parts);
    assert "\n"[1..] == "";
  }

  lemma DataPrefixSize()
    ensures ByteLen("data: ") == 6
  {
    ByteLenAppend("da", "ta: ");
    ByteLenAppend("ta", ": ");
    assert "da"[1..] == "a" && "a"[1..] == "" && "ta"[1..] == "a" && ": "[1..] == " " && " "[1..] == "";
    assert "da" + ("ta" + ": ") == "data: ";
  }

  lemma {:induction false} DataSizeIsWritten(parts: seq<string>)
    ensures DataSize(parts) == ByteLen(Terminated(DataLines(parts)))
  {
    if parts != [] {
      var line := "data: " + parts[0];
      ByteLenAppend(line + "\n", Terminated(DataLines(parts[1..])));
      ByteLenAppend(line, "\n");
      ByteLenAppend("data: ", parts[0]);
      DataPrefixSize();
      assert "\n"[1..] == "";
      DataSizeIsWritten(parts[1..]);
    }
  }

  // ---- newlines, against the client's own splitting of a text into lines ----

  function Prefixed(cur: string, parts: seq<string>): seq<string>
    requires parts != []
  {
    [cur + parts[0]] + parts[1..]
  }

  lemma PrefixedLaws(cur: string, c: char, parts: seq<string>)
    requires parts != []
    ensures Prefixed("", parts) == parts
    ensures Prefixed(cur, [""] + parts) == [cur] + parts
    ensures Prefixed(cur, Prefixed([c], parts)) == Prefixed(cur + [c], parts)
  {
    assert "" + parts[0] == parts[0] && cur + "" == cur;
    assert cur + ([c] + parts[0]) == cur + [c] + parts[0];
    assert ([""] + parts)[1..] == parts && Prefixed([c], parts)[1..] == parts[1..];
  }

  /** What follows the first newline of the data, when the data starts with one. */
  function AfterNewline(data: string): string
    requires data != ""
  {
    if data[0] == '\r' && |data| > 1 && data[1] == '\n' then data[2..] else data[1..]
  }

  lemma NewlineFirst(data: string)
    requires data != "" && (data[0] == '\r' || data[0] == '\n')
    ensures Split(Newlines(data), '\n') == [""] + Split(Newlines(AfterNewline(data)), '\n')
  {
    var t := "\n" + Newlines(AfterNewline(data));
    assert Newlines(data) == t && t[0] == '\n' && t[1..] == Newlines(AfterNewline(data));
    SplitCons(t, '\n');
  }

  lemma PlainFirst(data: string)
    requires data != "" && data[0] != '\r' && data[0] != '\n'
    ensures Split(Newlines(data), '\n') == Prefixed([data[0]], Split(Newlines(data[1..]), '\n'))
  {
    var t := [data[0]] + Newlines(data[1..]);
    assert Newlines(data) == t && t[1..] == Newlines(data[1..]);
    SplitCons(t, '\n');
  }

  /** One step of the client, on the data with a last newline of its own. */
  lemma ScanFirst(data: string, cur: string)
    requires data != ""
    ensures Scan(data + "\r", cur)
         == if data[0] == '\r' || data[0] == '\n' then [cur] + Scan(AfterNewline(data) + "\r", "")
            else Scan(data[1..] + "\r", cur + [data[0]])
  {
    var text := data + "\r";
    assert text[0] == data[0] && text[1..] == data[1..] + "\r";
    assert |data| > 1 ==> text[1] == data[1] && text[2..] == data[2..] + "\r";
    assert |data| == 1 ==> text[1] == '\r';
  }

  lemma {:induction false} LinesFrom(data: string, cur: string)
    ensures Scan(data + "\r", cur) == Prefixed(cur, Split(Newlines(data), '\n'))
  {
    if data == "" {
      assert data + "\r" == "\r" && "\r"[1..] == "" && Scan("", "") == [];
      assert Split("", '\n') == [""] && cur + "" == cur;
    } else {
      hide Scan, Split, Newlines, Prefixed;
      ScanFirst(data, cur);
      if data[0] == '\r' || data[0] == '\n' {
        NewlineFirst(data);
        LinesFrom(AfterNewline(data), "");
        PrefixedLaws(cur, ' ', Split(Newlines(AfterNewline(data)), '\n'));
      } else {
        PlainFirst(data);
        LinesFrom(data[1..], cur + [data[0]]);
        PrefixedLaws(cur, data[0], Split(Newlines(data[1..]), '\n'));
      }
    }
  }

  /** The lines of the data as it is written are the lines that a client would make of the data as it was given. */
  lemma NewlinesAreLines(data: string)
    ensures Split(Newlines(data), '\n') == Scan(data + "\r", "")
  {
    hide Scan, Split, Newlines, Prefixed;
    LinesFrom(data, "");
    PrefixedLaws("", ' ', Split(Newlines(data), '\n'));
  }
}
