/**
  How a client reads an event stream, after sections 9.2.5 and 9.2.6 of the WHATWG HTML Living Standard.
  It knows nothing of the writer: it is the independent reading against which the writer is judged.
 */
module EventStream {
  import opened Text

  /** One dispatched event. */
  datatype Message = Message(kind: string, data: string, lastEventId: string)

  /** The client's buffers, and the events dispatched so far. */
  datatype Client = Client(data: string, kind: string, id: string, retry: string, got: seq<Message>)

  const START := Client("", "", "", "", [])

  /** Nothing of a half-read event is buffered. */
  predicate Clean(c: Client) {
    c.data == "" && c.kind == ""
  }

  /** The completed lines of `s`, where `cur` has already been read of the first. Lines end with CR LF, LF or CR. */
  function Scan(s: string, cur: string): seq<string> {
    if s == "" then []
    else if s[0] == '\r' then [cur] + Scan(if |s| > 1 && s[1] == '\n' then s[2..] else s[1..], "")
    else if s[0] == '\n' then [cur] + Scan(s[1..], "")
    else Scan(s[1..], cur + [s[0]])
  }

  function IndexOfColon(line: string): (i: nat)
    requires ':' in line
    ensures i < |line| && line[i] == ':' && ':' !in line[..i]
  {
    if line[0] == ':' then 0
    else
      assert ':' in line[1..];
      var j := IndexOfColon(line[1..]);
      assert line[..j + 1] == [line[0]] + line[1..][..j];
      j + 1
  }

  predicate AllDigits(s: string) {
    forall c :: c in s ==> '0' <= c <= '9'
  }

  function Field(c: Client, name: string, value: string): Client {
    if name == "event" then c.(kind := value)
    else if name == "data" then c.(data := c.data + value + "\n")
    else if name == "id" then if '\0' in value then c else c.(id := value)
    else if name == "retry" then if value != "" && AllDigits(value) then c.(retry := value) else c
    else c
  }

  function Dispatch(c: Client): Client {
    if c.data == "" then c.(kind := "")
    else
      var data := if c.data[|c.data| - 1] == '\n' then c.data[..|c.data| - 1] else c.data;
      var kind := if c.kind == "" then "message" else c.kind;
      c.(data := "", kind := "", got := c.got + [Message(kind, data, c.id)])
  }

  function Line(c: Client, line: string): Client {
    if line == "" then Dispatch(c)
    else if line[0] == ':' then c
    else if ':' in line then
      var i := IndexOfColon(line);
      var value := line[i + 1..];
      Field(c, line[..i], if value != "" && value[0] == ' ' then value[1..] else value)
    else Field(c, line, "")
  }

  function Feed(c: Client, lines: seq<string>): Client
    decreases lines
  {
    if lines == [] then c else Feed(Line(c, lines[0]), lines[1..])
  }

  /** The events dispatched by a stream: one leading byte order mark is dropped, an unfinished event is discarded. */
  function Parse(stream: string): seq<Message> {
    var s := if stream != "" && stream[0] == '\U{FEFF}' then stream[1..] else stream;
    Feed(START, Scan(s, "")).got
  }

  predicate OneLine(line: string) {
    '\r' !in line && '\n' !in line
  }

  /** The lines, each ended by LF. */
  function Terminated(lines: seq<string>): string {
    if lines == [] then "" else lines[0] + "\n" + Terminated(lines[1..])
  }

  lemma {:induction false} TerminatedAppend(a: seq<string>, b: seq<string>)
    ensures Terminated(a + b) == Terminated(a) + Terminated(b)
  {
    if a == [] {
      assert a + b == b;
    } else {
      assert (a + b)[1..] == a[1..] + b;
      TerminatedAppend(a[1..], b);
    }
  }

  lemma {:induction false} FeedAppend(c: Client, a: seq<string>, b: seq<string>)
    ensures Feed(c, a + b) == Feed(Feed(c, a), b)
    decreases a
  {
    if a == [] {
      assert a + b == b;
    } else {
      assert (a + b)[1..] == a[1..] + b;
      FeedAppend(Line(c, a[0]), a[1..], b);
    }
  }

  lemma {:induction false} ScanWithinLine(part: string, rest: string, cur: string)
    requires OneLine(part)
    ensures Scan(part + rest, cur) == Scan(rest, cur + part)
  {
    if part == "" {
      assert part + rest == rest && cur + part == cur;
    } else {
      assert (part + rest)[1..] == part[1..] + rest;
      assert cur + [part[0]] + part[1..] == cur + part;
      assert part[0] in part;
      ScanWithinLine(part[1..], rest, cur + [part[0]]);
    }
  }

  lemma ScanOneLine(line: string, rest: string)
    requires OneLine(line)
    ensures Scan(line + ("\n" + rest), "") == [line] + Scan(rest, "")
  {
    ScanWithinLine(line, "\n" + rest, "");
    assert "" + line == line;
    assert ("\n" + rest)[1..] == rest;
  }

  /** The client reads back the lines that were terminated, whatever follows them. */
  lemma {:induction false} ScanTerminated(lines: seq<string>, rest: string)
    requires forall l :: l in lines ==> OneLine(l)
    ensures Scan(Terminated(lines) + rest, "") == lines + Scan(rest, "")
  {
    if lines == [] {
      assert Terminated(lines) + rest == rest;
    } else {
      var tail := Terminated(lines[1..]) + rest;
      assert Terminated(lines) + rest == lines[0] + ("\n" + tail);
      ScanOneLine(lines[0], tail);
      ScanTerminated(lines[1..], rest);
      assert [lines[0]] + (lines[1..] + Scan(rest, "")) == lines + Scan(rest, "");
    }
  }

  /** An unfinished last line is never read. */
  lemma ScanUnfinished(lines: seq<string>, part: string)
    requires forall l :: l in lines ==> OneLine(l)
    requires OneLine(part)
    ensures Scan(Terminated(lines) + part, "") == lines
  {
    ScanTerminated(lines, part);
    ScanWithinLine(part, "", "");
    assert part + "" == part;
  }

  /** Without a blank line nothing is dispatched. */
  lemma {:induction false} FeedNoBlank(c: Client, lines: seq<string>)
    requires "" !in lines
    ensures Feed(c, lines).got == c.got
    decreases lines
  {
    if lines != [] {
      assert lines[0] in lines;
      FeedNoBlank(Line(c, lines[0]), lines[1..]);
    }
  }

  /** Events once dispatched stay dispatched. */
  lemma {:induction false} FeedOnlyAdds(c: Client, lines: seq<string>)
    ensures c.got <= Feed(c, lines).got
    decreases lines
  {
    if lines != [] {
      FeedOnlyAdds(Line(c, lines[0]), lines[1..]);
    }
  }

  /** Cutting terminated lines anywhere leaves some of the lines and an unfinished one. */
  lemma {:induction false} CutLines(lines: seq<string>, n: nat) returns (k: nat, part: string)
    requires forall l :: l in lines ==> OneLine(l)
    requires n <= |Terminated(lines)|
    ensures k <= |lines| && OneLine(part) && Terminated(lines)[..n] == Terminated(lines[..k]) + part
    ensures part != "" ==> k < |lines| && part <= lines[k]
  {
    if lines == [] {
      k, part := 0, "";
    } else if n <= |lines[0]| {
      k, part := 0, lines[0][..n];
      assert lines[..0] == [] && OneLine(lines[0]);
      assert Terminated(lines)[..n] == part;
    } else {
      var m := |lines[0]| + 1;
      var j;
      j, part := CutLines(lines[1..], n - m);
      k := j + 1;
      assert lines[..k] == [lines[0]] + lines[1..][..j];
      assert Terminated(lines)[..n] == lines[0] + "\n" + Terminated(lines[1..])[..n - m];
      assert lines[..k][1..] == lines[1..][..j];
    }
  }

  lemma FieldLine(c: Client, name: string, value: string)
    requires name != "" && ':' !in name
    ensures Line(c, name + ": " + value) == Field(c, name, value)
  {
    var line := name + ": " + value;
    assert line[|name|] == ':';
    assert line[0] == name[0] && name[0] in name;
    var i := IndexOfColon(line);
    assert i == |name| by {
      assert forall k :: 0 <= k < |name| ==> line[k] == name[k];
    }
    assert line[..i] == name;
    assert line[i + 1..] == " " + value;
    assert (" " + value)[1..] == value;
  }
}
