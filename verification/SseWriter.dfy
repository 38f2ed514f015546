/** `SSEWriter` itself: the operations one goroutine performs while it holds the mutex. */
module SseWriter {
  import opened Text
  import opened EventStream
  import opened SseFrame

  const DEFAULT_MAX_EVENT_BYTES := 65536
  const PING := ": ping\n\n"

  datatype Outcome = Ok | ErrClosed | ErrPayloadTooLarge | ErrWrite

  /** What has happened on the connection: the text accepted, the WriteHeader calls, the Write calls, the flushes. */
  datatype Wire = Wire(body: string, commits: seq<int>, calls: nat, flushes: nat)

  /** The whole state of a writer. */
  datatype Sse = Sse(done: bool, headerSent: bool, maxEventBytes: int, wire: Wire)

  /** One Write: call number `k` fails when `k` is in `faults`, having accepted only that many characters. */
  function Put(w: Wire, faults: map<nat, nat>, s: string): (Wire, bool) {
    if w.calls in faults then
      var n := if faults[w.calls] < |s| then faults[w.calls] else |s|;
      (w.(body := w.body + s[..n], calls := w.calls + 1), false)
    else (w.(body := w.body + s, calls := w.calls + 1), true)
  }

  /** Writes in order, stopping at the first that fails. */
  function PutAll(w: Wire, faults: map<nat, nat>, ss: seq<string>): (Wire, bool)
    decreases ss
  {
    if ss == [] then (w, true)
    else
      var (w', ok) := Put(w, faults, ss[0]);
      if ok then PutAll(w', faults, ss[1..]) else (w', false)
  }

  function Commit(s: Sse): Sse {
    if s.headerSent then s else s.(headerSent := true, wire := s.wire.(commits := s.wire.commits + [200]))
  }

  /** Write under a committed header, and flush when every write succeeded. */
  function AfterWrites(s: Sse, faults: map<nat, nat>, writes: seq<string>): (Sse, Outcome) {
    var (w, ok) := PutAll(s.wire, faults, writes);
    if ok then (s.(wire := w.(flushes := w.flushes + 1)), Ok) else (s.(wire := w), ErrWrite)
  }

  function Emit(s: Sse, faults: map<nat, nat>, writes: seq<string>): (Sse, Outcome) {
    AfterWrites(Commit(s), faults, writes)
  }

  function SendSpec(s: Sse, faults: map<nat, nat>, event: string, data: string): (Sse, Outcome) {
    if s.done then (s, ErrClosed)
    else if TooLarge(s.maxEventBytes, event, data) then (s, ErrPayloadTooLarge)
    else Emit(s, faults, Writes(FrameLines(event, data)))
  }

  function BeatSpec(s: Sse, faults: map<nat, nat>): (Sse, Outcome) {
    if s.done then (s, ErrClosed) else Emit(s, faults, [PING])
  }

  /** The writes that remain when `i` data lines have been written. */
  function Tail(lines: seq<string>, i: nat): seq<string>
    requires i <= |lines|
  {
    Writes(DataLines(lines[i..])) + ["\n"]
  }

  /** The events a heartbeat loop selects: `true` for a tick, `false` for the cancelled context. */
  function HeartbeatSpec(s: Sse, faults: map<nat, nat>, events: seq<bool>): Sse
    decreases events
  {
    if events == [] || !events[0] then s
    else
      var (s', r) := BeatSpec(s, faults);
      if r == Ok then HeartbeatSpec(s', faults, events[1..]) else s'
  }

  function EffectiveLimit(options: seq<int>): (n: int)
    ensures options == [] || options[|options| - 1] == 0 ==> n == 65536
    ensures options != [] && options[|options| - 1] != 0 ==> n == options[|options| - 1]
  {
    var last := if options == [] then DEFAULT_MAX_EVENT_BYTES else options[|options| - 1];
    if last == 0 then DEFAULT_MAX_EVENT_BYTES else last
  }

  /** The response writer under the SSE writer. */
  class ResponseWriter {
    var body: string
    var commits: seq<int>
    var calls: nat
    var flushes: nat
    var header: map<string, string>
    const flusher: bool
    const faults: map<nat, nat>

    constructor (flusher: bool, faults: map<nat, nat>)
      ensures Value() == Wire("", [], 0, 0) && header == map[]
      ensures this.flusher == flusher && this.faults == faults
    {
      this.flusher, this.faults := flusher, faults;
      body, commits, calls, flushes, header := "", [], 0, 0, map[];
    }

    function Value(): Wire
      reads this
    {
      Wire(body, commits, calls, flushes)
    }

    method WriteHeader(code: int)
      modifies this
      ensures Value() == old(Value()).(commits := old(commits) + [code]) && header == old(header)
    {
      commits := commits + [code];
    }

    method Write(s: string) returns (ok: bool)
      modifies this
      ensures (Value(), ok) == Put(old(Value()), faults, s) && header == old(header)
    {
      var n := |s|;
      if calls in faults && faults[calls] < n {
        n := faults[calls];
      }
      ok := calls !in faults;
      assert s[..|s|] == s;
      body, calls := body + s[..n], calls + 1;
    }

    method Flush()
      modifies this
      ensures Value() == old(Value()).(flushes := old(flushes) + 1) && header == old(header)
    {
      flushes := flushes + 1;
    }
  }

  class SSEWriter {
    const w: ResponseWriter
    var done: bool
    var headerSent: bool
    var maxEventBytes: int

    function Value(): Sse
      reads this, w
    {
      Sse(done, headerSent, maxEventBytes, w.Value())
    }

    constructor (w: ResponseWriter, maxEventBytes: int)
      ensures this.w == w && Value() == Sse(false, false, maxEventBytes, w.Value())
    {
      this.w, this.maxEventBytes := w, maxEventBytes;
      done, headerSent := false, false;
    }

    /** NewSSEWriterWithLimit. Nothing is committed yet. */
    static method New(w: ResponseWriter, options: seq<int>) returns (s: SSEWriter?)
      modifies w
      ensures w.Value() == old(w.Value())
      ensures s == null <==> !w.flusher
      ensures s == null ==> w.header == old(w.header)
      ensures s != null && (options == [] || options[|options| - 1] == 0) ==> s.maxEventBytes == 65536
      ensures s != null && options != [] && options[|options| - 1] != 0 ==> s.maxEventBytes == options[|options| - 1]
      ensures s != null ==> fresh(s) && s.w == w
                            && s.Value() == Sse(false, false, EffectiveLimit(options), w.Value())
                            && w.header == old(w.header)["Content-Type" := "text/event-stream"]
                                                        ["Cache-Control" := "no-cache"]["X-Accel-Buffering" := "no"]
    {
      if !w.flusher {
        return null;
      }
      w.header := w.header["Content-Type" := "text/event-stream"];
      w.header := w.header["Cache-Control" := "no-cache"];
      w.header := w.header["X-Accel-Buffering" := "no"];
      var limit := DEFAULT_MAX_EVENT_BYTES;
      for i := 0 to |options|
        invariant limit == if i == 0 then DEFAULT_MAX_EVENT_BYTES else options[i - 1]
      {
        limit := options[i];
      }
      if limit == 0 {
        limit := DEFAULT_MAX_EVENT_BYTES;
      }
      s := new SSEWriter(w, limit);
    }

    method Send(event: string, data: string) returns (r: Outcome)
      modifies this, w
      ensures (Value(), r) == SendSpec(old(Value()), w.faults, event, data)
    {
      if done {
        return ErrClosed;
      }
      var eventPart := "";
      if event != "" {
        eventPart := "event: " + Sanitize(event) + "\n";
      }
      var text := ReplaceAll(data, "\r\n", "\n");
      text := ReplaceAll(text, "\r", "\n");
      var lines := Split(text, '\n');
      DataPrefixSize();
      var dataPart := 0;
      for i := 0 to |lines|
        invariant dataPart + DataSize(lines[i..]) == DataSize(lines)
      {
        assert lines[i..][1..] == lines[i + 1..];
        dataPart := dataPart + (ByteLen("data: ") + ByteLen(lines[i]) + 1);
      }
      assert lines[|lines|..] == [];
      assert eventPart == EventPart(event) && dataPart == DataSize(lines);
      assert lines == Split(Normalise(data), '\n');
      var total := ByteLen(eventPart) + dataPart + 1;
      if maxEventBytes > 0 && total > maxEventBytes {
        return ErrPayloadTooLarge;
      }
      r := WriteFrame(eventPart, lines, event, data);
    }

    /** The second half of Send: commit the header, write the frame line by line, flush. */
    method WriteFrame(eventPart: string, lines: seq<string>, ghost event: string, ghost data: string)
      returns (r: Outcome)
      requires eventPart == EventPart(event) && lines == Split(Normalise(data), '\n')
      modifies this, w
      ensures (Value(), r) == Emit(old(Value()), w.faults, Writes(FrameLines(event, data)))
    {
      hide FrameLines, Writes, DataLines, Split, Tail;
      ghost var faults := w.faults;
      ghost var start := Commit(Value()).wire;
      ghost var goal := PutAll(start, faults, Writes(FrameLines(event, data)));
      FirstWrite(start, faults, event, data);
      if !headerSent {
        w.WriteHeader(200);
        headerSent := true;
      }
      if eventPart != "" {
        var ok := w.Write(eventPart);
        if !ok {
          return ErrWrite;
        }
      }
      for i := 0 to |lines|
        invariant goal == PutAll(w.Value(), faults, Tail(lines, i))
        invariant unchanged(`done) && headerSent && unchanged(`maxEventBytes)
      {
        NextWrite(w.Value(), faults, lines, i);
        var ok := w.Write("data: " + lines[i] + "\n");
        if !ok {
          return ErrWrite;
        }
      }
      LastWrite(w.Value(), faults, lines);
      var ok := w.Write("\n");
      if !ok {
        return ErrWrite;
      }
      w.Flush();
      return Ok;
    }

    method Close()
      modifies this
      ensures Value() == old(Value()).(done := true)
    {
      done := true;
    }

    /** What Heartbeat does at one tick. */
    method Beat() returns (r: Outcome)
      modifies this, w
      ensures (Value(), r) == BeatSpec(old(Value()), w.faults)
    {
      if done {
        return ErrClosed;
      }
      if !headerSent {
        w.WriteHeader(200);
        headerSent := true;
      }
      ghost var goal := PutAll(w.Value(), w.faults, [PING]);
      assert [PING][0] == PING && [PING][1..] == [];
      var ok := w.Write(PING);
      assert ok ==> goal == PutAll(w.Value(), w.faults, []);
      if !ok {
        return ErrWrite;
      }
      w.Flush();
      return Ok;
    }

    /** Heartbeat, given what its select receives, in order. */
    method Heartbeat(events: seq<bool>)
      modifies this, w
      ensures Value() == HeartbeatSpec(old(Value()), w.faults, events)
    {
      var i := 0;
      while i < |events|
        invariant 0 <= i <= |events|
        invariant HeartbeatSpec(Value(), w.faults, events[i..]) == HeartbeatSpec(old(Value()), w.faults, events)
      {
        assert events[i..][1..] == events[i + 1..];
        if !events[i] {
          return;
        }
        var r := Beat();
        if r != Ok {
          return;
        }
        i := i + 1;
      }
    }
  }

  lemma {:induction false} WritesAppend(a: seq<string>, b: seq<string>)
    ensures Writes(a + b) == Writes(a) + Writes(b)
  {
    if a == [] {
      assert a + b == b;
    } else {
      assert (a + b)[1..] == a[1..] + b;
      WritesAppend(a[1..], b);
    }
  }

  lemma FrameWrites(event: string, data: string)
    ensures Writes(FrameLines(event, data))
         == Writes(EventLines(event)) + Tail(Split(Normalise(data), '\n'), 0)
  {
    var parts := Split(Normalise(data), '\n');
    WritesAppend(EventLines(event) + DataLines(parts), [""]);
    WritesAppend(EventLines(event), DataLines(parts));
    assert [""][1..] == [] && "" + "\n" == "\n" && parts[0..] == parts;
  }

  lemma FirstWrite(w: Wire, faults: map<nat, nat>, event: string, data: string)
    ensures PutAll(w, faults, Writes(FrameLines(event, data)))
         == var tail := Tail(Split(Normalise(data), '\n'), 0);
            if event == "" then PutAll(w, faults, tail)
            else var (w', ok) := Put(w, faults, EventPart(event)); if ok then PutAll(w', faults, tail) else (w', false)
  {
    FrameWrites(event, data);
    var tail := Tail(Split(Normalise(data), '\n'), 0);
    if event == "" {
      assert Writes(EventLines(event)) + tail == tail;
    } else {
      assert EventLines(event)[1..] == [];
      assert Writes(EventLines(event)) == [EventPart(event)];
      assert ([EventPart(event)] + tail)[1..] == tail;
    }
  }

  lemma NextWrite(w: Wire, faults: map<nat, nat>, lines: seq<string>, i: nat)
    requires i < |lines|
    ensures var (w', ok) := Put(w, faults, "data: " + lines[i] + "\n");
            PutAll(w, faults, Tail(lines, i)) == if ok then PutAll(w', faults, Tail(lines, i + 1)) else (w', false)
  {
    assert lines[i..][1..] == lines[i + 1..];
    var tail := Tail(lines, i);
    assert tail[0] == "data: " + lines[i] + "\n" && tail[1..] == Tail(lines, i + 1);
  }

  lemma LastWrite(w: Wire, faults: map<nat, nat>, lines: seq<string>)
    ensures PutAll(w, faults, Tail(lines, |lines|)) == Put(w, faults, "\n")
  {
    assert Tail(lines, |lines|) == ["\n"];
    assert ["\n"][1..] == [];
  }

  /** Successful writes put down everything; failed ones put down a proper beginning of it, and never the rest. */
  lemma {:induction false} PutAllText(w: Wire, faults: map<nat, nat>, ss: seq<string>) returns (n: nat)
    ensures n <= |Concat(ss)|
    ensures var (w', ok) := PutAll(w, faults, ss);
            && w'.body == w.body + Concat(ss)[..n] && w'.commits == w.commits && w'.flushes == w.flushes
            && (ok ==> n == |Concat(ss)|)
    decreases ss
  {
    if ss == [] {
      assert w.body + ""[..0] == w.body;
      n := 0;
    } else {
      var (w1, ok) := Put(w, faults, ss[0]);
      if ok {
        var m := PutAllText(w1, faults, ss[1..]);
        n := |ss[0]| + m;
        assert Concat(ss)[..n] == ss[0] + Concat(ss[1..])[..m];
        assert w.body + ss[0] + Concat(ss[1..])[..m] == w.body + (ss[0] + Concat(ss[1..])[..m]);
      } else {
        n := if faults[w.calls] < |ss[0]| then faults[w.calls] else |ss[0]|;
        assert Concat(ss)[..n] == ss[0][..n];
      }
    }
  }

  predicate HeaderCommitted(s: Sse, s': Sse) {
    s'.headerSent && s'.wire.commits == if s.headerSent then s.wire.commits else s.wire.commits + [200]
  }

  predicate WroteFrame(s: Sse, s': Sse, frame: string) {
    HeaderCommitted(s, s') && s'.wire.body == s.wire.body + frame && s'.wire.flushes == s.wire.flushes + 1
  }

  predicate TornFrame(s: Sse, s': Sse, frame: string) {
    HeaderCommitted(s, s') && s'.wire.flushes == s.wire.flushes
    && s.wire.body <= s'.wire.body <= s.wire.body + frame
  }

  /**
    What a caller of Send can rely on. A refused event leaves the connection untouched; an accepted one adds exactly
    one frame, within a positive limit; after a failed write only a beginning of the frame is there.
   */
  lemma SendOutcome(s: Sse, faults: map<nat, nat>, event: string, data: string)
    ensures SendSpec(s, faults, event, data).1 == ErrClosed <==> s.done
    ensures SendSpec(s, faults, event, data).1 == ErrPayloadTooLarge
       <==> !s.done && s.maxEventBytes > 0 && ByteLen(Terminated(FrameLines(event, data))) > s.maxEventBytes
    ensures var (s', r) := SendSpec(s, faults, event, data);
            match r
            case ErrClosed => s' == s
            case ErrPayloadTooLarge => s' == s
            case Ok => WroteFrame(s, s', Terminated(FrameLines(event, data)))
            case ErrWrite => TornFrame(s, s', Terminated(FrameLines(event, data)))
  {
    DeclaredSizeIsWritten(event, data);
    var frame := Terminated(FrameLines(event, data));
    var n := PutAllText(Commit(s).wire, faults, Writes(FrameLines(event, data)));
    assert frame[..|frame|] == frame;
    assert (s.wire.body + frame)[..|s.wire.body| + n] == s.wire.body + frame[..n];
  }

  // ---- the heartbeat loop ----

  function Pings(k: nat): string {
    if k == 0 then "" else ": ping\n\n" + Pings(k - 1)
  }

  /** The first `k` events are ticks, and writing at them does not fail. */
  predicate GoodTicks(s: Sse, faults: map<nat, nat>, events: seq<bool>, k: nat) {
    && !s.done && k <= |events| && (forall i :: 0 <= i < k ==> events[i])
    && forall c :: s.wire.calls <= c < s.wire.calls + k ==> c !in faults
  }

  /** Exactly `k` heartbeats have been written since `s`, each flushed, under one header; `part` follows, unflushed. */
  predicate Beaten(s: Sse, s': Sse, k: nat, part: string) {
    && s'.wire.body == s.wire.body + Pings(k) + part && s'.wire.flushes == s.wire.flushes + k
    && !s'.done && s'.maxEventBytes == s.maxEventBytes
  }

  predicate HeaderAfter(s: Sse, s': Sse, calls: nat) {
    && s'.wire.calls == s.wire.calls + calls && (s'.headerSent <==> s.headerSent || calls > 0)
    && s'.wire.commits == if s.headerSent || calls == 0 then s.wire.commits else s.wire.commits + [200]
  }

  lemma GoodBeat(s: Sse, faults: map<nat, nat>)
    requires !s.done && s.wire.calls !in faults
    ensures var (s', r) := BeatSpec(s, faults); r == Ok && Beaten(s, s', 1, "") && HeaderAfter(s, s', 1)
  {
    var w := Put(Commit(s).wire, faults, PING).0;
    assert [PING][1..] == [] && PutAll(w, faults, []) == (w, true);
    assert PutAll(Commit(s).wire, faults, [PING]) == (w, true);
    assert Pings(1) == PING + Pings(0) && PING + "" == PING;
    assert s.wire.body + PING + "" == s.wire.body + PING;
  }

  lemma BadBeat(s: Sse, faults: map<nat, nat>)
    requires !s.done && s.wire.calls in faults
    ensures var (s', r) := BeatSpec(s, faults);
            var n := if faults[s.wire.calls] < |PING| then faults[s.wire.calls] else |PING|;
            r == ErrWrite && Beaten(s, s', 0, ": ping\n\n"[..n]) && HeaderAfter(s, s', 1)
  {
    assert s.wire.body + "" == s.wire.body;
  }

  /** The loop goes on over good ticks, writing one heartbeat at each. */
  lemma {:induction false} TicksAreBeats(s: Sse, faults: map<nat, nat>, events: seq<bool>, k: nat) returns (s': Sse)
    requires GoodTicks(s, faults, events, k)
    ensures HeartbeatSpec(s, faults, events) == HeartbeatSpec(s', faults, events[k..])
    ensures Beaten(s, s', k, "") && HeaderAfter(s, s', k)
    decreases k
  {
    if k == 0 {
      s' := s;
      assert events[0..] == events && s.wire.body + "" + "" == s.wire.body;
    } else {
      GoodBeat(s, faults);
      var s1 := BeatSpec(s, faults).0;
      s' := TicksAreBeats(s1, faults, events[1..], k - 1);
      assert events[1..][k - 1..] == events[k..];
      PingsAppend(s.wire.body, k);
    }
  }

  lemma PingsAppend(body: string, k: nat)
    requires k > 0
    ensures body + Pings(1) + "" + Pings(k - 1) + "" == body + Pings(k) + ""
  {
    assert Pings(1) == ": ping\n\n" + Pings(0);
    assert body + ": ping\n\n" + Pings(k - 1) == body + (": ping\n\n" + Pings(k - 1));
  }

  /** An open writer, ticks until the context ends, and no failing write: one heartbeat for each tick, and no more. */
  lemma HeartbeatForEachTick(s: Sse, faults: map<nat, nat>, events: seq<bool>, k: nat)
    requires GoodTicks(s, faults, events, k) && (k < |events| ==> !events[k])
    ensures Beaten(s, HeartbeatSpec(s, faults, events), k, "") && HeaderAfter(s, HeartbeatSpec(s, faults, events), k)
  {
    var s' := TicksAreBeats(s, faults, events, k);
  }

  /** The first write that fails, after `k` good ones, is the last: the loop ends with a part of one more heartbeat. */
  lemma HeartbeatEndsAtFailure(s: Sse, faults: map<nat, nat>, events: seq<bool>, k: nat)
    requires GoodTicks(s, faults, events, k) && k < |events| && events[k] && s.wire.calls + k in faults
    ensures var s' := HeartbeatSpec(s, faults, events);
            var n := if faults[s.wire.calls + k] < 8 then faults[s.wire.calls + k] else 8;
            Beaten(s, s', k, ": ping\n\n"[..n]) && HeaderAfter(s, s', k + 1)
  {
    var s1 := TicksAreBeats(s, faults, events, k);
    BadBeat(s1, faults);
    assert s1.wire.body + "" == s1.wire.body;
  }

  lemma HeartbeatOnClosed(s: Sse, faults: map<nat, nat>, events: seq<bool>)
    requires s.done
    ensures HeartbeatSpec(s, faults, events) == s
  {
  }
}
