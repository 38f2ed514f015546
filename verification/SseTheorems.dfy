/** What holds of every run of the SSE protocol, and when it stops holding. */
module SseTheorems {
  import opened Text
  import opened EventStream
  import opened SseFrame
  import opened SseWriter
  import opened SseProtocol

  // ---- the client's reading of a log ----

  lemma FeedJob(c: Client, job: Job)
    requires Clean(c) && c.id == ""
    ensures Gives(c, JobLines(job), Received(job))
  {
    if job.Send? {
      FrameRoundTrip(c, job.event, job.data);
    } else {
      assert c.got + [] == c.got;
      if job.Beat? {
        PingIsSilent(c);
      }
    }
  }

  /** `lines` give a client whose buffers are empty the events `got`, and leave the buffers empty. */
  predicate Gives(c: Client, lines: seq<string>, got: seq<Message>) {
    Feed(c, lines) == c.(got := c.got + got)
  }

  lemma GivesBoth(c: Client, a: seq<string>, b: seq<string>, x: seq<Message>, y: seq<Message>)
    requires Gives(c, a, x) && Gives(c.(got := c.got + x), b, y)
    ensures Gives(c, a + b, x + y)
  {
    FeedAppend(c, a, b);
    AppendAssoc(c.got, x, y);
  }

  lemma {:induction false} FeedLog(c: Client, log: seq<Entry>)
    requires Clean(c) && c.id == ""
    ensures Gives(c, LogLines(log), Expected(log))
    decreases log
  {
    if log == [] {
      assert c.got + [] == c.got;
    } else {
      var job := log[0].job;
      FeedJob(c, job);
      FeedLog(c.(got := c.got + Received(job)), log[1..]);
      GivesBoth(c, JobLines(job), LogLines(log[1..]), Received(job), Expected(log[1..]));
    }
  }

  /** A heartbeat changes nothing for a client between events. */
  lemma PingIsSilent(c: Client)
    requires Clean(c)
    ensures Feed(c, JobLines(Beat)) == c
  {
    assert [": ping", ""][1..] == [""];
    FeedOne(Line(c, ": ping"), "");
  }

  lemma {:induction false} LogLinesAreLines(log: seq<Entry>)
    ensures forall l :: l in LogLines(log) ==> OneLine(l)
    ensures LogLines(log) != [] ==> Opens(LogLines(log)[0])
  {
    if log != [] {
      var job := log[0].job;
      LogLinesAreLines(log[1..]);
      if job.Send? {
        FrameLinesAreLines(job.event, job.data);
        FrameOpens(job.event, job.data);
      } else if job.Beat? {
        assert OneLine(": ping") && OneLine("");
      }
    }
  }

  /** A line that no byte order mark starts. */
  predicate Opens(line: string) {
    line != "" && line[0] in {'e', 'd', ':'}
  }

  lemma FrameOpens(event: string, data: string)
    ensures Opens(FrameLines(event, data)[0])
  {
    var parts := Split(Normalise(data), '\n');
    assert DataLines(parts)[0] == "data: " + parts[0];
    assert FrameLines(event, data)[0] == if event == "" then DataLines(parts)[0] else "event: " + Sanitize(event);
  }

  lemma InProgressLines(s: State, c: Client)
    requires LockInv(s)
    ensures forall l :: l in InProgress(s) ==> OneLine(l)
    ensures InProgress(s) != [] ==> Opens(InProgress(s)[0])
    ensures Feed(c, InProgress(s)).got == c.got
  {
    if s.lock.Held? && s.threads[s.lock.owner].pc.Writing? {
      DoneLinesOf(s.threads[s.lock.owner], c);
    }
  }

  lemma DoneLinesOf(th: Thread, c: Client)
    requires th.pc.Writing?
    ensures var part := DoneLines(th);
            && (forall l :: l in part ==> OneLine(l)) && (part != [] ==> Opens(part[0]))
            && Feed(c, part).got == c.got
  {
    if th.job.Send? && 0 < |th.pc.rest| <= |JobLines(th.job)| {
      PartLines(c, th.job.event, th.job.data, |JobLines(th.job)| - |th.pc.rest|);
    }
  }

  lemma PartLines(c: Client, event: string, data: string, n: nat)
    requires n < |FrameLines(event, data)|
    ensures var part := FrameLines(event, data)[..n];
            && (forall l :: l in part ==> OneLine(l)) && (part != [] ==> Opens(part[0]))
            && Feed(c, part).got == c.got
  {
    FrameLinesAreLines(event, data);
    FrameOpens(event, data);
    PartialFrameIsSilent(c, event, data, n);
  }

  lemma ParseLines(lines: seq<string>)
    requires forall l :: l in lines ==> OneLine(l)
    requires lines != [] ==> Opens(lines[0])
    ensures Parse(Terminated(lines)) == Feed(START, lines).got
  {
    ScanTerminated(lines, "");
    assert Terminated(lines) + "" == Terminated(lines);
    assert lines + [] == lines;
    if lines != [] {
      assert Terminated(lines)[0] == lines[0][0];
    }
  }

  /** Of a text cut anywhere a client reads a beginning of what it would have read of the whole. */
  lemma ParseCut(lines: seq<string>, n: nat)
    requires forall l :: l in lines ==> OneLine(l)
    requires lines != [] ==> Opens(lines[0])
    requires n <= |Terminated(lines)|
    ensures Parse(Terminated(lines)[..n]) <= Feed(START, lines).got
  {
    var k, part := CutLines(lines, n);
    ScanUnfinished(lines[..k], part);
    var cut := Terminated(lines)[..n];
    if cut != "" {
      assert cut[0] == Terminated(lines)[0] && lines != [];
      assert Terminated(lines)[0] == lines[0][0];
    }
    assert lines[..k] + lines[k..] == lines;
    FeedAppend(START, lines[..k], lines[k..]);
    FeedOnlyAdds(Feed(START, lines[..k]), lines[k..]);
  }

  lemma StartInv(maxEventBytes: int)
    ensures Inv(Start(maxEventBytes))
  {
  }

  lemma LogIsRead(s: State)
    requires LockInv(s) && TextInv(s) && !s.torn
    ensures Parse(s.sse.wire.body) == Expected(s.log)
    ensures forall n :: 0 <= n <= |s.sse.wire.body| ==> Parse(s.sse.wire.body[..n]) <= Expected(s.log)
  {
    var whole, part := LogLines(s.log), InProgress(s);
    LogLinesAreLines(s.log);
    InProgressLines(s, Feed(START, whole));
    FeedAppend(START, whole, part);
    FeedLog(START, s.log);
    assert [] + Expected(s.log) == Expected(s.log);
    ParseLines(whole + part);
    forall n | 0 <= n <= |s.sse.wire.body|
      ensures Parse(s.sse.wire.body[..n]) <= Expected(s.log)
    {
      ParseCut(whole + part, n);
    }
  }

  /**
    Round trip over every interleaving. At any moment of any run in which no failed write left a part of a frame, a
    client that interprets all the text written so far has received exactly the events of the completed Sends, in
    order, sanitised and newline-normalised, and nothing for heartbeats or for a frame still being written.
   */
  lemma ClientReceivesLog(maxEventBytes: int, run: seq<Action>)
    requires Legal(Start(maxEventBytes), run) && !Exec(Start(maxEventBytes), run).torn
    ensures var s := Exec(Start(maxEventBytes), run);
            Parse(s.sse.wire.body) == Expected(s.log)
  {
    StartInv(maxEventBytes);
    RunKeepsInv(Start(maxEventBytes), run);
    LogIsRead(Exec(Start(maxEventBytes), run));
  }

  /**
    The same when only a part of the text has arrived, cut at any character: the client has received the first of those
    events, in order, and nothing else.
   */
  lemma ClientReceivesPrefix(maxEventBytes: int, run: seq<Action>, n: nat)
    requires Legal(Start(maxEventBytes), run) && !Exec(Start(maxEventBytes), run).torn
    requires n <= |Exec(Start(maxEventBytes), run).sse.wire.body|
    ensures var s := Exec(Start(maxEventBytes), run);
            Parse(s.sse.wire.body[..n]) <= Expected(s.log)
  {
    StartInv(maxEventBytes);
    RunKeepsInv(Start(maxEventBytes), run);
    LogIsRead(Exec(Start(maxEventBytes), run));
  }

  /** A goroutine whose Send returned nil, or has written its whole frame, is in the log exactly once; no other is. */
  lemma EachSendOnce(maxEventBytes: int, run: seq<Action>, t: int)
    requires Legal(Start(maxEventBytes), run)
    requires t in Exec(Start(maxEventBytes), run).threads
    ensures var s := Exec(Start(maxEventBytes), run);
            if WroteAll(s.threads[t])
            then exists i :: 0 <= i < |s.log| && s.log[i] == Entry(t, s.threads[t].job)
                             && forall j :: 0 <= j < |s.log| && s.log[j].thread == t ==> j == i
            else forall j :: 0 <= j < |s.log| ==> s.log[j].thread != t
  {
    StartInv(maxEventBytes);
    RunKeepsInv(Start(maxEventBytes), run);
    var s := Exec(Start(maxEventBytes), run);
    if WroteAll(s.threads[t]) {
      var i :| 0 <= i < |s.log| && s.log[i] == Entry(t, s.threads[t].job);
    }
  }

  /** The header is committed at most once, always with 200, and before any text. */
  lemma HeaderOnceAndFirst(maxEventBytes: int, run: seq<Action>)
    requires Legal(Start(maxEventBytes), run)
    ensures var w := Exec(Start(maxEventBytes), run).sse.wire;
            w.commits <= [200] && (w.body != "" ==> w.commits == [200])
  {
    StartInv(maxEventBytes);
    RunKeepsInv(Start(maxEventBytes), run);
  }

  // ---- order and closing ----

  lemma {:induction false} LogOnlyGrows(s: State, run: seq<Action>)
    requires Legal(s, run)
    ensures s.log <= Exec(s, run).log
    decreases run
  {
    if run != [] {
      LogOnlyGrows(Apply(s, run[0]), run[1..]);
    }
  }

  lemma OrderKept(s: State, late: seq<Action>, t: int, i: nat, j: nat)
    requires Inv(s) && Legal(s, late) && LogInv(Exec(s, late))
    requires t in s.threads && WroteAll(s.threads[t])
    requires i < |Exec(s, late).log| && Exec(s, late).log[i].thread == t
    requires j < |Exec(s, late).log| && Exec(s, late).log[j].thread !in s.threads
    ensures i < j
  {
    LogOnlyGrows(s, late);
    var k :| 0 <= k < |s.log| && s.log[k] == Entry(t, s.threads[t].job);
    assert Exec(s, late).log[k] == s.log[k];
  }

  /** The log respects real time: a frame complete before another goroutine even began comes before that one's. */
  lemma RealTimeOrder(maxEventBytes: int, early: seq<Action>, late: seq<Action>, t: int, i: nat, j: nat)
    requires Legal(Start(maxEventBytes), early) && Legal(Exec(Start(maxEventBytes), early), late)
    requires var s := Exec(Start(maxEventBytes), early);
             && t in s.threads && WroteAll(s.threads[t])
             && i < |Exec(s, late).log| && Exec(s, late).log[i].thread == t
             && j < |Exec(s, late).log| && Exec(s, late).log[j].thread !in s.threads
    ensures i < j
  {
    StartInv(maxEventBytes);
    RunKeepsInv(Start(maxEventBytes), early);
    RunKeepsInv(Exec(Start(maxEventBytes), early), late);
    OrderKept(Exec(Start(maxEventBytes), early), late, t, i, j);
  }

  /** The goroutines in the order in which they got the lock. */
  function LockOrder(run: seq<Action>): seq<int> {
    if run == [] then [] else (if run[0].Acquire? then [run[0].t] else []) + LockOrder(run[1..])
  }

  /** Those of `order` whose frames are complete. */
  function Writers(s: State, order: seq<int>): seq<int> {
    if order == [] then []
    else
      var t := order[|order| - 1];
      Writers(s, order[..|order| - 1]) + if t in s.threads && WroteAll(s.threads[t]) then [t] else []
  }

  function LogThreads(log: seq<Entry>): (r: seq<int>)
    ensures |r| == |log|
    ensures forall i :: 0 <= i < |log| ==> r[i] == log[i].thread
  {
    if log == [] then [] else [log[0].thread] + LogThreads(log[1..])
  }

  /** `order` has only goroutines that got the lock, and ends with the one that holds it, named there only. */
  ghost predicate Ordered(s: State, order: seq<int>) {
    && (forall t :: t in order ==> t in s.threads && GotLock(s.threads[t].pc))
    && (s.lock.Held? ==> order != [] && order[|order| - 1] == s.lock.owner && s.lock.owner !in order[..|order| - 1])
  }

  predicate GotLock(pc: Pc) {
    pc != Checking && pc != Waiting
  }

  lemma {:induction false} SameWriters(s: State, s': State, order: seq<int>)
    requires forall t :: t in order ==>
               t in s.threads && t in s'.threads && WroteAll(s'.threads[t]) == WroteAll(s.threads[t])
    ensures Writers(s', order) == Writers(s, order)
  {
    if order != [] {
      var t := order[|order| - 1];
      assert t in order;
      SameWriters(s, s', order[..|order| - 1]);
    }
  }

  lemma OneMoreWriter(s: State, s': State, front: seq<int>, t: int)
    requires forall u :: u in front ==>
               u in s.threads && u in s'.threads && WroteAll(s'.threads[u]) == WroteAll(s.threads[u])
    requires t in s'.threads
    ensures Writers(s', front + [t]) == Writers(s, front) + if WroteAll(s'.threads[t]) then [t] else []
  {
    SameWriters(s, s', front);
    assert (front + [t])[..|front|] == front;
  }

  lemma LogThreadsAppend(log: seq<Entry>, e: Entry)
    ensures LogThreads(log + [e]) == LogThreads(log) + [e.thread]
  {
  }

  /** What the write of a last line does. */
  lemma LastLine(s: State, t: int)
    requires LockInv(s) && Enabled(s, WriteOk(t)) && |s.threads[t].pc.rest| == 1
    ensures var s' := Apply(s, WriteOk(t));
            && s.lock == Held(t) && s'.lock == Held(t) && s'.log == s.log + [Entry(t, s.threads[t].job)]
            && t in s'.threads && !WroteAll(s.threads[t]) && WroteAll(s'.threads[t])
  {
    assert WritingInv(s.sse, s.threads[t]);
  }

  lemma LockedWritesLast(s: State, s': State, front: seq<int>, t: int)
    requires t in s.threads && t in s'.threads && s'.threads == s.threads[t := s'.threads[t]]
    requires !WroteAll(s.threads[t]) && WroteAll(s'.threads[t])
    requires t !in front && forall u :: u in front ==> u in s.threads
    ensures Writers(s', front + [t]) == Writers(s, front + [t]) + [t]
  {
    OneMoreWriter(s, s, front, t);
    OneMoreWriter(s, s', front, t);
  }

  /** Only the write of a last line makes a frame complete. */
  lemma OthersWriteNothing(s: State, a: Action)
    requires LockInv(s) && Enabled(s, a) && a.t in s.threads && !(a.WriteOk? && |s.threads[a.t].pc.rest| == 1)
    ensures WroteAll(Apply(s, a).threads[a.t]) == WroteAll(s.threads[a.t]) && Apply(s, a).log == s.log
  {
    if a.WriteOk? || a.WriteFail? || a.Release? {
      assert WritingInv(s.sse, s.threads[a.t]);
    }
  }

  /** Only Acquire takes the lock, and who has had it once never waits for it again. */
  lemma LockStep(s: State, a: Action)
    requires Enabled(s, a)
    ensures if a.Acquire? then Apply(s, a).lock == Held(a.t) else Apply(s, a).lock == Free || Apply(s, a).lock == s.lock
    ensures a.t in s.threads && GotLock(s.threads[a.t].pc) ==> GotLock(Apply(s, a).threads[a.t].pc)
    ensures a.Acquire? ==> !GotLock(s.threads[a.t].pc) && GotLock(Apply(s, a).threads[a.t].pc)
  {
  }

  lemma OrderedStep(s: State, order: seq<int>, a: Action)
    requires LockInv(s) && Ordered(s, order) && Enabled(s, a)
    ensures Ordered(Apply(s, a), if a.Acquire? then order + [a.t] else order)
  {
    OneThreadMoves(s, a);
    LockStep(s, a);
    OrderedKept(s, Apply(s, a), order, a.t, a.Acquire?);
  }

  lemma OrderedKept(s: State, s': State, order: seq<int>, t: int, takes: bool)
    requires Ordered(s, order) && t in s'.threads && s'.threads == s.threads[t := s'.threads[t]]
    requires if takes then s'.lock == Held(t) else s'.lock == Free || s'.lock == s.lock
    requires t in s.threads && GotLock(s.threads[t].pc) ==> GotLock(s'.threads[t].pc)
    requires takes ==> t in s.threads && !GotLock(s.threads[t].pc) && GotLock(s'.threads[t].pc)
    ensures Ordered(s', if takes then order + [t] else order)
  {
    if takes {
      assert (order + [t])[..|order|] == order;
    }
  }

  lemma WritersStep(s: State, order: seq<int>, a: Action)
    requires LockInv(s) && Ordered(s, order) && Enabled(s, a) && Writers(s, order) == LogThreads(s.log)
    ensures Writers(Apply(s, a), if a.Acquire? then order + [a.t] else order) == LogThreads(Apply(s, a).log)
  {
    hide JobWrites, TooLarge;
    OneThreadMoves(s, a);
    var s' := Apply(s, a);
    if a.WriteOk? && |s.threads[a.t].pc.rest| == 1 {
      LastLine(s, a.t);
      LogThreadsAppend(s.log, Entry(a.t, s.threads[a.t].job));
      LockedWritesLast(s, s', order[..|order| - 1], a.t);
      assert order == order[..|order| - 1] + [a.t];
    } else if a.Acquire? {
      OneMoreWriter(s, s', order, a.t);
    } else {
      if !a.Spawn? {
        OthersWriteNothing(s, a);
      }
      SameWriters(s, s', order);
    }
  }

  lemma LockOrderNext(order: seq<int>, run: seq<Action>)
    requires run != []
    ensures (if run[0].Acquire? then order + [run[0].t] else order) + LockOrder(run[1..]) == order + LockOrder(run)
  {
  }

  lemma {:induction false} OrderOverRun(s: State, order: seq<int>, run: seq<Action>)
    requires LockInv(s) && Ordered(s, order) && Writers(s, order) == LogThreads(s.log) && Legal(s, run)
    ensures Writers(Exec(s, run), order + LockOrder(run)) == LogThreads(Exec(s, run).log)
    decreases run
  {
    if run == [] {
      assert order + [] == order;
    } else {
      var a := run[0];
      var order' := if a.Acquire? then order + [a.t] else order;
      OrderedStep(s, order, a);
      WritersStep(s, order, a);
      LockKept(s, a);
      LockOrderNext(order, run);
      OrderOverRun(Apply(s, a), order', run[1..]);
    }
  }

  /** The log is in lock order: it names the goroutines whose frames are complete in the order they got the lock. */
  lemma LogInLockOrder(maxEventBytes: int, run: seq<Action>)
    requires Legal(Start(maxEventBytes), run)
    ensures var s := Exec(Start(maxEventBytes), run);
            LogThreads(s.log) == Writers(s, LockOrder(run))
  {
    OrderOverRun(Start(maxEventBytes), [], run);
    assert [] + LockOrder(run) == LockOrder(run);
  }

  ghost predicate ClosedInv(s: State) {
    forall t :: t in s.threads && s.threads[t].job.Close? && s.threads[t].pc.Returned? ==> s.sse.done
  }

  lemma {:induction false} CloseSetsDone(s: State, run: seq<Action>)
    requires LockInv(s) && ClosedInv(s) && Legal(s, run)
    requires forall t :: t in s.threads && s.threads[t].job.Close? ==> s.threads[t].pc != Checking
    ensures ClosedInv(Exec(s, run))
    decreases run
  {
    if run != [] {
      var s' := Apply(s, run[0]);
      LockKept(s, run[0]);
      OneThreadMoves(s, run[0]);
      CloseSetsDone(s', run[1..]);
    }
  }

  /** Nothing reaches the connection through a closed writer, whoever tries. */
  lemma {:induction false} DoneIsFinal(s: State, run: seq<Action>)
    requires LockInv(s) && s.sse.done && Legal(s, run)
    ensures Exec(s, run).sse == s.sse
    decreases run
  {
    if run != [] {
      LockKept(s, run[0]);
      DoneIsFinal(Apply(s, run[0]), run[1..]);
    }
  }

  /** Once a Close has returned, no later action of any goroutine changes header, text or anything else written. */
  lemma NothingAfterClose(maxEventBytes: int, before: seq<Action>, after: seq<Action>, t: int)
    requires Legal(Start(maxEventBytes), before) && Legal(Exec(Start(maxEventBytes), before), after)
    requires var s := Exec(Start(maxEventBytes), before);
             t in s.threads && s.threads[t].job.Close? && s.threads[t].pc.Returned?
    ensures Exec(Exec(Start(maxEventBytes), before), after).sse == Exec(Start(maxEventBytes), before).sse
  {
    StartInv(maxEventBytes);
    RunKeepsInv(Start(maxEventBytes), before);
    CloseSetsDone(Start(maxEventBytes), before);
    DoneIsFinal(Exec(Start(maxEventBytes), before), after);
  }

  // ---- the critical section is the method ----

  /** While one goroutine holds the lock, no other changes what is written. */
  lemma OthersCannotTouch(s: State, a: Action)
    requires LockInv(s) && Enabled(s, a) && s.lock.Held? && a.t != s.lock.owner
    ensures Apply(s, a).sse == s.sse && Apply(s, a).lock == s.lock && Apply(s, a).log == s.log
    ensures Apply(s, a).threads[s.lock.owner] == s.threads[s.lock.owner]
  {
  }

  /** The writes a goroutine performs when `faults` decides which of them fail. */
  function Script(t: int, w: Wire, faults: map<nat, nat>, ss: seq<string>): seq<Action>
    decreases ss
  {
    if ss == [] then [Release(t)]
    else if w.calls in faults then [WriteFail(t, if faults[w.calls] < |ss[0]| then faults[w.calls] else |ss[0]|)]
    else [WriteOk(t)] + Script(t, Put(w, faults, ss[0]).0, faults, ss[1..])
  }

  /** From `s`, goroutine `t` has given back the lock, returned `r`, and left the writer as `sse`. */
  predicate Section(s: State, s': State, t: int, sse: Sse, r: Outcome)
    requires t in s.threads
  {
    s'.sse == sse && s'.lock == Free && s'.threads == s.threads[t := s.threads[t].(pc := Returned(r))]
  }

  lemma SectionStep(s: State, s1: State, s2: State, t: int, sse: Sse, r: Outcome)
    requires t in s.threads && t in s1.threads && s1.threads == s.threads[t := s1.threads[t]]
    requires s1.threads[t].job == s.threads[t].job
    requires Section(s1, s2, t, sse, r)
    ensures Section(s, s2, t, sse, r)
  {
  }

  lemma ExecFirst(s: State, a: Action, run: seq<Action>)
    requires Enabled(s, a) && Legal(Apply(s, a), run)
    ensures Legal(s, [a] + run) && Exec(s, [a] + run) == Exec(Apply(s, a), run)
  {
    assert ([a] + run)[1..] == run;
  }

  lemma ScriptNext(s: State, t: int, faults: map<nat, nat>)
    requires Enabled(s, WriteOk(t)) && s.sse.wire.calls !in faults
    ensures var rest := s.threads[t].pc.rest;
            var s' := Apply(s, WriteOk(t));
            && s'.threads[t].pc == Writing(rest[1..]) && s'.lock == s.lock
            && Script(t, s.sse.wire, faults, rest) == [WriteOk(t)] + Script(t, s'.sse.wire, faults, rest[1..])
            && AfterWrites(s.sse, faults, rest) == AfterWrites(s'.sse, faults, rest[1..])
  {
    hide JobWrites;
  }

  lemma ScriptEnds(s: State, t: int, faults: map<nat, nat>)
    requires t in s.threads && s.lock == Held(t) && s.threads[t].pc.Writing?
    requires s.threads[t].pc.rest == [] || s.sse.wire.calls in faults
    ensures var rest := s.threads[t].pc.rest;
            var run := Script(t, s.sse.wire, faults, rest);
            var (sse, r) := AfterWrites(s.sse, faults, rest);
            |run| == 1 && Enabled(s, run[0]) && Section(s, Apply(s, run[0]), t, sse, r)
  {
  }

  lemma {:induction false} ScriptIsPutAll(s: State, t: int, faults: map<nat, nat>)
    requires t in s.threads && s.lock == Held(t) && s.threads[t].pc.Writing?
    ensures var run := Script(t, s.sse.wire, faults, s.threads[t].pc.rest);
            var (sse, r) := AfterWrites(s.sse, faults, s.threads[t].pc.rest);
            Legal(s, run) && Section(s, Exec(s, run), t, sse, r)
    decreases s.threads[t].pc.rest
  {
    var rest := s.threads[t].pc.rest;
    if rest == [] || s.sse.wire.calls in faults {
      ScriptEnds(s, t, faults);
      var run := Script(t, s.sse.wire, faults, rest);
      ExecFirst(s, run[0], []);
      assert run == [run[0]] + [];
    } else {
      var s' := Apply(s, WriteOk(t));
      ScriptNext(s, t, faults);
      OneThreadMoves(s, WriteOk(t));
      ScriptIsPutAll(s', t, faults);
      var run' := Script(t, s'.sse.wire, faults, rest[1..]);
      ExecFirst(s, WriteOk(t), run');
      var (sse, r) := AfterWrites(s'.sse, faults, rest[1..]);
      SectionStep(s, s', Exec(s', run'), t, sse, r);
    }
  }

  /** What one call does when nothing comes between: the function its method is proved against. */
  function CallSpec(s: Sse, faults: map<nat, nat>, job: Job): (Sse, Outcome) {
    match job
    case Send(event, data) => SendSpec(s, faults, event, data)
    case Beat => BeatSpec(s, faults)
    case Close => (s.(done := true), Ok)
  }

  /**
    A goroutine that gets the lock and is left to run does to the writer exactly what the methods Send, Beat and Close
    are proved to do, and returns the same, whichever writes fail: the protocol's many small actions refine the
    method's one step.
   */
  lemma SectionIsCall(s: State, t: int, faults: map<nat, nat>) returns (run: seq<Action>)
    requires t in s.threads && s.lock == Free && s.threads[t].pc == Waiting
    ensures Legal(s, run) && forall a :: a in run ==> a.t == t
    ensures var (sse, r) := CallSpec(s.sse, faults, s.threads[t].job);
            Section(s, Exec(s, run), t, sse, r)
  {
    hide TooLarge, Writes, FrameLines;
    var (sse, r) := CallSpec(s.sse, faults, s.threads[t].job);
    var s1 := Apply(s, Acquire(t));
    var s2 := Apply(s1, Enter(t));
    var rest: seq<Action> := [];
    if s2.threads[t].pc.Returned? {
      assert Section(s1, s2, t, sse, r);
    } else {
      ScriptIsPutAll(s2, t, faults);
      ScriptIsMine(t, s2.sse.wire, faults, s2.threads[t].pc.rest);
      rest := Script(t, s2.sse.wire, faults, s2.threads[t].pc.rest);
      assert AfterWrites(s2.sse, faults, s2.threads[t].pc.rest) == (sse, r);
      SectionStep(s1, s2, Exec(s2, rest), t, sse, r);
    }
    SectionStep(s, s1, Exec(s2, rest), t, sse, r);
    ExecFirst(s1, Enter(t), rest);
    ExecFirst(s, Acquire(t), [Enter(t)] + rest);
    run := [Acquire(t)] + ([Enter(t)] + rest);
  }

  lemma {:induction false} ScriptIsMine(t: int, w: Wire, faults: map<nat, nat>, ss: seq<string>)
    ensures forall a :: a in Script(t, w, faults, ss) ==> a.t == t
    decreases ss
  {
    if ss != [] && w.calls !in faults {
      ScriptIsMine(t, Put(w, faults, ss[0]).0, faults, ss[1..]);
    }
  }
}
