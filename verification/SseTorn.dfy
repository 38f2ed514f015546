/** What a client reads when a failed write has left a part of a frame on the wire. */
module SseTorn {
  import opened Text
  import opened EventStream
  import opened SseFrame
  import opened SseWriter
  import opened SseProtocol
  import opened SseTheorems
  import opened SseMerge

  /** What a failed write leaves: the first `n` lines of a frame and `j` characters of the next, or all of the frame. */
  datatype Tear = Part(job: Job, n: nat, j: nat) | Whole(job: Job)

  predicate ValidTear(tear: Tear) {
    !tear.job.Close? && (tear.Part? ==> tear.n < |JobLines(tear.job)| && tear.j <= |JobLines(tear.job)[tear.n]|)
  }

  /** The characters of the unfinished line. */
  function Stub(tear: Tear): string
    requires ValidTear(tear) && tear.Part?
  {
    JobLines(tear.job)[tear.n][..tear.j]
  }

  function TornText(tear: Tear): string
    requires ValidTear(tear)
  {
    if tear.Whole? then Terminated(JobLines(tear.job)) else Terminated(JobLines(tear.job)[..tear.n]) + Stub(tear)
  }

  /** The name that the lines left behind have given to the next event. */
  function KindSoFar(job: Job, n: nat): string {
    if job.Send? then FrameKind(job.event, n) else ""
  }

  function FrameKind(event: string, n: nat): string {
    if event != "" && n > 0 then Sanitize(event) else ""
  }

  /** The data that the lines left behind have put before the next event's. */
  function DataSoFar(job: Job, n: nat): string {
    if job.Send? then FrameData(job.event, Split(Normalise(job.data), '\n'), n) else ""
  }

  function FrameData(event: string, parts: seq<string>, n: nat): string {
    var h := |EventLines(event)|;
    if h < n <= h + |parts| then Terminated(parts[..n - h]) else ""
  }

  /** The client reads the next frame as if nothing had been torn. */
  predicate NextSurvives(tear: Tear, next: Job)
    requires ValidTear(tear) && tear.Part?
  {
    ReadsNext(DataSoFar(tear.job, tear.n), KindSoFar(tear.job, tear.n), Stub(tear), next)
  }

  /** `rest` are the frames completed after the tear. */
  predicate Survives(tear: Tear, rest: seq<Entry>)
    requires ValidTear(tear)
  {
    if tear.Whole? then tear.job.Beat? else rest == [] || NextSurvives(tear, rest[0].job)
  }

  // ---- the lines left behind ----

  lemma {:induction false} DataLinesCut(parts: seq<string>, n: nat)
    requires n <= |parts|
    ensures DataLines(parts)[..n] == DataLines(parts[..n])
  {
    if n > 0 {
      DataLinesCut(parts[1..], n - 1);
      assert parts[..n][1..] == parts[1..][..n - 1];
    }
  }

  lemma CutSum<T>(a: seq<T>, b: seq<T>, c: seq<T>, n: nat)
    requires n <= |a| + |b|
    ensures (a + b + c)[..n] == if n <= |a| then a[..n] else a + b[..n - |a|]
  {
  }

  lemma HeadSoFar(c: Client, event: string, n: nat)
    requires Clean(c) && n <= |EventLines(event)|
    ensures Feed(c, EventLines(event)[..n]) == c.(kind := if event != "" && n > 0 then Sanitize(event) else "")
  {
    FeedEventLine(c, event);
    if n == 0 {
      assert EventLines(event)[..0] == [];
    } else {
      assert EventLines(event)[..n] == EventLines(event);
    }
  }

  lemma DataLinesSoFar(c: Client, event: string, parts: seq<string>)
    requires Clean(c)
    ensures Feed(c, EventLines(event) + DataLines(parts))
         == c.(kind := if event != "" then Sanitize(event) else "", data := Terminated(parts))
  {
    FeedAppend(c, EventLines(event), DataLines(parts));
    FeedEventLine(c, event);
    FeedDataLines(Feed(c, EventLines(event)), parts);
    assert "" + Terminated(parts) == Terminated(parts);
  }

  lemma FrameSoFar(c: Client, event: string, parts: seq<string>, n: nat)
    requires Clean(c) && n <= |EventLines(event)| + |parts|
    ensures Feed(c, (EventLines(event) + DataLines(parts) + [""])[..n])
         == c.(kind := FrameKind(event, n), data := FrameData(event, parts, n))
  {
    hide DataLines, EventLines, Terminated, Feed;
    CutSum(EventLines(event), DataLines(parts), [""], n);
    if n <= |EventLines(event)| {
      HeadSoFar(c, event, n);
    } else {
      DataLinesCut(parts, n - |EventLines(event)|);
      DataLinesSoFar(c, event, parts[..n - |EventLines(event)|]);
    }
  }

  lemma LinesSoFar(c: Client, tear: Tear)
    requires Clean(c) && ValidTear(tear) && tear.Part?
    ensures Feed(c, JobLines(tear.job)[..tear.n])
         == c.(kind := KindSoFar(tear.job, tear.n), data := DataSoFar(tear.job, tear.n))
  {
    if tear.job.Send? {
      FrameSoFar(c, tear.job.event, Split(Normalise(tear.job.data), '\n'), tear.n);
    } else if tear.n == 1 {
      assert JobLines(Beat)[..1] == [": ping"];
      FeedOne(c, ": ping");
    }
  }

  // ---- the frame after the tear ----

  /** The client in the middle of the torn frame, having read its whole lines. */
  predicate Midway(c: Client, tear: Tear)
    requires ValidTear(tear) && tear.Part?
  {
    c.id == "" && c.kind == KindSoFar(tear.job, tear.n) && c.data == DataSoFar(tear.job, tear.n)
  }

  lemma DataEnded(job: Job, n: nat)
    ensures Ended(DataSoFar(job, n))
  {
    hide Split, Normalise, EventLines, Terminated;
    if job.Send? {
      var parts, h := Split(Normalise(job.data), '\n'), |EventLines(job.event)|;
      if h < n <= h + |parts| {
        TerminatedEnds(parts[..n - h]);
      }
    }
  }

  lemma MidwayEnded(c: Client, tear: Tear)
    requires ValidTear(tear) && tear.Part? && Midway(c, tear)
    ensures Middle(c, Stub(tear))
  {
    hide Stub, DataSoFar, KindSoFar, Ended;
    StubIsPart(tear);
    DataEnded(tear.job, tear.n);
  }

  // ---- the whole text ----

  /** Lines that follow an unfinished line: the first runs into it. */
  function Merge(a: seq<string>, stub: string, x: seq<string>): seq<string> {
    if x == [] then a else a + ([stub + x[0]] + x[1..])
  }

  lemma MergedText(a: seq<string>, stub: string, x: seq<string>)
    requires x != []
    ensures Terminated(a) + stub + Terminated(x) == Terminated(Merge(a, stub, x))
  {
    TerminatedAppend(a, [stub + x[0]] + x[1..]);
    assert ([stub + x[0]] + x[1..])[1..] == x[1..];
    assert stub + (x[0] + "\n" + Terminated(x[1..])) == stub + x[0] + "\n" + Terminated(x[1..]);
  }

  /** Nothing that a client would take for a byte order mark. */
  predicate OpensText(a: seq<string>, stub: string, x: seq<string>) {
    if a != [] then Opens(a[0]) else if stub != "" then Opens(stub) else x != [] ==> Opens(x[0])
  }

  lemma ParseTorn(a: seq<string>, stub: string, x: seq<string>)
    requires OneLine(stub) && OpensText(a, stub, x)
    requires (forall l :: l in a ==> OneLine(l)) && (forall l :: l in x ==> OneLine(l))
    ensures Parse(Terminated(a) + stub + Terminated(x)) == Feed(START, Merge(a, stub, x)).got
  {
    if x == [] {
      ScanUnfinished(a, stub);
      assert Terminated(a) + stub + Terminated(x) == Terminated(a) + stub;
      if a != [] {
        assert Terminated(a)[0] == a[0][0];
      }
    } else {
      MergedText(a, stub, x);
      OneLineAppend(stub, x[0]);
      assert x[0] in x && forall l :: l in x[1..] ==> l in x;
      ParseLines(Merge(a, stub, x));
    }
  }

  /** Lines of a frame that is still being written. */
  predicate Unfinished(p: seq<string>) {
    (forall l :: l in p ==> OneLine(l) && l != "") && (p != [] ==> Opens(p[0]))
  }

  predicate NoClose(log: seq<Entry>) {
    forall e :: e in log ==> !e.job.Close?
  }

  lemma UnfinishedSilent(c: Client, p: seq<string>)
    requires Unfinished(p)
    ensures Feed(c, p).got == c.got
  {
    FeedNoBlank(c, p);
  }

  lemma JobLinesAreLines(job: Job)
    ensures forall l :: l in JobLines(job) ==> OneLine(l)
    ensures JobLines(job) != [] ==> Opens(JobLines(job)[0])
  {
    LogLinesAreLines([Entry(0, job)]);
    assert JobLines(job) + LogLines([]) == JobLines(job);
    assert LogLines([Entry(0, job)]) == JobLines(job) + LogLines([Entry(0, job)][1..]);
  }

  lemma {:induction false} DataLinesOpen(parts: seq<string>)
    ensures forall l :: l in DataLines(parts) ==> Opens(l)
  {
    if parts != [] {
      DataLinesOpen(parts[1..]);
      assert ("data: " + parts[0])[0] == 'd';
    }
  }

  lemma LinesOpen(job: Job)
    ensures forall l :: l in JobLines(job) ==> l == "" || Opens(l)
  {
    if job.Send? {
      DataLinesOpen(Split(Normalise(job.data), '\n'));
      assert job.event != "" ==> ("event: " + Sanitize(job.event))[0] == 'e';
    }
  }

  lemma StubIsPart(tear: Tear)
    requires ValidTear(tear) && tear.Part?
    ensures OneLine(Stub(tear)) && (Stub(tear) != "" ==> Opens(Stub(tear)))
  {
    var line := JobLines(tear.job)[tear.n];
    JobLinesAreLines(tear.job);
    LinesOpen(tear.job);
    assert line in JobLines(tear.job) && OneLine(line);
    assert forall ch :: ch in Stub(tear) ==> ch in line;
  }

  /**
    A client with clean buffers reads the frames of a log, and then nothing more of one that is still being written.
   */
  lemma LogThenPart(c: Client, log: seq<Entry>, p: seq<string>)
    requires Clean(c) && c.id == "" && Unfinished(p)
    ensures Feed(c, LogLines(log) + p).got == c.got + Expected(log)
  {
    FeedAppend(c, LogLines(log), p);
    FeedLog(c, log);
    UnfinishedSilent(Feed(c, LogLines(log)), p);
  }

  lemma MergedFeed(c: Client, stub: string, lines: seq<string>, more: seq<string>)
    requires lines != []
    ensures Feed(c, Merge([], stub, lines + more)) == Feed(Feed(Line(c, stub + lines[0]), lines[1..]), more)
  {
    var x := lines + more;
    assert Merge([], stub, x) == [stub + lines[0]] + (lines[1..] + more);
    assert ([stub + lines[0]] + (lines[1..] + more))[1..] == lines[1..] + more;
    FeedAppend(Line(c, stub + lines[0]), lines[1..], more);
  }

  lemma NothingAfterTear(c: Client, stub: string, p: seq<string>)
    requires Unfinished(p)
    ensures Feed(c, Merge([], stub, p)).got == c.got
  {
    if p != [] {
      var lines := [] + ([stub + p[0]] + p[1..]);
      assert p[0] in p && forall l :: l in p[1..] ==> l in p;
      assert |stub + p[0]| > 0 && forall l :: l in lines ==> l == stub + p[0] || l in p[1..];
      FeedNoBlank(c, lines);
    }
  }

  /** What is read of the frames after the next one is what was written, so the next one decides. */
  lemma NextDecides(c: Client, tear: Tear, next: Job, more: seq<Entry>, p: seq<string>)
    requires ValidTear(tear) && tear.Part? && Midway(c, tear) && !next.Close? && Unfinished(p)
    ensures (Feed(c, Merge([], Stub(tear), JobLines(next) + (LogLines(more) + p))).got
             == c.got + (Received(next) + Expected(more))) <==> NextSurvives(tear, next)
  {
    MergedFeed(c, Stub(tear), JobLines(next), LogLines(more) + p);
    var c' := Feed(Line(c, Stub(tear) + JobLines(next)[0]), JobLines(next)[1..]);
    MidwayEnded(c, tear);
    NextFrame(c, Stub(tear), next);
    LogThenPart(c', more, p);
    SameFront(c'.got, c.got + Received(next), Expected(more));
    AppendAssoc(c.got, Received(next), Expected(more));
  }

  /** From the middle of the torn frame on. */
  lemma AfterTear(c: Client, tear: Tear, rest: seq<Entry>, p: seq<string>)
    requires ValidTear(tear) && tear.Part? && Midway(c, tear) && NoClose(rest) && Unfinished(p)
    ensures Feed(c, Merge([], Stub(tear), LogLines(rest) + p)).got == c.got + Expected(rest) <==> Survives(tear, rest)
  {
    if rest == [] {
      assert LogLines(rest) + p == p && c.got + [] == c.got;
      NothingAfterTear(c, Stub(tear), p);
    } else {
      assert rest[0] in rest;
      AppendAssoc(JobLines(rest[0].job), LogLines(rest[1..]), p);
      NextDecides(c, tear, rest[0].job, rest[1..], p);
    }
  }

  lemma MergeAfter(a: seq<string>, b: seq<string>, stub: string, x: seq<string>)
    ensures Merge(a + b, stub, x) == a + (b + Merge([], stub, x))
  {
  }

  /** The lines before an unfinished line, and all that follows, are lines and open the text properly. */
  lemma TornLinesAreLines(log: seq<Entry>, tear: Tear, rest: seq<Entry>, p: seq<string>)
    requires ValidTear(tear) && tear.Part? && Unfinished(p)
    ensures var a, x := LogLines(log) + JobLines(tear.job)[..tear.n], LogLines(rest) + p;
            && (forall l :: l in a ==> OneLine(l)) && (forall l :: l in x ==> OneLine(l))
            && OpensText(a, Stub(tear), x) && OneLine(Stub(tear))
  {
    LogLinesAreLines(log);
    LogLinesAreLines(rest);
    JobLinesAreLines(tear.job);
    StubIsPart(tear);
  }

  lemma PartIsRead(log: seq<Entry>, tear: Tear, rest: seq<Entry>, p: seq<string>)
    requires ValidTear(tear) && tear.Part? && NoClose(rest) && Unfinished(p)
    ensures (Parse(Terminated(LogLines(log)) + TornText(tear) + Terminated(LogLines(rest) + p))
             == Expected(log) + Expected(rest)) <==> Survives(tear, rest)
  {
    var whole, lines, x := LogLines(log), JobLines(tear.job)[..tear.n], LogLines(rest) + p;
    TornLinesAreLines(log, tear, rest, p);
    TerminatedAppend(whole, lines);
    AppendAssoc(Terminated(whole), Terminated(lines), Stub(tear));
    ParseTorn(whole + lines, Stub(tear), x);
    MergeAfter(whole, lines, Stub(tear), x);
    FeedAppend(START, whole, lines + Merge([], Stub(tear), x));
    FeedLog(START, log);
    assert [] + Expected(log) == Expected(log);
    var c := Feed(START, whole);
    FeedAppend(c, lines, Merge([], Stub(tear), x));
    LinesSoFar(c, tear);
    AfterTear(Feed(c, lines), tear, rest, p);
  }

  lemma WholeIsRead(log: seq<Entry>, job: Job, rest: seq<Entry>, p: seq<string>)
    requires !job.Close? && NoClose(rest) && Unfinished(p)
    ensures Parse(Terminated(LogLines(log)) + Terminated(JobLines(job)) + Terminated(LogLines(rest) + p))
         == Expected(log) + Received(job) + Expected(rest)
  {
    var whole, lines, x := LogLines(log), JobLines(job), LogLines(rest) + p;
    LogLinesAreLines(log);
    LogLinesAreLines(rest);
    JobLinesAreLines(job);
    TerminatedAppend(whole, lines);
    TerminatedAppend(whole + lines, x);
    ParseLines(whole + lines + x);
    FeedAppend(START, whole + lines, x);
    FeedAppend(START, whole, lines);
    FeedLog(START, log);
    FeedJob(Feed(START, whole), job);
    LogThenPart(Feed(START, whole + lines), rest, p);
    assert [] + Expected(log) == Expected(log);
  }

  /**
    A text with one tear: everything meant is read, and nothing else, exactly when the frame after the tear survives.
   */
  lemma TornLogIff(log: seq<Entry>, tear: Tear, rest: seq<Entry>, p: seq<string>)
    requires ValidTear(tear) && NoClose(rest) && Unfinished(p)
    ensures (Parse(Terminated(LogLines(log)) + TornText(tear) + Terminated(LogLines(rest) + p))
             == Expected(log) + Expected(rest)) <==> Survives(tear, rest)
  {
    if tear.Part? {
      PartIsRead(log, tear, rest, p);
    } else {
      WholeIsRead(log, tear.job, rest, p);
      SameFront(Expected(log) + Received(tear.job), Expected(log), Expected(rest));
      assert |Expected(log) + Received(tear.job)| == |Expected(log)| + |Received(tear.job)|;
      if tear.job.Beat? {
        assert Expected(log) + [] == Expected(log);
      }
    }
  }

  // ---- runs with one torn frame ----

  /** The tear that a failed write leaves when it still owed `rest` and `accepted` characters of it were taken. */
  function TearOf(job: Job, rest: seq<string>, accepted: nat): (tear: Tear)
    ensures tear.job == job
  {
    if job.Beat? then
      if accepted < 7 then Part(job, 0, accepted) else if accepted == 7 then Part(job, 1, 0) else Whole(job)
    else
      var n := if |rest| <= |JobLines(job)| then |JobLines(job)| - |rest| else 0;
      if rest == [] || accepted < |rest[0]| then Part(job, n, accepted)
      else if |rest| > 1 then Part(job, n + 1, 0)
      else Whole(job)
  }

  /** A failed write leaves a part of a frame behind. */
  predicate Tears(s: State, a: Action)
    requires Enabled(s, a)
  {
    a.WriteFail? && (a.accepted > 0 || s.threads[a.t].pc.rest != JobWrites(s.threads[a.t].job))
  }

  predicate NeverTears(s: State, run: seq<Action>)
    requires Legal(s, run)
    decreases run
  {
    run == [] || (!Tears(s, run[0]) && NeverTears(Apply(s, run[0]), run[1..]))
  }

  lemma PingCut(k: nat)
    requires k <= |PING|
    ensures PING[..k] == if k < 7 then ": ping"[..k]
                         else if k == 7 then Terminated([": ping"])
                         else Terminated([": ping", ""])
  {
    assert [": ping"][1..] == [] && [": ping", ""][1..] == [""] && [""][1..] == [];
    assert Terminated([": ping"]) == ": ping\n" && Terminated([""]) == "\n";
    assert PING == ": ping\n" + "\n";
  }

  lemma PingTear(k: nat)
    requires k <= |PING|
    ensures ValidTear(TearOf(Beat, [PING], k)) && TornText(TearOf(Beat, [PING], k)) == PING[..k]
  {
    PingCut(k);
    if k < 7 {
      assert JobLines(Beat)[..0] == [];
      assert Terminated([]) + ": ping"[..k] == ": ping"[..k];
    } else if k == 7 {
      assert JobLines(Beat)[..1] == [": ping"];
      assert Terminated([": ping"]) + "" == Terminated([": ping"]);
    }
  }

  lemma FailAdds(s: State, t: int, k: nat)
    requires Enabled(s, WriteFail(t, k))
    ensures Apply(s, WriteFail(t, k)).sse.wire.body == s.sse.wire.body + s.threads[t].pc.rest[0][..k]
    ensures Apply(s, WriteFail(t, k)).log == s.log && Apply(s, WriteFail(t, k)).lock == Free
  {
  }

  /** Where a heartbeat stands before its one write. */
  lemma BeatOwes(sse: Sse, th: Thread)
    requires th.pc.Writing? && WritingInv(sse, th) && th.pc.rest != [] && th.job.Beat?
    ensures |th.pc.rest| == 1 && th.pc.rest[0] == PING && DoneLines(th) == []
  {
    PingIsOwed(th.job, th.pc.rest);
  }

  lemma BeatInProgress(s: State, t: int)
    requires LockInv(s) && t in s.threads && s.threads[t].pc.Writing? && s.threads[t].job.Beat?
    ensures WritingInv(s.sse, s.threads[t]) && InProgress(s) == []
  {
    assert InSection(s.threads[t].pc);
  }

  /** A write that fails leaves the text so far with the tear behind it. */
  lemma BeatTears(s: State, t: int, k: nat)
    requires LockInv(s) && TextInv(s) && !s.torn && Enabled(s, WriteFail(t, k)) && s.threads[t].job.Beat?
    ensures var tear := TearOf(s.threads[t].job, s.threads[t].pc.rest, k);
            ValidTear(tear) && Apply(s, WriteFail(t, k)).sse.wire.body == Terminated(LogLines(s.log)) + TornText(tear)
  {
    hide TornText, TearOf, ValidTear, JobLines, Writes, LogLines, Terminated;
    BeatInProgress(s, t);
    BeatOwes(s.sse, s.threads[t]);
    FailAdds(s, t, k);
    BeatTearText(LogLines(s.log), s.threads[t].job, s.threads[t].pc.rest, k);
  }

  lemma BeatTearText(whole: seq<string>, job: Job, rest: seq<string>, k: nat)
    requires job.Beat? && |rest| == 1 && rest[0] == PING && k <= |PING|
    ensures ValidTear(TearOf(job, rest, k))
    ensures Terminated(whole + []) + rest[0][..k] == Terminated(whole) + TornText(TearOf(job, rest, k))
  {
    assert rest == [PING] && job == Beat;
    AppendNothing(whole);
    PingTear(k);
  }

  lemma SendTears(s: State, t: int, k: nat)
    requires LockInv(s) && TextInv(s) && !s.torn && Enabled(s, WriteFail(t, k)) && s.threads[t].job.Send?
    ensures var tear := TearOf(s.threads[t].job, s.threads[t].pc.rest, k);
            ValidTear(tear) && Apply(s, WriteFail(t, k)).sse.wire.body == Terminated(LogLines(s.log)) + TornText(tear)
  {
    hide TornText, TearOf, ValidTear, JobLines, Writes, LogLines, Terminated, InProgress, FrameLines;
    SendInProgress(s, t);
    FailAdds(s, t, k);
    SendTearText(LogLines(s.log), s.threads[t].job, s.threads[t].pc.rest, k);
  }

  lemma SendInProgress(s: State, t: int)
    requires LockInv(s) && t in s.threads && s.threads[t].pc.Writing? && s.threads[t].job.Send?
    requires s.threads[t].pc.rest != []
    ensures var lines, rest := JobLines(s.threads[t].job), s.threads[t].pc.rest;
            && |rest| <= |lines| && rest == Writes(lines)[|lines| - |rest|..]
            && InProgress(s) == lines[..|lines| - |rest|]
  {
    assert WritingInv(s.sse, s.threads[t]);
    assert InSection(s.threads[t].pc);
  }

  lemma SendTearText(whole: seq<string>, job: Job, rest: seq<string>, k: nat)
    requires job.Send? && 0 < |rest| <= |JobLines(job)| && rest == Writes(JobLines(job))[|JobLines(job)| - |rest|..]
    requires k <= |rest[0]|
    ensures ValidTear(TearOf(job, rest, k))
    ensures Terminated(whole + JobLines(job)[..|JobLines(job)| - |rest|]) + rest[0][..k]
         == Terminated(whole) + TornText(TearOf(job, rest, k))
  {
    hide Writes, JobLines, Terminated;
    var lines := JobLines(job);
    var n := |lines| - |rest|;
    WritesAt(lines, n);
    assert rest[0] == lines[n] + "\n";
    TerminatedAppend(whole, lines[..n]);
    CutLine(Terminated(whole), lines, n, k);
  }

  lemma CutLine(before: string, lines: seq<string>, n: nat, k: nat)
    requires n < |lines| && k <= |lines[n]| + 1
    ensures before + Terminated(lines[..n]) + (lines[n] + "\n")[..k]
         == before + (if k <= |lines[n]| then Terminated(lines[..n]) + lines[n][..k]
                      else if n + 1 < |lines| then Terminated(lines[..n + 1]) + lines[n + 1][..0]
                      else Terminated(lines))
  {
    if k <= |lines[n]| {
      assert (lines[n] + "\n")[..k] == lines[n][..k];
    } else {
      assert (lines[n] + "\n")[..k] == lines[n] + "\n";
      TerminatedOne(lines[..n], lines[n]);
      assert lines[..n] + [lines[n]] == lines[..n + 1];
      if n + 1 == |lines| {
        assert lines[..n + 1] == lines;
      }
    }
  }

  /** `r` is `s` with the text `base` and the entries `log` forgotten. */
  predicate Continues(s: State, r: State, base: string, log: seq<Entry>) {
    && r.lock == s.lock && r.threads == s.threads
    && r.sse.(wire := s.sse.wire) == s.sse && s.sse.wire.body == base + r.sse.wire.body && s.log == log + r.log
  }

  lemma ContinuesOk(s: State, r: State, base: string, log: seq<Entry>, t: int)
    requires Continues(s, r, base, log) && Enabled(s, WriteOk(t)) && Enabled(r, WriteOk(t))
    ensures Continues(Apply(s, WriteOk(t)), Apply(r, WriteOk(t)), base, log)
    ensures Apply(r, WriteOk(t)).torn == r.torn
  {
    AppendAssoc(base, r.sse.wire.body, s.threads[t].pc.rest[0]);
    AppendAssoc(log, r.log, [Entry(t, s.threads[t].job)]);
  }

  lemma ContinuesFail(s: State, r: State, base: string, log: seq<Entry>, t: int, k: nat)
    requires Continues(s, r, base, log) && Enabled(s, WriteFail(t, k)) && Enabled(r, WriteFail(t, k))
    ensures Continues(Apply(s, WriteFail(t, k)), Apply(r, WriteFail(t, k)), base, log)
    ensures Apply(r, WriteFail(t, k)).torn == (r.torn || Tears(s, WriteFail(t, k)))
  {
    AppendAssoc(base, r.sse.wire.body, s.threads[t].pc.rest[0][..k]);
  }

  lemma ContinuesEnter(s: State, r: State, base: string, log: seq<Entry>, t: int)
    requires Continues(s, r, base, log) && Enabled(s, Enter(t)) && Enabled(r, Enter(t))
    ensures Continues(Apply(s, Enter(t)), Apply(r, Enter(t)), base, log) && Apply(r, Enter(t)).torn == r.torn
  {
    hide JobWrites, TooLarge;
    assert Commit(r.sse).(wire := Commit(s.sse).wire) == Commit(s.sse);
  }

  lemma ContinuesElse(s: State, r: State, base: string, log: seq<Entry>, a: Action)
    requires Continues(s, r, base, log) && Enabled(s, a) && Enabled(r, a) && !a.WriteOk? && !a.WriteFail? && !a.Enter?
    ensures Continues(Apply(s, a), Apply(r, a), base, log) && Apply(r, a).torn == r.torn
  {
    hide JobWrites, TooLarge;
  }

  lemma ContinuesStep(s: State, r: State, base: string, log: seq<Entry>, a: Action)
    requires Continues(s, r, base, log) && Enabled(s, a)
    ensures Enabled(r, a) && Continues(Apply(s, a), Apply(r, a), base, log)
    ensures !Tears(s, a) && !r.torn ==> !Apply(r, a).torn
  {
    if a.WriteOk? {
      ContinuesOk(s, r, base, log, a.t);
    } else if a.WriteFail? {
      ContinuesFail(s, r, base, log, a.t, a.accepted);
    } else if a.Enter? {
      ContinuesEnter(s, r, base, log, a.t);
    } else {
      ContinuesElse(s, r, base, log, a);
    }
  }

  lemma {:induction false} ContinuesRun(s: State, r: State, base: string, log: seq<Entry>, run: seq<Action>)
    returns (r': State)
    requires Continues(s, r, base, log) && Legal(s, run) && NeverTears(s, run)
    requires LockInv(r) && TextInv(r) && !r.torn
    ensures Continues(Exec(s, run), r', base, log) && LockInv(r') && TextInv(r') && !r'.torn
    decreases run
  {
    if run == [] {
      r' := r;
    } else {
      ContinuesStep(s, r, base, log, run[0]);
      LockKept(r, run[0]);
      TextKept(r, run[0]);
      r' := ContinuesRun(Apply(s, run[0]), Apply(r, run[0]), base, log, run[1..]);
    }
  }

  lemma LogHasNoClose(s: State)
    requires LogInv(s)
    ensures NoClose(s.log)
  {
  }

  lemma InProgressUnfinished(s: State)
    requires LockInv(s)
    ensures Unfinished(InProgress(s))
  {
    InProgressLines(s, START);
    if s.lock.Held? && s.threads[s.lock.owner].pc.Writing? && s.threads[s.lock.owner].job.Send? {
      var th := s.threads[s.lock.owner];
      FrameLinesAreLines(th.job.event, th.job.data);
      NoBlank(JobLines(th.job), DoneLines(th));
    }
  }

  lemma NoBlank(lines: seq<string>, part: seq<string>)
    requires lines != [] && "" !in lines[..|lines| - 1]
    requires part <= lines && |part| < |lines|
    ensures "" !in part
  {
    assert part == lines[..|lines| - 1][..|part|];
  }

  /** A failed write, and what follows it without another tear, as texts and frames. */
  lemma TornRun(s: State, t: int, k: nat, after: seq<Action>) returns (p: seq<string>)
    requires Inv(s) && !s.torn && Enabled(s, WriteFail(t, k))
    requires Legal(Apply(s, WriteFail(t, k)), after) && NeverTears(Apply(s, WriteFail(t, k)), after)
    ensures var tear := TearOf(s.threads[t].job, s.threads[t].pc.rest, k);
            var end := Exec(Apply(s, WriteFail(t, k)), after);
            && ValidTear(tear) && s.log <= end.log && NoClose(end.log) && Unfinished(p)
            && end.sse.wire.body
               == Terminated(LogLines(s.log)) + TornText(tear) + Terminated(LogLines(end.log[|s.log|..]) + p)
  {
    var s1 := Apply(s, WriteFail(t, k));
    FailAdds(s, t, k);
    assert WritingInv(s.sse, s.threads[t]);
    if s.threads[t].job.Beat? {
      BeatTears(s, t, k);
    } else {
      SendTears(s, t, k);
    }
    InvKept(s, WriteFail(t, k));
    RunKeepsInv(s1, after);
    LogHasNoClose(Exec(s1, after));
    var r := Forget(s1);
    var r' := ContinuesRun(s1, r, s1.sse.wire.body, s.log, after);
    InProgressUnfinished(r');
    p := InProgress(r');
    assert Exec(s1, after).log[|s.log|..] == r'.log;
  }

  /** The same writer, with nothing written and nothing logged. */
  function Forget(s: State): (r: State)
    requires s.lock == Free
    ensures Continues(s, r, s.sse.wire.body, s.log) && TextInv(r) && !r.torn
    ensures LockInv(s) ==> LockInv(r)
  {
    var r := s.(sse := s.sse.(wire := s.sse.wire.(body := "")), log := [], torn := false);
    AppendNothing([]);
    r
  }

  lemma TornBodyIff(log: seq<Entry>, tear: Tear, full: seq<Entry>, p: seq<string>, body: string)
    requires ValidTear(tear) && log <= full && NoClose(full) && Unfinished(p)
    requires body == Terminated(LogLines(log)) + TornText(tear) + Terminated(LogLines(full[|log|..]) + p)
    ensures Parse(body) == Expected(full) <==> Survives(tear, full[|log|..])
  {
    var rest := full[|log|..];
    assert full == log + rest && forall e :: e in rest ==> e in full;
    ExpectedAppend(log, rest);
    TornLogIff(log, tear, rest, p);
  }

  lemma TornStateIff(s: State, t: int, k: nat, after: seq<Action>)
    requires Inv(s) && !s.torn && Enabled(s, WriteFail(t, k))
    requires Legal(Apply(s, WriteFail(t, k)), after) && NeverTears(Apply(s, WriteFail(t, k)), after)
    ensures var tear := TearOf(s.threads[t].job, s.threads[t].pc.rest, k);
            var end := Exec(Apply(s, WriteFail(t, k)), after);
            && ValidTear(tear) && s.log <= end.log
            && (Parse(end.sse.wire.body) == Expected(end.log) <==> Survives(tear, end.log[|s.log|..]))
  {
    var p := TornRun(s, t, k, after);
    var end := Exec(Apply(s, WriteFail(t, k)), after);
    TornBodyIff(s.log, TearOf(s.threads[t].job, s.threads[t].pc.rest, k), end.log, p, end.sse.wire.body);
  }

  /**
    Exactly when a run with one torn frame is read as intended: for all that happens before, for every part of a frame
    that any failed write may leave, and for whatever follows without another tear. Only the first frame completed
    after the tear decides; and if all of a frame was accepted although its last write failed, the client has an event
    that its Send did not report.
   */
  lemma TornRunIff(maxEventBytes: int, before: seq<Action>, t: int, k: nat, after: seq<Action>)
    requires Legal(Start(maxEventBytes), before) && !Exec(Start(maxEventBytes), before).torn
    requires Enabled(Exec(Start(maxEventBytes), before), WriteFail(t, k))
    requires var s1 := Apply(Exec(Start(maxEventBytes), before), WriteFail(t, k));
             Legal(s1, after) && NeverTears(s1, after)
    ensures var s := Exec(Start(maxEventBytes), before);
            var tear := TearOf(s.threads[t].job, s.threads[t].pc.rest, k);
            var end := Exec(Apply(s, WriteFail(t, k)), after);
            && ValidTear(tear) && s.log <= end.log
            && (Parse(end.sse.wire.body) == Expected(end.log) <==> Survives(tear, end.log[|s.log|..]))
  {
    StartInv(maxEventBytes);
    RunKeepsInv(Start(maxEventBytes), before);
    TornStateIff(Exec(Start(maxEventBytes), before), t, k, after);
  }

  lemma {:induction false} ExpectedAppend(a: seq<Entry>, b: seq<Entry>)
    ensures Expected(a + b) == Expected(a) + Expected(b)
  {
    if a == [] {
      assert a + b == b;
    } else {
      assert (a + b)[1..] == a[1..] + b;
      ExpectedAppend(a[1..], b);
    }
  }

  // ---- a connection that is gone ----

  ghost predicate NoneStarted(s: State) {
    forall t :: t in s.threads && s.threads[t].pc.Writing? ==> s.threads[t].pc.rest == JobWrites(s.threads[t].job)
  }

  lemma FirstIsText(job: Job)
    requires !job.Close?
    ensures JobWrites(job) != [] && JobWrites(job)[0] != ""
  {
  }

  /** What each kind of step adds to the text and the log, and where it leaves the goroutine. */
  lemma StepAdds(s: State, a: Action)
    requires Enabled(s, a)
    ensures var s' := Apply(s, a);
            if a.WriteOk? then s'.sse.wire.body == s.sse.wire.body + s.threads[a.t].pc.rest[0]
            else if a.WriteFail? then
              && s'.sse.wire.body == s.sse.wire.body + s.threads[a.t].pc.rest[0][..a.accepted]
              && s'.log == s.log && !s'.threads[a.t].pc.Writing?
            else
              && s'.sse.wire.body == s.sse.wire.body && s'.log == s.log
              && (s'.threads[a.t].pc.Writing? ==> s'.threads[a.t].pc.rest == JobWrites(s'.threads[a.t].job))
  {
    hide JobWrites, TooLarge;
  }

  /** A step that adds no text completes no frame and tears none, as long as no frame has been started. */
  lemma StepWithoutText(s: State, a: Action)
    requires LockInv(s) && NoneStarted(s) && Enabled(s, a)
    ensures s.sse.wire.body <= Apply(s, a).sse.wire.body
    ensures Apply(s, a).sse.wire.body == s.sse.wire.body ==>
              !Tears(s, a) && Apply(s, a).log == s.log && NoneStarted(Apply(s, a))
  {
    hide Apply, JobWrites;
    OneThreadMoves(s, a);
    StepAdds(s, a);
    if a.WriteOk? || a.WriteFail? {
      assert WritingInv(s.sse, s.threads[a.t]);
      FirstIsText(s.threads[a.t].job);
    }
  }

  lemma {:induction false} TextGrows(s: State, run: seq<Action>)
    requires Legal(s, run)
    ensures s.sse.wire.body <= Exec(s, run).sse.wire.body
    decreases run
  {
    if run != [] {
      TextGrows(Apply(s, run[0]), run[1..]);
    }
  }

  lemma {:induction false} RunWithoutText(s: State, run: seq<Action>)
    requires LockInv(s) && NoneStarted(s) && Legal(s, run) && Exec(s, run).sse.wire.body == s.sse.wire.body
    ensures NeverTears(s, run) && Exec(s, run).log == s.log
    decreases run
  {
    if run != [] {
      StepWithoutText(s, run[0]);
      TextGrows(Apply(s, run[0]), run[1..]);
      LockKept(s, run[0]);
      RunWithoutText(Apply(s, run[0]), run[1..]);
    }
  }

  lemma WholeIff(job: Job, rest: seq<string>, k: nat)
    requires job.Send? && rest != [] && k <= |rest[0]|
    ensures TearOf(job, rest, k).Whole? <==> |rest| == 1 && k == |rest[0]|
  {
  }

  lemma NothingFollows(tear: Tear, log: seq<Entry>, end: seq<Entry>)
    requires ValidTear(tear) && end == log
    ensures Survives(tear, end[|log|..]) <==> !(tear.Whole? && tear.job.Send?)
  {
    assert end[|log|..] == [];
  }

  lemma DisconnectState(s: State, t: int, k: nat, after: seq<Action>)
    requires Inv(s) && !s.torn && Enabled(s, WriteFail(t, k)) && Legal(Apply(s, WriteFail(t, k)), after)
    requires Exec(Apply(s, WriteFail(t, k)), after).sse.wire.body == Apply(s, WriteFail(t, k)).sse.wire.body
    ensures Exec(Apply(s, WriteFail(t, k)), after).log == s.log
    ensures NeverTears(Apply(s, WriteFail(t, k)), after)
  {
    var s1 := Apply(s, WriteFail(t, k));
    InvKept(s, WriteFail(t, k));
    FailAdds(s, t, k);
    NoWriterIfFree(s1);
    RunWithoutText(s1, after);
  }

  /**
    A client that disconnects in the middle of a frame, so that nothing more is accepted, has received exactly the
    events of the completed Sends, unless the failed write was the last of its frame and accepted in full.
   */
  lemma DisconnectIff(maxEventBytes: int, before: seq<Action>, t: int, k: nat, after: seq<Action>)
    requires Legal(Start(maxEventBytes), before) && !Exec(Start(maxEventBytes), before).torn
    requires Enabled(Exec(Start(maxEventBytes), before), WriteFail(t, k))
    requires var s1 := Apply(Exec(Start(maxEventBytes), before), WriteFail(t, k));
             Legal(s1, after) && Exec(s1, after).sse.wire.body == s1.sse.wire.body
    ensures var s := Exec(Start(maxEventBytes), before);
            var th, end := s.threads[t], Exec(Apply(s, WriteFail(t, k)), after);
            && end.log == s.log
            && (Parse(end.sse.wire.body) == Expected(end.log)
                <==> !(th.job.Send? && |th.pc.rest| == 1 && k == |th.pc.rest[0]|))
  {
    hide TearOf, Survives, Parse, Expected, LockInv, TextInv, LogInv;
    var s := Exec(Start(maxEventBytes), before);
    StartInv(maxEventBytes);
    RunKeepsInv(Start(maxEventBytes), before);
    DisconnectState(s, t, k, after);
    TornStateIff(s, t, k, after);
    var th := s.threads[t];
    NothingFollows(TearOf(th.job, th.pc.rest, k), s.log, Exec(Apply(s, WriteFail(t, k)), after).log);
    if th.job.Send? {
      WholeIff(th.job, th.pc.rest, k);
    }
  }

  lemma NoWriterIfFree(s: State)
    requires LockInv(s) && s.lock == Free
    ensures NoneStarted(s)
  {
    forall t | t in s.threads
      ensures !s.threads[t].pc.Writing?
    {
      assert InSection(s.threads[t].pc) <==> s.lock == Held(t);
    }
  }

  // ---- the shortest example ----

  lemma EventTear(left: string)
    requires left != ""
    ensures var tear := Part(Send(left, ""), 1, 0);
            && ValidTear(tear) && Stub(tear) == "" && TornText(tear) == Terminated(EventLines(left))
            && DataSoFar(tear.job, 1) == "" && KindSoFar(tear.job, 1) == Sanitize(left)
  {
    var lines := JobLines(Send(left, ""));
    assert lines[..1] == EventLines(left);
    assert Terminated(EventLines(left)) + "" == Terminated(EventLines(left));
  }

  lemma OneFrame(job: Job)
    ensures LogLines([Entry(0, job)]) + [] == JobLines(job) && Expected([Entry(0, job)]) == Received(job)
  {
    assert [Entry(0, job)][1..] == [];
    AppendNothing(JobLines(job));
    assert Received(job) + [] == Received(job);
  }

  /**
    An event line left behind: the next event is read as intended exactly when it has a name of its own, or none is
    missed.
   */
  lemma EventLineIff(left: string, event: string, data: string)
    requires left != ""
    ensures Parse(Terminated(EventLines(left) + FrameLines(event, data))) == [Intended(event, data)]
       <==> event != "" || Sanitize(left) == "message"
  {
    var tear, next := Part(Send(left, ""), 1, 0), Send(event, data);
    EventTear(left);
    OneFrame(next);
    TornLogIff([], tear, [Entry(0, next)], []);
    TerminatedAppend(EventLines(left), FrameLines(event, data));
    assert Terminated(LogLines([])) + TornText(tear) == Terminated(EventLines(left));
    assert Expected([]) + Expected([Entry(0, next)]) == [Intended(event, data)];
    assert Named(Sanitize(left)) == Sanitize(left);
  }

  /** What a nameless event is read as that follows another's event line. */
  lemma TornFrameMisleads(event: string, data: string)
    requires event != "" && Sanitize(event) != "message"
    ensures Parse(Terminated(EventLines(event) + FrameLines("", data)))
         == [Message(Sanitize(event), Newlines(data), "")] != [Intended("", data)]
  {
    var head, parts := EventLines(event), Split(Normalise(data), '\n');
    var lines := head + FrameLines("", data);
    FrameLinesAreLines(event, data);
    FrameOpens(event, data);
    assert lines == FrameLines(event, data);
    ParseLines(lines);
    FrameRoundTrip(START, event, data);
  }

  lemma {:induction false} ExecThen(s: State, a: seq<Action>, b: seq<Action>)
    requires Legal(s, a) && Legal(Exec(s, a), b)
    ensures Legal(s, a + b) && Exec(s, a + b) == Exec(Exec(s, a), b)
    decreases a
  {
    if a == [] {
      assert a + b == b;
    } else {
      assert (a + b)[1..] == a[1..] + b;
      ExecThen(Apply(s, a[0]), a[1..], b);
    }
  }

  /** A new goroutine that calls Send on an open, idle writer and is left to run. */
  lemma WholeSend(s: State, t: int, job: Job, faults: map<nat, nat>) returns (run: seq<Action>)
    requires t !in s.threads && s.lock == Free && !s.sse.done && job.Send?
    ensures Legal(s, run)
    ensures var (sse, r) := SendSpec(s.sse, faults, job.event, job.data);
            && Exec(s, run).sse == sse && Exec(s, run).lock == Free
            && Exec(s, run).threads == s.threads[t := Thread(job, Returned(r))]
  {
    var s1 := Apply(s, Spawn(t, job));
    var s2 := Apply(s1, Check(t));
    var rest := SectionIsCall(s2, t, faults);
    ExecFirst(s1, Check(t), rest);
    ExecFirst(s, Spawn(t, job), [Check(t)] + rest);
    run := [Spawn(t, job)] + ([Check(t)] + rest);
  }

  lemma {:induction false} NoFaultsNoFailure(w: Wire, ss: seq<string>)
    ensures PutAll(w, map[], ss).1
    decreases ss
  {
    if ss != [] {
      NoFaultsNoFailure(Put(w, map[], ss[0]).0, ss[1..]);
    }
  }

  /** The second Write of a Send fails having accepted nothing: the event line stays on the wire, alone. */
  lemma OnlyEventLine(s: Sse, event: string)
    requires s == Sse(false, false, 0, Wire("", [], 0, 0)) && event != ""
    ensures var (s', r) := SendSpec(s, map[1 := 0], event, "");
            r == ErrWrite && s'.wire.body == Terminated(EventLines(event)) && !s'.done && s'.maxEventBytes == 0
  {
    var faults: map<nat, nat> := map[1 := 0];
    var w := Commit(s).wire;
    FirstWrite(w, faults, event, "");
    var w' := Put(w, faults, EventPart(event)).0;
    var lines := Split(Normalise(""), '\n');
    NextWrite(w', faults, lines, 0);
    var text := "data: " + lines[0] + "\n";
    assert text[..0] == "";
    TerminatedOne([], "event: " + Sanitize(event));
    assert [] + ["event: " + Sanitize(event)] == EventLines(event);
  }

  /** There is a run that does it: goroutine 1 fails after its event line, goroutine 2's Send returns nil, misread. */
  lemma TornRunExists(event: string, data: string) returns (run: seq<Action>)
    requires event != "" && Sanitize(event) != "message"
    ensures Legal(Start(0), run)
    ensures var s := Exec(Start(0), run);
            && s.threads == map[1 := Thread(Send(event, ""), Returned(ErrWrite)),
                                2 := Thread(Send("", data), Returned(Ok))]
            && Parse(s.sse.wire.body) == [Message(Sanitize(event), Newlines(data), "")] != [Intended("", data)]
  {
    var s0 := Start(0);
    OnlyEventLine(s0.sse, event);
    var run1 := WholeSend(s0, 1, Send(event, ""), map[1 := 0]);
    var s1 := Exec(s0, run1);
    var run2 := WholeSend(s1, 2, Send("", data), map[]);
    NoFaultsNoFailure(Commit(s1.sse).wire, Writes(FrameLines("", data)));
    SendOutcome(s1.sse, map[], "", data);
    TerminatedAppend(EventLines(event), FrameLines("", data));
    TornFrameMisleads(event, data);
    ExecThen(s0, run1, run2);
    run := run1 + run2;
  }
}
