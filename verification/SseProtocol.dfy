/**
  Any number of goroutines sharing one `SSEWriter`: every interleaving of Send, heartbeat ticks and Close, one atomic
  action at a time. The mutex is modelled as a lock that a goroutine takes and gives back; each Write is its own action
  and may fail after accepting only a part of its text.
 */
module SseProtocol {
  import opened Text
  import opened EventStream
  import opened SseFrame
  import opened SseWriter

  datatype Job = Send(event: string, data: string) | Beat | Close

  /**
    Where a goroutine stands. `Writing(rest)` still has `rest` to write; the lock is held in `Holding` and `Writing`.
   */
  datatype Pc = Checking | Waiting | Holding | Writing(rest: seq<string>) | Returned(outcome: Outcome)

  datatype Thread = Thread(job: Job, pc: Pc)

  datatype Lock = Free | Held(owner: int)

  datatype Entry = Entry(thread: int, job: Job)

  /** `log` lists the frames that are complete, in order; `torn` records that a failed write left a part of one. */
  datatype State = State(lock: Lock, sse: Sse, threads: map<int, Thread>, log: seq<Entry>, torn: bool)

  datatype Action =
    | Spawn(t: int, job: Job)
    | Check(t: int)
    | Acquire(t: int)
    | Enter(t: int)
    | WriteOk(t: int)
    | WriteFail(t: int, accepted: nat)
    | Release(t: int)

  function JobLines(job: Job): seq<string> {
    match job
    case Send(event, data) => FrameLines(event, data)
    case Beat => [": ping", ""]
    case Close => []
  }

  /** What the goroutine passes to successive Write calls. */
  function JobWrites(job: Job): seq<string> {
    match job
    case Send(event, data) => Writes(FrameLines(event, data))
    case Beat => [PING]
    case Close => []
  }

  function Start(maxEventBytes: int): State {
    State(Free, Sse(false, false, maxEventBytes, Wire("", [], 0, 0)), map[], [], false)
  }

  predicate Enabled(s: State, a: Action) {
    if a.Spawn? then a.t !in s.threads
    else
      a.t in s.threads &&
      var pc := s.threads[a.t].pc;
      match a
      case Check(_) => pc == Checking
      case Acquire(_) => pc == Waiting && s.lock == Free
      case Enter(_) => pc == Holding
      case WriteOk(_) => pc.Writing? && pc.rest != []
      case WriteFail(_, accepted) => pc.Writing? && pc.rest != [] && accepted <= |pc.rest[0]|
      case Release(_) => pc.Writing? && |pc.rest| == 0
  }

  function At(s: State, t: int, pc: Pc): State
    requires t in s.threads
  {
    s.(threads := s.threads[t := s.threads[t].(pc := pc)])
  }

  function Return(s: State, t: int, outcome: Outcome): State
    requires t in s.threads
  {
    At(s, t, Returned(outcome)).(lock := Free)
  }

  /** The first thing done under the lock: look at `done` again, check the size, commit the header. */
  function Entered(s: State, t: int): State
    requires t in s.threads
  {
    var job := s.threads[t].job;
    if job.Close? then Return(s.(sse := s.sse.(done := true)), t, Ok)
    else if s.sse.done then Return(s, t, ErrClosed)
    else if job.Send? && TooLarge(s.sse.maxEventBytes, job.event, job.data) then Return(s, t, ErrPayloadTooLarge)
    else At(s.(sse := Commit(s.sse)), t, Writing(JobWrites(job)))
  }

  function Accept(s: Sse, text: string): Sse {
    s.(wire := s.wire.(body := s.wire.body + text, calls := s.wire.calls + 1))
  }

  function Apply(s: State, a: Action): State
    requires Enabled(s, a)
  {
    match a
    case Spawn(t, job) => s.(threads := s.threads[t := Thread(job, if job.Close? then Waiting else Checking)])
    case Check(t) => At(s, t, if s.sse.done then Returned(ErrClosed) else Waiting)
    case Acquire(t) => At(s, t, Holding).(lock := Held(t))
    case Enter(t) => Entered(s, t)
    case WriteOk(t) =>
      var rest := s.threads[t].pc.rest;
      var s' := At(s, t, Writing(rest[1..])).(sse := Accept(s.sse, rest[0]));
      if |rest| == 1 then s'.(log := s.log + [Entry(t, s.threads[t].job)]) else s'
    case WriteFail(t, accepted) =>
      var rest := s.threads[t].pc.rest;
      var tears := accepted > 0 || rest != JobWrites(s.threads[t].job);
      Return(s, t, ErrWrite).(sse := Accept(s.sse, rest[0][..accepted]), torn := s.torn || tears)
    case Release(t) =>
      Return(s, t, Ok).(sse := s.sse.(wire := s.sse.wire.(flushes := s.sse.wire.flushes + 1)))
  }

  /** `run` can be performed from `s`, action by action. */
  predicate Legal(s: State, run: seq<Action>)
    decreases run
  {
    run == [] || (Enabled(s, run[0]) && Legal(Apply(s, run[0]), run[1..]))
  }

  function Exec(s: State, run: seq<Action>): State
    requires Legal(s, run)
    decreases run
  {
    if run == [] then s else Exec(Apply(s, run[0]), run[1..])
  }

  // ---- what a client should have received ----

  function Received(job: Job): seq<Message> {
    if job.Send? then [Intended(job.event, job.data)] else []
  }

  function Expected(log: seq<Entry>): seq<Message> {
    if log == [] then [] else Received(log[0].job) + Expected(log[1..])
  }

  function LogLines(log: seq<Entry>): seq<string> {
    if log == [] then [] else JobLines(log[0].job) + LogLines(log[1..])
  }

  // ---- invariants ----

  predicate InSection(pc: Pc) {
    pc == Holding || pc.Writing?
  }

  /** Mutual exclusion: the goroutine inside is the one that holds the lock; while one writes, the writer is open. */
  ghost predicate LockInv(s: State) {
    && (s.lock.Held? ==> s.lock.owner in s.threads)
    && (forall t :: t in s.threads ==> (InSection(s.threads[t].pc) <==> s.lock == Held(t)))
    && (forall t :: t in s.threads && s.threads[t].pc.Writing? ==> WritingInv(s.sse, s.threads[t]))
  }

  /** A writing goroutine has a frame, has written a beginning of it, and writes under an open header. */
  predicate WritingInv(sse: Sse, th: Thread)
    requires th.pc.Writing?
  {
    && !sse.done && sse.headerSent && !th.job.Close?
    && |th.pc.rest| <= |JobWrites(th.job)|
    && th.pc.rest == JobWrites(th.job)[|JobWrites(th.job)| - |th.pc.rest|..]
  }

  /** The lines written so far of the frame in progress, if there is one. */
  function InProgress(s: State): seq<string> {
    if s.lock.Held? && s.lock.owner in s.threads && s.threads[s.lock.owner].pc.Writing? then
      DoneLines(s.threads[s.lock.owner])
    else []
  }

  function DoneLines(th: Thread): seq<string>
    requires th.pc.Writing?
  {
    var lines := JobLines(th.job);
    if th.job.Send? && 0 < |th.pc.rest| <= |lines| then lines[..|lines| - |th.pc.rest|] else []
  }

  predicate TextInv(s: State) {
    !s.torn ==> s.sse.wire.body == Terminated(LogLines(s.log) + InProgress(s))
  }

  /** The header is committed once, and before any text. */
  predicate HeaderInv(s: State) {
    s.sse.wire.commits == (if s.sse.headerSent then [200] else []) && (s.sse.wire.body != "" ==> s.sse.headerSent)
  }

  predicate WroteAll(th: Thread) {
    !th.job.Close? && (th.pc == Returned(Ok) || (th.pc.Writing? && |th.pc.rest| == 0))
  }

  /** The log has exactly one entry for each goroutine whose frame is complete, and no other. */
  ghost predicate LogInv(s: State) {
    && (forall i :: 0 <= i < |s.log| ==> s.log[i].thread in s.threads && WroteAll(s.threads[s.log[i].thread])
                                         && s.log[i].job == s.threads[s.log[i].thread].job)
    && (forall i, j :: 0 <= i < j < |s.log| ==> s.log[i].thread != s.log[j].thread)
    && (forall t :: t in s.threads && WroteAll(s.threads[t]) ==> Entry(t, s.threads[t].job) in s.log)
  }

  ghost predicate Inv(s: State) {
    LockInv(s) && HeaderInv(s) && LogInv(s) && TextInv(s)
  }

  /** Every action changes one goroutine only. */
  lemma OneThreadMoves(s: State, a: Action)
    requires Enabled(s, a)
    ensures a.t in Apply(s, a).threads && Apply(s, a).threads == s.threads[a.t := Apply(s, a).threads[a.t]]
    ensures a.t in s.threads ==> Apply(s, a).threads[a.t].job == s.threads[a.t].job
    ensures a.t in s.threads <==> !a.Spawn?
  {
  }

  lemma LockKept(s: State, a: Action)
    requires LockInv(s) && Enabled(s, a)
    ensures LockInv(Apply(s, a))
  {
    hide FrameLines, Writes, TooLarge;
    OneThreadMoves(s, a);
    var s' := Apply(s, a);
    forall t | t in s'.threads
      ensures InSection(s'.threads[t].pc) <==> s'.lock == Held(t)
      ensures s'.threads[t].pc.Writing? ==> WritingInv(s'.sse, s'.threads[t])
    {
      if t != a.t {
        assert s'.threads[t] == s.threads[t];
      }
    }
  }

  lemma HeaderKept(s: State, a: Action)
    requires LockInv(s) && HeaderInv(s) && Enabled(s, a)
    ensures HeaderInv(Apply(s, a))
  {
  }

  lemma LogKept(s: State, a: Action)
    requires LockInv(s) && LogInv(s) && Enabled(s, a)
    ensures LogInv(Apply(s, a))
  {
    OneThreadMoves(s, a);
    var s' := Apply(s, a);
    if a.WriteOk? && |s.threads[a.t].pc.rest| == 1 {
      LogGrows(s, s', a.t);
    } else {
      assert s'.log == s.log;
      assert WroteAll(s'.threads[a.t]) == (a.t in s.threads && WroteAll(s.threads[a.t]));
      LogFrame(s, s', a.t);
    }
  }

  lemma LogFrame(s: State, s': State, t: int)
    requires LogInv(s) && s'.log == s.log
    requires t in s'.threads && s'.threads == s.threads[t := s'.threads[t]]
    requires WroteAll(s'.threads[t]) == (t in s.threads && WroteAll(s.threads[t]))
    requires t in s.threads ==> s'.threads[t].job == s.threads[t].job
    ensures LogInv(s')
  {
  }

  lemma LogGrows(s: State, s': State, t: int)
    requires LogInv(s) && t in s.threads && !WroteAll(s.threads[t])
    requires t in s'.threads && s'.threads == s.threads[t := s'.threads[t]]
    requires WroteAll(s'.threads[t]) && s'.threads[t].job == s.threads[t].job
    requires s'.log == s.log + [Entry(t, s.threads[t].job)]
    ensures LogInv(s')
  {
    assert s'.log[|s.log|] == Entry(t, s.threads[t].job);
    forall u | u in s'.threads && WroteAll(s'.threads[u])
      ensures Entry(u, s'.threads[u].job) in s'.log
    {
      if u != t {
        assert Entry(u, s.threads[u].job) in s.log;
      }
    }
  }

  lemma {:induction false} LogLinesAppend(log: seq<Entry>, e: Entry)
    ensures LogLines(log + [e]) == LogLines(log) + JobLines(e.job)
  {
    if log == [] {
      assert (log + [e])[1..] == [];
      assert JobLines(e.job) + LogLines([]) == JobLines(e.job);
    } else {
      assert (log + [e])[1..] == log[1..] + [e];
      LogLinesAppend(log[1..], e);
      assert JobLines(log[0].job) + (LogLines(log[1..]) + JobLines(e.job)) == LogLines(log) + JobLines(e.job);
    }
  }

  lemma {:induction false} WritesAt(lines: seq<string>, i: nat)
    requires i < |lines|
    ensures Writes(lines)[i] == lines[i] + "\n"
  {
    if i > 0 {
      WritesAt(lines[1..], i - 1);
    }
  }

  /** One more line of a frame on the wire. */
  lemma LineWritten(before: seq<string>, lines: seq<string>, n: nat)
    requires n < |lines|
    ensures Terminated(before + lines[..n]) + (lines[n] + "\n") == Terminated(before + lines[..n + 1])
  {
    TerminatedOne(before + lines[..n], lines[n]);
    assert before + lines[..n] + [lines[n]] == before + lines[..n + 1];
  }

  lemma PingWritten(before: seq<string>)
    ensures Terminated(before) + PING == Terminated(before + JobLines(Beat))
  {
    TerminatedOne(before, ": ping");
    TerminatedOne(before + [": ping"], "");
    assert before + [": ping"] + [""] == before + JobLines(Beat);
    assert Terminated(before) + ": ping\n" + "\n" == Terminated(before) + PING;
  }

  lemma SendWritten(s: State, t: int)
    requires LockInv(s) && TextInv(s) && Enabled(s, WriteOk(t)) && !s.torn && s.threads[t].job.Send?
    ensures TextInv(Apply(s, WriteOk(t)))
  {
    var th := s.threads[t];
    var s' := Apply(s, WriteOk(t));
    var lines := JobLines(th.job);
    assert WritingInv(s.sse, th);
    var n := |lines| - |th.pc.rest|;
    WritesAt(lines, n);
    LineWritten(LogLines(s.log), lines, n);
    assert s'.sse.wire.body == Terminated(LogLines(s.log) + lines[..n + 1]);
    if |th.pc.rest| == 1 {
      LogLinesAppend(s.log, Entry(t, th.job));
      assert lines[..n + 1] == lines;
      assert LogLines(s'.log) + [] == LogLines(s'.log);
    }
  }

  /** What the one write of a heartbeat does, apart from the text it amounts to. */
  lemma BeatStep(s: State, t: int)
    requires LockInv(s) && Enabled(s, WriteOk(t)) && s.threads[t].job.Beat?
    ensures var s' := Apply(s, WriteOk(t));
            && s'.log == s.log + [Entry(t, s.threads[t].job)] && s'.torn == s.torn
            && s'.sse.wire.body == s.sse.wire.body + PING
            && InProgress(s) == [] && InProgress(s') == []
  {
    assert WritingInv(s.sse, s.threads[t]);
    PingIsOwed(s.threads[t].job, s.threads[t].pc.rest);
  }

  lemma BeatWritten(s: State, t: int)
    requires LockInv(s) && TextInv(s) && Enabled(s, WriteOk(t)) && !s.torn && s.threads[t].job.Beat?
    ensures TextInv(Apply(s, WriteOk(t)))
  {
    BeatStep(s, t);
    BeatText(s.log, t, s.threads[t].job);
  }

  lemma BeatText(log: seq<Entry>, t: int, job: Job)
    requires job.Beat?
    ensures Terminated(LogLines(log) + []) + PING == Terminated(LogLines(log + [Entry(t, job)]) + [])
  {
    PingWritten(LogLines(log));
    LogLinesAppend(log, Entry(t, job));
    AppendNothing(LogLines(log));
    AppendNothing(LogLines(log + [Entry(t, job)]));
  }

  lemma PingIsOwed(job: Job, rest: seq<string>)
    requires job.Beat? && rest != [] && |rest| <= |JobWrites(job)|
    requires rest == JobWrites(job)[|JobWrites(job)| - |rest|..]
    ensures |rest| == 1 && rest[0] == PING
  {
  }

  lemma AppendNothing(lines: seq<string>)
    ensures lines + [] == lines
  {
  }

  lemma TerminatedOne(lines: seq<string>, line: string)
    ensures Terminated(lines + [line]) == Terminated(lines) + (line + "\n")
  {
    TerminatedAppend(lines, [line]);
    assert [line][1..] == [];
    assert line + "\n" + "" == line + "\n";
  }

  lemma TextKept(s: State, a: Action)
    requires LockInv(s) && TextInv(s) && Enabled(s, a)
    ensures TextInv(Apply(s, a))
  {
    var s' := Apply(s, a);
    if s'.torn {
    } else if a.WriteOk? {
      assert WritingInv(s.sse, s.threads[a.t]);
      if s.threads[a.t].job.Send? {
        SendWritten(s, a.t);
      } else {
        BeatWritten(s, a.t);
      }
    } else if a.WriteFail? {
      var th := s.threads[a.t];
      assert th.pc.rest[0][..0] == "";
      assert s'.sse.wire.body == s.sse.wire.body;
      assert InProgress(s) == [];
    } else {
      OneThreadMoves(s, a);
      assert s'.log == s.log && s'.sse.wire.body == s.sse.wire.body;
      InProgressKept(s, a);
    }
  }

  lemma InProgressKept(s: State, a: Action)
    requires LockInv(s) && Enabled(s, a) && !a.WriteOk? && !a.WriteFail?
    ensures InProgress(Apply(s, a)) == InProgress(s)
  {
    var s' := Apply(s, a);
    match a
    case Spawn(t, job) =>
    case Check(t) =>
    case Acquire(t) =>
    case Enter(t) =>
      var th := s'.threads[t];
      if th.pc.Writing? && th.job.Send? {
        assert JobLines(th.job)[..0] == [];
      }
    case Release(t) =>
  }

  lemma InvKept(s: State, a: Action)
    requires Inv(s) && Enabled(s, a)
    ensures Inv(Apply(s, a))
  {
    LockKept(s, a);
    HeaderKept(s, a);
    LogKept(s, a);
    TextKept(s, a);
  }

  lemma {:induction false} RunKeepsInv(s: State, run: seq<Action>)
    requires Inv(s) && Legal(s, run)
    ensures Inv(Exec(s, run))
    decreases run
  {
    if run != [] {
      InvKept(s, run[0]);
      RunKeepsInv(Apply(s, run[0]), run[1..]);
    }
  }
}
