/** Any number of failed writes, anywhere in a run: exactly when a client is never misled. */
module SseTears {
  import opened Text
  import opened EventStream
  import opened SseFrame
  import opened SseWriter
  import opened SseProtocol
  import opened SseTheorems
  import opened SseMerge
  import opened SseTorn

  /** What a run leaves on the wire, in order: the frames it completed, and what its failed writes left of others. */
  datatype Item = Done(job: Job) | Left(tear: Tear)

  predicate ValidItem(item: Item) {
    match item
    case Done(job) => !job.Close?
    case Left(tear) => ValidTear(tear)
  }

  function ItemText(item: Item): string
    requires ValidItem(item)
  {
    if item.Done? then Terminated(JobLines(item.job)) else TornText(item.tear)
  }

  /** The item that one action adds. */
  function ItemsOf(s: State, a: Action): seq<Item>
    requires Enabled(s, a)
  {
    if a.WriteOk? && |s.threads[a.t].pc.rest| == 1 then [Done(s.threads[a.t].job)]
    else if a.WriteFail? then [Left(TearOf(s.threads[a.t].job, s.threads[a.t].pc.rest, a.accepted))]
    else []
  }

  // ---- a client between items ----

  /** What a client has made of the text so far: all complete lines are read, and `stub` is the unfinished one. */
  datatype Reading = Reading(c: Client, stub: string)

  const FRESH := Reading(START, "")

  function ReadLines(r: Reading, lines: seq<string>): Reading {
    if lines == [] then r else Reading(Feed(Line(r.c, r.stub + lines[0]), lines[1..]), "")
  }

  function ReadItem(r: Reading, item: Item): Reading
    requires ValidItem(item)
  {
    match item
    case Done(job) => ReadLines(r, JobLines(job))
    case Left(Whole(job)) => ReadLines(r, JobLines(job))
    case Left(Part(job, n, j)) =>
      var r' := ReadLines(r, JobLines(job)[..n]);
      Reading(r'.c, r'.stub + JobLines(job)[n][..j])
  }

  /**
    The item does not mislead the client: a completed frame is read as meant, in spite of what was left before it; a
    frame accepted in full, although its Send failed, is not read at all; and a part of a frame never misleads by
    itself.
   */
  predicate Harmless(r: Reading, item: Item) {
    match item
    case Done(job) => ReadsNext(r.c.data, r.c.kind, r.stub, job)
    case Left(Whole(job)) => SkipsNext(r.c.data, r.stub, job)
    case Left(Part(_, _, _)) => true
  }

  /** No item of the run misleads a client that has read what came before it. */
  predicate AllHarmless(r: Reading, s: State, run: seq<Action>)
    requires Legal(s, run)
    decreases run
  {
    if run == [] then true
    else
      var items := ItemsOf(s, run[0]);
      if items == [] then AllHarmless(r, Apply(s, run[0]), run[1..])
      else
        ValidItem(items[0]) && Harmless(r, items[0])
        && AllHarmless(ReadItem(r, items[0]), Apply(s, run[0]), run[1..])
  }

  /** A client that interprets the text so far has exactly the events of the completed Sends. */
  predicate ReadsRight(s: State) {
    Parse(s.sse.wire.body) == Expected(s.log)
  }

  /** At every moment of the run. */
  predicate AlwaysRight(s: State, run: seq<Action>)
    requires Legal(s, run)
    decreases run
  {
    ReadsRight(s) && (run == [] || AlwaysRight(Apply(s, run[0]), run[1..]))
  }

  // ---- one item ----

  /** A reading that only frames and parts of frames have led to. */
  predicate Plausible(r: Reading) {
    Middle(r.c, r.stub) && OneLine(r.stub)
  }

  /** The lines of a frame other than the blank one. */
  predicate FieldLines(lines: seq<string>) {
    forall l :: l in lines ==> OneLine(l) && Opens(l)
  }

  lemma OpenLine(c: Client, line: string)
    requires c.id == "" && Ended(c.data) && Opens(line)
    ensures Line(c, line).id == "" && Ended(Line(c, line).data) && Line(c, line).got == c.got
  {
    if ':' in line && line[0] != ':' {
      var i := IndexOfColon(line);
      assert line[..i][0] == line[0];
    }
  }

  lemma {:induction false} OpenLines(c: Client, lines: seq<string>)
    requires c.id == "" && Ended(c.data) && FieldLines(lines)
    ensures Feed(c, lines).id == "" && Ended(Feed(c, lines).data) && Feed(c, lines).got == c.got
    decreases lines
  {
    if lines != [] {
      OpenLine(c, lines[0]);
      OpenLines(Line(c, lines[0]), lines[1..]);
    }
  }

  lemma ReadOpenLines(r: Reading, lines: seq<string>)
    requires Plausible(r) && FieldLines(lines)
    ensures var r' := ReadLines(r, lines); Plausible(r') && r'.c.got == r.c.got
  {
    if lines != [] {
      assert lines[0] in lines && forall l :: l in lines[1..] ==> l in lines;
      assert r.stub != "" ==> (r.stub + lines[0])[0] == r.stub[0];
      assert r.stub == "" ==> r.stub + lines[0] == lines[0];
      OpenLine(r.c, r.stub + lines[0]);
      OpenLines(Line(r.c, r.stub + lines[0]), lines[1..]);
    }
  }

  /** All lines of a frame but its blank line. */
  lemma PartOpens(job: Job, n: nat)
    requires !job.Close? && n < |JobLines(job)|
    ensures FieldLines(JobLines(job)[..n])
  {
    JobLinesAreLines(job);
    LinesOpen(job);
    if job.Send? {
      FrameLinesAreLines(job.event, job.data);
      NoBlank(JobLines(job), JobLines(job)[..n]);
    }
  }

  lemma OneMoreItem(r: Reading, item: Item)
    requires Plausible(r) && ValidItem(item)
    ensures var r', meant := ReadItem(r, item), if item.Done? then Received(item.job) else [];
            && Plausible(r')
            && (r'.c.got == r.c.got + meant <==> Harmless(r, item))
  {
    match item
    case Done(job) => NextFrame(r.c, r.stub, job);
    case Left(Whole(job)) =>
      NextFrame(r.c, r.stub, job);
      assert r.c.got + [] == r.c.got;
    case Left(Part(job, n, j)) =>
      PartOpens(job, n);
      ReadOpenLines(r, JobLines(job)[..n]);
      StubIsPart(item.tear);
      var r', stub := ReadLines(r, JobLines(job)[..n]), Stub(item.tear);
      assert r'.stub == "" ==> r'.stub + stub == stub;
      OneLineAppend(r'.stub, stub);
      assert r.c.got + [] == r.c.got;
  }

  // ---- the text of the items ----

  /** A client that interprets `text` has read `lines` and is where `r` says. */
  predicate HasRead(text: string, lines: seq<string>, r: Reading) {
    && text == Terminated(lines) + r.stub && (forall l :: l in lines ==> OneLine(l)) && OneLine(r.stub)
    && r.c == Feed(START, lines) && OpensText(lines, r.stub, [])
  }

  predicate FrameLike(x: seq<string>) {
    (forall l :: l in x ==> OneLine(l)) && (x != [] ==> Opens(x[0]))
  }

  lemma MergedReading(a: seq<string>, stub: string, x: seq<string>)
    requires x != []
    ensures Feed(START, Merge(a, stub, x)) == Feed(Line(Feed(START, a), stub + x[0]), x[1..])
  {
    FeedAppend(START, a, [stub + x[0]] + x[1..]);
    assert ([stub + x[0]] + x[1..])[1..] == x[1..];
  }

  lemma LinesAreRead(text: string, lines: seq<string>, r: Reading, x: seq<string>) returns (lines': seq<string>)
    requires HasRead(text, lines, r) && FrameLike(x)
    ensures HasRead(text + Terminated(x), lines', ReadLines(r, x))
  {
    if x == [] {
      lines' := lines;
      assert text + Terminated(x) == text;
    } else {
      lines' := Merge(lines, r.stub, x);
      MergedText(lines, r.stub, x);
      MergedReading(lines, r.stub, x);
      OneLineAppend(r.stub, x[0]);
      assert x[0] in x && forall l :: l in x[1..] ==> l in x;
      assert Terminated(lines') + "" == Terminated(lines');
      assert r.stub == "" ==> r.stub + x[0] == x[0];
    }
  }

  lemma StubIsRead(text: string, lines: seq<string>, r: Reading, stub: string)
    requires HasRead(text, lines, r) && OneLine(stub) && (stub != "" ==> Opens(stub))
    ensures HasRead(text + stub, lines, Reading(r.c, r.stub + stub))
  {
    AppendAssoc(Terminated(lines), r.stub, stub);
    OneLineAppend(r.stub, stub);
    assert r.stub == "" ==> r.stub + stub == stub;
  }

  lemma ItemIsRead(text: string, lines: seq<string>, r: Reading, item: Item) returns (lines': seq<string>)
    requires HasRead(text, lines, r) && ValidItem(item)
    ensures HasRead(text + ItemText(item), lines', ReadItem(r, item))
  {
    hide HasRead, ReadLines, Terminated;
    if item.Left? && item.tear.Part? {
      var job, n := item.tear.job, item.tear.n;
      JobLinesAreLines(job);
      lines' := LinesAreRead(text, lines, r, JobLines(job)[..n]);
      StubIsPart(item.tear);
      var r' := ReadLines(r, JobLines(job)[..n]);
      StubIsRead(text + Terminated(JobLines(job)[..n]), lines', r', Stub(item.tear));
      AppendAssoc(text, Terminated(JobLines(job)[..n]), Stub(item.tear));
    } else {
      var job := if item.Done? then item.job else item.tear.job;
      JobLinesAreLines(job);
      lines' := LinesAreRead(text, lines, r, JobLines(job));
    }
  }

  /** A frame that is still being written adds nothing to what has been received. */
  lemma EndIsRead(text: string, lines: seq<string>, r: Reading, p: seq<string>)
    requires HasRead(text, lines, r) && Unfinished(p)
    ensures Parse(text + Terminated(p)) == r.c.got
  {
    assert OpensText(lines, r.stub, p);
    ParseTorn(lines, r.stub, p);
    NothingAfterTear(r.c, r.stub, p);
    MergeAfter(lines, [], r.stub, p);
    assert lines + [] == lines && [] + Merge([], r.stub, p) == Merge([], r.stub, p);
    FeedAppend(START, lines, Merge([], r.stub, p));
  }

  // ---- one action ----

  /** The same goroutines, with only the frame in progress written and nothing logged. */
  function Rest(s: State): State {
    s.(sse := s.sse.(wire := s.sse.wire.(body := Terminated(InProgress(s)))), log := [], torn := false)
  }

  lemma RestContinues(s: State, base: string)
    requires LockInv(s) && s.sse.wire.body == base + Terminated(InProgress(s))
    ensures Continues(s, Rest(s), base, s.log) && LockInv(Rest(s)) && TextInv(Rest(s)) && !Rest(s).torn
  {
    assert InProgress(Rest(s)) == InProgress(s);
    assert LogLines([]) + InProgress(s) == InProgress(s);
  }

  lemma FailAlone(r: State, t: int, k: nat)
    requires LockInv(r) && TextInv(r) && !r.torn && r.log == [] && Enabled(r, WriteFail(t, k))
    ensures var tear := TearOf(r.threads[t].job, r.threads[t].pc.rest, k);
            ValidTear(tear) && Apply(r, WriteFail(t, k)).sse.wire.body == TornText(tear)
  {
    hide TornText, TearOf, ValidTear, JobLines, Writes, FrameLines, TextInv;
    assert WritingInv(r.sse, r.threads[t]);
    if r.threads[t].job.Beat? {
      BeatTears(r, t, k);
    } else {
      SendTears(r, t, k);
    }
    assert Terminated(LogLines([])) == "";
  }

  lemma FailLeaves(s: State, base: string, t: int, k: nat)
    requires LockInv(s) && s.sse.wire.body == base + Terminated(InProgress(s)) && Enabled(s, WriteFail(t, k))
    ensures var s', item := Apply(s, WriteFail(t, k)), Left(TearOf(s.threads[t].job, s.threads[t].pc.rest, k));
            && ValidItem(item) && s'.log == s.log && s'.lock == Free && s'.sse.wire.body == base + ItemText(item)
  {
    hide TornText, TearOf, ValidTear, TextInv, Terminated, InProgress, LockInv, Tears, JobWrites;
    var r := Rest(s);
    RestContinues(s, base);
    ContinuesStep(s, r, base, s.log, WriteFail(t, k));
    FailAdds(s, t, k);
    FailAlone(r, t, k);
  }

  /** What `Apply` does to the log and to whether the run is torn. */
  lemma LogStep(r: State, a: Action)
    requires Enabled(r, a) && !a.WriteFail?
    ensures Apply(r, a).torn == r.torn
    ensures Apply(r, a).log == r.log + if ItemsOf(r, a) == [] then [] else [Entry(a.t, r.threads[a.t].job)]
  {
    hide TooLarge, JobWrites;
  }

  lemma LastLeavesNone(r: State, a: Action)
    requires LockInv(r) && Enabled(r, a) && a.WriteOk? && |r.threads[a.t].pc.rest| == 1
    ensures InProgress(Apply(r, a)) == [] && !r.threads[a.t].job.Close?
  {
    hide JobWrites, JobLines;
    assert WritingInv(r.sse, r.threads[a.t]);
  }

  lemma WriteAlone(r: State, a: Action)
    requires LockInv(r) && TextInv(r) && !r.torn && r.log == [] && Enabled(r, a) && !a.WriteFail?
    ensures var r' := Apply(r, a);
            if ItemsOf(r, a) == [] then r'.log == [] && r'.sse.wire.body == Terminated(InProgress(r'))
            else
              && r'.log == [Entry(a.t, r.threads[a.t].job)] && !r.threads[a.t].job.Close?
              && InProgress(r') == [] && r'.sse.wire.body == Terminated(JobLines(r.threads[a.t].job))
  {
    hide Apply, InProgress, JobLines, LockInv, Terminated;
    var r' := Apply(r, a);
    TextKept(r, a);
    LogStep(r, a);
    if ItemsOf(r, a) == [] {
      assert LogLines([]) + InProgress(r') == InProgress(r');
    } else {
      LastLeavesNone(r, a);
      var e := Entry(a.t, r.threads[a.t].job);
      assert [e][1..] == [] && LogLines([e]) == JobLines(e.job) + [];
      assert LogLines([e]) + [] == JobLines(e.job);
    }
  }

  lemma SameProgress(s: State, r: State)
    requires r.lock == s.lock && r.threads == s.threads
    ensures InProgress(r) == InProgress(s)
  {
  }

  lemma WriteOrElse(s: State, base: string, a: Action)
    requires LockInv(s) && s.sse.wire.body == base + Terminated(InProgress(s)) && Enabled(s, a) && !a.WriteFail?
    ensures var s', items := Apply(s, a), ItemsOf(s, a);
            if items == [] then s'.log == s.log && s'.sse.wire.body == base + Terminated(InProgress(s'))
            else
              && items[0] == Done(s.threads[a.t].job) && ValidItem(items[0])
              && s'.log == s.log + [Entry(a.t, s.threads[a.t].job)]
              && InProgress(s') == [] && s'.sse.wire.body == base + ItemText(items[0])
  {
    hide Apply, Enabled, InProgress, JobLines, LockInv, Terminated, TextInv;
    var r := Rest(s);
    RestContinues(s, base);
    ContinuesStep(s, r, base, s.log, a);
    WriteAlone(r, a);
    LogStep(s, a);
    SameProgress(Apply(s, a), Apply(r, a));
  }

  // ---- the whole run ----

  /** Where a run stands: what was written before the frame in progress, and what a client has made of it. */
  ghost predicate Stands(s: State, text: string, lines: seq<string>, r: Reading) {
    && LockInv(s) && s.sse.wire.body == text + Terminated(InProgress(s))
    && HasRead(text, lines, r) && Plausible(r) && r.c.got == Expected(s.log)
  }

  lemma StandsRight(s: State, text: string, lines: seq<string>, r: Reading)
    requires LockInv(s) && s.sse.wire.body == text + Terminated(InProgress(s)) && HasRead(text, lines, r)
    ensures ReadsRight(s) <==> r.c.got == Expected(s.log)
  {
    hide HasRead, InProgress;
    InProgressUnfinished(s);
    EndIsRead(text, lines, r, InProgress(s));
  }

  /** An action that adds no item leaves all as it stands. */
  lemma NoItem(s: State, text: string, lines: seq<string>, r: Reading, a: Action)
    requires Stands(s, text, lines, r) && Enabled(s, a) && ItemsOf(s, a) == []
    ensures Stands(Apply(s, a), text, lines, r)
  {
    hide Apply, InProgress, HasRead, Plausible;
    LockKept(s, a);
    WriteOrElse(s, text, a);
  }

  /** The text, the log and the lock after an action that adds an item. */
  lemma ItemAdded(s: State, text: string, a: Action)
    requires LockInv(s) && s.sse.wire.body == text + Terminated(InProgress(s)) && Enabled(s, a) && ItemsOf(s, a) != []
    ensures var s', item := Apply(s, a), ItemsOf(s, a)[0];
            && ValidItem(item) && LockInv(s') && s'.sse.wire.body == text + ItemText(item) + Terminated(InProgress(s'))
            && Expected(s'.log) == Expected(s.log) + if item.Done? then Received(item.job) else []
  {
    hide Apply, ItemText, ValidTear, TearOf;
    var s', item := Apply(s, a), ItemsOf(s, a)[0];
    LockKept(s, a);
    if a.WriteFail? {
      FailLeaves(s, text, a.t, a.accepted);
      assert InProgress(s') == [];
      assert Expected(s.log) + [] == Expected(s.log);
    } else {
      WriteOrElse(s, text, a);
      ExpectedAppend(s.log, [Entry(a.t, item.job)]);
      assert Expected([Entry(a.t, item.job)]) == Received(item.job) + [];
      assert Received(item.job) + [] == Received(item.job);
    }
    assert text + ItemText(item) + "" == text + ItemText(item);
  }

  /**
    An action that adds an item: all is right afterwards exactly if the item is harmless, and then all stands again.
   */
  lemma OneItem(s: State, text: string, lines: seq<string>, r: Reading, a: Action) returns (lines': seq<string>)
    requires Stands(s, text, lines, r) && Enabled(s, a) && ItemsOf(s, a) != []
    ensures var s', item := Apply(s, a), ItemsOf(s, a)[0];
            && ValidItem(item) && (ReadsRight(s') <==> Harmless(r, item))
            && (Harmless(r, item) ==> Stands(s', text + ItemText(item), lines', ReadItem(r, item)))
  {
    hide Apply, ItemsOf, InProgress, HasRead, Plausible, ItemText, ValidItem, Harmless, ReadItem, ReadsRight;
    var item := ItemsOf(s, a)[0];
    ItemAdded(s, text, a);
    OneMoreItem(r, item);
    lines' := ItemIsRead(text, lines, r, item);
    StandsRight(Apply(s, a), text + ItemText(item), lines', ReadItem(r, item));
  }

  lemma {:induction false} AlwaysReadFrom(s: State, run: seq<Action>, text: string, lines: seq<string>, r: Reading)
    requires Stands(s, text, lines, r) && Legal(s, run)
    ensures AlwaysRight(s, run) <==> AllHarmless(r, s, run)
    decreases run
  {
    StandsRight(s, text, lines, r);
    if run != [] {
      var a := run[0];
      if ItemsOf(s, a) == [] {
        NoItem(s, text, lines, r, a);
        AlwaysReadFrom(Apply(s, a), run[1..], text, lines, r);
      } else {
        var item := ItemsOf(s, a)[0];
        var lines' := OneItem(s, text, lines, r, a);
        if Harmless(r, item) {
          AlwaysReadFrom(Apply(s, a), run[1..], text + ItemText(item), lines', ReadItem(r, item));
        }
      }
    }
  }

  /**
    The round trip with any number of failed writes, each leaving any part of its frame, anywhere in any run: at every
    moment a client has received exactly the events of the completed Sends, exactly when no completed frame, and no
    frame accepted in full whose Send failed, misleads a client that has read what came before it.
   */
  lemma AlwaysReadIff(maxEventBytes: int, run: seq<Action>)
    requires Legal(Start(maxEventBytes), run)
    ensures AlwaysRight(Start(maxEventBytes), run) <==> AllHarmless(FRESH, Start(maxEventBytes), run)
  {
    assert Feed(START, []) == START && Terminated([]) + "" == "";
    AlwaysReadFrom(Start(maxEventBytes), run, "", [], FRESH);
  }
}
