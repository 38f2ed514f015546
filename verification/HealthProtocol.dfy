/**
  Any number of health requests over a fixed set of checkers, one atomic action at a time: requests join or launch
  runs, runs check and publish their result, waiters carry results into each request's channel, collectors drain it
  or time out.
 */
module HealthProtocol {
  import opened HealthCollect

  datatype Phase = Spawned | Checking | Decided | Stored | Closed | Over

  /**
    One goroutine of healthCheckerState.run. Its Check gets the context of the request `launcher`; `verdict` is what
    Check answered, `result` the published result.
   */
  datatype Run = Run(name: string, launcher: nat, phase: Phase, verdict: seq<Verdict>, result: seq<Result>)

  /** One goroutine of waitHealthRun. */
  datatype Waiter = Waiting | Sending | Sent | Gone

  datatype Stage = Starting | Collecting | Answered

  /** `todo` are the checkers the starting loop has not come to, `joined` the runs it got, `queue` the channel. */
  datatype Request = Request(stage: Stage, ctxDone: bool, todo: set<string>, joined: map<string, nat>,
                             waiters: map<string, Waiter>, queue: seq<Result>, sends: nat, coll: Collection)

  /** `checkers` says of every name whether its checker is non-nil; `current` has the run in flight of a name. */
  datatype State = State(checkers: map<string, bool>, current: map<string, nat>, runs: seq<Run>, requests: seq<Request>)

  datatype Action =
    | Arrive
    | StartNil(r: nat, n: string)
    | StartCheck(r: nat, n: string)
    | BeginCollect(r: nat)
    | RunBegin(i: nat)
    | RunEnd(i: nat, verdict: Verdict)
    | Store(i: nat)
    | CloseDone(i: nat)
    | Clear(i: nat)
    | WaitDone(r: nat, n: string)
    | WaitSend(r: nat, n: string)
    | WaitGone(r: nat, n: string)
    | Take(r: nat)
    | Expire(r: nat)
    | Answer(r: nat)
    | Cancel(r: nat)

  function Init(checkers: map<string, bool>): State {
    State(checkers, map[], [], [])
  }

  /** The channel has room for one result per checker. */
  function Capacity(s: State): nat {
    |s.checkers.Keys|
  }

  predicate IsDone(s: State, i: nat) {
    i < |s.runs| && (s.runs[i].phase == Closed || s.runs[i].phase == Over)
  }

  predicate RunAt(s: State, i: nat, phase: Phase) {
    i < |s.runs| && s.runs[i].phase == phase
  }

  predicate WaiterAt(s: State, r: nat, n: string, w: Waiter) {
    r < |s.requests| && n in s.requests[r].waiters && s.requests[r].waiters[n] == w && n in s.requests[r].joined
  }

  predicate StageAt(s: State, r: nat, stage: Stage) {
    r < |s.requests| && s.requests[r].stage == stage
  }

  predicate Enabled(s: State, a: Action) {
    match a
    case Arrive => true
    case StartNil(r, n) => StageAt(s, r, Starting) && n in s.requests[r].todo && n in s.checkers && !s.checkers[n]
    case StartCheck(r, n) => StageAt(s, r, Starting) && n in s.requests[r].todo && n in s.checkers && s.checkers[n]
    case BeginCollect(r) => StageAt(s, r, Starting) && s.requests[r].todo == {}
    case RunBegin(i) => RunAt(s, i, Spawned)
    case RunEnd(i, _) => RunAt(s, i, Checking)
    case Store(i) => RunAt(s, i, Decided) && s.runs[i].verdict != []
    case CloseDone(i) => RunAt(s, i, Stored)
    case Clear(i) => RunAt(s, i, Closed)
    case WaitDone(r, n) => WaiterAt(s, r, n, Waiting) && IsDone(s, s.requests[r].joined[n])
    case WaitSend(r, n) => CanSend(s, r, n) && |s.requests[r].queue| < Capacity(s)
    case WaitGone(r, n) => WaiterAt(s, r, n, Waiting) && s.requests[r].ctxDone
    case Take(r) => StageAt(s, r, Collecting) && s.requests[r].coll.pending != {} && s.requests[r].queue != []
    case Expire(r) => StageAt(s, r, Collecting) && s.requests[r].coll.pending != {} && s.requests[r].ctxDone
    case Answer(r) => StageAt(s, r, Collecting) && s.requests[r].coll.pending == {}
    case Cancel(r) => r < |s.requests| && !s.requests[r].ctxDone
  }

  /** The waiter has chosen to send, and there is a result to send; it may still find the channel full. */
  predicate CanSend(s: State, r: nat, n: string) {
    && WaiterAt(s, r, n, Sending)
    && s.requests[r].joined[n] < |s.runs| && s.runs[s.requests[r].joined[n]].result != []
  }

  function WithRun(s: State, i: nat, run: Run): State
    requires i < |s.runs|
  {
    s.(runs := s.runs[i := run])
  }

  function WithRequest(s: State, r: nat, q: Request): State
    requires r < |s.requests|
  {
    s.(requests := s.requests[r := q])
  }

  // ---- what each action does to one request ----

  function Fresh(checkers: map<string, bool>): Request {
    Request(Starting, false, checkers.Keys, map[], map[], [], 0, Collection({}, map[]))
  }

  function NilChecker(q: Request, n: string): Request {
    q.(todo := q.todo - {n}, coll := q.coll.(results := q.coll.results[n := ERROR]))
  }

  function Join(q: Request, n: string, i: nat): Request {
    q.(todo := q.todo - {n}, joined := q.joined[n := i], waiters := q.waiters[n := Waiting],
       coll := q.coll.(pending := q.coll.pending + {n}))
  }

  function Wait(q: Request, n: string, w: Waiter): Request {
    q.(waiters := q.waiters[n := w])
  }

  function Push(q: Request, n: string, res: Result): Request {
    q.(waiters := q.waiters[n := Sent], sends := q.sends + 1, queue := q.queue + [res])
  }

  function Pop(q: Request): Request
    requires q.queue != []
  {
    q.(queue := q.queue[1..], coll := Receive(q.coll, q.queue[0]))
  }

  // ---- what each action does to the state ----

  /** The index of the run that `start` hands out: the one in flight, or the next new one. */
  function Handed(s: State, n: string): nat {
    HandOut(FlightOf(s, n), |s.runs|)
  }

  function FlightOf(s: State, n: string): Flight {
    if n in s.current then InFlight(s.current[n]) else Idle
  }

  /** start, under the checker's mutex. */
  function Launch(s: State, n: string, r: nat): State {
    if n in s.current then s
    else s.(current := s.current[n := |s.runs|], runs := s.runs + [Run(n, r, Spawned, [], [])])
  }

  /** The last action of a run, under the checker's mutex: it clears `current` only if it is still this run. */
  function Cleared(s: State, i: nat): State
    requires i < |s.runs|
  {
    var n := s.runs[i].name;
    var s' := WithRun(s, i, s.runs[i].(phase := Over));
    if n in s.current && s.current[n] == i then s'.(current := s.current - {n}) else s'
  }

  function Apply(s: State, a: Action): State
    requires Enabled(s, a)
  {
    match a
    case Arrive => s.(requests := s.requests + [Fresh(s.checkers)])
    case StartNil(r, n) => WithRequest(s, r, NilChecker(s.requests[r], n))
    case StartCheck(r, n) => WithRequest(Launch(s, n, r), r, Join(s.requests[r], n, Handed(s, n)))
    case BeginCollect(r) => WithRequest(s, r, s.requests[r].(stage := Collecting))
    case RunBegin(i) => WithRun(s, i, s.runs[i].(phase := Checking))
    case RunEnd(i, v) => WithRun(s, i, s.runs[i].(phase := Decided, verdict := s.runs[i].verdict + [v]))
    case Store(i) =>
      var run := s.runs[i];
      WithRun(s, i, run.(phase := Stored, result := run.result + [Result(run.name, StatusOf(run.verdict[0]))]))
    case CloseDone(i) => WithRun(s, i, s.runs[i].(phase := Closed))
    case Clear(i) => Cleared(s, i)
    case WaitDone(r, n) => WithRequest(s, r, Wait(s.requests[r], n, Sending))
    case WaitSend(r, n) => WithRequest(s, r, Push(s.requests[r], n, s.runs[s.requests[r].joined[n]].result[0]))
    case WaitGone(r, n) => WithRequest(s, r, Wait(s.requests[r], n, Gone))
    case Take(r) => WithRequest(s, r, Pop(s.requests[r]))
    case Expire(r) => WithRequest(s, r, s.requests[r].(coll := TimeOut(s.requests[r].coll)))
    case Answer(r) => WithRequest(s, r, s.requests[r].(stage := Answered))
    case Cancel(r) => WithRequest(s, r, s.requests[r].(ctxDone := true))
  }

  predicate Legal(s: State, run: seq<Action>)
    decreases run
  {
    run == [] || (Enabled(s, run[0]) && Legal(Apply(s, run[0]), run[1..]))
  }

  function Exec(s: State, run: seq<Action>): State
    requires Legal(s, run)
    decreases run
  {
    if run == [] then s else Exec(Apply(s, run[0]), run[1..])
  }

  // ---- invariants ----

  /** Which parts of a run are filled in at which phase. */
  predicate RunInv(checkers: map<string, bool>, run: Run) {
    && run.name in checkers && checkers[run.name]
    && |run.verdict| == (if run.phase == Spawned || run.phase == Checking then 0 else 1)
    && run.result == (if run.phase == Spawned || run.phase == Checking || run.phase == Decided then []
                      else [Result(run.name, StatusOf(run.verdict[0]))])
  }

  /** `current` is exactly the runs that are not over: at most one a name. */
  ghost predicate CurrentInv(s: State) {
    && (forall n :: n in s.current ==>
         s.current[n] < |s.runs| && s.runs[s.current[n]].name == n && s.runs[s.current[n]].phase != Over)
    && (forall i :: 0 <= i < |s.runs| && s.runs[i].phase != Over ==>
         s.runs[i].name in s.current && s.current[s.runs[i].name] == i)
  }

  ghost predicate RunsInv(s: State) {
    (forall i :: 0 <= i < |s.runs| ==> RunInv(s.checkers, s.runs[i])) && CurrentInv(s)
  }

  function WaitersAt(q: Request, w: Waiter): set<string> {
    set n | n in q.waiters && q.waiters[n] == w
  }

  function SentNames(q: Request): set<string> {
    WaitersAt(q, Sent)
  }

  /** Every checker is in exactly one place: not started, pending, or answered for. */
  predicate PlaceOf(checkers: map<string, bool>, q: Request, n: string) {
    && (n in checkers <==> n in q.todo || n in q.coll.pending || n in q.coll.results)
    && !(n in q.todo && n in q.coll.pending) && !(n in q.todo && n in q.coll.results)
    && !(n in q.coll.pending && n in q.coll.results)
    && (n in q.joined <==> n in checkers && checkers[n] && n !in q.todo)
    && (n in q.waiters <==> n in q.joined)
    && (n in q.coll.pending ==> n in q.joined)
    && (q.stage == Starting && n in q.joined ==> n in q.coll.pending)
  }

  ghost predicate PlacesInv(checkers: map<string, bool>, q: Request) {
    && (forall n {:trigger PlaceOf(checkers, q, n)} :: PlaceOf(checkers, q, n))
    && (q.stage != Starting ==> q.todo == {})
    && (q.stage == Answered ==> q.coll.pending == {})
  }

  /** What a waiter's state says of the run it waits for, and of the channel. */
  ghost predicate WaiterInv(runs: seq<Run>, q: Request, n: string) {
    n in q.waiters ==>
      && n in q.joined && q.joined[n] < |runs| && runs[q.joined[n]].name == n
      && (q.waiters[n] == Sending || q.waiters[n] == Sent ==> runs[q.joined[n]].result != [])
      && (n in q.coll.pending && q.waiters[n] == Sent ==> exists k :: 0 <= k < |q.queue| && q.queue[k].name == n)
      && (q.waiters[n] == Gone ==> q.ctxDone)
      && (n !in q.coll.pending && q.waiters[n] != Sent ==> q.coll.pending == {} && q.stage != Starting)
  }

  /** A queued result is the result of the run its request joined, sent by its waiter, and still awaited. */
  predicate QueuedBy(runs: seq<Run>, q: Request, res: Result) {
    && res.name in q.waiters && q.waiters[res.name] == Sent && res.name in q.joined
    && q.joined[res.name] < |runs| && runs[q.joined[res.name]].result == [res]
    && (res.name in q.coll.pending || (q.coll.pending == {} && q.stage != Starting))
  }

  ghost predicate QueueInv(runs: seq<Run>, q: Request) {
    && (forall k :: 0 <= k < |q.queue| ==> QueuedBy(runs, q, q.queue[k]))
    && (forall j, k :: 0 <= j < k < |q.queue| ==> q.queue[j].name != q.queue[k].name)
    && q.sends == |SentNames(q)| && |q.queue| <= q.sends
  }

  /** Where an answered status came from. */
  predicate AnswerFrom(checkers: map<string, bool>, runs: seq<Run>, q: Request, n: string) {
    n in q.coll.results && n in checkers ==>
      var status := q.coll.results[n];
      if !checkers[n] then status == ERROR
      else
        n in q.joined && q.joined[n] < |runs| &&
        (runs[q.joined[n]].result == [Result(n, status)] || (status == ERROR && q.ctxDone))
  }

  ghost predicate WaitersInv(runs: seq<Run>, q: Request) {
    forall n {:trigger WaiterInv(runs, q, n)} :: WaiterInv(runs, q, n)
  }

  ghost predicate AnswersInv(checkers: map<string, bool>, runs: seq<Run>, q: Request) {
    forall n {:trigger AnswerFrom(checkers, runs, q, n)} :: AnswerFrom(checkers, runs, q, n)
  }

  ghost predicate RequestInv(checkers: map<string, bool>, runs: seq<Run>, q: Request) {
    PlacesInv(checkers, q) && WaitersInv(runs, q) && QueueInv(runs, q) && AnswersInv(checkers, runs, q)
  }

  ghost predicate Inv(s: State) {
    RunsInv(s) && forall r :: 0 <= r < |s.requests| ==> RequestInv(s.checkers, s.runs, s.requests[r])
  }

  // ---- runs ----

  /** Later runs: names stay, and a published result is never changed. */
  ghost predicate Extends(runs: seq<Run>, runs': seq<Run>) {
    && |runs| <= |runs'|
    && forall i :: 0 <= i < |runs| ==>
         && runs'[i].name == runs[i].name && runs'[i].launcher == runs[i].launcher
         && (runs[i].result != [] ==> runs'[i].result == runs[i].result)
  }

  lemma PhaseKept(s: State, i: nat, run: Run)
    requires RunsInv(s) && i < |s.runs| && RunInv(s.checkers, run)
    requires run.name == s.runs[i].name && run.launcher == s.runs[i].launcher
    requires run.phase != Over && s.runs[i].phase != Over
    requires s.runs[i].result != [] ==> run.result == s.runs[i].result
    ensures RunsInv(WithRun(s, i, run)) && Extends(s.runs, WithRun(s, i, run).runs)
  {
  }

  lemma LaunchKept(s: State, n: string, r: nat)
    requires RunsInv(s) && n in s.checkers && s.checkers[n]
    ensures RunsInv(Launch(s, n, r)) && Extends(s.runs, Launch(s, n, r).runs)
    ensures Handed(s, n) < |Launch(s, n, r).runs| && Launch(s, n, r).runs[Handed(s, n)].name == n
  {
  }

  /** The guard in the deferred function is never false: `current` still is the run that ends. */
  lemma ClearKept(s: State, i: nat)
    requires RunsInv(s) && RunAt(s, i, Closed)
    ensures s.runs[i].name in s.current && s.current[s.runs[i].name] == i
    ensures RunsInv(Cleared(s, i)) && Extends(s.runs, Cleared(s, i).runs)
  {
  }

  /** The protocol's first and last step of a run do to each checker's `current` what its two methods do. */
  lemma CurrentIsTheField(s: State, n: string, r: nat, i: nat, m: string)
    requires RunsInv(s) && RunAt(s, i, Closed)
    ensures FlightOf(Launch(s, n, r), m)
         == if m == n then InFlight(HandOut(FlightOf(s, n), |s.runs|)) else FlightOf(s, m)
    ensures FlightOf(Cleared(s, i), m) == AfterEnd(FlightOf(s, m), i)
  {
    if m in s.current && s.current[m] == i {
      assert s.runs[i].name == m;
    }
  }

  lemma RunsKept(s: State, a: Action)
    requires RunsInv(s) && Enabled(s, a)
    ensures RunsInv(Apply(s, a)) && Extends(s.runs, Apply(s, a).runs) && Apply(s, a).checkers == s.checkers
  {
    var s' := Apply(s, a);
    if a.StartCheck? {
      LaunchKept(s, a.n, a.r);
    } else if a.Clear? {
      ClearKept(s, a.i);
    } else if IsRunAction(a) {
      assert RunInv(s.checkers, s.runs[a.i]);
      PhaseKept(s, a.i, s'.runs[a.i]);
    } else {
      assert s'.runs == s.runs && s'.current == s.current;
    }
  }

  predicate IsRunAction(a: Action) {
    a.RunBegin? || a.RunEnd? || a.Store? || a.CloseDone? || a.Clear?
  }

  // ---- one request ----

  /** Nothing in a request's invariant is lost when runs are added or move on. */
  lemma RequestSurvives(checkers: map<string, bool>, runs: seq<Run>, runs': seq<Run>, q: Request)
    requires RequestInv(checkers, runs, q) && Extends(runs, runs')
    ensures RequestInv(checkers, runs', q)
  {
    forall n
      ensures WaiterInv(runs', q, n) && AnswerFrom(checkers, runs', q, n)
    {
      assert WaiterInv(runs, q, n) && AnswerFrom(checkers, runs, q, n);
    }
    forall k | 0 <= k < |q.queue|
      ensures QueuedBy(runs', q, q.queue[k])
    {
      assert QueuedBy(runs, q, q.queue[k]);
    }
  }

  lemma FreshInv(checkers: map<string, bool>, runs: seq<Run>)
    ensures RequestInv(checkers, runs, Fresh(checkers))
  {
    assert SentNames(Fresh(checkers)) == {};
  }

  /** The queue's invariant depends on the channel, the waiters that have sent, and who is awaited. */
  lemma QueueUnmoved(runs: seq<Run>, q: Request, q': Request)
    requires QueueInv(runs, q) && q'.queue == q.queue && q'.sends == q.sends
    requires forall n :: n in q.waiters && q.waiters[n] == Sent <==> n in q'.waiters && q'.waiters[n] == Sent
    requires forall n :: n in q.joined && n in q.waiters ==> n in q'.joined && q'.joined[n] == q.joined[n]
    requires forall n :: n in q.waiters ==> Awaited(q, n) ==> Awaited(q', n)
    ensures QueueInv(runs, q')
  {
    assert SentNames(q') == SentNames(q);
    forall k | 0 <= k < |q'.queue|
      ensures QueuedBy(runs, q', q'.queue[k])
    {
      assert QueuedBy(runs, q, q.queue[k]);
      assert Awaited(q, q.queue[k].name);
    }
  }

  predicate Awaited(q: Request, n: string) {
    n in q.coll.pending || (q.coll.pending == {} && q.stage != Starting)
  }

  lemma NilCheckerKept(checkers: map<string, bool>, runs: seq<Run>, q: Request, n: string)
    requires RequestInv(checkers, runs, q) && q.stage == Starting && n in q.todo && n in checkers && !checkers[n]
    ensures RequestInv(checkers, runs, NilChecker(q, n))
  {
    var q' := NilChecker(q, n);
    forall m
      ensures PlaceOf(checkers, q', m) && WaiterInv(runs, q', m) && AnswerFrom(checkers, runs, q', m)
    {
      assert PlaceOf(checkers, q, m) && WaiterInv(runs, q, m) && AnswerFrom(checkers, runs, q, m);
    }
    QueueUnmoved(runs, q, q');
  }

  lemma JoinKept(checkers: map<string, bool>, runs: seq<Run>, q: Request, n: string, i: nat)
    requires RequestInv(checkers, runs, q) && q.stage == Starting && n in q.todo && n in checkers && checkers[n]
    requires i < |runs| && runs[i].name == n
    ensures RequestInv(checkers, runs, Join(q, n, i))
  {
    var q' := Join(q, n, i);
    assert PlaceOf(checkers, q, n);
    forall m
      ensures PlaceOf(checkers, q', m) && WaiterInv(runs, q', m) && AnswerFrom(checkers, runs, q', m)
    {
      assert PlaceOf(checkers, q, m) && WaiterInv(runs, q, m) && AnswerFrom(checkers, runs, q, m);
    }
    QueueUnmoved(runs, q, q');
  }

  lemma WaitKept(checkers: map<string, bool>, runs: seq<Run>, q: Request, n: string, w: Waiter)
    requires RequestInv(checkers, runs, q) && n in q.waiters && q.waiters[n] == Waiting && n in q.joined
    requires if w == Sending then q.joined[n] < |runs| && runs[q.joined[n]].result != [] else w == Gone && q.ctxDone
    ensures RequestInv(checkers, runs, Wait(q, n, w))
  {
    var q' := Wait(q, n, w);
    forall m
      ensures PlaceOf(checkers, q', m) && WaiterInv(runs, q', m) && AnswerFrom(checkers, runs, q', m)
    {
      assert PlaceOf(checkers, q, m) && WaiterInv(runs, q, m) && AnswerFrom(checkers, runs, q, m);
    }
    QueueUnmoved(runs, q, q');
  }

  lemma PushKept(checkers: map<string, bool>, runs: seq<Run>, q: Request, n: string, res: Result)
    requires RequestInv(checkers, runs, q) && n in q.waiters && q.waiters[n] == Sending && n in q.joined
    requires q.joined[n] < |runs| && runs[q.joined[n]].result == [res] && res.name == n
    ensures RequestInv(checkers, runs, Push(q, n, res))
  {
    var q' := Push(q, n, res);
    forall m
      ensures PlaceOf(checkers, q', m) && WaiterInv(runs, q', m) && AnswerFrom(checkers, runs, q', m)
    {
      assert PlaceOf(checkers, q, m) && WaiterInv(runs, q, m) && AnswerFrom(checkers, runs, q, m);
      if m == n {
        assert q'.queue[|q.queue|].name == n;
      } else if exists k :: 0 <= k < |q.queue| && q.queue[k].name == m {
        var k :| 0 <= k < |q.queue| && q.queue[k].name == m;
        assert q'.queue[k].name == m;
      }
    }
    assert WaiterInv(runs, q, n);
    PushQueue(runs, q, n, res);
  }

  lemma PushQueue(runs: seq<Run>, q: Request, n: string, res: Result)
    requires QueueInv(runs, q) && n in q.waiters && q.waiters[n] == Sending && n in q.joined
    requires q.joined[n] < |runs| && runs[q.joined[n]].result == [res] && res.name == n && Awaited(q, n)
    ensures QueueInv(runs, Push(q, n, res))
  {
    var q' := Push(q, n, res);
    assert SentNames(q') == SentNames(q) + {n};
    forall k | 0 <= k < |q'.queue|
      ensures QueuedBy(runs, q', q'.queue[k]) && (k < |q.queue| ==> q'.queue[k].name != n)
    {
      if k < |q.queue| {
        assert QueuedBy(runs, q, q.queue[k]);
      }
    }
  }

  /** What the collector takes from the channel it is always waiting for, so each receive shrinks the pending set. */
  lemma PopKept(checkers: map<string, bool>, runs: seq<Run>, q: Request)
    requires RequestInv(checkers, runs, q) && q.queue != [] && q.coll.pending != {} && q.stage == Collecting
    ensures RequestInv(checkers, runs, Pop(q))
    ensures q.queue[0].name in q.coll.pending && Pop(q).coll.pending == q.coll.pending - {q.queue[0].name}
  {
    var q', n := Pop(q), q.queue[0].name;
    assert QueuedBy(runs, q, q.queue[0]);
    forall m
      ensures PlaceOf(checkers, q', m) && WaiterInv(runs, q', m) && AnswerFrom(checkers, runs, q', m)
    {
      assert PlaceOf(checkers, q, m) && WaiterInv(runs, q, m) && AnswerFrom(checkers, runs, q, m);
      if m != n && exists k :: 0 <= k < |q.queue| && q.queue[k].name == m {
        var k :| 0 <= k < |q.queue| && q.queue[k].name == m;
        assert q'.queue[k - 1].name == m;
      }
    }
    PopQueue(runs, q);
  }

  lemma PopQueue(runs: seq<Run>, q: Request)
    requires QueueInv(runs, q) && q.queue != [] && q.coll.pending != {} && q.stage == Collecting
    ensures QueueInv(runs, Pop(q))
  {
    var q' := Pop(q);
    assert SentNames(q') == SentNames(q);
    forall k | 0 <= k < |q'.queue|
      ensures QueuedBy(runs, q', q'.queue[k])
    {
      assert QueuedBy(runs, q, q.queue[k + 1]);
    }
  }

  lemma ExpireKept(checkers: map<string, bool>, runs: seq<Run>, q: Request)
    requires RequestInv(checkers, runs, q) && q.ctxDone && q.stage == Collecting
    ensures RequestInv(checkers, runs, q.(coll := TimeOut(q.coll)))
  {
    var q' := q.(coll := TimeOut(q.coll));
    forall m
      ensures PlaceOf(checkers, q', m) && WaiterInv(runs, q', m) && AnswerFrom(checkers, runs, q', m)
    {
      assert PlaceOf(checkers, q, m) && WaiterInv(runs, q, m) && AnswerFrom(checkers, runs, q, m);
    }
    QueueUnmoved(runs, q, q');
  }

  lemma StageKept(checkers: map<string, bool>, runs: seq<Run>, q: Request, q': Request)
    requires RequestInv(checkers, runs, q) && (q.ctxDone ==> q'.ctxDone)
    requires q' == q.(stage := q'.stage, ctxDone := q'.ctxDone)
    requires q'.stage != q.stage ==> q.todo == {} && q'.stage != Starting
    requires q'.stage != q.stage && q'.stage == Answered ==> q.coll.pending == {}
    ensures RequestInv(checkers, runs, q')
  {
    forall m
      ensures PlaceOf(checkers, q', m) && WaiterInv(runs, q', m) && AnswerFrom(checkers, runs, q', m)
    {
      assert PlaceOf(checkers, q, m) && WaiterInv(runs, q, m) && AnswerFrom(checkers, runs, q, m);
    }
    QueueUnmoved(runs, q, q');
  }

  lemma WaiterActionKept(s: State, a: Action)
    requires Inv(s) && Enabled(s, a) && (a.WaitDone? || a.WaitGone? || a.WaitSend?)
    ensures a.r < |s.requests| && RequestInv(s.checkers, Apply(s, a).runs, Apply(s, a).requests[a.r])
  {
    var q, n := s.requests[a.r], a.n;
    assert WaiterInv(s.runs, q, n) && RunInv(s.checkers, s.runs[q.joined[n]]);
    if a.WaitSend? {
      PushKept(s.checkers, s.runs, q, n, s.runs[q.joined[n]].result[0]);
    } else {
      WaitKept(s.checkers, s.runs, q, n, if a.WaitDone? then Sending else Gone);
    }
  }

  lemma StartActionKept(s: State, a: Action)
    requires Inv(s) && Enabled(s, a) && (a.StartNil? || a.StartCheck?)
    ensures a.r < |s.requests| && RequestInv(s.checkers, Apply(s, a).runs, Apply(s, a).requests[a.r])
  {
    var q, n := s.requests[a.r], a.n;
    if a.StartNil? {
      NilCheckerKept(s.checkers, s.runs, q, n);
    } else {
      LaunchKept(s, n, a.r);
      RequestSurvives(s.checkers, s.runs, Launch(s, n, a.r).runs, q);
      JoinKept(s.checkers, Launch(s, n, a.r).runs, q, n, Handed(s, n));
    }
  }

  lemma RequestKept(s: State, a: Action)
    requires Inv(s) && Enabled(s, a) && !a.Arrive? && !IsRunAction(a)
    ensures a.r < |s.requests| && RequestInv(s.checkers, Apply(s, a).runs, Apply(s, a).requests[a.r])
  {
    if a.WaitDone? || a.WaitGone? || a.WaitSend? {
      WaiterActionKept(s, a);
    } else if a.StartNil? || a.StartCheck? {
      StartActionKept(s, a);
    } else {
      var q := s.requests[a.r];
      match a
      case Take(r) => PopKept(s.checkers, s.runs, q);
      case Expire(r) => ExpireKept(s.checkers, s.runs, q);
      case BeginCollect(r) => StageKept(s.checkers, s.runs, q, q.(stage := Collecting));
      case Answer(r) => StageKept(s.checkers, s.runs, q, q.(stage := Answered));
      case Cancel(r) => StageKept(s.checkers, s.runs, q, q.(ctxDone := true));
    }
  }

  lemma OneRequestMoves(s: State, a: Action)
    requires Enabled(s, a)
    ensures var s' := Apply(s, a);
            if a.Arrive? then s'.requests == s.requests + [Fresh(s.checkers)]
            else if IsRunAction(a) then s'.requests == s.requests
            else a.r < |s.requests| == |s'.requests| && s'.requests == s.requests[a.r := s'.requests[a.r]]
  {
  }

  lemma InvKept(s: State, a: Action)
    requires Inv(s) && Enabled(s, a)
    ensures Inv(Apply(s, a)) && Extends(s.runs, Apply(s, a).runs) && Apply(s, a).checkers == s.checkers
  {
    RunsKept(s, a);
    OneRequestMoves(s, a);
    var s' := Apply(s, a);
    forall r | 0 <= r < |s'.requests|
      ensures RequestInv(s'.checkers, s'.runs, s'.requests[r])
    {
      if a.Arrive? && r == |s.requests| {
        FreshInv(s'.checkers, s'.runs);
      } else if !a.Arrive? && !IsRunAction(a) && r == a.r {
        RequestKept(s, a);
      } else {
        assert s'.requests[r] == s.requests[r];
        RequestSurvives(s.checkers, s.runs, s'.runs, s.requests[r]);
      }
    }
  }

  lemma {:induction false} RunKeepsInv(s: State, run: seq<Action>)
    requires Inv(s) && Legal(s, run)
    ensures Inv(Exec(s, run)) && Extends(s.runs, Exec(s, run).runs) && Exec(s, run).checkers == s.checkers
    decreases run
  {
    if run != [] {
      InvKept(s, run[0]);
      RunKeepsInv(Apply(s, run[0]), run[1..]);
    }
  }
}
