/** What holds of every run of the health protocol. */
module HealthTheorems {
  import opened HealthCollect
  import opened HealthProtocol

  ghost predicate Reachable(s: State, checkers: map<string, bool>, run: seq<Action>) {
    Legal(Init(checkers), run) && Exec(Init(checkers), run) == s
  }

  lemma ReachableInv(s: State, checkers: map<string, bool>, run: seq<Action>)
    requires Reachable(s, checkers, run)
    ensures Inv(s) && s.checkers == checkers
  {
    RunKeepsInv(Init(checkers), run);
  }

  // ---- single flight ----

  /**
    Single flight, for any number of requests: of one checker at most one run is not over, so at most one Check
    executes; that run is `current` all the while; and when it ends, `current` still is that run.
   */
  lemma SingleFlight(s: State, checkers: map<string, bool>, run: seq<Action>, i: nat)
    requires Reachable(s, checkers, run) && i < |s.runs| && s.runs[i].phase != Over
    ensures s.runs[i].name in s.current && s.current[s.runs[i].name] == i
    ensures forall j :: 0 <= j < |s.runs| && s.runs[j].name == s.runs[i].name && s.runs[j].phase != Over ==> j == i
    ensures Enabled(s, Clear(i)) ==> s.runs[i].name !in Apply(s, Clear(i)).current
  {
    ReachableInv(s, checkers, run);
  }

  /** A result is published once, by the run itself, before `done` is closed, and never changes afterwards. */
  lemma ResultWrittenOnce(s: State, checkers: map<string, bool>, run: seq<Action>, more: seq<Action>, i: nat)
    requires Reachable(s, checkers, run) && i < |s.runs| && Legal(s, more)
    ensures IsDone(s, i) ==> |s.runs[i].verdict| == 1
                             && s.runs[i].result == [Result(s.runs[i].name, StatusOf(s.runs[i].verdict[0]))]
    ensures i < |Exec(s, more).runs| && (s.runs[i].result != [] ==> Exec(s, more).runs[i].result == s.runs[i].result)
  {
    ReachableInv(s, checkers, run);
    assert RunInv(s.checkers, s.runs[i]);
    RunKeepsInv(s, more);
  }

  // ---- the channel ----

  lemma RoomToSend(s: State, r: nat, n: string)
    requires Inv(s) && CanSend(s, r, n)
    ensures s.requests[r].sends < Capacity(s) && Enabled(s, WaitSend(r, n))
  {
    var q := s.requests[r];
    forall m | m in SentNames(q)
      ensures m in s.checkers.Keys - {n}
    {
      assert PlaceOf(s.checkers, q, m);
    }
    assert PlaceOf(s.checkers, q, n);
    SmallerSet(SentNames(q), s.checkers.Keys - {n});
  }

  lemma {:induction false} SmallerSet(a: set<string>, b: set<string>)
    requires a <= b
    ensures |a| <= |b|
  {
    if a != {} {
      var x :| x in a;
      SmallerSet(a - {x}, b - {x});
    }
  }

  /** No waiter ever blocks on the channel, and a request's sends never exceed the channel's capacity. */
  lemma WaiterNeverBlocks(s: State, checkers: map<string, bool>, run: seq<Action>, r: nat, n: string)
    requires Reachable(s, checkers, run) && r < |s.requests|
    ensures CanSend(s, r, n) ==> Enabled(s, WaitSend(r, n))
    ensures s.requests[r].sends <= |checkers.Keys|
  {
    ReachableInv(s, checkers, run);
    var q := s.requests[r];
    forall m | m in SentNames(q)
      ensures m in checkers.Keys
    {
      assert PlaceOf(checkers, q, m);
    }
    SmallerSet(SentNames(q), checkers.Keys);
    if CanSend(s, r, n) {
      RoomToSend(s, r, n);
    }
  }

  predicate Queued(q: Request, n: string) {
    exists k :: 0 <= k < |q.queue| && q.queue[k].name == n
  }

  /**
    No result is lost: a pending name has a waiter that will still report, or a queued result, or the context is done.
   */
  lemma NothingIsLost(s: State, checkers: map<string, bool>, run: seq<Action>, r: nat, n: string)
    requires Reachable(s, checkers, run) && r < |s.requests| && n in s.requests[r].coll.pending
    ensures var q := s.requests[r];
            n in q.waiters && (q.waiters[n] == Waiting || q.waiters[n] == Sending || Queued(q, n) || q.ctxDone)
  {
    ReachableInv(s, checkers, run);
    assert PlaceOf(checkers, s.requests[r], n) && WaiterInv(s.runs, s.requests[r], n);
  }

  /** What a collector waiting for `n` can count on, without any timeout. */
  predicate Feeds(s: State, r: nat, n: string, a: Action)
    requires r < |s.requests| && n in s.requests[r].joined
  {
    a == Take(r) || a == WaitSend(r, n) || a == WaitDone(r, n) || (IsRunAction(a) && a.i == s.requests[r].joined[n])
  }

  /**
    A collector is never stuck while the context lives: some action that brings the awaited result nearer is enabled
    (a Check that executes can only end).
   */
  lemma CollectorIsFed(s: State, checkers: map<string, bool>, run: seq<Action>, r: nat, n: string)
    requires Reachable(s, checkers, run) && StageAt(s, r, Collecting)
    requires n in s.requests[r].coll.pending && !s.requests[r].ctxDone
    ensures n in s.requests[r].joined
    ensures exists a :: Enabled(s, a) && Feeds(s, r, n, a)
  {
    ReachableInv(s, checkers, run);
    var q := s.requests[r];
    assert PlaceOf(checkers, q, n) && WaiterInv(s.runs, q, n);
    var i := q.joined[n];
    assert RunInv(checkers, s.runs[i]);
    if q.waiters[n] == Sending {
      RoomToSend(s, r, n);
      assert Feeds(s, r, n, WaitSend(r, n));
    } else if q.waiters[n] == Sent {
      assert Enabled(s, Take(r)) && Feeds(s, r, n, Take(r));
    } else {
      var a := match s.runs[i].phase
        case Spawned => RunBegin(i)
        case Checking => RunEnd(i, Passed)
        case Decided => Store(i)
        case Stored => CloseDone(i)
        case Closed => WaitDone(r, n)
        case Over => WaitDone(r, n);
      assert Enabled(s, a) && Feeds(s, r, n, a);
    }
  }

  /** Every turn of the collector's loop shrinks the pending set: what it receives it was waiting for. */
  lemma CollectorLoopShrinks(s: State, checkers: map<string, bool>, run: seq<Action>, a: Action)
    requires Reachable(s, checkers, run) && Enabled(s, a) && (a.Take? || a.Expire?)
    ensures Apply(s, a).requests[a.r].coll.pending < s.requests[a.r].coll.pending
  {
    ReachableInv(s, checkers, run);
    if a.Take? {
      PopKept(s.checkers, s.runs, s.requests[a.r]);
    }
  }

  // ---- the answer ----

  /**
    The answer has exactly the checkers' names; a name is "ok" only if the Check of the run its request joined ended
    without an error and without a panic, and "error" only for a nil checker, a Check that failed or panicked, or a
    context that ended.
   */
  lemma AnswerIsHonest(s: State, checkers: map<string, bool>, run: seq<Action>, r: nat)
    requires Reachable(s, checkers, run) && StageAt(s, r, Answered)
    ensures s.requests[r].coll.results.Keys == checkers.Keys
    ensures forall n :: n in checkers ==>
      Honest(checkers[n], s.requests[r].coll.results[n], VerdictFor(s, r, n), s.requests[r].ctxDone)
  {
    ReachableInv(s, checkers, run);
    var q := s.requests[r];
    forall n
      ensures n in q.coll.results <==> n in checkers
    {
      assert PlaceOf(checkers, q, n);
    }
    forall n | n in checkers
      ensures Honest(checkers[n], q.coll.results[n], VerdictFor(s, r, n), q.ctxDone)
    {
      assert AnswerFrom(checkers, s.runs, q, n);
      if n in q.joined && q.joined[n] < |s.runs| {
        assert RunInv(checkers, s.runs[q.joined[n]]);
      }
    }
  }

  /** What Check answered in the run that the request was handed for `n`; empty when there is none yet. */
  function VerdictFor(s: State, r: nat, n: string): seq<Verdict>
    requires r < |s.requests|
  {
    var q := s.requests[r];
    if n in q.joined && q.joined[n] < |s.runs| then s.runs[q.joined[n]].verdict else []
  }

  predicate Honest(live: bool, status: string, verdict: seq<Verdict>, ctxDone: bool) {
    && (status == "ok" || status == "error")
    && (status == "ok" ==> live && (verdict == [Passed] || verdict == [Exited]))
    && (status == "error" ==> !live || verdict == [Failed] || verdict == [Panicked] || ctxDone)
  }

  /** An "ok" means that Check returned nil exactly unless it left by runtime.Goexit, which counts as "ok" too. */
  lemma OkMeansPassedIff(s: State, checkers: map<string, bool>, run: seq<Action>, r: nat, n: string)
    requires Reachable(s, checkers, run) && StageAt(s, r, Answered)
    requires n in s.requests[r].coll.results && s.requests[r].coll.results[n] == OK
    ensures VerdictFor(s, r, n) == [Passed] <==> VerdictFor(s, r, n) != [Exited]
  {
    AnswerIsHonest(s, checkers, run, r);
  }

  /** The run a request is handed by start stays the one it waits for. */
  lemma {:induction false} JoinedForGood(s: State, r: nat, n: string, more: seq<Action>)
    requires Inv(s) && Legal(s, more) && r < |s.requests| && n in s.requests[r].joined
    ensures r < |Exec(s, more).requests| && n in Exec(s, more).requests[r].joined
    ensures Exec(s, more).requests[r].joined[n] == s.requests[r].joined[n]
    decreases more
  {
    if more != [] {
      var a := more[0];
      InvKept(s, a);
      OneRequestMoves(s, a);
      assert PlaceOf(s.checkers, s.requests[r], n);
      JoinedForGood(Apply(s, a), r, n, more[1..]);
    }
  }

  /** The status that decides about "ok" is the one of the run that was current when this request called start. */
  lemma HandedByStart(s: State, checkers: map<string, bool>, run: seq<Action>, r: nat, n: string, more: seq<Action>)
    requires Reachable(s, checkers, run) && Enabled(s, StartCheck(r, n)) && Legal(Apply(s, StartCheck(r, n)), more)
    ensures var s' := Exec(Apply(s, StartCheck(r, n)), more);
            && r < |s'.requests| && n in s'.requests[r].joined
            && s'.requests[r].joined[n] == if n in s.current then s.current[n] else |s.runs|
  {
    ReachableInv(s, checkers, run);
    InvKept(s, StartCheck(r, n));
    JoinedForGood(Apply(s, StartCheck(r, n)), r, n, more);
  }

  // ---- termination, and nothing left behind ----

  function PhaseRank(p: Phase): nat {
    match p
    case Spawned => 5
    case Checking => 4
    case Decided => 3
    case Stored => 2
    case Closed => 1
    case Over => 0
  }

  function RunsRank(runs: seq<Run>): nat {
    if runs == [] then 0 else PhaseRank(runs[0].phase) + RunsRank(runs[1..])
  }

  function RequestRank(q: Request): nat {
    20 * |q.todo| + 3 * |WaitersAt(q, Waiting)| + 2 * |WaitersAt(q, Sending)| + |q.queue| + |q.coll.pending|
    + (match q.stage case Starting => 2 case Collecting => 1 case Answered => 0) + (if q.ctxDone then 0 else 1)
  }

  function RequestsRank(qs: seq<Request>): nat {
    if qs == [] then 0 else RequestRank(qs[0]) + RequestsRank(qs[1..])
  }

  function Rank(s: State): nat {
    RunsRank(s.runs) + RequestsRank(s.requests)
  }

  lemma {:induction false} RunsRankUpdate(runs: seq<Run>, i: nat, run: Run)
    requires i < |runs|
    ensures RunsRank(runs[i := run]) == RunsRank(runs) - PhaseRank(runs[i].phase) + PhaseRank(run.phase)
  {
    if i == 0 {
      assert runs[i := run][1..] == runs[1..];
    } else {
      assert runs[i := run][1..] == runs[1..][i - 1 := run];
      RunsRankUpdate(runs[1..], i - 1, run);
    }
  }

  lemma {:induction false} RunsRankAppend(runs: seq<Run>, run: Run)
    ensures RunsRank(runs + [run]) == RunsRank(runs) + PhaseRank(run.phase)
  {
    if runs == [] {
      assert (runs + [run])[1..] == [];
    } else {
      assert (runs + [run])[1..] == runs[1..] + [run];
      RunsRankAppend(runs[1..], run);
    }
  }

  lemma {:induction false} RequestsRankUpdate(qs: seq<Request>, r: nat, q: Request)
    requires r < |qs|
    ensures RequestsRank(qs[r := q]) == RequestsRank(qs) - RequestRank(qs[r]) + RequestRank(q)
  {
    if r == 0 {
      assert qs[r := q][1..] == qs[1..];
    } else {
      assert qs[r := q][1..] == qs[1..][r - 1 := q];
      RequestsRankUpdate(qs[1..], r - 1, q);
    }
  }

  lemma MovedWaiter(q: Request, q': Request, n: string, v: Waiter, w: Waiter)
    requires n in q.waiters && q.waiters[n] == v && v != w && q'.waiters == q.waiters[n := w]
    ensures |WaitersAt(q', v)| == |WaitersAt(q, v)| - 1 && |WaitersAt(q', w)| == |WaitersAt(q, w)| + 1
    ensures forall u :: u != v && u != w ==> WaitersAt(q', u) == WaitersAt(q, u)
  {
    assert WaitersAt(q', v) == WaitersAt(q, v) - {n};
    assert WaitersAt(q', w) == WaitersAt(q, w) + {n};
  }

  lemma JoinRank(q: Request, n: string, i: nat)
    requires n in q.todo && n !in q.waiters
    ensures RequestRank(Join(q, n, i)) + 6 <= RequestRank(q)
  {
    var q' := Join(q, n, i);
    assert WaitersAt(q', Waiting) == WaitersAt(q, Waiting) + {n};
    assert WaitersAt(q', Sending) == WaitersAt(q, Sending);
    assert |q'.coll.pending| <= |q.coll.pending| + 1;
  }

  lemma SameWaiters(q: Request, q': Request)
    requires q'.waiters == q.waiters
    ensures forall w :: WaitersAt(q', w) == WaitersAt(q, w)
  {
  }

  lemma PopRank(checkers: map<string, bool>, runs: seq<Run>, q: Request)
    requires RequestInv(checkers, runs, q) && q.queue != [] && q.coll.pending != {} && q.stage == Collecting
    ensures RequestRank(Pop(q)) < RequestRank(q)
  {
    PopKept(checkers, runs, q);
    SameWaiters(q, Pop(q));
  }

  lemma WaitRank(q: Request, n: string, v: Waiter, w: Waiter)
    requires n in q.waiters && q.waiters[n] == v
    requires v == Waiting && (w == Sending || w == Gone)
    ensures RequestRank(Wait(q, n, w)) < RequestRank(q)
  {
    MovedWaiter(q, Wait(q, n, w), n, v, w);
  }

  lemma PushRank(q: Request, n: string, res: Result)
    requires n in q.waiters && q.waiters[n] == Sending
    ensures RequestRank(Push(q, n, res)) < RequestRank(q)
  {
    MovedWaiter(q, Push(q, n, res), n, Sending, Sent);
  }

  lemma StillRank(q: Request, q': Request)
    requires q'.waiters == q.waiters && q'.queue == q.queue
    requires q'.todo <= q.todo && q'.coll.pending <= q.coll.pending && (q.ctxDone ==> q'.ctxDone)
    requires q'.stage != q.stage && q.stage == Starting ==> q'.stage == Collecting
    requires q'.stage != q.stage && q.stage != Starting ==> q.stage == Collecting && q'.stage == Answered
    requires q'.todo < q.todo || q'.coll.pending < q.coll.pending || q'.stage != q.stage || (!q.ctxDone && q'.ctxDone)
    ensures RequestRank(q') < RequestRank(q)
  {
    SameWaiters(q, q');
    SmallerSet(q'.todo, q.todo);
    SmallerSet(q'.coll.pending, q.coll.pending);
    if q'.todo < q.todo {
      var n :| n in q.todo && n !in q'.todo;
      SmallerSet(q'.todo, q.todo - {n});
    } else if q'.coll.pending < q.coll.pending {
      var n :| n in q.coll.pending && n !in q'.coll.pending;
      SmallerSet(q'.coll.pending, q.coll.pending - {n});
    }
  }

  lemma WaiterRankFalls(s: State, a: Action)
    requires Enabled(s, a) && (a.WaitDone? || a.WaitGone? || a.WaitSend?)
    ensures RequestRank(Apply(s, a).requests[a.r]) < RequestRank(s.requests[a.r])
  {
    var q := s.requests[a.r];
    if a.WaitSend? {
      PushRank(q, a.n, s.runs[q.joined[a.n]].result[0]);
    } else {
      WaitRank(q, a.n, Waiting, if a.WaitDone? then Sending else Gone);
    }
  }

  lemma StageRankFalls(s: State, a: Action)
    requires Enabled(s, a) && (a.StartNil? || a.BeginCollect? || a.Expire? || a.Answer? || a.Cancel?)
    ensures RequestRank(Apply(s, a).requests[a.r]) < RequestRank(s.requests[a.r])
  {
    StillRank(s.requests[a.r], Apply(s, a).requests[a.r]);
  }

  lemma RequestRankFalls(s: State, a: Action)
    requires Inv(s) && Enabled(s, a) && !a.Arrive? && !IsRunAction(a) && !a.StartCheck?
    ensures RequestRank(Apply(s, a).requests[a.r]) < RequestRank(s.requests[a.r])
  {
    if a.WaitDone? || a.WaitGone? || a.WaitSend? {
      WaiterRankFalls(s, a);
    } else if a.Take? {
      PopRank(s.checkers, s.runs, s.requests[a.r]);
    } else {
      StageRankFalls(s, a);
    }
  }

  lemma RunActionRank(s: State, a: Action)
    requires Enabled(s, a) && IsRunAction(a)
    ensures Rank(Apply(s, a)) < Rank(s)
  {
    OneRequestMoves(s, a);
    var run := Apply(s, a).runs[a.i];
    assert Apply(s, a).runs == s.runs[a.i := run];
    RunsRankUpdate(s.runs, a.i, run);
  }

  lemma StartCheckRank(s: State, r: nat, n: string)
    requires Inv(s) && Enabled(s, StartCheck(r, n))
    ensures Rank(Apply(s, StartCheck(r, n))) < Rank(s)
  {
    var q := s.requests[r];
    assert PlaceOf(s.checkers, q, n);
    JoinRank(q, n, Handed(s, n));
    RequestsRankUpdate(s.requests, r, Join(q, n, Handed(s, n)));
    RunsRankAppend(s.runs, Run(n, r, Spawned, [], []));
  }

  lemma RankFalls(s: State, a: Action)
    requires Inv(s) && Enabled(s, a) && !a.Arrive?
    ensures Rank(Apply(s, a)) < Rank(s)
  {
    if IsRunAction(a) {
      RunActionRank(s, a);
    } else if a.StartCheck? {
      StartCheckRank(s, a.r, a.n);
    } else {
      OneRequestMoves(s, a);
      RequestRankFalls(s, a);
      RequestsRankUpdate(s.requests, a.r, Apply(s, a).requests[a.r]);
      assert Apply(s, a).runs == s.runs;
    }
  }

  /** Nothing runs for ever: from any reachable state at most `Rank` actions can follow before a new request comes. */
  lemma {:induction false} RunsAreBounded(s: State, more: seq<Action>)
    requires Inv(s) && Legal(s, more) && Arrive !in more
    ensures |more| + Rank(Exec(s, more)) <= Rank(s)
    decreases more
  {
    if more != [] {
      RankFalls(s, more[0]);
      InvKept(s, more[0]);
      RunsAreBounded(Apply(s, more[0]), more[1..]);
    }
  }

  ghost predicate Quiescent(s: State) {
    forall a :: Enabled(s, a) ==> a.Arrive?
  }

  lemma StartIsEnabled(s: State, r: nat, n: string)
    requires Inv(s) && r < |s.requests| && n in s.requests[r].todo
    ensures exists a: Action :: !a.Arrive? && Enabled(s, a)
  {
    assert PlaceOf(s.checkers, s.requests[r], n);
    var a := if s.checkers[n] then StartCheck(r, n) else StartNil(r, n);
    assert Enabled(s, a);
  }

  lemma QuietRequest(s: State, r: nat)
    requires Inv(s) && Quiescent(s) && r < |s.requests|
    ensures s.requests[r].stage == Answered && s.requests[r].ctxDone
  {
    var q := s.requests[r];
    assert !Enabled(s, Cancel(r)) && !Enabled(s, Expire(r)) && !Enabled(s, Answer(r)) && !Enabled(s, BeginCollect(r));
    if q.todo != {} {
      var n :| n in q.todo;
      StartIsEnabled(s, r, n);
    }
  }

  lemma QuietWaiter(s: State, r: nat, n: string)
    requires Inv(s) && Quiescent(s) && r < |s.requests| && n in s.requests[r].waiters
    ensures s.requests[r].waiters[n] == Sent || s.requests[r].waiters[n] == Gone
  {
    QuietRequest(s, r);
    assert WaiterInv(s.runs, s.requests[r], n);
    assert !Enabled(s, WaitGone(r, n)) && !Enabled(s, WaitSend(r, n));
    if CanSend(s, r, n) {
      RoomToSend(s, r, n);
    }
  }

  /**
    When nothing but a new request is possible any more, every request has been answered, every waiter and every run
    has ended, and no checker holds a run: no goroutine is left behind.
   */
  lemma NothingLeftBehind(s: State, checkers: map<string, bool>, run: seq<Action>)
    requires Reachable(s, checkers, run) && Quiescent(s)
    ensures forall r :: 0 <= r < |s.requests| ==> s.requests[r].stage == Answered
    ensures forall r, n :: 0 <= r < |s.requests| && n in s.requests[r].waiters ==>
              s.requests[r].waiters[n] == Sent || s.requests[r].waiters[n] == Gone
    ensures (forall i :: 0 <= i < |s.runs| ==> s.runs[i].phase == Over) && s.current == map[]
  {
    ReachableInv(s, checkers, run);
    forall r | 0 <= r < |s.requests|
      ensures s.requests[r].stage == Answered
    {
      QuietRequest(s, r);
    }
    forall r, n | 0 <= r < |s.requests| && n in s.requests[r].waiters
      ensures s.requests[r].waiters[n] == Sent || s.requests[r].waiters[n] == Gone
    {
      QuietWaiter(s, r, n);
    }
    forall i | 0 <= i < |s.runs|
      ensures s.runs[i].phase == Over
    {
      assert RunInv(checkers, s.runs[i]);
      assert !Enabled(s, RunBegin(i)) && !Enabled(s, RunEnd(i, Passed)) && !Enabled(s, Store(i));
      assert !Enabled(s, CloseDone(i)) && !Enabled(s, Clear(i));
    }
  }

  /** What HealthStatus answers 503 for: exactly that some checker's status is not "ok". */
  lemma DegradedIffSomeNotOk(s: State, checkers: map<string, bool>, run: seq<Action>, r: nat)
    requires Reachable(s, checkers, run) && StageAt(s, r, Answered)
    ensures s.requests[r].coll.results.Keys == checkers.Keys
    ensures Degraded(s.requests[r].coll.results) <==> exists n :: n in checkers && s.requests[r].coll.results[n] != OK
  {
    AnswerIsHonest(s, checkers, run, r);
    var results := s.requests[r].coll.results;
    assert forall n :: n in checkers <==> n in results.Keys;
  }
}
