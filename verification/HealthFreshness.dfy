/** How old a health answer can be, and whose cancellation it can show. */
module HealthFreshness {
  import opened HealthCollect
  import opened HealthProtocol
  import opened HealthTheorems

  // ---- when a run is decided ----

  predicate HasVerdict(s: State, i: nat) {
    i < |s.runs| && s.runs[i].verdict != []
  }

  /** Check of run `i` ends in these actions. */
  predicate CheckEnds(run: seq<Action>, i: nat) {
    exists v :: RunEnd(i, v) in run
  }

  lemma CheckEndsNext(run: seq<Action>, i: nat)
    requires run != []
    ensures CheckEnds(run, i) <==> (run[0].RunEnd? && run[0].i == i) || CheckEnds(run[1..], i)
  {
    assert run == [run[0]] + run[1..];
    if run[0].RunEnd? && run[0].i == i {
      assert RunEnd(i, run[0].verdict) in run;
    }
    if CheckEnds(run[1..], i) {
      var v :| RunEnd(i, v) in run[1..];
      assert RunEnd(i, v) in run;
    }
  }

  lemma VerdictStep(s: State, a: Action, i: nat)
    requires Inv(s) && Enabled(s, a)
    ensures HasVerdict(Apply(s, a), i) <==> HasVerdict(s, i) || (a.RunEnd? && a.i == i)
    ensures HasVerdict(s, i) ==> !(a.RunEnd? && a.i == i) && Apply(s, a).runs[i].verdict == s.runs[i].verdict
  {
    if i < |s.runs| {
      assert RunInv(s.checkers, s.runs[i]);
    }
  }

  /** A run has its verdict in the end exactly if it had it, or its Check has ended meanwhile; never both. */
  lemma {:induction false} VerdictMoves(s: State, more: seq<Action>, i: nat)
    requires Inv(s) && Legal(s, more)
    ensures HasVerdict(Exec(s, more), i) <==> HasVerdict(s, i) || CheckEnds(more, i)
    ensures !(HasVerdict(s, i) && CheckEnds(more, i))
    decreases more
  {
    if more != [] {
      VerdictStep(s, more[0], i);
      InvKept(s, more[0]);
      CheckEndsNext(more, i);
      VerdictMoves(Apply(s, more[0]), more[1..], i);
    }
  }

  /** Its Check has not ended yet. */
  predicate StillOpen(run: Run) {
    run.phase == Spawned || run.phase == Checking
  }

  predicate OpenAt(s: State, i: nat) {
    i < |s.runs| && StillOpen(s.runs[i])
  }

  /**
    The Check that decides ends after this request called start, exactly if no run was in flight or its Check had not
    ended.
   */
  lemma FreshSinceStartIff(s: State, checkers: map<string, bool>, run: seq<Action>, r: nat, n: string,
                           more: seq<Action>)
    requires Reachable(s, checkers, run) && Enabled(s, StartCheck(r, n)) && Legal(Apply(s, StartCheck(r, n)), more)
    requires HasVerdict(Exec(Apply(s, StartCheck(r, n)), more), Handed(s, n))
    ensures CheckEnds(more, Handed(s, n)) <==> n !in s.current || OpenAt(s, s.current[n])
  {
    ReachableInv(s, checkers, run);
    InvKept(s, StartCheck(r, n));
    VerdictStep(s, StartCheck(r, n), Handed(s, n));
    VerdictMoves(Apply(s, StartCheck(r, n)), more, Handed(s, n));
    if n in s.current {
      assert RunInv(s.checkers, s.runs[s.current[n]]);
    }
  }

  // ---- counted from the arrival of the request ----

  predicate NotOverAt(s: State, i: nat) {
    i < |s.runs| ==> s.runs[i].phase != Over
  }

  /** Requests that arrived after `s0` have joined only runs that were not over at `s0`. */
  ghost predicate LateJoins(s0: State, s: State) {
    && |s0.runs| <= |s.runs|
    && (forall i :: 0 <= i < |s0.runs| && s0.runs[i].phase == Over ==> s.runs[i].phase == Over)
    && (forall r, n :: |s0.requests| <= r < |s.requests| && n in s.requests[r].joined ==>
          NotOverAt(s0, s.requests[r].joined[n]))
  }

  lemma JoinedStep(s: State, a: Action, r: nat, n: string)
    requires Inv(s) && Enabled(s, a) && r < |Apply(s, a).requests| && n in Apply(s, a).requests[r].joined
    ensures if a == StartCheck(r, n) then Apply(s, a).requests[r].joined[n] == Handed(s, n)
            else
              && r < |s.requests| && n in s.requests[r].joined
              && Apply(s, a).requests[r].joined[n] == s.requests[r].joined[n]
  {
    OneRequestMoves(s, a);
  }

  lemma OverStays(s: State, a: Action)
    requires Enabled(s, a)
    ensures |s.runs| <= |Apply(s, a).runs|
    ensures forall i :: 0 <= i < |s.runs| && s.runs[i].phase == Over ==> Apply(s, a).runs[i].phase == Over
  {
  }

  lemma LateJoinsStep(s0: State, s: State, a: Action)
    requires LateJoins(s0, s) && Inv(s) && Enabled(s, a)
    ensures LateJoins(s0, Apply(s, a))
  {
    OneRequestMoves(s, a);
    OverStays(s, a);
    var s' := Apply(s, a);
    forall r, n | |s0.requests| <= r < |s'.requests| && n in s'.requests[r].joined
      ensures NotOverAt(s0, s'.requests[r].joined[n])
    {
      JoinedStep(s, a, r, n);
    }
  }

  lemma {:induction false} LateJoinsRun(s0: State, s: State, run: seq<Action>)
    requires LateJoins(s0, s) && Inv(s) && Legal(s, run)
    ensures LateJoins(s0, Exec(s, run))
    decreases run
  {
    if run != [] {
      LateJoinsStep(s0, s, run[0]);
      InvKept(s, run[0]);
      LateJoinsRun(s0, Apply(s, run[0]), run[1..]);
    }
  }

  /** What was in flight for `n` when the request arrived, with its Check already ended, is the run it was handed. */
  predicate HandedOld(s: State, n: string, i: nat) {
    n in s.current && s.current[n] == i && !OpenAt(s, i)
  }

  /**
    An "ok" comes from a Check that ended after the request arrived, exactly unless the request was handed the run that
    was in flight at its arrival and whose Check had ended by then.
   */
  lemma FreshSinceArrivalIff(s: State, checkers: map<string, bool>, run: seq<Action>, later: seq<Action>, n: string)
    requires Reachable(s, checkers, run) && Legal(Apply(s, Arrive), later) && n in checkers
    requires StageAt(Exec(Apply(s, Arrive), later), |s.requests|, Answered)
    requires n in Exec(Apply(s, Arrive), later).requests[|s.requests|].coll.results
    requires Exec(Apply(s, Arrive), later).requests[|s.requests|].coll.results[n] == OK
    ensures var q := Exec(Apply(s, Arrive), later).requests[|s.requests|];
            n in q.joined && (CheckEnds(later, q.joined[n]) <==> !HandedOld(s, n, q.joined[n]))
  {
    var s1, r := Apply(s, Arrive), |s.requests|;
    var end := Exec(s1, later);
    ReachableInv(s, checkers, run);
    InvKept(s, Arrive);
    RunKeepsInv(s1, later);
    LateJoinsRun(s, s1, later);
    var q := end.requests[r];
    assert AnswerFrom(end.checkers, end.runs, q, n) && PlaceOf(end.checkers, q, n) && WaiterInv(end.runs, q, n);
    OkIsDecided(end, q, n);
    var i := q.joined[n];
    assert NotOverAt(s, i);
    VerdictMoves(s1, later, i);
    if i < |s.runs| {
      assert RunInv(s.checkers, s.runs[i]) && s.runs[i].name == n;
    }
  }

  lemma OkIsDecided(s: State, q: Request, n: string)
    requires Inv(s) && n in s.checkers && n in q.coll.results && q.coll.results[n] == OK
    requires AnswerFrom(s.checkers, s.runs, q, n)
    ensures n in q.joined && HasVerdict(s, q.joined[n]) && StatusOf(s.runs[q.joined[n]].verdict[0]) == OK
  {
    assert RunInv(s.checkers, s.runs[q.joined[n]]);
  }

  // ---- an old answer ----

  predicate Moves(s: State, a: Action, s': State) {
    Enabled(s, a) && Apply(s, a) == s'
  }

  /** The states that the actions go through. */
  predicate Follows(states: seq<State>, run: seq<Action>) {
    |states| == |run| + 1 && forall k :: 0 <= k < |run| ==> Moves(states[k], run[k], states[k + 1])
  }

  lemma {:induction false} Follow(states: seq<State>, run: seq<Action>)
    requires Follows(states, run)
    ensures Legal(states[0], run) && Exec(states[0], run) == states[|run|]
    decreases run
  {
    hide Enabled, Apply;
    if run != [] {
      assert states[1..][0] == states[1] && Moves(states[0], run[0], states[1]);
      Follow(states[1..], run[1..]);
    }
  }

  /** The one checker's run has published "ok" and not yet cleared `current`. */
  ghost predicate Published(s: State, n: string) {
    && Inv(s) && s.checkers == map[n := true] && n in s.current
    && RunAt(s, s.current[n], Closed) && s.runs[s.current[n]].result == [Result(n, OK)]
  }

  /** A state with one more request, which waits for run `i` of the one checker. */
  function With(s: State, n: string, i: nat, stage: Stage, w: Waiter, queue: seq<Result>, coll: Collection): State {
    s.(requests := s.requests + [Request(stage, false, {}, map[n := i], map[n := w], queue,
                                         if w == Sent then 1 else 0, coll)])
  }

  /** What the request does when it arrives in a published state. */
  function LateRun(r: nat, n: string): seq<Action> {
    [Arrive, StartCheck(r, n), BeginCollect(r), WaitDone(r, n), WaitSend(r, n), Take(r), Answer(r)]
  }

  function LateStates(s: State, n: string, i: nat): seq<State> {
    var asked, answered, res := Collection({n}, map[]), Collection({}, map[n := OK]), [Result(n, OK)];
    [s, s.(requests := s.requests + [Fresh(s.checkers)]),
     With(s, n, i, Starting, Waiting, [], asked), With(s, n, i, Collecting, Waiting, [], asked),
     With(s, n, i, Collecting, Sending, [], asked), With(s, n, i, Collecting, Sent, res, asked),
     With(s, n, i, Collecting, Sent, [], answered), With(s, n, i, Answered, Sent, [], answered)]
  }

  lemma LastUpdate<T>(xs: seq<T>, x: T, y: T)
    ensures (xs + [x])[|xs| := y] == xs + [y]
  {
  }

  lemma LateStarts(s: State, n: string)
    requires Published(s, n)
    ensures var states, run := LateStates(s, n, s.current[n]), LateRun(|s.requests|, n);
            && Moves(states[0], run[0], states[1]) && Moves(states[1], run[1], states[2])
            && Moves(states[2], run[2], states[3])
  {
    var r, states := |s.requests|, LateStates(s, n, s.current[n]);
    assert s.checkers.Keys == {n};
    LastUpdate(s.requests, states[1].requests[r], states[2].requests[r]);
    LastUpdate(s.requests, states[2].requests[r], states[3].requests[r]);
    assert Join(states[1].requests[r], n, s.current[n]) == states[2].requests[r];
  }

  lemma LateWakes(s: State, n: string)
    requires Published(s, n)
    ensures var states := LateStates(s, n, s.current[n]);
            Moves(states[3], WaitDone(|s.requests|, n), states[4])
  {
    var r, states := |s.requests|, LateStates(s, n, s.current[n]);
    LastUpdate(s.requests, states[3].requests[r], states[4].requests[r]);
    assert Wait(states[3].requests[r], n, Sending) == states[4].requests[r];
  }

  lemma LateSends(s: State, n: string)
    requires Published(s, n)
    ensures var states := LateStates(s, n, s.current[n]);
            Moves(states[4], WaitSend(|s.requests|, n), states[5])
  {
    hide Inv;
    var r, states := |s.requests|, LateStates(s, n, s.current[n]);
    assert s.checkers.Keys == {n};
    LastUpdate(s.requests, states[4].requests[r], states[5].requests[r]);
    assert Push(states[4].requests[r], n, Result(n, OK)) == states[5].requests[r];
  }

  lemma LateAnswers(s: State, n: string)
    requires Published(s, n)
    ensures var states, run := LateStates(s, n, s.current[n]), LateRun(|s.requests|, n);
            Moves(states[5], run[5], states[6]) && Moves(states[6], run[6], states[7])
  {
    var r, states := |s.requests|, LateStates(s, n, s.current[n]);
    LastUpdate(s.requests, states[5].requests[r], states[6].requests[r]);
    LastUpdate(s.requests, states[6].requests[r], states[7].requests[r]);
    assert Pop(states[5].requests[r]) == states[6].requests[r];
  }

  /**
    Whenever one checker's run has published, a request that arrives can be answered "ok" with no run doing anything.
   */
  lemma OldAnswer(s: State, n: string)
    requires Published(s, n)
    ensures var run := LateRun(|s.requests|, n);
            && run[0] == Arrive && (forall a :: a in run ==> !IsRunAction(a))
            && Legal(s, run)
            && Exec(s, run) == With(s, n, s.current[n], Answered, Sent, [], Collection({}, map[n := OK]))
  {
    hide Moves, With;
    LateStarts(s, n);
    LateWakes(s, n);
    LateSends(s, n);
    LateAnswers(s, n);
    Follow(LateStates(s, n, s.current[n]), LateRun(|s.requests|, n));
  }

  /** One request, and one Check that ends with `v`. */
  function FirstRun(n: string, v: Verdict): seq<Action> {
    [Arrive, StartCheck(0, n), RunBegin(0), RunEnd(0, v), Store(0), CloseDone(0)]
  }

  function Waited(n: string, run: Run): State {
    With(State(map[n := true], map[n := 0], [run], []), n, 0, Starting, Waiting, [], Collection({n}, map[]))
  }

  function FirstStates(n: string, v: Verdict): seq<State> {
    var s0, r0 := Init(map[n := true]), Run(n, 0, Spawned, [], []);
    var r2, res := r0.(phase := Decided, verdict := [v]), [Result(n, StatusOf(v))];
    [s0, s0.(requests := [Fresh(s0.checkers)]), Waited(n, r0), Waited(n, r0.(phase := Checking)), Waited(n, r2),
     Waited(n, r2.(phase := Stored, result := res)), Waited(n, r2.(phase := Closed, result := res))]
  }

  lemma WaitedMoves(n: string, run: Run, run': Run)
    ensures WithRun(Waited(n, run), 0, run') == Waited(n, run')
  {
    assert [run][0 := run'] == [run'];
  }

  lemma FirstStarts(n: string, v: Verdict)
    ensures var states := FirstStates(n, v);
            Moves(states[0], Arrive, states[1]) && Moves(states[1], StartCheck(0, n), states[2])
  {
    var states := FirstStates(n, v);
    assert states[0].checkers.Keys == {n};
    LastUpdate([], states[1].requests[0], states[2].requests[0]);
    assert Join(states[1].requests[0], n, 0) == states[2].requests[0];
  }

  lemma FirstChecks(n: string, v: Verdict)
    ensures var states := FirstStates(n, v);
            && Moves(states[2], RunBegin(0), states[3]) && Moves(states[3], RunEnd(0, v), states[4])
            && Moves(states[4], Store(0), states[5]) && Moves(states[5], CloseDone(0), states[6])
  {
    var states, none, nothing := FirstStates(n, v), [], [];
    assert none + [v] == [v] && nothing + [Result(n, StatusOf(v))] == [Result(n, StatusOf(v))];
    forall k | 2 <= k < 6
      ensures WithRun(states[k], 0, states[k + 1].runs[0]) == states[k + 1]
    {
      WaitedMoves(n, states[k].runs[0], states[k + 1].runs[0]);
    }
  }

  lemma FirstFollows(n: string, v: Verdict)
    ensures Follows(FirstStates(n, v), FirstRun(n, v))
  {
    hide Moves, Waited;
    FirstStarts(n, v);
    FirstChecks(n, v);
  }

  /**
    An instance, for any name and any Check that counts as "ok": it ends in `before`, and a request that arrives after
    that is answered "ok" without a step of any run.
   */
  lemma AnswerCanPredateRequest(n: string, v: Verdict) returns (before: seq<Action>, later: seq<Action>)
    requires StatusOf(v) == OK
    ensures Legal(Init(map[n := true]), before) && RunEnd(0, v) in before
    ensures var s := Exec(Init(map[n := true]), before);
            && Legal(s, later) && later != [] && later[0] == Arrive && (forall a :: a in later ==> !IsRunAction(a))
            && |s.requests| == 1 && StageAt(Exec(s, later), 1, Answered)
            && Exec(s, later).requests[1].coll.results == map[n := OK] && VerdictFor(Exec(s, later), 1, n) == [v]
  {
    hide Follows, Legal, Exec, Inv;
    before, later := FirstRun(n, v), LateRun(1, n);
    FirstFollows(n, v);
    Follow(FirstStates(n, v), before);
    var s := FirstStates(n, v)[6];
    assert before[3] == RunEnd(0, v);
    ReachableInv(s, map[n := true], before);
    OldAnswer(s, n);
  }

  // ---- whose cancellation an answer can show ----

  /**
    The context that the Check of run `i` was given has ended: it is the context of the request that launched the run.
   */
  predicate LauncherDone(s: State, i: nat) {
    i < |s.runs| && s.runs[i].launcher < |s.requests| && s.requests[s.runs[i].launcher].ctxDone
  }

  /** The checkers do what they are asked to: in `run`, Check fails or panics exactly when its context has ended. */
  predicate Heeds(s: State, run: seq<Action>)
    requires Legal(s, run)
    decreases run
  {
    if run == [] then true
    else
      var a := run[0];
      (a.RunEnd? ==> (StatusOf(a.verdict) == ERROR <==> LauncherDone(s, a.i))) && Heeds(Apply(s, a), run[1..])
  }

  /** In `run`, Check of run `i` ends when the context of its launcher has ended. */
  predicate EndsCancelled(s: State, run: seq<Action>, i: nat)
    requires Legal(s, run)
    decreases run
  {
    run != [] &&
    ((run[0].RunEnd? && run[0].i == i && LauncherDone(s, i)) || EndsCancelled(Apply(s, run[0]), run[1..], i))
  }

  /** In `run`, request `r` calls start for `n` when no run of `n` is in flight, and that launches run `i`. */
  predicate LaunchedBy(s: State, run: seq<Action>, i: nat, r: nat, n: string)
    requires Legal(s, run)
    decreases run
  {
    run != [] &&
    ((run[0] == StartCheck(r, n) && n !in s.current && i == |s.runs|)
     || LaunchedBy(Apply(s, run[0]), run[1..], i, r, n))
  }

  lemma NewRunStep(s: State, a: Action)
    requires Enabled(s, a)
    ensures if a.StartCheck? && a.n !in s.current
            then |Apply(s, a).runs| == |s.runs| + 1
                 && Apply(s, a).runs[|s.runs|].launcher == a.r && Apply(s, a).runs[|s.runs|].name == a.n
            else |Apply(s, a).runs| == |s.runs|
  {
  }

  /** For ever after, a new run is that of the request that called start, and of the name it called it for. */
  lemma StartIsLauncher(s: State, r: nat, n: string, more: seq<Action>)
    requires Inv(s) && Enabled(s, StartCheck(r, n)) && n !in s.current && Legal(Apply(s, StartCheck(r, n)), more)
    ensures var runs := Exec(Apply(s, StartCheck(r, n)), more).runs;
            |s.runs| < |runs| && runs[|s.runs|].launcher == r && runs[|s.runs|].name == n
  {
    NewRunStep(s, StartCheck(r, n));
    InvKept(s, StartCheck(r, n));
    RunKeepsInv(Apply(s, StartCheck(r, n)), more);
  }

  /** Every run was launched by the request it names, for the checker it names. */
  lemma {:induction false} LauncherLaunched(s: State, run: seq<Action>, i: nat)
    requires Inv(s) && Legal(s, run) && |s.runs| <= i < |Exec(s, run).runs|
    ensures LaunchedBy(s, run, i, Exec(s, run).runs[i].launcher, Exec(s, run).runs[i].name)
    decreases run
  {
    if run != [] {
      var a := run[0];
      NewRunStep(s, a);
      InvKept(s, a);
      if i < |Apply(s, a).runs| {
        StartIsLauncher(s, a.r, a.n, run[1..]);
      } else {
        LauncherLaunched(Apply(s, a), run[1..], i);
      }
    }
  }

  lemma DoneStays(s: State, a: Action, i: nat)
    requires Inv(s) && Enabled(s, a) && LauncherDone(s, i)
    ensures LauncherDone(Apply(s, a), i)
  {
    RunsKept(s, a);
    OneRequestMoves(s, a);
  }

  lemma {:induction false} NotCancelledTwice(s: State, run: seq<Action>, i: nat)
    requires Inv(s) && Legal(s, run) && HasVerdict(s, i)
    ensures !EndsCancelled(s, run, i) && HasVerdict(Exec(s, run), i)
    ensures Exec(s, run).runs[i].verdict == s.runs[i].verdict
    decreases run
  {
    if run != [] {
      VerdictStep(s, run[0], i);
      InvKept(s, run[0]);
      NotCancelledTwice(Apply(s, run[0]), run[1..], i);
    }
  }

  lemma EndVerdict(s: State, a: Action, i: nat)
    requires Inv(s) && Enabled(s, a) && a.RunEnd? && a.i == i
    ensures i < |Apply(s, a).runs| && Apply(s, a).runs[i].verdict == [a.verdict]
  {
    assert RunInv(s.checkers, s.runs[i]);
  }

  lemma {:induction false} VerdictTells(s: State, run: seq<Action>, i: nat)
    requires Inv(s) && Legal(s, run) && Heeds(s, run) && !HasVerdict(s, i) && HasVerdict(Exec(s, run), i)
    ensures StatusOf(Exec(s, run).runs[i].verdict[0]) == ERROR <==> EndsCancelled(s, run, i)
    decreases run
  {
    var a := run[0];
    VerdictStep(s, a, i);
    InvKept(s, a);
    if a.RunEnd? && a.i == i {
      EndVerdict(s, a, i);
      NotCancelledTwice(Apply(s, a), run[1..], i);
    } else {
      VerdictTells(Apply(s, a), run[1..], i);
    }
  }

  lemma {:induction false} CancelledStays(s: State, run: seq<Action>, i: nat)
    requires Inv(s) && Legal(s, run) && (LauncherDone(s, i) || EndsCancelled(s, run, i))
    ensures LauncherDone(Exec(s, run), i)
    decreases run
  {
    if run != [] {
      InvKept(s, run[0]);
      if LauncherDone(s, i) {
        DoneStays(s, run[0], i);
      }
      CancelledStays(Apply(s, run[0]), run[1..], i);
    }
  }

  /**
    With checkers that fail only because their context has ended, a request that has not been cancelled is answered
    "error" for a name exactly when the Check it waited for ended after the context of the request that launched it had:
    and that is another request.
   */
  lemma OthersCancellationIff(checkers: map<string, bool>, run: seq<Action>, r: nat, n: string)
    requires Legal(Init(checkers), run) && Heeds(Init(checkers), run) && StageAt(Exec(Init(checkers), run), r, Answered)
    requires n in checkers && checkers[n] && !Exec(Init(checkers), run).requests[r].ctxDone
    requires n in Exec(Init(checkers), run).requests[r].coll.results
    ensures var s := Exec(Init(checkers), run);
            var q := s.requests[r];
            && n in q.joined && q.joined[n] < |s.runs|
            && (q.coll.results[n] == ERROR <==> EndsCancelled(Init(checkers), run, q.joined[n]))
            && LaunchedBy(Init(checkers), run, q.joined[n], s.runs[q.joined[n]].launcher, n)
            && (q.coll.results[n] == ERROR ==> s.runs[q.joined[n]].launcher != r)
  {
    var s := Exec(Init(checkers), run);
    ReachableInv(s, checkers, run);
    var q := s.requests[r];
    assert AnswerFrom(s.checkers, s.runs, q, n);
    var i := q.joined[n];
    assert RunInv(s.checkers, s.runs[i]);
    VerdictTells(Init(checkers), run, i);
    assert WaiterInv(s.runs, q, n) && PlaceOf(s.checkers, q, n);
    LauncherLaunched(Init(checkers), run, i);
    if EndsCancelled(Init(checkers), run, i) {
      CancelledStays(Init(checkers), run, i);
    }
  }
}
