/** The sequential parts of the health handler: one checker's state, the collector loop, the overall status. */
module HealthCollect {

  const OK := "ok"
  const ERROR := "error"

  datatype Result = Result(name: string, status: string)

  /** How a Check ended: with a nil error, with another, by a panic, or by runtime.Goexit, which is none of these. */
  datatype Verdict = Passed | Failed | Panicked | Exited

  /** The status starts as "ok", and only an error or a recovered panic changes it. */
  function StatusOf(v: Verdict): string {
    if v.Failed? || v.Panicked? then ERROR else OK
  }

  /** What the collector's select receives. */
  datatype Event = Received(result: Result) | CtxDone

  /** The collector's two maps. */
  datatype Collection = Collection(pending: set<string>, results: map<string, string>)

  function Receive(c: Collection, r: Result): Collection {
    if r.name in c.pending then Collection(c.pending - {r.name}, c.results[r.name := r.status]) else c
  }

  function TimeOut(c: Collection): Collection {
    Collection({}, c.results + map n | n in c.pending :: ERROR)
  }

  /** The collection after the events; events after the loop has ended are not received. */
  function Collect(c: Collection, events: seq<Event>): Collection
    decreases events
  {
    if c.pending == {} || events == [] then c
    else Collect(if events[0].CtxDone? then TimeOut(c) else Receive(c, events[0].result), events[1..])
  }

  /** collectHealthResults. It is still blocked in its select when the events ran out with names pending. */
  method CollectHealthResults(names: set<string>, events: seq<Event>)
    returns (results: map<string, string>, blocked: bool)
    ensures Collection(if blocked then Collect(Collection(names, map[]), events).pending else {}, results)
         == Collect(Collection(names, map[]), events)
    ensures blocked ==> Collect(Collection(names, map[]), events).pending != {}
  {
    var pending := names;
    results := map[];
    var i := 0;
    while pending != {} && i < |events|
      invariant 0 <= i <= |events|
      invariant Collect(Collection(pending, results), events[i..]) == Collect(Collection(names, map[]), events)
      decreases |events| - i
    {
      assert events[i..][1..] == events[i + 1..];
      match events[i] {
        case Received(result) =>
          if result.name in pending {
            results := results[result.name := result.status];
            pending := pending - {result.name};
          }
        case CtxDone =>
          results := results + map n | n in pending :: ERROR;
          pending := {};
      }
      i := i + 1;
    }
    blocked := pending != {};
  }

  /** Which status the events decide for `n`: its first result, or an error when the context ends first. */
  function Decided(n: string, events: seq<Event>): (s: seq<string>)
    ensures |s| <= 1
  {
    if events == [] then []
    else if events[0].CtxDone? then [ERROR]
    else if events[0].result.name == n then [events[0].result.status]
    else Decided(n, events[1..])
  }

  /** The collector decides each name on its own: by its first result or by the timeout, whatever the others do. */
  lemma {:induction false} CollectDecides(c: Collection, events: seq<Event>, n: string)
    requires n in c.pending
    ensures var d, c' := Decided(n, events), Collect(c, events);
            if d == [] then n in c'.pending else n !in c'.pending && n in c'.results && c'.results[n] == d[0]
    decreases events
  {
    if events != [] {
      var e := events[0];
      var c1 := if e.CtxDone? then TimeOut(c) else Receive(c, e.result);
      if n in c1.pending {
        CollectDecides(c1, events[1..], n);
      } else {
        CollectKeeps(c1, events[1..], n);
      }
    }
  }

  lemma {:induction false} CollectKeeps(c: Collection, events: seq<Event>, n: string)
    requires n !in c.pending
    ensures n !in Collect(c, events).pending
    ensures n in c.results ==> n in Collect(c, events).results && Collect(c, events).results[n] == c.results[n]
    ensures n !in c.results ==> n !in Collect(c, events).results
    decreases events
  {
    if c.pending != {} && events != [] {
      CollectKeeps(if events[0].CtxDone? then TimeOut(c) else Receive(c, events[0].result), events[1..], n);
    }
  }

  /** The first event that concerns a pending name is what decides it: its result, or the end of the context. */
  lemma {:induction false} FirstDecides(c: Collection, events: seq<Event>, n: string, k: nat)
    requires n in c.pending && k < |events|
    requires forall i :: 0 <= i < k ==> events[i].Received? && events[i].result.name != n
    requires events[k].CtxDone? || events[k].result.name == n
    ensures var c' := Collect(c, events);
            n in c'.results && c'.results[n] == if events[k].CtxDone? then "error" else events[k].result.status
    decreases k
  {
    var c1 := if events[0].CtxDone? then TimeOut(c) else Receive(c, events[0].result);
    if k == 0 {
      CollectKeeps(c1, events[1..], n);
    } else {
      FirstDecides(c1, events[1..], n, k - 1);
    }
  }

  predicate Degraded(results: map<string, string>) {
    exists n :: n in results && results[n] == ERROR
  }

  /** healthStatus: the map is visited in no particular order. */
  method HealthStatus(results: map<string, string>) returns (status: string, code: int)
    ensures (status, code) == if Degraded(results) then ("degraded", 503) else ("ok", 200)
    ensures code == 200 <==> forall n :: n in results ==> results[n] != "error"
  {
    var left := results.Keys;
    while left != {}
      invariant left <= results.Keys
      invariant forall n :: n in results && n !in left ==> results[n] != ERROR
      decreases left
    {
      var n :| n in left;
      if results[n] == ERROR {
        return "degraded", 503;
      }
      left := left - {n};
    }
    return OK, 200;
  }

  /** What a checker's `current` field holds: the number of the run in flight, if there is one. */
  datatype Flight = Idle | InFlight(run: nat)

  /** The run that `start` hands out: the one in flight, or the next new one. */
  function HandOut(c: Flight, next: nat): nat {
    if c.InFlight? then c.run else next
  }

  /** What the end of run `i` leaves in `current`. */
  function AfterEnd(c: Flight, i: nat): Flight {
    if c == InFlight(i) then Idle else c
  }

  /** One run of a check, shared by all who wait for it. Runs are numbered in the order in which they are made. */
  class HealthRun {
    ghost const number: nat
    var done: bool
    var result: Result

    constructor (ghost number: nat)
      ensures !done && this.number == number
    {
      this.number := number;
      done := false;
      result := Result("", "");
    }
  }

  class HealthCheckerState {
    var current: HealthRun?

    ghost function Flight(): Flight
      reads this
    {
      if current == null then Idle else InFlight(current.number)
    }

    /** start, under the mutex: join the run in flight, or install a new one that the caller must then launch. */
    method Start(ghost next: nat) returns (run: HealthRun, launch: bool)
      modifies this
      ensures launch <==> old(Flight()).Idle?
      ensures run.number == HandOut(old(Flight()), next) && Flight() == InFlight(run.number)
      ensures if launch then fresh(run) && !run.done else run == old(current)
      ensures current == run
    {
      if current != null {
        return current, false;
      }
      run := new HealthRun(next);
      current := run;
      launch := true;
    }

    /** The deferred end of a run: store the result, close `done`, and leave `current` free for the next start. */
    method Finish(name: string, verdict: Verdict, run: HealthRun)
      requires !run.done
      requires current != null && current != run ==> current.number != run.number
      modifies this, run
      ensures run.done && run.result == Result(name, StatusOf(verdict))
      ensures Flight() == AfterEnd(old(Flight()), run.number)
      ensures current == if old(current) == run then null else old(current)
    {
      var status := OK;
      if verdict == Panicked {
        status := ERROR;
      }
      if verdict == Failed {
        status := ERROR;
      }
      run.result := Result(name, status);
      run.done := true;
      if current == run {
        current := null;
      }
    }
  }
}
