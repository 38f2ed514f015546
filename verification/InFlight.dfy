/** The metrics middleware around any number of concurrent requests: the in-flight gauge and the request counter. */
module InFlight {

  datatype Labels = Labels(method_: string, path: string)
  datatype CountLabels = CountLabels(method_: string, path: string, status: int)

  /** What the path function answers at one call: there is none, it returns a pattern, or it panics. */
  datatype PathAnswer = NoFunction | Pattern(path: string) | PathPanics

  const STANDARD: set<string> := {"GET", "HEAD", "POST", "PUT", "DELETE", "CONNECT", "OPTIONS", "TRACE", "PATCH"}

  /** metricMethod */
  function MetricMethod(m: string): string {
    if m in STANDARD then m else "unknown"
  }

  /** metricPath, when the path function does not panic */
  function MetricPath(answer: PathAnswer, status: int): string
    requires !answer.PathPanics?
  {
    var path := if answer.NoFunction? then "/unknown" else answer.path;
    if path != "" then path else if status == 404 then "/not-found" else "/unknown"
  }

  /** The labels captured when a request enters, with no status yet. */
  function EntryLabels(m: string, answer: PathAnswer): Labels
    requires !answer.PathPanics?
  {
    Labels(MetricMethod(m), MetricPath(answer, 0))
  }

  /** Options fixed when the middleware is made; `...Fit` says whether a registered collector takes these labels. */
  datatype Config = Config(withInFlight: bool, gaugeFits: bool, counterFits: bool)

  /**
    Where a request stands that is inside the middleware: in the handler; returned from it with this status, to be
    counted under what the path function answers now; unwinding a panic; or with its counting behind it.
   */
  datatype Phase = InHandler | Returned(answer: PathAnswer, status: int) | Unwinding | Finished

  datatype Visit = Visit(labels: Labels, phase: Phase)

  datatype State = State(gauge: map<Labels, int>, counter: multiset<CountLabels>, inside: map<int, Visit>)

  datatype Action =
    | Enter(id: int, m: string, answer: PathAnswer)
    | Return(id: int, answer: PathAnswer, status: int)
    | Panic(id: int)
    | Count(id: int)
    | Leave(id: int)

  const START := State(map[], multiset{}, map[])

  function GaugeAt(s: State, l: Labels): int {
    if l in s.gauge then s.gauge[l] else 0
  }

  function Add(cfg: Config, s: State, l: Labels, value: int): State {
    if cfg.withInFlight && cfg.gaugeFits then s.(gauge := s.gauge[l := GaugeAt(s, l) + value]) else s
  }

  /** Only a request that returned is counted, and only one that unwinds or has its counting behind it leaves. */
  predicate Enabled(s: State, a: Action) {
    if a.Enter? then a.id !in s.inside
    else
      a.id in s.inside &&
      var phase := s.inside[a.id].phase;
      match a
      case Return(_, _, _) => phase == InHandler
      case Panic(_) => phase == InHandler
      case Count(_) => phase.Returned?
      case Leave(_) => phase == Unwinding || phase == Finished
  }

  function To(s: State, id: int, phase: Phase): State
    requires id in s.inside
  {
    s.(inside := s.inside[id := s.inside[id].(phase := phase)])
  }

  /** Asking the path function, then the counter; the function's panic unwinds, the counter's is swallowed. */
  function Counted(cfg: Config, s: State, id: int): State
    requires id in s.inside && s.inside[id].phase.Returned?
  {
    var visit := s.inside[id];
    if visit.phase.answer.PathPanics? then To(s, id, Unwinding)
    else
      var path := MetricPath(visit.phase.answer, visit.phase.status);
      var l := CountLabels(visit.labels.method_, path, visit.phase.status);
      var s' := To(s, id, Finished);
      if cfg.counterFits then s'.(counter := s.counter + multiset{l}) else s'
  }

  function Apply(cfg: Config, s: State, a: Action): State
    requires Enabled(s, a)
  {
    match a
    case Enter(id, m, answer) =>
      if answer.PathPanics? then s
      else
        var l := EntryLabels(m, answer);
        Add(cfg, s, l, 1).(inside := s.inside[id := Visit(l, InHandler)])
    case Return(id, answer, status) => To(s, id, Returned(answer, status))
    case Panic(id) => To(s, id, Unwinding)
    case Count(id) => Counted(cfg, s, id)
    case Leave(id) => Add(cfg, s, s.inside[id].labels, -1).(inside := s.inside - {id})
  }

  predicate Legal(cfg: Config, s: State, run: seq<Action>)
    decreases run
  {
    run == [] || (Enabled(s, run[0]) && Legal(cfg, Apply(cfg, s, run[0]), run[1..]))
  }

  function Exec(cfg: Config, s: State, run: seq<Action>): State
    requires Legal(cfg, s, run)
    decreases run
  {
    if run == [] then s else Exec(cfg, Apply(cfg, s, run[0]), run[1..])
  }

  /** The requests inside with the labels `l`. */
  function Inside(s: State, l: Labels): set<int> {
    set id | id in s.inside && s.inside[id].labels == l
  }

  ghost predicate GaugeInv(cfg: Config, s: State) {
    forall l :: GaugeAt(s, l) == if cfg.withInFlight && cfg.gaugeFits then |Inside(s, l)| else 0
  }

  lemma GaugeKept(cfg: Config, s: State, a: Action)
    requires GaugeInv(cfg, s) && Enabled(s, a)
    ensures GaugeInv(cfg, Apply(cfg, s, a))
  {
    var s' := Apply(cfg, s, a);
    forall l
      ensures GaugeAt(s', l) == if cfg.withInFlight && cfg.gaugeFits then |Inside(s', l)| else 0
    {
      assert GaugeAt(s, l) == if cfg.withInFlight && cfg.gaugeFits then |Inside(s, l)| else 0;
      InsideMoves(cfg, s, a, l);
    }
  }

  /** How one action changes the requests inside with labels `l`. */
  lemma InsideMoves(cfg: Config, s: State, a: Action, l: Labels)
    requires Enabled(s, a)
    ensures var s' := Apply(cfg, s, a);
            |Inside(s', l)| == |Inside(s, l)| +
              (if a.Enter? && !a.answer.PathPanics? && l == EntryLabels(a.m, a.answer) then 1
               else if a.Leave? && l == s.inside[a.id].labels then -1 else 0)
  {
    var s' := Apply(cfg, s, a);
    match a
    case Enter(id, m, answer) =>
      if !answer.PathPanics? {
        Entered(s, s', id, EntryLabels(m, answer), l);
      }
    case Leave(id) => Left(s, s', id, l);
    case _ => assert Inside(s', l) == Inside(s, l);
  }

  lemma Entered(s: State, s': State, id: int, labels: Labels, l: Labels)
    requires id !in s.inside && s'.inside == s.inside[id := Visit(labels, InHandler)]
    ensures |Inside(s', l)| == |Inside(s, l)| + if l == labels then 1 else 0
  {
    assert Inside(s', l) == if l == labels then Inside(s, l) + {id} else Inside(s, l);
  }

  lemma Left(s: State, s': State, id: int, l: Labels)
    requires id in s.inside && s'.inside == s.inside - {id}
    ensures |Inside(s', l)| == |Inside(s, l)| - if l == s.inside[id].labels then 1 else 0
  {
    assert Inside(s', l) == if l == s.inside[id].labels then Inside(s, l) - {id} else Inside(s, l);
  }

  lemma {:induction false} RunKeepsGauge(cfg: Config, s: State, run: seq<Action>)
    requires GaugeInv(cfg, s) && Legal(cfg, s, run)
    ensures GaugeInv(cfg, Exec(cfg, s, run))
    decreases run
  {
    if run != [] {
      GaugeKept(cfg, s, run[0]);
      RunKeepsGauge(cfg, Apply(cfg, s, run[0]), run[1..]);
    }
  }

  /** The requests inside after these actions, each with the method it came with and what the path function answered. */
  function Live(live: map<int, (string, PathAnswer)>, run: seq<Action>): map<int, (string, PathAnswer)>
    decreases run
  {
    if run == [] then live
    else
      match run[0]
      case Enter(id, m, answer) => Live(if answer.PathPanics? then live else live[id := (m, answer)], run[1..])
      case Leave(id) => Live(live - {id}, run[1..])
      case _ => Live(live, run[1..])
  }

  ghost predicate CameSo(s: State, live: map<int, (string, PathAnswer)>) {
    && (forall id :: id in s.inside <==> id in live)
    && forall id :: id in live ==>
         !live[id].1.PathPanics? && s.inside[id].labels == EntryLabels(live[id].0, live[id].1)
  }

  lemma CameSoStep(cfg: Config, s: State, live: map<int, (string, PathAnswer)>, a: Action)
    requires CameSo(s, live) && Enabled(s, a)
    ensures CameSo(Apply(cfg, s, a), Live(live, [a]))
  {
    assert [a][1..] == [];
  }

  lemma {:induction false} LiveOverRun(cfg: Config, s: State, live: map<int, (string, PathAnswer)>, run: seq<Action>)
    requires CameSo(s, live) && Legal(cfg, s, run)
    ensures CameSo(Exec(cfg, s, run), Live(live, run))
    decreases run
  {
    if run != [] {
      CameSoStep(cfg, s, live, run[0]);
      assert [run[0]][1..] == [] && Live(live, run) == Live(Live(live, [run[0]]), run[1..]);
      LiveOverRun(cfg, Apply(cfg, s, run[0]), Live(live, [run[0]]), run[1..]);
    }
  }

  /** The requests inside that came with the labels `l`. */
  function LiveWith(live: map<int, (string, PathAnswer)>, l: Labels): set<int> {
    set id | id in live && !live[id].1.PathPanics? && EntryLabels(live[id].0, live[id].1) == l
  }

  /**
    Over every interleaving of requests, panics included, and whatever the path function answers later: the gauge of
    each pair of labels is the number of requests inside that entered with them, read off the bare list of actions.
   */
  lemma GaugeIsInside(cfg: Config, run: seq<Action>, l: Labels)
    requires Legal(cfg, START, run) && cfg.withInFlight && cfg.gaugeFits
    ensures GaugeAt(Exec(cfg, START, run), l) == |LiveWith(Live(map[], run), l)|
  {
    assert GaugeInv(cfg, START) by {
      forall k
        ensures GaugeAt(START, k) == 0 && |Inside(START, k)| == 0
      {
        assert Inside(START, k) == {};
      }
    }
    RunKeepsGauge(cfg, START, run);
    LiveOverRun(cfg, START, map[], run);
    var s, live := Exec(cfg, START, run), Live(map[], run);
    forall id
      ensures id in Inside(s, l) <==> id in LiveWith(live, l)
    {
    }
    assert Inside(s, l) == LiveWith(live, l);
  }

  /** The labels: nine methods by name and all others alike, so that they are bounded; a path that is never empty. */
  lemma LabelsAre(m: string, answer: PathAnswer, status: int)
    requires !answer.PathPanics?
    ensures MetricMethod(m) == if m in {"GET", "HEAD", "POST", "PUT", "DELETE", "CONNECT", "OPTIONS", "TRACE", "PATCH"}
                               then m else "unknown"
    ensures answer.Pattern? && answer.path != "" ==> MetricPath(answer, status) == answer.path
    ensures answer.Pattern? && answer.path == "" ==>
              MetricPath(answer, status) == if status == 404 then "/not-found" else "/unknown"
    ensures answer.NoFunction? ==> MetricPath(answer, status) == "/unknown"
    ensures EntryLabels(m, answer)
         == Labels(MetricMethod(m), if answer.Pattern? && answer.path != "" then answer.path else "/unknown")
  {
    assert "/unknown"[0] == '/';
  }

  // ---- the counter, against the bare list of what happened ----

  /** `a` is the return of a request, entered with method `m`, that is to be counted under `l`. */
  predicate ReturnsAs(a: Action, m: string, l: CountLabels) {
    a.Return? && !a.answer.PathPanics? && l == CountLabels(MetricMethod(m), MetricPath(a.answer, a.status), a.status)
  }

  /** How many requests return in `run` with a path to report that gives the labels `l`; `methods` has those inside. */
  function Returns(methods: map<int, string>, run: seq<Action>, l: CountLabels): nat
    decreases run
  {
    if run == [] then 0
    else
      var a := run[0];
      if a.Enter? then Returns(methods[a.id := a.m], run[1..], l)
      else (if a.id in methods && ReturnsAs(a, methods[a.id], l) then 1 else 0) + Returns(methods, run[1..], l)
  }

  /** `methods` has the method that each request inside came with. */
  ghost predicate CameWith(s: State, methods: map<int, string>) {
    forall id :: id in s.inside ==> id in methods && s.inside[id].labels.method_ == MetricMethod(methods[id])
  }

  predicate Owes(v: Visit, l: CountLabels) {
    && v.phase.Returned? && !v.phase.answer.PathPanics?
    && l == CountLabels(v.labels.method_, MetricPath(v.phase.answer, v.phase.status), v.phase.status)
  }

  /** The requests inside that returned and are yet to be counted under `l`. */
  function Owing(s: State, l: CountLabels): set<int> {
    set id | id in s.inside && Owes(s.inside[id], l)
  }

  function Credit(s: State, l: CountLabels): nat {
    s.counter[l] + |Owing(s, l)|
  }

  /** `a` is the return of a request that is then to be counted under `l`. */
  predicate Earns(methods: map<int, string>, a: Action, l: CountLabels) {
    a.Return? && a.id in methods && ReturnsAs(a, methods[a.id], l)
  }

  function OwingAfter(s: State, methods: map<int, string>, a: Action, l: CountLabels): set<int> {
    if Earns(methods, a, l) then Owing(s, l) + {a.id} else if a.Count? then Owing(s, l) - {a.id} else Owing(s, l)
  }

  lemma OwingMoves(cfg: Config, s: State, methods: map<int, string>, a: Action, l: CountLabels)
    requires CameWith(s, methods) && Enabled(s, a)
    ensures Owing(Apply(cfg, s, a), l) == OwingAfter(s, methods, a, l)
  {
  }

  lemma CounterMoves(cfg: Config, s: State, a: Action, l: CountLabels)
    requires cfg.counterFits && Enabled(s, a)
    ensures Apply(cfg, s, a).counter[l] == s.counter[l] + if a.Count? && a.id in Owing(s, l) then 1 else 0
  {
  }

  lemma CreditMoves(cfg: Config, s: State, methods: map<int, string>, a: Action, l: CountLabels)
    requires cfg.counterFits && CameWith(s, methods) && Enabled(s, a)
    ensures Credit(Apply(cfg, s, a), l) == Credit(s, l) + if Earns(methods, a, l) then 1 else 0
  {
    OwingMoves(cfg, s, methods, a, l);
    CounterMoves(cfg, s, a, l);
  }

  lemma CameWithKept(cfg: Config, s: State, methods: map<int, string>, a: Action)
    requires CameWith(s, methods) && Enabled(s, a)
    ensures CameWith(Apply(cfg, s, a), if a.Enter? then methods[a.id := a.m] else methods)
  {
  }

  lemma {:induction false} CreditOverRun(cfg: Config, s: State, methods: map<int, string>, run: seq<Action>,
                                         l: CountLabels)
    requires cfg.counterFits && CameWith(s, methods) && Legal(cfg, s, run)
    ensures Credit(Exec(cfg, s, run), l) == Credit(s, l) + Returns(methods, run, l)
    decreases run
  {
    if run != [] {
      var a := run[0];
      CreditMoves(cfg, s, methods, a, l);
      CameWithKept(cfg, s, methods, a);
      CreditOverRun(cfg, Apply(cfg, s, a), if a.Enter? then methods[a.id := a.m] else methods, run[1..], l);
    }
  }

  lemma {:induction false} UnfitCounterEmpty(cfg: Config, s: State, run: seq<Action>)
    requires !cfg.counterFits && Legal(cfg, s, run)
    ensures Exec(cfg, s, run).counter == s.counter
    decreases run
  {
    if run != [] {
      UnfitCounterEmpty(cfg, Apply(cfg, s, run[0]), run[1..]);
    }
  }

  /**
    The counter against what happened, for every pair of method and path and every status: it has one increment for
    each request that returned with them, but for those that have not come to it yet; so when all have left, for each.
    A counter that does not take these labels stays empty.
   */
  lemma CounterIsReturned(cfg: Config, run: seq<Action>, l: CountLabels)
    requires Legal(cfg, START, run)
    ensures var s := Exec(cfg, START, run);
            if cfg.counterFits then
              && s.counter[l] + |Owing(s, l)| == Returns(map[], run, l)
              && (s.inside == map[] ==> s.counter[l] == Returns(map[], run, l))
            else s.counter == multiset{}
  {
    var s := Exec(cfg, START, run);
    if cfg.counterFits {
      assert Owing(START, l) == {};
      CreditOverRun(cfg, START, map[], run, l);
      if s.inside == map[] {
        assert Owing(s, l) == {};
      }
    } else {
      UnfitCounterEmpty(cfg, START, run);
    }
  }

  // ---- no request is counted twice or forgotten ----

  /** Its counting is still to come, unless it panics. */
  predicate Pending(s: State, id: int) {
    && id in s.inside
    && var phase := s.inside[id].phase; phase == InHandler || (phase.Returned? && !phase.answer.PathPanics?)
  }

  function One(b: bool): nat {
    if b then 1 else 0
  }

  /** `a` is a request that gets past the path function. */
  predicate Enters(a: Action) {
    a.Enter? && !a.answer.PathPanics?
  }

  /** `a` is the panic of a handler, or a return with no path to report. */
  predicate Escapes(a: Action) {
    a.Panic? || (a.Return? && a.answer.PathPanics?)
  }

  /** How often the request `id` enters in a run. */
  function Entries(run: seq<Action>, id: int): nat {
    if run == [] then 0 else One(run[0].id == id && Enters(run[0])) + Entries(run[1..], id)
  }

  function Escaped(run: seq<Action>, id: int): nat {
    if run == [] then 0 else One(run[0].id == id && Escapes(run[0])) + Escaped(run[1..], id)
  }

  /** By how much the counter grows, under whatever labels, at the actions of the request `id`. */
  function Increments(cfg: Config, s: State, run: seq<Action>, id: int): int
    requires Legal(cfg, s, run)
    decreases run
  {
    if run == [] then 0
    else
      var s' := Apply(cfg, s, run[0]);
      (if run[0].id == id then |s'.counter| - |s.counter| else 0) + Increments(cfg, s', run[1..], id)
  }

  lemma PendingMoves(cfg: Config, s: State, a: Action, id: int)
    requires Enabled(s, a)
    ensures Pending(Apply(cfg, s, a), id) <==>
              if a.id != id then Pending(s, id) else Enters(a) || (Pending(s, id) && !Escapes(a) && !a.Count?)
  {
  }

  lemma GrowthIsCount(cfg: Config, s: State, a: Action)
    requires cfg.counterFits && Enabled(s, a)
    ensures |Apply(cfg, s, a).counter| - |s.counter| == One(a.Count? && Pending(s, a.id))
  {
  }

  lemma OneRequestMoves(cfg: Config, s: State, a: Action, id: int)
    requires cfg.counterFits && Enabled(s, a)
    ensures One(Pending(Apply(cfg, s, a), id))
            + One(a.id == id && Escapes(a)) + One(a.id == id && a.Count? && Pending(s, id))
         == One(Pending(s, id)) + One(a.id == id && Enters(a))
  {
    PendingMoves(cfg, s, a, id);
  }

  lemma {:induction false} OneRequestOverRun(cfg: Config, s: State, run: seq<Action>, id: int)
    requires cfg.counterFits && Legal(cfg, s, run)
    ensures Increments(cfg, s, run, id) + Escaped(run, id) + One(Pending(Exec(cfg, s, run), id))
         == One(Pending(s, id)) + Entries(run, id)
    decreases run
  {
    if run != [] {
      OneRequestMoves(cfg, s, run[0], id);
      GrowthIsCount(cfg, s, run[0]);
      OneRequestOverRun(cfg, Apply(cfg, s, run[0]), run[1..], id);
    }
  }

  lemma {:induction false} NeverNegative(cfg: Config, s: State, run: seq<Action>, id: int)
    requires Legal(cfg, s, run)
    ensures Increments(cfg, s, run, id) >= 0
    decreases run
  {
    if run != [] {
      NeverNegative(cfg, Apply(cfg, s, run[0]), run[1..], id);
    }
  }

  /**
    Over every run and for each request by itself: a request that enters once makes the counter grow by exactly one,
    unless its handler panicked or left no path to report, or its counting is still to come; then by nothing.
   */
  lemma EachRequestCountedOnce(cfg: Config, run: seq<Action>, id: int)
    requires Legal(cfg, START, run) && cfg.counterFits && Entries(run, id) == 1
    ensures Increments(cfg, START, run, id)
         == One(Escaped(run, id) == 0 && !Pending(Exec(cfg, START, run), id))
  {
    OneRequestOverRun(cfg, START, run, id);
    NeverNegative(cfg, START, run, id);
  }

  /** One request by itself, whatever it comes with: it is on the gauge while it is inside, and then in the counter. */
  lemma OneRequest(cfg: Config, id: int, m: string, path: string, status: int)
    requires cfg.withInFlight && cfg.gaugeFits && cfg.counterFits && path != ""
    ensures var run := [Enter(id, m, Pattern(path)), Return(id, Pattern(path), status), Count(id), Leave(id)];
            && Legal(cfg, START, run)
            && GaugeAt(Apply(cfg, START, run[0]), Labels(MetricMethod(m), path)) == 1
            && Exec(cfg, START, run).counter == multiset{CountLabels(MetricMethod(m), path, status)}
            && Exec(cfg, START, run).inside == map[]
            && GaugeAt(Exec(cfg, START, run), Labels(MetricMethod(m), path)) == 0
  {
    var run := [Enter(id, m, Pattern(path)), Return(id, Pattern(path), status), Count(id), Leave(id)];
    var s1 := Apply(cfg, START, run[0]);
    var s2 := Apply(cfg, s1, run[1]);
    var s3 := Apply(cfg, s2, run[2]);
    assert run[1..][1..][1..][1..] == [] && run[1..][1..][1..] == [Leave(id)];
    assert run[1..][1..] == [Count(id), Leave(id)];
    assert run[1..] == [Return(id, Pattern(path), status), Count(id), Leave(id)];
    var s4 := Apply(cfg, s3, Leave(id));
    assert Legal(cfg, s3, [Leave(id)]) && Exec(cfg, s3, [Leave(id)]) == s4;
    assert Legal(cfg, s2, run[1..][1..]) && Exec(cfg, s2, run[1..][1..]) == s4;
    assert Legal(cfg, s1, run[1..]) && Exec(cfg, s1, run[1..]) == s4;
    assert Legal(cfg, START, run) && Exec(cfg, START, run) == s4;
    assert multiset{} + multiset{CountLabels(MetricMethod(m), path, status)} == s3.counter;
  }

  /** The collectors as the middleware's closures update them. */
  class Collectors {
    const cfg: Config
    var gauge: map<Labels, int>
    var counter: multiset<CountLabels>
    var inside: map<int, Visit>

    function Value(): State
      reads this
    {
      State(gauge, counter, inside)
    }

    constructor (cfg: Config)
      ensures this.cfg == cfg && Value() == START
    {
      this.cfg := cfg;
      gauge, counter, inside := map[], multiset{}, map[];
    }

    /** addGaugeVec: a panic over unfitting labels is swallowed. */
    method AddGauge(value: int, l: Labels) returns (ok: bool)
      modifies this`gauge
      ensures ok == cfg.gaugeFits
      ensures gauge == if ok then old(gauge)[l := old(GaugeAt(Value(), l)) + value] else old(gauge)
    {
      if !cfg.gaugeFits {
        return false;
      }
      gauge := gauge[l := GaugeAt(Value(), l) + value];
      ok := true;
    }

    /** From entry to the call of the next handler; `panicked` when the path function panics first. */
    method Begin(id: int, m: string, answer: PathAnswer) returns (panicked: bool)
      requires id !in inside
      modifies this
      ensures panicked == answer.PathPanics? && Value() == Apply(cfg, old(Value()), Enter(id, m, answer))
    {
      if answer.PathPanics? {
        return true;
      }
      var l := EntryLabels(m, answer);
      if cfg.withInFlight {
        var _ := AddGauge(1, l);
      }
      inside := inside[id := Visit(l, InHandler)];
      panicked := false;
    }

    /** incCounterVec: a panic over unfitting labels is swallowed. */
    method IncCounter(l: CountLabels) returns (ok: bool)
      modifies this`counter
      ensures ok == cfg.counterFits
      ensures counter == if ok then old(counter) + multiset{l} else old(counter)
    {
      if !cfg.counterFits {
        return false;
      }
      counter := counter + multiset{l};
      ok := true;
    }

    /** After the handler returned, up to the deferred function. */
    method Record(id: int, answer: PathAnswer, status: int)
      requires id in inside && inside[id].phase == Returned(answer, status)
      modifies this
      ensures Value() == Apply(cfg, old(Value()), Count(id))
    {
      var visit := inside[id];
      if answer.PathPanics? {
        inside := inside[id := visit.(phase := Unwinding)];
        return;
      }
      var _ := IncCounter(CountLabels(visit.labels.method_, MetricPath(answer, status), status));
      inside := inside[id := visit.(phase := Finished)];
    }

    /** The deferred decrement, with the labels captured at entry. */
    method End(id: int)
      requires id in inside && (inside[id].phase == Unwinding || inside[id].phase == Finished)
      modifies this
      ensures Value() == Apply(cfg, old(Value()), Leave(id))
    {
      if cfg.withInFlight {
        var _ := AddGauge(-1, inside[id].labels);
      }
      inside := inside - {id};
    }
  }
}
