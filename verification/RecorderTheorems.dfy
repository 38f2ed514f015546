/** What a stack of recorders reports, against what the server sends; and what Recoverer adds after a panic. */
module RecorderTheorems {
  import opened Recorders
  import opened Text

  function Apply(w: Writer, op: Op): (w': Writer)
    ensures SameShape(w, w')
  {
    match op
    case WriteHeader(code) => DoWriteHeader(w, code)
    case Write(s) => DoWrite(w, s)
    case ReadFrom(pieces) => DoReadFrom(w, pieces, false)
    case Flush => DoFlush(w)
  }

  function Run(w: Writer, ops: seq<Op>): (w': Writer)
    ensures SameShape(w, w')
    decreases ops
  {
    if ops == [] then w else Run(Apply(w, ops[0]), ops[1..])
  }

  /** What a level answers to Status(). */
  function Reported(status: int): int {
    if status == 0 then 200 else status
  }

  /** The answers of all levels to Status(), from the outside in. */
  function Statuses(w: Writer): (r: seq<int>)
    ensures |r| == Depth(w)
  {
    if w.Server? then [] else [Reported(w.status)] + Statuses(w.inner)
  }

  /** Every level has recorded `c`, or none has claimed the header when `c` is 0. */
  predicate Claimed(w: Writer, c: int) {
    match w
    case Server(_) => true
    case Logging(status, _, sent, inner) => status == c && (sent <==> c != 0) && Claimed(inner, c)
    case Metrics(status, inner) => status == c && Claimed(inner, c)
  }

  /** Every byte count is `n`. */
  predicate Counted(w: Writer, n: nat) {
    match w
    case Server(_) => true
    case Logging(_, bytes, _, inner) => bytes == n && Counted(inner, n)
    case Metrics(_, inner) => Counted(inner, n)
  }

  /** A new stack over a server that has sent nothing. */
  predicate Fresh(w: Writer) {
    Claimed(w, 0) && Counted(w, 0) && BaseOf(w) == Base(BaseOf(w).flusher, 0, [], "")
  }

  /**
    What the recorders' kinds decide: whether a metrics level is there, and whether the outermost Flush does anything.
   */
  datatype Traits = Traits(metrics: bool, flushes: bool)

  function TraitsOf(w: Writer): Traits {
    Traits(IsMetrics in Kinds(w), Depth(w) >= 2 || BaseOf(w).flusher)
  }

  /** One recorder: the recorded code (0 for none) and the server under it. */
  function OneStep(t: Traits, c: int, b: Base, op: Op): (int, Base) {
    match op
    case WriteHeader(code) => if c == 0 then (code, BaseHeader(b, code)) else (c, b)
    case Write(s) => if c == 0 then (200, BaseWrite(BaseHeader(b, 200), s)) else (c, BaseWrite(b, s))
    case ReadFrom(pieces) =>
      if c == 0 then (200, BaseReadFrom(if t.metrics then BaseHeader(b, 200) else b, pieces))
      else (c, BaseReadFrom(b, pieces))
    case Flush =>
      if c != 0 then (c, BaseFlush(b)) else if t.flushes then (200, BaseFlush(BaseHeader(b, 200))) else (0, b)
  }

  function OneRun(t: Traits, c: int, b: Base, ops: seq<Op>): (int, Base)
    decreases ops
  {
    if ops == [] then (c, b)
    else
      var (c', b') := OneStep(t, c, b, ops[0]);
      OneRun(t, c', b', ops[1..])
  }

  /** No WriteHeader of these panics: only the call that claims the header gets as far as the server. */
  predicate ValidOps(t: Traits, ops: seq<Op>) {
    if ops == [] then true
    else
      match ops[0]
      case WriteHeader(code) => ValidCode(code)
      case Flush => t.flushes || ValidOps(t, ops[1..])
      case _ => true
  }

  // ---- a stack acts as one recorder ----

  lemma {:induction false} HeaderLevels(w: Writer, c: int, code: int)
    requires Claimed(w, c) && (c != 0 || code != 0)
    ensures Claimed(DoWriteHeader(w, code), if c == 0 then code else c)
    ensures BaseOf(DoWriteHeader(w, code)) == if c == 0 || Depth(w) == 0 then BaseHeader(BaseOf(w), code) else BaseOf(w)
    ensures forall n :: Counted(w, n) ==> Counted(DoWriteHeader(w, code), n)
  {
    if !w.Server? {
      HeaderLevels(w.inner, c, code);
    }
  }

  lemma {:induction false} WriteLevels(w: Writer, c: int, s: string)
    requires Claimed(w, c)
    ensures Claimed(DoWrite(w, s), if c == 0 then 200 else c)
    ensures BaseOf(DoWrite(w, s))
         == BaseWrite(if c == 0 && Depth(w) > 0 then BaseHeader(BaseOf(w), 200) else BaseOf(w), s)
    ensures forall n: nat :: Counted(w, n) ==> Counted(DoWrite(w, s), n + |s|)
    decreases Depth(w)
  {
    if !w.Server? {
      if c == 0 {
        HeaderLevels(w.inner, 0, 200);
        WriteLevels(DoWriteHeader(w.inner, 200), 200, s);
      } else {
        WriteLevels(w.inner, c, s);
      }
    }
  }

  lemma {:induction false} ReadFromLevels(w: Writer, c: int, pieces: seq<string>, quiet: bool)
    requires Claimed(w, c)
    ensures Claimed(DoReadFrom(w, pieces, quiet), if c == 0 then 200 else c)
    ensures BaseOf(DoReadFrom(w, pieces, quiet))
         == BaseReadFrom(if c == 0 && IsMetrics in Kinds(w) then BaseHeader(BaseOf(w), 200) else BaseOf(w), pieces)
    ensures forall n: nat :: Counted(w, n) ==>
              Counted(DoReadFrom(w, pieces, quiet), if quiet then n else n + |Concat(pieces)|)
    decreases Depth(w)
  {
    if !w.Server? {
      if c == 0 && w.Metrics? {
        HeaderLevels(w.inner, 0, 200);
        ReadFromLevels(DoWriteHeader(w.inner, 200), 200, pieces, quiet);
      } else {
        ReadFromLevels(w.inner, c, pieces, quiet);
      }
    }
  }

  lemma FlushesIffInner(w: Writer)
    requires !w.Server?
    ensures TraitsOf(w).flushes <==> IsFlusher(w.inner)
  {
    if w.inner.Server? {
      assert Depth(w.inner) == 0 && BaseOf(w.inner) == w.inner.base;
    }
  }

  lemma {:induction false} FlushLevels(w: Writer, c: int)
    requires Claimed(w, c)
    ensures Depth(w) > 0 && c == 0 && TraitsOf(w).flushes ==>
              Claimed(DoFlush(w), 200) && BaseOf(DoFlush(w)) == BaseFlush(BaseHeader(BaseOf(w), 200))
    ensures Depth(w) > 0 && c == 0 && !TraitsOf(w).flushes ==> DoFlush(w) == w
    ensures c != 0 || Depth(w) == 0 ==> Claimed(DoFlush(w), c) && BaseOf(DoFlush(w)) == BaseFlush(BaseOf(w))
    ensures forall n: nat :: Counted(w, n) ==> Counted(DoFlush(w), n)
    decreases Depth(w)
  {
    if !w.Server? {
      FlushesIffInner(w);
    }
    if !w.Server? && IsFlusher(w.inner) {
      if c == 0 {
        HeaderLevels(w.inner, 0, 200);
        FlushLevels(DoWriteHeader(w.inner, 200), 200);
      } else {
        FlushLevels(w.inner, c);
      }
    }
  }

  lemma ShapeKeepsTraits(w: Writer, w': Writer)
    requires SameShape(w, w')
    ensures TraitsOf(w') == TraitsOf(w) && Depth(w') == Depth(w)
  {
    assert |Kinds(w)| == |Kinds(w')|;
  }

  /** The levels after one call, all as the single recorder has it. */
  lemma StackStep(w: Writer, c: int, op: Op)
    requires Claimed(w, c) && Depth(w) > 0 && (op.WriteHeader? ==> c != 0 || ValidCode(op.code))
    ensures var (c', b') := OneStep(TraitsOf(w), c, BaseOf(w), op);
            Claimed(Apply(w, op), c') && BaseOf(Apply(w, op)) == b'
  {
    match op
    case WriteHeader(code) => HeaderLevels(w, c, code);
    case Write(s) => WriteLevels(w, c, s);
    case ReadFrom(pieces) => ReadFromLevels(w, c, pieces, false);
    case Flush => FlushLevels(w, c);
  }

  /** How many bytes the connection takes of a call. */
  function Taken(op: Op): nat {
    if op.Write? then |op.taken| else if op.ReadFrom? then |Concat(op.pieces)| else 0
  }

  lemma BodyGrows(t: Traits, c: int, b: Base, op: Op)
    ensures |OneStep(t, c, b, op).1.body| == |b.body| + Taken(op)
  {
  }

  lemma CountGrows(w: Writer, c: int, op: Op, n: nat)
    requires Claimed(w, c) && (op.WriteHeader? ==> c != 0 || ValidCode(op.code)) && Counted(w, n)
    ensures Counted(Apply(w, op), n + Taken(op))
  {
    match op
    case WriteHeader(code) => HeaderLevels(w, c, code);
    case Write(s) => WriteLevels(w, c, s);
    case ReadFrom(pieces) => ReadFromLevels(w, c, pieces, false);
    case Flush => FlushLevels(w, c);
  }

  lemma CountStep(w: Writer, c: int, op: Op)
    requires Claimed(w, c) && Depth(w) > 0 && (op.WriteHeader? ==> c != 0 || ValidCode(op.code))
    requires Counted(w, |BaseOf(w).body|)
    ensures Counted(Apply(w, op), |BaseOf(Apply(w, op)).body|)
  {
    StackStep(w, c, op);
    BodyGrows(TraitsOf(w), c, BaseOf(w), op);
    CountGrows(w, c, op, |BaseOf(w).body|);
  }

  /** A stack of any kinds and depth acts on the server, and records, as a single recorder does. */
  lemma StackIsOneRecorder(w: Writer, c: int, op: Op)
    requires Claimed(w, c) && Depth(w) > 0 && (op.WriteHeader? ==> c != 0 || ValidCode(op.code))
    ensures var (c', b') := OneStep(TraitsOf(w), c, BaseOf(w), op);
            Claimed(Apply(w, op), c') && BaseOf(Apply(w, op)) == b'
    ensures TraitsOf(Apply(w, op)) == TraitsOf(w) && Depth(Apply(w, op)) == Depth(w)
    ensures Counted(w, |BaseOf(w).body|) ==> Counted(Apply(w, op), |BaseOf(Apply(w, op)).body|)
  {
    StackStep(w, c, op);
    ShapeKeepsTraits(w, Apply(w, op));
    if Counted(w, |BaseOf(w).body|) {
      CountStep(w, c, op);
    }
  }

  lemma {:induction false} RunIsOneRun(w: Writer, c: int, ops: seq<Op>)
    requires Claimed(w, c) && Depth(w) > 0 && (c != 0 || ValidOps(TraitsOf(w), ops))
    requires Counted(w, |BaseOf(w).body|)
    ensures var (c', b') := OneRun(TraitsOf(w), c, BaseOf(w), ops);
            Claimed(Run(w, ops), c') && BaseOf(Run(w, ops)) == b'
    ensures Counted(Run(w, ops), |BaseOf(Run(w, ops)).body|)
    decreases ops
  {
    if ops != [] {
      var (c', b') := OneStep(TraitsOf(w), c, BaseOf(w), ops[0]);
      StackIsOneRecorder(w, c, ops[0]);
      RunIsOneRun(Apply(w, ops[0]), c', ops[1..]);
    }
  }

  // ---- what is recorded, and what is sent ----

  /** The code of the first call that claims the header; 0 when there is none. */
  function FirstClaim(t: Traits, ops: seq<Op>): int {
    if ops == [] then 0
    else
      match ops[0]
      case WriteHeader(code) => code
      case Flush => if t.flushes then 200 else FirstClaim(t, ops[1..])
      case _ => 200
  }

  /** The server against the recorded code: a final code is what it sends, an interim one never is. */
  predicate Sends(c: int, b: Base) {
    && |b.calls| <= 1
    && (c == 0 ==> b.status == 0 && b.calls == [] && b.body == "")
    && (c != 0 && !Interim(c) ==> FinalStatus(b) == c)
    && (Interim(c) ==> FinalStatus(b) == 200)
  }

  lemma {:induction false} OneRunSends(t: Traits, c: int, b: Base, ops: seq<Op>)
    requires (c != 0 || ValidOps(t, ops)) && Sends(c, b)
    ensures var (c', b') := OneRun(t, c, b, ops);
            Sends(c', b') && c' == if c == 0 then FirstClaim(t, ops) else c
    decreases ops
  {
    if ops != [] {
      var (c', b') := OneStep(t, c, b, ops[0]);
      OneRunSends(t, c', b', ops[1..]);
    }
  }

  lemma {:induction false} ClaimedStatuses(w: Writer, c: int)
    requires Claimed(w, c)
    ensures forall i :: 0 <= i < |Statuses(w)| ==> Statuses(w)[i] == Reported(c)
  {
    if !w.Server? {
      ClaimedStatuses(w.inner, c);
    }
  }

  lemma {:induction false} FirstClaimValid(t: Traits, ops: seq<Op>)
    requires ValidOps(t, ops)
    ensures FirstClaim(t, ops) == 0 || ValidCode(FirstClaim(t, ops))
  {
    if ops != [] && ops[0].Flush? && !t.flushes {
      FirstClaimValid(t, ops[1..]);
    }
  }

  /** Every level reports the status that the server ends the request with. */
  predicate AllAgree(w: Writer) {
    forall i :: 0 <= i < |Statuses(w)| ==> Statuses(w)[i] == FinalStatus(BaseOf(w))
  }

  lemma AgreeIffFinal(w: Writer, c: int)
    requires Claimed(w, c) && Depth(w) > 0 && Sends(c, BaseOf(w)) && (c == 0 || ValidCode(c))
    ensures AllAgree(w) <==> !Interim(c)
  {
    ClaimedStatuses(w, c);
    assert Statuses(w)[0] == Reported(c);
  }

  /**
    Over any stack and any calls: every level reports the status the server ends the request with, exactly when the
    first call that claims the header is not an interim (1xx) WriteHeader. At most one WriteHeader reaches the server.
   */
  lemma LevelsAgreeIff(w: Writer, ops: seq<Op>)
    requires Fresh(w) && Depth(w) > 0 && ValidOps(TraitsOf(w), ops)
    ensures AllAgree(Run(w, ops)) <==> !Interim(FirstClaim(TraitsOf(w), ops))
    ensures |BaseOf(Run(w, ops)).calls| <= 1
  {
    RunIsOneRun(w, 0, ops);
    OneRunSends(TraitsOf(w), 0, BaseOf(w), ops);
    FirstClaimValid(TraitsOf(w), ops);
    assert Depth(Run(w, ops)) == |Kinds(w)|;
    AgreeIffFinal(Run(w, ops), FirstClaim(TraitsOf(w), ops));
  }

  lemma {:induction false} CallsStay(t: Traits, c: int, b: Base, ops: seq<Op>)
    requires c != 0
    ensures OneRun(t, c, b, ops).1.calls == b.calls
    decreases ops
  {
    if ops != [] {
      CallsStay(t, c, OneStep(t, c, b, ops[0]).1, ops[1..]);
    }
  }

  /** The code that a first call makes the answer's, when it claims the header. */
  function CodeOf(op: Op): int {
    if op.WriteHeader? then op.code else 200
  }

  /**
    The first call decides the status for all, whatever is called after it: the final code of a WriteHeader, and 200
    for a Write, a ReadFrom, or a Flush that does anything. One WriteHeader reaches the server, with that code; none
    does for a ReadFrom under no metrics level, which leaves it to the server.
   */
  lemma FirstCallDecides(w: Writer, op: Op, rest: seq<Op>)
    requires Fresh(w) && Depth(w) > 0
    requires op.WriteHeader? ==> ValidCode(op.code) && !Interim(op.code)
    requires op.Flush? ==> Depth(w) >= 2 || BaseOf(w).flusher
    ensures var w' := Run(w, [op] + rest);
            && FinalStatus(BaseOf(w')) == CodeOf(op)
            && BaseOf(w').calls == (if op.ReadFrom? && IsMetrics !in Kinds(w) then [] else [CodeOf(op)])
            && forall i :: 0 <= i < |Statuses(w')| ==> Statuses(w')[i] == CodeOf(op)
  {
    var ops, t := [op] + rest, TraitsOf(w);
    assert ops[1..] == rest;
    RunIsOneRun(w, 0, ops);
    OneRunSends(t, 0, BaseOf(w), ops);
    ClaimedStatuses(Run(w, ops), CodeOf(op));
    var (c, b) := OneStep(t, 0, BaseOf(w), op);
    CallsStay(t, c, b, rest);
  }

  /** The bytes that the connection takes of these calls, in order. */
  function Sent(ops: seq<Op>): string {
    if ops == [] then ""
    else
      (match ops[0]
       case Write(taken) => taken
       case ReadFrom(pieces) => Concat(pieces)
       case _ => "") + Sent(ops[1..])
  }

  lemma {:induction false} BodyIsSent(t: Traits, c: int, b: Base, ops: seq<Op>)
    ensures OneRun(t, c, b, ops).1.body == b.body + Sent(ops)
    decreases ops
  {
    if ops == [] {
      assert b.body + "" == b.body;
    } else {
      var (c', b') := OneStep(t, c, b, ops[0]);
      var first := Sent(ops)[..|Sent(ops)| - |Sent(ops[1..])|];
      assert Sent(ops) == first + Sent(ops[1..]);
      assert b'.body == b.body + first;
      BodyIsSent(t, c', b', ops[1..]);
      AppendAssoc(b.body, first, Sent(ops[1..]));
    }
  }

  /** Without a panic, the server sends the bytes of the calls, in order, and every byte count is their number. */
  lemma BytesAgree(w: Writer, ops: seq<Op>)
    requires Fresh(w) && Depth(w) > 0 && ValidOps(TraitsOf(w), ops)
    ensures BaseOf(Run(w, ops)).body == Sent(ops) && Counted(Run(w, ops), |Sent(ops)|)
  {
    RunIsOneRun(w, 0, ops);
    BodyIsSent(TraitsOf(w), 0, BaseOf(w), ops);
    assert "" + Sent(ops) == Sent(ops);
  }

  // ---- Recoverer ----

  const INTERNAL_ERROR := "{\"code\":\"INTERNAL_ERROR\",\"message\":\"Internal server error\"}"

  /**
    How a handler ends. A panic can come from the handler itself, from the source of a ReadFrom when it has given some
    bytes, or from a WriteHeader with a code that net/http does not accept; one from the server's Write is in
    RecorderLocks.
   */
  datatype Ending = Returns | Panics | PanicsReading(given: seq<string>) | PanicsInHeader(code: int)

  /**
    These calls are made without a panic, and then the handler can end so: a claimed header makes any code harmless.
   */
  predicate Possible(t: Traits, ops: seq<Op>, ending: Ending) {
    ValidOps(t, ops) && (ending.PanicsInHeader? ==> !ValidCode(ending.code) && FirstClaim(t, ops) == 0)
  }

  /**
    The deferred function of Recoverer: claim the header, and if it was free, send the fixed answer past `rw`; the
    connection takes `taken` of it.
   */
  function Recovered(rw: Writer, taken: string): Writer
    requires rw.Logging?
  {
    if rw.sent then rw
    else rw.(sent := true, inner := DoWrite(DoWriteHeader(rw.inner, 500), taken))
  }

  /** The calls the handler made, a panicking ReadFrom included. */
  function Calls(ops: seq<Op>, ending: Ending): seq<Op> {
    if ending.PanicsReading? then ops + [ReadFrom(ending.given)] else ops
  }

  /** Recoverer's own recorder when the handler has ended, before anything is recovered. */
  function Handled(w: Writer, ops: seq<Op>, ending: Ending): (rw: Writer)
    ensures rw.Logging? && SameShape(Logging(0, 0, false, w), rw)
  {
    var rw := Run(Logging(0, 0, false, w), ops);
    assert Kinds(rw)[0] == IsLogging;
    var rw' := if ending.PanicsReading? then DoReadFrom(rw, ending.given, true)
               else if ending.PanicsInHeader? then DoPanicHeader(rw, ending.code)
               else rw;
    assert Kinds(rw')[0] == IsLogging;
    rw'
  }

  /** The writer that was given to Recoverer, after the request. */
  function Served(w: Writer, ops: seq<Op>, ending: Ending, taken: string): Writer {
    var rw := Handled(w, ops, ending);
    if ending.Returns? then rw.inner else Recovered(rw, taken).inner
  }

  lemma {:induction false} OneRunAppend(t: Traits, c: int, b: Base, ops: seq<Op>, op: Op)
    ensures OneRun(t, c, b, ops + [op]) == var (c', b') := OneRun(t, c, b, ops); OneStep(t, c', b', op)
    decreases ops
  {
    if ops == [] {
      assert [op][1..] == [];
      assert ops + [op] == [op];
    } else {
      assert (ops + [op])[1..] == ops[1..] + [op];
      var (c', b') := OneStep(t, c, b, ops[0]);
      OneRunAppend(t, c', b', ops[1..], op);
    }
  }

  /** The single recorder that Recoverer's own recorder and everything outside it amount to. */
  function RecovererTraits(w: Writer): Traits {
    TraitsOf(Logging(0, 0, false, w))
  }

  function HandledAs(w: Writer, ops: seq<Op>, ending: Ending): (int, Base) {
    OneRun(RecovererTraits(w), 0, BaseOf(w), Calls(ops, ending))
  }

  /** Every level has taken `code`, which was never sent, for the status. */
  predicate Marked(w: Writer, code: int) {
    match w
    case Server(_) => true
    case Logging(status, _, sent, inner) => status == code && sent && Marked(inner, code)
    case Metrics(status, inner) => status == code && Marked(inner, code)
  }

  lemma {:induction false} PanicHeaderLevels(w: Writer, code: int)
    requires Claimed(w, 0)
    ensures Marked(DoPanicHeader(w, code), code) && BaseOf(DoPanicHeader(w, code)) == BaseOf(w)
    ensures forall n :: Counted(w, n) ==> Counted(DoPanicHeader(w, code), n)
  {
    if !w.Server? {
      PanicHeaderLevels(w.inner, code);
    }
  }

  lemma {:induction false} MarkedStatuses(w: Writer, code: int)
    requires Marked(w, code)
    ensures forall i :: 0 <= i < |Statuses(w)| ==> Statuses(w)[i] == Reported(code)
  {
    if !w.Server? {
      MarkedStatuses(w.inner, code);
    }
  }

  /** A header that panicked: nothing is sent, nothing counted, and the code stands at every level. */
  lemma HeaderPanicked(w: Writer, ops: seq<Op>, code: int)
    requires Fresh(w) && Possible(RecovererTraits(w), ops, PanicsInHeader(code))
    ensures var rw := Handled(w, ops, PanicsInHeader(code));
            && rw.sent && Marked(rw, code) && Counted(rw, 0)
            && Sends(0, BaseOf(rw)) && BaseOf(rw) == HandledAs(w, ops, PanicsInHeader(code)).1
  {
    var rw0 := Logging(0, 0, false, w);
    RunIsOneRun(rw0, 0, ops);
    OneRunSends(RecovererTraits(w), 0, BaseOf(w), ops);
    PanicHeaderLevels(Run(rw0, ops), code);
  }

  lemma ValidCalls(t: Traits, ops: seq<Op>, ending: Ending)
    requires ValidOps(t, ops)
    ensures ValidOps(t, Calls(ops, ending))
  {
    if ops == [] {
      assert ending.PanicsReading? ==> Calls(ops, ending) == [ReadFrom(ending.given)];
    } else {
      assert Calls(ops, ending)[1..] == Calls(ops[1..], ending);
      if ops[0].Flush? && !t.flushes {
        ValidCalls(t, ops[1..], ending);
      }
    }
  }

  lemma HandledLevels(w: Writer, ops: seq<Op>, ending: Ending)
    requires Fresh(w) && ValidOps(RecovererTraits(w), ops) && !ending.PanicsInHeader?
    ensures var rw, (c, b) := Handled(w, ops, ending), HandledAs(w, ops, ending);
            Claimed(rw, c) && BaseOf(rw) == b
  {
    var rw0 := Logging(0, 0, false, w);
    RunIsOneRun(rw0, 0, ops);
    if ending.PanicsReading? {
      var c := OneRun(RecovererTraits(w), 0, BaseOf(w), ops).0;
      OneRunAppend(RecovererTraits(w), 0, BaseOf(w), ops, ReadFrom(ending.given));
      ShapeKeepsTraits(rw0, Run(rw0, ops));
      ReadFromLevels(Run(rw0, ops), c, ending.given, true);
    }
  }

  /** What a source gave before it panicked is sent, and counted at no level. */
  lemma QuietReadBytes(w: Writer, c: int, given: seq<string>, n: nat)
    requires Claimed(w, c) && Counted(w, n)
    ensures Counted(DoReadFrom(w, given, true), n)
    ensures BaseOf(DoReadFrom(w, given, true)).body == BaseOf(w).body + Concat(given)
  {
    ReadFromLevels(w, c, given, true);
  }

  lemma HandledBytes(w: Writer, ops: seq<Op>, ending: Ending)
    requires Fresh(w) && ValidOps(RecovererTraits(w), ops) && !ending.PanicsInHeader?
    ensures var before := OneRun(RecovererTraits(w), 0, BaseOf(w), ops).1.body;
            && Counted(Handled(w, ops, ending).inner, |before|)
            && HandledAs(w, ops, ending).1.body == before + if ending.PanicsReading? then Concat(ending.given) else ""
  {
    var rw0 := Logging(0, 0, false, w);
    HandledLevels(w, ops, ending);
    RunIsOneRun(rw0, 0, ops);
    if ending.PanicsReading? {
      var (c, b) := OneRun(RecovererTraits(w), 0, BaseOf(w), ops);
      QuietReadBytes(Run(rw0, ops), c, ending.given, |b.body|);
    }
  }

  /** The handler's calls go through Recoverer's recorder and everything outside it as through one recorder. */
  lemma HandledIsOneRun(w: Writer, ops: seq<Op>, ending: Ending)
    requires Fresh(w) && ValidOps(RecovererTraits(w), ops) && !ending.PanicsInHeader?
    ensures var rw, (c, b) := Handled(w, ops, ending), HandledAs(w, ops, ending);
            && Claimed(rw, c) && BaseOf(rw) == b
            && Sends(c, b) && c == FirstClaim(RecovererTraits(w), Calls(ops, ending))
  {
    HandledLevels(w, ops, ending);
    ValidCalls(RecovererTraits(w), ops, ending);
    OneRunSends(RecovererTraits(w), 0, BaseOf(w), Calls(ops, ending));
  }

  /** Some call had claimed the header before the panic, or the call that panicked claimed it. */
  predicate HeaderTaken(t: Traits, ops: seq<Op>, ending: Ending) {
    FirstClaim(t, Calls(ops, ending)) != 0 || ending.PanicsInHeader?
  }

  /**
    After a panic: if no call had claimed the header the server sends the fixed 500 and nothing else; if one had,
    Recoverer adds nothing.
   */
  lemma PanicIsAnsweredIffUnclaimed(w: Writer, ops: seq<Op>, ending: Ending, taken: string)
    requires Fresh(w) && Possible(RecovererTraits(w), ops, ending) && !ending.Returns?
    ensures var b, before := BaseOf(Served(w, ops, ending, taken)), BaseOf(Handled(w, ops, ending));
            if HeaderTaken(RecovererTraits(w), ops, ending) then b == before
            else b == before.(status := 500, calls := [500], body := taken) && before.status == 0 && before.body == ""
  {
    if ending.PanicsInHeader? {
      HeaderPanicked(w, ops, ending.code);
    } else {
      HandledIsOneRun(w, ops, ending);
      var rw := Handled(w, ops, ending);
      if !rw.sent {
        RecoveredLevels(rw, taken);
      }
    }
  }

  lemma {:induction false} ClaimStays(t: Traits, c: int, b: Base, ops: seq<Op>)
    requires c != 0
    ensures OneRun(t, c, b, ops).0 == c
    decreases ops
  {
    if ops != [] {
      ClaimStays(t, c, OneStep(t, c, b, ops[0]).1, ops[1..]);
    }
  }

  lemma RecoveredLevels(rw: Writer, taken: string)
    requires rw.Logging? && Claimed(rw, 0) && Sends(0, BaseOf(rw))
    ensures var w', b := Recovered(rw, taken).inner, BaseOf(rw);
            Claimed(w', 500) && BaseOf(w') == b.(status := 500, calls := [500], body := taken)
    ensures Counted(rw.inner, 0) ==> Counted(Recovered(rw, taken).inner, |taken|)
  {
    HeaderLevels(rw.inner, 0, 500);
    WriteLevels(DoWriteHeader(rw.inner, 500), 500, taken);
  }

  lemma ServedDepth(w: Writer, ops: seq<Op>, ending: Ending, taken: string)
    ensures Kinds(Handled(w, ops, ending).inner) == Kinds(w) == Kinds(Served(w, ops, ending, taken))
    ensures Depth(Served(w, ops, ending, taken)) == Depth(w)
  {
    var rw := Handled(w, ops, ending);
    assert Kinds(rw)[1..] == Kinds(rw.inner);
    assert Kinds(Logging(0, 0, false, w))[1..] == Kinds(w);
    assert |Kinds(w)| == |Kinds(Served(w, ops, ending, taken))|;
  }

  /** What the recorders outside have recorded in the end: the handler's first claim, or Recoverer's 500. */
  function EndClaim(w: Writer, ops: seq<Op>, ending: Ending): int {
    var c := FirstClaim(RecovererTraits(w), Calls(ops, ending));
    if c == 0 && !ending.Returns? then 500 else c
  }

  lemma ServedClaim(w: Writer, ops: seq<Op>, ending: Ending, taken: string)
    requires Fresh(w) && ValidOps(RecovererTraits(w), ops) && !ending.PanicsInHeader?
    ensures Claimed(Served(w, ops, ending, taken), EndClaim(w, ops, ending))
    ensures Sends(EndClaim(w, ops, ending), BaseOf(Served(w, ops, ending, taken)))
  {
    HandledIsOneRun(w, ops, ending);
    var rw := Handled(w, ops, ending);
    if !ending.Returns? && !rw.sent {
      RecoveredLevels(rw, taken);
    }
  }

  lemma MarkedAgreeIff(w: Writer, code: int)
    requires Marked(w, code) && Depth(w) > 0 && Sends(0, BaseOf(w)) && !ValidCode(code)
    ensures AllAgree(w) <==> code == 0
  {
    MarkedStatuses(w, code);
    assert Statuses(w)[0] == Reported(code);
  }

  /**
    Recorders outside Recoverer report what is sent, panic or not, under the same condition as without a panic; after a
    panic in WriteHeader, only if its code was 0, which they report as the 200 that is sent.
   */
  lemma OuterLevelsAgreeIff(w: Writer, ops: seq<Op>, ending: Ending, taken: string)
    requires Fresh(w) && Depth(w) > 0 && Possible(RecovererTraits(w), ops, ending)
    ensures AllAgree(Served(w, ops, ending, taken))
       <==> if ending.PanicsInHeader? then ending.code == 0
            else !Interim(FirstClaim(RecovererTraits(w), Calls(ops, ending)))
  {
    ServedDepth(w, ops, ending, taken);
    if ending.PanicsInHeader? {
      HeaderPanicked(w, ops, ending.code);
      MarkedAgreeIff(Served(w, ops, ending, taken), ending.code);
    } else {
      ServedClaim(w, ops, ending, taken);
      ValidCalls(RecovererTraits(w), ops, ending);
      FirstClaimValid(RecovererTraits(w), Calls(ops, ending));
      AgreeIffFinal(Served(w, ops, ending, taken), EndClaim(w, ops, ending));
    }
  }

  predicate HasLogging(w: Writer) {
    IsLogging in Kinds(w)
  }

  lemma {:induction false} OneCount(w: Writer, m: nat, n: nat)
    requires HasLogging(w) && Counted(w, m) && Counted(w, n)
    ensures m == n
  {
    if w.Metrics? {
      OneCount(w.inner, m, n);
    }
  }

  /** Byte counts outside Recoverer are right exactly unless the source of a ReadFrom panicked after giving bytes. */
  lemma OuterBytesAgreeIff(w: Writer, ops: seq<Op>, ending: Ending, taken: string)
    requires Fresh(w) && HasLogging(w) && Possible(RecovererTraits(w), ops, ending)
    ensures Counted(Served(w, ops, ending, taken), |BaseOf(Served(w, ops, ending, taken)).body|)
       <==> !(ending.PanicsReading? && Concat(ending.given) != "")
  {
    ServedDepth(w, ops, ending, taken);
    var rw, w' := Handled(w, ops, ending), Served(w, ops, ending, taken);
    if ending.PanicsInHeader? {
      HeaderPanicked(w, ops, ending.code);
    } else {
      HandledIsOneRun(w, ops, ending);
      HandledBytes(w, ops, ending);
      var before := OneRun(RecovererTraits(w), 0, BaseOf(w), ops).1.body;
      if !ending.Returns? && !rw.sent {
        RecoveredLevels(rw, taken);
      } else if ending.PanicsReading? && Counted(w', |BaseOf(w').body|) {
        OneCount(w', |BaseOf(w').body|, |before|);
      }
    }
  }

  // ---- a panic that leaves no trace ----

  /** A call that claims the header at the recorders and commits nothing at the server. */
  predicate ClaimsSilently(t: Traits, op: Op) {
    (op.WriteHeader? && Interim(op.code)) || (op == ReadFrom([]) && !t.metrics)
  }

  /** A call that makes the server commit once the header is claimed. */
  predicate Commits(flusher: bool, op: Op) {
    op.Write? || (op.ReadFrom? && op.pieces != []) || (op.Flush? && flusher)
  }

  predicate NoneCommits(flusher: bool, ops: seq<Op>) {
    forall op :: op in ops ==> !Commits(flusher, op)
  }

  /** The first claim is silent, and nothing after it commits. */
  predicate Silent(t: Traits, flusher: bool, ops: seq<Op>) {
    if ops == [] then false
    else if ops[0].Flush? && !t.flushes then Silent(t, flusher, ops[1..])
    else ClaimsSilently(t, ops[0]) && NoneCommits(flusher, ops[1..])
  }

  lemma NoneCommitsNext(flusher: bool, ops: seq<Op>)
    requires ops != []
    ensures NoneCommits(flusher, ops) <==> !Commits(flusher, ops[0]) && NoneCommits(flusher, ops[1..])
  {
    assert ops == [ops[0]] + ops[1..];
    assert forall op :: op in ops <==> op == ops[0] || op in ops[1..];
  }

  lemma {:induction false} UncommittedAfterClaim(t: Traits, c: int, b: Base, ops: seq<Op>)
    requires c != 0
    ensures var b' := OneRun(t, c, b, ops).1;
            (b'.status == 0 <==> b.status == 0 && NoneCommits(b.flusher, ops)) && b'.flusher == b.flusher
    decreases ops
  {
    if ops != [] {
      UncommittedAfterClaim(t, c, OneStep(t, c, b, ops[0]).1, ops[1..]);
      NoneCommitsNext(b.flusher, ops);
    }
  }

  lemma {:induction false} UncommittedIffSilent(t: Traits, b: Base, ops: seq<Op>)
    requires b.status == 0 && ValidOps(t, ops)
    ensures var (c, b') := OneRun(t, 0, b, ops);
            c != 0 && b'.status == 0 <==> Silent(t, b.flusher, ops)
    decreases ops
  {
    if ops != [] {
      assert ops[0] in ops;
      var (c', b') := OneStep(t, 0, b, ops[0]);
      if c' == 0 {
        UncommittedIffSilent(t, b', ops[1..]);
      } else {
        UncommittedAfterClaim(t, c', b', ops[1..]);
        ClaimStays(t, c', b', ops[1..]);
      }
    }
  }

  /**
    After a panic nothing was ever committed, and net/http sends an empty 200 of its own, exactly when the panic came
    from WriteHeader, or the header was claimed silently: by an interim code, or by a ReadFrom that gave nothing under
    no metrics level, with nothing committed afterwards.
   */
  lemma NothingCommittedIffSilent(w: Writer, ops: seq<Op>, ending: Ending, taken: string)
    requires Fresh(w) && Possible(RecovererTraits(w), ops, ending) && !ending.Returns?
    ensures BaseOf(Served(w, ops, ending, taken)).status == 0
       <==> ending.PanicsInHeader? || Silent(RecovererTraits(w), BaseOf(w).flusher, Calls(ops, ending))
  {
    var t := RecovererTraits(w);
    PanicIsAnsweredIffUnclaimed(w, ops, ending, taken);
    if ending.PanicsInHeader? {
      HeaderPanicked(w, ops, ending.code);
    } else {
      HandledIsOneRun(w, ops, ending);
      ValidCalls(t, ops, ending);
      UncommittedIffSilent(t, BaseOf(w), Calls(ops, ending));
    }
  }

  /** The client sees an empty 200, as if nothing had gone wrong. */
  predicate LooksEmpty(b: Base) {
    FinalStatus(b) == 200 && b.body == ""
  }

  /**
    A panic goes out as an empty 200 exactly when it came from WriteHeader, or the first claim of the header was a
    200, an implied one included, or an interim code, and the handler's calls gave the connection no bytes.
   */
  lemma PanicIsLostIff(w: Writer, ops: seq<Op>, ending: Ending, taken: string)
    requires Fresh(w) && Possible(RecovererTraits(w), ops, ending) && !ending.Returns?
    ensures var c := FirstClaim(RecovererTraits(w), Calls(ops, ending));
            && (LooksEmpty(BaseOf(Served(w, ops, ending, taken)))
                <==> ending.PanicsInHeader? || ((c == 200 || Interim(c)) && Sent(Calls(ops, ending)) == ""))
  {
    PanicIsAnsweredIffUnclaimed(w, ops, ending, taken);
    if ending.PanicsInHeader? {
      HeaderPanicked(w, ops, ending.code);
    } else {
      HandledIsOneRun(w, ops, ending);
      BodyIsSent(RecovererTraits(w), 0, BaseOf(w), Calls(ops, ending));
      assert "" + Sent(Calls(ops, ending)) == Sent(Calls(ops, ending));
    }
  }
}
