/**
  The two kinds of response recorder, stacked in any order and to any depth over a server's response writer: the
  recorder of the logging and recovery middleware, and the one of the metrics middleware.
 */
module Recorders {
  import opened Text

  /** A code that does not end the header: 1xx but 101 (section 15.2 of RFC 9110). */
  predicate Interim(code: int) {
    100 <= code <= 199 && code != 101
  }

  /** Codes that net/http accepts. */
  predicate ValidCode(code: int) {
    100 <= code <= 999
  }

  /** The server's writer: the first final code is committed. `calls` are the WriteHeader calls that reach it. */
  datatype Base = Base(flusher: bool, status: int, calls: seq<int>, body: string)

  /** A response writer. `Logging` is middleware.statusWriter, `Metrics` is metrics.statusWriter. */
  datatype Writer =
    | Server(base: Base)
    | Logging(status: int, bytes: nat, sent: bool, inner: Writer)
    | Metrics(status: int, inner: Writer)

  /**
    What a handler does to its writer. `taken` is what the connection takes of the bytes written; a ReadFrom writes its
    source piece by piece, and not at all when the source is empty.
   */
  datatype Op = WriteHeader(code: int) | Write(taken: string) | ReadFrom(pieces: seq<string>) | Flush

  // ---- the server ----

  function BaseHeader(b: Base, code: int): Base {
    var b' := b.(calls := b.calls + [code]);
    if b.status == 0 && !Interim(code) then b'.(status := code) else b'
  }

  function BaseWrite(b: Base, s: string): Base {
    b.(status := if b.status == 0 then 200 else b.status, body := b.body + s)
  }

  /** Both io.Copy and net/http's ReadFrom write only when there is something to write. */
  function BaseReadFrom(b: Base, pieces: seq<string>): Base {
    if pieces == [] then b else BaseWrite(b, Concat(pieces))
  }

  function BaseFlush(b: Base): Base {
    if b.flusher && b.status == 0 then b.(status := 200) else b
  }

  /** The status the request ends with: net/http sends 200 when nothing was committed. */
  function FinalStatus(b: Base): int {
    if b.status == 0 then 200 else b.status
  }

  // ---- the recorders ----

  function Depth(w: Writer): nat {
    if w.Server? then 0 else 1 + Depth(w.inner)
  }

  function BaseOf(w: Writer): Base {
    if w.Server? then w.base else BaseOf(w.inner)
  }

  predicate IsFlusher(w: Writer) {
    !w.Server? || w.base.flusher
  }

  datatype Kind = IsLogging | IsMetrics

  /** The levels from the outside in, without their state. */
  function Kinds(w: Writer): (ks: seq<Kind>)
    ensures |ks| == Depth(w)
  {
    if w.Server? then [] else [if w.Logging? then IsLogging else IsMetrics] + Kinds(w.inner)
  }

  /** The same levels over the same kind of server. */
  predicate SameShape(w: Writer, w': Writer) {
    Kinds(w) == Kinds(w') && BaseOf(w).flusher == BaseOf(w').flusher
  }

  function DoWriteHeader(w: Writer, code: int): (w': Writer)
    ensures SameShape(w, w') && |Kinds(w')| == Depth(w)
    decreases Depth(w)
  {
    match w
    case Server(b) => Server(BaseHeader(b, code))
    case Logging(status, bytes, sent, inner) =>
      if sent then w else Logging(code, bytes, true, DoWriteHeader(inner, code))
    case Metrics(status, inner) =>
      if status != 0 then w else Metrics(code, DoWriteHeader(inner, code))
  }

  /**
    WriteHeader with a code that net/http does not accept: it panics at the server, after every level on the way there
    has recorded the code.
   */
  function DoPanicHeader(w: Writer, code: int): (w': Writer)
    ensures SameShape(w, w') && |Kinds(w')| == Depth(w)
    decreases Depth(w)
  {
    match w
    case Server(b) => w
    case Logging(status, bytes, sent, inner) =>
      if sent then w else Logging(code, bytes, true, DoPanicHeader(inner, code))
    case Metrics(status, inner) =>
      if status != 0 then w else Metrics(code, DoPanicHeader(inner, code))
  }

  function DoWrite(w: Writer, s: string): (w': Writer)
    ensures SameShape(w, w') && |Kinds(w')| == Depth(w)
    decreases Depth(w)
  {
    match w
    case Server(b) => Server(BaseWrite(b, s))
    case Logging(status, bytes, sent, inner) =>
      var code := if sent || status != 0 then status else 200;
      Logging(code, bytes + |s|, true, DoWrite(if sent then inner else DoWriteHeader(inner, code), s))
    case Metrics(status, inner) =>
      if status != 0 then Metrics(status, DoWrite(inner, s)) else Metrics(200, DoWrite(DoWriteHeader(inner, 200), s))
  }

  /** `quiet` is for a source that panics after giving these pieces: then no level gets to add to its byte count. */
  function DoReadFrom(w: Writer, pieces: seq<string>, quiet: bool): (w': Writer)
    ensures SameShape(w, w') && |Kinds(w')| == Depth(w)
    decreases Depth(w)
  {
    match w
    case Server(b) => Server(BaseReadFrom(b, pieces))
    case Logging(status, bytes, sent, inner) =>
      Logging(if sent || status != 0 then status else 200, if quiet then bytes else bytes + |Concat(pieces)|, true,
              DoReadFrom(inner, pieces, quiet))
    case Metrics(status, inner) =>
      if status != 0 then Metrics(status, DoReadFrom(inner, pieces, quiet))
      else Metrics(200, DoReadFrom(DoWriteHeader(inner, 200), pieces, quiet))
  }

  function DoFlush(w: Writer): (w': Writer)
    ensures SameShape(w, w') && |Kinds(w')| == Depth(w)
    decreases Depth(w)
  {
    match w
    case Server(b) => Server(BaseFlush(b))
    case Logging(status, bytes, sent, inner) =>
      if !IsFlusher(inner) then w
      else if sent then Logging(status, bytes, sent, DoFlush(inner))
      else Logging(200, bytes, true, DoFlush(DoWriteHeader(inner, 200)))
    case Metrics(status, inner) =>
      if !IsFlusher(inner) then w
      else if status != 0 then Metrics(status, DoFlush(inner))
      else Metrics(200, DoFlush(DoWriteHeader(inner, 200)))
  }
}
