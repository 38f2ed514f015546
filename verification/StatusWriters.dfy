/** The recorders as the objects they are, each holding the writer it wraps, proved to act as `Recorders` says. */
module StatusWriters {
  import opened Recorders
  import opened RecorderTheorems
  import opened Text

  /** The server's response writer. Each Write takes some beginning of its bytes. */
  class ServerWriter {
    const flusher: bool
    var status: int
    var calls: seq<int>
    var body: string

    constructor (flusher: bool)
      ensures this.flusher == flusher && Value() == Base(flusher, 0, [], "")
    {
      this.flusher := flusher;
      status, calls, body := 0, [], "";
    }

    function Value(): Base
      reads this
    {
      Base(flusher, status, calls, body)
    }

    method WriteHeader(code: int)
      modifies this
      ensures Value() == BaseHeader(old(Value()), code)
    {
      calls := calls + [code];
      if status == 0 && !Interim(code) {
        status := code;
      }
    }

    method Write(b: string) returns (n: nat)
      modifies this
      ensures n <= |b| && Value() == BaseWrite(old(Value()), b[..n])
    {
      if status == 0 {
        status := 200;
      }
      n :| 0 <= n <= |b|;
      body := body + b[..n];
    }

    /** The copy loop: the non-empty pieces of the source, until one is not taken whole. */
    method ReadFrom(source: seq<string>) returns (n: nat, ghost pieces: seq<string>)
      modifies this
      ensures n == |Concat(pieces)| && Value() == BaseReadFrom(old(Value()), pieces)
      ensures PassedOn(source, pieces)
    {
      n, pieces := 0, [];
      assert Concat(source[..0]) == "";
      for i := 0 to |source|
        invariant n == |Concat(pieces)| && Value() == BaseReadFrom(old(Value()), pieces)
        invariant Concat(pieces) == Concat(source[..i]) && (i == 0 ==> pieces == [])
      {
        var k := Write(source[i]);
        ConcatOne(pieces, source[i][..k]);
        ConcatNext(source, i, k);
        n, pieces := n + k, pieces + [source[i][..k]];
        if k < |source[i]| {
          return;
        }
      }
      assert source[..|source|] == source;
    }

    method Flush()
      modifies this
      ensures Value() == BaseFlush(old(Value()))
    {
      if flusher && status == 0 {
        status := 200;
      }
    }
  }

  lemma ConcatNext(source: seq<string>, i: nat, k: nat)
    requires i < |source| && k <= |source[i]|
    ensures Concat(source[..i]) + source[i][..k] <= Concat(source)
    ensures k == |source[i]| ==> Concat(source[..i + 1]) == Concat(source[..i]) + source[i][..k]
  {
    ConcatOne(source[..i], source[i]);
    assert source[..i] + [source[i]] == source[..i + 1];
    assert source[..i + 1] + source[i + 1..] == source;
    ConcatAppend(source[..i + 1], source[i + 1..]);
  }

  lemma ConcatOne(a: seq<string>, b: string)
    ensures Concat(a + [b]) == Concat(a) + b
  {
    ConcatAppend(a, [b]);
    assert [b][1..] == [];
    assert b + "" == b;
  }

  /** The pieces are a first part of what the source holds, and none of an empty source. */
  ghost predicate PassedOn(source: seq<string>, pieces: seq<string>) {
    Concat(pieces) <= Concat(source) && (source == [] ==> pieces == [])
  }

  class StatusWriter {
    const kind: Kind
    const inner: StatusWriter?
    const server: ServerWriter
    ghost const repr: set<object>
    var status: int
    var bytesWritten: nat
    var headerSent: bool

    /** A chain of recorders that ends at one server. */
    ghost predicate Valid()
      decreases repr
    {
      if inner == null then repr == {this, server}
      else
        && inner.repr < repr && this !in inner.repr && server == inner.server
        && repr == {this} + inner.repr && inner.Valid()
    }

    ghost function Value(): Writer
      requires Valid()
      reads this, repr
      decreases repr
    {
      var below := if inner == null then Server(server.Value()) else inner.Value();
      if kind == IsLogging then Logging(status, bytesWritten, headerSent, below) else Metrics(status, below)
    }

    lemma ServerInRepr()
      requires Valid()
      ensures this in repr && server in repr
      decreases repr
    {
      if inner != null {
        inner.ServerInRepr();
      }
    }

    constructor Over(kind: Kind, server: ServerWriter)
      ensures Valid() && fresh(repr - {server}) && this.kind == kind && this.server == server
      ensures Value() == NewLevel(kind, Server(server.Value()))
    {
      this.kind, this.inner, this.server := kind, null, server;
      status, bytesWritten, headerSent := 0, 0, false;
      repr := {this, server};
    }

    constructor Around(kind: Kind, inner: StatusWriter)
      requires inner.Valid()
      ensures Valid() && fresh(repr - inner.repr) && this.kind == kind && this.inner == inner
      ensures Value() == NewLevel(kind, inner.Value())
    {
      this.kind, this.inner, this.server := kind, inner, inner.server;
      status, bytesWritten, headerSent := 0, 0, false;
      repr := {this} + inner.repr;
      new;
      inner.ServerInRepr();
    }

    /** What is under this level. */
    ghost function Below(): Writer
      requires Valid()
      reads repr - {this}
    {
      ServerInRepr();
      if inner == null then Server(server.Value()) else inner.Value()
    }

    method InnerHeader(code: int)
      requires Valid()
      modifies repr - {this}
      ensures Below() == DoWriteHeader(old(Below()), code)
      decreases repr, 0
    {
      ServerInRepr();
      if inner == null {
        server.WriteHeader(code);
      } else {
        inner.WriteHeader(code);
      }
    }

    method InnerWrite(b: string) returns (n: nat)
      requires Valid()
      modifies repr - {this}
      ensures n <= |b| && Below() == DoWrite(old(Below()), b[..n])
      decreases repr, 0
    {
      ServerInRepr();
      if inner == null {
        n := server.Write(b);
      } else {
        n := inner.Write(b);
      }
    }

    method InnerReadFrom(source: seq<string>) returns (n: nat, ghost pieces: seq<string>)
      requires Valid()
      modifies repr - {this}
      ensures PassedOn(source, pieces) && n == |Concat(pieces)|
      ensures Below() == DoReadFrom(old(Below()), pieces, false)
      decreases repr, 0
    {
      ServerInRepr();
      if inner == null {
        n, pieces := server.ReadFrom(source);
      } else {
        n, pieces := inner.ReadFrom(source);
      }
    }

    method InnerFlush()
      requires Valid()
      modifies repr - {this}
      ensures Below() == DoFlush(old(Below()))
      decreases repr, 0
    {
      ServerInRepr();
      if inner == null {
        server.Flush();
      } else {
        inner.Flush();
      }
    }

    method WriteHeader(code: int)
      requires Valid()
      modifies repr
      ensures Value() == DoWriteHeader(old(Value()), code)
      decreases repr, 1
    {
      ServerInRepr();
      if (if kind == IsLogging then headerSent else status != 0) {
        return;
      }
      headerSent := headerSent || kind == IsLogging;
      status := code;
      InnerHeader(code);
    }

    /** The header part of Write: record 200 and pass it on, unless a header is recorded. */
    method WriteHeaderIfNeeded()
      requires Valid()
      modifies repr
      ensures Value() == WithHeader(old(Value()))
      decreases repr, 1
    {
      ServerInRepr();
      if (if kind == IsLogging then !headerSent else status == 0) {
        headerSent := headerSent || kind == IsLogging;
        if status == 0 {
          status := 200;
        }
        InnerHeader(status);
      }
    }

    method Write(b: string) returns (n: nat)
      requires Valid()
      modifies repr
      ensures n <= |b| && Value() == DoWrite(old(Value()), b[..n])
      decreases repr, 2
    {
      ServerInRepr();
      WriteHeaderIfNeeded();
      n := InnerWrite(b);
      if kind == IsLogging {
        bytesWritten := bytesWritten + n;
      }
    }

    method ReadFrom(source: seq<string>) returns (n: nat, ghost pieces: seq<string>)
      requires Valid()
      modifies repr
      ensures PassedOn(source, pieces) && n == |Concat(pieces)|
      ensures Value() == DoReadFrom(old(Value()), pieces, false)
      decreases repr, 2
    {
      ServerInRepr();
      if kind == IsMetrics {
        WriteHeaderIfNeeded();
        n, pieces := InnerReadFrom(source);
        return;
      }
      if !headerSent {
        headerSent := true;
        if status == 0 {
          status := 200;
        }
      }
      ghost var below := Below();
      assert below == old(Below());
      n, pieces := InnerReadFrom(source);
      bytesWritten := bytesWritten + n;
    }

    method Flush()
      requires Valid()
      modifies repr
      ensures Value() == DoFlush(old(Value()))
      decreases repr, 1
    {
      ServerInRepr();
      if inner == null && !server.flusher {
        return;
      }
      if (if kind == IsLogging then !headerSent else status == 0) {
        headerSent := headerSent || kind == IsLogging;
        status := 200;
        InnerHeader(200);
      }
      InnerFlush();
    }

    method Status() returns (code: int)
      requires Valid()
      ensures code == Statuses(Value())[0]
    {
      code := if status == 0 then 200 else status;
    }

    /** claimHeaderSent of the logging recorder. */
    method ClaimHeaderSent() returns (free: bool)
      requires Valid() && kind == IsLogging
      modifies this
      ensures free == !old(headerSent) && headerSent && Below() == old(Below())
      ensures status == old(status) && bytesWritten == old(bytesWritten)
    {
      ServerInRepr();
      if headerSent {
        return false;
      }
      headerSent := true;
      return true;
    }

    /**
      The deferred function of Recoverer, when there was a panic; the connection takes `n` bytes of the fixed answer.
     */
    method Recover() returns (n: nat)
      requires Valid() && kind == IsLogging
      modifies repr
      ensures n <= |INTERNAL_ERROR| && Value() == Recovered(old(Value()), INTERNAL_ERROR[..n])
    {
      ServerInRepr();
      n := 0;
      var free := ClaimHeaderSent();
      if free {
        InnerHeader(500);
        n := InnerWrite(INTERNAL_ERROR);
      }
    }
  }

  function WithHeader(w: Writer): Writer {
    match w
    case Server(_) => w
    case Logging(status, bytes, sent, inner) =>
      var code := if status == 0 then 200 else status;
      if sent then w else Logging(code, bytes, true, DoWriteHeader(inner, code))
    case Metrics(status, inner) =>
      if status != 0 then w else Metrics(200, DoWriteHeader(inner, 200))
  }

  /** A recorder just put around `below`. */
  function NewLevel(kind: Kind, below: Writer): Writer {
    if kind == IsLogging then Logging(0, 0, false, below) else Metrics(0, below)
  }

  /** New recorders, over a server that has sent nothing or over each other, are as the theorems take them. */
  lemma NewLevelIsFresh(kind: Kind, below: Writer)
    requires if below.Server? then below.base == Base(below.base.flusher, 0, [], "") else Fresh(below)
    ensures Fresh(NewLevel(kind, below))
  {
  }
}
