/** Decoding a JSON request body under a size limit: `limitTrackingReader`, the trailing-data scan, `decodeJSONBody`. */
module BodyDecode {
  import opened Common

  type Byte = b: int | 0 <= b < 256

  const MAX_REQUEST_BODY_SIZE := 0x10_0000

  /** int64 addition, with its wrap-around. */
  function Add64(a: Int64, b: Int64): Int64 {
    Wrap(a + b)
  }

  /** How a body ends: normally, cut off by http.MaxBytesReader, or with any other error. */
  datatype End = Eof | MaxBytes | Fault

  datatype ReadError = Nil | Err(end: End)

  /** Where the body and the limit put the end of what can be delivered. */
  function Deliverable(data: seq<Byte>, limit: int): seq<Byte> {
    if |data| <= limit then data else if limit <= 0 then [] else data[..limit]
  }

  /** How many bytes a reader gives that is asked for `k`, has `left`, and gives at most `plan[turn]` at this turn. */
  function Gives(plan: seq<nat>, turn: nat, left: nat, k: nat): (n: nat)
    ensures n <= left && n <= k
  {
    var n := if k < left then k else left;
    if turn < |plan| && plan[turn] < n then plan[turn] else n
  }

  /**
    Any io.Reader over a body. `plan` says how much each Read gives at most (possibly nothing), after which it gives
    all it can; `eager` readers return their end together with the last bytes, others on the next Read.
   */
  class Body {
    const data: seq<Byte>
    const end: End
    const plan: seq<nat>
    const eager: bool
    var pos: nat
    var turn: nat

    constructor (data: seq<Byte>, end: End, plan: seq<nat>, eager: bool)
      ensures this.data == data && this.end == end && this.plan == plan && this.eager == eager
      ensures pos == 0 && turn == 0
    {
      this.data, this.end, this.plan, this.eager := data, end, plan, eager;
      pos, turn := 0, 0;
    }

    predicate Valid()
      reads this
    {
      pos <= |data| && turn <= |plan|
    }

    /** Bytes and empty answers still to come. */
    function Left(): nat
      requires Valid()
      reads this
    {
      |data| - pos + |plan| - turn
    }

    method Read(k: nat) returns (p: seq<Byte>, err: ReadError)
      requires Valid()
      modifies this
      ensures Valid() && old(pos) <= pos && pos - old(pos) <= k && p == data[old(pos)..pos]
      ensures pos == old(pos) + Gives(plan, old(turn), |data| - old(pos), k)
      ensures old(pos) < |data| ==> turn == Min(old(turn) + 1, |plan|)
      ensures old(pos) == |data| ==> err == Err(end)
      ensures old(pos) < |data| ==> err == if pos == |data| && eager then Err(end) else Nil
      ensures Left() <= old(Left()) && (k > 0 && (err == Nil || p != []) ==> Left() < old(Left()))
    {
      if pos == |data| {
        return [], Err(end);
      }
      var n := if k < |data| - pos then k else |data| - pos;
      if turn < |plan| {
        n := if plan[turn] < n then plan[turn] else n;
        turn := turn + 1;
      }
      p := data[pos..pos + n];
      pos := pos + n;
      err := if pos == |data| && eager then Err(end) else Nil;
    }
  }

  lemma CutOfStream(data: seq<Byte>, limit: int, a: nat, b: nat)
    requires a <= b <= |data| && b <= limit
    ensures var stream := Deliverable(data, limit);
            b <= |stream| == (if |data| <= limit then |data| else limit) && stream[a..b] == data[a..b]
  {
  }

  class LimitTrackingReader {
    const r: Body
    const limit: int
    var n: int
    var hitLimit: bool

    constructor (r: Body, limit: int)
      requires r.Valid() && r.pos == 0
      ensures this.r == r && this.limit == limit && n == 0 && !hitLimit && Valid()
    {
      this.r, this.limit := r, limit;
      n, hitLimit := 0, false;
    }

    /**
      The limit counts as hit exactly when that many bytes have been delivered (or, for no room at all, once asked).
     */
    ghost predicate Valid()
      reads this, r
    {
      && r.Valid() && n == r.pos && n <= |Deliverable(r.data, limit)|
      && (hitLimit ==> n >= limit) && (n >= limit && n > 0 ==> hitLimit)
    }

    /** The bytes this reader will deliver in all. */
    function Stream(): seq<Byte>
      reads this
    {
      Deliverable(r.data, limit)
    }

    /** The byte that hits the limit comes together with an error other than the end of file. */
    predicate FailsAtLimit()
      reads this
    {
      r.end != Eof && r.eager && |r.data| == limit
    }

    method Read(k: nat) returns (p: seq<Byte>, err: ReadError)
      requires Valid()
      modifies this, r
      ensures Valid() && old(n) <= n && n - old(n) <= k && p == Stream()[old(n)..n]
      ensures err != Nil ==> n == |Stream()| && (hitLimit <==> |r.data| >= limit)
      ensures err != Nil && err != Err(Eof) ==> err == Err(r.end) && n == |r.data|
      ensures err != Nil && err != Err(Eof) ==> |r.data| < limit || (p != [] && FailsAtLimit())
      ensures FailsAtLimit() && old(n) < limit ==>
                && n == old(n) + Gives(r.plan, old(r.turn), limit - old(n), k)
                && r.turn == Min(old(r.turn) + 1, |r.plan|)
                && err == if n == limit then Err(r.end) else Nil
      ensures r.Left() <= old(r.Left()) && (k > 0 && (err == Nil || p != []) ==> r.Left() < old(r.Left()))
      ensures old(hitLimit) ==> p == [] && err == Err(Eof)
      ensures r.end != Eof && err == Err(Eof) ==> |r.data| >= limit
    {
      if hitLimit {
        return [], Err(Eof);
      }
      var remaining := limit - n;
      if remaining <= 0 {
        hitLimit := true;
        return [], Err(Eof);
      }
      hide Deliverable, Gives;
      var size := if k > remaining then remaining else k;
      p, err := r.Read(size);
      CutOfStream(r.data, limit, n, n + |p|);
      n := n + |p|;
      if n >= limit {
        hitLimit := true;
      }
    }
  }

  // ---- the decoder, as its caller sees it ----

  /** What a decoder says of the bytes so far: wait for more, reject, or a value that took `used` bytes. */
  datatype Verdict<V> = More | Bad | Value(v: V, used: nat)

  /** `d(bytes, eof)`. Once decided on a beginning, the verdict stays; at the end of input there is always one. */
  ghost predicate Lawful<V(!new)>(d: (seq<Byte>, bool) -> Verdict<V>) {
    && (forall p :: d(p, true) != More)
    && (forall p, e :: d(p, e).Value? ==> d(p, e).used <= |p|)
    && (forall p, q, e :: d(p, false) != More ==> d(p + q, e) == d(p, false))
  }

  datatype Decoded<V> = Parsed(v: V, unread: seq<Byte>) | SyntaxError | ReadFailed(end: End)

  /** How many bytes of a body that fails at its limit the decoder has read when it decides, or at the end. */
  function Fetched<V(==)>(d: (seq<Byte>, bool) -> Verdict<V>, data: seq<Byte>, plan: seq<nat>, asks: nat -> nat,
                          pos: nat, turn: nat, i: nat): (n: nat)
    requires pos <= |data| && turn <= |plan|
    ensures n <= |data|
    decreases |data| - pos + |plan| - turn
  {
    if d(data[..pos], false) != More || pos == |data| then pos
    else
      Fetched(d, data, plan, asks, pos + Gives(plan, turn, |data| - pos, asks(i) + 1), Min(turn + 1, |plan|), i + 1)
  }

  ghost function WillFetch<V(!new)>(lim: LimitTrackingReader, d: (seq<Byte>, bool) -> Verdict<V>, asks: nat -> nat,
                                    i: nat): nat
    requires lim.Valid()
    reads lim, lim.r
  {
    Fetched(d, lim.r.data, lim.r.plan, asks, lim.n, lim.r.turn, i)
  }

  method Fetch<V(==, !new)>(lim: LimitTrackingReader, ghost d: (seq<Byte>, bool) -> Verdict<V>, asks: nat -> nat,
                            i: nat)
    returns (p: seq<Byte>, err: ReadError)
    requires lim.Valid()
    modifies lim, lim.r
    ensures lim.Valid() && old(lim.n) <= lim.n && p == lim.Stream()[old(lim.n)..lim.n]
    ensures err != Nil ==> lim.n == |lim.Stream()|
    ensures err != Nil && err != Err(Eof) && p == [] ==> err == Err(lim.r.end) && lim.n == |lim.r.data| < lim.limit
    ensures lim.r.Left() <= old(lim.r.Left()) && (err == Nil || p != [] ==> lim.r.Left() < old(lim.r.Left()))
    ensures lim.r.end != Eof && err == Err(Eof) ==> |lim.r.data| >= lim.limit
    ensures lim.FailsAtLimit() && d(lim.Stream()[..old(lim.n)], false) == More ==>
              WillFetch(lim, d, asks, i + 1) == old(WillFetch(lim, d, asks, i))
  {
    ghost var was := lim.n;
    p, err := lim.Read(asks(i) + 1);
    assert lim.FailsAtLimit() ==> lim.Stream()[..was] == lim.r.data[..was];
  }

  /** UnmarshalDecode: fetch (as much as `asks` says each time) until the bytes decide. */
  method UnmarshalDecode<V(==, !new)>(lim: LimitTrackingReader, d: (seq<Byte>, bool) -> Verdict<V>, asks: nat -> nat)
    returns (o: Decoded<V>)
    requires lim.Valid() && lim.n == 0 && Lawful(d)
    modifies lim, lim.r
    ensures lim.Valid()
    ensures o.Parsed? ==> exists u: nat :: ParsedFrom(lim, d, o, u)
    ensures o.SyntaxError? ==> d(lim.Stream(), true) == Bad
    ensures o.SyntaxError? && lim.n < |lim.Stream()| ==> d(lim.Stream(), false) == Bad
    ensures o.SyntaxError? && |lim.r.data| < lim.limit && lim.r.end != Eof ==> d(lim.Stream(), false) == Bad
    ensures o.Parsed? && lim.FailsAtLimit() ==> lim.n == old(WillFetch(lim, d, asks, 0))
    ensures o.ReadFailed? ==> o.end == lim.r.end != Eof && d(lim.r.data, false) == More && |lim.r.data| < lim.limit
  {
    var buf: seq<Byte> := [];
    var i := 0;
    ghost var goal := WillFetch(lim, d, asks, 0);
    while true
      invariant lim.Valid() && buf == lim.Stream()[..lim.n]
      invariant lim.FailsAtLimit() ==> WillFetch(lim, d, asks, i) == goal
      decreases lim.r.Left()
    {
      var verdict := d(buf, false);
      if verdict != More {
        assert lim.Stream() == buf + lim.Stream()[lim.n..];
        if verdict == Bad {
          return SyntaxError;
        }
        o := Parsed(verdict.v, buf[verdict.used..]);
        assert ParsedFrom(lim, d, o, verdict.used);
        return;
      }
      var p, err := Fetch(lim, d, asks, i);
      i := i + 1;
      if p == [] && err != Nil {
        assert lim.Stream()[..lim.n] == buf;
        if err != Err(Eof) {
          assert lim.r.data == lim.Stream() == buf;
          return ReadFailed(err.end);
        }
        assert lim.Stream() == buf;
        verdict := d(buf, true);
        assert verdict != More;
        if verdict == Bad {
          return SyntaxError;
        }
        o := Parsed(verdict.v, buf[verdict.used..]);
        assert ParsedFrom(lim, d, o, verdict.used);
        return;
      }
      buf := buf + p;
    }
  }

  /** The value is the stream's value, and the unread bytes are what was delivered beyond it. */
  ghost predicate ParsedFrom<V(!new)>(lim: LimitTrackingReader, d: (seq<Byte>, bool) -> Verdict<V>, o: Decoded<V>,
                                      u: nat)
    reads lim, lim.r
  {
    && lim.Valid() && o.Parsed? && u <= lim.n
    && d(lim.Stream(), true) == Value(o.v, u) && o.unread == lim.Stream()[u..lim.n]
    && (lim.r.end != Eof && |lim.r.data| < lim.limit ==> d(lim.Stream(), false) == Value(o.v, u))
  }

  // ---- the scan after the value ----

  predicate IsJSONWhitespace(b: Byte) {
    b == 0x20 || b == 0x09 || b == 0x0D || b == 0x0A
  }

  predicate AllSpace(s: seq<Byte>) {
    forall b :: b in s ==> IsJSONWhitespace(b)
  }

  datatype Scan = Found | Clean | Broken(end: End)

  method ScanBytes(p: seq<Byte>) returns (blank: bool)
    ensures blank == AllSpace(p)
  {
    for i := 0 to |p|
      invariant AllSpace(p[..i])
    {
      if !IsJSONWhitespace(p[i]) {
        return false;
      }
      assert p[..i + 1] == p[..i] + [p[i]];
    }
    assert p[..|p|] == p;
    return true;
  }

  lemma ScanOn(stream: seq<Byte>, u: nat, seen: nat, p: seq<Byte>)
    requires u <= seen <= seen + |p| <= |stream| && p == stream[seen..seen + |p|]
    ensures AllSpace(stream[u..seen + |p|]) <==> AllSpace(stream[u..seen]) && AllSpace(p)
    ensures AllSpace(stream[u..]) ==> AllSpace(p)
    ensures seen + |p| == |stream| ==> stream[u..] == stream[u..seen + |p|]
  {
    assert stream[u..seen + |p|] == stream[u..seen] + p;
    assert stream[u..] == stream[u..seen] + p + stream[seen + |p|..];
  }

  lemma CutAgain(stream: seq<Byte>, seen: nat, n: nat, k: nat)
    requires seen + k <= n <= |stream|
    ensures stream[seen..n][..k] == stream[seen..seen + k] && stream[seen..n][k..] == stream[seen + k..n]
  {
  }

  /** One Read of the io.MultiReader over the unread bytes and then the stream. */
  method MultiRead(lim: LimitTrackingReader, rest: seq<Byte>, ghost seen: nat)
    returns (p: seq<Byte>, err: ReadError, rest': seq<Byte>)
    requires lim.Valid() && seen <= lim.n && rest == lim.Stream()[seen..lim.n]
    modifies lim, lim.r
    ensures lim.Valid() && seen + |p| <= lim.n
    ensures p == lim.Stream()[seen..seen + |p|] && rest' == lim.Stream()[seen + |p|..lim.n]
    ensures err == Nil ==> lim.r.Left() < old(lim.r.Left()) || (lim.r.Left() == old(lim.r.Left()) && |rest'| < |rest|)
    ensures err != Nil ==> seen + |p| == |lim.Stream()| && (lim.hitLimit <==> |lim.r.data| >= lim.limit)
    ensures err == Err(Eof) ==> lim.r.end != Eof ==> |lim.r.data| >= lim.limit
    ensures lim.FailsAtLimit() && old(lim.n) < lim.limit ==> err == if lim.n == lim.limit then Err(lim.r.end) else Nil
    ensures err != Nil && err != Err(Eof) ==>
              err == Err(lim.r.end) && (|lim.r.data| < lim.limit || (lim.FailsAtLimit() && lim.limit > 0))
  {
    hide Deliverable, Gives;
    if rest != [] {
      var k := if |rest| > 512 then 512 else |rest|;
      CutAgain(lim.Stream(), seen, lim.n, k);
      p, err, rest' := rest[..k], Nil, rest[k..];
    } else {
      assert seen == lim.n;
      p, err := lim.Read(512);
      rest' := [];
      assert seen + |p| == lim.n && lim.Stream()[lim.n..lim.n] == rest';
    }
  }

  /** hasTrailingJSONData: first what the decoder left unread, then the rest of the stream, 512 bytes at a time. */
  method HasTrailingJSONData(lim: LimitTrackingReader, unread: seq<Byte>, ghost u: nat) returns (scan: Scan)
    requires lim.Valid() && u <= lim.n && unread == lim.Stream()[u..lim.n]
    modifies lim, lim.r
    ensures lim.Valid()
    ensures scan.Found? <==> !AllSpace(lim.Stream()[u..])
    ensures scan.Clean? ==> (lim.hitLimit <==> |lim.r.data| >= lim.limit)
    ensures scan.Clean? && lim.r.end != Eof ==> |lim.r.data| >= lim.limit
    ensures lim.FailsAtLimit() && old(lim.n) < lim.limit ==> !scan.Clean?
    ensures scan.Broken? ==>
              && scan.end == lim.r.end != Eof
              && (|lim.r.data| < lim.limit || (lim.FailsAtLimit() && lim.limit > 0))
  {
    var rest := unread;
    ghost var stream := lim.Stream();
    ghost var seen := u;
    while true
      invariant lim.Valid() && u <= seen <= lim.n && rest == stream[seen..lim.n] && AllSpace(stream[u..seen])
      invariant lim.FailsAtLimit() && old(lim.n) < lim.limit ==> lim.n < lim.limit
      decreases lim.r.Left(), |rest|
    {
      var p, err;
      p, err, rest := MultiRead(lim, rest, seen);
      ScanOn(stream, u, seen, p);
      seen := seen + |p|;
      var blank := ScanBytes(p);
      if !blank {
        return Found;
      }
      if err != Nil {
        if err == Err(Eof) {
          return Clean;
        }
        return Broken(err.end);
      }
    }
  }

  /** io.Copy to io.Discard: read until an error, which is ignored. */
  method Drain(lim: LimitTrackingReader)
    requires lim.Valid()
    modifies lim, lim.r
    ensures lim.Valid() && (lim.hitLimit <==> |lim.r.data| >= lim.limit)
  {
    while true
      invariant lim.Valid()
      decreases lim.r.Left()
    {
      var p, err := lim.Read(32768);
      if err != Nil {
        return;
      }
    }
  }

  // ---- decodeJSONBody ----

  datatype Outcome<V> = Ok(v: V) | BadRequest | InvalidJSON | BodyTooLarge | TrailingData

  /** The class of a read error other than the end of file. */
  function ReadFailure<V>(end: End): Outcome<V> {
    if end == MaxBytes then BodyTooLarge else InvalidJSON
  }

  /** The outcome as a function of the body and the limit alone. */
  function Expected<V>(d: (seq<Byte>, bool) -> Verdict<V>, data: seq<Byte>, end: End, limit: int): Outcome<V> {
    var stream := Deliverable(data, limit);
    if |data| >= limit || end == Eof then
      match d(stream, true)
      case Value(v, u) =>
        if |data| >= limit then BodyTooLarge
        else if u <= |stream| && AllSpace(stream[u..]) then Ok(v)
        else TrailingData
      case _ => InvalidJSON
    else
      match d(data, false)
      case More => ReadFailure(end)
      case Bad => InvalidJSON
      case Value(v, u) => if u <= |data| && AllSpace(data[u..]) then ReadFailure(end) else TrailingData
  }

  /** applyDecodeOptions: the last WithMaxBodySize counts, and only if positive. */
  function MaxBodySize(options: seq<Int64>): (n: Int64)
    ensures n > 0
    ensures options == [] ==> n == 0x10_0000
    ensures options != [] ==> n == if options[|options| - 1] > 0 then options[|options| - 1] else 0x10_0000
  {
    if options != [] && options[|options| - 1] > 0 then options[|options| - 1] else MAX_REQUEST_BODY_SIZE
  }

  method ApplyDecodeOptions(options: seq<Int64>) returns (maxBodySize: Int64)
    ensures options == [] ==> maxBodySize == 0x10_0000
    ensures options != [] ==>
              maxBodySize == if options[|options| - 1] > 0 then options[|options| - 1] else 0x10_0000
  {
    maxBodySize := MAX_REQUEST_BODY_SIZE;
    for i := 0 to |options|
      invariant maxBodySize == if i == 0 then MAX_REQUEST_BODY_SIZE else options[i - 1]
    {
      maxBodySize := options[i];
    }
    if maxBodySize <= 0 {
      maxBodySize := MAX_REQUEST_BODY_SIZE;
    }
  }

  /**
    The one case in which reading ahead matters: the body has exactly the limit's length, is a value and white space
    only, and its last bytes come together with an error that is neither the end of file nor http.MaxBytesReader's.
   */
  predicate FaultAtLimit<V(==)>(d: (seq<Byte>, bool) -> Verdict<V>, data: seq<Byte>, end: End, eager: bool,
                                limit: int) {
    && end == Fault && eager && |data| == limit
    && var v := d(data, true); v.Value? && v.used <= |data| && AllSpace(data[v.used..])
  }

  /** JSON white space: blank, tab, carriage return, line feed. */
  predicate Blank(s: seq<Byte>) {
    forall b :: b in s ==> b in {0x20, 0x09, 0x0D, 0x0A}
  }

  /** The bytes are one value and white space after it. */
  predicate Accepts<V(==)>(d: (seq<Byte>, bool) -> Verdict<V>, data: seq<Byte>, eof: bool) {
    var v := d(data, eof);
    v.Value? && v.used <= |data| && Blank(data[v.used..])
  }

  /**
    What a caller who asked for a size is promised, case by case: a body that ends normally within the size; one
    that ends with an error within the size, of which http.MaxBytesReader's is "too large" too; and an oversize
    body, which is never accepted, and is "too large" when what was read of it decodes.
   */
  predicate Promised<V(==)>(d: (seq<Byte>, bool) -> Verdict<V>, body: Body, size: Int64, o: Outcome<V>)
    requires size > 0
  {
    var data := body.data;
    if |data| <= size && body.end == Eof then
      && (o.Ok? <==> Accepts(d, data, true)) && (o.Ok? ==> o == Ok(d(data, true).v))
      && (o == TrailingData <==> d(data, true).Value? && !Accepts(d, data, true))
      && (o == InvalidJSON <==> !d(data, true).Value?)
    else if |data| <= size then
      && !o.Ok?
      && (o == TrailingData <==> d(data, false).Value? && !Accepts(d, data, false))
      && (o == BodyTooLarge <==> body.end == MaxBytes && (d(data, false) == More || Accepts(d, data, false)))
      && o != BadRequest
    else if |data| == size + 1 && body.end == Fault && body.eager && Accepts(d, data, true) then
      o == BodyTooLarge || o == InvalidJSON
    else o == if d(data[..size + 1], true).Value? then BodyTooLarge else InvalidJSON
  }

  lemma OutcomeKeepsPromise<V(!new)>(d: (seq<Byte>, bool) -> Verdict<V>, body: Body, asks: nat -> nat, size: Int64)
    requires Lawful(d) && 0 < size < MAX_INT64
    ensures Promised(d, body, size, OutcomeOf(d, body.data, body.end, body.eager, body.plan, asks, Add64(size, 1)))
  {
    var data := body.data;
    assert Add64(size, 1) == size + 1;
    assert forall s :: AllSpace(s) <==> Blank(s);
    assert d(data, true) != More;
    if |data| > size {
      assert Deliverable(data, size + 1) == data[..size + 1];
    }
  }

  /**
    The outcome with everything it depends on. `plan` and `eager` say how reads are chunked, `asks` how far the decoder
    reads ahead; they count for nothing but in one case, when the decoder has decided before the last byte was read.
   */
  function OutcomeOf<V(==)>(d: (seq<Byte>, bool) -> Verdict<V>, data: seq<Byte>, end: End, eager: bool, plan: seq<nat>,
                            asks: nat -> nat, limit: int): Outcome<V> {
    if FaultAtLimit(d, data, end, eager, limit) && Fetched(d, data, plan, asks, 0, 0, 0) < limit then InvalidJSON
    else Expected(d, data, end, limit)
  }

  /** From the limited reader on: decode, scan what follows, and classify. */
  method DecodeLimited<V(==, !new)>(body: Body, limit: int, d: (seq<Byte>, bool) -> Verdict<V>, asks: nat -> nat)
    returns (o: Outcome<V>)
    requires Lawful(d) && body.Valid() && body.pos == 0 && body.turn == 0
    modifies body
    ensures o == OutcomeOf(d, body.data, body.end, body.eager, body.plan, asks, limit)
  {
    var lim := new LimitTrackingReader(body, limit);
    var decoded := UnmarshalDecode(lim, d, asks);
    if decoded.SyntaxError? {
      return InvalidJSON;
    }
    if decoded.ReadFailed? {
      return if decoded.end == MaxBytes then BodyTooLarge else InvalidJSON;
    }
    ghost var u: nat :| ParsedFrom(lim, d, decoded, u);
    if lim.hitLimit {
      return BodyTooLarge;
    }
    var scan := HasTrailingJSONData(lim, decoded.unread, u);
    if scan.Broken? {
      return if scan.end == MaxBytes then BodyTooLarge else InvalidJSON;
    }
    if scan.Found? {
      Drain(lim);
      if lim.hitLimit {
        return BodyTooLarge;
      }
      return TrailingData;
    }
    if lim.hitLimit {
      return BodyTooLarge;
    }
    return Ok(decoded.v);
  }

  method DecodeJSONBody<V(==, !new)>(body: Body?, options: seq<Int64>, d: (seq<Byte>, bool) -> Verdict<V>,
                                     asks: nat -> nat)
    returns (o: Outcome<V>)
    requires Lawful(d)
    requires body != null ==> body.Valid() && body.pos == 0 && body.turn == 0
    modifies body
    ensures body == null ==> o == BadRequest
    ensures body != null ==>
              o == OutcomeOf(d, body.data, body.end, body.eager, body.plan, asks, Add64(MaxBodySize(options), 1))
    ensures body != null && options == [] ==> Promised(d, body, 0x10_0000, o)
    ensures body != null && options != [] ==>
              var asked := options[|options| - 1];
              if asked <= 0 then Promised(d, body, 0x10_0000, o)
              else asked < MAX_INT64 ==> Promised(d, body, asked, o)
  {
    hide Promised, OutcomeOf;
    var maxBodySize := ApplyDecodeOptions(options);
    if body == null {
      return BadRequest;
    }
    if maxBodySize < MAX_INT64 {
      OutcomeKeepsPromise(d, body, asks, maxBodySize);
    }
    o := DecodeLimited(body, Add64(maxBodySize, 1), d, asks);
  }
}
