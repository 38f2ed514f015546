/** What the outcome function of `decodeJSONBody` means for callers, and where int64 breaks it. */
module BodyDecodeTheorems {
  import opened BodyDecode
  import opened Common

  /**
    Success, however the body is read: exactly the bodies that end normally, keep to the size, and are one value
    followed by white space only.
   */
  lemma SuccessIff<V(!new)>(d: (seq<Byte>, bool) -> Verdict<V>, data: seq<Byte>, end: End, eager: bool, plan: seq<nat>,
                            asks: nat -> nat, maxBodySize: Int64)
    requires Lawful(d) && 0 < maxBodySize < MAX_INT64
    ensures var o := OutcomeOf(d, data, end, eager, plan, asks, Add64(maxBodySize, 1));
            && (o.Ok? <==> end == Eof && |data| <= maxBodySize && Accepts(d, data, true))
            && (o.Ok? ==> o == Ok(d(data, true).v))
  {
    assert Add64(maxBodySize, 1) == maxBodySize + 1;
    assert d(data, true) != More;
  }

  /** An oversize body is refused: as too large when its delivered beginning decodes, trailing data or not. */
  lemma OversizeRefused<V(!new)>(d: (seq<Byte>, bool) -> Verdict<V>, data: seq<Byte>, end: End, maxBodySize: Int64)
    requires Lawful(d) && 0 < maxBodySize < MAX_INT64 && |data| > maxBodySize
    ensures Expected(d, data, end, Add64(maxBodySize, 1))
         == if d(data[..maxBodySize + 1], true).Value? then BodyTooLarge else InvalidJSON
  {
    assert Add64(maxBodySize, 1) == maxBodySize + 1;
    assert Deliverable(data, maxBodySize + 1) == data[..maxBodySize + 1];
  }

  /**
    A value that ends within the limit makes an oversize body too large, whatever follows; one that the limit cuts in
    the middle is reported as invalid JSON unless the piece before the cut happens to decode.
   */
  lemma ValueWithinLimit<V(!new)>(d: (seq<Byte>, bool) -> Verdict<V>, data: seq<Byte>, end: End, maxBodySize: Int64,
                                  n: nat)
    requires Lawful(d) && 0 < maxBodySize < MAX_INT64 && |data| > maxBodySize
    requires n <= maxBodySize + 1 && d(data[..n], false).Value?
    ensures Expected(d, data, end, Add64(maxBodySize, 1)) == BodyTooLarge
  {
    OversizeRefused(d, data, end, maxBodySize);
    assert data[..n] + data[n..maxBodySize + 1] == data[..maxBodySize + 1];
  }

  /**
    The limit is `maxBodySize + 1` in int64. The decoder keeps to its limit for all bodies exactly when that sum does
    not wrap; with the largest int64, meant as "no limit", every body is refused.
   */
  lemma LimitHoldsIff<V(!new)>(d: (seq<Byte>, bool) -> Verdict<V>, maxBodySize: Int64, good: seq<Byte>)
    requires Lawful(d) && 0 < maxBodySize && Accepts(d, good, true) && |good| <= maxBodySize
    ensures (forall data :: Expected(d, data, Eof, Add64(maxBodySize, 1)) == Expected(d, data, Eof, maxBodySize + 1))
       <==> maxBodySize < MAX_INT64
  {
    if maxBodySize == MAX_INT64 {
      WrappedLimitRefusesAll(d, good, Eof);
      assert Expected(d, good, Eof, maxBodySize + 1).Ok?;
    } else {
      assert Fits64(maxBodySize) && Add64(maxBodySize, 1) == maxBodySize + 1;
    }
  }

  lemma WrappedLimitRefusesAll<V(!new)>(d: (seq<Byte>, bool) -> Verdict<V>, data: seq<Byte>, end: End)
    ensures var o := Expected(d, data, end, Add64(MAX_INT64, 1));
            o == if d([], true).Value? then BodyTooLarge else InvalidJSON
  {
    assert Add64(MAX_INT64, 1) == -0x8000_0000_0000_0000;
  }

  // ---- the assumption on decoders can be met ----

  predicate IsDigit(b: Byte) {
    0x30 <= b <= 0x39
  }

  function Digits(p: seq<Byte>): (n: nat)
    ensures n <= |p|
    ensures forall i :: 0 <= i < n ==> IsDigit(p[i])
    ensures n < |p| ==> !IsDigit(p[n])
  {
    if p == [] || !IsDigit(p[0]) then 0 else 1 + Digits(p[1..])
  }

  /** A decoder of unsigned numerals: it must see the byte after the last digit, or the end, to decide. */
  function Numeral(p: seq<Byte>, eof: bool): Verdict<seq<Byte>> {
    var n := Digits(p);
    if n == |p| && !eof then More else if n == 0 then Bad else Value(p[..n], n)
  }

  lemma NumeralIsLawful()
    ensures Lawful(Numeral)
  {
    forall p: seq<Byte>, q: seq<Byte>, e | Numeral(p, false) != More
      ensures Numeral(p + q, e) == Numeral(p, false)
    {
      DigitsStop(p, q);
      assert (p + q)[..Digits(p)] == p[..Digits(p)];
    }
  }

  lemma {:induction false} DigitsStop(p: seq<Byte>, q: seq<Byte>)
    requires Digits(p) < |p|
    ensures Digits(p + q) == Digits(p)
  {
    if IsDigit(p[0]) {
      assert (p + q)[1..] == p[1..] + q;
      DigitsStop(p[1..], q);
    }
  }

  // ---- the one case in which reading ahead matters ----

  lemma {:induction false} ReadsToTheEnd<V(!new)>(d: (seq<Byte>, bool) -> Verdict<V>, data: seq<Byte>, plan: seq<nat>,
                                                 asks: nat -> nat, pos: nat, turn: nat, i: nat)
    requires Lawful(d) && pos <= |data| && turn <= |plan|
    requires |data| > 0 ==> d(data[..|data| - 1], false) == More
    ensures Fetched(d, data, plan, asks, pos, turn, i) == |data|
    decreases |data| - pos + |plan| - turn
  {
    if pos < |data| {
      assert data[..pos] + data[pos..|data| - 1] == data[..|data| - 1];
      assert d(data[..pos], false) == More;
      var n := Gives(plan, turn, |data| - pos, asks(i) + 1);
      ReadsToTheEnd(d, data, plan, asks, pos + n, Min(turn + 1, |plan|), i + 1);
    }
  }

  lemma {:induction false} ReadsNoFurther<V(!new)>(d: (seq<Byte>, bool) -> Verdict<V>, data: seq<Byte>, m: nat,
                                                   pos: nat, i: nat)
    requires Lawful(d) && pos <= m <= |data| && d(data[..m], false) != More
    ensures Fetched(d, data, [], ByteByByte, pos, 0, i) <= m
    decreases m - pos
  {
    if pos < m && d(data[..pos], false) == More {
      ReadsNoFurther(d, data, m, pos + 1, i + 1);
    }
  }

  function ByteByByte(i: nat): nat {
    0
  }

  /** The body is in the one case, and its value can be told without its last byte, but not without reading anything. */
  predicate ReadAheadMatters<V(==)>(d: (seq<Byte>, bool) -> Verdict<V>, data: seq<Byte>, end: End, eager: bool,
                                    limit: int) {
    && FaultAtLimit(d, data, end, eager, limit) && |data| > 0
    && d(data[..|data| - 1], false) != More && d([], false) == More
  }

  lemma AllAtOnce<V(!new)>(d: (seq<Byte>, bool) -> Verdict<V>, data: seq<Byte>, asks: nat -> nat)
    requires d([], false) == More && asks(0) >= |data|
    ensures Fetched(d, data, [], asks, 0, 0, 0) == |data|
  {
    assert data[..0] == [];
    if data != [] {
      assert Gives([], 0, |data|, asks(0) + 1) == |data|;
      assert Fetched(d, data, [], asks, |data|, 0, 1) == |data|;
    }
  }

  lemma FaultIsTooLarge<V(!new)>(d: (seq<Byte>, bool) -> Verdict<V>, data: seq<Byte>, end: End, eager: bool, limit: int)
    requires FaultAtLimit(d, data, end, eager, limit)
    ensures Expected(d, data, end, limit) == BodyTooLarge
  {
    assert Deliverable(data, limit) == data;
  }

  /** Outside that case, what has been read when the decoder decides is all of the body, or nothing, every time. */
  lemma SameOutcome<V(!new)>(d: (seq<Byte>, bool) -> Verdict<V>, data: seq<Byte>, end: End, eager: bool, limit: int,
                             plan: seq<nat>, asks: nat -> nat, plan': seq<nat>, asks': nat -> nat)
    requires Lawful(d) && !ReadAheadMatters(d, data, end, eager, limit)
    ensures OutcomeOf(d, data, end, eager, plan, asks, limit) == OutcomeOf(d, data, end, eager, plan', asks', limit)
  {
    assert data[..0] == [];
    if d([], false) == More && FaultAtLimit(d, data, end, eager, limit) {
      ReadsToTheEnd(d, data, plan, asks, 0, 0, 0);
      ReadsToTheEnd(d, data, plan', asks', 0, 0, 0);
    }
  }

  /**
    Any two ways of chunking the reads and reading ahead give the same outcome exactly outside that case; within it,
    reading byte by byte gives "invalid JSON" and reading all at once "too large".
   */
  lemma OneOutcomeIff<V(!new)>(d: (seq<Byte>, bool) -> Verdict<V>, data: seq<Byte>, end: End, eager: bool, limit: int)
    requires Lawful(d)
    ensures (forall plan, asks, plan', asks' ::
               OutcomeOf(d, data, end, eager, plan, asks, limit) == OutcomeOf(d, data, end, eager, plan', asks', limit))
       <==> !ReadAheadMatters(d, data, end, eager, limit)
    ensures ReadAheadMatters(d, data, end, eager, limit) ==>
              && OutcomeOf(d, data, end, eager, [], ByteByByte, limit) == InvalidJSON
              && OutcomeOf(d, data, end, eager, [], _ => |data|, limit) == BodyTooLarge
  {
    if ReadAheadMatters(d, data, end, eager, limit) {
      ReadsNoFurther(d, data, |data| - 1, 0, 0);
      AllAtOnce(d, data, _ => |data|);
      FaultIsTooLarge(d, data, end, eager, limit);
      var fast := OutcomeOf(d, data, end, eager, [], _ => |data|, limit);
      assert OutcomeOf(d, data, end, eager, [], ByteByByte, limit) != fast;
    } else {
      forall plan: seq<nat>, asks: nat -> nat, plan': seq<nat>, asks': nat -> nat
        ensures OutcomeOf(d, data, end, eager, plan, asks, limit) == OutcomeOf(d, data, end, eager, plan', asks', limit)
      {
        SameOutcome(d, data, end, eager, limit, plan, asks, plan', asks');
      }
    }
  }

  /** The outcome that is meant is the outcome every time, exactly unless a body in the one case is decided early. */
  lemma AlwaysExpectedIff<V(!new)>(d: (seq<Byte>, bool) -> Verdict<V>, data: seq<Byte>, end: End, eager: bool,
                                   limit: int)
    requires Lawful(d)
    ensures (forall plan, asks :: OutcomeOf(d, data, end, eager, plan, asks, limit) == Expected(d, data, end, limit))
       <==> !(FaultAtLimit(d, data, end, eager, limit) && |data| > 0 && d(data[..|data| - 1], false) != More)
  {
    if FaultAtLimit(d, data, end, eager, limit) && |data| > 0 && d(data[..|data| - 1], false) != More {
      ReadsNoFurther(d, data, |data| - 1, 0, 0);
      FaultIsTooLarge(d, data, end, eager, limit);
      assert OutcomeOf(d, data, end, eager, [], ByteByByte, limit) == InvalidJSON;
    } else if FaultAtLimit(d, data, end, eager, limit) {
      forall plan: seq<nat>, asks: nat -> nat
        ensures OutcomeOf(d, data, end, eager, plan, asks, limit) == Expected(d, data, end, limit)
      {
        ReadsToTheEnd(d, data, plan, asks, 0, 0, 0);
      }
    }
  }

  /** The case occurs: "7" and two blanks under a limit of two bytes, from a reader that fails with the last of them. */
  lemma ReadAheadCanMatter()
    ensures ReadAheadMatters(Numeral, [0x37, 0x20, 0x20], Fault, true, 3)
  {
    var data: seq<Byte> := [0x37, 0x20, 0x20];
    assert data[..2] == [0x37, 0x20] && data[1..] == [0x20, 0x20] && data[..2][1..] == [0x20];
    assert Digits(data[1..]) == 0 && Digits([0x20]) == 0;
  }
}
