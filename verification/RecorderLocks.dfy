/**
  The mutexes of a stack of recorders when the server's writer panics. Most methods give their mutex back with defer, or
  before they call the writer inside; the logging recorder's Write does neither.
 */
module RecorderLocks {
  import opened Recorders

  datatype Call = Header | Body | Source | Flushing

  /** The mutexes left locked, by level, and whether a panic is on its way. */
  datatype Outcome = Outcome(held: set<nat>, panics: bool)

  /**
    What `call` on level `i` leaves, the outermost level being 0. `claimed` says that the header is claimed, as it
    then is at all levels; `fails` which calls make the server panic.
   */
  function Made(kinds: seq<Kind>, i: nat, call: Call, claimed: bool, fails: Call -> bool): Outcome
    requires i <= |kinds|
    decreases |kinds| - i, if call == Header then 0 else 1
  {
    if i == |kinds| then Outcome({}, fails(call))
    else
      match call
      case Header => if claimed then Outcome({}, false) else Made(kinds, i + 1, Header, claimed, fails)
      case Body =>
        var o := HeaderThen(kinds, i, Body, claimed, fails);
        if kinds[i] == IsLogging && o.panics then o.(held := o.held + {i}) else o
      case Source =>
        if kinds[i] == IsLogging then Made(kinds, i + 1, Source, claimed, fails)
        else HeaderThen(kinds, i, Source, claimed, fails)
      case Flushing => HeaderThen(kinds, i, Flushing, claimed, fails)
  }

  /** The implied header, if it is still to be sent, and then the call, both on the writer inside. */
  function HeaderThen(kinds: seq<Kind>, i: nat, call: Call, claimed: bool, fails: Call -> bool): Outcome
    requires i < |kinds|
    decreases |kinds| - i, 0
  {
    var first := if claimed then Outcome({}, false) else Made(kinds, i + 1, Header, claimed, fails);
    if first.panics then first else Made(kinds, i + 1, call, true, fails)
  }

  function LoggingFrom(kinds: seq<Kind>, i: nat): set<nat> {
    set k: nat | i <= k < |kinds| && kinds[k] == IsLogging
  }

  lemma {:induction false} HeaderHoldsNothing(kinds: seq<Kind>, i: nat, claimed: bool, fails: Call -> bool)
    requires i <= |kinds|
    ensures Made(kinds, i, Header, claimed, fails).held == {}
    ensures !claimed || i == |kinds| ==> Made(kinds, i, Header, claimed, fails).panics == fails(Header)
    decreases |kinds| - i
  {
    if i < |kinds| && !claimed {
      HeaderHoldsNothing(kinds, i + 1, claimed, fails);
    }
  }

  /**
    Only Write leaves mutexes locked, and only when there is a panic: those of every logging level when it is the
    server's Write.
   */
  lemma {:induction false} HeldAfter(kinds: seq<Kind>, i: nat, call: Call, claimed: bool, fails: Call -> bool)
    requires i <= |kinds|
    ensures var o := Made(kinds, i, call, claimed, fails);
            && (!o.panics || call != Body ==> o.held == {})
            && (o.panics && call == Body && (claimed || !fails(Header)) ==> o.held == LoggingFrom(kinds, i))
            && (o.panics && call == Body && i < |kinds| && kinds[i] == IsLogging ==> i in o.held)
    decreases |kinds| - i
  {
    HeaderHoldsNothing(kinds, i, claimed, fails);
    if i < |kinds| {
      HeaderHoldsNothing(kinds, i + 1, claimed, fails);
      HeldAfter(kinds, i + 1, call, claimed, fails);
      HeldAfter(kinds, i + 1, call, true, fails);
      assert LoggingFrom(kinds, i) == LoggingFrom(kinds, i + 1) + if kinds[i] == IsLogging then {i} else {};
    }
  }

  /**
    The deferred function of Recoverer takes the mutex of its own recorder, the outermost that the handler sees: after a
    panic of the server's writer it blocks for ever, exactly when the handler was in Write.
   */
  lemma RecovererBlocksIff(kinds: seq<Kind>, call: Call, claimed: bool, fails: Call -> bool)
    requires kinds != [] && kinds[0] == IsLogging && Made(kinds, 0, call, claimed, fails).panics
    ensures 0 in Made(kinds, 0, call, claimed, fails).held <==> call == Body
  {
    HeldAfter(kinds, 0, call, claimed, fails);
  }
}
