/**
 One connection's request loop (internal/server/server.go:494-784) as a step relation: every exit
 path, and a panic at any point outside the recording calls themselves, with the deferred recovery.
 It drives the accounts of `TerminalAccounting`, one call at a time.
 */
module ConnectionHandler {
  import opened Basics
  import opened Wrappers
  import opened TerminalAccounting

  type RequestId = nat

  datatype Phase =
    | LoopTop
    | Parsing
    | ReceivingBodies
    | BodyFailed
    | Preparing
    | Routing
    | Responding
    | Writing
    | ClosingStream
    | Finalizing
    | Draining
    | Releasing(again: bool)
    | Deciding
    | Leaving
    | Panicking
    | Exited

  /** The loop's variables for the current request, and what has been counted and gauged so far. */
  datatype Conn = Conn(
    phase: Phase,
    parsed: nat,
    current: Option<RequestId>,
    account: Option<Account>,
    outcomeRecorded: bool,
    counted: map<RequestId, int>,
    inFlight: int,
    streaming: int)

  const Fresh := Conn(LoopTop, 0, None, None, false, map[], 0, 0)

  datatype Event =
    | Stopping
    | Waits
    | ReadFails
    | Parses
    | BodiesFail
    | BodyFailureCounted
    | BodiesArrive
    | AccountOpens(series: Label, metered: bool)
    | TimingStarts
    | Routed
    | DeadlineFails
    | WriteBegins
    | StreamingBegins
    | WriteFails
    | WriteEnds(closeAfter: bool)
    | StreamCloses
    | ResponseCounted
    | DrainFails
    | Drained
    | Released
    | KeepsAlive
    | Closes
    | Panics
    | Recovers
    | Exits

  predicate Enabled(c: Conn, e: Event) {
    match e
    case Stopping => c.phase == LoopTop
    case Waits => c.phase == LoopTop
    case ReadFails => c.phase == Parsing
    case Parses => c.phase == Parsing
    case BodiesFail => c.phase == ReceivingBodies
    case BodyFailureCounted => c.phase == BodyFailed && c.current.Some?
    case BodiesArrive => c.phase == ReceivingBodies
    case AccountOpens(_, _) => c.phase == Preparing
    case TimingStarts => c.phase in {Routing, Responding} && c.account.Some?
    case Routed => c.phase == Routing
    case DeadlineFails => c.phase == Responding
    case WriteBegins => c.phase == Responding
    case StreamingBegins => c.phase == Writing && c.account.Some?
    case WriteFails => c.phase == Writing
    case WriteEnds(_) => c.phase == Writing
    case StreamCloses => c.phase == ClosingStream
    case ResponseCounted => c.phase == Finalizing
    case DrainFails => c.phase == Draining
    case Drained => c.phase == Draining
    case Released => c.phase.Releasing?
    case KeepsAlive => c.phase == Deciding
    case Closes => c.phase == Deciding
    case Panics => c.phase !in {Leaving, Panicking, Exited}
    case Recovers => c.phase == Panicking
    case Exits => c.phase == Leaving
  }

  /** Count the current request once more. */
  function CountCurrent(c: Conn): Conn {
    if c.current.Some? then c.(counted := Moved(c.counted, c.current.value, 1)) else c
  }

  /** Finalize the current account: only the first claim lowers gauges and counts. */
  function Finalized(c: Conn): Conn {
    if c.account.None? then c
    else
      var (a, was) := ClaimTerminal(c.account.value);
      if was.None? then c
      else CountCurrent(c).(account := Some(a),
                            streaming := c.streaming - One(LowersStreaming(was.value)),
                            inFlight := c.inFlight - One(LowersInFlight(was.value)))
  }

  function Apply(c: Conn, e: Event): Conn
    requires Enabled(c, e)
  {
    match e
    case Stopping => c.(phase := Leaving)
    case Waits => c.(phase := Parsing, current := None, account := None, outcomeRecorded := false)
    case ReadFails => c.(phase := Leaving)
    case Parses => c.(phase := ReceivingBodies, current := Some(c.parsed), parsed := c.parsed + 1)
    case BodiesFail => c.(phase := BodyFailed)
    case BodyFailureCounted => CountCurrent(c).(phase := Releasing(false), outcomeRecorded := true)
    case BodiesArrive => c.(phase := Preparing)
    case AccountOpens(series, metered) =>
      c.(phase := Routing, account := Some(NewAccount(series, metered)), inFlight := c.inFlight + One(metered))
    case TimingStarts => c.(account := Some(StartedAt(c.account.value)))
    case Routed => c.(phase := Responding)
    case DeadlineFails => Finalized(c).(phase := Releasing(false))
    case WriteBegins => c.(phase := Writing)
    case StreamingBegins =>
      var (a, raises) := StreamingStarted(c.account.value);
      c.(account := Some(a), streaming := c.streaming + One(raises))
    case WriteFails => Finalized(c).(phase := Releasing(false))
    case WriteEnds(closeAfter) => c.(phase := if closeAfter then ClosingStream else Finalizing)
    case StreamCloses => Finalized(c).(phase := Releasing(false))
    case ResponseCounted => Finalized(c).(phase := Draining)
    case DrainFails => c.(phase := Releasing(false))
    case Drained => c.(phase := Releasing(true))
    case Released => c.(phase := if c.phase.again then Deciding else Leaving)
    case KeepsAlive => c.(phase := LoopTop)
    case Closes => c.(phase := Leaving)
    case Panics => c.(phase := Panicking)
    case Recovers =>
      (if c.account.Some? then Finalized(c)
       else if c.current.Some? && !c.outcomeRecorded then CountCurrent(c).(outcomeRecorded := true)
       else c).(phase := Exited)
    case Exits => c.(phase := Exited)
  }

  function Run(events: seq<Event>): Option<Conn> {
    if events == [] then Some(Fresh)
    else
      match Run(events[..|events| - 1])
      case None => None
      case Some(c) => if Enabled(c, events[|events| - 1]) then Some(Apply(c, events[|events| - 1])) else None
  }

  // ---- the invariant -----------------------------------------------------------------------

  /** The current request has been counted, by its account or on its own. */
  predicate Settled(c: Conn) {
    c.outcomeRecorded || (c.account.Some? && c.account.value.finished)
  }

  /** What each place in the loop knows about the current request. */
  predicate PhaseFits(c: Conn) {
    && (c.account.Some? ==> c.current.Some? && !c.outcomeRecorded)
    && (c.outcomeRecorded ==> c.current.Some?)
    && (match c.phase
        case Parsing => c.current.None?
        case ReceivingBodies => c.current.Some? && c.account.None? && !c.outcomeRecorded
        case BodyFailed => c.current.Some? && c.account.None? && !c.outcomeRecorded
        case Preparing => c.current.Some? && c.account.None? && !c.outcomeRecorded
        case Routing => c.account.Some?
        case Responding => c.account.Some?
        case Writing => c.account.Some?
        case ClosingStream => c.account.Some?
        case Finalizing => c.account.Some?
        case Panicking => true
        case _ => c.current.Some? ==> Settled(c))
  }

  /** Requests before the current one were counted once; the current one, once it is settled. */
  ghost predicate Counted(c: Conn) {
    && (c.current.Some? ==> c.parsed == c.current.value + 1)
    && forall id: RequestId :: At(c.counted, id) ==
         if id >= c.parsed then 0 else if c.current == Some(id) then One(Settled(c)) else 1
  }

  /** The gauges hold the current account and nothing else. */
  predicate Gauged(c: Conn) {
    && c.inFlight == One(c.account.Some? && c.account.value.metered && !c.account.value.finished)
    && c.streaming == One(c.account.Some? && LowersStreaming(c.account.value))
    && (c.account.Some? && c.account.value.finished ==>
          !c.account.value.streamingActive && !c.account.value.requestInFlight)
    && (c.account.Some? && !c.account.value.finished ==> c.account.value.requestInFlight == c.account.value.metered)
  }

  lemma StepKeepsPhase(c: Conn, e: Event)
    requires PhaseFits(c) && Enabled(c, e)
    ensures PhaseFits(Apply(c, e))
  {
    hide Moved;
  }

  lemma FinalizedKeeps(c: Conn)
    requires Counted(c) && Gauged(c) && PhaseFits(c)
    ensures Counted(Finalized(c)) && Gauged(Finalized(c))
    ensures c.account.Some? ==> Settled(Finalized(c))
  {
    hide Moved;
  }

  lemma StepKeepsGauges(c: Conn, e: Event)
    requires Counted(c) && Gauged(c) && PhaseFits(c) && Enabled(c, e)
    ensures Gauged(Apply(c, e))
  {
    FinalizedKeeps(c);
    hide Moved, Finalized, At, Counted;
  }

  predicate Finalizes(e: Event) {
    e in {DeadlineFails, WriteFails, StreamCloses, ResponseCounted}
  }

  predicate Recounts(e: Event) {
    e in {Waits, Parses, BodyFailureCounted, Recovers}
  }

  lemma StepKeepsCount(c: Conn, e: Event)
    requires Counted(c) && Gauged(c) && PhaseFits(c) && Enabled(c, e)
    ensures Counted(Apply(c, e))
  {
    if Finalizes(e) {
      FinalizingKeeps(c, e);
    } else if e == Recovers {
      RecoveryKeeps(c);
    } else if e == BodyFailureCounted {
      BodyFailureKeeps(c);
    } else if e == Waits {
      NextTurnKeeps(c);
    } else if e == Parses {
      ParsedKeeps(c);
    } else {
      QuietKeeps(c, e);
    }
  }

  lemma FinalizingKeeps(c: Conn, e: Event)
    requires Counted(c) && Gauged(c) && PhaseFits(c) && Enabled(c, e) && Finalizes(e)
    ensures Counted(Apply(c, e))
  {
    FinalizedKeeps(c);
    hide Counted, Gauged, PhaseFits, Finalized;
    SameCount(Finalized(c), Apply(c, e));
  }

  lemma RecoveryKeeps(c: Conn)
    requires Counted(c) && Gauged(c) && PhaseFits(c) && Enabled(c, Recovers)
    ensures Counted(Apply(c, Recovers))
  {
    FinalizedKeeps(c);
    hide Counted, Gauged, PhaseFits, Finalized, CountCurrent;
    if c.account.Some? {
      SameCount(Finalized(c), Apply(c, Recovers));
    } else if c.current.Some? && !c.outcomeRecorded {
      CountedAlone(c);
      SameCount(CountCurrent(c).(outcomeRecorded := true), Apply(c, Recovers));
    } else {
      SameCount(c, Apply(c, Recovers));
    }
  }

  lemma BodyFailureKeeps(c: Conn)
    requires Counted(c) && PhaseFits(c) && Enabled(c, BodyFailureCounted)
    ensures Counted(Apply(c, BodyFailureCounted))
  {
    hide Counted, CountCurrent;
    CountedAlone(c);
    SameCount(CountCurrent(c).(outcomeRecorded := true), Apply(c, BodyFailureCounted));
  }

  lemma QuietKeeps(c: Conn, e: Event)
    requires Counted(c) && PhaseFits(c) && Enabled(c, e) && !Finalizes(e) && !Recounts(e)
    ensures Counted(Apply(c, e))
  {
    hide Counted, Finalized, CountCurrent;
    SameCount(c, Apply(c, e));
  }

  /** What is counted does not depend on the place in the loop, the gauges, or the account's timing. */
  lemma SameCount(c: Conn, d: Conn)
    requires Counted(c) && d.counted == c.counted && d.parsed == c.parsed && d.current == c.current
    requires Settled(d) == Settled(c)
    ensures Counted(d)
  {
  }

  lemma NextTurnKeeps(c: Conn)
    requires Counted(c) && PhaseFits(c) && c.phase == LoopTop
    ensures Counted(Apply(c, Waits))
  {
    hide At;
  }

  lemma ParsedKeeps(c: Conn)
    requires Counted(c) && PhaseFits(c) && c.phase == Parsing
    ensures Counted(Apply(c, Parses))
  {
    hide At;
  }

  /** Counting a request that has no account, and has not been counted, settles it. */
  lemma CountedAlone(c: Conn)
    requires Counted(c) && c.current.Some? && c.account.None? && !c.outcomeRecorded
    ensures Counted(CountCurrent(c).(outcomeRecorded := true))
    ensures CountCurrent(c) == c.(counted := CountCurrent(c).counted)
  {
    hide Moved;
  }

  lemma {:induction false} EveryRunCounts(events: seq<Event>)
    requires Run(events).Some?
    ensures PhaseFits(Run(events).value) && Counted(Run(events).value) && Gauged(Run(events).value)
  {
    if events != [] {
      hide PhaseFits, Counted, Gauged, Apply, Enabled;
      var before := events[..|events| - 1];
      EveryRunCounts(before);
      StepKeepsPhase(Run(before).value, events[|events| - 1]);
      StepKeepsCount(Run(before).value, events[|events| - 1]);
      StepKeepsGauges(Run(before).value, events[|events| - 1]);
    }
  }

  /**
   When the handler has exited, by whatever path and with a panic anywhere, every parsed request has been
   counted exactly once and both gauges are back where they were.
   */
  lemma ExactlyOnceOnEveryExit(events: seq<Event>)
    requires Run(events).Some? && Run(events).value.phase == Exited
    ensures var c := Run(events).value;
      c.inFlight == 0 && c.streaming == 0 && forall id: RequestId | id < c.parsed :: At(c.counted, id) == 1
  {
    EveryRunCounts(events);
  }

  /** And at no time has any request been counted twice. */
  lemma NeverCountedTwice(events: seq<Event>, id: RequestId)
    requires Run(events).Some?
    ensures 0 <= At(Run(events).value.counted, id) <= 1
  {
    EveryRunCounts(events);
  }
}
