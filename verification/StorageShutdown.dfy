/**
 The asynchronous file store (internal/storage/filesystem.go:154-225, 871-950) as a state machine:
 any number of SaveRequest calls, the writer goroutine, the rotation goroutine, one Flush at a time
 and any number of Close calls, interleaved at every read or write of shared state. Writes do not panic.
 */
module StorageShutdown {
  import opened Basics
  import opened Wrappers

  type Record = nat
  type Call = nat
  type CloseId = nat

  const QUEUE_CAPACITY := 1000

  datatype WriterPhase =
    | Waiting
    | Writing(record: Record)
    | Written
    | Exited

  datatype FlushPhase = NotFlushing | AwaitingDrain | Drained

  /** Where a SaveRequest call is. All but the first phase hold the read lock. */
  datatype SavePhase =
    | SawOpen(record: Record)
    | HasLock(record: Record)
    | Checked(record: Record)
    | Counted(record: Record)
    | Refused
    | Leaving

  /** Where a Close call is. From Locked to its unlocking it holds the write lock; Won and Lost are the swap's outcomes. */
  datatype ClosePhase =
    | Entering
    | Locked
    | Won
    | Lost
    | Losing
    | Marked
    | Cancelled
    | WritersGone
    | QueueClosed
    | Returned(won: bool)

  /** A Close call, and whether the store was open when it took the lock. */
  datatype CloseCall = CloseCall(phase: ClosePhase, foundOpen: bool)

  /** The Close calls, the flags they set, the one that holds the write lock and the one whose swap succeeded. */
  datatype Closing = Closing(
    calls: map<CloseId, CloseCall>,
    closed: bool,
    cancelled: bool,
    queueClosed: bool,
    holder: Option<CloseId>,
    winner: Option<CloseId>)

  datatype Store = Store(
    calls: map<Call, SavePhase>,
    queue: seq<Record>,
    pending: int,
    writer: WriterPhase,
    draining: bool,
    rotatorRunning: bool,
    flush: FlushPhase,
    closing: Closing,
    accepted: seq<Record>,
    handled: seq<Record>)

  const NotClosing := Closing(map[], false, false, false, None, None)
  const Initial := Store(map[], [], 0, Waiting, false, true, NotFlushing, NotClosing, [], [])

  datatype CloseStep =
    | Begins
    | Locks
    | Swaps
    | Unlocks
    | Cancels
    | Waits
    | ClosesQueue
    | Returns

  datatype Step =
    | SaveBegins(call: Call, record: Record)
    | SaveLocks(call: Call)
    | SaveChecks(call: Call)
    | SaveCounts(call: Call)
    | SaveSends(call: Call)
    | SaveUncounts(call: Call)
    | SaveReturns(call: Call)
    | WriterReceives
    | WriterWrites
    | WriterUncounts
    | WriterSeesCancel
    | WriterExits
    | RotatorExits
    | FlushLocks
    | FlushSeesNothingPending
    | FlushReturns
    | Close(id: CloseId, step: CloseStep)

  predicate ReadLocked(s: Store) {
    exists call | call in s.calls :: !s.calls[call].SawOpen?
  }

  predicate WriteLocked(s: Store) {
    s.flush != NotFlushing || s.closing.holder.Some?
  }

  predicate IsAt(c: Closing, id: CloseId, phase: ClosePhase) {
    id in c.calls && c.calls[id].phase == phase
  }

  /** The place a Close call's step starts from. */
  predicate InPlace(c: Closing, id: CloseId, step: CloseStep) {
    match step
    case Begins => id !in c.calls
    case Locks => IsAt(c, id, Entering) && c.holder.None?
    case Swaps => IsAt(c, id, Locked)
    case Unlocks => IsAt(c, id, Won) || IsAt(c, id, Lost)
    case Cancels => IsAt(c, id, Marked)
    case Waits => IsAt(c, id, Cancelled)
    case ClosesQueue => IsAt(c, id, WritersGone)
    case Returns => IsAt(c, id, QueueClosed) || IsAt(c, id, Losing)
  }

  /** What each step needs: the place its goroutine is at, and the lock, channel or group it waits for. */
  predicate Enabled(s: Store, step: Step) {
    match step
    case SaveBegins(call, _) => call !in s.calls && !s.closing.closed
    case SaveLocks(call) => call in s.calls && s.calls[call].SawOpen? && !WriteLocked(s)
    case SaveChecks(call) => call in s.calls && s.calls[call].HasLock?
    case SaveCounts(call) => call in s.calls && s.calls[call].Checked?
    case SaveSends(call) => call in s.calls && s.calls[call].Counted?
    case SaveUncounts(call) => call in s.calls && s.calls[call] == Refused
    case SaveReturns(call) => call in s.calls && s.calls[call] == Leaving
    case WriterReceives => s.writer == Waiting && s.queue != []
    case WriterWrites => s.writer.Writing?
    case WriterUncounts => s.writer == Written
    case WriterSeesCancel => s.writer == Waiting && !s.draining && s.closing.cancelled
    case WriterExits => s.writer == Waiting && s.draining && s.queue == []
    case RotatorExits => s.rotatorRunning && s.closing.cancelled
    case FlushLocks => !WriteLocked(s) && !ReadLocked(s) && !s.closing.closed
    case FlushSeesNothingPending => s.flush == AwaitingDrain && s.pending <= 0
    case FlushReturns => s.flush != NotFlushing
    case Close(id, cstep) =>
      && InPlace(s.closing, id, cstep)
      && (cstep == Locks ==> !WriteLocked(s) && !ReadLocked(s))
      && (cstep == Waits ==> s.writer == Exited && !s.rotatorRunning)
  }

  /** Move a Close call on; what it found when it took the lock stays with it. */
  function Goes(c: Closing, id: CloseId, phase: ClosePhase): Closing
    requires id in c.calls
  {
    c.(calls := c.calls[id := c.calls[id].(phase := phase)])
  }

  function ApplyClose(c: Closing, id: CloseId, step: CloseStep): Closing
    requires InPlace(c, id, step)
  {
    match step
    case Begins => c.(calls := c.calls[id := CloseCall(Entering, false)])
    case Locks => c.(calls := c.calls[id := CloseCall(Locked, !c.closed)], holder := Some(id))
    case Swaps =>
      if c.closed then Goes(c, id, Lost) else Goes(c, id, Won).(closed := true, winner := Some(id))
    case Unlocks => Goes(c, id, if IsAt(c, id, Won) then Marked else Losing).(holder := None)
    case Cancels => Goes(c, id, Cancelled).(cancelled := true)
    case Waits => Goes(c, id, WritersGone)
    case ClosesQueue => Goes(c, id, QueueClosed).(queueClosed := true)
    case Returns => Goes(c, id, Returned(IsAt(c, id, QueueClosed)))
  }

  function Move(s: Store, call: Call, phase: SavePhase): Store {
    s.(calls := s.calls[call := phase])
  }

  function Apply(s: Store, step: Step): Store
    requires Enabled(s, step)
  {
    match step
    case SaveBegins(call, record) => Move(s, call, SawOpen(record))
    case SaveLocks(call) => Move(s, call, HasLock(s.calls[call].record))
    case SaveChecks(call) => Move(s, call, if s.closing.closed then Leaving else Checked(s.calls[call].record))
    case SaveCounts(call) => Move(s, call, Counted(s.calls[call].record)).(pending := s.pending + 1)
    case SaveSends(call) =>
      if |s.queue| < QUEUE_CAPACITY then
        var record := s.calls[call].record;
        Move(s, call, Leaving).(queue := s.queue + [record], accepted := s.accepted + [record])
      else Move(s, call, Refused)
    case SaveUncounts(call) => Move(s, call, Leaving).(pending := s.pending - 1)
    case SaveReturns(call) => s.(calls := s.calls - {call})
    case WriterReceives => s.(writer := Writing(s.queue[0]), queue := s.queue[1..])
    case WriterWrites => s.(writer := Written, handled := s.handled + [s.writer.record])
    case WriterUncounts => s.(writer := Waiting, pending := s.pending - 1)
    case WriterSeesCancel => s.(draining := true)
    case WriterExits => s.(writer := Exited)
    case RotatorExits => s.(rotatorRunning := false)
    case FlushLocks => s.(flush := AwaitingDrain)
    case FlushSeesNothingPending => s.(flush := Drained)
    case FlushReturns => s.(flush := NotFlushing)
    case Close(id, cstep) => s.(closing := ApplyClose(s.closing, id, cstep))
  }

  /** The state a run reaches, if each of its steps was possible. */
  function Run(steps: seq<Step>): Option<Store> {
    if steps == [] then Some(Initial)
    else
      match Run(steps[..|steps| - 1])
      case None => None
      case Some(s) => if Enabled(s, steps[|steps| - 1]) then Some(Apply(s, steps[|steps| - 1])) else None
  }

  // ---- the invariant -----------------------------------------------------------------------

  function InWriter(s: Store): seq<Record> {
    if s.writer.Writing? then [s.writer.record] else []
  }

  function WriterBusy(s: Store): nat {
    if s.writer.Writing? || s.writer == Written then 1 else 0
  }

  /** Every accepted record was handled, is being written, or is queued, in the order of acceptance. */
  predicate NothingLost(s: Store) {
    s.accepted == s.handled + InWriter(s) + s.queue
  }

  /** Counted, and neither sent nor given up. */
  predicate IsUnsent(calls: map<Call, SavePhase>, call: Call) {
    call in calls && (calls[call].Counted? || calls[call] == Refused)
  }

  function Unsent(calls: map<Call, SavePhase>): set<Call> {
    set call | call in calls && IsUnsent(calls, call)
  }

  /** The counter is the number of records between being counted and being done with. */
  predicate PendingIsExact(s: Store) {
    s.pending == |Unsent(s.calls)| + |s.queue| + WriterBusy(s)
  }

  /** Who may be where once the store is marked closed, and while a Flush or a Close holds the lock. */
  predicate LocksHold(s: Store) {
    && (s.closing.closed ==>
          forall call | call in s.calls :: s.calls[call].SawOpen? || s.calls[call].HasLock? || s.calls[call] == Leaving)
    && (WriteLocked(s) ==> !ReadLocked(s))
    && (s.flush != NotFlushing ==> !s.closing.closed && s.closing.holder.None?)
    && (s.draining || s.writer == Exited || !s.rotatorRunning ==> s.closing.cancelled)
    && (s.writer == Exited ==> s.draining && s.queue == [])
    && (s.flush == Drained ==> s.pending == 0)
  }

  /** The phases only the winning call goes through. */
  predicate IsWinning(phase: ClosePhase) {
    phase in {Won, Marked, Cancelled, WritersGone, QueueClosed, Returned(true)}
  }

  predicate HoldsLock(phase: ClosePhase) {
    phase in {Locked, Won, Lost}
  }

  predicate PastWaiting(phase: ClosePhase) {
    phase in {WritersGone, QueueClosed, Returned(true)}
  }

  /** One Close call wins, namely one that found the store open; the flags are what it has done so far. */
  predicate ClosesHold(c: Closing) {
    && (c.closed <==> c.winner.Some?)
    && (c.winner.Some? ==> c.winner.value in c.calls)
    && (c.holder.Some? ==> c.holder.value in c.calls)
    && (forall id | id in c.calls :: CallHolds(c, id))
    && (c.cancelled || c.queueClosed ==> c.closed)
  }

  predicate CallHolds(c: Closing, id: CloseId)
    requires id in c.calls
  {
    var call := c.calls[id];
    && (HoldsLock(call.phase) <==> c.holder == Some(id))
    && (IsWinning(call.phase) <==> c.winner == Some(id))
    && (call.phase == Locked ==> call.foundOpen == !c.closed)
    && (call.phase != Entering && call.phase != Locked ==> call.foundOpen == IsWinning(call.phase))
    && (call.phase == Cancelled ==> c.cancelled)
  }

  /** The winning call leaves its waiting only once the writer has. */
  predicate WaitsHold(s: Store) {
    forall id | id in s.closing.calls && PastWaiting(s.closing.calls[id].phase) :: s.writer == Exited
  }

  predicate Inv(s: Store) {
    NothingLost(s) && PendingIsExact(s) && LocksHold(s) && ClosesHold(s.closing) && WaitsHold(s)
  }

  lemma StepKeepsOrder(s: Store, step: Step)
    requires NothingLost(s) && Enabled(s, step)
    ensures NothingLost(Apply(s, step))
  {
    hide PendingIsExact, LocksHold, ReadLocked, WriteLocked, ClosesHold, WaitsHold, ApplyClose;
  }

  lemma StepKeepsCount(s: Store, step: Step)
    requires PendingIsExact(s) && LocksHold(s) && Enabled(s, step)
    ensures PendingIsExact(Apply(s, step))
  {
    hide NothingLost, ReadLocked, WriteLocked, ClosesHold, WaitsHold, Unsent;
    var calls := s.calls;
    match step
    case SaveBegins(call, record) => Moves(calls, call, SawOpen(record));
    case SaveLocks(call) => Moves(calls, call, HasLock(calls[call].record));
    case SaveChecks(call) => Moves(calls, call, if s.closing.closed then Leaving else Checked(calls[call].record));
    case SaveCounts(call) => Moves(calls, call, Counted(calls[call].record));
    case SaveSends(call) => Moves(calls, call, if |s.queue| < QUEUE_CAPACITY then Leaving else Refused);
    case SaveUncounts(call) => Moves(calls, call, Leaving);
    case SaveReturns(call) => Leaves(calls, call);
    case _ =>
  }

  lemma Moves(calls: map<Call, SavePhase>, call: Call, phase: SavePhase)
    ensures |Unsent(calls[call := phase])| + One(IsUnsent(calls, call)) ==
            |Unsent(calls)| + One(phase.Counted? || phase == Refused)
  {
    var rest := Unsent(calls) - {call};
    assert Unsent(calls) == if IsUnsent(calls, call) then rest + {call} else rest;
    var after := calls[call := phase];
    assert Unsent(after) == if IsUnsent(after, call) then rest + {call} else rest;
  }

  lemma Leaves(calls: map<Call, SavePhase>, call: Call)
    requires call in calls && !IsUnsent(calls, call)
    ensures Unsent(calls - {call}) == Unsent(calls)
  {
  }

  lemma StepKeepsLocks(s: Store, step: Step)
    requires PendingIsExact(s) && LocksHold(s) && ClosesHold(s.closing) && Enabled(s, step)
    ensures LocksHold(Apply(s, step))
  {
    hide NothingLost, WaitsHold;
    if step.Close? {
      hide ApplyClose, InPlace, ClosesHold, PendingIsExact;
      CloseStepFlags(s.closing, step.id, step.step);
    }
  }

  /** Of all a Close call does, the other goroutines see the lock and the flags. */
  lemma CloseStepFlags(c: Closing, id: CloseId, step: CloseStep)
    requires ClosesHold(c) && InPlace(c, id, step)
    ensures var d := ApplyClose(c, id, step);
      && (step == Locks ==> d.holder.Some?) && (step != Locks && d.holder.Some? ==> c.holder.Some?)
      && (c.closed ==> d.closed) && (c.cancelled ==> d.cancelled)
      && (d.closed && !c.closed ==> c.holder.Some?)
  {
  }

  lemma CloseStepKeepsCloses(c: Closing, id: CloseId, step: CloseStep)
    requires ClosesHold(c) && InPlace(c, id, step)
    ensures ClosesHold(ApplyClose(c, id, step))
  {
    var d := ApplyClose(c, id, step);
    forall other | other in d.calls ensures CallHolds(d, other) {
      if other == id {
        MoverHolds(c, id, step);
      } else {
        OthersHold(c, id, step, other);
      }
    }
    hide CallHolds;
  }

  lemma MoverHolds(c: Closing, id: CloseId, step: CloseStep)
    requires ClosesHold(c) && InPlace(c, id, step)
    ensures CallHolds(ApplyClose(c, id, step), id)
  {
  }

  lemma OthersHold(c: Closing, id: CloseId, step: CloseStep, other: CloseId)
    requires ClosesHold(c) && InPlace(c, id, step) && other in c.calls && other != id
    ensures CallHolds(ApplyClose(c, id, step), other)
  {
  }

  lemma StepKeepsCloses(s: Store, step: Step)
    requires ClosesHold(s.closing) && WaitsHold(s) && Enabled(s, step)
    ensures ClosesHold(Apply(s, step).closing) && WaitsHold(Apply(s, step))
  {
    hide ReadLocked, WriteLocked;
    if step.Close? {
      CloseStepKeepsCloses(s.closing, step.id, step.step);
      CloseStepWaits(s.closing, step.id, step.step);
      hide ClosesHold, ApplyClose;
    } else {
      hide ClosesHold;
    }
  }

  /** The one step that takes a call past its waiting is the one that waits. */
  lemma CloseStepWaits(c: Closing, id: CloseId, step: CloseStep)
    requires InPlace(c, id, step)
    ensures forall other | other in ApplyClose(c, id, step).calls && PastWaiting(ApplyClose(c, id, step).calls[other].phase) ::
      step == Waits || (other in c.calls && PastWaiting(c.calls[other].phase))
  {
  }

  lemma {:induction false} EveryRunKeepsInv(steps: seq<Step>)
    requires Run(steps).Some?
    ensures Inv(Run(steps).value)
  {
    hide NothingLost, PendingIsExact, LocksHold, ClosesHold, WaitsHold, Enabled, Apply;
    if steps == [] {
      InitialIsGood();
    } else {
      var before, step := steps[..|steps| - 1], steps[|steps| - 1];
      EveryRunKeepsInv(before);
      StepKeepsOrder(Run(before).value, step);
      StepKeepsCount(Run(before).value, step);
      StepKeepsLocks(Run(before).value, step);
      StepKeepsCloses(Run(before).value, step);
    }
  }

  lemma InitialIsGood()
    ensures Inv(Initial)
  {
  }

  // ---- what the store promises -------------------------------------------------------------

  /** Handled records are a prefix of the accepted ones: once each, in the order of acceptance. */
  lemma HandledInOrder(steps: seq<Step>)
    requires Run(steps).Some?
    ensures Run(steps).value.handled <= Run(steps).value.accepted
  {
    EveryRunKeepsInv(steps);
  }

  predicate AllHandled(s: Store) {
    s.handled == s.accepted
  }

  predicate HasReturned(s: Store, id: CloseId) {
    id in s.closing.calls && s.closing.calls[id].phase.Returned?
  }

  /** From the moment the winning Close call stops waiting, every accepted record has been handled. */
  lemma CloseDrains(steps: seq<Step>, id: CloseId)
    requires Run(steps).Some? && id in Run(steps).value.closing.calls
    requires PastWaiting(Run(steps).value.closing.calls[id].phase)
    ensures AllHandled(Run(steps).value) && Run(steps).value.queue == []
  {
    EveryRunKeepsInv(steps);
  }

  /** No call is about to send once the store is marked closed, so none sends on the closed queue. */
  lemma NoSendAfterClose(steps: seq<Step>, call: Call)
    requires Run(steps).Some? && (Run(steps).value.closing.closed || Run(steps).value.closing.queueClosed)
    ensures !Enabled(Run(steps).value, SaveSends(call))
  {
    EveryRunKeepsInv(steps);
  }

  /** Whatever follows, only more is handled, and once the store is marked nothing more is accepted. */
  lemma {:induction false} NothingAcceptedAfterClose(steps: seq<Step>, more: seq<Step>)
    requires Run(steps + more).Some?
    ensures Run(steps).Some? && Run(steps).value.handled <= Run(steps + more).value.handled
    ensures Run(steps).value.closing.closed ==>
      Run(steps + more).value.closing.closed && Run(steps + more).value.accepted == Run(steps).value.accepted
  {
    hide Enabled, Apply, NothingLost, PendingIsExact, LocksHold, ClosesHold, WaitsHold;
    if more == [] {
      assert steps + more == steps;
    } else {
      var less, step := more[..|more| - 1], more[|more| - 1];
      assert (steps + more)[..|steps + more| - 1] == steps + less;
      NothingAcceptedAfterClose(steps, less);
      if step.SaveSends? && Run(steps).value.closing.closed {
        NoSendAfterClose(steps + less, step.call);
      }
      OnlySendsAccept(Run(steps + less).value, step);
    }
  }

  lemma OnlySendsAccept(s: Store, step: Step)
    requires Enabled(s, step)
    ensures s.closing.closed ==> Apply(s, step).closing.closed
    ensures s.handled <= Apply(s, step).handled
    ensures !step.SaveSends? ==> Apply(s, step).accepted == s.accepted
  {
  }

  lemma StepKeepsBound(s: Store, step: Step)
    requires Enabled(s, step) && |s.queue| <= QUEUE_CAPACITY
    ensures |Apply(s, step).queue| <= QUEUE_CAPACITY
  {
    hide ReadLocked, WriteLocked, ApplyClose, InPlace;
  }

  lemma {:induction false} QueueIsBounded(steps: seq<Step>)
    requires Run(steps).Some?
    ensures |Run(steps).value.queue| <= QUEUE_CAPACITY
  {
    hide Enabled, Apply;
    if steps != [] {
      QueueIsBounded(steps[..|steps| - 1]);
      StepKeepsBound(Run(steps[..|steps| - 1]).value, steps[|steps| - 1]);
    }
  }

  /** In every run, a record about to be sent is refused exactly when a full queue of accepted ones stands before it. */
  lemma RefusedExactlyWhenFull(steps: seq<Step>, call: Call)
    requires Run(steps).Some? && Enabled(Run(steps).value, SaveSends(call))
    ensures var s := Run(steps).value; var t := Apply(s, SaveSends(call));
      && (t.calls[call] == Refused <==> |s.accepted| == |s.handled| + |InWriter(s)| + 1000)
      && t.accepted == (if t.calls[call] == Refused then s.accepted else s.accepted + [s.calls[call].record])
  {
    QueueIsBounded(steps);
    EveryRunKeepsInv(steps);
    hide PendingIsExact, LocksHold, ReadLocked, WriteLocked, ClosesHold, WaitsHold, Run;
  }

  /** When Flush has seen nothing pending, everything accepted before it, or since, has been handled. */
  lemma FlushDrains(steps: seq<Step>)
    requires Run(steps).Some? && Run(steps).value.flush == Drained
    ensures Run(steps).value.handled == Run(steps).value.accepted
  {
    EveryRunKeepsInv(steps);
  }

  /**
   Neither waiter waits in vain: while Flush waits for the counter, or a Close call for the goroutines, a
   step of the writer or of the rotation goroutine, or the waiter's own next step, is possible.
   */
  lemma WaitersCanProceed(steps: seq<Step>, id: CloseId)
    requires Run(steps).Some?
    ensures var s := Run(steps).value;
      s.flush == AwaitingDrain || IsAt(s.closing, id, Cancelled) ==>
        exists step | step in [WriterReceives, WriterWrites, WriterUncounts, WriterSeesCancel, WriterExits,
                               RotatorExits, FlushSeesNothingPending, Close(id, Waits)] :: Enabled(s, step)
  {
    EveryRunKeepsInv(steps);
    var s := Run(steps).value;
    var candidates := [WriterReceives, WriterWrites, WriterUncounts, WriterSeesCancel, WriterExits,
                       RotatorExits, FlushSeesNothingPending, Close(id, Waits)];
    if s.flush == AwaitingDrain || IsAt(s.closing, id, Cancelled) {
      assert candidates[0] in candidates && candidates[1] in candidates && candidates[2] in candidates;
      assert candidates[3] in candidates && candidates[4] in candidates && candidates[5] in candidates;
      assert candidates[6] in candidates && candidates[7] in candidates;
      ProceedCases(s, id);
    }
  }

  lemma ProceedCases(s: Store, id: CloseId)
    requires Inv(s) && (s.flush == AwaitingDrain || IsAt(s.closing, id, Cancelled))
    ensures Enabled(s, WriterReceives) || Enabled(s, WriterWrites) || Enabled(s, WriterUncounts)
      || Enabled(s, WriterSeesCancel) || Enabled(s, WriterExits) || Enabled(s, RotatorExits)
      || Enabled(s, FlushSeesNothingPending) || Enabled(s, Close(id, Waits))
  {
  }

  lemma RunOneMore(steps: seq<Step>, step: Step)
    requires Run(steps).Some? && Enabled(Run(steps).value, step)
    ensures Run(steps + [step]) == Some(Apply(Run(steps).value, step))
  {
    assert (steps + [step])[..|steps|] == steps;
  }

  // ---- what a returned Close promises ------------------------------------------------------

  /** What a call found when it took the lock stays with it. */
  lemma {:induction false} FindingStays(steps: seq<Step>, more: seq<Step>, id: CloseId)
    requires Run(steps + more).Some? && Run(steps).Some? && id in Run(steps).value.closing.calls
    requires Run(steps).value.closing.calls[id].phase != Entering
    ensures var s, t := Run(steps).value, Run(steps + more).value;
      id in t.closing.calls && t.closing.calls[id].phase != Entering && t.closing.calls[id].foundOpen == s.closing.calls[id].foundOpen
  {
    hide Enabled, Apply, NothingLost, PendingIsExact, LocksHold, ClosesHold, WaitsHold;
    if more == [] {
      assert steps + more == steps;
    } else {
      var less, step := more[..|more| - 1], more[|more| - 1];
      assert (steps + more)[..|steps + more| - 1] == steps + less;
      FindingStays(steps, less, id);
      StepKeepsFinding(Run(steps + less).value, step, id);
    }
  }

  lemma StepKeepsFinding(s: Store, step: Step, id: CloseId)
    requires Enabled(s, step) && id in s.closing.calls && s.closing.calls[id].phase != Entering
    ensures var t := Apply(s, step);
      && id in t.closing.calls && t.closing.calls[id].phase != Entering
      && t.closing.calls[id].foundOpen == s.closing.calls[id].foundOpen
  {
    hide ReadLocked, WriteLocked;
    if step.Close? {
      CloseKeepsFinding(s.closing, step.id, step.step, id);
    }
  }

  lemma CloseKeepsFinding(c: Closing, mover: CloseId, step: CloseStep, id: CloseId)
    requires InPlace(c, mover, step) && id in c.calls && c.calls[id].phase != Entering
    ensures var d := ApplyClose(c, mover, step);
      id in d.calls && d.calls[id].phase != Entering && d.calls[id].foundOpen == c.calls[id].foundOpen
  {
  }

  /** The call whose swap succeeded, and it alone among the returned ones, found the store open. */
  lemma WinnerFoundOpen(steps: seq<Step>, id: CloseId)
    requires Run(steps).Some? && HasReturned(Run(steps).value, id)
    ensures var s := Run(steps).value;
      && (s.closing.calls[id].foundOpen <==> s.closing.calls[id].phase == Returned(true))
      && (s.closing.calls[id].foundOpen <==> s.closing.winner == Some(id))
  {
    EveryRunKeepsInv(steps);
  }

  /** The call that won the swap returns only when every accepted record has been handled, and so it stays. */
  lemma WinningCloseKeepsItsPromise(steps: seq<Step>, id: CloseId)
    requires Run(steps).Some? && HasReturned(Run(steps).value, id) && Run(steps).value.closing.winner == Some(id)
    ensures AllHandled(Run(steps).value)
  {
    WinnerFoundOpen(steps, id);
    CloseDrains(steps, id);
  }

  lemma Unlocking(s: Store, id: CloseId)
    requires IsAt(s.closing, id, Locked) && s.closing.closed
    ensures Enabled(s, Close(id, Swaps)) && Enabled(Apply(s, Close(id, Swaps)), Close(id, Unlocks))
    ensures Enabled(Apply(Apply(s, Close(id, Swaps)), Close(id, Unlocks)), Close(id, Returns))
    ensures var t := Apply(Apply(Apply(s, Close(id, Swaps)), Close(id, Unlocks)), Close(id, Returns));
      HasReturned(t, id) && t.handled == s.handled && t.accepted == s.accepted
  {
  }

  /** A call that finds the store marked has three steps of its own left, and none of them waits. */
  lemma LosingCloseReturnsAtOnce(steps: seq<Step>, id: CloseId)
    requires Run(steps).Some? && IsAt(Run(steps).value.closing, id, Locked) && Run(steps).value.closing.closed
    ensures var t := Run(steps + [Close(id, Swaps), Close(id, Unlocks), Close(id, Returns)]);
      t.Some? && HasReturned(t.value, id)
      && t.value.handled == Run(steps).value.handled && t.value.accepted == Run(steps).value.accepted
  {
    Unlocking(Run(steps).value, id);
    hide Run, Enabled, Apply;
    RunOneMore(steps, Close(id, Swaps));
    RunOneMore(steps + [Close(id, Swaps)], Close(id, Unlocks));
    RunOneMore(steps + [Close(id, Swaps)] + [Close(id, Unlocks)], Close(id, Returns));
    assert steps + [Close(id, Swaps)] + [Close(id, Unlocks)] + [Close(id, Returns)] ==
           steps + [Close(id, Swaps), Close(id, Unlocks), Close(id, Returns)];
  }

  /** Whenever the call returns, however the run goes on, every accepted record has been handled. */
  ghost predicate WillHaveDrained(steps: seq<Step>, id: CloseId) {
    forall more | Run(steps + more).Some? && HasReturned(Run(steps + more).value, id) :: AllHandled(Run(steps + more).value)
  }

  /**
   What a Close call that has just taken the lock can promise: in every continuation it returns drained
   exactly when it found the store open, or there is nothing left to handle already.
   */
  lemma ClosePromisesExactly(steps: seq<Step>, id: CloseId)
    requires Run(steps).Some? && IsAt(Run(steps).value.closing, id, Locked)
    ensures WillHaveDrained(steps, id) <==> Run(steps).value.closing.calls[id].foundOpen || AllHandled(Run(steps).value)
  {
    EveryRunKeepsInv(steps);
    hide Run, Enabled, Apply, NothingLost, PendingIsExact, LocksHold, ReadLocked;
    var s := Run(steps).value;
    if s.closing.calls[id].foundOpen || AllHandled(s) {
      forall more | Run(steps + more).Some? && HasReturned(Run(steps + more).value, id)
        ensures AllHandled(Run(steps + more).value)
      {
        ReturnsDrained(steps, more, id);
      }
    } else {
      LosingCloseReturnsAtOnce(steps, id);
    }
  }

  lemma ReturnsDrained(steps: seq<Step>, more: seq<Step>, id: CloseId)
    requires Run(steps).Some? && IsAt(Run(steps).value.closing, id, Locked)
    requires Run(steps).value.closing.calls[id].foundOpen || AllHandled(Run(steps).value)
    requires Run(steps + more).Some? && HasReturned(Run(steps + more).value, id)
    ensures AllHandled(Run(steps + more).value)
  {
    EveryRunKeepsInv(steps);
    hide Run, Enabled, Apply, PendingIsExact, LocksHold, ReadLocked;
    var s := Run(steps).value;
    FindingStays(steps, more, id);
    if s.closing.calls[id].foundOpen {
      WinnerFoundOpen(steps + more, id);
      CloseDrains(steps + more, id);
    } else {
      NothingAcceptedAfterClose(steps, more);
      HandledInOrder(steps + more);
    }
  }

  /** Every call that found the store so and has returned, in any run, returned drained. */
  ghost predicate PromiseHolds(foundOpen: bool) {
    forall steps, id | Run(steps).Some? && HasReturned(Run(steps).value, id)
                       && Run(steps).value.closing.calls[id].foundOpen == foundOpen :: AllHandled(Run(steps).value)
  }

  /** The promise of a returned Close holds in every run exactly for the calls that found the store open. */
  lemma PromiseHoldsExactlyWhenOpen(foundOpen: bool)
    ensures PromiseHolds(foundOpen) <==> foundOpen
  {
    hide Run, AllHandled;
    if foundOpen {
      forall steps, id | Run(steps).Some? && HasReturned(Run(steps).value, id) && Run(steps).value.closing.calls[id].foundOpen
        ensures AllHandled(Run(steps).value)
      {
        WinnerFoundOpen(steps, id);
        WinningCloseKeepsItsPromise(steps, id);
      }
    } else {
      var steps := SecondCloseReturnsEarly();
    }
  }

  /** A run in which a second Close call returns while an accepted record is still queued. */
  lemma SecondCloseReturnsEarly() returns (steps: seq<Step>)
    ensures Run(steps).Some? && HasReturned(Run(steps).value, 1)
    ensures !Run(steps).value.closing.calls[1].foundOpen && !AllHandled(Run(steps).value)
  {
    var before := SecondCloseLocks();
    LosingCloseReturnsAtOnce(before, 1);
    var more := [Close(1, Swaps), Close(1, Unlocks), Close(1, Returns)];
    FindingStays(before, more, 1);
    steps := before + more;
  }

  lemma Overwrite(was: SavePhase, now: SavePhase)
    ensures map[0 as Call := was][0 := now] == map[0 as Call := now]
  {
  }

  /** A run in which one call is about to send. */
  lemma CountedOne() returns (steps: seq<Step>)
    ensures Run(steps) == Some(Initial.(calls := map[0 := Counted(7)], pending := 1))
  {
    steps := [];
    assert Run(steps) == Some(Initial);
    hide Run;
    RunOneMore(steps, SaveBegins(0, 7));
    steps := steps + [SaveBegins(0, 7)];
    assert Run(steps) == Some(Initial.(calls := map[0 := SawOpen(7)]));
    RunOneMore(steps, SaveLocks(0));
    steps := steps + [SaveLocks(0)];
    Overwrite(SawOpen(7), HasLock(7));
    assert Run(steps) == Some(Initial.(calls := map[0 := HasLock(7)]));
    RunOneMore(steps, SaveChecks(0));
    steps := steps + [SaveChecks(0)];
    Overwrite(HasLock(7), Checked(7));
    assert Run(steps) == Some(Initial.(calls := map[0 := Checked(7)]));
    RunOneMore(steps, SaveCounts(0));
    steps := steps + [SaveCounts(0)];
    Overwrite(Checked(7), Counted(7));
    assert Run(steps) == Some(Initial.(calls := map[0 := Counted(7)], pending := 1));
  }

  /** A run that accepts one record and does no more. */
  lemma SavedOne() returns (steps: seq<Step>)
    ensures Run(steps) == Some(Initial.(queue := [7], pending := 1, accepted := [7]))
  {
    hide Run;
    steps := CountedOne();
    RunOneMore(steps, SaveSends(0));
    steps := steps + [SaveSends(0)];
    Overwrite(Counted(7), Leaving);
    assert Initial.queue + [7] == [7] && Initial.accepted + [7] == [7];
    assert Run(steps) == Some(Initial.(calls := map[0 := Leaving], queue := [7], pending := 1, accepted := [7]));
    RunOneMore(steps, SaveReturns(0));
    steps := steps + [SaveReturns(0)];
  }

  /** The store with one record queued and the first Close call just past its swap and unlocking. */
  const MarkedWithOne := Initial.(queue := [7], pending := 1, accepted := [7],
    closing := Closing(map[0 := CloseCall(Marked, true)], true, false, false, None, Some(0)))

  lemma Rewrite(was: CloseCall, now: CloseCall)
    ensures map[0 as CloseId := was][0 := now] == map[0 as CloseId := now]
  {
  }

  /** The first Close call takes the lock, wins, and unlocks. */
  lemma FirstCloseMarks() returns (steps: seq<Step>)
    ensures Run(steps) == Some(MarkedWithOne)
  {
    hide Run;
    steps := SavedOne();
    var saved := Initial.(queue := [7], pending := 1, accepted := [7]);
    RunOneMore(steps, Close(0, Begins));
    steps := steps + [Close(0, Begins)];
    assert Run(steps) == Some(saved.(closing := NotClosing.(calls := map[0 := CloseCall(Entering, false)])));
    RunOneMore(steps, Close(0, Locks));
    steps := steps + [Close(0, Locks)];
    Rewrite(CloseCall(Entering, false), CloseCall(Locked, true));
    assert Run(steps) == Some(saved.(closing := NotClosing.(calls := map[0 := CloseCall(Locked, true)], holder := Some(0))));
    RunOneMore(steps, Close(0, Swaps));
    steps := steps + [Close(0, Swaps)];
    Rewrite(CloseCall(Locked, true), CloseCall(Won, true));
    assert Run(steps) == Some(saved.(closing := Closing(map[0 := CloseCall(Won, true)], true, false, false, Some(0), Some(0))));
    RunOneMore(steps, Close(0, Unlocks));
    steps := steps + [Close(0, Unlocks)];
    Rewrite(CloseCall(Won, true), CloseCall(Marked, true));
  }

  /** And a second one takes the lock. */
  lemma SecondCloseLocks() returns (steps: seq<Step>)
    ensures Run(steps).Some? && IsAt(Run(steps).value.closing, 1, Locked) && Run(steps).value.closing.closed
    ensures !Run(steps).value.closing.calls[1].foundOpen && !AllHandled(Run(steps).value)
  {
    hide Run;
    steps := FirstCloseMarks();
    RunOneMore(steps, Close(1, Begins));
    steps := steps + [Close(1, Begins)];
    var marked := MarkedWithOne.closing;
    assert Run(steps) == Some(MarkedWithOne.(closing := marked.(calls := marked.calls[1 := CloseCall(Entering, false)])));
    RunOneMore(steps, Close(1, Locks));
    steps := steps + [Close(1, Locks)];
  }
}
