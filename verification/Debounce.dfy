/**
 Debounced reloads (internal/storage/scenario_watcher.go:148-168, 242-281): each relevant file event
 arms a timer that carries the path's next sequence number; when the timer's callback gets the
 lock it reloads only if the number is still current. Callbacks may run arbitrarily late.
 */
module Debounce {
  import opened Wrappers

  type Path = string
  type TimerId = nat

  datatype Phase = Armed | Fired

  /** The closure given to one timer. A stopped or finished one is gone. */
  datatype Callback = Callback(path: Path, number: nat, phase: Phase)

  /** `seqs` and `timers` are the watcher's two maps; every event arms the timer of its own number. */
  datatype Watcher = Watcher(
    seqs: map<Path, nat>,
    timers: map<Path, TimerId>,
    callbacks: map<TimerId, Callback>,
    events: nat,
    commits: nat,
    reloads: nat)

  const Idle := Watcher(map[], map[], map[], 0, 0, 0)

  datatype Step =
    | Event(path: Path)
    | TimerFires(timer: TimerId)
    | CallbackRuns(timer: TimerId)
    | ReloadRuns
    | Stop

  /** A missing number reads as zero. */
  function Current(w: Watcher, path: Path): nat {
    if path in w.seqs then w.seqs[path] else 0
  }

  /** Stopping a timer only helps when it has not fired. */
  function Disarmed(callbacks: map<TimerId, Callback>, timer: TimerId): map<TimerId, Callback> {
    if timer in callbacks && callbacks[timer].phase == Armed then callbacks - {timer} else callbacks
  }

  function Scheduled(w: Watcher, path: Path): Watcher {
    var number := Current(w, path) + 1;
    var quiet := if path in w.timers then Disarmed(w.callbacks, w.timers[path]) else w.callbacks;
    w.(seqs := w.seqs[path := number],
       timers := w.timers[path := w.events],
       callbacks := quiet[w.events := Callback(path, number, Armed)],
       events := w.events + 1)
  }

  predicate Commits(w: Watcher, timer: TimerId) {
    timer in w.callbacks && w.callbacks[timer].number == Current(w, w.callbacks[timer].path)
  }

  /** The locked part of a callback. */
  function Called(w: Watcher, timer: TimerId): Watcher
    requires timer in w.callbacks
  {
    var path := w.callbacks[timer].path;
    var done := w.(callbacks := w.callbacks - {timer});
    if Commits(w, timer) then
      done.(seqs := w.seqs - {path}, timers := w.timers - {path}, commits := w.commits + 1)
    else done
  }

  /** Stop disarms every timer in the map and forgets all paths that have one. */
  function Stopped(w: Watcher): Watcher {
    w.(callbacks := map t | t in w.callbacks && !(w.callbacks[t].phase == Armed && t in w.timers.Values) :: w.callbacks[t],
       seqs := w.seqs - w.timers.Keys,
       timers := map[])
  }

  predicate Enabled(w: Watcher, step: Step) {
    match step
    case Event(_) => true
    case TimerFires(t) => t in w.callbacks && w.callbacks[t].phase == Armed
    case CallbackRuns(t) => t in w.callbacks && w.callbacks[t].phase == Fired
    case ReloadRuns => w.reloads < w.commits
    case Stop => true
  }

  function Apply(w: Watcher, step: Step): Watcher
    requires Enabled(w, step)
  {
    match step
    case Event(path) => Scheduled(w, path)
    case TimerFires(t) => w.(callbacks := w.callbacks[t := w.callbacks[t].(phase := Fired)])
    case CallbackRuns(t) => Called(w, t)
    case ReloadRuns => w.(reloads := w.reloads + 1)
    case Stop => Stopped(w)
  }

  function Run(steps: seq<Step>): Option<Watcher> {
    if steps == [] then Some(Idle)
    else
      match Run(steps[..|steps| - 1])
      case None => None
      case Some(w) => if Enabled(w, steps[|steps| - 1]) then Some(Apply(w, steps[|steps| - 1])) else None
  }

  // ---- the invariant -----------------------------------------------------------------------

  /** A callback that may still run, for this path, with this number. */
  predicate HasCallback(w: Watcher, path: Path, number: nat) {
    exists t | t in w.callbacks :: w.callbacks[t].path == path && w.callbacks[t].number == number
  }

  /** Every path with a number has a live callback that carries it. */
  predicate Promised(w: Watcher) {
    && w.timers.Keys == w.seqs.Keys
    && (forall path | path in w.timers && w.timers[path] in w.callbacks :: w.callbacks[w.timers[path]].path == path)
    && (forall path | path in w.seqs :: w.seqs[path] > 0 && HasCallback(w, path, w.seqs[path]))
    && (forall t | t in w.callbacks :: w.callbacks[t].number > 0)
  }

  /** Each event makes at most one callback, and each callback commits at most once. */
  predicate Accounted(w: Watcher) {
    && (forall t | t in w.callbacks :: t < w.events)
    && (forall path | path in w.timers :: w.timers[path] < w.events)
    && |w.callbacks| + w.commits <= w.events
    && w.reloads <= w.commits
  }

  lemma EventKeepsPromise(w: Watcher, path: Path)
    requires Promised(w) && Accounted(w)
    ensures Promised(Scheduled(w, path))
  {
    var after := Scheduled(w, path);
    assert w.events in after.callbacks && after.callbacks[w.events].path == path;
    forall other | other in after.seqs && other != path ensures HasCallback(after, other, after.seqs[other]) {
      var t :| t in w.callbacks && w.callbacks[t].path == other && w.callbacks[t].number == w.seqs[other];
      assert t != w.events && t in after.callbacks;
    }
  }

  lemma FiringKeepsPromise(w: Watcher, timer: TimerId)
    requires Promised(w) && Enabled(w, TimerFires(timer))
    ensures Promised(Apply(w, TimerFires(timer)))
  {
    var after := Apply(w, TimerFires(timer));
    forall path | path in w.seqs ensures HasCallback(after, path, w.seqs[path]) {
      var t :| t in w.callbacks && w.callbacks[t].path == path && w.callbacks[t].number == w.seqs[path];
      assert t in after.callbacks;
    }
  }

  lemma CallbackKeepsPromise(w: Watcher, timer: TimerId)
    requires Promised(w) && timer in w.callbacks
    ensures Promised(Called(w, timer))
  {
    var after := Called(w, timer);
    forall path | path in after.seqs ensures HasCallback(after, path, after.seqs[path]) {
      var t :| t in w.callbacks && w.callbacks[t].path == path && w.callbacks[t].number == w.seqs[path];
      assert t in after.callbacks;
    }
  }

  lemma EventIsAccounted(w: Watcher, path: Path)
    requires Accounted(w)
    ensures Accounted(Scheduled(w, path))
  {
    var quiet := if path in w.timers then Disarmed(w.callbacks, w.timers[path]) else w.callbacks;
    if quiet != w.callbacks {
      assert quiet.Keys == w.callbacks.Keys - {w.timers[path]};
    }
    assert |quiet| <= |w.callbacks|;
    assert w.events !in quiet;
  }

  lemma CallbackIsAccounted(w: Watcher, timer: TimerId)
    requires Accounted(w) && timer in w.callbacks
    ensures Accounted(Called(w, timer))
  {
    assert (w.callbacks - {timer}).Keys == w.callbacks.Keys - {timer};
  }

  lemma StopIsAccounted(w: Watcher)
    requires Accounted(w)
    ensures Accounted(Stopped(w))
  {
    Fewer(Stopped(w).callbacks.Keys, w.callbacks.Keys);
  }

  lemma {:induction false} Fewer(a: set<TimerId>, b: set<TimerId>)
    requires a <= b
    ensures |a| <= |b|
  {
    assert b == a + (b - a);
  }

  lemma StepKeeps(w: Watcher, step: Step)
    requires Promised(w) && Accounted(w) && Enabled(w, step)
    ensures Promised(Apply(w, step)) && Accounted(Apply(w, step))
  {
    match step
    case Event(path) => EventKeepsPromise(w, path); EventIsAccounted(w, path);
    case TimerFires(t) =>
      FiringKeepsPromise(w, t);
      assert Apply(w, step).callbacks.Keys == w.callbacks.Keys;
    case CallbackRuns(t) => CallbackKeepsPromise(w, t); CallbackIsAccounted(w, t);
    case ReloadRuns =>
      assert forall path, n :: HasCallback(w, path, n) ==> HasCallback(Apply(w, step), path, n);
    case Stop => StopIsAccounted(w);
  }

  lemma {:induction false} EveryRunKeepsPromises(steps: seq<Step>)
    requires Run(steps).Some?
    ensures Promised(Run(steps).value) && Accounted(Run(steps).value)
  {
    if steps != [] {
      hide Promised, Accounted, Enabled, Apply;
      EveryRunKeepsPromises(steps[..|steps| - 1]);
      StepKeeps(Run(steps[..|steps| - 1]).value, steps[|steps| - 1]);
    }
  }

  // ---- no change is lost -------------------------------------------------------------------

  /** Step `j` is a callback that commits a reload for this path, or it is Stop. */
  predicate Serves(steps: seq<Step>, j: nat, path: Path)
    requires j < |steps|
  {
    || steps[j] == Stop
    || (steps[j].CallbackRuns? && Run(steps[..j]).Some?
        && Commits(Run(steps[..j]).value, steps[j].timer)
        && Run(steps[..j]).value.callbacks[steps[j].timer].path == path)
  }

  /** How many events of this path have not been followed by a commit for it, or by Stop. */
  function Owed(steps: seq<Step>, path: Path): nat {
    if steps == [] then 0
    else
      var owed := Owed(steps[..|steps| - 1], path);
      if Serves(steps, |steps| - 1, path) then 0
      else if steps[|steps| - 1] == Event(path) then owed + 1
      else owed
  }

  /** The current number of a path is the number of events its next reload will serve. */
  lemma {:induction false} NumberIsOwed(steps: seq<Step>, path: Path)
    requires Run(steps).Some?
    ensures Current(Run(steps).value, path) == Owed(steps, path)
  {
    if steps != [] {
      var before := steps[..|steps| - 1];
      NumberIsOwed(before, path);
      EveryRunKeepsPromises(before);
    }
  }

  lemma {:induction false} UnservedIsOwed(steps: seq<Step>, i: nat)
    requires i < |steps| && steps[i].Event? && forall j | i < j < |steps| :: !Serves(steps, j, steps[i].path)
    ensures Owed(steps, steps[i].path) > 0
  {
    var before := steps[..|steps| - 1];
    if i < |before| {
      forall j | i < j < |before| ensures !Serves(before, j, before[i].path) {
        assert steps[..j] == before[..j] && !Serves(steps, j, steps[i].path);
      }
      UnservedIsOwed(before, i);
    }
  }

  /**
   No change is lost. Whatever the interleaving, each event is followed by a committed reload of its path
   or by Stop, or a callback of its path that carries the current number is still to run.
   */
  lemma EventIsServedOrPending(steps: seq<Step>, i: nat)
    requires Run(steps).Some? && i < |steps| && steps[i].Event?
    ensures var w, path := Run(steps).value, steps[i].path;
      || (exists j | i < j < |steps| :: Serves(steps, j, path))
      || (path in w.seqs && HasCallback(w, path, w.seqs[path]))
  {
    if forall j | i < j < |steps| :: !Serves(steps, j, steps[i].path) {
      UnservedIsOwed(steps, i);
      NumberIsOwed(steps, steps[i].path);
      EveryRunKeepsPromises(steps);
    }
  }

  function Events(steps: seq<Step>): nat {
    if steps == [] then 0
    else Events(steps[..|steps| - 1]) + if steps[|steps| - 1].Event? then 1 else 0
  }

  /** Reloads never outnumber events, although numbers start again after each commit. */
  lemma {:induction false} ReloadsNeverOutnumberEvents(steps: seq<Step>)
    requires Run(steps).Some?
    ensures Run(steps).value.reloads <= Run(steps).value.commits <= Events(steps)
  {
    EveryRunKeepsPromises(steps);
    EventsCounted(steps);
  }

  lemma {:induction false} EventsCounted(steps: seq<Step>)
    requires Run(steps).Some?
    ensures Run(steps).value.events == Events(steps)
  {
    if steps != [] {
      EventsCounted(steps[..|steps| - 1]);
    }
  }

  // ---- which callback reloads --------------------------------------------------------------

  /** A live callback keeps its path and number, or is the one a new event has just made. */
  lemma CallbackBefore(w: Watcher, step: Step, timer: TimerId)
    requires Enabled(w, step) && timer in Apply(w, step).callbacks
    ensures var c := Apply(w, step).callbacks[timer];
      || (timer in w.callbacks && w.callbacks[timer].path == c.path && w.callbacks[timer].number == c.number)
      || (step == Event(c.path) && timer == w.events && c.number == Current(w, c.path) + 1)
  {
  }

  lemma OwedAfterEvent(steps: seq<Step>, i: nat)
    requires i < |steps| && steps[i].Event?
    ensures Owed(steps[..i + 1], steps[i].path) == Owed(steps[..i], steps[i].path) + 1
  {
    assert steps[..i + 1][..i] == steps[..i];
  }

  /** The event that armed a live callback; the callback carries what was owed to its path from then on. */
  lemma {:induction false} ArmedBy(steps: seq<Step>, timer: TimerId) returns (i: nat)
    requires Run(steps).Some? && timer in Run(steps).value.callbacks
    ensures var c := Run(steps).value.callbacks[timer];
      i < |steps| && steps[i] == Event(c.path) && Events(steps[..i]) == timer && Owed(steps[..i + 1], c.path) == c.number
  {
    var before, step := steps[..|steps| - 1], steps[|steps| - 1];
    var w, c := Run(before).value, Run(steps).value.callbacks[timer];
    CallbackBefore(w, step, timer);
    hide Enabled, Apply, Owed;
    if timer in w.callbacks && w.callbacks[timer].path == c.path && w.callbacks[timer].number == c.number {
      i := ArmedBy(before, timer);
      assert steps[..i] == before[..i] && steps[..i + 1] == before[..i + 1];
    } else {
      i := |before|;
      assert steps[..i] == before && steps[..i + 1] == steps;
      EventsCounted(before);
      NumberIsOwed(before, c.path);
      OwedAfterEvent(steps, i);
    }
  }

  lemma {:induction false} OwedUnserved(steps: seq<Step>, i: nat, path: Path)
    requires i <= |steps| && forall j | i <= j < |steps| :: !Serves(steps, j, path)
    ensures Owed(steps, path) >= Owed(steps[..i], path)
    ensures Owed(steps, path) == Owed(steps[..i], path) <==> forall j | i <= j < |steps| :: steps[j] != Event(path)
  {
    if i == |steps| {
      assert steps[..i] == steps;
    } else {
      var before := steps[..|steps| - 1];
      assert before[..i] == steps[..i];
      forall j | i <= j < |before| ensures !Serves(before, j, path) {
        assert steps[..j] == before[..j] && !Serves(steps, j, path);
      }
      OwedUnserved(before, i, path);
      assert !Serves(steps, |steps| - 1, path);
    }
  }

  /**
   Debouncing. As long as its path has not been served since the event that armed it, a callback reloads if
   it is the one of the path's last event, and no other does.
   */
  lemma OnlyTheLastReloads(steps: seq<Step>, timer: TimerId) returns (i: nat)
    requires Run(steps).Some? && timer in Run(steps).value.callbacks
    ensures var path := Run(steps).value.callbacks[timer].path;
      && i < |steps| && steps[i] == Event(path) && Events(steps[..i]) == timer
      && ((forall j | i < j < |steps| :: !Serves(steps, j, path)) ==>
            (Commits(Run(steps).value, timer) <==> forall j | i < j < |steps| :: steps[j] != Event(path)))
  {
    i := ArmedBy(steps, timer);
    var path := Run(steps).value.callbacks[timer].path;
    NumberIsOwed(steps, path);
    hide Run, Owed;
    if forall j | i < j < |steps| :: !Serves(steps, j, path) {
      OwedUnserved(steps, i + 1, path);
    }
  }

  /** In general it reloads exactly when as many events are owed to its path as when it was armed. */
  lemma ReloadsExactly(steps: seq<Step>, timer: TimerId) returns (i: nat)
    requires Run(steps).Some? && timer in Run(steps).value.callbacks
    ensures var path := Run(steps).value.callbacks[timer].path;
      && i < |steps| && steps[i] == Event(path) && Events(steps[..i]) == timer
      && (Commits(Run(steps).value, timer) <==> Owed(steps, path) == Owed(steps[..i + 1], path))
  {
    i := ArmedBy(steps, timer);
    NumberIsOwed(steps, Run(steps).value.callbacks[timer].path);
  }

  // ---- when the wait is kept ---------------------------------------------------------------

  lemma RunOneMore(steps: seq<Step>, step: Step)
    requires Run(steps).Some? && Enabled(Run(steps).value, step)
    ensures Run(steps + [step]) == Some(Apply(Run(steps).value, step))
  {
    assert (steps + [step])[..|steps|] == steps;
  }

  /** The path's own timer is still armed, and another callback of it can commit right now. */
  predicate SkipsTheWait(w: Watcher, path: Path) {
    && path in w.timers && w.timers[path] in w.callbacks && w.callbacks[w.timers[path]].phase == Armed
    && exists overdue | overdue in w.callbacks :: overdue != w.timers[path]
         && w.callbacks[overdue].path == path && Enabled(w, CallbackRuns(overdue)) && Commits(w, overdue)
  }

  /** The fired callbacks of this path that still wait for the lock: those a Timer.Stop comes too late for. */
  function Late(w: Watcher, path: Path): set<TimerId> {
    set t | t in w.callbacks && w.callbacks[t].path == path && w.callbacks[t].phase == Fired
  }

  /** From step `from` on, each event of the path finds no late callback of it other than these. */
  predicate DisturbedOnlyBy(steps: seq<Step>, from: nat, path: Path, late: set<TimerId>) {
    forall j | from <= j < |steps| && steps[j] == Event(path) && Run(steps[..j]).Some? ::
      Late(Run(steps[..j]).value, path) <= late
  }

  /** No event of the path arrives while a fired callback of it waits for the lock. */
  predicate Undisturbed(steps: seq<Step>, path: Path) {
    DisturbedOnlyBy(steps, 0, path, {})
  }

  /** The only live callback of the path is the one in the map of timers. */
  predicate OwnTimerOnly(w: Watcher, path: Path) {
    forall t | t in w.callbacks && w.callbacks[t].path == path ::
      && (w.callbacks[t].phase == Armed ==> path in w.timers)
      && (path in w.timers ==> w.timers[path] == t)
  }

  lemma StepKeepsOwnTimer(w: Watcher, step: Step, path: Path)
    requires Promised(w) && OwnTimerOnly(w, path) && Enabled(w, step)
    requires step == Event(path) ==> Late(w, path) == {}
    ensures OwnTimerOnly(Apply(w, step), path)
  {
    if step == Event(path) {
      var quiet := if path in w.timers then Disarmed(w.callbacks, w.timers[path]) else w.callbacks;
      forall t | t in quiet ensures quiet[t].path != path {
        assert t !in Late(w, path);
      }
    }
  }

  lemma NoTimerYet(path: Path)
    ensures OwnTimerOnly(Idle, path)
  {
  }

  lemma DisturbedBefore(steps: seq<Step>, more: seq<Step>, from: nat, path: Path, late: set<TimerId>)
    requires DisturbedOnlyBy(steps + more, from, path, late)
    ensures DisturbedOnlyBy(steps, from, path, late)
  {
    forall j | from <= j < |steps| && steps[j] == Event(path) && Run(steps[..j]).Some?
      ensures Late(Run(steps[..j]).value, path) <= late
    {
      assert steps[..j] == (steps + more)[..j] && (steps + more)[j] == Event(path);
    }
  }

  lemma DisturbedAfter(steps: seq<Step>, more: seq<Step>, from: nat, path: Path, late: set<TimerId>)
    requires DisturbedOnlyBy(steps, from, path, late) && DisturbedOnlyBy(steps + more, |steps|, path, late)
    ensures DisturbedOnlyBy(steps + more, from, path, late)
  {
    forall j | from <= j < |steps| && (steps + more)[j] == Event(path) && Run((steps + more)[..j]).Some?
      ensures Late(Run((steps + more)[..j]).value, path) <= late
    {
      assert steps[..j] == (steps + more)[..j];
    }
  }

  lemma DisturbedOnce(steps: seq<Step>, step: Step, from: nat, path: Path, late: set<TimerId>)
    requires DisturbedOnlyBy(steps, from, path, late) && Run(steps).Some?
    requires step == Event(path) ==> Late(Run(steps).value, path) <= late
    ensures DisturbedOnlyBy(steps + [step], from, path, late)
  {
    forall j | |steps| <= j < |steps| + 1 && (steps + [step])[j] == Event(path) && Run((steps + [step])[..j]).Some?
      ensures Late(Run((steps + [step])[..j]).value, path) <= late
    {
      assert (steps + [step])[..j] == steps;
    }
    DisturbedAfter(steps, [step], from, path, late);
  }

  lemma {:induction false} UndisturbedOwnTimer(steps: seq<Step>, path: Path)
    requires Run(steps).Some? && Undisturbed(steps, path)
    ensures OwnTimerOnly(Run(steps).value, path)
  {
    hide Enabled, Apply, Promised, Accounted, OwnTimerOnly;
    if steps == [] {
      NoTimerYet(path);
    } else {
      var before, step := steps[..|steps| - 1], steps[|steps| - 1];
      assert before + [step] == steps;
      DisturbedBefore(before, [step], 0, path, {});
      UndisturbedOwnTimer(before, path);
      EveryRunKeepsPromises(before);
      StepKeepsOwnTimer(Run(before).value, step, path);
    }
  }

  /** Then whatever commits for the path is its own timer, so every reload comes a whole delay after the last event. */
  lemma UndisturbedKeepsTheWait(steps: seq<Step>, path: Path, timer: TimerId)
    requires Run(steps).Some? && Undisturbed(steps, path)
    ensures var w := Run(steps).value;
      && !SkipsTheWait(w, path)
      && (Commits(w, timer) && w.callbacks[timer].path == path ==> path in w.timers && w.timers[path] == timer)
  {
    UndisturbedOwnTimer(steps, path);
    EveryRunKeepsPromises(steps);
  }

  /** An event, whose timer fires and commits at once, and then as many events as the late callback's number. */
  function Overtaking(w: Watcher, overdue: TimerId): (more: seq<Step>)
    requires overdue in w.callbacks
    ensures |more| == w.callbacks[overdue].number + 3
  {
    var event := Event(w.callbacks[overdue].path);
    [event, TimerFires(w.events), CallbackRuns(w.events)] + seq(w.callbacks[overdue].number, _ => event)
  }

  /** The path's number counts again from zero, and no callback is late that was not before. */
  predicate Restarted(w: Watcher, was: Watcher, overdue: TimerId, number: nat)
    requires overdue in was.callbacks
  {
    var path := was.callbacks[overdue].path;
    && overdue in w.callbacks && w.callbacks[overdue] == was.callbacks[overdue] && overdue < was.events <= w.events
    && Late(w, path) <= Late(was, path)
    && Current(w, path) == number
    && (number == 0 ==> path !in w.timers)
    && (number > 0 ==> path in w.timers && was.events <= w.timers[path] && w.timers[path] in w.callbacks
                       && w.callbacks[w.timers[path]] == Callback(path, number, Armed))
  }

  lemma Restarting(w: Watcher, overdue: TimerId)
    requires Promised(w) && Accounted(w) && Enabled(w, CallbackRuns(overdue))
    ensures var path, timer := w.callbacks[overdue].path, w.events;
      var w1 := Apply(w, Event(path));
      && Enabled(w1, TimerFires(timer))
      && Enabled(Apply(w1, TimerFires(timer)), CallbackRuns(timer))
      && Restarted(Apply(Apply(w1, TimerFires(timer)), CallbackRuns(timer)), w, overdue, 0)
  {
  }

  lemma OneMoreEvent(w: Watcher, was: Watcher, overdue: TimerId, number: nat)
    requires Accounted(w) && Enabled(was, CallbackRuns(overdue)) && Restarted(w, was, overdue, number)
    ensures Restarted(Apply(w, Event(was.callbacks[overdue].path)), was, overdue, number + 1)
  {
  }

  lemma {:induction false} OvertakingRuns(steps: seq<Step>, overdue: TimerId, number: nat)
    requires Run(steps).Some? && Enabled(Run(steps).value, CallbackRuns(overdue))
    requires number <= Run(steps).value.callbacks[overdue].number
    ensures var w := Run(steps).value; var path := w.callbacks[overdue].path;
      var more := Overtaking(w, overdue)[..number + 3];
      && Run(steps + more).Some? && Restarted(Run(steps + more).value, w, overdue, number)
      && DisturbedOnlyBy(steps + more, |steps|, path, Late(w, path))
  {
    var w := Run(steps).value;
    var path, all := w.callbacks[overdue].path, Overtaking(w, overdue);
    var late := Late(w, path);
    hide Run, Enabled, Apply, Promised, Accounted, Late;
    if number == 0 {
      EveryRunKeepsPromises(steps);
      Restarting(w, overdue);
      var s1 := steps + [Event(path)];
      RunOneMore(steps, Event(path));
      RunOneMore(s1, TimerFires(w.events));
      RunOneMore(s1 + [TimerFires(w.events)], CallbackRuns(w.events));
      assert steps + all[..3] == s1 + [TimerFires(w.events)] + [CallbackRuns(w.events)];
      DisturbedOnce(steps, Event(path), |steps|, path, late);
      DisturbedOnce(s1, TimerFires(w.events), |steps|, path, late);
      DisturbedOnce(s1 + [TimerFires(w.events)], CallbackRuns(w.events), |steps|, path, late);
    } else {
      var before := steps + all[..number + 2];
      OvertakingRuns(steps, overdue, number - 1);
      assert steps + all[..number + 3] == before + [Event(path)];
      EveryRunKeepsPromises(before);
      OneMoreEvent(Run(before).value, w, overdue, number - 1);
      AlwaysPossible(Run(before).value, path);
      RunOneMore(before, Event(path));
      DisturbedOnce(before, Event(path), |steps|, path, late);
    }
  }

  lemma AlwaysPossible(w: Watcher, path: Path)
    ensures Enabled(w, Event(path))
  {
  }

  /**
   Because numbers start again after a commit, a late callback can match a newer event's number: after
   these steps it reloads at once, while that event's own timer is still armed.
   */
  lemma LateCallbackSkipsTheWait(steps: seq<Step>, overdue: TimerId)
    requires Run(steps).Some? && Enabled(Run(steps).value, CallbackRuns(overdue))
    ensures var w := Run(steps).value; var path, more := w.callbacks[overdue].path, Overtaking(w, overdue);
      && Run(steps + more).Some? && SkipsTheWait(Run(steps + more).value, path)
      && DisturbedOnlyBy(steps + more, |steps|, path, Late(w, path))
  {
    var w := Run(steps).value;
    EveryRunKeepsPromises(steps);
    var number, more := w.callbacks[overdue].number, Overtaking(w, overdue);
    OvertakingRuns(steps, overdue, number);
    assert more[..number + 3] == more;
    var after := Run(steps + more).value;
    assert overdue in after.callbacks && Commits(after, overdue) && Enabled(after, CallbackRuns(overdue));
  }

  /** A continuation that skips the wait, all of whose events find no callbacks late but those late by now. */
  ghost predicate CanSkipTheWait(steps: seq<Step>, path: Path)
    requires Run(steps).Some?
  {
    exists more :: Run(steps + more).Some? && SkipsTheWait(Run(steps + more).value, path)
                   && DisturbedOnlyBy(steps + more, |steps|, path, Late(Run(steps).value, path))
  }

  /** The wait is safe exactly while no callback of the path is late: one that is, is enough to skip it. */
  lemma WaitIsKeptExactlyWithoutLateCallbacks(steps: seq<Step>, path: Path)
    requires Run(steps).Some? && Undisturbed(steps, path)
    ensures !CanSkipTheWait(steps, path) <==> Late(Run(steps).value, path) == {}
  {
    hide Run, SkipsTheWait, DisturbedOnlyBy;
    var late := Late(Run(steps).value, path);
    if late == {} {
      forall more | Run(steps + more).Some? && DisturbedOnlyBy(steps + more, |steps|, path, late)
        ensures !SkipsTheWait(Run(steps + more).value, path)
      {
        DisturbedAfter(steps, more, 0, path, {});
        UndisturbedKeepsTheWait(steps + more, path, 0);
      }
    } else {
      var overdue :| overdue in late;
      LateCallbackSkipsTheWait(steps, overdue);
    }
  }

  /** A run that does, for any path. */
  lemma OverdueCallbackSkipsTheWait(path: Path) returns (steps: seq<Step>)
    ensures Run(steps).Some? && SkipsTheWait(Run(steps).value, path)
  {
    steps := [Event(path), TimerFires(0)];
    assert Run([]) == Some(Idle);
    RunOneMore([], Event(path));
    RunOneMore([Event(path)], TimerFires(0));
    assert [] + [Event(path)] == [Event(path)] && [Event(path)] + [TimerFires(0)] == steps;
    var w := Run(steps).value;
    assert w.callbacks[0] == Callback(path, 1, Fired);
    LateCallbackSkipsTheWait(steps, 0);
    steps := steps + Overtaking(w, 0);
  }

  // ---- the watcher object ------------------------------------------------------------------

  /** The watcher's maps, and the timers of the runtime. */
  class ScenarioWatcher {
    var debounceSeq: map<Path, nat>
    var debounceTim: map<Path, TimerId>
    var callbacks: map<TimerId, Callback>
    var events: nat
    var commits: nat
    var reloads: nat

    ghost function State(): Watcher
      reads this
    {
      Watcher(debounceSeq, debounceTim, callbacks, events, commits, reloads)
    }

    constructor ()
      ensures State() == Idle
    {
      debounceSeq, debounceTim, callbacks, events, commits, reloads := map[], map[], map[], 0, 0, 0;
    }

    /** Timer.Stop. */
    method StopTimer(timer: TimerId)
      modifies `callbacks
      ensures callbacks == Disarmed(old(callbacks), timer)
    {
      if timer in callbacks && callbacks[timer].phase == Armed {
        callbacks := callbacks - {timer};
      }
    }

    method ScheduleReload(path: Path)
      modifies this
      ensures State() == Scheduled(old(State()), path)
    {
      var number := (if path in debounceSeq then debounceSeq[path] else 0) + 1;
      debounceSeq := debounceSeq[path := number];
      if path in debounceTim {
        StopTimer(debounceTim[path]);
      }
      debounceTim := debounceTim[path := events];
      callbacks := callbacks[events := Callback(path, number, Armed)];
      events := events + 1;
    }

    /** The locked part of a timer's callback; it says whether to reload. */
    method RunCallback(timer: TimerId) returns (commit: bool)
      requires timer in callbacks
      modifies this
      ensures State() == Called(old(State()), timer) && commit == Commits(old(State()), timer)
    {
      var path, number := callbacks[timer].path, callbacks[timer].number;
      callbacks := callbacks - {timer};
      if (if path in debounceSeq then debounceSeq[path] else 0) != number {
        return false;
      }
      debounceTim := debounceTim - {path};
      debounceSeq := debounceSeq - {path};
      commits := commits + 1;
      commit := true;
    }

    method Stop()
      modifies this
      ensures State() == Stopped(old(State()))
    {
      var left := debounceTim.Keys;
      while left != {}
        invariant left <= old(debounceTim).Keys
        invariant debounceTim == old(debounceTim) - (old(debounceTim).Keys - left)
        invariant debounceSeq == old(debounceSeq) - (old(debounceTim).Keys - left)
        invariant events == old(events) && commits == old(commits) && reloads == old(reloads)
        invariant forall t :: t in callbacks <==> (t in old(callbacks) &&
          !(old(callbacks)[t].phase == Armed && exists p | p in old(debounceTim) && p !in left :: old(debounceTim)[p] == t))
        invariant forall t | t in callbacks :: callbacks[t] == old(callbacks)[t]
        decreases left
      {
        var path :| path in left;
        StopTimer(debounceTim[path]);
        debounceTim := debounceTim - {path};
        debounceSeq := debounceSeq - {path};
        left := left - {path};
      }
      assert callbacks == Stopped(old(State())).callbacks;
    }
  }
}
