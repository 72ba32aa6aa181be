/**
 Exactly-once accounting of timed requests (internal/server/terminal.go:16-136). Each method of an
 account that takes its lock is one step; after the claim, finalize lowers the gauges and records the
 outcome in separate steps, and any number of calls may finalize the same account.
 */
module TerminalAccounting {
  import opened Basics
  import opened Wrappers

  type AccountId = nat
  type CallId = nat

  datatype Label = Label(server: string, verb: string)

  /** The mutable part of one request's account; `metered` says there is a metrics collector. */
  datatype Account = Account(
    series: Label,
    metered: bool,
    timingStarted: bool,
    finished: bool,
    streamingActive: bool,
    requestInFlight: bool)

  function NewAccount(series: Label, metered: bool): Account {
    Account(series, metered, false, false, false, metered)
  }

  function StartedAt(a: Account): Account {
    if a.finished || a.timingStarted then a else a.(timingStarted := true)
  }

  /** The account, and whether the streaming gauge goes up. */
  function StreamingStarted(a: Account): (Account, bool) {
    if a.finished || a.streamingActive then (a, false) else (a.(streamingActive := true), a.metered)
  }

  /** The account after a claim, and what it was before, for the one caller that gets it. */
  function ClaimTerminal(a: Account): (Account, Option<Account>) {
    if a.finished then (a, None)
    else (a.(finished := true, streamingActive := false, requestInFlight := false), Some(a))
  }

  predicate LowersStreaming(was: Account) {
    was.streamingActive && was.metered
  }

  predicate LowersInFlight(was: Account) {
    was.requestInFlight && was.metered
  }

  // ---- the object --------------------------------------------------------------------------

  /** The gauges and the request counters of the collector. */
  class Collector {
    var inFlight: map<Label, int>
    var streaming: map<string, int>
    var timed: nat
    var untimed: nat

    constructor ()
      ensures inFlight == map[] && streaming == map[] && timed == 0 && untimed == 0
    {
      inFlight, streaming, timed, untimed := map[], map[], 0, 0;
    }
  }

  /** A gauge that was never touched reads zero. */
  function At<K>(gauge: map<K, int>, key: K): int {
    if key in gauge then gauge[key] else 0
  }

  function Moved<K(!new)>(gauge: map<K, int>, key: K, d: int): (r: map<K, int>)
    ensures forall k :: At(r, k) == At(gauge, k) + if k == key then d else 0
  {
    gauge[key := At(gauge, key) + d]
  }

  class TimedRequest {
    const collector: Collector?
    const series: Label
    var timingStarted: bool
    var finished: bool
    var streamingActive: bool
    var requestInFlight: bool

    function Value(): Account
      reads this
    {
      Account(series, collector != null, timingStarted, finished, streamingActive, requestInFlight)
    }

    constructor (collector: Collector?, series: Label)
      modifies collector
      ensures this.collector == collector && Value() == NewAccount(series, collector != null)
      ensures collector != null ==> collector.inFlight == Moved(old(collector.inFlight), series, 1)
      ensures collector != null ==> unchanged(collector`streaming, collector`timed, collector`untimed)
    {
      this.collector, this.series := collector, series;
      timingStarted, finished, streamingActive, requestInFlight := false, false, false, collector != null;
      new;
      if collector != null {
        collector.inFlight := Moved(collector.inFlight, series, 1);
      }
    }

    method StartAt()
      modifies this
      ensures Value() == StartedAt(old(Value()))
    {
      if finished || timingStarted {
        return;
      }
      timingStarted := true;
    }

    method StartStreaming()
      modifies this, collector
      ensures Value() == StreamingStarted(old(Value())).0
      ensures collector != null ==> unchanged(collector`inFlight, collector`timed, collector`untimed)
      ensures collector != null ==>
        collector.streaming == if StreamingStarted(old(Value())).1 then Moved(old(collector.streaming), series.server, 1)
                               else old(collector.streaming)
    {
      if finished || streamingActive {
        return;
      }
      streamingActive := true;
      if collector != null {
        collector.streaming := Moved(collector.streaming, series.server, 1);
      }
    }

    method Claim() returns (was: Option<Account>)
      modifies this
      ensures (Value(), was) == ClaimTerminal(old(Value()))
    {
      if finished {
        return None;
      }
      was := Some(Value());
      finished, streamingActive, requestInFlight := true, false, false;
    }

    /** Only the call that claims the account lowers the gauges and counts the request. */
    method Finalize() returns (counted: bool)
      modifies this, collector
      ensures Value() == ClaimTerminal(old(Value())).0 && counted == !old(finished)
      ensures collector != null && counted ==>
        && collector.streaming == (if old(streamingActive) then Moved(old(collector.streaming), series.server, -1)
                                   else old(collector.streaming))
        && collector.inFlight == (if old(requestInFlight) then Moved(old(collector.inFlight), series, -1)
                                  else old(collector.inFlight))
        && collector.timed == old(collector.timed) + (if old(timingStarted) then 1 else 0)
        && collector.untimed == old(collector.untimed) + (if old(timingStarted) then 0 else 1)
      ensures collector != null && !counted ==> unchanged(collector)
    {
      var was := Claim();
      if was.None? {
        return false;
      }
      if collector != null {
        if was.value.streamingActive {
          collector.streaming := Moved(collector.streaming, series.server, -1);
        }
        if was.value.requestInFlight {
          collector.inFlight := Moved(collector.inFlight, series, -1);
        }
        if was.value.timingStarted {
          collector.timed := collector.timed + 1;
        } else {
          collector.untimed := collector.untimed + 1;
        }
      }
      counted := true;
    }
  }

  // ---- many accounts, many calls -----------------------------------------------------------

  datatype Stage = BeforeStreaming | BeforeInFlight | BeforeRecord

  /** A finalize call past its claim, with what the account was. */
  datatype Finalizer = Finalizer(id: AccountId, was: Account, stage: Stage)

  datatype System = System(
    accounts: map<AccountId, Account>,
    finalizers: map<CallId, Finalizer>,
    inFlight: map<Label, int>,
    streaming: map<string, int>,
    records: map<AccountId, int>)

  const Empty := System(map[], map[], map[], map[], map[])

  datatype Step =
    | Create(id: AccountId, series: Label, metered: bool)
    | Start(id: AccountId)
    | Stream(id: AccountId)
    | Claim(call: CallId, id: AccountId)
    | LowerStreaming(call: CallId)
    | LowerInFlight(call: CallId)
    | Record(call: CallId)

  predicate Enabled(s: System, step: Step) {
    match step
    case Create(id, _, _) => id !in s.accounts
    case Start(id) => id in s.accounts
    case Stream(id) => id in s.accounts
    case Claim(call, id) => id in s.accounts && call !in s.finalizers
    case LowerStreaming(call) => call in s.finalizers && s.finalizers[call].stage == BeforeStreaming
    case LowerInFlight(call) => call in s.finalizers && s.finalizers[call].stage == BeforeInFlight
    case Record(call) => call in s.finalizers && s.finalizers[call].stage == BeforeRecord
  }

  function Apply(s: System, step: Step): System
    requires Enabled(s, step)
  {
    match step
    case Create(id, series, metered) =>
      s.(accounts := s.accounts[id := NewAccount(series, metered)],
         inFlight := if metered then Moved(s.inFlight, series, 1) else s.inFlight)
    case Start(id) => s.(accounts := s.accounts[id := StartedAt(s.accounts[id])])
    case Stream(id) =>
      var (a, raises) := StreamingStarted(s.accounts[id]);
      s.(accounts := s.accounts[id := a], streaming := if raises then Moved(s.streaming, a.series.server, 1) else s.streaming)
    case Claim(call, id) =>
      var (a, was) := ClaimTerminal(s.accounts[id]);
      s.(accounts := s.accounts[id := a],
         finalizers := if was.Some? then s.finalizers[call := Finalizer(id, was.value, BeforeStreaming)] else s.finalizers)
    case LowerStreaming(call) =>
      var f := s.finalizers[call];
      s.(finalizers := s.finalizers[call := f.(stage := BeforeInFlight)],
         streaming := if LowersStreaming(f.was) then Moved(s.streaming, f.was.series.server, -1) else s.streaming)
    case LowerInFlight(call) =>
      var f := s.finalizers[call];
      s.(finalizers := s.finalizers[call := f.(stage := BeforeRecord)],
         inFlight := if LowersInFlight(f.was) then Moved(s.inFlight, f.was.series, -1) else s.inFlight)
    case Record(call) =>
      s.(finalizers := s.finalizers - {call}, records := Moved(s.records, s.finalizers[call].id, 1))
  }

  function Run(steps: seq<Step>): Option<System> {
    if steps == [] then Some(Empty)
    else
      match Run(steps[..|steps| - 1])
      case None => None
      case Some(s) => if Enabled(s, steps[|steps| - 1]) then Some(Apply(s, steps[|steps| - 1])) else None
  }

  // ---- counting ----------------------------------------------------------------------------

  function Members<V(!new)>(m: map<nat, V>, p: V -> bool): set<nat> {
    set k | k in m && p(m[k])
  }

  /** How many entries of a map satisfy `p`. */
  function Count<V(!new)>(m: map<nat, V>, p: V -> bool): nat {
    |Members(m, p)|
  }

  lemma MembersPut<V(!new)>(m: map<nat, V>, k: nat, v: V, p: V -> bool)
    ensures Members(m, p) == Members(m, p) - {k} + if k in m && p(m[k]) then {k} else {}
    ensures Members(m[k := v], p) == Members(m, p) - {k} + if p(v) then {k} else {}
  {
    var now, rest := Members(m[k := v], p), Members(m, p) - {k};
    forall j | j != k ensures j in now <==> j in rest {
    }
  }

  lemma CountPut<V(!new)>(m: map<nat, V>, k: nat, v: V, p: V -> bool)
    ensures Count(m[k := v], p) + One(k in m && p(m[k])) == Count(m, p) + One(p(v))
  {
    MembersPut(m, k, v, p);
    hide Members;
    var rest := Members(m, p) - {k};
    assert |rest + {k}| == |rest| + 1;
  }

  lemma CountDrop<V(!new)>(m: map<nat, V>, k: nat, p: V -> bool)
    requires k in m
    ensures Count(m - {k}, p) + One(p(m[k])) == Count(m, p)
  {
    assert Members(m - {k}, p) == Members(m, p) - {k};
  }

  // ---- the invariant -----------------------------------------------------------------------

  function HoldsInFlight(l: Label): Account -> bool {
    (a: Account) => a.metered && !a.finished && a.series == l
  }

  function OwesInFlight(l: Label): Finalizer -> bool {
    (f: Finalizer) => f.was.metered && f.was.series == l && f.stage != BeforeRecord
  }

  function HoldsStreaming(server: string): Account -> bool {
    (a: Account) => LowersStreaming(a) && a.series.server == server
  }

  function OwesStreaming(server: string): Finalizer -> bool {
    (f: Finalizer) => LowersStreaming(f.was) && f.was.series.server == server && f.stage == BeforeStreaming
  }

  function Finalizes(id: AccountId): Finalizer -> bool {
    (f: Finalizer) => f.id == id
  }

  /** Each gauge is its unfinished requests plus those claimed but not yet taken off. */
  ghost predicate GaugesExact(s: System) {
    && (forall l :: At(s.inFlight, l) == Count(s.accounts, HoldsInFlight(l)) + Count(s.finalizers, OwesInFlight(l)))
    && (forall v :: At(s.streaming, v) == Count(s.accounts, HoldsStreaming(v)) + Count(s.finalizers, OwesStreaming(v)))
  }

  /** A finished account has been recorded once, or one call is on its way to record it; others not at all. */
  ghost predicate RecordedOnce(s: System) {
    && (forall id :: At(s.records, id) + Count(s.finalizers, Finalizes(id)) ==
                     One(id in s.accounts && s.accounts[id].finished))
    && (forall id | id in s.accounts && s.accounts[id].finished ::
          !s.accounts[id].streamingActive && !s.accounts[id].requestInFlight)
    && (forall id | id in s.accounts && !s.accounts[id].finished :: s.accounts[id].requestInFlight == s.accounts[id].metered)
    && (forall call | call in s.finalizers :: s.finalizers[call].was.requestInFlight == s.finalizers[call].was.metered)
  }

  lemma StepKeepsInFlight(s: System, step: Step, l: Label)
    requires RecordedOnce(s) && Enabled(s, step)
    requires At(s.inFlight, l) == Count(s.accounts, HoldsInFlight(l)) + Count(s.finalizers, OwesInFlight(l))
    ensures var r := Apply(s, step);
      At(r.inFlight, l) == Count(r.accounts, HoldsInFlight(l)) + Count(r.finalizers, OwesInFlight(l))
  {
    hide Count, Moved, At;
    var r := Apply(s, step);
    match step
    case Create(id, _, _) => CountPut(s.accounts, id, r.accounts[id], HoldsInFlight(l));
    case Start(id) => CountPut(s.accounts, id, r.accounts[id], HoldsInFlight(l));
    case Stream(id) => CountPut(s.accounts, id, r.accounts[id], HoldsInFlight(l));
    case Claim(call, id) =>
      CountPut(s.accounts, id, r.accounts[id], HoldsInFlight(l));
      CountPut(s.finalizers, call, Finalizer(id, s.accounts[id], BeforeStreaming), OwesInFlight(l));
    case LowerStreaming(call) => CountPut(s.finalizers, call, r.finalizers[call], OwesInFlight(l));
    case LowerInFlight(call) => CountPut(s.finalizers, call, r.finalizers[call], OwesInFlight(l));
    case Record(call) => CountDrop(s.finalizers, call, OwesInFlight(l));
  }

  lemma StepKeepsStreaming(s: System, step: Step, v: string)
    requires RecordedOnce(s) && Enabled(s, step)
    requires At(s.streaming, v) == Count(s.accounts, HoldsStreaming(v)) + Count(s.finalizers, OwesStreaming(v))
    ensures var r := Apply(s, step);
      At(r.streaming, v) == Count(r.accounts, HoldsStreaming(v)) + Count(r.finalizers, OwesStreaming(v))
  {
    hide Count, Moved, At;
    var r := Apply(s, step);
    match step
    case Create(id, _, _) => CountPut(s.accounts, id, r.accounts[id], HoldsStreaming(v));
    case Start(id) => CountPut(s.accounts, id, r.accounts[id], HoldsStreaming(v));
    case Stream(id) => CountPut(s.accounts, id, r.accounts[id], HoldsStreaming(v));
    case Claim(call, id) =>
      CountPut(s.accounts, id, r.accounts[id], HoldsStreaming(v));
      CountPut(s.finalizers, call, Finalizer(id, s.accounts[id], BeforeStreaming), OwesStreaming(v));
    case LowerStreaming(call) => CountPut(s.finalizers, call, r.finalizers[call], OwesStreaming(v));
    case LowerInFlight(call) => CountPut(s.finalizers, call, r.finalizers[call], OwesStreaming(v));
    case Record(call) => CountDrop(s.finalizers, call, OwesStreaming(v));
  }

  lemma StepKeepsRecord(s: System, step: Step, id: AccountId)
    requires RecordedOnce(s) && Enabled(s, step)
    ensures var r := Apply(s, step);
      At(r.records, id) + Count(r.finalizers, Finalizes(id)) == One(id in r.accounts && r.accounts[id].finished)
  {
    hide Count, Moved, At;
    var r := Apply(s, step);
    match step
    case Claim(call, other) =>
      CountPut(s.finalizers, call, Finalizer(other, s.accounts[other], BeforeStreaming), Finalizes(id));
    case LowerStreaming(call) => CountPut(s.finalizers, call, r.finalizers[call], Finalizes(id));
    case LowerInFlight(call) => CountPut(s.finalizers, call, r.finalizers[call], Finalizes(id));
    case Record(call) => CountDrop(s.finalizers, call, Finalizes(id));
    case _ =>
  }

  lemma StepKeepsGauges(s: System, step: Step)
    requires GaugesExact(s) && RecordedOnce(s) && Enabled(s, step)
    ensures GaugesExact(Apply(s, step))
  {
    hide Count, At, Apply, Enabled, RecordedOnce, HoldsInFlight, OwesInFlight, HoldsStreaming, OwesStreaming;
    var r := Apply(s, step);
    forall l ensures At(r.inFlight, l) == Count(r.accounts, HoldsInFlight(l)) + Count(r.finalizers, OwesInFlight(l)) {
      StepKeepsInFlight(s, step, l);
    }
    forall v ensures At(r.streaming, v) == Count(r.accounts, HoldsStreaming(v)) + Count(r.finalizers, OwesStreaming(v)) {
      StepKeepsStreaming(s, step, v);
    }
  }

  lemma StepKeepsFinished(s: System, step: Step)
    requires RecordedOnce(s) && Enabled(s, step)
    ensures var r := Apply(s, step);
      forall id | id in r.accounts && r.accounts[id].finished ::
        !r.accounts[id].streamingActive && !r.accounts[id].requestInFlight
  {
    hide Count, At, Moved;
  }

  lemma StepKeepsFlights(s: System, step: Step)
    requires RecordedOnce(s) && Enabled(s, step)
    ensures var r := Apply(s, step);
      && (forall id | id in r.accounts && !r.accounts[id].finished :: r.accounts[id].requestInFlight == r.accounts[id].metered)
      && (forall call | call in r.finalizers :: r.finalizers[call].was.requestInFlight == r.finalizers[call].was.metered)
  {
    hide Count, At, Moved;
  }

  lemma StepKeepsRecords(s: System, step: Step)
    requires RecordedOnce(s) && Enabled(s, step)
    ensures RecordedOnce(Apply(s, step))
  {
    hide Count, At, Apply, Enabled, Finalizes;
    var r := Apply(s, step);
    StepKeepsFinished(s, step);
    StepKeepsFlights(s, step);
    forall id ensures At(r.records, id) + Count(r.finalizers, Finalizes(id)) == One(id in r.accounts && r.accounts[id].finished) {
      StepKeepsRecord(s, step, id);
    }
  }

  lemma {:induction false} EveryRunIsExact(steps: seq<Step>)
    requires Run(steps).Some?
    ensures GaugesExact(Run(steps).value) && RecordedOnce(Run(steps).value)
  {
    if steps != [] {
      hide GaugesExact, RecordedOnce, Apply, Enabled;
      EveryRunIsExact(steps[..|steps| - 1]);
      var s, step := Run(steps[..|steps| - 1]).value, steps[|steps| - 1];
      StepKeepsGauges(s, step);
      StepKeepsRecords(s, step);
    }
  }

  /** No gauge is ever negative, whatever the interleaving and however often accounts are finalized. */
  lemma GaugesNeverNegative(steps: seq<Step>, l: Label)
    requires Run(steps).Some?
    ensures At(Run(steps).value.inFlight, l) >= 0 && At(Run(steps).value.streaming, l.server) >= 0
  {
    EveryRunIsExact(steps);
  }

  /** When every account is finished and every call done, all gauges are zero and each request was counted once. */
  lemma QuietMeansZero(steps: seq<Step>, l: Label)
    requires Run(steps).Some? && Run(steps).value.finalizers == map[]
    requires forall id | id in Run(steps).value.accounts :: Run(steps).value.accounts[id].finished
    ensures var s := Run(steps).value;
      && At(s.inFlight, l) == 0 && At(s.streaming, l.server) == 0
      && forall id | id in s.accounts :: At(s.records, id) == 1
  {
    EveryRunIsExact(steps);
    var s := Run(steps).value;
    assert (set id | id in s.accounts && HoldsInFlight(l)(s.accounts[id])) == {};
    assert (set id | id in s.accounts && HoldsStreaming(l.server)(s.accounts[id])) == {};
    assert Count(s.finalizers, OwesInFlight(l)) == 0 && Count(s.finalizers, OwesStreaming(l.server)) == 0;
  }

  // ---- what the flags say ------------------------------------------------------------------

  lemma StepMovesFlags(s: System, step: Step, id: AccountId)
    requires Enabled(s, step) && id in Apply(s, step).accounts && !Apply(s, step).accounts[id].finished
    ensures var a := Apply(s, step).accounts[id];
      if id !in s.accounts then a.streamingActive == a.timingStarted == false && step.Create? && step.id == id
      else
        && !s.accounts[id].finished
        && (a.streamingActive <==> s.accounts[id].streamingActive || step == Stream(id))
        && (a.timingStarted <==> s.accounts[id].timingStarted || step == Start(id))
  {
    hide Moved;
  }

  /** An unfinished account is streaming, or timed, exactly when that has been asked for. */
  lemma {:induction false} FlagsFollowCalls(steps: seq<Step>, id: AccountId)
    requires Run(steps).Some? && id in Run(steps).value.accounts && !Run(steps).value.accounts[id].finished
    ensures var a := Run(steps).value.accounts[id];
      && (a.streamingActive <==> Stream(id) in steps)
      && (a.timingStarted <==> Start(id) in steps)
  {
    var before, step := steps[..|steps| - 1], steps[|steps| - 1];
    assert steps == before + [step];
    var s := Run(before).value;
    StepMovesFlags(s, step, id);
    hide Apply, Enabled;
    if id in s.accounts {
      FlagsFollowCalls(before, id);
    } else {
      Untouched(before, id);
    }
  }

  lemma {:induction false} Untouched(steps: seq<Step>, id: AccountId)
    requires Run(steps).Some? && id !in Run(steps).value.accounts
    ensures Stream(id) !in steps && Start(id) !in steps
  {
    if steps != [] {
      var before, step := steps[..|steps| - 1], steps[|steps| - 1];
      assert steps == before + [step];
      NoneUnknown(Run(before).value, step, id);
      hide Apply, Enabled;
      Untouched(before, id);
    }
  }

  lemma NoneUnknown(s: System, step: Step, id: AccountId)
    requires Enabled(s, step) && id !in Apply(s, step).accounts
    ensures id !in s.accounts && step != Stream(id) && step != Start(id)
  {
    hide Moved;
  }
}
