/**
 Adaptive timeouts (internal/handler/adaptive_timeout.go:96-278): a ring buffer of durations per
 endpoint, and a timeout published from an order statistic of its window. Clock readings are
 parameters; the multiplier is a real; the percentile rank is any function of the window's length.
 */
module AdaptiveTimeouts {
  import opened Wrappers
  import opened OrderStatistics

  const MIN_DATA_POINTS := 100
  const MILLISECOND := 1_000_000
  const SECOND := 1_000_000_000

  datatype Config = Config(
    sampleSize: int,
    interval: int,
    frequency: int,
    multiplier: real,
    minTimeout: int,
    maxTimeout: int,
    fallback: int)

  const DefaultConfig := Config(1000, 10 * SECOND, 100, 2.0, 10 * MILLISECOND, 60 * SECOND, 30 * SECOND)

  /** The configuration with every missing or negative value replaced by its default. */
  function Normalized(c: Config): Config {
    Config(
      if c.sampleSize <= 0 then DefaultConfig.sampleSize else c.sampleSize,
      if c.interval <= 0 then DefaultConfig.interval else c.interval,
      if c.frequency <= 0 then DefaultConfig.frequency else c.frequency,
      if c.multiplier <= 0.0 then DefaultConfig.multiplier else c.multiplier,
      if c.minTimeout <= 0 then DefaultConfig.minTimeout else c.minTimeout,
      if c.maxTimeout <= 0 then DefaultConfig.maxTimeout else c.maxTimeout,
      if c.fallback <= 0 then DefaultConfig.fallback else c.fallback)
  }

  predicate AllPositive(c: Config) {
    && c.sampleSize > 0 && c.interval > 0 && c.frequency > 0 && c.multiplier > 0.0
    && c.minTimeout > 0 && c.maxTimeout > 0 && c.fallback > 0
  }

  /** Settings that make sense stay as they are, one by one; with none at all the timeouts stay within the bounds. */
  lemma DefaultsFillIn(c: Config)
    ensures var d := Normalized(c);
      && AllPositive(d) && (d == c <==> AllPositive(c))
      && (c.sampleSize > 0 ==> d.sampleSize == c.sampleSize) && (c.interval > 0 ==> d.interval == c.interval)
      && (c.frequency > 0 ==> d.frequency == c.frequency) && (c.multiplier > 0.0 ==> d.multiplier == c.multiplier)
      && (c.minTimeout > 0 ==> d.minTimeout == c.minTimeout) && (c.maxTimeout > 0 ==> d.maxTimeout == c.maxTimeout)
      && (c.fallback > 0 ==> d.fallback == c.fallback)
    ensures var d := Normalized(Config(0, 0, 0, 0.0, 0, 0, 0));
      d.minTimeout <= d.fallback <= d.maxTimeout && d.sampleSize >= MIN_DATA_POINTS
  {
  }

  predicate IsNormal(c: Config) {
    c.sampleSize > 0 && c.frequency > 0
  }

  // ---- what is published -------------------------------------------------------------------

  /** The last `size` durations, oldest first. */
  function Window(history: seq<int>, size: nat): seq<int> {
    if |history| <= size then history else history[|history| - size..]
  }

  /** The percentile position in a window of `n` durations. */
  function RankIn(rank: nat -> nat, n: nat): (k: nat)
    requires n > 0
    ensures k < n
  {
    if rank(n) >= n then n - 1 else rank(n)
  }

  /** Conversion to an integer drops the fraction. */
  function Truncate(x: real): int {
    if x >= 0.0 then x.Floor else -((-x).Floor)
  }

  function Scaled(duration: int, multiplier: real): int {
    Truncate(duration as real * multiplier)
  }

  function Clamp(c: Config, timeout: int): int {
    var raised := if timeout < c.minTimeout then c.minTimeout else timeout;
    if raised > c.maxTimeout then c.maxTimeout else raised
  }

  /** The selected order statistic of the window. */
  function Percentile(rank: nat -> nat, history: seq<int>, size: nat): int
    requires history != [] && size > 0
  {
    var w := Window(history, size);
    Sorted(w)[RankIn(rank, |w|)]
  }

  /** The timeout the durations seen so far call for. */
  function TimeoutFor(c: Config, rank: nat -> nat, history: seq<int>): int
    requires IsNormal(c) && history != []
  {
    Clamp(c, Scaled(Percentile(rank, history, c.sampleSize), c.multiplier))
  }

  /** What is kept for one endpoint. */
  datatype Track = Track(history: seq<int>, lastAdjust: int, timeout: Option<int>)

  /** The three clock readings one call may take. */
  datatype Clock = Clock(created: int, checked: int, adjusted: int)

  predicate Adjusts(c: Config, history: seq<int>, lastAdjust: int, checked: int)
    requires IsNormal(c)
  {
    && (|history| % c.frequency == 0 || checked - lastAdjust >= c.interval)
    && |Window(history, c.sampleSize)| >= MIN_DATA_POINTS
  }

  function Record(c: Config, rank: nat -> nat, was: Option<Track>, duration: int, clock: Clock): Track
    requires IsNormal(c)
  {
    var t := if was.Some? then was.value else Track([], clock.created, None);
    var history := t.history + [duration];
    if Adjusts(c, history, t.lastAdjust, clock.checked)
    then Track(history, clock.adjusted, Some(TimeoutFor(c, rank, history)))
    else t.(history := history)
  }

  // ---- over every run of one endpoint ------------------------------------------------------

  datatype Call = Call(duration: int, clock: Clock)

  function Run(c: Config, rank: nat -> nat, calls: seq<Call>): Option<Track>
    requires IsNormal(c)
  {
    if calls == [] then None
    else
      var last := calls[|calls| - 1];
      Some(Record(c, rank, Run(c, rank, calls[..|calls| - 1]), last.duration, last.clock))
  }

  function Durations(calls: seq<Call>): (r: seq<int>)
    ensures |r| == |calls| && forall i | 0 <= i < |calls| :: r[i] == calls[i].duration
  {
    seq(|calls|, i requires 0 <= i < |calls| => calls[i].duration)
  }

  /** What GetTimeout returns. */
  function Current(c: Config, t: Option<Track>): int {
    if t.Some? && t.value.timeout.Some? then t.value.timeout.value else c.fallback
  }

  /** When the timeout was last adjusted before the i-th call, or when the endpoint became known. */
  function LastAdjust(c: Config, rank: nat -> nat, calls: seq<Call>, i: nat): int
    requires IsNormal(c) && i < |calls|
  {
    var before := Run(c, rank, calls[..i]);
    if before.Some? then before.value.lastAdjust else calls[i].clock.created
  }

  /** The i-th call meets the conditions for adjusting: it is due, and there are enough durations. */
  predicate AdjustsAt(c: Config, rank: nat -> nat, calls: seq<Call>, i: nat)
    requires IsNormal(c) && i < |calls|
  {
    && ((i + 1) % c.frequency == 0 || calls[i].clock.checked - LastAdjust(c, rank, calls, i) >= c.interval)
    && i + 1 >= 100 && c.sampleSize >= 100
  }

  lemma AdjustsAtAdjusts(c: Config, rank: nat -> nat, calls: seq<Call>, i: nat)
    requires IsNormal(c) && i < |calls|
    ensures AdjustsAt(c, rank, calls, i) <==>
      Adjusts(c, Durations(calls[..i + 1]), LastAdjust(c, rank, calls, i), calls[i].clock.checked)
  {
    hide LastAdjust, Run;
    assert |Durations(calls[..i + 1])| == i + 1;
  }

  /** The duration times the multiplier, held between the bounds; a fraction is dropped, and crossed bounds give the maximum. */
  predicate Held(c: Config, duration: int, timeout: int) {
    var x := duration as real * c.multiplier;
    if c.minTimeout > c.maxTimeout || x > c.maxTimeout as real then timeout == c.maxTimeout
    else if x < c.minTimeout as real then timeout == c.minTimeout
    else if x >= 0.0 then timeout as real <= x < timeout as real + 1.0
    else timeout as real - 1.0 < x <= timeout as real
  }

  /**
   The timeout these durations call for: of the last ones, as many as a sample has, take the one of the
   percentile's rank, multiply it by the safety multiplier, and hold the product between the bounds.
   */
  ghost predicate IsTimeoutFor(c: Config, rank: nat -> nat, history: seq<int>, timeout: int)
    requires IsNormal(c) && history != []
  {
    var n := if |history| < c.sampleSize then |history| else c.sampleSize;
    var sample, k := history[|history| - n..], if rank(n) < n then rank(n) else n - 1;
    exists p :: HasRank(sample, k, p) && Held(c, p, timeout)
  }

  lemma PercentileHasRank(rank: nat -> nat, history: seq<int>, size: nat)
    requires history != [] && size > 0
    ensures var w := Window(history, size);
      HasRank(w, RankIn(rank, |w|), Percentile(rank, history, size))
  {
    hide Sorted, HasRank;
    var w := Window(history, size);
    SortedHasRank(w, RankIn(rank, |w|));
  }

  lemma TimeoutForIs(c: Config, rank: nat -> nat, history: seq<int>)
    requires IsNormal(c) && history != []
    ensures IsTimeoutFor(c, rank, history, TimeoutFor(c, rank, history))
  {
    hide HasRank, Held, Clamp, Scaled, Percentile;
    var p := Percentile(rank, history, c.sampleSize);
    PercentileHasRank(rank, history, c.sampleSize);
    ScaledIsHeld(c, p);
    var n := if |history| < c.sampleSize then |history| else c.sampleSize;
    var sample, k := history[|history| - n..], if rank(n) < n then rank(n) else n - 1;
    assert sample == Window(history, c.sampleSize) && k == RankIn(rank, n);
    assert HasRank(sample, k, p) && Held(c, p, TimeoutFor(c, rank, history));
  }

  lemma ScaledIsHeld(c: Config, p: int)
    ensures Held(c, p, Clamp(c, Scaled(p, c.multiplier)))
  {
  }

  /** It does, and none after it does. */
  ghost predicate LastAdjustedAt(c: Config, rank: nat -> nat, calls: seq<Call>, i: nat)
    requires IsNormal(c)
  {
    i < |calls| && AdjustsAt(c, rank, calls, i) && forall j | i < j < |calls| :: !AdjustsAt(c, rank, calls, j)
  }

  /** The track is as the i-th call left it, but for the durations since. */
  ghost predicate LeftBy(c: Config, rank: nat -> nat, calls: seq<Call>, t: Track, i: nat)
    requires IsNormal(c)
  {
    && LastAdjustedAt(c, rank, calls, i)
    && t.lastAdjust == calls[i].clock.adjusted
    && t.timeout.Some? && IsTimeoutFor(c, rank, Durations(calls[..i + 1]), t.timeout.value)
  }

  /** The time and the timeout are what the last adjusting call, if there is one, has left. */
  ghost predicate Explained(c: Config, rank: nat -> nat, calls: seq<Call>, t: Track)
    requires IsNormal(c) && calls != []
  {
    && (t.timeout.None? ==> t.lastAdjust == calls[0].clock.created && forall j | 0 <= j < |calls| :: !AdjustsAt(c, rank, calls, j))
    && (t.timeout.Some? ==> exists i: nat | i < |calls| :: LeftBy(c, rank, calls, t, i))
  }

  lemma AdjustsBefore(c: Config, rank: nat -> nat, calls: seq<Call>, more: seq<Call>, i: nat)
    requires IsNormal(c) && i < |calls|
    ensures AdjustsAt(c, rank, calls + more, i) <==> AdjustsAt(c, rank, calls, i)
  {
    assert (calls + more)[..i] == calls[..i] && (calls + more)[..i + 1] == calls[..i + 1];
  }

  /**
   The track holds every duration in order; a timeout is published as soon as some call adjusts, and it is
   the one that the durations up to the last such call ask for.
   */
  lemma {:induction false} PublishedIsExplained(c: Config, rank: nat -> nat, calls: seq<Call>)
    requires IsNormal(c) && calls != []
    ensures var t := Run(c, rank, calls).value;
      t.history == Durations(calls) && Explained(c, rank, calls, t)
  {
    hide TimeoutFor, Explained, AdjustsAt;
    var n := |calls| - 1;
    var before := calls[..n];
    if before != [] {
      PublishedIsExplained(c, rank, before);
    }
    if AdjustsAt(c, rank, calls, n) {
      ExplainedNow(c, rank, calls);
    } else {
      ExplainedStill(c, rank, calls);
    }
  }

  lemma ExplainedNow(c: Config, rank: nat -> nat, calls: seq<Call>)
    requires IsNormal(c) && calls != [] && AdjustsAt(c, rank, calls, |calls| - 1)
    requires HistoryKept(c, rank, calls[..|calls| - 1])
    ensures HistoryKept(c, rank, calls) && Explained(c, rank, calls, Run(c, rank, calls).value)
  {
    hide TimeoutFor, IsTimeoutFor, AdjustsAt, Run;
    RecordsNow(c, rank, calls);
    TimeoutForIs(c, rank, Durations(calls));
    assert calls[..|calls| - 1 + 1] == calls;
    assert LeftBy(c, rank, calls, Run(c, rank, calls).value, |calls| - 1);
  }

  lemma ExplainedStill(c: Config, rank: nat -> nat, calls: seq<Call>)
    requires IsNormal(c) && calls != [] && !AdjustsAt(c, rank, calls, |calls| - 1)
    requires HistoryKept(c, rank, calls[..|calls| - 1])
    requires |calls| > 1 ==> Explained(c, rank, calls[..|calls| - 1], Run(c, rank, calls[..|calls| - 1]).value)
    ensures HistoryKept(c, rank, calls) && Explained(c, rank, calls, Run(c, rank, calls).value)
  {
    hide TimeoutFor, AdjustsAt, Adjusts, Run, Durations, Explained;
    RecordsOnly(c, rank, calls);
    var before, last := calls[..|calls| - 1], calls[|calls| - 1];
    assert calls == before + [last];
    if before != [] {
      ExplainedBefore(c, rank, before, last, Run(c, rank, before).value, Run(c, rank, calls).value);
    } else {
      ExplainedAtFirst(c, rank, calls, Run(c, rank, calls).value);
    }
  }

  lemma ExplainedAtFirst(c: Config, rank: nat -> nat, calls: seq<Call>, t: Track)
    requires IsNormal(c) && |calls| == 1 && !AdjustsAt(c, rank, calls, 0)
    requires t.timeout.None? && t.lastAdjust == calls[0].clock.created
    ensures Explained(c, rank, calls, t)
  {
    hide AdjustsAt;
  }

  /** A call that does not adjust leaves everything but the history as it was. */
  lemma ExplainedBefore(c: Config, rank: nat -> nat, before: seq<Call>, last: Call, was: Track, t: Track)
    requires IsNormal(c) && before != [] && Explained(c, rank, before, was)
    requires !AdjustsAt(c, rank, before + [last], |before|) && t == was.(history := t.history)
    ensures Explained(c, rank, before + [last], t)
  {
    hide TimeoutFor, IsTimeoutFor, AdjustsAt;
    var calls := before + [last];
    forall i | 0 <= i < |before| ensures AdjustsAt(c, rank, calls, i) <==> AdjustsAt(c, rank, before, i) {
      AdjustsBefore(c, rank, before, [last], i);
    }
    if t.timeout.Some? {
      var i: nat :| i < |before| && LeftBy(c, rank, before, was, i);
      assert calls[..i + 1] == before[..i + 1];
      assert LeftBy(c, rank, calls, t, i);
    }
  }

  predicate HistoryKept(c: Config, rank: nat -> nat, calls: seq<Call>)
    requires IsNormal(c)
  {
    if calls == [] then Run(c, rank, calls).None?
    else Run(c, rank, calls).Some? && Run(c, rank, calls).value.history == Durations(calls)
  }

  lemma LastAdjustIs(c: Config, rank: nat -> nat, calls: seq<Call>)
    requires IsNormal(c) && calls != []
    ensures var before := Run(c, rank, calls[..|calls| - 1]);
      LastAdjust(c, rank, calls, |calls| - 1) ==
        if before.Some? then before.value.lastAdjust else calls[|calls| - 1].clock.created
  {
    hide Run;
  }

  lemma RunStep(c: Config, rank: nat -> nat, calls: seq<Call>)
    requires IsNormal(c) && calls != []
    ensures var last := calls[|calls| - 1];
      Run(c, rank, calls) == Some(Record(c, rank, Run(c, rank, calls[..|calls| - 1]), last.duration, last.clock))
  {
  }

  lemma RecordsNow(c: Config, rank: nat -> nat, calls: seq<Call>)
    requires IsNormal(c) && calls != [] && AdjustsAt(c, rank, calls, |calls| - 1)
    requires HistoryKept(c, rank, calls[..|calls| - 1])
    ensures Run(c, rank, calls).Some?
    ensures Run(c, rank, calls).value ==
      Track(Durations(calls), calls[|calls| - 1].clock.adjusted, Some(TimeoutFor(c, rank, Durations(calls))))
  {
    hide TimeoutFor, Adjusts, AdjustsAt, Run, LastAdjust;
    AdjustsAtAdjusts(c, rank, calls, |calls| - 1);
    LastAdjustIs(c, rank, calls);
    RunStep(c, rank, calls);
    var n := |calls| - 1;
    assert calls[..n + 1] == calls && Durations(calls) == Durations(calls[..n]) + [calls[n].duration];
  }

  lemma RecordsOnly(c: Config, rank: nat -> nat, calls: seq<Call>)
    requires IsNormal(c) && calls != [] && !AdjustsAt(c, rank, calls, |calls| - 1)
    requires HistoryKept(c, rank, calls[..|calls| - 1])
    ensures var before, t := Run(c, rank, calls[..|calls| - 1]), Run(c, rank, calls);
      && t.Some? && t.value.history == Durations(calls)
      && (|calls| == 1 ==> t.value.timeout.None? && t.value.lastAdjust == calls[0].clock.created)
      && (|calls| > 1 ==> before.Some? && t.value.timeout == before.value.timeout && t.value.lastAdjust == before.value.lastAdjust)
  {
    hide TimeoutFor, Adjusts, AdjustsAt, Run, LastAdjust;
    AdjustsAtAdjusts(c, rank, calls, |calls| - 1);
    LastAdjustIs(c, rank, calls);
    RunStep(c, rank, calls);
    var n := |calls| - 1;
    assert calls[..n + 1] == calls && Durations(calls) == Durations(calls[..n]) + [calls[n].duration];
    assert n == 0 ==> Durations(calls[..n]) == [];
  }

  /**
   The timeout in force is the one the durations up to the last adjusting call ask for, whether or not others
   came since, and the fallback while no call has adjusted.
   */
  lemma CurrentIsExplained(c: Config, rank: nat -> nat, calls: seq<Call>)
    requires IsNormal(c)
    ensures var timeout := Current(c, Run(c, rank, calls));
      if exists i | 0 <= i < |calls| :: AdjustsAt(c, rank, calls, i)
      then exists i: nat | i < |calls| :: LastAdjustedAt(c, rank, calls, i) && IsTimeoutFor(c, rank, Durations(calls[..i + 1]), timeout)
      else timeout == c.fallback
  {
    if calls != [] {
      hide IsTimeoutFor, AdjustsAt, LastAdjustedAt;
      PublishedIsExplained(c, rank, calls);
      KeptFromFirstOn(c, rank, calls);
      hide Run;
      var t := Run(c, rank, calls).value;
      if t.timeout.Some? {
        var i: nat :| i < |calls| && LeftBy(c, rank, calls, t, i);
        AdjustedLast(c, rank, calls, i);
        assert LastAdjustedAt(c, rank, calls, i) && IsTimeoutFor(c, rank, Durations(calls[..i + 1]), t.timeout.value);
      }
    }
  }

  lemma AdjustedLast(c: Config, rank: nat -> nat, calls: seq<Call>, i: nat)
    requires IsNormal(c) && LastAdjustedAt(c, rank, calls, i)
    ensures i < |calls| && AdjustsAt(c, rank, calls, i)
  {
    hide AdjustsAt;
  }

  /** A published timeout never exceeds the maximum; it reaches the minimum unless the bounds are crossed. */
  lemma PublishedWithinBounds(c: Config, rank: nat -> nat, calls: seq<Call>)
    requires IsNormal(c) && calls != [] && Run(c, rank, calls).value.timeout.Some?
    ensures var timeout := Run(c, rank, calls).value.timeout.value;
      && timeout <= c.maxTimeout
      && (timeout >= c.minTimeout <==> c.minTimeout <= c.maxTimeout)
  {
    hide IsTimeoutFor, AdjustsAt;
    PublishedIsExplained(c, rank, calls);
    var t := Run(c, rank, calls).value;
    var i: nat :| i < |calls| && LeftBy(c, rank, calls, t, i);
    TimeoutIsBounded(c, rank, Durations(calls[..i + 1]), t.timeout.value);
  }

  predicate WithinBounds(c: Config, timeout: int) {
    c.minTimeout <= timeout <= c.maxTimeout
  }

  /** Whatever the calls, the timeout in force lies within the bounds: exactly when the fallback does. */
  lemma CurrentWithinBoundsExactly(c: Config, rank: nat -> nat)
    requires IsNormal(c)
    ensures (forall calls :: WithinBounds(c, Current(c, Run(c, rank, calls)))) <==> WithinBounds(c, c.fallback)
  {
    hide Run, WithinBounds;
    if WithinBounds(c, c.fallback) {
      forall calls ensures WithinBounds(c, Current(c, Run(c, rank, calls))) {
        CurrentWithinBounds(c, rank, calls);
      }
    } else {
      NoneYet(c, rank, []);
      assert !WithinBounds(c, Current(c, Run(c, rank, [])));
    }
  }

  lemma CurrentWithinBounds(c: Config, rank: nat -> nat, calls: seq<Call>)
    requires IsNormal(c) && WithinBounds(c, c.fallback)
    ensures WithinBounds(c, Current(c, Run(c, rank, calls)))
  {
    hide Run;
    KeptFromFirstOn(c, rank, calls);
    if calls != [] && Run(c, rank, calls).value.timeout.Some? {
      PublishedWithinBounds(c, rank, calls);
    } else {
      NoneYet(c, rank, calls);
    }
  }

  lemma KeptFromFirstOn(c: Config, rank: nat -> nat, calls: seq<Call>)
    requires IsNormal(c)
    ensures Run(c, rank, calls).Some? <==> calls != []
  {
  }

  lemma NoneYet(c: Config, rank: nat -> nat, calls: seq<Call>)
    requires IsNormal(c) && (calls == [] || Run(c, rank, calls).value.timeout.None?)
    ensures Current(c, Run(c, rank, calls)) == c.fallback
  {
  }

  lemma TimeoutIsBounded(c: Config, rank: nat -> nat, history: seq<int>, timeout: int)
    requires IsNormal(c) && history != [] && IsTimeoutFor(c, rank, history, timeout)
    ensures timeout <= c.maxTimeout
    ensures timeout >= c.minTimeout <==> c.minTimeout <= c.maxTimeout
  {
    hide HasRank;
  }

  /**
   A sample size below the minimum number of data points switches adaptation off: the fallback is
   returned forever. With a larger one, calls exist after which a timeout is published.
   */
  lemma AdaptsExactlyWithEnoughSamples(c: Config, rank: nat -> nat)
    requires IsNormal(c)
    ensures c.sampleSize >= MIN_DATA_POINTS <==> exists calls :: calls != [] && Run(c, rank, calls).value.timeout.Some?
  {
    hide TimeoutFor;
    if c.sampleSize < MIN_DATA_POINTS {
      forall calls | calls != [] ensures Run(c, rank, calls).value.timeout == None {
        NeverAdapts(c, rank, calls);
      }
    } else {
      var calls := seq(MIN_DATA_POINTS, i => Call(0, Clock(0, c.interval, 0)));
      var before := calls[..MIN_DATA_POINTS - 1];
      PublishedIsExplained(c, rank, calls);
      KeepsCreationTime(c, rank, before);
      assert calls[..MIN_DATA_POINTS] == calls;
      assert AdjustsAt(c, rank, calls, MIN_DATA_POINTS - 1);
    }
  }

  lemma {:induction false} NeverAdapts(c: Config, rank: nat -> nat, calls: seq<Call>)
    requires IsNormal(c) && c.sampleSize < MIN_DATA_POINTS && calls != []
    ensures Run(c, rank, calls).value.timeout == None
  {
    hide TimeoutFor;
    if |calls| > 1 {
      NeverAdapts(c, rank, calls[..|calls| - 1]);
    }
  }

  /** Calls that all see the clock at zero leave the last adjustment at zero. */
  lemma {:induction false} KeepsCreationTime(c: Config, rank: nat -> nat, calls: seq<Call>)
    requires IsNormal(c) && calls != [] && forall call | call in calls :: call.clock.created == 0 && call.clock.adjusted == 0
    ensures Run(c, rank, calls).value.lastAdjust == 0
  {
    hide TimeoutFor, Adjusts;
    assert calls[|calls| - 1] in calls;
    if |calls| > 1 {
      KeepsCreationTime(c, rank, calls[..|calls| - 1]);
    }
  }

  // ---- the ring buffer ---------------------------------------------------------------------

  lemma AtLeastOnce(n: nat, d: int)
    requires d >= 1
    ensures n * d >= n
  {
  }

  lemma RemainderIs(x: nat, q: nat, r: nat, n: nat)
    requires r < n && x == n * q + r
    ensures x % n == r
  {
    var q', r' := x / n, x % n;
    assert x == n * q' + r';
    assert n * (q - q') == r' - r && n * (q' - q) == r - r';
    if q > q' {
      AtLeastOnce(n, q - q');
    } else if q' > q {
      AtLeastOnce(n, q' - q);
    }
  }

  /** The place `d` further on from `base` is `d` further on from the head, wrapping once. */
  lemma RingOffset(base: nat, d: nat, n: nat)
    requires d < n
    ensures (base + d) % n == if base % n + d < n then base % n + d else base % n + d - n
  {
    var q, r := base / n, base % n;
    assert base + d == n * q + (r + d);
    if r + d < n {
      RemainderIs(base + d, q, r + d, n);
    } else {
      assert base + d == n * (q + 1) + (r + d - n);
      RemainderIs(base + d, q + 1, r + d - n, n);
    }
  }

  lemma NotOverwritten(i: nat, n: nat, size: nat)
    requires n < i + size && i < n
    ensures i % size != n % size
  {
    RingOffset(i, n - i, size);
  }

  lemma NextHead(i: nat, n: nat)
    requires n > 0
    ensures (i % n + 1) % n == (i + 1) % n
  {
    var q, r := i / n, i % n;
    assert i + 1 == n * q + (r + 1);
    if r + 1 < n {
      RemainderIs(i + 1, q, r + 1, n);
      RemainderIs(r + 1, 0, r + 1, n);
    } else {
      assert i + 1 == n * (q + 1);
      RemainderIs(i + 1, q + 1, 0, n);
      RemainderIs(n, 1, 0, n);
    }
  }

  lemma SameHead(i: nat, n: nat)
    requires n > 0
    ensures (i + n) % n == i % n
  {
    assert i + n == n * (i / n + 1) + i % n;
    RemainderIs(i + n, i / n + 1, i % n, n);
  }

  class EndpointStats {
    var lastAdjust: int
    const durations: array<int>
    var head: nat
    var count: nat
    var totalCount: nat
    const sampleSize: nat
    /** Every duration recorded, oldest first. */
    ghost var history: seq<int>

    /** The last `count` durations are in the ring, each at its number modulo the size. */
    ghost predicate Valid()
      reads `head, `count, `totalCount, `history, durations
    {
      && sampleSize > 0 && durations.Length == sampleSize
      && totalCount == |history|
      && count == (if |history| <= sampleSize then |history| else sampleSize)
      && head == |history| % sampleSize
      && forall i | |history| - count <= i < |history| :: durations[i % sampleSize] == history[i]
    }

    constructor (sampleSize: nat, now: int)
      requires sampleSize > 0
      ensures Valid() && fresh(durations)
      ensures this.sampleSize == sampleSize && history == [] && lastAdjust == now
    {
      this.sampleSize, durations := sampleSize, new int[sampleSize];
      lastAdjust, head, count, totalCount, history := now, 0, 0, 0, [];
    }

    method Insert(duration: int)
      requires Valid()
      modifies `head, `count, `totalCount, `history, durations
      ensures Valid() && history == old(history) + [duration]
      ensures totalCount == |history| && count == |Window(history, sampleSize)|
    {
      ghost var n := |history|;
      durations[head] := duration;
      NextHead(n, sampleSize);
      head := (head + 1) % sampleSize;
      if count < sampleSize {
        count := count + 1;
      }
      totalCount := totalCount + 1;
      history := history + [duration];
      forall i | |history| - count <= i < n ensures durations[i % sampleSize] == history[i] {
        NotOverwritten(i, n, sampleSize);
      }
    }

    lemma CountIsWindow()
      requires Valid()
      ensures count == |Window(history, sampleSize)| && (count == 0 <==> history == [])
    {
    }

    /** The window, copied out of the ring in order. */
    method CopyWindow() returns (w: array<int>)
      requires Valid()
      ensures fresh(w) && w[..] == Window(history, sampleSize)
    {
      w := new int[count];
      if count < sampleSize {
        forall i | 0 <= i < count { w[i] := durations[i]; }
        forall i | 0 <= i < count ensures w[i] == history[i] {
          RemainderIs(i, 0, i, sampleSize);
        }
      } else {
        var n := sampleSize - head;
        forall i | 0 <= i < n { w[i] := durations[head + i]; }
        forall i | 0 <= i < head { w[n + i] := durations[i]; }
        ghost var base := |history| - sampleSize;
        forall i | 0 <= i < sampleSize ensures w[i] == history[base + i] {
          RingOffset(base, i, sampleSize);
          SameHead(base, sampleSize);
        }
      }
    }
  }

  // ---- the tracker -------------------------------------------------------------------------

  datatype EndpointKey = EndpointKey(verb: string, path: string)

  class AdaptiveTimeoutTracker {
    const config: Config
    const rank: nat -> nat
    var stats: map<EndpointKey, EndpointStats>
    var currentTimeout: map<EndpointKey, int>

    /** Each endpoint has statistics of its own; a timeout is only published for a known endpoint. */
    ghost predicate Valid()
      reads this, stats.Values, set k | k in stats :: stats[k].durations
    {
      && IsNormal(config)
      && currentTimeout.Keys <= stats.Keys
      && (forall k | k in stats :: stats[k].Valid() && stats[k].sampleSize == config.sampleSize)
      && (forall k1, k2 | k1 in stats && k2 in stats && k1 != k2 ::
            stats[k1] != stats[k2] && stats[k1].durations != stats[k2].durations)
    }

    ghost function TrackOf(key: EndpointKey): Option<Track>
      reads this, stats.Values
    {
      if key !in stats then None
      else Some(Track(stats[key].history, stats[key].lastAdjust,
                      if key in currentTimeout then Some(currentTimeout[key]) else None))
    }

    constructor (cfg: Config, rank: nat -> nat)
      ensures Valid() && config == Normalized(cfg) && this.rank == rank
      ensures forall key :: TrackOf(key) == None
    {
      config, this.rank, stats, currentTimeout := Normalized(cfg), rank, map[], map[];
    }

    method RecordDuration(key: EndpointKey, duration: int, clock: Clock)
      requires Valid()
      modifies this, if key in stats then {stats[key], stats[key].durations} else {}
      ensures Valid()
      ensures TrackOf(key) == Some(Record(config, rank, old(TrackOf(key)), duration, clock))
      ensures forall other | other != key :: TrackOf(other) == old(TrackOf(other))
    {
      hide TimeoutFor, Window, EndpointStats.Valid;
      if key !in stats {
        AddEndpoint(key, clock.created);
      }
      var s := stats[key];
      s.Insert(duration);
      var shouldAdjust := s.totalCount % config.frequency == 0 || clock.checked - s.lastAdjust >= config.interval;
      if shouldAdjust && s.count >= MIN_DATA_POINTS {
        s.lastAdjust := clock.adjusted;
        AdjustTimeout(key, s);
      }
    }

    method AddEndpoint(key: EndpointKey, now: int)
      requires Valid() && key !in stats
      modifies `stats
      ensures Valid() && key in stats && fresh(stats[key]) && fresh(stats[key].durations)
      ensures TrackOf(key) == Some(Track([], now, None))
      ensures forall other | other != key :: TrackOf(other) == old(TrackOf(other))
    {
      hide EndpointStats.Valid;
      var created := new EndpointStats(config.sampleSize, now);
      stats := stats[key := created];
    }

    method AdjustTimeout(key: EndpointKey, s: EndpointStats)
      requires IsNormal(config) && s.Valid() && s.sampleSize == config.sampleSize && s.history != []
      modifies `currentTimeout
      ensures currentTimeout == old(currentTimeout)[key := TimeoutFor(config, rank, s.history)]
    {
      hide Percentile, EndpointStats.Valid, Scaled;
      var p95 := CalculateP95(s);
      var timeout := Scaled(p95, config.multiplier);
      if timeout < config.minTimeout {
        timeout := config.minTimeout;
      }
      if timeout > config.maxTimeout {
        timeout := config.maxTimeout;
      }
      currentTimeout := currentTimeout[key := timeout];
    }

    method CalculateP95(s: EndpointStats) returns (r: int)
      requires s.Valid() && s.sampleSize > 0
      ensures r == if s.history == [] then config.fallback else Percentile(rank, s.history, s.sampleSize)
    {
      hide Sorted, Divides, Permuted, Window, EndpointStats.Valid;
      s.CountIsWindow();
      if s.count == 0 {
        return config.fallback;
      }
      var w := s.CopyWindow();
      ghost var window := w[..];
      var index := rank(w.Length);
      if index >= w.Length {
        index := w.Length - 1;
      }
      assert w.Length == |window|;
      r := Quickselect(w, 0, w.Length - 1, index);
      assert window[0..w.Length] == window;
    }

    method GetTimeout(key: EndpointKey) returns (timeout: int)
      requires Valid()
      ensures timeout == Current(config, TrackOf(key))
    {
      if key in currentTimeout {
        return currentTimeout[key];
      }
      return config.fallback;
    }
  }
}
