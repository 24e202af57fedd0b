/** When a recurring maintenance pass may run next: a normal interval after success, a doubling delay after failures. */
module Schedule {
  import opened Wrappers

  const DEFAULT_RETRY_BASE_MS := 60000
  const DEFAULT_RETRY_MAX_MS := 900000
  const EXPONENT_CAP := 30

  // ---------- Settings ----------

  /** A JavaScript number. */
  datatype Number = Finite(value: real) | PositiveInfinity | NegativeInfinity | NotANumber

  predicate Below(a: Number, b: Number)
    requires !a.NotANumber? && !b.NotANumber?
  {
    match (a, b)
    case (Finite(x), Finite(y)) => x <= y
    case (NegativeInfinity, _) => true
    case (_, PositiveInfinity) => true
    case _ => false
  }

  function MinNumber(a: Number, b: Number): Number {
    if a.NotANumber? || b.NotANumber? then NotANumber else if Below(a, b) then a else b
  }

  function MaxNumber(a: Number, b: Number): Number {
    if a.NotANumber? || b.NotANumber? then NotANumber else if Below(a, b) then b else a
  }

  function HalfFloored(a: Number): Number {
    if a.Finite? then Finite((a.value / 2.0).Floor as real) else a
  }

  function Max(a: int, b: int): int {
    if a < b then b else a
  }

  function Min(a: int, b: int): int {
    if a < b then a else b
  }

  function PositiveDelay(a: Number): int {
    if a.Finite? && a.value > 0.0 then Max(1, (a.value + 0.5).Floor) else 1
  }

  datatype Settings = Settings(normalIntervalMs: int, retryBaseMs: int, retryMaxMs: int) {
    predicate Sound() {
      1 <= normalIntervalMs && 1 <= retryBaseMs <= retryMaxMs
    }
  }

  type SoundSettings = c: Settings | c.Sound() witness Settings(1, 1, 1)

  function Whole(ms: int): Number {
    Finite(ms as real)
  }

  function RetryBase(normal: Number, retryBase: Option<Number>): Number {
    if retryBase.Some? then retryBase.value
    else MinNumber(Whole(DEFAULT_RETRY_BASE_MS), MaxNumber(Whole(1000), HalfFloored(normal)))
  }

  function RetryMax(normal: Number, retryBase: Option<Number>, retryMax: Option<Number>): Number {
    if retryMax.Some? then retryMax.value
    else MinNumber(Whole(DEFAULT_RETRY_MAX_MS), MaxNumber(RetryBase(normal, retryBase), normal))
  }

  function Configure(normal: Number, retryBase: Option<Number>, retryMax: Option<Number>): Settings {
    var base := PositiveDelay(RetryBase(normal, retryBase));
    Settings(PositiveDelay(normal), base, Max(base, PositiveDelay(RetryMax(normal, retryBase, retryMax))))
  }

  /** Whatever numbers are passed, delays are positive and ordered; unset ones stay within a minute and 15 minutes. */
  lemma ConfigureIsSound(normal: Number, retryBase: Option<Number>, retryMax: Option<Number>)
    ensures Configure(normal, retryBase, retryMax).Sound()
    ensures retryBase.None? ==> Configure(normal, retryBase, retryMax).retryBaseMs <= DEFAULT_RETRY_BASE_MS
    ensures retryBase.None? && retryMax.None? ==>
      Configure(normal, retryBase, retryMax).retryMaxMs <= DEFAULT_RETRY_MAX_MS
  {
  }

  /** Whole positive milliseconds are taken as given, the maximum raised to the base. */
  lemma ConfigureKeepsWholeNumbers(normal: int, base: int, max: int)
    requires 1 <= normal && 1 <= base && 1 <= max
    ensures Configure(Whole(normal), Some(Whole(base)), Some(Whole(max))) == Settings(normal, base, Max(base, max))
  {
  }

  /**
   Unset retry delays of a whole interval: the base is half of it, between a second and a minute; the maximum
   is the interval itself, no shorter than the base and no longer than a quarter of an hour.
   */
  lemma DefaultSettings(normal: int)
    requires 1 <= normal
    ensures var c := Configure(Whole(normal), None, None);
      && c.normalIntervalMs == normal
      && c.retryBaseMs == (if normal < 2000 then 1000 else if normal < 120000 then normal / 2 else 60000)
      && c.retryMaxMs == (if normal < c.retryBaseMs then c.retryBaseMs else if normal < 900000 then normal else 900000)
  {
    assert (normal as real / 2.0).Floor == normal / 2;
    assert HalfFloored(Whole(normal)) == Whole(normal / 2);
  }

  /** An interval that is not a finite number counts as one millisecond; the defaults follow their bounds. */
  lemma UnboundedIntervals()
    ensures Configure(PositiveInfinity, None, None) == Settings(1, 60000, 900000)
    ensures Configure(NegativeInfinity, None, None) == Settings(1, 1000, 1000)
    ensures Configure(NotANumber, None, None) == Settings(1, 1, 1)
    ensures Configure(Whole(1), Some(PositiveInfinity), Some(Whole(5))) == Settings(1, 1, 5)
  {
    assert Whole(1000).value < Whole(60000).value < Whole(900000).value;
    assert (60000 as real + 0.5).Floor == 60000 && (1000 as real + 0.5).Floor == 1000;
    assert (900000 as real + 0.5).Floor == 900000 && (1 as real + 0.5).Floor == 1 && (5 as real + 0.5).Floor == 5;
  }

  lemma WholeDelay(ms: int)
    requires 1 <= ms
    ensures PositiveDelay(Whole(ms)) == ms
  {
    assert (ms as real + 0.5).Floor == ms;
  }

  /** Without a maximum, it follows the base that is given. */
  lemma MaximumFollowsBase(normal: int, base: int)
    requires 1 <= normal && 1 <= base
    ensures Configure(Whole(normal), Some(Whole(base)), None) ==
      Settings(normal, base, Max(base, Min(900000, Max(base, normal))))
  {
    var larger := Max(base, normal);
    assert MaxNumber(Whole(base), Whole(normal)) == Whole(larger);
    assert MinNumber(Whole(DEFAULT_RETRY_MAX_MS), Whole(larger)) == Whole(Min(900000, larger));
    WholeDelay(normal);
    WholeDelay(base);
    WholeDelay(Min(900000, larger));
  }

  /** A delay is the nearest whole millisecond, halves rounded up, and at least one. */
  lemma DelaysAreRounded(x: real)
    requires x > 0.0
    ensures var ms := PositiveDelay(Finite(x));
      (ms == 1 && x < 0.5) || (x - 0.5 < ms as real <= x + 0.5)
  {
  }

  /** Minimum and maximum order the infinities around every number, and are nothing without numbers. */
  lemma InfinitiesCompare(x: real)
    ensures MinNumber(NegativeInfinity, Finite(x)) == MinNumber(Finite(x), NegativeInfinity) == NegativeInfinity
    ensures MaxNumber(NegativeInfinity, Finite(x)) == MaxNumber(Finite(x), NegativeInfinity) == Finite(x)
    ensures MinNumber(PositiveInfinity, Finite(x)) == MinNumber(Finite(x), PositiveInfinity) == Finite(x)
    ensures MaxNumber(PositiveInfinity, Finite(x)) == MaxNumber(Finite(x), PositiveInfinity) == PositiveInfinity
    ensures MinNumber(NotANumber, Finite(x)) == MinNumber(Finite(x), NotANumber) == NotANumber
    ensures MaxNumber(NotANumber, Finite(x)) == MaxNumber(Finite(x), NotANumber) == NotANumber
  {
  }

  // ---------- Delays ----------

  function Pow2(n: nat): (p: int)
    ensures p >= 1
  {
    if n == 0 then 1 else 2 * Pow2(n - 1)
  }

  function RetryDelay(c: Settings, failures: nat): int
    requires 1 <= failures
  {
    Min(c.retryMaxMs, c.retryBaseMs * Pow2(Min(failures - 1, EXPONENT_CAP)))
  }

  lemma {:induction false} Pow2Grows(a: nat, b: nat)
    requires a <= b
    ensures Pow2(a) <= Pow2(b)
  {
    if a < b {
      Pow2Grows(a, b - 1);
    }
  }

  lemma {:induction false} ScaledPow2Grows(base: int, a: nat, b: nat)
    requires 1 <= base && a <= b
    ensures base * Pow2(a) <= base * Pow2(b)
  {
    Pow2Grows(a, b);
  }

  lemma Pow2Adds(a: nat, b: nat)
    ensures Pow2(a + b) == Pow2(a) * Pow2(b)
  {
    if b != 0 {
      Pow2Adds(a, b - 1);
      assert Pow2(a) * (2 * Pow2(b - 1)) == 2 * (Pow2(a) * Pow2(b - 1));
    }
  }

  lemma Pow2At30()
    ensures Pow2(30) == 1073741824
  {
    assert Pow2(10) == 1024 by { assert Pow2(5) == 32; Pow2Adds(5, 5); }
    Pow2Adds(10, 10);
    Pow2Adds(20, 10);
  }

  /** The cap on the exponent is invisible exactly when thirty doublings of the base reach the maximum. */
  lemma CapIsInvisible(c: Settings)
    requires c.Sound()
    ensures (forall k: nat :: 1 <= k ==> RetryDelay(c, k) == Min(c.retryMaxMs, c.retryBaseMs * Pow2(k - 1)))
      <==> c.retryBaseMs * Pow2(EXPONENT_CAP) >= c.retryMaxMs
  {
    if c.retryBaseMs * Pow2(EXPONENT_CAP) >= c.retryMaxMs {
      forall k: nat | 1 <= k
        ensures RetryDelay(c, k) == Min(c.retryMaxMs, c.retryBaseMs * Pow2(k - 1))
      {
        if EXPONENT_CAP < k - 1 {
          ScaledPow2Grows(c.retryBaseMs, EXPONENT_CAP, k - 1);
        }
      }
    } else {
      assert Pow2(31) == 2 * Pow2(EXPONENT_CAP);
      var capped := c.retryBaseMs * Pow2(EXPONENT_CAP);
      assert c.retryBaseMs * Pow2(31) == 2 * capped;
      assert RetryDelay(c, 32) == capped;
      assert capped < Min(c.retryMaxMs, c.retryBaseMs * Pow2(32 - 1));
    }
  }

  /** With unset retry delays the k-th failure in a row waits base * 2^(k-1), at most the maximum. */
  lemma DefaultDelays(normal: Number, k: nat)
    requires 1 <= k
    ensures var c := Configure(normal, None, None);
      RetryDelay(c, k) == Min(c.retryMaxMs, c.retryBaseMs * Pow2(k - 1))
  {
    var c := Configure(normal, None, None);
    ConfigureIsSound(normal, None, None);
    Pow2At30();
    CapIsInvisible(c);
  }

  /** Each further failure waits at least as long and at most twice as long, between base and maximum. */
  lemma DelaysGrow(c: Settings, k: nat)
    requires c.Sound() && 1 <= k
    ensures c.retryBaseMs <= RetryDelay(c, k) <= RetryDelay(c, k + 1) <= c.retryMaxMs
    ensures RetryDelay(c, k + 1) <= 2 * RetryDelay(c, k)
  {
    var a, b := Min(k - 1, EXPONENT_CAP), Min(k, EXPONENT_CAP);
    ScaledPow2Grows(c.retryBaseMs, 0, a);
    ScaledPow2Grows(c.retryBaseMs, a, b);
    if a != b {
      assert c.retryBaseMs * Pow2(b) == 2 * (c.retryBaseMs * Pow2(a));
    }
  }

  // ---------- The schedule ----------

  datatype Record = Success(at: int) | Failure(at: int) | Deferred(at: int)

  datatype State = State(failureCount: nat, lastSuccessAt: Option<int>, nextEligibleAt: int)

  const FRESH := State(0, None, 0)

  datatype Snapshot = Snapshot(failureCount: nat, lastSuccessAgeMs: Option<int>, nextEligibleAt: int)

  function SnapshotOf(s: State, now: int): Snapshot {
    Snapshot(s.failureCount,
             if s.lastSuccessAt.None? then None else Some(Max(0, now - s.lastSuccessAt.value)),
             s.nextEligibleAt)
  }

  function After(c: Settings, s: State, r: Record): State {
    match r
    case Success(at) => State(0, Some(at), at + c.normalIntervalMs)
    case Failure(at) => State(s.failureCount + 1, s.lastSuccessAt, at + RetryDelay(c, s.failureCount + 1))
    case Deferred(at) => s.(nextEligibleAt := at + c.normalIntervalMs)
  }

  class MaintenanceSchedule {
    var failureCount: nat
    var lastSuccessAt: Option<int>
    var nextEligibleAt: int
    const settings: SoundSettings

    function View(): State
      reads this
    {
      State(failureCount, lastSuccessAt, nextEligibleAt)
    }

    constructor (normalIntervalMs: Number, retryBaseMs: Option<Number>, retryMaxMs: Option<Number>)
      ensures View() == FRESH
      ensures settings == Configure(normalIntervalMs, retryBaseMs, retryMaxMs)
    {
      ConfigureIsSound(normalIntervalMs, retryBaseMs, retryMaxMs);
      failureCount, lastSuccessAt, nextEligibleAt := 0, None, 0;
      settings := Configure(normalIntervalMs, retryBaseMs, retryMaxMs);
    }

    method IsDue(now: int) returns (due: bool)
      ensures due <==> nextEligibleAt <= now
    {
      due := now >= nextEligibleAt;
    }

    method TakeSnapshot(now: int) returns (r: Snapshot)
      ensures r == SnapshotOf(View(), now)
      ensures r.failureCount == failureCount && r.nextEligibleAt == nextEligibleAt
      ensures r.lastSuccessAgeMs.None? <==> lastSuccessAt.None?
      ensures lastSuccessAt.Some? ==>
                r.lastSuccessAgeMs.value == if now < lastSuccessAt.value then 0 else now - lastSuccessAt.value
    {
      var age := None;
      if lastSuccessAt.Some? {
        age := Some(Max(0, now - lastSuccessAt.value));
      }
      r := Snapshot(failureCount, age, nextEligibleAt);
    }

    method RecordDeferred(now: int) returns (r: Snapshot)
      modifies this
      ensures View() == After(settings, old(View()), Deferred(now)) && r == SnapshotOf(View(), now)
      ensures failureCount == old(failureCount) && lastSuccessAt == old(lastSuccessAt)
      ensures nextEligibleAt == now + settings.normalIntervalMs
    {
      nextEligibleAt := now + settings.normalIntervalMs;
      r := TakeSnapshot(now);
    }

    method RecordFailure(now: int) returns (r: Snapshot)
      modifies this
      ensures View() == After(settings, old(View()), Failure(now)) && r == SnapshotOf(View(), now)
      ensures failureCount == old(failureCount) + 1 && lastSuccessAt == old(lastSuccessAt)
      ensures now + settings.retryBaseMs <= nextEligibleAt <= now + settings.retryMaxMs
      ensures old(failureCount) >= 1 ==> now + RetryDelay(settings, old(failureCount)) <= nextEligibleAt
    {
      DelaysGrow(settings, failureCount + 1);
      if failureCount >= 1 {
        DelaysGrow(settings, failureCount);
      }
      failureCount := failureCount + 1;
      var exponent := Min(failureCount - 1, EXPONENT_CAP);
      var retryDelayMs := Min(settings.retryMaxMs, settings.retryBaseMs * Pow2(exponent));
      nextEligibleAt := now + retryDelayMs;
      r := TakeSnapshot(now);
    }

    method RecordSuccess(now: int) returns (r: Snapshot)
      modifies this
      ensures View() == After(settings, old(View()), Success(now)) && r == SnapshotOf(View(), now)
      ensures failureCount == 0 && lastSuccessAt == Some(now)
      ensures nextEligibleAt == now + settings.normalIntervalMs
    {
      failureCount := 0;
      lastSuccessAt := Some(now);
      nextEligibleAt := now + settings.normalIntervalMs;
      r := TakeSnapshot(now);
    }
  }

  // ---------- What a history leaves behind ----------

  function Replay(c: Settings, records: seq<Record>): State {
    if records == [] then FRESH
    else After(c, Replay(c, records[..|records| - 1]), records[|records| - 1])
  }

  predicate SuccessAfter(records: seq<Record>, i: int) {
    exists j :: 0 <= j < |records| && i < j && records[j].Success?
  }

  /** The failures that no success has followed yet; deferrals do not count and do not reset. */
  function OpenFailures(records: seq<Record>): set<int> {
    set i | 0 <= i < |records| && records[i].Failure? && !SuccessAfter(records, i)
  }

  lemma SuccessAfterAppend(records: seq<Record>, r: Record, i: int)
    requires 0 <= i < |records|
    ensures SuccessAfter(records + [r], i) <==> SuccessAfter(records, i) || r.Success?
  {
    var all := records + [r];
    if SuccessAfter(records, i) {
      var j :| 0 <= j < |records| && i < j && records[j].Success?;
      assert all[j].Success?;
    }
    if r.Success? {
      assert all[|records|].Success?;
    }
  }

  lemma OpenFailuresAppend(records: seq<Record>, r: Record)
    ensures OpenFailures(records + [r]) ==
      match r
      case Success(_) => {}
      case Failure(_) => OpenFailures(records) + {|records|}
      case Deferred(_) => OpenFailures(records)
  {
    forall i | 0 <= i < |records|
      ensures SuccessAfter(records + [r], i) <==> SuccessAfter(records, i) || r.Success?
    {
      SuccessAfterAppend(records, r, i);
    }
  }

  predicate IsLastSuccess(records: seq<Record>, i: int) {
    0 <= i < |records| && records[i].Success? && forall j :: i < j < |records| ==> !records[j].Success?
  }

  /** After any history, the snapshot's age counts from the last recorded success, and is absent without one. */
  lemma {:induction false} AgeSinceLastSuccess(c: Settings, records: seq<Record>, now: int)
    ensures forall i :: IsLastSuccess(records, i) ==>
      SnapshotOf(Replay(c, records), now).lastSuccessAgeMs ==
        Some(if now < records[i].at then 0 else now - records[i].at)
    ensures SnapshotOf(Replay(c, records), now).lastSuccessAgeMs == None <==>
      forall i :: 0 <= i < |records| ==> !records[i].Success?
  {
    if records != [] {
      var n := |records| - 1;
      var before := records[..n];
      AgeSinceLastSuccess(c, before, now);
      assert forall i :: 0 <= i < n ==> before[i] == records[i];
      if !records[n].Success? {
        forall i | IsLastSuccess(records, i)
          ensures IsLastSuccess(before, i)
        {
        }
      }
    }
  }

  /** After any history, the count is that of the open failures and the wait follows from the last record alone. */
  lemma {:induction false} HistoryDecides(c: Settings, records: seq<Record>)
    ensures Replay(c, records).failureCount == |OpenFailures(records)|
    ensures records != [] ==>
      Replay(c, records).nextEligibleAt == records[|records| - 1].at +
        (if records[|records| - 1].Failure? then RetryDelay(c, |OpenFailures(records)|) else c.normalIntervalMs)
  {
    if records != [] {
      var before, last := records[..|records| - 1], records[|records| - 1];
      assert records == before + [last];
      HistoryDecides(c, before);
      OpenFailuresAppend(before, last);
    }
  }

  // ---------- A driver that asks before it runs ----------

  /** One turn of the scheduler: it asks at `at`; if a pass is due the pass runs and its outcome is recorded. */
  datatype Turn = Turn(at: int, outcome: Record)

  /** Turns do not overlap and the clock does not run backwards. */
  predicate Sequential(turns: seq<Turn>) {
    && (forall i :: 0 <= i < |turns| ==> turns[i].at <= turns[i].outcome.at)
    && (forall i, j :: 0 <= i < j < |turns| ==> turns[i].outcome.at <= turns[j].at)
  }

  function AfterTurn(c: Settings, s: State, t: Turn): State {
    if s.nextEligibleAt <= t.at then After(c, s, t.outcome) else s
  }

  /** One turn of the driver over the mutable schedule. */
  method RunIfDue(schedule: MaintenanceSchedule, t: Turn) returns (ran: bool)
    modifies schedule
    ensures ran <==> old(schedule.View()).nextEligibleAt <= t.at
    ensures schedule.View() == AfterTurn(schedule.settings, old(schedule.View()), t)
  {
    ran := schedule.IsDue(t.at);
    if !ran {
      return;
    }
    match t.outcome {
      case Success(at) => var _ := schedule.RecordSuccess(at);
      case Failure(at) => var _ := schedule.RecordFailure(at);
      case Deferred(at) => var _ := schedule.RecordDeferred(at);
    }
  }

  /** When the passes start. */
  function Starts(c: Settings, s: State, turns: seq<Turn>): seq<int>
    decreases |turns|
  {
    if turns == [] then []
    else
      (if s.nextEligibleAt <= turns[0].at then [turns[0].at] else [])
      + Starts(c, AfterTurn(c, s, turns[0]), turns[1..])
  }

  /** A pass that is due at its turn starts then, and one that is not does not. */
  lemma DuePassesStart(c: Settings, s: State, t: Turn, later: seq<Turn>)
    ensures Starts(c, s, [t] + later) ==
      if t.at < s.nextEligibleAt then Starts(c, s, later) else [t.at] + Starts(c, After(c, s, t.outcome), later)
  {
    assert ([t] + later)[1..] == later;
    assert [] + Starts(c, s, later) == Starts(c, s, later);
  }

  function Shortest(c: Settings): int {
    Min(c.retryBaseMs, c.normalIntervalMs)
  }

  predicate Spaced(starts: seq<int>, gap: int) {
    forall i :: 0 <= i < |starts| - 1 ==> starts[i] + gap <= starts[i + 1]
  }

  lemma EveryWaitIsLong(c: Settings, s: State, r: Record)
    requires c.Sound()
    ensures After(c, s, r).nextEligibleAt >= r.at + Shortest(c)
  {
  }

  lemma {:induction false} StartsAreSpaced(c: Settings, s: State, turns: seq<Turn>)
    requires c.Sound() && Sequential(turns)
    ensures Spaced(Starts(c, s, turns), Shortest(c))
    ensures Starts(c, s, turns) != [] ==> s.nextEligibleAt <= Starts(c, s, turns)[0]
    decreases |turns|
  {
    if turns != [] {
      var s' := AfterTurn(c, s, turns[0]);
      StartsAreSpaced(c, s', turns[1..]);
      if s.nextEligibleAt <= turns[0].at {
        EveryWaitIsLong(c, s, turns[0].outcome);
      }
    }
  }

  lemma {:induction false} SpacedStartsStretch(starts: seq<int>, gap: int, i: nat, j: nat)
    requires Spaced(starts, gap) && i <= j < |starts|
    ensures starts[i] + (j - i) * gap <= starts[j]
    decreases j - i
  {
    if i < j {
      SpacedStartsStretch(starts, gap, i, j - 1);
      assert (j - i) * gap == (j - 1 - i) * gap + gap;
    }
  }

  /** Of passes i to j, all starting within one window, there are at most 1 + window / shortest wait. */
  lemma FewRunsInAnyWindow(c: Settings, turns: seq<Turn>, i: nat, j: nat, window: int)
    requires c.Sound() && Sequential(turns)
    requires i <= j < |Starts(c, FRESH, turns)|
    requires Starts(c, FRESH, turns)[j] <= Starts(c, FRESH, turns)[i] + window
    ensures j - i + 1 <= 1 + window / Shortest(c)
  {
    StartsAreSpaced(c, FRESH, turns);
    SpacedStartsStretch(Starts(c, FRESH, turns), Shortest(c), i, j);
    DivideBound(j - i, Shortest(c), window);
  }

  lemma DivideBound(n: int, gap: int, window: int)
    requires gap >= 1 && n * gap <= window
    ensures n <= window / gap
  {
    if window / gap + 1 <= n {
      ScaleKeepsOrder(window / gap + 1, n, gap);
      assert false;
    }
  }

  lemma ScaleKeepsOrder(a: int, b: int, gap: int)
    requires a <= b && gap >= 1
    ensures a * gap <= b * gap
  {
  }
}
