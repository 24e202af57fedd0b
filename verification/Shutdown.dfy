/**
 Shutting a worker process down: pause, wait for pending work, drain, close, release resources.
 The environment says how long each operation takes and which jobs are active when; the code
 itself takes no time between its waits.
 */
module Shutdown {
  import opened Wrappers

  const MIN_TIMEOUT_MS := 1000
  const MAX_TIMEOUT_MS := 120000

  function Max(a: int, b: int): int {
    if a < b then b else a
  }

  function Min(a: int, b: int): int {
    if a < b then a else b
  }

  function BoundedTimeout(timeoutMs: int): (r: int)
    ensures 1000 <= timeoutMs <= 120000 ==> r == timeoutMs
    ensures timeoutMs < 1000 ==> r == 1000
    ensures 120000 < timeoutMs ==> r == 120000
  {
    Min(Max(timeoutMs, MIN_TIMEOUT_MS), MAX_TIMEOUT_MS)
  }

  /** What becomes of a promise, counted from the moment it is made. */
  datatype Settlement = Never | Settles(after: nat, fulfilled: bool)

  datatype Worker = Worker(pause: Settlement, gracefulClose: Settlement, forcedClose: Settlement)

  /** A timer set at time t fires `lateness(t)` after it is due; `timerFirst` breaks ties against it or for it. */
  datatype Environment = Environment(
    workers: seq<Worker>,
    activeJobs: int -> seq<string>,
    pendingWork: seq<Settlement>,
    resources: Settlement,
    database: Settlement,
    waitIntervalMs: int,
    lateness: int -> nat,
    timerFirst: int -> bool)

  function Pauses(env: Environment): seq<Settlement> {
    seq(|env.workers|, i requires 0 <= i < |env.workers| => env.workers[i].pause)
  }

  function Closes(env: Environment, force: bool): seq<Settlement> {
    seq(|env.workers|, i requires 0 <= i < |env.workers| =>
      if force then env.workers[i].forcedClose else env.workers[i].gracefulClose)
  }

  /** `Promise.allSettled`, fulfilled when every promise is. */
  function AllSettled(ops: seq<Settlement>): Settlement {
    if ops == [] then Settles(0, true)
    else
      match (ops[0], AllSettled(ops[1..]))
      case (Settles(a, x), Settles(b, y)) => Settles(Max(a, b), x && y)
      case _ => Never
  }

  datatype Phase = Phase(ends: int, ok: bool)

  function SettleWithinDeadline(env: Environment, ops: seq<Settlement>, t: int, deadline: int): Phase {
    if ops == [] then Phase(t, true)
    else if deadline - t <= 0 then Phase(t, false)
    else
      var fires := deadline + env.lateness(t);
      match AllSettled(ops)
      case Never => Phase(fires, false)
      case Settles(after, ok) =>
        if t + after < fires || (t + after == fires && !env.timerFirst(t)) then Phase(t + after, ok)
        else Phase(fires, false)
  }

  function WaitForActiveJobs(env: Environment, t: int, deadline: int): Phase
    decreases deadline - t
  {
    if env.activeJobs(t) == [] then Phase(t, true)
    else if deadline - t <= 0 then Phase(t, false)
    else
      var ms := Min(Max(1, env.waitIntervalMs), deadline - t);
      WaitForActiveJobs(env, t + ms + env.lateness(t), deadline)
  }

  /** The calls made on the outside, workers by position. */
  datatype Call = Pause(worker: nat) | Close(worker: nat, force: bool) | CloseResources | DisconnectDatabase

  function PauseCalls(n: nat): seq<Call> {
    seq(n, i requires 0 <= i < n => Pause(i))
  }

  function CloseCalls(n: nat, force: bool): seq<Call> {
    seq(n, i requires 0 <= i < n => Close(i, force))
  }

  datatype Outcome = Outcome(forced: bool, remainingActiveJobs: seq<string>)

  // ---------- The shutdown ----------

  class Runtime {
    const env: Environment
    var clock: int
    var calls: seq<Call>

    constructor (env: Environment, now: int)
      ensures this.env == env && clock == now && calls == []
    {
      this.env, clock, calls := env, now, [];
    }

    method Wait(ms: int)
      modifies this`clock
      ensures clock == old(clock) + ms + env.lateness(old(clock))
    {
      clock := clock + ms + env.lateness(clock);
    }

    /** `Promise.race` between the operations and a timer for what is left of the deadline. */
    method Settle(ops: seq<Settlement>, deadline: int) returns (ok: bool)
      modifies this`clock
      ensures Phase(clock, ok) == SettleWithinDeadline(env, ops, old(clock), deadline)
    {
      if ops == [] {
        return true;
      }
      var remaining := deadline - clock;
      if remaining <= 0 {
        return false;
      }
      var settled := AllSettled(ops);
      if settled.Settles? {
        var fires := remaining + env.lateness(clock);
        if settled.after < fires || (settled.after == fires && !env.timerFirst(clock)) {
          clock := clock + settled.after;
          return settled.fulfilled;
        }
      }
      Wait(remaining);
      ok := false;
    }

    method Drain(deadline: int) returns (ok: bool)
      modifies this`clock
      ensures Phase(clock, ok) == WaitForActiveJobs(env, old(clock), deadline)
      ensures ok <==> env.activeJobs(clock) == []
      ensures !ok ==> deadline <= clock
    {
      while env.activeJobs(clock) != []
        invariant WaitForActiveJobs(env, clock, deadline) == WaitForActiveJobs(env, old(clock), deadline)
        decreases deadline - clock
      {
        var remaining := deadline - clock;
        if remaining <= 0 {
          return false;
        }
        Wait(Min(Max(1, env.waitIntervalMs), remaining));
      }
      ok := true;
    }

    /** `shutdownWorkerRuntime`; it never returns when a pause never settles. */
    method Shutdown(timeoutMs: int) returns (r: Option<Outcome>)
      requires calls == []
      modifies this
      ensures var run := ShutdownFrom(env, old(clock), timeoutMs);
        && r == run.outcome && calls == run.calls
        && (r.Some? ==> clock == run.ends)
      ensures r.Some? ==> r.value.remainingActiveJobs == env.activeJobs(clock)
    {
      hide SettleWithinDeadline, WaitForActiveJobs, AllSettled, BoundedTimeout;
      var deadline := clock + BoundedTimeout(timeoutMs);
      calls := calls + PauseCalls(|env.workers|);
      var paused := AllSettled(Pauses(env));
      if paused.Never? {
        return None;
      }
      clock := clock + paused.after;
      var pendingSettled := Settle(env.pendingWork, deadline);
      var activeDrained := false;
      if pendingSettled {
        activeDrained := Drain(deadline);
      }
      var forced := !paused.fulfilled || !pendingSettled || !activeDrained;
      calls := calls + CloseCalls(|env.workers|, forced);
      var closed := Settle(Closes(env, forced), deadline);
      if !forced {
        forced := !closed;
      }
      calls := calls + [CloseResources];
      var resourcesClosed := Settle([env.resources], deadline);
      calls := calls + [DisconnectDatabase];
      var databaseDisconnected := Settle([env.database], deadline);
      forced := forced || !resourcesClosed || !databaseDisconnected;
      r := Some(Outcome(forced, env.activeJobs(clock)));
    }
  }

  /** A whole shutdown: what it waited for, phase by phase, and what it called. */
  datatype Trace = Trace(
    deadline: int, pausesEnd: int, pending: Phase, drained: Phase, force: bool,
    closed: Phase, resources: Phase, database: Phase)

  function Phases(env: Environment, start: int, timeoutMs: int): Trace
    requires AllSettled(Pauses(env)).Settles?
  {
    var deadline := start + BoundedTimeout(timeoutMs);
    var paused := AllSettled(Pauses(env));
    var pending := SettleWithinDeadline(env, env.pendingWork, start + paused.after, deadline);
    var drained := if pending.ok then WaitForActiveJobs(env, pending.ends, deadline) else Phase(pending.ends, false);
    var force := !paused.fulfilled || !pending.ok || !drained.ok;
    var closed := SettleWithinDeadline(env, Closes(env, force), drained.ends, deadline);
    var resources := SettleWithinDeadline(env, [env.resources], closed.ends, deadline);
    var database := SettleWithinDeadline(env, [env.database], resources.ends, deadline);
    Trace(deadline, start + paused.after, pending, drained, force, closed, resources, database)
  }

  datatype Run = Run(outcome: Option<Outcome>, calls: seq<Call>, ends: int)

  function ShutdownFrom(env: Environment, start: int, timeoutMs: int): Run {
    var n := |env.workers|;
    if AllSettled(Pauses(env)).Never? then Run(None, PauseCalls(n), start)
    else
      var t := Phases(env, start, timeoutMs);
      var forced := t.force || !t.closed.ok || !t.resources.ok || !t.database.ok;
      Run(Some(Outcome(forced, env.activeJobs(t.database.ends))),
              PauseCalls(n) + CloseCalls(n, t.force) + [CloseResources] + [DisconnectDatabase],
              t.database.ends)
  }

  // ---------- Settling ----------

  /** What `AllSettled` promises: it waits for the slowest and needs everyone. */
  lemma {:induction false} AllSettledMeans(ops: seq<Settlement>)
    ensures AllSettled(ops).Never? <==> exists i :: 0 <= i < |ops| && ops[i].Never?
    ensures AllSettled(ops).Settles? ==>
      && (forall i :: 0 <= i < |ops| ==> ops[i].Settles? && ops[i].after <= AllSettled(ops).after)
      && (ops != [] ==> exists i :: 0 <= i < |ops| && ops[i].Settles? && ops[i].after == AllSettled(ops).after)
      && (AllSettled(ops).fulfilled <==> forall i :: 0 <= i < |ops| ==> ops[i].Settles? && ops[i].fulfilled)
  {
    if ops != [] {
      var rest := ops[1..];
      AllSettledMeans(rest);
      assert forall i :: 0 <= i < |rest| ==> rest[i] == ops[i + 1];
      if AllSettled(rest).Never? {
        var i :| 0 <= i < |rest| && rest[i].Never?;
        assert ops[i + 1].Never?;
      } else if AllSettled(ops).Settles? && rest != [] && ops[0].after < AllSettled(rest).after {
        var i :| 0 <= i < |rest| && rest[i].Settles? && rest[i].after == AllSettled(rest).after;
        assert ops[i + 1].after == AllSettled(ops).after;
      } else if AllSettled(ops).Settles? {
        assert ops[0].after == AllSettled(ops).after || rest == [];
      }
    }
  }

  ghost predicate PunctualBy(env: Environment, late: nat) {
    forall t :: env.lateness(t) <= late
  }

  /** Everyone fulfilled, counted from `t`, before the timer due at `deadline` could fire `late` late. */
  predicate AllFulfilledBy(ops: seq<Settlement>, t: int, deadline: int) {
    forall i :: 0 <= i < |ops| ==> ops[i].Settles? && ops[i].fulfilled && t + ops[i].after <= deadline
  }

  lemma SettlingEnds(env: Environment, ops: seq<Settlement>, t: int, deadline: int, late: nat)
    requires env.lateness(t) <= late
    ensures var p := SettleWithinDeadline(env, ops, t, deadline);
      && t <= p.ends <= Max(t, deadline + late)
      && (p.ok ==> AllFulfilledBy(ops, t, deadline + late))
      && (AllFulfilledBy(ops, t, deadline - 1) && t < deadline ==> p.ok)
  {
    AllSettledMeans(ops);
  }

  /** A phase that settles at the instant its timer fires succeeds only if the timer is not served first. */
  lemma SettlingTies(env: Environment, ops: seq<Settlement>, t: int, deadline: int)
    requires ops != [] && t < deadline && AllSettled(ops).Settles?
    requires t + AllSettled(ops).after == deadline + env.lateness(t)
    ensures var p := SettleWithinDeadline(env, ops, t, deadline);
      p.ends == deadline + env.lateness(t) && (p.ok <==> AllSettled(ops).fulfilled && !env.timerFirst(t))
  {
  }

  // ---------- Draining ----------

  lemma {:induction false} DrainingEnds(env: Environment, t: int, deadline: int, late: nat)
    requires PunctualBy(env, late)
    ensures var p := WaitForActiveJobs(env, t, deadline);
      && t <= p.ends <= Max(t, deadline + late)
      && (p.ok <==> env.activeJobs(p.ends) == [])
      && (!p.ok ==> deadline <= p.ends)
    decreases deadline - t
  {
    if env.activeJobs(t) != [] && deadline - t > 0 {
      var ms := Min(Max(1, env.waitIntervalMs), deadline - t);
      assert env.lateness(t) <= late;
      DrainingEnds(env, t + ms + env.lateness(t), deadline, late);
    }
  }

  /** From `done` on no job is active. */
  ghost predicate DoneBy(env: Environment, done: int) {
    forall t :: done <= t ==> env.activeJobs(t) == []
  }

  /** The drain ends at most one poll and its lateness after the jobs are done, and then in success. */
  lemma {:induction false} DrainNoticesSoon(env: Environment, t: int, deadline: int, done: int, late: nat)
    requires PunctualBy(env, late) && DoneBy(env, done)
    ensures var p := WaitForActiveJobs(env, t, deadline);
      && p.ends <= Max(t, done + Max(1, env.waitIntervalMs) + late)
      && (done <= deadline ==> p.ok)
    decreases deadline - t
  {
    if env.activeJobs(t) != [] && deadline - t > 0 {
      var ms := Min(Max(1, env.waitIntervalMs), deadline - t);
      assert env.lateness(t) <= late;
      assert t < done;
      DrainNoticesSoon(env, t + ms + env.lateness(t), deadline, done, late);
    }
  }

  /** While jobs are active, a drain does not look again before a whole interval or the deadline. */
  lemma DrainWaitsAnInterval(env: Environment, t: int, deadline: int)
    requires env.activeJobs(t) != [] && t < deadline
    ensures t + Min(Max(1, env.waitIntervalMs), deadline - t) <= WaitForActiveJobs(env, t, deadline).ends
  {
    var ms := Min(Max(1, env.waitIntervalMs), deadline - t);
    DrainGoesForward(env, t + ms + env.lateness(t), deadline);
  }

  // ---------- The whole shutdown ----------

  /** It returns exactly when every pause settles. */
  lemma ReturnsWhenPausesSettle(env: Environment, start: int, timeoutMs: int)
    ensures ShutdownFrom(env, start, timeoutMs).outcome.Some? <==>
      forall i :: 0 <= i < |env.workers| ==> env.workers[i].pause.Settles?
  {
    var pauses := Pauses(env);
    AllSettledMeans(pauses);
    if AllSettled(pauses).Never? {
      var i :| 0 <= i < |pauses| && pauses[i].Never?;
      assert env.workers[i].pause.Never?;
    } else {
      forall i | 0 <= i < |env.workers|
        ensures env.workers[i].pause.Settles?
      {
        assert pauses[i].Settles?;
      }
    }
  }

  lemma PausesAreAwaitedInFull(env: Environment, i: nat)
    requires AllSettled(Pauses(env)).Settles? && i < |env.workers|
    ensures env.workers[i].pause.Settles? && env.workers[i].pause.after <= AllSettled(Pauses(env)).after
  {
    AllSettledMeans(Pauses(env));
    assert Pauses(env)[i] == env.workers[i].pause;
  }

  lemma LaterPhasesMeetTheDeadline(env: Environment, start: int, timeoutMs: int, late: nat)
    requires PunctualBy(env, late) && AllSettled(Pauses(env)).Settles?
    ensures var t := Phases(env, start, timeoutMs);
      && t.pausesEnd <= t.pending.ends <= t.drained.ends <= t.closed.ends <= t.resources.ends <= t.database.ends
      && t.database.ends <= Max(t.pausesEnd, t.deadline + late)
  {
    var t := Phases(env, start, timeoutMs);
    hide SettleWithinDeadline, WaitForActiveJobs, AllFulfilledBy, AllSettled;
    SettlingEnds(env, env.pendingWork, t.pausesEnd, t.deadline, late);
    DrainingEnds(env, t.pending.ends, t.deadline, late);
    SettlingEnds(env, Closes(env, t.force), t.drained.ends, t.deadline, late);
    SettlingEnds(env, [env.resources], t.closed.ends, t.deadline, late);
    SettlingEnds(env, [env.database], t.resources.ends, t.deadline, late);
  }

  /**
   Pauses are awaited in full, however long they take; after them no phase outlasts the deadline by
   more than the lateness of a timer.
   */
  lemma OnlyPausesOutlastTheDeadline(env: Environment, start: int, timeoutMs: int, late: nat)
    requires PunctualBy(env, late) && ShutdownFrom(env, start, timeoutMs).outcome.Some?
    ensures var t := Phases(env, start, timeoutMs);
      && t.deadline == start + BoundedTimeout(timeoutMs)
      && ShutdownFrom(env, start, timeoutMs).ends == t.database.ends
      && (forall i :: 0 <= i < |env.workers| ==>
            env.workers[i].pause.Settles? && start + env.workers[i].pause.after <= t.pausesEnd)
      && t.pausesEnd <= t.pending.ends <= t.drained.ends <= t.closed.ends <= t.resources.ends <= t.database.ends
      && t.database.ends <= Max(t.pausesEnd, t.deadline + late)
      && (t.database.ends <= t.deadline + late <==> t.pausesEnd <= t.deadline + late)
  {
    hide SettleWithinDeadline, WaitForActiveJobs, AllSettled, BoundedTimeout;
    LaterPhasesMeetTheDeadline(env, start, timeoutMs, late);
    forall i | 0 <= i < |env.workers|
      ensures env.workers[i].pause.Settles?
      ensures env.workers[i].pause.after <= AllSettled(Pauses(env)).after
    {
      PausesAreAwaitedInFull(env, i);
    }
  }

  /** An earlier phase failed: a pause was rejected, or pending work or active jobs did not finish. */
  predicate FailedEarly(env: Environment, t: Trace) {
    || (exists i :: 0 <= i < |env.workers| && env.workers[i].pause.Settles? && !env.workers[i].pause.fulfilled)
    || !t.pending.ok
    || env.activeJobs(t.drained.ends) != []
  }

  lemma ForceMeansFailedEarly(env: Environment, start: int, timeoutMs: int)
    requires ShutdownFrom(env, start, timeoutMs).outcome.Some?
    ensures var t := Phases(env, start, timeoutMs);
      t.force <==> FailedEarly(env, t)
  {
    var t := Phases(env, start, timeoutMs);
    hide SettleWithinDeadline, WaitForActiveJobs;
    var pauses := Pauses(env);
    AllSettledMeans(pauses);
    assert forall i :: 0 <= i < |env.workers| ==> pauses[i] == env.workers[i].pause;
    DrainOk(env, t.pending.ends, t.deadline);
  }

  lemma {:induction false} DrainOk(env: Environment, t: int, deadline: int)
    ensures var p := WaitForActiveJobs(env, t, deadline); p.ok <==> env.activeJobs(p.ends) == []
    decreases deadline - t
  {
    if env.activeJobs(t) != [] && deadline - t > 0 {
      var ms := Min(Max(1, env.waitIntervalMs), deadline - t);
      DrainOk(env, t + ms + env.lateness(t), deadline);
    }
  }

  /** An unforced shutdown did everything in time, and found no active job at some moment before the deadline. */
  lemma UnforcedMeansAllSucceeded(env: Environment, start: int, timeoutMs: int, late: nat)
    requires PunctualBy(env, late)
    requires var r := ShutdownFrom(env, start, timeoutMs).outcome; r.Some? && !r.value.forced
    ensures var t := Phases(env, start, timeoutMs);
      var limit := t.deadline + late;
      && (forall i :: 0 <= i < |env.workers| ==> env.workers[i].pause.Settles? && env.workers[i].pause.fulfilled)
      && AllFulfilledBy(env.pendingWork, t.pausesEnd, limit)
      && env.activeJobs(t.drained.ends) == [] && t.drained.ends <= Max(t.pausesEnd, limit)
      && (forall i :: 0 <= i < |env.workers| ==>
            && env.workers[i].gracefulClose.Settles? && env.workers[i].gracefulClose.fulfilled
            && t.drained.ends + env.workers[i].gracefulClose.after <= limit)
      && AllFulfilledBy([env.resources], t.closed.ends, limit)
      && AllFulfilledBy([env.database], t.resources.ends, limit)
  {
    var t := Phases(env, start, timeoutMs);
    hide SettleWithinDeadline, WaitForActiveJobs, AllFulfilledBy;
    ForceMeansFailedEarly(env, start, timeoutMs);
    OnlyPausesOutlastTheDeadline(env, start, timeoutMs, late);
    ReturnsWhenPausesSettle(env, start, timeoutMs);
    SettlingEnds(env, env.pendingWork, t.pausesEnd, t.deadline, late);
    DrainingEnds(env, t.pending.ends, t.deadline, late);
    SettlingEnds(env, Closes(env, false), t.drained.ends, t.deadline, late);
    GracefulClosesFulfilled(env, t.drained.ends, t.deadline + late);
    SettlingEnds(env, [env.resources], t.closed.ends, t.deadline, late);
    SettlingEnds(env, [env.database], t.resources.ends, t.deadline, late);
  }

  lemma GracefulClosesFulfilled(env: Environment, t: int, limit: int)
    requires AllFulfilledBy(Closes(env, false), t, limit)
    ensures forall i :: 0 <= i < |env.workers| ==>
      && env.workers[i].gracefulClose.Settles? && env.workers[i].gracefulClose.fulfilled
      && t + env.workers[i].gracefulClose.after <= limit
  {
    assert forall i :: 0 <= i < |env.workers| ==> Closes(env, false)[i] == env.workers[i].gracefulClose;
  }

  /** A forced shutdown waits for the forced closes, as long as the deadline lets it. */
  lemma ForcedClosesAreAwaited(env: Environment, start: int, timeoutMs: int, late: nat, i: nat)
    requires PunctualBy(env, late) && i < |env.workers|
    requires AllSettled(Pauses(env)).Settles? && Phases(env, start, timeoutMs).force
    requires Phases(env, start, timeoutMs).closed.ok
    ensures var t := Phases(env, start, timeoutMs);
      && env.workers[i].forcedClose.Settles? && env.workers[i].forcedClose.fulfilled
      && t.drained.ends + env.workers[i].forcedClose.after <= t.deadline + late
  {
    var t := Phases(env, start, timeoutMs);
    hide WaitForActiveJobs, SettleWithinDeadline;
    SettlingEnds(env, Closes(env, true), t.drained.ends, t.deadline, late);
    assert Closes(env, true)[i] == env.workers[i].forcedClose;
  }

  /** Conversely, when every phase finishes before the deadline, the shutdown is unforced. */
  lemma TimelySuccessIsUnforced(env: Environment, start: int, timeoutMs: int)
    requires ShutdownFrom(env, start, timeoutMs).outcome.Some?
    requires forall i :: 0 <= i < |env.workers| ==> env.workers[i].pause.Settles? && env.workers[i].pause.fulfilled
    requires var t := Phases(env, start, timeoutMs);
      && t.resources.ends < t.deadline
      && AllFulfilledBy(env.pendingWork, t.pausesEnd, t.deadline - 1)
      && env.activeJobs(t.drained.ends) == []
      && AllFulfilledBy(Closes(env, false), t.drained.ends, t.deadline - 1)
      && AllFulfilledBy([env.resources], t.closed.ends, t.deadline - 1)
      && AllFulfilledBy([env.database], t.resources.ends, t.deadline - 1)
    ensures !ShutdownFrom(env, start, timeoutMs).outcome.value.forced
  {
    var t := Phases(env, start, timeoutMs);
    hide SettleWithinDeadline, WaitForActiveJobs, AllFulfilledBy;
    ForceMeansFailedEarly(env, start, timeoutMs);
    PhasesFollowEachOther(env, start, timeoutMs);
    SettlingEnds(env, env.pendingWork, t.pausesEnd, t.deadline, env.lateness(t.pausesEnd));
    SettlingEnds(env, Closes(env, t.force), t.drained.ends, t.deadline, env.lateness(t.drained.ends));
    SettlingEnds(env, [env.resources], t.closed.ends, t.deadline, env.lateness(t.closed.ends));
    SettlingEnds(env, [env.database], t.resources.ends, t.deadline, env.lateness(t.resources.ends));
  }

  lemma {:induction false} DrainGoesForward(env: Environment, t: int, deadline: int)
    ensures t <= WaitForActiveJobs(env, t, deadline).ends
    decreases deadline - t
  {
    if env.activeJobs(t) != [] && deadline - t > 0 {
      DrainGoesForward(env, t + Min(Max(1, env.waitIntervalMs), deadline - t) + env.lateness(t), deadline);
    }
  }

  lemma PhasesFollowEachOther(env: Environment, start: int, timeoutMs: int)
    requires AllSettled(Pauses(env)).Settles?
    ensures var t := Phases(env, start, timeoutMs);
      t.pausesEnd <= t.pending.ends <= t.drained.ends <= t.closed.ends <= t.resources.ends <= t.database.ends
  {
    var t := Phases(env, start, timeoutMs);
    hide WaitForActiveJobs;
    DrainGoesForward(env, t.pending.ends, t.deadline);
  }

  /** Every worker is paused once and later closed once, with force exactly when an earlier phase failed. */
  lemma EachWorkerIsClosedOnce(env: Environment, start: int, timeoutMs: int, w: nat)
    requires ShutdownFrom(env, start, timeoutMs).outcome.Some? && w < |env.workers|
    ensures var calls, n := ShutdownFrom(env, start, timeoutMs).calls, |env.workers|;
      var force := FailedEarly(env, Phases(env, start, timeoutMs));
      && |calls| == 2 * n + 2
      && (forall i :: 0 <= i < |calls| ==> (calls[i] == Pause(w) <==> i == w))
      && (forall i :: 0 <= i < |calls| ==> (calls[i].Close? && calls[i].worker == w <==> i == n + w))
      && calls[n + w] == Close(w, force)
      && calls[2 * n] == CloseResources && calls[2 * n + 1] == DisconnectDatabase
  {
    hide SettleWithinDeadline, WaitForActiveJobs, FailedEarly;
    ForceMeansFailedEarly(env, start, timeoutMs);
  }
}
