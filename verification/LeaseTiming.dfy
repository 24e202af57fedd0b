/**
 The timing bound of the lease. If every command is answered within a round-trip
 bound and interval callbacks are not too late, the key never expires under a lease
 that is neither lost nor releasing, although a tick that finds a renewal in flight
 is skipped.
 */
module LeaseTiming {
  import opened Wrappers
  import opened LeaseRedis
  import opened LeaseLocal
  import opened LeaseSystem

  /** Every command is answered in less than `roundTrip`; a tick is at most `lateness` late. */
  datatype Timing = Timing(roundTrip: nat, lateness: nat)

  predicate Fits(cfg: Config, timing: Timing) {
    0 < timing.roundTrip && 2 * timing.roundTrip + cfg.renewInterval + timing.lateness <= cfg.ttl
  }

  /** No awaited reply of the run is overdue, and neither is its next tick. */
  predicate Timely(s: System, t: Token, timing: Timing) {
    t in s.runs ==>
      var r := s.runs[t];
      match r.stage
      case Requesting =>
        !r.setNet.Idle? ==> s.redis.now < r.setNet.since + timing.roundTrip
      case Leased(lease, _, _, _, nextTick) =>
        && (lease.renewalPending && !r.renewNet.Idle? ==> s.redis.now < r.renewNet.since + timing.roundTrip)
        && (lease.Live() ==> s.redis.now <= nextTick + timing.lateness)
      case NotAcquired => true
  }

  predicate TimelyRun(s: System, events: seq<Event>, t: Token, cfg: Config, timing: Timing)
    decreases |events|
  {
    && Timely(s, t, timing)
    && (events != [] && Enabled(s, events[0]) ==> TimelyRun(Apply(s, events[0], cfg), events[1..], t, cfg, timing))
  }

  /** The key carries token t and expires at e. */
  predicate Holds(r: Redis, t: Token, e: nat) {
    r.key == Some(Held(t, e)) && r.now < e
  }

  /** How long the key is still good for, by what the run is waiting for. */
  predicate RunCovered(r: Run, t: Token, redis: Redis, cfg: Config, timing: Timing) {
    match r.stage
    case Requesting =>
      r.setNet.Executed? && r.setNet.pos < |redis.log| && redis.log[r.setNet.pos].ok ==>
        Holds(redis, t, redis.log[r.setNet.pos].at + cfg.ttl)
    case Leased(lease, _, _, _, nextTick) =>
      && lease.lost != Some(OwnershipLost)
      && (lease.lost.None? && (lease.Live() || lease.renewalPending) ==>
            && nextTick <= redis.now + cfg.renewInterval
            && redis.key.Some? && Holds(redis, t, redis.key.value.expiresAt)
            && var expiresAt := redis.key.value.expiresAt;
               if !lease.renewalPending then nextTick + timing.lateness + timing.roundTrip <= expiresAt
               else if r.renewNet.Sent? then r.renewNet.since + timing.roundTrip <= expiresAt
               else r.renewNet.Executed? && r.renewNet.pos < |redis.log| && redis.log[r.renewNet.pos].ok
                    && expiresAt == redis.log[r.renewNet.pos].at + cfg.ttl)
    case NotAcquired => true
  }

  predicate Covered(s: System, t: Token, cfg: Config, timing: Timing) {
    t in s.runs ==> RunCovered(s.runs[t], t, s.redis, cfg, timing)
  }

  /** Redis executes a command of this run, or one of another run that fails. */
  lemma ExecutionKeepsCovered(
    r: Run, token: Token, command: Command, redis: Redis, t: Token, cfg: Config, timing: Timing)
    requires Fits(cfg, timing) && RunInv(r, t, redis.log) && SentInThePast(r, redis.now)
    requires t == token ==> NetOf(r, command).Sent?
    requires RunCovered(r, t, redis, cfg, timing)
    ensures var redis' := Execute(redis, token, command, cfg.ttl);
            var r' := if t == token then WithNet(r, command, Executed(NetOf(r, command).since, |redis.log|)) else r;
            RunCovered(r', t, redis', cfg, timing)
  {
  }

  lemma TimeKeepsCovered(s: System, delta: nat, t: Token, cfg: Config, timing: Timing)
    requires Fits(cfg, timing)
    requires t in s.runs && RunInv(s.runs[t], t, s.redis.log)
    requires Covered(s, t, cfg, timing)
    requires Timely(Apply(s, TimePasses(delta), cfg), t, timing)
    ensures Covered(Apply(s, TimePasses(delta), cfg), t, cfg, timing)
  {
  }

  /** The SET reply starts the first interval within a round trip of the execution. */
  lemma SetReplyKeepsCovered(s: System, t: Token, cfg: Config, timing: Timing)
    requires Fits(cfg, timing) && Enabled(s, SetReplied(t))
    requires RunInv(s.runs[t], t, s.redis.log)
    requires Covered(s, t, cfg, timing) && Timely(s, t, timing)
    ensures Covered(Apply(s, SetReplied(t), cfg), t, cfg, timing)
  {
  }

  /** A tick sends a renewal in time or is skipped because one is in flight. */
  lemma TickKeepsCovered(s: System, t: Token, cfg: Config, timing: Timing)
    requires Fits(cfg, timing) && Enabled(s, IntervalFired(t))
    requires RunInv(s.runs[t], t, s.redis.log)
    requires Covered(s, t, cfg, timing) && Timely(s, t, timing)
    ensures Covered(Apply(s, IntervalFired(t), cfg), t, cfg, timing)
  {
  }

  /** The renewal's reply comes within a round trip of its execution, and reports success. */
  lemma RenewReplyKeepsCovered(s: System, t: Token, cfg: Config, timing: Timing)
    requires Fits(cfg, timing) && Enabled(s, RenewReplied(t))
    requires RunInv(s.runs[t], t, s.redis.log)
    requires Covered(s, t, cfg, timing) && Timely(s, t, timing)
    ensures Covered(Apply(s, RenewReplied(t), cfg), t, cfg, timing)
  {
  }

  lemma WorkerStepKeepsCovered(s: System, e: Event, t: Token, cfg: Config, timing: Timing)
    requires Enabled(s, e) && Affects(s, e) == Some(t) && (e.ConnectionChanged? || e.CloseCalled?)
    requires t in s.runs ==> RunInv(s.runs[t], t, s.redis.log)
    requires Covered(s, t, cfg, timing)
    ensures Covered(Apply(s, e, cfg), t, cfg, timing)
  {
    LocalStepLeavesRedis(s, e, cfg);
  }

  /** Every other event can only make the lease lost, releasing, or leave it alone. */
  lemma OtherStepKeepsCovered(s: System, e: Event, t: Token, cfg: Config, timing: Timing)
    requires Enabled(s, e) && Affects(s, e) == Some(t)
    requires !(e.ExecuteCommand? || e.TimePasses? || e.SetReplied? || e.IntervalFired? || e.RenewReplied?)
    requires !(e.ConnectionChanged? || e.CloseCalled?)
    requires t in s.runs ==> RunInv(s.runs[t], t, s.redis.log)
    requires Covered(s, t, cfg, timing)
    ensures Covered(Apply(s, e, cfg), t, cfg, timing)
  {
  }

  lemma UntouchedRunStaysCovered(s: System, e: Event, t: Token, cfg: Config, timing: Timing)
    requires Enabled(s, e) && !e.ExecuteCommand? && !e.TimePasses? && Affects(s, e) != Some(t)
    requires Covered(s, t, cfg, timing)
    ensures Covered(Apply(s, e, cfg), t, cfg, timing)
  {
    OtherRunsUntouched(s, e, cfg, t);
    LocalStepLeavesRedis(s, e, cfg);
  }

  lemma ExecuteStepKeepsCovered(s: System, token: Token, command: Command, t: Token, cfg: Config, timing: Timing)
    requires Fits(cfg, timing) && Enabled(s, ExecuteCommand(token, command))
    requires t in s.runs ==> RunInv(s.runs[t], t, s.redis.log) && SentInThePast(s.runs[t], s.redis.now)
    requires Covered(s, t, cfg, timing)
    ensures Covered(Apply(s, ExecuteCommand(token, command), cfg), t, cfg, timing)
  {
    if t in s.runs {
      ExecutionKeepsCovered(s.runs[t], token, command, s.redis, t, cfg, timing);
    }
  }

  lemma StepKeepsCovered(s: System, e: Event, t: Token, cfg: Config, timing: Timing)
    requires Fits(cfg, timing) && Inv(s, cfg) && Enabled(s, e)
    requires Covered(s, t, cfg, timing) && Timely(s, t, timing)
    requires Timely(Apply(s, e, cfg), t, timing)
    ensures Covered(Apply(s, e, cfg), t, cfg, timing)
  {
    if t in s.runs {
      assert RunInv(s.runs[t], t, s.redis.log) && SentInThePast(s.runs[t], s.redis.now);
    }
    if e.ExecuteCommand? {
      ExecuteStepKeepsCovered(s, e.token, e.command, t, cfg, timing);
    } else if e.TimePasses? {
      if t in s.runs {
        TimeKeepsCovered(s, e.delta, t, cfg, timing);
      }
    } else if Affects(s, e) != Some(t) {
      UntouchedRunStaysCovered(s, e, t, cfg, timing);
    } else if e.SetReplied? {
      SetReplyKeepsCovered(s, t, cfg, timing);
    } else if e.IntervalFired? {
      TickKeepsCovered(s, t, cfg, timing);
    } else if e.RenewReplied? {
      RenewReplyKeepsCovered(s, t, cfg, timing);
    } else if e.ConnectionChanged? || e.CloseCalled? {
      WorkerStepKeepsCovered(s, e, t, cfg, timing);
    } else {
      OtherStepKeepsCovered(s, e, t, cfg, timing);
    }
  }

  lemma {:induction false} TimelyRunKeepsCovered(s: System, events: seq<Event>, t: Token, cfg: Config, timing: Timing)
    requires Fits(cfg, timing) && Inv(s, cfg) && Exec(s, events, cfg).Some?
    requires Covered(s, t, cfg, timing) && TimelyRun(s, events, t, cfg, timing)
    ensures Covered(Exec(s, events, cfg).value, t, cfg, timing)
    decreases |events|
  {
    if events != [] {
      StepKeepsInv(s, events[0], cfg);
      StepKeepsCovered(s, events[0], t, cfg, timing);
      TimelyRunKeepsCovered(Apply(s, events[0], cfg), events[1..], t, cfg, timing);
    }
  }

  /**
   In a run that is timely for a lease, the key never expires and is never taken while
   the lease is neither lost nor releasing, and no renewal ever reports it as not owned.
   */
  lemma KeyNeverExpiresUnderLiveLease(events: seq<Event>, t: Token, cfg: Config, timing: Timing)
    requires Fits(cfg, timing)
    requires Exec(INITIAL, events, cfg).Some? && TimelyRun(INITIAL, events, t, cfg, timing)
    requires var s := Exec(INITIAL, events, cfg).value;
             t in s.runs && s.runs[t].stage.Leased?
    ensures var s := Exec(INITIAL, events, cfg).value;
            var lease := s.runs[t].stage.lease;
            (lease.Live() ==> Visible(s.redis) == Some(t)) && lease.lost != Some(OwnershipLost)
  {
    TimelyRunKeepsCovered(INITIAL, events, t, cfg, timing);
  }

  /**
   With a renewal interval of floor(ttl / 3), round trips shorter than that interval
   and punctual ticks are enough. The production ttl is five minutes.
   */
  lemma ThirdOfTtlIsEnough(events: seq<Event>, t: Token, ttl: nat)
    requires 3 <= ttl
    requires var cfg := Config(ttl, ttl / 3);
             Exec(INITIAL, events, cfg).Some? && TimelyRun(INITIAL, events, t, cfg, Timing(ttl / 3, 0))
             && var s := Exec(INITIAL, events, cfg).value;
                t in s.runs && s.runs[t].stage.Leased? && s.runs[t].stage.lease.Live()
    ensures Visible(Exec(INITIAL, events, Config(ttl, ttl / 3)).value.redis) == Some(t)
  {
    KeyNeverExpiresUnderLiveLease(events, t, Config(ttl, ttl / 3), Timing(ttl / 3, 0));
  }

  /** Under the timing hypothesis `assertHeld` does mean mutual exclusion. */
  lemma TimelyLeasesExclude(events: seq<Event>, a: Token, b: Token, cfg: Config, timing: Timing)
    requires Fits(cfg, timing) && Exec(INITIAL, events, cfg).Some?
    requires TimelyRun(INITIAL, events, a, cfg, timing) && TimelyRun(INITIAL, events, b, cfg, timing)
    requires var s := Exec(INITIAL, events, cfg).value;
             && a in s.runs && s.runs[a].stage.Leased? && s.runs[a].stage.lease.Live()
             && b in s.runs && s.runs[b].stage.Leased? && s.runs[b].stage.lease.Live()
    ensures a == b
  {
    KeyNeverExpiresUnderLiveLease(events, a, cfg, timing);
    KeyNeverExpiresUnderLiveLease(events, b, cfg, timing);
  }

  // ---------- Timely runs exist ----------

  /** Two runs one after the other. */
  lemma {:induction false} TimelyConcat(s: System, a: seq<Event>, b: seq<Event>, t: Token, cfg: Config, timing: Timing)
    requires Exec(s, a, cfg).Some? && TimelyRun(s, a, t, cfg, timing)
    requires TimelyRun(Exec(s, a, cfg).value, b, t, cfg, timing)
    ensures TimelyRun(s, a + b, t, cfg, timing)
    ensures Exec(s, a + b, cfg) == Exec(Exec(s, a, cfg).value, b, cfg)
    decreases |a|
  {
    hide Enabled, Apply, Timely;
    if a == [] {
      assert a + b == b;
    } else {
      assert (a + b)[1..] == a[1..] + b;
      TimelyConcat(Apply(s, a[0], cfg), a[1..], b, t, cfg, timing);
    }
  }

  lemma TimelyTwo(s: System, a: Event, b: Event, t: Token, cfg: Config, timing: Timing)
    requires Enabled(s, a) && Enabled(Apply(s, a, cfg), b)
    requires Timely(s, t, timing) && Timely(Apply(s, a, cfg), t, timing)
    requires Timely(Apply(Apply(s, a, cfg), b, cfg), t, timing)
    ensures TimelyRun(s, [a, b], t, cfg, timing)
    ensures Exec(s, [a, b], cfg) == Some(Apply(Apply(s, a, cfg), b, cfg))
  {
    hide Enabled, Apply, Timely;
    var s1, s2 := Apply(s, a, cfg), Apply(Apply(s, a, cfg), b, cfg);
    assert [a, b][1..] == [b];
    assert |[b][1..]| == 0;
    assert Exec(s1, [b], cfg) == Some(s2) && TimelyRun(s1, [b], t, cfg, timing);
  }

  lemma AsksForKey(w: Worker, t: Token, cfg: Config, timing: Timing) returns (s: System)
    requires Fits(cfg, timing)
    ensures Exec(INITIAL, [ConnectionChanged(w, true), BeginRun(w, t)], cfg) == Some(s)
    ensures TimelyRun(INITIAL, [ConnectionChanged(w, true), BeginRun(w, t)], t, cfg, timing)
    ensures s.redis == EMPTY && s.locks == map[w := Lock(false, None, true)] && s.crashed == {}
    ensures s.runs == map[t := Run(w, Requesting, Sent(0), Idle, Idle)]
  {
    hide Exec, TimelyRun;
    TimelyTwo(INITIAL, ConnectionChanged(w, true), BeginRun(w, t), t, cfg, timing);
    s := Apply(Apply(INITIAL, ConnectionChanged(w, true), cfg), BeginRun(w, t), cfg);
  }

  lemma GetsKey(s: System, w: Worker, t: Token, cfg: Config, timing: Timing) returns (s': System)
    requires Fits(cfg, timing)
    requires s.redis == EMPTY && s.locks == map[w := Lock(false, None, true)] && s.crashed == {}
    requires s.runs == map[t := Run(w, Requesting, Sent(0), Idle, Idle)]
    ensures Exec(s, [ExecuteCommand(t, SetNx), SetReplied(t)], cfg) == Some(s')
    ensures TimelyRun(s, [ExecuteCommand(t, SetNx), SetReplied(t)], t, cfg, timing)
    ensures s'.redis == Execute(EMPTY, t, SetNx, cfg.ttl) && s'.crashed == {}
    ensures s'.runs ==
      map[t := Run(w, Leased(ACQUIRED, Running, 0, 0, cfg.renewInterval), Executed(0, 0), Idle, Idle)]
  {
    hide Exec, TimelyRun;
    TimelyTwo(s, ExecuteCommand(t, SetNx), SetReplied(t), t, cfg, timing);
    s' := Apply(Apply(s, ExecuteCommand(t, SetNx), cfg), SetReplied(t), cfg);
  }

  lemma AsksForRenewal(s: System, w: Worker, t: Token, cfg: Config, timing: Timing) returns (s': System)
    requires Fits(cfg, timing)
    requires s.redis == Execute(EMPTY, t, SetNx, cfg.ttl) && s.crashed == {}
    requires s.runs == map[t := Run(w, Leased(ACQUIRED, Running, 0, 0, cfg.renewInterval), Executed(0, 0), Idle, Idle)]
    ensures Exec(s, [TimePasses(cfg.renewInterval), IntervalFired(t)], cfg) == Some(s')
    ensures TimelyRun(s, [TimePasses(cfg.renewInterval), IntervalFired(t)], t, cfg, timing)
    ensures s'.redis == s.redis.(now := cfg.renewInterval) && s'.crashed == {}
    ensures s'.runs ==
      map[t := Run(w, Leased(ACQUIRED.(renewalPending := true), Running, 0, 0, 2 * cfg.renewInterval),
                   Executed(0, 0), Sent(cfg.renewInterval), Idle)]
  {
    hide Exec, TimelyRun;
    TimelyTwo(s, TimePasses(cfg.renewInterval), IntervalFired(t), t, cfg, timing);
    s' := Apply(Apply(s, TimePasses(cfg.renewInterval), cfg), IntervalFired(t), cfg);
  }

  lemma GetsRenewed(s: System, w: Worker, t: Token, cfg: Config, timing: Timing) returns (s': System)
    requires Fits(cfg, timing)
    requires s.redis == Execute(EMPTY, t, SetNx, cfg.ttl).(now := cfg.renewInterval) && s.crashed == {}
    requires s.runs ==
      map[t := Run(w, Leased(ACQUIRED.(renewalPending := true), Running, 0, 0, 2 * cfg.renewInterval),
                   Executed(0, 0), Sent(cfg.renewInterval), Idle)]
    ensures Exec(s, [ExecuteCommand(t, Renew), RenewReplied(t)], cfg) == Some(s')
    ensures TimelyRun(s, [ExecuteCommand(t, Renew), RenewReplied(t)], t, cfg, timing)
    ensures t in s'.runs && s'.runs[t].stage == Leased(ACQUIRED, Running, 0, 1, 2 * cfg.renewInterval)
  {
    hide Exec, TimelyRun;
    TimelyTwo(s, ExecuteCommand(t, Renew), RenewReplied(t), t, cfg, timing);
    s' := Apply(Apply(s, ExecuteCommand(t, Renew), cfg), RenewReplied(t), cfg);
  }

  /** For all periods that fit there is a timely run in which a lease is acquired, renewed and live. */
  lemma TimelyRunsExist(w: Worker, t: Token, cfg: Config, timing: Timing) returns (events: seq<Event>)
    requires Fits(cfg, timing)
    ensures Exec(INITIAL, events, cfg).Some? && TimelyRun(INITIAL, events, t, cfg, timing)
    ensures var s := Exec(INITIAL, events, cfg).value;
      t in s.runs && s.runs[t].stage.Leased? && s.runs[t].stage.lease.Live() && RenewReplied(t) in events
  {
    var s1 := AsksForKey(w, t, cfg, timing);
    var s2 := GetsKey(s1, w, t, cfg, timing);
    var s3 := AsksForRenewal(s2, w, t, cfg, timing);
    var s4 := GetsRenewed(s3, w, t, cfg, timing);
    hide Exec, TimelyRun;
    var a, b := [ConnectionChanged(w, true), BeginRun(w, t)], [ExecuteCommand(t, SetNx), SetReplied(t)];
    var c, d := [TimePasses(cfg.renewInterval), IntervalFired(t)], [ExecuteCommand(t, Renew), RenewReplied(t)];
    TimelyConcat(s2, c, d, t, cfg, timing);
    TimelyConcat(s1, b, c + d, t, cfg, timing);
    TimelyConcat(INITIAL, a, b + (c + d), t, cfg, timing);
    events := a + (b + (c + d));
    assert d[1] in events;
  }
}
