/**
 What the lease protocol guarantees over every run, without any assumption on
 timing, and the one thing it does not guarantee: `assertHeld` alone is not
 mutual exclusion.
 */
module LeaseSafety {
  import opened Wrappers
  import opened LeaseRedis
  import opened LeaseLocal
  import opened LeaseSystem

  lemma LogIsSetOnce(s: System, cfg: Config)
    requires Inv(s, cfg)
    ensures SetOnce(s.redis.log)
  {
  }

  /**
   The confirmed holding intervals of two leases never overlap: one ends before the
   other begins, both in the serial order of Redis and on its clock.
   */
  lemma ConfirmedIntervalsDisjoint(s: System, cfg: Config, a: Token, b: Token)
    requires Reachable(s, cfg) && a != b
    requires a in s.runs && s.runs[a].stage.Leased?
    requires b in s.runs && s.runs[b].stage.Leased?
    ensures var x, y, log := s.runs[a].stage, s.runs[b].stage, s.redis.log;
            && x.confirmedTo < |log| && y.confirmedTo < |log|
            && x.confirmedFrom < |log| && y.confirmedFrom < |log|
            && ((x.confirmedTo < y.confirmedFrom && log[x.confirmedTo].at <= log[y.confirmedFrom].at)
                || (y.confirmedTo < x.confirmedFrom && log[y.confirmedTo].at <= log[x.confirmedFrom].at))
  {
    ReachableInv(s, cfg);
    LogIsSetOnce(s, cfg);
    assert RunInv(s.runs[a], a, s.redis.log) && RunInv(s.runs[b], b, s.redis.log);
    var x, y, log := s.runs[a].stage, s.runs[b].stage, s.redis.log;
    if x.confirmedFrom < y.confirmedFrom <= x.confirmedTo {
      HoldingsAreContiguous(log, x.confirmedFrom, y.confirmedFrom, x.confirmedTo, cfg.ttl);
    } else if y.confirmedFrom < x.confirmedFrom <= y.confirmedTo {
      HoldingsAreContiguous(log, y.confirmedFrom, x.confirmedFrom, y.confirmedTo, cfg.ttl);
    }
  }

  /** A lease confirmed less than ttl ago and not yet released by script is the last holder. */
  lemma RecentLeaseIsLast(s: System, cfg: Config, a: Token, k: nat)
    requires Inv(s, cfg)
    requires a in s.runs && s.runs[a].stage.Leased? && s.runs[a].releaseNet.Idle?
    requires s.runs[a].stage.confirmedTo <= k < |s.redis.log| && s.redis.log[k].ok
    requires s.redis.now < s.redis.log[s.runs[a].stage.confirmedTo].at + cfg.ttl
    ensures s.redis.log[k].token == a
  {
    assert RunInv(s.runs[a], a, s.redis.log);
    forall m | 0 <= m < |s.redis.log| && s.redis.log[m].token == a
      ensures !s.redis.log[m].command.Release?
    {
      assert s.redis.log[m].token in s.runs;
    }
    RecentSuccessIsLast(s.redis, s.runs[a].stage.confirmedTo, k, cfg.ttl);
  }

  /**
   At every instant at most one lease is neither lost nor releasing and was last
   confirmed by Redis less than ttl ago, and the key then still carries its token.
   */
  lemma AtMostOneRecentlyConfirmed(s: System, cfg: Config, a: Token, b: Token)
    requires Reachable(s, cfg)
    requires a in s.runs && s.runs[a].stage.Leased? && s.runs[a].stage.lease.Live()
    requires b in s.runs && s.runs[b].stage.Leased? && s.runs[b].stage.lease.Live()
    requires s.runs[a].stage.confirmedTo < |s.redis.log| && s.runs[b].stage.confirmedTo < |s.redis.log|
    requires s.redis.now < s.redis.log[s.runs[a].stage.confirmedTo].at + cfg.ttl
    requires s.redis.now < s.redis.log[s.runs[b].stage.confirmedTo].at + cfg.ttl
    ensures a == b
    ensures Visible(s.redis) == Some(a)
  {
    ReachableInv(s, cfg);
    assert RunInv(s.runs[a], a, s.redis.log) && RunInv(s.runs[b], b, s.redis.log);
    var p := LastOk(s.redis.log);
    RecentLeaseIsLast(s, cfg, a, p);
    RecentLeaseIsLast(s, cfg, b, p);
    assert s.redis.log[s.runs[a].stage.confirmedTo].at <= s.redis.log[p].at;
    assert s.redis.log[p].token in s.runs;
  }

  /** The last success that Redis executed for a token, told to its worker or not. */
  ghost predicate LastSuccessOf(log: seq<Entry>, t: Token, p: nat) {
    && p < |log| && log[p].ok && log[p].token == t
    && forall j :: p < j < |log| && log[j].ok ==> log[j].token != t
  }

  /**
   A lease that passes `assertHeld` really holds the key exactly while its last executed
   SET or renewal is younger than ttl.
   */
  lemma LiveLeaseHoldsExactly(s: System, cfg: Config, a: Token, p: nat)
    requires Reachable(s, cfg)
    requires a in s.runs && s.runs[a].stage.Leased? && s.runs[a].stage.lease.Live()
    requires LastSuccessOf(s.redis.log, a, p)
    ensures Visible(s.redis) == Some(a) <==> s.redis.now < s.redis.log[p].at + cfg.ttl
  {
    ReachableInv(s, cfg);
    assert RunInv(s.runs[a], a, s.redis.log);
    forall m | 0 <= m < |s.redis.log| && s.redis.log[m].token == a
      ensures !s.redis.log[m].command.Release?
    {
      assert s.redis.log[m].token in s.runs;
    }
    var q := LastOk(s.redis.log);
    assert p <= q;
    if s.redis.now < s.redis.log[p].at + cfg.ttl {
      RecentSuccessIsLast(s.redis, p, q, cfg.ttl);
      assert q == p;
    }
  }

  lemma ExecutionKeepsGone(r: Redis, token: Token, command: Command, ttl: nat, t: Token)
    requires Visible(r) != Some(t) && (token == t ==> !command.SetNx?)
    ensures Visible(Execute(r, token, command, ttl)) != Some(t)
  {
  }

  /** One step cannot make a token visible whose SET Redis has already executed. */
  lemma StepKeepsGone(s: System, e: Event, cfg: Config, t: Token)
    requires Inv(s, cfg) && Enabled(s, e)
    requires t in s.runs && s.runs[t].setNet.Executed? && Visible(s.redis) != Some(t)
    ensures var s' := Apply(s, e, cfg);
            t in s'.runs && s'.runs[t].setNet.Executed? && Visible(s'.redis) != Some(t)
  {
    if e.ExecuteCommand? {
      ExecutionKeepsGone(s.redis, e.token, e.command, cfg.ttl, t);
    } else {
      assert RunInv(s.runs[t], t, s.redis.log);
      LocalStepKeepsRun(s, e, cfg, t);
      LocalStepLeavesRedis(s, e, cfg);
    }
  }

  /** Once its SET has been executed, a token absent from the key stays absent for ever. */
  lemma {:induction false} TokenNeverReturns(s: System, events: seq<Event>, cfg: Config, t: Token)
    requires Inv(s, cfg) && Exec(s, events, cfg).Some?
    requires t in s.runs && s.runs[t].setNet.Executed? && Visible(s.redis) != Some(t)
    ensures Visible(Exec(s, events, cfg).value.redis) != Some(t)
    decreases |events|
  {
    if events != [] {
      StepKeepsGone(s, events[0], cfg, t);
      StepKeepsInv(s, events[0], cfg);
      TokenNeverReturns(Apply(s, events[0], cfg), events[1..], cfg, t);
    }
  }

  // ---------- The life of one lease ----------

  /** A lost lease stays lost for the same reason, and its operation can no longer return a value. */
  ghost predicate StaysLost(s: System, s': System, t: Token)
    requires t in s.runs && s.runs[t].stage.Leased?
  {
    s.runs[t].stage.lease.lost.Some? ==>
      && t in s'.runs && s'.runs[t].stage.Leased?
      && s'.runs[t].stage.lease.lost == s.runs[t].stage.lease.lost
      && (s'.runs[t].stage.operation.ReturnedValue? ==> s.runs[t].stage.operation.ReturnedValue?)
  }

  lemma StepKeepsLost(s: System, e: Event, cfg: Config, t: Token)
    requires Enabled(s, e) && t in s.runs && s.runs[t].stage.Leased?
    ensures StaysLost(s, Apply(s, e, cfg), t)
  {
    hide Execute, Succeeds, Visible, SkipsScript;
  }

  /**
   The lost reason is set at most once and is permanent. If `run` is still waiting for
   its operation when the lease is lost, `run` will not return a value.
   */
  lemma {:induction false} LostIsPermanent(s: System, events: seq<Event>, cfg: Config, t: Token)
    requires Exec(s, events, cfg).Some? && t in s.runs && s.runs[t].stage.Leased?
    ensures StaysLost(s, Exec(s, events, cfg).value, t)
    decreases |events|
  {
    if events != [] && s.runs[t].stage.lease.lost.Some? {
      StepKeepsLost(s, events[0], cfg, t);
      LostIsPermanent(Apply(s, events[0], cfg), events[1..], cfg, t);
    }
  }

  predicate HasReturned(s: System, t: Token) {
    t in s.runs && s.runs[t].stage.Leased? && s.runs[t].stage.operation.ReturnedValue?
  }

  /** The step that begins to return a value finds the connection ready and the lease not lost. */
  lemma ReturningStep(s: System, e: Event, cfg: Config, t: Token)
    requires Enabled(s, e) && !HasReturned(s, t) && HasReturned(Apply(s, e, cfg), t)
    ensures e == OperationSettled(t, false)
    ensures t in s.runs && s.runs[t].stage.Leased?
    ensures s.runs[t].stage.lease.lost.None? && LockOf(s, s.runs[t].worker).ready
  {
    hide Execute, Succeeds, Visible, SkipsScript;
  }

  /** The lease, as far as there is one yet, was never lost in the run so far. */
  ghost predicate NeverLost(events: seq<Event>, cfg: Config, t: Token) {
    forall i :: 0 <= i <= |events| ==>
      var run := Exec(INITIAL, events[..i], cfg);
      run.Some? && (t in run.value.runs && run.value.runs[t].stage.Leased? ==>
                      run.value.runs[t].stage.lease.lost.None?)
  }

  lemma ExecSplits(s: System, a: seq<Event>, b: seq<Event>, cfg: Config)
    requires Exec(s, a + b, cfg).Some?
    ensures Exec(s, a, cfg).Some?
    ensures Exec(Exec(s, a, cfg).value, b, cfg) == Exec(s, a + b, cfg)
    decreases |a|
  {
    hide Enabled, Apply;
    if a == [] {
      assert a + b == b;
    } else {
      assert (a + b)[1..] == a[1..] + b;
      ExecSplits(Apply(s, a[0], cfg), a[1..], b, cfg);
    }
  }

  /** A lease that is not lost now was not lost in any state before. */
  lemma NotLostNow(events: seq<Event>, cfg: Config, t: Token)
    requires var run := Exec(INITIAL, events, cfg);
      run.Some? && t in run.value.runs && run.value.runs[t].stage.Leased? && run.value.runs[t].stage.lease.lost.None?
    ensures NeverLost(events, cfg, t)
  {
    hide Exec;
    forall i | 0 <= i <= |events|
      ensures Exec(INITIAL, events[..i], cfg).Some?
      ensures var s := Exec(INITIAL, events[..i], cfg).value;
        t in s.runs && s.runs[t].stage.Leased? ==> s.runs[t].stage.lease.lost.None?
    {
      assert events == events[..i] + events[i..];
      ExecSplits(INITIAL, events[..i], events[i..], cfg);
      var s := Exec(INITIAL, events[..i], cfg).value;
      if t in s.runs && s.runs[t].stage.Leased? {
        LostIsPermanent(s, events[i..], cfg, t);
      }
    }
  }

  /**
   If `run` returns a value, its operation settled without throwing at some step of the run, the
   connection was ready there, and the lease was never lost in any state up to it.
   */
  lemma {:induction false} ValueMeansNeverLost(events: seq<Event>, cfg: Config, t: Token) returns (k: nat)
    requires Exec(INITIAL, events, cfg).Some? && HasReturned(Exec(INITIAL, events, cfg).value, t)
    ensures k < |events| && events[k] == OperationSettled(t, false)
    ensures NeverLost(events[..k], cfg, t)
    ensures Exec(INITIAL, events[..k], cfg).Some?
    ensures var s := Exec(INITIAL, events[..k], cfg).value;
      && t in s.runs && s.runs[t].stage.Leased?
      && LockOf(s, s.runs[t].worker).ready
    decreases |events|
  {
    hide Enabled, Apply, HasReturned, NeverLost;
    if events == [] {
      NothingReturnedYet(t);
    } else {
      var n := |events| - 1;
      var init, last := events[..n], events[n];
      assert events == init + [last];
      ExecSplits(INITIAL, init, [last], cfg);
      var s := Exec(INITIAL, init, cfg).value;
      ExecOne(s, last, cfg);
      if HasReturned(s, t) {
        k := ValueMeansNeverLost(init, cfg, t);
        assert init[..k] == events[..k];
      } else {
        k := n;
        ReturningStep(s, last, cfg, t);
        NotLostNow(init, cfg, t);
      }
    }
  }

  lemma NothingReturnedYet(t: Token)
    ensures !HasReturned(INITIAL, t)
  {
  }

  lemma ExecOne(s: System, e: Event, cfg: Config)
    requires Exec(s, [e], cfg).Some?
    ensures Enabled(s, e) && Exec(s, [e], cfg) == Some(Apply(s, e, cfg))
  {
    hide Enabled, Apply;
    assert |[e][1..]| == 0;
  }

  /** What may still be sent for a run: nothing follows its release, and no SET its first. */
  ghost predicate SentInv(s: System) {
    && (forall i :: 0 <= i < |s.sent| ==> s.sent[i].0 in s.runs)
    && (forall i :: 0 <= i < |s.sent| && s.sent[i].1.Release? ==> ReleaseWasSent(s, s.sent[i].0))
    && (forall i, j :: 0 <= i < j < |s.sent| && s.sent[i].1.Release? ==> s.sent[j].0 != s.sent[i].0)
  }

  /** The run has sent its release; none of its renewals is awaited. */
  predicate ReleaseWasSent(s: System, t: Token) {
    && t in s.runs && s.runs[t].stage.Leased?
    && var lease := s.runs[t].stage.lease;
       (lease.phase.ScriptSent? || lease.phase.Settled?) && !lease.renewalPending
  }

  lemma ReleaseStaysSent(s: System, e: Event, cfg: Config, t: Token)
    requires Enabled(s, e) && ReleaseWasSent(s, t)
    ensures ReleaseWasSent(Apply(s, e, cfg), t)
  {
    hide Execute, Succeeds, Visible, SkipsScript;
  }

  lemma StepKeepsReleaseSent(s: System, e: Event, cfg: Config, t: Token)
    requires Enabled(s, e) && ReleaseWasSent(s, t)
    ensures ReleaseWasSent(Apply(s, e, cfg), t)
    ensures Apply(s, e, cfg).sent == s.sent
            || (|Apply(s, e, cfg).sent| == |s.sent| + 1 && Apply(s, e, cfg).sent[..|s.sent|] == s.sent
                && Apply(s, e, cfg).sent[|s.sent|].0 != t)
  {
    hide Execute, Succeeds, Visible, SkipsScript;
    ReleaseStaysSent(s, e, cfg, t);
  }

  /** A step puts at most one command on the network. */
  lemma StepSends(s: System, e: Event, cfg: Config)
    requires Enabled(s, e)
    ensures var s' := Apply(s, e, cfg);
            s'.sent == s.sent
            || (exists t, c :: s'.sent == s.sent + [(t, c)] && t in s'.runs && (c.Release? ==> e == ReleaseResumes(t)))
    ensures forall t :: t in s.runs ==> t in Apply(s, e, cfg).runs
  {
    var s' := Apply(s, e, cfg);
    match e {
      case BeginRun(_, t) => assert s'.sent == s.sent + [(t, SetNx)];
      case IntervalFired(t) =>
        if SendsRenewal(s.runs[t].stage.lease) {
          assert s'.sent == s.sent + [(t, Renew)];
        }
      case ReleaseResumes(t) =>
        if !SkipsScript(s.runs[t].stage.lease) {
          assert s'.sent == s.sent + [(t, Release)];
        }
      case _ =>
    }
  }

  lemma StepKeepsSentInv(s: System, e: Event, cfg: Config)
    requires SentInv(s) && Enabled(s, e)
    ensures SentInv(Apply(s, e, cfg))
  {
    var s' := Apply(s, e, cfg);
    StepSends(s, e, cfg);
    forall i | 0 <= i < |s.sent| && s.sent[i].1.Release?
      ensures ReleaseWasSent(s', s.sent[i].0)
      ensures |s'.sent| == |s.sent| + 1 ==> s'.sent[|s.sent|].0 != s.sent[i].0
    {
      StepKeepsReleaseSent(s, e, cfg, s.sent[i].0);
    }
  }

  lemma {:induction false} ExecKeepsSentInv(s: System, events: seq<Event>, cfg: Config)
    requires SentInv(s) && Exec(s, events, cfg).Some?
    ensures SentInv(Exec(s, events, cfg).value)
    decreases |events|
  {
    if events != [] {
      StepKeepsSentInv(s, events[0], cfg);
      ExecKeepsSentInv(Apply(s, events[0], cfg), events[1..], cfg);
    }
  }

  /**
   The release script is sent at most once per lease, never while one of the lease's
   renewals is awaited, and nothing at all is sent for the lease afterwards.
   */
  lemma ReleaseIsTheLastCommand(s: System, cfg: Config, i: nat)
    requires Reachable(s, cfg)
    requires i < |s.sent| && s.sent[i].1.Release?
    ensures forall j :: i < j < |s.sent| ==> s.sent[j].0 != s.sent[i].0
    ensures forall j :: 0 <= j < |s.sent| && s.sent[j] == s.sent[i] ==> j == i
    ensures ReleaseWasSent(s, s.sent[i].0)
  {
    var events :| Exec(INITIAL, events, cfg) == Some(s);
    ExecKeepsSentInv(INITIAL, events, cfg);
  }

  // ---------- What a reply does ----------

  /** A granted SET makes the lease active, a full interval before its first tick; any other reply ends the run. */
  lemma SetReplyDecides(s: System, cfg: Config, t: Token)
    requires Enabled(s, SetReplied(t))
    ensures var s', r := Apply(s, SetReplied(t), cfg), s.runs[t];
      && (!s.redis.log[r.setNet.pos].ok ==> s'.runs[t].stage == NotAcquired && s'.locks == s.locks)
      && (s.redis.log[r.setNet.pos].ok ==>
            && LockOf(s', r.worker) == LockOf(s, r.worker).(active := Some(t))
            && s'.runs[t].stage.Leased?
            && s'.runs[t].stage.confirmedFrom == r.setNet.pos && s'.runs[t].stage.confirmedTo == r.setNet.pos
            && s'.runs[t].stage.nextTick == s.redis.now + cfg.renewInterval
            && s'.runs[t].stage.operation == if LockOf(s, r.worker).ready then Running else Threw)
    ensures Apply(s, SetRejected(t), cfg).runs[t].stage == NotAcquired
  {
  }

  /** Every success a worker is told of extends its confirmed interval to it; no other reply does. */
  lemma ToldSuccessIsConfirmed(s: System, cfg: Config, t: Token)
    ensures Enabled(s, RenewReplied(t)) ==>
      Apply(s, RenewReplied(t), cfg).runs[t].stage.confirmedTo ==
        if s.redis.log[s.runs[t].renewNet.pos].ok then s.runs[t].renewNet.pos else s.runs[t].stage.confirmedTo
    ensures Enabled(s, ReleaseReplied(t)) ==>
      Apply(s, ReleaseReplied(t), cfg).runs[t].stage.confirmedTo ==
        if s.redis.log[s.runs[t].releaseNet.pos].ok then s.runs[t].releaseNet.pos else s.runs[t].stage.confirmedTo
  {
  }

  /** A tick sends a renewal exactly for a live lease with none in flight, and the next comes an interval later. */
  lemma TickSendsOrSkips(s: System, cfg: Config, t: Token)
    requires Enabled(s, IntervalFired(t))
    ensures var s', lease := Apply(s, IntervalFired(t), cfg), s.runs[t].stage.lease;
      && s'.runs[t].stage.nextTick == s.redis.now + cfg.renewInterval
      && s'.sent == if lease.lost.None? && !lease.renewalPending then s.sent + [(t, Renew)] else s.sent
  {
  }

  /** An operation that throws, or finds the lease lost or the connection gone, makes `run` throw. */
  lemma OperationEnds(s: System, cfg: Config, t: Token, threw: bool)
    requires Enabled(s, OperationSettled(t, threw))
    ensures Apply(s, OperationSettled(t, threw), cfg).runs[t].stage.operation ==
      if !threw && s.runs[t].stage.lease.lost.None? && LockOf(s, s.runs[t].worker).ready then ReturnedValue else Threw
  {
  }

  // ---------- Crashes, connections and close ----------

  /** A worker that never saw a ready connection starts nothing. */
  lemma NoRunBeforeReady(s: System, w: Worker, t: Token)
    requires w !in s.locks
    ensures !Enabled(s, BeginRun(w, t))
  {
  }

  lemma StepAfterCrash(s: System, e: Event, cfg: Config, t: Token)
    requires Enabled(s, e) && t in s.runs && s.runs[t].worker in s.crashed
    ensures var s' := Apply(s, e, cfg);
      && t in s'.runs && s'.runs[t].worker == s.runs[t].worker && s.crashed <= s'.crashed
      && (!e.ConnectionChanged? && !e.CloseCalled? ==> s'.runs[t].stage == s.runs[t].stage)
      && (s'.sent == s.sent || (|s'.sent| == |s.sent| + 1 && s'.sent[..|s.sent|] == s.sent && s'.sent[|s.sent|].0 != t))
  {
    hide Execute, Succeeds, Visible, SkipsScript;
  }

  /** A crash can come at any time, and after it nothing more is ever sent for the worker's runs. */
  lemma {:induction false} CrashedWorkersAreSilent(s: System, events: seq<Event>, cfg: Config, t: Token, i: nat)
    requires t in s.runs && s.runs[t].worker in s.crashed && Exec(s, events, cfg).Some?
    requires |s.sent| <= i < |Exec(s, events, cfg).value.sent|
    ensures Exec(s, events, cfg).value.sent[i].0 != t
    decreases |events|
  {
    hide Enabled, Apply;
    if events != [] {
      var s' := Apply(s, events[0], cfg);
      StepAfterCrash(s, events[0], cfg, t);
      if i < |s'.sent| {
        SentIsKept(s', events[1..], cfg, i);
      } else {
        CrashedWorkersAreSilent(s', events[1..], cfg, t, i);
      }
    }
  }

  lemma {:induction false} SentIsKept(s: System, events: seq<Event>, cfg: Config, i: nat)
    requires i < |s.sent| && Exec(s, events, cfg).Some?
    ensures i < |Exec(s, events, cfg).value.sent| && Exec(s, events, cfg).value.sent[i] == s.sent[i]
    decreases |events|
  {
    hide Enabled, Apply;
    if events != [] {
      StepSends(s, events[0], cfg);
      SentIsKept(Apply(s, events[0], cfg), events[1..], cfg, i);
    }
  }

  /** Whoever crashes, the key is free after one ttl without further commands. */
  lemma CrashedHolderExpires(s: System, cfg: Config, w: Worker, next: Token)
    requires Reachable(s, cfg)
    ensures var run := Exec(s, [WorkerCrashed(w), TimePasses(cfg.ttl)], cfg);
      && run.Some? && w in run.value.crashed && Succeeds(run.value.redis, next, SetNx)
  {
    ReachableInv(s, cfg);
    var s1 := Apply(s, WorkerCrashed(w), cfg);
    var p := LastOk(s.redis.log);
    assert p >= 0 ==> s.redis.log[p].at <= s.redis.now;
    hide Exec;
    ExecTwo(s, WorkerCrashed(w), TimePasses(cfg.ttl), cfg);
  }

  /** The active lease of an open lock is lost with the connection; no other change of state touches a lease. */
  lemma ConnectionLossLoses(s: System, w: Worker, ready: bool, cfg: Config, t: Token)
    requires Enabled(s, ConnectionChanged(w, ready)) && t in s.runs && s.runs[t].stage.Leased?
    ensures var s', before := Apply(s, ConnectionChanged(w, ready), cfg), s.runs[t].stage.lease.lost;
      && t in s'.runs && s'.runs[t].stage.Leased? && LockOf(s', w).ready == ready
      && s'.runs[t].stage.lease.lost ==
           if !ready && !LockOf(s, w).closed && LockOf(s, w).active == Some(t) && before.None?
           then Some(ConnectionLost) else before
  {
  }

  /** A closed lock stays closed and begins no run, in any continuation. */
  lemma {:induction false} ClosedBeginsNothing(s: System, events: seq<Event>, cfg: Config, w: Worker, t: Token)
    requires LockOf(s, w).closed && Exec(s, events, cfg).Some?
    ensures LockOf(Exec(s, events, cfg).value, w).closed && BeginRun(w, t) !in events
    decreases |events|
  {
    if events != [] {
      ClosedStep(s, events[0], cfg, w, t);
      ClosedBeginsNothing(Apply(s, events[0], cfg), events[1..], cfg, w, t);
    }
  }

  lemma ClosedStep(s: System, e: Event, cfg: Config, w: Worker, t: Token)
    requires LockOf(s, w).closed && Enabled(s, e)
    ensures LockOf(Apply(s, e, cfg), w).closed && e != BeginRun(w, t)
  {
    hide Execute, Succeeds, Visible, SkipsScript;
  }

  /** Closing closes the lock and loses its active lease for shutdown. */
  lemma CloseLoses(s: System, w: Worker, cfg: Config, t: Token)
    requires Enabled(s, CloseCalled(w)) && t in s.runs && s.runs[t].stage.Leased?
    ensures var s', before := Apply(s, CloseCalled(w), cfg), s.runs[t].stage.lease.lost;
      && LockOf(s', w).closed && t in s'.runs && s'.runs[t].stage.Leased?
      && s'.runs[t].stage.lease.lost ==
           (if LockOf(s, w).active == Some(t) && before.None? then Some(Shutdown) else before)
      && (LockOf(s, w).active == Some(t) ==> s'.runs[t].stage.lease.Releasing())
  {
  }

  // ---------- The release frees the key ----------

  /** A lease that was never lost, or only by shutdown, has its release sent; for any other reason it is not. */
  lemma ReleaseIsSent(s: System, cfg: Config, t: Token)
    requires Enabled(s, ReleaseResumes(t))
    ensures var lost := s.runs[t].stage.lease.lost;
      Apply(s, ReleaseResumes(t), cfg).sent ==
        if lost.None? || lost == Some(Shutdown) then s.sent + [(t, Release)] else s.sent
  {
  }

  /** Executed while the lease owns the key, the release leaves it free; otherwise the key stays as it is. */
  lemma ExecutedReleaseFrees(s: System, cfg: Config, t: Token)
    requires Enabled(s, ExecuteCommand(t, Release))
    ensures Visible(Apply(s, ExecuteCommand(t, Release), cfg).redis) ==
      if Visible(s.redis) == Some(t) then None else Visible(s.redis)
  {
  }

  /**
   From any state in which the release of a lease that still owns the key goes on, a lease not lost or
   lost by shutdown, sending the script and executing it lets the next SET of anyone succeed.
   */
  lemma ReleaseFreesTheKey(s: System, cfg: Config, t: Token, next: Token)
    requires Enabled(s, ReleaseResumes(t)) && Visible(s.redis) == Some(t)
    requires s.runs[t].stage.lease.lost.None? || s.runs[t].stage.lease.lost == Some(Shutdown)
    ensures var run := Exec(s, [ReleaseResumes(t), ExecuteCommand(t, Release)], cfg);
      && run.Some? && Visible(run.value.redis) == None
      && Succeeds(run.value.redis, next, SetNx)
  {
    hide Exec;
    var s1 := Apply(s, ReleaseResumes(t), cfg);
    var s2 := Apply(s1, ExecuteCommand(t, Release), cfg);
    ReleaseIsSent(s, cfg, t);
    ExecutedReleaseFrees(s1, cfg, t);
    ExecTwo(s, ReleaseResumes(t), ExecuteCommand(t, Release), cfg);
  }

  lemma ExecTwo(s: System, a: Event, b: Event, cfg: Config)
    requires Enabled(s, a) && Enabled(Apply(s, a, cfg), b)
    ensures Exec(s, [a, b], cfg) == Some(Apply(Apply(s, a, cfg), b, cfg))
  {
    hide Enabled, Apply;
    assert [a, b][1..] == [b];
    assert |[b][1..]| == 0;
    assert Exec(Apply(s, a, cfg), [b], cfg) == Some(Apply(Apply(s, a, cfg), b, cfg));
  }

  /** A lease whose operation ends well, with nothing else in its way, frees the key it owns. */
  lemma NormalRunFreesTheKey(s: System, cfg: Config, t: Token, next: Token)
    requires Enabled(s, OperationSettled(t, false)) && Visible(s.redis) == Some(t)
    requires s.runs[t].stage.lease == ACQUIRED && LockOf(s, s.runs[t].worker).ready
    ensures var run :=
        Exec(s, [OperationSettled(t, false)] + [ReleaseResumes(t), ExecuteCommand(t, Release)], cfg);
      && run.Some? && HasReturned(run.value, t) && Succeeds(run.value.redis, next, SetNx)
  {
    var s1 := Apply(s, OperationSettled(t, false), cfg);
    var s2 := Apply(s1, ReleaseResumes(t), cfg);
    ReleaseFreesTheKey(s1, cfg, t, next);
    ExecTwo(s1, ReleaseResumes(t), ExecuteCommand(t, Release), cfg);
    assert HasReturned(Apply(s2, ExecuteCommand(t, Release), cfg), t);
    hide Exec, Apply;
    ExecFirst(s, OperationSettled(t, false), [ReleaseResumes(t), ExecuteCommand(t, Release)], cfg);
  }

  lemma ExecFirst(s: System, e: Event, rest: seq<Event>, cfg: Config)
    requires Enabled(s, e)
    ensures Exec(s, [e] + rest, cfg) == Exec(Apply(s, e, cfg), rest, cfg)
  {
    hide Enabled, Apply;
    assert ([e] + rest)[1..] == rest;
  }

  // ---------- What assertHeld does not give ----------

  const PRODUCTION := Config(300000, 100000)

  lemma ExecSnoc(s: System, events: seq<Event>, e: Event, cfg: Config)
    requires Exec(s, events, cfg).Some? && Enabled(Exec(s, events, cfg).value, e)
    ensures Exec(s, events + [e], cfg) == Some(Apply(Exec(s, events, cfg).value, e, cfg))
    decreases |events|
  {
    if events == [] {
      assert (events + [e])[1..] == [];
    } else {
      assert (events + [e])[1..] == events[1..] + [e];
      ExecSnoc(Apply(s, events[0], cfg), events[1..], e, cfg);
    }
  }

  lemma ReachableStep(s: System, e: Event, cfg: Config)
    requires Reachable(s, cfg) && Enabled(s, e)
    ensures Reachable(Apply(s, e, cfg), cfg)
  {
    var events :| Exec(INITIAL, events, cfg) == Some(s);
    ExecSnoc(INITIAL, events, e, cfg);
  }

  /** A worker gets ready and asks for the key. */
  lemma Requests(s: System, w: Worker, t: Token) returns (s': System)
    requires Reachable(s, PRODUCTION)
    requires w !in s.crashed && w !in s.locks && t !in s.runs
    ensures Reachable(s', PRODUCTION)
    ensures s' == s.(locks := s.locks[w := Lock(false, None, true)],
                     runs := s.runs[t := Run(w, Requesting, Sent(s.redis.now), Idle, Idle)],
                     sent := s.sent + [(t, SetNx)])
  {
    hide Reachable;
    var s1 := Apply(s, ConnectionChanged(w, true), PRODUCTION);
    ReachableStep(s, ConnectionChanged(w, true), PRODUCTION);
    assert s1 == s.(locks := s.locks[w := Lock(false, None, true)]);
    s' := Apply(s1, BeginRun(w, t), PRODUCTION);
    ReachableStep(s1, BeginRun(w, t), PRODUCTION);
  }

  /** Redis executes the SET on a free key and the reply arrives. */
  lemma IsGranted(s: System, w: Worker, t: Token) returns (s': System)
    requires Reachable(s, PRODUCTION) && Visible(s.redis).None?
    requires w !in s.crashed && LockOf(s, w) == Lock(false, None, true)
    requires t in s.runs && s.runs[t] == Run(w, Requesting, Sent(s.redis.now), Idle, Idle)
    ensures Reachable(s', PRODUCTION)
    ensures s'.crashed == s.crashed && s'.locks == s.locks[w := Lock(false, Some(t), true)]
    ensures t in s'.runs && s'.runs == s.runs[t := s'.runs[t]] && s'.runs[t].worker == w && s'.runs[t].stage.Leased?
    ensures s'.runs[t].stage.lease == ACQUIRED && s'.runs[t].stage.operation == Running
    ensures s'.redis.key == Some(Held(t, s.redis.now + 300000)) && s'.redis.now == s.redis.now
  {
    hide Reachable;
    var s1 := Apply(s, ExecuteCommand(t, SetNx), PRODUCTION);
    ReachableStep(s, ExecuteCommand(t, SetNx), PRODUCTION);
    assert s1.runs == s.runs[t := Run(w, Requesting, Executed(s.redis.now, |s.redis.log|), Idle, Idle)];
    assert s1.redis == Execute(s.redis, t, SetNx, PRODUCTION.ttl);
    s' := Apply(s1, SetReplied(t), PRODUCTION);
    ReachableStep(s1, SetReplied(t), PRODUCTION);
  }

  /** A worker gets ready, asks for the free key and gets it. */
  lemma Acquires(s: System, w: Worker, t: Token) returns (s': System)
    requires Reachable(s, PRODUCTION)
    requires w !in s.crashed && w !in s.locks && t !in s.runs && Visible(s.redis).None?
    ensures Reachable(s', PRODUCTION)
    ensures s'.crashed == s.crashed && s'.locks == s.locks[w := Lock(false, Some(t), true)]
    ensures t in s'.runs && s'.runs[t].worker == w && s'.runs[t].stage.Leased?
    ensures s'.runs[t].stage.lease == ACQUIRED && s'.runs[t].stage.operation == Running
    ensures forall x :: x in s.runs ==> x in s'.runs && s'.runs[x] == s.runs[x]
    ensures s'.runs.Keys == s.runs.Keys + {t}
    ensures s'.redis.key == Some(Held(t, s.redis.now + 300000)) && s'.redis.now == s.redis.now
  {
    hide Reachable;
    s' := Requests(s, w, t);
    s' := IsGranted(s', w, t);
  }

  /**
   `assertHeld` alone is not mutual exclusion: worker A stalls for one ttl, worker B
   acquires the key, and then both are running an operation that passes `assertHeld`.
   */
  lemma AssertHeldIsNotExclusion() returns (s: System)
    ensures Reachable(s, PRODUCTION)
    ensures "a" in s.runs && s.runs["a"].stage.Leased? && s.runs["a"].stage.operation.Running?
    ensures "b" in s.runs && s.runs["b"].stage.Leased? && s.runs["b"].stage.operation.Running?
    ensures HeldChecked(s.runs["a"].stage.lease, LockOf(s, s.runs["a"].worker).ready).lost.None?
    ensures HeldChecked(s.runs["b"].stage.lease, LockOf(s, s.runs["b"].worker).ready).lost.None?
  {
    assert Exec(INITIAL, [], PRODUCTION) == Some(INITIAL);
    var s1 := Acquires(INITIAL, "A", "a");
    var s2 := Apply(s1, TimePasses(300000), PRODUCTION);
    ReachableStep(s1, TimePasses(300000), PRODUCTION);
    assert "B" != "A" && "b" != "a";
    s := Acquires(s2, "B", "b");
    assert "A" in s.locks;
  }
}
