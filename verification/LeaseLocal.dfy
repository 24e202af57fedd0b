/**
 One worker's side of the maintenance lease: the lease object that `run` creates
 and the closure state of `createMaintenanceLock`. JavaScript between two awaits
 is one method here; what the environment decides (a reply, readiness) is a
 parameter. The functions on `Lease` are the specification of those methods and
 the local steps of the whole-system model.
 */
module LeaseLocal {
  import opened Wrappers

  datatype Reason = ConnectionLost | OwnershipLost | RenewalError | Shutdown

  /** How far the single release of a lease has come. */
  datatype Phase = NotReleasing | AwaitingRenewal | ScriptSent | Settled

  datatype Lease = Lease(lost: Option<Reason>, renewalPending: bool, phase: Phase) {
    predicate Releasing() {
      !phase.NotReleasing?
    }

    /** Neither lost nor releasing. */
    predicate Live() {
      lost.None? && !Releasing()
    }
  }

  const ACQUIRED := Lease(None, false, NotReleasing)

  function Lose(l: Lease, reason: Reason): Lease {
    if l.lost.Some? then l else l.(lost := Some(reason))
  }

  /** The interval callback sends a renewal exactly when this holds. */
  predicate SendsRenewal(l: Lease) {
    !l.renewalPending && l.Live()
  }

  function Ticked(l: Lease): Lease {
    if SendsRenewal(l) then l.(renewalPending := true) else l
  }

  function RenewalReplied(l: Lease, renewed: bool): Lease {
    var settled := l.(renewalPending := false);
    if renewed then settled else Lose(settled, OwnershipLost)
  }

  function RenewalFailed(l: Lease): Lease {
    Lose(l.(renewalPending := false), RenewalError)
  }

  function ReleaseBegun(l: Lease): Lease {
    if l.Releasing() then l else l.(phase := AwaitingRenewal)
  }

  /** A lease that Redis may have given away already is not released by script. */
  predicate SkipsScript(l: Lease) {
    l.lost.Some? && !l.lost.value.Shutdown?
  }

  function ReleaseResumed(l: Lease): Lease {
    l.(phase := if SkipsScript(l) then Settled else ScriptSent)
  }

  function ReleaseSettled(l: Lease): Lease {
    l.(phase := Settled)
  }

  /** `assertHeld`: consults the connection, never the clock. */
  function HeldChecked(l: Lease, ready: bool): Lease {
    if ready then l else Lose(l, ConnectionLost)
  }

  /** The lease `run` starts with: already lost and releasing if the connection is gone. */
  function Granted(ready: bool): Lease {
    if ready then ACQUIRED else ReleaseBegun(Lose(ACQUIRED, ConnectionLost))
  }

  /** The lease once the operation has settled. */
  function OperationEnded(l: Lease, threw: bool, ready: bool): Lease {
    ReleaseBegun(if threw then l else HeldChecked(l, ready))
  }

  predicate ReturnsValue(l: Lease, threw: bool, ready: bool) {
    !threw && HeldChecked(l, ready).lost.None?
  }

  class ActiveLease {
    const token: string
    var lostReason: Option<Reason>
    var renewalPending: bool
    var releasing: bool
    var phase: Phase
    var aborted: bool

    ghost predicate Valid()
      reads this
    {
      && releasing == !phase.NotReleasing?
      && aborted == lostReason.Some?
    }

    function View(): Lease
      reads this
    {
      Lease(lostReason, renewalPending, phase)
    }

    constructor (token: string)
      ensures Valid() && View() == ACQUIRED && this.token == token
    {
      this.token := token;
      lostReason, renewalPending, releasing, phase, aborted := None, false, false, NotReleasing, false;
    }

    /** Idempotent: the first reason stays and the abort signal fires once. */
    method LoseLease(reason: Reason)
      requires Valid()
      modifies this
      ensures Valid() && View() == Lose(old(View()), reason)
      ensures lostReason == if old(lostReason).Some? then old(lostReason) else Some(reason)
      ensures renewalPending == old(renewalPending) && phase == old(phase)
    {
      if lostReason.Some? {
        return;
      }
      lostReason := Some(reason);
      aborted := true;
    }

    /** The interval callback with the synchronous head of `renew`. */
    method IntervalFired() returns (sendRenewal: bool)
      requires Valid()
      modifies this
      ensures Valid() && View() == Ticked(old(View()))
      ensures sendRenewal == SendsRenewal(old(View()))
      ensures sendRenewal <==> !old(renewalPending) && !old(releasing) && old(lostReason).None?
      ensures renewalPending == (old(renewalPending) || sendRenewal)
      ensures lostReason == old(lostReason) && phase == old(phase)
    {
      if renewalPending {
        return false;
      }
      if releasing || lostReason.Some? {
        return false;
      }
      renewalPending := true;
      sendRenewal := true;
    }

    /** The tail of `renew`: None is a rejected eval, otherwise whether the script returned 1. */
    method RenewalCompleted(reply: Option<bool>)
      requires Valid() && renewalPending
      modifies this
      ensures Valid()
      ensures View() == if reply.Some? then RenewalReplied(old(View()), reply.value) else RenewalFailed(old(View()))
      ensures !renewalPending && phase == old(phase)
      ensures old(lostReason).Some? || reply == Some(true) ==> lostReason == old(lostReason)
      ensures old(lostReason).None? && reply == Some(false) ==> lostReason == Some(OwnershipLost)
      ensures old(lostReason).None? && reply == None ==> lostReason == Some(RenewalError)
    {
      match reply {
        case None =>
          LoseLease(RenewalError);
        case Some(renewed) =>
          if !renewed {
            LoseLease(OwnershipLost);
          }
      }
      renewalPending := false;
    }

    /** `release` up to its first await; a second call joins the first. */
    method BeginRelease()
      requires Valid()
      modifies this
      ensures Valid() && View() == ReleaseBegun(old(View()))
      ensures releasing && lostReason == old(lostReason) && renewalPending == old(renewalPending)
      ensures phase == if old(releasing) then old(phase) else AwaitingRenewal
    {
      if !phase.NotReleasing? {
        return;
      }
      releasing := true;
      phase := AwaitingRenewal;
    }

    /** `release` after the renewal settled: whether the script is sent. */
    method ResumeRelease() returns (sendScript: bool)
      requires Valid() && phase.AwaitingRenewal? && !renewalPending
      modifies this
      ensures Valid() && View() == ReleaseResumed(old(View()))
      ensures sendScript <==> old(lostReason).None? || old(lostReason) == Some(Shutdown)
      ensures phase == if sendScript then ScriptSent else Settled
      ensures lostReason == old(lostReason) && !renewalPending
    {
      match lostReason {
        case Some(ConnectionLost) => sendScript := false;
        case Some(OwnershipLost) => sendScript := false;
        case Some(RenewalError) => sendScript := false;
        case _ => sendScript := true;
      }
      phase := if sendScript then ScriptSent else Settled;
    }

    method ReleaseCompleted()
      requires Valid() && phase.ScriptSent?
      modifies this
      ensures Valid() && View() == ReleaseSettled(old(View()))
      ensures phase == Settled && lostReason == old(lostReason) && renewalPending == old(renewalPending)
    {
      phase := Settled;
    }

    method AssertHeld(ready: bool) returns (held: bool)
      requires Valid()
      modifies this
      ensures Valid() && View() == HeldChecked(old(View()), ready)
      ensures held <==> ready && old(lostReason).None?
      ensures lostReason == if !ready && old(lostReason).None? then Some(ConnectionLost) else old(lostReason)
      ensures renewalPending == old(renewalPending) && phase == old(phase)
    {
      if !ready {
        LoseLease(ConnectionLost);
      }
      held := lostReason.None?;
    }
  }

  /** Why `run` refuses to start. */
  datatype Refusal = Closed | AlreadyRunning | RedisUnavailable

  /** Closure state of one `createMaintenanceLock` call, with the connection it watches. */
  datatype Lock<+L> = Lock(closed: bool, active: Option<L>, ready: bool)

  function RunRefusal<L>(k: Lock<L>): Option<Refusal> {
    if k.closed then Some(Closed)
    else if k.active.Some? then Some(AlreadyRunning)
    else if !k.ready then Some(RedisUnavailable)
    else None
  }

  class MaintenanceLock {
    var activeLease: ActiveLease?
    var closed: bool
    var ready: bool

    ghost predicate Valid()
      reads this, activeLease
    {
      activeLease != null ==> activeLease.Valid()
    }

    function View(): Lock<ActiveLease>
      reads this
    {
      Lock(closed, if activeLease == null then None else Some(activeLease), ready)
    }

    constructor ()
      ensures Valid() && View() == Lock(false, None, false)
    {
      activeLease, closed, ready := null, false, false;
    }

    /** The guard of `run`. */
    method CheckRun() returns (refusal: Option<Refusal>)
      ensures refusal == RunRefusal(View())
      ensures refusal.None? <==> !closed && ready && activeLease == null
      ensures closed ==> refusal == Some(Closed)
      ensures !closed && activeLease != null ==> refusal == Some(AlreadyRunning)
      ensures !closed && activeLease == null && !ready ==> refusal == Some(RedisUnavailable)
    {
      if closed || activeLease != null || !ready {
        refusal := Some(if closed then Closed else if activeLease != null then AlreadyRunning else RedisUnavailable);
      } else {
        refusal := None;
      }
    }

    /** `run` after the SET replied OK, up to the first await of the operation. */
    method Acquired(token: string) returns (lease: ActiveLease, started: bool)
      requires Valid()
      modifies this
      ensures Valid() && fresh(lease) && lease.token == token
      ensures View() == old(View()).(active := Some(lease))
      ensures started == ready
      ensures lease.View() == Granted(ready)
      ensures lease.lostReason == (if ready then None else Some(ConnectionLost))
      ensures !lease.renewalPending && lease.phase == if ready then NotReleasing else AwaitingRenewal
    {
      lease := new ActiveLease(token);
      activeLease := lease;
      started := lease.AssertHeld(ready);
      if !started {
        lease.BeginRelease();
      }
    }

    /** The operation settled: the second `assertHeld`, then the `finally` block. */
    method OperationSettled(lease: ActiveLease, threw: bool) returns (returnsValue: bool)
      requires Valid() && lease.Valid()
      modifies lease
      ensures Valid() && lease.Valid()
      ensures lease.View() == OperationEnded(old(lease.View()), threw, ready)
      ensures returnsValue == ReturnsValue(old(lease.View()), threw, ready)
      ensures returnsValue <==> !threw && ready && old(lease.lostReason).None?
      ensures lease.releasing
      ensures lease.lostReason ==
                if !threw && !ready && old(lease.lostReason).None? then Some(ConnectionLost) else old(lease.lostReason)
    {
      returnsValue := false;
      if !threw {
        returnsValue := lease.AssertHeld(ready);
      }
      lease.BeginRelease();
    }

    /** The control plane reports a state; `close` has removed the listener. */
    method ConnectionChanged(nowReady: bool)
      requires Valid()
      modifies this, activeLease
      ensures Valid() && activeLease == old(activeLease) && View() == old(View()).(ready := nowReady)
      ensures activeLease != null ==>
                activeLease.View() == if nowReady || closed then old(activeLease.View())
                                      else Lose(old(activeLease.View()), ConnectionLost)
      ensures activeLease != null && !nowReady && !closed ==> activeLease.lostReason.Some?
    {
      ready := nowReady;
      if !closed && !nowReady && activeLease != null {
        activeLease.LoseLease(ConnectionLost);
      }
    }

    /** `close` up to its first await. */
    method BeginClose()
      requires Valid()
      modifies this, activeLease
      ensures Valid() && activeLease == old(activeLease) && View() == old(View()).(closed := true)
      ensures activeLease != null ==> activeLease.View() == ReleaseBegun(Lose(old(activeLease.View()), Shutdown))
      ensures activeLease != null ==>
                && activeLease.releasing
                && activeLease.lostReason ==
                     if old(activeLease.lostReason).Some? then old(activeLease.lostReason) else Some(Shutdown)
    {
      closed := true;
      if activeLease != null {
        activeLease.LoseLease(Shutdown);
        activeLease.BeginRelease();
      }
    }

    /** The end of a release forgets the lease only if it still is the active one. */
    method Forget(lease: ActiveLease)
      requires Valid()
      modifies this
      ensures Valid()
      ensures View() == old(View()).(active := if old(activeLease) == lease then None else old(View()).active)
      ensures activeLease != lease
      ensures old(activeLease) != lease ==> activeLease == old(activeLease)
      ensures old(activeLease) == lease && !closed && ready ==> RunRefusal(View()).None?
    {
      if activeLease == lease {
        activeLease := null;
      }
    }
  }
}
