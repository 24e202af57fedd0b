/**
 The worker's control-plane Redis client: connection states, and a grace timer that
 starts with the first unavailability and is cleared only by ready or close.
 */
module ControlPlane {
  import opened Wrappers

  datatype Connection = Connecting | Connected | Ready | Reconnecting | Unavailable | Closed

  datatype Plane = Plane(closed: bool, state: Connection, graceTimer: Option<nat>)

  const FRESH := Plane(false, Connecting, None)

  const DEFAULT_GRACE := 60000

  /** Out-of-range grace periods fall back to the default. */
  function Clamp(value: int): (grace: nat)
    ensures 10000 <= grace <= 600000
    ensures 10000 <= value <= 600000 ==> grace == value
    ensures !(10000 <= value <= 600000) ==> grace == 60000
  {
    if 10000 <= value <= 600000 then value else DEFAULT_GRACE
  }

  function BecameUnavailable(p: Plane, now: nat, grace: nat): Plane {
    if p.closed then p
    else Plane(false, Unavailable, if p.graceTimer.Some? then p.graceTimer else Some(now + grace))
  }

  function BecameReady(p: Plane): Plane {
    if p.closed then p else Plane(false, Ready, None)
  }

  function SawReconnecting(p: Plane, now: nat, grace: nat): Plane {
    if p.closed then p else BecameUnavailable(p, now, grace).(state := Reconnecting)
  }

  function SawConnect(p: Plane): Plane {
    if p.closed then p else p.(state := Connected)
  }

  function SawClose(p: Plane): Plane {
    if p.closed then p else Plane(true, Closed, None)
  }

  /** What listeners hear when the state goes from `from` through `visits`: the changes only. */
  function Heard(from: Connection, visits: seq<Connection>): seq<Connection>
    decreases |visits|
  {
    if visits == [] then []
    else if visits[0] == from then Heard(from, visits[1..])
    else [visits[0]] + Heard(visits[0], visits[1..])
  }

  function LastOf(from: Connection, visits: seq<Connection>): Connection {
    if visits == [] then from else visits[|visits| - 1]
  }

  /** Listeners never hear a state twice in a row, and end up knowing the current one. */
  lemma {:induction false} ListenersFollow(from: Connection, visits: seq<Connection>)
    ensures Heard(from, visits) != [] ==> Heard(from, visits)[0] != from
    ensures forall i :: 0 < i < |Heard(from, visits)| ==> Heard(from, visits)[i] != Heard(from, visits)[i - 1]
    ensures LastOf(from, Heard(from, visits)) == LastOf(from, visits)
    decreases |visits|
  {
    if visits != [] {
      ListenersFollow(visits[0], visits[1..]);
      assert LastOf(visits[0], visits[1..]) == LastOf(from, visits);
      if visits[0] != from {
        PrependKeepsApart(visits[0], Heard(visits[0], visits[1..]));
      }
    }
  }

  lemma PrependKeepsApart(first: Connection, rest: seq<Connection>)
    requires rest != [] ==> rest[0] != first
    requires forall i :: 0 < i < |rest| ==> rest[i] != rest[i - 1]
    ensures forall i :: 0 < i < |[first] + rest| ==> ([first] + rest)[i] != ([first] + rest)[i - 1]
    ensures forall x :: LastOf(x, [first] + rest) == LastOf(first, rest)
  {
  }

  class WorkerControlPlane {
    const grace: nat
    var closed: bool
    var state: Connection
    var graceTimer: Option<nat>
    /** What the state listeners were told, in order. */
    var notified: seq<Connection>

    function View(): Plane
      reads this
    {
      Plane(closed, state, graceTimer)
    }

    constructor (graceMs: int)
      ensures View() == FRESH && grace == Clamp(graceMs) && notified == []
      ensures !closed && state == Connecting && graceTimer.None?
    {
      grace := Clamp(graceMs);
      closed, state, graceTimer, notified := false, Connecting, None, [];
    }

    method CheckReady() returns (isReady: bool)
      ensures isReady <==> IsReady(View())
    {
      isReady := !closed && state == Ready;
    }

    /** Listeners hear every change of state once, and nothing when it stays. */
    method Transition(next: Connection)
      modifies this`state, this`notified
      ensures state == next
      ensures notified == old(notified) + Heard(old(state), [next])
    {
      if state == next {
        return;
      }
      state := next;
      notified := notified + [next];
    }

    method BecomeUnavailable(now: nat)
      modifies this
      ensures View() == BecameUnavailable(old(View()), now, grace)
      ensures !closed ==> state == Unavailable
      ensures !closed && old(graceTimer).None? ==> graceTimer == Some(now + grace)
      ensures closed || old(graceTimer).Some? ==> graceTimer == old(graceTimer)
      ensures notified == old(notified) + Heard(old(state), if old(closed) then [] else [Unavailable])
    {
      if closed {
        return;
      }
      Transition(Unavailable);
      if graceTimer.Some? {
        return;
      }
      graceTimer := Some(now + grace);
    }

    method OnConnect()
      modifies this
      ensures View() == SawConnect(old(View()))
      ensures graceTimer == old(graceTimer) && state == if closed then old(state) else Connected
      ensures notified == old(notified) + Heard(old(state), if old(closed) then [] else [Connected])
    {
      if !closed {
        Transition(Connected);
      }
    }

    method OnReady()
      modifies this
      ensures View() == BecameReady(old(View()))
      ensures !closed ==> state == Ready && graceTimer.None?
      ensures notified == old(notified) + Heard(old(state), if old(closed) then [] else [Ready])
    {
      if !closed {
        graceTimer := None;
        Transition(Ready);
      }
    }

    method OnReconnecting(now: nat)
      modifies this
      ensures View() == SawReconnecting(old(View()), now, grace)
      ensures !closed ==> state == Reconnecting
      ensures !closed && old(graceTimer).None? ==> graceTimer == Some(now + grace)
      ensures closed || old(graceTimer).Some? ==> graceTimer == old(graceTimer)
      ensures notified == old(notified) + Heard(old(state), if old(closed) then [] else [Unavailable, Reconnecting])
    {
      if !closed {
        BecomeUnavailable(now);
        Transition(Reconnecting);
      }
    }

    method Close()
      modifies this
      ensures View() == SawClose(old(View()))
      ensures closed && !old(closed) ==> graceTimer.None? && state == Connection.Closed
      ensures old(closed) ==> View() == old(View())
      ensures notified == old(notified) + Heard(old(state), if old(closed) then [] else [Closed])
    {
      if closed {
        return;
      }
      closed := true;
      graceTimer := None;
      Transition(Closed);
    }

    /** The timer callback: whether `onGraceExpired` is called. */
    method GraceExpires() returns (expired: bool)
      requires graceTimer.Some?
      modifies this
      ensures View() == old(View()).(graceTimer := None)
      ensures expired == (!closed && state != Ready) && notified == old(notified)
    {
      graceTimer := None;
      expired := !closed && state != Ready;
    }
  }

  // ---------- Runs ----------

  /** `lastReady` is the last instant at which the plane was ready, `expired` the callback times. */
  datatype System = System(plane: Plane, now: nat, expired: seq<nat>, lastReady: nat)

  const INITIAL := System(FRESH, 0, [], 0)

  datatype Event = Connects | BecomesReady | Reconnects | Drops | CloseCalled | GraceExpires | TimePasses(delta: nat)

  predicate Enabled(s: System, e: Event) {
    e.GraceExpires? ==> s.plane.graceTimer.Some? && s.plane.graceTimer.value <= s.now
  }

  function Moved(s: System, e: Event, grace: nat): System
    requires Enabled(s, e)
  {
    var p := s.plane;
    match e
    case Connects => s.(plane := SawConnect(p))
    case BecomesReady => s.(plane := BecameReady(p))
    case Reconnects => s.(plane := SawReconnecting(p, s.now, grace))
    case Drops => s.(plane := BecameUnavailable(p, s.now, grace))
    case CloseCalled => s.(plane := SawClose(p))
    case GraceExpires =>
      s.(plane := p.(graceTimer := None),
         expired := if !p.closed && p.state != Ready then s.expired + [s.now] else s.expired)
    case TimePasses(delta) => s.(now := s.now + delta)
  }

  predicate IsReady(p: Plane) {
    !p.closed && p.state == Ready
  }

  function Apply(s: System, e: Event, grace: nat): System
    requires Enabled(s, e)
  {
    var s' := Moved(s, e, grace);
    s'.(lastReady := if IsReady(s.plane) || IsReady(s'.plane) then s'.now else s.lastReady)
  }

  function Exec(s: System, events: seq<Event>, grace: nat): Option<System>
    decreases |events|
  {
    if events == [] then Some(s)
    else if Enabled(s, events[0]) then Exec(Apply(s, events[0], grace), events[1..], grace)
    else None
  }

  /** A running grace timer belongs to a time without readiness that it outlasts by the grace. */
  predicate Inv(s: System, grace: nat) {
    && s.lastReady <= s.now
    && (s.plane.graceTimer.Some? ==>
          !s.plane.closed && s.plane.state != Ready && s.lastReady + grace <= s.plane.graceTimer.value)
  }

  lemma {:induction false} ExecKeepsInv(s: System, events: seq<Event>, grace: nat)
    requires Inv(s, grace) && Exec(s, events, grace).Some?
    ensures Inv(Exec(s, events, grace).value, grace)
    decreases |events|
  {
    if events != [] {
      ExecKeepsInv(Apply(s, events[0], grace), events[1..], grace);
    }
  }

  /** The callback runs only after a full grace period without readiness, and never after close. */
  lemma ExpiresOnlyAfterGrace(events: seq<Event>, e: Event, grace: nat)
    requires Exec(INITIAL, events, grace).Some? && Enabled(Exec(INITIAL, events, grace).value, e)
    requires var s := Exec(INITIAL, events, grace).value; Apply(s, e, grace).expired != s.expired
    ensures var s := Exec(INITIAL, events, grace).value;
            && e.GraceExpires? && !s.plane.closed && s.plane.state != Ready
            && s.lastReady + grace <= s.now
  {
    ExecKeepsInv(INITIAL, events, grace);
  }

  /** In every reachable state a timer that fires does run the callback, and only once. */
  lemma FiringExpires(events: seq<Event>, grace: nat)
    requires Exec(INITIAL, events, grace).Some? && Enabled(Exec(INITIAL, events, grace).value, GraceExpires)
    ensures var s := Exec(INITIAL, events, grace).value;
      && Apply(s, GraceExpires, grace).expired == s.expired + [s.now]
      && !Enabled(Apply(s, GraceExpires, grace), GraceExpires)
  {
    ExecKeepsInv(INITIAL, events, grace);
  }

  predicate ChangesState(e: Event) {
    e.Connects? || e.BecomesReady? || e.Reconnects? || e.Drops? || e.CloseCalled?
  }

  /** The client became ready at this event, and nothing has changed the state since. */
  predicate LastReady(events: seq<Event>, i: int) {
    0 <= i < |events| && events[i].BecomesReady? && forall j :: i < j < |events| ==> !ChangesState(events[j])
  }

  /** The plane is ready by its history: the client became ready last, and nobody has closed it. */
  ghost predicate ReadyByHistory(events: seq<Event>) {
    && CloseCalled !in events
    && exists i :: LastReady(events, i)
  }

  lemma HistoryStep(events: seq<Event>, e: Event)
    ensures ReadyByHistory(events + [e]) <==>
      if e.BecomesReady? then CloseCalled !in events else !ChangesState(e) && ReadyByHistory(events)
  {
    var all := events + [e];
    assert CloseCalled in all <==> CloseCalled in events || e == CloseCalled;
    assert all[|events|] == e && forall i :: 0 <= i < |events| ==> all[i] == events[i];
    if !e.BecomesReady? {
      assert forall i :: LastReady(all, i) <==> !ChangesState(e) && LastReady(events, i);
    } else {
      assert LastReady(all, |events|);
    }
  }

  lemma {:induction false} ReadyIsTheLastWord(events: seq<Event>, grace: nat)
    requires Exec(INITIAL, events, grace).Some?
    ensures var s := Exec(INITIAL, events, grace).value;
      && (IsReady(s.plane) <==> ReadyByHistory(events))
      && (s.plane.closed <==> CloseCalled in events)
    decreases |events|
  {
    if events != [] {
      var n := |events| - 1;
      var before, last := events[..n], events[n];
      assert events == before + [last];
      ExecSplit(INITIAL, before, [last], grace);
      ReadyIsTheLastWord(before, grace);
      HistoryStep(before, last);
      var s := Exec(INITIAL, before, grace).value;
      assert |[last][1..]| == 0;
      assert Exec(s, [last], grace) == Some(Apply(s, last, grace));
    }
  }

  lemma ExecSplit(s: System, a: seq<Event>, b: seq<Event>, grace: nat)
    requires Exec(s, a + b, grace).Some?
    ensures Exec(s, a, grace).Some?
    ensures Exec(Exec(s, a, grace).value, b, grace) == Exec(s, a + b, grace)
    decreases |a|
  {
    hide Enabled, Apply;
    if a == [] {
      assert a + b == b;
    } else {
      assert (a + b)[1..] == a[1..] + b;
      ExecSplit(Apply(s, a[0], grace), a[1..], b, grace);
    }
  }

  /** No event of the run makes the plane ready, closes it, or is the timer itself. */
  predicate OnlyFailures(events: seq<Event>) {
    forall i :: 0 <= i < |events| ==> !events[i].BecomesReady? && !events[i].CloseCalled? && !events[i].GraceExpires?
  }

  /** Repeated failures and reconnection attempts never move the deadline. */
  lemma {:induction false} FailuresDoNotPostpone(s: System, events: seq<Event>, grace: nat)
    requires Exec(s, events, grace).Some? && OnlyFailures(events) && s.plane.graceTimer.Some? && !s.plane.closed
    ensures Exec(s, events, grace).value.plane.graceTimer == s.plane.graceTimer
    decreases |events|
  {
    if events != [] {
      FailuresDoNotPostpone(Apply(s, events[0], grace), events[1..], grace);
    }
  }

  lemma {:induction false} NeverAfterClose(s: System, events: seq<Event>, grace: nat)
    requires s.plane.closed && s.plane.graceTimer.None? && Exec(s, events, grace).Some?
    ensures Exec(s, events, grace).value.expired == s.expired
    decreases |events|
  {
    if events != [] {
      NeverAfterClose(Apply(s, events[0], grace), events[1..], grace);
    }
  }
}
