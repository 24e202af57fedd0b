/**
 The Redis recovery supervisor of the chat gateway: six clients, one shared
 resubscription, a readiness flag and a watchdog that gives up. Waiters on the
 resubscription resume in their own steps after it settles.
 */
module RedisRecovery {
  import opened Wrappers

  datatype Client = Command | AdapterPublisher | AdapterSubscriber | BlockEvents | RoomEvents | SecurityEvents

  const ALL: set<Client> := {Command, AdapterPublisher, AdapterSubscriber, BlockEvents, RoomEvents, SecurityEvents}

  /** The `watchdog` variable: unset, a running timer, or a timer that fired or was cleared. */
  datatype Watchdog = Unset | Armed(deadline: nat) | Spent

  datatype Supervisor = Supervisor(
    closed: bool,
    degradedSince: Option<nat>,
    ready: bool,
    reconnectCount: nat,
    watchdog: Watchdog,
    resubscribing: bool,
    acceptsReady: bool,
    connected: set<Client>)

  const FRESH := Supervisor(false, None, false, 0, Unset, false, false, {})

  function Updated(s: Supervisor, now: nat, grace: nat): Supervisor {
    var nextReady := s.connected == ALL && !s.resubscribing;
    if nextReady == s.ready then s
    else if nextReady then s.(ready := true, degradedSince := None, watchdog := Unset)
    else if s.degradedSince.None? then s.(ready := false, degradedSince := Some(now), watchdog := Armed(now + grace))
    else s.(ready := false)
  }

  function Unavailable(s: Supervisor, now: nat, grace: nat): Supervisor {
    if s.closed then s else Updated(s.(connected := {}), now, grace)
  }

  /** Whether a ready event goes on to wait for the resubscription. */
  predicate CompletesSet(s: Supervisor, c: Client) {
    s.acceptsReady && !s.closed && s.connected + {c} == ALL
  }

  function Reported(s: Supervisor, c: Client): Supervisor {
    if !s.acceptsReady || s.closed then s
    else s.(connected := s.connected + {c}, resubscribing := s.resubscribing || CompletesSet(s, c))
  }

  function Closed(s: Supervisor): Supervisor {
    s.(closed := true, watchdog := if s.watchdog.Armed? then Spent else s.watchdog)
  }

  /** No watchdog while ready; a running one measures one grace period from the loss of readiness. */
  predicate TimersMatch(s: Supervisor, grace: nat) {
    && (s.ready ==> s.watchdog.Unset? && s.degradedSince.None?)
    && (s.watchdog.Armed? ==> s.degradedSince.Some? && s.watchdog.deadline == s.degradedSince.value + grace)
    && (s.degradedSince.None? ==> s.watchdog.Unset?)
  }

  predicate Coherent(s: Supervisor, grace: nat) {
    TimersMatch(s, grace) && (s.ready ==> s.connected == ALL)
  }

  class RedisRecoverySupervisor {
    const gracePeriod: nat
    var closed: bool
    var degradedSince: Option<nat>
    var ready: bool
    var reconnectCount: nat
    var watchdog: Watchdog
    var resubscribing: bool
    var acceptsReadyEvents: bool
    var connected: set<Client>

    function View(): Supervisor
      reads this
    {
      Supervisor(closed, degradedSince, ready, reconnectCount, watchdog, resubscribing, acceptsReadyEvents, connected)
    }

    predicate Valid()
      reads this
    {
      Coherent(View(), gracePeriod)
    }

    constructor (gracePeriod: nat)
      ensures Valid() && View() == FRESH && this.gracePeriod == gracePeriod
      ensures !closed && !ready && !acceptsReadyEvents && !resubscribing && connected == {} && watchdog.Unset?
    {
      this.gracePeriod := gracePeriod;
      closed, degradedSince, ready, reconnectCount := false, None, false, 0;
      watchdog, resubscribing, acceptsReadyEvents, connected := Unset, false, false, {};
    }

    /** Called when `connected` may have changed under a readiness flag that lags behind. */
    method UpdateState(now: nat)
      requires TimersMatch(View(), gracePeriod)
      modifies this
      ensures View() == Updated(old(View()), now, gracePeriod)
      ensures Valid()
      ensures ready <==> connected == ALL && !resubscribing
      ensures !ready && old(watchdog).Armed? ==> watchdog == old(watchdog)
      ensures old(ready) && !ready ==> watchdog == Armed(now + gracePeriod)
    {
      var nextReady := connected == ALL && !resubscribing;
      if nextReady == ready {
        return;
      }
      ready := nextReady;
      if ready {
        degradedSince := None;
        if !watchdog.Unset? {
          watchdog := Unset;
        }
      } else if degradedSince.None? {
        degradedSince := Some(now);
        watchdog := Armed(now + gracePeriod);
      }
    }

    method MarkClientUnavailable(now: nat)
      requires Valid()
      modifies this
      ensures View() == Unavailable(old(View()), now, gracePeriod)
      ensures Valid()
      ensures !closed ==> connected == {} && !ready
      ensures old(watchdog).Armed? ==> watchdog == old(watchdog)
      ensures !closed && old(ready) ==> watchdog == Armed(now + gracePeriod)
    {
      if closed {
        return;
      }
      connected := {};
      UpdateState(now);
    }

    method OnReconnecting(now: nat)
      requires Valid()
      modifies this
      ensures View() == Unavailable(old(View()).(reconnectCount := old(reconnectCount) + 1), now, gracePeriod)
      ensures Valid() && reconnectCount == old(reconnectCount) + 1
      ensures !closed ==> connected == {} && !ready
      ensures old(watchdog).Armed? ==> watchdog == old(watchdog)
    {
      reconnectCount := reconnectCount + 1;
      MarkClientUnavailable(now);
    }

    /** A ready event up to its first await; true when it awaits the resubscription. */
    method OnReady(c: Client) returns (waits: bool)
      requires Valid()
      modifies this
      ensures View() == Reported(old(View()), c)
      ensures waits == CompletesSet(old(View()), c)
      ensures Valid() && ready == old(ready) && watchdog == old(watchdog)
      ensures old(connected) <= connected <= old(connected) + {c}
      ensures waits ==> connected == ALL && resubscribing && c in connected
      ensures waits <==> old(acceptsReadyEvents) && !closed && connected == ALL
      ensures resubscribing == (old(resubscribing) || waits)
      ensures old(acceptsReadyEvents) && !closed ==> c in connected
    {
      if !acceptsReadyEvents || closed {
        return false;
      }
      connected := connected + {c};
      if connected != ALL {
        return false;
      }
      if !resubscribing {
        resubscribing := true;
      }
      waits := true;
    }

    /** `start` after all clients connected and answered a ping. */
    method BeginStart()
      requires Valid()
      modifies this
      ensures View() == old(View()).(connected := ALL, resubscribing := true)
      ensures Valid() && ready == old(ready)
    {
      connected := ALL;
      resubscribing := true;
    }

    /** `start` after the resubscription succeeded. */
    method FinishStart(now: nat)
      requires Valid()
      modifies this
      ensures View() == Updated(old(View()).(acceptsReady := true), now, gracePeriod)
      ensures Valid() && acceptsReadyEvents
      ensures ready <==> connected == ALL && !resubscribing
    {
      acceptsReadyEvents := true;
      UpdateState(now);
    }

    /** The timer callback: whether the owner is told to give up. */
    method WatchdogFires(now: nat) returns (givesUp: bool)
      requires Valid() && watchdog.Armed? && watchdog.deadline <= now
      modifies this
      ensures Valid() && View() == old(View()).(watchdog := Spent)
      ensures givesUp <==> !closed
      ensures degradedSince.Some? && degradedSince.value + gracePeriod <= now
    {
      watchdog := Spent;
      givesUp := !closed && !ready;
    }

    method BeginClose()
      requires Valid()
      modifies this
      ensures View() == Closed(old(View()))
      ensures Valid() && closed && !watchdog.Armed?
    {
      closed := true;
      if watchdog.Armed? {
        watchdog := Spent;
      }
    }
  }

  // ---------- Runs ----------

  datatype Start = NotStarted | AwaitingResubscription | Resumable(ok: bool) | Done

  /**
   `waiting` ready events await the resubscription; `succeeded` and `failed` of them may
   resume. `gaveUp` lists the times of the callback. `lastReady` is the last instant at
   which the supervisor was ready.
   */
  datatype System = System(
    supervisor: Supervisor,
    now: nat,
    start: Start,
    waiting: nat,
    succeeded: nat,
    failed: nat,
    gaveUp: seq<nat>,
    lastReady: nat)

  const INITIAL := System(FRESH, 0, NotStarted, 0, 0, 0, [], 0)

  datatype Event =
    | ClientsAnswer
    | StartResumes
    | ClientReady(client: Client)
    | ClientUnavailable
    | ClientReconnecting
    | ResubscriptionSettles(ok: bool)
    | WaiterSucceeds
    | WaiterFails
    | WatchdogFires
    | CloseCalled
    | TimePasses(delta: nat)

  predicate Enabled(s: System, e: Event) {
    match e
    case ClientsAnswer => s.start.NotStarted?
    case StartResumes => s.start.Resumable?
    case ResubscriptionSettles(_) => s.supervisor.resubscribing
    case WaiterSucceeds => s.succeeded > 0
    case WaiterFails => s.failed > 0
    case WatchdogFires => s.supervisor.watchdog.Armed? && s.supervisor.watchdog.deadline <= s.now
    case _ => true
  }

  function Moved(s: System, e: Event, grace: nat): System
    requires Enabled(s, e)
  {
    var v := s.supervisor;
    match e
    case ClientsAnswer => s.(supervisor := v.(connected := ALL, resubscribing := true), start := AwaitingResubscription)
    case StartResumes =>
      if s.start.ok then s.(supervisor := Updated(v.(acceptsReady := true), s.now, grace), start := Done)
      else s.(start := Done)
    case ClientReady(c) =>
      s.(supervisor := Reported(v, c), waiting := s.waiting + (if CompletesSet(v, c) then 1 else 0))
    case ClientUnavailable => s.(supervisor := Unavailable(v, s.now, grace))
    case ClientReconnecting =>
      s.(supervisor := Unavailable(v.(reconnectCount := v.reconnectCount + 1), s.now, grace))
    case ResubscriptionSettles(ok) =>
      s.(supervisor := v.(resubscribing := false),
         start := if s.start.AwaitingResubscription? then Resumable(ok) else s.start,
         waiting := 0,
         succeeded := s.succeeded + (if ok then s.waiting else 0),
         failed := s.failed + (if ok then 0 else s.waiting))
    case WaiterSucceeds => s.(supervisor := Updated(v, s.now, grace), succeeded := s.succeeded - 1)
    case WaiterFails => s.(supervisor := Unavailable(v, s.now, grace), failed := s.failed - 1)
    case WatchdogFires =>
      s.(supervisor := v.(watchdog := Spent),
         gaveUp := if !v.closed && !v.ready then s.gaveUp + [s.now] else s.gaveUp)
    case CloseCalled => s.(supervisor := Closed(v))
    case TimePasses(delta) => s.(now := s.now + delta)
  }

  function Apply(s: System, e: Event, grace: nat): System
    requires Enabled(s, e)
  {
    var s' := Moved(s, e, grace);
    s'.(lastReady := if s.supervisor.ready || s'.supervisor.ready then s'.now else s.lastReady)
  }

  function Exec(s: System, events: seq<Event>, grace: nat): Option<System>
    decreases |events|
  {
    if events == [] then Some(s)
    else if Enabled(s, events[0]) then Exec(Apply(s, events[0], grace), events[1..], grace)
    else None
  }

  /** The supervisor is coherent, and a running watchdog measures from the last ready instant. */
  predicate Inv(s: System, grace: nat) {
    && Coherent(s.supervisor, grace)
    && (s.supervisor.watchdog.Armed? ==> s.supervisor.degradedSince == Some(s.lastReady))
    && s.lastReady <= s.now
  }

  lemma EveryClientIsListed(c: Client)
    ensures c in ALL
  {
  }

  lemma StepKeepsInv(s: System, e: Event, grace: nat)
    requires Inv(s, grace) && Enabled(s, e)
    ensures Inv(Apply(s, e, grace), grace)
  {
    if e.ClientReady? && s.supervisor.connected == ALL {
      EveryClientIsListed(e.client);
      assert s.supervisor.connected + {e.client} == ALL;
    }
  }

  lemma {:induction false} ExecKeepsInv(s: System, events: seq<Event>, grace: nat)
    requires Inv(s, grace) && Exec(s, events, grace).Some?
    ensures Inv(Exec(s, events, grace).value, grace)
    decreases |events|
  {
    if events != [] {
      StepKeepsInv(s, events[0], grace);
      ExecKeepsInv(Apply(s, events[0], grace), events[1..], grace);
    }
  }

  /** In every reachable state ready implies that all six clients are connected. */
  lemma ReadyMeansAllSix(events: seq<Event>, grace: nat)
    requires Exec(INITIAL, events, grace).Some? && Exec(INITIAL, events, grace).value.supervisor.ready
    ensures Exec(INITIAL, events, grace).value.supervisor.connected == ALL
  {
    ExecKeepsInv(INITIAL, events, grace);
  }

  /**
   The callback runs only when the watchdog fires, never after close, and only after a
   full grace period in which the supervisor was never ready.
   */
  lemma GivesUpOnlyAfterGrace(events: seq<Event>, e: Event, grace: nat)
    requires Exec(INITIAL, events, grace).Some? && Enabled(Exec(INITIAL, events, grace).value, e)
    requires var s := Exec(INITIAL, events, grace).value; Apply(s, e, grace).gaveUp != s.gaveUp
    ensures var s := Exec(INITIAL, events, grace).value;
            && e.WatchdogFires? && !s.supervisor.closed && !s.supervisor.ready
            && s.lastReady + grace <= s.now
            && s.supervisor.degradedSince == Some(s.lastReady)
            && Apply(s, e, grace).gaveUp == s.gaveUp + [s.now]
  {
    ExecKeepsInv(INITIAL, events, grace);
  }

  /** A watchdog that fires does give up, unless the supervisor is closed. */
  lemma FiringGivesUp(events: seq<Event>, grace: nat)
    requires Exec(INITIAL, events, grace).Some? && Enabled(Exec(INITIAL, events, grace).value, WatchdogFires)
    ensures var s := Exec(INITIAL, events, grace).value;
      Apply(s, WatchdogFires, grace).gaveUp == if s.supervisor.closed then s.gaveUp else s.gaveUp + [s.now]
  {
    ExecKeepsInv(INITIAL, events, grace);
  }

  /** No state of the run is ready. */
  predicate NeverReady(s: System, events: seq<Event>, grace: nat)
    decreases |events|
  {
    && !s.supervisor.ready
    && (events != [] && Enabled(s, events[0]) ==> NeverReady(Apply(s, events[0], grace), events[1..], grace))
  }

  /**
   While readiness does not return, any number of failures, reports and failed
   resubscriptions leaves the deadline where it is, and the callback runs at most once.
   */
  lemma {:induction false} FailuresDoNotPostpone(s: System, events: seq<Event>, grace: nat)
    requires Inv(s, grace) && Exec(s, events, grace).Some? && NeverReady(s, events, grace)
    requires !s.supervisor.watchdog.Unset?
    ensures var s' := Exec(s, events, grace).value;
            && s'.lastReady == s.lastReady
            && (s'.supervisor.watchdog == s.supervisor.watchdog || s'.supervisor.watchdog.Spent?)
            && |s.gaveUp| <= |s'.gaveUp| <= |s.gaveUp| + 1
            && (|s'.gaveUp| == |s.gaveUp| + 1 ==> s.supervisor.watchdog.Armed? && s'.supervisor.watchdog.Spent?)
    decreases |events|
  {
    if events != [] {
      StepKeepsInv(s, events[0], grace);
      FailuresDoNotPostpone(Apply(s, events[0], grace), events[1..], grace);
    }
  }

  /** After close nothing is given up, whatever happens. */
  lemma {:induction false} NeverAfterClose(s: System, events: seq<Event>, grace: nat)
    requires s.supervisor.closed && Exec(s, events, grace).Some?
    ensures Exec(s, events, grace).value.gaveUp == s.gaveUp
    decreases |events|
  {
    if events != [] {
      NeverAfterClose(Apply(s, events[0], grace), events[1..], grace);
    }
  }

  // ---------- Recovery does happen ----------

  /** A start whose resubscription succeeds makes the supervisor ready, and open to ready events. */
  lemma StartMakesReady(grace: nat)
    ensures var run := Exec(INITIAL, [ClientsAnswer, ResubscriptionSettles(true), StartResumes], grace);
      && run.Some? && run.value.supervisor.ready && run.value.supervisor.acceptsReady && run.value.start.Done?
  {
    var events := [ClientsAnswer, ResubscriptionSettles(true), StartResumes];
    var s1 := Apply(INITIAL, ClientsAnswer, grace);
    var s2 := Apply(s1, ResubscriptionSettles(true), grace);
    var s3 := Apply(s2, StartResumes, grace);
    assert |events[1..][1..][1..]| == 0;
    assert Exec(s2, events[1..][1..], grace) == Some(s3);
    assert Exec(s1, events[1..], grace) == Some(s3);
  }

  /** When the last missing client reports and the resubscription succeeds, readiness is back. */
  lemma RecoversWithTheLastClient(s: System, c: Client, grace: nat)
    requires s.supervisor.acceptsReady && !s.supervisor.closed && !s.supervisor.ready
    requires !s.supervisor.resubscribing && s.supervisor.connected + {c} == ALL
    ensures var run := Exec(s, [ClientReady(c), ResubscriptionSettles(true), WaiterSucceeds], grace);
      && run.Some? && run.value.supervisor.ready
      && run.value.supervisor.watchdog.Unset? && run.value.supervisor.degradedSince.None?
  {
    var events := [ClientReady(c), ResubscriptionSettles(true), WaiterSucceeds];
    var s1 := Apply(s, ClientReady(c), grace);
    var s2 := Apply(s1, ResubscriptionSettles(true), grace);
    var s3 := Apply(s2, WaiterSucceeds, grace);
    assert |events[1..][1..][1..]| == 0;
    assert Exec(s2, events[1..][1..], grace) == Some(s3);
    assert Exec(s1, events[1..], grace) == Some(s3);
  }

  /** Ready events before the start has finished are ignored. */
  lemma EarlyReadyIsIgnored(s: System, c: Client, grace: nat)
    requires !s.supervisor.acceptsReady
    ensures Apply(s, ClientReady(c), grace).supervisor == s.supervisor
    ensures Apply(s, ClientReady(c), grace).waiting == s.waiting
  {
  }

  /** Ready events that wait are conserved: each resumes once, as the resubscription it waited for ended. */
  lemma WaitersAreConserved(s: System, e: Event, grace: nat)
    requires Enabled(s, e)
    ensures var s' := Apply(s, e, grace);
      && s'.waiting + s'.succeeded + s'.failed == s.waiting + s.succeeded + s.failed
           + (if e.ClientReady? && CompletesSet(s.supervisor, e.client) then 1 else 0)
           - (if e.WaiterSucceeds? || e.WaiterFails? then 1 else 0)
      && (s'.succeeded > s.succeeded ==> e == ResubscriptionSettles(true))
      && (s'.failed > s.failed ==> e == ResubscriptionSettles(false))
      && (e.ResubscriptionSettles? ==> s'.waiting == 0)
  {
  }

  function Reconnections(events: seq<Event>): nat {
    if events == [] then 0 else (if events[0].ClientReconnecting? then 1 else 0) + Reconnections(events[1..])
  }

  /** The reconnection count is that of the reconnecting events, before and after close. */
  lemma {:induction false} ReconnectionsAreCounted(s: System, events: seq<Event>, grace: nat)
    requires Exec(s, events, grace).Some?
    ensures Exec(s, events, grace).value.supervisor.reconnectCount
         == s.supervisor.reconnectCount + Reconnections(events)
    decreases |events|
  {
    if events != [] {
      ReconnectionsAreCounted(Apply(s, events[0], grace), events[1..], grace);
    }
  }

  // ---------- Readiness after close ----------

  /**
   What may still bring a closed supervisor to readiness: a start that has not begun, or six connected
   clients and a resubscription that has succeeded for someone or that someone still awaits.
   */
  predicate CanBecomeReady(s: System) {
    || s.start.NotStarted?
    || (s.supervisor.connected == ALL
        && (s.start == Resumable(true)
            || s.succeeded > 0
            || (s.supervisor.resubscribing && (s.start.AwaitingResubscription? || s.waiting > 0))))
  }

  /** The run reaches a ready state. */
  ghost predicate EndsReady(s: System, events: seq<Event>, grace: nat) {
    Exec(s, events, grace).Some? && Exec(s, events, grace).value.supervisor.ready
  }

  lemma {:induction false} StaysUnready(s: System, events: seq<Event>, grace: nat)
    requires s.supervisor.closed && !s.supervisor.ready && !CanBecomeReady(s)
    requires Exec(s, events, grace).Some?
    ensures !Exec(s, events, grace).value.supervisor.ready
    decreases |events|
  {
    if events != [] {
      StaysUnready(Apply(s, events[0], grace), events[1..], grace);
    }
  }

  /** The next step towards readiness: begin, let the resubscription succeed, resume. */
  function NextToReady(s: System): Event
    requires CanBecomeReady(s)
  {
    if s.start.NotStarted? then ClientsAnswer
    else if s.supervisor.resubscribing then ResubscriptionSettles(true)
    else if s.start == Resumable(true) then StartResumes
    else WaiterSucceeds
  }

  lemma {:induction false} BecomesReady(s: System, grace: nat) returns (events: seq<Event>)
    requires s.supervisor.closed && !s.supervisor.ready && CanBecomeReady(s)
    ensures EndsReady(s, events, grace)
    decreases s.start.NotStarted?, s.supervisor.resubscribing
  {
    var e := NextToReady(s);
    var s' := Apply(s, e, grace);
    if s'.supervisor.ready {
      events := [e];
      assert Exec(s', events[1..], grace) == Some(s');
    } else {
      var later := BecomesReady(s', grace);
      events := [e] + later;
      assert events[1..] == later;
    }
  }

  /** Exactly when a closed supervisor may still become ready, as read off its state. */
  lemma ReadyAfterClose(s: System, grace: nat)
    requires s.supervisor.closed && !s.supervisor.ready
    ensures (exists events :: EndsReady(s, events, grace)) <==> CanBecomeReady(s)
  {
    if CanBecomeReady(s) {
      var events := BecomesReady(s, grace);
    } else {
      forall events | Exec(s, events, grace).Some?
        ensures !Exec(s, events, grace).value.supervisor.ready
      {
        StaysUnready(s, events, grace);
      }
    }
  }

  /** And it does: start, all clients answer, close, the resubscription succeeds, start resumes. */
  lemma ReadyAfterCloseHappens(grace: nat)
    ensures var run := Exec(INITIAL, [ClientsAnswer, CloseCalled, ResubscriptionSettles(true), StartResumes], grace);
      run.Some? && run.value.supervisor.closed && run.value.supervisor.ready
  {
  }

  // ---------- Who is connected ----------

  /** The clients that reported ready since the latest unavailability, over those of the start. */
  function ReportedSince(base: set<Client>, events: seq<Event>): set<Client>
    decreases |events|
  {
    if events == [] then base
    else
      match events[|events| - 1]
      case ClientReady(c) => ReportedSince(base, events[..|events| - 1]) + {c}
      case ClientUnavailable => {}
      case ClientReconnecting => {}
      case WaiterFails => {}
      case _ => ReportedSince(base, events[..|events| - 1])
  }

  lemma ExecSplit(s: System, a: seq<Event>, b: seq<Event>, grace: nat)
    requires Exec(s, a + b, grace).Some?
    ensures Exec(s, a, grace).Some?
    ensures Exec(Exec(s, a, grace).value, b, grace) == Exec(s, a + b, grace)
    decreases |a|
  {
    if a == [] {
      assert a + b == b;
    } else {
      assert (a + b)[1..] == a[1..] + b;
      ExecSplit(Apply(s, a[0], grace), a[1..], b, grace);
    }
  }

  lemma {:induction false} AcceptingIsKept(s: System, events: seq<Event>, grace: nat)
    requires s.supervisor.acceptsReady && s.start.Done? && !s.supervisor.closed && CloseCalled !in events
    requires Exec(s, events, grace).Some?
    ensures var s' := Exec(s, events, grace).value;
            s'.supervisor.acceptsReady && s'.start.Done? && !s'.supervisor.closed
    decreases |events|
  {
    if events != [] {
      AcceptingIsKept(Apply(s, events[0], grace), events[1..], grace);
    }
  }

  /**
   After start and until close, `connected` is exactly the set of clients that reported
   ready since the latest unavailability, a failed resubscription counting as one.
   */
  lemma {:induction false} ConnectedAreTheReported(s: System, events: seq<Event>, grace: nat)
    requires s.supervisor.acceptsReady && s.start.Done? && !s.supervisor.closed && CloseCalled !in events
    requires Exec(s, events, grace).Some?
    ensures Exec(s, events, grace).value.supervisor.connected == ReportedSince(s.supervisor.connected, events)
    decreases |events|
  {
    if events != [] {
      var init, last := events[..|events| - 1], events[|events| - 1];
      assert events == init + [last];
      ExecSplit(s, init, [last], grace);
      ConnectedAreTheReported(s, init, grace);
      AcceptingIsKept(s, init, grace);
      var mid := Exec(s, init, grace).value;
      assert [last][1..] == [];
      assert Exec(mid, [last], grace) == Some(Apply(mid, last, grace));
      assert last in events;
    }
  }
}
