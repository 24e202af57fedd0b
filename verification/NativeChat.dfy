/**
 One chat socket: subscribe, unsubscribe and other operations run concurrently, each
 suspended at its awaits, over a shared room set, an operation counter and a presence
 heartbeat. The room limit is checked before two awaits, so concurrent subscribes can
 exceed it, by exactly how much is proved here.
 */
module NativeChat {
  import opened Wrappers

  /** Room ids; a slug is looked up in the same set as an id. */
  type Room = nat
  type OperationId = nat

  datatype Settings = Settings(maxRooms: nat, maxOperations: nat)

  // ---------- The shared state of a socket ----------

  datatype Socket = Socket(outstanding: nat, rooms: set<Room>, heartbeat: bool)

  predicate RoomLimitReached(s: Socket, room: Room, settings: Settings) {
    room !in s.rooms && |s.rooms| >= settings.maxRooms
  }

  function Started(s: Socket): Socket {
    s.(outstanding := s.outstanding + 1)
  }

  function Finished(s: Socket): Socket {
    s.(outstanding := if s.outstanding == 0 then 0 else s.outstanding - 1)
  }

  function Subscribed(s: Socket, room: Room): Socket {
    s.(rooms := s.rooms + {room}, heartbeat := s.heartbeat || room !in s.rooms)
  }

  function Unsubscribed(s: Socket, room: Room): Socket {
    s.(rooms := s.rooms - {room}, heartbeat := s.heartbeat && !(room in s.rooms && s.rooms == {room}))
  }

  function Disconnected(s: Socket): Socket {
    s.(rooms := {}, heartbeat := false)
  }

  class ChatSocket {
    const settings: Settings
    var outstandingOperations: nat
    var subscribedRoomIds: set<Room>
    var heartbeatTimer: bool

    function View(): Socket
      reads this
    {
      Socket(outstandingOperations, subscribedRoomIds, heartbeatTimer)
    }

    constructor (settings: Settings)
      ensures View() == Socket(0, {}, false) && this.settings == settings
    {
      this.settings := settings;
      outstandingOperations, subscribedRoomIds, heartbeatTimer := 0, {}, false;
    }

    method TryStartOperation() returns (started: bool)
      modifies this
      ensures started == (old(outstandingOperations) < settings.maxOperations)
      ensures View() == if started then Started(old(View())) else old(View())
      ensures outstandingOperations == old(outstandingOperations) + if started then 1 else 0
    {
      if outstandingOperations >= settings.maxOperations {
        return false;
      }
      outstandingOperations := outstandingOperations + 1;
      started := true;
    }

    method FinishOperation()
      modifies this
      ensures View() == Finished(old(View()))
      ensures old(outstandingOperations) > 0 ==> outstandingOperations == old(outstandingOperations) - 1
    {
      outstandingOperations := if outstandingOperations == 0 then 0 else outstandingOperations - 1;
    }

    method IsRoomLimitReached(room: Room) returns (reached: bool)
      ensures reached == RoomLimitReached(View(), room, settings)
      ensures reached <==> room !in subscribedRoomIds && settings.maxRooms <= |subscribedRoomIds|
    {
      reached := room !in subscribedRoomIds && |subscribedRoomIds| >= settings.maxRooms;
    }

    method StartHeartbeat()
      modifies this
      ensures View() == old(View()).(heartbeat := true)
    {
      if heartbeatTimer {
        return;
      }
      heartbeatTimer := true;
    }

    method StopHeartbeat()
      modifies this
      ensures View() == old(View()).(heartbeat := false)
    {
      if heartbeatTimer {
        heartbeatTimer := false;
      }
    }

    /** The end of a subscribe: after `socket.join`. */
    method CommitSubscribe(room: Room)
      modifies this
      ensures View() == Subscribed(old(View()), room)
      ensures room in subscribedRoomIds && outstandingOperations == old(outstandingOperations)
      ensures forall r :: r != room ==> (r in subscribedRoomIds <==> r in old(subscribedRoomIds))
      ensures room !in old(subscribedRoomIds) ==> heartbeatTimer
    {
      var wasSubscribed := room in subscribedRoomIds;
      subscribedRoomIds := subscribedRoomIds + {room};
      if !wasSubscribed {
        StartHeartbeat();
      }
    }

    /** The middle of an unsubscribe: after `socket.leave`. */
    method CommitUnsubscribe(room: Room)
      modifies this
      ensures View() == Unsubscribed(old(View()), room)
      ensures room !in subscribedRoomIds && outstandingOperations == old(outstandingOperations)
      ensures forall r :: r != room ==> (r in subscribedRoomIds <==> r in old(subscribedRoomIds))
      ensures old(subscribedRoomIds) != {} && subscribedRoomIds == {} ==> !heartbeatTimer
      ensures subscribedRoomIds != {} ==> heartbeatTimer == old(heartbeatTimer)
    {
      var wasSubscribed := room in subscribedRoomIds;
      subscribedRoomIds := subscribedRoomIds - {room};
      if wasSubscribed {
        if subscribedRoomIds == {} {
          StopHeartbeat();
        }
      }
      assert old(subscribedRoomIds) == {room} <==> wasSubscribed && subscribedRoomIds == {};
    }

    method OnDisconnect()
      modifies this
      ensures View() == Disconnected(old(View()))
      ensures subscribedRoomIds == {} && !heartbeatTimer && outstandingOperations == old(outstandingOperations)
    {
      StopHeartbeat();
      subscribedRoomIds := {};
    }
  }

  // ---------- Suspended operations ----------

  datatype Request = SubscribeTo(slug: Room) | UnsubscribeFrom(room: Room) | MessageOrRead

  /** An operation in flight, by the await it is suspended at. */
  datatype Operation =
    | Limiting(request: Request)
    | Loading(slug: Room)
    | Joining(room: Room)
    | Leaving(room: Room)
    | Clearing(room: Room)

  datatype System = System(socket: Socket, operations: map<OperationId, Operation>)

  const INITIAL := System(Socket(0, {}, false), map[])

  datatype Event =
    | Arrives(id: OperationId, request: Request)
    | LimiterReplies(id: OperationId, allowed: bool)
    | SnapshotLoads(id: OperationId, room: Room)
    | JoinCompletes(id: OperationId)
    | LeaveCompletes(id: OperationId)
    | Settles(id: OperationId)
    | SocketDisconnects

  predicate Enabled(s: System, e: Event) {
    match e
    case Arrives(id, _) => id !in s.operations
    case LimiterReplies(id, _) => id in s.operations && s.operations[id].Limiting?
    case SnapshotLoads(id, _) => id in s.operations && s.operations[id].Loading?
    case JoinCompletes(id) => id in s.operations && s.operations[id].Joining?
    case LeaveCompletes(id) => id in s.operations && s.operations[id].Leaving?
    // any await may reject, which ends the operation like its last await does
    case Settles(id) => id in s.operations
    case SocketDisconnects => true
  }

  function Finish(s: System, id: OperationId): System {
    System(Finished(s.socket), s.operations - {id})
  }

  function Suspend(s: System, id: OperationId, at: Operation): System {
    s.(operations := s.operations[id := at])
  }

  function AfterLimiter(s: System, id: OperationId, allowed: bool, settings: Settings): System
    requires Enabled(s, LimiterReplies(id, allowed))
  {
    if !allowed then Finish(s, id)
    else
      match s.operations[id].request
      case SubscribeTo(slug) =>
        if RoomLimitReached(s.socket, slug, settings) then Finish(s, id) else Suspend(s, id, Loading(slug))
      case UnsubscribeFrom(room) => Suspend(s, id, Leaving(room))
      case MessageOrRead => s
  }

  function Apply(s: System, e: Event, settings: Settings): System
    requires Enabled(s, e)
  {
    match e
    case Arrives(id, request) =>
      if s.socket.outstanding >= settings.maxOperations then s
      else Suspend(s.(socket := Started(s.socket)), id, Limiting(request))
    case LimiterReplies(id, allowed) => AfterLimiter(s, id, allowed, settings)
    case SnapshotLoads(id, room) =>
      if RoomLimitReached(s.socket, room, settings) then Finish(s, id) else Suspend(s, id, Joining(room))
    case JoinCompletes(id) => Finish(s.(socket := Subscribed(s.socket, s.operations[id].room)), id)
    case LeaveCompletes(id) =>
      var room := s.operations[id].room;
      Suspend(s.(socket := Unsubscribed(s.socket, room)), id, Clearing(room))
    case Settles(id) => Finish(s, id)
    case SocketDisconnects => s.(socket := Disconnected(s.socket))
  }

  function Exec(s: System, events: seq<Event>, settings: Settings): Option<System>
    decreases |events|
  {
    if events == [] then Some(s)
    else if Enabled(s, events[0]) then Exec(Apply(s, events[0], settings), events[1..], settings)
    else None
  }

  /** No state of the run has more than k operations in flight. */
  predicate AtMostInFlight(s: System, events: seq<Event>, k: nat, settings: Settings)
    decreases |events|
  {
    && |s.operations| <= k
    && (events != [] && Enabled(s, events[0]) ==>
          AtMostInFlight(Apply(s, events[0], settings), events[1..], k, settings))
  }

  // ---------- Counter and heartbeat ----------

  /** The counter is the number of operations in flight, so its clamp at zero never acts. */
  predicate CounterInv(s: System, settings: Settings) {
    s.socket.outstanding == |s.operations| <= settings.maxOperations
  }

  predicate HeartbeatInv(s: Socket) {
    s.heartbeat <==> s.rooms != {}
  }

  predicate Inv(s: System, settings: Settings) {
    CounterInv(s, settings) && HeartbeatInv(s.socket)
  }

  lemma SizeAfterRemoval(m: map<OperationId, Operation>, id: OperationId)
    requires id in m
    ensures |m - {id}| == |m| - 1
  {
  }

  lemma StepKeepsCounter(s: System, e: Event, settings: Settings)
    requires CounterInv(s, settings) && Enabled(s, e)
    ensures CounterInv(Apply(s, e, settings), settings)
  {
  }

  lemma StepKeepsHeartbeat(s: System, e: Event, settings: Settings)
    requires HeartbeatInv(s.socket) && Enabled(s, e)
    ensures HeartbeatInv(Apply(s, e, settings).socket)
  {
  }

  lemma StepKeepsInv(s: System, e: Event, settings: Settings)
    requires Inv(s, settings) && Enabled(s, e)
    ensures Inv(Apply(s, e, settings), settings)
  {
    StepKeepsCounter(s, e, settings);
    StepKeepsHeartbeat(s, e, settings);
  }

  // ---------- What each check decides ----------

  /** A subscribe goes on from the limiter, and again from the snapshot, exactly if its room fits at that time. */
  lemma SubscribeIsChecked(s: System, id: OperationId, room: Room, settings: Settings)
    ensures Enabled(s, LimiterReplies(id, true)) && s.operations[id] == Limiting(SubscribeTo(room)) ==>
      Apply(s, LimiterReplies(id, true), settings) ==
        if room in s.socket.rooms || |s.socket.rooms| < settings.maxRooms
        then s.(operations := s.operations[id := Loading(room)]) else Finish(s, id)
    ensures Enabled(s, SnapshotLoads(id, room)) ==>
      Apply(s, SnapshotLoads(id, room), settings) ==
        if room in s.socket.rooms || |s.socket.rooms| < settings.maxRooms
        then s.(operations := s.operations[id := Joining(room)]) else Finish(s, id)
  {
  }

  /** An operation the limiter refuses ends at once, and one it allows that is no subscribe goes on unchecked. */
  lemma OthersAreNotChecked(s: System, id: OperationId, room: Room, settings: Settings)
    ensures Enabled(s, LimiterReplies(id, false)) ==>
      Apply(s, LimiterReplies(id, false), settings) == Finish(s, id)
    ensures Enabled(s, LimiterReplies(id, true)) && s.operations[id] == Limiting(UnsubscribeFrom(room)) ==>
      Apply(s, LimiterReplies(id, true), settings) == s.(operations := s.operations[id := Leaving(room)])
  {
  }

  // ---------- The room limit under concurrency ----------

  function JoiningRooms(operations: map<OperationId, Operation>): set<Room> {
    set id | id in operations && operations[id].Joining? :: operations[id].room
  }

  /** Rooms subscribed, together with those past the limit check. */
  function Occupied(s: System): set<Room> {
    s.socket.rooms + JoiningRooms(s.operations)
  }

  lemma SubsetCount<T>(a: set<T>, b: set<T>)
    requires a <= b
    ensures |a| <= |b|
  {
    assert b == a + (b - a);
  }

  lemma {:induction false} JoiningRoomsCount(operations: map<OperationId, Operation>)
    ensures |JoiningRooms(operations)| <= |operations|
    decreases |operations|
  {
    if operations == map[] {
      assert JoiningRooms(operations) == {};
    } else {
      var id :| id in operations;
      var rest := operations - {id};
      SizeAfterRemoval(operations, id);
      JoiningRoomsCount(rest);
      var one := if operations[id].Joining? then {operations[id].room} else {};
      forall room | room in JoiningRooms(operations)
        ensures room in JoiningRooms(rest) + one
      {
        var x :| x in operations && operations[x].Joining? && operations[x].room == room;
        assert x == id || x in rest;
      }
      SubsetCount(JoiningRooms(operations), JoiningRooms(rest) + one);
    }
  }

  /** Only passing the limit check adds a room to those occupied. */
  lemma OccupiedGrowsAtTheCheck(s: System, e: Event, settings: Settings)
    requires Enabled(s, e)
    requires e.SnapshotLoads? ==> RoomLimitReached(s.socket, e.room, settings) || e.room in s.socket.rooms
    ensures Occupied(Apply(s, e, settings)) <= Occupied(s)
  {
  }

  predicate WithinBound(s: System, k: nat, settings: Settings) {
    Occupied(s) != {} ==> |Occupied(s)| < settings.maxRooms + k
  }

  lemma StepKeepsBound(s: System, e: Event, k: nat, settings: Settings)
    requires Enabled(s, e) && WithinBound(s, k, settings)
    requires |Apply(s, e, settings).operations| <= k
    ensures WithinBound(Apply(s, e, settings), k, settings)
  {
    var s' := Apply(s, e, settings);
    if e.SnapshotLoads? && !RoomLimitReached(s.socket, e.room, settings) && e.room !in s.socket.rooms {
      JoiningRoomsCount(s'.operations);
    } else {
      OccupiedGrowsAtTheCheck(s, e, settings);
      SubsetCount(Occupied(s'), Occupied(s));
    }
  }

  lemma {:induction false} ExecKeepsBound(s: System, events: seq<Event>, k: nat, settings: Settings)
    requires WithinBound(s, k, settings) && Inv(s, settings)
    requires Exec(s, events, settings).Some? && AtMostInFlight(s, events, k, settings)
    ensures WithinBound(Exec(s, events, settings).value, k, settings) && Inv(Exec(s, events, settings).value, settings)
    decreases |events|
  {
    if events != [] {
      StepKeepsInv(s, events[0], settings);
      assert |Apply(s, events[0], settings).operations| <= k;
      StepKeepsBound(s, events[0], k, settings);
      ExecKeepsBound(Apply(s, events[0], settings), events[1..], k, settings);
    }
  }

  lemma {:induction false} CounterBoundsFlight(s: System, events: seq<Event>, settings: Settings)
    requires Inv(s, settings)
    ensures AtMostInFlight(s, events, settings.maxOperations, settings)
    decreases |events|
  {
    if events != [] && Enabled(s, events[0]) {
      StepKeepsInv(s, events[0], settings);
      CounterBoundsFlight(Apply(s, events[0], settings), events[1..], settings);
    }
  }

  /**
   Under every interleaving the counter equals the operations in flight and stays within
   its limit, the heartbeat runs exactly while the room set is non-empty, and the rooms
   subscribed or past the check number at most maxRooms + maxOperations - 1.
   */
  lemma EveryInterleaving(events: seq<Event>, settings: Settings)
    requires Exec(INITIAL, events, settings).Some?
    ensures var s := Exec(INITIAL, events, settings).value;
            && s.socket.outstanding == |s.operations| <= settings.maxOperations
            && (s.socket.heartbeat <==> s.socket.rooms != {})
            && (Occupied(s) != {} ==> |Occupied(s)| <= settings.maxRooms + settings.maxOperations - 1)
  {
    assert Occupied(INITIAL) == {};
    CounterBoundsFlight(INITIAL, events, settings);
    ExecKeepsBound(INITIAL, events, settings.maxOperations, settings);
  }

  /** If operations are serial the room limit is strict. */
  lemma SerialOperationsKeepTheLimit(events: seq<Event>, settings: Settings)
    requires Exec(INITIAL, events, settings).Some? && AtMostInFlight(INITIAL, events, 1, settings)
    ensures |Occupied(Exec(INITIAL, events, settings).value)| <= settings.maxRooms
  {
    assert Occupied(INITIAL) == {};
    ExecKeepsBound(INITIAL, events, 1, settings);
  }

  // ---------- After the disconnect ----------

  /** The transport is gone: no further request arrives, but operations in flight go on. */
  predicate NoArrivals(events: seq<Event>) {
    forall i :: 0 <= i < |events| ==> !events[i].Arrives?
  }

  /** A subscribe in flight that a cleared room set lets through: past its checks, or still before them. */
  predicate CanRejoin(s: System, id: OperationId, settings: Settings) {
    && id in s.operations
    && match s.operations[id]
       case Joining(_) => true
       case Loading(_) => settings.maxRooms > 0
       case Limiting(request) => settings.maxRooms > 0 && request.SubscribeTo?
       case _ => false
  }

  /** Steps left until such a subscribe has joined. */
  function StepsToJoin(at: Operation): nat {
    match at
    case Joining(_) => 1
    case Loading(_) => 2
    case _ => 3
  }

  /** On an empty room set the subscribe can go through, and brings back a room and the heartbeat. */
  lemma {:induction false} SubscribeOutlivesDisconnect(s: System, id: OperationId, settings: Settings)
    returns (events: seq<Event>)
    requires s.socket.rooms == {} && CanRejoin(s, id, settings)
    ensures NoArrivals(events) && Exec(s, events, settings).Some?
    ensures Exec(s, events, settings).value.socket.rooms != {} && Exec(s, events, settings).value.socket.heartbeat
    decreases StepsToJoin(s.operations[id])
  {
    var e :=
      match s.operations[id]
      case Joining(_) => JoinCompletes(id)
      case Loading(slug) => SnapshotLoads(id, slug)
      case _ => LimiterReplies(id, true);
    var s' := Apply(s, e, settings);
    if s.operations[id].Joining? {
      events := [e];
      assert Exec(s', events[1..], settings) == Some(s');
    } else {
      var later := SubscribeOutlivesDisconnect(s', id, settings);
      events := [e] + later;
      assert events[1..] == later;
    }
  }

  /** Without one no continuation brings anything back. */
  lemma {:induction false} QuietAfterDisconnect(s: System, events: seq<Event>, settings: Settings)
    requires s.socket.rooms == {} && !s.socket.heartbeat && forall id :: !CanRejoin(s, id, settings)
    requires NoArrivals(events) && Exec(s, events, settings).Some?
    ensures Exec(s, events, settings).value.socket.rooms == {} && !Exec(s, events, settings).value.socket.heartbeat
    decreases |events|
  {
    if events != [] {
      var s' := Apply(s, events[0], settings);
      QuietStep(s, events[0], settings);
      QuietAfterDisconnect(s', events[1..], settings);
    }
  }

  lemma QuietStep(s: System, e: Event, settings: Settings)
    requires s.socket.rooms == {} && !s.socket.heartbeat && forall id :: !CanRejoin(s, id, settings)
    requires Enabled(s, e) && !e.Arrives?
    ensures var s' := Apply(s, e, settings);
      s'.socket.rooms == {} && !s'.socket.heartbeat && forall id :: !CanRejoin(s', id, settings)
  {
    var s' := Apply(s, e, settings);
    forall id
      ensures !CanRejoin(s', id, settings)
    {
      assert !CanRejoin(s, id, settings);
    }
    if e.JoinCompletes? || e.SnapshotLoads? || e.LimiterReplies? {
      assert !CanRejoin(s, e.id, settings);
    }
  }

  /** What a run has brought back: rooms and, with them, the heartbeat. */
  ghost predicate Revives(s: System, events: seq<Event>, settings: Settings) {
    Exec(s, events, settings).Some? && Exec(s, events, settings).value.socket.rooms != {}
  }

  /**
   Exactly when a disconnect is final: some continuation brings rooms back if and only if a subscribe
   in flight is past its checks, or is before them and rooms are allowed at all. When none is,
   neither rooms nor the heartbeat come back.
   */
  lemma DisconnectIsFinalExactly(s: System, settings: Settings)
    ensures (exists events :: NoArrivals(events) && Revives(s, [SocketDisconnects] + events, settings))
      <==> exists id :: CanRejoin(s, id, settings)
    ensures (forall id :: !CanRejoin(s, id, settings)) ==>
      forall events :: NoArrivals(events) && Exec(s, [SocketDisconnects] + events, settings).Some? ==>
        !Exec(s, [SocketDisconnects] + events, settings).value.socket.heartbeat
  {
    var gone := Apply(s, SocketDisconnects, settings);
    forall events
      ensures Exec(s, [SocketDisconnects] + events, settings) == Exec(gone, events, settings)
    {
      assert ([SocketDisconnects] + events)[1..] == events;
    }
    assert forall id :: CanRejoin(gone, id, settings) == CanRejoin(s, id, settings);
    if id :| CanRejoin(s, id, settings) {
      var events := SubscribeOutlivesDisconnect(gone, id, settings);
      assert NoArrivals(events) && Revives(s, [SocketDisconnects] + events, settings);
    } else {
      forall events | NoArrivals(events) && Exec(gone, events, settings).Some?
        ensures Exec(gone, events, settings).value.socket.rooms == {}
        ensures !Exec(gone, events, settings).value.socket.heartbeat
      {
        QuietAfterDisconnect(gone, events, settings);
      }
    }
  }

  // ---------- The bound is reached ----------

  ghost predicate Reachable(s: System, settings: Settings) {
    exists events :: Exec(INITIAL, events, settings) == Some(s)
  }

  lemma ExecSnoc(s: System, events: seq<Event>, e: Event, settings: Settings)
    requires Exec(s, events, settings).Some? && Enabled(Exec(s, events, settings).value, e)
    ensures Exec(s, events + [e], settings) == Some(Apply(Exec(s, events, settings).value, e, settings))
    decreases |events|
  {
    if events == [] {
      assert (events + [e])[1..] == [];
    } else {
      assert (events + [e])[1..] == events[1..] + [e];
      ExecSnoc(Apply(s, events[0], settings), events[1..], e, settings);
    }
  }

  lemma ReachableStep(s: System, e: Event, settings: Settings)
    requires Reachable(s, settings) && Enabled(s, e)
    ensures Reachable(Apply(s, e, settings), settings)
  {
    var events :| Exec(INITIAL, events, settings) == Some(s);
    ExecSnoc(INITIAL, events, e, settings);
  }

  function UpTo(n: nat): (r: set<Room>)
    ensures forall i: nat :: i in r <==> i < n
    ensures |r| == n
  {
    if n == 0 then {} else UpTo(n - 1) + {n - 1}
  }

  /** Rooms below `rooms` are subscribed and the next `joining` ones are past the check. */
  function Crowded(rooms: nat, joining: nat): System {
    System(Socket(joining, UpTo(rooms), rooms > 0), map i | rooms <= i < rooms + joining :: Joining(i))
  }

  /** One more subscribe gets past the check, whatever else is past it. */
  lemma PassCheck(rooms: nat, joining: nat, settings: Settings)
    requires Reachable(Crowded(rooms, joining), settings)
    requires rooms < settings.maxRooms && joining < settings.maxOperations
    ensures Reachable(Crowded(rooms, joining + 1), settings)
  {
    hide Reachable;
    var room := rooms + joining;
    var s0 := Crowded(rooms, joining);
    var s1 := Apply(s0, Arrives(room, SubscribeTo(room)), settings);
    ReachableStep(s0, Arrives(room, SubscribeTo(room)), settings);
    var s2 := Apply(s1, LimiterReplies(room, true), settings);
    ReachableStep(s1, LimiterReplies(room, true), settings);
    var s3 := Apply(s2, SnapshotLoads(room, room), settings);
    ReachableStep(s2, SnapshotLoads(room, room), settings);
    assert s3.operations == Crowded(rooms, joining + 1).operations;
  }

  /** A join completes. */
  lemma CompleteJoin(rooms: nat, joining: nat, settings: Settings)
    requires Reachable(Crowded(rooms, joining), settings) && joining > 0
    ensures Reachable(Crowded(rooms + 1, joining - 1), settings)
  {
    var s0 := Crowded(rooms, joining);
    var s1 := Apply(s0, JoinCompletes(rooms), settings);
    ReachableStep(s0, JoinCompletes(rooms), settings);
    assert s1.operations == Crowded(rooms + 1, joining - 1).operations;
    assert s1.socket.rooms == UpTo(rooms + 1);
  }

  lemma {:induction false} FillSerially(n: nat, settings: Settings)
    requires n < settings.maxRooms && 0 < settings.maxOperations
    ensures Reachable(Crowded(n, 0), settings)
  {
    if n == 0 {
      assert Crowded(0, 0) == INITIAL;
      assert Exec(INITIAL, [], settings) == Some(INITIAL);
    } else {
      FillSerially(n - 1, settings);
      PassCheck(n - 1, 0, settings);
      CompleteJoin(n - 1, 1, settings);
    }
  }

  lemma {:induction false} PassTogether(rooms: nat, k: nat, settings: Settings)
    requires Reachable(Crowded(rooms, 0), settings) && rooms < settings.maxRooms && k <= settings.maxOperations
    ensures Reachable(Crowded(rooms, k), settings)
  {
    if k > 0 {
      PassTogether(rooms, k - 1, settings);
      PassCheck(rooms, k - 1, settings);
    }
  }

  lemma {:induction false} JoinTogether(rooms: nat, k: nat, settings: Settings)
    requires Reachable(Crowded(rooms, k), settings)
    ensures Reachable(Crowded(rooms + k, 0), settings)
    decreases k
  {
    hide Crowded, Reachable;
    if k > 0 {
      CompleteJoin(rooms, k, settings);
      JoinTogether(rooms + 1, k - 1, settings);
    }
  }

  /** For every positive setting some interleaving really subscribes maxRooms + maxOperations - 1 rooms. */
  lemma BoundIsReached(settings: Settings)
    requires 0 < settings.maxRooms && 0 < settings.maxOperations
    ensures exists s :: Reachable(s, settings) && |s.socket.rooms| == settings.maxRooms + settings.maxOperations - 1
  {
    FillSerially(settings.maxRooms - 1, settings);
    PassTogether(settings.maxRooms - 1, settings.maxOperations, settings);
    JoinTogether(settings.maxRooms - 1, settings.maxOperations, settings);
    assert Reachable(Crowded(settings.maxRooms - 1 + settings.maxOperations, 0), settings);
  }

  // ---------- When the room limit holds ----------

  /** With no room allowed nothing ever gets past the check. */
  lemma {:induction false} NoRoomsAtAll(s: System, events: seq<Event>, settings: Settings)
    requires settings.maxRooms == 0 && Occupied(s) == {} && Exec(s, events, settings).Some?
    ensures Occupied(Exec(s, events, settings).value) == {}
    decreases |events|
  {
    if events != [] {
      OccupiedGrowsAtTheCheck(s, events[0], settings);
      NoRoomsAtAll(Apply(s, events[0], settings), events[1..], settings);
    }
  }

  /** Every run keeps the room limit if and only if operations are serial or no room is allowed. */
  lemma RoomLimitHoldsExactly(settings: Settings)
    ensures (forall s :: Reachable(s, settings) ==> |s.socket.rooms| <= settings.maxRooms)
      <==> settings.maxOperations <= 1 || settings.maxRooms == 0
  {
    if settings.maxOperations <= 1 || settings.maxRooms == 0 {
      forall s | Reachable(s, settings)
        ensures |s.socket.rooms| <= settings.maxRooms
      {
        var events :| Exec(INITIAL, events, settings) == Some(s);
        assert Occupied(INITIAL) == {};
        if settings.maxRooms == 0 {
          NoRoomsAtAll(INITIAL, events, settings);
          assert s.socket.rooms == {};
        } else {
          EveryInterleaving(events, settings);
          SubsetCount(s.socket.rooms, Occupied(s));
        }
      }
    } else {
      BoundIsReached(settings);
    }
  }
}
