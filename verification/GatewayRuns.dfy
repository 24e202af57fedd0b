/**
 Whole runs of the gateway: sockets pass the middleware, reservations are released for
 whatever reason, connection and disconnect events arrive in any order. Conservation
 is read off the admission log.
 */
module GatewayRuns {
  import opened Wrappers
  import opened Gateway

  /** A reservation held by a socket that has not seen its connection event yet. */
  datatype Admission = Admission(token: Token, peer: Peer)

  /** `used` records which reservation made a socket active. */
  datatype World = World(
    model: Model,
    waiting: map<SocketId, Admission>,
    seen: set<SocketId>,
    used: map<SocketId, Token>)

  const INITIAL := World(Model(map[], map[], []), map[], {}, map[])

  datatype Event =
    | Middleware(socket: SocketId, peer: Peer, token: Token)
    | ReleaseDue(token: Token, reason: Reason)
    | Connection(socket: SocketId)
    | Disconnection(socket: SocketId)

  predicate Enabled(w: World, e: Event) {
    match e
    case Middleware(socket, peer, token) => socket !in w.seen && Reserved(token) !in w.model.log
    case ReleaseDue(token, reason) => !reason.Connected?
    case Connection(socket) => socket in w.waiting
    case Disconnection(socket) => socket in w.model.active
  }

  function Apply(w: World, e: Event, limits: Limits): World
    requires Enabled(w, e)
  {
    match e
    case Middleware(socket, peer, token) =>
      var next := w.(model := Reserve(w.model, peer, token, limits), seen := w.seen + {socket});
      if Refusal(w.model, peer, limits).Some? then next
      else next.(waiting := w.waiting[socket := Admission(token, peer)])
    case ReleaseDue(token, reason) => w.(model := Release(w.model, token, reason))
    case Connection(socket) =>
      var token := w.waiting[socket].token;
      World(Connect(w.model, socket, token), w.waiting - {socket}, w.seen,
            if token in w.model.pending then w.used[socket := token] else w.used)
    case Disconnection(socket) => w.(model := Disconnect(w.model, socket))
  }

  function Exec(w: World, events: seq<Event>, limits: Limits): Option<World>
    decreases |events|
  {
    if events == [] then Some(w)
    else if Enabled(w, events[0]) then Exec(Apply(w, events[0], limits), events[1..], limits)
    else None
  }

  // ---------- Limits ----------

  ghost predicate WithinLimits(m: Model, limits: Limits) {
    && (forall u :: UserLoad(m.pending, m.active, u) <= limits.perUser)
    && (forall i :: IpLoad(m.pending, m.active, i) <= limits.perIp)
  }

  lemma InsertUserLoad(m: map<string, Peer>, k: string, peer: Peer, u: User)
    requires k !in m
    ensures |OfUser(m[k := peer], u)| == |OfUser(m, u)| + (if u == peer.user then 1 else 0)
  {
    assert OfUser(m[k := peer], u) == OfUser(m, u) + (if u == peer.user then {k} else {});
  }

  lemma InsertIpLoad(m: map<string, Peer>, k: string, peer: Peer, i: Ip)
    requires k !in m
    ensures |OfIp(m[k := peer], i)| == |OfIp(m, i)| + (if peer.ip == Some(i) then 1 else 0)
  {
    assert OfIp(m[k := peer], i) == OfIp(m, i) + (if peer.ip == Some(i) then {k} else {});
  }

  lemma InsertLoads(m: map<string, Peer>, k: string, peer: Peer)
    requires k !in m
    ensures forall u :: |OfUser(m[k := peer], u)| == |OfUser(m, u)| + (if u == peer.user then 1 else 0)
    ensures forall i :: |OfIp(m[k := peer], i)| == |OfIp(m, i)| + (if peer.ip == Some(i) then 1 else 0)
  {
    hide OfUser, OfIp;
    forall u
      ensures |OfUser(m[k := peer], u)| == |OfUser(m, u)| + (if u == peer.user then 1 else 0)
    {
      InsertUserLoad(m, k, peer, u);
    }
    forall i
      ensures |OfIp(m[k := peer], i)| == |OfIp(m, i)| + (if peer.ip == Some(i) then 1 else 0)
    {
      InsertIpLoad(m, k, peer, i);
    }
  }

  lemma DeleteLoads(m: map<string, Peer>, k: string)
    requires k in m
    ensures forall u :: |OfUser(m - {k}, u)| == |OfUser(m, u)| - (if u == m[k].user then 1 else 0)
    ensures forall i :: |OfIp(m - {k}, i)| == |OfIp(m, i)| - (if m[k].ip == Some(i) then 1 else 0)
  {
    InsertLoads(m - {k}, k, m[k]);
    assert (m - {k})[k := m[k]] == m;
  }

  lemma ReserveKeepsLimits(m: Model, peer: Peer, token: Token, limits: Limits)
    requires WithinLimits(m, limits) && token !in m.pending
    ensures WithinLimits(Reserve(m, peer, token, limits), limits)
  {
    InsertLoads(m.pending, token, peer);
    hide OfUser, OfIp;
    var m' := Reserve(m, peer, token, limits);
    forall u
      ensures UserLoad(m'.pending, m'.active, u) <= limits.perUser
    {
      assert UserLoad(m.pending, m.active, u) <= limits.perUser;
    }
    forall i
      ensures IpLoad(m'.pending, m'.active, i) <= limits.perIp
    {
      assert IpLoad(m.pending, m.active, i) <= limits.perIp;
    }
  }

  lemma ReleaseKeepsLimits(m: Model, token: Token, reason: Reason, limits: Limits)
    requires WithinLimits(m, limits)
    ensures WithinLimits(Release(m, token, reason), limits)
  {
    if token in m.pending {
      DeleteLoads(m.pending, token);
      hide OfUser, OfIp;
      forall u
        ensures UserLoad(m.pending - {token}, m.active, u) <= limits.perUser
      {
        assert UserLoad(m.pending, m.active, u) <= limits.perUser;
      }
      forall i
        ensures IpLoad(m.pending - {token}, m.active, i) <= limits.perIp
      {
        assert IpLoad(m.pending, m.active, i) <= limits.perIp;
      }
    }
  }

  lemma ConnectKeepsLimits(m: Model, socket: SocketId, token: Token, limits: Limits)
    requires WithinLimits(m, limits) && socket !in m.active
    ensures WithinLimits(Connect(m, socket, token), limits)
  {
    if token in m.pending {
      var m' := Connect(m, socket, token);
      DeleteLoads(m.pending, token);
      InsertLoads(m.active, socket, m.pending[token]);
      hide OfUser, OfIp;
      forall u
        ensures UserLoad(m'.pending, m'.active, u) == UserLoad(m.pending, m.active, u)
      {
      }
      forall i
        ensures IpLoad(m'.pending, m'.active, i) == IpLoad(m.pending, m.active, i)
      {
      }
    }
  }

  lemma DisconnectKeepsLimits(m: Model, socket: SocketId, limits: Limits)
    requires WithinLimits(m, limits) && socket in m.active
    ensures WithinLimits(Disconnect(m, socket), limits)
  {
    DeleteLoads(m.active, socket);
    hide OfUser, OfIp;
    forall u
      ensures UserLoad(m.pending, m.active - {socket}, u) <= limits.perUser
    {
      assert UserLoad(m.pending, m.active, u) <= limits.perUser;
    }
    forall i
      ensures IpLoad(m.pending, m.active - {socket}, i) <= limits.perIp
    {
      assert IpLoad(m.pending, m.active, i) <= limits.perIp;
    }
  }

  // ---------- Conservation ----------

  /** Two reservations, or two releases, of one token. */
  predicate SameStep(a: Record, b: Record) {
    a.token == b.token && a.Reserved? == b.Reserved?
  }

  ghost predicate NoStepTwice(log: seq<Record>) {
    forall i, j :: 0 <= i < j < |log| ==> !SameStep(log[i], log[j])
  }

  ghost predicate ReservedBeforeReleased(log: seq<Record>) {
    forall i :: 0 <= i < |log| && log[i].Released? ==> Reserved(log[i].token) in log[..i]
  }

  /**
   A token is reserved once and released once at most, after it was reserved; it is
   pending exactly in between.
   */
  ghost predicate LogInv(m: Model) {
    && NoStepTwice(m.log)
    && ReservedBeforeReleased(m.log)
    && (forall t :: t in m.pending ==> Reserved(t) in m.log)
    && (forall i :: 0 <= i < |m.log| && m.log[i].Released? ==> m.log[i].token !in m.pending)
  }

  lemma AppendKeepsOrder(log: seq<Record>, r: Record)
    requires NoStepTwice(log) && ReservedBeforeReleased(log)
    requires forall i :: 0 <= i < |log| ==> !SameStep(log[i], r)
    requires r.Released? ==> Reserved(r.token) in log
    ensures NoStepTwice(log + [r]) && ReservedBeforeReleased(log + [r])
  {
    var log' := log + [r];
    forall i | 0 <= i < |log'| && log'[i].Released?
      ensures Reserved(log'[i].token) in log'[..i]
    {
      assert log'[..i] == log[..i];
      if i == |log| {
        assert log[..i] == log;
      }
    }
  }

  function Reservations(log: seq<Record>): nat {
    if log == [] then 0
    else Reservations(log[..|log| - 1]) + (if log[|log| - 1].Reserved? then 1 else 0)
  }

  function Releases(log: seq<Record>): nat {
    if log == [] then 0
    else Releases(log[..|log| - 1]) + (if log[|log| - 1].Released? then 1 else 0)
  }

  lemma CountsOfAppend(log: seq<Record>, r: Record)
    ensures Reservations(log + [r]) == Reservations(log) + (if r.Reserved? then 1 else 0)
    ensures Releases(log + [r]) == Releases(log) + (if r.Released? then 1 else 0)
  {
  }

  ghost predicate Conserved(m: Model) {
    Reservations(m.log) == Releases(m.log) + |m.pending|
  }

  lemma ReserveKeepsLog(m: Model, peer: Peer, token: Token, limits: Limits)
    requires LogInv(m) && Conserved(m) && Reserved(token) !in m.log
    ensures LogInv(Reserve(m, peer, token, limits)) && Conserved(Reserve(m, peer, token, limits))
  {
    var m' := Reserve(m, peer, token, limits);
    if m' != m {
      CountsOfAppend(m.log, Reserved(token));
      assert |m'.pending| == |m.pending| + 1;
      AppendKeepsOrder(m.log, Reserved(token));
      hide NoStepTwice;
      forall i | 0 <= i < |m'.log| && m'.log[i].Released?
        ensures m'.log[i].token !in m'.pending
      {
        assert Reserved(m.log[i].token) in m.log[..i];
        assert Reserved(m.log[i].token) in m.log;
      }
    }
  }

  lemma ReleaseConserves(m: Model, token: Token, reason: Reason)
    requires Conserved(m)
    ensures Conserved(Release(m, token, reason))
  {
  }

  lemma ReleaseKeepsLog(m: Model, token: Token, reason: Reason)
    requires LogInv(m)
    ensures LogInv(Release(m, token, reason))
  {
    var m' := Release(m, token, reason);
    if token in m.pending {
      AppendKeepsOrder(m.log, Released(token, reason));
      hide NoStepTwice, ReservedBeforeReleased, Reservations, Releases;
      forall t | t in m'.pending
        ensures Reserved(t) in m'.log
      {
        assert Reserved(t) in m.log;
      }
    }
  }

  // ---------- The run ----------

  /** A waiting socket still owns its reservation, if that is pending; no two share one. */
  ghost predicate WaitingInv(w: World) {
    && (forall s :: s in w.waiting ==> s in w.seen && s !in w.model.active && s !in w.used)
    && (forall s :: s in w.waiting ==> Reserved(w.waiting[s].token) in w.model.log)
    && (forall s :: s in w.waiting && w.waiting[s].token in w.model.pending ==>
          w.model.pending[w.waiting[s].token] == w.waiting[s].peer)
    && (forall s, t :: s in w.waiting && t in w.waiting && w.waiting[s].token == w.waiting[t].token ==> s == t)
  }

  /** Every socket ever active consumed its own reservation, and no other socket did. */
  ghost predicate UsedInv(w: World) {
    && w.used.Keys <= w.seen
    && (forall s :: s in w.model.active ==> s in w.used)
    && (forall s :: s in w.used ==> Released(w.used[s], Reason.Connected) in w.model.log)
    && (forall s, t :: s in w.used && t in w.used && w.used[s] == w.used[t] ==> s == t)
  }

  ghost predicate Inv(w: World, limits: Limits) {
    WithinLimits(w.model, limits) && LogInv(w.model) && Conserved(w.model) && WaitingInv(w) && UsedInv(w)
  }

  lemma StepKeepsModel(w: World, e: Event, limits: Limits)
    requires Inv(w, limits) && Enabled(w, e)
    ensures var m := Apply(w, e, limits).model;
            WithinLimits(m, limits) && LogInv(m) && Conserved(m)
  {
    hide LogInv, Conserved, WithinLimits;
    match e {
      case Middleware(socket, peer, token) =>
        TokenNotPending(w.model, token);
        ReserveKeepsLimits(w.model, peer, token, limits);
        ReserveKeepsLog(w.model, peer, token, limits);
      case ReleaseDue(token, reason) =>
        ReleaseKeepsLimits(w.model, token, reason, limits);
        ReleaseKeepsLog(w.model, token, reason);
        ReleaseConserves(w.model, token, reason);
      case Connection(socket) =>
        ConnectKeepsLimits(w.model, socket, w.waiting[socket].token, limits);
        ReleaseKeepsLog(w.model, w.waiting[socket].token, Reason.Connected);
        ReleaseConserves(w.model, w.waiting[socket].token, Reason.Connected);
        ActiveDoesNotMatter(w.model, socket, w.waiting[socket].token);
      case Disconnection(socket) =>
        DisconnectKeepsLimits(w.model, socket, limits);
        ActiveDoesNotMatterForLog(w.model, Disconnect(w.model, socket));
    }
  }

  lemma TokenNotPending(m: Model, token: Token)
    requires LogInv(m) && Reserved(token) !in m.log
    ensures token !in m.pending
  {
  }

  lemma ActiveDoesNotMatterForLog(m: Model, m': Model)
    requires m'.pending == m.pending && m'.log == m.log
    ensures LogInv(m) ==> LogInv(m')
    ensures Conserved(m) ==> Conserved(m')
  {
  }

  lemma ActiveDoesNotMatter(m: Model, socket: SocketId, token: Token)
    ensures LogInv(Release(m, token, Reason.Connected)) ==> LogInv(Connect(m, socket, token))
    ensures Conserved(Release(m, token, Reason.Connected)) ==> Conserved(Connect(m, socket, token))
  {
  }

  lemma LogGrows(w: World, e: Event, limits: Limits)
    requires Enabled(w, e)
    ensures forall r :: r in w.model.log ==> r in Apply(w, e, limits).model.log
  {
  }

  lemma MiddlewareKeepsWaiting(w: World, socket: SocketId, peer: Peer, token: Token, limits: Limits)
    requires LogInv(w.model) && WaitingInv(w) && UsedInv(w) && Enabled(w, Middleware(socket, peer, token))
    ensures WaitingInv(Apply(w, Middleware(socket, peer, token), limits))
  {
    hide Refusal, NoStepTwice, ReservedBeforeReleased;
    LogGrows(w, Middleware(socket, peer, token), limits);
  }

  lemma MiddlewareKeepsUsed(w: World, socket: SocketId, peer: Peer, token: Token, limits: Limits)
    requires LogInv(w.model) && WaitingInv(w) && UsedInv(w) && Enabled(w, Middleware(socket, peer, token))
    ensures UsedInv(Apply(w, Middleware(socket, peer, token), limits))
  {
  }

  lemma ReleaseDueKeepsWaiting(w: World, token: Token, reason: Reason, limits: Limits)
    requires LogInv(w.model) && WaitingInv(w) && UsedInv(w) && Enabled(w, ReleaseDue(token, reason))
    ensures WaitingInv(Apply(w, ReleaseDue(token, reason), limits))
  {
  }

  lemma ReleaseDueKeepsUsed(w: World, token: Token, reason: Reason, limits: Limits)
    requires LogInv(w.model) && WaitingInv(w) && UsedInv(w) && Enabled(w, ReleaseDue(token, reason))
    ensures UsedInv(Apply(w, ReleaseDue(token, reason), limits))
  {
  }

  lemma ConnectionKeepsWaiting(w: World, socket: SocketId, limits: Limits)
    requires LogInv(w.model) && WaitingInv(w) && UsedInv(w) && Enabled(w, Connection(socket))
    ensures WaitingInv(Apply(w, Connection(socket), limits))
  {
  }

  lemma ConnectionKeepsUsed(w: World, socket: SocketId, limits: Limits)
    requires LogInv(w.model) && WaitingInv(w) && UsedInv(w) && Enabled(w, Connection(socket))
    ensures UsedInv(Apply(w, Connection(socket), limits))
  {
    hide Refusal, NoStepTwice, ReservedBeforeReleased;
    LogGrows(w, Connection(socket), limits);
  }

  lemma DisconnectionKeepsWaiting(w: World, socket: SocketId, limits: Limits)
    requires LogInv(w.model) && WaitingInv(w) && UsedInv(w) && Enabled(w, Disconnection(socket))
    ensures WaitingInv(Apply(w, Disconnection(socket), limits))
  {
  }

  lemma DisconnectionKeepsUsed(w: World, socket: SocketId, limits: Limits)
    requires LogInv(w.model) && WaitingInv(w) && UsedInv(w) && Enabled(w, Disconnection(socket))
    ensures UsedInv(Apply(w, Disconnection(socket), limits))
  {
  }

  lemma StepKeepsSockets(w: World, e: Event, limits: Limits)
    requires LogInv(w.model) && WaitingInv(w) && UsedInv(w) && Enabled(w, e)
    ensures WaitingInv(Apply(w, e, limits)) && UsedInv(Apply(w, e, limits))
  {
    hide LogInv, WaitingInv, UsedInv;
    match e {
      case Middleware(socket, peer, token) =>
        MiddlewareKeepsWaiting(w, socket, peer, token, limits);
        MiddlewareKeepsUsed(w, socket, peer, token, limits);
      case ReleaseDue(token, reason) =>
        ReleaseDueKeepsWaiting(w, token, reason, limits);
        ReleaseDueKeepsUsed(w, token, reason, limits);
      case Connection(socket) =>
        ConnectionKeepsWaiting(w, socket, limits);
        ConnectionKeepsUsed(w, socket, limits);
      case Disconnection(socket) =>
        DisconnectionKeepsWaiting(w, socket, limits);
        DisconnectionKeepsUsed(w, socket, limits);
    }
  }

  lemma StepKeepsInv(w: World, e: Event, limits: Limits)
    requires Inv(w, limits) && Enabled(w, e)
    ensures Inv(Apply(w, e, limits), limits)
  {
    StepKeepsModel(w, e, limits);
    StepKeepsSockets(w, e, limits);
  }

  lemma {:induction false} ExecKeepsInv(w: World, events: seq<Event>, limits: Limits)
    requires Inv(w, limits) && Exec(w, events, limits).Some?
    ensures Inv(Exec(w, events, limits).value, limits)
    decreases |events|
  {
    if events != [] {
      StepKeepsInv(w, events[0], limits);
      ExecKeepsInv(Apply(w, events[0], limits), events[1..], limits);
    }
  }

  lemma InitialInv(limits: Limits)
    ensures Inv(INITIAL, limits)
  {
  }

  /**
   In every reachable state pending plus active sockets respect both limits, for every
   user and every IP; every reservation left the pending table exactly once or still is
   pending; and every active socket consumed its own live reservation.
   */
  lemma EveryRunIsSafe(events: seq<Event>, limits: Limits)
    requires Exec(INITIAL, events, limits).Some?
    ensures var m := Exec(INITIAL, events, limits).value.model;
            && (forall u :: UserLoad(m.pending, m.active, u) <= limits.perUser)
            && (forall i :: IpLoad(m.pending, m.active, i) <= limits.perIp)
            && Reservations(m.log) == Releases(m.log) + |m.pending|
    ensures var w := Exec(INITIAL, events, limits).value;
            && LogInv(w.model)
            && (forall s :: s in w.model.active ==>
                  s in w.used && Released(w.used[s], Reason.Connected) in w.model.log)
            && (forall s, t :: s in w.used && t in w.used && w.used[s] == w.used[t] ==> s == t)
  {
    InitialInv(limits);
    ExecKeepsInv(INITIAL, events, limits);
  }

  // ---------- The limits are reached ----------

  function Name(n: nat): string {
    seq(n, _ => 'x')
  }

  /** Connections of one user without an address, or of many users from one address. */
  function PeerOf(byIp: bool, n: nat): Peer {
    if byIp then Peer(Name(n), Some("ip")) else Peer("user", None)
  }

  function Load(byIp: bool, m: Model): nat {
    if byIp then IpLoad(m.pending, m.active, "ip") else UserLoad(m.pending, m.active, "user")
  }

  /** The first n such sockets are active and nothing else has happened. */
  ghost predicate Filled(w: World, byIp: bool, n: nat) {
    && w.model.pending == map[] && w.waiting == map[]
    && (forall s :: s in w.seen ==> |s| < n)
    && (forall r :: r in w.model.log ==> |r.token| < n)
    && (forall s :: s in w.model.active ==> s in w.seen && w.model.active[s] == PeerOf(byIp, |s|))
    && Load(byIp, w.model) == n
  }

  lemma NextIsAdmitted(w: World, byIp: bool, n: nat, limits: Limits)
    requires Filled(w, byIp, n)
    requires if byIp then n < limits.perIp && 0 < limits.perUser else n < limits.perUser
    ensures Refusal(w.model, PeerOf(byIp, n), limits) == None
  {
    assert |Name(n)| == n;
    if byIp {
      assert OfUser(w.model.pending, Name(n)) == {};
      assert OfUser(w.model.active, Name(n)) == {};
    }
  }

  /** A socket that is not refused passes the middleware and connects. */
  lemma AdmittedConnects(w: World, x: SocketId, peer: Peer, limits: Limits) returns (w': World)
    requires Enabled(w, Middleware(x, peer, x)) && Refusal(w.model, peer, limits).None?
    requires w.model.pending == map[] && w.waiting == map[]
    ensures Exec(w, [Middleware(x, peer, x), Connection(x)], limits) == Some(w')
    ensures w'.model.pending == map[] && w'.waiting == map[] && w'.seen == w.seen + {x}
    ensures w'.model.active == w.model.active[x := peer]
    ensures w'.model.log == w.model.log + [Reserved(x)] + [Released(x, Reason.Connected)]
  {
    hide Refusal, Exec;
    var a, b := Middleware(x, peer, x), Connection(x);
    var w1 := Apply(w, a, limits);
    assert w1.model.pending == map[x := peer] && w1.waiting == map[x := Admission(x, peer)];
    w' := Apply(w1, b, limits);
    ExecTwo(w, a, b, limits);
  }

  lemma ExecTwo(w: World, a: Event, b: Event, limits: Limits)
    requires Enabled(w, a) && Enabled(Apply(w, a, limits), b)
    ensures Exec(w, [a, b], limits) == Some(Apply(Apply(w, a, limits), b, limits))
  {
    hide Enabled, Apply;
    assert [a, b][1..] == [b];
    assert |[b][1..]| == 0;
    assert Exec(Apply(w, a, limits), [b], limits) == Some(Apply(Apply(w, a, limits), b, limits));
  }

  lemma FillOne(w: World, byIp: bool, n: nat, limits: Limits) returns (w': World)
    requires Filled(w, byIp, n)
    requires if byIp then n < limits.perIp && 0 < limits.perUser else n < limits.perUser
    ensures Filled(w', byIp, n + 1)
    ensures Exec(w, [Middleware(Name(n), PeerOf(byIp, n), Name(n)), Connection(Name(n))], limits) == Some(w')
  {
    hide Refusal, Exec;
    var x, peer := Name(n), PeerOf(byIp, n);
    assert |x| == n;
    NextIsAdmitted(w, byIp, n, limits);
    w' := AdmittedConnects(w, x, peer, limits);
    InsertLoads(w.model.active, x, peer);
  }

  lemma NothingIsFilled(byIp: bool)
    ensures Filled(INITIAL, byIp, 0)
  {
    assert OfUser(map[], "user") == {} && OfIp(map[], "ip") == {};
  }

  lemma {:induction false} Fill(byIp: bool, n: nat, limits: Limits) returns (events: seq<Event>)
    requires if byIp then n <= limits.perIp && 0 < limits.perUser else n <= limits.perUser
    ensures Exec(INITIAL, events, limits).Some? && Filled(Exec(INITIAL, events, limits).value, byIp, n)
  {
    hide Filled, Apply, Enabled, PeerOf, Name;
    if n == 0 {
      events := [];
      NothingIsFilled(byIp);
    } else {
      var before := Fill(byIp, n - 1, limits);
      var w := Exec(INITIAL, before, limits).value;
      var w' := FillOne(w, byIp, n - 1, limits);
      var more := [Middleware(Name(n - 1), PeerOf(byIp, n - 1), Name(n - 1)), Connection(Name(n - 1))];
      events := before + more;
      ExecConcat(INITIAL, before, more, limits);
    }
  }

  lemma {:induction false} ExecConcat(w: World, a: seq<Event>, b: seq<Event>, limits: Limits)
    requires Exec(w, a, limits).Some?
    ensures Exec(w, a + b, limits) == Exec(Exec(w, a, limits).value, b, limits)
    decreases |a|
  {
    hide Enabled, Apply;
    if a == [] {
      assert a + b == b;
    } else {
      assert (a + b)[1..] == a[1..] + b;
      ExecConcat(Apply(w, a[0], limits), a[1..], b, limits);
    }
  }

  ghost predicate Reaches(limits: Limits, byIp: bool, n: nat) {
    exists events :: Exec(INITIAL, events, limits).Some? && Load(byIp, Exec(INITIAL, events, limits).value.model) == n
  }

  /**
   For all limits some run has exactly as many sockets of one user as its limit allows, and some run as
   many sockets of one address, if users may connect at all.
   */
  lemma LimitsAreReached(limits: Limits)
    ensures Reaches(limits, false, limits.perUser)
    ensures 0 < limits.perUser ==> Reaches(limits, true, limits.perIp)
  {
    var events := Fill(false, limits.perUser, limits);
    if 0 < limits.perUser {
      events := Fill(true, limits.perIp, limits);
    }
  }

  // ---------- The active counter ----------

  ghost function Pick(keys: set<User>): (k: User)
    requires keys != {}
    ensures k in keys
  {
    var k :| k in keys;
    k
  }

  ghost function SumOfSizes(index: map<User, set<SocketId>>): nat
    decreases |index|
  {
    if index == map[] then 0
    else
      var k := Pick(index.Keys);
      assert (index - {k}).Keys == index.Keys - {k};
      |index[k]| + SumOfSizes(index - {k})
  }

  /** The per-user sets partition the active sockets, so their sizes sum to the counter. */
  lemma {:induction false} SizesSumToActive(index: map<User, set<SocketId>>, active: map<SocketId, Peer>)
    requires IndexesUsers(index, active)
    ensures SumOfSizes(index) == |active|
    decreases |index|
  {
    if index == map[] {
      assert active == map[];
    } else {
      var k := Pick(index.Keys);
      var rest := active - OfUser(active, k);
      assert (index - {k}).Keys == index.Keys - {k};
      forall u | u in index - {k}
        ensures OfUser(rest, u) == OfUser(active, u)
      {
      }
      SizesSumToActive(index - {k}, rest);
      assert rest.Keys == active.Keys - OfUser(active, k);
      assert |rest.Keys| == |active.Keys| - |OfUser(active, k)|;
    }
  }
}
