/**
 Connection admission of the chat gateway. The gateway keeps three pending tables
 that must agree (all reservations, tokens by user, tokens by IP) and two tables of
 active sockets; every limit check counts in the indexes. The model beside them keeps
 only who is pending and who is active.
 */
module Gateway {
  import opened Wrappers

  type Token = string
  type User = string
  type Ip = string
  type SocketId = string

  datatype Limits = Limits(perUser: nat, perIp: nat)

  /** Who a reservation or an active socket belongs to. */
  datatype Peer = Peer(user: User, ip: Option<Ip>)

  datatype Reason = ClientAborted | Connected | MiddlewareRejection | ServerShutdown | Timeout | TransportClosed

  datatype Rejection = IpConnectionLimit | UserConnectionLimit

  /** The admission log: one record per reservation and one per release. */
  datatype Record = Reserved(token: Token) | Released(token: Token, reason: Reason)

  // ---------- Counting without indexes ----------

  function OfUser(m: map<string, Peer>, user: User): set<string> {
    set k | k in m && m[k].user == user
  }

  function OfIp(m: map<string, Peer>, ip: Ip): set<string> {
    set k | k in m && m[k].ip == Some(ip)
  }

  /** Pending plus active sockets of a user, or of an IP. */
  function UserLoad(pending: map<Token, Peer>, active: map<SocketId, Peer>, user: User): nat {
    |OfUser(pending, user)| + |OfUser(active, user)|
  }

  function IpLoad(pending: map<Token, Peer>, active: map<SocketId, Peer>, ip: Ip): nat {
    |OfIp(pending, ip)| + |OfIp(active, ip)|
  }

  // ---------- Indexes ----------

  /** An index holds exactly the non-empty groups of a table. */
  ghost predicate IndexesUsers(index: map<User, set<string>>, m: map<string, Peer>) {
    && (forall u :: u in index ==> index[u] == OfUser(m, u) && index[u] != {})
    && (forall k :: k in m ==> m[k].user in index)
  }

  ghost predicate IndexesIps(index: map<Ip, set<string>>, m: map<string, Peer>) {
    && (forall i :: i in index ==> index[i] == OfIp(m, i) && index[i] != {})
    && (forall k :: k in m && m[k].ip.Some? ==> m[k].ip.value in index)
  }

  /** The size an index reports for a key, absent meaning none. */
  function Size(index: map<string, set<string>>, key: string): nat {
    if key in index then |index[key]| else 0
  }

  function Add(index: map<string, set<string>>, key: string, item: string): map<string, set<string>> {
    index[key := Lookup(index, key) + {item}]
  }

  function Remove(index: map<string, set<string>>, key: string, item: string): map<string, set<string>> {
    if key !in index then index
    else if index[key] - {item} == {} then index - {key}
    else index[key := index[key] - {item}]
  }

  function Lookup(index: map<string, set<string>>, key: string): set<string> {
    if key in index then index[key] else {}
  }

  lemma UserIndexLooksUp(index: map<User, set<string>>, m: map<string, Peer>, user: User)
    requires IndexesUsers(index, m)
    ensures Lookup(index, user) == OfUser(m, user)
  {
  }

  lemma UserIndexCounts(index: map<User, set<string>>, m: map<string, Peer>, user: User)
    requires IndexesUsers(index, m)
    ensures Size(index, user) == |OfUser(m, user)|
  {
  }

  lemma IpIndexCounts(index: map<Ip, set<string>>, m: map<string, Peer>, ip: Ip)
    requires IndexesIps(index, m)
    ensures Size(index, ip) == |OfIp(m, ip)|
  {
  }

  lemma AddKeepsUserIndex(index: map<User, set<string>>, m: map<string, Peer>, k: string, peer: Peer)
    requires IndexesUsers(index, m) && k !in m
    ensures IndexesUsers(Add(index, peer.user, k), m[k := peer])
  {
  }

  lemma AddKeepsIpIndex(index: map<Ip, set<string>>, m: map<string, Peer>, k: string, peer: Peer)
    requires IndexesIps(index, m) && k !in m
    ensures IndexesIps(if peer.ip.Some? then Add(index, peer.ip.value, k) else index, m[k := peer])
  {
  }

  lemma RemoveKeepsUserIndex(index: map<User, set<string>>, m: map<string, Peer>, k: string)
    requires IndexesUsers(index, m) && k in m
    ensures IndexesUsers(Remove(index, m[k].user, k), m - {k})
  {
  }

  lemma RemoveKeepsIpIndex(index: map<Ip, set<string>>, m: map<string, Peer>, k: string)
    requires IndexesIps(index, m) && k in m
    ensures IndexesIps(if m[k].ip.Some? then Remove(index, m[k].ip.value, k) else index, m - {k})
  {
  }

  // ---------- The model: no indexes, no counters ----------

  datatype Model = Model(pending: map<Token, Peer>, active: map<SocketId, Peer>, log: seq<Record>)

  function Refusal(m: Model, peer: Peer, limits: Limits): Option<Rejection> {
    if UserLoad(m.pending, m.active, peer.user) >= limits.perUser then Some(UserConnectionLimit)
    else if peer.ip.Some? && IpLoad(m.pending, m.active, peer.ip.value) >= limits.perIp then Some(IpConnectionLimit)
    else None
  }

  function Reserve(m: Model, peer: Peer, token: Token, limits: Limits): Model {
    if Refusal(m, peer, limits).Some? then m
    else m.(pending := m.pending[token := peer], log := m.log + [Reserved(token)])
  }

  function Release(m: Model, token: Token, reason: Reason): Model {
    if token in m.pending then m.(pending := m.pending - {token}, log := m.log + [Released(token, reason)]) else m
  }

  function Connect(m: Model, socket: SocketId, token: Token): Model {
    if token in m.pending then
      Release(m, token, Reason.Connected).(active := m.active[socket := m.pending[token]])
    else m
  }

  function Disconnect(m: Model, socket: SocketId): Model {
    m.(active := m.active - {socket})
  }

  // ---------- The gateway ----------

  class ChatGateway {
    const limits: Limits
    var pendingAdmissions: map<Token, Peer>
    var pendingAdmissionTokensByUser: map<User, set<Token>>
    var pendingAdmissionTokensByIp: map<Ip, set<Token>>
    var socketsByUser: map<User, set<SocketId>>
    var socketsByIp: map<Ip, set<SocketId>>
    var activeSockets: int
    var forcedSecurityDisconnects: nat
    var log: seq<Record>
    /** The accepted sockets, each with the admission its own handlers captured. */
    var active: map<SocketId, Peer>

    ghost function View(): Model
      reads this
    {
      Model(pendingAdmissions, active, log)
    }

    ghost predicate Valid()
      reads this
    {
      && IndexesUsers(pendingAdmissionTokensByUser, pendingAdmissions)
      && IndexesIps(pendingAdmissionTokensByIp, pendingAdmissions)
      && IndexesUsers(socketsByUser, active)
      && IndexesIps(socketsByIp, active)
      && activeSockets == |active|
    }

    constructor (limits: Limits)
      ensures Valid() && View() == Model(map[], map[], []) && this.limits == limits
    {
      this.limits := limits;
      pendingAdmissions, pendingAdmissionTokensByUser, pendingAdmissionTokensByIp := map[], map[], map[];
      socketsByUser, socketsByIp, activeSockets, forcedSecurityDisconnects := map[], map[], 0, 0;
      log, active := [], map[];
    }

    /** The token is a fresh random identifier. */
    method ReserveConnection(peer: Peer, token: Token) returns (refusal: Option<Rejection>)
      requires Valid() && token !in pendingAdmissions
      modifies this
      ensures Valid() && View() == Reserve(old(View()), peer, token, limits)
      ensures refusal == Some(UserConnectionLimit) <==>
                UserLoad(old(pendingAdmissions), old(active), peer.user) >= limits.perUser
      ensures refusal == Some(IpConnectionLimit) <==>
                && UserLoad(old(pendingAdmissions), old(active), peer.user) < limits.perUser
                && peer.ip.Some? && IpLoad(old(pendingAdmissions), old(active), peer.ip.value) >= limits.perIp
      ensures refusal.None? ==>
                pendingAdmissions == old(pendingAdmissions)[token := peer] && log == old(log) + [Reserved(token)]
      ensures refusal.Some? ==> pendingAdmissions == old(pendingAdmissions) && log == old(log)
      ensures active == old(active)
    {
      hide IndexesUsers, IndexesIps;
      UserIndexCounts(socketsByUser, active, peer.user);
      UserIndexCounts(pendingAdmissionTokensByUser, pendingAdmissions, peer.user);
      if Size(socketsByUser, peer.user) + Size(pendingAdmissionTokensByUser, peer.user) >= limits.perUser {
        return Some(UserConnectionLimit);
      }
      if peer.ip.Some? {
        var ip := peer.ip.value;
        IpIndexCounts(socketsByIp, active, ip);
        IpIndexCounts(pendingAdmissionTokensByIp, pendingAdmissions, ip);
        if Size(socketsByIp, ip) + Size(pendingAdmissionTokensByIp, ip) >= limits.perIp {
          return Some(IpConnectionLimit);
        }
      }
      AddKeepsUserIndex(pendingAdmissionTokensByUser, pendingAdmissions, token, peer);
      AddKeepsIpIndex(pendingAdmissionTokensByIp, pendingAdmissions, token, peer);
      pendingAdmissions := pendingAdmissions[token := peer];
      pendingAdmissionTokensByUser := Add(pendingAdmissionTokensByUser, peer.user, token);
      if peer.ip.Some? {
        pendingAdmissionTokensByIp := Add(pendingAdmissionTokensByIp, peer.ip.value, token);
      }
      log := log + [Reserved(token)];
      refusal := None;
    }

    method ReleasePendingAdmission(token: Token, reason: Reason) returns (released: bool)
      requires Valid()
      modifies this
      ensures Valid() && View() == Release(old(View()), token, reason)
      ensures released == (token in old(pendingAdmissions))
      ensures active == old(active) && activeSockets == old(activeSockets)
      ensures socketsByUser == old(socketsByUser) && socketsByIp == old(socketsByIp)
      ensures pendingAdmissions == old(pendingAdmissions) - {token}
      ensures log == old(log) + if released then [Released(token, reason)] else []
    {
      hide IndexesUsers, IndexesIps;
      if token !in pendingAdmissions {
        return false;
      }
      var peer := pendingAdmissions[token];
      RemoveKeepsUserIndex(pendingAdmissionTokensByUser, pendingAdmissions, token);
      RemoveKeepsIpIndex(pendingAdmissionTokensByIp, pendingAdmissions, token);
      pendingAdmissions := pendingAdmissions - {token};
      pendingAdmissionTokensByUser := Remove(pendingAdmissionTokensByUser, peer.user, token);
      if peer.ip.Some? {
        pendingAdmissionTokensByIp := Remove(pendingAdmissionTokensByIp, peer.ip.value, token);
      }
      log := log + [Released(token, reason)];
      released := true;
    }

    /** The `connection` event; the peer is what the admission of the socket recorded. */
    method OnConnection(socket: SocketId, peer: Peer, token: Token) returns (accepted: bool)
      requires Valid() && socket !in active
      requires token in pendingAdmissions ==> pendingAdmissions[token] == peer
      modifies this
      ensures Valid() && View() == Connect(old(View()), socket, token)
      ensures accepted == (token in old(pendingAdmissions))
      ensures pendingAdmissions == old(pendingAdmissions) - {token}
      ensures active == if accepted then old(active)[socket := peer] else old(active)
      ensures log == old(log) + if accepted then [Released(token, Reason.Connected)] else []
    {
      hide IndexesUsers, IndexesIps, Add, Remove, OfUser, OfIp;
      accepted := ReleasePendingAdmission(token, Reason.Connected);
      if !accepted {
        return;
      }
      AddKeepsUserIndex(socketsByUser, active, socket, peer);
      AddKeepsIpIndex(socketsByIp, active, socket, peer);
      socketsByUser := Add(socketsByUser, peer.user, socket);
      if peer.ip.Some? {
        socketsByIp := Add(socketsByIp, peer.ip.value, socket);
      }
      activeSockets := activeSockets + 1;
      active := active[socket := peer];
    }

    /** The `disconnect` handler of an accepted socket; the clamp never acts. */
    method OnDisconnect(socket: SocketId, peer: Peer)
      requires Valid() && socket in active && active[socket] == peer
      modifies this
      ensures Valid() && View() == Disconnect(old(View()), socket)
      ensures activeSockets == old(activeSockets) - 1
      ensures active == old(active) - {socket} && pendingAdmissions == old(pendingAdmissions) && log == old(log)
      ensures forcedSecurityDisconnects == old(forcedSecurityDisconnects)
    {
      hide IndexesUsers, IndexesIps;
      RemoveKeepsUserIndex(socketsByUser, active, socket);
      RemoveKeepsIpIndex(socketsByIp, active, socket);
      RemovalCounts(active, socket);
      socketsByUser := Remove(socketsByUser, peer.user, socket);
      if peer.ip.Some? {
        socketsByIp := Remove(socketsByIp, peer.ip.value, socket);
      }
      activeSockets := if activeSockets - 1 < 0 then 0 else activeSockets - 1;
      active := active - {socket};
    }

    /** `disconnectUser`: every active socket of the user is disconnected and counted. */
    method DisconnectUser(user: User) returns (count: nat)
      requires Valid()
      modifies this
      ensures Valid()
      ensures View() == old(View()).(active := old(active) - OfUser(old(active), user))
      ensures count == |OfUser(old(active), user)|
      ensures forcedSecurityDisconnects == old(forcedSecurityDisconnects) + count
    {
      hide IndexesUsers, IndexesIps;
      var sockets := Lookup(socketsByUser, user);
      UserIndexLooksUp(socketsByUser, active, user);
      assert sockets <= active.Keys;
      hide OfUser, Lookup, Disconnect;
      var todo := sockets;
      ghost var m0 := View();
      while todo != {}
        invariant todo <= sockets <= m0.active.Keys
        invariant Valid() && View() == m0.(active := m0.active - (sockets - todo))
        invariant forcedSecurityDisconnects == old(forcedSecurityDisconnects)
        decreases todo
      {
        var socket :| socket in todo;
        assert socket in active;
        OnDisconnect(socket, active[socket]);
        DisconnectOneMore(m0, sockets, todo, socket);
        todo := todo - {socket};
      }
      assert sockets - todo == sockets;
      count := |sockets|;
      forcedSecurityDisconnects := forcedSecurityDisconnects + count;
    }

    /** `releaseAllPendingAdmissions`: the table and both indexes end empty. */
    method ReleaseAll()
      requires Valid()
      modifies this
      ensures Valid() && pendingAdmissions == map[] && active == old(active)
      ensures pendingAdmissionTokensByUser == map[] && pendingAdmissionTokensByIp == map[]
      ensures |log| == |old(log)| + |old(pendingAdmissions)| && log[..|old(log)|] == old(log)
      ensures forall i :: |old(log)| <= i < |log| ==>
                log[i].token in old(pendingAdmissions) && log[i] == Released(log[i].token, ServerShutdown)
    {
      hide IndexesUsers, IndexesIps;
      var todo := pendingAdmissions.Keys;
      while todo != {}
        invariant Valid() && active == old(active)
        invariant pendingAdmissions.Keys == todo
        invariant |old(log)| <= |log| && log[..|old(log)|] == old(log)
        invariant todo <= old(pendingAdmissions).Keys
        invariant |log| + |todo| == |old(log)| + |old(pendingAdmissions)|
        invariant forall i :: |old(log)| <= i < |log| ==>
                    log[i].token in old(pendingAdmissions) && log[i] == Released(log[i].token, ServerShutdown)
        decreases todo
      {
        var token :| token in todo;
        var released := ReleasePendingAdmission(token, ServerShutdown);
        todo := todo - {token};
      }
      EmptyTablesHaveEmptyIndexes(pendingAdmissionTokensByUser, pendingAdmissionTokensByIp, pendingAdmissions);
    }
  }

  lemma DisconnectOneMore(m: Model, sockets: set<SocketId>, todo: set<SocketId>, socket: SocketId)
    requires socket in todo && todo <= sockets
    ensures Disconnect(m.(active := m.active - (sockets - todo)), socket)
         == m.(active := m.active - (sockets - (todo - {socket})))
  {
  }

  lemma RemovalCounts(m: map<string, Peer>, k: string)
    requires k in m
    ensures |m - {k}| == |m| - 1
  {
  }

  /** No empty set is left behind in either index. */
  lemma EmptyTablesHaveEmptyIndexes(users: map<User, set<string>>, ips: map<Ip, set<string>>, m: map<string, Peer>)
    requires IndexesUsers(users, m) && IndexesIps(ips, m) && m == map[]
    ensures users == map[] && ips == map[]
  {
  }
}
