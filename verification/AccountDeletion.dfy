/**
 Account deletion by e-mailed confirmation. Transactions are sequences of statements;
 each statement sees what is committed when it runs, takes row locks that last until its
 transaction ends, and waits for the locks of others. A transaction's own writes become
 visible when it commits.
 */
module AccountDeletion {
  import opened Wrappers

  type UserId = string
  type Hash = string
  type TxId = nat
  type Time = int

  const TOKEN_TTL := 900000

  datatype User = User(authVersion: int, disabled: bool, verified: bool, hasPassword: bool)

  datatype Token = Token(userId: UserId, authVersion: int, createdAt: Time, expiresAt: Time, usedAt: Option<Time>)

  /** A deletion record; its subject reference is an injective hash of the user id. */
  datatype Record = Record(requestedAt: Time, completedAt: Time)

  datatype Db = Db(users: map<UserId, User>, tokens: map<Hash, Token>, records: map<UserId, Record>)

  datatype Error = NotGoogleOnly | NoSuchUser | InvalidConfirmation | AccountChanged

  /** Only active accounts without a password and with a verified address use e-mail confirmation. */
  predicate GoogleOnly(u: User) {
    !u.disabled && !u.hasPassword && u.verified
  }

  function UnusedOf(db: Db, user: UserId): set<Hash> {
    set h | h in db.tokens && db.tokens[h].userId == user && db.tokens[h].usedAt.None?
  }

  function TokensOf(db: Db, user: UserId): set<Hash> {
    set h | h in db.tokens && db.tokens[h].userId == user
  }

  function MarkUsed(tokens: map<Hash, Token>, hashes: set<Hash>, now: Time): map<Hash, Token> {
    map h | h in tokens :: if h in hashes then tokens[h].(usedAt := Some(now)) else tokens[h]
  }

  /** The first read of a confirmation. */
  predicate Confirmable(db: Db, h: Hash, user: UserId, now: Time) {
    && h in db.tokens
    && db.tokens[h].userId == user
    && db.tokens[h].usedAt.None?
    && now < db.tokens[h].expiresAt
    && user in db.users
    && GoogleOnly(db.users[user])
    && db.users[user].authVersion == db.tokens[h].authVersion
  }

  /** The claim: the same conditions again, for the authVersion that was read. */
  predicate Claimable(db: Db, h: Hash, user: UserId, authVersion: int, now: Time) {
    && h in db.tokens
    && db.tokens[h].usedAt.None?
    && now < db.tokens[h].expiresAt
    && db.tokens[h].userId == user
    && user in db.users
    && GoogleOnly(db.users[user])
    && db.users[user].authVersion == authVersion
  }

  /** `upsert`: an existing record keeps its request time. */
  function Upserted(records: map<UserId, Record>, user: UserId, requestedAt: Time, now: Time): map<UserId, Record> {
    records[user := Record(if user in records then records[user].requestedAt else requestedAt, now)]
  }

  /** Deleting a user removes the user's tokens with it. */
  function Deleted(db: Db, user: UserId, requestedAt: Time, now: Time): Db {
    Db(db.users - {user}, db.tokens - TokensOf(db, user), Upserted(db.records, user, requestedAt, now))
  }

  function WithConfirmation(db: Db, user: UserId, authVersion: int, h: Hash, now: Time): Db {
    var row := Token(user, authVersion, now, now + TOKEN_TTL, None);
    db.(tokens := MarkUsed(db.tokens, UnusedOf(db, user), now)[h := row])
  }

  // ---------- The three operations, undisturbed ----------

  class Database {
    var users: map<UserId, User>
    var tokens: map<Hash, Token>
    var records: map<UserId, Record>

    function View(): Db
      reads this
    {
      Db(users, tokens, records)
    }

    constructor ()
      ensures View() == Db(map[], map[], map[])
    {
      users, tokens, records := map[], map[], map[];
    }

    /** The transaction of `requestOAuthAccountDeletionConfirmation`; a throw changes nothing. */
    method Request(user: UserId, h: Hash, now: Time) returns (r: Result<(), Error>)
      requires h !in tokens
      modifies this
      ensures r.Ok? <==>
                && user in old(users)
                && !old(users)[user].disabled && !old(users)[user].hasPassword && old(users)[user].verified
      ensures r.Err? ==> View() == old(View())
      ensures r.Ok? ==> View() == WithConfirmation(old(View()), user, old(users)[user].authVersion, h, now)
      ensures r.Ok? ==> users == old(users) && records == old(records)
      ensures r.Ok? ==> tokens.Keys == old(tokens).Keys + {h}
      ensures r.Ok? ==> tokens[h] == Token(user, old(users)[user].authVersion, now, now + 15 * 60 * 1000, None)
      ensures r.Ok? ==> forall g :: g in old(tokens) ==>
                tokens[g] == if old(tokens)[g].userId == user && old(tokens)[g].usedAt.None?
                             then old(tokens)[g].(usedAt := Some(now)) else old(tokens)[g]
    {
      if user !in users {
        return Err(NoSuchUser);
      }
      var row := users[user];
      if row.disabled || row.hasPassword || !row.verified {
        return Err(NotGoogleOnly);
      }
      tokens := MarkUsed(tokens, UnusedOf(View(), user), now);
      tokens := tokens[h := Token(user, row.authVersion, now, now + TOKEN_TTL, None)];
      r := Ok(());
    }

    /** The e-mail could not be sent: its token is burnt. */
    method BurnToken(h: Hash, now: Time)
      modifies this`tokens
      ensures tokens == if h in old(tokens) && old(tokens)[h].usedAt.None?
                        then old(tokens)[h := old(tokens)[h].(usedAt := Some(now))] else old(tokens)
      ensures forall user, later :: !Confirmable(View(), h, user, later)
      ensures forall g, user, later :: g != h ==>
                Confirmable(View(), g, user, later) == Confirmable(old(View()), g, user, later)
    {
      if h in tokens && tokens[h].usedAt.None? {
        tokens := tokens[h := tokens[h].(usedAt := Some(now))];
      }
    }

    /** `deleteAccountInTransaction`; the caller's transaction rolls back on an error. */
    method DeleteInTransaction(user: UserId, expectedAuthVersion: int, requestedAt: Time, now: Time)
      returns (r: Result<(), Error>)
      modifies this
      ensures r.Ok? <==> user in old(users) && old(users)[user].authVersion == expectedAuthVersion
      ensures r.Ok? ==> View() == Deleted(old(View()), user, requestedAt, now)
      ensures r.Ok? ==> users == old(users) - {user}
      ensures r.Ok? ==> forall g :: g in tokens <==> g in old(tokens) && old(tokens)[g].userId != user
      ensures r.Ok? ==> forall g :: g in tokens ==> tokens[g] == old(tokens)[g]
      ensures r.Ok? ==> records.Keys == old(records).Keys + {user} && records[user].completedAt == now
      ensures r.Ok? ==> records[user].requestedAt ==
                        if user in old(records) then old(records)[user].requestedAt else requestedAt
      ensures r.Ok? ==> forall u :: u in old(records) && u != user ==> records[u] == old(records)[u]
    {
      ghost var before := View();
      records := Upserted(records, user, requestedAt, now);
      if user !in users || users[user].authVersion != expectedAuthVersion {
        return Err(AccountChanged);
      }
      var cascade := TokensOf(View(), user);
      assert cascade == TokensOf(before, user);
      users := users - {user};
      tokens := tokens - cascade;
      r := Ok(());
    }

    /** `confirmOAuthAccountDeletionByTokenHash`: deletes exactly when the token is confirmable. */
    method Confirm(h: Hash, user: UserId, now: Time) returns (r: Result<(), Error>)
      modifies this
      ensures r.Ok? <==> Confirmable(old(View()), h, user, now)
      ensures r.Ok? <==>
                && h in old(tokens) && old(tokens)[h].userId == user
                && old(tokens)[h].usedAt.None? && now < old(tokens)[h].expiresAt
                && user in old(users)
                && !old(users)[user].disabled && !old(users)[user].hasPassword && old(users)[user].verified
                && old(users)[user].authVersion == old(tokens)[h].authVersion
      ensures r.Err? ==> View() == old(View())
      ensures r.Ok? ==> View() == Deleted(old(View()), user, old(tokens)[h].createdAt, now)
      ensures r.Ok? ==> users == old(users) - {user}
      ensures r.Ok? ==> forall g :: g in tokens <==> g in old(tokens) && old(tokens)[g].userId != user
      ensures r.Ok? ==> forall g :: g in tokens ==> tokens[g] == old(tokens)[g]
      ensures r.Ok? ==> records.Keys == old(records).Keys + {user} && records[user].completedAt == now
      ensures r.Ok? ==> records[user].requestedAt ==
                        if user in old(records) then old(records)[user].requestedAt else old(tokens)[h].createdAt
      ensures r.Ok? ==> forall u :: u in old(records) && u != user ==> records[u] == old(records)[u]
    {
      if !Confirmable(View(), h, user, now) {
        return Err(InvalidConfirmation);
      }
      var token := tokens[h];
      ghost var before := View();
      tokens := tokens[h := token.(usedAt := Some(now))];
      assert TokensOf(View(), user) == TokensOf(before, user);
      assert tokens - TokensOf(before, user) == before.tokens - TokensOf(before, user);
      r := DeleteInTransaction(user, token.authVersion, token.createdAt, now);
    }
  }

  /** A requested token confirms exactly the account it was requested for, for fifteen minutes. */
  lemma RequestedTokenConfirms(db: Db, user: UserId, h: Hash, now: Time, other: UserId, later: Time)
    requires user in db.users && !db.users[user].disabled && !db.users[user].hasPassword && db.users[user].verified
    ensures var requested := WithConfirmation(db, user, db.users[user].authVersion, h, now);
      Confirmable(requested, h, other, later) <==> other == user && later < now + 15 * 60 * 1000
  {
  }

  /** And it is the only unused token of the account: an older one no longer confirms anything. */
  lemma OlderTokensDoNotConfirm(db: Db, user: UserId, h: Hash, now: Time, g: Hash, later: Time)
    requires user in db.users && g != h
    ensures !Confirmable(WithConfirmation(db, user, db.users[user].authVersion, h, now), g, user, later)
  {
    assert g in db.tokens && db.tokens[g].userId == user && db.tokens[g].usedAt.None? ==> g in UnusedOf(db, user);
  }

  // ---------- Interleaved transactions ----------

  /** An open transaction, by the statement it has completed. */
  datatype Tx =
    | RequestLocked(user: UserId, authVersion: int, hash: Hash, now: Time)
    | RequestInvalidated(user: UserId, authVersion: int, hash: Hash, now: Time, burnt: set<Hash>)
    | ConfirmRead(token: Hash, user: UserId, authVersion: int, createdAt: Time, now: Time)
    | ConfirmClaimed(token: Hash, user: UserId, authVersion: int, createdAt: Time, now: Time)
    | DeleteRecorded(claim: Option<Hash>, user: UserId, authVersion: int, requestedAt: Time, now: Time)

  /** A committed deletion, with the token that caused it if one did. */
  datatype Deletion = Deletion(user: UserId, authVersion: int, token: Option<Hash>, requestedAt: Time, at: Time)

  /** `issued` remembers each token as it was issued. */
  datatype System = System(
    db: Db,
    txs: map<TxId, Tx>,
    created: set<UserId>,
    issued: map<Hash, Token>,
    deletions: seq<Deletion>)

  const INITIAL := System(Db(map[], map[], map[]), map[], {}, map[], [])

  datatype Event =
    | SignsUp(user: UserId, row: User)
    | UserChanges(user: UserId, row: User)
    | RequestBegins(tx: TxId, user: UserId, hash: Hash, now: Time)
    | RequestInvalidates(tx: TxId)
    | RequestCommits(tx: TxId)
    | EmailFails(hash: Hash, now: Time)
    | ConfirmBegins(tx: TxId, hash: Hash, user: UserId, now: Time)
    | ConfirmClaims(tx: TxId)
    | ConfirmRecords(tx: TxId)
    | DirectBegins(tx: TxId, user: UserId, authVersion: int, now: Time)
    | DeleteFinishes(tx: TxId)
    | RollsBack(tx: TxId)

  predicate Requesting(t: Tx) {
    t.RequestLocked? || t.RequestInvalidated?
  }

  /** A request holds its user row from its first statement on. */
  predicate LocksUser(t: Tx, user: UserId) {
    Requesting(t) && t.user == user
  }

  /** Updated token rows are held until the transaction ends. */
  function LockedTokens(t: Tx): set<Hash> {
    match t
    case RequestInvalidated(_, _, _, _, burnt) => burnt
    case ConfirmClaimed(token, _, _, _, _) => {token}
    case DeleteRecorded(claim, _, _, _, _) => if claim.Some? then {claim.value} else {}
    case _ => {}
  }

  predicate UserFree(s: System, user: UserId) {
    forall x :: x in s.txs ==> !LocksUser(s.txs[x], user)
  }

  /** No transaction but `tx` holds any of these tokens. */
  predicate TokensFree(s: System, tokens: set<Hash>, tx: Option<TxId>) {
    forall x :: x in s.txs && tx != Some(x) ==> LockedTokens(s.txs[x]) !! tokens
  }

  predicate RecordFree(s: System, user: UserId) {
    forall x :: x in s.txs && s.txs[x].DeleteRecorded? ==> s.txs[x].user != user
  }

  /** No open request is about to insert this hash. */
  predicate HashFresh(s: System, h: Hash) {
    && h !in s.issued
    && forall x :: x in s.txs && Requesting(s.txs[x]) ==> s.txs[x].hash != h
  }

  predicate Enabled(s: System, e: Event) {
    match e
    case SignsUp(user, _) => user !in s.created
    case UserChanges(user, _) => user in s.db.users && UserFree(s, user)
    case RequestBegins(tx, user, hash, _) => tx !in s.txs && UserFree(s, user) && HashFresh(s, hash)
    case RequestInvalidates(tx) =>
      tx in s.txs && s.txs[tx].RequestLocked? && TokensFree(s, UnusedOf(s.db, s.txs[tx].user), None)
    case RequestCommits(tx) => tx in s.txs && s.txs[tx].RequestInvalidated?
    case EmailFails(hash, _) => TokensFree(s, {hash}, None)
    case ConfirmBegins(tx, _, _, _) => tx !in s.txs
    case ConfirmClaims(tx) => tx in s.txs && s.txs[tx].ConfirmRead? && TokensFree(s, {s.txs[tx].token}, None)
    case ConfirmRecords(tx) => tx in s.txs && s.txs[tx].ConfirmClaimed? && RecordFree(s, s.txs[tx].user)
    case DirectBegins(tx, user, _, _) => tx !in s.txs && RecordFree(s, user)
    case DeleteFinishes(tx) =>
      && tx in s.txs && s.txs[tx].DeleteRecorded?
      && UserFree(s, s.txs[tx].user)
      && TokensFree(s, TokensOf(s.db, s.txs[tx].user), Some(tx))
    case RollsBack(tx) => tx in s.txs
  }

  function Closed(s: System, tx: TxId): System {
    s.(txs := s.txs - {tx})
  }

  function AfterRequestBegins(s: System, tx: TxId, user: UserId, hash: Hash, now: Time): System {
    if user !in s.db.users || !GoogleOnly(s.db.users[user]) then s
    else s.(txs := s.txs[tx := RequestLocked(user, s.db.users[user].authVersion, hash, now)])
  }

  function AfterRequestCommits(s: System, tx: TxId): System
    requires Enabled(s, RequestCommits(tx))
  {
    var t := s.txs[tx];
    var row := Token(t.user, t.authVersion, t.now, t.now + TOKEN_TTL, None);
    Closed(s, tx).(
      db := s.db.(tokens := MarkUsed(s.db.tokens, t.burnt, t.now)[t.hash := row]),
      issued := s.issued[t.hash := row])
  }

  function AfterEmailFails(s: System, h: Hash, now: Time): System {
    if h in s.db.tokens && s.db.tokens[h].usedAt.None? then
      s.(db := s.db.(tokens := s.db.tokens[h := s.db.tokens[h].(usedAt := Some(now))]))
    else s
  }

  function AfterConfirmClaims(s: System, tx: TxId): System
    requires Enabled(s, ConfirmClaims(tx))
  {
    var t := s.txs[tx];
    if Claimable(s.db, t.token, t.user, t.authVersion, t.now) then
      s.(txs := s.txs[tx := ConfirmClaimed(t.token, t.user, t.authVersion, t.createdAt, t.now)])
    else Closed(s, tx)
  }

  function AfterDeleteFinishes(s: System, tx: TxId): System
    requires Enabled(s, DeleteFinishes(tx))
  {
    var t := s.txs[tx];
    if t.user in s.db.users && s.db.users[t.user].authVersion == t.authVersion then
      Closed(s, tx).(
        db := Deleted(s.db, t.user, t.requestedAt, t.now),
        deletions := s.deletions + [Deletion(t.user, t.authVersion, t.claim, t.requestedAt, t.now)])
    else Closed(s, tx)
  }

  function Apply(s: System, e: Event): System
    requires Enabled(s, e)
  {
    match e
    case SignsUp(user, row) => s.(db := s.db.(users := s.db.users[user := row]), created := s.created + {user})
    case UserChanges(user, row) => s.(db := s.db.(users := s.db.users[user := row]))
    case RequestBegins(tx, user, hash, now) => AfterRequestBegins(s, tx, user, hash, now)
    case RequestInvalidates(tx) =>
      var t := s.txs[tx];
      s.(txs := s.txs[tx := RequestInvalidated(t.user, t.authVersion, t.hash, t.now, UnusedOf(s.db, t.user))])
    case RequestCommits(tx) => AfterRequestCommits(s, tx)
    case EmailFails(hash, now) => AfterEmailFails(s, hash, now)
    case ConfirmBegins(tx, hash, user, now) =>
      if Confirmable(s.db, hash, user, now) then
        s.(txs := s.txs[tx := ConfirmRead(hash, user, s.db.tokens[hash].authVersion, s.db.tokens[hash].createdAt, now)])
      else s
    case ConfirmClaims(tx) => AfterConfirmClaims(s, tx)
    case ConfirmRecords(tx) =>
      var t := s.txs[tx];
      s.(txs := s.txs[tx := DeleteRecorded(Some(t.token), t.user, t.authVersion, t.createdAt, t.now)])
    case DirectBegins(tx, user, authVersion, now) =>
      s.(txs := s.txs[tx := DeleteRecorded(None, user, authVersion, now, now)])
    case DeleteFinishes(tx) => AfterDeleteFinishes(s, tx)
    case RollsBack(tx) => Closed(s, tx)
  }

  function Exec(s: System, events: seq<Event>): Option<System>
    decreases |events|
  {
    if events == [] then Some(s)
    else if Enabled(s, events[0]) then Exec(Apply(s, events[0]), events[1..])
    else None
  }

  // ---------- The invariant ----------

  function DeletedUsers(deletions: seq<Deletion>): set<UserId> {
    set i | 0 <= i < |deletions| :: deletions[i].user
  }

  ghost predicate AtMostOneUnused(db: Db) {
    forall g, h ::
      && g in db.tokens && h in db.tokens
      && db.tokens[g].userId == db.tokens[h].userId
      && db.tokens[g].usedAt.None? && db.tokens[h].usedAt.None?
      ==> g == h
  }

  ghost predicate TokensMatchIssue(s: System) {
    forall h :: h in s.db.tokens ==>
      h in s.issued && s.issued[h] == s.db.tokens[h].(usedAt := None)
  }

  /** The token was issued to this user for this version at this time. */
  predicate IssuedFor(issued: map<Hash, Token>, h: Hash, user: UserId, authVersion: int, createdAt: Time) {
    h in issued && issued[h].userId == user && issued[h].authVersion == authVersion && issued[h].createdAt == createdAt
  }

  /** What one open transaction relies on, given the locks it holds. */
  predicate TxInv(db: Db, t: Tx, issued: map<Hash, Token>) {
    match t
    case RequestLocked(user, _, hash, _) => hash !in issued
    case RequestInvalidated(user, _, hash, _, burnt) => hash !in issued && burnt == UnusedOf(db, user)
    case ConfirmRead(token, user, authVersion, createdAt, _) => IssuedFor(issued, token, user, authVersion, createdAt)
    case ConfirmClaimed(token, user, authVersion, createdAt, _) =>
      && IssuedFor(issued, token, user, authVersion, createdAt)
      && token in db.tokens && db.tokens[token].usedAt.None?
    case DeleteRecorded(claim, user, authVersion, requestedAt, _) =>
      claim.Some? ==>
        && IssuedFor(issued, claim.value, user, authVersion, requestedAt)
        && claim.value in db.tokens && db.tokens[claim.value].usedAt.None?
  }

  ghost predicate TxsInv(s: System) {
    forall x :: x in s.txs ==> TxInv(s.db, s.txs[x], s.issued)
  }

  /** Two open transactions share no token lock, no requested user and no promised hash. */
  predicate Exclude(a: Tx, b: Tx) {
    && LockedTokens(a) !! LockedTokens(b)
    && (Requesting(a) && Requesting(b) ==> a.user != b.user && a.hash != b.hash)
  }

  ghost predicate LocksExclude(s: System) {
    forall x, y :: x in s.txs && y in s.txs && x != y ==> Exclude(s.txs[x], s.txs[y])
  }

  /** Deletions: records exactly for deleted users, each token at most once and as issued. */
  ghost predicate DeletionsInv(s: System) {
    && s.db.records.Keys == DeletedUsers(s.deletions)
    && s.created == s.db.users.Keys + DeletedUsers(s.deletions)
    && s.db.users.Keys !! DeletedUsers(s.deletions)
    && (forall i :: 0 <= i < |s.deletions| && s.deletions[i].token.Some? ==>
          var h := s.deletions[i].token.value;
          && IssuedFor(s.issued, h, s.deletions[i].user, s.deletions[i].authVersion, s.deletions[i].requestedAt)
          && h !in s.db.tokens)
    && (forall i, j :: 0 <= i < j < |s.deletions| && s.deletions[i].token.Some? ==>
          s.deletions[i].token != s.deletions[j].token)
  }

  /** The record of a deleted user holds the two times of its deletion. */
  ghost predicate RecordsMatch(s: System) {
    forall i :: 0 <= i < |s.deletions| ==> HasRecord(s.db, s.deletions[i])
  }

  predicate HasRecord(db: Db, d: Deletion) {
    d.user in db.records && db.records[d.user] == Record(d.requestedAt, d.at)
  }

  ghost predicate Inv(s: System) {
    AtMostOneUnused(s.db) && TokensMatchIssue(s) && TxsInv(s) && LocksExclude(s) && DeletionsInv(s) && RecordsMatch(s)
  }
}
