/**
 The Redis side of the maintenance lease: one key with an expiry time, and the
 three commands that workers send to it. Redis executes commands one at a time,
 so the model keeps the serial log of everything it executed.
 */
module LeaseRedis {
  import opened Wrappers

  type Token = string

  datatype Command = SetNx | Renew | Release

  /** One executed command. `ok` is the reply OK or 1, `at` the Redis time of execution. */
  datatype Entry = Entry(token: Token, command: Command, ok: bool, at: nat)

  datatype Held = Held(token: Token, expiresAt: nat)

  datatype Redis = Redis(now: nat, key: Option<Held>, log: seq<Entry>)

  const EMPTY := Redis(0, None, [])

  /** The value a GET of the key sees: an expired key is absent. */
  function Visible(r: Redis): Option<Token> {
    if r.key.Some? && r.now < r.key.value.expiresAt then Some(r.key.value.token) else None
  }

  /** The reply of a command: SET NX needs an absent key, both scripts an equal value. */
  predicate Succeeds(r: Redis, token: Token, command: Command) {
    if command.SetNx? then Visible(r) == None else Visible(r) == Some(token)
  }

  function Execute(r: Redis, token: Token, command: Command, ttl: nat): Redis {
    var ok := Succeeds(r, token, command);
    var key :=
      if !ok then r.key
      else if command.Release? then None
      else Some(Held(token, r.now + ttl));
    Redis(r.now, key, r.log + [Entry(token, command, ok, r.now)])
  }

  // ---------- The log as an independent account of who holds the key ----------

  /** Position of the last successful command, or -1. */
  function LastOk(log: seq<Entry>): (r: int)
    ensures -1 <= r < |log|
    ensures 0 <= r ==> log[r].ok
    ensures forall j :: r < j < |log| ==> !log[j].ok
  {
    if log == [] then -1
    else if log[|log| - 1].ok then |log| - 1
    else LastOk(log[..|log| - 1])
  }

  /** What the log alone says about the key. */
  function KeyOf(log: seq<Entry>, ttl: nat): Option<Held> {
    var p := LastOk(log);
    if p < 0 || log[p].command.Release? then None
    else Some(Held(log[p].token, log[p].at + ttl))
  }

  /** A success at position k continues the previous success, or starts after it ended. */
  ghost predicate LegalAt(log: seq<Entry>, k: nat, ttl: nat)
    requires k < |log|
  {
    var p := LastOk(log[..k]);
    log[k].ok ==>
      if log[k].command.SetNx?
      then p < 0 || log[p].command.Release? || log[p].at + ttl <= log[k].at
      else 0 <= p && !log[p].command.Release? && log[p].token == log[k].token && log[k].at < log[p].at + ttl
  }

  ghost predicate LegalLog(log: seq<Entry>, ttl: nat) {
    forall k :: 0 <= k < |log| ==> LegalAt(log, k, ttl)
  }

  ghost predicate TimeOrdered(r: Redis) {
    && (forall i, j :: 0 <= i <= j < |r.log| ==> r.log[i].at <= r.log[j].at)
    && (forall i :: 0 <= i < |r.log| ==> r.log[i].at <= r.now)
  }

  ghost predicate RedisInv(r: Redis, ttl: nat) {
    && r.key == KeyOf(r.log, ttl)
    && LegalLog(r.log, ttl)
    && TimeOrdered(r)
  }

  lemma LastOkAppend(log: seq<Entry>, e: Entry)
    ensures LastOk(log + [e]) == if e.ok then |log| else LastOk(log)
  {
  }

  /** An appended entry leaves every earlier position as legal as it was. */
  lemma LegalAppend(log: seq<Entry>, e: Entry, ttl: nat)
    requires LegalLog(log, ttl) && LegalAt(log + [e], |log|, ttl)
    ensures LegalLog(log + [e], ttl)
  {
    forall k | 0 <= k < |log + [e]|
      ensures LegalAt(log + [e], k, ttl)
    {
      if k < |log| {
        assert (log + [e])[..k] == log[..k];
        assert LegalAt(log, k, ttl);
      }
    }
  }

  /** A command's reply, read off the log instead of the key. */
  lemma ReplyIsLegal(r: Redis, token: Token, command: Command, ttl: nat)
    requires RedisInv(r, ttl)
    ensures LegalAt(Execute(r, token, command, ttl).log, |r.log|, ttl)
  {
  }

  /** Every command keeps the key equal to what the log says, and the log legal. */
  lemma ExecuteKeepsInv(r: Redis, token: Token, command: Command, ttl: nat)
    requires RedisInv(r, ttl)
    ensures RedisInv(Execute(r, token, command, ttl), ttl)
  {
    var e := Entry(token, command, Succeeds(r, token, command), r.now);
    LastOkAppend(r.log, e);
    ReplyIsLegal(r, token, command, ttl);
    LegalAppend(r.log, e, ttl);
  }

  /** No token is set twice: what a fresh random token per attempt gives. */
  ghost predicate SetOnce(log: seq<Entry>) {
    forall i, j |
      && 0 <= i < |log|
      && 0 <= j < |log|
      && log[i].token == log[j].token
      && log[i].command.SetNx?
      && log[j].command.SetNx?
      :: i == j
  }

  /** The successful SET that a token's success descends from. */
  lemma {:induction false} HasSet(log: seq<Entry>, k: nat, ttl: nat) returns (i: nat)
    requires k < |log| && log[k].ok && LegalLog(log, ttl)
    ensures i <= k && log[i].ok && log[i].command.SetNx? && log[i].token == log[k].token
    decreases k
  {
    assert LegalAt(log, k, ttl);
    if log[k].command.SetNx? {
      i := k;
    } else {
      var p := LastOk(log[..k]);
      i := HasSet(log, p, ttl);
    }
  }

  /**
   Successes of one token are never interrupted by a success of another: a fresh
   token that leaves the key never returns to it.
   */
  lemma {:induction false} HoldingsAreContiguous(log: seq<Entry>, i: nat, j: nat, k: nat, ttl: nat)
    requires LegalLog(log, ttl) && SetOnce(log)
    requires i < j < k < |log|
    requires log[i].ok && log[j].ok && log[k].ok
    requires log[i].token == log[k].token
    ensures log[j].token == log[i].token
    decreases k
  {
    assert LegalAt(log, k, ttl);
    if log[k].command.SetNx? {
      var h := HasSet(log, i, ttl);
      assert false;
    } else {
      var p := LastOk(log[..k]);
      assert log[..k][j] == log[j];
      assert j <= p;
      if j < p {
        HoldingsAreContiguous(log, i, j, p, ttl);
      }
    }
  }

  /**
   A token confirmed less than ttl ago and never released still is the last
   successful one: nobody can have taken the key in between.
   */
  lemma {:induction false} RecentSuccessIsLast(r: Redis, i: nat, k: nat, ttl: nat)
    requires RedisInv(r, ttl)
    requires i <= k < |r.log| && r.log[i].ok && r.log[k].ok
    requires r.now < r.log[i].at + ttl
    requires forall m :: i <= m < |r.log| && r.log[m].ok && r.log[m].token == r.log[i].token ==>
               !r.log[m].command.Release?
    ensures r.log[k].token == r.log[i].token
    decreases k
  {
    if i < k {
      assert LegalAt(r.log, k, ttl);
      var p := LastOk(r.log[..k]);
      assert r.log[..k][i] == r.log[i];
      assert i <= p;
      RecentSuccessIsLast(r, i, p, ttl);
      assert r.log[i].at <= r.log[p].at;
    }
  }
}
