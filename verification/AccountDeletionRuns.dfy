/** What every interleaving of sign-up, request, failed e-mail, confirmation and direct deletion keeps. */
module AccountDeletionRuns {
  import opened Wrappers
  import opened AccountDeletion

  // ---------- Tokens ----------

  lemma StepKeepsTokens(s: System, e: Event)
    requires Inv(s) && Enabled(s, e)
    ensures AtMostOneUnused(Apply(s, e).db)
    ensures TokensMatchIssue(Apply(s, e))
  {
    hide LocksExclude, DeletionsInv;
    match e
    case RequestCommits(tx) => CommitKeepsTokens(s, tx);
    case DeleteFinishes(tx) => 
    case _ =>
  }

  lemma CommitKeepsTokens(s: System, tx: TxId)
    requires AtMostOneUnused(s.db) && TokensMatchIssue(s) && Enabled(s, RequestCommits(tx))
    requires TxInv(s.db, s.txs[tx], s.issued)
    ensures AtMostOneUnused(AfterRequestCommits(s, tx).db)
    ensures TokensMatchIssue(AfterRequestCommits(s, tx))
  {
  }

  // ---------- Locks ----------

  /** A transaction that opens or moves on takes only free locks. */
  lemma MovedTxExcludes(s: System, e: Event, x: TxId, y: TxId)
    requires LocksExclude(s) && Enabled(s, e)
    requires x in Apply(s, e).txs && (x !in s.txs || Apply(s, e).txs[x] != s.txs[x])
    requires y in Apply(s, e).txs && y != x
    ensures y in s.txs && Apply(s, e).txs[y] == s.txs[y]
    ensures Exclude(Apply(s, e).txs[x], s.txs[y]) && Exclude(s.txs[y], Apply(s, e).txs[x])
  {
    hide Confirmable, Claimable, UnusedOf, TokensOf, MarkUsed;
    var t := s.txs[y];
    if x in s.txs {
      assert Exclude(s.txs[x], t);
    }
    match e
    case RequestBegins(_, user, _, _) => assert !LocksUser(t, user);
    case RequestInvalidates(_) => assert LockedTokens(t) !! UnusedOf(s.db, s.txs[x].user);
    case ConfirmClaims(_) => assert LockedTokens(t) !! {s.txs[x].token};
    case _ =>
  }

  lemma StepKeepsLocks(s: System, e: Event)
    requires LocksExclude(s) && Enabled(s, e)
    ensures LocksExclude(Apply(s, e))
  {
    hide Enabled, Apply, Exclude;
    forall x, y | x in Apply(s, e).txs && y in Apply(s, e).txs && x != y
      ensures Exclude(Apply(s, e).txs[x], Apply(s, e).txs[y])
    {
      if x !in s.txs || Apply(s, e).txs[x] != s.txs[x] {
        MovedTxExcludes(s, e, x, y);
      } else if y !in s.txs || Apply(s, e).txs[y] != s.txs[y] {
        MovedTxExcludes(s, e, y, x);
      }
    }
  }

  // ---------- What open transactions rely on ----------

  lemma OthersSurviveCommit(s: System, tx: TxId, x: TxId)
    requires Enabled(s, RequestCommits(tx)) && x in s.txs && x != tx
    requires TokensMatchIssue(s) && Exclude(s.txs[x], s.txs[tx])
    requires TxInv(s.db, s.txs[tx], s.issued) && TxInv(s.db, s.txs[x], s.issued)
    ensures TxInv(AfterRequestCommits(s, tx).db, s.txs[x], AfterRequestCommits(s, tx).issued)
  {
  }

  lemma OthersSurviveFailedEmail(s: System, hash: Hash, now: Time, x: TxId)
    requires Enabled(s, EmailFails(hash, now)) && x in s.txs
    requires TxInv(s.db, s.txs[x], s.issued)
    ensures TxInv(AfterEmailFails(s, hash, now).db, s.txs[x], s.issued)
  {
  }

  lemma OthersSurviveDeletion(s: System, tx: TxId, x: TxId)
    requires Enabled(s, DeleteFinishes(tx)) && x in s.txs && x != tx
    requires TxInv(s.db, s.txs[x], s.issued)
    ensures TxInv(AfterDeleteFinishes(s, tx).db, s.txs[x], s.issued)
  {
  }

  lemma OneTxSurvives(s: System, e: Event, x: TxId)
    requires Inv(s) && Enabled(s, e)
    requires x in Apply(s, e).txs && x in s.txs && Apply(s, e).txs[x] == s.txs[x]
    ensures TxInv(Apply(s, e).db, s.txs[x], Apply(s, e).issued)
  {
    hide AtMostOneUnused, TokensMatchIssue, LocksExclude, DeletionsInv;
    assert TxInv(s.db, s.txs[x], s.issued);
    match e
    case RequestCommits(tx) => LocksExcludeAt(s, x, tx); OthersSurviveCommit(s, tx, x);
    case EmailFails(hash, now) => OthersSurviveFailedEmail(s, hash, now, x);
    case DeleteFinishes(tx) => OthersSurviveDeletion(s, tx, x);
    case SignsUp(_, _) => SameTokensSameTxInv(s.db, Apply(s, e).db, s.txs[x], s.issued);
    case UserChanges(_, _) => SameTokensSameTxInv(s.db, Apply(s, e).db, s.txs[x], s.issued);
    case _ =>
  }

  lemma LocksExcludeAt(s: System, x: TxId, y: TxId)
    requires LocksExclude(s) && x in s.txs && y in s.txs && x != y
    ensures Exclude(s.txs[x], s.txs[y])
  {
  }

  lemma SameTokensSameTxInv(db: Db, db': Db, t: Tx, issued: map<Hash, Token>)
    requires db'.tokens == db.tokens && TxInv(db, t, issued)
    ensures TxInv(db', t, issued)
  {
  }

  /** A transaction that opens or moves on relies only on what it has just seen and locked. */
  lemma MovedTxHolds(s: System, e: Event, x: TxId)
    requires TokensMatchIssue(s) && TxsInv(s) && Enabled(s, e)
    requires x in Apply(s, e).txs && (x !in s.txs || Apply(s, e).txs[x] != s.txs[x])
    ensures TxInv(Apply(s, e).db, Apply(s, e).txs[x], Apply(s, e).issued)
  {
    hide UserFree, TokensFree, RecordFree;
    if x in s.txs {
      assert TxInv(s.db, s.txs[x], s.issued);
    }
  }

  lemma StepKeepsTxs(s: System, e: Event)
    requires Inv(s) && Enabled(s, e)
    ensures TxsInv(Apply(s, e))
  {
    hide AtMostOneUnused, LocksExclude, DeletionsInv, TxInv, Enabled, Apply;
    forall x | x in Apply(s, e).txs
      ensures TxInv(Apply(s, e).db, Apply(s, e).txs[x], Apply(s, e).issued)
    {
      if x in s.txs && Apply(s, e).txs[x] == s.txs[x] {
        OneTxSurvives(s, e, x);
      } else {
        MovedTxHolds(s, e, x);
      }
    }
  }

  // ---------- Deletions ----------

  lemma DeletedUsersAppend(deletions: seq<Deletion>, d: Deletion)
    ensures DeletedUsers(deletions + [d]) == DeletedUsers(deletions) + {d.user}
  {
    var all := deletions + [d];
    forall u | u in DeletedUsers(deletions) + {d.user}
      ensures u in DeletedUsers(all)
    {
      if u == d.user {
        assert all[|deletions|].user == u;
      } else {
        var i :| 0 <= i < |deletions| && deletions[i].user == u;
        assert all[i].user == u;
      }
    }
  }

  lemma DeletionKeepsRecord(s: System, tx: TxId)
    requires TokensMatchIssue(s) && DeletionsInv(s) && Enabled(s, DeleteFinishes(tx))
    requires TxInv(s.db, s.txs[tx], s.issued)
    ensures DeletionsInv(AfterDeleteFinishes(s, tx))
  {
    var t := s.txs[tx];
    if t.user in s.db.users && s.db.users[t.user].authVersion == t.authVersion {
      DeletedUsersAppend(s.deletions, Deletion(t.user, t.authVersion, t.claim, t.requestedAt, t.now));
      if t.claim.Some? {
        assert t.claim.value in TokensOf(s.db, t.user);
      }
    }
  }

  lemma StepKeepsDeletions(s: System, e: Event)
    requires Inv(s) && Enabled(s, e)
    ensures DeletionsInv(Apply(s, e))
  {
    hide AtMostOneUnused, LocksExclude, UserFree, TokensFree, RecordFree;
    match e
    case DeleteFinishes(tx) => DeletionKeepsRecord(s, tx);
    case RequestCommits(tx) => assert TxInv(s.db, s.txs[tx], s.issued);
    case _ =>
  }

  /** A deletion writes a new record and leaves those of the users deleted before. */
  lemma StepKeepsRecords(s: System, e: Event)
    requires DeletionsInv(s) && RecordsMatch(s) && Enabled(s, e)
    ensures RecordsMatch(Apply(s, e))
  {
    hide AtMostOneUnused, LocksExclude, UserFree, TokensFree, RecordFree, TokensOf, UnusedOf;
    var s' := Apply(s, e);
    forall i | 0 <= i < |s'.deletions|
      ensures HasRecord(s'.db, s'.deletions[i])
    {
      if i < |s.deletions| {
        assert HasRecord(s.db, s.deletions[i]);
        assert s.deletions[i].user in DeletedUsers(s.deletions);
      }
    }
  }

  // ---------- Runs ----------

  lemma StepKeepsInv(s: System, e: Event)
    requires Inv(s) && Enabled(s, e)
    ensures Inv(Apply(s, e))
  {
    hide AtMostOneUnused, TokensMatchIssue, TxsInv, LocksExclude, DeletionsInv, RecordsMatch, Enabled, Apply;
    StepKeepsTokens(s, e);
    StepKeepsLocks(s, e);
    StepKeepsTxs(s, e);
    StepKeepsDeletions(s, e);
    StepKeepsRecords(s, e);
  }

  lemma {:induction false} ExecKeepsInv(s: System, events: seq<Event>)
    requires Inv(s) && Exec(s, events).Some?
    ensures Inv(Exec(s, events).value)
    decreases |events|
  {
    hide Inv, Enabled, Apply;
    if events != [] {
      StepKeepsInv(s, events[0]);
      ExecKeepsInv(Apply(s, events[0]), events[1..]);
    }
  }

  /**
   In every run: at most one unused token a user; each token deletes at most one account, the
   one it was issued for at the version it was issued for; and a deletion record exists exactly
   for the accounts that were created and are gone.
   */
  lemma EveryRunKeepsThePromises(events: seq<Event>)
    requires Exec(INITIAL, events).Some?
    ensures var s := Exec(INITIAL, events).value;
      && AtMostOneUnused(s.db)
      && (forall i :: 0 <= i < |s.deletions| && s.deletions[i].token.Some? ==>
            && s.deletions[i].token.value in s.issued
            && s.issued[s.deletions[i].token.value].userId == s.deletions[i].user
            && s.issued[s.deletions[i].token.value].authVersion == s.deletions[i].authVersion)
      && (forall i, j :: 0 <= i < j < |s.deletions| && s.deletions[i].token.Some? ==>
            s.deletions[i].token != s.deletions[j].token)
      && s.db.records.Keys == s.created - s.db.users.Keys
      && s.db.records.Keys == DeletedUsers(s.deletions)
  {
    ExecKeepsInv(INITIAL, events);
  }

  /**
   In every run the record of a deleted account carries the time of its deletion and, if a token deleted
   it, the time that token was created.
   */
  lemma RecordsCarryTheTimes(events: seq<Event>, i: nat)
    requires Exec(INITIAL, events).Some? && i < |Exec(INITIAL, events).value.deletions|
    ensures var s := Exec(INITIAL, events).value;
      var d := s.deletions[i];
      && d.user in s.db.records
      && s.db.records[d.user].completedAt == d.at
      && (d.token.Some? ==> d.token.value in s.issued
                            && s.db.records[d.user].requestedAt == s.issued[d.token.value].createdAt)
  {
    ExecKeepsInv(INITIAL, events);
    assert HasRecord(Exec(INITIAL, events).value.db, Exec(INITIAL, events).value.deletions[i]);
  }

  /**
   An account disappears only in the last statement of a deletion, and only while it still has the
   version that deletion expected; for a confirmation that is the version of the token.
   */
  lemma AccountsGoOnlyAsExpected(events: seq<Event>, e: Event, user: UserId)
    requires Exec(INITIAL, events).Some? && Enabled(Exec(INITIAL, events).value, e)
    requires user in Exec(INITIAL, events).value.db.users
    requires user !in Apply(Exec(INITIAL, events).value, e).db.users
    ensures var s := Exec(INITIAL, events).value;
      && e.DeleteFinishes? && s.txs[e.tx].user == user
      && s.txs[e.tx].authVersion == s.db.users[user].authVersion
      && (s.txs[e.tx].claim.Some? ==>
            && s.txs[e.tx].claim.value in s.db.tokens
            && s.db.tokens[s.txs[e.tx].claim.value].userId == user
            && s.db.tokens[s.txs[e.tx].claim.value].authVersion == s.db.users[user].authVersion
            && s.db.tokens[s.txs[e.tx].claim.value].usedAt.None?)
  {
    hide Exec, LocksExclude, DeletionsInv, AtMostOneUnused, UserFree, TokensFree;
    ExecKeepsInvFromStart(events);
    var s := Exec(INITIAL, events).value;
    if e.DeleteFinishes? {
      assert TxInv(s.db, s.txs[e.tx], s.issued);
    }
  }

  lemma ExecKeepsInvFromStart(events: seq<Event>)
    requires Exec(INITIAL, events).Some?
    ensures Inv(Exec(INITIAL, events).value)
  {
    ExecKeepsInv(INITIAL, events);
  }

  /**
   A confirmation that has been read goes on exactly if the token is then still unused and in time, and the
   account still active, without password, verified and at the version that was read.
   */
  lemma ClaimRechecks(s: System, tx: TxId)
    requires Enabled(s, ConfirmClaims(tx))
    ensures var t, s' := s.txs[tx], Apply(s, ConfirmClaims(tx));
      && s'.db == s.db && s'.deletions == s.deletions
      && (tx in s'.txs <==>
            && t.token in s.db.tokens && s.db.tokens[t.token].userId == t.user
            && s.db.tokens[t.token].usedAt.None? && t.now < s.db.tokens[t.token].expiresAt
            && t.user in s.db.users && s.db.users[t.user].authVersion == t.authVersion
            && !s.db.users[t.user].disabled && !s.db.users[t.user].hasPassword && s.db.users[t.user].verified)
      && (tx in s'.txs ==> s'.txs[tx] == ConfirmClaimed(t.token, t.user, t.authVersion, t.createdAt, t.now))
  {
  }

  // ---------- A spent token stays spent ----------

  predicate Spent(s: System, h: Hash) {
    h in s.issued && (h in s.db.tokens ==> s.db.tokens[h].usedAt.Some?)
  }

  /** A failed e-mail spends its token and touches no other row. */
  lemma FailedEmailSpends(s: System, h: Hash, now: Time)
    requires Inv(s) && Enabled(s, EmailFails(h, now)) && h in s.issued
    ensures var s' := Apply(s, EmailFails(h, now));
      && Spent(s', h)
      && s'.db.users == s.db.users && s'.db.records == s.db.records && s'.db.tokens.Keys == s.db.tokens.Keys
      && (forall g :: g in s.db.tokens && g != h ==> s'.db.tokens[g] == s.db.tokens[g])
      && (h in s.db.tokens && s.db.tokens[h].usedAt.None? ==> s'.db.tokens[h] == s.db.tokens[h].(usedAt := Some(now)))
      && (h in s.db.tokens && s.db.tokens[h].usedAt.Some? ==> s'.db.tokens[h] == s.db.tokens[h])
  {
    hide Inv;
  }

  /** The deletions a run adds. */
  function Added(s: System, s': System): seq<Deletion> {
    if |s.deletions| <= |s'.deletions| then s'.deletions[|s.deletions|..] else []
  }

  lemma StepKeepsSpent(s: System, e: Event, h: Hash)
    requires Inv(s) && Enabled(s, e) && Spent(s, h)
    ensures Spent(Apply(s, e), h)
    ensures s.deletions <= Apply(s, e).deletions
    ensures forall d :: d in Added(s, Apply(s, e)) ==> d.token != Some(h)
  {
    hide AtMostOneUnused, TokensMatchIssue, LocksExclude, DeletionsInv, UserFree, TokensFree, RecordFree,
      UnusedOf, Confirmable, Claimable;
    match e
    case RequestCommits(tx) => assert TxInv(s.db, s.txs[tx], s.issued);
    case DeleteFinishes(tx) => assert TxInv(s.db, s.txs[tx], s.issued);
    case _ =>
  }

  /** After a failed e-mail, a newer request or a use, no continuation deletes anything by that token. */
  lemma {:induction false} SpentTokensDeleteNothing(s: System, events: seq<Event>, h: Hash)
    requires Inv(s) && Spent(s, h) && Exec(s, events).Some?
    ensures Spent(Exec(s, events).value, h)
    ensures s.deletions <= Exec(s, events).value.deletions
    ensures forall d :: d in Added(s, Exec(s, events).value) ==> d.token != Some(h)
    decreases |events|
  {
    hide Inv, Spent, Enabled, Apply;
    if events != [] {
      var s' := Apply(s, events[0]);
      StepKeepsInv(s, events[0]);
      StepKeepsSpent(s, events[0], h);
      SpentTokensDeleteNothing(s', events[1..], h);
      assert Added(s, Exec(s, events).value) == Added(s, s') + Added(s', Exec(s, events).value);
    }
  }

  // ---------- Undisturbed, the statements add up to the operations ----------

  lemma AloneDeletionFinishes(s: System, tx: TxId)
    requires tx in s.txs && s.txs == map[tx := s.txs[tx]] && s.txs[tx].DeleteRecorded?
    requires s.txs[tx].user in s.db.users && s.db.users[s.txs[tx].user].authVersion == s.txs[tx].authVersion
    ensures var t := s.txs[tx];
      Exec(s, [DeleteFinishes(tx)]) ==
        Some(System(Deleted(s.db, t.user, t.requestedAt, t.now), map[], s.created, s.issued,
                    s.deletions + [Deletion(t.user, t.authVersion, t.claim, t.requestedAt, t.now)]))
  {
  }

  /** A confirmation alone deletes exactly when its token is confirmable. */
  lemma AloneConfirmIsOneDeletion(s: System, tx: TxId, h: Hash, user: UserId, now: Time)
    requires s.txs == map[]
    ensures Confirmable(s.db, h, user, now) ==>
      var run := Exec(s, [ConfirmBegins(tx, h, user, now), ConfirmClaims(tx), ConfirmRecords(tx), DeleteFinishes(tx)]);
      && run.Some? && run.value.txs == map[]
      && run.value.db == Deleted(s.db, user, s.db.tokens[h].createdAt, now)
      && run.value.deletions ==
           s.deletions + [Deletion(user, s.db.users[user].authVersion, Some(h), s.db.tokens[h].createdAt, now)]
    ensures !Confirmable(s.db, h, user, now) ==> Exec(s, [ConfirmBegins(tx, h, user, now)]) == Some(s)
  {
    hide Exec;
    if Confirmable(s.db, h, user, now) {
      var version, createdAt := s.db.tokens[h].authVersion, s.db.tokens[h].createdAt;
      var s1 := s.(txs := map[tx := ConfirmRead(h, user, version, createdAt, now)]);
      var s2 := s.(txs := map[tx := ConfirmClaimed(h, user, version, createdAt, now)]);
      var s3 := s.(txs := map[tx := DeleteRecorded(Some(h), user, version, createdAt, now)]);
      var run := [ConfirmBegins(tx, h, user, now), ConfirmClaims(tx), ConfirmRecords(tx), DeleteFinishes(tx)];
      ExecThen(s, run, s1);
      ExecThen(s1, run[1..], s2);
      ExecThen(s2, run[1..][1..], s3);
      assert run[1..][1..][1..] == [DeleteFinishes(tx)];
      AloneDeletionFinishes(s3, tx);
    } else {
      ExecOnce(s, ConfirmBegins(tx, h, user, now));
    }
  }

  /** A request alone replaces the user's unused tokens by its own. */
  lemma AloneRequestIsOneReplacement(s: System, tx: TxId, h: Hash, user: UserId, now: Time)
    requires s.txs == map[] && h !in s.issued
    ensures user in s.db.users && GoogleOnly(s.db.users[user]) ==>
      var run := Exec(s, [RequestBegins(tx, user, h, now), RequestInvalidates(tx), RequestCommits(tx)]);
      && run.Some? && run.value.txs == map[]
      && run.value.db == WithConfirmation(s.db, user, s.db.users[user].authVersion, h, now)
    ensures !(user in s.db.users && GoogleOnly(s.db.users[user])) ==>
      Exec(s, [RequestBegins(tx, user, h, now)]) == Some(s)
  {
    hide Exec;
    if user in s.db.users && GoogleOnly(s.db.users[user]) {
      var version := s.db.users[user].authVersion;
      var s1 := s.(txs := map[tx := RequestLocked(user, version, h, now)]);
      var s2 := s.(txs := map[tx := RequestInvalidated(user, version, h, now, UnusedOf(s.db, user))]);
      var run := [RequestBegins(tx, user, h, now), RequestInvalidates(tx), RequestCommits(tx)];
      ExecThen(s, run, s1);
      ExecThen(s1, run[1..], s2);
      assert run[1..][1..] == [RequestCommits(tx)];
      ExecOnce(s2, RequestCommits(tx));
    } else {
      ExecOnce(s, RequestBegins(tx, user, h, now));
    }
  }

  lemma ExecOnce(s: System, e: Event)
    requires Enabled(s, e)
    ensures Exec(s, [e]) == Some(Apply(s, e))
  {
  }

  lemma ExecThen(s: System, events: seq<Event>, s': System)
    requires events != [] && Enabled(s, events[0]) && Apply(s, events[0]) == s'
    ensures Exec(s, events) == Exec(s', events[1..])
  {
  }
}
