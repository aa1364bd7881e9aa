/**
 * What each auth call does to tokens and users, on the columns: who gets a token, and which tokens are
 * revoked.
 */
module SessionOutcomes {
  import opened Prelude
  import opened RefreshTokens

  /** One more token, live and unreplaced, for this user until this moment; the rest as given. */
  predicate GivesToken(before: seq<Token>, d: Db, r: Reply, user: nat, until: int) {
    && |d.tokens| == |before| + 1 && d.tokens[..|before|] == before && r == Issued(|before|)
    && d.tokens[|before|].user == user && d.tokens[|before|].expiresAt == until
    && !d.tokens[|before|].revoked && d.tokens[|before|].replacedBy.None?
  }

  /** Every token of the user is revoked and its version one higher; nothing else changes. */
  predicate EndsSessions(db: Db, d: Db, user: nat) {
    && user in db.users && d.users.Keys == db.users.Keys && |d.tokens| == |db.tokens|
    && d.users[user] == User(db.users[user].tokenVersion + 1, db.users[user].isActive)
    && (forall u :: u in db.users && u != user ==> d.users[u] == db.users[u])
    && forall i :: 0 <= i < |db.tokens| ==>
         if db.tokens[i].user == user then d.tokens[i].revoked && d.tokens[i] == db.tokens[i].(revoked := true) else d.tokens[i] == db.tokens[i]
  }

  /** Signing up gives a new user, active and at version zero, its first token; a known one is refused. */
  lemma RegistersExactly(db: Db, user: nat, now: int, ttl: int)
    requires Wf(db)
    ensures
      var (d, r) := Perform(db, Register(user, now, ttl));
      if user in db.users then d == db && r == Denied
      else GivesToken(db.tokens, d, r, user, now + ttl) && d.users == db.users[user := User(0, true)]
  {
    hide Wf;
  }

  /** Signing in takes a known, active user and the password, and starts a chain of its own. */
  lemma LogsInExactly(db: Db, user: nat, passwordOk: bool, now: int, ttl: int)
    requires Wf(db)
    ensures
      var (d, r) := Perform(db, Login(user, passwordOk, now, ttl));
      if user in db.users && db.users[user].isActive && passwordOk then GivesToken(db.tokens, d, r, user, now + ttl) && d.users == db.users
      else d == db && r == Denied
  {
    hide Wf;
  }

  /** Refreshing: an unknown token is refused; a revoked one ends every session of its user; an expired
      one is revoked and refused; an inactive user is refused; any other token is revoked, and replaced
      by a new one of its user. */
  lemma RefreshesExactly(db: Db, presented: Option<nat>, now: int, ttl: int)
    requires Wf(db)
    ensures
      var (d, r) := Perform(db, Refresh(presented, now, ttl));
      if presented.None? || presented.value >= |db.tokens| then d == db && r == Denied
      else
        var i := presented.value;
        var row := db.tokens[i];
        if row.revoked then r == ReuseDetected && EndsSessions(db, d, row.user)
        else if now > row.expiresAt then r == Denied && d.users == db.users && d.tokens == db.tokens[i := row.(revoked := true)]
        else if !db.users[row.user].isActive then d == db && r == Denied
        else
          d.users == db.users &&
          GivesToken(db.tokens[i := Token(row.user, row.expiresAt, true, Some(|db.tokens|))], d, r, row.user, now + ttl)
  {
    hide RevokeAll;
  }

  /** Signing out revokes the presented token if it is the caller's, and never fails. */
  lemma LogsOutExactly(db: Db, user: nat, presented: Option<nat>)
    requires Wf(db)
    ensures
      var (d, r) := Perform(db, Logout(user, presented));
      && r == Ended && d.users == db.users && |d.tokens| == |db.tokens|
      && forall i :: 0 <= i < |db.tokens| ==>
           d.tokens[i] == if presented == Some(i) && db.tokens[i].user == user then db.tokens[i].(revoked := true) else db.tokens[i]
  {
    hide Wf;
  }

  /** Signing out everywhere, and setting a new password, end every session of a known user. */
  lemma EndsExactly(db: Db, user: nat)
    requires Wf(db)
    ensures
      forall op :: op == LogoutAll(user) || op == ResetPassword(user) ==>
        var (d, r) := Perform(db, op);
        if user in db.users then r == Ended && EndsSessions(db, d, user) else d == db && r == Denied
  {
    hide Wf, RevokeAll;
  }
}
