/**
 * Refresh-token rotation, one auth call at a time: login chains, and what presenting a token that
 * was already used does. Hashing is injective, so a presented token is named by its row.
 */
module RefreshTokens {
  import opened Prelude

  /** A refresh_tokens row; its id is its position, in creation order. */
  datatype Token = Token(user: nat, expiresAt: int, revoked: bool, replacedBy: Option<nat>)

  datatype User = User(tokenVersion: nat, isActive: bool)

  datatype Db = Db(tokens: seq<Token>, users: map<nat, User>)

  /** `now` is the moment of the call, `ttl` the configured lifetime; a presented token that matches
      no row is None. */
  datatype Op =
    | Register(user: nat, now: int, ttl: int)
    | Login(user: nat, passwordOk: bool, now: int, ttl: int)
    | Refresh(presented: Option<nat>, now: int, ttl: int)
    | Logout(user: nat, presented: Option<nat>)
    | LogoutAll(user: nat)
    | ResetPassword(user: nat)

  datatype Reply = Issued(token: nat) | ReuseDetected | Denied | Ended

  // ---------------------------------------------------------------------------------------------
  // The calls
  // ---------------------------------------------------------------------------------------------

  function Issue(db: Db, user: nat, expiresAt: int): Db {
    db.(tokens := db.tokens + [Token(user, expiresAt, false, None)])
  }

  /** updateMany WHERE userId AND revokedAt IS NULL. */
  function RevokeAll(tokens: seq<Token>, user: nat): (r: seq<Token>)
    ensures |r| == |tokens|
    ensures forall i :: 0 <= i < |r| ==> r[i] == if tokens[i].user == user then tokens[i].(revoked := true) else tokens[i]
  {
    if tokens == [] then []
    else
      var last := tokens[|tokens| - 1];
      RevokeAll(tokens[..|tokens| - 1], user) + [if last.user == user then last.(revoked := true) else last]
  }

  /** Every session of a user ends: refresh tokens at once, access tokens by their version. */
  function EndAll(db: Db, user: nat): Db
    requires user in db.users
  {
    Db(RevokeAll(db.tokens, user), db.users[user := db.users[user].(tokenVersion := db.users[user].tokenVersion + 1)])
  }

  function Rotate(db: Db, i: nat, expiresAt: int): Db
    requires i < |db.tokens|
  {
    var issued := Issue(db, db.tokens[i].user, expiresAt);
    issued.(tokens := issued.tokens[i := issued.tokens[i].(revoked := true, replacedBy := Some(|db.tokens|))])
  }

  function RefreshCall(db: Db, i: nat, now: int, ttl: int): (Db, Reply)
    requires Wf(db) && i < |db.tokens|
  {
    var row := db.tokens[i];
    if row.revoked then (EndAll(db, row.user), ReuseDetected)
    else if row.expiresAt < now then (db.(tokens := db.tokens[i := row.(revoked := true)]), Denied)
    else if !db.users[row.user].isActive then (db, Denied)
    else (Rotate(db, i, now + ttl), Issued(|db.tokens|))
  }

  function Perform(db: Db, op: Op): (Db, Reply)
    requires Wf(db)
  {
    match op
    case Register(user, now, ttl) =>
      if user in db.users then (db, Denied)
      else (Issue(db.(users := db.users[user := User(0, true)]), user, now + ttl), Issued(|db.tokens|))
    case Login(user, passwordOk, now, ttl) =>
      if user !in db.users || !db.users[user].isActive || !passwordOk then (db, Denied)
      else (Issue(db, user, now + ttl), Issued(|db.tokens|))
    case Refresh(presented, now, ttl) =>
      if presented.None? || presented.value >= |db.tokens| then (db, Denied) else RefreshCall(db, presented.value, now, ttl)
    case Logout(user, presented) =>
      if presented.Some? && presented.value < |db.tokens| && db.tokens[presented.value].user == user
      then (db.(tokens := db.tokens[presented.value := db.tokens[presented.value].(revoked := true)]), Ended)
      else (db, Ended)
    case LogoutAll(user) => if user in db.users then (EndAll(db, user), Ended) else (db, Denied)
    case ResetPassword(user) => if user in db.users then (EndAll(db, user), Ended) else (db, Denied)
  }

  class AuthStore {
    var tokens: seq<Token>
    var users: map<nat, User>

    function Tables(): Db
      reads this
    {
      Db(tokens, users)
    }

    method RegisterUser(user: nat, now: int, ttl: int) returns (r: Reply)
      requires Wf(Tables())
      modifies this
      ensures (Tables(), r) == Perform(old(Tables()), Register(user, now, ttl))
    {
      if user in users {
        return Denied;
      }
      users := users[user := User(0, true)];
      tokens := tokens + [Token(user, now + ttl, false, None)];
      return Issued(|tokens| - 1);
    }

    method LoginUser(user: nat, passwordOk: bool, now: int, ttl: int) returns (r: Reply)
      requires Wf(Tables())
      modifies this`tokens
      ensures (Tables(), r) == Perform(old(Tables()), Login(user, passwordOk, now, ttl))
    {
      if user !in users || !users[user].isActive || !passwordOk {
        return Denied;
      }
      tokens := tokens + [Token(user, now + ttl, false, None)];
      return Issued(|tokens| - 1);
    }

    method RevokeSessions(user: nat)
      requires user in users
      modifies this
      ensures Tables() == EndAll(old(Tables()), user)
    {
      ghost var was := tokens;
      for i := 0 to |tokens|
        invariant |tokens| == |was| && users == old(users)
        invariant forall j :: 0 <= j < i ==> tokens[j] == if was[j].user == user then was[j].(revoked := true) else was[j]
        invariant forall j :: i <= j < |was| ==> tokens[j] == was[j]
      {
        if tokens[i].user == user && !tokens[i].revoked {
          tokens := tokens[i := tokens[i].(revoked := true)];
        }
      }
      assert tokens == RevokeAll(was, user);
      users := users[user := users[user].(tokenVersion := users[user].tokenVersion + 1)];
    }

    method RefreshSession(presented: Option<nat>, now: int, ttl: int) returns (r: Reply)
      requires Wf(Tables())
      modifies this
      ensures (Tables(), r) == Perform(old(Tables()), Refresh(presented, now, ttl))
    {
      if presented.None? || presented.value >= |tokens| {
        return Denied;
      }
      var i := presented.value;
      var row := tokens[i];
      if row.revoked {
        RevokeSessions(row.user);
        return ReuseDetected;
      }
      if row.expiresAt < now {
        tokens := tokens[i := row.(revoked := true)];
        return Denied;
      }
      if !users[row.user].isActive {
        return Denied;
      }
      var created := |tokens|;
      tokens := tokens + [Token(row.user, now + ttl, false, None)];
      tokens := tokens[i := tokens[i].(revoked := true, replacedBy := Some(created))];
      return Issued(created);
    }

    method LogoutSession(user: nat, presented: Option<nat>) returns (r: Reply)
      requires Wf(Tables())
      modifies this`tokens
      ensures (Tables(), r) == Perform(old(Tables()), Logout(user, presented))
    {
      if presented.Some? && presented.value < |tokens| {
        var i := presented.value;
        ghost var was := tokens;
        if tokens[i].user == user && !tokens[i].revoked {
          tokens := tokens[i := tokens[i].(revoked := true)];
        }
        assert was[i].user == user ==> tokens == was[i := was[i].(revoked := true)];
      }
      return Ended;
    }
  }

  // ---------------------------------------------------------------------------------------------
  // Chains
  // ---------------------------------------------------------------------------------------------

  /** A replaced token is revoked and points forward to a token of the same user; no two tokens point
      to the same one. */
  ghost predicate Wf(db: Db) {
    && (forall i :: 0 <= i < |db.tokens| ==> db.tokens[i].user in db.users)
    && (forall i :: 0 <= i < |db.tokens| && db.tokens[i].replacedBy.Some? ==>
          i < db.tokens[i].replacedBy.value < |db.tokens| && db.tokens[i].revoked &&
          db.tokens[db.tokens[i].replacedBy.value].user == db.tokens[i].user)
    && (forall i, j :: 0 <= i < j < |db.tokens| && db.tokens[i].replacedBy.Some? ==>
          db.tokens[i].replacedBy != db.tokens[j].replacedBy)
  }

  /** Nothing replaced it so far: a login's latest token. */
  function Tail(db: Db, i: nat): (t: nat)
    requires Wf(db) && i < |db.tokens|
    ensures i <= t < |db.tokens| && db.tokens[t].replacedBy.None? && db.tokens[t].user == db.tokens[i].user
    decreases |db.tokens| - i
  {
    if db.tokens[i].replacedBy.None? then i else Tail(db, db.tokens[i].replacedBy.value)
  }

  /** `n` rotations after `i` comes `t`. */
  ghost predicate Follows(db: Db, i: nat, t: nat, n: nat)
    requires Wf(db)
    decreases n
  {
    i < |db.tokens| && if n == 0 then i == t else db.tokens[i].replacedBy.Some? && Follows(db, db.tokens[i].replacedBy.value, t, n - 1)
  }

  lemma {:induction false} FollowsToTail(db: Db, i: nat, t: nat, n: nat)
    requires Wf(db) && Follows(db, i, t, n)
    ensures t < |db.tokens| && i + n <= t && Tail(db, i) == Tail(db, t)
    decreases n
  {
    if n > 0 {
      FollowsToTail(db, db.tokens[i].replacedBy.value, t, n - 1);
    }
  }

  lemma {:induction false} LastLink(db: Db, i: nat, t: nat, n: nat) returns (p: nat)
    requires Wf(db) && n > 0 && Follows(db, i, t, n)
    ensures p < |db.tokens| && db.tokens[p].replacedBy == Some(t) && Follows(db, i, p, n - 1)
    decreases n
  {
    if n == 1 {
      p := i;
    } else {
      p := LastLink(db, db.tokens[i].replacedBy.value, t, n - 1);
    }
  }

  /** Chains are disjoint: two tokens that lead to a common one lie on one chain. */
  lemma {:induction false} ChainsAreDisjoint(db: Db, i: nat, j: nat, t: nat, m: nat, n: nat)
    requires Wf(db) && Follows(db, i, t, m) && Follows(db, j, t, n) && m <= n
    ensures Follows(db, j, i, n - m)
    decreases m
  {
    if m > 0 {
      var p := LastLink(db, i, t, m);
      var q := LastLink(db, j, t, n);
      assert p == q;
      ChainsAreDisjoint(db, i, j, p, m - 1, n - 1);
    }
  }

  // ---------------------------------------------------------------------------------------------
  // What every call keeps
  // ---------------------------------------------------------------------------------------------

  function CountLive(tokens: seq<Token>, user: nat): nat {
    if tokens == [] then 0
    else
      var last := tokens[|tokens| - 1];
      CountLive(tokens[..|tokens| - 1], user) + (if last.user == user && !last.revoked then 1 else 0)
  }

  /** Revocation, links and versions are never taken back. */
  ghost predicate Grows(a: Db, b: Db) {
    && |a.tokens| <= |b.tokens| && a.users.Keys <= b.users.Keys
    && (forall i :: 0 <= i < |a.tokens| ==>
          b.tokens[i].user == a.tokens[i].user && (a.tokens[i].revoked ==> b.tokens[i].revoked) &&
          (a.tokens[i].replacedBy.Some? ==> b.tokens[i].replacedBy == a.tokens[i].replacedBy))
    && (forall u :: u in a.users ==> a.users[u].tokenVersion <= b.users[u].tokenVersion)
  }

  lemma IssueKeeps(db: Db, user: nat, expiresAt: int)
    requires Wf(db) && user in db.users
    ensures Wf(Issue(db, user, expiresAt)) && Grows(db, Issue(db, user, expiresAt))
  {
  }

  /** Revoking tokens and raising versions, however many. */
  lemma RevokingKeeps(db: Db, d: Db)
    requires Wf(db) && |d.tokens| == |db.tokens|
    requires forall i :: 0 <= i < |db.tokens| ==>
      d.tokens[i] == db.tokens[i] || d.tokens[i] == db.tokens[i].(revoked := true)
    requires d.users.Keys == db.users.Keys && forall u :: u in db.users ==> db.users[u].tokenVersion <= d.users[u].tokenVersion
    ensures Wf(d) && Grows(db, d)
  {
  }

  lemma RefreshCallKeeps(db: Db, i: nat, now: int, ttl: int)
    requires Wf(db) && i < |db.tokens|
    ensures Wf(RefreshCall(db, i, now, ttl).0) && Grows(db, RefreshCall(db, i, now, ttl).0)
  {
    hide Rotate, EndAll, RevokeAll, Grows;
    if !db.tokens[i].revoked && db.tokens[i].expiresAt >= now && db.users[db.tokens[i].user].isActive {
      RotateKeeps(db, i, now + ttl);
    } else {
      EndOrExpireKeeps(db, i, now, ttl);
    }
  }

  lemma EndOrExpireKeeps(db: Db, i: nat, now: int, ttl: int)
    requires Wf(db) && i < |db.tokens|
    requires db.tokens[i].revoked || db.tokens[i].expiresAt < now || !db.users[db.tokens[i].user].isActive
    ensures Wf(RefreshCall(db, i, now, ttl).0) && Grows(db, RefreshCall(db, i, now, ttl).0)
  {
    var d := RefreshCall(db, i, now, ttl).0;
    assert db.tokens[i].user in db.users;
    hide RevokeAll, Wf, Grows, Rotate;
    RevokingKeeps(db, d);
  }

  lemma PerformKeeps(db: Db, op: Op)
    requires Wf(db)
    ensures Wf(Perform(db, op).0) && Grows(db, Perform(db, op).0)
  {
    hide RevokeAll, RefreshCall, Grows, Wf;
    var d := Perform(db, op).0;
    match op {
      case Refresh(presented, now, ttl) =>
        if presented.Some? && presented.value < |db.tokens| {
          RefreshCallKeeps(db, presented.value, now, ttl);
        } else {
          RevokingKeeps(db, d);
        }
      case Register(user, now, ttl) =>
        if user in db.users {
          RevokingKeeps(db, d);
        } else {
          RegisterKeeps(db, user, now, ttl);
        }
      case Login(user, passwordOk, now, ttl) =>
        if user in db.users {
          IssueKeeps(db, user, now + ttl);
        }
        RevokingKeeps(db, db);
      case Logout(user, presented) => RevokingKeeps(db, d);
      case LogoutAll(user) => RevokingKeeps(db, d);
      case ResetPassword(user) => RevokingKeeps(db, d);
    }
  }

  lemma RegisterKeeps(db: Db, user: nat, now: int, ttl: int)
    requires Wf(db) && user !in db.users
    ensures
      var d := Perform(db, Register(user, now, ttl)).0;
      Wf(d) && Grows(db, d)
  {
  }

  lemma RotateKeeps(db: Db, i: nat, expiresAt: int)
    requires Wf(db) && i < |db.tokens| && !db.tokens[i].revoked
    ensures Wf(Rotate(db, i, expiresAt)) && Grows(db, Rotate(db, i, expiresAt))
  {
    assert db.tokens[i].replacedBy.None?;
  }

  function Run(db: Db, ops: seq<Op>): (d: Db)
    requires Wf(db)
    ensures Wf(d)
    decreases |ops|
  {
    if ops == [] then db else PerformKeeps(db, ops[0]); Run(Perform(db, ops[0]).0, ops[1..])
  }

  lemma {:induction false} RunGrows(db: Db, ops: seq<Op>)
    requires Wf(db)
    ensures Grows(db, Run(db, ops))
    decreases |ops|
  {
    if ops != [] {
      PerformKeeps(db, ops[0]);
      RunGrows(Perform(db, ops[0]).0, ops[1..]);
      hide Perform, Wf;
    }
  }

  const EMPTY := Db([], map[])

  // ---------------------------------------------------------------------------------------------
  // Results
  // ---------------------------------------------------------------------------------------------

  /** After any sequence of calls: of all the tokens one login led to, at most one is live, and it is
      the last. */
  lemma OneLivePerLogin(ops: seq<Op>, i: nat, t: nat, n: nat)
    requires Follows(Run(EMPTY, ops), i, t, n) && t < |Run(EMPTY, ops).tokens| && !Run(EMPTY, ops).tokens[t].revoked
    ensures t == Tail(Run(EMPTY, ops), i)
  {
    FollowsToTail(Run(EMPTY, ops), i, t, n);
  }

  lemma {:induction false} CountAfterUpdate(tokens: seq<Token>, i: nat, row: Token, user: nat)
    requires i < |tokens|
    ensures
      CountLive(tokens[i := row], user) - CountLive(tokens, user) ==
      (if row.user == user && !row.revoked then 1 else 0) - (if tokens[i].user == user && !tokens[i].revoked then 1 else 0)
  {
    var n := |tokens| - 1;
    if i < n {
      assert tokens[i := row][..n] == tokens[..n][i := row];
      CountAfterUpdate(tokens[..n], i, row, user);
    } else {
      assert tokens[i := row][..n] == tokens[..n];
    }
  }

  /** A successful refresh trades one live token for another: every user's count stays, the old token
      is dead, its chain ends in the new one. */
  lemma RefreshKeepsCount(db: Db, i: nat, now: int, ttl: int, user: nat)
    requires Wf(db) && i < |db.tokens| && RefreshCall(db, i, now, ttl).1.Issued?
    ensures
      var d := RefreshCall(db, i, now, ttl).0;
      && CountLive(d.tokens, user) == CountLive(db.tokens, user) && d.users == db.users
      && Wf(d) && d.tokens[i].revoked && Tail(d, i) == |db.tokens| && !d.tokens[|db.tokens|].revoked
  {
    hide CountLive, Wf, Grows, Rotate, Tail, EndAll;
    RotateKeeps(db, i, now + ttl);
    RotateTail(db, i, now + ttl);
    RotateCount(db, i, now + ttl, user);
  }

  lemma RotateTail(db: Db, i: nat, expiresAt: int)
    requires i < |db.tokens| && Wf(Rotate(db, i, expiresAt))
    ensures
      var d := Rotate(db, i, expiresAt);
      && |d.tokens| == |db.tokens| + 1 && d.users == db.users && d.tokens[i].revoked
      && Tail(d, i) == |db.tokens| && !d.tokens[|db.tokens|].revoked
  {
    hide Wf;
    var d := Rotate(db, i, expiresAt);
    assert Tail(d, |db.tokens|) == |db.tokens|;
  }

  lemma RotateCount(db: Db, i: nat, expiresAt: int, user: nat)
    requires i < |db.tokens| && !db.tokens[i].revoked
    ensures CountLive(Rotate(db, i, expiresAt).tokens, user) == CountLive(db.tokens, user)
  {
    var issued := Issue(db, db.tokens[i].user, expiresAt);
    assert issued.tokens[..|db.tokens|] == db.tokens;
    CountAfterUpdate(issued.tokens, i, Rotate(db, i, expiresAt).tokens[i], user);
  }

  lemma {:induction false} NoneLive(tokens: seq<Token>, user: nat)
    requires forall i :: 0 <= i < |tokens| && tokens[i].user == user ==> tokens[i].revoked
    ensures CountLive(tokens, user) == 0
  {
    if tokens != [] {
      NoneLive(tokens[..|tokens| - 1], user);
    }
  }

  /** Presenting a token that was already used, whoever does it and whenever: its user is left with
      no live token and a larger token version; and whatever calls follow, none of the tokens that
      existed then is ever live again, nor is the old version ever current again. */
  lemma ReuseEndsEverything(db: Db, i: nat, now: int, ttl: int, later: seq<Op>, t: nat)
    requires Wf(db) && i < |db.tokens| && db.tokens[i].revoked
    requires t < |db.tokens| && db.tokens[t].user == db.tokens[i].user
    ensures
      var user := db.tokens[i].user;
      var d := Perform(db, Refresh(Some(i), now, ttl)).0;
      && Wf(d) && CountLive(d.tokens, user) == 0
      && d.users[user].tokenVersion == db.users[user].tokenVersion + 1
      && t < |Run(d, later).tokens| && Run(d, later).tokens[t].revoked
      && user in Run(d, later).users && Run(d, later).users[user].tokenVersion > db.users[user].tokenVersion
  {
    var d := Perform(db, Refresh(Some(i), now, ttl)).0;
    PerformKeeps(db, Refresh(Some(i), now, ttl));
    NoneLive(d.tokens, db.tokens[i].user);
    RunGrows(d, later);
  }
}
