/**
 * Refreshes that overlap other calls: a refresh reads the presented row first, and only later
 * rotates it, by its id and whatever has become of it. When each login keeps at most one live token.
 */
module RefreshProtocol {
  import opened Prelude
  import opened RefreshTokens

  /** A refresh between its read and its transaction: `row` is the copy it read. */
  datatype Call = Seen(token: nat, row: Token, now: int, ttl: int) | Over

  /** `logins` gives, for each token, the first token of the login it goes back to. */
  datatype Sys = Sys(db: Db, logins: seq<nat>, calls: map<nat, Call>)

  /** Every call but a refresh is one transaction. */
  datatype Move =
    | Whole(op: Op)
    | Look(cid: nat, presented: nat, now: int, ttl: int)
    | Settle(cid: nat)

  /** What the copy lets the refresh do: it goes on to issue a new token. */
  predicate Issues(db: Db, call: Call) {
    && call.Seen? && !call.row.revoked && call.row.expiresAt >= call.now
    && call.row.user in db.users && db.users[call.row.user].isActive
  }

  function SettleCall(db: Db, call: Call): Db
    requires call.Seen? && call.token < |db.tokens| && call.row.user in db.users
  {
    if call.row.revoked then EndAll(db, call.row.user)
    else if call.row.expiresAt < call.now then db.(tokens := db.tokens[call.token := db.tokens[call.token].(revoked := true)])
    else if !db.users[call.row.user].isActive then db
    else Rotate(db, call.token, call.now + call.ttl)
  }

  ghost predicate Inv(s: Sys) {
    && Wf(s.db) && |s.logins| == |s.db.tokens| && (forall t :: 0 <= t < |s.logins| ==> s.logins[t] <= t)
    && (forall t :: 0 <= t < |s.logins| && s.db.tokens[t].replacedBy.Some? ==> s.logins[s.db.tokens[t].replacedBy.value] == s.logins[t])
    && (forall c :: c in s.calls && s.calls[c].Seen? ==> s.calls[c].token < |s.db.tokens| && s.calls[c].row.user == s.db.tokens[s.calls[c].token].user)
  }

  ghost function Step(s: Sys, m: Move): Sys
    requires Inv(s)
  {
    match m
    case Whole(op) =>
      if op.Refresh? then s
      else
        var d := Perform(s.db, op).0;
        Sys(d, if |d.tokens| > |s.db.tokens| then s.logins + [|s.db.tokens|] else s.logins, s.calls)
    case Look(cid, presented, now, ttl) =>
      if cid in s.calls || presented >= |s.db.tokens| then s
      else s.(calls := s.calls[cid := Seen(presented, s.db.tokens[presented], now, ttl)])
    case Settle(cid) =>
      if cid !in s.calls || s.calls[cid].Over? then s
      else
        var call := s.calls[cid];
        Sys(SettleCall(s.db, call), if Issues(s.db, call) then s.logins + [s.logins[call.token]] else s.logins, s.calls[cid := Over])
  }

  // ---------------------------------------------------------------------------------------------
  // The invariant
  // ---------------------------------------------------------------------------------------------

  /** Tokens are only ever revoked, and links left alone. */
  ghost predicate OnlyRevokes(before: seq<Token>, after: seq<Token>) {
    && |before| == |after|
    && forall t :: 0 <= t < |before| ==> after[t] == before[t].(revoked := after[t].revoked) && (before[t].revoked ==> after[t].revoked)
  }

  /** Calls that issue no token only revoke. */
  lemma WholeRevokesOrAdds(db: Db, op: Op)
    requires Wf(db) && !op.Refresh?
    ensures
      var d := Perform(db, op).0;
      || OnlyRevokes(db.tokens, d.tokens)
      || exists user, expiresAt :: d.tokens == db.tokens + [Token(user, expiresAt, false, None)]
  {
    hide RevokeAll, Wf;
    if op.Register? || op.Login? {
      var added := Token(op.user, op.now + op.ttl, false, None);
      assert Perform(db, op).0.tokens == db.tokens || Perform(db, op).0.tokens == db.tokens + [added];
    }
  }

  lemma SettleRevokes(db: Db, call: Call)
    requires call.Seen? && call.token < |db.tokens| && call.row.user in db.users && !Issues(db, call)
    ensures OnlyRevokes(db.tokens, SettleCall(db, call).tokens) && SettleCall(db, call).users.Keys == db.users.Keys
  {
    hide RevokeAll;
  }

  lemma RevokingInv(s: Sys, d: Db, calls: map<nat, Call>)
    requires Inv(s) && OnlyRevokes(s.db.tokens, d.tokens) && s.db.users.Keys <= d.users.Keys
    requires forall c :: c in calls && calls[c].Seen? ==> c in s.calls && calls[c] == s.calls[c]
    ensures Inv(Sys(d, s.logins, calls))
  {
  }

  lemma AddingInv(s: Sys, d: Db, user: nat, expiresAt: int)
    requires Inv(s) && d.tokens == s.db.tokens + [Token(user, expiresAt, false, None)]
    requires s.db.users.Keys <= d.users.Keys && user in d.users
    ensures Inv(Sys(d, s.logins + [|s.db.tokens|], s.calls))
  {
  }

  /** Also when the row was revoked or replaced since it was read. */
  lemma RotateInv(s: Sys, i: nat, expiresAt: int, calls: map<nat, Call>)
    requires Inv(s) && i < |s.db.tokens|
    requires forall c :: c in calls && calls[c].Seen? ==> c in s.calls && calls[c] == s.calls[c]
    ensures Inv(Sys(Rotate(s.db, i, expiresAt), s.logins + [s.logins[i]], calls))
  {
    RotateWf(s.db, i, expiresAt);
    hide Wf;
  }

  lemma RotateWf(db: Db, i: nat, expiresAt: int)
    requires Wf(db) && i < |db.tokens|
    ensures Wf(Rotate(db, i, expiresAt))
  {
  }

  lemma WholeInv(s: Sys, op: Op)
    requires Inv(s)
    ensures Inv(Step(s, Whole(op)))
  {
    if !op.Refresh? {
      WholeRevokesOrAdds(s.db, op);
      PerformKeeps(s.db, op);
      var d := Perform(s.db, op).0;
      assert s.db.users.Keys <= d.users.Keys;
      if OnlyRevokes(s.db.tokens, d.tokens) {
        RevokingInv(s, d, s.calls);
      } else {
        var user, expiresAt :| d.tokens == s.db.tokens + [Token(user, expiresAt, false, None)];
        assert d.tokens[|s.db.tokens|].user in d.users;
        AddingInv(s, d, user, expiresAt);
      }
      hide Perform, Wf, Grows, Inv;
    }
  }

  lemma SettleInv(s: Sys, cid: nat)
    requires Inv(s)
    ensures Inv(Step(s, Settle(cid)))
  {
    hide Inv, Rotate, EndAll, OnlyRevokes;
    if cid in s.calls && s.calls[cid].Seen? {
      var call := s.calls[cid];
      SeenExists(s, cid);
      if Issues(s.db, call) {
        RotateInv(s, call.token, call.now + call.ttl, s.calls[cid := Over]);
      } else {
        SettleRevokes(s.db, call);
        RevokingInv(s, SettleCall(s.db, call), s.calls[cid := Over]);
      }
    }
  }

  lemma SeenExists(s: Sys, cid: nat)
    requires Inv(s) && cid in s.calls && s.calls[cid].Seen?
    ensures s.calls[cid].token < |s.db.tokens| == |s.logins| && s.calls[cid].row.user in s.db.users
  {
    assert s.db.tokens[s.calls[cid].token].user in s.db.users;
  }

  lemma StepInv(s: Sys, m: Move)
    requires Inv(s)
    ensures Inv(Step(s, m))
  {
    match m {
      case Whole(op) => WholeInv(s, op);
      case Look(_, _, _, _) =>
      case Settle(cid) => SettleInv(s, cid);
    }
    hide Wf, Perform, SettleCall;
  }

  /** Alone, the two steps are the call of the sequential model. */
  lemma SoloIsAlone(s: Sys, cid: nat, presented: nat, now: int, ttl: int)
    requires Inv(s) && cid !in s.calls && presented < |s.db.tokens|
    ensures
      var seen := Step(s, Look(cid, presented, now, ttl));
      Inv(seen) && Step(seen, Settle(cid)).db == Perform(s.db, Refresh(Some(presented), now, ttl)).0
  {
    StepInv(s, Look(cid, presented, now, ttl));
    hide EndAll, Rotate, Wf;
  }

  // ---------------------------------------------------------------------------------------------
  // One live token per login
  // ---------------------------------------------------------------------------------------------

  predicate Live(s: Sys, t: int) {
    0 <= t < |s.db.tokens| && !s.db.tokens[t].revoked
  }

  ghost predicate OneLive(s: Sys)
    requires |s.logins| == |s.db.tokens|
  {
    forall t, u :: Live(s, t) && Live(s, u) && s.logins[t] == s.logins[u] ==> t == u
  }

  /** The move rotates a row that is no longer live while its login has a live token. */
  ghost predicate Forks(s: Sys, m: Move)
    requires Inv(s)
  {
    && m.Settle? && m.cid in s.calls && Issues(s.db, s.calls[m.cid])
    && !Live(s, s.calls[m.cid].token)
    && exists u :: Live(s, u) && s.logins[u] == s.logins[s.calls[m.cid].token]
  }

  lemma RotateForksIff(s: Sys, i: nat, expiresAt: int, s': Sys)
    requires Inv(s) && OneLive(s) && i < |s.db.tokens|
    requires s'.db == Rotate(s.db, i, expiresAt) && s'.logins == s.logins + [s.logins[i]]
    ensures OneLive(s') <==> Live(s, i) || !exists u :: Live(s, u) && s.logins[u] == s.logins[i]
  {
    var n := |s.db.tokens|;
    assert Live(s', n) && s'.logins[n] == s.logins[i];
    assert forall t :: 0 <= t < n ==> s'.logins[t] == s.logins[t] && (Live(s', t) <==> Live(s, t) && t != i);
    if u :| Live(s, u) && s.logins[u] == s.logins[i] {
      if !Live(s, i) {
        assert Live(s', u) && u != n;
      }
    }
    hide Inv, Rotate;
  }

  /** One move, exactly. */
  lemma StepOneLiveIff(s: Sys, m: Move)
    requires Inv(s) && OneLive(s)
    ensures Inv(Step(s, m)) && (OneLive(Step(s, m)) <==> !Forks(s, m))
  {
    StepInv(s, m);
    var s' := Step(s, m);
    if m.Settle? && m.cid in s.calls && Issues(s.db, s.calls[m.cid]) {
      var call := s.calls[m.cid];
      RotateForksIff(s, call.token, call.now + call.ttl, s');
      hide Rotate, Wf, EndAll, OneLive;
    } else {
      OtherMoves(s, m);
    }
  }

  lemma RevokedStaysOne(s: Sys, s': Sys)
    requires Inv(s) && OneLive(s) && OnlyRevokes(s.db.tokens, s'.db.tokens) && s'.logins == s.logins
    ensures OneLive(s')
  {
    hide Inv;
    assert forall t :: Live(s', t) ==> Live(s, t);
  }

  lemma AddedStaysOne(s: Sys, s': Sys, user: nat, expiresAt: int)
    requires Inv(s) && OneLive(s) && s'.logins == s.logins + [|s.db.tokens|]
    requires s'.db.tokens == s.db.tokens + [Token(user, expiresAt, false, None)]
    ensures OneLive(s')
  {
    var n := |s.db.tokens|;
    assert forall t :: 0 <= t < n ==> s.logins[t] < n;
    hide Inv;
    assert forall t :: Live(s', t) ==> t == n || (Live(s, t) && s'.logins[t] == s.logins[t]);
  }

  lemma WholeStaysOne(s: Sys, op: Op)
    requires Inv(s) && OneLive(s) && Inv(Step(s, Whole(op)))
    ensures OneLive(Step(s, Whole(op)))
  {
    if !op.Refresh? {
      WholeRevokesOrAdds(s.db, op);
      var d := Perform(s.db, op).0;
      hide Perform, Inv, OneLive;
      if OnlyRevokes(s.db.tokens, d.tokens) {
        RevokedStaysOne(s, Step(s, Whole(op)));
      } else {
        var user, expiresAt :| d.tokens == s.db.tokens + [Token(user, expiresAt, false, None)];
        AddedStaysOne(s, Step(s, Whole(op)), user, expiresAt);
      }
    }
  }

  lemma OtherMoves(s: Sys, m: Move)
    requires Inv(s) && OneLive(s) && !(m.Settle? && m.cid in s.calls && Issues(s.db, s.calls[m.cid]))
    ensures Inv(Step(s, m)) && OneLive(Step(s, m))
  {
    StepInv(s, m);
    match m {
      case Whole(op) => WholeStaysOne(s, op);
      case Look(_, _, _, _) =>
      case Settle(cid) =>
        if cid in s.calls && s.calls[cid].Seen? {
          assert s.db.tokens[s.calls[cid].token].user in s.db.users;
          SettleRevokes(s.db, s.calls[cid]);
          RevokedStaysOne(s, Step(s, m));
        }
    }
    hide Perform, SettleCall, Wf, OnlyRevokes;
  }

  ghost predicate AlwaysOneLive(s: Sys, moves: seq<Move>)
    requires Inv(s)
    decreases |moves|
  {
    OneLive(s) && (moves == [] || (StepInv(s, moves[0]); AlwaysOneLive(Step(s, moves[0]), moves[1..])))
  }

  ghost predicate NeverForks(s: Sys, moves: seq<Move>)
    requires Inv(s)
    decreases |moves|
  {
    moves == [] || (!Forks(s, moves[0]) && (StepInv(s, moves[0]); NeverForks(Step(s, moves[0]), moves[1..])))
  }

  /** Over every interleaving, exactly: each login keeps at most one live token throughout if and only
      if no refresh rotates a row that stopped being live after it was read, while another token of
      that login is. */
  lemma {:induction false} OneLiveIff(s: Sys, moves: seq<Move>)
    requires Inv(s) && OneLive(s)
    ensures AlwaysOneLive(s, moves) <==> NeverForks(s, moves)
    decreases |moves|
  {
    if moves != [] {
      StepOneLiveIff(s, moves[0]);
      if !Forks(s, moves[0]) {
        OneLiveIff(Step(s, moves[0]), moves[1..]);
      }
      hide Step, Forks, Inv;
    }
  }

  const INIT := Sys(EMPTY, [], map[])

  lemma InitIsOneLive()
    ensures Inv(INIT) && OneLive(INIT)
  {
  }

  ghost function Run(s: Sys, moves: seq<Move>): (s': Sys)
    requires Inv(s)
    ensures Inv(s')
    decreases |moves|
  {
    if moves == [] then s else StepInv(s, moves[0]); Run(Step(s, moves[0]), moves[1..])
  }

  lemma RunFirst(s: Sys, m: Move, rest: seq<Move>, s': Sys)
    requires Inv(s) && Step(s, m) == s'
    ensures Inv(s') && Run(s, [m] + rest) == Run(s', rest)
  {
    StepInv(s, m);
    assert ([m] + rest)[1..] == rest;
    hide Step, Inv;
  }

  function Looks(user: nat, ttl: nat): seq<Move> {
    [Whole(Register(user, 0, ttl))] + ([Look(0, 0, 0, ttl)] + [Look(1, 0, 0, ttl)])
  }

  function BothSeen(user: nat, ttl: nat): Sys {
    var first := Token(user, ttl, false, None);
    Sys(Db([first], map[user := User(0, true)]), [0], map[0 := Seen(0, first, 0, ttl), 1 := Seen(0, first, 0, ttl)])
  }

  lemma LooksLead(user: nat, ttl: nat, rest: seq<Move>)
    ensures Inv(INIT) && Inv(BothSeen(user, ttl)) && Run(INIT, Looks(user, ttl) + rest) == Run(BothSeen(user, ttl), rest)
  {
    InitIsOneLive();
    var first := Token(user, ttl, false, None);
    var s1 := Sys(Db([first], map[user := User(0, true)]), [0], map[]);
    var s2 := s1.(calls := map[0 := Seen(0, first, 0, ttl)]);
    var last := [Look(1, 0, 0, ttl)] + rest;
    hide Run, Inv, RefreshCall, EndAll, SettleCall;
    RunFirst(INIT, Whole(Register(user, 0, ttl)), [Look(0, 0, 0, ttl)] + last, s1);
    RunFirst(s1, Look(0, 0, 0, ttl), last, s2);
    RunFirst(s2, Look(1, 0, 0, ttl), rest, BothSeen(user, ttl));
    assert Looks(user, ttl) + rest == [Whole(Register(user, 0, ttl))] + ([Look(0, 0, 0, ttl)] + last);
  }

  function OneRotated(user: nat, ttl: nat): Sys {
    var first := Token(user, ttl, false, None);
    var s := BothSeen(user, ttl);
    Sys(s.db.(tokens := [first.(revoked := true, replacedBy := Some(1)), first]), [0, 0], s.calls[0 := Over])
  }

  function BothRotated(user: nat, ttl: nat): Sys {
    var first := Token(user, ttl, false, None);
    var s := OneRotated(user, ttl);
    Sys(s.db.(tokens := [first.(revoked := true, replacedBy := Some(2)), first, first]), [0, 0, 0], s.calls[1 := Over])
  }

  lemma FirstRotates(user: nat, ttl: nat)
    requires Inv(BothSeen(user, ttl))
    ensures Step(BothSeen(user, ttl), Settle(0)) == OneRotated(user, ttl)
  {
    hide Inv, EndAll;
    var s := BothSeen(user, ttl);
    assert [0] + [0] == [0, 0];
    assert SettleCall(s.db, s.calls[0]).tokens == OneRotated(user, ttl).db.tokens;
  }

  lemma SecondRotates(user: nat, ttl: nat)
    requires Inv(OneRotated(user, ttl))
    ensures Step(OneRotated(user, ttl), Settle(1)) == BothRotated(user, ttl)
  {
    hide Inv, EndAll;
    var s := OneRotated(user, ttl);
    assert [0, 0] + [0] == [0, 0, 0];
    assert SettleCall(s.db, s.calls[1]).tokens == BothRotated(user, ttl).db.tokens;
  }

  /** It does happen: two refreshes that both read a user's first token before either rotates it. */
  lemma OverlapForks(user: nat, ttl: nat)
    ensures Inv(INIT)
    ensures
      var s := Run(INIT, Looks(user, ttl) + ([Settle(0)] + ([Settle(1)] + [])));
      && Live(s, 1) && Live(s, 2) && s.logins[1] == s.logins[2]
  {
    LooksLead(user, ttl, [Settle(0)] + ([Settle(1)] + []));
    assert Live(BothRotated(user, ttl), 1) && Live(BothRotated(user, ttl), 2);
    assert BothRotated(user, ttl).logins == [0, 0, 0];
    hide Inv, Step, Looks, BothSeen, OneRotated, BothRotated, Live;
    FirstRotates(user, ttl);
    RunFirst(BothSeen(user, ttl), Settle(0), [Settle(1)] + [], OneRotated(user, ttl));
    SecondRotates(user, ttl);
    RunFirst(OneRotated(user, ttl), Settle(1), [], BothRotated(user, ttl));
    assert Run(BothRotated(user, ttl), []) == BothRotated(user, ttl);
  }
}
