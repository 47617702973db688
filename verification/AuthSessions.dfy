/** Rolling sessions: one live session per lineage, one use per refresh token, no way back from revocation. */
module AuthSessions {
  import opened AuthFrames
  import opened AuthProtocol
  import opened AuthTables
  import opened Prelude

  predicate IsLive(t: Sessions, id: int) {
    id in t && t[id].revokedAt.None?
  }

  /** Each session belongs to the lineage of the login that started it, and keeps its user and wallet. */
  ghost predicate LineageOk(t: Sessions, root: map<int, int>) {
    && root.Keys == t.Keys
    && forall id :: id in t ==>
         && root[id] in t && root[root[id]] == root[id]
         && t[id].user == t[root[id]].user && t[id].wallet == t[root[id]].wallet
  }

  ghost predicate OneLive(t: Sessions, root: map<int, int>)
    requires root.Keys == t.Keys
  {
    forall a, b :: IsLive(t, a) && IsLive(t, b) && root[a] == root[b] ==> a == b
  }

  ghost predicate HashesUnique(t: Sessions) {
    forall a, b :: a in t && b in t && t[a].hash == t[b].hash ==> a == b
  }

  ghost predicate IsSpent(t: Sessions, token: int) {
    exists id :: id in t && t[id].hash == Hashed(token) && t[id].revokedAt.Some?
  }

  ghost predicate RotatedSpent(t: Sessions, rotated: seq<int>) {
    && (forall i :: 0 <= i < |rotated| ==> IsSpent(t, rotated[i]))
    && (forall i, j :: 0 <= i < j < |rotated| ==> rotated[i] != rotated[j])
  }

  ghost predicate SessionInv(s: State) {
    && LineageOk(s.sessions, s.root)
    && OneLive(s.sessions, s.root)
    && HashesUnique(s.sessions)
    && RotatedSpent(s.sessions, s.rotated)
  }

  /** Sessions are never removed, never change hands, and never come back from revocation. */
  ghost predicate Ages(t: Sessions, u: Sessions) {
    forall id :: id in t ==>
      && id in u
      && u[id].user == t[id].user && u[id].wallet == t[id].wallet && u[id].hash == t[id].hash
      && u[id].expiresAt == t[id].expiresAt
      && (t[id].revokedAt.Some? ==> u[id].revokedAt.Some?)
  }

  lemma SpentStays(t: Sessions, u: Sessions, rotated: seq<int>)
    requires Ages(t, u) && RotatedSpent(t, rotated)
    ensures RotatedSpent(u, rotated)
  {
    forall i | 0 <= i < |rotated|
      ensures IsSpent(u, rotated[i])
    {
      assert IsSpent(t, rotated[i]);
      var id :| id in t && t[id].hash == Hashed(rotated[i]) && t[id].revokedAt.Some?;
      assert id in u && u[id].hash == Hashed(rotated[i]) && u[id].revokedAt.Some?;
    }
  }

  lemma RevokeKeeps(s: State, id: int, now: int)
    requires SessionInv(s)
    ensures var u := RevokeSession(s.sessions, id, now);
            SessionInv(s.(sessions := u)) && Ages(s.sessions, u)
  {
    var u := RevokeSession(s.sessions, id, now);
    assert u.Keys == s.sessions.Keys;
    SpentStays(s.sessions, u, s.rotated);
  }

  lemma CreateKeeps(cfg: Config, s: State, c: nat, id: int, token: int)
    requires SessionInv(s) && Enabled(s, CreateSession(c, id, token))
    ensures var t := Next(cfg, s, CreateSession(c, id, token));
            SessionInv(t) && Ages(s.sessions, t.sessions)
  {
    var t := Next(cfg, s, CreateSession(c, id, token));
    if CanInsert(s.sessions, id, Hashed(token)) {
      var row := t.sessions[id];
      assert t.sessions == s.sessions[id := row] && t.root == s.root[id := id];
      hide Next, Enabled;
      InsertRoot(s, id, row);
    }
  }

  lemma InsertRoot(s: State, id: int, row: SessionRow)
    requires SessionInv(s) && CanInsert(s.sessions, id, row.hash)
    ensures var u := s.sessions[id := row]; var root := s.root[id := id];
            && LineageOk(u, root) && OneLive(u, root) && HashesUnique(u)
            && RotatedSpent(u, s.rotated) && Ages(s.sessions, u)
  {
    var u := s.sessions[id := row];
    assert u.Keys == s.sessions.Keys + {id} && s.root[id := id].Keys == s.root.Keys + {id};
    SpentStays(s.sessions, u, s.rotated);
  }

  /** What a successful rotation does to the session table. */
  lemma RotateFacts(t: Sessions, id: int, token: int, now: int, newId: int, newToken: int, expiresAt: int)
    requires CanRotate(t, id, token, now) && CanInsert(t, newId, Hashed(newToken))
    ensures var u := RotateSession(t, id, now, newId, newToken, expiresAt);
            && u.Keys == t.Keys + {newId}
            && (forall x :: x in t && x != id ==> u[x] == t[x])
            && u[id] == t[id].(revokedAt := Some(now))
            && u[newId] == SessionRow(t[id].user, t[id].wallet, expiresAt, Hashed(newToken), None)
            && Ages(t, u)
            && (HashesUnique(t) ==> HashesUnique(u))
  {
  }

  /** The parts of the state that a successful rotation changes. */
  lemma RotateEffect(cfg: Config, s: State, c: nat, id: int, newId: int, newToken: int)
    requires Enabled(s, Rotate(c, id, newId, newToken)) && id in s.root
    requires CanRotate(s.sessions, id, s.pcs[c].token, s.clock) && CanInsert(s.sessions, newId, Hashed(newToken))
    ensures var t := Next(cfg, s, Rotate(c, id, newId, newToken));
            && t.sessions == RotateSession(s.sessions, id, s.clock, newId, newToken, s.clock + cfg.refreshTtl)
            && t.rotated == s.rotated + [s.pcs[c].token]
            && t.root == s.root[newId := s.root[id]]
            && t.clock == s.clock
  {
    hide RotateSession, CanInsert;
  }

  lemma NotRotatedYet(s: State, id: int, token: int)
    requires SessionInv(s) && CanRotate(s.sessions, id, token, s.clock)
    ensures forall i :: 0 <= i < |s.rotated| ==> s.rotated[i] != token
  {
    forall i | 0 <= i < |s.rotated|
      ensures s.rotated[i] != token
    {
      assert IsSpent(s.sessions, s.rotated[i]);
    }
  }

  lemma RotateRefused(cfg: Config, s: State, c: nat, id: int, newId: int, newToken: int)
    requires Enabled(s, Rotate(c, id, newId, newToken))
    requires !(CanRotate(s.sessions, id, s.pcs[c].token, s.clock) && CanInsert(s.sessions, newId, Hashed(newToken)))
    ensures var t := Next(cfg, s, Rotate(c, id, newId, newToken));
            t.sessions == s.sessions && t.rotated == s.rotated && t.root == s.root
  {
    hide RotateSession, CanInsert, CanRotate;
  }

  /** The rotated token joins the spent ones. */
  lemma RotateSpends(s: State, u: Sessions, id: int, token: int)
    requires SessionInv(s) && CanRotate(s.sessions, id, token, s.clock) && Ages(s.sessions, u)
    requires u[id].revokedAt.Some?
    ensures RotatedSpent(u, s.rotated + [token])
  {
    NotRotatedYet(s, id, token);
    SpentStays(s.sessions, u, s.rotated);
    assert IsSpent(u, token);
    hide IsSpent, Ages, SessionInv, CanRotate;
  }

  /** The successor joins the lineage of the session it replaces. */
  lemma RotateLineage(t: Sessions, before: map<int, int>, id: int, newId: int, u: Sessions, root: map<int, int>)
    requires LineageOk(t, before) && id in t && newId !in t
    requires u.Keys == t.Keys + {newId} && root == before[newId := before[id]]
    requires forall x :: x in t ==> u[x].user == t[x].user && u[x].wallet == t[x].wallet
    requires u[newId].user == t[id].user && u[newId].wallet == t[id].wallet
    ensures LineageOk(u, root)
  {
    assert root.Keys == before.Keys + {newId};
    forall x | x in u
      ensures root[x] in u && root[root[x]] == root[x] && u[x].user == u[root[x]].user
          && u[x].wallet == u[root[x]].wallet
    {
      var y := if x == newId then id else x;
      assert y in t && root[x] == before[y] && before[y] in t;
    }
  }

  /** And it is the only live session there. */
  lemma RotateLeavesOne(t: Sessions, before: map<int, int>, id: int, newId: int, u: Sessions, root: map<int, int>)
    requires before.Keys == t.Keys && root.Keys == u.Keys && OneLive(t, before) && IsLive(t, id) && newId !in t
    requires u.Keys == t.Keys + {newId} && root == before[newId := before[id]]
    requires forall x :: x in t && x != id ==> u[x] == t[x]
    requires u[id].revokedAt.Some?
    ensures OneLive(u, root)
  {
    forall a, b | IsLive(u, a) && IsLive(u, b) && root[a] == root[b]
      ensures a == b
    {
      assert a != newId ==> IsLive(t, a) && a != id;
      assert b != newId ==> IsLive(t, b) && b != id;
    }
  }

  /** A rotation starts from the lineage's live session and leaves the successor as the only live one. */
  lemma RotateKeeps(cfg: Config, s: State, c: nat, id: int, newId: int, newToken: int)
    requires SessionInv(s) && Enabled(s, Rotate(c, id, newId, newToken))
    ensures var t := Next(cfg, s, Rotate(c, id, newId, newToken));
            SessionInv(t) && Ages(s.sessions, t.sessions)
  {
    hide Next, RotateSession, LineageOk, OneLive, HashesUnique, RotatedSpent;
    var t := Next(cfg, s, Rotate(c, id, newId, newToken));
    var token := s.pcs[c].token;
    if !(CanRotate(s.sessions, id, token, s.clock) && CanInsert(s.sessions, newId, Hashed(newToken))) {
      RotateRefused(cfg, s, c, id, newId, newToken);
    } else {
      LineageKeys(s.sessions, s.root);
      RotateFacts(s.sessions, id, token, s.clock, newId, newToken, s.clock + cfg.refreshTtl);
      RotateEffect(cfg, s, c, id, newId, newToken);
      var u := t.sessions;
      hide Enabled;
      RotateSpends(s, u, id, token);
      RotateLineage(s.sessions, s.root, id, newId, u, t.root);
      LineageKeys(u, t.root);
      RotateLeavesOne(s.sessions, s.root, id, newId, u, t.root);
    }
  }

  lemma LineageKeys(t: Sessions, root: map<int, int>)
    requires LineageOk(t, root)
    ensures root.Keys == t.Keys
  {
  }

  /** Steps that leave the session table and its history alone. */
  lemma OtherStepsKeepSessions(cfg: Config, s: State, a: Action)
    requires Enabled(s, a) && !a.CreateSession? && !a.Rotate? && !a.Logout? && !a.AdminRevoke?
    ensures var t := Next(cfg, s, a);
            t.sessions == s.sessions && t.root == s.root && t.rotated == s.rotated && t.clock >= s.clock
  {
    if IsLocal(a) {
      LocalStep(cfg, s, a);
      hide Next;
    } else {
      NextIs(cfg, s, a);
    }
  }

  lemma StepKeepsSessionInv(cfg: Config, s: State, a: Action)
    requires SessionInv(s)
    ensures SessionInv(Next(cfg, s, a)) && Ages(s.sessions, Next(cfg, s, a).sessions)
  {
    if Enabled(s, a) {
      match a
      case CreateSession(c, id, token) => CreateKeeps(cfg, s, c, id, token);
      case Rotate(c, id, newId, newToken) => RotateKeeps(cfg, s, c, id, newId, newToken);
      case Logout(id) =>
        RevokeKeeps(s, id, s.clock);
        hide RevokeSession;
      case AdminRevoke(id) =>
        RevokeKeeps(s, id, s.clock);
        hide RevokeSession;
      case _ =>
        OtherStepsKeepSessions(cfg, s, a);
        hide Next;
    }
  }

  lemma {:induction false} RunKeepsSessionInv(cfg: Config, s: State, trace: seq<Action>)
    requires SessionInv(s)
    ensures SessionInv(Execute(cfg, s, trace)) && Ages(s.sessions, Execute(cfg, s, trace).sessions)
    ensures Execute(cfg, s, trace).clock >= s.clock
  {
    if trace != [] {
      RunKeepsSessionInv(cfg, s, trace[..|trace| - 1]);
      var u := Execute(cfg, s, trace[..|trace| - 1]);
      StepKeepsSessionInv(cfg, u, trace[|trace| - 1]);
      ClockMoves(cfg, u, trace[|trace| - 1]);
    }
  }

  lemma ClockMoves(cfg: Config, s: State, a: Action)
    ensures Next(cfg, s, a).clock >= s.clock
  {
    if Enabled(s, a) {
      match a
      case CreateSession(_, _, _) => NextIs(cfg, s, a);
      case Rotate(_, _, _, _) => NextIs(cfg, s, a);
      case Logout(_) =>
      case AdminRevoke(_) =>
      case _ =>
        OtherStepsKeepSessions(cfg, s, a);
        hide Next;
    }
  }

  /**
   * In every reachable state each lineage has at most one unrevoked session, every session of
   * a lineage has the user and wallet of its first one, and no refresh token succeeded twice.
   */
  lemma RollingSessions(cfg: Config, clock: int, onChain: map<int, int>, trace: seq<Action>)
    ensures var s := Execute(cfg, Init(clock, onChain), trace);
            && s.root.Keys == s.sessions.Keys
            && (forall a, b :: IsLive(s.sessions, a) && IsLive(s.sessions, b) && s.root[a] == s.root[b] ==> a == b)
            && LineageOk(s.sessions, s.root)
            && (forall i, j :: 0 <= i < j < |s.rotated| ==> s.rotated[i] != s.rotated[j])
  {
    RunKeepsSessionInv(cfg, Init(clock, onChain), trace);
  }

  /** A session that no longer validates, because it was revoked or expired, never validates again. */
  lemma NeverValidAgain(cfg: Config, s: State, trace: seq<Action>, id: int)
    requires SessionInv(s) && id in s.sessions
    requires s.sessions[id].revokedAt.Some? || s.sessions[id].expiresAt < s.clock
    ensures var t := Execute(cfg, s, trace);
            id in t.sessions && (t.sessions[id].revokedAt.Some? || t.sessions[id].expiresAt < t.clock)
  {
    RunKeepsSessionInv(cfg, s, trace);
  }

  // ----- Life time -----

  /** No session expires later than one life time from now. */
  ghost predicate Lifetimes(cfg: Config, s: State) {
    forall id :: id in s.sessions ==> s.sessions[id].expiresAt <= s.clock + cfg.refreshTtl
  }

  lemma CreateExpiry(cfg: Config, s: State, c: nat, id: int, token: int, x: int)
    requires Enabled(s, CreateSession(c, id, token))
    requires var u := CreateSessionStep(cfg, s, c, id, token).sessions; x in u && x !in s.sessions
    ensures CreateSessionStep(cfg, s, c, id, token).sessions[x].expiresAt == s.clock + cfg.refreshTtl
  {
    hide CanInsert;
  }

  lemma RotateExpiry(cfg: Config, s: State, c: nat, id: int, newId: int, newToken: int, x: int)
    requires Enabled(s, Rotate(c, id, newId, newToken))
    requires var u := RotateStep(cfg, s, c, id, newId, newToken).sessions; x in u && x !in s.sessions
    ensures RotateStep(cfg, s, c, id, newId, newToken).sessions[x].expiresAt == s.clock + cfg.refreshTtl
  {
    hide CanInsert;
  }

  lemma RevokesAddNothing(cfg: Config, s: State, a: Action)
    requires a.Logout? || a.AdminRevoke?
    ensures Next(cfg, s, a).sessions.Keys == s.sessions.Keys
  {
  }

  /** A session that a step stores expires one life time later. */
  lemma NewExpiry(cfg: Config, s: State, a: Action, id: int)
    requires Enabled(s, a) && id in Next(cfg, s, a).sessions && id !in s.sessions
    ensures Next(cfg, s, a).sessions[id].expiresAt == s.clock + cfg.refreshTtl
  {
    hide Next, CreateSessionStep, RotateStep;
    if a.Logout? || a.AdminRevoke? {
      RevokesAddNothing(cfg, s, a);
    } else if a.CreateSession? {
      NextIs(cfg, s, a);
      CreateExpiry(cfg, s, a.c, a.id, a.token, id);
    } else if a.Rotate? {
      NextIs(cfg, s, a);
      RotateExpiry(cfg, s, a.c, a.id, a.newId, a.newToken, id);
    } else {
      OtherStepsKeepSessions(cfg, s, a);
    }
  }

  lemma StepKeepsLifetimes(cfg: Config, s: State, a: Action)
    requires SessionInv(s) && Lifetimes(cfg, s)
    ensures Lifetimes(cfg, Next(cfg, s, a))
  {
    var t := Next(cfg, s, a);
    StepKeepsSessionInv(cfg, s, a);
    ClockMoves(cfg, s, a);
    forall id | id in t.sessions
      ensures t.sessions[id].expiresAt <= t.clock + cfg.refreshTtl
    {
      if id !in s.sessions {
        assert Enabled(s, a);
        NewExpiry(cfg, s, a, id);
      }
      hide Next, SessionInv;
    }
  }

  lemma {:induction false} RunKeepsLifetimes(cfg: Config, clock: int, onChain: map<int, int>, trace: seq<Action>)
    ensures Lifetimes(cfg, Execute(cfg, Init(clock, onChain), trace))
  {
    if trace != [] {
      hide Next, Lifetimes, SessionInv;
      RunKeepsLifetimes(cfg, clock, onChain, trace[..|trace| - 1]);
      RollingInv(cfg, clock, onChain, trace[..|trace| - 1]);
      StepKeepsLifetimes(cfg, Execute(cfg, Init(clock, onChain), trace[..|trace| - 1]), trace[|trace| - 1]);
    }
  }

  lemma RollingInv(cfg: Config, clock: int, onChain: map<int, int>, trace: seq<Action>)
    ensures SessionInv(Execute(cfg, Init(clock, onChain), trace))
  {
    RunKeepsSessionInv(cfg, Init(clock, onChain), trace);
  }

  /**
   * Whatever is done with it, a session that exists is expired once more than the life time of
   * refresh tokens has passed; only a successor of its lineage can go on.
   */
  lemma SessionsDie(cfg: Config, clock: int, onChain: map<int, int>, trace: seq<Action>, more: seq<Action>, id: int)
    requires var s := Execute(cfg, Init(clock, onChain), trace);
             id in s.sessions && Execute(cfg, s, more).clock > s.clock + cfg.refreshTtl
    ensures var t := Execute(cfg, Execute(cfg, Init(clock, onChain), trace), more);
            id in t.sessions && t.sessions[id].expiresAt < t.clock
  {
    RunKeepsLifetimes(cfg, clock, onChain, trace);
    RollingInv(cfg, clock, onChain, trace);
    RunKeepsSessionInv(cfg, Execute(cfg, Init(clock, onChain), trace), more);
    hide Execute, SessionInv;
  }

  // ----- A successful refresh -----

  /**
   * A rotation happens exactly when the session is the token's, unrevoked and not past its expiry,
   * and the new id and the new token's hash are unused; otherwise the tables stay as they are.
   */
  lemma RotateExactly(cfg: Config, s: State, c: nat, id: int, newId: int, newToken: int)
    requires SessionInv(s) && Enabled(s, Rotate(c, id, newId, newToken))
    ensures var t := Next(cfg, s, Rotate(c, id, newId, newToken));
            && (t.rotated != s.rotated || t.sessions != s.sessions <==>
                  && id in s.sessions && s.sessions[id].hash == Hashed(s.pcs[c].token)
                  && s.sessions[id].revokedAt.None? && s.clock <= s.sessions[id].expiresAt
                  && newId !in s.sessions
                  && forall x :: x in s.sessions ==> s.sessions[x].hash != Hashed(newToken))
            && (t.rotated == s.rotated || t.rotated == s.rotated + [s.pcs[c].token])
  {
    if CanRotate(s.sessions, id, s.pcs[c].token, s.clock) && CanInsert(s.sessions, newId, Hashed(newToken)) {
      LineageKeys(s.sessions, s.root);
      hide SessionInv;
      RotateEffect(cfg, s, c, id, newId, newToken);
      hide Next, RotateSession;
    } else {
      hide SessionInv;
      RotateRefused(cfg, s, c, id, newId, newToken);
      hide Next;
    }
  }

  ghost function LiveSet(t: Sessions): set<int> {
    set id | id in t && t[id].revokedAt.None?
  }

  lemma LiveSwap(t: Sessions, u: Sessions, id: int, newId: int)
    requires IsLive(t, id) && newId !in t
    requires u.Keys == t.Keys + {newId} && IsLive(u, newId) && u[id].revokedAt.Some?
    requires forall x :: x in t && x != id ==> u[x] == t[x]
    ensures LiveSet(u) == LiveSet(t) - {id} + {newId} && |LiveSet(u)| == |LiveSet(t)|
  {
    forall x
      ensures x in LiveSet(u) <==> x in LiveSet(t) - {id} + {newId}
    {
      if x in t && x != id {
        assert u[x] == t[x] && x in u.Keys;
      }
      assert x in u ==> x in u.Keys;
    }
    assert id in LiveSet(t) && newId !in LiveSet(t);
  }

  /** A refresh swaps one live session for another: their number stays the same. */
  lemma RefreshSwapsOne(cfg: Config, s: State, c: nat, id: int, newId: int, newToken: int)
    requires SessionInv(s) && Enabled(s, Rotate(c, id, newId, newToken))
    requires CanRotate(s.sessions, id, s.pcs[c].token, s.clock) && CanInsert(s.sessions, newId, Hashed(newToken))
    ensures var t := Next(cfg, s, Rotate(c, id, newId, newToken));
            && LiveSet(t.sessions) == LiveSet(s.sessions) - {id} + {newId}
            && |LiveSet(t.sessions)| == |LiveSet(s.sessions)|
            && t.root[newId] == s.root[id]
            && t.sessions[id].revokedAt == Some(s.clock)
            && t.sessions[newId].revokedAt.None? && t.sessions[newId].expiresAt == s.clock + cfg.refreshTtl
  {
    hide Next, LiveSet, OneLive, HashesUnique, RotatedSpent, RotateSession;
    LineageKeys(s.sessions, s.root);
    hide LineageOk;
    RotateFacts(s.sessions, id, s.pcs[c].token, s.clock, newId, newToken, s.clock + cfg.refreshTtl);
    RotateEffect(cfg, s, c, id, newId, newToken);
    hide Enabled;
    LiveSwap(s.sessions, Next(cfg, s, Rotate(c, id, newId, newToken)).sessions, id, newId);
  }
}
