/**
 * Delivered logins and their session lineages: each lineage is granted once, and each grant is
 * paid for by its own nonce.
 */
module AuthLineages {
  import opened AuthFrames
  import opened AuthNonces
  import opened AuthProtocol
  import opened AuthSessions
  import opened AuthTables
  import opened Prelude

  /** The session a login outcome stands for. */
  function LoginSession(out: Outcome): Option<int> {
    if out.kind.ViaLogin? then Some(out.session) else None
  }

  /** The login session a caller carries to its answer. */
  function Carried(pc: Pc): Option<int> {
    match pc
    case Restamping(out) => LoginSession(out)
    case Consuming(out) => LoginSession(out)
    case Delivering(out, _) => LoginSession(out)
    case Answering(out) => LoginSession(out)
    case _ => None
  }

  /** The session started a lineage. */
  predicate IsRoot(root: map<int, int>, id: int) {
    id in root && root[id] == id
  }

  ghost predicate Carries(s: State, c: nat, id: int) {
    c in s.pcs && Carried(s.pcs[c]) == Some(id)
  }

  ghost predicate Granted(s: State, i: nat, id: int) {
    i < |s.grants| && s.grants[i].kind.ViaLogin? && s.grants[i].session == id
  }

  /** Carried and granted login sessions start lineages, and no session is carried or granted twice. */
  ghost predicate LineagesOk(s: State) {
    && (forall c, id :: Carries(s, c, id) ==> IsRoot(s.root, id))
    && (forall i, id :: Granted(s, i, id) ==> IsRoot(s.root, id))
    && (forall c, d, id :: Carries(s, c, id) && Carries(s, d, id) ==> c == d)
    && (forall i, j, id :: Granted(s, i, id) && Granted(s, j, id) ==> i == j)
    && (forall c, i, id :: !(Carries(s, c, id) && Granted(s, i, id)))
  }

  /** Only caller c moved, and it carries nothing that it did not carry before. */
  ghost predicate Moved(s: State, t: State, c: nat) {
    && t.grants == s.grants
    && (forall id :: IsRoot(s.root, id) ==> IsRoot(t.root, id))
    && (forall d :: d != c && d in t.pcs ==> d in s.pcs && t.pcs[d] == s.pcs[d])
    && (c in t.pcs && Carried(t.pcs[c]).Some? ==> c in s.pcs && Carried(t.pcs[c]) == Carried(s.pcs[c]))
  }

  lemma MoveKeeps(s: State, t: State, c: nat)
    requires LineagesOk(s) && Moved(s, t, c)
    ensures LineagesOk(t)
  {
    forall d, id | Carries(t, d, id)
      ensures Carries(s, d, id)
    {
    }
    forall i, id
      ensures Granted(t, i, id) <==> Granted(s, i, id)
    {
    }
    hide Carries, Granted, IsRoot, Carried;
  }

  lemma WithRoleCarriesNothing(s: State, c: nat, what: Purpose, role: Role)
    ensures c in WithRole(s, c, what, role).pcs ==> Carried(WithRole(s, c, what, role).pcs[c]).None?
  {
  }

  /** Local steps carry on what their caller carried, at most. */
  lemma LocalCarries(cfg: Config, s: State, a: Action)
    requires IsLocal(a) && Enabled(s, a)
    ensures var t := Next(cfg, s, a);
            a.c in t.pcs && Carried(t.pcs[a.c]).Some? ==> a.c in s.pcs && Carried(t.pcs[a.c]) == Carried(s.pcs[a.c])
  {
    NextIs(cfg, s, a);
    hide Next, StoreRole, FreshRole, WalletTaken, NonceError;
    match a
    case LoadRole(c, row) =>
      var what := s.pcs[c].what;
      hide WithRole;
      var hit := if row.None? then None else FreshRole(s.wallets[row.value], cfg.roleTtl(ChainId(what)), s.clock);
      if hit.Some? {
        WithRoleCarriesNothing(s, c, what, hit.value);
      }
    case SaveRole(c) =>
      var pc := s.pcs[c];
      hide WithRole;
      var stored := StoreRole(s.wallets, Address(pc.what), pc.role, s.clock);
      WithRoleCarriesNothing(s.(wallets := stored), c, pc.what, pc.role);
    case _ =>
  }

  lemma LocalMoves(cfg: Config, s: State, a: Action)
    requires IsLocal(a) && Enabled(s, a)
    ensures Moved(s, Next(cfg, s, a), a.c)
  {
    LocalStep(cfg, s, a);
    LocalCarries(cfg, s, a);
    hide Next, Carried;
  }

  lemma ConsumeMoves(s: State, c: nat)
    requires Enabled(s, Consume(c))
    ensures Moved(s, ConsumeStep(s, c), c)
  {
    hide ConsumeNonce, IsFree;
  }

  /** A new session is a lineage of its own that nobody carries yet. */
  lemma CreateKeepsLineages(cfg: Config, s: State, c: nat, id: int, token: int)
    requires LineagesOk(s) && s.root.Keys == s.sessions.Keys && Enabled(s, CreateSession(c, id, token))
    ensures LineagesOk(CreateSessionStep(cfg, s, c, id, token))
  {
    var t := CreateSessionStep(cfg, s, c, id, token);
    if !CanInsert(s.sessions, id, Hashed(token)) {
      MoveKeeps(s, t, c);
    } else {
      assert id !in s.root.Keys;
      assert t.root == s.root[id := id] && t.grants == s.grants;
      forall d, x | Carries(t, d, x)
        ensures (d == c && x == id) || (d != c && Carries(s, d, x) && x != id)
      {
        assert d != c ==> Carries(s, d, x) && IsRoot(s.root, x);
      }
      forall i, x
        ensures (Granted(t, i, x) <==> Granted(s, i, x)) && (Granted(s, i, x) ==> x != id)
      {
        assert Granted(s, i, x) ==> IsRoot(s.root, x);
      }
      hide Carries, Granted, CreateSessionStep, Carried;
    }
  }

  lemma RotateMoves(cfg: Config, s: State, c: nat, id: int, newId: int, newToken: int)
    requires s.root.Keys == s.sessions.Keys && Enabled(s, Rotate(c, id, newId, newToken))
    ensures Moved(s, RotateStep(cfg, s, c, id, newId, newToken), c)
  {
    hide RotateSession, CanRotate, HashTaken;
    if CanInsert(s.sessions, newId, Hashed(newToken)) {
      assert newId !in s.root.Keys;
    }
  }

  /** The session delivered was carried until now; from now on it is granted. */
  lemma DeliverKeepsLineages(s: State, c: nat)
    requires LineagesOk(s) && Enabled(s, Deliver(c))
    ensures LineagesOk(DeliverStep(s, c))
  {
    var t := DeliverStep(s, c);
    var pc := s.pcs[c];
    var n := |s.grants|;
    assert t.root == s.root && t.grants == s.grants + [Grant(pc.out.nonce, pc.out.kind, pc.out.session)];
    forall d, x | Carries(t, d, x)
      ensures d != c && Carries(s, d, x)
    {
    }
    forall i, x | Granted(t, i, x)
      ensures if i == n then Carries(s, c, x) else Granted(s, i, x)
    {
    }
    hide Carries, Granted, DeliverStep, Carried, IsRoot;
  }

  lemma StepKeepsLineages(cfg: Config, s: State, a: Action)
    requires LineagesOk(s) && s.root.Keys == s.sessions.Keys
    ensures LineagesOk(Next(cfg, s, a))
  {
    if Enabled(s, a) {
      var t := Next(cfg, s, a);
      NextIs(cfg, s, a);
      if IsLocal(a) {
        LocalMoves(cfg, s, a);
        hide *;
        MoveKeeps(s, t, a.c);
      } else if a.CreateSession? {
        CreateKeepsLineages(cfg, s, a.c, a.id, a.token);
      } else if a.Rotate? {
        RotateMoves(cfg, s, a.c, a.id, a.newId, a.newToken);
        hide *;
        MoveKeeps(s, t, a.c);
      } else if a.Consume? {
        ConsumeMoves(s, a.c);
        hide *;
        MoveKeeps(s, t, a.c);
      } else if a.Deliver? {
        DeliverKeepsLineages(s, a.c);
      } else {
        assert t.grants == s.grants && t.root == s.root && t.pcs == s.pcs;
        hide Next, LineagesOk;
        MoveKeeps(s, t, 0);
      }
    }
  }

  lemma {:induction false} ReachableLineages(cfg: Config, clock: int, onChain: map<int, int>, trace: seq<Action>)
    ensures LineagesOk(Execute(cfg, Init(clock, onChain), trace))
  {
    if trace != [] {
      var n := |trace| - 1;
      ReachableLineages(cfg, clock, onChain, trace[..n]);
      RollingSessions(cfg, clock, onChain, trace[..n]);
      hide LineagesOk;
      StepKeepsLineages(cfg, Execute(cfg, Init(clock, onChain), trace[..n]), trace[n]);
    }
  }

  /**
   * Every delivered login stands for a lineage of its own: the session started the lineage, and
   * no two deliveries share one.
   */
  lemma LineageGrantedOnce(cfg: Config, clock: int, onChain: map<int, int>, trace: seq<Action>)
    ensures var s := Execute(cfg, Init(clock, onChain), trace);
            && (forall i :: 0 <= i < |s.grants| && s.grants[i].kind.ViaLogin? ==> IsRoot(s.root, s.grants[i].session))
            && (forall i, j :: 0 <= i < j < |s.grants| && s.grants[i].kind.ViaLogin? && s.grants[j].kind.ViaLogin? ==>
                  s.grants[i].session != s.grants[j].session)
  {
    ReachableLineages(cfg, clock, onChain, trace);
    var s := Execute(cfg, Init(clock, onChain), trace);
    forall i | 0 <= i < |s.grants| && s.grants[i].kind.ViaLogin?
      ensures IsRoot(s.root, s.grants[i].session)
    {
      assert Granted(s, i, s.grants[i].session);
    }
    forall i, j | 0 <= i < j < |s.grants| && s.grants[i].kind.ViaLogin? && s.grants[j].kind.ViaLogin?
      ensures s.grants[i].session != s.grants[j].session
    {
      assert Granted(s, i, s.grants[i].session) && Granted(s, j, s.grants[j].session);
    }
  }

  /**
   * With nonces that never repeat, delivered lineages map injectively to consumed nonces: each
   * delivered login has its own lineage and its own nonce, which was issued, used exactly once
   * and is free no more.
   */
  lemma LineagesMapToNonces(cfg: Config, clock: int, onChain: map<int, int>, trace: seq<Action>)
    requires NeverRepeats(Execute(cfg, Init(clock, onChain), trace).issued)
    ensures var s := Execute(cfg, Init(clock, onChain), trace);
            && (forall i, j :: 0 <= i < j < |s.grants| ==> s.grants[i].nonce != s.grants[j].nonce)
            && (forall i :: 0 <= i < |s.grants| && s.grants[i].kind.ViaLogin? ==> IsRoot(s.root, s.grants[i].session))
            && (forall i, j :: 0 <= i < j < |s.grants| && s.grants[i].kind.ViaLogin? && s.grants[j].kind.ViaLogin? ==>
                  s.root[s.grants[i].session] != s.root[s.grants[j].session])
            && (forall i :: 0 <= i < |s.grants| ==>
                  var n := s.grants[i].nonce; n in s.issued && Uses(s.used, n) == 1 && !IsFree(s.nonces, n))
  {
    NonceSpentOnce(cfg, clock, onChain, trace);
    LineageGrantedOnce(cfg, clock, onChain, trace);
    hide Execute;
  }
}
