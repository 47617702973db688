/**
 * The service in the program's own form: fields for the tables and methods that change them
 * statement by statement, with any steps of other callers between two statements.  `trace`
 * records the protocol steps taken, so that every state of the tables is one the protocol
 * reaches and its theorems hold of it.
 */
module AuthService {
  import opened AuthExpiry
  import opened AuthFrames
  import opened AuthGrowth
  import opened AuthLineages
  import opened AuthNonces
  import opened AuthProtocol
  import opened AuthRoles
  import opened AuthSessions
  import opened AuthTables
  import opened Prelude

  datatype LoginAnswer = LoginAnswer(session: int, token: int, role: Role)

  /** A live session of the token is revoked, and a new one of its user and wallet stands for it. */
  ghost predicate Rotated(before: Sessions, after: Sessions, id: int, token: int, newId: int, newToken: int, now: int,
      ttl: int) {
    && id in before && before[id].hash == Hashed(token)
    && before[id].revokedAt.None? && now <= before[id].expiresAt
    && newId !in before && (forall x :: x in before ==> before[x].hash != Hashed(newToken))
    && after == before[id := before[id].(revokedAt := Some(now))]
                      [newId := SessionRow(before[id].user, before[id].wallet, now + ttl, Hashed(newToken), None)]
  }

  ghost predicate IsInit(s: State) {
    s.chain != [] && s == Init(s.clock, s.chain[0])
  }

  // ----- What one caller has done since a moment -----

  /** None of the later steps is one of these two of caller c. */
  ghost predicate NoSpending(c: nat, before: seq<Action>, trace: seq<Action>) {
    before <= trace && Consume(c) !in trace[|before|..] && Deliver(c) !in trace[|before|..]
  }

  /** At one of the later steps caller c consumed the nonce, which was free then. */
  ghost predicate Spent(cfg: Config, init: State, c: nat, nonce: int, before: seq<Action>, trace: seq<Action>) {
    exists k :: |before| <= k < |trace| && trace[k] == Consume(c)
        && IsFree(Execute(cfg, init, trace[..k]).nonces, nonce)
  }

  /** An address had this role in a fresh cache row or, failing that, from the chain at one of the later states. */
  ghost predicate RoleSeen(cfg: Config, init: State, address: int, chainId: int, role: Role, before: seq<Action>,
      trace: seq<Action>) {
    exists k :: |before| <= k <= |trace| && RoleIn(cfg, Execute(cfg, init, trace[..k]), address, chainId, role)
  }

  ghost predicate RoleIn(cfg: Config, s: State, address: int, chainId: int, role: Role) {
    || (exists w :: w in s.wallets && s.wallets[w].address == address && HasFresh(cfg, s, w, chainId, role))
    || (s.chain != [] && !cfg.contract && role == Viewer)
    || (s.chain != [] && cfg.contract && Encodes(NumberOf(s.chain[|s.chain| - 1], address), role))
  }

  /** The row's cached number is the role's, and it was stored less than the time to live of the network ago. */
  ghost predicate HasFresh(cfg: Config, s: State, w: int, chainId: int, role: Role)
    requires w in s.wallets
  {
    var cache := s.wallets[w].cache;
    cache.Some? && s.clock < cache.value.updatedAt + cfg.roleTtl(chainId) && Encodes(cache.value.value, role)
  }

  /** At one of the later states the nonce was unconsumed and not past its expiry. */
  ghost predicate Stood(cfg: Config, init: State, nonce: int, before: seq<Action>, trace: seq<Action>) {
    exists k :: |before| <= k <= |trace| && Stands(Execute(cfg, init, trace[..k]), nonce)
  }

  lemma StoodStays(cfg: Config, init: State, nonce: int, before: seq<Action>, trace: seq<Action>, more: seq<Action>)
    requires Stood(cfg, init, nonce, before, trace) && trace <= more
    ensures Stood(cfg, init, nonce, before, more)
  {
    var k :| |before| <= k <= |trace| && Stands(Execute(cfg, init, trace[..k]), nonce);
    assert more[..k] == trace[..k];
  }

  lemma SpendingLasts(cfg: Config, init: State, c: nat, nonce: int, before: seq<Action>, trace: seq<Action>,
      more: seq<Action>)
    requires Spent(cfg, init, c, nonce, before, trace) && trace <= more
    ensures Spent(cfg, init, c, nonce, before, more)
  {
    var k :| |before| <= k < |trace| && trace[k] == Consume(c) && IsFree(Execute(cfg, init, trace[..k]).nonces, nonce);
    assert more[..k] == trace[..k];
  }

  lemma RoleSeenStays(cfg: Config, init: State, address: int, chainId: int, role: Role, before: seq<Action>,
      trace: seq<Action>, more: seq<Action>)
    requires RoleSeen(cfg, init, address, chainId, role, before, trace) && trace <= more
    ensures RoleSeen(cfg, init, address, chainId, role, before, more)
  {
    var k :| |before| <= k <= |trace| && RoleIn(cfg, Execute(cfg, init, trace[..k]), address, chainId, role);
    assert more[..k] == trace[..k];
  }

  lemma NoSpendingAppend(c: nat, before: seq<Action>, trace: seq<Action>, a: Action)
    requires NoSpending(c, before, trace) && a != Consume(c) && a != Deliver(c)
    ensures NoSpending(c, before, trace + [a])
  {
    var n := |before|;
    assert (trace + [a])[n..] == trace[n..] + [a];
  }

  lemma NothingSpent(cfg: Config, init: State, c: nat, nonce: int, before: seq<Action>, trace: seq<Action>)
    requires NoSpending(c, before, trace)
    ensures !Spent(cfg, init, c, nonce, before, trace)
  {
    var n := |before|;
    forall k | n <= k < |trace|
      ensures trace[k] != Consume(c)
    {
      assert trace[n..][k - n] == trace[k];
    }
  }

  class Service {
    const cfg: Config
    var nonces: Nonces
    var sessions: Sessions
    var wallets: Wallets
    var clock: int
    var onChain: map<int, int>
    const init: State
    /** History: every protocol step taken so far, by whichever caller. */
    var trace: seq<Action>

    function Model(): State
      reads this`trace
    {
      Execute(cfg, init, trace)
    }

    /** The tables are those of the protocol state reached by the trace. */
    ghost predicate Valid()
      reads this
    {
      Agrees(Model()) && IsInit(init)
    }

    ghost predicate Agrees(m: State)
      reads this`nonces, this`sessions, this`wallets, this`clock, this`onChain
    {
      && m.nonces == nonces && m.sessions == sessions && m.wallets == wallets && m.clock == clock
      && m.chain != [] && m.chain[|m.chain| - 1] == onChain
    }

    /** Caller c is at this step. */
    ghost predicate At(c: nat, pc: Pc)
      reads this`trace
    {
      PcOf(Model(), c) == Some(pc)
    }

    /** Since the moment (m, t) the tables only grew, and caller c neither consumed nor answered. */
    ghost predicate Since(c: nat, m: State, t: seq<Action>)
      reads this`trace
    {
      NoSpending(c, t, trace) && Grows(m, Model())
    }

    /** Since then caller c answered nothing, and did not consume the nonce while it was free. */
    ghost predicate Harmless(c: nat, nonce: int, m: State, t: seq<Action>)
      reads this`trace
    {
      t <= trace && Deliver(c) !in trace[|t|..] && !Spent(cfg, init, c, nonce, t, trace) && Grows(m, Model())
    }

    /**
     * Since then caller c consumed the nonce while it was free, and its last step is the only
     * answer it gave: one grant, and a token unless it only linked a wallet.
     */
    ghost predicate Answered(c: nat, out: Outcome, m: State, t: seq<Action>)
      reads this`trace
    {
      var g := Model();
      && t < trace && trace[|trace| - 1] == Deliver(c) && Deliver(c) !in trace[..|trace| - 1][|t|..]
      && Spent(cfg, init, c, out.nonce, t, trace) && Grows(m, g)
      && g.grants != [] && g.grants[|g.grants| - 1] == Grant(out.nonce, out.kind, out.session)
      && (!out.kind.ViaLink? ==> g.tokens != [] && g.tokens[|g.tokens| - 1] == TokenRole(out.address, out.role))
    }

    constructor (cfg: Config, clock: int, onChain: map<int, int>)
      ensures Valid() && this.cfg == cfg && init == Init(clock, onChain) && trace == []
    {
      this.cfg := cfg;
      nonces, sessions, wallets := map[], map[], map[];
      this.clock, this.onChain := clock, onChain;
      init := Init(clock, onChain);
      trace := [];
    }

    // ----- What the protocol proves holds of the running service -----

    /** No more Ok answers for a nonce than issues of it. */
    lemma NoncesHonoured(nonce: int)
      requires Valid()
      ensures Grants(Model().grants, nonce) <= Count(Model().issued, nonce)
    {
      AnswersAtMostIssues(cfg, init.clock, init.chain[0], trace, nonce);
    }

    /** One live session per lineage, unique hashes, and no refresh token spent twice. */
    lemma SessionsHonoured()
      requires Valid()
      ensures SessionInv(Model())
    {
      RunKeepsSessionInv(cfg, init, trace);
    }

    /** Each delivered login started a lineage that no other delivery has. */
    lemma LineagesHonoured()
      requires Valid()
      ensures LineagesOk(Model())
    {
      ReachableLineages(cfg, init.clock, init.chain[0], trace);
    }

    /** With a role contract, every cached role and every role in a token was held on the chain. */
    lemma RolesHonoured()
      requires Valid() && cfg.contract
      ensures AllHeld(Model())
    {
      RolesHaveProvenance(cfg, init.clock, init.chain[0], trace);
    }

    // ----- Recording steps -----

    /** Records a step whose effect on the tables has been made. */
    method Record(a: Action)
      requires IsInit(init) && SessionInv(Model()) && Enabled(Model(), a) && Agrees(Next(cfg, Model(), a))
      modifies this`trace
      ensures Valid() && Model() == Next(cfg, old(Model()), a) && trace == old(trace) + [a]
      ensures Grows(old(Model()), Model())
    {
      hide Execute, Next, SessionInv, Grows, IsInit;
      ExecuteAppend(cfg, init, trace, a);
      StepGrows(cfg, Model(), a);
      trace := trace + [a];
    }

    /** Records a step of caller c that neither consumes nor answers. */
    method Act(c: nat, a: Action, ghost m: State, ghost t: seq<Action>)
      requires IsInit(init) && SessionInv(Model()) && Enabled(Model(), a) && Agrees(Next(cfg, Model(), a))
      requires Since(c, m, t) && a != Consume(c) && a != Deliver(c)
      modifies this`trace
      ensures Valid() && Model() == Next(cfg, old(Model()), a) && trace == old(trace) + [a]
      ensures Since(c, m, t) && Grows(old(Model()), Model())
    {
      hide Execute, Next, Agrees, SessionInv, Grows, NoSpending, IsInit, Enabled;
      NoSpendingAppend(c, t, trace, a);
      Record(a);
      GrowsTrans(m, old(Model()), Model());
    }

    /** A caller that stops early leaves the tables as they are. */
    method Stop(c: nat, ghost m: State, ghost t: seq<Action>)
      requires Valid() && Since(c, m, t) && c in Model().pcs
      modifies this`trace
      ensures Grows(old(Model()), Model())
      ensures nonces == old(nonces)
      ensures Valid() && Since(c, m, t) && trace == old(trace) + [Fail(c)]
    {
      hide Execute, Since, SessionInv;
      SessionsHonoured();
      Act(c, Fail(c), m, t);
    }

    /** Any number of steps that are not caller c's, time included. */
    method Others(c: nat)
      requires Valid()
      modifies this
      ensures Valid() && Elsewhere(c, old(Model()), old(trace))
    {
      hide Execute, SessionInv, Next, Enabled, IsInit;
      ghost var m, t := Model(), trace;
      var n: nat :| n >= 0;
      for i := 0 to n
        invariant Valid() && Elsewhere(c, m, t)
      {
        hide Grows;
        var a: Action := *;
        if Enabled(Model(), a) && CallerOf(a) != Some(c) {
          OtherStep(c, a, m, t);
        }
      }
    }

    /** Since the moment (m, t) only others took steps. */
    ghost predicate Elsewhere(c: nat, m: State, t: seq<Action>)
      reads this`trace
    {
      && t <= trace && (forall k :: |t| <= k < |trace| ==> CallerOf(trace[k]) != Some(c))
      && Grows(m, Model()) && PcOf(Model(), c) == PcOf(m, c)
    }

    method OtherStep(c: nat, a: Action, ghost m: State, ghost t: seq<Action>)
      requires Valid() && Elsewhere(c, m, t) && Enabled(Model(), a) && CallerOf(a) != Some(c)
      modifies this
      ensures Valid() && Elsewhere(c, m, t)
    {
      hide Execute, SessionInv, Next, Enabled, Grows, IsInit, PcOf, CallerOf;
      SessionsHonoured();
      var s := Next(cfg, Model(), a);
      StepGrows(cfg, Model(), a);
      OthersStay(cfg, Model(), a, c);
      ChainStays(Model(), s);
      nonces, sessions, wallets, clock, onChain := s.nonces, s.sessions, s.wallets, s.clock, s.chain[|s.chain| - 1];
      Record(a);
      GrowsTrans(m, old(Model()), Model());
    }

    lemma ChainStays(s: State, t: State)
      requires Grows(s, t) && s.chain != []
      ensures t.chain != []
    {
    }

    /** The steps of others spend nothing of caller c's. */
    lemma SinceStays(c: nat, m: State, t: seq<Action>, before: State, steps: seq<Action>)
      requires NoSpending(c, t, steps) && Grows(m, before) && Elsewhere(c, before, steps)
      ensures Since(c, m, t)
    {
      hide Execute;
      assert forall k :: |t| <= k < |steps| ==> trace[k] == steps[k] == steps[|t|..][k - |t|];
      GrowsTrans(m, before, Model());
    }

    /** Caller c waits for a statement or a remote call. */
    method Await(c: nat, ghost m: State, ghost t: seq<Action>)
      requires Valid() && Since(c, m, t)
      modifies this
      ensures Valid() && Since(c, m, t) && PcOf(Model(), c) == old(PcOf(Model(), c))
      ensures Elsewhere(c, old(Model()), old(trace))
    {
      hide Execute, IsInit, Grows, NoSpending, PcOf;
      ghost var before, steps := Model(), trace;
      Others(c);
      SinceStays(c, m, t, before, steps);
    }

    /** Caller c waits for its next statement; when that fails to run, the caller ends without a trace in the tables. */
    method Reach(c: nat, ghost m: State, ghost t: seq<Action>) returns (failed: bool)
      requires Valid() && Since(c, m, t) && c in Model().pcs
      modifies this
      ensures Valid() && Since(c, m, t) && old(trace) <= trace && Grows(old(Model()), Model())
      ensures !failed ==> Elsewhere(c, old(Model()), old(trace)) && PcOf(Model(), c) == old(PcOf(Model(), c))
    {
      hide Execute, IsInit, Since, Grows;
      ghost var before := Model();
      Await(c, m, t);
      ghost var waited := Model();
      failed := *;
      if failed {
        Stop(c, m, t);
        GrowsTrans(before, waited, Model());
      }
    }

    // ----- Nonces -----

    method DoIssueNonce(nonce: int)
      requires Valid()
      modifies this`nonces, this`trace
      ensures Valid() && Model() == Next(cfg, old(Model()), IssueNonce(nonce))
      ensures nonces == old(nonces)[nonce := NonceRow(clock + 300, None)]
    {
      hide Execute, SessionInv;
      SessionsHonoured();
      nonces := PersistNonce(nonces, nonce, clock + NONCE_TTL);
      Record(IssueNonce(nonce));
    }

    method EnsureNonceValid(nonce: int) returns (err: Option<AuthError>)
      ensures err == NonceError(nonces, nonce, clock)
      ensures nonce !in nonces ==> err == Some(NonceNotFound)
      ensures nonce in nonces && (nonces[nonce].consumedAt.Some? || nonces[nonce].expiresAt < clock) ==>
                err == Some(NonceExpired)
      ensures nonce in nonces && nonces[nonce].consumedAt.None? && clock <= nonces[nonce].expiresAt ==> err == None
    {
      if nonce !in nonces {
        return Some(NonceNotFound);
      }
      if nonces[nonce].consumedAt.Some? {
        return Some(NonceExpired);
      }
      if nonces[nonce].expiresAt < clock {
        return Some(NonceExpired);
      }
      return None;
    }

    /** The checks in front of a login or a link. */
    method CheckRequest(c: nat, req: Request, linkTo: Option<int>, ghost m: State, ghost t: seq<Action>)
      returns (err: Option<AuthError>)
      requires Valid() && Since(c, m, t) && At(c, Checking(req, linkTo))
      modifies this`trace
      ensures Valid() && Since(c, m, t)
      ensures old(trace) <= trace
      ensures err.None? <==>
                && req.nonce in nonces && nonces[req.nonce].consumedAt.None? && clock <= nonces[req.nonce].expiresAt
                && req.signed
      ensures err.None? ==> Stood(cfg, init, req.nonce, t, trace)
      ensures err == None || err == Some(NonceNotFound) || err == Some(NonceExpired) || err == Some(InvalidSignature)
      ensures err.None? ==> At(c, if linkTo.Some? then FindingOwner(req, linkTo.value) else LoadingRole(ForLogin(req)))
    {
      hide Execute, SessionInv, Next, NonceError, Since, Stood;
      SessionsHonoured();
      err := EnsureNonceValid(req.nonce);
      if err.None? && !req.signed {
        err := Some(InvalidSignature);
      }
      NextIs(cfg, Model(), Check(c));
      SincePrefix(c, m, t);
      ghost var steps := trace;
      Act(c, Check(c), m, t);
      if err.None? {
        StoodThen(req.nonce, t, steps);
      }
    }

    lemma StoodThen(nonce: int, t: seq<Action>, steps: seq<Action>)
      requires t <= steps <= trace && Stands(Execute(cfg, init, steps), nonce)
      ensures Stood(cfg, init, nonce, t, trace)
    {
      assert trace[..|steps|] == steps;
    }

    /**
     * The conditional update.  When it runs it succeeds exactly on a free nonce, and then the
     * nonce is spent; when it fails to run the nonce is left as it was.
     */
    method DoConsume(c: nat, out: Outcome, ghost m: State, ghost t: seq<Action>) returns (err: Option<AuthError>)
      requires Valid() && Since(c, m, t) && At(c, Consuming(out))
      modifies this`nonces, this`trace
      ensures Valid() && Grows(old(Model()), Model()) && old(trace) <= trace
      ensures err == None || err == Some(NonceExpired) || err == Some(Internal)
      ensures err != Some(Internal) ==>
                (err.None? <==> out.nonce in old(nonces) && old(nonces)[out.nonce].consumedAt.None?)
      ensures err.None? ==> nonces == old(nonces)[out.nonce := NonceRow(old(nonces)[out.nonce].expiresAt, Some(clock))]
      ensures err.None? ==>
          PcOf(Model(), c) == Some(Delivering(out, |old(Model()).used|)) && |Model().used| == |old(Model()).used| + 1
      ensures err.None? ==> Spending(c, out.nonce, m, t)
      ensures err.Some? ==> nonces == old(nonces) && Harmless(c, out.nonce, m, t)
    {
      hide Execute, SessionInv, Next, Grows, NoSpending, Spent;
      var fails: bool := *;
      if fails {
        Stop(c, m, t);
        SinceIsHarmless(c, out.nonce, m, t);
        return Some(Internal);
      }
      SessionsHonoured();
      ghost var before, steps := Model(), trace;
      var updated := out.nonce in nonces && nonces[out.nonce].consumedAt.None?;
      if updated {
        nonces := nonces[out.nonce := nonces[out.nonce].(consumedAt := Some(clock))];
      }
      NextIs(cfg, Model(), Consume(c));
      Record(Consume(c));
      GrowsTrans(m, before, Model());
      ConsumeRecorded(c, out.nonce, t, steps);
      err := if updated then None else Some(NonceExpired);
    }

    /** The nonce is consumed and the answer still to come. */
    ghost predicate Spending(c: nat, nonce: int, m: State, t: seq<Action>)
      reads this`trace
    {
      t <= trace && Deliver(c) !in trace[|t|..] && Spent(cfg, init, c, nonce, t, trace) && Grows(m, Model())
    }

    lemma ConsumeRecorded(c: nat, nonce: int, t: seq<Action>, steps: seq<Action>)
      requires NoSpending(c, t, steps) && trace == steps + [Consume(c)]
      ensures t <= trace && Deliver(c) !in trace[|t|..]
      ensures Spent(cfg, init, c, nonce, t, trace) <==> IsFree(Execute(cfg, init, steps).nonces, nonce)
    {
      hide Execute;
      var n := |steps|;
      assert trace[..n] == steps && trace[n] == Consume(c);
      assert trace[|t|..] == steps[|t|..] + [Consume(c)];
      forall k | |t| <= k < n
        ensures trace[k] != Consume(c)
      {
        assert trace[k] == steps[|t|..][k - |t|];
      }
    }

    lemma SpendingStays(c: nat, nonce: int, m: State, t: seq<Action>, before: State, steps: seq<Action>)
      requires t <= steps && Deliver(c) !in steps[|t|..] && Spent(cfg, init, c, nonce, t, steps) && Grows(m, before)
      requires Elsewhere(c, before, steps)
      ensures Spending(c, nonce, m, t)
    {
      hide Execute, Spent;
      assert forall k :: |t| <= k < |steps| ==> trace[k] == steps[k] == steps[|t|..][k - |t|];
      SpendingLasts(cfg, init, c, nonce, t, steps, trace);
      GrowsTrans(m, before, Model());
    }

    /** The Ok answer of a caller whose nonce is consumed. */
    method GiveAnswer(c: nat, out: Outcome, ghost ticket: nat, ghost m: State, ghost t: seq<Action>)
      requires Valid() && Spending(c, out.nonce, m, t)
      requires At(c, Delivering(out, ticket)) && ticket < |Model().used|
      modifies this`trace
      ensures Valid() && Answered(c, out, m, t) && Grows(old(Model()), Model()) && old(trace) <= trace
    {
      hide Execute, SessionInv, Next, Grows, Spent;
      SessionsHonoured();
      ghost var before, steps := Model(), trace;
      NextIs(cfg, Model(), Deliver(c));
      Record(Deliver(c));
      GrowsTrans(m, before, Model());
      SpendingLasts(cfg, init, c, out.nonce, t, steps, trace);
      assert trace[..|trace| - 1] == steps;
    }

    /** Consume the nonce, and only then answer Ok.  A login's token is signed after the consumption, which may fail. */
    method ConsumeAndAnswer(c: nat, out: Outcome, ghost m: State, ghost t: seq<Action>) returns (err: Option<AuthError>)
      requires Valid() && Since(c, m, t) && At(c, Consuming(out))
      modifies this
      ensures Valid() && Grows(old(Model()), Model()) && old(trace) <= trace
      ensures err.None? ==> Answered(c, out, m, t)
      ensures err == None || err == Some(NonceExpired) || err == Some(Internal)
      ensures err.Some? ==>
          Harmless(c, out.nonce, m, t) || (err == Some(Internal) && out.kind.ViaLogin? && Spending(c, out.nonce, m, t))
    {
      hide Execute, IsInit, Since, Grows, Spent, Answered, Harmless, Spending;
      ghost var m0 := Model();
      err := DoConsume(c, out, m, t);
      if err.None? {
        ghost var before, steps := Model(), trace;
        SpendingMeans(c, out.nonce, m, t);
        Others(c);
        SpendingStays(c, out.nonce, m, t, before, steps);
        GrowsTrans(m0, before, Model());
        UsedGrows(before, Model());
        ghost var m1 := Model();
        var unsigned: bool := *;
        if unsigned && out.kind.ViaLogin? {
          GiveUp(c, out.nonce, m, t);
          GrowsTrans(m0, m1, Model());
          return Some(Internal);
        }
        GiveAnswer(c, out, |m0.used|, m, t);
        GrowsTrans(m0, m1, Model());
      }
    }

    lemma UsedGrows(s: State, t: State)
      requires Grows(s, t)
      ensures |s.used| <= |t.used|
    {
    }

    // ----- Sessions -----

    method EnsureSessionActive(id: int) returns (ok: bool)
      ensures ok <==> id in sessions && sessions[id].revokedAt.None? && clock <= sessions[id].expiresAt
    {
      if id !in sessions {
        return false;
      }
      ok := !(sessions[id].revokedAt.Some? || sessions[id].expiresAt < clock);
    }

    method DoLogout(id: int)
      requires Valid()
      modifies this`sessions, this`trace
      ensures Valid() && Model() == Next(cfg, old(Model()), Logout(id))
      ensures sessions.Keys == old(sessions).Keys && (id in sessions ==> sessions[id].revokedAt == Some(clock))
      ensures forall x :: x in sessions && x != id ==> sessions[x] == old(sessions)[x]
    {
      hide Execute, SessionInv;
      SessionsHonoured();
      if id in sessions {
        sessions := sessions[id := sessions[id].(revokedAt := Some(clock))];
      }
      Record(Logout(id));
    }

    method DoAdminRevoke(id: int) returns (changed: bool)
      requires Valid()
      modifies this`sessions, this`trace
      ensures Valid() && Model() == Next(cfg, old(Model()), AdminRevoke(id))
      ensures changed <==> id in old(sessions) && old(sessions)[id].revokedAt.None?
      ensures sessions ==
                if changed then old(sessions)[id := old(sessions)[id].(revokedAt := Some(clock))] else old(sessions)
    {
      hide Execute, SessionInv;
      SessionsHonoured();
      changed := id in sessions && sessions[id].revokedAt.None?;
      if changed {
        sessions := sessions[id := sessions[id].(revokedAt := Some(clock))];
      }
      Record(AdminRevoke(id));
    }

    method DoCreateSession(c: nat, req: Request, role: Role, user: int, wallet: int, id: int, token: int,
                           ghost m: State, ghost t: seq<Action>) returns (ok: bool)
      requires Valid() && Since(c, m, t) && At(c, CreatingSession(req, role, user, wallet))
      modifies this`sessions, this`trace
      ensures old(trace) <= trace
      ensures Valid() && Since(c, m, t)
      ensures Grows(old(Model()), Model())
      ensures ok <==> id !in old(sessions) && forall x :: x in old(sessions) ==> old(sessions)[x].hash != Hashed(token)
      ensures ok ==> At(c, Restamping(Outcome(ViaLogin, req.nonce, req.address, role, id, user, wallet)))
      ensures ok ==>
          sessions == old(sessions)[id := SessionRow(user, wallet, clock + cfg.refreshTtl, Hashed(token), None)]
      ensures !ok ==> sessions == old(sessions)
    {
      hide Execute, SessionInv, Next, Since;
      SessionsHonoured();
      ok := CanInsert(sessions, id, Hashed(token));
      if ok {
        sessions := sessions[id := SessionRow(user, wallet, clock + cfg.refreshTtl, Hashed(token), None)];
      }
      NextIs(cfg, Model(), CreateSession(c, id, token));
      Act(c, CreateSession(c, id, token), m, t);
    }

    // ----- Roles -----

    /** The row a query by address returns, if any. */
    method FindRow(address: int) returns (row: Option<int>)
      ensures row.Some? ==> row.value in wallets && wallets[row.value].address == address
      ensures row.None? ==> forall w :: w in wallets ==> wallets[w].address != address
      ensures Finds(wallets, address, row)
    {
      if w :| w in wallets && wallets[w].address == address {
        row := Some(w);
      } else {
        row := None;
      }
    }

    /** The cached role of the address, while it is fresh. */
    method LoadCachedRole(c: nat, what: Purpose, ghost m: State, ghost t: seq<Action>) returns (role: Option<Role>)
      requires Valid() && Since(c, m, t) && At(c, LoadingRole(what))
      modifies this`trace
      ensures Grows(old(Model()), Model())
      ensures Valid() && Since(c, m, t)
      ensures role.None? ==> At(c, AskingChain(what))
      ensures role.Some? ==> PcOf(Model(), c) == PcOf(WithRole(old(Model()), c, what, role.value), c)
      ensures role.Some? ==> RoleIn(cfg, old(Model()), Address(what), ChainId(what), role.value)
      ensures old(trace) <= trace
    {
      hide FreshRole, Finds, Execute, SessionInv, Next, Address, ChainId, Since, WithRole, RoleIn;
      SessionsHonoured();
      var row := FindRow(Address(what));
      if row.Some? {
        FindsMember(wallets, Address(what), row);
        role := FreshRole(wallets[row.value], cfg.roleTtl(ChainId(what)), clock);
        if role.Some? {
          CachedIsSeen(Model(), what, row.value, role.value);
        }
      } else {
        role := None;
      }
      NextIs(cfg, Model(), LoadRole(c, row));
      LoadRoleAgrees(c, row);
      Act(c, LoadRole(c, row), m, t);
    }

    lemma CachedIsSeen(s: State, what: Purpose, w: int, role: Role)
      requires w in s.wallets && s.wallets[w].address == Address(what)
      requires FreshRole(s.wallets[w], cfg.roleTtl(ChainId(what)), s.clock) == Some(role)
      ensures RoleIn(cfg, s, Address(what), ChainId(what), role)
    {
      hide Address, ChainId;
      assert HasFresh(cfg, s, w, ChainId(what), role);
    }

    lemma FindsMember(t: Wallets, address: int, row: Option<int>)
      requires Finds(t, address, row) && row.Some?
      ensures row.value in t && t[row.value].address == address
    {
    }

    lemma LoadRoleAgrees(c: nat, row: Option<int>)
      requires Valid() && Enabled(Model(), LoadRole(c, row))
      ensures Agrees(LoadRoleStep(cfg, Model(), c, row))
    {
      LocalStep(cfg, Model(), LoadRole(c, row));
      hide Execute;
    }

    /** Asks the chain. */
    method AskForRole(c: nat, what: Purpose, ghost m: State, ghost t: seq<Action>) returns (role: Role)
      requires Valid() && Since(c, m, t) && At(c, AskingChain(what))
      modifies this`trace
      ensures Grows(old(Model()), Model())
      ensures Valid() && Since(c, m, t) && At(c, StoringRole(what, role))
      ensures if cfg.contract then Encodes(NumberOf(onChain, Address(what)), role) else role == Viewer
      ensures RoleIn(cfg, old(Model()), Address(what), ChainId(what), role) && old(trace) <= trace
    {
      hide Execute, SessionInv, Next, Address, Since;
      SessionsHonoured();
      role := if cfg.contract then ChainRole(onChain, Address(what)) else Viewer;
      NextIs(cfg, Model(), AskChain(c));
      Act(c, AskChain(c), m, t);
    }

    /** Stores the role in the cache and goes on with it. */
    method KeepRole(c: nat, what: Purpose, role: Role, ghost m: State, ghost t: seq<Action>)
      requires Valid() && Since(c, m, t) && At(c, StoringRole(what, role))
      modifies this`wallets, this`trace
      ensures Grows(old(Model()), Model())
      ensures Valid() && Since(c, m, t)
      ensures wallets == StoreRole(old(wallets), Address(what), role, clock)
      ensures PcOf(Model(), c) == PcOf(WithRole(old(Model()), c, what, role), c)
      ensures old(trace) <= trace
    {
      hide StoreRole, Execute, SessionInv, Next, Since, WithRole, Address;
      SessionsHonoured();
      ghost var before := Model();
      NextIs(cfg, Model(), SaveRole(c));
      SaveRoleIs(before, c, what, role);
      wallets := StoreRole(wallets, Address(what), role, clock);
      Act(c, SaveRole(c), m, t);
    }

    lemma SaveRoleIs(s: State, c: nat, what: Purpose, role: Role)
      requires PcOf(s, c) == Some(StoringRole(what, role))
      ensures var u := SaveRoleStep(s, c);
              && u == s.(wallets := StoreRole(s.wallets, Address(what), role, s.clock), pcs := u.pcs)
              && PcOf(u, c) == PcOf(WithRole(s, c, what, role), c)
    {
      hide StoreRole, Address;
    }

    /**
     * The cached role while it is fresh, else the chain's, stored on the way; None when a remote
     * call or a statement fails.
     */
    method ResolveRole(c: nat, what: Purpose, ghost m: State, ghost t: seq<Action>) returns (role: Option<Role>)
      requires Valid() && Since(c, m, t) && At(c, LoadingRole(what))
      modifies this
      ensures Grows(old(Model()), Model()) && old(trace) <= trace
      ensures Valid() && Since(c, m, t)
      ensures role.Some? ==> RoleSeen(cfg, init, Address(what), ChainId(what), role.value, t, trace)
      ensures role.Some? ==> PcOf(Model(), c) == PcOf(WithRole(old(Model()), c, what, role.value), c)
    {
      hide Execute, IsInit, Since, Grows, RoleIn, RoleSeen, WithRole, StoreRole, ChainRole, Address;
      ghost var start := Model();
      var down := Reach(c, m, t);
      if down {
        return None;
      }
      SincePrefix(c, m, t);
      ghost var s0, t0 := Model(), trace;
      role := LoadCachedRole(c, what, m, t);
      GrowsTrans(start, s0, Model());
      if role.Some? {
        SeenNow(what, role.value, t, t0);
        WithRoleSame(start, s0, c, what, role.value);
        return;
      }
      ghost var s1 := Model();
      Await(c, m, t);
      GrowsTrans(start, s1, Model());
      role := FetchRole(c, what, m, t, start);
    }

    /** The chain's role, stored on the way; None when a remote call or a statement fails. */
    method FetchRole(c: nat, what: Purpose, ghost m: State, ghost t: seq<Action>, ghost s0: State)
      returns (role: Option<Role>)
      requires Valid() && Since(c, m, t) && At(c, AskingChain(what)) && Grows(s0, Model())
      modifies this
      ensures Valid() && Since(c, m, t) && Grows(s0, Model()) && old(trace) <= trace
      ensures role.Some? ==> RoleSeen(cfg, init, Address(what), ChainId(what), role.value, t, trace)
      ensures role.Some? ==> PcOf(Model(), c) == PcOf(WithRole(s0, c, what, role.value), c)
    {
      hide Execute, IsInit, Since, Grows, RoleIn, RoleSeen, WithRole, StoreRole, ChainRole, Address;
      ghost var s1 := Model();
      var fails: bool := *;
      if fails {
        Stop(c, m, t);
        GrowsTrans(s0, s1, Model());
        return None;
      }
      ghost var t1 := trace;
      SincePrefix(c, m, t);
      var found := AskForRole(c, what, m, t);
      SeenNow(what, found, t, t1);
      ghost var s2, t2 := Model(), trace;
      GrowsTrans(s0, s1, s2);
      Await(c, m, t);
      ghost var s3 := Model();
      GrowsTrans(s0, s2, s3);
      fails := *;
      if fails {
        Stop(c, m, t);
        GrowsTrans(s0, s3, Model());
        return None;
      }
      KeepRole(c, what, found, m, t);
      GrowsTrans(s0, s3, Model());
      WithRoleSame(s0, s3, c, what, found);
      RoleSeenStays(cfg, init, Address(what), ChainId(what), found, t, t2, trace);
      return Some(found);
    }

    lemma SincePrefix(c: nat, m: State, t: seq<Action>)
      requires Since(c, m, t)
      ensures t <= trace
    {
    }

    lemma SeenNow(what: Purpose, role: Role, t: seq<Action>, steps: seq<Action>)
      requires t <= steps <= trace && RoleIn(cfg, Execute(cfg, init, steps), Address(what), ChainId(what), role)
      ensures RoleSeen(cfg, init, Address(what), ChainId(what), role, t, trace)
    {
      hide RoleIn;
      assert trace[..|steps|] == steps;
    }

    /** Where a caller goes with its role does not depend on the tables. */
    lemma WithRoleSame(s: State, u: State, c: nat, what: Purpose, role: Role)
      ensures PcOf(WithRole(s, c, what, role), c) == PcOf(WithRole(u, c, what, role), c)
    {
    }

    /** The second store of the role, whose failure is ignored. */
    method RestampRole(c: nat, out: Outcome, ghost m: State, ghost t: seq<Action>)
      requires Valid() && Since(c, m, t) && At(c, Restamping(out))
      modifies this`wallets, this`trace
      ensures old(trace) <= trace
      ensures Valid() && Since(c, m, t)
      ensures Grows(old(Model()), Model())
      ensures At(c, if out.kind.ViaRefresh? then Answering(out) else Consuming(out))
      ensures wallets == old(wallets) || wallets == StoreRole(old(wallets), out.address, out.role, clock)
    {
      hide StoreRole, Execute, SessionInv, Next, Since;
      SessionsHonoured();
      var lost: bool := *;
      if !lost {
        wallets := StoreRole(wallets, out.address, out.role, clock);
      }
      NextIs(cfg, Model(), Restamp(c, lost));
      Act(c, Restamp(c, lost), m, t);
    }

    /** The row of a wallet: its user and its address. */
    ghost predicate Owns(user: int, wallet: int, address: int)
      reads this`wallets
    {
      wallet in wallets && wallets[wallet].user == user && wallets[wallet].address == address
    }

    lemma OwnsStays(s: State, user: int, wallet: int, address: int)
      requires Valid() && Grows(s, Model())
      requires wallet in s.wallets && s.wallets[wallet].user == user && s.wallets[wallet].address == address
      ensures Owns(user, wallet, address)
    {
    }

    lemma SessionStays(s: State, id: int)
      requires Valid() && Grows(s, Model()) && id in s.sessions
      ensures id in sessions && sessions[id].user == s.sessions[id].user && sessions[id].wallet == s.sessions[id].wallet
      ensures sessions[id].hash == s.sessions[id].hash
      ensures s.sessions[id].revokedAt.Some? ==> sessions[id].revokedAt.Some?
    {
    }

    lemma SinceIsHarmless(c: nat, nonce: int, m: State, t: seq<Action>)
      requires Since(c, m, t)
      ensures Harmless(c, nonce, m, t)
    {
      NothingSpent(cfg, init, c, nonce, t, trace);
    }

    /** A session that is new now was not there at the start either. */
    lemma StartedWith(c: nat, m: State, t: seq<Action>, id: int)
      requires Valid() && Since(c, m, t)
      ensures id in m.sessions ==> id in sessions
    {
    }

    // ----- Login -----

    /** The end of a login or a link: the role is stored again, and Ok comes only after the nonce is consumed. */
    method SpendAndAnswer(c: nat, out: Outcome, ghost m: State, ghost t: seq<Action>) returns (err: Option<AuthError>)
      requires Valid() && Since(c, m, t) && At(c, Restamping(out)) && !out.kind.ViaRefresh?
      modifies this
      ensures Valid() && Grows(old(Model()), Model()) && old(trace) <= trace
      ensures err.None? ==> Answered(c, out, m, t)
      ensures err == None || err == Some(NonceExpired) || err == Some(Internal)
      ensures err.Some? ==>
          Harmless(c, out.nonce, m, t) || (err == Some(Internal) && out.kind.ViaLogin? && Spending(c, out.nonce, m, t))
    {
      hide Execute, IsInit, Since, Grows, Answered, Harmless, StoreRole, Spending;
      ghost var s0 := Model();
      RestampRole(c, out, m, t);
      ghost var s1 := Model();
      Await(c, m, t);
      ghost var s2 := Model();
      err := ConsumeAndAnswer(c, out, m, t);
      GrowsTrans(s0, s1, s2);
      GrowsTrans(s0, s2, Model());
    }

    /** The first lookup of a login's wallet. */
    method FindLoginWallet(c: nat, req: Request, role: Role, ghost m: State, ghost t: seq<Action>)
      returns (row: Option<int>)
      requires Valid() && Since(c, m, t) && At(c, FindingWallet(req, role))
      modifies this`trace
      ensures old(trace) <= trace
      ensures Valid() && Since(c, m, t)
      ensures row.None? ==> At(c, AddingWallet(req, role))
      ensures row.None? ==> forall w :: w in wallets ==> wallets[w].address != req.address
      ensures trace == old(trace) + [FindWallet(c, row)]
      ensures row.Some? ==> row.value in wallets && wallets[row.value].address == req.address
      ensures row.Some? ==> At(c, CreatingSession(req, role, wallets[row.value].user, row.value))
    {
      hide Execute, SessionInv, Next, Since;
      SessionsHonoured();
      row := FindRow(req.address);
      NextIs(cfg, Model(), FindWallet(c, row));
      Act(c, FindWallet(c, row), m, t);
    }

    /** The transaction that creates a user and its wallet; None on a conflict. */
    method AddLoginWallet(c: nat, req: Request, role: Role, user: int, wallet: int, ghost m: State,
        ghost t: seq<Action>)
      returns (ok: bool)
      requires Valid() && Since(c, m, t) && At(c, AddingWallet(req, role))
      modifies this`wallets, this`trace
      ensures old(trace) <= trace
      ensures Valid() && Since(c, m, t)
      ensures ok ==> At(c, CreatingSession(req, role, user, wallet)) && Owns(user, wallet, req.address)
      ensures ok <==> wallet !in old(wallets) && forall w :: w in old(wallets) ==>
                !(old(wallets)[w].address == req.address && old(wallets)[w].chainId == req.chainId)
      ensures wallets ==
                if ok then old(wallets)[wallet := WalletRow(user, req.address, req.chainId, None)] else old(wallets)
    {
      hide Execute, SessionInv, Next, Since;
      SessionsHonoured();
      ok := !(wallet in wallets || WalletTaken(wallets, req.address, req.chainId));
      if ok {
        wallets := wallets[wallet := WalletRow(user, req.address, req.chainId, None)];
      }
      NextIs(cfg, Model(), AddWallet(c, user, wallet));
      Act(c, AddWallet(c, user, wallet), m, t);
    }

    /** Since then caller c created no user with a wallet. */
    ghost predicate AddedNothing(c: nat, t: seq<Action>)
      reads this`trace
    {
      t <= trace && forall k :: |t| <= k < |trace| && trace[k].AddWallet? ==> trace[k].c != c
    }

    /** An address that had a row still has one. */
    lemma KnownStays(s: State, address: int)
      requires Valid() && Grows(s, Model())
      ensures (exists w :: w in s.wallets && s.wallets[w].address == address) ==>
                exists w :: w in wallets && wallets[w].address == address
    {
      if w :| w in s.wallets && s.wallets[w].address == address {
        assert w in wallets && wallets[w].address == address;
      }
    }

    /** The wallet row of the address, created with its user only when there is none. */
    method UpsertUserWallet(c: nat, req: Request, role: Role, newUser: int, newWallet: int, ghost m: State,
        ghost t: seq<Action>)
      returns (ids: Option<(int, int)>)
      requires Valid() && Since(c, m, t) && At(c, FindingWallet(req, role))
      modifies this
      ensures old(trace) <= trace
      ensures Valid() && Since(c, m, t)
      ensures ids.Some? ==> At(c, CreatingSession(req, role, ids.value.0, ids.value.1))
      ensures ids.Some? ==> Owns(ids.value.0, ids.value.1, req.address)
      ensures ids.Some? && (exists w :: w in old(wallets) && old(wallets)[w].address == req.address) ==>
                AddedNothing(c, old(trace))
    {
      hide Execute, IsInit, Since, Grows, Agrees, WalletTaken;
      ghost var s0 := Model();
      TablesAre();
      var cut := Reach(c, m, t);
      if cut {
        return None;
      }
      KnownStays(s0, req.address);
      var row := FindLoginWallet(c, req, role, m, t);
      if row.Some? {
        return Some((wallets[row.value].user, row.value));
      }
      var down := Reach(c, m, t);
      if down {
        return None;
      }
      var ok := AddLoginWallet(c, req, role, newUser, newWallet, m, t);
      return if ok then Some((newUser, newWallet)) else None;
    }

    /** The rest of a login, once the role is known. */
    method OpenSession(c: nat, req: Request, role: Role, newUser: int, newWallet: int, newSession: int, newToken: int,
                       ghost m: State, ghost t: seq<Action>) returns (r: Result<LoginAnswer, AuthError>)
      requires Valid() && Since(c, m, t) && At(c, FindingWallet(req, role))
      modifies this
      ensures Valid() && old(trace) <= trace
      ensures r.Ok? ==> r.value == LoginAnswer(newSession, newToken, role) && LoggedIn(c, req, r.value, m, t)
      ensures r.Err? ==> Harmless(c, req.nonce, m, t) || (r.error == Internal && Spending(c, req.nonce, m, t))
    {
      hide Execute, IsInit, Since, Grows, Answered, Harmless, CanInsert, Agrees, Spending;
      var upserted := UpsertUserWallet(c, req, role, newUser, newWallet, m, t);
      if upserted.None? {
        SinceIsHarmless(c, req.nonce, m, t);
        return Err(Internal);
      }
      var (user, wallet) := upserted.value;
      ghost var s1 := Model();
      assert wallet in s1.wallets && s1.wallets[wallet] == wallets[wallet] by { TablesAre(); }
      var down := Reach(c, m, t);
      if down {
        SinceIsHarmless(c, req.nonce, m, t);
        return Err(Internal);
      }
      TablesAre();
      ghost var s2 := Model();
      StartedWith(c, m, t, newSession);
      var created := DoCreateSession(c, req, role, user, wallet, newSession, newToken, m, t);
      if !created {
        SinceIsHarmless(c, req.nonce, m, t);
        return Err(Internal);
      }
      TablesAre();
      ghost var s3 := Model();
      Await(c, m, t);
      ghost var s4 := Model();
      var out := Outcome(ViaLogin, req.nonce, req.address, role, newSession, user, wallet);
      var spent := SpendAndAnswer(c, out, m, t);
      if spent.Some? {
        return Err(spent.value);
      }
      GrowsTrans(s3, s4, Model());
      SessionStays(s3, newSession);
      GrowsTrans(s1, s2, s3);
      GrowsTrans(s1, s3, Model());
      OwnsStays(s1, user, wallet, req.address);
      return Ok(LoginAnswer(newSession, newToken, role));
    }

    lemma TablesAre()
      requires Valid()
      ensures Model().wallets == wallets && Model().sessions == sessions && Model().nonces == nonces
          && Model().clock == clock
    {
    }

    /**
     * What an Ok login means: the signature matched, the caller consumed its nonce while it was
     * free and answered once, the session is new since the start and carries the new token, and
     * it belongs to the user and wallet of the address.
     */
    ghost predicate LoggedIn(c: nat, req: Request, a: LoginAnswer, m: State, t: seq<Action>)
      reads this
    {
      && a.session !in m.sessions && a.session in sessions && sessions[a.session].hash == Hashed(a.token)
      && var row := sessions[a.session];
         && Owns(row.user, row.wallet, req.address)
         && Answered(c, Outcome(ViaLogin, req.nonce, req.address, a.role, a.session, row.user, row.wallet), m, t)
    }

    /**
     * Login by one caller, start to end, among any steps of others; each of its statements and
     * remote calls can fail to run.  The role in the answer was seen during the call.  An error
     * grants nothing, and it leaves the nonce to others unless the token could not be signed.
     */
    method Login(c: nat, req: Request, newUser: int, newWallet: int, newSession: int, newToken: int)
      returns (r: Result<LoginAnswer, AuthError>)
      requires Valid() && c !in Model().pcs
      modifies this
      ensures Valid()
      ensures r.Ok? ==> req.signed && r.value.session == newSession && r.value.token == newToken
      ensures r.Ok? ==> LoggedIn(c, req, r.value, old(Model()), old(trace))
      ensures r.Ok? ==> RoleSeen(cfg, init, req.address, req.chainId, r.value.role, old(trace), trace)
      ensures r.Ok? ==> Stood(cfg, init, req.nonce, old(trace), trace)
      ensures r.Err? ==>
                || Harmless(c, req.nonce, old(Model()), old(trace))
                || (r.error == Internal && Spending(c, req.nonce, old(Model()), old(trace)))
    {
      hide Execute, IsInit, Since, Grows, Harmless, LoggedIn, NonceError, RoleSeen, Agrees, Spending, Stood;
      ghost var m, t := Model(), trace;
      Enter(c, Checking(req, None));
      var down := Reach(c, m, t);
      if down {
        SinceIsHarmless(c, req.nonce, m, t);
        return Err(Internal);
      }
      var bad := CheckRequest(c, req, None, m, t);
      if bad.Some? {
        SinceIsHarmless(c, req.nonce, m, t);
        return Err(bad.value);
      }
      ghost var checked := trace;
      var role := ResolveRole(c, ForLogin(req), m, t);
      if role.None? {
        SinceIsHarmless(c, req.nonce, m, t);
        return Err(Internal);
      }
      ghost var seen := trace;
      r := OpenSession(c, req, role.value, newUser, newWallet, newSession, newToken, m, t);
      RoleSeenStays(cfg, init, req.address, req.chainId, role.value, t, seen, trace);
      StoodStays(cfg, init, req.nonce, t, checked, trace);
    }

    /** A caller starts. */
    method Enter(c: nat, pc: Pc)
      requires Valid() && c !in Model().pcs && IsEntry(pc)
      modifies this`trace
      ensures Valid() && Since(c, old(Model()), old(trace)) && At(c, pc) && trace == old(trace) + [Start(c, pc)]
    {
      hide Execute, SessionInv, Next, IsEntry;
      SessionsHonoured();
      ghost var m, t := Model(), trace;
      NextIs(cfg, Model(), Start(c, pc));
      Act(c, Start(c, pc), m, t);
    }

    // ----- Link -----

    /** Who owns the address? */
    method FindOwnerRow(c: nat, req: Request, user: int, ghost m: State, ghost t: seq<Action>)
      returns (row: Option<int>)
      requires Valid() && Since(c, m, t) && At(c, FindingOwner(req, user))
      modifies this`trace
      ensures Valid() && Since(c, m, t) && trace == old(trace) + [FindOwner(c, row)]
      ensures row.None? ==> At(c, LinkingWallet(req, user))
      ensures row.Some? ==> row.value in wallets && wallets[row.value].address == req.address
      ensures row.Some? && wallets[row.value].user == user ==>
                At(c, Consuming(Outcome(ViaLink, req.nonce, req.address, NoRole, 0, user, row.value)))
    {
      hide Execute, SessionInv, Next, Since;
      SessionsHonoured();
      row := FindRow(req.address);
      NextIs(cfg, Model(), FindOwner(c, row));
      Act(c, FindOwner(c, row), m, t);
    }

    /** The insert of a wallet nobody has yet; false on a conflict. */
    method InsertLinked(c: nat, req: Request, user: int, wallet: int, ghost m: State, ghost t: seq<Action>)
      returns (ok: bool)
      requires Valid() && Since(c, m, t) && At(c, LinkingWallet(req, user))
      modifies this`wallets, this`trace
      ensures Valid() && Since(c, m, t) && old(trace) <= trace
      ensures ok ==> At(c, LoadingRole(ForLink(req, user, wallet))) && Owns(user, wallet, req.address)
      ensures ok <==> wallet !in old(wallets) && forall w :: w in old(wallets) ==>
                !(old(wallets)[w].address == req.address && old(wallets)[w].chainId == req.chainId)
      ensures wallets ==
                if ok then old(wallets)[wallet := WalletRow(user, req.address, req.chainId, None)] else old(wallets)
    {
      hide Execute, SessionInv, Next, Since;
      SessionsHonoured();
      ok := !(wallet in wallets || WalletTaken(wallets, req.address, req.chainId));
      if ok {
        wallets := wallets[wallet := WalletRow(user, req.address, req.chainId, None)];
      }
      NextIs(cfg, Model(), LinkWallet(c, wallet));
      Act(c, LinkWallet(c, wallet), m, t);
    }

    /**
     * Linking an address the user has already: the nonce is consumed, and the row is read again.
     * That read takes any row of the address; when it fails to run, the nonce is gone for nothing.
     */
    method LinkAgain(c: nat, out: Outcome, ghost m: State, ghost t: seq<Action>) returns (r: Result<int, AuthError>)
      requires Valid() && Since(c, m, t) && At(c, Consuming(out)) && Owns(out.user, out.wallet, out.address)
      modifies this
      ensures Valid() && old(trace) <= trace
      ensures r.Ok? ==> Answered(c, out, m, t) && Owns(out.user, out.wallet, out.address)
      ensures r.Ok? ==> r.value in wallets && wallets[r.value].address == out.address
      ensures r.Err? ==> r.error == NonceExpired || r.error == Internal
      ensures r.Err? ==>
                || Harmless(c, out.nonce, m, t)
                || (r.error == Internal && Spending(c, out.nonce, m, t) && Owns(out.user, out.wallet, out.address))
    {
      hide Execute, IsInit, Since, Grows, Spent, Answered, Harmless, Agrees, Spending;
      ghost var s0 := Model();
      TablesAre();
      var err := DoConsume(c, out, m, t);
      if err.Some? {
        return Err(err.value);
      }
      ghost var s1, steps := Model(), trace;
      SpendingMeans(c, out.nonce, m, t);
      Others(c);
      SpendingStays(c, out.nonce, m, t, s1, steps);
      GrowsTrans(s0, s1, Model());
      UsedGrows(s1, Model());
      OwnsStays(s0, out.user, out.wallet, out.address);
      var fails: bool := *;
      if fails {
        GiveUp(c, out.nonce, m, t);
        return Err(Internal);
      }
      var row := FindRow(out.address);
      TablesAre();
      GiveAnswer(c, out, |s0.used|, m, t);
      return Ok(row.value);
    }

    lemma SpendingMeans(c: nat, nonce: int, m: State, t: seq<Action>)
      requires Spending(c, nonce, m, t)
      ensures t <= trace && Deliver(c) !in trace[|t|..] && Spent(cfg, init, c, nonce, t, trace) && Grows(m, Model())
    {
    }

    /** The caller ends with its nonce consumed and nothing answered. */
    method GiveUp(c: nat, nonce: int, ghost m: State, ghost t: seq<Action>)
      requires Valid() && Spending(c, nonce, m, t) && c in Model().pcs
      modifies this`trace
      ensures Valid() && Spending(c, nonce, m, t) && trace == old(trace) + [Fail(c)] && Grows(old(Model()), Model())
    {
      hide Execute, SessionInv, Grows, Spent;
      SessionsHonoured();
      ghost var before, steps := Model(), trace;
      Record(Fail(c));
      GrowsTrans(m, before, Model());
      SpendingLasts(cfg, init, c, nonce, t, steps, trace);
      assert trace[|t|..] == steps[|t|..] + [Fail(c)];
    }

    /** Linking an address nobody has yet: insert it, look its role up, and spend the nonce. */
    method LinkNew(c: nat, req: Request, user: int, newWallet: int, ghost m: State, ghost t: seq<Action>)
      returns (r: Result<int, AuthError>, ghost out: Outcome)
      requires Valid() && Since(c, m, t) && At(c, LinkingWallet(req, user))
      modifies this
      ensures Valid() && old(trace) <= trace
      ensures r.Ok? ==> out.kind.ViaLink? && out.nonce == req.nonce && out.address == req.address && out.user == user
      ensures r.Err? ==> r.error == NonceExpired || r.error == Internal
      ensures r.Ok? ==> r.value == out.wallet && Answered(c, out, m, t) && Owns(user, out.wallet, req.address)
      ensures r.Err? ==> Harmless(c, req.nonce, m, t)
    {
      hide Execute, IsInit, Since, Grows, Answered, Harmless, Agrees, WalletTaken, RoleSeen;
      out := Outcome(ViaLink, req.nonce, req.address, NoRole, 0, user, newWallet);
      var inserted := InsertLinked(c, req, user, newWallet, m, t);
      if !inserted {
        SinceIsHarmless(c, req.nonce, m, t);
        return Err(Internal), out;
      }
      TablesAre();
      r, out := LinkInserted(c, req, user, newWallet, m, t);
    }

    /** The rest of it, once the wallet row is there. */
    method LinkInserted(c: nat, req: Request, user: int, wallet: int, ghost m: State, ghost t: seq<Action>)
      returns (r: Result<int, AuthError>, ghost out: Outcome)
      requires Valid() && Since(c, m, t) && At(c, LoadingRole(ForLink(req, user, wallet)))
          && Owns(user, wallet, req.address)
      modifies this
      ensures Valid() && old(trace) <= trace
      ensures r.Ok? ==> out.kind.ViaLink? && out.nonce == req.nonce && out.address == req.address && out.user == user
      ensures r.Err? ==> r.error == NonceExpired || r.error == Internal
      ensures r.Ok? ==> r.value == out.wallet && Answered(c, out, m, t) && Owns(user, out.wallet, req.address)
      ensures r.Err? ==> Harmless(c, req.nonce, m, t)
    {
      hide Execute, IsInit, Since, Grows, Answered, Harmless, Agrees, RoleSeen;
      TablesAre();
      ghost var s0 := Model();
      out := Outcome(ViaLink, req.nonce, req.address, NoRole, 0, user, wallet);
      var role := ResolveRole(c, ForLink(req, user, wallet), m, t);
      if role.None? {
        SinceIsHarmless(c, req.nonce, m, t);
        return Err(Internal), out;
      }
      ghost var s2 := Model();
      Await(c, m, t);
      ghost var s3 := Model();
      out := Outcome(ViaLink, req.nonce, req.address, role.value, 0, user, wallet);
      var spent := SpendAndAnswer(c, Outcome(ViaLink, req.nonce, req.address, role.value, 0, user, wallet), m, t);
      if spent.Some? {
        return Err(spent.value), out;
      }
      GrowsTrans(s0, s2, s3);
      GrowsTrans(s0, s3, Model());
      OwnsStays(s0, user, wallet, req.address);
      return Ok(wallet), out;
    }

    /**
     * The one way in which a link fails after its nonce is gone: the user had a row of the
     * address, the nonce was consumed for it, and then the row could not be read.
     */
    ghost predicate SpentForNothing(c: nat, req: Request, user: int, wallet: int, m: State, t: seq<Action>)
      reads this`trace, this`wallets
    {
      && Spending(c, req.nonce, m, t)
      && FindOwner(c, Some(wallet)) in trace[|t|..] && Owns(user, wallet, req.address)
    }

    /**
     * Linking a wallet to a user, start to end, among any steps of others; each of its statements
     * and remote calls can fail to run.  Ok means that the signature matched, that the nonce was
     * consumed while it was free, that the caller answered once, and that the user owns a row of
     * the address; the row returned is one of the address.  An error grants nothing, and it
     * leaves the nonce to others unless the second read of an owned row failed.
     */
    method LinkWalletToUser(c: nat, req: Request, user: int, newWallet: int)
      returns (r: Result<int, AuthError>, ghost out: Outcome)
      requires Valid() && c !in Model().pcs
      modifies this
      ensures Valid()
      ensures r.Ok? ==> req.signed && out.kind.ViaLink? && out.nonce == req.nonce && out.address == req.address
      ensures r.Ok? ==> Answered(c, out, old(Model()), old(trace)) && Owns(user, out.wallet, req.address)
      ensures r.Ok? ==> r.value in wallets && wallets[r.value].address == req.address
      ensures r.Ok? ==> Stood(cfg, init, req.nonce, old(trace), trace)
      ensures r == Err(WalletAlreadyLinked) ==> OwnedByOther(user, req.address)
      ensures r.Err? ==>
                || Harmless(c, req.nonce, old(Model()), old(trace))
                || (r.error == Internal && SpentForNothing(c, req, user, out.wallet, old(Model()), old(trace)))
    {
      hide Execute, IsInit, Since, Grows, Harmless, Answered, NonceError, Agrees, SpentForNothing, Stood;
      ghost var m, t := Model(), trace;
      out := Outcome(ViaLink, req.nonce, req.address, NoRole, 0, user, newWallet);
      Enter(c, Checking(req, Some(user)));
      var down := Reach(c, m, t);
      if down {
        SinceIsHarmless(c, req.nonce, m, t);
        return Err(Internal), out;
      }
      var bad := CheckRequest(c, req, Some(user), m, t);
      if bad.Some? {
        SinceIsHarmless(c, req.nonce, m, t);
        return Err(bad.value), out;
      }
      ghost var checked := trace;
      down := Reach(c, m, t);
      if down {
        SinceIsHarmless(c, req.nonce, m, t);
        return Err(Internal), out;
      }
      r, out := LinkChecked(c, req, user, newWallet, m, t);
      StoodStays(cfg, init, req.nonce, t, checked, trace);
    }

    /** Another user has a row of the address. */
    ghost predicate OwnedByOther(user: int, address: int)
      reads this`wallets
    {
      exists w :: w in wallets && wallets[w].address == address && wallets[w].user != user
    }

    /** The rest of a link, once nonce and signature are checked. */
    method LinkChecked(c: nat, req: Request, user: int, newWallet: int, ghost m: State, ghost t: seq<Action>)
      returns (r: Result<int, AuthError>, ghost out: Outcome)
      requires Valid() && Since(c, m, t) && At(c, FindingOwner(req, user))
      modifies this
      ensures Valid() && old(trace) <= trace
      ensures r.Ok? ==> out.kind.ViaLink? && out.nonce == req.nonce && out.address == req.address
      ensures r.Ok? ==> Answered(c, out, m, t) && Owns(user, out.wallet, req.address)
      ensures r.Ok? ==> r.value in wallets && wallets[r.value].address == req.address
      ensures r == Err(WalletAlreadyLinked) ==> OwnedByOther(user, req.address)
      ensures r.Err? ==>
                || Harmless(c, req.nonce, m, t)
                || (r.error == Internal && SpentForNothing(c, req, user, out.wallet, m, t))
    {
      hide Execute, IsInit, Since, Grows, Answered, Harmless, Agrees, Spending;
      out := Outcome(ViaLink, req.nonce, req.address, NoRole, 0, user, newWallet);
      SincePrefix(c, m, t);
      var row := FindOwnerRow(c, req, user, m, t);
      ghost var found := trace;
      if row.Some? {
        if wallets[row.value].user != user {
          SinceIsHarmless(c, req.nonce, m, t);
          OtherOwns(user, row.value, req.address);
          return Err(WalletAlreadyLinked), out;
        }
        out := Outcome(ViaLink, req.nonce, req.address, NoRole, 0, user, row.value);
        ghost var s0 := Model();
        TablesAre();
        Await(c, m, t);
        OwnsStays(s0, user, row.value, req.address);
        r := LinkAgain(c, Outcome(ViaLink, req.nonce, req.address, NoRole, 0, user, row.value), m, t);
        StepStays(t, found, FindOwner(c, row));
        return;
      }
      var down := Reach(c, m, t);
      if down {
        SinceIsHarmless(c, req.nonce, m, t);
        return Err(Internal), out;
      }
      r, out := LinkNew(c, req, user, newWallet, m, t);
    }

    lemma OtherOwns(user: int, w: int, address: int)
      requires w in wallets && wallets[w].address == address && wallets[w].user != user
      ensures OwnedByOther(user, address)
    {
    }

    /** A step once recorded after a moment stays recorded. */
    lemma StepStays(t: seq<Action>, steps: seq<Action>, a: Action)
      requires |t| < |steps| && t <= steps <= trace && steps[|steps| - 1] == a
      ensures t <= trace && a in trace[|t|..]
    {
      assert trace[|t|..][|steps| - 1 - |t|] == a;
    }

    // ----- Refresh -----

    /** The locked transaction of a refresh; `id` is the session it revokes.  It may fail to begin or to commit. */
    method RotateTokens(c: nat, token: int, newId: int, newToken: int, ghost m: State, ghost t: seq<Action>)
      returns (found: Result<SessionRow, AuthError>, ghost id: int)
      requires Valid() && Since(c, m, t) && At(c, Rotating(token))
      modifies this`sessions, this`trace
      ensures Valid() && Since(c, m, t)
      ensures found.Ok? ==> Rotated(old(sessions), sessions, id, token, newId, newToken, clock, cfg.refreshTtl)
      ensures found.Ok? ==> found.value == old(sessions)[id] && Model().rotated == old(Model()).rotated + [token]
      ensures found.Ok? ==> At(c, ReadingWallet(newId, found.value.user, found.value.wallet))
      ensures found.Err? ==> sessions == old(sessions) && trace == old(trace) + [Fail(c)]
      ensures found.Err? ==> found.error == RefreshTokenInvalid || found.error == Internal
      ensures found != Err(Internal) ==>
                (found.Ok? <==> exists s :: s in old(sessions) && old(sessions)[s].hash == Hashed(token)
                                  && old(sessions)[s].revokedAt.None? && clock <= old(sessions)[s].expiresAt)
    {
      hide Execute, SessionInv, Next, Since;
      SessionsHonoured();
      var fails: bool := *;
      if fails {
        Stop(c, m, t);
        return Err(Internal), 0;
      }
      if s :| s in sessions && sessions[s].hash == Hashed(token) {
        id := s;
        OnlyOneOf(s, token);
        if sessions[s].revokedAt.Some? || sessions[s].expiresAt < clock {
          Stop(c, m, t);
          return Err(RefreshTokenInvalid), s;
        }
        assert CanRotate(old(sessions), s, token, clock);
        if !CanInsert(sessions, newId, Hashed(newToken)) {
          Stop(c, m, t);
          return Err(Internal), s;
        }
        var row := sessions[s];
        NextIs(cfg, Model(), Rotate(c, s, newId, newToken));
        sessions := sessions[s := row.(revokedAt := Some(clock))];
        sessions := sessions[newId := SessionRow(row.user, row.wallet, clock + cfg.refreshTtl, Hashed(newToken), None)];
        Act(c, Rotate(c, s, newId, newToken), m, t);
        return Ok(row), s;
      }
      Stop(c, m, t);
      return Err(RefreshTokenInvalid), 0;
    }

    /** At most one session carries a token. */
    lemma OnlyOneOf(id: int, token: int)
      requires Valid() && id in sessions && sessions[id].hash == Hashed(token)
      ensures forall s :: s in sessions && sessions[s].hash == Hashed(token) ==> s == id
    {
      SessionsHonoured();
      assert HashesUnique(Model().sessions);
      hide Execute;
    }

    /** The wallet row of the rotated session. */
    method ReadWalletRow(c: nat, session: int, user: int, wallet: int, ghost m: State, ghost t: seq<Action>)
      returns (row: Option<WalletRow>)
      requires Valid() && Since(c, m, t) && At(c, ReadingWallet(session, user, wallet))
      modifies this`trace
      ensures Valid() && Since(c, m, t) && Grows(old(Model()), Model())
      ensures row == if wallet in wallets then Some(wallets[wallet]) else None
      ensures row.Some? ==> At(c, LoadingRole(ForRefresh(session, user, wallet, row.value.address, row.value.chainId)))
    {
      hide Execute, SessionInv, Next, Since;
      SessionsHonoured();
      row := if wallet in wallets then Some(wallets[wallet]) else None;
      NextIs(cfg, Model(), ReadWallet(c));
      Act(c, ReadWallet(c), m, t);
    }

    /** The access token at the end of a refresh. */
    method GiveToken(c: nat, out: Outcome, ghost m: State, ghost t: seq<Action>)
      requires Valid() && Since(c, m, t) && At(c, Answering(out)) && out.kind.ViaRefresh?
      modifies this`trace
      ensures old(trace) <= trace
      ensures Valid() && Since(c, m, t) && Grows(old(Model()), Model())
      ensures Model().tokens == old(Model()).tokens + [TokenRole(out.address, out.role)]
    {
      hide Execute, SessionInv, Next, Since;
      SessionsHonoured();
      NextIs(cfg, Model(), Answer(c));
      Act(c, Answer(c), m, t);
    }

    /**
     * The role for the new access token: looked up, stored again and put into the token; None
     * when a statement or a remote call fails to run.
     */
    method FinishRefresh(c: nat, session: int, user: int, wallet: int, ghost m: State, ghost t: seq<Action>)
      returns (role: Option<Role>)
      requires Valid() && Since(c, m, t) && At(c, ReadingWallet(session, user, wallet))
      modifies this
      ensures Grows(old(Model()), Model())
      ensures Valid() && Since(c, m, t)
      ensures role.Some? ==> wallet in wallets && LastToken(TokenRole(wallets[wallet].address, role.value))
      ensures role.Some? ==>
                RoleSeen(cfg, init, wallets[wallet].address, wallets[wallet].chainId, role.value, t, trace)
    {
      hide Execute, IsInit, Since, Grows, Agrees, RoleSeen;
      ghost var start := Model();
      var down := Reach(c, m, t);
      if down {
        return None;
      }
      ghost var reached := Model();
      var row := ReadWalletRow(c, session, user, wallet, m, t);
      GrowsTrans(start, reached, Model());
      if row.None? {
        return None;
      }
      TablesAre();
      ghost var s0 := Model();
      role := TokenFor(c, ForRefresh(session, user, wallet, row.value.address, row.value.chainId), m, t, s0);
      GrowsTrans(start, s0, Model());
      if role.Some? {
        RowStays(s0, wallet);
        TablesAre();
      }
    }

    lemma RowStays(s: State, wallet: int)
      requires Valid() && Grows(s, Model()) && wallet in s.wallets
      ensures wallet in wallets && wallets[wallet].address == s.wallets[wallet].address
      ensures wallets[wallet].chainId == s.wallets[wallet].chainId
    {
    }

    /** The newest access token handed out. */
    ghost predicate LastToken(token: TokenRole)
      reads this`trace
    {
      var issued := Model().tokens;
      issued != [] && issued[|issued| - 1] == token
    }

    /** The role lookup, the second store and the token of a refresh; signing may fail. */
    method TokenFor(c: nat, what: Purpose, ghost m: State, ghost t: seq<Action>, ghost s0: State)
      returns (role: Option<Role>)
      requires Valid() && Since(c, m, t) && what.ForRefresh? && At(c, LoadingRole(what)) && s0 == Model()
      modifies this
      ensures Valid() && Since(c, m, t) && Grows(s0, Model())
      ensures role.Some? ==> LastToken(TokenRole(what.address, role.value))
      ensures role.Some? ==> RoleSeen(cfg, init, Address(what), ChainId(what), role.value, t, trace)
    {
      hide Execute, IsInit, Since, Grows, Agrees, RoleSeen, StoreRole;
      role := ResolveRole(c, what, m, t);
      ghost var s2, seen := Model(), trace;
      if role.Some? {
        Await(c, m, t);
        ghost var s3 := Model();
        var out := Outcome(ViaRefresh, 0, what.address, role.value, what.session, what.user, what.wallet);
        RestampRole(c, out, m, t);
        ghost var s4 := Model();
        GrowsTrans(s0, s2, s3);
        GrowsTrans(s0, s3, s4);
        var down := Reach(c, m, t);
        ghost var s5 := Model();
        GrowsTrans(s0, s4, s5);
        if down {
          return None;
        }
        GiveToken(c, out, m, t);
        GrowsTrans(s0, s5, Model());
        RoleSeenStays(cfg, init, Address(what), ChainId(what), role.value, t, seen, trace);
      }
    }

    /**
     * What a rotation by this token leaves behind, whatever others do next: the session of the
     * token is revoked, and a session that was not there at the start carries the new token for
     * the same user and wallet.
     */
    ghost predicate Replaced(id: int, token: int, newId: int, newToken: int, m: State)
      reads this
    {
      && id in sessions && sessions[id].hash == Hashed(token) && sessions[id].revokedAt.Some?
      && newId !in m.sessions && newId in sessions && sessions[newId].hash == Hashed(newToken)
      && sessions[newId].user == sessions[id].user && sessions[newId].wallet == sessions[id].wallet
      && token in Model().rotated
    }

    lemma ReplacedNow(before: Sessions, id: int, token: int, newId: int, newToken: int, m: State, now: int)
      requires Valid() && Rotated(before, sessions, id, token, newId, newToken, now, cfg.refreshTtl)
      requires newId !in m.sessions && token in Model().rotated
      ensures Replaced(id, token, newId, newToken, m)
    {
    }

    lemma ReplacedStays(s: State, id: int, token: int, newId: int, newToken: int, m: State)
      requires Valid() && Grows(s, Model())
      requires id in s.sessions && s.sessions[id].hash == Hashed(token) && s.sessions[id].revokedAt.Some?
      requires newId !in m.sessions && newId in s.sessions && s.sessions[newId].hash == Hashed(newToken)
      requires s.sessions[newId].user == s.sessions[id].user && s.sessions[newId].wallet == s.sessions[id].wallet
      requires token in s.rotated
      ensures Replaced(id, token, newId, newToken, m)
    {
      SessionStays(s, id);
      SessionStays(s, newId);
      var k :| 0 <= k < |s.rotated| && s.rotated[k] == token;
      assert Model().rotated[k] == token by { RotatedGrows(s, Model()); }
    }

    lemma RotatedGrows(s: State, t: State)
      requires Grows(s, t)
      ensures s.rotated <= t.rotated
    {
    }

    /** Caller c rotated nothing since the first n steps. */
    ghost predicate RotatedNothing(c: nat, t: seq<Action>)
      reads this`trace
    {
      t <= trace && forall k :: |t| <= k < |trace| && trace[k].Rotate? ==> trace[k].c != c
    }

    /**
     * A refresh by one caller, among any steps of others.  Ok means that the old token's session
     * was rotated and that the last access token carries the role of its wallet's address; an
     * invalid token rotates nothing.  A refresh never spends a nonce and answers no login.
     */
    method RefreshSession(c: nat, token: int, newId: int, newToken: int)
      returns (r: Result<LoginAnswer, AuthError>, ghost id: int)
      requires Valid() && c !in Model().pcs
      modifies this
      ensures Valid() && Since(c, old(Model()), old(trace))
      ensures r.Ok? ==> r.value.session == newId && r.value.token == newToken
      ensures r.Ok? ==> Replaced(id, token, newId, newToken, old(Model()))
      ensures r == Err(Internal) ==> Replaced(id, token, newId, newToken, old(Model())) || RotatedNothing(c, old(trace))
      ensures r.Ok? ==> sessions[newId].wallet in wallets
      ensures r.Ok? ==> LastToken(TokenRole(wallets[sessions[newId].wallet].address, r.value.role))
      ensures r.Ok? ==> var w := wallets[sessions[newId].wallet];
                RoleSeen(cfg, init, w.address, w.chainId, r.value.role, old(trace), trace)
      ensures r.Err? ==> r.error == RefreshTokenInvalid || r.error == Internal
      ensures r == Err(RefreshTokenInvalid) ==> RotatedNothing(c, old(trace))
    {
      hide Execute, IsInit, Since, Grows, Agrees, Rotated, RoleSeen;
      ghost var m, t := Model(), trace;
      Enter(c, Rotating(token));
      Await(c, m, t);
      StartedWith(c, m, t, newId);
      ghost var before := sessions;
      var row;
      row, id := RotateTokens(c, token, newId, newToken, m, t);
      if row.Err? {
        return Err(row.error), id;
      }
      NewByRotation(before, sessions, id, token, newId, newToken, clock);
      ReplacedNow(before, id, token, newId, newToken, m, clock);
      ghost var s1 := Model();
      TablesAre();
      var role := FinishRefresh(c, newId, row.value.user, row.value.wallet, m, t);
      ReplacedStays(s1, id, token, newId, newToken, m);
      if role.None? {
        return Err(Internal), id;
      }
      SessionStays(s1, newId);
      return Ok(LoginAnswer(newId, newToken, role.value)), id;
    }

    lemma NewByRotation(before: Sessions, after: Sessions, id: int, token: int, newId: int, newToken: int, now: int)
      requires Rotated(before, after, id, token, newId, newToken, now, cfg.refreshTtl)
      ensures newId !in before && newId in after && id in before
      ensures after[newId].wallet == before[id].wallet && after[newId].user == before[id].user
    {
    }
  }
}
