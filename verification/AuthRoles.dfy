/** Roles are never invented: whatever is cached or put in a token was the address's role on the chain. */
module AuthRoles {
  import opened AuthFrames
  import opened AuthProtocol
  import opened AuthTables
  import opened Prelude

  /** The numbers of the roles, on the chain and in the cache. */
  ghost predicate Encodes(value: int, role: Role) {
    if value == 1 then role.Admin? else if value == 2 then role.Viewer? else role.NoRole?
  }

  /** What the contract has for an address, 0 where nothing was ever set. */
  ghost function NumberOf(onChain: map<int, int>, address: int): int {
    if address in onChain then onChain[address] else 0
  }

  /** The address had this role on the chain at some moment so far. */
  ghost predicate Held(chain: seq<map<int, int>>, address: int, role: Role) {
    exists k :: 0 <= k < |chain| && Encodes(NumberOf(chain[k], address), role)
  }

  /** With a role contract a role must have been held; without one every role is Viewer. */
  ghost predicate Good(cfg: Config, chain: seq<map<int, int>>, address: int, role: Role) {
    if cfg.contract then Held(chain, address, role) else role.Viewer?
  }

  ghost predicate CacheOk(cfg: Config, chain: seq<map<int, int>>, w: WalletRow) {
    w.cache.Some? ==> Good(cfg, chain, w.address, RoleFromU8(w.cache.value.value))
  }

  ghost predicate WalletsOk(cfg: Config, chain: seq<map<int, int>>, t: Wallets) {
    forall w :: w in t ==> CacheOk(cfg, chain, t[w])
  }

  ghost predicate TokensOk(cfg: Config, chain: seq<map<int, int>>, tokens: seq<TokenRole>) {
    forall i :: 0 <= i < |tokens| ==> Good(cfg, chain, tokens[i].address, tokens[i].role)
  }

  ghost predicate AnswerOk(cfg: Config, chain: seq<map<int, int>>, out: Outcome) {
    out.kind.ViaLink? || Good(cfg, chain, out.address, out.role)
  }

  ghost predicate PcOk(cfg: Config, chain: seq<map<int, int>>, pc: Pc) {
    match pc
    case StoringRole(what, role) => Good(cfg, chain, Address(what), role)
    case FindingWallet(req, role) => Good(cfg, chain, req.address, role)
    case AddingWallet(req, role) => Good(cfg, chain, req.address, role)
    case CreatingSession(req, role, _, _) => Good(cfg, chain, req.address, role)
    case Restamping(out) => Good(cfg, chain, out.address, out.role)
    case Consuming(out) => AnswerOk(cfg, chain, out)
    case Delivering(out, _) => AnswerOk(cfg, chain, out)
    case Answering(out) => AnswerOk(cfg, chain, out)
    case _ => true
  }

  ghost predicate RoleInv(cfg: Config, s: State) {
    && s.chain != []
    && WalletsOk(cfg, s.chain, s.wallets)
    && TokensOk(cfg, s.chain, s.tokens)
    && forall c :: c in s.pcs ==> PcOk(cfg, s.chain, s.pcs[c])
  }

  // ----- The chain only grows -----

  lemma GoodStays(cfg: Config, chain: seq<map<int, int>>, more: map<int, int>, address: int, role: Role)
    requires Good(cfg, chain, address, role)
    ensures Good(cfg, chain + [more], address, role)
  {
    if cfg.contract {
      var k :| 0 <= k < |chain| && Encodes(NumberOf(chain[k], address), role);
      assert (chain + [more])[k] == chain[k];
    }
  }

  lemma ChainGrowthKeeps(cfg: Config, s: State, address: int, value: int)
    requires RoleInv(cfg, s)
    ensures RoleInv(cfg, Next(cfg, s, SetChainRole(address, value)))
  {
    var t := Next(cfg, s, SetChainRole(address, value));
    var more := s.chain[|s.chain| - 1][address := value];
    assert t.chain == s.chain + [more];
    forall a, r | Good(cfg, s.chain, a, r)
      ensures Good(cfg, t.chain, a, r)
    {
      GoodStays(cfg, s.chain, more, a, r);
    }
    hide Good;
    forall c | c in t.pcs
      ensures PcOk(cfg, t.chain, t.pcs[c])
    {
      assert PcOk(cfg, s.chain, s.pcs[c]);
    }
  }

  // ----- Steps -----

  lemma StoreRoleOk(cfg: Config, chain: seq<map<int, int>>, t: Wallets, address: int, role: Role, now: int)
    requires WalletsOk(cfg, chain, t) && Good(cfg, chain, address, role)
    ensures WalletsOk(cfg, chain, StoreRole(t, address, role, now))
  {
    hide Good;
    RoleU8RoundTrip(role);
    var u := StoreRole(t, address, role, now);
    forall w | w in u
      ensures CacheOk(cfg, chain, u[w])
    {
      assert CacheOk(cfg, chain, t[w]);
    }
  }

  /** What a local step must show: good rows, good tokens, and a good next step for its caller. */
  ghost predicate CallerOk(cfg: Config, t: State, c: nat) {
    && WalletsOk(cfg, t.chain, t.wallets)
    && TokensOk(cfg, t.chain, t.tokens)
    && (c in t.pcs ==> PcOk(cfg, t.chain, t.pcs[c]))
  }

  lemma WithRoleOk(cfg: Config, s: State, c: nat, what: Purpose, role: Role)
    requires WalletsOk(cfg, s.chain, s.wallets) && TokensOk(cfg, s.chain, s.tokens)
        && Good(cfg, s.chain, Address(what), role)
    ensures CallerOk(cfg, WithRole(s, c, what, role), c)
  {
    hide Good, WalletsOk, TokensOk;
  }

  lemma LoadRoleOk(cfg: Config, s: State, c: nat, row: Option<int>)
    requires RoleInv(cfg, s) && Enabled(s, LoadRole(c, row))
    ensures CallerOk(cfg, LoadRoleStep(cfg, s, c, row), c)
  {
    var what := s.pcs[c].what;
    forall w | w in s.wallets ensures CacheOk(cfg, s.chain, s.wallets[w]) {}
    hide Good, WithRole, TokensOk, WalletsOk;
    if row.Some? {
      var w := s.wallets[row.value];
      var hit := FreshRole(w, cfg.roleTtl(ChainId(what)), s.clock);
      if hit.Some? {
        WithRoleOk(cfg, s, c, what, hit.value);
      }
    }
  }

  lemma AskChainOk(cfg: Config, s: State, c: nat)
    requires RoleInv(cfg, s) && Enabled(s, AskChain(c))
    ensures CallerOk(cfg, AskChainStep(cfg, s, c), c)
  {
    var address := Address(s.pcs[c].what);
    assert cfg.contract ==>
        Encodes(NumberOf(s.chain[|s.chain| - 1], address), ChainRole(s.chain[|s.chain| - 1], address));
    assert Good(cfg, s.chain, address, if cfg.contract then ChainRole(s.chain[|s.chain| - 1], address) else Viewer);
    hide Good, WalletsOk, TokensOk;
  }

  lemma SaveRoleOk(cfg: Config, s: State, c: nat)
    requires RoleInv(cfg, s) && Enabled(s, SaveRole(c))
    ensures CallerOk(cfg, SaveRoleStep(s, c), c)
  {
    var pc := s.pcs[c];
    assert PcOk(cfg, s.chain, pc);
    StoreRoleOk(cfg, s.chain, s.wallets, Address(pc.what), pc.role, s.clock);
    hide Good, WithRole, WalletsOk, TokensOk;
    WithRoleOk(cfg, s.(wallets := StoreRole(s.wallets, Address(pc.what), pc.role, s.clock)), c, pc.what, pc.role);
  }

  lemma RestampOk(cfg: Config, s: State, c: nat, lost: bool)
    requires RoleInv(cfg, s) && Enabled(s, Restamp(c, lost))
    ensures CallerOk(cfg, RestampStep(s, c, lost), c)
  {
    var out := s.pcs[c].out;
    assert PcOk(cfg, s.chain, s.pcs[c]);
    StoreRoleOk(cfg, s.chain, s.wallets, out.address, out.role, s.clock);
    hide Good, WalletsOk, TokensOk, StoreRole;
  }

  lemma TokensAppend(cfg: Config, chain: seq<map<int, int>>, tokens: seq<TokenRole>, out: Outcome)
    requires TokensOk(cfg, chain, tokens) && AnswerOk(cfg, chain, out)
    ensures TokensOk(cfg, chain, tokens + Issued(out))
  {
  }

  lemma AnswerStepOk(cfg: Config, s: State, c: nat)
    requires RoleInv(cfg, s) && Enabled(s, Answer(c))
    ensures CallerOk(cfg, AnswerStep(s, c), c)
  {
    assert PcOk(cfg, s.chain, s.pcs[c]);
    TokensAppend(cfg, s.chain, s.tokens, s.pcs[c].out);
  }

  lemma DeliverOk(cfg: Config, s: State, c: nat)
    requires RoleInv(cfg, s) && Enabled(s, Deliver(c))
    ensures RoleInv(cfg, Next(cfg, s, Deliver(c)))
  {
    assert PcOk(cfg, s.chain, s.pcs[c]);
    TokensAppend(cfg, s.chain, s.tokens, s.pcs[c].out);
    hide TokensOk, WalletsOk, PcOk;
  }

  lemma AddWalletOk(cfg: Config, s: State, c: nat, user: int, wallet: int)
    requires RoleInv(cfg, s) && Enabled(s, AddWallet(c, user, wallet))
    ensures CallerOk(cfg, AddWalletStep(s, c, user, wallet), c)
  {
    assert PcOk(cfg, s.chain, s.pcs[c]);
    hide Good, TokensOk, WalletTaken;
  }

  lemma LinkWalletOk(cfg: Config, s: State, c: nat, wallet: int)
    requires RoleInv(cfg, s) && Enabled(s, LinkWallet(c, wallet))
    ensures CallerOk(cfg, LinkWalletStep(s, c, wallet), c)
  {
    hide Good, TokensOk, WalletTaken;
  }

  lemma FindOwnerOk(cfg: Config, s: State, c: nat, row: Option<int>)
    requires RoleInv(cfg, s) && Enabled(s, FindOwner(c, row))
    ensures CallerOk(cfg, FindOwnerStep(s, c, row), c)
  {
    hide Good, TokensOk, WalletsOk;
  }

  lemma FindWalletOk(cfg: Config, s: State, c: nat, row: Option<int>)
    requires RoleInv(cfg, s) && Enabled(s, FindWallet(c, row))
    ensures CallerOk(cfg, FindWalletStep(s, c, row), c)
  {
    assert PcOk(cfg, s.chain, s.pcs[c]);
    hide Good, TokensOk, WalletsOk;
  }

  lemma CheckOk(cfg: Config, s: State, c: nat)
    requires RoleInv(cfg, s) && Enabled(s, Check(c))
    ensures CallerOk(cfg, CheckStep(s, c), c)
  {
    hide Good, TokensOk, WalletsOk, NonceError;
  }

  lemma ReadWalletOk(cfg: Config, s: State, c: nat)
    requires RoleInv(cfg, s) && Enabled(s, ReadWallet(c))
    ensures CallerOk(cfg, ReadWalletStep(s, c), c)
  {
    hide Good, TokensOk, WalletsOk;
  }

  lemma StartOk(cfg: Config, s: State, c: nat, pc: Pc)
    requires RoleInv(cfg, s) && IsEntry(pc)
    ensures CallerOk(cfg, Go(s, c, pc), c) && CallerOk(cfg, Done(s, c), c)
  {
    hide Good, TokensOk, WalletsOk;
  }

  lemma LocalStepOk(cfg: Config, s: State, a: Action)
    requires RoleInv(cfg, s) && IsLocal(a) && Enabled(s, a)
    ensures CallerOk(cfg, Next(cfg, s, a), a.c)
  {
    NextIs(cfg, s, a);
    match a
    case Start(c, pc) => StartOk(cfg, s, c, pc);
    case Check(c) => CheckOk(cfg, s, c);
    case FindOwner(c, row) => FindOwnerOk(cfg, s, c, row);
    case LoadRole(c, row) => LoadRoleOk(cfg, s, c, row);
    case AskChain(c) => AskChainOk(cfg, s, c);
    case SaveRole(c) => SaveRoleOk(cfg, s, c);
    case FindWallet(c, row) => FindWalletOk(cfg, s, c, row);
    case AddWallet(c, user, wallet) => AddWalletOk(cfg, s, c, user, wallet);
    case LinkWallet(c, wallet) => LinkWalletOk(cfg, s, c, wallet);
    case Restamp(c, lost) => RestampOk(cfg, s, c, lost);
    case Answer(c) => AnswerStepOk(cfg, s, c);
    case ReadWallet(c) => ReadWalletOk(cfg, s, c);
    case Fail(c) => StartOk(cfg, s, c, Rotating(0));
  }

  lemma CreateSessionOk(cfg: Config, s: State, c: nat, id: int, token: int)
    requires RoleInv(cfg, s) && Enabled(s, CreateSession(c, id, token))
    ensures RoleInv(cfg, Next(cfg, s, CreateSession(c, id, token)))
  {
    assert PcOk(cfg, s.chain, s.pcs[c]);
    hide Good, TokensOk, WalletsOk, CanInsert;
  }

  lemma ConsumeOk(cfg: Config, s: State, c: nat)
    requires RoleInv(cfg, s) && Enabled(s, Consume(c))
    ensures RoleInv(cfg, Next(cfg, s, Consume(c)))
  {
    assert PcOk(cfg, s.chain, s.pcs[c]);
    hide Good, TokensOk, WalletsOk;
  }

  lemma RotateOk(cfg: Config, s: State, c: nat, id: int, newId: int, newToken: int)
    requires RoleInv(cfg, s) && Enabled(s, Rotate(c, id, newId, newToken))
    ensures RoleInv(cfg, Next(cfg, s, Rotate(c, id, newId, newToken)))
  {
    hide Good, TokensOk, WalletsOk, RotateSession, CanRotate, CanInsert;
  }

  lemma StepKeepsRoleInv(cfg: Config, s: State, a: Action)
    requires RoleInv(cfg, s)
    ensures RoleInv(cfg, Next(cfg, s, a))
  {
    if Enabled(s, a) {
      if IsLocal(a) {
        LocalStep(cfg, s, a);
        LocalStepOk(cfg, s, a);
        hide Next, Good, TokensOk, WalletsOk, PcOk;
      } else {
        match a
        case SetChainRole(address, value) => ChainGrowthKeeps(cfg, s, address, value);
        case CreateSession(c, id, token) => CreateSessionOk(cfg, s, c, id, token);
        case Consume(c) => ConsumeOk(cfg, s, c);
        case Deliver(c) => DeliverOk(cfg, s, c);
        case Rotate(c, id, newId, newToken) => RotateOk(cfg, s, c, id, newId, newToken);
        case _ => hide Good, TokensOk, WalletsOk, PcOk, RevokeSession, RevokeIfLive;
      }
    }
  }

  lemma {:induction false} ReachableRoleInv(cfg: Config, clock: int, onChain: map<int, int>, trace: seq<Action>)
    ensures RoleInv(cfg, Execute(cfg, Init(clock, onChain), trace))
  {
    if trace != [] {
      hide RoleInv;
      ReachableRoleInv(cfg, clock, onChain, trace[..|trace| - 1]);
      StepKeepsRoleInv(cfg, Execute(cfg, Init(clock, onChain), trace[..|trace| - 1]), trace[|trace| - 1]);
    } else {
      hide Good;
    }
  }

  /** Every cached role and every role in a token was held on the chain by its address. */
  ghost predicate AllHeld(s: State) {
    && (forall w, role ::
          (w in s.wallets && s.wallets[w].cache.Some? && Encodes(s.wallets[w].cache.value.value, role)) ==>
          Held(s.chain, s.wallets[w].address, role))
    && (forall i :: 0 <= i < |s.tokens| ==> Held(s.chain, s.tokens[i].address, s.tokens[i].role))
  }

  /**
   * With a role contract configured and no role cached at the start, in every reachable state
   * each cached role and each role in a token was held on the chain by its address at that
   * moment or earlier.
   */
  lemma RolesHaveProvenance(cfg: Config, clock: int, onChain: map<int, int>, trace: seq<Action>)
    requires cfg.contract
    ensures AllHeld(Execute(cfg, Init(clock, onChain), trace))
  {
    ReachableRoleInv(cfg, clock, onChain, trace);
    var s := Execute(cfg, Init(clock, onChain), trace);
    forall w, role | w in s.wallets && s.wallets[w].cache.Some? && Encodes(s.wallets[w].cache.value.value, role)
      ensures Held(s.chain, s.wallets[w].address, role)
    {
      assert CacheOk(cfg, s.chain, s.wallets[w]);
    }
  }

  // ----- Without a role contract -----

  /** Without one, in every reachable state every cached role and every role in a token is Viewer. */
  lemma ViewerWithoutContract(cfg: Config, clock: int, onChain: map<int, int>, trace: seq<Action>)
    requires !cfg.contract
    ensures var s := Execute(cfg, Init(clock, onChain), trace);
            && (forall w :: w in s.wallets && s.wallets[w].cache.Some? ==> s.wallets[w].cache.value.value == 2)
            && (forall i :: 0 <= i < |s.tokens| ==> s.tokens[i].role == Viewer)
  {
    ReachableRoleInv(cfg, clock, onChain, trace);
    var s := Execute(cfg, Init(clock, onChain), trace);
    forall w | w in s.wallets && s.wallets[w].cache.Some?
      ensures s.wallets[w].cache.value.value == 2
    {
      assert CacheOk(cfg, s.chain, s.wallets[w]);
    }
  }

  lemma OneMore(cfg: Config, trace: seq<Action>, s: State, a: Action) returns (more: seq<Action>, t: State)
    requires s == Execute(cfg, Init(0, map[]), trace)
    ensures more == trace + [a] && t == Next(cfg, s, a) == Execute(cfg, Init(0, map[]), more)
  {
    more, t := trace + [a], Next(cfg, s, a);
    ExecuteAppend(cfg, Init(0, map[]), trace, a);
  }

  /** Nonce 7 is out, nobody has a role on the chain, and caller 0 logs in as address 5. */
  function FirstLogin(pc: Pc, wallets: Wallets): State {
    Init(0, map[]).(nonces := map[7 := NonceRow(NONCE_TTL, None)], issued := [7], pcs := map[0 := pc],
        wallets := wallets)
  }

  lemma UnheldStart(cfg: Config) returns (trace: seq<Action>, s: State)
    ensures s == Execute(cfg, Init(0, map[]), trace) == FirstLogin(Checking(Request(7, 5, 1, true), None), map[])
  {
    hide Execute;
    trace, s := [], Init(0, map[]);
    assert Execute(cfg, s, []) == s by { ExecuteNothing(cfg, s); }
    trace, s := OneMore(cfg, trace, s, IssueNonce(7));
    trace, s := OneMore(cfg, trace, s, Start(0, Checking(Request(7, 5, 1, true), None)));
    assert s.nonces == map[7 := NonceRow(NONCE_TTL, None)] && s.pcs == map[0 := Checking(Request(7, 5, 1, true), None)];
  }

  lemma ExecuteNothing(cfg: Config, s: State)
    ensures Execute(cfg, s, []) == s
  {
  }

  /** One step of caller 0 takes the login to its next step. */
  lemma LoginStep(cfg: Config, pc: Pc, wallets: Wallets, a: Action, next: Pc, after: Wallets)
    requires Enabled(FirstLogin(pc, wallets), a)
    requires var s := FirstLogin(pc, wallets); Next(cfg, s, a) == Go(s.(wallets := after), 0, next)
    ensures Next(cfg, FirstLogin(pc, wallets), a) == FirstLogin(next, after)
  {
    hide Next, Enabled;
    assert map[0 := pc][0 := next] == map[0 := next];
  }

  lemma UnheldRoleSteps(cfg: Config, req: Request)
    requires !cfg.contract && req == Request(7, 5, 1, true)
    ensures var what := ForLogin(req); var none: Wallets := map[];
            && Next(cfg, FirstLogin(Checking(req, None), none), Check(0)) == FirstLogin(LoadingRole(what), none)
            && Next(cfg, FirstLogin(LoadingRole(what), none), LoadRole(0, None)) == FirstLogin(AskingChain(what), none)
            && Next(cfg, FirstLogin(AskingChain(what), none), AskChain(0)) ==
                FirstLogin(StoringRole(what, Viewer), none)
            && Next(cfg, FirstLogin(StoringRole(what, Viewer), none), SaveRole(0)) ==
                FirstLogin(FindingWallet(req, Viewer), none)
  {
    hide Next;
    var what := ForLogin(req);
    var none: Wallets := map[];
    assert StoreRole(none, 5, Viewer, 0) == none;
    NextIs(cfg, FirstLogin(Checking(req, None), none), Check(0));
    NextIs(cfg, FirstLogin(LoadingRole(what), none), LoadRole(0, None));
    NextIs(cfg, FirstLogin(AskingChain(what), none), AskChain(0));
    NextIs(cfg, FirstLogin(StoringRole(what, Viewer), none), SaveRole(0));
    LoginStep(cfg, Checking(req, None), none, Check(0), LoadingRole(what), none);
    LoginStep(cfg, LoadingRole(what), none, LoadRole(0, None), AskingChain(what), none);
    LoginStep(cfg, AskingChain(what), none, AskChain(0), StoringRole(what, Viewer), none);
    LoginStep(cfg, StoringRole(what, Viewer), none, SaveRole(0), FindingWallet(req, Viewer), none);
  }

  lemma UnheldWalletSteps(cfg: Config, req: Request)
    requires req == Request(7, 5, 1, true)
    ensures var none: Wallets := map[]; var one: Wallets := map[1 := WalletRow(1, 5, 1, None)];
            && Next(cfg, FirstLogin(FindingWallet(req, Viewer), none), FindWallet(0, None)) ==
                FirstLogin(AddingWallet(req, Viewer), none)
            && Next(cfg, FirstLogin(AddingWallet(req, Viewer), none), AddWallet(0, 1, 1)) ==
                FirstLogin(CreatingSession(req, Viewer, 1, 1), one)
  {
    hide Next;
    var none: Wallets := map[];
    var row := WalletRow(1, 5, 1, None);
    assert none[1 := row] == map[1 := row];
    NextIs(cfg, FirstLogin(FindingWallet(req, Viewer), none), FindWallet(0, None));
    NextIs(cfg, FirstLogin(AddingWallet(req, Viewer), none), AddWallet(0, 1, 1));
    LoginStep(cfg, FindingWallet(req, Viewer), none, FindWallet(0, None), AddingWallet(req, Viewer), none);
    LoginStep(cfg, AddingWallet(req, Viewer), none, AddWallet(0, 1, 1),
        CreatingSession(req, Viewer, 1, 1), map[1 := row]);
  }

  /** The login up to its session: the role found is Viewer. */
  lemma UnheldLookup(cfg: Config) returns (trace: seq<Action>, s: State)
    requires !cfg.contract
    ensures s == Execute(cfg, Init(0, map[]), trace)
         == FirstLogin(CreatingSession(Request(7, 5, 1, true), Viewer, 1, 1), map[1 := WalletRow(1, 5, 1, None)])
  {
    hide Execute, Next, FirstLogin;
    UnheldRoleSteps(cfg, Request(7, 5, 1, true));
    UnheldWalletSteps(cfg, Request(7, 5, 1, true));
    trace, s := UnheldStart(cfg);
    trace, s := OneMore(cfg, trace, s, Check(0));
    trace, s := OneMore(cfg, trace, s, LoadRole(0, None));
    trace, s := OneMore(cfg, trace, s, AskChain(0));
    trace, s := OneMore(cfg, trace, s, SaveRole(0));
    trace, s := OneMore(cfg, trace, s, FindWallet(0, None));
    trace, s := OneMore(cfg, trace, s, AddWallet(0, 1, 1));
  }

  /** Caller 0 is at this step, with nonce 7 still to spend. */
  ghost predicate LoginAt(s: State, pc: Pc) {
    s.chain == [map[]] && s.tokens == [] && IsFree(s.nonces, 7) && s.used == [] && 0 in s.pcs && s.pcs[0] == pc
  }

  lemma UnheldSession(cfg: Config, s: State)
    requires LoginAt(s, CreatingSession(Request(7, 5, 1, true), Viewer, 1, 1)) && s.sessions == map[]
    ensures LoginAt(CreateSessionStep(cfg, s, 0, 1, 1), Restamping(Outcome(ViaLogin, 7, 5, Viewer, 1, 1, 1)))
  {
  }

  lemma UnheldAnswer(cfg: Config, s: State, out: Outcome)
    requires LoginAt(s, Restamping(out)) && out.kind.ViaLogin? && out.nonce == 7
    ensures var b := RestampStep(s, 0, true);
            LoginAt(b, Consuming(out)) && var c := ConsumeStep(b, 0);
            && 0 in c.pcs && c.pcs[0] == Delivering(out, 0) && |c.used| == 1
            && DeliverStep(c, 0).tokens == [TokenRole(out.address, out.role)] && DeliverStep(c, 0).chain == [map[]]
  {
  }

  /** From there the login goes through. */
  lemma UnheldFinish(cfg: Config, s: State)
    requires LoginAt(s, CreatingSession(Request(7, 5, 1, true), Viewer, 1, 1)) && s.sessions == map[]
    ensures var a := Next(cfg, s, CreateSession(0, 1, 1)); var b := Next(cfg, a, Restamp(0, true));
            var c := Next(cfg, b, Consume(0)); var d := Next(cfg, c, Deliver(0));
            d.tokens == [TokenRole(5, Viewer)] && d.chain == [map[]]
  {
    hide Next, CreateSessionStep, RestampStep, ConsumeStep, DeliverStep;
    NextIs(cfg, s, CreateSession(0, 1, 1));
    UnheldSession(cfg, s);
    var a := Next(cfg, s, CreateSession(0, 1, 1));
    UnheldAnswer(cfg, a, Outcome(ViaLogin, 7, 5, Viewer, 1, 1, 1));
    NextIs(cfg, a, Restamp(0, true));
    var b := Next(cfg, a, Restamp(0, true));
    NextIs(cfg, b, Consume(0));
    NextIs(cfg, Next(cfg, b, Consume(0)), Deliver(0));
  }

  /** Its token says Viewer for an address without a role. */
  lemma UnheldViewer(cfg: Config) returns (trace: seq<Action>)
    requires !cfg.contract
    ensures !AllHeld(Execute(cfg, Init(0, map[]), trace))
  {
    hide Execute;
    var s;
    trace, s := UnheldLookup(cfg);
    UnheldFinish(cfg, s);
    hide Next;
    trace, s := OneMore(cfg, trace, s, CreateSession(0, 1, 1));
    trace, s := OneMore(cfg, trace, s, Restamp(0, true));
    trace, s := OneMore(cfg, trace, s, Consume(0));
    trace, s := OneMore(cfg, trace, s, Deliver(0));
    assert !Held(s.chain, 5, Viewer);
    assert s.tokens[0] == TokenRole(5, Viewer);
  }

  /** So roles have provenance in every run exactly when a role contract is configured. */
  lemma ProvenanceExactly(cfg: Config)
    ensures cfg.contract <==> forall clock, onChain, trace :: AllHeld(Execute(cfg, Init(clock, onChain), trace))
  {
    hide AllHeld, Execute;
    if cfg.contract {
      forall clock, onChain, trace
        ensures AllHeld(Execute(cfg, Init(clock, onChain), trace))
      {
        RolesHaveProvenance(cfg, clock, onChain, trace);
      }
    } else {
      var trace := UnheldViewer(cfg);
    }
  }
}
