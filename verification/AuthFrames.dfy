/** What the steps of the protocol leave alone. */
module AuthFrames {
  import opened AuthProtocol
  import opened AuthTables
  import opened Prelude

  /** Steps that change only their caller, wallet rows and issued tokens. */
  predicate IsLocal(a: Action) {
    match a
    case Start(_, _) => true
    case Check(_) => true
    case FindOwner(_, _) => true
    case LoadRole(_, _) => true
    case AskChain(_) => true
    case SaveRole(_) => true
    case FindWallet(_, _) => true
    case AddWallet(_, _, _) => true
    case LinkWallet(_, _) => true
    case Restamp(_, _) => true
    case ReadWallet(_) => true
    case Answer(_) => true
    case Fail(_) => true
    case _ => false
  }

  /** Wallet rows are never removed and keep their owner and address. */
  ghost predicate WalletsStay(t: Wallets, u: Wallets) {
    forall w :: w in t ==>
        w in u && u[w].user == t[w].user && u[w].address == t[w].address && u[w].chainId == t[w].chainId
  }

  /** Wallet rows and tokens, which a local step may add to. */
  ghost predicate LocalTables(s: State, t: State) {
    t == s.(wallets := t.wallets, tokens := t.tokens) && WalletsStay(s.wallets, t.wallets) && s.tokens <= t.tokens
  }

  /** Only caller c moved, and not to its answer. */
  ghost predicate Local(s: State, t: State, c: nat) {
    && t == s.(pcs := t.pcs, wallets := t.wallets, tokens := t.tokens)
    && WalletsStay(s.wallets, t.wallets) && s.tokens <= t.tokens
    && (forall d :: d != c ==> (d in t.pcs <==> d in s.pcs) && (d in t.pcs ==> t.pcs[d] == s.pcs[d]))
    && (c in t.pcs ==> !t.pcs[c].Delivering?)
  }

  lemma GoIsLocal(s: State, t: State, c: nat, pc: Pc)
    requires LocalTables(s, t) && !pc.Delivering?
    ensures Local(s, Go(t, c, pc), c)
  {
  }

  lemma DoneIsLocal(s: State, t: State, c: nat)
    requires LocalTables(s, t)
    ensures Local(s, Done(t, c), c)
  {
  }

  lemma WithRoleIsLocal(s: State, t: State, c: nat, what: Purpose, role: Role)
    requires LocalTables(s, t)
    ensures Local(s, WithRole(t, c, what, role), c)
  {
    DoneIsLocal(s, t, c);
    hide Local, Done;
    match what
    case ForLogin(req) => GoIsLocal(s, t, c, FindingWallet(req, role));
    case ForLink(req, user, wallet) => GoIsLocal(s, t, c,
        Restamping(Outcome(ViaLink, req.nonce, req.address, role, 0, user, wallet)));
    case ForRefresh(session, user, wallet, address, _) =>
      GoIsLocal(s, t, c, Restamping(Outcome(ViaRefresh, 0, address, role, session, user, wallet)));
    case ForCache(_) =>
  }

  lemma LocalStep(cfg: Config, s: State, a: Action)
    requires IsLocal(a) && Enabled(s, a)
    ensures Local(s, Next(cfg, s, a), a.c)
  {
    match a
    case Start(c, pc) => GoIsLocal(s, s, c, pc);
    case Check(c) => CheckIsLocal(s, c);
    case FindOwner(c, row) => FindOwnerIsLocal(s, c, row);
    case LoadRole(c, row) => LoadRoleIsLocal(cfg, s, c, row);
    case AskChain(c) => AskChainIsLocal(cfg, s, c);
    case SaveRole(c) => SaveRoleIsLocal(s, c);
    case FindWallet(c, row) => FindWalletIsLocal(s, c, row);
    case AddWallet(c, user, wallet) => AddWalletIsLocal(s, c, user, wallet);
    case LinkWallet(c, wallet) => LinkWalletIsLocal(s, c, wallet);
    case Restamp(c, lost) => RestampIsLocal(s, c, lost);
    case ReadWallet(c) => ReadWalletIsLocal(s, c);
    case Answer(c) => DoneIsLocal(s, s.(tokens := s.tokens + Issued(s.pcs[c].out)), c);
    case Fail(c) => DoneIsLocal(s, s, c);
  }

  lemma CheckIsLocal(s: State, c: nat)
    requires Enabled(s, Check(c))
    ensures Local(s, CheckStep(s, c), c)
  {
    hide Local;
    var pc := s.pcs[c];
    DoneIsLocal(s, s, c);
    GoIsLocal(s, s, c, LoadingRole(ForLogin(pc.req)));
    if pc.linkTo.Some? {
      GoIsLocal(s, s, c, FindingOwner(pc.req, pc.linkTo.value));
    }
  }

  lemma FindOwnerIsLocal(s: State, c: nat, row: Option<int>)
    requires Enabled(s, FindOwner(c, row))
    ensures Local(s, FindOwnerStep(s, c, row), c)
  {
    hide Local;
    var pc := s.pcs[c];
    DoneIsLocal(s, s, c);
    GoIsLocal(s, s, c, LinkingWallet(pc.req, pc.user));
    if row.Some? {
      GoIsLocal(s, s, c, Consuming(Outcome(ViaLink, pc.req.nonce, pc.req.address, NoRole, 0, pc.user, row.value)));
    }
  }

  lemma FindWalletIsLocal(s: State, c: nat, row: Option<int>)
    requires Enabled(s, FindWallet(c, row))
    ensures Local(s, FindWalletStep(s, c, row), c)
  {
    hide Local;
    var pc := s.pcs[c];
    GoIsLocal(s, s, c, AddingWallet(pc.req, pc.role));
    if row.Some? {
      GoIsLocal(s, s, c, CreatingSession(pc.req, pc.role, s.wallets[row.value].user, row.value));
    }
  }

  lemma AskChainIsLocal(cfg: Config, s: State, c: nat)
    requires Enabled(s, AskChain(c))
    ensures Local(s, AskChainStep(cfg, s, c), c)
  {
    hide Local;
    var what := s.pcs[c].what;
    GoIsLocal(s, s, c,
        StoringRole(what, if cfg.contract then ChainRole(s.chain[|s.chain| - 1], Address(what)) else Viewer));
  }

  lemma RestampIsLocal(s: State, c: nat, lost: bool)
    requires Enabled(s, Restamp(c, lost))
    ensures Local(s, RestampStep(s, c, lost), c)
  {
    hide Local, StoreRole;
    var out := s.pcs[c].out;
    var t := if lost then s else s.(wallets := StoreRole(s.wallets, out.address, out.role, s.clock));
    GoIsLocal(s, t, c, if out.kind.ViaRefresh? then Answering(out) else Consuming(out));
  }

  lemma ReadWalletIsLocal(s: State, c: nat)
    requires Enabled(s, ReadWallet(c))
    ensures Local(s, ReadWalletStep(s, c), c)
  {
    hide Local;
    var pc := s.pcs[c];
    DoneIsLocal(s, s, c);
    if pc.wallet in s.wallets {
      var w := s.wallets[pc.wallet];
      GoIsLocal(s, s, c, LoadingRole(ForRefresh(pc.session, pc.user, pc.wallet, w.address, w.chainId)));
    }
  }

  lemma LoadRoleIsLocal(cfg: Config, s: State, c: nat, row: Option<int>)
    requires Enabled(s, LoadRole(c, row))
    ensures Local(s, LoadRoleStep(cfg, s, c, row), c)
  {
    hide FreshRole, WithRole, Local;
    var what := s.pcs[c].what;
    var hit := if row.None? then None else FreshRole(s.wallets[row.value], cfg.roleTtl(ChainId(what)), s.clock);
    if hit.Some? {
      WithRoleIsLocal(s, s, c, what, hit.value);
    } else {
      GoIsLocal(s, s, c, AskingChain(what));
    }
  }

  lemma SaveRoleIsLocal(s: State, c: nat)
    requires Enabled(s, SaveRole(c))
    ensures Local(s, SaveRoleStep(s, c), c)
  {
    hide StoreRole, WithRole, Local;
    var pc := s.pcs[c];
    WithRoleIsLocal(s, s.(wallets := StoreRole(s.wallets, Address(pc.what), pc.role, s.clock)), c, pc.what, pc.role);
  }

  lemma AddWalletIsLocal(s: State, c: nat, user: int, wallet: int)
    requires Enabled(s, AddWallet(c, user, wallet))
    ensures Local(s, AddWalletStep(s, c, user, wallet), c)
  {
    hide Local, WalletTaken;
    var pc := s.pcs[c];
    DoneIsLocal(s, s, c);
    if wallet !in s.wallets {
      var t := s.(wallets := s.wallets[wallet := WalletRow(user, pc.req.address, pc.req.chainId, None)]);
      GoIsLocal(s, t, c, CreatingSession(pc.req, pc.role, user, wallet));
    }
  }

  lemma LinkWalletIsLocal(s: State, c: nat, wallet: int)
    requires Enabled(s, LinkWallet(c, wallet))
    ensures Local(s, LinkWalletStep(s, c, wallet), c)
  {
    hide Local, WalletTaken;
    var pc := s.pcs[c];
    DoneIsLocal(s, s, c);
    if wallet !in s.wallets {
      var t := s.(wallets := s.wallets[wallet := WalletRow(pc.user, pc.req.address, pc.req.chainId, None)]);
      GoIsLocal(s, t, c, LoadingRole(ForLink(pc.req, pc.user, wallet)));
    }
  }
}
