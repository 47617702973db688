/** One wallet row for each address and network. */
module AuthWallets {
  import opened AuthFrames
  import opened AuthProtocol
  import opened AuthTables
  import opened Prelude

  ghost predicate OneRowEach(t: Wallets) {
    forall v, w :: v in t && w in t && t[v].address == t[w].address && t[v].chainId == t[w].chainId ==> v == w
  }

  /** The rows and what identifies them are the same. */
  ghost predicate SameRows(t: Wallets, u: Wallets) {
    t.Keys == u.Keys && forall w :: w in t ==> u[w].address == t[w].address && u[w].chainId == t[w].chainId
  }

  lemma InsertKeepsOne(t: Wallets, w: int, row: WalletRow)
    requires OneRowEach(t) && !WalletTaken(t, row.address, row.chainId)
    ensures OneRowEach(t[w := row])
  {
  }

  lemma AddKeepsOne(s: State, a: Action)
    requires OneRowEach(s.wallets) && Enabled(s, a) && (a.AddWallet? || a.LinkWallet?)
    ensures OneRowEach(if a.AddWallet? then AddWalletStep(s, a.c, a.user, a.wallet).wallets
                       else LinkWalletStep(s, a.c, a.wallet).wallets)
  {
    var req := s.pcs[a.c].req;
    var user := if a.AddWallet? then a.user else s.pcs[a.c].user;
    if a.wallet !in s.wallets && !WalletTaken(s.wallets, req.address, req.chainId) {
      InsertKeepsOne(s.wallets, a.wallet, WalletRow(user, req.address, req.chainId, None));
    }
    hide WalletTaken, OneRowEach;
  }

  lemma StoringKeepsRows(t: Wallets, address: int, role: Role, now: int)
    ensures SameRows(t, StoreRole(t, address, role, now))
  {
  }

  lemma WithRoleKeepsRows(s: State, c: nat, what: Purpose, role: Role)
    ensures WithRole(s, c, what, role).wallets == s.wallets
  {
  }

  lemma LookupKeepsRows(cfg: Config, s: State, c: nat, row: Option<int>)
    requires Enabled(s, LoadRole(c, row))
    ensures LoadRoleStep(cfg, s, c, row).wallets == s.wallets
  {
    hide FreshRole, WithRole;
    var what := s.pcs[c].what;
    var hit := if row.None? then None else FreshRole(s.wallets[row.value], cfg.roleTtl(ChainId(what)), s.clock);
    if hit.Some? {
      WithRoleKeepsRows(s, c, what, hit.value);
    }
  }

  lemma StoreStepKeepsRows(s: State, a: Action)
    requires Enabled(s, a) && (a.SaveRole? || a.Restamp?)
    ensures SameRows(s.wallets, if a.SaveRole? then SaveRoleStep(s, a.c).wallets
                                else RestampStep(s, a.c, a.lost).wallets)
  {
    hide StoreRole, WithRole;
    var pc := s.pcs[a.c];
    if a.SaveRole? {
      StoringKeepsRows(s.wallets, Address(pc.what), pc.role, s.clock);
      var stored := StoreRole(s.wallets, Address(pc.what), pc.role, s.clock);
      WithRoleKeepsRows(s.(wallets := stored), a.c, pc.what, pc.role);
    } else {
      StoringKeepsRows(s.wallets, pc.out.address, pc.out.role, s.clock);
    }
  }

  lemma OtherLocalKeepsRows(cfg: Config, s: State, a: Action)
    requires Enabled(s, a) && IsLocal(a) && !a.AddWallet? && !a.LinkWallet?
    ensures SameRows(s.wallets, Next(cfg, s, a).wallets)
  {
    hide NonceError, Finds, SameRows;
    SameRowsSelf(s.wallets);
    NextIs(cfg, s, a);
    match a
    case LoadRole(c, row) => hide Next, LoadRoleStep; LookupKeepsRows(cfg, s, c, row);
    case SaveRole(c) => hide Next, SaveRoleStep; StoreStepKeepsRows(s, a);
    case Restamp(c, lost) => hide Next, RestampStep; StoreStepKeepsRows(s, a);
    case _ =>
  }

  lemma SameRowsSelf(t: Wallets)
    ensures SameRows(t, t)
  {
  }

  lemma OtherKeepsRows(cfg: Config, s: State, a: Action)
    requires Enabled(s, a) && !IsLocal(a)
    ensures Next(cfg, s, a).wallets == s.wallets
  {
    hide CanInsert, CanRotate, RotateSession, RevokeSession, RevokeIfLive, ConsumeNonce, IsFree;
  }

  lemma StepKeepsOne(cfg: Config, s: State, a: Action)
    requires OneRowEach(s.wallets)
    ensures OneRowEach(Next(cfg, s, a).wallets)
  {
    if Enabled(s, a) {
      NextIs(cfg, s, a);
      if a.AddWallet? || a.LinkWallet? {
        AddKeepsOne(s, a);
        hide *;
      } else if IsLocal(a) {
        OtherLocalKeepsRows(cfg, s, a);
        hide Next, Enabled;
      } else {
        OtherKeepsRows(cfg, s, a);
        hide Next, Enabled;
      }
    }
  }

  lemma {:induction false} ReachableRows(cfg: Config, clock: int, onChain: map<int, int>, trace: seq<Action>)
    ensures OneRowEach(Execute(cfg, Init(clock, onChain), trace).wallets)
  {
    if trace != [] {
      hide Next;
      ReachableRows(cfg, clock, onChain, trace[..|trace| - 1]);
      StepKeepsOne(cfg, Execute(cfg, Init(clock, onChain), trace[..|trace| - 1]), trace[|trace| - 1]);
    }
  }

  /** In every reachable state an address has at most one wallet row on each network. */
  lemma OneWalletPerNetwork(cfg: Config, clock: int, onChain: map<int, int>, trace: seq<Action>)
    ensures var t := Execute(cfg, Init(clock, onChain), trace).wallets;
            forall v, w :: v in t && w in t && t[v].address == t[w].address && t[v].chainId == t[w].chainId ==> v == w
  {
    ReachableRows(cfg, clock, onChain, trace);
    hide Execute;
  }
}
