/**
 * Nonces are checked while they are young: whoever gets an Ok answer was let through by a check
 * at which the nonce was unconsumed and its last issue at most five minutes old.
 */
module AuthExpiry {
  import opened AuthFrames
  import opened AuthNonces
  import opened AuthProtocol
  import opened AuthTables
  import opened Prelude

  /** The nonce is there, unconsumed, and not past its expiry. */
  ghost predicate Stands(s: State, nonce: int) {
    nonce in s.nonces && s.nonces[nonce].consumedAt.None? && s.clock <= s.nonces[nonce].expiresAt
  }

  /** Caller c is in front of its check of this nonce, with a good signature. */
  ghost predicate AtCheck(s: State, c: nat, nonce: int) {
    c in s.pcs && s.pcs[c].Checking? && s.pcs[c].req.nonce == nonce && s.pcs[c].req.signed
  }

  function PurposeNonce(what: Purpose): Option<int> {
    match what
    case ForLogin(req) => Some(req.nonce)
    case ForLink(req, _, _) => Some(req.nonce)
    case _ => None
  }

  /** The nonce with which a login or a link has passed its check. */
  function NonceOf(pc: Pc): Option<int> {
    match pc
    case FindingOwner(req, _) => Some(req.nonce)
    case LoadingRole(what) => PurposeNonce(what)
    case AskingChain(what) => PurposeNonce(what)
    case StoringRole(what, _) => PurposeNonce(what)
    case FindingWallet(req, _) => Some(req.nonce)
    case AddingWallet(req, _) => Some(req.nonce)
    case LinkingWallet(req, _) => Some(req.nonce)
    case CreatingSession(req, _, _, _) => Some(req.nonce)
    case Restamping(out) => if out.kind.ViaRefresh? then None else Some(out.nonce)
    case Consuming(out) => Some(out.nonce)
    case Delivering(out, _) => Some(out.nonce)
    case _ => None
  }

  ghost predicate Holds(s: State, c: nat, nonce: int) {
    c in s.pcs && NonceOf(s.pcs[c]) == Some(nonce)
  }

  // ----- One step -----

  lemma WithRoleHolds(s: State, c: nat, what: Purpose, role: Role, nonce: int)
    requires Holds(WithRole(s, c, what, role), c, nonce)
    ensures PurposeNonce(what) == Some(nonce)
  {
  }

  lemma CheckHolds(s: State, c: nat, nonce: int)
    requires c in s.pcs && s.pcs[c].Checking? && Holds(CheckStep(s, c), c, nonce)
    ensures AtCheck(s, c, nonce) && Stands(s, nonce)
  {
  }

  lemma LoadRoleHolds(cfg: Config, s: State, c: nat, row: Option<int>, nonce: int)
    requires Enabled(s, LoadRole(c, row)) && Holds(LoadRoleStep(cfg, s, c, row), c, nonce)
    ensures Holds(s, c, nonce)
  {
    hide FreshRole, WithRole;
    var what := s.pcs[c].what;
    var hit := if row.None? then None else FreshRole(s.wallets[row.value], cfg.roleTtl(ChainId(what)), s.clock);
    if hit.Some? {
      WithRoleHolds(s, c, what, hit.value, nonce);
    }
  }

  lemma SaveRoleHolds(s: State, c: nat, nonce: int)
    requires Enabled(s, SaveRole(c)) && Holds(SaveRoleStep(s, c), c, nonce)
    ensures Holds(s, c, nonce)
  {
    hide StoreRole, WithRole;
    var pc := s.pcs[c];
    var stored := StoreRole(s.wallets, Address(pc.what), pc.role, s.clock);
    WithRoleHolds(s.(wallets := stored), c, pc.what, pc.role, nonce);
  }

  lemma FindHolds(s: State, a: Action, nonce: int)
    requires (a.FindOwner? || a.FindWallet?) && Enabled(s, a)
    requires Holds(if a.FindOwner? then FindOwnerStep(s, a.c, a.row) else FindWalletStep(s, a.c, a.row), a.c, nonce)
    ensures Holds(s, a.c, nonce)
  {
    hide AddressKnown;
  }

  lemma AddHolds(s: State, a: Action, nonce: int)
    requires (a.AddWallet? || a.LinkWallet?) && Enabled(s, a)
    requires Holds(if a.AddWallet? then AddWalletStep(s, a.c, a.user, a.wallet)
                   else LinkWalletStep(s, a.c, a.wallet), a.c, nonce)
    ensures Holds(s, a.c, nonce)
  {
    hide WalletTaken;
  }

  lemma EndsHoldNothing(cfg: Config, s: State, a: Action, nonce: int)
    requires (a.Start? || a.Answer? || a.Fail? || a.ReadWallet?) && Enabled(s, a)
    ensures !Holds(Next(cfg, s, a), a.c, nonce)
  {
  }

  /** A local step of a caller hands on its nonce; only the check gives it one. */
  lemma LocalHolds(cfg: Config, s: State, a: Action, nonce: int)
    requires IsLocal(a) && Enabled(s, a) && Holds(Next(cfg, s, a), a.c, nonce)
    ensures Holds(s, a.c, nonce) || (a.Check? && AtCheck(s, a.c, nonce) && Stands(s, nonce))
  {
    NextIs(cfg, s, a);
    if a.Start? || a.Answer? || a.Fail? || a.ReadWallet? {
      EndsHoldNothing(cfg, s, a, nonce);
    }
    hide Next, StoreRole, AtCheck, Stands, CheckStep, LoadRoleStep, SaveRoleStep, FindOwnerStep, FindWalletStep;
    hide AddWalletStep, LinkWalletStep, ReadWalletStep, AnswerStep;
    match a
    case Check(c) => CheckHolds(s, c, nonce);
    case LoadRole(c, row) => LoadRoleHolds(cfg, s, c, row, nonce);
    case SaveRole(c) => SaveRoleHolds(s, c, nonce);
    case FindOwner(_, _) => FindHolds(s, a, nonce);
    case FindWallet(_, _) => FindHolds(s, a, nonce);
    case AddWallet(_, _, _) => AddHolds(s, a, nonce);
    case LinkWallet(_, _) => AddHolds(s, a, nonce);
    case _ =>
  }

  lemma OtherStepHolds(cfg: Config, s: State, a: Action, d: nat, nonce: int)
    requires Enabled(s, a) && !IsLocal(a) && Holds(Next(cfg, s, a), d, nonce)
    ensures Holds(s, d, nonce)
  {
    hide CanInsert, CanRotate, RotateSession, RevokeSession, RevokeIfLive, ConsumeNonce, IsFree;
    NextIs(cfg, s, a);
  }

  /** Every step: who holds a nonce afterwards held it before or has just passed its check. */
  lemma StepHolds(cfg: Config, s: State, a: Action, d: nat, nonce: int)
    requires Enabled(s, a) && Holds(Next(cfg, s, a), d, nonce)
    ensures Holds(s, d, nonce) || (a == Check(d) && AtCheck(s, d, nonce) && Stands(s, nonce))
  {
    hide Next, NonceOf, AtCheck, Stands, Enabled;
    if IsLocal(a) {
      LocalStep(cfg, s, a);
      if d == a.c {
        LocalHolds(cfg, s, a, nonce);
      }
    } else {
      OtherStepHolds(cfg, s, a, d, nonce);
    }
  }

  /** A grant is of the nonce its caller held. */
  lemma StepGrants(cfg: Config, s: State, a: Action)
    requires Enabled(s, a)
    ensures var t := Next(cfg, s, a);
            t.grants == s.grants
            || (a.Deliver? && |t.grants| == |s.grants| + 1 && s.grants <= t.grants
                && Holds(s, a.c, t.grants[|s.grants|].nonce))
  {
    if IsLocal(a) {
      LocalStep(cfg, s, a);
      hide Next;
    } else {
      NextIs(cfg, s, a);
      hide CanInsert, CanRotate, RotateSession, RevokeSession, RevokeIfLive, ConsumeNonce, IsFree;
    }
  }

  lemma ConsumeExpiry(s: State, c: nat, n: int)
    requires Enabled(s, Consume(c)) && n in ConsumeStep(s, c).nonces
    ensures n in s.nonces && ConsumeStep(s, c).nonces[n].expiresAt == s.nonces[n].expiresAt
  {
  }

  lemma DeliverKeepsNonces(s: State, c: nat)
    requires Enabled(s, Deliver(c))
    ensures DeliverStep(s, c).nonces == s.nonces
  {
  }

  /** Only an issue gives a nonce a new expiry, 300 seconds ahead. */
  lemma StepExpiry(cfg: Config, s: State, a: Action, n: int)
    requires n in Next(cfg, s, a).nonces
    ensures var t := Next(cfg, s, a);
            if a == IssueNonce(n) then t.nonces[n].expiresAt == s.clock + 300
            else n in s.nonces && t.nonces[n].expiresAt == s.nonces[n].expiresAt
  {
    hide CanInsert, CanRotate, RotateSession, RevokeSession, RevokeIfLive, ConsumeStep, DeliverStep;
    if Enabled(s, a) && !a.IssueNonce? {
      if IsLocal(a) {
        LocalStep(cfg, s, a);
        hide Next;
      } else if a.Consume? {
        NextIs(cfg, s, a);
        hide Next;
        ConsumeExpiry(s, a.c, n);
      } else if a.Deliver? {
        NextIs(cfg, s, a);
        hide Next;
        DeliverKeepsNonces(s, a.c);
      } else {
        StepIsQuiet(cfg, s, a);
        hide Next;
      }
    }
  }

  // ----- Whole runs -----

  /** Step j issued the nonce, and none of the steps from then up to k did. */
  ghost predicate IssuedLast(trace: seq<Action>, j: int, k: int, n: int) {
    0 <= j < k <= |trace| && trace[j] == IssueNonce(n) && forall i :: j < i < k ==> trace[i] != IssueNonce(n)
  }

  /** At step k a check let caller c through: its nonce was unconsumed, and issued last at most 300 seconds before. */
  ghost predicate PassedAt(cfg: Config, init: State, trace: seq<Action>, k: int, c: nat, n: int)
    requires 0 <= k < |trace|
  {
    var s := Execute(cfg, init, trace[..k]);
    && trace[k] == Check(c) && AtCheck(s, c, n) && n in s.nonces && s.nonces[n].consumedAt.None?
    && exists j :: IssuedLast(trace, j, k, n) && s.clock - Execute(cfg, init, trace[..j]).clock <= 300
  }

  ghost predicate Passed(cfg: Config, init: State, trace: seq<Action>, c: nat, n: int) {
    exists k :: 0 <= k < |trace| && PassedAt(cfg, init, trace, k, c, n)
  }

  lemma PassedStays(cfg: Config, init: State, trace: seq<Action>, a: Action, c: nat, n: int)
    requires Passed(cfg, init, trace, c, n)
    ensures Passed(cfg, init, trace + [a], c, n)
  {
    hide Execute, AtCheck;
    var k :| 0 <= k < |trace| && PassedAt(cfg, init, trace, k, c, n);
    var more := trace + [a];
    assert more[..k] == trace[..k];
    var j :| IssuedLast(trace, j, k, n) &&
        Execute(cfg, init, trace[..k]).clock - Execute(cfg, init, trace[..j]).clock <= 300;
    assert IssuedLast(more, j, k, n) && more[..j] == trace[..j];
    assert PassedAt(cfg, init, more, k, c, n);
  }

  /** Each row expires 300 seconds after the last issue of its nonce. */
  lemma {:induction false} ExpiryIsLastIssue(cfg: Config, clock: int, onChain: map<int, int>,
                                             trace: seq<Action>, n: int)
    returns (j: int)
    requires n in Execute(cfg, Init(clock, onChain), trace).nonces
    ensures IssuedLast(trace, j, |trace|, n)
    ensures Execute(cfg, Init(clock, onChain), trace).nonces[n].expiresAt
         == Execute(cfg, Init(clock, onChain), trace[..j]).clock + 300
  {
    hide Next;
    var m := |trace| - 1;
    var before := trace[..m];
    StepExpiry(cfg, Execute(cfg, Init(clock, onChain), before), trace[m], n);
    if trace[m] == IssueNonce(n) {
      j := m;
    } else {
      j := ExpiryIsLastIssue(cfg, clock, onChain, before, n);
      assert before[..j] == trace[..j];
    }
  }

  /** Whoever holds a nonce has passed its check, and so has whoever was granted one. */
  ghost predicate AllPassed(cfg: Config, init: State, trace: seq<Action>) {
    var s := Execute(cfg, init, trace);
    && (forall c, n :: Holds(s, c, n) ==> Passed(cfg, init, trace, c, n))
    && (forall i :: 0 <= i < |s.grants| ==> SomePassed(cfg, init, trace, s.grants[i].nonce))
  }

  ghost predicate SomePassed(cfg: Config, init: State, trace: seq<Action>, n: int) {
    exists c :: Passed(cfg, init, trace, c, n)
  }

  /** A check that lets its caller through. */
  lemma CheckPasses(cfg: Config, clock: int, onChain: map<int, int>, trace: seq<Action>, c: nat, n: int)
    requires var s := Execute(cfg, Init(clock, onChain), trace); AtCheck(s, c, n) && Stands(s, n)
    ensures Passed(cfg, Init(clock, onChain), trace + [Check(c)], c, n)
  {
    hide Execute, AtCheck;
    var j := ExpiryIsLastIssue(cfg, clock, onChain, trace, n);
    var more, k := trace + [Check(c)], |trace|;
    assert more[..k] == trace && more[..j] == trace[..j];
    assert IssuedLast(more, j, k, n);
    assert PassedAt(cfg, Init(clock, onChain), more, k, c, n);
  }

  lemma {:induction false} EveryonePassed(cfg: Config, clock: int, onChain: map<int, int>, trace: seq<Action>)
    ensures AllPassed(cfg, Init(clock, onChain), trace)
  {
    if trace == [] {
      hide Passed;
    } else {
      hide Next, AllPassed;
      EveryonePassed(cfg, clock, onChain, trace[..|trace| - 1]);
      assert trace == trace[..|trace| - 1] + [trace[|trace| - 1]];
      StepPasses(cfg, clock, onChain, trace[..|trace| - 1], trace[|trace| - 1]);
    }
  }

  lemma StepPasses(cfg: Config, clock: int, onChain: map<int, int>, before: seq<Action>, a: Action)
    requires AllPassed(cfg, Init(clock, onChain), before)
    ensures AllPassed(cfg, Init(clock, onChain), before + [a])
  {
    var init := Init(clock, onChain);
    ExecuteAppend(cfg, init, before, a);
    var t := Execute(cfg, init, before + [a]);
    hide Execute, Next, Holds, Passed, SomePassed;
    forall c, n | Holds(t, c, n)
      ensures Passed(cfg, init, before + [a], c, n)
    {
      HolderPassed(cfg, clock, onChain, before, a, c, n);
    }
    forall i | 0 <= i < |t.grants|
      ensures SomePassed(cfg, init, before + [a], t.grants[i].nonce)
    {
      GrantPassed(cfg, clock, onChain, before, a, i);
    }
  }

  lemma HolderPassed(cfg: Config, clock: int, onChain: map<int, int>, before: seq<Action>, a: Action, c: nat, n: int)
    requires AllPassed(cfg, Init(clock, onChain), before)
    requires Holds(Next(cfg, Execute(cfg, Init(clock, onChain), before), a), c, n)
    ensures Passed(cfg, Init(clock, onChain), before + [a], c, n)
  {
    var s := Execute(cfg, Init(clock, onChain), before);
    if Enabled(s, a) {
      StepHolds(cfg, s, a, c, n);
    }
    hide Execute, Holds, Passed, AtCheck, Stands, Enabled;
    if Holds(s, c, n) {
      PassedStays(cfg, Init(clock, onChain), before, a, c, n);
    } else {
      CheckPasses(cfg, clock, onChain, before, c, n);
    }
  }

  lemma GrantPassed(cfg: Config, clock: int, onChain: map<int, int>, before: seq<Action>, a: Action, i: nat)
    requires AllPassed(cfg, Init(clock, onChain), before)
    requires i < |Next(cfg, Execute(cfg, Init(clock, onChain), before), a).grants|
    ensures SomePassed(cfg, Init(clock, onChain), before + [a],
                       Next(cfg, Execute(cfg, Init(clock, onChain), before), a).grants[i].nonce)
  {
    hide Execute, Passed, Holds, Enabled;
    var init := Init(clock, onChain);
    var s := Execute(cfg, init, before);
    if !Enabled(s, a) {
      SomePassedStays(cfg, init, before, a, s.grants[i].nonce);
    } else {
      StepGrants(cfg, s, a);
      hide Next;
      var t := Next(cfg, s, a);
      var n := t.grants[i].nonce;
      if i < |s.grants| {
        assert s.grants[i] == t.grants[i];
        SomePassedStays(cfg, init, before, a, n);
      } else {
        assert Holds(s, a.c, n);
        PassedStays(cfg, init, before, a, a.c, n);
      }
    }
  }

  lemma SomePassedStays(cfg: Config, init: State, trace: seq<Action>, a: Action, n: int)
    requires SomePassed(cfg, init, trace, n)
    ensures SomePassed(cfg, init, trace + [a], n)
  {
    hide Passed;
    var c :| Passed(cfg, init, trace, c, n);
    PassedStays(cfg, init, trace, a, c, n);
  }

  /**
   * Over every interleaving: each Ok answer of a login or a link goes back to a check, of a request
   * whose signature matched, at which its nonce was unconsumed and at most 300 seconds past its
   * last issue before that check.
   */
  lemma GrantsWereChecked(cfg: Config, clock: int, onChain: map<int, int>, trace: seq<Action>, i: nat)
    returns (k: int, c: nat, j: int)
    requires i < |Execute(cfg, Init(clock, onChain), trace).grants|
    ensures var init := Init(clock, onChain); var n := Execute(cfg, init, trace).grants[i].nonce;
            && 0 <= j < k < |trace| && trace[k] == Check(c) && trace[j] == IssueNonce(n)
            && (forall l :: j < l < k ==> trace[l] != IssueNonce(n))
            && var s := Execute(cfg, init, trace[..k]);
               && c in s.pcs && s.pcs[c].Checking? && s.pcs[c].req.nonce == n && s.pcs[c].req.signed
               && n in s.nonces && s.nonces[n].consumedAt.None?
               && s.clock <= Execute(cfg, init, trace[..j]).clock + 300
  {
    EveryonePassed(cfg, clock, onChain, trace);
    hide Execute;
    var init := Init(clock, onChain);
    var n := Execute(cfg, init, trace).grants[i].nonce;
    c :| Passed(cfg, init, trace, c, n);
    k :| 0 <= k < |trace| && PassedAt(cfg, init, trace, k, c, n);
    j :| IssuedLast(trace, j, k, n) &&
        Execute(cfg, init, trace[..k]).clock - Execute(cfg, init, trace[..j]).clock <= 300;
  }
}
