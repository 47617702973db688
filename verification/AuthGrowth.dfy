/** What every step of every caller keeps, and what the steps of others cannot change for one caller. */
module AuthGrowth {
  import opened AuthFrames
  import opened AuthProtocol
  import opened AuthSessions
  import opened AuthTables
  import opened Prelude

  /** The caller that takes a step, if it is a caller's. */
  function CallerOf(a: Action): Option<nat> {
    match a
    case Tick(_) => None
    case SetChainRole(_, _) => None
    case IssueNonce(_) => None
    case Logout(_) => None
    case AdminRevoke(_) => None
    case _ => Some(a.c)
  }

  ghost predicate LogsGrow(s: State, t: State) {
    s.grants <= t.grants && s.tokens <= t.tokens && s.rotated <= t.rotated && s.chain <= t.chain && |s.used| <= |t.used|
  }

  ghost predicate Grows(s: State, t: State) {
    s.clock <= t.clock && LogsGrow(s, t) && Ages(s.sessions, t.sessions) && WalletsStay(s.wallets, t.wallets)
  }

  lemma GrowsTrans(s: State, t: State, u: State)
    requires Grows(s, t) && Grows(t, u)
    ensures Grows(s, u)
  {
  }

  /** Logs and wallet rows after a step. */
  lemma TablesGrow(cfg: Config, s: State, a: Action)
    requires Enabled(s, a)
    ensures LogsGrow(s, Next(cfg, s, a)) && WalletsStay(s.wallets, Next(cfg, s, a).wallets)
  {
    if IsLocal(a) {
      LocalStep(cfg, s, a);
      hide Next, WalletsStay;
    } else {
      NextIs(cfg, s, a);
      hide RotateSession, CanInsert, CanRotate, RevokeSession, RevokeIfLive, ConsumeNonce, IsFree;
    }
  }

  /** Every step lets time pass, keeps every row's identity and only adds to the logs. */
  lemma StepGrows(cfg: Config, s: State, a: Action)
    requires SessionInv(s) && Enabled(s, a)
    ensures Grows(s, Next(cfg, s, a))
  {
    hide Next, SessionInv, LogsGrow, WalletsStay, Ages;
    StepKeepsSessionInv(cfg, s, a);
    ClockMoves(cfg, s, a);
    TablesGrow(cfg, s, a);
  }

  /** Where caller c is, if it is under way. */
  function PcOf(s: State, c: nat): Option<Pc> {
    if c in s.pcs then Some(s.pcs[c]) else None
  }

  /** The steps of others do not move caller c. */
  lemma OthersStay(cfg: Config, s: State, a: Action, c: nat)
    requires Enabled(s, a) && CallerOf(a) != Some(c)
    ensures PcOf(Next(cfg, s, a), c) == PcOf(s, c)
  {
    if IsLocal(a) {
      LocalStep(cfg, s, a);
      hide Next;
    } else {
      NextIs(cfg, s, a);
      hide RotateSession, CanInsert, CanRotate, RevokeSession, RevokeIfLive, ConsumeNonce, IsFree;
    }
  }
}
