/** A nonce is spent once: every Ok answer is paid for by its own consumption of an issued nonce. */
module AuthNonces {
  import opened AuthFrames
  import opened AuthProtocol
  import opened AuthTables
  import opened Prelude

  function Count(s: seq<int>, n: int): nat {
    if s == [] then 0 else Count(s[..|s| - 1], n) + if s[|s| - 1] == n then 1 else 0
  }

  /** How often a nonce was consumed. */
  function Uses(used: seq<Use>, n: int): nat {
    if used == [] then 0 else Uses(used[..|used| - 1], n) + if used[|used| - 1].nonce == n then 1 else 0
  }

  function AnsweredUses(used: seq<Use>, n: int): nat {
    if used == [] then 0
    else AnsweredUses(used[..|used| - 1], n) + if used[|used| - 1] == Use(n, true) then 1 else 0
  }

  /** How many Ok answers a nonce led to. */
  function Grants(grants: seq<Grant>, n: int): nat {
    if grants == [] then 0 else Grants(grants[..|grants| - 1], n) + if grants[|grants| - 1].nonce == n then 1 else 0
  }

  function Free(nonces: Nonces, n: int): nat {
    if IsFree(nonces, n) then 1 else 0
  }

  /** A caller about to answer holds an unanswered use of its nonce that no other caller holds. */
  ghost predicate TicketsOk(s: State) {
    && (forall c :: c in s.pcs && s.pcs[c].Delivering? ==>
          s.pcs[c].ticket < |s.used| && s.used[s.pcs[c].ticket] == Use(s.pcs[c].out.nonce, false))
    && (forall c, d :: c in s.pcs && d in s.pcs && s.pcs[c].Delivering? && s.pcs[d].Delivering? && c != d ==>
          s.pcs[c].ticket != s.pcs[d].ticket)
  }

  ghost predicate BalanceOk(s: State, n: int) {
    && Uses(s.used, n) + Free(s.nonces, n) <= Count(s.issued, n)
    && Grants(s.grants, n) == AnsweredUses(s.used, n)
  }

  ghost predicate NonceInv(s: State) {
    TicketsOk(s) && forall n :: BalanceOk(s, n)
  }

  // ----- Counting -----

  lemma CountAppend(s: seq<int>, x: int, n: int)
    ensures Count(s + [x], n) == Count(s, n) + if x == n then 1 else 0
  {
    assert (s + [x])[..|s|] == s;
  }

  lemma UsesAppend(used: seq<Use>, u: Use, n: int)
    ensures Uses(used + [u], n) == Uses(used, n) + if u.nonce == n then 1 else 0
    ensures AnsweredUses(used + [u], n) == AnsweredUses(used, n) + if u == Use(n, true) then 1 else 0
  {
    assert (used + [u])[..|used|] == used;
  }

  lemma GrantsAppend(grants: seq<Grant>, g: Grant, n: int)
    ensures Grants(grants + [g], n) == Grants(grants, n) + if g.nonce == n then 1 else 0
  {
    assert (grants + [g])[..|grants|] == grants;
  }

  lemma {:induction false} AnswerUse(used: seq<Use>, k: nat, n: int)
    requires k < |used| && !used[k].answered
    ensures var t := used[k := used[k].(answered := true)];
            && Uses(t, n) == Uses(used, n)
            && AnsweredUses(t, n) == AnsweredUses(used, n) + if used[k].nonce == n then 1 else 0
  {
    var t := used[k := used[k].(answered := true)];
    var m := |used| - 1;
    if k == m {
      assert t[..m] == used[..m];
    } else {
      AnswerUse(used[..m], k, n);
      assert t[..m] == used[..m][k := used[k].(answered := true)];
    }
  }

  lemma {:induction false} AnsweredAtMostUses(used: seq<Use>, n: int)
    ensures AnsweredUses(used, n) <= Uses(used, n)
  {
    if used != [] {
      AnsweredAtMostUses(used[..|used| - 1], n);
    }
  }

  // ----- Every step keeps the invariant -----

  ghost predicate Quiet(s: State, t: State) {
    && s.nonces == t.nonces && s.issued == t.issued && s.used == t.used && s.grants == t.grants
    && forall c :: c in t.pcs && t.pcs[c].Delivering? ==> c in s.pcs && t.pcs[c] == s.pcs[c]
  }

  /** A step that consumes and answers nothing, and brings no caller to its answer. */
  lemma QuietStep(s: State, t: State)
    requires NonceInv(s) && Quiet(s, t)
    ensures NonceInv(t)
  {
    forall n ensures BalanceOk(t, n) {
      assert BalanceOk(s, n);
    }
  }

  lemma IssueBalance(s: State, nonce: int, expiresAt: int, n: int)
    requires BalanceOk(s, n)
    ensures BalanceOk(s.(nonces := PersistNonce(s.nonces, nonce, expiresAt), issued := s.issued + [nonce]), n)
  {
    CountAppend(s.issued, nonce, n);
    hide Count, Uses, Grants, AnsweredUses;
  }

  lemma IssueKeeps(cfg: Config, s: State, nonce: int)
    requires NonceInv(s)
    ensures NonceInv(Next(cfg, s, IssueNonce(nonce)))
  {
    var t := Next(cfg, s, IssueNonce(nonce));
    assert t == s.(nonces := PersistNonce(s.nonces, nonce, s.clock + NONCE_TTL), issued := s.issued + [nonce]);
    hide Next, BalanceOk, PersistNonce;
    forall n ensures BalanceOk(t, n) {
      IssueBalance(s, nonce, s.clock + NONCE_TTL, n);
    }
  }

  /** A consumption uses up the free nonce: the balance of every nonce stays. */
  lemma ConsumeBalance(s: State, c: nat, n: int)
    requires BalanceOk(s, n) && Enabled(s, Consume(c)) && IsFree(s.nonces, s.pcs[c].out.nonce)
    ensures BalanceOk(ConsumeStep(s, c), n)
  {
    UsesAppend(s.used, Use(s.pcs[c].out.nonce, false), n);
    hide Count, Uses, Grants, AnsweredUses;
  }

  /** The consumer gets the ticket of its own new use. */
  lemma ConsumeTickets(s: State, c: nat)
    requires TicketsOk(s) && Enabled(s, Consume(c)) && IsFree(s.nonces, s.pcs[c].out.nonce)
    ensures TicketsOk(ConsumeStep(s, c))
  {
    hide ConsumeNonce, IsFree;
  }

  lemma ConsumeKeeps(cfg: Config, s: State, c: nat)
    requires NonceInv(s) && Enabled(s, Consume(c))
    ensures NonceInv(Next(cfg, s, Consume(c)))
  {
    NextIs(cfg, s, Consume(c));
    var t := Next(cfg, s, Consume(c));
    hide Next, BalanceOk;
    if IsFree(s.nonces, s.pcs[c].out.nonce) {
      ConsumeTickets(s, c);
      hide ConsumeStep, TicketsOk;
      forall n ensures BalanceOk(t, n) {
        ConsumeBalance(s, c, n);
      }
    } else {
      QuietStep(s, t);
    }
  }

  lemma DeliverKeeps(cfg: Config, s: State, c: nat)
    requires NonceInv(s) && Enabled(s, Deliver(c))
    ensures NonceInv(Next(cfg, s, Deliver(c)))
  {
    var t := Next(cfg, s, Deliver(c));
    var pc := s.pcs[c];
    forall n ensures BalanceOk(t, n) {
      assert BalanceOk(s, n);
      AnswerUse(s.used, pc.ticket, n);
      GrantsAppend(s.grants, Grant(pc.out.nonce, pc.out.kind, pc.out.session), n);
    }
  }

  /** A session is stored or rotated: its caller goes on, though not to its answer. */
  lemma SessionStepIsQuiet(cfg: Config, s: State, a: Action)
    requires (a.CreateSession? || a.Rotate?) && Enabled(s, a)
    ensures Quiet(s, Next(cfg, s, a))
  {
    NextIs(cfg, s, a);
    hide Next, RotateSession, CanInsert, CanRotate;
  }

  /** Steps that leave nonces and answers alone. */
  lemma StepIsQuiet(cfg: Config, s: State, a: Action)
    requires !a.IssueNonce? && !a.Consume? && !a.Deliver?
    ensures Quiet(s, Next(cfg, s, a))
  {
    if !Enabled(s, a) {
    } else if IsLocal(a) {
      LocalStep(cfg, s, a);
      hide Next;
    } else if a.CreateSession? || a.Rotate? {
      SessionStepIsQuiet(cfg, s, a);
      hide *;
    } else {
      hide RevokeSession, RevokeIfLive, Enabled, IsLocal;
    }
  }

  lemma StepKeepsNonceInv(cfg: Config, s: State, a: Action)
    requires NonceInv(s)
    ensures NonceInv(Next(cfg, s, a))
  {
    match a
    case IssueNonce(nonce) => IssueKeeps(cfg, s, nonce);
    case Consume(c) =>
      if Enabled(s, a) { ConsumeKeeps(cfg, s, c); }
    case Deliver(c) =>
      if Enabled(s, a) { DeliverKeeps(cfg, s, c); }
    case _ =>
      StepIsQuiet(cfg, s, a);
      hide Next, NonceInv;
      QuietStep(s, Next(cfg, s, a));
  }

  lemma {:induction false} ReachableNonceInv(cfg: Config, clock: int, onChain: map<int, int>, trace: seq<Action>)
    ensures NonceInv(Execute(cfg, Init(clock, onChain), trace))
  {
    if trace != [] {
      ReachableNonceInv(cfg, clock, onChain, trace[..|trace| - 1]);
      StepKeepsNonceInv(cfg, Execute(cfg, Init(clock, onChain), trace[..|trace| - 1]), trace[|trace| - 1]);
    }
  }

  // ----- The theorem -----

  /** Over every interleaving, a nonce leads to no more Ok answers than times it was issued. */
  lemma AnswersAtMostIssues(cfg: Config, clock: int, onChain: map<int, int>, trace: seq<Action>, n: int)
    ensures var s := Execute(cfg, Init(clock, onChain), trace);
            Grants(s.grants, n) <= Count(s.issued, n)
  {
    ReachableNonceInv(cfg, clock, onChain, trace);
    var s := Execute(cfg, Init(clock, onChain), trace);
    assert BalanceOk(s, n);
    AnsweredAtMostUses(s.used, n);
  }

  ghost predicate NeverRepeats(issued: seq<int>) {
    forall i, j :: 0 <= i < j < |issued| ==> issued[i] != issued[j]
  }

  lemma {:induction false} CountOfDistinct(issued: seq<int>, n: int)
    requires NeverRepeats(issued)
    ensures Count(issued, n) <= 1 && (Count(issued, n) == 1 <==> n in issued)
  {
    if issued != [] {
      var m := |issued| - 1;
      CountOfDistinct(issued[..m], n);
      assert issued == issued[..m] + [issued[m]];
      assert n in issued[..m] ==> exists i :: 0 <= i < m && issued[i] == n;
    }
  }

  lemma {:induction false} TwoGrantsCount(grants: seq<Grant>, i: nat, j: nat)
    requires i < j < |grants| && grants[i].nonce == grants[j].nonce
    ensures Grants(grants, grants[i].nonce) >= 2
  {
    var m := |grants| - 1;
    if j < m {
      TwoGrantsCount(grants[..m], i, j);
    } else {
      OneGrantCounts(grants[..m], i);
    }
  }

  lemma {:induction false} OneGrantCounts(grants: seq<Grant>, i: nat)
    requires i < |grants|
    ensures Grants(grants, grants[i].nonce) >= 1
  {
    var m := |grants| - 1;
    if i < m {
      OneGrantCounts(grants[..m], i);
    }
  }

  /** With nonces that never repeat, the nonce of a grant was issued, used exactly once and is free no more. */
  lemma GrantSpends(cfg: Config, clock: int, onChain: map<int, int>, trace: seq<Action>, i: nat)
    requires NeverRepeats(Execute(cfg, Init(clock, onChain), trace).issued)
    requires i < |Execute(cfg, Init(clock, onChain), trace).grants|
    ensures var s := Execute(cfg, Init(clock, onChain), trace); var n := s.grants[i].nonce;
            n in s.issued && Uses(s.used, n) == 1 && Grants(s.grants, n) == 1 && !IsFree(s.nonces, n)
  {
    var s := Execute(cfg, Init(clock, onChain), trace);
    var n := s.grants[i].nonce;
    ReachableNonceInv(cfg, clock, onChain, trace);
    hide Execute;
    assert BalanceOk(s, n);
    OneGrantCounts(s.grants, i);
    AnsweredAtMostUses(s.used, n);
    CountOfDistinct(s.issued, n);
  }

  /**
   * With nonces that never repeat, each nonce leads to at most one Ok answer of login or
   * link_wallet, and it was issued, consumed exactly once and is not free again.
   */
  lemma NonceSpentOnce(cfg: Config, clock: int, onChain: map<int, int>, trace: seq<Action>)
    requires NeverRepeats(Execute(cfg, Init(clock, onChain), trace).issued)
    ensures var s := Execute(cfg, Init(clock, onChain), trace);
            && (forall i, j :: 0 <= i < j < |s.grants| ==> s.grants[i].nonce != s.grants[j].nonce)
            && (forall i :: 0 <= i < |s.grants| ==>
                  var n := s.grants[i].nonce; n in s.issued && Uses(s.used, n) == 1 && !IsFree(s.nonces, n))
  {
    var s := Execute(cfg, Init(clock, onChain), trace);
    hide Execute;
    forall i, j | 0 <= i < j < |s.grants|
      ensures s.grants[i].nonce != s.grants[j].nonce
    {
      GrantSpends(cfg, clock, onChain, trace, i);
      if s.grants[j].nonce == s.grants[i].nonce {
        TwoGrantsCount(s.grants, i, j);
      }
    }
    forall i | 0 <= i < |s.grants|
      ensures var n := s.grants[i].nonce; n in s.issued && Uses(s.used, n) == 1 && !IsFree(s.nonces, n)
    {
      GrantSpends(cfg, clock, onChain, trace, i);
    }
  }

  /** Freshness is needed: issuing a consumed nonce again makes it valid and free again. */
  lemma ReissueRevives(t: Nonces, nonce: int, now: int, later: int)
    requires IsFree(t, nonce) && later <= now + NONCE_TTL
    ensures !IsFree(ConsumeNonce(t, nonce, now), nonce)
    ensures NonceError(ConsumeNonce(t, nonce, now), nonce, later).Some?
    ensures var again := PersistNonce(ConsumeNonce(t, nonce, now), nonce, now + NONCE_TTL);
            IsFree(again, nonce) && NonceError(again, nonce, later).None?
  {
  }
}
