/**
 * The bound on answers is tight: for every k there is a run that issues one nonce k times and
 * answers Ok for it k times.
 */
module AuthReuse {
  import opened AuthNonces
  import opened AuthProtocol
  import opened AuthSessions
  import opened AuthTables
  import opened Prelude

  const NONCE := 7

  /** Address 5 belongs to user 1, who signs for it. */
  function Link(nonce: int): Request {
    Request(nonce, 5, 1, true)
  }

  function Owned(): Wallets {
    map[1 := WalletRow(1, 5, 1, None)]
  }

  function LinkOutcome(): Outcome {
    Outcome(ViaLink, NONCE, 5, NoRole, 0, 1, 1)
  }

  /** Nobody is under way, and the address has its owner. */
  ghost predicate Idle(s: State) {
    s.chain != [] && s.pcs == map[] && s.wallets == Owned()
  }

  /** Caller 0 is at this step and its nonce is good. */
  ghost predicate Under(s: State, pc: Pc, issued: seq<int>, grants: seq<Grant>) {
    && s.chain != [] && s.pcs == map[0 := pc] && s.wallets == Owned()
    && NonceError(s.nonces, NONCE, s.clock).None? && s.issued == issued && s.grants == grants
  }

  lemma BeginLink(cfg: Config, s: State)
    requires Idle(s)
    ensures var t := Next(cfg, Next(cfg, s, IssueNonce(NONCE)), Start(0, Checking(Link(NONCE), Some(1))));
            Under(t, Checking(Link(NONCE), Some(1)), s.issued + [NONCE], s.grants)
  {
    var u := Next(cfg, s, IssueNonce(NONCE));
    assert u.pcs == map[] && u.wallets == Owned() && NonceError(u.nonces, NONCE, u.clock).None?;
  }

  lemma CheckLink(cfg: Config, s: State, issued: seq<int>, grants: seq<Grant>)
    requires Under(s, Checking(Link(NONCE), Some(1)), issued, grants)
    ensures Under(Next(cfg, s, Check(0)), FindingOwner(Link(NONCE), 1), issued, grants)
  {
    NextIs(cfg, s, Check(0));
    hide Next;
  }

  lemma FindLinked(cfg: Config, s: State, issued: seq<int>, grants: seq<Grant>)
    requires Under(s, FindingOwner(Link(NONCE), 1), issued, grants)
    ensures Under(Next(cfg, s, FindOwner(0, Some(1))), Consuming(LinkOutcome()), issued, grants)
  {
    NextIs(cfg, s, FindOwner(0, Some(1)));
    hide Next;
  }

  /** Caller 0 is about to consume its nonce, which is free, expired or not. */
  ghost predicate AboutToSpend(s: State, issued: seq<int>, grants: seq<Grant>) {
    && s.chain != [] && s.pcs == map[0 := Consuming(LinkOutcome())] && s.wallets == Owned()
    && IsFree(s.nonces, NONCE) && s.issued == issued && s.grants == grants
  }

  lemma SpendAndDeliver(cfg: Config, s: State, issued: seq<int>, grants: seq<Grant>)
    requires AboutToSpend(s, issued, grants)
    ensures var t := Next(cfg, Next(cfg, s, Consume(0)), Deliver(0));
            Idle(t) && t.issued == issued && t.grants == grants + [Grant(NONCE, ViaLink, 0)]
  {
    hide Next;
    NextIs(cfg, s, Consume(0));
    var u := Next(cfg, s, Consume(0));
    assert u.pcs == map[0 := Delivering(LinkOutcome(), |s.used|)] && |u.used| == |s.used| + 1;
    assert u.wallets == Owned() && u.issued == issued && u.grants == grants && u.chain != [];
    hide ConsumeStep;
    NextIs(cfg, u, Deliver(0));
  }

  lemma OneMore(cfg: Config, trace: seq<Action>, s: State, a: Action) returns (more: seq<Action>, t: State)
    requires s == Execute(cfg, Init(0, map[]), trace)
    ensures more == trace + [a] && t == Next(cfg, s, a) == Execute(cfg, Init(0, map[]), more)
  {
    more, t := trace + [a], Next(cfg, s, a);
    ExecuteAppend(cfg, Init(0, map[]), trace, a);
  }

  /** One round: the nonce is issued, and a link of the address spends it. */
  lemma Round(cfg: Config, trace: seq<Action>, s: State) returns (more: seq<Action>, t: State)
    requires s == Execute(cfg, Init(0, map[]), trace) && Idle(s)
    ensures t == Execute(cfg, Init(0, map[]), more) && Idle(t)
    ensures t.issued == s.issued + [NONCE] && t.grants == s.grants + [Grant(NONCE, ViaLink, 0)]
  {
    var b;
    more, b := UpToSpending(cfg, trace, s);
    hide Execute, Next, Idle, AboutToSpend;
    SpendAndDeliver(cfg, b, s.issued + [NONCE], s.grants);
    more, t := OneMore(cfg, more, b, Consume(0));
    more, t := OneMore(cfg, more, t, Deliver(0));
  }

  /** The nonce is issued and a link of the address passes its check. */
  lemma UpToSpending(cfg: Config, trace: seq<Action>, s: State) returns (more: seq<Action>, t: State)
    requires s == Execute(cfg, Init(0, map[]), trace) && Idle(s)
    ensures t == Execute(cfg, Init(0, map[]), more) && AboutToSpend(t, s.issued + [NONCE], s.grants)
    ensures trace + [IssueNonce(NONCE)] <= more
    ensures forall i :: |trace| < i < |more| ==> more[i] != IssueNonce(NONCE)
  {
    hide Execute, Next, Idle, Under;
    BeginLink(cfg, s);
    more, t := OneMore(cfg, trace, s, IssueNonce(NONCE));
    more, t := OneMore(cfg, more, t, Start(0, Checking(Link(NONCE), Some(1))));
    CheckLink(cfg, t, s.issued + [NONCE], s.grants);
    more, t := OneMore(cfg, more, t, Check(0));
    FindLinked(cfg, t, s.issued + [NONCE], s.grants);
    more, t := OneMore(cfg, more, t, FindOwner(0, Some(1)));
    StillFree(t, s.issued + [NONCE], s.grants);
  }

  lemma StillFree(s: State, issued: seq<int>, grants: seq<Grant>)
    requires Under(s, Consuming(LinkOutcome()), issued, grants)
    ensures AboutToSpend(s, issued, grants)
  {
  }

  /** A link with another nonce that is cut off once its wallet row is there. */
  lemma FirstLinkSteps(cfg: Config)
    ensures var s := Next(cfg, Next(cfg, Init(0, map[]), IssueNonce(8)), Start(0, Checking(Link(8), Some(1))));
            && s.issued == [8] && s.grants == [] && s.chain != [] && s.wallets == map[]
            && s.pcs == map[0 := Checking(Link(8), Some(1))] && NonceError(s.nonces, 8, s.clock).None?
  {
    var s := Next(cfg, Init(0, map[]), IssueNonce(8));
    assert s.pcs == map[] && s.issued == [8] && NonceError(s.nonces, 8, s.clock).None?;
  }

  lemma CheckAndFind(cfg: Config, s: State)
    requires s.pcs == map[0 := Checking(Link(8), Some(1))] && NonceError(s.nonces, 8, s.clock).None?
    requires s.wallets == map[]
    ensures Next(cfg, Next(cfg, s, Check(0)), FindOwner(0, None)) == s.(pcs := map[0 := LinkingWallet(Link(8), 1)])
  {
    hide Next;
    NextIs(cfg, s, Check(0));
    var a := Next(cfg, s, Check(0));
    assert a == s.(pcs := map[0 := FindingOwner(Link(8), 1)]);
    NextIs(cfg, a, FindOwner(0, None));
  }

  lemma LinkAndFail(cfg: Config, s: State)
    requires s.pcs == map[0 := LinkingWallet(Link(8), 1)] && s.wallets == map[] && s.chain != []
    ensures var t := Next(cfg, Next(cfg, s, LinkWallet(0, 1)), Fail(0));
            Idle(t) && t.issued == s.issued && t.grants == s.grants
  {
    hide Next;
    NextIs(cfg, s, LinkWallet(0, 1));
    var a := Next(cfg, s, LinkWallet(0, 1));
    assert a == s.(pcs := map[0 := LoadingRole(ForLink(Link(8), 1, 1))], wallets := Owned());
    CutOff(cfg, a);
  }

  lemma CutOff(cfg: Config, s: State)
    requires s.pcs == map[0 := LoadingRole(ForLink(Link(8), 1, 1))]
    ensures Next(cfg, s, Fail(0)) == s.(pcs := map[])
  {
    hide Link;
  }

  lemma Prepare(cfg: Config) returns (trace: seq<Action>, s: State)
    ensures s == Execute(cfg, Init(0, map[]), trace) && Idle(s) && s.issued == [8] && s.grants == []
  {
    trace, s := [], Init(0, map[]);
    assert Execute(cfg, Init(0, map[]), []) == s;
    hide Execute, Next, Idle, NonceError, Link;
    FirstLinkSteps(cfg);
    trace, s := OneMore(cfg, trace, s, IssueNonce(8));
    trace, s := OneMore(cfg, trace, s, Start(0, Checking(Link(8), Some(1))));
    CheckAndFind(cfg, s);
    trace, s := OneMore(cfg, trace, s, Check(0));
    trace, s := OneMore(cfg, trace, s, FindOwner(0, None));
    LinkAndFail(cfg, s);
    trace, s := OneMore(cfg, trace, s, LinkWallet(0, 1));
    trace, s := OneMore(cfg, trace, s, Fail(0));
  }

  /** For every k, one nonce issued k times gives k Ok answers in some run. */
  lemma {:induction false} BoundIsTight(cfg: Config, k: nat) returns (trace: seq<Action>, s: State)
    ensures s == Execute(cfg, Init(0, map[]), trace) && Idle(s)
    ensures Count(s.issued, NONCE) == k && Grants(s.grants, NONCE) == k
  {
    if k == 0 {
      trace, s := Prepare(cfg);
      assert [8][..0] == [];
    } else {
      var before, r := BoundIsTight(cfg, k - 1);
      trace, s := Round(cfg, before, r);
      hide Execute, Idle;
      CountAppend(r.issued, NONCE, NONCE);
      GrantsAppend(r.grants, Grant(NONCE, ViaLink, 0), NONCE);
    }
  }

  lemma WaitKeeps(cfg: Config, s: State, delay: nat, issued: seq<int>, grants: seq<Grant>)
    requires AboutToSpend(s, issued, grants)
    ensures var t := Next(cfg, s, Tick(delay)); AboutToSpend(t, issued, grants) && t.clock == s.clock + delay
  {
  }

  /**
   * The consumption does not look at the expiry: for any delay there is a run with one issue of a
   * nonce and an Ok answer for it that much later.
   */
  lemma LateAnswer(cfg: Config, delay: nat) returns (trace: seq<Action>, s: State, j: nat)
    ensures s == Execute(cfg, Init(0, map[]), trace) && s.grants == [Grant(NONCE, ViaLink, 0)]
    ensures j < |trace| && trace[j] == IssueNonce(NONCE)
    ensures forall i :: j < i < |trace| ==> trace[i] != IssueNonce(NONCE)
    ensures s.clock >= Execute(cfg, Init(0, map[]), trace[..j]).clock + delay
  {
    hide Execute, Next, Idle, AboutToSpend, Grants, Count;
    var before, first := Prepare(cfg);
    j := |before|;
    var more, b := UpToSpending(cfg, before, first);
    ClockOfPrefix(cfg, before, more);
    WaitKeeps(cfg, b, delay, first.issued + [NONCE], first.grants);
    trace, s := OneMore(cfg, more, b, Tick(delay));
    SpendAndDeliver(cfg, s, first.issued + [NONCE], first.grants);
    ClockMoves(cfg, s, Consume(0));
    trace, s := OneMore(cfg, trace, s, Consume(0));
    ClockMoves(cfg, s, Deliver(0));
    trace, s := OneMore(cfg, trace, s, Deliver(0));
    assert trace[..j] == before;
  }

  lemma {:induction false} ClockOfPrefix(cfg: Config, t: seq<Action>, more: seq<Action>)
    requires t <= more
    ensures Execute(cfg, Init(0, map[]), more).clock >= Execute(cfg, Init(0, map[]), t).clock
  {
    if t != more {
      var n := |more| - 1;
      hide Next;
      ClockOfPrefix(cfg, t, more[..n]);
      ClockMoves(cfg, Execute(cfg, Init(0, map[]), more[..n]), more[n]);
    }
  }
}
