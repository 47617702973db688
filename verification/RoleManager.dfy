/**
 * The role contract.  A call that fails a `require` changes nothing.  The zero address never
 * sends a transaction, so senders are non-zero.
 */
module RoleManager {

  type Address = nat

  const ZERO: Address := 0

  datatype Role = NoRole | Admin | Viewer

  datatype Event =
    | RoleUpdated(user: Address, previousRole: Role, newRole: Role)
    | OwnershipTransferred(previousOwner: Address, newOwner: Address)

  datatype State = State(roles: map<Address, Role>, owner: Address, log: seq<Event>)

  datatype Op = TransferOwnership(newOwner: Address) | RenounceOwnership | SetRole(user: Address, role: Role)

  datatype Call = Call(sender: Address, op: Op)

  function RoleOf(roles: map<Address, Role>, a: Address): Role {
    if a in roles then roles[a] else NoRole
  }

  /** The user now has the role, and everyone else has the role they had. */
  ghost predicate GivesOnly(before: map<Address, Role>, after: map<Address, Role>, user: Address, role: Role) {
    RoleOf(after, user) == role && forall a :: a != user ==> RoleOf(after, a) == RoleOf(before, a)
  }

  /** Owner or Admin: whoever may set roles. */
  predicate HasAuthority(s: State, a: Address) {
    a == s.owner || RoleOf(s.roles, a) == Admin
  }

  predicate Allowed(s: State, c: Call) {
    match c.op
    case TransferOwnership(newOwner) => c.sender == s.owner && newOwner != ZERO
    case RenounceOwnership => c.sender == s.owner
    case SetRole(user, _) => HasAuthority(s, c.sender) && user != ZERO
  }

  function Deploy(deployer: Address): State {
    State(map[deployer := Admin], deployer,
          [OwnershipTransferred(ZERO, deployer), RoleUpdated(deployer, NoRole, Admin)])
  }

  function Apply(s: State, c: Call): State {
    if !Allowed(s, c) then s
    else match c.op
      case TransferOwnership(newOwner) =>
        State(s.roles[newOwner := Admin], newOwner,
              s.log + [OwnershipTransferred(s.owner, newOwner), RoleUpdated(newOwner, NoRole, Admin)])
      case RenounceOwnership =>
        s.(owner := ZERO, log := s.log + [OwnershipTransferred(s.owner, ZERO)])
      case SetRole(user, role) =>
        s.(roles := s.roles[user := role], log := s.log + [RoleUpdated(user, RoleOf(s.roles, user), role)])
  }

  /** The contract's storage and the functions that write it; `ok` is false on a revert. */
  class Contract {
    var roles: map<Address, Role>
    var owner: Address
    var log: seq<Event>

    function Abs(): State
      reads this
    {
      State(roles, owner, log)
    }

    constructor (sender: Address)
      ensures Abs() == Deploy(sender)
    {
      owner := sender;
      roles := map[sender := Admin];
      log := [OwnershipTransferred(ZERO, sender), RoleUpdated(sender, NoRole, Admin)];
    }

    method DoTransferOwnership(sender: Address, newOwner: Address) returns (ok: bool)
      modifies this
      ensures ok == Allowed(old(Abs()), Call(sender, TransferOwnership(newOwner)))
      ensures Abs() == Apply(old(Abs()), Call(sender, TransferOwnership(newOwner)))
      ensures ok <==> sender == old(owner) && newOwner != 0
      ensures ok ==> owner == newOwner && GivesOnly(old(roles), roles, newOwner, Admin)
      ensures ok ==>
                log == old(log) + [OwnershipTransferred(old(owner), newOwner), RoleUpdated(newOwner, NoRole, Admin)]
      ensures !ok ==> Abs() == old(Abs())
    {
      if sender != owner || newOwner == ZERO {
        return false;
      }
      var previousOwner := owner;
      owner := newOwner;
      roles := roles[newOwner := Admin];
      log := log + [OwnershipTransferred(previousOwner, newOwner)];
      log := log + [RoleUpdated(newOwner, NoRole, Admin)];
      return true;
    }

    method DoRenounceOwnership(sender: Address) returns (ok: bool)
      modifies this
      ensures ok == Allowed(old(Abs()), Call(sender, RenounceOwnership))
      ensures Abs() == Apply(old(Abs()), Call(sender, RenounceOwnership))
      ensures ok <==> sender == old(owner)
      ensures ok ==> owner == 0 && roles == old(roles) && log == old(log) + [OwnershipTransferred(old(owner), 0)]
      ensures !ok ==> Abs() == old(Abs())
    {
      if sender != owner {
        return false;
      }
      var previousOwner := owner;
      owner := ZERO;
      log := log + [OwnershipTransferred(previousOwner, ZERO)];
      return true;
    }

    method DoSetRole(sender: Address, user: Address, role: Role) returns (ok: bool)
      modifies this
      ensures ok == Allowed(old(Abs()), Call(sender, SetRole(user, role)))
      ensures Abs() == Apply(old(Abs()), Call(sender, SetRole(user, role)))
      ensures ok <==> (sender == old(owner) || RoleOf(old(roles), sender) == Admin) && user != 0
      ensures ok ==> owner == old(owner) && GivesOnly(old(roles), roles, user, role)
      ensures ok ==> log == old(log) + [RoleUpdated(user, RoleOf(old(roles), user), role)]
      ensures !ok ==> Abs() == old(Abs())
    {
      if !(sender == owner || RoleOf(roles, sender) == Admin) || user == ZERO {
        return false;
      }
      var previousRole := RoleOf(roles, user);
      roles := roles[user := role];
      log := log + [RoleUpdated(user, previousRole, role)];
      return true;
    }
  }

  // ----- Whole runs -----

  predicate RealSenders(deployer: Address, calls: seq<Call>) {
    deployer != ZERO && forall i :: 0 <= i < |calls| ==> calls[i].sender != ZERO
  }

  function Run(deployer: Address, calls: seq<Call>): State {
    if calls == [] then Deploy(deployer)
    else Apply(Run(deployer, calls[..|calls| - 1]), calls[|calls| - 1])
  }

  /** The zero address never holds a role. */
  lemma {:induction false} ZeroHasNoRole(deployer: Address, calls: seq<Call>)
    requires RealSenders(deployer, calls)
    ensures RoleOf(Run(deployer, calls).roles, ZERO) == NoRole
  {
    if calls != [] {
      ZeroHasNoRole(deployer, calls[..|calls| - 1]);
    }
  }

  // ----- The last call decides -----

  /** Call k was let through and gave this account this role. */
  ghost predicate Names(deployer: Address, calls: seq<Call>, k: nat, a: Address, role: Role)
    requires k < |calls|
  {
    var before := Run(deployer, calls[..k]);
    match calls[k].op
    case TransferOwnership(newOwner) => calls[k].sender == before.owner && newOwner == a != 0 && role == Admin
    case RenounceOwnership => false
    case SetRole(user, r) =>
      (calls[k].sender == before.owner || RoleOf(before.roles, calls[k].sender) == Admin) && user == a != 0 && role == r
  }

  /** Call k was let through and made this account the owner, or the zero address in its place. */
  ghost predicate Installs(deployer: Address, calls: seq<Call>, k: nat, a: Address)
    requires k < |calls|
  {
    calls[k].sender == Run(deployer, calls[..k]).owner &&
    match calls[k].op
    case TransferOwnership(newOwner) => newOwner == a != 0
    case RenounceOwnership => a == 0
    case SetRole(_, _) => false
  }

  /** Call k is the last one that names the account. */
  ghost predicate LastNames(deployer: Address, calls: seq<Call>, k: nat, a: Address, role: Role) {
    && k < |calls| && Names(deployer, calls, k, a, role)
    && forall j, r :: k < j < |calls| ==> !Names(deployer, calls, j, a, r)
  }

  /** An account's role is the one given by the last call that names it, or the deployment's if none does. */
  lemma {:induction false} LastCallDecides(deployer: Address, calls: seq<Call>, a: Address) returns (k: int)
    ensures var role := RoleOf(Run(deployer, calls).roles, a);
            if k >= 0 then LastNames(deployer, calls, k, a, role)
            else role == (if a == deployer then Admin else NoRole)
                 && forall j, r :: 0 <= j < |calls| ==> !Names(deployer, calls, j, a, r)
  {
    k := -1;
    if calls != [] {
      var n := |calls| - 1;
      if r :| Names(deployer, calls, n, a, r) {
        k := n;
      } else {
        k := LastCallDecides(deployer, calls[..n], a);
        NamesOfPrefix(deployer, calls, a);
        StepNamesNobody(deployer, calls, n, a);
        hide Run, Names;
      }
    }
  }

  lemma NamesOfPrefix(deployer: Address, calls: seq<Call>, a: Address)
    requires calls != []
    ensures var n := |calls| - 1;
            forall k, r :: 0 <= k < n ==> (Names(deployer, calls, k, a, r) <==> Names(deployer, calls[..n], k, a, r))
  {
    var n := |calls| - 1;
    forall k, r | 0 <= k < n
      ensures Names(deployer, calls, k, a, r) <==> Names(deployer, calls[..n], k, a, r)
    {
      assert calls[..n][..k] == calls[..k];
    }
  }

  lemma StepNamesNobody(deployer: Address, calls: seq<Call>, n: nat, a: Address)
    requires n + 1 == |calls| && forall r :: !Names(deployer, calls, n, a, r)
    ensures RoleOf(Run(deployer, calls).roles, a) == RoleOf(Run(deployer, calls[..n]).roles, a)
  {
    var s := Run(deployer, calls[..n]);
    assert !Names(deployer, calls, n, a, Admin);
    match calls[n].op
    case SetRole(user, r) => assert !Names(deployer, calls, n, a, r);
    case _ =>
  }

  /** Call k is the last one that installs an owner, and installs this one. */
  ghost predicate LastInstalls(deployer: Address, calls: seq<Call>, k: nat, a: Address) {
    && k < |calls| && Installs(deployer, calls, k, a)
    && forall j, b :: k < j < |calls| ==> !Installs(deployer, calls, j, b)
  }

  lemma InstallsOfPrefix(deployer: Address, calls: seq<Call>)
    requires calls != []
    ensures var n := |calls| - 1;
            forall k, b :: 0 <= k < n ==> (Installs(deployer, calls, k, b) <==> Installs(deployer, calls[..n], k, b))
  {
    var n := |calls| - 1;
    forall k, b | 0 <= k < n
      ensures Installs(deployer, calls, k, b) <==> Installs(deployer, calls[..n], k, b)
    {
      assert calls[..n][..k] == calls[..k];
    }
  }

  lemma StepInstallsNobody(deployer: Address, calls: seq<Call>, n: nat)
    requires n + 1 == |calls| && forall b :: !Installs(deployer, calls, n, b)
    ensures Run(deployer, calls).owner == Run(deployer, calls[..n]).owner
  {
    match calls[n].op
    case TransferOwnership(newOwner) => assert !Installs(deployer, calls, n, newOwner);
    case RenounceOwnership => assert !Installs(deployer, calls, n, 0);
    case SetRole(_, _) =>
  }

  /** The owner is the one installed by the last such call, or the deployer if there is none. */
  lemma {:induction false} LastTransferDecides(deployer: Address, calls: seq<Call>) returns (k: int)
    ensures var owner := Run(deployer, calls).owner;
            if k >= 0 then LastInstalls(deployer, calls, k, owner)
            else owner == deployer && forall j, b :: 0 <= j < |calls| ==> !Installs(deployer, calls, j, b)
  {
    k := -1;
    if calls != [] {
      var n := |calls| - 1;
      if b :| Installs(deployer, calls, n, b) {
        k := n;
      } else {
        k := LastTransferDecides(deployer, calls[..n]);
        InstallsOfPrefix(deployer, calls);
        StepInstallsNobody(deployer, calls, n);
        hide Run, Installs;
      }
    }
  }

  // ----- Provenance -----

  /** Call k was allowed and made `to` an Admin or the owner. */
  predicate Grants(deployer: Address, calls: seq<Call>, k: nat, to: Address)
    requires k < |calls|
  {
    && Allowed(Run(deployer, calls[..k]), calls[k])
    && (calls[k].op == TransferOwnership(to) || calls[k].op == SetRole(to, Admin))
  }

  datatype Grant = Grant(at: nat, to: Address)

  /**
   * A chain of grants in time order that starts at the deployer and ends at `a`: each grant
   * was made by the one before, who was owner or Admin when making it.
   */
  predicate IsChain(deployer: Address, calls: seq<Call>, chain: seq<Grant>, a: Address) {
    if chain == [] then a == deployer
    else
      var g := chain[|chain| - 1];
      && g.to == a
      && g.at < |calls|
      && Grants(deployer, calls, g.at, a)
      && HasAuthority(Run(deployer, calls[..g.at]), calls[g.at].sender)
      && (|chain| > 1 ==> chain[|chain| - 2].at < g.at)
      && IsChain(deployer, calls, chain[..|chain| - 1], calls[g.at].sender)
  }

  lemma {:induction false} ChainExtends(deployer: Address, calls: seq<Call>, n: nat, chain: seq<Grant>, a: Address)
    requires n <= |calls| && IsChain(deployer, calls[..n], chain, a)
    ensures IsChain(deployer, calls, chain, a)
    ensures chain != [] ==> chain[|chain| - 1].at < n
  {
    if chain != [] {
      var g := chain[|chain| - 1];
      assert calls[..n][..g.at] == calls[..g.at];
      ChainExtends(deployer, calls, n, chain[..|chain| - 1], calls[g.at].sender);
    }
  }

  /** Every Admin and every non-zero owner is linked to the deployer by such a chain. */
  lemma {:induction false} Provenance(deployer: Address, calls: seq<Call>, a: Address) returns (chain: seq<Grant>)
    requires RealSenders(deployer, calls)
    requires a != ZERO && HasAuthority(Run(deployer, calls), a)
    ensures IsChain(deployer, calls, chain, a)
  {
    if calls == [] {
      return [];
    }
    var n := |calls| - 1;
    var before := Run(deployer, calls[..n]);
    if HasAuthority(before, a) {
      chain := Provenance(deployer, calls[..n], a);
      ChainExtends(deployer, calls, n, chain, a);
    } else {
      var granter := calls[n].sender;
      assert HasAuthority(before, granter) && Grants(deployer, calls, n, a);
      var rest := Provenance(deployer, calls[..n], granter);
      ChainExtends(deployer, calls, n, rest, granter);
      chain := rest + [Grant(n, a)];
      assert chain[..|chain| - 1] == rest;
    }
  }

  // ----- The event log -----

  datatype View = View(roles: map<Address, Role>, owner: Address)

  function Fold(log: seq<Event>): View {
    if log == [] then View(map[], ZERO)
    else
      var v := Fold(log[..|log| - 1]);
      match log[|log| - 1]
      case RoleUpdated(user, _, role) => v.(roles := v.roles[user := role])
      case OwnershipTransferred(_, newOwner) => v.(owner := newOwner)
  }

  lemma FoldAppend(log: seq<Event>, e: Event)
    ensures Fold(log + [e]) ==
            match e
            case RoleUpdated(user, _, role) => Fold(log).(roles := Fold(log).roles[user := role])
            case OwnershipTransferred(_, newOwner) => Fold(log).(owner := newOwner)
  {
    assert (log + [e])[..|log|] == log;
  }

  /** Folding the emitted events rebuilds the owner and every role. */
  lemma {:induction false} LogRebuildsState(deployer: Address, calls: seq<Call>)
    ensures Fold(Run(deployer, calls).log) == View(Run(deployer, calls).roles, Run(deployer, calls).owner)
  {
    if calls == [] {
      FoldAppend([], OwnershipTransferred(ZERO, deployer));
      FoldAppend([OwnershipTransferred(ZERO, deployer)], RoleUpdated(deployer, NoRole, Admin));
      assert [OwnershipTransferred(ZERO, deployer)] + [RoleUpdated(deployer, NoRole, Admin)] == Deploy(deployer).log;
      assert [] + [OwnershipTransferred(ZERO, deployer)] == [OwnershipTransferred(ZERO, deployer)];
    } else {
      var n := |calls| - 1;
      LogRebuildsState(deployer, calls[..n]);
      var s := Run(deployer, calls[..n]);
      var c := calls[n];
      if Allowed(s, c) {
        match c.op
        case TransferOwnership(newOwner) =>
          FoldAppend(s.log, OwnershipTransferred(s.owner, newOwner));
          FoldAppend(s.log + [OwnershipTransferred(s.owner, newOwner)], RoleUpdated(newOwner, NoRole, Admin));
          assert s.log + [OwnershipTransferred(s.owner, newOwner)] + [RoleUpdated(newOwner, NoRole, Admin)] ==
              Apply(s, c).log;
        case RenounceOwnership =>
          FoldAppend(s.log, OwnershipTransferred(s.owner, ZERO));
        case SetRole(user, role) =>
          FoldAppend(s.log, RoleUpdated(user, RoleOf(s.roles, user), role));
      }
    }
  }

  /** The event at position k names the role the user had before it. */
  predicate TellsPrevious(log: seq<Event>, k: nat)
    requires k < |log|
  {
    log[k].RoleUpdated? ==> log[k].previousRole == RoleOf(Fold(log[..k]).roles, log[k].user)
  }

  /** Of the two events of a transfer the second names a previous role, always None. */
  lemma TransferTells(s: State, newOwner: Address)
    requires Fold(s.log).roles == s.roles
    ensures var e := OwnershipTransferred(s.owner, newOwner); var f := RoleUpdated(newOwner, NoRole, Admin);
            var log := s.log + [e, f]; var n := |s.log|;
            TellsPrevious(log, n) && (TellsPrevious(log, n + 1) <==> RoleOf(s.roles, newOwner) == NoRole)
  {
    var e := OwnershipTransferred(s.owner, newOwner);
    var log := s.log + [e, RoleUpdated(newOwner, NoRole, Admin)];
    FoldAppend(s.log, e);
    assert log[..|s.log| + 1] == s.log + [e];
    hide Fold;
  }

  lemma SingleTells(s: State, e: Event)
    requires Fold(s.log).roles == s.roles
    requires e.RoleUpdated? ==> e.previousRole == RoleOf(s.roles, e.user)
    ensures TellsPrevious(s.log + [e], |s.log|)
  {
    assert (s.log + [e])[..|s.log|] == s.log;
    hide Fold;
  }

  /**
   * The previous role in an event is the true one except in a transfer of ownership to
   * someone who already had a role: that event always says None.
   */
  lemma PreviousRoleTold(deployer: Address, calls: seq<Call>, c: Call)
    ensures var s := Run(deployer, calls); var t := Apply(s, c);
            (forall k :: |s.log| <= k < |t.log| ==> TellsPrevious(t.log, k)) <==>
            !(Allowed(s, c) && c.op.TransferOwnership? && RoleOf(s.roles, c.op.newOwner) != NoRole)
  {
    var s := Run(deployer, calls);
    LogRebuildsState(deployer, calls);
    hide Run, Fold, TellsPrevious;
    if Allowed(s, c) {
      match c.op
      case TransferOwnership(newOwner) => TransferTells(s, newOwner);
      case RenounceOwnership => SingleTells(s, OwnershipTransferred(s.owner, ZERO));
      case SetRole(user, role) => SingleTells(s, RoleUpdated(user, RoleOf(s.roles, user), role));
    }
  }

  /** A run that shows it: the owner makes 2 a Viewer and then hands over to 2. */
  lemma PreviousRoleWrong()
    ensures var calls := [Call(1, SetRole(2, Viewer)), Call(1, TransferOwnership(2))];
            var log := Run(1, calls).log;
            |log| == 5 && log[4] == RoleUpdated(2, NoRole, Admin) && !TellsPrevious(log, 4)
  {
    var calls := [Call(1, SetRole(2, Viewer)), Call(1, TransferOwnership(2))];
    assert calls[..1] == [calls[0]] && calls[..1][..0] == [];
    var s0 := Deploy(1);
    var s1 := Apply(s0, calls[0]);
    assert Run(1, calls[..0]) == s0;
    assert Run(1, calls[..1]) == s1;
    assert Run(1, calls) == Apply(s1, calls[1]);
    var log := Run(1, calls).log;
    LogRebuildsState(1, calls[..1]);
    FoldAppend(s1.log, OwnershipTransferred(1, 2));
    assert log[..4] == s1.log + [OwnershipTransferred(1, 2)];
  }

  // ----- After the owner has left -----

  function RunFrom(s: State, calls: seq<Call>): State {
    if calls == [] then s else Apply(RunFrom(s, calls[..|calls| - 1]), calls[|calls| - 1])
  }

  /** Once ownership is renounced the owner is zero for ever. */
  lemma {:induction false} RenouncedForever(s: State, calls: seq<Call>)
    requires s.owner == ZERO && forall i :: 0 <= i < |calls| ==> calls[i].sender != ZERO
    ensures RunFrom(s, calls).owner == ZERO
  {
    if calls != [] {
      RenouncedForever(s, calls[..|calls| - 1]);
    }
  }

  /** Some account that can send a call may still set roles. */
  ghost predicate SomeoneInCharge(s: State) {
    exists a :: a != ZERO && HasAuthority(s, a)
  }

  /** If no Admin remains either, no call changes anything ever again. */
  lemma {:induction false} FrozenForever(s: State, calls: seq<Call>)
    requires !SomeoneInCharge(s)
    requires forall i :: 0 <= i < |calls| ==> calls[i].sender != ZERO
    ensures RunFrom(s, calls) == s
  {
    if calls != [] {
      var n := |calls| - 1;
      FrozenForever(s, calls[..n]);
      assert !HasAuthority(s, calls[n].sender);
    }
  }

  /** As long as one Admin or a non-zero owner remains, the state can still change. */
  lemma NotFrozen(s: State, a: Address, user: Address, role: Role)
    requires a != ZERO && HasAuthority(s, a) && user != ZERO && RoleOf(s.roles, user) != role
    ensures Apply(s, Call(a, SetRole(user, role))) != s
  {
    assert RoleOf(Apply(s, Call(a, SetRole(user, role))).roles, user) == role;
  }

  /** A state is frozen exactly when it has no owner and no Admin. */
  lemma FrozenExactly(s: State)
    ensures (forall calls: seq<Call> :: (forall i :: 0 <= i < |calls| ==> calls[i].sender != ZERO) ==>
        RunFrom(s, calls) == s)
       <==> !SomeoneInCharge(s)
  {
    if SomeoneInCharge(s) {
      var a :| a != ZERO && HasAuthority(s, a);
      var role := if RoleOf(s.roles, a) == Viewer then Admin else Viewer;
      NotFrozen(s, a, a, role);
      var calls := [Call(a, SetRole(a, role))];
      assert calls[..0] == [] && RunFrom(s, calls) == Apply(s, calls[0]);
    } else {
      forall calls: seq<Call> | forall i :: 0 <= i < |calls| ==> calls[i].sender != ZERO
        ensures RunFrom(s, calls) == s
      {
        FrozenForever(s, calls);
      }
    }
  }

  /** After a renunciation nothing changes any more exactly when it leaves no Admin. */
  lemma RenouncedThenFrozen(deployer: Address, calls: seq<Call>)
    requires RealSenders(deployer, calls) && Run(deployer, calls).owner == ZERO
    ensures SomeoneInCharge(Run(deployer, calls)) <==> exists a :: RoleOf(Run(deployer, calls).roles, a) == Admin
  {
    var s := Run(deployer, calls);
    ZeroHasNoRole(deployer, calls);
    if a :| RoleOf(s.roles, a) == Admin {
      assert a != ZERO && HasAuthority(s, a);
    }
  }
}
