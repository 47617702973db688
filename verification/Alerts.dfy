/**
 * The alert evaluator: one sequential worker that checks every enabled rule against every
 * wallet and inserts a trigger unless the rule is cooling down for that wallet.
 */
module Alerts {
  import opened Prelude
  import opened Quotients
  import opened Spacing

  datatype RuleType = TvlDropPct | ExposurePct | NetOutflowPct | ApprovalSpike | TvlBelow | Unknown

  datatype Rule = Rule(id: int, kind: RuleType, threshold: real, enabled: bool, cooldownSecs: int)

  datatype Position = Position(symbol: string, usdValue: real)

  datatype Snapshot = Snapshot(total: real, positions: seq<Position>)

  /** What one pass reads about a wallet: stored snapshots oldest first, 24h outflow, approval count. */
  datatype WalletView = WalletView(id: int, history: seq<Snapshot>, netOutflow: real, approvals: nat)

  datatype User = User(wallets: seq<WalletView>, rules: seq<Rule>)

  datatype Trigger = Trigger(rule: int, wallet: int, at: int)

  function Cooldown(rule: Rule): nat {
    if rule.cooldownSecs > 0 then rule.cooldownSecs else 0
  }

  /** Creation times of the triggers of one rule and wallet, in insertion order. */
  function TimesOf(triggers: seq<Trigger>, rule: int, wallet: int): seq<int> {
    if triggers == [] then []
    else
      var n := |triggers| - 1;
      var t := triggers[n];
      TimesOf(triggers[..n], rule, wallet) + if t.rule == rule && t.wallet == wallet then [t.at] else []
  }

  /** The newest trigger of a rule and wallet. */
  function LastTriggerAt(triggers: seq<Trigger>, rule: int, wallet: int): Option<int> {
    if triggers == [] then None
    else
      var n := |triggers| - 1;
      var t := triggers[n];
      var rest := LastTriggerAt(triggers[..n], rule, wallet);
      if t.rule == rule && t.wallet == wallet && (rest.None? || rest.value <= t.at) then Some(t.at) else rest
  }

  lemma TimesOfAppend(triggers: seq<Trigger>, t: Trigger, rule: int, wallet: int)
    ensures TimesOf(triggers + [t], rule, wallet)
         == TimesOf(triggers, rule, wallet) + if t.rule == rule && t.wallet == wallet then [t.at] else []
  {
    assert (triggers + [t])[..|triggers|] == triggers;
  }

  /** The newest time is that of a trigger of the rule and wallet, and none of theirs is later. */
  lemma {:induction false} LastBounds(triggers: seq<Trigger>, rule: int, wallet: int)
    ensures var last := LastTriggerAt(triggers, rule, wallet);
            && (last.Some? ==> Trigger(rule, wallet, last.value) in triggers)
            && (forall t :: t in triggers && t.rule == rule && t.wallet == wallet ==> last.Some? && t.at <= last.value)
  {
    if triggers != [] {
      var n := |triggers| - 1;
      LastBounds(triggers[..n], rule, wallet);
      assert triggers == triggers[..n] + [triggers[n]];
    }
  }

  /** With a clock that never runs backwards the newest trigger is the last one inserted. */
  lemma {:induction false} LastIsNewest(triggers: seq<Trigger>, rule: int, wallet: int)
    requires forall i, j :: 0 <= i <= j < |triggers| ==> triggers[i].at <= triggers[j].at
    ensures var times := TimesOf(triggers, rule, wallet);
            LastTriggerAt(triggers, rule, wallet) == if times == [] then None else Some(times[|times| - 1])
  {
    if triggers != [] {
      var n := |triggers| - 1;
      LastIsNewest(triggers[..n], rule, wallet);
      LastBounds(triggers[..n], rule, wallet);
      var rest := LastTriggerAt(triggers[..n], rule, wallet);
      if rest.Some? {
        var i :| 0 <= i < n && triggers[..n][i] == Trigger(rule, wallet, rest.value);
        assert triggers[i].at <= triggers[n].at;
      }
    }
  }

  lemma {:induction false} OneIsTimed(triggers: seq<Trigger>, i: nat) returns (a: nat)
    requires i < |triggers|
    ensures var times := TimesOf(triggers, triggers[i].rule, triggers[i].wallet);
            a < |times| && times[a] == triggers[i].at && (i == |triggers| - 1 ==> a == |times| - 1)
  {
    var n := |triggers| - 1;
    if i < n {
      a := OneIsTimed(triggers[..n], i);
    } else {
      a := |TimesOf(triggers[..n], triggers[i].rule, triggers[i].wallet)|;
    }
  }

  /** Two triggers of a rule and wallet have two places among its times. */
  lemma {:induction false} PairIsTimed(triggers: seq<Trigger>, i: nat, j: nat) returns (a: nat, b: nat)
    requires i < j < |triggers| && triggers[i].rule == triggers[j].rule && triggers[i].wallet == triggers[j].wallet
    ensures var times := TimesOf(triggers, triggers[i].rule, triggers[i].wallet);
            a < b < |times| && times[a] == triggers[i].at && times[b] == triggers[j].at
  {
    var n := |triggers| - 1;
    if j < n {
      a, b := PairIsTimed(triggers[..n], i, j);
    } else {
      a := OneIsTimed(triggers[..n], i);
      b := OneIsTimed(triggers, j);
    }
  }

  // ----- Rule conditions -----

  function Share(value: real, total: real): real
    requires total > 0.0
  {
    (value / total) * 100.0
  }

  /** Share of the total per symbol; a later position of the same symbol replaces an earlier one. */
  function Exposure(positions: seq<Position>, total: real): map<string, real> {
    if total <= 0.0 || positions == [] then map[]
    else
      var n := |positions| - 1;
      Exposure(positions[..n], total)[positions[n].symbol := Share(positions[n].usdValue, total)]
  }

  /** Position i is the last one of its symbol. */
  predicate IsLastOf(positions: seq<Position>, i: nat)
    requires i < |positions|
  {
    forall j :: i < j < |positions| ==> positions[j].symbol != positions[i].symbol
  }

  /** The symbols are those of the positions, and each has the share of its last position. */
  ghost predicate IsExposure(positions: seq<Position>, total: real, m: map<string, real>) {
    if total <= 0.0 then m == map[]
    else
      && (forall s :: s in m <==> exists i :: 0 <= i < |positions| && positions[i].symbol == s)
      && (forall i :: 0 <= i < |positions| && IsLastOf(positions, i) ==>
          m[positions[i].symbol] == Share(positions[i].usdValue, total))
  }

  lemma {:induction false} ExposureKeys(positions: seq<Position>, total: real, s: string)
    requires total > 0.0
    ensures s in Exposure(positions, total) <==> exists i :: 0 <= i < |positions| && positions[i].symbol == s
  {
    if positions != [] {
      hide Share;
      var n := |positions| - 1;
      ExposureKeys(positions[..n], total, s);
      if i :| 0 <= i < n && positions[i].symbol == s {
        assert positions[..n][i].symbol == s;
      }
      if i :| 0 <= i < n && positions[..n][i].symbol == s {
        assert positions[i].symbol == s;
      }
    }
  }

  lemma {:induction false} ExposureValue(positions: seq<Position>, total: real, i: nat)
    requires total > 0.0 && i < |positions| && IsLastOf(positions, i)
    ensures var m := Exposure(positions, total); var s := positions[i].symbol;
            s in m && m[s] == Share(positions[i].usdValue, total)
  {
    hide Share;
    var n := |positions| - 1;
    if i < n {
      assert positions[n].symbol != positions[i].symbol;
      assert IsLastOf(positions[..n], i) by {
        assert forall j :: 0 <= j < n ==> positions[..n][j] == positions[j];
      }
      ExposureValue(positions[..n], total, i);
    }
  }

  lemma ExposureMeans(positions: seq<Position>, total: real)
    ensures IsExposure(positions, total, Exposure(positions, total))
  {
    if total > 0.0 {
      hide Exposure, Share, IsLastOf;
      var m := Exposure(positions, total);
      forall s
        ensures s in m <==> exists i :: 0 <= i < |positions| && positions[i].symbol == s
      {
        ExposureKeys(positions, total, s);
      }
      forall i | 0 <= i < |positions| && IsLastOf(positions, i)
        ensures m[positions[i].symbol] == Share(positions[i].usdValue, total)
      {
        ExposureValue(positions, total, i);
      }
    }
  }

  method ComputeExposure(positions: seq<Position>, total: real) returns (m: map<string, real>)
    ensures m == Exposure(positions, total)
    ensures IsExposure(positions, total, m)
  {
    ExposureMeans(positions, total);
    hide IsExposure;
    m := map[];
    if total <= 0.0 {
      return;
    }
    for i := 0 to |positions|
      invariant m == Exposure(positions[..i], total)
    {
      assert positions[..i + 1][..i] == positions[..i];
      m := m[positions[i].symbol := Share(positions[i].usdValue, total)];
    }
    assert positions[..|positions|] == positions;
  }

  function DropPct(prev: real, latest: real): real {
    if prev <= 0.0 then 0.0 else ((prev - latest) / prev) * 100.0
  }

  /** The two snapshots the pass compares, in the order the pass puts them. */
  function Compared(w: WalletView): Option<(Snapshot, Snapshot)> {
    var n := |w.history|;
    if n < 2 then None else Some((w.history[n - 1], w.history[n - 2]))
  }

  /** Some share reaches the threshold. */
  predicate Exceeds(shares: map<string, real>, threshold: real) {
    exists s :: s in shares && shares[s] >= threshold
  }

  /** Whether an enabled rule asks for an alert on a wallet. */
  predicate Demands(rule: Rule, w: WalletView) {
    rule.enabled && Compared(w).Some? &&
    var (prev, latest) := Compared(w).value;
    match rule.kind
    case TvlDropPct => DropPct(prev.total, latest.total) >= rule.threshold
    case ExposurePct => Exceeds(Exposure(latest.positions, latest.total), rule.threshold)
    case NetOutflowPct => latest.total > 0.0 && (w.netOutflow / latest.total) * 100.0 >= rule.threshold
    case ApprovalSpike => (w.approvals as real) >= rule.threshold
    case TvlBelow => latest.total <= rule.threshold
    case Unknown => false
  }

  /** A percentage reaches a threshold when its hundredfold part reaches that many times the whole. */
  lemma PercentReaches(part: real, whole: real, threshold: real)
    requires whole > 0.0
    ensures (part / whole) * 100.0 >= threshold <==> 100.0 * part >= threshold * whole
  {
    var q := part / whole;
    QuotientTimes(part, whole);
    assert 100.0 * part - threshold * whole == (q * 100.0 - threshold) * whole;
    var d := q * 100.0 - threshold;
    if d >= 0.0 {
      assert d * whole >= 0.0;
    } else {
      assert (-d) * whole > 0.0;
      assert d * whole == -((-d) * whole);
    }
  }

  /** Some symbol's last position reaches the threshold. */
  ghost predicate Exposed(positions: seq<Position>, total: real, threshold: real) {
    exists i :: 0 <= i < |positions| && IsLastOf(positions, i) && 100.0 * positions[i].usdValue >= threshold * total
  }

  lemma {:induction false} LastPosition(positions: seq<Position>, s: string, n: nat) returns (i: nat)
    requires n <= |positions| && (exists k :: 0 <= k < n && positions[k].symbol == s)
    requires forall k :: n <= k < |positions| ==> positions[k].symbol != s
    ensures i < |positions| && positions[i].symbol == s && IsLastOf(positions, i)
  {
    if positions[n - 1].symbol == s {
      i := n - 1;
    } else {
      i := LastPosition(positions, s, n - 1);
    }
  }

  lemma ExposedExactly(positions: seq<Position>, total: real, threshold: real)
    requires total > 0.0
    ensures Exceeds(Exposure(positions, total), threshold) <==> Exposed(positions, total, threshold)
  {
    var m := Exposure(positions, total);
    ExposureMeans(positions, total);
    hide Exposure;
    if s :| s in m && m[s] >= threshold {
      var i := LastPosition(positions, s, |positions|);
      PercentReaches(positions[i].usdValue, total, threshold);
      hide Share, IsLastOf;
      assert m[s] == Share(positions[i].usdValue, total);
    }
    if Exposed(positions, total, threshold) {
      var i :| 0 <= i < |positions| && IsLastOf(positions, i) && 100.0 * positions[i].usdValue >= threshold * total;
      PercentReaches(positions[i].usdValue, total, threshold);
      hide IsLastOf;
      assert positions[i].symbol in m;
    }
  }

  /**
   * When a rule asks for an alert, without its percentages: it is enabled, the wallet has two
   * snapshots, and on the pair the pass compares the limit is reached.
   */
  lemma DemandsExactly(rule: Rule, w: WalletView)
    ensures Demands(rule, w) <==>
              rule.enabled && |w.history| >= 2 &&
              var prev, latest := w.history[|w.history| - 1].total, w.history[|w.history| - 2];
              match rule.kind
              case TvlDropPct => if prev > 0.0 then 100.0 * (prev - latest.total) >= rule.threshold * prev
                                 else 0.0 >= rule.threshold
              case ExposurePct => latest.total > 0.0 && Exposed(latest.positions, latest.total, rule.threshold)
              case NetOutflowPct => latest.total > 0.0 && 100.0 * w.netOutflow >= rule.threshold * latest.total
              case ApprovalSpike => w.approvals as real >= rule.threshold
              case TvlBelow => latest.total <= rule.threshold
              case Unknown => false
  {
    if |w.history| >= 2 {
      var prev, latest := w.history[|w.history| - 1].total, w.history[|w.history| - 2];
      if prev > 0.0 {
        PercentReaches(prev - latest.total, prev, rule.threshold);
      }
      if latest.total > 0.0 {
        PercentReaches(w.netOutflow, latest.total, rule.threshold);
        ExposedExactly(latest.positions, latest.total, rule.threshold);
      } else {
        assert Exposure(latest.positions, latest.total) == map[];
      }
      hide Exposed;
      match rule.kind
      case TvlDropPct =>
      case ExposurePct =>
      case NetOutflowPct =>
      case ApprovalSpike =>
      case TvlBelow =>
      case Unknown =>
    }
  }

  /** An alert for this rule and wallet was raised since `start` or was still cooling down then. */
  ghost predicate Raised(triggers: seq<Trigger>, rule: Rule, w: WalletView, start: int) {
    exists t :: t in triggers && t.rule == rule.id && t.wallet == w.id
        && (t.at >= start || (rule.cooldownSecs > 0 && t.at + rule.cooldownSecs > start))
  }

  lemma RaisedStays(before: seq<Trigger>, after: seq<Trigger>, rule: Rule, w: WalletView, start: int)
    requires before <= after && Raised(before, rule, w, start)
    ensures Raised(after, rule, w, start)
  {
    var t :| t in before && t.rule == rule.id && t.wallet == w.id
        && (t.at >= start || (rule.cooldownSecs > 0 && t.at + rule.cooldownSecs > start));
    assert t in after;
  }

  /** One of the rules demanded this trigger on one of the wallets. */
  ghost predicate Demanded(t: Trigger, wallets: seq<WalletView>, rules: seq<Rule>) {
    exists w, r :: w in wallets && r in rules && Demands(r, w) && t.rule == r.id && t.wallet == w.id
  }

  ghost predicate DemandedBySome(t: Trigger, users: seq<User>) {
    exists u :: u in users && Demanded(t, u.wallets, u.rules)
  }

  /** Triggers in time order, each rule and wallet spaced by the rule's cooldown. */
  ghost predicate Cooled(triggers: seq<Trigger>, cooldowns: int -> nat) {
    && (forall i, j :: 0 <= i <= j < |triggers| ==> triggers[i].at <= triggers[j].at)
    && (forall rule, wallet :: Spaced(TimesOf(triggers, rule, wallet), cooldowns(rule)))
  }

  lemma SpacingKept(triggers: seq<Trigger>, t: Trigger, cooldowns: int -> nat)
    requires Cooled(triggers, cooldowns)
    requires forall u :: u in triggers ==> u.at <= t.at
    requires var last := LastTriggerAt(triggers, t.rule, t.wallet);
             last.Some? ==> t.at >= last.value + cooldowns(t.rule)
    ensures Cooled(triggers + [t], cooldowns)
  {
    hide LastTriggerAt, TimesOf, Spaced;
    LastIsNewest(triggers, t.rule, t.wallet);
    forall r, x
      ensures Spaced(TimesOf(triggers + [t], r, x), cooldowns(r))
    {
      TimesOfAppend(triggers, t, r, x);
      var times := TimesOf(triggers, r, x);
      assert Spaced(times, cooldowns(r));
      if r == t.rule && x == t.wallet {
        SpacedAppend(times, cooldowns(r), t.at);
      } else {
        assert times + [] == times;
      }
    }
  }

  class Evaluator {
    /** The cooldown stored for each rule id, fixed while the worker runs. */
    const cooldowns: int -> nat
    var clock: int
    var triggers: seq<Trigger>

    ghost predicate Valid()
      reads this
    {
      && Cooled(triggers, cooldowns)
      && (forall t :: t in triggers ==> t.at <= clock)
    }

    constructor (cooldowns: int -> nat, clock: int)
      ensures Valid() && triggers == [] && this.cooldowns == cooldowns && this.clock == clock
    {
      this.cooldowns := cooldowns;
      this.clock := clock;
      triggers := [];
    }

    /** Time passes. */
    method Tick()
      modifies this`clock
      ensures clock >= old(clock)
    {
      var later :| later >= clock;
      clock := later;
    }

    /** Inserts a trigger stamped by the database, or fails and changes nothing. */
    method InsertTrigger(rule: int, wallet: int) returns (ok: bool)
      modifies this
      ensures clock >= old(clock)
      ensures triggers == if ok then old(triggers) + [Trigger(rule, wallet, clock)] else old(triggers)
    {
      Tick();
      ok := *;
      if ok {
        triggers := triggers + [Trigger(rule, wallet, clock)];
      }
    }

    method Fire(w: WalletView, rule: Rule, ghost start: int) returns (ok: bool)
      requires Valid() && start <= clock && cooldowns(rule.id) == Cooldown(rule)
      modifies this
      ensures Valid() && clock >= old(clock)
      ensures triggers == old(triggers) || triggers == old(triggers) + [Trigger(rule.id, w.id, clock)]
      ensures ok ==> Raised(triggers, rule, w, start)
      ensures !ok ==> triggers == old(triggers)
    {
      hide Spaced, TimesOf, LastTriggerAt;
      var last := LastTriggerAt(triggers, rule.id, w.id);
      LastIsNewest(triggers, rule.id, w.id);
      LastBounds(triggers, rule.id, w.id);
      if last.Some? {
        Tick();
        if clock < last.value + Cooldown(rule) {
          assert Trigger(rule.id, w.id, last.value) in triggers;
          return true;
        }
      }
      ok := InsertTrigger(rule.id, w.id);
      if ok {
        ghost var t := Trigger(rule.id, w.id, clock);
        assert t in triggers;
        SpacingKept(old(triggers), t, cooldowns);
      }
    }

    /** The symbol loop of an exposure rule. */
    method FireExposure(w: WalletView, rule: Rule, exposure: map<string, real>, ghost start: int) returns (ok: bool)
      requires Valid() && start <= clock && cooldowns(rule.id) == Cooldown(rule)
      modifies this
      ensures Valid() && clock >= old(clock)
      ensures old(triggers) <= triggers
      ensures forall k :: |old(triggers)| <= k < |triggers| ==>
          triggers[k].rule == rule.id && triggers[k].wallet == w.id
      ensures (forall s :: s in exposure ==> exposure[s] < rule.threshold) ==> triggers == old(triggers)
      ensures ok && (exists s :: s in exposure && exposure[s] >= rule.threshold) ==> Raised(triggers, rule, w, start)
    {
      var pending := exposure.Keys;
      while pending != {}
        invariant pending <= exposure.Keys
        invariant Valid() && clock >= old(clock)
        invariant old(triggers) <= triggers
        invariant forall k :: |old(triggers)| <= k < |triggers| ==>
            triggers[k].rule == rule.id && triggers[k].wallet == w.id
        invariant (forall s :: s in exposure ==> exposure[s] < rule.threshold) ==> triggers == old(triggers)
        invariant (exists s :: s in exposure && s !in pending && exposure[s] >= rule.threshold) ==>
            Raised(triggers, rule, w, start)
        decreases pending
      {
        var symbol :| symbol in pending;
        pending := pending - {symbol};
        if exposure[symbol] >= rule.threshold {
          ok := Fire(w, rule, start);
          if !ok {
            return;
          }
        }
      }
      return true;
    }

    method EvaluateRule(w: WalletView, rule: Rule, exposure: map<string, real>, ghost start: int) returns (ok: bool)
      requires Valid() && start <= clock && cooldowns(rule.id) == Cooldown(rule)
      requires rule.enabled && Compared(w).Some?
      requires exposure == Exposure(Compared(w).value.1.positions, Compared(w).value.1.total)
      modifies this
      ensures Valid() && clock >= old(clock)
      ensures old(triggers) <= triggers
      ensures forall k :: |old(triggers)| <= k < |triggers| ==>
          triggers[k].rule == rule.id && triggers[k].wallet == w.id
      ensures !Demands(rule, w) ==> triggers == old(triggers)
      ensures ok && Demands(rule, w) ==> Raised(triggers, rule, w, start)
    {
      var (prev, latest) := Compared(w).value;
      ok := true;
      match rule.kind
      case TvlDropPct =>
        if DropPct(prev.total, latest.total) >= rule.threshold {
          ok := Fire(w, rule, start);
        }
      case ExposurePct =>
        ok := FireExposure(w, rule, exposure, start);
      case NetOutflowPct =>
        if latest.total > 0.0 {
          if (w.netOutflow / latest.total) * 100.0 >= rule.threshold {
            ok := Fire(w, rule, start);
          }
        }
      case ApprovalSpike =>
        if (w.approvals as real) >= rule.threshold {
          ok := Fire(w, rule, start);
        }
      case TvlBelow =>
        if latest.total <= rule.threshold {
          ok := Fire(w, rule, start);
        }
      case Unknown =>
    }

    /** The rule loop for one wallet. */
    method EvaluateWallet(w: WalletView, rules: seq<Rule>, ghost start: int) returns (ok: bool)
      requires Valid() && start <= clock
      requires forall r :: r in rules ==> cooldowns(r.id) == Cooldown(r)
      modifies this
      ensures Valid() && clock >= old(clock)
      ensures old(triggers) <= triggers
      ensures forall k :: |old(triggers)| <= k < |triggers| ==> Demanded(triggers[k], [w], rules)
      ensures ok ==> forall r :: r in rules && Demands(r, w) ==> Raised(triggers, r, w, start)
    {
      hide Demands, Exposure, IsExposure, Cooled;
      if Compared(w).None? {
        QuietWallet(w, rules);
        return true;
      }
      var latest := Compared(w).value.1;
      var exposure := ComputeExposure(latest.positions, latest.total);
      for i := 0 to |rules|
        invariant Valid() && clock >= old(clock)
        invariant old(triggers) <= triggers
        invariant forall k :: |old(triggers)| <= k < |triggers| ==> Demanded(triggers[k], [w], rules)
        invariant forall k :: 0 <= k < i && Demands(rules[k], w) ==> Raised(triggers, rules[k], w, start)
      {
        hide Raised;
        ghost var before := triggers;
        if rules[i].enabled {
          ok := EvaluateRule(w, rules[i], exposure, start);
          forall k | |before| <= k < |triggers|
            ensures Demanded(triggers[k], [w], rules)
          {
            assert w in [w] && rules[i] in rules;
          }
          forall k | 0 <= k < i && Demands(rules[k], w)
            ensures Raised(triggers, rules[k], w, start)
          {
            RaisedStays(before, triggers, rules[k], w, start);
          }
          if !ok {
            return;
          }
        } else {
          DisabledIsQuiet(rules[i], w);
        }
      }
      return true;
    }

    /** One pass over all users and their wallets. */
    method RunOnce(users: seq<User>) returns (ok: bool)
      requires Valid()
      requires forall u, r :: u in users && r in u.rules ==> cooldowns(r.id) == Cooldown(r)
      modifies this
      ensures Valid() && old(triggers) <= triggers
      ensures forall k :: |old(triggers)| <= k < |triggers| ==> DemandedBySome(triggers[k], users)
      ensures ok ==> forall u, w, r :: u in users && w in u.wallets && r in u.rules && Demands(r, w) ==>
                Raised(triggers, r, w, old(clock))
    {
      hide Demands, Raised, Demanded;
      ghost var start := clock;
      for i := 0 to |users|
        invariant Valid() && clock >= start && old(triggers) <= triggers
        invariant forall k :: |old(triggers)| <= k < |triggers| ==> DemandedBySome(triggers[k], users)
        invariant forall k :: 0 <= k < i ==> Served(triggers, users[k].wallets, users[k].rules, start)
      {
        var u := users[i];
        assert u in users;
        for j := 0 to |u.wallets|
          invariant Valid() && clock >= start && old(triggers) <= triggers
          invariant forall k :: |old(triggers)| <= k < |triggers| ==> DemandedBySome(triggers[k], users)
          invariant forall k :: 0 <= k < i ==> Served(triggers, users[k].wallets, users[k].rules, start)
          invariant Served(triggers, u.wallets[..j], u.rules, start)
        {
          ghost var before := triggers;
          ok := EvaluateWallet(u.wallets[j], u.rules, start);
          forall k | |before| <= k < |triggers|
            ensures DemandedBySome(triggers[k], users)
          {
            DemandedWidens(triggers[k], u, j);
          }
          forall k | 0 <= k < i
            ensures Served(triggers, users[k].wallets, users[k].rules, start)
          {
            ServedStays(before, triggers, users[k].wallets, users[k].rules, start);
          }
          if !ok {
            return;
          }
          ServedStays(before, triggers, u.wallets[..j], u.rules, start);
          assert u.wallets[..j + 1] == u.wallets[..j] + [u.wallets[j]];
        }
        assert u.wallets[..|u.wallets|] == u.wallets;
      }
      return true;
    }

    /** Any two triggers of a rule on a wallet are at least the rule's cooldown apart. */
    lemma TriggersApart(rule: Rule, i: nat, j: nat)
      requires Valid() && cooldowns(rule.id) == Cooldown(rule) && i < j < |triggers|
      requires triggers[i].rule == triggers[j].rule == rule.id && triggers[i].wallet == triggers[j].wallet
      ensures triggers[j].at >= triggers[i].at && triggers[j].at >= triggers[i].at + rule.cooldownSecs
    {
      var a, b := PairIsTimed(triggers, i, j);
      assert Spaced(TimesOf(triggers, rule.id, triggers[i].wallet), cooldowns(rule.id));
    }

    /**
     * Whatever passes have run, a rule with a cooldown triggers on a wallet at most
     * floor(L / cooldown) + 1 times in any interval of length L.
     */
    lemma TriggerRate(rule: Rule, wallet: int, from: int, length: nat)
      requires Valid() && cooldowns(rule.id) == Cooldown(rule) && rule.cooldownSecs > 0
      ensures |Within(TimesOf(triggers, rule.id, wallet), from, length)| <= length / rule.cooldownSecs + 1
    {
      RateBound(TimesOf(triggers, rule.id, wallet), rule.cooldownSecs, from, length);
    }
  }

  /** Every demand of these rules on these wallets has been raised. */
  ghost predicate Served(triggers: seq<Trigger>, wallets: seq<WalletView>, rules: seq<Rule>, start: int) {
    forall w, r :: w in wallets && r in rules && Demands(r, w) ==> Raised(triggers, r, w, start)
  }

  lemma ServedStays(before: seq<Trigger>, after: seq<Trigger>, wallets: seq<WalletView>, rules: seq<Rule>, start: int)
    requires before <= after && Served(before, wallets, rules, start)
    ensures Served(after, wallets, rules, start)
  {
    hide Raised, Demands;
    forall w, r | w in wallets && r in rules && Demands(r, w)
      ensures Raised(after, r, w, start)
    {
      RaisedStays(before, after, r, w, start);
    }
  }

  lemma DemandedWidens(t: Trigger, u: User, j: nat)
    requires j < |u.wallets| && Demanded(t, [u.wallets[j]], u.rules)
    ensures Demanded(t, u.wallets, u.rules)
  {
  }

  lemma QuietWallet(w: WalletView, rules: seq<Rule>)
    requires Compared(w).None?
    ensures forall r :: r in rules ==> !Demands(r, w)
  {
  }

  lemma DisabledIsQuiet(r: Rule, w: WalletView)
    requires !r.enabled
    ensures !Demands(r, w)
  {
  }
}
