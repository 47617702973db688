/**
 * The in-memory limiter for nonce requests: one accepted check per address and window.
 * Addresses and clock values are integers; the clock never runs backwards.
 */
module NonceLimiter {
  import opened Spacing

  datatype Check = Check(ip: int, now: int)

  /** Whether a check passes, given the times of the last accepted checks. */
  predicate Accepts(last: map<int, int>, window: nat, c: Check) {
    c.ip !in last || c.now - last[c.ip] >= window
  }

  function After(last: map<int, int>, window: nat, c: Check): map<int, int> {
    if Accepts(last, window, c) then last[c.ip := c.now] else last
  }

  class Limiter {
    const window: nat
    var last: map<int, int>

    constructor (window: nat)
      ensures this.window == window && last == map[]
    {
      this.window := window;
      last := map[];
    }

    /** The body under the mutex, with the clock reading as a parameter. */
    method TryAccept(ip: int, now: int) returns (ok: bool)
      modifies this
      ensures ok == Accepts(old(last), window, Check(ip, now))
      ensures last == After(old(last), window, Check(ip, now))
      ensures ok <==> ip !in old(last) || now - old(last)[ip] >= window
      ensures last == if ok then old(last)[ip := now] else old(last)
    {
      if ip in last {
        if now - last[ip] < window {
          return false;
        }
      }
      last := last[ip := now];
      return true;
    }
  }

  // ----- Whole runs -----

  function Run(window: nat, checks: seq<Check>): map<int, int> {
    if checks == [] then map[]
    else After(Run(window, checks[..|checks| - 1]), window, checks[|checks| - 1])
  }

  /** The checks that were accepted, in order. */
  function Accepted(window: nat, checks: seq<Check>): (r: seq<Check>)
    ensures |r| <= |checks|
  {
    if checks == [] then []
    else
      var n := |checks| - 1;
      Accepted(window, checks[..n]) +
      if Accepts(Run(window, checks[..n]), window, checks[n]) then [checks[n]] else []
  }

  /** The times at which an address appears in a list of checks. */
  function TimesOf(ip: int, checks: seq<Check>): seq<int> {
    if checks == [] then []
    else
      var n := |checks| - 1;
      TimesOf(ip, checks[..n]) + if checks[n].ip == ip then [checks[n].now] else []
  }

  lemma TimesOfAppend(ip: int, checks: seq<Check>, c: Check)
    ensures TimesOf(ip, checks + [c]) == TimesOf(ip, checks) + if c.ip == ip then [c.now] else []
  {
    assert (checks + [c])[..|checks|] == checks;
  }

  /** The table holds exactly the last accepted time of each address, and those times are spaced. */
  lemma {:induction false} AcceptedSpaced(window: nat, checks: seq<Check>, ip: int)
    ensures var t := TimesOf(ip, Accepted(window, checks));
            && Spaced(t, window)
            && (ip in Run(window, checks) <==> t != [])
            && (t != [] ==> Run(window, checks)[ip] == t[|t| - 1])
  {
    if checks != [] {
      var n := |checks| - 1;
      var c := checks[n];
      AcceptedSpaced(window, checks[..n], ip);
      var r := Accepted(window, checks[..n]);
      if Accepts(Run(window, checks[..n]), window, c) {
        TimesOfAppend(ip, r, c);
        if c.ip == ip {
          SpacedAppend(TimesOf(ip, r), window, c.now);
        }
      } else {
        assert r + [] == r;
      }
    }
  }

  lemma {:induction false} OneIsTimed(checks: seq<Check>, i: nat) returns (a: nat)
    requires i < |checks|
    ensures var times := TimesOf(checks[i].ip, checks);
            a < |times| && times[a] == checks[i].now && (i == |checks| - 1 ==> a == |times| - 1)
  {
    var n := |checks| - 1;
    if i < n {
      a := OneIsTimed(checks[..n], i);
    } else {
      a := |TimesOf(checks[i].ip, checks[..n])|;
    }
  }

  lemma {:induction false} PairIsTimed(checks: seq<Check>, i: nat, j: nat) returns (a: nat, b: nat)
    requires i < j < |checks| && checks[i].ip == checks[j].ip
    ensures var times := TimesOf(checks[i].ip, checks);
            a < b < |times| && times[a] == checks[i].now && times[b] == checks[j].now
  {
    var n := |checks| - 1;
    if j < n {
      a, b := PairIsTimed(checks[..n], i, j);
    } else {
      a := OneIsTimed(checks[..n], i);
      b := OneIsTimed(checks, j);
    }
  }

  /** Any two accepted checks of an address are a window or more apart. */
  lemma AcceptedApart(window: nat, checks: seq<Check>, i: nat, j: nat)
    requires i < j < |Accepted(window, checks)| && Accepted(window, checks)[i].ip == Accepted(window, checks)[j].ip
    ensures Accepted(window, checks)[j].now >= Accepted(window, checks)[i].now + window
  {
    var a, b := PairIsTimed(Accepted(window, checks), i, j);
    AcceptedSpaced(window, checks, Accepted(window, checks)[i].ip);
  }

  /** In any interval of length L an address passes at most floor(L / window) + 1 times. */
  lemma AcceptedRate(window: nat, checks: seq<Check>, ip: int, from: int, length: nat)
    requires window > 0
    ensures |Within(TimesOf(ip, Accepted(window, checks)), from, length)| <= length / window + 1
  {
    AcceptedSpaced(window, checks, ip);
    RateBound(TimesOf(ip, Accepted(window, checks)), window, from, length);
  }

  /** Rejected checks leave no trace: without them every decision is the same. */
  lemma {:induction false} RejectedChecksDoNotMatter(window: nat, checks: seq<Check>)
    ensures Run(window, Accepted(window, checks)) == Run(window, checks)
    ensures Accepted(window, Accepted(window, checks)) == Accepted(window, checks)
  {
    if checks != [] {
      var n := |checks| - 1;
      RejectedChecksDoNotMatter(window, checks[..n]);
      var r := Accepted(window, checks[..n]);
      if Accepts(Run(window, checks[..n]), window, checks[n]) {
        assert (r + [checks[n]])[..|r|] == r;
      } else {
        assert r + [] == r;
      }
    }
  }

  /** A check is turned away only by an accepted check of the same address less than a window before it. */
  lemma RejectedOnlyByAccepted(window: nat, checks: seq<Check>, c: Check)
    ensures Accepts(Run(window, checks), window, c) <==>
            forall t :: t in TimesOf(c.ip, Accepted(window, checks)) ==> c.now - t >= window
  {
    AcceptedSpaced(window, checks, c.ip);
    var t := TimesOf(c.ip, Accepted(window, checks));
    if t != [] {
      var last := t[|t| - 1];
      assert last in t;
      forall u | u in t
        ensures u <= last
      {
        var i :| 0 <= i < |t| && t[i] == u;
        assert i < |t| - 1 ==> t[|t| - 1] - t[i] >= window;
      }
    }
  }
}
