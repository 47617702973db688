/**
 * The sync of one wallet with its retries: snapshots are kept a minimum interval apart, and a
 * retry never repeats a snapshot.  Clock values are whole seconds.
 */
module SyncDriver {
  import opened Prelude
  import opened Spacing

  datatype Snapshot = Snapshot(wallet: int, at: int, value: real)

  datatype SyncError = SyncFailed

  const SECS_PER_DAY := 86400

  function DayOf(at: int): (day: int)
    ensures 86400 * day <= at < 86400 * (day + 1)
  {
    at / SECS_PER_DAY
  }

  function AtLeastOne(n: nat): (r: nat)
    ensures r == n || (n == 0 && r == 1)
    ensures r >= 1
  {
    if n < 1 then 1 else n
  }

  function TimesOf(snaps: seq<Snapshot>, wallet: int): seq<int> {
    if snaps == [] then []
    else
      var n := |snaps| - 1;
      TimesOf(snaps[..n], wallet) + if snaps[n].wallet == wallet then [snaps[n].at] else []
  }

  /** The newest snapshot of a wallet. */
  function Latest(snaps: seq<Snapshot>, wallet: int): Option<Snapshot> {
    if snaps == [] then None
    else
      var n := |snaps| - 1;
      var rest := Latest(snaps[..n], wallet);
      if snaps[n].wallet == wallet && (rest.None? || rest.value.at <= snaps[n].at) then Some(snaps[n]) else rest
  }

  /** Snapshot i is the last one stored for its wallet on its day. */
  ghost predicate IsLastOfDay(snaps: seq<Snapshot>, i: nat)
    requires i < |snaps|
  {
    forall j :: i < j < |snaps| && snaps[j].wallet == snaps[i].wallet ==> DayOf(snaps[j].at) != DayOf(snaps[i].at)
  }

  /** The last snapshot stored for a wallet on a day. */
  function LastOfDay(snaps: seq<Snapshot>, wallet: int, day: int): Option<Snapshot> {
    if snaps == [] then None
    else
      var n := |snaps| - 1;
      if snaps[n].wallet == wallet && DayOf(snaps[n].at) == day
          then Some(snaps[n]) else LastOfDay(snaps[..n], wallet, day)
  }

  lemma {:induction false} LastOfDayIs(snaps: seq<Snapshot>, i: nat)
    requires i < |snaps| && IsLastOfDay(snaps, i)
    ensures LastOfDay(snaps, snaps[i].wallet, DayOf(snaps[i].at)) == Some(snaps[i])
  {
    hide DayOf;
    var n := |snaps| - 1;
    if i < n {
      assert IsLastOfDay(snaps[..n], i) by {
        assert forall j :: 0 <= j < n ==> snaps[..n][j] == snaps[j];
      }
      LastOfDayIs(snaps[..n], i);
    }
  }

  lemma {:induction false} OneIsTimed(snaps: seq<Snapshot>, i: nat) returns (a: nat)
    requires i < |snaps|
    ensures var times := TimesOf(snaps, snaps[i].wallet);
            a < |times| && times[a] == snaps[i].at && (i == |snaps| - 1 ==> a == |times| - 1)
  {
    var n := |snaps| - 1;
    if i < n {
      a := OneIsTimed(snaps[..n], i);
    } else {
      a := |TimesOf(snaps[..n], snaps[i].wallet)|;
    }
  }

  /** Two snapshots of a wallet have two places among its times. */
  lemma {:induction false} PairIsTimed(snaps: seq<Snapshot>, i: nat, j: nat) returns (a: nat, b: nat)
    requires i < j < |snaps| && snaps[i].wallet == snaps[j].wallet
    ensures var times := TimesOf(snaps, snaps[i].wallet);
            a < b < |times| && times[a] == snaps[i].at && times[b] == snaps[j].at
  {
    var n := |snaps| - 1;
    if j < n {
      a, b := PairIsTimed(snaps[..n], i, j);
    } else {
      a := OneIsTimed(snaps[..n], i);
      b := OneIsTimed(snaps, j);
    }
  }

  predicate Due(latest: Option<Snapshot>, now: int, minInterval: nat) {
    latest.None? || now - latest.value.at >= minInterval
  }

  lemma AppendSnapshot(snaps: seq<Snapshot>, s: Snapshot, wallet: int, day: int)
    ensures TimesOf(snaps + [s], wallet) == TimesOf(snaps, wallet) + if s.wallet == wallet then [s.at] else []
    ensures LastOfDay(snaps + [s], wallet, day)
         == if s.wallet == wallet && DayOf(s.at) == day then Some(s) else LastOfDay(snaps, wallet, day)
  {
    assert (snaps + [s])[..|snaps|] == snaps;
  }

  lemma AppendElsewhere(snaps: seq<Snapshot>, s: Snapshot, wallet: int)
    requires s.wallet != wallet
    ensures TimesOf(snaps + [s], wallet) == TimesOf(snaps, wallet)
    ensures forall day :: LastOfDay(snaps + [s], wallet, day) == LastOfDay(snaps, wallet, day)
  {
    AppendSnapshot(snaps, s, wallet, 0);
    forall day
      ensures LastOfDay(snaps + [s], wallet, day) == LastOfDay(snaps, wallet, day)
    {
      AppendSnapshot(snaps, s, wallet, day);
    }
  }

  /** While a wallet's snapshots are spaced, the newest one is the one stored last. */
  lemma {:induction false} LatestIsLast(snaps: seq<Snapshot>, wallet: int, minInterval: nat)
    requires Spaced(TimesOf(snaps, wallet), minInterval)
    ensures var times := TimesOf(snaps, wallet);
            && (Latest(snaps, wallet).None? <==> times == [])
            && (times != [] ==> Latest(snaps, wallet).value.at == times[|times| - 1])
  {
    if snaps != [] {
      var n := |snaps| - 1;
      var before := TimesOf(snaps[..n], wallet);
      assert forall i :: 0 <= i < |before| ==> TimesOf(snaps, wallet)[i] == before[i];
      LatestIsLast(snaps[..n], wallet, minInterval);
    }
  }

  /**
   * A wallet's snapshots are spaced, and its daily rows hold that day's last snapshot, except
   * those whose last upsert is missing.
   */
  ghost predicate WalletOk(snaps: seq<Snapshot>, daily: map<(int, int), real>, missed: set<(int, int)>,
                           clock: int, minInterval: nat, wallet: int) {
    var times := TimesOf(snaps, wallet);
    && Spaced(times, minInterval)
    && (times != [] ==> times[|times| - 1] <= clock)
    && forall day :: DailyOk(snaps, daily, missed, wallet, day)
  }

  ghost predicate DailyOk(snaps: seq<Snapshot>, daily: map<(int, int), real>, missed: set<(int, int)>, wallet: int,
      day: int) {
    LastOfDay(snaps, wallet, day).Some? && (wallet, day) !in missed ==>
      (wallet, day) in daily && daily[(wallet, day)] == LastOfDay(snaps, wallet, day).value.value
  }

  lemma OkIsSpaced(snaps: seq<Snapshot>, daily: map<(int, int), real>, missed: set<(int, int)>,
                   clock: int, minInterval: nat, wallet: int)
    requires WalletOk(snaps, daily, missed, clock, minInterval, wallet)
    ensures var times := TimesOf(snaps, wallet);
            Spaced(times, minInterval) && (times != [] ==> times[|times| - 1] <= clock)
  {
  }

  /** Twice the sum of the pauses backoff, 2*backoff, ... before the k-th attempt. */
  function TwicePauses(backoff: nat, k: nat): int {
    backoff * (k * (k - 1))
  }

  lemma PausesGrow(backoff: nat, k: nat)
    ensures TwicePauses(backoff, k + 1) == TwicePauses(backoff, k) + 2 * (backoff * k)
  {
    assert (k + 1) * k == k * (k - 1) + 2 * k;
  }

  lemma InsertKeeps(snaps: seq<Snapshot>, daily: map<(int, int), real>, missed: set<(int, int)>,
                    clock: int, minInterval: nat, s: Snapshot, wallet: int)
    requires WalletOk(snaps, daily, missed, clock, minInterval, wallet) && s.at <= clock
    requires s.wallet == wallet ==> Due(Latest(snaps, wallet), s.at, minInterval)
    ensures WalletOk(snaps + [s], daily, missed + {(s.wallet, DayOf(s.at))}, clock, minInterval, wallet)
  {
    hide DayOf, Latest, LastOfDay, TimesOf;
    LatestIsLast(snaps, wallet, minInterval);
    AppendSnapshot(snaps, s, wallet, 0);
    if s.wallet == wallet {
      SpacedAppend(TimesOf(snaps, wallet), minInterval, s.at);
    }
    forall day
      ensures DailyOk(snaps + [s], daily, missed + {(s.wallet, DayOf(s.at))}, wallet, day)
    {
      assert DailyOk(snaps, daily, missed, wallet, day);
      AppendSnapshot(snaps, s, wallet, day);
    }
  }

  lemma UpsertKeeps(snaps: seq<Snapshot>, daily: map<(int, int), real>, missed: set<(int, int)>,
                    clock: int, minInterval: nat, s: Snapshot, wallet: int)
    requires WalletOk(snaps, daily, missed, clock, minInterval, wallet)
    requires LastOfDay(snaps, s.wallet, DayOf(s.at)) == Some(s)
    ensures var key := (s.wallet, DayOf(s.at));
            WalletOk(snaps, daily[key := s.value], missed - {key}, clock, minInterval, wallet)
  {
    hide DayOf, LastOfDay, TimesOf, Spaced;
    var key := (s.wallet, DayOf(s.at));
    var newDaily, newMissed := daily[key := s.value], missed - {key};
    forall day
      ensures DailyOk(snaps, newDaily, newMissed, wallet, day)
    {
      assert DailyOk(snaps, daily, missed, wallet, day);
    }
  }

  class Driver {
    const minInterval: nat
    const maxRetries: nat
    const backoff: nat
    var snaps: seq<Snapshot>
    var daily: map<(int, int), real>
    var clock: int
    /** The wallets and days whose last snapshot has not reached its daily row. */
    ghost var missed: set<(int, int)>

    constructor (minInterval: nat, maxRetries: nat, backoff: nat, clock: int)
      ensures Valid() && snaps == [] && daily == map[] && missed == {}
      ensures this.minInterval == minInterval && this.backoff == backoff && this.maxRetries == AtLeastOne(maxRetries)
    {
      this.minInterval, this.backoff, this.clock := minInterval, backoff, clock;
      this.maxRetries := AtLeastOne(maxRetries);
      snaps, daily, missed := [], map[], {};
    }

    ghost predicate Valid()
      reads this
    {
      maxRetries >= 1 && forall wallet :: WalletOk(snaps, daily, missed, clock, minInterval, wallet)
    }

    ghost function Times(wallet: int): seq<int>
      reads this
    {
      TimesOf(snaps, wallet)
    }

    /** No snapshot of this wallet was stored. */
    twostate predicate Untouched(wallet: int)
      reads this
    {
      && Times(wallet) == old(Times(wallet))
      && (forall day :: LastOfDay(snaps, wallet, day) == old(LastOfDay(snaps, wallet, day)))
      && (forall day :: (wallet, day) in missed <==> (wallet, day) in old(missed))
      && (forall day :: (wallet, day) in old(daily) ==>
            (wallet, day) in daily && daily[(wallet, day)] == old(daily)[(wallet, day)])
    }

    // ----- Single statements -----

    method InsertSnapshot(s: Snapshot)
      requires Valid() && s.at <= clock && Due(Latest(snaps, s.wallet), s.at, minInterval)
      modifies this`snaps, this`missed
      ensures Valid() && snaps == old(snaps) + [s] && missed == old(missed) + {(s.wallet, DayOf(s.at))}
    {
      hide WalletOk;
      snaps := snaps + [s];
      missed := missed + {(s.wallet, DayOf(s.at))};
      forall w: int
        ensures WalletOk(snaps, daily, missed, clock, minInterval, w)
      {
        InsertKeeps(old(snaps), daily, old(missed), clock, minInterval, s, w);
      }
    }

    method UpsertDaily(s: Snapshot)
      requires Valid() && LastOfDay(snaps, s.wallet, DayOf(s.at)) == Some(s)
      modifies this`daily, this`missed
      ensures Valid() && daily == old(daily)[(s.wallet, DayOf(s.at)) := s.value]
      ensures missed == old(missed) - {(s.wallet, DayOf(s.at))}
    {
      hide WalletOk;
      var key := (s.wallet, DayOf(s.at));
      daily := daily[key := s.value];
      missed := missed - {key};
      forall w: int
        ensures WalletOk(snaps, daily, missed, clock, minInterval, w)
      {
        UpsertKeeps(snaps, old(daily), old(missed), clock, minInterval, s, w);
      }
    }

    method Advance(secs: nat)
      requires Valid()
      modifies this`clock
      ensures Valid() && clock == old(clock) + secs
    {
      clock := clock + secs;
      assert forall w :: old(WalletOk(snaps, daily, missed, clock, minInterval, w)) ==>
          WalletOk(snaps, daily, missed, clock, minInterval, w);
    }

    /** Syncs of other wallets running at an await, and time passing. */
    method Await(wallet: int)
      requires Valid()
      modifies this
      ensures Valid() && clock >= old(clock) && Untouched(wallet)
    {
      hide WalletOk, DayOf;
      var n: nat :| n >= 0;
      for i := 0 to n
        invariant Valid() && clock >= old(clock) && Untouched(wallet)
      {
        var kind: int, s: Snapshot, secs: nat := *, *, *;
        if kind == 0 && s.wallet != wallet && s.at <= clock && Due(Latest(snaps, s.wallet), s.at, minInterval) {
          AppendElsewhere(snaps, s, wallet);
          InsertSnapshot(s);
        } else if kind == 1 && s.wallet != wallet && LastOfDay(snaps, s.wallet, DayOf(s.at)) == Some(s) {
          UpsertDaily(s);
        } else if secs >= 0 {
          Advance(secs);
        }
      }
    }

    // ----- One sync and its retries -----

    /** One attempt; `stored` is the snapshot it inserted, if any; `rowLost` says that its daily row was not written. */
    method SyncWallet(wallet: int)
      returns (r: Result<bool, SyncError>, stored: Option<Snapshot>, ghost rowLost: bool)
      requires Valid()
      modifies this
      ensures Valid() && clock >= old(clock)
      ensures r.Err? ==> stored.None?
      ensures stored.None? ==> Times(wallet) == old(Times(wallet))
      ensures stored.Some? ==> stored.value.wallet == wallet && old(clock) <= stored.value.at <= clock
      ensures stored.Some? ==> Times(wallet) == old(Times(wallet)) + [stored.value.at]
      ensures stored.Some? && !rowLost ==>
                var key := (wallet, DayOf(stored.value.at));
                key !in missed && key in daily && daily[key] == stored.value.value
      ensures r.Ok? && stored.None? ==> old(Times(wallet)) != []
      ensures r.Ok? && stored.None? ==> clock - old(Times(wallet))[|old(Times(wallet))| - 1] < minInterval
    {
      hide WalletOk, DayOf, LastOfDay, TimesOf, Latest;
      stored, rowLost := None, false;
      Await(wallet);
      var unreadable: bool := *;
      if unreadable {
        return Err(SyncFailed), None, false;
      }
      var latest := Latest(snaps, wallet);
      OkIsSpaced(snaps, daily, missed, clock, minInterval, wallet);
      LatestIsLast(snaps, wallet, minInterval);
      if latest.Some? && clock - latest.value.at < minInterval {
        return Ok(false), None, false;
      }
      Await(wallet);
      var remoteFails: bool := *;
      if remoteFails {
        return Err(SyncFailed), None, false;
      }
      var value: real := *;
      var s := Snapshot(wallet, clock, value);
      Await(wallet);
      var insertFails: bool := *;
      if insertFails {
        return Err(SyncFailed), None, false;
      }
      OkIsSpaced(snaps, daily, missed, clock, minInterval, wallet);
      LatestIsLast(snaps, wallet, minInterval);
      AppendSnapshot(snaps, s, wallet, DayOf(s.at));
      InsertSnapshot(s);
      stored := Some(s);
      Await(wallet);
      var upsertFails: bool := *;
      if !upsertFails {
        UpsertDaily(s);
      }
      Await(wallet);
      return Ok(true), stored, upsertFails;
    }

    /**
     * Up to `maxRetries` attempts, with growing pauses: at most one snapshot comes of them all,
     * none if the last attempt fails, and the pauses after k attempts add up to backoff*k*(k-1)/2.
     * `results` are those of the attempts: all but the last are errors, and the last is the answer.
     */
    method SyncWalletWithRetry(wallet: int)
      returns (r: Result<bool, SyncError>, attempts: nat, slept: nat, stored: Option<Snapshot>,
               ghost results: seq<Result<bool, SyncError>>)
      requires Valid()
      modifies this
      ensures Valid() && clock >= old(clock) + slept
      ensures 1 <= attempts <= maxRetries && (r.Err? ==> attempts == maxRetries)
      ensures |results| == attempts && results[attempts - 1] == r
      ensures forall k :: 0 <= k < attempts - 1 ==> results[k].Err?
      ensures 2 * slept == backoff * (attempts * (attempts - 1))
      ensures r.Err? ==> stored.None?
      ensures Times(wallet) == old(Times(wallet)) + if stored.Some? then [stored.value.at] else []
    {
      hide WalletOk, DayOf, LastOfDay, TimesOf, Latest;
      attempts, slept, results := 0, 0, [];
      while true
        invariant |results| == attempts && forall k :: 0 <= k < attempts ==> results[k].Err?
        invariant Valid() && attempts < maxRetries && clock >= old(clock) + slept
        invariant 2 * slept == TwicePauses(backoff, attempts + 1)
        invariant Times(wallet) == old(Times(wallet))
        decreases maxRetries - attempts
      {
        attempts := attempts + 1;
        ghost var rowLost;
        r, stored, rowLost := SyncWallet(wallet);
        results := results + [r];
        if r.Ok? || attempts >= maxRetries {
          break;
        }
        PausesGrow(backoff, attempts);
        var pause := backoff * attempts;
        Advance(pause);
        slept := slept + pause;
      }
    }

    // ----- What this means for the tables -----

    /** A wallet's snapshots are at least the minimum interval apart, so a span of time holds few of them. */
    lemma SnapshotRate(wallet: int, from: int, length: nat)
      requires Valid() && minInterval > 0
      ensures |Within(Times(wallet), from, length)| <= length / minInterval + 1
    {
      OkIsSpaced(snaps, daily, missed, clock, minInterval, wallet);
      RateBound(Times(wallet), minInterval, from, length);
    }

    /** Any two snapshots of a wallet are in time order and at least the minimum interval apart. */
    lemma SnapshotsApart(i: nat, j: nat)
      requires Valid() && i < j < |snaps| && snaps[i].wallet == snaps[j].wallet
      ensures snaps[j].at >= snaps[i].at + minInterval
    {
      var a, b := PairIsTimed(snaps, i, j);
      OkIsSpaced(snaps, daily, missed, clock, minInterval, snaps[i].wallet);
      hide WalletOk;
    }

    /** When the last daily upsert of a wallet and day reached its row, the row is that day's last snapshot. */
    lemma DailyIsLast(i: nat)
      requires Valid() && i < |snaps| && IsLastOfDay(snaps, i) && (snaps[i].wallet, DayOf(snaps[i].at)) !in missed
      ensures var key := (snaps[i].wallet, DayOf(snaps[i].at));
              key in daily && daily[key] == snaps[i].value
    {
      LastOfDayIs(snaps, i);
      assert WalletOk(snaps, daily, missed, clock, minInterval, snaps[i].wallet);
      assert DailyOk(snaps, daily, missed, snaps[i].wallet, DayOf(snaps[i].at));
      hide DayOf, LastOfDay, TimesOf;
    }
  }
}
