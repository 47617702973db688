/** Events that are spaced apart are rare: one counting lemma for every throttle. */
module Spacing {

  /** Each event comes at least `gap` after the one before it. */
  ghost predicate Spaced(times: seq<int>, gap: int) {
    forall i, j :: 0 <= i < j < |times| ==> times[j] - times[i] >= gap
  }

  /** Appending an event at least `gap` after the last one keeps the spacing. */
  lemma SpacedAppend(times: seq<int>, gap: int, next: int)
    requires gap >= 0 && Spaced(times, gap)
    requires times != [] ==> next - times[|times| - 1] >= gap
    ensures Spaced(times + [next], gap)
  {
    forall i, j | 0 <= i < j < |times + [next]|
      ensures (times + [next])[j] - (times + [next])[i] >= gap
    {
      if j == |times| && i < |times| - 1 {
        assert times[|times| - 1] - times[i] >= gap;
      }
    }
  }

  /** The events in the closed interval [from, from + length]. */
  function Within(times: seq<int>, from: int, length: int): (r: seq<int>) {
    if times == [] then []
    else
      var rest := Within(times[..|times| - 1], from, length);
      var t := times[|times| - 1];
      if from <= t <= from + length then rest + [t] else rest
  }

  lemma {:induction false} WithinSpaced(times: seq<int>, gap: int, from: int, length: int)
    requires gap >= 0 && Spaced(times, gap)
    ensures Spaced(Within(times, from, length), gap)
    ensures forall t :: t in Within(times, from, length) <==> t in times && from <= t <= from + length
  {
    if times != [] {
      var n := |times| - 1;
      WithinSpaced(times[..n], gap, from, length);
      assert times == times[..n] + [times[n]];
      var rest := Within(times[..n], from, length);
      if rest != [] {
        var last := rest[|rest| - 1];
        assert last in times[..n];
        var i :| 0 <= i < n && times[i] == last;
      }
      if from <= times[n] <= from + length {
        SpacedAppend(rest, gap, times[n]);
      }
    }
  }

  lemma {:induction false} SpacedSpan(times: seq<int>, gap: int)
    requires gap >= 0 && times != [] && Spaced(times, gap)
    ensures times[|times| - 1] - times[0] >= gap * (|times| - 1)
  {
    var n := |times| - 1;
    if n > 0 {
      SpacedSpan(times[..n], gap);
      assert times[n] - times[n - 1] >= gap;
      assert gap * n == gap * (n - 1) + gap;
    }
  }

  /** An interval of length L holds at most floor(L / gap) + 1 events. */
  lemma RateBound(times: seq<int>, gap: int, from: int, length: nat)
    requires gap > 0 && Spaced(times, gap)
    ensures |Within(times, from, length)| <= length / gap + 1
  {
    var w := Within(times, from, length);
    WithinSpaced(times, gap, from, length);
    if w != [] {
      SpacedSpan(w, gap);
      assert w[0] in w && w[|w| - 1] in w;
      DivideBound(|w| - 1, gap, length);
    }
  }

  lemma DivideBound(n: nat, gap: int, length: nat)
    requires gap > 0 && gap * n <= length
    ensures n <= length / gap
  {
    var q := length / gap;
    assert length < gap * q + gap == gap * (q + 1);
    if n >= q + 1 {
      TimesGrows(gap, q + 1, n);
    }
  }

  lemma TimesGrows(f: nat, a: nat, b: nat)
    requires a <= b
    ensures f * a <= f * b
  {
  }
}
