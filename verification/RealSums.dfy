/** Sums of real sequences, taken from left to right as `Iterator::sum` does. */
module RealSums {

  function Sum(s: seq<real>): real {
    if s == [] then 0.0 else Sum(s[..|s| - 1]) + s[|s| - 1]
  }

  function Scale(c: real, x: real): real {
    c * x
  }

  function Scaled(s: seq<real>, c: real): (r: seq<real>)
    ensures |r| == |s| && forall i :: 0 <= i < |s| ==> r[i] == Scale(c, s[i])
  {
    seq(|s|, i requires 0 <= i < |s| => Scale(c, s[i]))
  }

  lemma ScaledSlice(s: seq<real>, c: real, from: nat, to: nat)
    requires from <= to <= |s|
    ensures Scaled(s, c)[from..to] == Scaled(s[from..to], c)
  {
    forall i | 0 <= i < to - from
      ensures Scaled(s, c)[from..to][i] == Scaled(s[from..to], c)[i]
    {
      assert s[from..to][i] == s[from + i];
    }
  }

  lemma ScaledSuffix(s: seq<real>, c: real, from: nat)
    requires from <= |s|
    ensures Scaled(s, c)[from..] == Scaled(s[from..], c)
  {
    ScaledSlice(s, c, from, |s|);
    assert Scaled(s, c)[from..] == Scaled(s, c)[from..|s|] && s[from..] == s[from..|s|];
  }

  lemma {:induction false} SumConcat(a: seq<real>, b: seq<real>)
    ensures Sum(a + b) == Sum(a) + Sum(b)
  {
    if b == [] {
      assert a + b == a;
    } else {
      SumConcat(a, b[..|b| - 1]);
      assert (a + b)[..|a + b| - 1] == a + b[..|b| - 1];
    }
  }

  lemma {:induction false} SumScaled(s: seq<real>, c: real)
    ensures Sum(Scaled(s, c)) == Scale(c, Sum(s))
  {
    if s != [] {
      SumScaled(s[..|s| - 1], c);
      ScaledSlice(s, c, 0, |s| - 1);
    }
  }

  function Times(n: nat, x: real): real {
    (n as real) * x
  }

  lemma {:induction false} SumAtLeast(s: seq<real>, low: real)
    requires forall i :: 0 <= i < |s| ==> low <= s[i]
    ensures Times(|s|, low) <= Sum(s)
  {
    if s != [] {
      SumAtLeast(s[..|s| - 1], low);
    }
  }

  lemma {:induction false} SumAtMost(s: seq<real>, high: real)
    requires forall i :: 0 <= i < |s| ==> s[i] <= high
    ensures Sum(s) <= Times(|s|, high)
  {
    if s != [] {
      SumAtMost(s[..|s| - 1], high);
    }
  }
}
