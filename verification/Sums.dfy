/** Finite sums of natural numbers, and how they react to changing one term. */
module Sums {

  function Sum(xs: seq<nat>): nat {
    if xs == [] then 0 else xs[0] + Sum(xs[1..])
  }

  lemma {:induction false} SumUpdate(xs: seq<nat>, i: nat, v: nat)
    requires i < |xs|
    ensures Sum(xs[i := v]) == Sum(xs) - xs[i] + v
    ensures xs[i] <= Sum(xs)
  {
    if i == 0 {
      assert xs[i := v][1..] == xs[1..];
    } else {
      assert xs[i := v][1..] == xs[1..][i - 1 := v];
      SumUpdate(xs[1..], i - 1, v);
    }
  }

  lemma {:induction false} SumSnoc(xs: seq<nat>, v: nat)
    ensures Sum(xs + [v]) == Sum(xs) + v
  {
    if xs != [] {
      assert (xs + [v])[1..] == xs[1..] + [v];
      SumSnoc(xs[1..], v);
    }
  }

  lemma {:induction false} SumBound(xs: seq<nat>, b: nat)
    requires forall i | 0 <= i < |xs| :: xs[i] <= b
    ensures Sum(xs) <= |xs| * b
  {
    if xs != [] { SumBound(xs[1..], b); }
  }

  lemma {:induction false} SumZero(xs: seq<nat>)
    requires forall i | 0 <= i < |xs| :: xs[i] == 0
    ensures Sum(xs) == 0
  {
    if xs != [] { SumZero(xs[1..]); }
  }

  lemma {:induction false} MulStep(a: nat, b: nat, c: nat)
    requires a < b
    ensures a * c + c <= b * c
  {
    if b == a + 1 {
      assert (a + 1) * c == a * c + c;
    } else {
      MulStep(a, b - 1, c);
      assert (b - 1 + 1) * c == (b - 1) * c + c;
    }
  }

  lemma WithoutPlace(s: seq<nat>, i: nat)
    requires i < |s| && forall a, b | 0 <= a < b < |s| :: s[a] != s[b]
    ensures var rest := s[..i] + s[i + 1..];
            && |rest| == |s| - 1
            && (forall k | 0 <= k < |rest| :: rest[k] in s && rest[k] != s[i])
            && (forall a, b | 0 <= a < b < |rest| :: rest[a] != rest[b])
  {
    var rest := s[..i] + s[i + 1..];
    assert forall k | 0 <= k < |rest| :: rest[k] == if k < i then s[k] else s[k + 1];
  }

  /** Distinct numbers below `n`: there are at most `n`, and if there are `n` none is missing. */
  lemma {:induction false} Pigeonhole(s: seq<nat>, n: nat)
    requires forall i | 0 <= i < |s| :: s[i] < n
    requires forall i, j | 0 <= i < j < |s| :: s[i] != s[j]
    ensures |s| <= n
    ensures |s| == n ==> forall k | 0 <= k < n :: k in s
    decreases n
  {
    assert s != [] ==> s[0] < n;
    if n == 0 {
    } else if i :| 0 <= i < |s| && s[i] == n - 1 {
      var rest := s[..i] + s[i + 1..];
      WithoutPlace(s, i);
      Pigeonhole(rest, n - 1);
      forall k | 0 <= k < n && |s| == n ensures k in s {
        if k < n - 1 { assert k in rest; }
      }
    } else {
      Pigeonhole(s, n - 1);
    }
  }

  /** A sequence in which every number below `n` occurs has at least `n` places. */
  lemma {:induction false} Covered(s: seq<nat>, n: nat)
    requires forall i: nat | i < n :: i in s
    ensures |s| >= n
  {
    if n > 0 {
      assert n - 1 in s;
      var k :| 0 <= k < |s| && s[k] == n - 1;
      var rest := s[..k] + s[k + 1..];
      forall i: nat | i < n - 1 ensures i in rest {
        assert i in s;
        var m :| 0 <= m < |s| && s[m] == i;
        assert rest[if m < k then m else m - 1] == i;
      }
      Covered(rest, n - 1);
    }
  }
}
