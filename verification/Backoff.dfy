/** Exponential backoff between attempts, with real arithmetic in place of float64. */
module Backoff {
  import opened Basics

  const TWO_63: int := 0x8000_0000_0000_0000

  function Pow(m: real, k: nat): real {
    if k == 0 then 1.0 else Pow(m, k - 1) * m
  }

  /** min(max, floor(initial * multiplier^(n-1))), attempts below one counting as the first. */
  function BackoffOf(n: int, initial: int, max: int, multiplier: real): int {
    Min(max, (initial as real * Pow(multiplier, if n <= 1 then 0 else n - 1)).Floor)
  }

  /** Conversion to a Duration: toward zero, and meaningful only within 64 bits. */
  function ToDuration(x: real): int
    requires -(TWO_63 as real) <= x < TWO_63 as real
  {
    if x >= 0.0 then x.Floor else -((-x).Floor)
  }

  lemma MulMonotone(a: real, b: real, c: real)
    requires a <= b && c >= 0.0
    ensures a * c <= b * c
  {
    assert (b - a) * c >= 0.0;
  }

  lemma {:induction false} PowMonotone(m: real, j: nat, k: nat)
    requires m >= 1.0 && j <= k
    ensures 1.0 <= Pow(m, j) <= Pow(m, k)
    decreases k
  {
    if j < k {
      PowMonotone(m, j, k - 1);
      MulMonotone(1.0, m, Pow(m, k - 1));
    } else if k > 0 {
      PowMonotone(m, k - 1, k - 1);
      MulMonotone(1.0, m, Pow(m, k - 1));
    }
  }

  /** Powers add up, and the first is the multiplier itself. */
  lemma {:induction false} PowAdds(m: real, j: nat, k: nat)
    ensures Pow(m, 0) == 1.0 && Pow(m, 1) == m
    ensures Pow(m, j + k) == Pow(m, j) * Pow(m, k)
  {
    if k > 0 {
      PowAdds(m, j, k - 1);
      Associative(Pow(m, j), Pow(m, k - 1), m);
    }
  }

  /** Doubling from 100 up to 1000. */
  lemma {:induction false} DoublingBackoffs()
    ensures BackoffOf(1, 100, 1000, 2.0) == 100 && BackoffOf(2, 100, 1000, 2.0) == 200
    ensures BackoffOf(3, 100, 1000, 2.0) == 400 && BackoffOf(4, 100, 1000, 2.0) == 800
    ensures BackoffOf(5, 100, 1000, 2.0) == 1000 && BackoffOf(6, 100, 1000, 2.0) == 1000
  {
    assert Pow(2.0, 1) == 2.0 && Pow(2.0, 2) == 4.0 && Pow(2.0, 3) == 8.0;
    assert Pow(2.0, 4) == 16.0 && Pow(2.0, 5) == 32.0;
  }

  lemma FloorMonotone(x: real, y: real)
    requires x <= y
    ensures x.Floor <= y.Floor
  {
  }

  /** Later attempts never wait less. */
  lemma BackoffMonotone(n: int, n': int, initial: int, max: int, multiplier: real)
    requires multiplier >= 1.0 && initial >= 0 && n <= n'
    ensures BackoffOf(n, initial, max, multiplier) <= BackoffOf(n', initial, max, multiplier)
  {
    var j, k := if n <= 1 then 0 else n - 1, if n' <= 1 then 0 else n' - 1;
    PowMonotone(multiplier, j, k);
    MulMonotone(Pow(multiplier, j), Pow(multiplier, k), initial as real);
    FloorMonotone(initial as real * Pow(multiplier, j), initial as real * Pow(multiplier, k));
  }

  /** Once the ceiling is reached it is kept, and no backoff is negative or above it. */
  lemma BackoffSticksToMax(n: int, n': int, initial: int, max: int, multiplier: real)
    requires multiplier >= 1.0 && initial >= 0 && max >= 0 && n <= n'
    ensures 0 <= BackoffOf(n, initial, max, multiplier) <= max
    ensures BackoffOf(n, initial, max, multiplier) == max ==> BackoffOf(n', initial, max, multiplier) == max
  {
    BackoffMonotone(n, n', initial, max, multiplier);
    var k := if n <= 1 then 0 else n - 1;
    PowMonotone(multiplier, 0, k);
    MulMonotone(0.0, Pow(multiplier, k), initial as real);
  }

  lemma Associative(a: real, b: real, c: real)
    ensures (a * b) * c == a * (b * c)
  {
  }

  /** A value the conversion to a Duration accepts. */
  predicate Fits(x: real) { 0.0 <= x < TWO_63 as real }

  function Scaled(x: real, multiplier: real): real { x * multiplier }

  /** The values the loop multiplies stay convertible; no multiplication lowers a value. */
  ghost predicate Convertible(initial: int, max: int, multiplier: real) {
    && initial >= 0 && Fits(initial as real)
    && (forall x: real :: x >= 0.0 ==> x <= Scaled(x, multiplier))
    && (forall x: real {:trigger Scaled(x, multiplier)} ::
          x >= 0.0 && (x == initial as real || x.Floor < max) ==> Fits(Scaled(x, multiplier)))
  }

  lemma ScalingFits(x: real, bound: int, multiplier: real)
    requires 0.0 <= x <= bound as real && multiplier >= 1.0
    requires Scaled(bound as real, multiplier) < TWO_63 as real
    ensures Fits(Scaled(x, multiplier))
  {
    MulMonotone(x, bound as real, multiplier);
    MulMonotone(0.0, x, multiplier);
  }

  /** A configuration for which every conversion is meaningful. */
  lemma InRangeConverts(initial: int, max: int, multiplier: real)
    requires initial >= 0 && max >= 0 && multiplier >= 1.0
    requires Scaled(initial as real, multiplier) < TWO_63 as real && Scaled(max as real, multiplier) < TWO_63 as real
    ensures Convertible(initial, max, multiplier)
  {
    forall x: real | x >= 0.0 ensures x <= Scaled(x, multiplier) {
      MulMonotone(1.0, multiplier, x);
    }
    forall x: real | x >= 0.0 && (x == initial as real || x.Floor < max) ensures Fits(Scaled(x, multiplier)) {
      ScalingFits(x, if x == initial as real then initial else max, multiplier);
    }
  }

  /** The values after 0, 1, ... multiplications: they rise, and the last is the closed form. */
  ghost predicate Rungs(rungs: seq<real>, initial: int, multiplier: real) {
    && |rungs| >= 1 && rungs[0] == initial as real
    && (forall k :: 0 < k < |rungs| ==> rungs[k] == Scaled(rungs[k - 1], multiplier))
    && (forall j, k :: 0 <= j <= k < |rungs| ==> 0.0 <= rungs[j] <= rungs[k])
  }

  lemma {:induction false} Climbing(n: nat, initial: int, max: int, multiplier: real) returns (rungs: seq<real>)
    requires n >= 1 && Convertible(initial, max, multiplier)
    ensures |rungs| == n && Rungs(rungs, initial, multiplier)
  {
    if n == 1 {
      rungs := [initial as real];
    } else {
      var lower := Climbing(n - 1, initial, max, multiplier);
      var last := Scaled(lower[n - 2], multiplier);
      rungs := lower + [last];
      assert lower[n - 2] <= last;
    }
  }

  lemma {:induction false} RungsArePowers(rungs: seq<real>, initial: int, multiplier: real, k: nat)
    requires Rungs(rungs, initial, multiplier) && k < |rungs|
    ensures rungs[k] == initial as real * Pow(multiplier, k)
  {
    if k > 0 {
      RungsArePowers(rungs, initial, multiplier, k - 1);
      Associative(initial as real, Pow(multiplier, k - 1), multiplier);
    }
  }

  lemma BackoffOnRungs(n: int, initial: int, max: int, multiplier: real) returns (rungs: seq<real>)
    requires n > 1 && Convertible(initial, max, multiplier)
    ensures |rungs| == n && Rungs(rungs, initial, multiplier)
    ensures BackoffOf(n, initial, max, multiplier) == Min(max, rungs[n - 1].Floor)
  {
    rungs := Climbing(n, initial, max, multiplier);
    RungsArePowers(rungs, initial, multiplier, n - 1);
  }

  /** The loop over the attempts after the first, with its early exits. */
  method Climb(n: int, initial: int, max: int, multiplier: real, ghost rungs: seq<real>) returns (d: int)
    requires 1 < n == |rungs| && Convertible(initial, max, multiplier) && Rungs(rungs, initial, multiplier)
    ensures d == Min(max, rungs[n - 1].Floor)
  {
    var dur := initial as real;
    var i := 1;
    while i < n
      invariant 1 <= i <= n
      invariant dur == rungs[i - 1] && Fits(dur)
      invariant i > 1 ==> dur.Floor < max
    {
      dur := Scaled(dur, multiplier);
      assert dur == rungs[i];
      if ToDuration(dur) >= max {
        FloorMonotone(rungs[i], rungs[n - 1]);
        return max;
      }
      i := i + 1;
    }
    if ToDuration(dur) > max { return max; }
    return ToDuration(dur);
  }

  /** Only attempts after the first convert anything. */
  method AttemptBackoff(n: int, initial: int, max: int, multiplier: real) returns (d: int)
    requires n > 1 ==> Convertible(initial, max, multiplier)
    ensures d == BackoffOf(n, initial, max, multiplier)
  {
    if n <= 1 {
      if initial > max { return max; }
      return initial;
    }
    ghost var rungs := BackoffOnRungs(n, initial, max, multiplier);
    d := Climb(n, initial, max, multiplier, rungs);
  }
}
