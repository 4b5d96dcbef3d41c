/** Addition and subtraction as doubles of IEEE 754 do them: the exact result, rounded to 53 bits. */
module Doubles {

  /** 2^52: a double from 1 to 2 is a whole number of its inverse. */
  const SCALE: real := 4503599627370496.0

  /** The nearest whole number, ties to even. */
  function Nearest(y: real): int {
    var (n, part) := (y.Floor, y - y.Floor as real);
    if part < 0.5 || (part == 0.5 && n % 2 == 0) then n else n + 1
  }

  /** To 53 significant bits, in units of 2^-52; what is below 1 is left as it is. */
  function Rounded(y: real): real
    decreases if y < SCALE then 0 else y.Floor
  {
    if y < SCALE then y
    else if y < 2.0 * SCALE then Nearest(y) as real
    else 2.0 * Rounded(y / 2.0)
  }

  function AddDoubles(a: real, b: real): real { Rounded((a + b) * SCALE) / SCALE }

  const PLUS: (real, real) -> real := (a, b) => AddDoubles(a, b)
  const MINUS: (real, real) -> real := (a, b) => AddDoubles(a, -b)

  /** x doubled k times. */
  function Doubled(x: real, k: nat): real { if k == 0 then x else 2.0 * Doubled(x, k - 1) }

  lemma {:induction false} DoubledWhole(m: int, k: nat) returns (w: int)
    ensures Doubled(m as real, k) == w as real
  {
    w := m;
    if k > 0 {
      w := DoubledWhole(m, k - 1);
      w := 2 * w;
    }
  }

  /** Less than half a step from n steps, or half a step when n is even. */
  predicate Near(distance: real, step: real, n: int) {
    -step < 2.0 * distance < step || (n % 2 == 0 && -step <= 2.0 * distance <= step)
  }

  lemma {:induction false} NearestIs(y: real, n: int)
    requires Near(y - n as real, 1.0, n)
    ensures Nearest(y) == n
  {
  }

  /** With k bits to give up, a whole number doubled k times is its own nearest double. */
  lemma {:induction false} MultiplesAreExact(y: real, m: int, k: nat)
    requires y == Doubled(m as real, k) && y < Doubled(2.0 * SCALE, k)
    ensures Rounded(y) == y
  {
    if y >= 2.0 * SCALE {
      MultiplesAreExact(y / 2.0, m, k - 1);
    } else {
      var w := DoubledWhole(m, k);
      NearestIs(y, w);
    }
  }

  lemma {:induction false} DoubledSum(x: real, j: nat, k: nat)
    ensures Doubled(x, j + k) == Doubled(Doubled(x, k), j)
  {
    if j > 0 { DoubledSum(x, j - 1, k); }
  }

  lemma {:induction false} EightTimes(x: real)
    ensures Doubled(x, 3) == 8.0 * x
  {
    assert Doubled(x, 1) == 2.0 * x && Doubled(x, 2) == 4.0 * x;
  }

  lemma {:induction false} Doubled18(x: real)
    ensures Doubled(x, 18) == 262144.0 * x
  {
    forall z: real ensures Doubled(z, 6) == 64.0 * z {
      DoubledSum(z, 3, 3);
      EightTimes(z);
      EightTimes(8.0 * z);
    }
    DoubledSum(x, 12, 6);
    DoubledSum(Doubled(x, 6), 6, 6);
  }

  /** Whole numbers up to 400000 need no rounding. */
  lemma {:induction false} WholeIsExact(n: nat)
    requires n <= 400_000
    ensures Rounded(n as real * SCALE) == n as real * SCALE
  {
    var m := n * 17179869184;
    Doubled18(m as real);
    Doubled18(2.0 * SCALE);
    MultiplesAreExact(n as real * SCALE, m, 18);
  }

  lemma {:induction false} WholesAdd(a: int, b: int)
    requires 0 <= a + b <= 400_000
    ensures AddDoubles(a as real, b as real) == (a + b) as real
  {
    hide Rounded;
    WholeIsExact(a + b);
    assert a as real + b as real == (a + b) as real;
  }

  /** The double of so many units of 2^-52. */
  function Units(n: int): real { n as real / SCALE }

  /** k halvings, then the nearest whole number. */
  lemma {:induction false} RoundsTo(y: real, k: nat, n: int)
    requires Doubled(SCALE, k) <= y < Doubled(2.0 * SCALE, k)
    requires Near(y - Doubled(n as real, k), Doubled(1.0, k), n)
    ensures Rounded(y) == Doubled(n as real, k)
  {
    if k == 0 {
      NearestIs(y, n);
    } else {
      DoubledAtLeast(SCALE, k - 1);
      RoundsTo(y / 2.0, k - 1, n);
    }
  }

  lemma {:induction false} DoubledAtLeast(x: real, k: nat)
    requires x >= 0.0
    ensures Doubled(x, k) >= x
  {
    if k > 0 { DoubledAtLeast(x, k - 1); }
  }

  /** One addition, worked out: `sum` is a + b rounded to a multiple of 2^k units. */
  lemma {:induction false} SumRounds(a: int, b: int, k: nat, n: int, sum: int)
    requires Doubled(SCALE, k) <= (a + b) as real < Doubled(2.0 * SCALE, k)
    requires sum as real == Doubled(n as real, k) && Near((a + b - sum) as real, Doubled(1.0, k), n)
    ensures AddDoubles(Units(a), Units(b)) == Units(sum)
  {
    assert (Units(a) + Units(b)) * SCALE == (a + b) as real;
    RoundsTo((a + b) as real, k, n);
  }

  lemma {:induction false} Halvings()
    ensures Doubled(1.0, 0) == 1.0 && Doubled(1.0, 1) == 2.0 && Doubled(1.0, 3) == 8.0 && Doubled(1.0, 4) == 16.0 && Doubled(1.0, 5) == 32.0
  {
    assert Doubled(1.0, 2) == 4.0;
  }

  lemma {:induction false} DoubledScales(x: real, k: nat)
    ensures Doubled(x, k) == x * Doubled(1.0, k)
  {
    if k > 0 {
      DoubledScales(x, k - 1);
      assert 2.0 * (x * Doubled(1.0, k - 1)) == x * (2.0 * Doubled(1.0, k - 1));
    }
  }

  /** One addition, worked out with numbers: `step` is 2^k. */
  lemma {:induction false} Adds(a: int, b: int, k: nat, step: int, n: int, sum: int)
    requires Doubled(1.0, k) == step as real && sum == n * step
    requires 4503599627370496 * step <= a + b < 9007199254740992 * step
    requires -step < 2 * (a + b - sum) < step || (n % 2 == 0 && -step <= 2 * (a + b - sum) <= step)
    ensures AddDoubles(Units(a), Units(b)) == Units(sum)
  {
    DoubledScales(SCALE, k);
    DoubledScales(2.0 * SCALE, k);
    DoubledScales(n as real, k);
    SumRounds(a, b, k, n, sum);
  }

  // ------------------------------------------------------------------ order

  lemma {:induction false} RoundedAtLeast(y: real)
    requires y >= SCALE
    ensures Rounded(y) >= SCALE
    decreases y.Floor
  {
    if y >= 2.0 * SCALE { RoundedAtLeast(y / 2.0); }
  }

  lemma {:induction false} NearestIsMonotone(x: real, y: real)
    requires x <= y
    ensures Nearest(x) <= Nearest(y)
  {
    if x.Floor == y.Floor { assert x - x.Floor as real <= y - y.Floor as real; }
  }

  lemma {:induction false} NearestIsClose(y: real)
    ensures y - 0.5 <= Nearest(y) as real <= y + 0.5
  {
  }

  lemma {:induction false} NearestBelow(y: real, n: int)
    requires y < n as real
    ensures Nearest(y) <= n
  {
    NearestIsClose(y);
  }

  /** A larger number does not round to a smaller one. */
  lemma {:induction false} RoundedIsMonotone(x: real, y: real)
    requires x <= y
    ensures Rounded(x) <= Rounded(y)
    decreases if y < SCALE then 0 else y.Floor
  {
    hide Nearest;
    if y < SCALE {
    } else if x >= 2.0 * SCALE {
      RoundedIsMonotone(x / 2.0, y / 2.0);
    } else if y >= 2.0 * SCALE {
      RoundedAtLeast(y / 2.0);
      NearestBelow(x, 9007199254740992);
    } else if x >= SCALE {
      NearestIsMonotone(x, y);
    } else {
      RoundedAtLeast(y);
    }
  }
}
