// The percentage: a quotient rounded to 28 significant digits half-even, times 100, quantized to
// hundredths half-up. Below a bound on the numerator the first rounding cannot be seen.
module Rounding {
  import opened Digits

  const PRECISION: nat := 28

  /** a / b to the nearest integer, ties to even. */
  function HalfEven(a: nat, b: nat): nat
    requires b > 0
  {
    var q, r := a / b, a % b;
    if 2 * r < b || (2 * r == b && q % 2 == 0) then q else q + 1
  }

  lemma HalfEvenIsNear(a: nat, b: nat)
    requires b > 0
    ensures -(b as int) <= 2 * (HalfEven(a, b) * b) - 2 * a <= b
  {
    var q, r := a / b, a % b;
    assert a == q * b + r;
    assert (q + 1) * b == q * b + b;
  }

  lemma KTimes(k: int, b: nat)
    requires b > 0
    ensures (k >= 2 ==> k * b >= 2 * b) && (k <= -1 ==> k * b <= 0 - b)
  {
  }

  lemma Remainder(a: nat, b: nat, c: nat)
    requires b > 0
    ensures 2 * (c * b) - 2 * a == 2 * ((c - a / b) * b) - 2 * (a % b)
  {
    assert a == (a / b) * b + a % b;
    assert (c - a / b) * b == c * b - (a / b) * b;
  }

  /** c is a / b rounded half-even if and only if it is within half a unit of it, and even where two are. */
  lemma HalfEvenExactly(a: nat, b: nat, c: nat)
    requires b > 0
    ensures c == HalfEven(a, b) <==>
              var off := 2 * (c * b) - 2 * a;
              -(b as int) <= off <= b && (off == b || off == -(b as int) ==> c % 2 == 0)
  {
    Remainder(a, b, c);
    KTimes(c - a / b, b);
    var q, r, k := a / b, a % b, c - a / b;
    assert HalfEven(a, b) == if 2 * r < b || (2 * r == b && q % 2 == 0) then q else q + 1;
    assert (k == 0 ==> k * b == 0) && (k == 1 ==> k * b == b);
    hide HalfEven;
  }

  /** a / b to the nearest integer, ties up. */
  function HalfUp(a: nat, b: nat): nat
    requires b > 0
  {
    (2 * a + b) / (2 * b)
  }

  lemma Scales(c: nat, n: nat, k: nat)
    requires c > 0 && n > 0
    ensures c * (n * Pow10(k)) < c * (n * Pow10(k + 1))
  {
    assert Pow10(k + 1) == 10 * Pow10(k);
    assert n * Pow10(k) < n * Pow10(k + 1);
    assert forall x: nat, y: nat :: x < y ==> c * x < c * y;
  }

  /** The least power of ten that brings n / d up to low. */
  function Shift(n: nat, d: nat, low: nat, from: nat): (s: nat)
    requires n > 0
    ensures s >= from && n * Pow10(s) >= low * d
    ensures s > from ==> n * Pow10(s - 1) < low * d
    decreases low * d - 1 * (n * Pow10(from))
  {
    if n * Pow10(from) >= low * d then from
    else
      Scales(1, n, from);
      Shift(n, d, low, from + 1)
  }

  /** The least power of ten that brings n / d below high. */
  function Drop(n: nat, d: nat, high: nat, from: nat): (t: nat)
    requires d > 0 && high > 0
    ensures t >= from && n < high * (d * Pow10(t))
    ensures t > from ==> n >= high * (d * Pow10(t - 1))
    decreases n - high * (d * Pow10(from))
  {
    if n < high * (d * Pow10(from)) then from
    else
      Scales(high, d, from);
      Drop(n, d, high, from + 1)
  }

  /** n / d as Decimal division gives it: digits * 10^down / 10^up, with 28 significant digits. */
  datatype Quotient = Quotient(digits: nat, up: nat, down: nat)

  function Divide(n: nat, d: nat): Quotient
    requires n > 0 && d > 0
  {
    var up := Shift(n, d, Pow10(PRECISION - 1), 0);
    var down := if up > 0 then 0 else Drop(n, d, Pow10(PRECISION), 0);
    Quotient(HalfEven(n * Pow10(up), d * Pow10(down)), up, down)
  }

  /** (n / d) * 100 in hundredths, as the two roundings give it. Multiplying by 100 is exact: it
      appends two zeros, and dropping them back to 28 digits loses nothing. */
  function Hundredths(n: nat, d: nat): nat
    requires n > 0 && d > 0
  {
    var q := Divide(n, d);
    HalfUp(10000 * q.digits * Pow10(q.down), Pow10(q.up))
  }

  /** 100 n / d rounded once to hundredths, half up. */
  function ExactHundredths(n: nat, d: nat): nat
    requires d > 0
  {
    (20000 * n + d) / (2 * d)
  }

  const BOUND: nat := 1_0000_0000_0000_0000_0000_000

  lemma PowValues()
    ensures Pow10(0) == 1 && Pow10(1) == 10 && Pow10(2) == 100 && Pow10(3) == 1000
    ensures Pow10(27) == 1000 * SHOWN
    ensures Pow10(4) == 10000 && Pow10(5) == 100000 && Pow10(6) == 1000000
    ensures Pow10(27) == 10000 * BOUND
  {
    PowSum(4, 23);
    PowSum(11, 12);
    assert Pow10(11) == 100000000000;
    assert Pow10(12) == 1000000000000;
  }

  lemma MulLess(a: nat, b: nat, c: nat)
    requires a < b && c > 0
    ensures a * c < b * c
  {
  }

  lemma MulAtMost(a: nat, b: nat, c: nat)
    requires b <= c
    ensures a * b <= a * c
  {
  }

  lemma HalfEvenBetween(a: nat, b: nat, low: nat, high: nat)
    requires b > 0 && low * b <= a < high * b
    ensures low <= HalfEven(a, b) <= high
  {
    hide HalfEven;
    HalfEvenIsNear(a, b);
    var m := HalfEven(a, b);
    assert (m + 1) * b == m * b + b && (high + 1) * b == high * b + b;
    if m < low {
      MulAtMost(b, m + 1, low);
      assert false;
    }
    if m > high {
      MulAtMost(b, high + 1, m);
      assert false;
    }
  }

  /** The shifted quotient lies between 10^27 and 10^28. */
  lemma ShiftedInRange(n: nat, d: nat)
    requires n > 0 && d > 0
    ensures var q := Divide(n, d);
            var a, b := n * Pow10(q.up), d * Pow10(q.down);
            Pow10(PRECISION - 1) * b <= a < Pow10(PRECISION) * b
  {
    hide Pow10, HalfEven;
    var q := Divide(n, d);
    var a, b := n * Pow10(q.up), d * Pow10(q.down);
    var low, high := Pow10(PRECISION - 1), Pow10(PRECISION);
    PowSum(1, 27);
    PowValues();
    assert high == 10 * low;
    if q.up > 0 {
      PowSum(1, q.up - 1);
      TenTimes(n, Pow10(q.up - 1));
      TenTimes(d, low);
      assert b == d;
    } else if q.down > 0 {
      PowSum(1, q.down - 1);
      TenTimes(d, Pow10(q.down - 1));
      TenTimes(low, d * Pow10(q.down - 1));
    }
  }

  lemma TenTimes(a: nat, b: nat)
    ensures a * (10 * b) == 10 * (a * b) == (10 * a) * b
  {
  }

  /** The quotient always has 28 significant digits (or is a power of ten it was rounded up to),
      and is within half a unit of its last digit, even where two are. */
  lemma QuotientHasPrecision(n: nat, d: nat)
    requires n > 0 && d > 0
    ensures var q := Divide(n, d);
            && Pow10(27) <= q.digits <= Pow10(28)
            && var a, b := n * Pow10(q.up), d * Pow10(q.down);
               var off := 2 * (q.digits * b) - 2 * a;
               -(b as int) <= off <= b && (off == b || off == -(b as int) ==> q.digits % 2 == 0)
  {
    hide Pow10, HalfEven;
    var q := Divide(n, d);
    var a, b := n * Pow10(q.up), d * Pow10(q.down);
    ShiftedInRange(n, d);
    HalfEvenExactly(a, b, q.digits);
    HalfEvenBetween(a, b, Pow10(PRECISION - 1), Pow10(PRECISION));
  }

  /** Below the bound the quotient keeps more places than the result shows by a factor of d. */
  lemma ShiftLeavesRoom(n: nat, d: nat)
    requires 0 < n < BOUND && d > 0
    ensures var s := Shift(n, d, Pow10(PRECISION - 1), 0); s >= 5 && 10000 * d < Pow10(s)
  {
    hide Pow10;
    PowValues();
    var s := Shift(n, d, Pow10(PRECISION - 1), 0);
    var T := Pow10(s);
    assert n * T >= 10000 * BOUND * d;
    if T <= 10000 * d {
      MulAtMost(n, T, 10000 * d);
      MulLess(n, BOUND, 10000 * d);
      assert false;
    }
    if s <= 4 {
      PowMonotone(s, 4);
      assert false;
    }
  }

  /** Rounding x to an integer and then to a multiple of 2g, against rounding x once: the same when
      x is either at least half a unit below the boundary above it or not below it at all. */
  lemma SecondRoundingAgrees(n: nat, d: nat, g: nat, m: nat)
    requires d > 0 && g > 0 && d < 2 * g
    requires -(d as int) <= 2 * (m * d) - 2 * (20000 * (n * g)) <= d
    ensures (m + g) / (2 * g) == HalfUp(10000 * n, d)
  {
    var K := HalfUp(10000 * n, d);
    assert 2 * d * K <= 20000 * n + d < 2 * d * K + 2 * d;
    Lower(n, d, g, m, K);
    Upper(n, d, g, m, K);
    QuotientIs(m + g, 2 * g, K);
  }

  lemma QuotientIs(a: nat, b: nat, k: nat)
    requires b > 0 && k * b <= a < k * b + b
    ensures a / b == k
  {
    var q, r := a / b, a % b;
    assert a == q * b + r;
    if q < k {
      MulAtMost(b, q + 1, k);
    } else if q > k {
      MulAtMost(b, k + 1, q);
    }
  }

  lemma ScaledSum(n: nat, d: nat, g: nat)
    ensures g * (20000 * n + d) == 20000 * (n * g) + d * g
  {
  }

  lemma ScaledBoundary(d: nat, g: nat, K: nat)
    ensures g * (2 * d * K) == d * (K * (2 * g))
    ensures g * (2 * d * K + 2 * d) == d * (K * (2 * g) + 2 * g)
  {
    assert g * (2 * d * K + 2 * d) == g * (2 * d * K) + g * (2 * d);
    assert d * (K * (2 * g) + 2 * g) == d * (K * (2 * g)) + d * (2 * g);
    assert g * (2 * d * K) == d * (K * (2 * g)) by {
      assert g * (2 * d * K) == 2 * (g * (d * K));
      assert d * (K * (2 * g)) == 2 * (d * (K * g));
      assert g * (d * K) == d * (K * g);
    }
  }

  lemma ScaledDigits(d: nat, g: nat, m: nat)
    ensures d * (m + g) == m * d + d * g && d * (m + g + 1) == m * d + d * g + d
  {
  }

  lemma Lower(n: nat, d: nat, g: nat, m: nat, K: nat)
    requires d > 0 && g > 0 && 2 * d * K <= 20000 * n + d
    requires -(d as int) <= 2 * (m * d) - 2 * (20000 * (n * g))
    ensures K * (2 * g) <= m + g
  {
    // 2 d K g <= (20000 n + d) g, and m d is within d / 2 of 20000 n g.
    MulAtMost(g, 2 * d * K, 20000 * n + d);
    ScaledSum(n, d, g);
    ScaledBoundary(d, g, K);
    ScaledDigits(d, g, m);
    if K * (2 * g) > m + g {
      MulAtMost(d, m + g + 1, K * (2 * g));
      assert false;
    }
  }

  lemma Upper(n: nat, d: nat, g: nat, m: nat, K: nat)
    requires d > 0 && g > 0 && d < 2 * g && 20000 * n + d < 2 * d * K + 2 * d
    requires 2 * (m * d) - 2 * (20000 * (n * g)) <= d
    ensures m + g < K * (2 * g) + 2 * g
  {
    // The boundary is at least g, more than d / 2, past 20000 n g.
    var boundary := K * (2 * g) + 2 * g;
    MulAtMost(g, 20000 * n + d + 1, 2 * d * K + 2 * d);
    ScaledSum(n, d, g);
    assert g * (20000 * n + d + 1) == g * (20000 * n + d) + g;
    ScaledBoundary(d, g, K);
    ScaledDigits(d, g, m);
    BoundaryIsPast(20000 * (n * g), d * g, g, d, m * d, d * boundary, d * (m + g));
    if m + g >= boundary {
      MulAtMost(d, boundary, m + g);
      assert false;
    }
  }

  lemma BoundaryIsPast(exact: int, half: int, g: int, d: int, rounded: int, boundary: int, reached: int)
    requires exact + half + g <= boundary && reached == rounded + half
    requires 2 * rounded - 2 * exact <= d < 2 * g
    ensures reached < boundary
  {
  }

  /** Double rounding is harmless: for a positive prior and a numerator below 10^23, the published
      percentage is one exact half-up rounding, floor((20000 n + d) / (2 d)) hundredths. */
  lemma DoubleRoundingHarmless(n: nat, d: nat)
    requires 0 < n < BOUND && d > 0
    ensures Hundredths(n, d) == ExactHundredths(n, d)
  {
    hide Pow10, HalfEven, Shift, Drop;
    ShiftLeavesRoom(n, d);
    PowValues();
    var s := Shift(n, d, Pow10(PRECISION - 1), 0);
    PowSum(5, s - 5);
    var g := 5 * Pow10(s - 5);
    assert Pow10(s) == 20000 * g;
    PowValues();
    var m := HalfEven(n * Pow10(s), d);
    HalfEvenIsNear(n * Pow10(s), d);
    assert n * Pow10(s) == 20000 * (n * g);
    SecondRoundingAgrees(n, d, g, m);
    HalfUpScales(m, g);
  }

  lemma HalfUpScales(m: nat, g: nat)
    requires g > 0
    ensures HalfUp(10000 * m, 20000 * g) == (m + g) / (2 * g)
  {
    var k := (m + g) / (2 * g);
    var r := (m + g) % (2 * g);
    assert m + g == k * (2 * g) + r;
    assert k * (2 * (20000 * g)) == 20000 * (k * (2 * g));
    QuotientIs(2 * (10000 * m) + 20000 * g, 2 * (20000 * g), k);
  }

  lemma {:induction false} ShiftIs(n: nat, d: nat, low: nat, from: nat, s: nat)
    requires n > 0 && from <= s && n * Pow10(s) >= low * d
    requires forall k :: from <= k < s ==> n * Pow10(k) < low * d
    ensures Shift(n, d, low, from) == s
    decreases s - from
  {
    if from < s {
      ShiftIs(n, d, low, from + 1, s);
    }
  }

  /** The bound is needed: just above 10^23 the first rounding carries a quotient that lies under a
      half up to the half, and the result is one hundredth too large. */
  lemma DoubleRoundingVisible()
    ensures var n, d := 100100000000000000000951, 1001;
            && n > BOUND && Hundredths(n, d) == ExactHundredths(n, d) + 1
  {
    hide Shift, Drop, Pow10;
    var n, d := 100100000000000000000951, 1001;
    PowValues();
    PowSum(5, 2);
    forall k | 0 <= k < 7 ensures n * Pow10(k) < Pow10(PRECISION - 1) * d {
      PowMonotone(k, 6);
      MulAtMost(n, Pow10(k), Pow10(6));
    }
    ShiftIs(n, d, Pow10(PRECISION - 1), 0, 7);
    assert Divide(n, d).digits == 1000000000000000000009500500;
  }

  // ----- exactly when the first rounding shows ------------------------------------------

  const SHOWN: nat := 10 * BOUND

  /** The first rounding is visible: the exact quotient lies within half a unit of its 28th digit
      below the boundary of the next hundredth, or, where that digit is the hundredth itself, on a tie
      that half-even leaves down. */
  predicate Visible(n: nat, d: nat)
    requires n > 0 && d > 0
  {
    var s := Shift(n, d, Pow10(PRECISION - 1), 0);
    if s >= 5 then
      var gap := 5 * Pow10(s - 5) * ((2 * ExactHundredths(n, d) + 1) * d - 20000 * n);
      2 * gap < d || (2 * gap == d && s > 5)
    else
      2 * (n * Pow10(s) % d) == d && n * Pow10(s) / d % 2 == 0
  }

  /** Rounding half-even reaches a boundary from below exactly when it is within half a unit, or half a
      unit away and even. */
  lemma ReachesBoundary(a: nat, d: nat, boundary: nat, gap: nat)
    requires d > 0 && gap > 0 && a + gap == boundary * d
    ensures HalfEven(a, d) == boundary <==> 2 * gap < d || (2 * gap == d && boundary % 2 == 0)
  {
    var q, r := a / d, a % d;
    assert a == q * d + r;
    assert boundary > 0;
    assert (boundary - 1) * d == boundary * d - d;
    if gap <= d {
      QuotientIs(a, d, boundary - 1);
    } else if q >= boundary - 1 {
      MulAtMost(d, boundary - 1, q);
      assert false;
    }
  }

  /** Between two boundaries the second rounding sees the exact hundredth unless the first one has
      reached the upper boundary. */
  lemma SecondRoundingMisses(n: nat, d: nat, g: nat, m: nat)
    requires d > 0 && g > 0
    requires -(d as int) <= 2 * (m * d) - 2 * (20000 * (n * g)) <= d
    ensures var K := ExactHundredths(n, d);
            (m + g) / (2 * g) == K <==> m != K * (2 * g) + g
  {
    hide ExactHundredths;
    var K := ExactHundredths(n, d);
    ExactBounds(n, d);
    Lower(n, d, g, m, K);
    AtMostBoundary(n, d, g, m, K);
    if m != K * (2 * g) + g {
      QuotientIs(m + g, 2 * g, K);
    } else {
      QuotientIs(m + g, 2 * g, K + 1);
    }
  }

  lemma ExactBounds(n: nat, d: nat)
    requires d > 0
    ensures var K := ExactHundredths(n, d); 2 * d * K <= 20000 * n + d < 2 * d * K + 2 * d
  {
    var K, r := ExactHundredths(n, d), (20000 * n + d) % (2 * d);
    assert 20000 * n + d == K * (2 * d) + r;
    assert K * (2 * d) == 2 * d * K;
  }

  lemma AtMostBoundary(n: nat, d: nat, g: nat, m: nat, K: nat)
    requires d > 0 && g > 0 && 20000 * n + d < 2 * d * K + 2 * d
    requires 2 * (m * d) - 2 * (20000 * (n * g)) <= d
    ensures m + g <= K * (2 * g) + 2 * g
  {
    var boundary := K * (2 * g) + 2 * g;
    MulAtMost(g, 20000 * n + d, 2 * d * K + 2 * d);
    ScaledSum(n, d, g);
    ScaledBoundary(d, g, K);
    ScaledDigits(d, g, m);
    assert d * (boundary + 1) == d * boundary + d;
    if m + g > boundary {
      MulAtMost(d, boundary + 1, m + g);
      assert false;
    }
  }

  lemma BoundaryGap(n: nat, d: nat, g: nat, K: nat)
    requires g > 0 && 20000 * n + d < 2 * d * K + 2 * d
    ensures var gap := g * ((2 * K + 1) * d - 20000 * n);
            gap > 0 && 20000 * (n * g) + gap == (K * (2 * g) + g) * d
  {
    var slack := (2 * K + 1) * d - 20000 * n;
    assert (2 * K + 1) * d == 2 * d * K + d;
    assert slack > 0;
    assert g * slack == g * ((2 * K + 1) * d) - g * (20000 * n);
    assert g * (20000 * n) == 20000 * (n * g);
    BoundaryProduct(d, g, K);
  }

  lemma BoundaryProduct(d: nat, g: nat, K: nat)
    ensures g * ((2 * K + 1) * d) == (K * (2 * g) + g) * d
  {
    assert K * (2 * g) + g == g * (2 * K + 1);
    assert g * ((2 * K + 1) * d) == (g * (2 * K + 1)) * d;
  }

  lemma BoundaryParity(g: nat, K: nat, k: nat)
    requires g == 5 * Pow10(k)
    ensures (K * (2 * g) + g) % 2 == 0 <==> k > 0
  {
    assert K * (2 * g) == 2 * (K * g);
    if k > 0 {
      assert g == 2 * (25 * Pow10(k - 1));
    }
  }

  lemma VisibleFine(n: nat, d: nat)
    requires n > 0 && d > 0 && Shift(n, d, Pow10(PRECISION - 1), 0) >= 5
    ensures Hundredths(n, d) == ExactHundredths(n, d) <==> !Visible(n, d)
  {
    hide Pow10, HalfEven, Shift, Drop, ExactHundredths;
    PowValues();
    var s, K := Shift(n, d, Pow10(PRECISION - 1), 0), ExactHundredths(n, d);
    PowSum(5, s - 5);
    var g := 5 * Pow10(s - 5);
    var a := n * Pow10(s);
    var m := HalfEven(a, d);
    assert Pow10(s) == 20000 * g && a == 20000 * (n * g);
    HalfEvenIsNear(a, d);
    ExactBounds(n, d);
    SecondRoundingMisses(n, d, g, m);
    HalfUpScales(m, g);
    BoundaryGap(n, d, g, K);
    ReachesBoundary(a, d, K * (2 * g) + g, g * ((2 * K + 1) * d - 20000 * n));
    BoundaryParity(g, K, s - 5);
  }

  lemma HalfUpSplits(a: nat, d: nat)
    requires d > 0
    ensures HalfUp(a, d) == if 2 * (a % d) < d then a / d else a / d + 1
  {
    var q, r := a / d, a % d;
    assert a == q * d + r;
    assert q * (2 * d) == 2 * (q * d) && (q + 1) * (2 * d) == 2 * (q * d) + 2 * d;
    if 2 * r < d {
      QuotientIs(2 * a + d, 2 * d, q);
    } else {
      QuotientIs(2 * a + d, 2 * d, q + 1);
    }
  }

  lemma CoarseHundredths(n: nat, d: nat)
    requires n > 0 && d > 0 && Shift(n, d, Pow10(PRECISION - 1), 0) == 4
    ensures Hundredths(n, d) == HalfEven(10000 * n, d) && ExactHundredths(n, d) == HalfUp(10000 * n, d)
  {
    hide Pow10, Shift, Drop, HalfEven;
    PowValues();
    var m := HalfEven(10000 * n, d);
    assert n * Pow10(4) == 10000 * n;
    QuotientIs(2 * (10000 * m) + 10000, 20000, m);
  }

  lemma VisibleCoarse(n: nat, d: nat)
    requires n > 0 && d > 0 && Shift(n, d, Pow10(PRECISION - 1), 0) == 4
    ensures Hundredths(n, d) == ExactHundredths(n, d) <==> !Visible(n, d)
  {
    hide Pow10, Shift, HalfUp, Hundredths, ExactHundredths;
    PowValues();
    CoarseHundredths(n, d);
    HalfUpSplits(10000 * n, d);
    assert n * Pow10(4) == 10000 * n;
  }

  /** The published value is one exact half-up rounding if and only if the first rounding is not
      visible, for every quotient the 28-digit context can show in hundredths. */
  lemma DoubleRoundingExactly(n: nat, d: nat)
    requires d > 0 && 0 < n < SHOWN * d
    ensures Hundredths(n, d) == ExactHundredths(n, d) <==> !Visible(n, d)
  {
    hide Pow10, Hundredths, ExactHundredths, Visible;
    PowValues();
    var s := Shift(n, d, Pow10(PRECISION - 1), 0);
    if s <= 3 {
      PowMonotone(s, 3);
      MulAtMost(n, Pow10(s), Pow10(3));
      assert false;
    } else if s == 4 {
      VisibleCoarse(n, d);
    } else {
      VisibleFine(n, d);
    }
  }

  /** Beyond that the result has more than 28 digits, which quantizing refuses. */
  lemma BeyondIsRefused(n: nat, d: nat)
    requires d > 0 && n >= SHOWN * d
    ensures Hundredths(n, d) >= Pow10(PRECISION)
  {
    hide Pow10, HalfEven, Shift, Drop;
    PowValues();
    var q := Divide(n, d);
    QuotientHasPrecision(n, d);
    BeyondShift(n, d);
    PowSum(1, 27);
    if q.up == 0 {
      assert Pow10(q.down) >= 1;
      MulAtMost(10000 * q.digits, 1, Pow10(q.down));
    } else {
      PowMonotone(q.up, 3);
    }
    HalfUpAtLeast(10000 * q.digits * Pow10(q.down), Pow10(q.up), Pow10(PRECISION));
  }

  lemma BeyondShift(n: nat, d: nat)
    requires d > 0 && n >= SHOWN * d
    ensures Shift(n, d, Pow10(PRECISION - 1), 0) <= 3
  {
    hide Pow10;
    PowValues();
    var s := Shift(n, d, Pow10(PRECISION - 1), 0);
    if s > 3 {
      PowMonotone(3, s - 1);
      MulAtMost(n, Pow10(3), Pow10(s - 1));
      assert false;
    }
  }

  lemma HalfUpAtLeast(a: nat, b: nat, c: nat)
    requires b > 0 && c * b <= a
    ensures HalfUp(a, b) >= c
  {
    var q, r := (2 * a + b) / (2 * b), (2 * a + b) % (2 * b);
    assert 2 * a + b == q * (2 * b) + r;
    if q < c {
      MulAtMost(2 * b, q + 1, c);
      assert false;
    }
  }
}
