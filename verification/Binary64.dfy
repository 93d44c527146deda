/**
 * Rounding in binary64, as far as subtracting 1e-9 from an integer needs it: a float is an integer of
 * at most 53 bits scaled by a power of two, and a result is rounded to a nearest float. The exponent
 * range is left open; nothing here comes near its ends.
 */
module Binary64 {

  /** One more than the largest 53-bit integer; integers up to here are floats. */
  const LAST_INTEGER := 0x20_0000_0000_0000

  /** From here on down, subtracting 1e-9 from an integer leads below it. */
  const LAST_EXACT := 0x100_0000

  function Pow2(k: int): (r: real)
    ensures r > 0.0
    decreases if k < 0 then -k else k
  {
    if k == 0 then 1.0 else if k > 0 then 2.0 * Pow2(k - 1) else Pow2(k + 1) / 2.0
  }

  function Multiple(m: int, k: int): real {
    m as real * Pow2(k)
  }

  predicate IsScaled(y: real, m: int, k: int) {
    -LAST_INTEGER < m < LAST_INTEGER && y == Multiple(m, k)
  }

  ghost predicate IsFloat(y: real) {
    exists m, k :: IsScaled(y, m, k)
  }

  function Distance(x: real, y: real): real {
    if x < y then y - x else x - y
  }

  /** A nearest float; which one of two equally near ones plays no role here. */
  ghost predicate IsRounded(x: real, y: real) {
    IsFloat(y) && forall z :: IsFloat(z) ==> Distance(x, y) <= Distance(x, z)
  }

  // ---- powers of two

  lemma Doubles(k: int)
    ensures Pow2(k) == 2.0 * Pow2(k - 1)
  {
  }

  lemma PowZero()
    ensures Pow2(0) == 1.0
  {
  }

  lemma DoubledProduct(a: real, b: real)
    ensures (2.0 * a) * b == 2.0 * (a * b)
  {
  }

  lemma {:induction false} Shifts(k: int, n: nat)
    ensures Pow2(k + n) == Pow2(n) * Pow2(k)
  {
    hide Pow2;
    if n == 0 {
      PowZero();
    } else {
      Shifts(k, n - 1);
      Doubles(k + n);
      Doubles(n);
      DoubledProduct(Pow2(n - 1), Pow2(k));
    }
  }

  lemma {:induction false} Grows(k: int, j: int)
    requires k <= j
    ensures Pow2(k) <= Pow2(j)
    decreases j - k
  {
    if k < j {
      Grows(k, j - 1);
      Doubles(j);
    }
  }

  lemma Mantissa()
    ensures Pow2(53) == LAST_INTEGER as real && Pow2(52) == (LAST_INTEGER / 2) as real
  {
    assert Pow2(13) == 8192.0 by {
      assert Pow2(4) == 16.0;
      Shifts(4, 4);
      assert Pow2(8) == 256.0;
      Shifts(8, 4);
      assert Pow2(12) == 4096.0;
    }
    Shifts(13, 13);
    assert Pow2(26) == 67108864.0;
    Shifts(26, 26);
    assert Pow2(52) == 4503599627370496.0;
    Doubles(53);
  }

  lemma SmallPowers()
    ensures Pow2(24) == LAST_EXACT as real && Pow2(-1) == 0.5
    ensures Pow2(-28) == 1.0 / 268435456.0 && Pow2(-29) == 1.0 / 536870912.0 && Pow2(-30) == 1.0 / 1073741824.0
  {
    assert Pow2(12) == 4096.0 by {
      assert Pow2(4) == 16.0;
      Shifts(4, 4);
      assert Pow2(8) == 256.0;
      Shifts(8, 4);
    }
    Shifts(12, 12);
    assert Pow2(24) == 16777216.0;
    Shifts(24, 4);
    assert Pow2(28) == 268435456.0;
    Shifts(-28, 28);
    Doubles(-28);
    Doubles(-29);
  }

  // ---- floats

  lemma PositiveProduct(a: real, s: real)
    requires a >= 0.0 && s > 0.0
    ensures a * s >= 0.0 && (a > 0.0 ==> a * s > 0.0)
  {
  }

  /** Multiples of one power are ordered as their factors, one power apart. */
  lemma Ordered(a: int, b: int, k: int)
    ensures a < b <==> Multiple(a, k) < Multiple(b, k)
    ensures Multiple(a + 1, k) == Multiple(a, k) + Pow2(k)
  {
    if a < b {
      PositiveProduct(b as real - a as real, Pow2(k));
    } else {
      PositiveProduct(a as real - b as real, Pow2(k));
    }
  }

  lemma Halved(m: int, k: int)
    ensures Multiple(m, k) == Multiple(2 * m, k - 1)
  {
    Doubles(k);
    var s := Pow2(k - 1);
    assert m as real * (2.0 * s) == (2.0 * m as real) * s;
    assert (2 * m) as real == 2.0 * m as real;
  }

  /** The factors of 53 and 52 bits end at the next powers. */
  lemma EndsOfBinade(k: int)
    ensures Multiple(LAST_INTEGER, k) == Pow2(k + 53) && Multiple(LAST_INTEGER / 2, k) == Pow2(k + 52)
  {
    Mantissa();
    Shifts(k, 53);
    Shifts(k, 52);
  }

  /** A multiple of a large power is a multiple of every smaller one. */
  lemma {:induction false} Refines(m: int, k: int, base: int) returns (n: int)
    requires base <= k
    ensures Multiple(m, k) == Multiple(n, base)
    decreases k - base
  {
    hide Pow2, Multiple;
    if k == base {
      n := m;
    } else {
      Halved(m, k);
      n := Refines(2 * m, k - 1, base);
    }
  }

  /** A float of at least 2^j has no digits below 2^(j-52). */
  lemma ScaleOf(z: real, m: int, k: int, j: int)
    requires IsScaled(z, m, k) && z >= Pow2(j)
    ensures j - 52 <= k
  {
    hide Pow2, Multiple;
    EndsOfBinade(k);
    Ordered(m, LAST_INTEGER, k);
    if k + 53 <= j {
      Grows(k + 53, j);
    }
  }

  /** Floats from 2^j on are multiples of 2^(j-52). */
  lemma IsMultiple(z: real, j: int) returns (q: int)
    requires IsFloat(z) && z >= Pow2(j)
    ensures z == Multiple(q, j - 52)
  {
    hide Pow2, Multiple;
    var m, k :| IsScaled(z, m, k);
    ScaleOf(z, m, k, j);
    q := Refines(m, k, j - 52);
  }

  lemma IntegerIsFloat(n: int)
    requires -LAST_INTEGER <= n <= LAST_INTEGER
    ensures IsFloat(n as real)
  {
    if -LAST_INTEGER < n < LAST_INTEGER {
      assert Pow2(0) == 1.0;
      assert IsScaled(n as real, n, 0);
    } else {
      assert Pow2(1) == 2.0;
      assert IsScaled(n as real, n / 2, 1);
    }
  }

  lemma NegatedIsFloat(y: real)
    requires IsFloat(y)
    ensures IsFloat(-y)
  {
    hide Pow2;
    var m, k :| IsScaled(y, m, k);
    assert IsScaled(-y, -m, k);
  }

  lemma NegatedIsRounded(x: real, y: real)
    requires IsRounded(x, y)
    ensures IsRounded(-x, -y)
  {
    NegatedIsFloat(y);
    forall z | IsFloat(z)
      ensures Distance(-x, -y) <= Distance(-x, z)
    {
      NegatedIsFloat(z);
      assert Distance(x, y) <= Distance(x, -z);
    }
  }

  /** Between two neighbouring multiples of the spacing there is no float. */
  lemma NoFloatBetween(z: real, j: int, q: int)
    requires IsFloat(z) && Pow2(j) <= Multiple(q, j - 52)
    ensures z <= Multiple(q, j - 52) || z >= Multiple(q + 1, j - 52)
  {
    hide Pow2, Multiple, IsFloat;
    if z > Multiple(q, j - 52) {
      var p := IsMultiple(z, j);
      Ordered(q, p, j - 52);
      Ordered(p, q + 1, j - 52);
    }
  }

  lemma ProductOrder(a: real, b: real, s: real)
    requires a <= b && s > 0.0
    ensures a * s <= b * s && (a < b ==> a * s < b * s)
  {
    PositiveProduct(b - a, s);
    assert (b - a) * s == b * s - a * s;
  }

  lemma Between(x: real, r: real, q: int, s: real)
    requires q as real <= r < (q + 1) as real && s > 0.0 && r * s == x
    ensures q as real * s <= x < (q + 1) as real * s
  {
    ProductOrder(q as real, r, s);
    ProductOrder(r, (q + 1) as real, s);
  }

  lemma Divided(x: real, s: real) returns (r: real)
    requires s > 0.0
    ensures r * s == x
  {
    r := x / s;
  }

  lemma Quotient(x: real, k: int) returns (q: int)
    ensures Multiple(q, k) <= x < Multiple(q + 1, k)
  {
    var r := Divided(x, Pow2(k));
    q := r.Floor;
    Between(x, r, q, Pow2(k));
  }

  /** A number of the binade lies between two neighbouring floats. */
  lemma Neighbours(x: real, j: int) returns (q: int)
    requires Pow2(j) <= x < Pow2(j + 1)
    ensures Pow2(j) <= Multiple(q, j - 52) <= x <= Multiple(q + 1, j - 52)
    ensures IsFloat(Multiple(q, j - 52)) && IsFloat(Multiple(q + 1, j - 52))
  {
    hide Pow2, Multiple;
    var k := j - 52;
    EndsOfBinade(k);
    q := Quotient(x, k);
    Ordered(LAST_INTEGER / 2, q + 1, k);
    Ordered(q, LAST_INTEGER, k);
    Ordered(q, LAST_INTEGER / 2, k);
    assert IsScaled(Multiple(q, k), q, k);
    if q + 1 < LAST_INTEGER {
      assert IsScaled(Multiple(q + 1, k), q + 1, k);
    } else {
      Halved(LAST_INTEGER / 2, k + 1);
      assert IsScaled(Multiple(q + 1, k), LAST_INTEGER / 2, k + 1);
    }
  }

  lemma NearestOf(x: real, lo: real, hi: real) returns (y: real)
    requires lo <= x <= hi
    ensures y == lo || y == hi
    ensures forall z :: z <= lo || z >= hi ==> Distance(x, y) <= Distance(x, z)
  {
    y := if Distance(x, lo) <= Distance(x, hi) then lo else hi;
  }

  /** Every positive number has a nearest float. */
  lemma RoundingExists(x: real, j: int) returns (y: real)
    requires Pow2(j) <= x < Pow2(j + 1)
    ensures IsRounded(x, y)
  {
    hide Pow2, Multiple, IsFloat;
    var q := Neighbours(x, j);
    y := NearestOf(x, Multiple(q, j - 52), Multiple(q + 1, j - 52));
    forall z | IsFloat(z)
      ensures Distance(x, y) <= Distance(x, z)
    {
      NoFloatBetween(z, j, q);
    }
  }

  /** The power of two at or below a number. */
  lemma Binade(x: real) returns (j: int)
    requires 0.5 <= x <= LAST_INTEGER as real
    ensures Pow2(j) <= x < Pow2(j + 1)
  {
    SmallPowers();
    Mantissa();
    Doubles(54);
    j := -1;
    while Pow2(j + 1) <= x
      invariant j <= 53 && Pow2(j) <= x
      decreases 53 - j
    {
      if j + 1 > 53 {
        Grows(54, j + 1);
      }
      j := j + 1;
    }
  }

  // ---- an integer less 1e-9

  /** The 53 digits of 1e-9 in binary64, whose last one stands for 2^-82. */
  const EPSILON_DIGITS := 0x11_2E0B_E826_D695

  const EPSILON := Multiple(EPSILON_DIGITS, -82)

  lemma EpsilonIsSmall()
    ensures Pow2(-30) < EPSILON < Pow2(-29)
  {
    EndsOfBinade(-82);
    Ordered(LAST_INTEGER / 2, EPSILON_DIGITS, -82);
    Ordered(EPSILON_DIGITS, LAST_INTEGER, -82);
  }

  lemma SixthPower()
    ensures Pow2(6) == 64.0
  {
    assert Pow2(3) == 8.0;
    Shifts(3, 3);
  }

  lemma Spacing() returns (s: real)
    ensures s == Pow2(-82) == 1.0 / 4835703278458516698824704.0
  {
    hide Pow2;
    s := Pow2(-82);
    Mantissa();
    SmallPowers();
    PowZero();
    Shifts(52, 24);
    Shifts(76, 6);
    assert Pow2(6) == 64.0 by { SixthPower(); }
    assert Pow2(76) == 75557863725914323419136.0;
    assert Pow2(82) == 4835703278458516698824704.0;
    Shifts(-82, 82);
    assert 4835703278458516698824704.0 * s == 1.0;
  }

  /** It is the float nearest to one over a billion. */
  lemma EpsilonIsNearest()
    ensures IsRounded(0.000000001, EPSILON)
  {
    var s := Spacing();
    var lo, hi := Multiple(EPSILON_DIGITS - 1, -82), EPSILON;
    Ordered(EPSILON_DIGITS - 1, EPSILON_DIGITS, -82);
    Ordered(LAST_INTEGER / 2, EPSILON_DIGITS - 1, -82);
    EndsOfBinade(-82);
    assert lo <= 0.000000001 <= hi && hi - 0.000000001 <= 0.000000001 - lo;
    hide Pow2, Multiple;
    assert IsScaled(EPSILON, EPSILON_DIGITS, -82);
    forall z | IsFloat(z)
      ensures Distance(0.000000001, EPSILON) <= Distance(0.000000001, z)
    {
      NoFloatBetween(z, -30, EPSILON_DIGITS - 1);
    }
  }

  /** The result of subtracting 1e-9 from an integer; the integer itself is a float. */
  ghost predicate IsEnd(n: int, y: real) {
    IsRounded(n as real - EPSILON, y)
  }

  /** Above 2^24 the floats below an integer keep more than twice 1e-9 away from it. */
  lemma GapBelow(z: real, n: int)
    requires IsFloat(z) && z < n as real && LAST_EXACT < n
    ensures z <= n as real - Pow2(-28)
  {
    SmallPowers();
    if z >= Pow2(24) {
      var q := IsMultiple(z, 24);
      var p := Refines(n, 0, -28);
      Ordered(q, p, -28);
      Ordered(p, q + 1, -28);
    }
  }

  /** So there the subtraction changes nothing. */
  lemma LostAbove(n: int, y: real)
    requires LAST_EXACT < n <= LAST_INTEGER
    ensures IsEnd(n, y) <==> y == n as real
  {
    SmallPowers();
    EpsilonIsSmall();
    IntegerIsFloat(n);
    var x := n as real - EPSILON;
    forall z | IsFloat(z) && z != n as real
      ensures Distance(x, z) > Distance(x, n as real)
    {
      if z < n as real {
        GapBelow(z, n);
      }
    }
  }

  /** Up to 2^24 a float lies within reach below the integer, so the result is below it. */
  lemma KeptBelow(n: int, y: real)
    requires 0 <= n <= LAST_EXACT && IsEnd(n, y)
    ensures n as real - 1.0 <= y < n as real
  {
    SmallPowers();
    EpsilonIsSmall();
    var x := n as real - EPSILON;
    var v := if n == 0 then -Pow2(-30) else n as real - Pow2(-29);
    assert IsFloat(v) by {
      if n == 0 {
        assert IsScaled(v, -1, -30);
      } else {
        assert IsScaled(v, n * 536870912 - 1, -29);
      }
    }
    assert Distance(x, y) <= Distance(x, v);
  }

  /** The subtraction has a result for every integer of the range. */
  lemma EndExists(n: int) returns (y: real)
    requires 0 <= n <= LAST_INTEGER
    ensures IsEnd(n, y)
  {
    SmallPowers();
    EpsilonIsSmall();
    if n == 0 {
      Doubles(-29);
      var e := RoundingExists(EPSILON, -30);
      y := -e;
      NegatedIsRounded(EPSILON, e);
    } else {
      var j := Binade(n as real - EPSILON);
      y := RoundingExists(n as real - EPSILON, j);
    }
  }

  /** The end of a window that reaches up to n, once 1e-9 is taken off. */
  ghost function RoundedEnd(n: int): (y: real)
    requires 0 <= n <= LAST_INTEGER
    ensures IsEnd(n, y)
  {
    assert exists y :: IsEnd(n, y) by {
      var y := EndExists(n);
    }
    var y :| IsEnd(n, y);
    y
  }

  /** The last integer at or below that end. */
  function LastCounted(n: int): int {
    if n > LAST_EXACT then n else n - 1
  }

  /** Above 2^24 the end still covers the integer n; up to 2^24 it covers those below n and not n. */
  lemma EndIsLastCounted(n: int, t: int)
    requires 0 <= n <= LAST_INTEGER
    ensures t as real <= RoundedEnd(n) <==> t <= LastCounted(n)
  {
    if n > LAST_EXACT {
      LostAbove(n, RoundedEnd(n));
    } else {
      KeptBelow(n, RoundedEnd(n));
    }
  }
}
