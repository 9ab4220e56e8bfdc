/**
 * Integer and real helpers of the C++ port's `Mth` utility class.
 * Floating-point values are modelled as reals; the C++ conversion
 * `static_cast<int>` truncates toward zero, and integer `/` on the
 * non-negative operands used here agrees with Dafny's.
 */
module Mth {

  /** `static_cast<int>(v)`: truncation toward zero. */
  function Trunc(v: real): (r: int)
    ensures v >= 0.0 ==> r as real <= v < r as real + 1.0
    ensures v < 0.0 ==> r as real - 1.0 < v <= r as real
  {
    if v >= 0.0 then v.Floor else -((-v).Floor)
  }

  /** C's truncating integer division, for any non-zero divisor. */
  function CDiv(a: int, b: int): (q: int)
    requires b != 0
    ensures a >= 0 && b > 0 ==> q == a / b
  {
    if (a >= 0) == (b > 0) then
      (if a >= 0 then a else -a) / (if b > 0 then b else -b)
    else
      -((if a >= 0 then a else -a) / (if b > 0 then b else -b))
  }

  /** `Mth::floor(double)`: truncate, then step down when truncation went up. */
  function Floor(v: real): (r: int)
    ensures r as real <= v < r as real + 1.0
    ensures r == v.Floor
  {
    var i := Trunc(v);
    if v < i as real then i - 1 else i
  }

  /** `Mth::ceil(double)`: truncate, then step up when truncation went down. */
  function Ceil(v: real): (r: int)
    ensures r as real - 1.0 < v <= r as real
  {
    var i := Trunc(v);
    if v > i as real then i + 1 else i
  }

  /** Floor and ceiling agree exactly on whole numbers and differ by one elsewhere. */
  lemma FloorCeil(v: real)
    ensures Ceil(v) == Floor(v) <==> v == Floor(v) as real
    ensures v != Floor(v) as real ==> Ceil(v) == Floor(v) + 1
  {
  }

  /** `Mth::intFloorDiv`: rounds the quotient toward negative infinity
      (for a positive divisor), by shifting a negative dividend. */
  function IntFloorDiv(a: int, b: int): (q: int)
    requires b != 0
  {
    if a < 0 then -CDiv(-a - 1, b) - 1 else CDiv(a, b)
  }

  /** For a positive divisor, `intFloorDiv` is the mathematical floor of a / b,
      which is Dafny's (Euclidean) division. */
  lemma IntFloorDivIsFloor(a: int, b: int)
    requires b > 0
    ensures IntFloorDiv(a, b) == a / b
    ensures IntFloorDiv(a, b) * b <= a < (IntFloorDiv(a, b) + 1) * b
  {
    if a < 0 {
      var q, r := (-a - 1) / b, (-a - 1) % b;
      assert -a - 1 == q * b + r && 0 <= r < b;
      assert a == (-q - 1) * b + (b - r - 1);
      assert 0 <= b - r - 1 < b;
      DivUnique(a, b, -q - 1, b - r - 1);
    }
  }

  /** Quotient and remainder are determined by a = q * b + r, 0 <= r < b. */
  lemma DivUnique(a: int, b: int, q: int, r: int)
    requires b > 0 && 0 <= r < b && a == q * b + r
    ensures a / b == q && a % b == r
  {
    var q', r' := a / b, a % b;
    assert a == q' * b + r';
    if q' < q {
      MulAtLeast(q - q', b);
    } else if q' > q {
      MulAtLeast(q' - q, b);
    }
  }

  lemma MulAtLeast(k: int, b: int)
    requires k >= 1 && b > 0
    ensures k * b >= b
  {
    assert k * b == (k - 1) * b + b;
  }

  /** `std::clamp` on ints; the standard demands min <= max. */
  function ClampInt(value: int, min: int, max: int): (r: int)
    requires min <= max
    ensures min <= r <= max
    ensures min <= value <= max ==> r == value
    ensures value < min ==> r == min
    ensures value > max ==> r == max
  {
    if value < min then min else if max < value then max else value
  }

  /** `std::clamp` on floats. */
  function ClampReal(value: real, min: real, max: real): (r: real)
    requires min <= max
    ensures min <= r <= max
    ensures min <= value <= max ==> r == value
  {
    if value < min then min else if max < value then max else value
  }

  /** `Mth::lerp(a, b, t)`: the point at fraction t from a to b. */
  function Lerp(a: real, b: real, t: real): (r: real)
    ensures t == 0.0 ==> r == a
    ensures t == 1.0 ==> r == b
    ensures a <= b && 0.0 <= t <= 1.0 ==> a <= r <= b
  {
    var r := a + t * (b - a);
    if a <= b && 0.0 <= t <= 1.0 then
      LerpBetween(a, b, t, r);
      r
    else
      r
  }

  lemma LerpBetween(a: real, b: real, t: real, r: real)
    requires a <= b && 0.0 <= t <= 1.0 && r == a + t * (b - a)
    ensures a <= r <= b
  {
    var d := b - a;
    MulNonneg(t, d);
    MulNonneg(1.0 - t, d);
    assert (1.0 - t) * d == d - t * d;
  }

  /** C's `fmod(x, y)`: the remainder of truncating division, with the sign of x. */
  function FMod(x: real, y: real): (r: real)
    requires y > 0.0
    ensures x >= 0.0 ==> 0.0 <= r < y
    ensures x < 0.0 ==> -y < r <= 0.0
  {
    FModBounds(x, y);
    x - Trunc(x / y) as real * y
  }

  lemma FModBounds(x: real, y: real)
    requires y > 0.0
    ensures x >= 0.0 ==> 0.0 <= x - Trunc(x / y) as real * y < y
    ensures x < 0.0 ==> -y < x - Trunc(x / y) as real * y <= 0.0
  {
    var q := x / y;
    var k := Trunc(q) as real;
    Remainder(x, y, q, k);
    if x >= 0.0 {
      assert k <= q < k + 1.0;
      PositiveFraction(x - k * y, q - k, y);
    } else {
      assert k - 1.0 < q <= k;
      NegatedFraction(x - k * y, k - q, y);
    }
  }

  lemma Remainder(x: real, y: real, q: real, k: real)
    requires y > 0.0 && q == x / y
    ensures x - k * y == (q - k) * y
    ensures x >= 0.0 <==> q >= 0.0
  {
    assert x == q * y;
    if q < 0.0 { MulPos(-q, y); }
    if q >= 0.0 { MulNonneg(q, y); }
  }

  lemma PositiveFraction(r: real, f: real, y: real)
    requires 0.0 <= f < 1.0 && y > 0.0 && r == f * y
    ensures 0.0 <= r < y
  {
    ScaledFraction(f, y);
  }

  lemma NegatedFraction(r: real, g: real, y: real)
    requires 0.0 <= g < 1.0 && y > 0.0 && r == -g * y
    ensures -y < r <= 0.0
  {
    ScaledFraction(g, y);
  }

  /** A fraction of a positive length is shorter than the length. */
  lemma ScaledFraction(f: real, y: real)
    requires 0.0 <= f < 1.0 && y > 0.0
    ensures 0.0 <= f * y < y
  {
    MulPos(1.0 - f, y);
    MulNonneg(f, y);
  }

  lemma MulPos(a: real, b: real)
    requires a > 0.0 && b > 0.0
    ensures a * b > 0.0
  {
  }

  lemma MulNonneg(a: real, b: real)
    requires a >= 0.0 && b >= 0.0
    ensures a * b >= 0.0
  {
  }

  /** `Mth::wrapDegrees`: an angle in [-180, 180) equal to the input modulo 360. */
  function WrapDegrees(degrees: real): (r: real)
    ensures -180.0 <= r < 180.0
    ensures ((degrees - r) / 360.0).Floor as real == (degrees - r) / 360.0
  {
    var d := FMod(degrees, 360.0);
    var d' := if d >= 180.0 then d - 360.0 else d;
    var r := if d' < -180.0 then d' + 360.0 else d';
    var k := Trunc(degrees / 360.0) + (if d >= 180.0 then 1 else 0) - (if d' < -180.0 then 1 else 0);
    WholeTurns(degrees - r, k);
    r
  }

  /** A difference of k whole turns is a whole multiple of 360 degrees. */
  lemma WholeTurns(diff: real, k: int)
    requires diff == 360.0 * k as real
    ensures (diff / 360.0).Floor as real == diff / 360.0
  {
    assert diff / 360.0 == k as real;
  }

  /** `Mth::degreesDifference(a, b)`: the wrapped turn from a to b. */
  function DegreesDifference(a: real, b: real): (r: real)
    ensures -180.0 <= r < 180.0
    ensures a + r == b || ((b - a - r) / 360.0).Floor as real == (b - a - r) / 360.0
  {
    WrapDegrees(b - a)
  }

  /** An angle already in [-180, 180) is left alone. */
  lemma WrapDegreesIdentity(degrees: real)
    requires -180.0 <= degrees < 180.0
    ensures WrapDegrees(degrees) == degrees
  {
    var d := FMod(degrees, 360.0);
    assert Trunc(degrees / 360.0) == 0;
  }
}
