/** The yaw test of the cluster builder: two objects face "the same way"
    when the difference of their world yaws, brought into one turn, is at
    most 45 degrees. Floating-point rounding is not modelled; the
    constants are the exact values of the source's double and float. */
module Yaw {

  /** Math.PI as a double. */
  const Pi: real := 3.141592653589793115997963468544185161590576171875
  /** (float)Math.PI / 4, the largest accepted yaw difference. */
  const MaxRot: real := 0.785398185253143310546875

  function Abs(x: real): (r: real)
    ensures r >= 0.0 && (r == x || r == -x)
  {
    if x < 0.0 then -x else x
  }

  /** Truncation toward zero. */
  function Trunc(x: real): (r: int)
    ensures Abs(x - r as real) < 1.0
    ensures x >= 0.0 ==> 0.0 <= r as real <= x < r as real + 1.0
    ensures x < 0.0 ==> r as real - 1.0 < x <= r as real <= 0.0
  {
    if x >= 0.0 then x.Floor else -((-x).Floor)
  }

  /** The `%` operator of C# on doubles: the remainder takes the sign of
      the dividend. */
  function FMod(a: real, b: real): (r: real)
    requires b > 0.0
    ensures a >= 0.0 ==> 0.0 <= r < b
    ensures a < 0.0 ==> -b < r <= 0.0
    ensures ((a - r) / b).Floor as real * b == a - r
  {
    TruncScaled(a, b);
    var q := Trunc(a / b);
    WholeMultiple(q, b);
    assert a - (a - q as real * b) == q as real * b;
    a - q as real * b
  }

  /** A whole multiple of `b` divided by `b` is that whole number. */
  lemma WholeMultiple(q: int, b: real)
    requires b > 0.0
    ensures (q as real * b / b).Floor as real * b == q as real * b
  {
    assert q as real * b / b == q as real;
  }

  /** `Trunc(a / b)` whole multiples of `b` lie on the same side of zero as
      `a`, less than one `b` away from it. */
  lemma TruncScaled(a: real, b: real)
    requires b > 0.0
    ensures var qr := Trunc(a / b) as real;
      (a >= 0.0 ==> qr * b <= a < (qr + 1.0) * b) &&
      (a < 0.0 ==> (qr - 1.0) * b < a <= qr * b)
  {
    var t := a / b;
    var qr := Trunc(t) as real;
    assert a == t * b;
    ScaleBounds(0.0, t, 0.0, b);
    ScaleBounds(qr, t, qr + 1.0, b);
    ScaleBounds(qr - 1.0, t, qr, b);
    if a >= 0.0 {
      assert t >= 0.0;
      assert qr <= t < qr + 1.0;
      assert qr * b <= t * b;
      calc {
        a;
      ==
        t * b;
      <
        (qr + 1.0) * b;
      }
    } else {
      assert t < 0.0;
      assert qr - 1.0 < t <= qr;
      calc {
        (qr - 1.0) * b;
      <
        t * b;
      ==
        a;
      }
      calc {
        a;
      ==
        t * b;
      <=
        qr * b;
      }
    }
  }

  /** Multiplying by a positive number keeps the order. */
  lemma ScaleBounds(lo: real, x: real, hi: real, b: real)
    requires b > 0.0
    ensures lo <= x ==> lo * b <= x * b
    ensures x < hi ==> x * b < hi * b
    ensures lo < x ==> lo * b < x * b
    ensures x <= hi ==> x * b <= hi * b
  {
  }

  /** The yaw test exactly as the source writes it for the outer object
      with yaw `ra` and the candidate with yaw `rb`. */
  predicate SourceYawOk(ra: real, rb: real) {
    Abs(FMod(rb - ra + Pi, 2.0 * Pi) - Pi) <= MaxRot
  }

  /** How far `d` is from `k` whole turns. */
  function OffTurns(d: real, k: int): real {
    Abs(d - k as real * 2.0 * Pi)
  }

  /** Distance from `d` to the nearest whole number of turns. */
  function TurnDistance(d: real): (r: real)
    ensures 0.0 <= r <= Pi
    ensures exists k: int :: OffTurns(d, k) == r
  {
    var e := Abs(d);
    var k := (e / (2.0 * Pi)).Floor;
    var m := e - k as real * 2.0 * Pi;
    assert 0.0 <= m < 2.0 * Pi;
    if m <= Pi then
      assert OffTurns(d, if d < 0.0 then -k else k) == m;
      m
    else
      assert OffTurns(d, if d < 0.0 then -(k + 1) else k + 1) == 2.0 * Pi - m;
      2.0 * Pi - m
  }

  /** The yaw test with the difference normalised into one turn. */
  predicate NormalizedYawOk(ra: real, rb: real) {
    TurnDistance(rb - ra) <= MaxRot
  }

  /** The normalised test does not depend on which object is the outer
      one. */
  lemma NormalizedYawSymmetric(ra: real, rb: real)
    ensures NormalizedYawOk(ra, rb) == NormalizedYawOk(rb, ra)
  {
    assert Abs(rb - ra) == Abs(ra - rb);
  }

  /** While the difference lies in [-pi, pi) both tests compare its
      absolute value with MaxRot, so they agree. */
  lemma SourceAgreesNearZero(ra: real, rb: real)
    requires -Pi <= rb - ra < Pi
    ensures SourceYawOk(ra, rb) == NormalizedYawOk(ra, rb)
    ensures SourceYawOk(ra, rb) == (Abs(rb - ra) <= MaxRot)
  {
    var a := rb - ra + Pi;
    assert 0.0 <= a / (2.0 * Pi) < 1.0;
    assert Trunc(a / (2.0 * Pi)) == 0;
    assert FMod(a, 2.0 * Pi) == a;
    var e := Abs(rb - ra);
    assert 0.0 <= e / (2.0 * Pi) < 1.0;
    assert (e / (2.0 * Pi)).Floor == 0;
  }

  /** The source's test is not symmetric: an object at yaw 3.0 rejects
      one at -3.0, while the one at -3.0 accepts the one at 3.0. The two
      yaws are about 16 degrees apart across the +-pi seam. */
  lemma SourceYawAsymmetric()
    ensures !SourceYawOk(3.0, -3.0)
    ensures SourceYawOk(-3.0, 3.0)
    ensures NormalizedYawOk(3.0, -3.0) && NormalizedYawOk(-3.0, 3.0)
  {
    var a1 := -6.0 + Pi;
    assert -1.0 < a1 / (2.0 * Pi) <= 0.0;
    assert Trunc(a1 / (2.0 * Pi)) == 0;
    assert FMod(a1, 2.0 * Pi) == a1;
    var a2 := 6.0 + Pi;
    assert 1.0 <= a2 / (2.0 * Pi) < 2.0;
    assert Trunc(a2 / (2.0 * Pi)) == 1;
    assert FMod(a2, 2.0 * Pi) == a2 - 2.0 * Pi;
    assert 0.0 <= 6.0 / (2.0 * Pi) < 1.0;
    assert (6.0 / (2.0 * Pi)).Floor == 0;
    assert Abs(-6.0) == 6.0;
    assert TurnDistance(-6.0) == 2.0 * Pi - 6.0;
    assert TurnDistance(6.0) == 2.0 * Pi - 6.0;
  }
}
