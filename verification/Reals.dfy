/** Real arithmetic shared by the models: the source's `f64` without rounding. */
module Reals {

  type Pos = x: real | 0.0 < x witness 1.0

  /** The gap between 1 and the next 64-bit float. */
  const EPSILON := 0.0000000000000002220446049250313

  function Clamp(x: real, lo: real, hi: real): real {
    if x < lo then lo else if hi < x then hi else x
  }

  function Min(x: real, y: real): real { if x <= y then x else y }

  function Max(x: real, y: real): real { if x <= y then y else x }

  function Abs(x: real): real { if x < 0.0 then -x else x }

  /** `x` lies on the way from 0 to `target`. */
  predicate Toward(x: real, target: real) {
    (0.0 <= target ==> 0.0 <= x <= target) && (target <= 0.0 ==> target <= x <= 0.0)
  }

  /** What the models assume of the square root they are handed. */
  ghost predicate IsSqrt(sqrt: real -> real) {
    forall x :: 0.0 <= x ==> 0.0 <= sqrt(x) && sqrt(x) * sqrt(x) == x
  }

  lemma MulMono(k: real, x: real, y: real)
    requires 0.0 <= k && x <= y
    ensures k * x <= k * y
  {}

  lemma MulStrict(k: real, x: real, y: real)
    requires 0.0 < k && x < y
    ensures k * x < k * y
  {}

  lemma MulNonNeg(x: real, y: real)
    requires 0.0 <= x && 0.0 <= y
    ensures 0.0 <= x * y
  {}

  lemma MulPos(x: real, y: real)
    requires 0.0 < x && 0.0 < y
    ensures 0.0 < x * y
  {}

  lemma DivMono(x: real, y: real, d: real)
    requires 0.0 < d && x <= y
    ensures x / d <= y / d
  {}

  lemma SquareStrict(x: real, y: real, xx: real, yy: real)
    requires 0.0 <= x < y && xx == x * x && yy == y * y
    ensures xx < yy
  {
    assert xx <= x * y;
    assert x * y < yy;
  }

  /** Squares order like their non-negative roots. */
  lemma SquareOrder(x: real, y: real, xx: real, yy: real)
    requires 0.0 <= x && 0.0 <= y && xx == x * x && yy == y * y && xx <= yy
    ensures x <= y
  {
    if y < x {
      SquareStrict(y, x, yy, xx);
    }
  }

  // ----- Whole ticks ------------------------------------------------------------------

  /** The time n whole ticks take. */
  function Elapsed(n: int, dt: real): real {
    n as real * dt
  }

  /** The least number of whole ticks that cover an interval. */
  function TicksIn(s: real, dt: Pos): (n: nat)
    ensures s <= Elapsed(n, dt) && (n > 0 ==> Elapsed(n - 1, dt) < s)
  {
    if s <= 0.0 then 0 else
      var f := (s / dt).Floor;
      FloorScales(s, dt);
      if Elapsed(f, dt) == s then f else f + 1
  }

  lemma FloorScales(s: real, dt: Pos)
    requires 0.0 < s
    ensures var f := (s / dt).Floor;
      0 <= f && Elapsed(f, dt) <= s <= Elapsed(f + 1, dt) && Elapsed(f - 1, dt) < s
  {
    var x, f := s / dt, (s / dt).Floor;
    hide Elapsed;
    WholeTicks(f, dt);
    Multiples(f as real, x, s, dt, Elapsed(f, dt));
  }

  lemma WholeTicks(f: int, dt: real)
    ensures Elapsed(f, dt) == (f as real) * dt
    ensures Elapsed(f + 1, dt) == Elapsed(f, dt) + dt && Elapsed(f - 1, dt) == Elapsed(f, dt) - dt
  {}

  lemma Multiples(f: real, x: real, s: real, dt: Pos, a: real)
    requires f <= x < f + 1.0 && x == s / dt && a == f * dt
    ensures a <= s < a + dt
  {
    var d := x - f;
    assert s == x * dt;
    assert s - a == d * dt;
    PartOf(d, dt, d * dt);
  }

  lemma PartOf(d: real, dt: Pos, e: real)
    requires 0.0 <= d < 1.0 && e == d * dt
    ensures 0.0 <= e < dt
  {
    LessThanWhole(d, dt);
    MulNonNeg(d, dt);
  }

  lemma LessThanWhole(d: real, dt: Pos)
    requires d < 1.0
    ensures d * dt < dt
  {}

  lemma Covers(s: real, dt: Pos, n: int)
    requires 0 <= n && s <= Elapsed(n, dt)
    ensures TicksIn(s, dt) <= n
  {
    hide Elapsed;
    if n < TicksIn(s, dt) {
      ElapsedMono(n, TicksIn(s, dt) - 1, dt);
    }
  }

  lemma ElapsedMono(a: int, b: int, dt: Pos)
    requires a <= b
    ensures Elapsed(a, dt) <= Elapsed(b, dt)
  {
    var x, y := a as real, b as real;
    MulMono(dt, x, y);
    assert Elapsed(a, dt) == dt * x && Elapsed(b, dt) == dt * y;
  }
}
