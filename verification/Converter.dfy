/** The partial-load power conversion model: one quadratic loss curve, solved on
    its discharge and its charge branch. */
module Converter {
  import opened Reals
  import opened State

  /** Coefficients per unit of the AC rating, and the square root the model computes with. */
  datatype CurvePcs = CurvePcs(
    ratedW: Pos, k0: real, k1: real, k2: Pos, standbyThresholdW: real, sqrt: real -> real)

  /** One-way conversion loss at an AC-side magnitude. */
  function LossW(m: CurvePcs, acAbs: real): real {
    var p := acAbs / m.ratedW;
    (m.k0 + m.k1 * p + m.k2 * p * p) * m.ratedW
  }

  function Discriminant(a: real, b: real, c: real): real {
    Max(b * b - 4.0 * a * c, 0.0)
  }

  /** The upper root of a x^2 + b x + c. */
  function UpperRoot(sqrt: real -> real, a: Pos, b: real, c: real): real {
    (-b + sqrt(Discriminant(a, b, c))) / (2.0 * a)
  }

  /** The lower root of a x^2 - b x + c. */
  function LowerRoot(sqrt: real -> real, a: Pos, b: real, c: real): real {
    (b - sqrt(Discriminant(a, b, c))) / (2.0 * a)
  }

  function DischargeAcW(m: CurvePcs, dc: real): real {
    Max(UpperRoot(m.sqrt, m.k2 / m.ratedW, 1.0 + m.k1, m.k0 * m.ratedW - dc), 0.0)
  }

  function ChargeAcAbsW(m: CurvePcs, dcAbs: real): real {
    LowerRoot(m.sqrt, m.k2 / m.ratedW, 1.0 - m.k1, m.k0 * m.ratedW + dcAbs)
  }

  function AcCapability(m: CurvePcs, dc: Limits): Limits {
    Limits(Min(ChargeAcAbsW(m, dc.chargeW), m.ratedW), Min(DischargeAcW(m, dc.dischargeW), m.ratedW))
  }

  /** The target inside the AC rating. */
  function AtRatingW(m: CurvePcs, acTarget: real): real {
    var r: real := m.ratedW;
    Clamp(acTarget, -r, r)
  }

  function DcRequestW(m: CurvePcs, acTarget: real, limits: Limits): real {
    var ac := AtRatingW(m, acTarget);
    if Abs(ac) < m.standbyThresholdW then 0.0 else
      var dc := ac + LossW(m, Abs(ac));
      if 0.0 < ac then Min(dc, limits.dischargeW)
      else Max(Min(dc, 0.0), -limits.chargeW)
  }

  /** The AC power the converter makes of the DC power the racks delivered. */
  function AcOf(m: CurvePcs, dc: real): real {
    if 0.0 < dc then DischargeAcW(m, dc)
    else if dc < 0.0 then -ChargeAcAbsW(m, -dc)
    else 0.0
  }

  function Finalize(m: CurvePcs, pcs: Pcs, dc: real): Pcs {
    var ac := AcOf(m, dc);
    pcs.(dcW := dc, acW := ac, lossW := dc - ac,
         opState := if pcs.opState == Fault then Fault else if Abs(dc) < EPSILON then Standby else Run)
  }

  /** The conversion as it runs, writing the converter's fields. */
  method FinalizeInPlace(m: CurvePcs, pcs: Pcs, dc: real) returns (next: Pcs, ac: real)
    ensures next == Finalize(m, pcs, dc) && ac == next.acW
  {
    hide DischargeAcW, ChargeAcAbsW;
    next, ac := pcs, 0.0;
    if 0.0 < dc {
      ac := DischargeAcW(m, dc);
    } else if dc < 0.0 {
      ac := -ChargeAcAbsW(m, -dc);
    }
    next := next.(dcW := dc);
    next := next.(acW := ac);
    next := next.(lossW := dc - ac);
    if next.opState != Fault {
      next := next.(opState := if Abs(dc) < EPSILON then Standby else Run);
    }
  }

  // ----- The two quadratics ------------------------------------------------------------

  /** The converter is sized so that the loss curve stays on its rising branch up to
      the rating: the reference coefficients satisfy it with room to spare. */
  ghost predicate PcsSound(m: CurvePcs) {
    && IsSqrt(m.sqrt)
    && 0.0 <= m.k0 && 0.0 < 1.0 + m.k1 && 2.0 * m.k2 <= 1.0 - m.k1 && m.k1 * m.k1 <= 4.0 * m.k0 * m.k2
    && 0.0 < m.standbyThresholdW
  }

  lemma ReferencePcsIsSound(rated: Pos, sqrt: real -> real)
    requires IsSqrt(sqrt)
    ensures PcsSound(CurvePcs(rated, 0.002464096, -0.001402627, 0.02144562, 1000.0, sqrt))
  {}

  /** The loss curve as the quadratic the solvers work with. */
  function Quadratic(a: real, b: real, c: real, x: real): real {
    a * x * x + b * x + c
  }

  lemma LossIsQuadratic(m: CurvePcs, x: real)
    ensures x + LossW(m, x) == Quadratic(m.k2 / m.ratedW, 1.0 + m.k1, m.k0 * m.ratedW, x)
    ensures x - LossW(m, x) == -Quadratic(m.k2 / m.ratedW, -(1.0 - m.k1), m.k0 * m.ratedW, x)
  {
    var r, p := m.ratedW, x / m.ratedW;
    assert p * r == x;
    assert m.k2 / r * x * x == m.k2 * p * x;
    assert (m.k0 + m.k1 * p + m.k2 * p * p) * r == m.k0 * r + m.k1 * (p * r) + m.k2 * p * (p * r);
  }

  /** Either root (-b + s) / 2a or (-b - s) / 2a, from any root s of the discriminant. */
  lemma RootOf(a: real, b: real, c: real, s: real, x: real)
    requires 0.0 < a && s * s == b * b - 4.0 * a * c && x == (-b + s) / (2.0 * a)
    ensures Quadratic(a, b, c, x) == 0.0 && 2.0 * a * x + b == s
  {
  }

  /** Right of its vertex a quadratic orders like its argument. */
  lemma RightOfVertex(a: real, b: real, c: real, x: real, y: real)
    requires 0.0 < a && 0.0 <= 2.0 * a * x + b && x < y
    ensures Quadratic(a, b, c, x) < Quadratic(a, b, c, y)
  {
    var u := a * (x + y) + b;
    assert Quadratic(a, b, c, y) - Quadratic(a, b, c, x) == (y - x) * u;
    MulStrict(a, x, y);
    MulStrict(u, 0.0, y - x);
  }

  // ----- The discharge branch -----------------------------------------------------------

  /** `DischargeAcW` solves x + L(x) == dc for x >= 0, and gives 0 below the no-load loss. */
  lemma DischargeSolves(m: CurvePcs, dc: real, x: real)
    requires PcsSound(m) && x == DischargeAcW(m, dc)
    ensures 0.0 <= x && (0.0 < x ==> x + LossW(m, x) == dc) && (x == 0.0 ==> dc <= LossW(m, 0.0))
  {
    LossIsQuadratic(m, x);
    LossIsQuadratic(m, 0.0);
    UpperRootSolves(m.sqrt, m.k2 / m.ratedW, 1.0 + m.k1, m.k0 * m.ratedW - dc);
    hide LossW, UpperRoot;
    Shift(m.k2 / m.ratedW, 1.0 + m.k1, m.k0 * m.ratedW, -dc, x);
    Shift(m.k2 / m.ratedW, 1.0 + m.k1, m.k0 * m.ratedW, -dc, 0.0);
  }

  lemma Shift(a: real, b: real, c: real, d: real, x: real)
    ensures Quadratic(a, b, c, x) + d == Quadratic(a, b, c + d, x)
  {}

  /** The upper root is a root wherever it is positive, which is where c is negative. */
  lemma UpperRootSolves(sqrt: real -> real, a: Pos, b: real, c: real)
    requires IsSqrt(sqrt) && 0.0 < b
    ensures c < 0.0 ==> 0.0 < UpperRoot(sqrt, a, b, c)
    ensures c == 0.0 ==> UpperRoot(sqrt, a, b, c) == 0.0
    ensures 0.0 < c ==> UpperRoot(sqrt, a, b, c) < 0.0
    ensures c <= 0.0 ==> Quadratic(a, b, c, UpperRoot(sqrt, a, b, c)) == 0.0
  {
    var q, bb, disc := 4.0 * a * c, b * b, Discriminant(a, b, c);
    var s, x := sqrt(disc), UpperRoot(sqrt, a, b, c);
    assert (c < 0.0) == (q < 0.0) && (c == 0.0) == (q == 0.0);
    assert 2.0 * a * x == s - b;
    if c < 0.0 {
      RootsDiffer(b, s, bb, disc);
    } else if 0.0 < c {
      SquareStrict(0.0, b, 0.0, bb);
      FallsShort(bb, q, disc);
      RootsDiffer(s, b, disc, bb);
    } else {
      SquareOrder(b, s, bb, disc);
      SquareOrder(s, b, disc, bb);
    }
    if c <= 0.0 {
      RootOf(a, b, c, s, x);
    }
  }

  lemma FallsShort(bb: real, q: real, disc: real)
    requires 0.0 < bb && 0.0 < q && disc == Max(bb - q, 0.0)
    ensures disc < bb
  {}

  lemma RootsDiffer(x: real, y: real, xx: real, yy: real)
    requires 0.0 <= x && 0.0 <= y && xx == x * x && yy == y * y && xx < yy
    ensures x < y
  {
    if y <= x {
      SquareLe(y, x, yy, xx);
    }
  }

  lemma SquareLe(x: real, y: real, xx: real, yy: real)
    requires 0.0 <= x <= y && xx == x * x && yy == y * y
    ensures xx <= yy
  {
    assert xx <= x * y <= yy;
  }

  lemma DischargeRises(m: CurvePcs, x: real, y: real)
    requires PcsSound(m) && 0.0 <= x < y
    ensures x + LossW(m, x) < y + LossW(m, y)
  {
    LossIsQuadratic(m, x);
    LossIsQuadratic(m, y);
    hide LossW;
    MulNonNeg(m.k2 / m.ratedW, x);
    RightOfVertex(m.k2 / m.ratedW, 1.0 + m.k1, m.k0 * m.ratedW, x, y);
  }

  /** More DC in, no less AC out; and what a target needs gives back the target. */
  lemma DischargeOrders(m: CurvePcs, dc: real, t: real, x: real)
    requires PcsSound(m) && 0.0 <= t && x == DischargeAcW(m, dc)
    ensures dc <= t + LossW(m, t) ==> x <= t
    ensures 0.0 < t && t + LossW(m, t) <= dc ==> t <= x
  {
    hide LossW, DischargeAcW, PcsSound;
    DischargeSolves(m, dc, x);
    if t < x {
      DischargeRises(m, t, x);
    }
    if x < t {
      DischargeRises(m, x, t);
    }
  }

  // ----- The charge branch -----------------------------------------------------------------

  /** `ChargeAcAbsW` is the small root of x - L(x) == dc, wherever a target t within the
      rating shows that one exists. */
  lemma ChargeSolves(m: CurvePcs, dc: real, t: real, x: real)
    requires PcsSound(m) && 0.0 <= dc <= t - LossW(m, t) && 0.0 <= t <= m.ratedW && x == ChargeAcAbsW(m, dc)
    ensures 0.0 <= x <= t && x - LossW(m, x) == dc
    ensures dc == t - LossW(m, t) ==> x == t
  {
    var a: Pos, b, c := m.k2 / m.ratedW, 1.0 - m.k1, m.k0 * m.ratedW + dc;
    hide LossW, LowerRoot, Quadratic, IsSqrt;
    LossIsQuadratic(m, t);
    LossIsQuadratic(m, x);
    Shift(a, -b, m.k0 * m.ratedW, dc, x);
    Shift(a, -b, m.k0 * m.ratedW, dc, t);
    MulNonNeg(m.k0, m.ratedW);
    LeftOfVertex(m.k2, m.ratedW, a, t);
    assert x == LowerRoot(m.sqrt, a, b, c) by { ChargeIsLowerRoot(m, dc); }
    LowerRootSolves(m.sqrt, a, b, c, t, x);
  }

  lemma ChargeIsLowerRoot(m: CurvePcs, dc: real)
    ensures ChargeAcAbsW(m, dc) == LowerRoot(m.sqrt, m.k2 / m.ratedW, 1.0 - m.k1, m.k0 * m.ratedW + dc)
  {}

  lemma LeftOfVertex(k2: Pos, rated: Pos, a: real, t: real)
    requires a == k2 / rated && 0.0 <= t <= rated
    ensures 2.0 * a * t <= 2.0 * k2
  {
    MulMono(a, t, rated);
    assert a * rated == k2;
  }

  /** Left of the vertex, a point at or below zero bounds the lower root. */
  lemma LowerRootSolves(sqrt: real -> real, a: Pos, b: real, c: real, t: real, x: real)
    requires IsSqrt(sqrt) && 0.0 <= c && 0.0 <= t && 2.0 * a * t <= b
    requires Quadratic(a, -b, c, t) <= 0.0 && x == LowerRoot(sqrt, a, b, c)
    ensures 0.0 <= x <= t && Quadratic(a, -b, c, x) == 0.0
    ensures Quadratic(a, -b, c, t) == 0.0 ==> x == t
  {
    var q := 4.0 * a * c;
    var h, disc, w := Quadratic(a, -b, c, t), b * b - q, b - 2.0 * a * t;
    VertexForm(a, b, c, t, w, disc);
    MulNonNeg(4.0 * a, c);
    SquareInside(4.0 * a, h, w * w, disc);
    hide Quadratic;
    SmallChargeRoot(a, b, c, sqrt(Discriminant(a, b, c)), w, t, x, disc);
  }

  lemma VertexForm(a: real, b: real, c: real, t: real, w: real, disc: real)
    requires w == b - 2.0 * a * t && disc == b * b - 4.0 * a * c
    ensures 4.0 * a * Quadratic(a, -b, c, t) == w * w - disc
  {}

  lemma SquareInside(k: real, h: real, ww: real, disc: real)
    requires 0.0 < k && k * h == ww - disc && h <= 0.0
    ensures ww <= disc && (h == 0.0 ==> ww == disc)
  {
    MulNonNeg(k, -h);
  }

  lemma SmallChargeRoot(a: real, b: real, c: real, s: real, w: real, t: real, x: real, disc: real)
    requires 0.0 < a && 0.0 <= w && w == b - 2.0 * a * t && 0.0 <= t
    requires 0.0 <= s && s * s == disc && disc == b * b - 4.0 * a * c && 0.0 <= 4.0 * a * c
    requires w * w <= disc
    requires x == (b - s) / (2.0 * a)
    ensures 0.0 <= x <= t && Quadratic(a, -b, c, x) == 0.0
    ensures w * w == disc ==> x == t
  {
    hide Quadratic;
    var ww, bb := w * w, b * b;
    MulNonNeg(2.0 * a, t);
    SquareOrder(w, s, ww, disc);
    SquareOrder(s, b, disc, bb);
    if ww == disc {
      SquareOrder(s, w, disc, ww);
    }
    var k := 2.0 * a;
    ChargeRootIs(a, b, c, s, x, k);
    VertexGap(a, b, t, w, k);
    OrderByScaled(k, 0.0, x, 0.0, b - s);
    OrderByScaled(k, x, t, b - s, b - w);
    if ww == disc {
      OrderByScaled(k, t, x, b - w, b - s);
    }
  }

  lemma VertexGap(a: real, b: real, t: real, w: real, k: real)
    requires w == b - 2.0 * a * t && k == 2.0 * a
    ensures k * t == b - w
  {}

  lemma ChargeRootIs(a: real, b: real, c: real, s: real, x: real, k: real)
    requires 0.0 < a && s * s == b * b - 4.0 * a * c && x == (b - s) / (2.0 * a) && k == 2.0 * a
    ensures k * x == b - s && Quadratic(a, -b, c, x) == 0.0
  {
    RootOf(a, -b, c, -s, x);
    hide Quadratic;
    Undivide(b - s, k, x);
  }

  lemma Undivide(y: real, k: real, x: real)
    requires 0.0 < k && x == y / k
    ensures k * x == y
  {}

  lemma OrderByScaled(k: real, x: real, y: real, kx: real, ky: real)
    requires 0.0 < k && kx == k * x && ky == k * y && kx <= ky
    ensures x <= y
  {
    if y < x { MulStrict(k, y, x); }
  }

  // ----- Delivered against asked -------------------------------------------------------------

  /** The loss at any load is non-negative. */
  lemma LossNonNegative(m: CurvePcs, x: real)
    requires PcsSound(m)
    ensures 0.0 <= LossW(m, x)
  {
    var p := x / m.ratedW;
    var y := m.k0 + m.k1 * p + m.k2 * p * p;
    ParabolaAboveZero(m.k0, m.k1, m.k2, p, y);
    MulNonNeg(y, m.ratedW);
  }

  lemma ParabolaAboveZero(k0: real, k1: real, k2: Pos, p: real, y: real)
    requires y == k0 + k1 * p + k2 * p * p && k1 * k1 <= 4.0 * k0 * k2
    ensures 0.0 <= y
  {
    var w, slack := k1 + 2.0 * k2 * p, 4.0 * k0 * k2 - k1 * k1;
    assert 4.0 * k2 * y == slack + w * w;
    assert 0.0 <= w * w;
    if y < 0.0 {
      MulPos(4.0 * k2, -y);
    }
  }

  /** Racks that deliver only part of the DC request make the converter deliver only
      part of its AC target, within its rating and the capability it advertises, at a
      non-negative loss. */
  lemma ConverterTracks(m: CurvePcs, target: real, limits: Limits, dc: real)
    requires PcsSound(m) && 0.0 <= limits.chargeW && 0.0 <= limits.dischargeW
    requires Toward(dc, DcRequestW(m, target, limits))
    ensures Toward(AcOf(m, dc), target) && Toward(AcOf(m, dc), AtRatingW(m, target))
    ensures 0.0 <= dc - AcOf(m, dc)
  {
    var ac := AtRatingW(m, target);
    hide LossW, DischargeAcW, ChargeAcAbsW, PcsSound;
    LossNonNegative(m, Abs(ac));
    if 0.0 < dc {
      var x := DischargeAcW(m, dc);
      DischargeSolves(m, dc, x);
      DischargeOrders(m, dc, ac, x);
      LossNonNegative(m, x);
    } else if dc < 0.0 {
      var x := ChargeAcAbsW(m, -dc);
      ChargeSolves(m, -dc, -ac, x);
      LossNonNegative(m, x);
    }
  }

  /** The round trip: with limits that do not bind, finalizing what was requested gives
      back the target inside the rating, except where the unit stands by: below the
      threshold, and on a charge target that does not cover its own loss. */
  lemma RequestThenFinalize(m: CurvePcs, target: real, limits: Limits)
    requires PcsSound(m)
    requires var ac := AtRatingW(m, target);
      ac + LossW(m, Abs(ac)) <= limits.dischargeW && -(ac + LossW(m, Abs(ac))) <= limits.chargeW
    requires 0.0 <= limits.chargeW && 0.0 <= limits.dischargeW
    ensures var ac := AtRatingW(m, target);
      AcOf(m, DcRequestW(m, target, limits))
      == if Abs(ac) < m.standbyThresholdW || (ac < 0.0 && -ac <= LossW(m, -ac)) then 0.0 else ac
  {
    var ac := AtRatingW(m, target);
    var dc := DcRequestW(m, target, limits);
    assert 0.0 < m.standbyThresholdW;
    hide LossW, DischargeAcW, ChargeAcAbsW, PcsSound;
    LossNonNegative(m, Abs(ac));
    if 0.0 < dc {
      DischargeOrders(m, dc, ac, DischargeAcW(m, dc));
    } else if dc < 0.0 {
      ChargeSolves(m, -dc, -ac, ChargeAcAbsW(m, -dc));
    }
  }

  /** What a block delivers never exceeds the capability computed from the same limits. */
  lemma CapabilityCovers(m: CurvePcs, target: real, limits: Limits, dc: real)
    requires PcsSound(m) && 0.0 <= limits.chargeW && 0.0 <= limits.dischargeW
    requires Toward(dc, DcRequestW(m, target, limits))
    ensures -AcCapability(m, limits).chargeW <= AcOf(m, dc) <= AcCapability(m, limits).dischargeW
  {
    hide LossW, DischargeAcW, ChargeAcAbsW, PcsSound;
    ConverterTracks(m, target, limits, dc);
    CapabilityNonNegative(m, limits);
    if 0.0 < dc {
      DischargeMonotone(m, dc, limits.dischargeW);
    } else if dc < 0.0 {
      ChargeMonotone(m, -dc, limits.chargeW);
    }
  }

  lemma DischargeMonotone(m: CurvePcs, x: real, y: real)
    requires PcsSound(m) && x <= y
    ensures DischargeAcW(m, x) <= DischargeAcW(m, y)
  {
    hide LossW, DischargeAcW, PcsSound;
    var t := DischargeAcW(m, y);
    DischargeSolves(m, y, t);
    DischargeOrders(m, x, t, DischargeAcW(m, x));
  }

  lemma ChargeMonotone(m: CurvePcs, x: real, y: real)
    requires PcsSound(m) && x <= y
    ensures ChargeAcAbsW(m, x) <= ChargeAcAbsW(m, y)
  {
    var a: Pos, b, c, d := m.k2 / m.ratedW, 1.0 - m.k1, m.k0 * m.ratedW + x, m.k0 * m.ratedW + y;
    ChargeIsLowerRoot(m, x);
    ChargeIsLowerRoot(m, y);
    LowerRootRises(m.sqrt, a, b, c, d);
  }

  lemma LowerRootRises(sqrt: real -> real, a: Pos, b: real, c: real, d: real)
    requires IsSqrt(sqrt) && c <= d
    ensures LowerRoot(sqrt, a, b, c) <= LowerRoot(sqrt, a, b, d)
  {
    var p, q := Discriminant(a, b, c), Discriminant(a, b, d);
    DiscriminantFalls(a, b, c, d);
    hide Discriminant;
    SquareOrder(sqrt(q), sqrt(p), q, p);
    DivMono(b - sqrt(p), b - sqrt(q), 2.0 * a);
  }

  lemma DiscriminantFalls(a: Pos, b: real, c: real, d: real)
    requires c <= d
    ensures 0.0 <= Discriminant(a, b, d) <= Discriminant(a, b, c)
  {
    MulMono(4.0 * a, c, d);
  }

  lemma CapabilityNonNegative(m: CurvePcs, limits: Limits)
    requires PcsSound(m) && 0.0 <= limits.chargeW
    ensures 0.0 <= AcCapability(m, limits).chargeW && 0.0 <= AcCapability(m, limits).dischargeW
  {
    var a: Pos, b, c := m.k2 / m.ratedW, 1.0 - m.k1, m.k0 * m.ratedW + limits.chargeW;
    ChargeIsLowerRoot(m, limits.chargeW);
    MulNonNeg(m.k0, m.ratedW);
    LowerRootNonNegative(m.sqrt, a, b, c);
  }

  lemma LowerRootNonNegative(sqrt: real -> real, a: Pos, b: real, c: real)
    requires IsSqrt(sqrt) && 0.0 <= b && 0.0 <= c
    ensures 0.0 <= LowerRoot(sqrt, a, b, c)
  {
    var p, bb := Discriminant(a, b, c), b * b;
    MulNonNeg(4.0 * a, c);
    MulNonNeg(b, b);
    SquareOrder(sqrt(p), b, p, bb);
    DivMono(0.0, b - sqrt(p), 2.0 * a);
  }
}
