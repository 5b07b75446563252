/** The cell open-circuit-voltage curve and its integral. */
module Ocv {
  import opened Reals

  /** A piecewise-linear curve over SoC 0 to 1, strictly increasing, (SoC, V). */
  predicate IncreasingCurve(c: seq<(real, real)>) {
    && 2 <= |c| && c[0].0 == 0.0 && c[|c| - 1].0 == 1.0 && 0.0 < c[0].1
    && forall i, j :: 0 <= i < j < |c| ==> c[i].0 < c[j].0 && c[i].1 < c[j].1
  }

  type Curve = c: seq<(real, real)> | IncreasingCurve(c) witness [(0.0, 1.0), (1.0, 2.0)]

  function OcvTable(): seq<(real, real)> {
    [(0.00, 2.90), (0.05, 3.05), (0.10, 3.18), (0.20, 3.25), (0.30, 3.28), (0.40, 3.29), (0.50, 3.30),
     (0.60, 3.31), (0.70, 3.32), (0.80, 3.33), (0.90, 3.34), (0.95, 3.36), (1.00, 3.45)]
  }

  lemma OcvTableIsIncreasing()
    ensures IncreasingCurve(OcvTable())
  {}

  /** The line through points k-1 and k, at s. */
  function Segment(c: Curve, k: nat, s: real): real
    requires 0 < k < |c|
  {
    c[k - 1].1 + (s - c[k - 1].0) / (c[k].0 - c[k - 1].0) * (c[k].1 - c[k - 1].1)
  }

  /** The scan from segment k on. */
  function Scan(c: Curve, k: nat, s: real): real
    requires 0 < k <= |c|
    decreases |c| - k
  {
    if k == |c| then c[k - 1].1
    else if s <= c[k].0 then Segment(c, k, s)
    else Scan(c, k + 1, s)
  }

  function OcvCellV(c: Curve, soc: real): real {
    Scan(c, 1, Clamp(soc, 0.0, 1.0))
  }

  method OcvCell(c: Curve, soc: real) returns (v: real)
    ensures v == OcvCellV(c, soc)
  {
    hide Segment;
    var s := Clamp(soc, 0.0, 1.0);
    var prev := c[0];
    for k := 1 to |c|
      invariant prev == c[k - 1]
      invariant OcvCellV(c, soc) == Scan(c, k, s)
    {
      var (x, y) := c[k];
      if s <= x {
        return Segment(c, k, s);
      }
      prev := (x, y);
    }
    v := prev.1;
  }

  /** The area of a trapezoid of width w between heights v0 and v1. */
  function Trapezium(w: real, v0: real, v1: real): real {
    w * (v0 + v1) * 0.5
  }

  /** The area under the curve from point k-1 to s. */
  function Area(c: Curve, k: nat, s: real): real
    requires 0 < k <= |c|
    decreases |c| - k
  {
    if k == |c| then 0.0
    else if s <= c[k].0 then Trapezium(s - c[k - 1].0, c[k - 1].1, Scan(c, 1, s))
    else Trapezium(c[k].0 - c[k - 1].0, c[k - 1].1, c[k].1) + Area(c, k + 1, s)
  }

  function OcvIntegralV(c: Curve, soc: real): real {
    Area(c, 1, Clamp(soc, 0.0, 1.0))
  }

  method OcvIntegral(c: Curve, soc: real) returns (acc: real)
    ensures acc == OcvIntegralV(c, soc)
  {
    hide Trapezium, Segment;
    var s := Clamp(soc, 0.0, 1.0);
    acc := 0.0;
    var prev := c[0];
    for k := 1 to |c|
      invariant prev == c[k - 1]
      invariant OcvIntegralV(c, soc) == acc + Area(c, k, s)
    {
      var (x, y) := c[k];
      if s <= x {
        var vm := OcvCell(c, s);
        acc := acc + Trapezium(s - prev.0, prev.1, vm);
        return;
      }
      acc := acc + Trapezium(x - prev.0, prev.1, y);
      prev := (x, y);
    }
  }

  /** The slope of segment k. */
  function Slope(c: Curve, k: nat): (m: real)
    requires 0 < k < |c|
    ensures 0.0 < m && m * (c[k].0 - c[k - 1].0) == c[k].1 - c[k - 1].1
  {
    (c[k].1 - c[k - 1].1) / (c[k].0 - c[k - 1].0)
  }

  lemma SegmentIsALine(c: Curve, k: nat, s: real)
    requires 0 < k < |c|
    ensures Segment(c, k, s) == c[k - 1].1 + Slope(c, k) * (s - c[k - 1].0)
  {
    Rescale(s - c[k - 1].0, c[k].0 - c[k - 1].0, c[k].1 - c[k - 1].1);
  }

  lemma Rescale(d: real, w: real, h: real)
    requires 0.0 < w
    ensures d / w * h == h / w * d
  {}

  lemma {:induction false} ScanFrom(c: Curve, j: nat, k: nat, s: real)
    requires 0 < j <= k <= |c| && c[k - 1].0 <= s
    ensures Scan(c, j, s) == Scan(c, k, s)
    decreases k - j
  {
    if j < k {
      if s <= c[j].0 {
        assert j == k - 1;
        SegmentIsALine(c, j, s);
        if k < |c| {
          SegmentIsALine(c, k, s);
        }
      } else {
        ScanFrom(c, j + 1, k, s);
      }
    }
  }

  lemma SegmentRises(c: Curve, k: nat, a: real, b: real)
    requires 0 < k < |c| && a <= b
    ensures Segment(c, k, a) <= Segment(c, k, b)
    ensures Segment(c, k, c[k - 1].0) == c[k - 1].1 && Segment(c, k, c[k].0) == c[k].1
  {
    SegmentIsALine(c, k, a);
    SegmentIsALine(c, k, b);
    SegmentIsALine(c, k, c[k - 1].0);
    SegmentIsALine(c, k, c[k].0);
    MulMono(Slope(c, k), a - c[k - 1].0, b - c[k - 1].0);
  }

  lemma {:induction false} ScanMonotone(c: Curve, k: nat, a: real, b: real)
    requires 0 < k <= |c| && c[k - 1].0 <= a <= b <= 1.0
    ensures c[k - 1].1 <= Scan(c, k, a) <= Scan(c, k, b)
    decreases |c| - k
  {
    if k < |c| {
      SegmentRises(c, k, c[k - 1].0, a);
      if b <= c[k].0 {
        SegmentRises(c, k, a, b);
      } else if c[k].0 < a {
        ScanMonotone(c, k + 1, a, b);
      } else {
        SegmentRises(c, k, a, c[k].0);
        ScanMonotone(c, k + 1, c[k].0, b);
      }
    }
  }

  /** Rising SoC never lowers the open-circuit voltage. */
  lemma OcvMonotone(c: Curve, a: real, b: real)
    requires a <= b
    ensures c[0].1 <= OcvCellV(c, a) <= OcvCellV(c, b)
  {
    ScanMonotone(c, 1, Clamp(a, 0.0, 1.0), Clamp(b, 0.0, 1.0));
  }

  /** Inside one segment the area between two states is the trapezoid under it. */
  lemma Trapezoid(c: Curve, k: nat, a: real, b: real)
    requires 0 < k < |c| && c[k - 1].0 <= a <= b <= c[k].0
    ensures Area(c, k, b) - Area(c, k, a) == Trapezium(b - a, Scan(c, k, a), Scan(c, k, b))
  {
    hide Segment, Trapezium;
    AreaInSegment(c, k, a);
    AreaInSegment(c, k, b);
    hide Scan, Area;
    TrapezoidSplit(c[k - 1].1, Slope(c, k), c[k - 1].0, a, b, Scan(c, k, a), Scan(c, k, b));
  }

  lemma AreaInSegment(c: Curve, k: nat, s: real)
    requires 0 < k < |c| && c[k - 1].0 <= s <= c[k].0
    ensures Area(c, k, s) == Trapezium(s - c[k - 1].0, c[k - 1].1, Scan(c, k, s))
    ensures Scan(c, k, s) == c[k - 1].1 + Slope(c, k) * (s - c[k - 1].0)
  {
    hide Segment, Trapezium;
    ScanFrom(c, 1, k, s);
    SegmentIsALine(c, k, s);
  }

  lemma TrapezoidSplit(y: real, m: real, x: real, a: real, b: real, va: real, vb: real)
    requires va == y + m * (a - x) && vb == y + m * (b - x)
    ensures Trapezium(b - x, y, vb) - Trapezium(a - x, y, va) == Trapezium(b - a, va, vb)
  {
    var p, q := a - x, b - x;
    calc {
      (q - p) * (va + vb);
      q * va + q * vb - p * va - p * vb;
      q * (y + m * p) + q * vb - p * va - p * (y + m * q);
      q * y + q * vb - p * va - p * y;
      q * (y + vb) - p * (y + va);
    }
  }

  /** An area over a width lies between the rectangles of the two end heights. */
  predicate Bounded(area: real, w: real, v0: real, v1: real) {
    v0 * w <= area <= v1 * w
  }

  lemma BoundedJoin(area0: real, area1: real, w0: real, w1: real, w: real, va: real, vx: real, vb: real)
    requires Bounded(area0, w0, va, vx) && Bounded(area1, w1, vx, vb)
    requires va <= vx <= vb && 0.0 <= w0 && 0.0 <= w1 && w == w0 + w1
    ensures Bounded(area0 + area1, w, va, vb)
  {
    MulMono(w1, va, vx);
    MulMono(w0, vx, vb);
  }

  lemma TrapeziumBounded(w: real, v0: real, v1: real)
    requires 0.0 <= w && v0 <= v1
    ensures Bounded(Trapezium(w, v0, v1), w, v0, v1)
  {
    MulMono(w, v0, v1);
  }

  lemma {:induction false} AreaBounds(c: Curve, k: nat, a: real, b: real)
    requires 0 < k <= |c| && c[k - 1].0 <= a <= b <= 1.0
    ensures Bounded(Area(c, k, b) - Area(c, k, a), b - a, Scan(c, k, a), Scan(c, k, b))
    decreases |c| - k
  {
    hide Segment, Trapezium, Bounded;
    ScanMonotone(c, k, a, b);
    if k == |c| {
      TrapeziumBounded(b - a, Scan(c, k, a), Scan(c, k, b));
      NoWidth(c[k - 1].1);
    } else if b <= c[k].0 {
      Trapezoid(c, k, a, b);
      TrapeziumBounded(b - a, Scan(c, k, a), Scan(c, k, b));
    } else if c[k].0 < a {
      AreaBounds(c, k + 1, a, b);
    } else {
      var x := c[k].0;
      AreaBounds(c, k + 1, x, b);
      ScanFrom(c, k, k + 1, x);
      AreaAtKnot(c, k);
      Trapezoid(c, k, a, x);
      ScanMonotone(c, k, x, b);
      ScanMonotone(c, k, a, x);
      TrapeziumBounded(x - a, Scan(c, k, a), Scan(c, k, x));
      BoundedJoin(Area(c, k, x) - Area(c, k, a), Area(c, k + 1, b), x - a, b - x, b - a,
                  Scan(c, k, a), Scan(c, k, x), Scan(c, k, b));
    }
  }

  lemma NoWidth(v: real)
    ensures Bounded(0.0, 0.0, v, v)
  {}

  /** The area functions of neighbouring segments agree where they meet. */
  lemma AreaAtKnot(c: Curve, k: nat)
    requires 0 < k < |c|
    ensures Area(c, k, c[k].0) == Trapezium(c[k].0 - c[k - 1].0, c[k - 1].1, c[k].1)
    ensures Area(c, k + 1, c[k].0) == 0.0
  {
    ScanFrom(c, 1, k, c[k].0);
    ScanFrom(c, 1, k + 1, c[k].0);
  }

  /** `OcvIntegralV` is the integral of an increasing curve: between two states of
      charge it lies between the lower and the upper rectangle. */
  lemma IntegralBounds(c: Curve, a: real, b: real)
    requires 0.0 <= a <= b <= 1.0
    ensures OcvCellV(c, a) * (b - a) <= OcvIntegralV(c, b) - OcvIntegralV(c, a) <= OcvCellV(c, b) * (b - a)
  {
    hide Scan, Area;
    AreaBounds(c, 1, a, b);
  }
}
