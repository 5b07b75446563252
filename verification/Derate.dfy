/** Temperature derating from a table, with the full-rate shortcut. */
module Derate {
  import opened Reals
  import opened Wrappers

  /** A table of (degrees Celsius, rate), strictly increasing in temperature. */
  type Table = t: seq<(real, real)> | forall i, j :: 0 <= i < j < |t| ==> t[i].0 < t[j].0 witness []

  /** The listed points, the highest listed rate, and the longest run of neighbours at it. */
  datatype TempCurve = TempCurve(points: Table, peak: real, full: Option<(real, real)>)

  function Line(a: (real, real), b: (real, real), t: real): real
    requires a.0 < b.0
  {
    a.1 + (b.1 - a.1) * (t - a.0) / (b.0 - a.0)
  }

  /** The interpolated scan from segment k on. */
  function RateFrom(p: Table, k: nat, t: real): real
    requires 0 < k <= |p|
    decreases |p| - k
  {
    if k == |p| then p[k - 1].1
    else if t <= p[k].0 then Line(p[k - 1], p[k], t)
    else RateFrom(p, k + 1, t)
  }

  /** Permitted rate at a temperature; zero outside the listed range. */
  function RateAt(p: Table, t: real): real {
    if p == [] || !(p[0].0 <= t <= p[|p| - 1].0) then 0.0 else RateFrom(p, 1, t)
  }

  method RateScan(p: Table, t: real) returns (rate: real)
    ensures rate == RateAt(p, t)
  {
    if p == [] {
      return 0.0;
    }
    if !(p[0].0 <= t <= p[|p| - 1].0) {
      return 0.0;
    }
    for k := 1 to |p|
      invariant RateAt(p, t) == RateFrom(p, k, t)
    {
      if t <= p[k].0 {
        return Line(p[k - 1], p[k], t);
      }
    }
    rate := p[|p| - 1].1;
  }

  /** Permitted rate as a fraction of the peak, taking the shortcut inside the full run. */
  function Factor(c: TempCurve, t: real): (f: real)
    ensures 0.0 <= f <= 1.0
  {
    if c.peak <= 0.0 then 0.0
    else if c.full.Some? && c.full.value.0 <= t <= c.full.value.1 then 1.0
    else Clamp(RateAt(c.points, t) / c.peak, 0.0, 1.0)
  }

  /** The same without the shortcut. */
  function ScanFactor(p: Table, peak: real, t: real): real {
    if peak <= 0.0 then 0.0 else Clamp(RateAt(p, t) / peak, 0.0, 1.0)
  }

  predicate IsPeak(p: Table, peak: real) {
    0.0 <= peak && (forall q <- p :: q.1 <= peak) && (peak == 0.0 || exists q <- p :: q.1 == peak)
  }

  /** Points i to j are neighbours at the peak. */
  predicate IsRun(p: Table, peak: real, i: int, j: int) {
    0 <= i < j < |p| && forall k :: i <= k <= j ==> peak <= p[k].1
  }

  /** `full`, when there is one, spans a run among the first n points. */
  ghost predicate IsSpan(p: Table, peak: real, full: Option<(real, real)>, n: nat)
    requires n <= |p|
  {
    full.Some? ==> exists i, j :: IsRun(p, peak, i, j) && j < n && full.value == (p[i].0, p[j].0)
  }

  /** Span a beats the points from x to y: it is wider, or as wide and begins no later. */
  predicate Beats(a: (real, real), x: real, y: real) {
    y - x < a.1 - a.0 || (y - x == a.1 - a.0 && a.0 <= x)
  }

  /** `full` beats every run among the first n points. */
  ghost predicate NoLongerRun(p: Table, peak: real, full: Option<(real, real)>, n: nat)
    requires n <= |p|
  {
    forall i, j :: IsRun(p, peak, i, j) && j < n ==> full.Some? && Beats(full.value, p[i].0, p[j].0)
  }

  /** `full` spans the longest run among the first n points, the first of equally long ones;
      none when there is no run. */
  ghost predicate IsLongestRun(p: Table, peak: real, full: Option<(real, real)>, n: nat)
    requires n <= |p|
  {
    && IsSpan(p, peak, full, n)
    && NoLongerRun(p, peak, full, n)
  }

  /** Points `from` to n are the unbroken run at the peak that ends ahead of n. */
  predicate AtPeakSince(p: Table, peak: real, from: int, n: int) {
    && 0 <= from <= n <= |p|
    && (forall k :: from <= k < n ==> peak <= p[k].1)
    && (from > 0 ==> p[from - 1].1 < peak)
  }

  ghost predicate CurveOk(c: TempCurve) {
    IsPeak(c.points, c.peak) && IsLongestRun(c.points, c.peak, c.full, |c.points|)
  }

  method New(points: Table) returns (c: TempCurve)
    ensures CurveOk(c) && c.points == points
  {
    var peak := 0.0;
    for k := 0 to |points|
      invariant IsPeak(points[..k], peak)
    {
      ghost var before := peak;
      peak := Max(peak, points[k].1);
      assert points[..k + 1] == points[..k] + [points[k]];
      assert peak == before || points[..k + 1][k].1 == peak;
      if peak == before && peak != 0.0 {
        ghost var q :| q in points[..k] && q.1 == peak;
        assert q in points[..k + 1];
      }
    }
    assert points[..|points|] == points;
    var full := LongestFullRun(points, peak);
    c := TempCurve(points, peak, full);
  }

  method LongestFullRun(points: Table, peak: real) returns (best: Option<(real, real)>)
    ensures IsLongestRun(points, peak, best, |points|)
  {
    hide IsLongestRun, AtPeakSince;
    best := None;
    var start: Option<real> := None;
    ghost var from := 0;
    NoRunYet(points, peak);
    for n := 0 to |points|
      invariant from <= n && AtPeakSince(points, peak, from, n)
      invariant start == if from < n then Some(points[from].0) else None
      invariant IsLongestRun(points, peak, best, n)
    {
      var (t, rate) := points[n];
      if peak <= rate {
        if start.None? {
          start := Some(t);
        }
        var first := start.value;
        ghost var before := best;
        if first < t && (best.None? || best.value.1 - best.value.0 < t - first) {
          best := Some((first, t));
        }
        RunGrows(points, peak, before, best, from, n);
      } else {
        RunBreaks(points, peak, best, n);
        start := None;
        from := n + 1;
      }
    }
  }

  lemma NoRunYet(p: Table, peak: real)
    ensures IsLongestRun(p, peak, None, 0) && AtPeakSince(p, peak, 0, 0)
  {}

  /** A point at the peak: the run since `from` may now be the longest. */
  lemma RunGrows(p: Table, peak: real, before: Option<(real, real)>, best: Option<(real, real)>, from: nat, n: nat)
    requires n < |p| && IsLongestRun(p, peak, before, n)
    requires AtPeakSince(p, peak, from, n) && peak <= p[n].1
    requires best == if from < n && (before.None? || before.value.1 - before.value.0 < p[n].0 - p[from].0)
                     then Some((p[from].0, p[n].0)) else before
    ensures IsLongestRun(p, peak, best, n + 1) && AtPeakSince(p, peak, from, n + 1)
  {
    hide IsSpan, NoLongerRun, IsRun;
    assert AtPeakSince(p, peak, from, n + 1);
    hide AtPeakSince;
    RunGrowsLongest(p, peak, before, best, from, n);
    RunSpans(p, peak, before, best, from, n);
  }

  /** The first conjunct of `IsLongestRun`: the span is some run's. */
  lemma RunSpans(p: Table, peak: real, before: Option<(real, real)>, best: Option<(real, real)>, from: nat, n: nat)
    requires n < |p| && IsSpan(p, peak, before, n)
    requires AtPeakSince(p, peak, from, n) && peak <= p[n].1
    requires best == before || (from < n && best == Some((p[from].0, p[n].0)))
    ensures IsSpan(p, peak, best, n + 1)
  {
    if best != before {
      assert IsRun(p, peak, from, n);
    } else if best.Some? {
      var i, j :| IsRun(p, peak, i, j) && j < n && best.value == (p[i].0, p[j].0);
      hide IsRun, AtPeakSince;
    }
  }

  lemma RunGrowsLongest(p: Table, peak: real, before: Option<(real, real)>, best: Option<(real, real)>, from: nat,
      n: nat)
    requires n < |p| && IsSpan(p, peak, before, n) && NoLongerRun(p, peak, before, n)
    requires AtPeakSince(p, peak, from, n)
    requires best == if from < n && (before.None? || before.value.1 - before.value.0 < p[n].0 - p[from].0)
                     then Some((p[from].0, p[n].0)) else before
    ensures NoLongerRun(p, peak, best, n + 1)
  {
    SpanEndsBefore(p, peak, before, n);
    hide IsSpan;
    forall i, j | IsRun(p, peak, i, j) && j < n + 1
      ensures best.Some? && Beats(best.value, p[i].0, p[j].0)
    {
      if j == n {
        RunStartsAfter(p, peak, i, j, from);
      }
      hide IsRun, AtPeakSince;
    }
  }

  lemma SpanEndsBefore(p: Table, peak: real, full: Option<(real, real)>, n: nat)
    requires n < |p| && IsSpan(p, peak, full, n)
    ensures full.Some? ==> full.value.1 < p[n].0
  {}

  lemma RunStartsAfter(p: Table, peak: real, i: int, j: int, from: nat)
    requires IsRun(p, peak, i, j) && from <= j && (from > 0 ==> p[from - 1].1 < peak)
    ensures from <= i && p[from].0 <= p[i].0
  {
    if i < from {
      RunCovers(p, peak, i, j, from - 1);
    }
  }

  lemma RunCovers(p: Table, peak: real, i: int, j: int, k: int)
    requires IsRun(p, peak, i, j) && i <= k <= j
    ensures peak <= p[k].1
  {}

  /** A point below the peak ends every run before it. */
  lemma RunBreaks(p: Table, peak: real, best: Option<(real, real)>, n: nat)
    requires n < |p| && IsLongestRun(p, peak, best, n) && p[n].1 < peak
    ensures IsLongestRun(p, peak, best, n + 1) && AtPeakSince(p, peak, n + 1, n + 1)
  {
    forall i, j | IsRun(p, peak, i, j) && j < n + 1
      ensures j < n
    {
    }
  }

  lemma LineAtPeak(a: (real, real), b: (real, real), t: real, peak: real)
    requires a.0 < b.0 && b.1 == peak
    requires t == b.0 || a.1 == peak
    ensures Line(a, b, t) == peak
  {}

  lemma {:induction false} RateInRun(p: Table, peak: real, i: nat, j: nat, k: nat, t: real)
    requires IsRun(p, peak, i, j) && IsPeak(p, peak)
    requires 0 < k <= j && p[i].0 <= t <= p[j].0 && (k == 1 || p[k - 1].0 < t)
    ensures RateFrom(p, k, t) == peak
    decreases j - k
  {
    if t <= p[k].0 {
      assert i <= k;
      LineAtPeak(p[k - 1], p[k], t, peak);
    } else {
      RateInRun(p, peak, i, j, k + 1, t);
    }
  }

  /** The shortcut is exact: for every table and every temperature the factor is the
      plain interpolated scan, over dips, single points and tables with no run at all. */
  lemma ShortcutIsScan(c: TempCurve, t: real)
    requires CurveOk(c)
    ensures Factor(c, t) == ScanFactor(c.points, c.peak, t)
  {
    if c.peak > 0.0 && c.full.Some? && c.full.value.0 <= t <= c.full.value.1 {
      FullRunAtPeak(c, t);
      hide RateAt, CurveOk;
      FullRate(c.peak);
    }
  }

  lemma FullRunAtPeak(c: TempCurve, t: real)
    requires CurveOk(c) && c.full.Some? && c.full.value.0 <= t <= c.full.value.1
    ensures RateAt(c.points, t) == c.peak
  {
    hide RateFrom, IsPeak, NoLongerRun;
    var i, j :| IsRun(c.points, c.peak, i, j) && c.full.value == (c.points[i].0, c.points[j].0);
    RunInside(c.points, c.peak, i, j);
    RateInRun(c.points, c.peak, i, j, 1, t);
  }

  lemma RunInside(p: Table, peak: real, i: int, j: int)
    requires IsRun(p, peak, i, j)
    ensures p[0].0 <= p[i].0 < p[j].0 <= p[|p| - 1].0
  {}

  lemma FullRate(peak: real)
    requires 0.0 < peak
    ensures Clamp(peak / peak, 0.0, 1.0) == 1.0
  {}
}
