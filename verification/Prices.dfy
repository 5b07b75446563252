/** The replayed price year: hourly prices and the table of its local days. */
module Prices {
  import opened Wrappers

  datatype PriceYear = PriceYear(year: nat, offsetH: int, eurMwh: seq<real>, dayStarts: seq<nat>)

  datatype TableError = EmptyTable | WrongSpan(first: nat, last: nat) | BadDay(day: nat, hours: nat)

  function DayLength(starts: seq<nat>, d: nat): nat
    requires d + 1 < |starts|
  {
    if starts[d] <= starts[d + 1] then starts[d + 1] - starts[d] else 0
  }

  /** Every local day has the length a whole-hour clock change can make. */
  predicate DaysOk(starts: seq<nat>, k: nat)
    requires k < |starts|
  {
    forall d :: 0 <= d < k ==> 23 <= DayLength(starts, d) <= 25
  }

  /** A table describes a series of `hours`. */
  predicate TableOk(starts: seq<nat>, hours: nat) {
    starts != [] && starts[0] == 0 && starts[|starts| - 1] == hours && DaysOk(starts, |starts| - 1)
  }

  /** Accept a table exactly when it describes the series; a refusal names the first day at
      fault. */
  method CheckDayStarts(starts: seq<nat>, hours: nat) returns (r: Result<(), TableError>)
    ensures r.Ok? <==> TableOk(starts, hours)
    ensures r.Err? && r.error.BadDay? ==>
      var d := r.error.day;
      d + 1 < |starts| && r.error.hours == DayLength(starts, d) && !(23 <= DayLength(starts, d) <= 25)
          && DaysOk(starts, d)
  {
    if starts == [] { return Err(EmptyTable); }
    if starts[0] != 0 || starts[|starts| - 1] != hours {
      return Err(WrongSpan(starts[0], starts[|starts| - 1]));
    }
    for d := 0 to |starts| - 1
      invariant DaysOk(starts, d)
    {
      var len := DayLength(starts, d);
      if !(23 <= len <= 25) {
        assert !DaysOk(starts, |starts| - 1) by { assert !(23 <= DayLength(starts, d) <= 25); }
        return Err(BadDay(d, len));
      }
    }
    return Ok(());
  }

  predicate Loaded(y: PriceYear) {
    TableOk(y.dayStarts, |y.eurMwh|)
  }

  // ----- Lookup -------------------------------------------------------------------------------

  /** The series index of a UTC reference hour; a year of no hours has none to wrap into. */
  function IndexAtUtcHour(y: PriceYear, utcHour: int): Option<int> {
    if |y.eurMwh| == 0 then None else Some((utcHour + y.offsetH) % |y.eurMwh|)
  }

  /** Leading entries of the table at or before an hour. */
  function PartitionPoint(starts: seq<nat>, idx: int): (n: nat)
    ensures n <= |starts|
  {
    if starts == [] || idx < starts[0] then 0 else 1 + PartitionPoint(starts[1..], idx)
  }

  function DayOf(y: PriceYear, idx: int): int {
    PartitionPoint(y.dayStarts, idx) - 1
  }

  /** Local day d, as a half-open range of hours. */
  predicate InDay(y: PriceYear, d: int, idx: int) {
    0 <= d < |y.dayStarts| - 1 && y.dayStarts[d] <= idx < y.dayStarts[d + 1]
  }

  lemma StartsRise(starts: seq<nat>, hours: nat, d: nat, e: nat)
    requires TableOk(starts, hours) && d <= e < |starts|
    ensures starts[d] + 23 * (e - d) <= starts[e]
  {
    if d < e {
      StartsRise(starts, hours, d, e - 1);
      assert 23 <= DayLength(starts, e - 1);
    }
  }

  lemma {:induction false} PartitionFinds(starts: seq<nat>, idx: int, n: nat)
    requires n <= |starts| && (forall i :: 0 <= i < n ==> starts[i] <= idx) && (n < |starts| ==> idx < starts[n])
    ensures PartitionPoint(starts, idx) == n
  {
    if n > 0 {
      assert forall i :: 0 <= i < n - 1 ==> starts[1..][i] == starts[i + 1];
      assert n < |starts| ==> starts[1..][n - 1] == starts[n];
      PartitionFinds(starts[1..], idx, n - 1);
    }
  }

  /** `day_of` inverts `day_hours`: an hour of the series belongs to exactly the day whose
      range holds it. */
  lemma DayOfInverts(y: PriceYear, idx: int, d: int)
    requires Loaded(y) && 0 <= idx < |y.eurMwh|
    ensures DayOf(y, idx) == d <==> InDay(y, d, idx)
  {
    var found := DayHolding(y.dayStarts, |y.eurMwh|, idx, |y.dayStarts| - 1);
    DayFound(y, idx, found);
    if InDay(y, d, idx) { DayFound(y, idx, d); }
  }

  lemma DayFound(y: PriceYear, idx: int, d: int)
    requires Loaded(y) && InDay(y, d, idx)
    ensures DayOf(y, idx) == d
  {
    forall i | 0 <= i < d + 1
      ensures y.dayStarts[i] <= idx
    {
      StartsRise(y.dayStarts, |y.eurMwh|, i, d);
    }
    PartitionFinds(y.dayStarts, idx, d + 1);
  }

  lemma {:induction false} DayHolding(starts: seq<nat>, hours: nat, idx: int, k: nat) returns (d: nat)
    requires TableOk(starts, hours) && k < |starts| && 0 <= idx < starts[k]
    ensures d < k && starts[d] <= idx < starts[d + 1]
  {
    if starts[k - 1] <= idx {
      d := k - 1;
    } else {
      d := DayHolding(starts, hours, idx, k - 1);
    }
  }

  /** Lookup is in bounds exactly on a year that has hours. */
  lemma LookupInBounds(y: PriceYear, utcHour: int)
    requires Loaded(y)
    ensures (IndexAtUtcHour(y, utcHour).Some? <==> |y.eurMwh| > 0)
    ensures IndexAtUtcHour(y, utcHour).Some? ==>
      var idx := IndexAtUtcHour(y, utcHour).value;
      0 <= idx < |y.eurMwh| && InDay(y, DayOf(y, idx), idx)
  {
    if |y.eurMwh| > 0 {
      DayOfInverts(y, (utcHour + y.offsetH) % |y.eurMwh|, DayOf(y, (utcHour + y.offsetH) % |y.eurMwh|));
    }
  }

  /** The slot an hour reads is the one congruent to it past the offset, so that hours follow
      one another through the series and wrap at its end. */
  lemma LookupIs(y: PriceYear, utcHour: int, idx: int)
    requires |y.eurMwh| > 0
    ensures IndexAtUtcHour(y, utcHour) == Some(idx) <==>
      0 <= idx < |y.eurMwh| && (utcHour + y.offsetH - idx) % |y.eurMwh| == 0
  {
    Congruent(utcHour + y.offsetH, idx, |y.eurMwh|);
  }

  lemma Congruent(h: int, idx: int, n: nat)
    requires n > 0
    ensures h % n == idx <==> 0 <= idx < n && (h - idx) % n == 0
  {
    var q, k, r := h / n, (h - idx) / n, (h - idx) % n;
    QuotientOf(h, n);
    QuotientOf(h - idx, n);
    if 0 <= idx < n && r == 0 { SameRest(q, k, h % n, idx, n); }
    if h % n == idx { SameRest(q, k, 0, r, n); }
  }

  lemma QuotientOf(h: int, n: nat)
    requires n > 0
    ensures h == h / n * n + h % n && 0 <= h % n < n
  {}

  /** Quotient and remainder are unique. */
  lemma SameRest(q: int, k: int, a: int, b: int, n: nat)
    requires 0 <= a < n && 0 <= b < n && q * n + a == k * n + b
    ensures a == b
  {
    var d := k - q;
    assert d * n == a - b by { assert (k - q) * n == k * n - q * n; }
    Negated(d, n);
    if 0 < d { NotBelow(d, n); }
    if d < 0 { NotBelow(-d, n); }
  }

  lemma Negated(d: int, n: nat)
    ensures -d * n == -(d * n)
  {}

  lemma NotBelow(d: int, n: nat)
    requires 0 < d
    ensures n <= d * n
  {
    assert d * n == (d - 1) * n + n;
    NonNegative(d - 1, n);
  }

  lemma NonNegative(x: nat, n: nat)
    ensures 0 <= x * n
  {}

  /** A table of no days over a series of no hours is accepted, and has no lookup. */
  lemma EmptyYearLoads(utcHour: int)
    ensures var y := PriceYear(2024, 1, [], [0]); Loaded(y) && IndexAtUtcHour(y, utcHour) == None
  {}
}
