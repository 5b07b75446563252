/** The day-ahead dispatch strategy: one plan per local day of the price year. */
module Planners {
  import opened Wrappers
  import opened Calendars
  import opened Prices
  import opened Plans

  datatype DayAheadEms = DayAheadEms(powerW: real, prices: PriceYear, plans: seq<DayPlan>)

  function DayPrices(y: PriceYear, d: nat): (r: seq<real>)
    requires Loaded(y) && d + 1 < |y.dayStarts|
    ensures 23 <= |r| <= 25 && |r| == y.dayStarts[d + 1] - y.dayStarts[d]
  {
    StartsRise(y.dayStarts, |y.eurMwh|, d, d + 1);
    StartsRise(y.dayStarts, |y.eurMwh|, d + 1, |y.dayStarts| - 1);
    assert 23 <= DayLength(y.dayStarts, d) <= 25;
    y.eurMwh[y.dayStarts[d]..y.dayStarts[d + 1]]
  }

  /** Plans of the first k local days. */
  function PlanDays(y: PriceYear, chargeHours: nat, dischargeHours: nat, k: nat): (r: seq<DayPlan>)
    requires Loaded(y) && k < |y.dayStarts|
    ensures |r| == k
  {
    if k == 0 then []
    else PlanDays(y, chargeHours, dischargeHours, k - 1) + [Rank(DayPrices(y, k - 1), chargeHours, dischargeHours)]
  }

  lemma {:induction false} PlanOf(y: PriceYear, chargeHours: nat, dischargeHours: nat, k: nat, d: nat)
    requires Loaded(y) && d < k < |y.dayStarts|
    ensures PlanDays(y, chargeHours, dischargeHours, k)[d] == Rank(DayPrices(y, d), chargeHours, dischargeHours)
  {
    hide Rank, DayPrices, Loaded;
    if d < k - 1 { PlanOf(y, chargeHours, dischargeHours, k - 1, d); }
  }

  function FromPriceYear(y: PriceYear, powerW: real, chargeHours: nat, dischargeHours: nat): DayAheadEms
    requires Loaded(y)
  {
    DayAheadEms(powerW, y, PlanDays(y, chargeHours, dischargeHours, |y.dayStarts| - 1))
  }

  /** The target of a plan in a slot. */
  function SlotTargetW(plan: DayPlan, powerW: real, slot: nat): real
    requires slot < 32
  {
    if Charges(plan, slot) then -powerW else if Discharges(plan, slot) then powerW else 0.0
  }

  /** The strategy's target; none when the lookup would leave the tables. */
  function SiteTargetW(ems: DayAheadEms, unix: int): Option<real> {
    match IndexAtUtcHour(ems.prices, ReferenceHour(unix, ems.prices.year))
    case None => None
    case Some(idx) =>
      var day := DayOf(ems.prices, idx);
      if !(0 <= day < |ems.plans| && day < |ems.prices.dayStarts|) then None else
        var slot := idx - ems.prices.dayStarts[day];
        if !(0 <= slot < 32) then None else Some(SlotTargetW(ems.plans[day], ems.powerW, slot))
  }

  lemma DayPricesAre(y: PriceYear, d: nat)
    requires Loaded(y) && d + 1 < |y.dayStarts|
    ensures y.dayStarts[d] + |DayPrices(y, d)| == y.dayStarts[d + 1] <= |y.eurMwh|
    ensures forall k :: 0 <= k < |DayPrices(y, d)| ==> DayPrices(y, d)[k] == y.eurMwh[y.dayStarts[d] + k]
  {
    StartsRise(y.dayStarts, |y.eurMwh|, d, d + 1);
    StartsRise(y.dayStarts, |y.eurMwh|, d + 1, |y.dayStarts| - 1);
  }

  /** The planner means what it says, for every timestamp and every loaded year that has
      hours: the lookup stays inside its tables, in the local day that holds the hour; the
      target is -P exactly when fewer than `chargeHours` slots of that day are cheaper, or
      as cheap and earlier; otherwise +P exactly when fewer than `dischargeHours` are
      dearer, or as dear and earlier; and 0 otherwise. */
  lemma TargetMeans(y: PriceYear, powerW: real, chargeHours: nat, dischargeHours: nat, unix: int)
    returns (day: nat, slot: nat)
    requires Loaded(y) && |y.eurMwh| > 0
    ensures day + 1 < |y.dayStarts| && slot < |DayPrices(y, day)|
    ensures IndexAtUtcHour(y, ReferenceHour(unix, y.year)) == Some(y.dayStarts[day] + slot)
    ensures y.dayStarts[day] + |DayPrices(y, day)| == y.dayStarts[day + 1] <= |y.eurMwh|
    ensures forall k :: 0 <= k < |DayPrices(y, day)| ==> DayPrices(y, day)[k] == y.eurMwh[y.dayStarts[day] + k]
    ensures var prices := DayPrices(y, day);
      SiteTargetW(FromPriceYear(y, powerW, chargeHours, dischargeHours), unix)
      == Some(if |RankAhead(prices, false, slot)| < chargeHours then -powerW
              else if |RankAhead(prices, true, slot)| < dischargeHours then powerW
              else 0.0)
  {
    hide ReferenceHour, Rank, Charges, Discharges, RankAhead, PartitionPoint, TableOk;
    var hour := ReferenceHour(unix, y.year);
    LookupInBounds(y, hour);
    var idx := IndexAtUtcHour(y, hour).value;
    day := DayOf(y, idx);
    DayPricesAre(y, day);
    PlanOf(y, chargeHours, dischargeHours, |y.dayStarts| - 1, day);
    slot := idx - y.dayStarts[day];
    RankMeans(DayPrices(y, day), chargeHours, dischargeHours, slot);
  }

  function Hours(y: PriceYear, d: nat): nat
    requires Loaded(y) && d + 1 < |y.dayStarts|
  {
    |DayPrices(y, d)|
  }

  /** Two local days charge in the same number of slots exactly when no more are asked for
      than the shorter of them has, or they are equally long: so on every day, clock-change
      days included, up to 23, and not beyond. */
  lemma SameChargeEveryDay(y: PriceYear, chargeHours: nat, dischargeHours: nat, d: nat, e: nat)
    requires Loaded(y) && d + 1 < |y.dayStarts| && e + 1 < |y.dayStarts|
    ensures |ChargeSlots(DayPrices(y, d), chargeHours, dischargeHours)|
        == |ChargeSlots(DayPrices(y, e), chargeHours, dischargeHours)|
       <==> chargeHours <= Least(Hours(y, d), Hours(y, e)) || Hours(y, d) == Hours(y, e)
    ensures chargeHours <= 23 ==> |ChargeSlots(DayPrices(y, d), chargeHours, dischargeHours)| == chargeHours
  {
    ChargeCount(DayPrices(y, d), chargeHours, dischargeHours);
    ChargeCount(DayPrices(y, e), chargeHours, dischargeHours);
    hide ChargeSlots;
  }

  /** Discharge counts are the same on two days with a spread under the same condition; a
      day without one sells less than it was asked to (`Plans.DischargesInFull`). */
  lemma SameDischargeOnSpreads(y: PriceYear, chargeHours: nat, dischargeHours: nat, d: nat, e: nat)
    requires Loaded(y) && d + 1 < |y.dayStarts| && e + 1 < |y.dayStarts|
    requires Spread(DayPrices(y, d), chargeHours, dischargeHours)
    ensures |DischargeSlots(DayPrices(y, d), chargeHours, dischargeHours)| == Least(dischargeHours, Hours(y, d))
    ensures !Spread(DayPrices(y, e), chargeHours, dischargeHours) ==>
      |DischargeSlots(DayPrices(y, e), chargeHours, dischargeHours)| < Least(dischargeHours, Hours(y, e))
    ensures Spread(DayPrices(y, e), chargeHours, dischargeHours) ==>
      (|DischargeSlots(DayPrices(y, d), chargeHours, dischargeHours)|
          == |DischargeSlots(DayPrices(y, e), chargeHours, dischargeHours)|
       <==> dischargeHours <= Least(Hours(y, d), Hours(y, e)) || Hours(y, d) == Hours(y, e))
  {
    DischargesInFull(DayPrices(y, d), chargeHours, dischargeHours);
    DischargesInFull(DayPrices(y, e), chargeHours, dischargeHours);
    DischargeCount(DayPrices(y, e), chargeHours, dischargeHours);
    hide DischargeSlots, Spread, First;
  }

  /** The counts do differ where they are asked past the shortest day: 24 charging hours
      are 23 on a spring day. */
  lemma SpringDayChargesLess(y: PriceYear, dischargeHours: nat, spring: nat, plain: nat)
    requires Loaded(y) && spring + 1 < |y.dayStarts| && plain + 1 < |y.dayStarts|
    requires Hours(y, spring) == 23 && Hours(y, plain) == 24
    ensures |ChargeSlots(DayPrices(y, spring), 24, dischargeHours)| == 23
    ensures |ChargeSlots(DayPrices(y, plain), 24, dischargeHours)| == 24
  {
    ChargeCount(DayPrices(y, spring), 24, dischargeHours);
    ChargeCount(DayPrices(y, plain), 24, dischargeHours);
    hide ChargeSlots;
  }
}
