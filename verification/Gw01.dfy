/** The reference site GW-01: its parameters, and the tree a run starts from. */
module Gw01 {
  import opened Reals
  import opened State
  import opened Words
  import opened Log
  import opened Derate
  import opened Ocv
  import opened Cell
  import opened Bms
  import opened Converter
  import opened Thermal
  import opened CoolingLaws
  import opened Substations
  import opened Plants
  import opened TickLaws
  import opened SiteLaws

  const RACK := RackConfig(416.0, 314.0, 3.2, 314.0, 0.05, 0.95)

  const BALANCING := Balancing(0.0001, 0.018 / (30.0 * 86400.0), 0.24, 0.5, 0.90, 0.030, 0.020, 1.0)

  const RACK_THRESHOLDS := RackThresholds(
    Band(50.0, 47.0), 60.0, Band(0.0, 2.0), -30.0, 0.01, Band(0.120, 0.100), 0.500, Band(0.98, 0.995))

  const THERMAL := LumpedThermal(
    2800000.0, 2330000.0, 900.0, 500.0, 0.026, 56000.0, 26.0, 23.5, 29.0, 26.5, 3.0, 13000.0, 10.0, 15.0,
    1200.0, 200.0, 180.0, 180.0)

  const THRESHOLDS := BlockSiteThresholds(Band(0.02, 0.01), 10.0, Band(40.0, 37.0), Band(0.02, 0.01))

  /** The default bundle, over a square root, two temperature tables and a plan. */
  function Bundle(sqrt: real -> real, charge: TempCurve, discharge: TempCurve, plan: int -> real): Plant {
    OcvTableIsIncreasing();
    Plant(RACK, 5000000.0, 100000000.0,
          Ecm1Rc(0.28, 0.06, 30.0, OcvTable(), sqrt),
          BasicBms(0.03, charge, discharge, BALANCING, RACK_THRESHOLDS),
          CurvePcs(5000000.0, 0.002464096, -0.001402627, 0.02144562, 1000.0, sqrt),
          THERMAL,
          InventoryAux(71.8, 339.8, 15000.0, 10000.0),
          SimpleGrid(100000000.0, 100000.0, 600000.0),
          THRESHOLDS, 30.0, plan)
  }

  /** What every run law assumes of the models holds of the reference site's. */
  lemma ParametersAreSound(sqrt: real -> real, charge: TempCurve, discharge: TempCurve, plan: int -> real)
    requires IsSqrt(sqrt)
    ensures Sound(Bundle(sqrt, charge, discharge, plan))
  {
    ReferencePcsIsSound(5000000.0, sqrt);
    hide PcsSound, IsSqrt;
  }

  /** The bands of the reference site are in the order the band laws ask for. */
  lemma BandsAreOrdered(sqrt: real -> real, charge: TempCurve, discharge: TempCurve, plan: int -> real)
    ensures var pl := Bundle(sqrt, charge, discharge, plan);
      BandsOrdered(pl.thermal) && StartsAbove(pl.thermal)
      && pl.bms.balancing.dvStopV < pl.bms.balancing.dvStartV
  {}

  /** A rack as a new tree has it: the draws anywhere in their ranges. */
  predicate FreshRack(r: Rack) {
    && 0.0 <= r.soc <= 1.0 && 0.97 <= r.resistanceScale <= 1.03 && 0.002 <= r.cellDsoc <= 0.006
    && r.currentA == 0.0 && r.polarizationV == 0.0 && r.alarms == {} && r.selfDischargeExcess == 0.0
  }

  predicate FreshSite(s: Site) {
    && (forall b <- s.blocks :: b.alarms == {} && forall c <- b.containers, r <- c.racks :: FreshRack(r))
    && s.alarms == {} && s.pending == [] && s.substation.breaker == Closed && s.ems.blocksReleased == |s.blocks|
  }

  lemma FreshRackIsGood(pl: Plant, r: Rack)
    requires pl.rackCfg == RACK && pl.cell.r1 == 0.06 && pl.cell.curve == OcvTable() && FreshRack(r)
    ensures RackGood(pl, r)
  {
    assert R1(pl.cell, r.resistanceScale) == 0.06 * r.resistanceScale;
    assert PolarizationBound(pl.cell, r.resistanceScale, RACK) == 314.0 * (0.06 * r.resistanceScale);
    assert LowestOcvV(pl.cell, RACK) == 2.90 * 416.0;
  }

  /** A new tree satisfies the invariant of every run, whatever its size and its draws. */
  lemma FreshTreeIsGood(sqrt: real -> real, charge: TempCurve, discharge: TempCurve, plan: int -> real, s: Site)
    requires FreshSite(s)
    ensures Inv(Bundle(sqrt, charge, discharge, plan), s) && s.pending == []
  {
    var pl := Bundle(sqrt, charge, discharge, plan);
    hide RackGood, FreshRack;
    forall b <- s.blocks, c <- b.containers, r <- c.racks
      ensures RackGood(pl, r)
    {
      FreshRackIsGood(pl, r);
    }
    forall b | 0 <= b < |s.blocks|
      ensures BlockWordsOk(s.blocks[b])
    {
      assert s.blocks[b] in s.blocks;
      FreshWords(s.blocks[b]);
    }
    hide Bundle;
  }

  lemma FreshWords(b: Block)
    requires b.alarms == {} && forall c <- b.containers, r <- c.racks :: FreshRack(r)
    ensures BlockWordsOk(b)
  {
    forall c, r | 0 <= c < |b.containers| && 0 <= r < |b.containers[c].racks|
      ensures WordOk(b.containers[c].racks[r].alarms)
    {
      var container := b.containers[c];
      assert container in b.containers && container.racks[r] in container.racks;
      assert FreshRack(container.racks[r]);
    }
  }

  /** Heating can be delayed: at 10 C, where heating is asked for, a unit that has just
      started cooling keeps cooling for its three minutes, and heats from the 182nd tick. A
      unit whose timer has run out heats from the second. */
  lemma HeatingCanWait(trace: seq<Moment>, holdS: real, k: nat)
    requires (forall x <- trace :: x == Moment(10.0, false)) && 1 <= k <= |trace| && (holdS == 180.0 || holdS == 0.0)
    ensures At(THERMAL, Hvac(Cool1, holdS, 0.0, 0.0, false), trace, 1.0, k).mode == Heat
       <==> (if holdS == 180.0 then 182 else 2) <= k
  {
    hide At, TicksIn;
    TicksInWhole(180);
    TicksInWhole(0);
    HeatingComes(THERMAL, Hvac(Cool1, holdS, 0.0, 0.0, false), trace, 1.0, k);
  }

  lemma TicksInWhole(n: nat)
    ensures TicksIn(n as real, 1.0) == n
  {
    Covers(n as real, 1.0, n);
    hide TicksIn;
  }
}
