/** A cause the operator reset hands back at the reference site, and that the next tick
    does not raise again. */
module Gw01Reset {
  import opened State
  import opened Log
  import opened Derate
  import opened Cell
  import opened Bms
  import opened Plants
  import opened Kernel
  import opened Commands
  import opened Causes
  import opened Runs
  import opened ReraiseLaws
  import opened Gw01
  import opened Gw01Heat

  /** An isolated rack at the trip temperature to the degree, its trip latched. */
  const HOT := START.(inService := false, cellTempC := 60.0, alarms := {OVER_TEMP_TRIP})

  const HOT_BOX := SITE.blocks[0].containers[0].(racks := [HOT])

  const HOT_SITE := SITE.(blocks := [SITE.blocks[0].(containers := [HOT_BOX])])

  /** Out of service and unbled, the rack makes no heat. */
  lemma HotMakesNone(pl: Plant, rack: Rack, perRack: real)
    requires !rack.inService
    ensures RackHeatW(pl, rack, perRack) == 0.0
    ensures var next := RackStepped(pl, rack, perRack).0;
      next.cellTempC == rack.cellTempC && next.tempOffsetC == rack.tempOffsetC
  {
    hide RelaxedV, OcvRackV, GrownDsoc, SpreadV;
  }

  /** In 25 C air it falls under the trip temperature within the tick. */
  lemma HotCools(pl: Plant, c: Container, perRack: real)
    requires pl.thermal == THERMAL && pl.bms.thresholds == RACK_THRESHOLDS
    requires c.racks == [ResetRack(HOT)] && c.airTempC == 25.0
    ensures !WillHold(pl, c, perRack, 0, OVER_TEMP_TRIP)
  {
    hide RackStepped, RackHeatW, Balanced;
    HotMakesNone(pl, c.racks[0], perRack);
  }

  lemma HotReset(pl: Plant)
    ensures var after := Exec(pl, HOT_SITE, OpApply(AlarmReset(SiteScope)));
      && HasRack(after.blocks, 0, 0, 0)
      && after.blocks[0].containers[0].racks == [ResetRack(HOT)] && after.blocks[0].containers[0].airTempC == 25.0
  {
    hide ResetSiteEvents;
    var after := Exec(pl, HOT_SITE, OpApply(AlarmReset(SiteScope)));
    assert after.blocks == ResetBlocks(HOT_SITE.blocks, 1);
    assert after.blocks[0].containers[0] == ResetContainer(HOT_BOX);
    assert ResetRacks([HOT], 1) == [ResetRack(HOT)];
  }

  /** That the causes handed back re-raise on the next tick fails: an isolated rack at
      exactly 60 C is on the list, and after the tick its trip is clear. */
  lemma StillNeedNotReraise(sqrt: real -> real, charge: TempCurve, discharge: TempCurve, plan: int -> real)
    ensures var pl := Bundle(sqrt, charge, discharge, plan);
      var after := Exec(pl, HOT_SITE, OpApply(AlarmReset(SiteScope)));
      && HasRack(HOT_SITE.blocks, 0, 0, 0) && HasRack(Tick(pl, after, CALM).blocks, 0, 0, 0)
      && (RackNode(0, 0, 0), OVER_TEMP_TRIP) in Still(pl, HOT_SITE, SiteScope)
      && OVER_TEMP_TRIP !in RackAt(Tick(pl, after, CALM), 0, 0, 0).alarms
  {
    var pl := Bundle(sqrt, charge, discharge, plan);
    assert pl.thermal == THERMAL && pl.bms.thresholds == RACK_THRESHOLDS;
    hide Bundle, Exec, Tick, Still, WillHold, ShareOf;
    var op := OpApply(AlarmReset(SiteScope));
    StillIsPresent(pl, HOT_SITE, SiteScope, 0, 0, 0, OVER_TEMP_TRIP);
    HotReset(pl);
    var after := Exec(pl, HOT_SITE, op);
    StillReraises(pl, HOT_SITE, op, SiteScope, CALM, 0, 0, 0, OVER_TEMP_TRIP);
    HotCools(pl, after.blocks[0].containers[0], ShareOf(pl, after, 0));
  }
}
