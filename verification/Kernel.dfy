/** The tick as a function of the tree: EMS, allocation, blocks, auxiliaries,
    substation, alarm words. */
module Kernel {
  import opened Reals
  import opened State
  import opened Words
  import opened Log
  import opened Bms
  import opened Converter
  import opened Substations
  import opened Plants

  datatype Inputs = Inputs(weather: Weather)

  // ----- The staged return ---------------------------------------------------------------

  predicate Dispatchable(b: Block, index: nat, ems: Ems, connected: bool) {
    connected && b.mode == InService && b.pcs.opState != Fault && index < ems.blocksReleased
  }

  function StartOver(ems: Ems): Ems {
    ems.(blocksReleased := 0, nextReleaseS := 0.0)
  }

  function Active(blocks: seq<Block>, ems: Ems, connected: bool, k: nat): nat
    requires k <= |blocks|
  {
    if k == 0 then 0
    else Active(blocks, ems, connected, k - 1) + (if Dispatchable(blocks[k - 1], k - 1, ems, connected) then 1 else 0)
  }

  function ShareW(blocks: seq<Block>, ems: Ems, connected: bool, target: real): real {
    var n := Active(blocks, ems, connected, |blocks|);
    if n == 0 then 0.0 else target / n as real
  }

  /** One tick of the return: release the next block when its time has come. */
  function Release(ems: Ems, blocks: nat, spacing: real, dt: real): Ems {
    if blocks <= ems.blocksReleased then ems else
      var next := if ems.nextReleaseS <= 0.0
        then ems.(blocksReleased := ems.blocksReleased + 1, nextReleaseS := spacing) else ems;
      if next.blocksReleased < blocks then next.(nextReleaseS := next.nextReleaseS - dt)
      else next.(nextReleaseS := 0.0)
  }

  // ----- The stages of a tick -----------------------------------------------------------------

  predicate Connected(s: Site) {
    s.substation.breaker == Closed
  }

  function TargetW(pl: Plant, s: Site): real {
    var raw := if !Connected(s) then 0.0
      else if s.ems.mode == External then s.ems.externalSetpointW
      else pl.plan(s.UnixTimeS());
    var rated: real := pl.siteRatedW;
    Clamp(raw, -rated, rated)
  }

  /** The plant controller after target and release, ahead of the blocks. */
  function EmsTick(pl: Plant, s: Site): Ems {
    var ems := s.ems.(siteSetpointW := TargetW(pl, s));
    if Connected(s) then Release(ems, |s.blocks|, pl.spacingS, TICK) else ems
  }

  function SiteShareW(pl: Plant, s: Site): real {
    ShareW(s.blocks, EmsTick(pl, s), Connected(s), TargetW(pl, s))
  }

  predicate InSet(pl: Plant, s: Site, k: nat)
    requires k < |s.blocks|
  {
    Dispatchable(s.blocks[k], k, EmsTick(pl, s), Connected(s))
  }

  /** The power each rack of a block is asked for in a tick of the site. */
  function ShareOf(pl: Plant, s: Site, b: nat): real
    requires b < |s.blocks|
  {
    PerRackW(pl, s.blocks[b], InSet(pl, s, b), SiteShareW(pl, s))
  }

  function NextBlock(pl: Plant, s: Site, weather: Weather, k: nat): Block
    requires k < |s.blocks|
  {
    BlockTick(pl, s.blocks[k], InSet(pl, s, k), SiteShareW(pl, s), weather)
  }

  function NextBlocks(pl: Plant, s: Site, weather: Weather, k: nat): (r: seq<Block>)
    requires k <= |s.blocks|
    ensures |r| == k
  {
    if k == 0 then [] else NextBlocks(pl, s, weather, k - 1) + [NextBlock(pl, s, weather, k - 1)]
  }

  lemma {:induction false} NextBlocksAt(pl: Plant, s: Site, weather: Weather, k: nat, i: nat)
    requires i < k <= |s.blocks|
    ensures NextBlocks(pl, s, weather, k)[i] == NextBlock(pl, s, weather, i)
  {
    hide NextBlock;
    if i < k - 1 { NextBlocksAt(pl, s, weather, k - 1, i); }
  }

  /** Battery heat of the first k blocks during the tick. */
  function SiteHeatW(pl: Plant, s: Site, k: nat): real
    requires k <= |s.blocks|
  {
    if k == 0 then 0.0 else
      var b := s.blocks[k - 1];
      SiteHeatW(pl, s, k - 1)
      + HeatW(pl, b.containers, PerRackW(pl, b, InSet(pl, s, k - 1), SiteShareW(pl, s)), |b.containers|)
  }

  function SiteCapabilityW(pl: Plant, s: Site, k: nat): Limits
    requires k <= |s.blocks|
  {
    if k == 0 then Limits(0.0, 0.0)
    else AddLimits(SiteCapabilityW(pl, s, k - 1), CapabilityW(pl, s.blocks[k - 1], InSet(pl, s, k - 1)))
  }

  function SumAcW(blocks: seq<Block>, k: nat): real
    requires k <= |blocks|
  {
    if k == 0 then 0.0 else SumAcW(blocks, k - 1) + blocks[k - 1].pcs.acW
  }

  function SumLossW(blocks: seq<Block>, k: nat): real
    requires k <= |blocks|
  {
    if k == 0 then 0.0 else SumLossW(blocks, k - 1) + blocks[k - 1].pcs.lossW
  }

  function SumHvacW(blocks: seq<Block>, k: nat): real
    requires k <= |blocks|
  {
    if k == 0 then 0.0 else SumHvacW(blocks, k - 1) + HvacW(blocks[k - 1].containers, |blocks[k - 1].containers|)
  }

  /** Converters energized and not converting; a maintained unit is switched off. */
  function NotConverting(blocks: seq<Block>, k: nat): nat
    requires k <= |blocks|
  {
    if k == 0 then 0
    else NotConverting(blocks, k - 1)
         + (if blocks[k - 1].pcs.opState != Run && blocks[k - 1].mode == InService then 1 else 0)
  }

  function RackCount(blocks: seq<Block>, k: nat): nat
    requires k <= |blocks|
  {
    if k == 0 then 0 else RackCount(blocks, k - 1) + RacksIn(blocks[k - 1].containers, |blocks[k - 1].containers|)
  }

  function RacksIn(cs: seq<Container>, k: nat): nat
    requires k <= |cs|
  {
    if k == 0 then 0 else RacksIn(cs, k - 1) + |cs[k - 1].racks|
  }

  function AuxTick(pl: Plant, blocks: seq<Block>): AuxPower {
    AuxPower(SumHvacW(blocks, |blocks|), pl.aux.bmsPerRackW * RackCount(blocks, |blocks|) as real,
             pl.aux.pcsStandbyW * NotConverting(blocks, |blocks|) as real,
             pl.aux.controlsW, pl.aux.lightingAndSafetyW)
  }

  function AuxTotalW(a: AuxPower): real {
    a.hvacW + a.bmsW + a.pcsStandbyW + a.controlsW + a.lightingAndSafetyW
  }

  /** The item meters after one more step of draw. */
  function Accumulate(e: AuxPower, p: AuxPower, dt: real): AuxPower {
    AuxPower(e.hvacW + Wh(p.hvacW, dt), e.bmsW + Wh(p.bmsW, dt), e.pcsStandbyW + Wh(p.pcsStandbyW, dt),
             e.controlsW + Wh(p.controlsW, dt), e.lightingAndSafetyW + Wh(p.lightingAndSafetyW, dt))
  }

  // ----- The site word ---------------------------------------------------------------------------

  const POWER_LIMITED := 0
  const PARTIAL_AVAILABILITY := 1
  const HV_BREAKER_OPEN := 2
  const PROTECTION_TRIP := 8

  /** Delivered power short of the setpoint, as a share of the rating. */
  function Shortfall(pl: Plant, setpoint: real, delivered: real): real {
    Max(if 0.0 <= setpoint then setpoint - delivered else delivered - setpoint, 0.0) / pl.siteRatedW
  }

  predicate SomeOut(blocks: seq<Block>, ems: Ems, connected: bool) {
    || (exists k :: 0 <= k < |blocks| && !Dispatchable(blocks[k], k, ems, connected))
    || (exists b <- blocks, c <- b.containers, r <- c.racks :: !r.inService)
  }

  function SiteSettings(pl: Plant, w: Word, blocks: seq<Block>, ems: Ems, breaker: Breaker): (r: seq<(int, bool)>)
    ensures forall s <- r :: 0 <= s.0 < 8
  {
    [(POWER_LIMITED, Rising(POWER_LIMITED in w, Shortfall(pl, ems.siteSetpointW, SumAcW(blocks, |blocks|)),
        pl.thresholds.siteShortfall)),
     (PARTIAL_AVAILABILITY, SomeOut(blocks, ems, breaker == Closed)),
     (HV_BREAKER_OPEN, breaker == Open)]
  }

  function SiteWord(pl: Plant, w: Word, blocks: seq<Block>, ems: Ems, breaker: Breaker): Word {
    WithBits(w, SiteSettings(pl, w, blocks, ems, breaker))
  }

  // ----- The tick ----------------------------------------------------------------------------------

  /** The plant controller at the end of a tick. */
  function EmsAfter(pl: Plant, s: Site): Ems {
    var capability := SiteCapabilityW(pl, s, |s.blocks|);
    EmsTick(pl, s).(availableDischargeW := capability.dischargeW, availableChargeW := capability.chargeW)
  }

  /** The site word at the end of a tick. */
  function AlarmsAfter(pl: Plant, s: Site, blocks: seq<Block>): Word {
    SiteWord(pl, s.alarms, blocks, EmsAfter(pl, s), s.substation.breaker)
  }

  /** The loss and consumption meters after a tick. */
  function EnergyAfter(pl: Plant, s: Site, blocks: seq<Block>, aux: AuxPower, sub: Substation): Energy {
    Energy(s.energy.batteryLossWh + Wh(SiteHeatW(pl, s, |s.blocks|), TICK),
           s.energy.pcsLossWh + Wh(SumLossW(blocks, |blocks|), TICK),
           s.energy.transformerLossWh + Wh(sub.transformerLossW, TICK),
           s.energy.auxWh + Wh(sub.auxW, TICK),
           Accumulate(s.energy.auxItems, aux, TICK))
  }

  /** The tree after one tick. */
  function Tick(pl: Plant, s: Site, inputs: Inputs): Site {
    var blocks := NextBlocks(pl, s, inputs.weather, |s.blocks|);
    var aux := AuxTick(pl, blocks);
    var substation := SubstationTick(pl.grid, s.substation, SumAcW(blocks, |blocks|), AuxTotalW(aux), TICK,
        s.UnixTimeS() + 1);
    s.(tick := s.tick + 1, weather := inputs.weather, ems := EmsAfter(pl, s), substation := substation, aux := aux,
       energy := EnergyAfter(pl, s, blocks, aux, substation), blocks := blocks,
       alarms := AlarmsAfter(pl, s, blocks),
       eventCount := s.eventCount + |Emitted(pl, s, inputs)|, pending := [])
  }

  /** The events a tick hands out: what was pending, then what it changed. */
  function Emitted(pl: Plant, s: Site, inputs: Inputs): seq<Event> {
    var blocks := NextBlocks(pl, s, inputs.weather, |s.blocks|);
    TickKeepsShape(pl, s, inputs.weather);
    s.pending + SiteDiff(s.blocks, s.alarms, blocks, AlarmsAfter(pl, s, blocks))
  }

  lemma TickKeepsShape(pl: Plant, s: Site, weather: Weather)
    ensures SameShape(s.blocks, NextBlocks(pl, s, weather, |s.blocks|))
  {
    hide BlockWord, PerRackW, DcW, Finalize, MissS, ContainersTick, NextBlocks, SameRacks;
    forall b | 0 <= b < |s.blocks|
      ensures SameRacks(s.blocks[b].containers, NextBlocks(pl, s, weather, |s.blocks|)[b].containers)
    {
      NextBlocksAt(pl, s, weather, |s.blocks|, b);
      ContainersTickShape(pl, s.blocks[b].containers, PerRackW(pl, s.blocks[b], InSet(pl, s, b), SiteShareW(pl, s)),
          weather);
    }
  }
}
