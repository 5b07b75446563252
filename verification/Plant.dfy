/** The model bundle, and one block through one tick. */
module Plants {
  import opened Reals
  import opened Wrappers
  import opened State
  import opened Words
  import opened Log
  import opened Cell
  import opened Bms
  import opened Converter
  import opened Thermal
  import opened Substations

  datatype BlockSiteThresholds = BlockSiteThresholds(
    setpointMiss: Band, setpointDeadbandS: real, containerAirC: Band, siteShortfall: Band)

  datatype InventoryAux = InventoryAux(
    bmsPerRackW: real, pcsStandbyW: real, controlsW: real, lightingAndSafetyW: real)

  /** Configuration and models. `plan` is the dispatch strategy, a function of the clock. */
  datatype Plant = Plant(
    rackCfg: RackConfig,
    pcsRatedW: Pos,
    siteRatedW: Pos,
    cell: Ecm1Rc,
    bms: BasicBms,
    pcs: CurvePcs,
    thermal: LumpedThermal,
    aux: InventoryAux,
    grid: SimpleGrid,
    thresholds: BlockSiteThresholds,
    spacingS: real,
    plan: int -> real)

  /** The fixed step of the kernel, `TICK_SECONDS`. */
  const TICK: Pos := 1.0

  // ----- One rack ----------------------------------------------------------------------

  /** A rack after the BMS step of a tick, which its limits read. */
  function Balanced(pl: Plant, rack: Rack): Rack {
    Balance(pl.bms.balancing, pl.cell.curve, rack, pl.rackCfg, TICK).0
  }

  function BleedHeatW(pl: Plant, rack: Rack): real {
    BleedW(Balance(pl.bms.balancing, pl.cell.curve, rack, pl.rackCfg, TICK).1, TICK)
  }

  function LimitsOf(pl: Plant, rack: Rack): Limits {
    RackLimits(pl.bms, Balanced(pl, rack), pl.rackCfg)
  }

  /** What a rack is asked for: its share inside its limits, nothing out of service. */
  function RequestW(pl: Plant, rack: Rack, perRack: real): real {
    if !rack.inService then 0.0
    else Clamp(perRack, -LimitsOf(pl, rack).chargeW, LimitsOf(pl, rack).dischargeW)
  }

  function RackStepped(pl: Plant, rack: Rack, perRack: real): (Rack, RackStep) {
    StepRack(pl.cell, Balanced(pl, rack), pl.rackCfg, RequestW(pl, rack, perRack), TICK)
  }

  function RackHeatW(pl: Plant, rack: Rack, perRack: real): real {
    RackStepped(pl, rack, perRack).1.heatW + BleedHeatW(pl, rack)
  }

  // ----- Rows of racks, prefix by prefix -------------------------------------------------

  function RackRow(pl: Plant, racks: seq<Rack>, perRack: real, k: nat): (r: seq<Rack>)
    requires k <= |racks|
    ensures |r| == k
  {
    if k == 0 then [] else RackRow(pl, racks, perRack, k - 1) + [RackStepped(pl, racks[k - 1], perRack).0]
  }

  function HeatRow(pl: Plant, racks: seq<Rack>, perRack: real, k: nat): (r: seq<real>)
    requires k <= |racks|
    ensures |r| == k
  {
    if k == 0 then [] else HeatRow(pl, racks, perRack, k - 1) + [RackHeatW(pl, racks[k - 1], perRack)]
  }

  function RowDcW(pl: Plant, racks: seq<Rack>, perRack: real, k: nat): real
    requires k <= |racks|
  {
    if k == 0 then 0.0 else RowDcW(pl, racks, perRack, k - 1) + RackStepped(pl, racks[k - 1], perRack).1.dcW
  }

  function RowHeatW(pl: Plant, racks: seq<Rack>, perRack: real, k: nat): real
    requires k <= |racks|
  {
    if k == 0 then 0.0 else RowHeatW(pl, racks, perRack, k - 1) + RackHeatW(pl, racks[k - 1], perRack)
  }

  function AddLimits(a: Limits, b: Limits): Limits {
    Limits(a.chargeW + b.chargeW, a.dischargeW + b.dischargeW)
  }

  function RowLimits(pl: Plant, racks: seq<Rack>, k: nat): Limits
    requires k <= |racks|
  {
    if k == 0 then Limits(0.0, 0.0) else AddLimits(RowLimits(pl, racks, k - 1), LimitsOf(pl, racks[k - 1]))
  }

  function RowInService(racks: seq<Rack>, k: nat): nat
    requires k <= |racks|
  {
    if k == 0 then 0 else RowInService(racks, k - 1) + (if racks[k - 1].inService then 1 else 0)
  }

  function WithAlarms(pl: Plant, rack: Rack): Rack {
    rack.(alarms := RackAlarms(pl.bms, rack, pl.rackCfg))
  }

  /** The first k racks with their alarm words evaluated. */
  function Alarmed(pl: Plant, racks: seq<Rack>, k: nat): (r: seq<Rack>)
    requires k <= |racks|
    ensures |r| == k
  {
    if k == 0 then [] else Alarmed(pl, racks, k - 1) + [WithAlarms(pl, racks[k - 1])]
  }

  lemma {:induction false} RackRowAt(pl: Plant, racks: seq<Rack>, perRack: real, k: nat, i: nat)
    requires i < k <= |racks|
    ensures RackRow(pl, racks, perRack, k)[i] == RackStepped(pl, racks[i], perRack).0
  {
    hide RackStepped;
    if i < k - 1 { RackRowAt(pl, racks, perRack, k - 1, i); }
  }

  lemma {:induction false} HeatRowAt(pl: Plant, racks: seq<Rack>, perRack: real, k: nat, i: nat)
    requires i < k <= |racks|
    ensures HeatRow(pl, racks, perRack, k)[i] == RackHeatW(pl, racks[i], perRack)
  {
    hide RackHeatW;
    if i < k - 1 { HeatRowAt(pl, racks, perRack, k - 1, i); }
  }

  lemma {:induction false} AlarmedAt(pl: Plant, racks: seq<Rack>, k: nat, i: nat)
    requires i < k <= |racks|
    ensures Alarmed(pl, racks, k)[i] == WithAlarms(pl, racks[i])
  {
    hide WithAlarms;
    if i < k - 1 { AlarmedAt(pl, racks, k - 1, i); }
  }

  // ----- Containers ------------------------------------------------------------------------

  /** One container: racks, then heat, then the rack words that read the result. */
  function ContainerTick(pl: Plant, c: Container, perRack: real, weather: Weather): Container {
    var heated := StepContainer(pl.thermal, c.(racks := RackRow(pl, c.racks, perRack, |c.racks|)),
                                HeatRow(pl, c.racks, perRack, |c.racks|), weather, TICK);
    heated.(racks := Alarmed(pl, heated.racks, |heated.racks|))
  }

  function ContainersTick(pl: Plant, cs: seq<Container>, perRack: real, weather: Weather, k: nat): (r: seq<Container>)
    requires k <= |cs|
    ensures |r| == k
  {
    if k == 0 then []
    else ContainersTick(pl, cs, perRack, weather, k - 1) + [ContainerTick(pl, cs[k - 1], perRack, weather)]
  }

  lemma {:induction false} ContainersTickAt(pl: Plant, cs: seq<Container>, perRack: real, weather: Weather, k: nat,
      i: nat)
    requires i < k <= |cs|
    ensures ContainersTick(pl, cs, perRack, weather, k)[i] == ContainerTick(pl, cs[i], perRack, weather)
  {
    hide ContainerTick;
    if i < k - 1 { ContainersTickAt(pl, cs, perRack, weather, k - 1, i); }
  }

  lemma ContainersTickShape(pl: Plant, cs: seq<Container>, perRack: real, weather: Weather)
    ensures SameRacks(cs, ContainersTick(pl, cs, perRack, weather, |cs|))
  {
    forall i | 0 <= i < |cs|
      ensures |ContainersTick(pl, cs, perRack, weather, |cs|)[i].racks| == |cs[i].racks|
    {
      hide RackRow, HeatRow, Alarmed, StepHvac;
      ContainersTickAt(pl, cs, perRack, weather, |cs|, i);
      hide ContainersTick;
    }
  }

  function DcW(pl: Plant, cs: seq<Container>, perRack: real, k: nat): real
    requires k <= |cs|
  {
    if k == 0 then 0.0 else DcW(pl, cs, perRack, k - 1) + RowDcW(pl, cs[k - 1].racks, perRack, |cs[k - 1].racks|)
  }

  function HeatW(pl: Plant, cs: seq<Container>, perRack: real, k: nat): real
    requires k <= |cs|
  {
    if k == 0 then 0.0 else HeatW(pl, cs, perRack, k - 1) + RowHeatW(pl, cs[k - 1].racks, perRack, |cs[k - 1].racks|)
  }

  function HvacW(cs: seq<Container>, k: nat): real
    requires k <= |cs|
  {
    if k == 0 then 0.0 else HvacW(cs, k - 1) + cs[k - 1].hvac.electricalW
  }

  function DcLimits(pl: Plant, cs: seq<Container>, k: nat): Limits
    requires k <= |cs|
  {
    if k == 0 then Limits(0.0, 0.0)
    else AddLimits(DcLimits(pl, cs, k - 1), RowLimits(pl, cs[k - 1].racks, |cs[k - 1].racks|))
  }

  function InServiceCount(cs: seq<Container>, k: nat): nat
    requires k <= |cs|
  {
    if k == 0 then 0 else InServiceCount(cs, k - 1) + RowInService(cs[k - 1].racks, |cs[k - 1].racks|)
  }

  // ----- Blocks ---------------------------------------------------------------------------------

  /** The AC target of a block: its share inside the dispatchable set, nothing outside. */
  function BlockTargetW(inSet: bool, share: real): real {
    if inSet then share else 0.0
  }

  function DcRequest(pl: Plant, b: Block, inSet: bool, share: real): real {
    DcRequestW(pl.pcs, BlockTargetW(inSet, share), DcLimits(pl, b.containers, |b.containers|))
  }

  /** The even split of the DC request over the racks in service. */
  function PerRackW(pl: Plant, b: Block, inSet: bool, share: real): real {
    var n := InServiceCount(b.containers, |b.containers|);
    if n == 0 then 0.0 else DcRequest(pl, b, inSet, share) / n as real
  }

  function CapabilityW(pl: Plant, b: Block, inSet: bool): Limits {
    if inSet then AcCapability(pl.pcs, DcLimits(pl, b.containers, |b.containers|)) else Limits(0.0, 0.0)
  }

  const SETPOINT_NOT_MET := 0
  const CONTAINER_OVER_TEMP := 1
  const HVAC_FAILURE := 2
  const MAINTENANCE := 3
  const PCS_FAULT := 8

  /** Warmest air of the first k containers; none when there is none. */
  function AirMax(cs: seq<Container>, k: nat): Option<real>
    requires k <= |cs|
  {
    if k == 0 then None else
      var before := AirMax(cs, k - 1);
      Some(if before.Some? then Max(before.value, cs[k - 1].airTempC) else cs[k - 1].airTempC)
  }

  /** The setpoint-miss timer after a tick. */
  function MissS(pl: Plant, b: Block): real {
    var miss := Abs(b.pcs.setpointW - b.pcs.acW) / pl.pcsRatedW;
    if pl.thresholds.setpointMiss.raise <= miss then b.setpointMissS + TICK else 0.0
  }

  function BlockSettings(pl: Plant, b: Block): (r: seq<(int, bool)>)
    ensures forall s <- r :: 0 <= s.0 < 16
  {
    var miss := Abs(b.pcs.setpointW - b.pcs.acW) / pl.pcsRatedW;
    var notMet := if SETPOINT_NOT_MET in b.alarms then pl.thresholds.setpointMiss.clear < miss
                  else pl.thresholds.setpointDeadbandS <= MissS(pl, b);
    var air := AirMax(b.containers, |b.containers|);
    [(SETPOINT_NOT_MET, notMet),
     (CONTAINER_OVER_TEMP, air.Some? && Rising(CONTAINER_OVER_TEMP in b.alarms, air.value,
         pl.thresholds.containerAirC)),
     (HVAC_FAILURE, exists c <- b.containers :: c.hvac.failed),
     (MAINTENANCE, b.mode == Maintenance),
     (PCS_FAULT, b.pcs.opState == Fault)]
  }

  function BlockWord(pl: Plant, b: Block): Word {
    WithBits(b.alarms, BlockSettings(pl, b))
  }

  /** The block after racks, containers and converter, ahead of its own word. */
  function BlockConverted(pl: Plant, b: Block, inSet: bool, share: real, weather: Weather): Block {
    var perRack := PerRackW(pl, b, inSet, share);
    b.(containers := ContainersTick(pl, b.containers, perRack, weather, |b.containers|),
       pcs := Finalize(pl.pcs, b.pcs.(setpointW := BlockTargetW(inSet, share)),
                       DcW(pl, b.containers, perRack, |b.containers|)))
  }

  function BlockTick(pl: Plant, b: Block, inSet: bool, share: real, weather: Weather): Block {
    var next := BlockConverted(pl, b, inSet, share, weather);
    next.(alarms := BlockWord(pl, next), setpointMissS := MissS(pl, next))
  }

  /** What one block contributed during a tick. */
  datatype Outcome = Outcome(acW: real, hvacW: real, batteryHeatW: real, capability: Limits)

  function BlockOutcome(pl: Plant, b: Block, inSet: bool, share: real, weather: Weather): Outcome {
    var next := BlockTick(pl, b, inSet, share, weather);
    Outcome(next.pcs.acW, HvacW(next.containers, |next.containers|),
            HeatW(pl, b.containers, PerRackW(pl, b, inSet, share), |b.containers|), CapabilityW(pl, b, inSet))
  }
}
