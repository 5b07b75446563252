/** What becomes of the causes an operator reset hands back: which cleared trips the next
    tick raises again. */
module ReraiseLaws {
  import opened State
  import opened Log
  import opened Derate
  import opened Cell
  import opened Bms
  import opened Converter
  import opened Thermal
  import opened Substations
  import opened Plants
  import opened Kernel
  import opened Commands
  import opened Causes
  import opened TickLaws
  import opened SiteLaws
  import opened Runs
  import opened RunLaws
  import opened SafetyLaws
  import opened LatchLaws

  // ----- One container --------------------------------------------------------------------

  /** The temperature a rack's cells will have at the end of a tick. */
  function NextTempC(pl: Plant, c: Container, perRack: real, i: nat): real
    requires i < |c.racks|
  {
    var rack := c.racks[i];
    Warmed(pl.thermal, RackStepped(pl, rack, perRack).0, RackHeatW(pl, rack, perRack), c.airTempC, TICK).cellTempC
  }

  /** The condition behind a latched bit will hold at the end of a tick: on the temperature
      the racks' heat and the air bring, and on the spread the BMS step leaves. */
  predicate WillHold(pl: Plant, c: Container, perRack: real, i: nat, bit: int)
    requires i < |c.racks|
  {
    var th, t := pl.bms.thresholds, NextTempC(pl, c, perRack, i);
    || (bit == OVER_TEMP_TRIP && th.overTempTripC <= t)
    || (bit == IMBALANCE_TRIP && th.imbalanceTripV <= Balanced(pl, c.racks[i]).cellDvV)
    || (bit == UNDER_TEMP_TRIP && t <= th.underTempTripC)
  }

  /** Evaluation raises a clear trip bit exactly when its condition holds on the rack. */
  lemma TripRises(pl: Plant, rack: Rack, bit: int)
    requires 8 <= bit < 16 && bit !in rack.alarms
    ensures bit in RackAlarms(pl.bms, rack, pl.rackCfg) <==> Present(pl.bms.thresholds, rack, bit)
  {
    RackAlarmsRead(pl.bms, rack, pl.rackCfg);
    hide RackAlarms, Rising, Falling, Factor;
    if 11 <= bit {
      UnsetStaysClear(pl, rack, bit);
    }
  }

  lemma PresentIgnoresWord(th: RackThresholds, rack: Rack, w: set<int>, bit: int)
    ensures Present(th, rack.(alarms := w), bit) <==> Present(th, rack, bit)
  {}

  lemma StepKeepsSpread(pl: Plant, rack: Rack, perRack: real)
    ensures RackStepped(pl, rack, perRack).0.cellDvV == Balanced(pl, rack).cellDvV
  {
    hide Balanced, RequestW, CurrentA, RelaxedV, OcvRackV, SocDrop;
  }

  /** One tick of a container raises a clear trip bit of a rack exactly when its condition
      holds on the rack the tick leaves; and that can be read off the container before. */
  lemma ContainerReraises(pl: Plant, c: Container, perRack: real, weather: Weather, i: nat, bit: int)
    requires i < |c.racks| && 8 <= bit < 16 && bit !in c.racks[i].alarms
    ensures |ContainerTick(pl, c, perRack, weather).racks| == |c.racks|
    ensures var next := ContainerTick(pl, c, perRack, weather).racks[i];
      && (bit in next.alarms <==> Present(pl.bms.thresholds, next, bit))
      && (bit in next.alarms <==> WillHold(pl, c, perRack, i, bit))
  {
    hide ContainerTick, RackStepped, RackHeatW, RackAlarms, Balanced, Warmed;
    RackWordReads(pl, c, perRack, weather, i);
    ContainerTemp(pl, c, perRack, weather, i);
    ContainerRack(pl, c, perRack, weather, i);
    StepKeepsSpread(pl, c.racks[i], perRack);
    var next := ContainerTick(pl, c, perRack, weather).racks[i];
    TripRises(pl, next.(alarms := c.racks[i].alarms), bit);
    PresentIgnoresWord(pl.bms.thresholds, next, c.racks[i].alarms, bit);
  }

  // ----- The site ---------------------------------------------------------------------------------

  /** The condition behind a latched bit of a rack will hold at the end of the next tick. */
  predicate WillHoldAt(pl: Plant, s: Site, b: nat, c: nat, r: nat, bit: int)
    requires HasRack(s.blocks, b, c, r)
  {
    WillHold(pl, s.blocks[b].containers[c], ShareOf(pl, s, b), r, bit)
  }

  lemma BlockReraises(pl: Plant, b: Block, inSet: bool, share: real, weather: Weather, c: nat, r: nat, bit: int)
    requires HasRack([b], 0, c, r) && 8 <= bit < 16 && bit !in b.containers[c].racks[r].alarms
    ensures HasRack([BlockTick(pl, b, inSet, share, weather)], 0, c, r)
    ensures var next := BlockTick(pl, b, inSet, share, weather).containers[c].racks[r];
      && (bit in next.alarms <==> Present(pl.bms.thresholds, next, bit))
      && (bit in next.alarms <==> WillHold(pl, b.containers[c], PerRackW(pl, b, inSet, share), r, bit))
  {
    hide ContainersTick, ContainerTick, PerRackW, DcW, Finalize, BlockWord, MissS, WillHold, Present;
    var perRack := PerRackW(pl, b, inSet, share);
    ContainersTickAt(pl, b.containers, perRack, weather, |b.containers|, c);
    ContainerReraises(pl, b.containers[c], perRack, weather, r, bit);
  }

  /** One tick of the site, on any tree: a clear trip bit of a rack is raised exactly when
      its condition holds on the rack the tick leaves, which the tree before it tells. */
  lemma TickReraises(pl: Plant, s: Site, inputs: Inputs, b: nat, c: nat, r: nat, bit: int)
    requires HasRack(s.blocks, b, c, r) && 8 <= bit < 16 && bit !in RackAt(s, b, c, r).alarms
    ensures var next := Tick(pl, s, inputs);
      && HasRack(next.blocks, b, c, r)
      && (bit in RackAt(next, b, c, r).alarms <==> Present(pl.bms.thresholds, RackAt(next, b, c, r), bit))
      && (bit in RackAt(next, b, c, r).alarms <==> WillHoldAt(pl, s, b, c, r, bit))
  {
    hide Emitted, EmsAfter, AuxTick, SubstationTick, EnergyAfter, AlarmsAfter, SiteShareW, InSet, NextBlocks, BlockTick,
      WillHold, Present;
    NextBlocksAt(pl, s, inputs.weather, |s.blocks|, b);
    BlockReraises(pl, s.blocks[b], InSet(pl, s, b), SiteShareW(pl, s), inputs.weather, c, r, bit);
  }

  /** A reset that covers a rack leaves it in the tree with its latched half clear. */
  lemma ResetLeavesClear(pl: Plant, s: Site, op: Op, b: nat, c: nat, r: nat, bit: int)
    requires Latched(s.blocks, b, c, r, bit) && 8 <= bit < 16 && ResetsRack(op, b, c, r)
    ensures var after := Exec(pl, s, op);
      HasRack(after.blocks, b, c, r) && bit !in RackAt(after, b, c, r).alarms
  {
    hide Tick, Dispatch, SameCharge, ResetBlock;
    LatchStep(pl, s, op, b, c, r, bit);
    if Dispatch(s, op.action).Ok? {
      var after := Dispatch(s, op.action).value.site;
      DispatchMovesNothing(s, op.action);
      SameRowCharge(s.blocks, after.blocks, b, c);
    }
  }

  /** What an operator is told against what the next tick does, for every cause a reset of
      any scope hands back: the bit is raised again exactly when its condition will hold at
      the end of that tick. A cause still present at the reset need not. */
  lemma StillReraises(pl: Plant, s: Site, op: Op, scope: Scope, inputs: Inputs, b: nat, c: nat, r: nat, bit: int)
    requires IsAction(op, AlarmReset(scope))
    requires HasRack(s.blocks, b, c, r) && (RackNode(b, c, r), bit) in Still(pl, s, scope)
    ensures var after := Exec(pl, s, op);
      && HasRack(after.blocks, b, c, r)
      && HasRack(Tick(pl, after, inputs).blocks, b, c, r)
      && (bit in RackAt(Tick(pl, after, inputs), b, c, r).alarms <==> WillHoldAt(pl, after, b, c, r, bit))
  {
    hide Still, Exec, Tick, WillHoldAt, Present;
    StillIsPresent(pl, s, scope, b, c, r, bit);
    ResetLeavesClear(pl, s, op, b, c, r, bit);
    TickReraises(pl, Exec(pl, s, op), inputs, b, c, r, bit);
  }
}
