/** What a latch is for: on every run a trip bit and a converter fault last until an
    operator reset that covers them. */
module LatchLaws {
  import opened State
  import opened Words
  import opened Log
  import opened Bms
  import opened Converter
  import opened Substations
  import opened Plants
  import opened Kernel
  import opened Commands
  import opened SiteLaws
  import opened Runs
  import opened RunLaws
  import opened SafetyLaws

  /** An operator reset that covers block b. */
  predicate ResetsBlock(op: Op, b: nat) {
    IsSiteReset(op) || IsAction(op, AlarmReset(BlockScope(b)))
  }

  /** An operator reset that covers rack r of container c of block b. */
  predicate ResetsRack(op: Op, b: nat, c: nat, r: nat) {
    ResetsBlock(op, b) || IsAction(op, AlarmReset(RackScope(b, c, r)))
  }

  /** The operation trips the converter of block b. */
  predicate TripsPcs(s: Site, op: Op, b: nat) {
    IsAction(op, FaultAction.PcsTrip(b)) || (IsTrip(op) && PROTECTION_TRIP !in s.alarms)
  }

  // ----- The latched half of a rack word -------------------------------------------------

  predicate Latched(blocks: seq<Block>, b: nat, c: nat, r: nat, bit: int) {
    HasRack(blocks, b, c, r) && bit in blocks[b].containers[c].racks[r].alarms
  }

  lemma TickKeepsLatch(pl: Plant, s: Site, inputs: Inputs, b: nat, c: nat, r: nat, bit: int)
    requires Latched(s.blocks, b, c, r, bit) && 8 <= bit
    ensures Latched(Tick(pl, s, inputs).blocks, b, c, r, bit)
  {
    hide Emitted, EmsAfter, AuxTick, SubstationTick, EnergyAfter, AlarmsAfter, SiteShareW, InSet, NextBlocks, BlockTick;
    NextBlocksAt(pl, s, inputs.weather, |s.blocks|, b);
    BlockKeepsLatch(pl, s.blocks[b], InSet(pl, s, b), SiteShareW(pl, s), inputs.weather, c, r, bit);
  }

  lemma BlockKeepsLatch(pl: Plant, b: Block, inSet: bool, share: real, weather: Weather, c: nat, r: nat, bit: int)
    requires Latched([b], 0, c, r, bit) && 8 <= bit
    ensures Latched([BlockTick(pl, b, inSet, share, weather)], 0, c, r, bit)
  {
    hide ContainersTick, ContainerTick, PerRackW, DcW, Finalize, BlockWord, MissS, RackAlarms;
    var perRack := PerRackW(pl, b, inSet, share);
    ContainersTickAt(pl, b.containers, perRack, weather, |b.containers|, c);
    RackWordReads(pl, b.containers[c], perRack, weather, r);
    var last := ContainerTick(pl, b.containers[c], perRack, weather).racks[r];
    RackAlarmsLatch(pl.bms, last.(alarms := b.containers[c].racks[r].alarms), pl.rackCfg, bit);
  }

  lemma ResetClearsLatch(blocks: seq<Block>, b: nat, c: nat, r: nat, bit: int)
    requires Latched(blocks, b, c, r, bit) && 8 <= bit < 16
    ensures |ResetBlock(blocks[b]).containers| == |blocks[b].containers|
    ensures |ResetBlock(blocks[b]).containers[c].racks| == |blocks[b].containers[c].racks|
    ensures bit !in ResetBlock(blocks[b]).containers[c].racks[r].alarms
  {
    ResetBlockCharge(blocks[b], c, r);
    hide ResetBlock;
  }

  lemma RackPut(s: Site, b0: nat, c0: nat, r0: nat, rack: Rack, b: nat, c: nat, r: nat, bit: int)
    requires HasRack(s.blocks, b0, c0, r0) && Latched(s.blocks, b, c, r, bit)
    ensures Latched(WithRack(s, b0, c0, r0, rack).blocks, b, c, r, bit)
       <==> ((b, c, r) == (b0, c0, r0) ==> bit in rack.alarms)
  {}

  lemma ContainerPut(s: Site, b0: nat, c0: nat, container: Container, b: nat, c: nat, r: nat, bit: int)
    requires HasContainer(s, b0, c0) && container.racks == s.blocks[b0].containers[c0].racks
    requires Latched(s.blocks, b, c, r, bit)
    ensures Latched(WithContainer(s, b0, c0, container).blocks, b, c, r, bit)
  {}

  lemma BlockPut(s: Site, b0: nat, block: Block, b: nat, c: nat, r: nat, bit: int)
    requires b0 < |s.blocks| && Latched(s.blocks, b, c, r, bit)
    ensures Latched(WithBlock(s, b0, block).blocks, b, c, r, bit)
       <==> (b == b0 ==> Latched([block], 0, c, r, bit))
  {}

  lemma DispatchAndLatch(s: Site, op: Op, b: nat, c: nat, r: nat, bit: int)
    requires Latched(s.blocks, b, c, r, bit) && 8 <= bit < 16 && (op.OpApply? || op.OpDirect?)
    requires Dispatch(s, op.action).Ok?
    ensures Latched(Dispatch(s, op.action).value.site.blocks, b, c, r, bit) <==> !ResetsRack(op, b, c, r)
  {
    hide ResetAlarms, AllTripped, TripEvents, WithBlock, WithContainer, WithRack, Latched;
    LatchedRack(s.blocks, b, c, r, bit);
    match op.action
    case HvacFailure(b0, c0) =>
      var container := s.blocks[b0].containers[c0];
      ContainerPut(s, b0, c0, container.(hvac := container.hvac.(failed := true)), b, c, r, bit);
    case HvacRepair(b0, c0) =>
      var container := s.blocks[b0].containers[c0];
      ContainerPut(s, b0, c0, container.(hvac := container.hvac.(failed := false)), b, c, r, bit);
    case PcsTrip(b0) => SameContainers(s, b0, Tripped(s.blocks[b0]), b, c, r, bit);
    case ProtectionTrip => AllTrippedLatch(s.blocks, b, c, r, bit);
    case RackSelfDischarge(b0, c0, r0, ppm) =>
      RackPut(s, b0, c0, r0, RackAt(s, b0, c0, r0).(selfDischargeExcess := ppm as real * 0.000001 / DAY_S), b, c, r,
          bit);
    case RackIsolate(b0, c0, r0) =>
      RackPut(s, b0, c0, r0, RackAt(s, b0, c0, r0).(inService := false), b, c, r, bit);
    case RackRestore(b0, c0, r0) =>
      RackPut(s, b0, c0, r0, RackAt(s, b0, c0, r0).(inService := true), b, c, r, bit);
    case BlockMaintenanceEnter(b0) => SameContainers(s, b0, s.blocks[b0].(mode := Maintenance), b, c, r, bit);
    case BlockMaintenanceExit(b0) => SameContainers(s, b0, s.blocks[b0].(mode := InService), b, c, r, bit);
    case AlarmReset(_) => ResetAndLatch(s, op, b, c, r, bit);
  }

  lemma ResetAndLatch(s: Site, op: Op, b: nat, c: nat, r: nat, bit: int)
    requires Latched(s.blocks, b, c, r, bit) && 8 <= bit < 16 && (op.OpApply? || op.OpDirect?)
    requires op.action.AlarmReset? && Dispatch(s, op.action).Ok?
    ensures Latched(Dispatch(s, op.action).value.site.blocks, b, c, r, bit) <==> !ResetsRack(op, b, c, r)
  {
    hide ResetBlock, ResetSiteEvents, ResetBlockEvents, WordChanges, ResetBlocks, WithBlock, WithRack, Latched;
    LatchedRack(s.blocks, b, c, r, bit);
    match op.action.scope
    case SiteScope => ResetSiteLatch(s.blocks, b, c, r, bit);
    case BlockScope(b0) => ResetBlockLatch(s, b0, b, c, r, bit);
    case RackScope(b0, c0, r0) => RackPut(s, b0, c0, r0, ResetRack(RackAt(s, b0, c0, r0)), b, c, r, bit);
  }

  lemma LatchedRack(blocks: seq<Block>, b: nat, c: nat, r: nat, bit: int)
    requires Latched(blocks, b, c, r, bit)
    ensures HasRack(blocks, b, c, r) && bit in blocks[b].containers[c].racks[r].alarms
  {}

  lemma SameContainers(s: Site, b0: nat, block: Block, b: nat, c: nat, r: nat, bit: int)
    requires b0 < |s.blocks| && block.containers == s.blocks[b0].containers && Latched(s.blocks, b, c, r, bit)
    ensures Latched(WithBlock(s, b0, block).blocks, b, c, r, bit)
  {
    BlockPut(s, b0, block, b, c, r, bit);
  }

  lemma AllTrippedLatch(blocks: seq<Block>, b: nat, c: nat, r: nat, bit: int)
    requires Latched(blocks, b, c, r, bit)
    ensures Latched(AllTripped(blocks, |blocks|), b, c, r, bit)
  {}

  lemma ResetSiteLatch(blocks: seq<Block>, b: nat, c: nat, r: nat, bit: int)
    requires Latched(blocks, b, c, r, bit) && 8 <= bit < 16
    ensures !Latched(ResetBlocks(blocks, |blocks|), b, c, r, bit)
  {
    ResetClearsLatch(blocks, b, c, r, bit);
    hide ResetBlock;
  }

  lemma ResetBlockLatch(s: Site, b0: nat, b: nat, c: nat, r: nat, bit: int)
    requires b0 < |s.blocks| && Latched(s.blocks, b, c, r, bit) && 8 <= bit < 16
    ensures Latched(WithBlock(s, b0, ResetBlock(s.blocks[b0])).blocks, b, c, r, bit) <==> b != b0
  {
    BlockPut(s, b0, ResetBlock(s.blocks[b0]), b, c, r, bit);
    ResetClearsLatch(s.blocks, b, c, r, bit);
    hide ResetBlock;
  }

  /** A latched trip bit of a rack survives one operation exactly when it is no reset
      that covers the rack. */
  lemma LatchStep(pl: Plant, s: Site, op: Op, b: nat, c: nat, r: nat, bit: int)
    requires Latched(s.blocks, b, c, r, bit) && 8 <= bit < 16
    ensures Latched(Exec(pl, s, op).blocks, b, c, r, bit) <==> !ResetsRack(op, b, c, r)
  {
    hide Tick, Dispatch, ResetBlock;
    match op
    case OpTick(inputs) => TickKeepsLatch(pl, s, inputs, b, c, r, bit);
    case OpSetpoint(_) =>
    case OpApply(a) => DoorLatch(s, op, b, c, r, bit);
    case OpDirect(a) => DoorLatch(s, op, b, c, r, bit);
  }

  lemma DoorLatch(s: Site, op: Op, b: nat, c: nat, r: nat, bit: int)
    requires Latched(s.blocks, b, c, r, bit) && 8 <= bit < 16 && (op.OpApply? || op.OpDirect?)
    ensures Latched(Commanded(s, op.action).blocks, b, c, r, bit) <==> !ResetsRack(op, b, c, r)
    ensures Applied(s, op.action).blocks == Commanded(s, op.action).blocks
  {
    hide Dispatch, Latched, ResetsRack;
    if Dispatch(s, op.action).Ok? {
      DispatchAndLatch(s, op, b, c, r, bit);
    } else {
      LatchedRack(s.blocks, b, c, r, bit);
      CoveringResetAccepted(s, op, b, c, r);
    }
  }

  lemma CoveringResetAccepted(s: Site, op: Op, b: nat, c: nat, r: nat)
    requires HasRack(s.blocks, b, c, r) && (op.OpApply? || op.OpDirect?) && Dispatch(s, op.action).Err?
    ensures !ResetsRack(op, b, c, r)
  {
    hide ResetBlock, AllTripped, ResetSiteEvents, ResetBlockEvents, TripEvents, WordChanges, ResetBlocks, ResetSite;
  }

  /** A latched trip bit of a rack stays raised over every run without a reset that covers
      the rack, whatever becomes of its cause; and the first such reset clears it. */
  lemma {:induction false} LatchHolds(pl: Plant, s: Site, ops: seq<Op>, b: nat, c: nat, r: nat, bit: int)
    requires Latched(s.blocks, b, c, r, bit) && 8 <= bit < 16
    requires forall op <- ops :: !ResetsRack(op, b, c, r)
    ensures Latched(StateAfter(pl, s, ops).blocks, b, c, r, bit)
    ensures forall op :: ResetsRack(op, b, c, r) ==> !Latched(StateAfter(pl, s, ops + [op]).blocks, b, c, r, bit)
  {
    hide Exec, ResetsRack, Latched;
    if ops != [] {
      assert Last(ops) in ops && forall x <- Init(ops) :: x in ops;
      LatchHolds(pl, s, Init(ops), b, c, r, bit);
      LatchStep(pl, StateAfter(pl, s, Init(ops)), Last(ops), b, c, r, bit);
    }
    forall op | ResetsRack(op, b, c, r)
      ensures !Latched(StateAfter(pl, s, ops + [op]).blocks, b, c, r, bit)
    {
      assert Init(ops + [op]) == ops;
      LatchStep(pl, StateAfter(pl, s, ops), op, b, c, r, bit);
    }
  }

  // ----- A converter in fault -----------------------------------------------------------------

  predicate InFault(blocks: seq<Block>, b: nat) {
    b < |blocks| && blocks[b].pcs.opState == Fault
  }

  lemma TickAndFault(pl: Plant, s: Site, inputs: Inputs, b: nat)
    requires b < |s.blocks|
    ensures |Tick(pl, s, inputs).blocks| == |s.blocks|
    ensures InFault(Tick(pl, s, inputs).blocks, b) <==> InFault(s.blocks, b)
  {
    hide Emitted, EmsAfter, AuxTick, SubstationTick, EnergyAfter, AlarmsAfter, SiteShareW, InSet, NextBlocks,
      ContainersTick, PerRackW, DcW, BlockWord, MissS, AcOf;
    NextBlocksAt(pl, s, inputs.weather, |s.blocks|, b);
  }

  lemma PcsPut(s: Site, b0: nat, block: Block, b: nat)
    requires b0 < |s.blocks| && b < |s.blocks|
    ensures |WithBlock(s, b0, block).blocks| == |s.blocks|
    ensures InFault(WithBlock(s, b0, block).blocks, b)
        <==> if b == b0 then block.pcs.opState == Fault else InFault(s.blocks, b)
  {}

  lemma DispatchAndFault(s: Site, op: Op, b: nat)
    requires b < |s.blocks| && (op.OpApply? || op.OpDirect?) && Dispatch(s, op.action).Ok?
    ensures |Dispatch(s, op.action).value.site.blocks| == |s.blocks|
    ensures InFault(Dispatch(s, op.action).value.site.blocks, b)
       <==> TripsPcs(s, op, b) || (InFault(s.blocks, b) && !ResetsBlock(op, b))
  {
    hide ResetAlarms, AllTripped, TripEvents, WithBlock;
    match op.action
    case HvacFailure(b0, c0) => SamePcs(s, b0, s.blocks[b0].containers[c0 := HvacSet(s, b0, c0, true)], b);
    case HvacRepair(b0, c0) => SamePcs(s, b0, s.blocks[b0].containers[c0 := HvacSet(s, b0, c0, false)], b);
    case PcsTrip(b0) => PcsPut(s, b0, Tripped(s.blocks[b0]), b);
    case ProtectionTrip =>
    case RackSelfDischarge(b0, c0, r0, ppm) =>
      SamePcsRack(s, b0, c0, r0, RackAt(s, b0, c0, r0).(selfDischargeExcess := ppm as real * 0.000001 / DAY_S), b);
    case RackIsolate(b0, c0, r0) => SamePcsRack(s, b0, c0, r0, RackAt(s, b0, c0, r0).(inService := false), b);
    case RackRestore(b0, c0, r0) => SamePcsRack(s, b0, c0, r0, RackAt(s, b0, c0, r0).(inService := true), b);
    case BlockMaintenanceEnter(b0) => PcsPut(s, b0, s.blocks[b0].(mode := Maintenance), b);
    case BlockMaintenanceExit(b0) => PcsPut(s, b0, s.blocks[b0].(mode := InService), b);
    case AlarmReset(_) => ResetAndFault(s, op, b);
  }

  function HvacSet(s: Site, b: nat, c: nat, failed: bool): Container
    requires HasContainer(s, b, c)
  {
    var container := s.blocks[b].containers[c];
    container.(hvac := container.hvac.(failed := failed))
  }

  lemma SamePcs(s: Site, b0: nat, cs: seq<Container>, b: nat)
    requires b0 < |s.blocks| && b < |s.blocks|
    ensures var next := WithBlock(s, b0, s.blocks[b0].(containers := cs)).blocks;
      |next| == |s.blocks| && (InFault(next, b) <==> InFault(s.blocks, b))
  {
    PcsPut(s, b0, s.blocks[b0].(containers := cs), b);
  }

  lemma SamePcsRack(s: Site, b0: nat, c0: nat, r0: nat, rack: Rack, b: nat)
    requires HasRack(s.blocks, b0, c0, r0) && b < |s.blocks|
    ensures var next := WithRack(s, b0, c0, r0, rack).blocks;
      |next| == |s.blocks| && (InFault(next, b) <==> InFault(s.blocks, b))
  {
    var c := s.blocks[b0].containers[c0];
    SamePcs(s, b0, s.blocks[b0].containers[c0 := c.(racks := c.racks[r0 := rack])], b);
  }

  lemma ResetAndFault(s: Site, op: Op, b: nat)
    requires b < |s.blocks| && (op.OpApply? || op.OpDirect?)
    requires op.action.AlarmReset? && Dispatch(s, op.action).Ok?
    ensures |Dispatch(s, op.action).value.site.blocks| == |s.blocks|
    ensures InFault(Dispatch(s, op.action).value.site.blocks, b) <==> InFault(s.blocks, b) && !ResetsBlock(op, b)
  {
    hide ResetSiteEvents, ResetBlockEvents, WordChanges, ResetContainers, WithBlock, WithRack, ClearTrips;
    match op.action.scope
    case SiteScope =>
      assert ResetBlocks(s.blocks, |s.blocks|)[b] == ResetBlock(s.blocks[b]);
    case BlockScope(b0) => PcsPut(s, b0, ResetBlock(s.blocks[b0]), b);
    case RackScope(b0, c0, r0) => SamePcsRack(s, b0, c0, r0, ResetRack(RackAt(s, b0, c0, r0)), b);
  }

  lemma DoorFault(s: Site, op: Op, b: nat)
    requires b < |s.blocks| && (op.OpApply? || op.OpDirect?)
    ensures |Commanded(s, op.action).blocks| == |s.blocks|
        && Applied(s, op.action).blocks == Commanded(s, op.action).blocks
    ensures InFault(Commanded(s, op.action).blocks, b)
       <==> TripsPcs(s, op, b) || (InFault(s.blocks, b) && !ResetsBlock(op, b))
  {
    hide Dispatch;
    if Dispatch(s, op.action).Ok? {
      DispatchAndFault(s, op, b);
    } else {
      FaultAccepted(s, op, b);
    }
  }

  lemma FaultAccepted(s: Site, op: Op, b: nat)
    requires b < |s.blocks| && (op.OpApply? || op.OpDirect?) && Dispatch(s, op.action).Err?
    ensures !TripsPcs(s, op, b) && !ResetsBlock(op, b)
  {
    hide ResetBlock, AllTripped, ResetSiteEvents, ResetBlockEvents, TripEvents, WordChanges, ResetBlocks, ResetSite;
  }

  /** What one operation does to a converter's fault: only a trip of that converter or of
      the whole site enters it, and only a reset that covers its block leaves it. */
  lemma FaultStep(pl: Plant, s: Site, op: Op, b: nat)
    requires b < |s.blocks|
    ensures |Exec(pl, s, op).blocks| == |s.blocks|
    ensures InFault(Exec(pl, s, op).blocks, b) <==> TripsPcs(s, op, b) || (InFault(s.blocks, b) && !ResetsBlock(op, b))
  {
    hide Tick, Dispatch, Commanded, Applied;
    match op
    case OpTick(inputs) => TickAndFault(pl, s, inputs, b);
    case OpSetpoint(_) =>
    case OpApply(a) => DoorFault(s, op, b);
    case OpDirect(a) => DoorFault(s, op, b);
  }

  /** The run's last word on a converter: some operation tripped it, none after it reset
      it. A converter in fault at the start counts as tripped before the run. */
  predicate TrippedSince(pl: Plant, s: Site, ops: seq<Op>, b: nat) {
    if ops == [] then InFault(s.blocks, b) else
      TripsPcs(StateAfter(pl, s, Init(ops)), Last(ops), b)
      || (TrippedSince(pl, s, Init(ops), b) && !ResetsBlock(Last(ops), b))
  }

  /** On every run a converter is in fault exactly when it was tripped and no reset that
      covers its block came after: no tick, no other command clears a fault, and none
      makes one. */
  lemma {:induction false} FaultHolds(pl: Plant, s: Site, ops: seq<Op>, b: nat)
    requires b < |s.blocks|
    ensures |StateAfter(pl, s, ops).blocks| == |s.blocks|
    ensures InFault(StateAfter(pl, s, ops).blocks, b) <==> TrippedSince(pl, s, ops, b)
  {
    hide Exec, TripsPcs, ResetsBlock, InFault;
    if ops != [] {
      FaultHolds(pl, s, Init(ops), b);
      FaultStep(pl, StateAfter(pl, s, Init(ops)), Last(ops), b);
    }
  }
}
