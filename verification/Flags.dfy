/** What the commands set: on every run a service flag, a block's mode, a self-discharge
    rate and a failed unit are what the last command that names them made of them, and
    nothing else moves them. */
module FlagLaws {
  import opened Wrappers
  import opened State
  import opened Words
  import opened Log
  import opened Cell
  import opened Converter
  import opened Thermal
  import opened Substations
  import opened Plants
  import opened Kernel
  import opened Commands
  import opened TickLaws
  import opened Runs
  import opened RunLaws
  import opened SafetyLaws
  import opened LatchLaws
  import opened HvacRuns

  // ----- What an operation sets -----------------------------------------------------------

  function ServiceBy(op: Op, b: nat, c: nat, r: nat): Option<bool> {
    if IsAction(op, RackIsolate(b, c, r)) then Some(false)
    else if IsAction(op, RackRestore(b, c, r)) then Some(true)
    else None
  }

  /** The excess rate a command sets: parts per million and day, as a share and second. */
  function ExcessBy(op: Op, b: nat, c: nat, r: nat): Option<real> {
    if (op.OpApply? || op.OpDirect?) && op.action.RackSelfDischarge?
       && (op.action.block, op.action.container, op.action.rack) == (b, c, r)
    then Some(PerSecond(op.action.excessPpmPerDay))
    else None
  }

  function PerSecond(ppm: nat): real {
    ppm as real / 1000000.0 / 86400.0
  }

  function ModeBy(op: Op, b: nat): Option<BlockMode> {
    if IsAction(op, BlockMaintenanceEnter(b)) then Some(Maintenance)
    else if IsAction(op, BlockMaintenanceExit(b)) then Some(InService)
    else None
  }

  function FailedBy(op: Op, b: nat, c: nat): Option<bool> {
    if IsAction(op, HvacFailure(b, c)) then Some(true)
    else if IsAction(op, HvacRepair(b, c)) then Some(false)
    else None
  }

  function Or<T>(o: Option<T>, first: T): T {
    if o.Some? then o.value else first
  }

  // ----- One rack through one command ---------------------------------------------------

  /** A rack with everything a command can make of it. */
  function RackCommanded(rack: Rack, op: Op, b: nat, c: nat, r: nat): Rack {
    rack.(inService := Or(ServiceBy(op, b, c, r), rack.inService),
          selfDischargeExcess := Or(ExcessBy(op, b, c, r), rack.selfDischargeExcess),
          alarms := if ResetsRack(op, b, c, r) then ClearTrips(rack.alarms) else rack.alarms)
  }

  lemma RackIn(s: Site, b0: nat, c0: nat, r0: nat, rack: Rack, b: nat, c: nat, r: nat)
    requires HasRack(s.blocks, b0, c0, r0) && HasRack(s.blocks, b, c, r)
    ensures var next := WithRack(s, b0, c0, r0, rack);
      HasRack(next.blocks, b, c, r)
      && RackAt(next, b, c, r) == if (b, c, r) == (b0, c0, r0) then rack else RackAt(s, b, c, r)
  {}

  lemma ContainerIn(s: Site, b0: nat, c0: nat, container: Container, b: nat, c: nat, r: nat)
    requires HasContainer(s, b0, c0) && container.racks == s.blocks[b0].containers[c0].racks
    requires HasRack(s.blocks, b, c, r)
    ensures var next := WithContainer(s, b0, c0, container);
      HasRack(next.blocks, b, c, r) && RackAt(next, b, c, r) == RackAt(s, b, c, r)
  {}

  lemma BlockIn(s: Site, b0: nat, block: Block, b: nat, c: nat, r: nat)
    requires b0 < |s.blocks| && block.containers == s.blocks[b0].containers && HasRack(s.blocks, b, c, r)
    ensures var next := WithBlock(s, b0, block);
      HasRack(next.blocks, b, c, r) && RackAt(next, b, c, r) == RackAt(s, b, c, r)
  {}

  lemma ResetBlockIn(s: Site, b0: nat, b: nat, c: nat, r: nat)
    requires b0 < |s.blocks| && HasRack(s.blocks, b, c, r)
    ensures var next := WithBlock(s, b0, ResetBlock(s.blocks[b0]));
      HasRack(next.blocks, b, c, r)
      && RackAt(next, b, c, r) == if b == b0 then ResetRack(RackAt(s, b, c, r)) else RackAt(s, b, c, r)
  {
    ResetBlockCharge(s.blocks[b], c, r);
    hide ResetBlock;
  }

  lemma ResetSiteIn(s: Site, b: nat, c: nat, r: nat)
    requires HasRack(s.blocks, b, c, r)
    ensures HasRack(ResetSite(s).blocks, b, c, r) && RackAt(ResetSite(s), b, c, r) == ResetRack(RackAt(s, b, c, r))
  {
    ResetBlockCharge(s.blocks[b], c, r);
    assert ResetBlocks(s.blocks, |s.blocks|)[b] == ResetBlock(s.blocks[b]);
    hide ResetBlock;
  }

  lemma TrippedIn(s: Site, b: nat, c: nat, r: nat)
    requires HasRack(s.blocks, b, c, r)
    ensures HasRack(TripProtection(s).site.blocks, b, c, r)
        && RackAt(TripProtection(s).site, b, c, r) == RackAt(s, b, c, r)
  {
    hide TripEvents;
  }

  /** What an action makes of a rack. */
  function RackAfter(rack: Rack, a: FaultAction, b: nat, c: nat, r: nat): Rack {
    match a
    case RackSelfDischarge(b0, c0, r0, ppm) =>
      if (b, c, r) == (b0, c0, r0) then rack.(selfDischargeExcess := ppm as real * 0.000001 / DAY_S) else rack
    case RackIsolate(b0, c0, r0) => if (b, c, r) == (b0, c0, r0) then rack.(inService := false) else rack
    case RackRestore(b0, c0, r0) => if (b, c, r) == (b0, c0, r0) then rack.(inService := true) else rack
    case AlarmReset(SiteScope) => ResetRack(rack)
    case AlarmReset(BlockScope(b0)) => if b == b0 then ResetRack(rack) else rack
    case AlarmReset(RackScope(b0, c0, r0)) => if (b, c, r) == (b0, c0, r0) then ResetRack(rack) else rack
    case _ => rack
  }

  lemma DispatchSetsRack(s: Site, a: FaultAction, b: nat, c: nat, r: nat)
    requires HasRack(s.blocks, b, c, r) && Dispatch(s, a).Ok?
    ensures var next := Dispatch(s, a).value.site;
      HasRack(next.blocks, b, c, r) && RackAt(next, b, c, r) == RackAfter(RackAt(s, b, c, r), a, b, c, r)
  {
    hide ResetAlarms, TripProtection, WithBlock, WithContainer, WithRack, ResetRack;
    match a
    case HvacFailure(b0, c0) => ContainerIn(s, b0, c0, HvacSet(s, b0, c0, true), b, c, r);
    case HvacRepair(b0, c0) => ContainerIn(s, b0, c0, HvacSet(s, b0, c0, false), b, c, r);
    case PcsTrip(b0) => BlockIn(s, b0, Tripped(s.blocks[b0]), b, c, r);
    case ProtectionTrip => TrippedIn(s, b, c, r);
    case RackSelfDischarge(b0, c0, r0, ppm) =>
      RackIn(s, b0, c0, r0, RackAt(s, b0, c0, r0).(selfDischargeExcess := ppm as real * 0.000001 / DAY_S), b, c, r);
    case RackIsolate(b0, c0, r0) => RackIn(s, b0, c0, r0, RackAt(s, b0, c0, r0).(inService := false), b, c, r);
    case RackRestore(b0, c0, r0) => RackIn(s, b0, c0, r0, RackAt(s, b0, c0, r0).(inService := true), b, c, r);
    case BlockMaintenanceEnter(b0) => BlockIn(s, b0, s.blocks[b0].(mode := Maintenance), b, c, r);
    case BlockMaintenanceExit(b0) => BlockIn(s, b0, s.blocks[b0].(mode := InService), b, c, r);
    case AlarmReset(_) => ResetSetsRack(s, a, b, c, r);
  }

  lemma RackAfterIs(rack: Rack, op: Op, b: nat, c: nat, r: nat)
    requires op.OpApply? || op.OpDirect?
    ensures RackAfter(rack, op.action, b, c, r) == RackCommanded(rack, op, b, c, r)
  {
    hide ClearTrips, PerSecond;
    if op.action.AlarmReset? {
      ResetAfterIs(rack, op, b, c, r);
    } else {
      assert !ResetsRack(op, b, c, r);
      hide ResetsRack;
      if op.action.RackSelfDischarge? { SameRate(op.action.excessPpmPerDay); }
    }
  }

  lemma ResetAfterIs(rack: Rack, op: Op, b: nat, c: nat, r: nat)
    requires (op.OpApply? || op.OpDirect?) && op.action.AlarmReset?
    ensures RackAfter(rack, op.action, b, c, r) == RackCommanded(rack, op, b, c, r)
  {
    hide ClearTrips;
    assert ServiceBy(op, b, c, r).None? && ExcessBy(op, b, c, r).None?;
    hide ServiceBy, ExcessBy;
    match op.action.scope
    case _ =>
  }

  lemma SameRate(ppm: nat)
    ensures ppm as real * 0.000001 / DAY_S == PerSecond(ppm)
  {}

  lemma ResetSetsRack(s: Site, a: FaultAction, b: nat, c: nat, r: nat)
    requires HasRack(s.blocks, b, c, r) && a.AlarmReset? && Dispatch(s, a).Ok?
    ensures var next := Dispatch(s, a).value.site;
      HasRack(next.blocks, b, c, r) && RackAt(next, b, c, r) == RackAfter(RackAt(s, b, c, r), a, b, c, r)
  {
    hide ResetBlock, ResetSite, ResetSiteEvents, ResetBlockEvents, WordChanges, WithBlock, WithRack, ResetRack;
    match a.scope
    case SiteScope => ResetSiteIn(s, b, c, r);
    case BlockScope(b0) => ResetBlockIn(s, b0, b, c, r);
    case RackScope(b0, c0, r0) => RackIn(s, b0, c0, r0, ResetRack(RackAt(s, b0, c0, r0)), b, c, r);
  }

  /** A command that names a node is accepted where the node exists. */
  lemma NamedIsAccepted(s: Site, op: Op, b: nat, c: nat, r: nat)
    requires HasRack(s.blocks, b, c, r) && (op.OpApply? || op.OpDirect?) && Dispatch(s, op.action).Err?
    ensures ServiceBy(op, b, c, r).None? && ExcessBy(op, b, c, r).None? && !ResetsRack(op, b, c, r)
    ensures ModeBy(op, b).None? && FailedBy(op, b, c).None?
  {
    CoveringResetAccepted(s, op, b, c, r);
    hide ResetAlarms, TripProtection;
  }

  /** Between ticks, the whole of a rack: what the operation sets of it and nothing more. */
  lemma OpSetsRack(pl: Plant, s: Site, op: Op, b: nat, c: nat, r: nat)
    requires HasRack(s.blocks, b, c, r) && !op.OpTick?
    ensures var next := Exec(pl, s, op);
      HasRack(next.blocks, b, c, r) && RackAt(next, b, c, r) == RackCommanded(RackAt(s, b, c, r), op, b, c, r)
  {
    hide Tick, Dispatch, ResetsRack, ClearTrips, RackAfter;
    match op
    case OpSetpoint(_) => NoReset(op, b, c, r);
    case OpApply(a) => DoorSetsRack(s, op, b, c, r);
    case OpDirect(a) => DoorSetsRack(s, op, b, c, r);
  }

  lemma DoorSetsRack(s: Site, op: Op, b: nat, c: nat, r: nat)
    requires HasRack(s.blocks, b, c, r) && (op.OpApply? || op.OpDirect?)
    ensures HasRack(Commanded(s, op.action).blocks, b, c, r)
        && Applied(s, op.action).blocks == Commanded(s, op.action).blocks
    ensures RackAt(Commanded(s, op.action), b, c, r) == RackCommanded(RackAt(s, b, c, r), op, b, c, r)
  {
    hide Dispatch, ResetsRack, ClearTrips, RackAfter, ServiceBy, ExcessBy;
    if Dispatch(s, op.action).Ok? {
      DispatchSetsRack(s, op.action, b, c, r);
      RackAfterIs(RackAt(s, b, c, r), op, b, c, r);
    } else {
      NamedIsAccepted(s, op, b, c, r);
    }
  }

  lemma NoReset(op: Op, b: nat, c: nat, r: nat)
    requires op.OpSetpoint? || op.OpTick?
    ensures !ResetsRack(op, b, c, r) && ServiceBy(op, b, c, r).None? && ExcessBy(op, b, c, r).None?
  {}

  // ----- One rack through one tick ----------------------------------------------------------

  /** The rack a tick leaves: the rack stepped for some share, then warmed and its word
      evaluated. */
  lemma TickRack(pl: Plant, s: Site, inputs: Inputs, b: nat, c: nat, r: nat)
    requires HasRack(s.blocks, b, c, r)
    ensures var next := Tick(pl, s, inputs);
      HasRack(next.blocks, b, c, r)
      && SameElectrics(RackAt(next, b, c, r), RackStepped(pl, RackAt(s, b, c, r), ShareOf(pl, s, b)).0)
  {
    hide Emitted, EmsAfter, AuxTick, SubstationTick, EnergyAfter, AlarmsAfter, SiteShareW, InSet, NextBlocks, BlockTick,
      PerRackW, RackStepped;
    NextBlocksAt(pl, s, inputs.weather, |s.blocks|, b);
    BlockRack(pl, s.blocks[b], InSet(pl, s, b), SiteShareW(pl, s), inputs.weather, c, r);
  }

  lemma BlockRack(pl: Plant, b: Block, inSet: bool, share: real, weather: Weather, c: nat, r: nat)
    requires c < |b.containers| && r < |b.containers[c].racks|
    ensures var next, perRack := BlockTick(pl, b, inSet, share, weather), PerRackW(pl, b, inSet, share);
      |next.containers| == |b.containers| && |next.containers[c].racks| == |b.containers[c].racks|
      && SameElectrics(next.containers[c].racks[r], RackStepped(pl, b.containers[c].racks[r], perRack).0)
  {
    hide ContainersTick, ContainerTick, PerRackW, DcW, Finalize, BlockWord, MissS, RackStepped;
    var perRack := PerRackW(pl, b, inSet, share);
    ContainersTickAt(pl, b.containers, perRack, weather, |b.containers|, c);
    ContainerRack(pl, b.containers[c], perRack, weather, r);
  }

  lemma SteppedKeepsFlags(pl: Plant, rack: Rack, perRack: real)
    ensures var next := RackStepped(pl, rack, perRack).0;
      next.inService == rack.inService && next.selfDischargeExcess == rack.selfDischargeExcess
  {
    BalancedKeepsFlags(pl, rack);
    hide Balanced, RequestW;
    StepKeepsRest(pl, Balanced(pl, rack), RequestW(pl, rack, perRack));
    hide StepRack;
  }

  lemma BalancedKeepsFlags(pl: Plant, rack: Rack)
    ensures Balanced(pl, rack).inService == rack.inService
        && Balanced(pl, rack).selfDischargeExcess == rack.selfDischargeExcess
  {}

  lemma TickKeepsFlags(pl: Plant, s: Site, inputs: Inputs, b: nat, c: nat, r: nat)
    requires HasRack(s.blocks, b, c, r)
    ensures var next := Tick(pl, s, inputs);
      HasRack(next.blocks, b, c, r)
      && RackAt(next, b, c, r).inService == RackAt(s, b, c, r).inService
      && RackAt(next, b, c, r).selfDischargeExcess == RackAt(s, b, c, r).selfDischargeExcess
  {
    hide Tick, RackStepped;
    TickRack(pl, s, inputs, b, c, r);
    SteppedKeepsFlags(pl, RackAt(s, b, c, r), ShareOf(pl, s, b));
  }

  // ----- Racks on every run ----------------------------------------------------------------

  /** On every run a rack is out of service exactly when the last isolate or restore that
      names it was an isolate, and its excess self-discharge is that of the last command
      that set it: ppm x 1e-6 / 86400 a second. No tick, reset, trip or command to another
      node moves either. */
  lemma {:induction false} RackFlagsHold(pl: Plant, s: Site, ops: seq<Op>, b: nat, c: nat, r: nat)
    requires HasRack(s.blocks, b, c, r)
    ensures var first, end := RackAt(s, b, c, r), StateAfter(pl, s, ops);
      && HasRack(end.blocks, b, c, r)
      && RackAt(end, b, c, r).inService == Written(ops, op => ServiceBy(op, b, c, r), first.inService)
      && RackAt(end, b, c, r).selfDischargeExcess
         == Written(ops, op => ExcessBy(op, b, c, r), first.selfDischargeExcess)
  {
    hide Exec, ServiceBy, ExcessBy, HasRack, ResetsRack;
    if ops != [] {
      RackFlagsHold(pl, s, Init(ops), b, c, r);
      OpSetsFlags(pl, StateAfter(pl, s, Init(ops)), Last(ops), b, c, r);
    }
  }

  lemma OpSetsFlags(pl: Plant, s: Site, op: Op, b: nat, c: nat, r: nat)
    requires HasRack(s.blocks, b, c, r)
    ensures var next, rack := Exec(pl, s, op), RackAt(s, b, c, r);
      && HasRack(next.blocks, b, c, r)
      && RackAt(next, b, c, r).inService == Or(ServiceBy(op, b, c, r), rack.inService)
      && RackAt(next, b, c, r).selfDischargeExcess == Or(ExcessBy(op, b, c, r), rack.selfDischargeExcess)
  {
    hide Tick, Applied, Commanded, HasRack, ResetsRack, ServiceBy, ExcessBy;
    if op.OpTick? {
      TickKeepsFlags(pl, s, op.inputs, b, c, r);
      NoReset(op, b, c, r);
    } else {
      OpSetsRack(pl, s, op, b, c, r);
    }
  }

  // ----- Blocks --------------------------------------------------------------------------------

  /** A block with everything a command can make of it, but for its containers. */
  predicate BlockCommanded(s: Site, op: Op, b: nat, next: Block)
    requires b < |s.blocks|
  {
    && next.mode == Or(ModeBy(op, b), s.blocks[b].mode)
    && next.pcs == s.blocks[b].pcs.(opState := next.pcs.opState)
    && next.setpointMissS == s.blocks[b].setpointMissS
    && next.alarms == (if ResetsBlock(op, b) then ClearTrips(s.blocks[b].alarms) else s.blocks[b].alarms)
  }

  /** The operation names nothing of block b's own. */
  predicate Spares(op: Op, b: nat) {
    ModeBy(op, b).None? && !ResetsBlock(op, b)
  }

  lemma NoBlockReset(op: Op, b: nat)
    requires (op.OpApply? || op.OpDirect?) && !op.action.AlarmReset?
    ensures !ResetsBlock(op, b)
  {}

  lemma BlockAt(s: Site, b0: nat, block: Block, op: Op, b: nat)
    requires b0 < |s.blocks| && b < |s.blocks| && (b == b0 ==> BlockCommanded(s, op, b, block))
    requires b != b0 ==> Spares(op, b)
    ensures var next := WithBlock(s, b0, block).blocks; |next| == |s.blocks| && BlockCommanded(s, op, b, next[b])
  {
    hide ModeBy, ResetsBlock;
  }

  lemma ContainersAt(s: Site, b0: nat, cs: seq<Container>, op: Op, b: nat)
    requires b0 < |s.blocks| && b < |s.blocks| && Spares(op, b)
    ensures var next := WithBlock(s, b0, s.blocks[b0].(containers := cs)).blocks;
      |next| == |s.blocks| && BlockCommanded(s, op, b, next[b])
  {
    hide ModeBy, ResetsBlock;
  }

  lemma RackRowAt(s: Site, b0: nat, c0: nat, r0: nat, rack: Rack, op: Op, b: nat)
    requires HasRack(s.blocks, b0, c0, r0) && b < |s.blocks| && Spares(op, b)
    ensures var next := WithRack(s, b0, c0, r0, rack).blocks;
      |next| == |s.blocks| && BlockCommanded(s, op, b, next[b])
  {
    var c := s.blocks[b0].containers[c0];
    ContainersAt(s, b0, s.blocks[b0].containers[c0 := c.(racks := c.racks[r0 := rack])], op, b);
    hide BlockCommanded, Spares;
  }

  lemma BlockTripped(s: Site, b0: nat, op: Op, b: nat)
    requires b0 < |s.blocks| && b < |s.blocks| && (op.OpApply? || op.OpDirect?) && op.action == FaultAction.PcsTrip(b0)
    ensures |TripPcs(s, b0).value.site.blocks| == |s.blocks|
        && BlockCommanded(s, op, b, TripPcs(s, b0).value.site.blocks[b])
  {
    NoBlockReset(op, b);
    hide ResetsBlock;
    BlockAt(s, b0, Tripped(s.blocks[b0]), op, b);
  }

  lemma SiteTripped(s: Site, op: Op, b: nat)
    requires b < |s.blocks| && (op.OpApply? || op.OpDirect?) && op.action == FaultAction.ProtectionTrip
    ensures var next := TripProtection(s).site; |next.blocks| == |s.blocks| && BlockCommanded(s, op, b, next.blocks[b])
  {
    NoBlockReset(op, b);
    hide TripEvents, ResetsBlock;
  }

  lemma ModeAt(s: Site, b0: nat, mode: BlockMode, op: Op, b: nat)
    requires b0 < |s.blocks| && b < |s.blocks| && (op.OpApply? || op.OpDirect?)
    requires op.action == if mode == Maintenance then BlockMaintenanceEnter(b0) else BlockMaintenanceExit(b0)
    ensures var next := WithBlock(s, b0, s.blocks[b0].(mode := mode)).blocks;
      |next| == |s.blocks| && BlockCommanded(s, op, b, next[b])
  {
    NoBlockReset(op, b);
    hide ResetsBlock;
    BlockAt(s, b0, s.blocks[b0].(mode := mode), op, b);
  }

  lemma DispatchSetsBlock(s: Site, op: Op, b: nat)
    requires b < |s.blocks| && (op.OpApply? || op.OpDirect?) && Dispatch(s, op.action).Ok?
    ensures var next := Dispatch(s, op.action).value.site;
      |next.blocks| == |s.blocks| && BlockCommanded(s, op, b, next.blocks[b])
  {
    hide ResetAlarms, TripProtection, WithBlock, WithRack, BlockCommanded, ResetsBlock;
    if !op.action.AlarmReset? { NoBlockReset(op, b); }
    match op.action
    case HvacFailure(b0, c0) => ContainersAt(s, b0, s.blocks[b0].containers[c0 := HvacSet(s, b0, c0, true)], op, b);
    case HvacRepair(b0, c0) => ContainersAt(s, b0, s.blocks[b0].containers[c0 := HvacSet(s, b0, c0, false)], op, b);
    case PcsTrip(b0) => BlockTripped(s, b0, op, b);
    case ProtectionTrip => SiteTripped(s, op, b);
    case RackSelfDischarge(b0, c0, r0, ppm) =>
      RackRowAt(s, b0, c0, r0, RackAt(s, b0, c0, r0).(selfDischargeExcess := ppm as real * 0.000001 / DAY_S), op, b);
    case RackIsolate(b0, c0, r0) => RackRowAt(s, b0, c0, r0, RackAt(s, b0, c0, r0).(inService := false), op, b);
    case RackRestore(b0, c0, r0) => RackRowAt(s, b0, c0, r0, RackAt(s, b0, c0, r0).(inService := true), op, b);
    case BlockMaintenanceEnter(b0) => ModeAt(s, b0, Maintenance, op, b);
    case BlockMaintenanceExit(b0) => ModeAt(s, b0, InService, op, b);
    case AlarmReset(_) => ResetSetsBlock(s, op, b);
  }

  /** What a reset is to a block: no change of mode, and a reset if its scope is the site or
      the block. */
  lemma ResetSets(op: Op, b: nat)
    requires (op.OpApply? || op.OpDirect?) && op.action.AlarmReset?
    ensures ModeBy(op, b).None?
    ensures ResetsBlock(op, b) <==> op.action.scope == SiteScope || op.action.scope == BlockScope(b)
  {}

  lemma ResetSetsBlock(s: Site, op: Op, b: nat)
    requires b < |s.blocks| && (op.OpApply? || op.OpDirect?) && op.action.AlarmReset? && Dispatch(s, op.action).Ok?
    ensures var next := Dispatch(s, op.action).value.site;
      |next.blocks| == |s.blocks| && BlockCommanded(s, op, b, next.blocks[b])
  {
    hide ResetSiteEvents, ResetBlockEvents, WordChanges, ResetContainers, ClearTrips, WithBlock, WithRack, ModeBy,
      ResetsBlock;
    ResetSets(op, b);
    match op.action.scope
    case SiteScope => assert ResetBlocks(s.blocks, |s.blocks|)[b] == ResetBlock(s.blocks[b]);
    case BlockScope(b0) => BlockAt(s, b0, ResetBlock(s.blocks[b0]), op, b);
    case RackScope(b0, c0, r0) => RackRowAt(s, b0, c0, r0, ResetRack(RackAt(s, b0, c0, r0)), op, b);
  }

  lemma NamedBlockAccepted(s: Site, op: Op, b: nat)
    requires b < |s.blocks| && (op.OpApply? || op.OpDirect?) && Dispatch(s, op.action).Err?
    ensures Spares(op, b)
  {
    FaultAccepted(s, op, b);
    hide ResetAlarms, TripProtection, ResetsBlock;
  }

  /** Between ticks, a block's mode, converter, miss timer and word. */
  lemma OpSetsBlock(pl: Plant, s: Site, op: Op, b: nat)
    requires b < |s.blocks| && !op.OpTick?
    ensures |Exec(pl, s, op).blocks| == |s.blocks| && BlockCommanded(s, op, b, Exec(pl, s, op).blocks[b])
  {
    hide Tick, Dispatch;
    match op
    case OpSetpoint(_) => assert Spares(op, b);
    case OpApply(a) => if Dispatch(s, a).Ok? { DispatchSetsBlock(s, op, b); } else { NamedBlockAccepted(s, op, b); }
    case OpDirect(a) => if Dispatch(s, a).Ok? { DispatchSetsBlock(s, op, b); } else { NamedBlockAccepted(s, op, b); }
  }

  lemma TickKeepsMode(pl: Plant, s: Site, inputs: Inputs, b: nat)
    requires b < |s.blocks|
    ensures |Tick(pl, s, inputs).blocks| == |s.blocks| && Tick(pl, s, inputs).blocks[b].mode == s.blocks[b].mode
  {
    hide Emitted, EmsAfter, AuxTick, SubstationTick, EnergyAfter, AlarmsAfter, SiteShareW, InSet, NextBlocks,
      ContainersTick, PerRackW, DcW, BlockWord, MissS, Finalize;
    NextBlocksAt(pl, s, inputs.weather, |s.blocks|, b);
  }

  /** On every run a block is in maintenance exactly when the last command to enter or exit
      it was an enter. */
  lemma {:induction false} BlockModeHolds(pl: Plant, s: Site, ops: seq<Op>, b: nat)
    requires b < |s.blocks|
    ensures var end := StateAfter(pl, s, ops);
      |end.blocks| == |s.blocks| && end.blocks[b].mode == Written(ops, op => ModeBy(op, b), s.blocks[b].mode)
  {
    hide Exec, ModeBy;
    if ops != [] {
      var mid, op := StateAfter(pl, s, Init(ops)), Last(ops);
      BlockModeHolds(pl, s, Init(ops), b);
      if op.OpTick? {
        TickSetsNoMode(pl, mid, op, b);
      } else {
        OpSetsBlock(pl, mid, op, b);
      }
    }
  }

  lemma TickSetsNoMode(pl: Plant, s: Site, op: Op, b: nat)
    requires b < |s.blocks| && op.OpTick?
    ensures ModeBy(op, b).None? && |Exec(pl, s, op).blocks| == |s.blocks|
        && Exec(pl, s, op).blocks[b].mode == s.blocks[b].mode
  {
    hide Tick;
    TickKeepsMode(pl, s, op.inputs, b);
  }

  // ----- The site --------------------------------------------------------------------------------

  lemma OnlyBlocks(s: Site)
    ensures forall b: nat, block :: b < |s.blocks| ==> OnlyBlocksOf(s, WithBlock(s, b, block))
    ensures forall b: nat, c: nat, container :: HasContainer(s, b, c) ==>
        OnlyBlocksOf(s, WithContainer(s, b, c, container))
    ensures forall b: nat, c: nat, r: nat, rack :: HasRack(s.blocks, b, c, r) ==>
      OnlyBlocksOf(s, WithRack(s, b, c, r, rack))
  {}

  predicate OnlyBlocksOf(s: Site, next: Site) {
    next == s.(blocks := next.blocks)
  }

  lemma DispatchSetsSite(s: Site, op: Op)
    requires (op.OpApply? || op.OpDirect?) && Dispatch(s, op.action).Ok?
    ensures SiteCommanded(s, op, Dispatch(s, op.action).value.site)
  {
    hide ResetSiteEvents, ResetBlockEvents, TripEvents, WordChanges, ResetBlocks, AllTripped, ResetBlock, ClearTrips,
      WithBlock, WithContainer, WithRack;
    OnlyBlocks(s);
    match op.action
    case AlarmReset(_) =>
    case ProtectionTrip =>
    case _ =>
  }

  /** The site word and what no command touches. */
  predicate SiteCommanded(s: Site, op: Op, next: Site) {
    && next.alarms == (if IsTrip(op) then s.alarms + {PROTECTION_TRIP}
                       else if IsSiteReset(op) then ClearTrips(s.alarms) else s.alarms)
    && next.weather == s.weather && next.aux == s.aux && next.energy == s.energy && next.eventCount == s.eventCount
    && next.ems.siteSetpointW == s.ems.siteSetpointW && next.ems.availableDischargeW == s.ems.availableDischargeW
    && next.ems.availableChargeW == s.ems.availableChargeW
  }

  /** Between ticks, the site's own word: a protection trip latches its bit, a site reset
      clears the latched half, and nothing else writes it; what a tick measured stays. */
  lemma OpSetsSite(pl: Plant, s: Site, op: Op)
    requires !op.OpTick?
    ensures SiteCommanded(s, op, Exec(pl, s, op))
  {
    hide Tick, Dispatch, ClearTrips;
    match op
    case OpSetpoint(_) =>
    case OpApply(a) => DoorSetsSite(s, op);
    case OpDirect(a) => DoorSetsSite(s, op);
  }

  lemma DoorSetsSite(s: Site, op: Op)
    requires op.OpApply? || op.OpDirect?
    ensures SiteCommanded(s, op, Commanded(s, op.action)) && SiteCommanded(s, op, Applied(s, op.action))
  {
    hide Dispatch, ClearTrips;
    if Dispatch(s, op.action).Ok? {
      DispatchSetsSite(s, op);
    } else {
      AlwaysAccepted(s, op);
    }
  }

  lemma AlwaysAccepted(s: Site, op: Op)
    requires (op.OpApply? || op.OpDirect?) && Dispatch(s, op.action).Err?
    ensures !IsTrip(op) && !IsSiteReset(op)
  {
    hide TripProtection, ResetSite, ResetSiteEvents, ResetBlock, ResetBlockEvents;
  }

  // ----- HVAC units ----------------------------------------------------------------------------

  lemma OpSetsFailed(pl: Plant, s: Site, op: Op, b: nat, c: nat)
    requires HasContainer(s, b, c)
    ensures HasContainer(Exec(pl, s, op), b, c)
        && HvacAt(Exec(pl, s, op), b, c).failed == Or(FailedBy(op, b, c), HvacAt(s, b, c).failed)
  {
    hide Tick, Dispatch, StepHvac;
    if op.OpTick? {
      TickStepsHvac(pl, s, op.inputs, b, c);
      StepKeepsFlag(pl.thermal, HvacAt(s, b, c), s.blocks[b].containers[c].airTempC);
    } else if (op.OpApply? || op.OpDirect?) && Dispatch(s, op.action).Ok? {
      DispatchKeepsHvac(s, op.action, b, c);
    } else if op.OpApply? || op.OpDirect? {
      NamedUnitAccepted(s, op, b, c);
    }
  }

  lemma NamedUnitAccepted(s: Site, op: Op, b: nat, c: nat)
    requires HasContainer(s, b, c) && (op.OpApply? || op.OpDirect?) && Dispatch(s, op.action).Err?
    ensures FailedBy(op, b, c).None?
  {
    hide ResetAlarms, TripProtection;
  }

  /** On every run a unit is failed exactly when the last failure or repair of it was a
      failure. */
  lemma {:induction false} FailureHolds(pl: Plant, s: Site, ops: seq<Op>, b: nat, c: nat)
    requires HasContainer(s, b, c)
    ensures var end := StateAfter(pl, s, ops);
      HasContainer(end, b, c)
      && HvacAt(end, b, c).failed == Written(ops, op => FailedBy(op, b, c), HvacAt(s, b, c).failed)
  {
    hide Exec, FailedBy, HasContainer;
    if ops != [] {
      FailureHolds(pl, s, Init(ops), b, c);
      OpSetsFailed(pl, StateAfter(pl, s, Init(ops)), Last(ops), b, c);
    }
  }
}
