/** Every run: any interleaving of ticks, fault actions, direct commands and setpoints. */
module Runs {
  import opened Wrappers
  import opened State
  import opened Words
  import opened Log
  import opened Cell
  import opened Plants
  import opened Kernel
  import opened Commands
  import opened CommandLaws
  import opened TickLaws
  import opened SiteLaws

  datatype Op =
    | OpTick(inputs: Inputs)
    | OpApply(action: FaultAction)
    | OpDirect(action: FaultAction)
    | OpSetpoint(setpoint: Option<real>)

  /** Write or clear the external setpoint. */
  function SetExternalSetpoint(s: Site, p: Option<real>): Site {
    s.(ems := match p
       case Some(w) => s.ems.(mode := External, externalSetpointW := w)
       case None => s.ems.(mode := FollowPlan, externalSetpointW := 0.0))
  }

  function Exec(pl: Plant, s: Site, op: Op): Site {
    match op
    case OpTick(inputs) => Tick(pl, s, inputs)
    case OpApply(a) => Applied(s, a)
    case OpDirect(a) => Commanded(s, a)
    case OpSetpoint(p) => SetExternalSetpoint(s, p)
  }

  /** The events an operation hands out: those of a tick. */
  function HandedOut(pl: Plant, s: Site, op: Op): seq<Event> {
    if op.OpTick? then Emitted(pl, s, op.inputs) else []
  }

  function StateAfter(pl: Plant, s: Site, ops: seq<Op>): Site {
    if ops == [] then s else Exec(pl, StateAfter(pl, s, ops[..|ops| - 1]), ops[|ops| - 1])
  }

  function RunLog(pl: Plant, s: Site, ops: seq<Op>): seq<Event> {
    if ops == [] then []
    else RunLog(pl, s, ops[..|ops| - 1]) + HandedOut(pl, StateAfter(pl, s, ops[..|ops| - 1]), ops[|ops| - 1])
  }

  // ----- Commands keep the invariant --------------------------------------------------------

  lemma WithBlockKeeps(pl: Plant, s: Site, b: nat, block: Block)
    requires Inv(pl, s) && b < |s.blocks|
    requires ContainersGood(pl, block.containers) && BlockWordsOk(block)
    requires block.pcs.opState == PcsOpState.Run ==> s.blocks[b].pcs.opState == PcsOpState.Run
    ensures Inv(pl, WithBlock(s, b, block))
  {
    hide ContainersGood, BlockWordsOk, WordOk;
    var next := WithBlock(s, b, block);
    forall x <- next.blocks
      ensures ContainersGood(pl, x.containers)
    {
      if x != block { assert x in s.blocks; }
    }
    forall i | 0 <= i < |next.blocks|
      ensures BlockWordsOk(next.blocks[i]) && (next.blocks[i].pcs.opState == PcsOpState.Run ==>
          s.blocks[i].pcs.opState == PcsOpState.Run)
    {
    }
  }

  lemma WithContainerKeeps(pl: Plant, s: Site, b: nat, c: nat, container: Container)
    requires Inv(pl, s) && HasContainer(s, b, c)
    requires RowGood(pl, container.racks)
    requires forall r :: 0 <= r < |container.racks| ==> WordOk(container.racks[r].alarms)
    ensures Inv(pl, WithContainer(s, b, c, container))
  {
    hide RowGood, WordOk, TripSafe;
    var old_ := s.blocks[b];
    var block := old_.(containers := old_.containers[c := container]);
    assert ContainersGood(pl, old_.containers) && BlockWordsOk(old_);
    forall x <- block.containers
      ensures RowGood(pl, x.racks)
    {
      if x != container { assert x in old_.containers; }
    }
    WithBlockKeeps(pl, s, b, block);
  }

  lemma WithRackKeeps(pl: Plant, s: Site, b: nat, c: nat, r: nat, rack: Rack)
    requires Inv(pl, s) && HasRack(s.blocks, b, c, r) && RackGood(pl, rack) && WordOk(rack.alarms)
    ensures Inv(pl, WithRack(s, b, c, r, rack))
  {
    hide RackGood, WordOk, TripSafe;
    var old_ := s.blocks[b].containers[c];
    var container := old_.(racks := old_.racks[r := rack]);
    assert ContainersGood(pl, s.blocks[b].containers) && BlockWordsOk(s.blocks[b]);
    assert RowGood(pl, old_.racks);
    forall x <- container.racks
      ensures RackGood(pl, x)
    {
      if x != rack { assert x in old_.racks; }
    }
    WithContainerKeeps(pl, s, b, c, container);
  }

  lemma RackInTree(pl: Plant, s: Site, b: nat, c: nat, r: nat)
    requires Inv(pl, s) && HasRack(s.blocks, b, c, r)
    ensures RackGood(pl, RackAt(s, b, c, r)) && WordOk(RackAt(s, b, c, r).alarms)
  {
    hide RackGood, WordOk, TripSafe;
    assert ContainersGood(pl, s.blocks[b].containers) && BlockWordsOk(s.blocks[b]);
    assert RowGood(pl, s.blocks[b].containers[c].racks);
  }

  lemma ResetBlockGood(pl: Plant, block: Block)
    requires ContainersGood(pl, block.containers) && BlockWordsOk(block)
    ensures ContainersGood(pl, ResetBlock(block).containers) && BlockWordsOk(ResetBlock(block))
    ensures ResetBlock(block).pcs.opState == PcsOpState.Run ==> block.pcs.opState == PcsOpState.Run
  {
    hide ClearTrips, WordOk;
    var next := ResetBlock(block);
    ClearTripsOk(block.alarms);
    forall c, r | 0 <= c < |next.containers| && 0 <= r < |next.containers[c].racks|
      ensures WordOk(next.containers[c].racks[r].alarms) && RackGood(pl, next.containers[c].racks[r])
    {
      assert next.containers[c] == ResetContainer(block.containers[c]);
      assert block.containers[c] in block.containers && block.containers[c].racks[r] in block.containers[c].racks;
      ClearTripsOk(block.containers[c].racks[r].alarms);
      RackGoodReset(pl, block.containers[c].racks[r]);
    }
    hide RackGood, ResetBlock;
  }

  lemma RackGoodReset(pl: Plant, rack: Rack)
    requires RackGood(pl, rack)
    ensures RackGood(pl, ResetRack(rack))
  {
    hide LowestOcvV, PolarizationBound;
  }

  lemma RackGoodSet(pl: Plant, rack: Rack, inService: bool, excess: real)
    requires RackGood(pl, rack) && 0.0 <= excess
    ensures RackGood(pl, rack.(inService := inService)) && RackGood(pl, rack.(selfDischargeExcess := excess))
  {
    hide LowestOcvV, PolarizationBound;
  }

  lemma TripKeepsInv(pl: Plant, s: Site)
    requires Inv(pl, s)
    ensures Inv(pl, TripProtection(s).site)
  {
    hide ContainersGood, WordOk;
    var next := TripProtection(s).site;
    if PROTECTION_TRIP !in s.alarms {
      TrippedWordOk(s.alarms);
      forall i | 0 <= i < |s.blocks|
        ensures ContainersGood(pl, next.blocks[i].containers) && BlockWordsOk(next.blocks[i])
      {
        assert s.blocks[i] in s.blocks;
      }
    }
  }

  lemma TrippedWordOk(w: Word)
    requires WordOk(w)
    ensures WordOk(WithBit(w, PROTECTION_TRIP, true))
  {}

  lemma ResetSiteKeepsInv(pl: Plant, s: Site)
    requires Inv(pl, s)
    ensures Inv(pl, ResetSite(s))
  {
    hide ContainersGood, WordOk, ResetBlock, BlockWordsOk;
    var next := ResetSite(s);
    ClearTripsOk(s.alarms);
    forall i | 0 <= i < |s.blocks|
      ensures ContainersGood(pl, next.blocks[i].containers) && BlockWordsOk(next.blocks[i])
    {
      assert s.blocks[i] in s.blocks && next.blocks[i] == ResetBlock(s.blocks[i]);
      ResetBlockGood(pl, s.blocks[i]);
    }
    hide ResetBlocks;
  }

  /** Every accepted action keeps the invariant. */
  lemma DispatchKeepsInv(pl: Plant, s: Site, a: FaultAction)
    requires Inv(pl, s) && Dispatch(s, a).Ok?
    ensures Inv(pl, Dispatch(s, a).value.site)
  {
    hide Inv, ResetSite, TripProtection, WithRack, WithContainer, WithBlock, ResetBlock, RackGood;
    match a
    case HvacFailure(b, c) => HvacKeepsInv(pl, s, b, c, true);
    case HvacRepair(b, c) => HvacKeepsInv(pl, s, b, c, false);
    case PcsTrip(b) =>
      BlockInTree(pl, s, b);
      WithBlockKeeps(pl, s, b, Tripped(s.blocks[b]));
    case ProtectionTrip => TripKeepsInv(pl, s);
    case RackSelfDischarge(b, c, r, ppm) =>
      RackInTree(pl, s, b, c, r);
      RackGoodSet(pl, RackAt(s, b, c, r), true, ppm as real * 0.000001 / DAY_S);
      WithRackKeeps(pl, s, b, c, r, RackAt(s, b, c, r).(selfDischargeExcess := ppm as real * 0.000001 / DAY_S));
    case RackIsolate(b, c, r) =>
      RackInTree(pl, s, b, c, r);
      RackGoodSet(pl, RackAt(s, b, c, r), false, 0.0);
      WithRackKeeps(pl, s, b, c, r, RackAt(s, b, c, r).(inService := false));
    case RackRestore(b, c, r) =>
      RackInTree(pl, s, b, c, r);
      RackGoodSet(pl, RackAt(s, b, c, r), true, 0.0);
      WithRackKeeps(pl, s, b, c, r, RackAt(s, b, c, r).(inService := true));
    case BlockMaintenanceEnter(b) =>
      BlockInTree(pl, s, b);
      WithBlockKeeps(pl, s, b, s.blocks[b].(mode := Maintenance));
    case BlockMaintenanceExit(b) =>
      BlockInTree(pl, s, b);
      WithBlockKeeps(pl, s, b, s.blocks[b].(mode := InService));
    case AlarmReset(SiteScope) => ResetSiteKeepsInv(pl, s);
    case AlarmReset(BlockScope(b)) =>
      BlockInTree(pl, s, b);
      ResetBlockGood(pl, s.blocks[b]);
      WithBlockKeeps(pl, s, b, ResetBlock(s.blocks[b]));
    case AlarmReset(RackScope(b, c, r)) =>
      RackInTree(pl, s, b, c, r);
      RackGoodReset(pl, RackAt(s, b, c, r));
      ClearTripsOk(RackAt(s, b, c, r).alarms);
      WithRackKeeps(pl, s, b, c, r, ResetRack(RackAt(s, b, c, r)));
  }

  lemma BlockInTree(pl: Plant, s: Site, b: nat)
    requires Inv(pl, s) && b < |s.blocks|
    ensures ContainersGood(pl, s.blocks[b].containers) && BlockWordsOk(s.blocks[b])
  {
    hide ContainersGood, BlockWordsOk;
  }

  lemma HvacKeepsInv(pl: Plant, s: Site, b: nat, c: nat, failed: bool)
    requires Inv(pl, s) && HasContainer(s, b, c)
    ensures Inv(pl, SetHvacFailed(s, b, c, failed).value.site)
  {
    hide RowGood, WordOk, Inv;
    BlockInTree(pl, s, b);
    var container := s.blocks[b].containers[c];
    assert container in s.blocks[b].containers;
    WithContainerKeeps(pl, s, b, c, container.(hvac := container.hvac.(failed := failed)));
  }

  lemma PendingIrrelevant(pl: Plant, s: Site, pending: seq<Event>)
    ensures Inv(pl, s.(pending := pending)) <==> Inv(pl, s)
  {
    hide BlocksGood, WordsOk;
  }

  /** Every operation keeps the invariant. */
  lemma ExecKeepsInv(pl: Plant, s: Site, op: Op)
    requires Sound(pl) && Inv(pl, s)
    ensures Inv(pl, Exec(pl, s, op))
  {
    hide Tick, Dispatch, Inv;
    match op
    case OpTick(inputs) => TickKeepsInv(pl, s, inputs);
    case OpSetpoint(p) => SetpointKeepsInv(pl, s, p);
    case OpApply(a) =>
      if Dispatch(s, a).Ok? {
        DispatchKeepsInv(pl, s, a);
        PendingIrrelevant(pl, Dispatch(s, a).value.site, Applied(s, a).pending);
      }
    case OpDirect(a) =>
      if Dispatch(s, a).Ok? {
        DispatchKeepsInv(pl, s, a);
        PendingIrrelevant(pl, Dispatch(s, a).value.site, Commanded(s, a).pending);
      }
  }

  lemma SetpointKeepsInv(pl: Plant, s: Site, p: Option<real>)
    requires Inv(pl, s)
    ensures Inv(pl, SetExternalSetpoint(s, p))
  {
    hide BlocksGood, WordsOk;
  }

  /** Every reachable tree satisfies the invariant: racks in range with a positive EMF,
      words laid out, trip and breaker in step. */
  lemma {:induction false} RunKeepsInv(pl: Plant, s: Site, ops: seq<Op>)
    requires Sound(pl) && Inv(pl, s)
    ensures Inv(pl, StateAfter(pl, s, ops))
  {
    hide Inv, Exec;
    if ops != [] {
      RunKeepsInv(pl, s, ops[..|ops| - 1]);
      ExecKeepsInv(pl, StateAfter(pl, s, ops[..|ops| - 1]), ops[|ops| - 1]);
    }
  }
}
