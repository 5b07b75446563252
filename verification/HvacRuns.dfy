/** The HVAC units along a run: what a container's unit does from tick to tick is what its
    controller makes of the air temperatures and failures the run brings, so that every law
    of traces is a law of runs. */
module HvacRuns {
  import opened Reals
  import opened State
  import opened Log
  import opened Thermal
  import opened CoolingLaws
  import opened Substations
  import opened Converter
  import opened Plants
  import opened Kernel
  import opened Commands
  import opened Runs
  import opened RunLaws
  import opened SafetyLaws

  function HvacAt(s: Site, b: nat, c: nat): Hvac
    requires HasContainer(s, b, c)
  {
    s.blocks[b].containers[c].hvac
  }

  // ----- One operation --------------------------------------------------------------------

  /** A tick steps the unit once, at the air temperature the tick finds. */
  lemma TickStepsHvac(pl: Plant, s: Site, inputs: Inputs, b: nat, c: nat)
    requires HasContainer(s, b, c)
    ensures var next := Tick(pl, s, inputs);
      HasContainer(next, b, c)
      && HvacAt(next, b, c) == StepHvac(pl.thermal, HvacAt(s, b, c), s.blocks[b].containers[c].airTempC, TICK)
  {
    hide Emitted, EmsAfter, AuxTick, SubstationTick, EnergyAfter, AlarmsAfter, SiteShareW, InSet, NextBlocks, BlockTick,
      StepHvac;
    NextBlocksAt(pl, s, inputs.weather, |s.blocks|, b);
    BlockStepsHvac(pl, s.blocks[b], InSet(pl, s, b), SiteShareW(pl, s), inputs.weather, c);
  }

  lemma BlockStepsHvac(pl: Plant, b: Block, inSet: bool, share: real, weather: Weather, c: nat)
    requires c < |b.containers|
    ensures var next := BlockTick(pl, b, inSet, share, weather);
      |next.containers| == |b.containers|
      && next.containers[c].hvac == StepHvac(pl.thermal, b.containers[c].hvac, b.containers[c].airTempC, TICK)
  {
    hide ContainersTick, PerRackW, DcW, Finalize, BlockWord, MissS, StepHvac, RackRow, HeatRow, Alarmed, RacksWarmed,
      CellsToAirW, EnvelopeGainW;
    ContainersTickAt(pl, b.containers, PerRackW(pl, b, inSet, share), weather, |b.containers|, c);
  }

  lemma ContainerPut(s: Site, b0: nat, c0: nat, container: Container, b: nat, c: nat)
    requires HasContainer(s, b0, c0) && HasContainer(s, b, c)
    ensures var next := WithContainer(s, b0, c0, container);
      HasContainer(next, b, c) && HvacAt(next, b, c) == if (b, c) == (b0, c0) then container.hvac else HvacAt(s, b, c)
  {}

  lemma RackPut(s: Site, b0: nat, c0: nat, r0: nat, rack: Rack, b: nat, c: nat)
    requires HasRack(s.blocks, b0, c0, r0) && HasContainer(s, b, c)
    ensures var next := WithRack(s, b0, c0, r0, rack); HasContainer(next, b, c) && HvacAt(next, b, c) == HvacAt(s, b, c)
  {
    var container := s.blocks[b0].containers[c0];
    ContainerPut(s, b0, c0, container.(racks := container.racks[r0 := rack]), b, c);
    hide WithContainer;
  }

  lemma BlockPut(s: Site, b0: nat, block: Block, b: nat, c: nat)
    requires b0 < |s.blocks| && HasContainer(s, b, c) && |block.containers| == |s.blocks[b0].containers|
    requires forall k :: 0 <= k < |block.containers| ==> block.containers[k].hvac == s.blocks[b0].containers[k].hvac
    ensures var next := WithBlock(s, b0, block); HasContainer(next, b, c) && HvacAt(next, b, c) == HvacAt(s, b, c)
  {}

  lemma ResetKeepsHvac(block: Block)
    ensures |ResetBlock(block).containers| == |block.containers|
    ensures forall k :: 0 <= k < |block.containers| ==> ResetBlock(block).containers[k].hvac == block.containers[k].hvac
  {
    var next := ResetBlock(block);
    forall k | 0 <= k < |block.containers|
      ensures next.containers[k].hvac == block.containers[k].hvac
    {
      assert next.containers[k] == ResetContainer(block.containers[k]);
    }
  }

  /** What an action leaves of a unit's failure flag. */
  function FailedAfter(a: FaultAction, b: nat, c: nat, failed: bool): bool {
    if a == HvacFailure(b, c) then true else if a == HvacRepair(b, c) then false else failed
  }

  /** An accepted action changes nothing of a unit but the flag its own failure or repair
      sets. */
  lemma DispatchKeepsHvac(s: Site, a: FaultAction, b: nat, c: nat)
    requires HasContainer(s, b, c) && Dispatch(s, a).Ok?
    ensures var next := Dispatch(s, a).value.site;
      HasContainer(next, b, c)
      && HvacAt(next, b, c) == HvacAt(s, b, c).(failed := FailedAfter(a, b, c, HvacAt(s, b, c).failed))
  {
    hide ResetAlarms, AllTripped, TripEvents, WithBlock, WithContainer, WithRack;
    match a
    case HvacFailure(b0, c0) =>
      var container := s.blocks[b0].containers[c0];
      ContainerPut(s, b0, c0, container.(hvac := container.hvac.(failed := true)), b, c);
    case HvacRepair(b0, c0) =>
      var container := s.blocks[b0].containers[c0];
      ContainerPut(s, b0, c0, container.(hvac := container.hvac.(failed := false)), b, c);
    case PcsTrip(b0) => BlockPut(s, b0, Tripped(s.blocks[b0]), b, c);
    case ProtectionTrip =>
    case RackSelfDischarge(b0, c0, r0, ppm) =>
      RackPut(s, b0, c0, r0, RackAt(s, b0, c0, r0).(selfDischargeExcess := ppm as real * 0.000001 / DAY_S), b, c);
    case RackIsolate(b0, c0, r0) => RackPut(s, b0, c0, r0, RackAt(s, b0, c0, r0).(inService := false), b, c);
    case RackRestore(b0, c0, r0) => RackPut(s, b0, c0, r0, RackAt(s, b0, c0, r0).(inService := true), b, c);
    case BlockMaintenanceEnter(b0) => BlockPut(s, b0, s.blocks[b0].(mode := Maintenance), b, c);
    case BlockMaintenanceExit(b0) => BlockPut(s, b0, s.blocks[b0].(mode := InService), b, c);
    case AlarmReset(scope) => ResetKeepsUnits(s, scope, b, c);
  }

  lemma ResetKeepsUnits(s: Site, scope: Scope, b: nat, c: nat)
    requires HasContainer(s, b, c) && ResetAlarms(s, scope).Ok?
    ensures var next := ResetAlarms(s, scope).value.site;
      HasContainer(next, b, c) && HvacAt(next, b, c) == HvacAt(s, b, c)
  {
    hide ResetBlock, ResetSiteEvents, ResetBlockEvents, WithBlock, WithRack, ResetBlocksEvents;
    match scope
    case SiteScope =>
      assert ResetBlocks(s.blocks, |s.blocks|)[b] == ResetBlock(s.blocks[b]);
      ResetKeepsHvac(s.blocks[b]);
    case BlockScope(b0) =>
      ResetKeepsHvac(s.blocks[b0]);
      BlockPut(s, b0, ResetBlock(s.blocks[b0]), b, c);
    case RackScope(b0, c0, r0) => RackPut(s, b0, c0, r0, ResetRack(RackAt(s, b0, c0, r0)), b, c);
  }

  /** Between ticks only a unit's failure flag changes. */
  lemma OpKeepsHvac(pl: Plant, s: Site, op: Op, b: nat, c: nat)
    requires HasContainer(s, b, c) && !op.OpTick?
    ensures var next := Exec(pl, s, op);
      HasContainer(next, b, c) && HvacAt(next, b, c) == HvacAt(s, b, c).(failed := HvacAt(next, b, c).failed)
      && (!HvacAt(s, b, c).failed && !IsAction(op, HvacFailure(b, c)) ==> !HvacAt(next, b, c).failed)
  {
    hide Tick, Dispatch;
    if (op.OpApply? || op.OpDirect?) && Dispatch(s, op.action).Ok? {
      DispatchKeepsHvac(s, op.action, b, c);
    }
  }

  // ----- The trace of a run ------------------------------------------------------------------------

  /** What a tick brings a unit: the air it finds, and whether the unit is failed. */
  function Moments(s: Site, op: Op, b: nat, c: nat): seq<Moment> {
    if op.OpTick? && HasContainer(s, b, c)
    then [Moment(s.blocks[b].containers[c].airTempC, HvacAt(s, b, c).failed)] else []
  }

  function RunTrace(pl: Plant, s: Site, ops: seq<Op>, b: nat, c: nat): seq<Moment> {
    if ops == [] then []
    else RunTrace(pl, s, Init(ops), b, c) + Moments(StateAfter(pl, s, Init(ops)), Last(ops), b, c)
  }

  /** The controller at moment k reads no later moment. */
  lemma {:induction false} AtPrefix(m: LumpedThermal, h: Hvac, trace: seq<Moment>, more: seq<Moment>, dt: real, k: nat)
    requires k <= |trace|
    ensures At(m, h, trace + more, dt, k) == At(m, h, trace, dt, k)
  {
    hide StepHvac;
    if k > 0 { AtPrefix(m, h, trace, more, dt, k - 1); }
  }

  /** The bridge: after any run a container's unit is its controller after the trace of that
      run, one moment per tick, up to a failure or repair since the last tick. */
  lemma {:induction false} RunFollowsTrace(pl: Plant, s: Site, ops: seq<Op>, b: nat, c: nat)
    requires HasContainer(s, b, c)
    ensures var end, trace := StateAfter(pl, s, ops), RunTrace(pl, s, ops, b, c);
      && HasContainer(end, b, c) && |trace| == Ticks(ops)
      && HvacAt(end, b, c) == At(pl.thermal, HvacAt(s, b, c), trace, TICK, |trace|).(failed := HvacAt(end, b, c).failed)
  {
    hide Exec, StepHvac, HasContainer;
    if ops != [] {
      var mid, op, before := StateAfter(pl, s, Init(ops)), Last(ops), RunTrace(pl, s, Init(ops), b, c);
      RunFollowsTrace(pl, s, Init(ops), b, c);
      if op.OpTick? {
        TickFollows(pl, s, mid, op.inputs, before, b, c);
      } else {
        OpKeepsHvac(pl, mid, op, b, c);
        assert before + [] == before;
      }
    }
  }

  lemma TickFollows(pl: Plant, s: Site, mid: Site, inputs: Inputs, before: seq<Moment>, b: nat, c: nat)
    requires HasContainer(s, b, c) && HasContainer(mid, b, c)
    requires HvacAt(mid, b, c)
      == At(pl.thermal, HvacAt(s, b, c), before, TICK, |before|).(failed := HvacAt(mid, b, c).failed)
    ensures var next, trace := Exec(pl, mid, OpTick(inputs)), before + Moments(mid, OpTick(inputs), b, c);
      && HasContainer(next, b, c) && |trace| == |before| + 1
      && HvacAt(next, b, c) == At(pl.thermal, HvacAt(s, b, c), trace, TICK, |trace|)
  {
    hide Tick, StepHvac;
    var moment := Moment(mid.blocks[b].containers[c].airTempC, HvacAt(mid, b, c).failed);
    AtPrefix(pl.thermal, HvacAt(s, b, c), before, [moment], TICK, |before|);
    TickStepsHvac(pl, mid, inputs, b, c);
  }

  // ----- The trace laws along a run --------------------------------------------------------------

  /** The mode of a unit after the first k operations of a run. */
  function ModeAfter(pl: Plant, s: Site, ops: seq<Op>, b: nat, c: nat, k: nat): HvacMode
    requires k <= |ops|
  {
    var at := StateAfter(pl, s, ops[..k]);
    if HasContainer(at, b, c) then HvacAt(at, b, c).mode else Off
  }

  /** At every point of a run the unit is in the mode its controller has reached. */
  lemma {:induction false} ModeFollows(pl: Plant, s: Site, ops: seq<Op>, b: nat, c: nat, k: nat)
    requires HasContainer(s, b, c) && k <= |ops|
    ensures var trace, n := RunTrace(pl, s, ops, b, c), Ticks(ops[..k]);
      && n <= Ticks(ops) == |trace|
      && ModeAfter(pl, s, ops, b, c, k) == At(pl.thermal, HvacAt(s, b, c), trace, TICK, n).mode
    decreases |ops|
  {
    hide StateAfter, At, HasContainer, Moments;
    RunFollowsTrace(pl, s, ops, b, c);
    if k == |ops| {
      assert ops[..k] == ops;
    } else {
      var init, more := Init(ops), Moments(StateAfter(pl, s, Init(ops)), Last(ops), b, c);
      assert ops[..k] == init[..k];
      ModeFollows(pl, s, init, b, c, k);
      AtPrefix(pl.thermal, HvacAt(s, b, c), RunTrace(pl, s, init, b, c), more, TICK, Ticks(init[..k]));
    }
  }

  /** Operation i is a tick in which the last compressor of the unit stops. */
  predicate StopsIn(pl: Plant, s: Site, ops: seq<Op>, b: nat, c: nat, i: nat)
    requires i < |ops|
  {
    ops[i].OpTick? && Cooling(ModeAfter(pl, s, ops, b, c, i)) && !Cooling(ModeAfter(pl, s, ops, b, c, i + 1))
  }

  /** Operation i is a tick in which the unit starts cooling from a stopped compressor. */
  predicate StartsIn(pl: Plant, s: Site, ops: seq<Op>, b: nat, c: nat, i: nat)
    requires i < |ops|
  {
    ops[i].OpTick? && !Cooling(ModeAfter(pl, s, ops, b, c, i)) && Cooling(ModeAfter(pl, s, ops, b, c, i + 1))
  }

  /** The tick of an operation, among those of its run. */
  lemma TickOf(pl: Plant, s: Site, ops: seq<Op>, b: nat, c: nat, i: nat)
    requires HasContainer(s, b, c) && i < |ops| && ops[i].OpTick?
    ensures var trace, n := RunTrace(pl, s, ops, b, c), Ticks(ops[..i]);
      && n < |trace| && Ticks(ops[..i + 1]) == n + 1
      && (StopsIn(pl, s, ops, b, c, i) <==> StopsAt(pl.thermal, HvacAt(s, b, c), trace, TICK, n))
      && (StartsIn(pl, s, ops, b, c, i) <==> StartsAt(pl.thermal, HvacAt(s, b, c), trace, TICK, n))
  {
    hide StateAfter, At, HasContainer, RunTrace, ModeAfter, Cooling;
    assert ops[..i + 1][..i] == ops[..i];
    ModeFollows(pl, s, ops, b, c, i);
    ModeFollows(pl, s, ops, b, c, i + 1);
  }

  lemma {:induction false} TicksMono(ops: seq<Op>, i: nat, j: nat)
    requires i <= j <= |ops|
    ensures Ticks(ops[..i]) <= Ticks(ops[..j])
  {
    if i < j {
      assert ops[..j][..j - 1] == ops[..j - 1];
      TicksMono(ops, i, j - 1);
    }
  }

  /** On every run a unit whose compressors stopped cools again no sooner than its minimum
      off time, whatever weather, heat, failures, repairs and commands come in between. */
  lemma RunNoEarlyRestart(pl: Plant, s: Site, ops: seq<Op>, b: nat, c: nat, i: nat, j: nat)
    requires HasContainer(s, b, c) && i < j < |ops| && StopsIn(pl, s, ops, b, c, i) && StartsIn(pl, s, ops, b, c, j)
    ensures pl.thermal.minOffS <= Elapsed(Ticks(ops[..j]) - Ticks(ops[..i]) - 1, TICK)
  {
    hide StopsAt, StartsAt, RunTrace, HasContainer, Elapsed, Ticks, ModeAfter, Cooling;
    TickOf(pl, s, ops, b, c, i);
    TickOf(pl, s, ops, b, c, j);
    TicksMono(ops, i + 1, j);
    hide StopsIn, StartsIn;
    NoEarlyRestart(pl.thermal, HvacAt(s, b, c), RunTrace(pl, s, ops, b, c), TICK, Ticks(ops[..i]), Ticks(ops[..j]));
  }

  /** Ticks of a run in which the unit starts cooling. */
  function RunStarts(pl: Plant, s: Site, ops: seq<Op>, b: nat, c: nat, k: nat): nat
    requires k <= |ops|
  {
    if k == 0 then 0
    else RunStarts(pl, s, ops, b, c, k - 1) + (if StartsIn(pl, s, ops, b, c, k - 1) then 1 else 0)
  }

  lemma {:induction false} RunStartsAre(pl: Plant, s: Site, ops: seq<Op>, b: nat, c: nat, k: nat)
    requires HasContainer(s, b, c) && k <= |ops|
    ensures var trace, n := RunTrace(pl, s, ops, b, c), Ticks(ops[..k]);
      n <= |trace| && RunStarts(pl, s, ops, b, c, k) == Starts(pl.thermal, HvacAt(s, b, c), trace, TICK, n)
  {
    hide RunTrace, HasContainer, StartsAt, ModeAfter, Cooling;
    if k > 0 {
      RunStartsAre(pl, s, ops, b, c, k - 1);
      assert ops[..k][..k - 1] == ops[..k - 1];
      if ops[k - 1].OpTick? { TickOf(pl, s, ops, b, c, k - 1); }
    }
  }

  lemma {:induction false} HealthyTrace(pl: Plant, s: Site, ops: seq<Op>, b: nat, c: nat)
    requires HasContainer(s, b, c) && !HvacAt(s, b, c).failed
    requires forall op <- ops :: !IsAction(op, HvacFailure(b, c))
    ensures var end := StateAfter(pl, s, ops); HasContainer(end, b, c) && !HvacAt(end, b, c).failed
    ensures forall x <- RunTrace(pl, s, ops, b, c) :: !x.failed
  {
    hide Exec, HasContainer, IsAction, Moments;
    if ops != [] {
      assert Last(ops) in ops && forall op <- Init(ops) :: op in ops;
      HealthyTrace(pl, s, Init(ops), b, c);
      OpHealthy(pl, StateAfter(pl, s, Init(ops)), Last(ops), b, c);
    }
  }

  lemma OpHealthy(pl: Plant, s: Site, op: Op, b: nat, c: nat)
    requires HasContainer(s, b, c) && !HvacAt(s, b, c).failed && !IsAction(op, HvacFailure(b, c))
    ensures HasContainer(Exec(pl, s, op), b, c) && !HvacAt(Exec(pl, s, op), b, c).failed
    ensures forall x <- Moments(s, op, b, c) :: !x.failed
  {
    hide Tick, StepHvac, Dispatch;
    if op.OpTick? {
      TickStepsHvac(pl, s, op.inputs, b, c);
      StepKeepsFlag(pl.thermal, HvacAt(s, b, c), s.blocks[b].containers[c].airTempC);
    } else {
      OpKeepsHvac(pl, s, op, b, c);
    }
  }

  lemma StepKeepsFlag(m: LumpedThermal, h: Hvac, air: real)
    ensures StepHvac(m, h, air, TICK).failed == h.failed
  {}

  /** On every run that does not fail it, a unit starts cooling at most once, and once more
      per whole protected cycle. */
  lemma RunStartsBounded(pl: Plant, s: Site, ops: seq<Op>, b: nat, c: nat)
    requires HasContainer(s, b, c) && !HvacAt(s, b, c).failed
    requires forall op <- ops :: !IsAction(op, HvacFailure(b, c))
    ensures 0 < CycleTicks(pl.thermal, TICK)
    ensures RunStarts(pl, s, ops, b, c, |ops|) <= 1 + Ticks(ops) / CycleTicks(pl.thermal, TICK)
  {
    hide RunTrace, HasContainer, RunStarts, Starts, CycleTicks, IsAction;
    assert ops[..|ops|] == ops;
    CyclePositive(pl.thermal, TICK);
    HealthyTrace(pl, s, ops, b, c);
    RunStartsAre(pl, s, ops, b, c, |ops|);
    RunFollowsTrace(pl, s, ops, b, c);
    StartsBounded(pl.thermal, HvacAt(s, b, c), RunTrace(pl, s, ops, b, c), TICK);
  }

  /** On every run that stays cold and healthy for a container, its unit heats exactly from
      the tick its delay names. */
  lemma RunHeats(pl: Plant, s: Site, ops: seq<Op>, b: nat, c: nat)
    requires HasContainer(s, b, c) && 1 <= Ticks(ops)
    requires BandsOrdered(pl.thermal) && ColdAndHealthy(pl.thermal, RunTrace(pl, s, ops, b, c))
    ensures var end, h := StateAfter(pl, s, ops), HvacAt(s, b, c);
      HasContainer(end, b, c)
      && (HvacAt(end, b, c).mode == Heat <==> HeatingDelay(pl.thermal, h.mode, h.holdS, TICK) <= Ticks(ops))
  {
    hide RunTrace, StateAfter, HasContainer, At, HeatingDelay, ColdAndHealthy;
    RunFollowsTrace(pl, s, ops, b, c);
    HeatingComes(pl.thermal, HvacAt(s, b, c), RunTrace(pl, s, ops, b, c), TICK, Ticks(ops));
  }

  /** On every run that stays hot and healthy for a container, a stopped unit cools exactly
      from the tick its remaining protection names, and one that cools goes on. */
  lemma RunCools(pl: Plant, s: Site, ops: seq<Op>, b: nat, c: nat)
    requires HasContainer(s, b, c) && 1 <= Ticks(ops)
    requires StartsAbove(pl.thermal) && HotAndHealthy(pl.thermal, RunTrace(pl, s, ops, b, c))
    ensures var end, h := StateAfter(pl, s, ops), HvacAt(s, b, c);
      HasContainer(end, b, c) && HvacAt(end, b, c).mode != Heat
      && (Cooling(HvacAt(end, b, c).mode) <==> CoolingDelay(h.mode, h.holdS, TICK) <= Ticks(ops))
  {
    hide RunTrace, StateAfter, HasContainer, At, CoolingDelay, HotAndHealthy, Cooling;
    RunFollowsTrace(pl, s, ops, b, c);
    CoolingComes(pl.thermal, HvacAt(s, b, c), RunTrace(pl, s, ops, b, c), TICK, Ticks(ops));
  }

  /** And on every run that stays cool and healthy for it, its unit cools up to exactly the
      tick its timers name. */
  lemma RunCoolingEnds(pl: Plant, s: Site, ops: seq<Op>, b: nat, c: nat)
    requires HasContainer(s, b, c) && CoolAndHealthy(pl.thermal, RunTrace(pl, s, ops, b, c))
    ensures var end, h := StateAfter(pl, s, ops), HvacAt(s, b, c);
      HasContainer(end, b, c)
      && (Cooling(HvacAt(end, b, c).mode) <==> Ticks(ops) < StopDelay(pl.thermal, h.mode, h.holdS, TICK))
  {
    hide RunTrace, StateAfter, HasContainer, At, StopDelay, CoolAndHealthy, Cooling;
    RunFollowsTrace(pl, s, ops, b, c);
    CoolingEnds(pl.thermal, HvacAt(s, b, c), RunTrace(pl, s, ops, b, c), TICK, Ticks(ops));
  }
}
