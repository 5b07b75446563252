/** A rack left out of service, in closed form: over any run it keeps its charge, its branch
    decays, and its spread drifts by its self-discharge. */
module IsolationLaws {
  import opened Reals
  import opened Wrappers
  import opened State
  import opened Log
  import opened Cell
  import opened Bms
  import opened Plants
  import opened Kernel
  import opened Commands
  import opened TickLaws
  import opened Runs
  import opened RunLaws
  import opened LatchLaws
  import opened FlagLaws
  import opened BleedLaws

  /** What is left of a voltage after n steps that each take the share a of it away. */
  function Decayed(v: real, a: real, n: nat): real {
    if n == 0 then v else (1.0 - a) * Decayed(v, a, n - 1)
  }

  /** The spread a rack at rest adds a second. */
  function DriftPerS(pl: Plant, rack: Rack): real {
    pl.bms.balancing.growthPerS + rack.selfDischargeExcess
  }

  // ----- One tick -------------------------------------------------------------------------

  lemma BalancedIdle(pl: Plant, rack: Rack)
    requires !rack.inService
    ensures var next := Balanced(pl, rack);
      && next.soc == rack.soc && !next.balancing && next.polarizationV == rack.polarizationV
      && next.cellDsoc == Min(rack.cellDsoc + DriftPerS(pl, rack), 1.0)
      && !next.inService
  {
    IdleAddsNothing(pl.bms.balancing, rack, pl.rackCfg, TICK);
    hide ThroughputDsoc, SpreadV, NarrowedDsoc, BledSoc, Min;
  }

  lemma SteppedIdle(pl: Plant, rack: Rack, perRack: real)
    requires !rack.inService
    ensures var next := RackStepped(pl, rack, perRack).0;
      && next.soc == rack.soc && !next.balancing && next.currentA == 0.0
      && next.cellDsoc == Min(rack.cellDsoc + DriftPerS(pl, rack), 1.0)
      && next.polarizationV == (1.0 - TICK / pl.cell.tau1) * rack.polarizationV
  {
    hide Balanced, RequestW, OcvRackV, DriftPerS, R1, Min;
    BalancedIdle(pl, rack);
    IdleStep(pl.cell, Balanced(pl, rack), pl.rackCfg, RequestW(pl, rack, perRack));
    hide StepRack;
  }

  lemma IdleStep(m: Ecm1Rc, rack: Rack, cfg: RackConfig, request: real)
    requires !rack.inService
    ensures var next := StepRack(m, rack, cfg, request, TICK).0;
      && next.soc == rack.soc && next.balancing == rack.balancing && next.cellDsoc == rack.cellDsoc
      && next.currentA == 0.0 && next.polarizationV == (1.0 - TICK / m.tau1) * rack.polarizationV
  {
    BranchRelaxes(m, rack, cfg, request, TICK);
    TerminalsShow(m, rack, cfg, request, TICK);
    NoVoltage(R1(m, rack.resistanceScale));
    hide OcvRackV, RelaxedV, R1, CurrentA;
  }

  lemma NoVoltage(r: real)
    ensures 0.0 * r == 0.0
  {}

  // ----- Every run ------------------------------------------------------------------------

  /** No operation puts the rack back in service or sets its self-discharge. */
  predicate LeavesIsolated(op: Op, b: nat, c: nat, r: nat) {
    ServiceBy(op, b, c, r) != Some(true) && ExcessBy(op, b, c, r).None?
  }

  /** Where a rack out of service is after n ticks. */
  predicate Rested(pl: Plant, first: Rack, n: nat, end: Rack) {
    && !end.inService && end.selfDischargeExcess == first.selfDischargeExcess
    && end.soc == first.soc
    && end.polarizationV == Decayed(first.polarizationV, TICK / pl.cell.tau1, n)
    && end.cellDsoc == Min(first.cellDsoc + Shares(n, DriftPerS(pl, first)), 1.0)
    && (n > 0 ==> end.currentA == 0.0 && !end.balancing)
  }

  lemma OpRests(pl: Plant, s: Site, op: Op, b: nat, c: nat, r: nat, first: Rack, n: nat)
    requires HasRack(s.blocks, b, c, r) && LeavesIsolated(op, b, c, r) && Rested(pl, first, n, RackAt(s, b, c, r))
    requires 0.0 <= DriftPerS(pl, first)
    ensures var next := Exec(pl, s, op);
      HasRack(next.blocks, b, c, r) && Rested(pl, first, if op.OpTick? then n + 1 else n, RackAt(next, b, c, r))
  {
    hide Tick, Applied, Commanded, ResetsRack, ServiceBy, ExcessBy, RackStepped, Shares, DriftPerS;
    var rack := RackAt(s, b, c, r);
    if op.OpTick? {
      TickRack(pl, s, op.inputs, b, c, r);
      SteppedIdle(pl, rack, ShareOf(pl, s, b));
      SteppedKeepsFlags(pl, rack, ShareOf(pl, s, b));
      SharesStep(n, DriftPerS(pl, first));
      SameDrift(pl, first, rack);
    } else {
      OpSetsRack(pl, s, op, b, c, r);
    }
  }

  lemma SameDrift(pl: Plant, a: Rack, b: Rack)
    requires a.selfDischargeExcess == b.selfDischargeExcess
    ensures DriftPerS(pl, a) == DriftPerS(pl, b)
  {}

  /** A rack out of service over any run that leaves it there, whatever else happens to the
      site: its charge stands still, its branch decays by the same share each tick, it draws
      nothing, it does not bleed, and its spread grows by its drift and its excess
      self-discharge each tick, up to a whole charge. */
  lemma {:induction false} IsolatedRests(pl: Plant, s: Site, ops: seq<Op>, b: nat, c: nat, r: nat)
    requires HasRack(s.blocks, b, c, r) && !RackAt(s, b, c, r).inService
    requires RackAt(s, b, c, r).cellDsoc <= 1.0 && 0.0 <= DriftPerS(pl, RackAt(s, b, c, r))
    requires forall op <- ops :: LeavesIsolated(op, b, c, r)
    ensures var end := StateAfter(pl, s, ops);
      HasRack(end.blocks, b, c, r) && Rested(pl, RackAt(s, b, c, r), Ticks(ops), RackAt(end, b, c, r))
  {
    hide Exec, LeavesIsolated, HasRack;
    if ops == [] {
      SharesStep(0, DriftPerS(pl, RackAt(s, b, c, r)));
    } else {
      assert Last(ops) in ops && forall op <- Init(ops) :: op in ops;
      IsolatedRests(pl, s, Init(ops), b, c, r);
      OpRests(pl, StateAfter(pl, s, Init(ops)), Last(ops), b, c, r, RackAt(s, b, c, r), Ticks(Init(ops)));
    }
    hide Rested;
  }

  const DAY_TICKS := 86400

  /** What a self-discharge fault of p parts per million and day means: over a day out of
      service it widens the rack's spread by p millionths of its charge, past its own
      drift. */
  lemma SelfDischargeDay(pl: Plant, s: Site, ppm: nat, ops: seq<Op>, b: nat, c: nat, r: nat)
    requires HasRack(s.blocks, b, c, r) && !RackAt(s, b, c, r).inService && RackAt(s, b, c, r).cellDsoc <= 1.0
    requires 0.0 <= pl.bms.balancing.growthPerS
    requires Ticks(ops) == DAY_TICKS && forall op <- ops :: LeavesIsolated(op, b, c, r)
    ensures var end := StateAfter(pl, s, [OpApply(RackSelfDischarge(b, c, r, ppm))] + ops);
      HasRack(end.blocks, b, c, r)
      && RackAt(end, b, c, r).cellDsoc
         == Min(RackAt(s, b, c, r).cellDsoc + 86400.0 * pl.bms.balancing.growthPerS + ppm as real / 1000000.0, 1.0)
  {
    var op := OpApply(RackSelfDischarge(b, c, r, ppm));
    var mid := StateAfter(pl, s, [op]);
    RunConcat(pl, s, [op], ops);
    OneOp(pl, s, op);
    OpSetsRack(pl, s, op, b, c, r);
    Leaky(op, b, c, r, RackAt(s, b, c, r));
    assert DriftPerS(pl, RackAt(mid, b, c, r)) == pl.bms.balancing.growthPerS + PerSecond(ppm);
    DayOf(pl.bms.balancing.growthPerS, ppm);
    IsolatedRests(pl, mid, ops, b, c, r);
    hide StateAfter, Exec, Shares, PerSecond, HasRack;
  }

  lemma OneOp(pl: Plant, s: Site, op: Op)
    ensures StateAfter(pl, s, [op]) == Exec(pl, s, op)
  {
    hide Exec;
  }

  lemma Leaky(op: Op, b: nat, c: nat, r: nat, rack: Rack)
    requires op.OpApply? && op.action.RackSelfDischarge?
        && (op.action.block, op.action.container, op.action.rack) == (b, c, r)
    ensures var next := RackCommanded(rack, op, b, c, r);
      next.inService == rack.inService && next.cellDsoc == rack.cellDsoc
      && next.selfDischargeExcess == PerSecond(op.action.excessPpmPerDay)
  {}

  lemma DayOf(growth: real, ppm: nat)
    ensures Shares(DAY_TICKS, growth + PerSecond(ppm)) == 86400.0 * growth + ppm as real / 1000000.0
    ensures 0.0 <= PerSecond(ppm)
  {}
}
