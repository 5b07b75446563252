/** Trip safety and the fiscal meter, on every run of ticks and commands. */
module SafetyLaws {
  import opened State
  import opened Log
  import opened Substations
  import opened Plants
  import opened Kernel
  import opened Commands
  import opened TickLaws
  import opened SiteLaws
  import opened Runs
  import opened RunLaws

  // ----- The breaker -----------------------------------------------------------------------

  predicate IsAction(op: Op, a: FaultAction) {
    (op.OpApply? || op.OpDirect?) && op.action == a
  }

  predicate IsTrip(op: Op) {
    IsAction(op, FaultAction.ProtectionTrip)
  }

  predicate IsSiteReset(op: Op) {
    IsAction(op, AlarmReset(SiteScope))
  }

  /** Only a protection trip opens the breaker and only a site reset closes it. */
  lemma BreakerMoves(pl: Plant, s: Site, op: Op)
    requires Sound(pl) && Inv(pl, s)
    ensures Exec(pl, s, op).substation.breaker
         == (if IsTrip(op) then Open else if IsSiteReset(op) then Closed else s.substation.breaker)
  {
    hide Tick, Inv, Sound, ResetBlock, ResetBlockEvents, ResetBlocksEvents, AllTripped, TripEvents, ResetBlocks;
    if op.OpTick? { TickKeepsTripSafe(pl, s, op.inputs); }
    InvIsTripSafe(pl, s);
  }

  lemma InvIsTripSafe(pl: Plant, s: Site)
    requires Inv(pl, s)
    ensures TripSafe(s)
  {
    hide TripSafe;
  }

  /** Trip safety of every reachable tree: the trip bit is latched exactly while the
      breaker is open; no more blocks are released than there are; and while it is open
      none is, no converter runs and no block can be dispatched. */
  lemma TripSafety(pl: Plant, start: Site, ops: seq<Op>)
    requires Sound(pl) && Inv(pl, start)
    ensures var s := StateAfter(pl, start, ops);
      && (PROTECTION_TRIP in s.alarms <==> s.substation.breaker == Open)
      && s.ems.blocksReleased <= |s.blocks|
      && (s.substation.breaker == Open ==>
            s.ems.blocksReleased == 0
            && (forall b <- s.blocks :: b.pcs.opState != PcsOpState.Run)
            && (forall k, connected :: 0 <= k < |s.blocks| ==> !Dispatchable(s.blocks[k], k, s.ems, connected)))
  {
    hide Exec, BlocksGood, Sound;
    RunKeepsInv(pl, start, ops);
  }

  /** The registers that only the POI moves. */
  predicate SameMeters(a: Substation, b: Substation) {
    && b.exportWh == a.exportWh && b.importWh == a.importWh
    && b.revenue.exportWh == a.revenue.exportWh && b.revenue.importWh == a.revenue.importWh
  }

  lemma OpenTickStandsStill(pl: Plant, s: Site, inputs: Inputs)
    requires Sound(pl) && Inv(pl, s) && s.substation.breaker == Open
    ensures SameMeters(s.substation, Tick(pl, s, inputs).substation)
  {
    hide NextBlocks, EmsAfter, AuxTick, EnergyAfter, AlarmsAfter, Emitted, SubstationTick, Inv, Sound, SumAcW;
    SiteTracks(pl, s, inputs);
    var blocks := NextBlocks(pl, s, inputs.weather, |s.blocks|);
    SubstationBalance(pl.grid, s.substation, SumAcW(blocks, |blocks|), AuxTotalW(AuxTick(pl, blocks)), TICK,
        s.UnixTimeS() + 1);
    FiscalAgrees(pl.grid, s.substation, SumAcW(blocks, |blocks|), AuxTotalW(AuxTick(pl, blocks)), TICK,
        s.UnixTimeS() + 1);
  }

  /** Until a site reset, a tripped site stays open and its POI and fiscal meters stand
      still, whatever else happens to it. */
  lemma {:induction false} TripHolds(pl: Plant, s: Site, ops: seq<Op>)
    requires Sound(pl) && Inv(pl, s) && s.substation.breaker == Open
    requires forall op <- ops :: !IsSiteReset(op)
    ensures var end := StateAfter(pl, s, ops);
      end.substation.breaker == Open && SameMeters(s.substation, end.substation)
  {
    hide Exec, Inv, Sound, IsSiteReset, IsTrip;
    if ops != [] {
      var mid, op := StateAfter(pl, s, Init(ops)), Last(ops);
      assert forall x <- Init(ops) :: x in ops;
      TripHolds(pl, s, Init(ops));
      RunKeepsInv(pl, s, Init(ops));
      BreakerMoves(pl, mid, op);
      OpenOpStandsStill(pl, mid, op);
    }
  }

  lemma OpenOpStandsStill(pl: Plant, s: Site, op: Op)
    requires Sound(pl) && Inv(pl, s) && s.substation.breaker == Open
    ensures SameMeters(s.substation, Exec(pl, s, op).substation)
  {
    hide Tick, Inv, Sound, Dispatch, SameCharge;
    if op.OpTick? {
      OpenTickStandsStill(pl, s, op.inputs);
    } else if (op.OpApply? || op.OpDirect?) && Dispatch(s, op.action).Ok? {
      DispatchMovesNothing(s, op.action);
    }
  }

  // ----- The fiscal meter --------------------------------------------------------------------

  /** Energy of a settlement record, Wh. */
  datatype Settled = Settled(importWh: real, exportWh: real)

  function Plus(a: Settled, b: Settled): Settled {
    Settled(a.importWh + b.importWh, a.exportWh + b.exportWh)
  }

  /** The record an operation closes, if it does. */
  function Closing(pl: Plant, s: Site, op: Op): Settled {
    ClosedBy(s.substation.revenue, Exec(pl, s, op).substation.revenue)
  }

  /** The sum of all records a run closed. */
  function AllClosed(pl: Plant, s: Site, ops: seq<Op>): Settled {
    if ops == [] then Settled(0.0, 0.0)
    else Plus(AllClosed(pl, s, Init(ops)), Closing(pl, StateAfter(pl, s, Init(ops)), Last(ops)))
  }

  function Totals(r: Revenue): Settled {
    Settled(r.importWh, r.exportWh)
  }

  function OpenPeriod(r: Revenue): Settled {
    Settled(r.periodImportWh, r.periodExportWh)
  }

  /** What the SCADA registers show above the fiscal totals. */
  function Lead(s: Substation): Settled {
    Settled(s.importWh - s.revenue.importWh, s.exportWh - s.revenue.exportWh)
  }

  lemma TickSettlesPeriods(pl: Plant, s: Site, inputs: Inputs)
    ensures FiscalStep(s, Tick(pl, s, inputs), Closing(pl, s, OpTick(inputs)))
  {
    var next := Tick(pl, s, inputs);
    var blocks := NextBlocks(pl, s, inputs.weather, |s.blocks|);
    TickMeters(pl, s, inputs);
    TickCounts(pl, s, inputs);
    hide Tick, NextBlocks, AuxTick, EnergyAfter, SumAcW, AuxTotalW;
    MeterStep(pl.grid, s.substation, SumAcW(blocks, |blocks|), AuxTotalW(AuxTick(pl, blocks)), s.UnixTimeS() + 1);
    QuarterHours(s.UnixTimeS() + 1);
    hide SubstationTick;
  }

  /** The record a meter closes in one step, if it does. */
  function ClosedBy(r: Revenue, r': Revenue): Settled {
    if r.periodsClosed < r'.periodsClosed then Settled(r'.lastImportWh, r'.lastExportWh) else Settled(0.0, 0.0)
  }

  lemma MeterStep(m: SimpleGrid, s: Substation, acW: real, auxW: real, now: int)
    ensures var next := SubstationTick(m, s, acW, auxW, TICK, now);
      var r, r' := s.revenue, next.revenue;
      && Plus(Plus(ClosedBy(r, r'), OpenPeriod(r')), Totals(r)) == Plus(OpenPeriod(r), Totals(r'))
      && Lead(next) == Lead(s)
      && r'.periodsClosed - r.periodsClosed == (if now % PERIOD_S == 0 then 1 else 0)
  {
    FiscalAgrees(m, s, acW, auxW, TICK, now);
    hide SubstationTick;
  }

  lemma TickCounts(pl: Plant, s: Site, inputs: Inputs)
    ensures var next := Tick(pl, s, inputs); next.tick == s.tick + 1 && next.startUnixS == s.startUnixS
  {
    hide NextBlocks, AuxTick, SubstationTick, EmsAfter, EnergyAfter, AlarmsAfter, Emitted;
  }

  /** One operation's closing record, the move of the open period and the move of the
      totals; periods counted by the quarter-hours passed. */
  predicate FiscalStep(s: Site, next: Site, closing: Settled) {
    var r, r' := s.substation.revenue, next.substation.revenue;
    && Plus(Plus(closing, OpenPeriod(r')), Totals(r)) == Plus(OpenPeriod(r), Totals(r'))
    && Lead(next.substation) == Lead(s.substation)
    && r'.periodsClosed - r.periodsClosed == next.UnixTimeS() / PERIOD_S - s.UnixTimeS() / PERIOD_S
  }

  lemma OpFiscal(pl: Plant, s: Site, op: Op)
    ensures FiscalStep(s, Exec(pl, s, op), Closing(pl, s, op))
  {
    hide Tick, Dispatch, SameCharge;
    if op.OpTick? {
      TickSettlesPeriods(pl, s, op.inputs);
    } else if (op.OpApply? || op.OpDirect?) && Dispatch(s, op.action).Ok? {
      DispatchMovesNothing(s, op.action);
      DispatchKeepsClock(s, op.action);
    }
  }

  lemma DispatchKeepsClock(s: Site, a: FaultAction)
    requires Dispatch(s, a).Ok?
    ensures Dispatch(s, a).value.site.UnixTimeS() == s.UnixTimeS()
  {
    hide ResetBlock, ResetBlockEvents, ResetBlocksEvents, AllTripped, TripEvents, ResetBlocks, WordChanges;
  }

  /** The fiscal meter over every run, from any tree: the records closed plus the open
      period account for exactly what the totals gained, the totals move with the SCADA
      registers, and one period was closed per quarter-hour boundary passed, negative
      times included. */
  lemma {:induction false} RunFiscal(pl: Plant, s: Site, ops: seq<Op>)
    ensures FiscalStep(s, StateAfter(pl, s, ops), AllClosed(pl, s, ops))
  {
    hide Exec, Closing;
    if ops != [] {
      RunFiscal(pl, s, Init(ops));
      OpFiscal(pl, StateAfter(pl, s, Init(ops)), Last(ops));
    }
  }

  /** From a new meter: closed periods plus the open one are the totals, and the totals
      are the SCADA registers. */
  lemma FreshFiscal(pl: Plant, s: Site, ops: seq<Op>)
    requires var r := s.substation.revenue; Totals(r) == OpenPeriod(r) == Settled(0.0, 0.0) && r.periodsClosed == 0
    requires s.substation.importWh == s.substation.exportWh == 0.0
    ensures var end := StateAfter(pl, s, ops);
      var r := end.substation.revenue;
      && Plus(AllClosed(pl, s, ops), OpenPeriod(r)) == Totals(r)
      && r.exportWh == end.substation.exportWh && r.importWh == end.substation.importWh
      && r.periodsClosed == end.UnixTimeS() / PERIOD_S - s.UnixTimeS() / PERIOD_S
  {
    hide StateAfter, AllClosed;
    RunFiscal(pl, s, ops);
  }
}
