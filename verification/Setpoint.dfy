/** What the plant controller follows: whose setpoint a tick takes, over every run, and
    what that makes of a day-ahead plan. */
module SetpointLaws {
  import opened Wrappers
  import opened State
  import opened Substations
  import opened Calendars
  import opened Prices
  import opened Plans
  import opened Planners
  import opened Plants
  import opened Kernel
  import opened Commands
  import opened TickLaws
  import opened SiteLaws
  import opened Runs
  import opened RunLaws
  import opened SafetyLaws

  /** As asked inside the rating, the signed rating outside. */
  predicate Follows(setpoint: real, asked: real, rated: real) {
    && (-rated <= asked <= rated ==> setpoint == asked)
    && (rated < asked ==> setpoint == rated)
    && (asked < -rated ==> setpoint == -rated)
  }

  // ----- One tick -------------------------------------------------------------------------

  /** A tick follows nothing while the breaker is open, the external setpoint under an
      external master, and otherwise the plan at the instant the tick begins. */
  lemma SetpointFollows(pl: Plant, s: Site, inputs: Inputs)
    ensures var setpoint := Tick(pl, s, inputs).ems.siteSetpointW;
      && (s.substation.breaker == Open ==> setpoint == 0.0)
      && (s.substation.breaker == Closed && s.ems.mode == External ==>
            Follows(setpoint, s.ems.externalSetpointW, pl.siteRatedW))
      && (s.substation.breaker == Closed && s.ems.mode == FollowPlan ==>
            Follows(setpoint, pl.plan(s.startUnixS + s.tick), pl.siteRatedW))
  {
    ControllerFollows(pl, s);
    hide NextBlocks, AuxTick, SubstationTick, EnergyAfter, AlarmsAfter, Emitted, EmsAfter, Follows;
  }

  lemma ControllerFollows(pl: Plant, s: Site)
    ensures var setpoint := EmsAfter(pl, s).siteSetpointW;
      && (s.substation.breaker == Open ==> setpoint == 0.0)
      && (s.substation.breaker == Closed && s.ems.mode == External ==>
            Follows(setpoint, s.ems.externalSetpointW, pl.siteRatedW))
      && (s.substation.breaker == Closed && s.ems.mode == FollowPlan ==>
            Follows(setpoint, pl.plan(s.startUnixS + s.tick), pl.siteRatedW))
  {
    ReleaseKeepsSetpoint(pl, s);
    hide SiteCapabilityW, Release;
  }

  // ----- Every run ------------------------------------------------------------------------

  /** Who sets the power: the external setpoint in force, or none. */
  function Master(s: Site): (EmsMode, real) {
    (s.ems.mode, s.ems.externalSetpointW)
  }

  /** What an operation makes of the master. */
  function MasterBy(op: Op): Option<(EmsMode, real)> {
    match op
    case OpSetpoint(Some(w)) => Some((External, w))
    case OpSetpoint(None) => Some((FollowPlan, 0.0))
    case OpTick(_) => None
    case OpApply(_) => None
    case OpDirect(_) => None
  }

  lemma TickKeepsMaster(pl: Plant, s: Site, inputs: Inputs)
    ensures Master(Tick(pl, s, inputs)) == Master(s)
  {
    ControllerKeepsMaster(pl, s);
    hide NextBlocks, AuxTick, SubstationTick, EnergyAfter, AlarmsAfter, Emitted, EmsAfter;
  }

  lemma ControllerKeepsMaster(pl: Plant, s: Site)
    ensures var ems := EmsAfter(pl, s);
      ems.mode == s.ems.mode && ems.externalSetpointW == s.ems.externalSetpointW
  {
    hide SiteCapabilityW, TargetW;
  }

  lemma DispatchKeepsMaster(s: Site, a: FaultAction)
    requires Dispatch(s, a).Ok?
    ensures Master(Dispatch(s, a).value.site) == Master(s)
  {
    hide ResetBlock, ResetBlockEvents, ResetBlocksEvents, AllTripped, TripEvents, ResetBlocks;
  }

  lemma OpMaster(pl: Plant, s: Site, op: Op)
    ensures Master(Exec(pl, s, op)) == if MasterBy(op).Some? then MasterBy(op).value else Master(s)
  {
    hide Tick, Dispatch;
    match op
    case OpTick(inputs) => TickKeepsMaster(pl, s, inputs);
    case OpSetpoint(_) =>
    case OpApply(a) => if Dispatch(s, a).Ok? { DispatchKeepsMaster(s, a); }
    case OpDirect(a) => if Dispatch(s, a).Ok? { DispatchKeepsMaster(s, a); }
  }

  /** On every run the master is the one the last setpoint operation named: no tick and no
      fault action writes it. */
  lemma {:induction false} MasterHolds(pl: Plant, s: Site, ops: seq<Op>)
    ensures Master(StateAfter(pl, s, ops)) == Written(ops, MasterBy, Master(s))
  {
    hide Exec, Master, MasterBy;
    if ops != [] {
      MasterHolds(pl, s, Init(ops));
      OpMaster(pl, StateAfter(pl, s, Init(ops)), Last(ops));
    }
  }

  /** A tick counts, and nothing else moves the clock. */
  lemma {:induction false} RunClock(pl: Plant, s: Site, ops: seq<Op>)
    ensures var end := StateAfter(pl, s, ops); end.startUnixS == s.startUnixS && end.tick == s.tick + Ticks(ops)
  {
    hide Exec;
    if ops != [] {
      RunClock(pl, s, Init(ops));
      OpClock(pl, StateAfter(pl, s, Init(ops)), Last(ops));
    }
  }

  lemma OpClock(pl: Plant, s: Site, op: Op)
    ensures var next := Exec(pl, s, op);
      next.startUnixS == s.startUnixS && next.tick == s.tick + (if op.OpTick? then 1 else 0)
  {
    hide Tick, Dispatch;
    match op
    case OpTick(inputs) => TickCounts(pl, s, inputs);
    case OpSetpoint(_) =>
    case OpApply(a) => if Dispatch(s, a).Ok? { DispatchKeepsTimes(s, a); }
    case OpDirect(a) => if Dispatch(s, a).Ok? { DispatchKeepsTimes(s, a); }
  }

  lemma DispatchKeepsTimes(s: Site, a: FaultAction)
    requires Dispatch(s, a).Ok?
    ensures var next := Dispatch(s, a).value.site; next.startUnixS == s.startUnixS && next.tick == s.tick
  {
    hide ResetBlock, ResetBlockEvents, ResetBlocksEvents, AllTripped, TripEvents, ResetBlocks;
  }

  /** What an operation makes of the breaker, in a reachable tree. */
  function BreakerBy(op: Op): Option<Breaker> {
    if IsTrip(op) then Some(Open) else if IsSiteReset(op) then Some(Closed) else None
  }

  /** On every run the breaker stands where the last protection trip or site reset left
      it. */
  lemma {:induction false} BreakerHolds(pl: Plant, s: Site, ops: seq<Op>)
    requires Sound(pl) && Inv(pl, s)
    ensures StateAfter(pl, s, ops).substation.breaker == Written(ops, BreakerBy, s.substation.breaker)
  {
    hide Exec, Inv, Sound, IsTrip, IsSiteReset;
    if ops != [] {
      BreakerHolds(pl, s, Init(ops));
      RunKeepsInv(pl, s, Init(ops));
      BreakerMoves(pl, StateAfter(pl, s, Init(ops)), Last(ops));
    }
  }

  /** Every tick of every run, from the operations alone: after a trip with no site reset
      since, the setpoint is 0; else it follows the last external setpoint given and not
      withdrawn, and with none the plan at the tick's own unix time. */
  lemma EveryTickFollows(pl: Plant, start: Site, ops: seq<Op>, inputs: Inputs)
    requires Sound(pl) && Inv(pl, start)
    ensures var setpoint := StateAfter(pl, start, ops + [OpTick(inputs)]).ems.siteSetpointW;
      var breaker, master := Written(ops, BreakerBy, start.substation.breaker), Written(ops, MasterBy, Master(start));
      && (breaker == Open ==> setpoint == 0.0)
      && (breaker == Closed && master.0 == External ==> Follows(setpoint, master.1, pl.siteRatedW))
      && (breaker == Closed && master.0 == FollowPlan ==>
            Follows(setpoint, pl.plan(start.startUnixS + start.tick + Ticks(ops)), pl.siteRatedW))
  {
    hide Tick, Inv, Sound, Follows, Written;
    assert Init(ops + [OpTick(inputs)]) == ops;
    BreakerHolds(pl, start, ops);
    MasterHolds(pl, start, ops);
    RunClock(pl, start, ops);
    SetpointFollows(pl, StateAfter(pl, start, ops), inputs);
  }

  // ----- The planner at the plant -----------------------------------------------------------

  /** The plant dispatches the day-ahead strategy of a loaded price year. */
  ghost predicate Dispatches(pl: Plant, y: PriceYear, powerW: real, chargeHours: nat, dischargeHours: nat)
    requires Loaded(y)
  {
    forall unix :: SiteTargetW(FromPriceYear(y, powerW, chargeHours, dischargeHours), unix) == Some(pl.plan(unix))
  }

  /** From prices to the plant, on every tick of every run that follows the plan: the hour
      of the tick lies in one slot of one local day, and the site is set to charge when
      fewer than `chargeHours` slots of that day are cheaper, else to discharge when fewer
      than `dischargeHours` are dearer, else to rest. */
  lemma PlannedTick(pl: Plant, start: Site, ops: seq<Op>, inputs: Inputs, y: PriceYear, powerW: real,
      chargeHours: nat, dischargeHours: nat) returns (day: nat, slot: nat)
    requires Sound(pl) && Inv(pl, start)
    requires Loaded(y) && |y.eurMwh| > 0 && Dispatches(pl, y, powerW, chargeHours, dischargeHours)
    requires Written(ops, BreakerBy, start.substation.breaker) == Closed
        && Written(ops, MasterBy, Master(start)).0 == FollowPlan
    ensures day + 1 < |y.dayStarts| && slot < |DayPrices(y, day)|
    ensures var hour := ReferenceHour(start.startUnixS + start.tick + Ticks(ops), y.year);
      (hour + y.offsetH - (y.dayStarts[day] + slot)) % |y.eurMwh| == 0
    ensures var prices := DayPrices(y, day);
      Follows(StateAfter(pl, start, ops + [OpTick(inputs)]).ems.siteSetpointW,
              if |RankAhead(prices, false, slot)| < chargeHours then -powerW
              else if |RankAhead(prices, true, slot)| < dischargeHours then powerW
              else 0.0, pl.siteRatedW)
  {
    hide StateAfter, Inv, Sound, Follows, Written, SiteTargetW, ReferenceHour, RankAhead, DayPrices,
      FromPriceYear;
    var unix := start.startUnixS + start.tick + Ticks(ops);
    EveryTickFollows(pl, start, ops, inputs);
    day, slot := TargetMeans(y, powerW, chargeHours, dischargeHours, unix);
    LookupIs(y, ReferenceHour(unix, y.year), y.dayStarts[day] + slot);
    assert SiteTargetW(FromPriceYear(y, powerW, chargeHours, dischargeHours), unix) == Some(pl.plan(unix));
  }
}
