/** The battery meter of the reference site falls: a discharge polarizes a rack, and a
    small charge straight after it draws less than the relaxing branch gives back. */
module Gw01Heat {
  import opened Reals
  import opened Wrappers
  import opened State
  import opened Log
  import opened Derate
  import opened Ocv
  import opened Cell
  import opened Bms
  import opened Converter
  import opened Thermal
  import opened Substations
  import opened Plants
  import opened Kernel
  import opened Commands
  import opened TickLaws
  import opened SiteLaws
  import opened Runs
  import opened HeatLaws
  import opened LossLaws
  import opened Gw01

  // ----- A site of one rack ----------------------------------------------------------------

  predicate OneRack(s: Site, rack: Rack) {
    && |s.blocks| == 1 && |s.blocks[0].containers| == 1 && s.blocks[0].containers[0].racks == [rack]
    && s.blocks[0].mode == InService && s.blocks[0].pcs.opState != Fault
    && s.substation.breaker == Closed && s.ems.blocksReleased == 1 && s.ems.mode == External
    && rack.inService
  }

  /** The DC request of the one rack of a site under an external setpoint. */
  function OnlyRequestW(pl: Plant, s: Site, rack: Rack): real {
    DcRequestW(pl.pcs, TargetW(pl, s), LimitsOf(pl, rack))
  }

  lemma AllOfIt(pl: Plant, s: Site, rack: Rack)
    requires OneRack(s, rack)
    ensures InSet(pl, s, 0) && SiteShareW(pl, s) == TargetW(pl, s)
    ensures PerRackW(pl, s.blocks[0], true, TargetW(pl, s)) == OnlyRequestW(pl, s, rack)
  {
    hide TargetW, DcRequestW, LimitsOf;
    assert Active(s.blocks, EmsTick(pl, s), true, 1) == 1;
    var b := s.blocks[0];
    assert InServiceCount(b.containers, 1) == RowInService([rack], 1) == 1;
    NothingAdded(pl, b.containers, rack);
  }

  lemma NothingAdded(pl: Plant, cs: seq<Container>, rack: Rack)
    requires |cs| == 1 && cs[0].racks == [rack]
    ensures DcLimits(pl, cs, 1) == LimitsOf(pl, rack)
  {
    hide LimitsOf;
    assert RowLimits(pl, [rack], 0) == Limits(0.0, 0.0) && RowLimits(pl, [rack], 1) == LimitsOf(pl, rack);
    assert DcLimits(pl, cs, 0) == Limits(0.0, 0.0);
  }

  lemma OnlyHeat(pl: Plant, s: Site, rack: Rack)
    requires OneRack(s, rack)
    ensures SiteHeatW(pl, s, 1) == RackHeatW(pl, rack, OnlyRequestW(pl, s, rack))
  {
    hide TargetW, OnlyRequestW, RackHeatW, PerRackW, InSet, SiteShareW, SiteHeatW;
    AllOfIt(pl, s, rack);
    OneRackHeat(pl, s);
  }

  /** The one rack after a tick: stepped at the whole request, then warmed. */
  lemma OnlyNext(pl: Plant, s: Site, rack: Rack, inputs: Inputs)
    requires OneRack(s, rack)
    ensures var next, p, air := Tick(pl, s, inputs), OnlyRequestW(pl, s, rack), s.blocks[0].containers[0].airTempC;
      && HasRack(next.blocks, 0, 0, 0) && OneRack(next, RackAt(next, 0, 0, 0))
      && SameElectrics(RackAt(next, 0, 0, 0), RackStepped(pl, rack, p).0)
      && RackAt(next, 0, 0, 0).cellTempC
         == Warmed(pl.thermal, RackStepped(pl, rack, p).0, RackHeatW(pl, rack, p), air, TICK).cellTempC
  {
    hide TargetW, OnlyRequestW, RackHeatW, PerRackW, RackStepped, ContainerTick, BlockWord, MissS, DcW, AcOf,
      AuxTick, SubstationTick, EnergyAfter, AlarmsAfter, Emitted, EmsAfter, InSet, SiteShareW, SameElectrics, Warmed;
    AllOfIt(pl, s, rack);
    var p, b := OnlyRequestW(pl, s, rack), s.blocks[0];
    var c := b.containers[0];
    NextBlocksAt(pl, s, inputs.weather, 1, 0);
    ContainersTickAt(pl, b.containers, p, inputs.weather, 1, 0);
    ContainerRack(pl, c, p, inputs.weather, 0);
    ContainerTemp(pl, c, p, inputs.weather, 0);
    StaysInService(pl, rack, p);
    EmsStays(pl, s, rack);
    BreakerKept(pl, s, inputs);
    ElectricsService(ContainerTick(pl, c, p, inputs.weather).racks[0], RackStepped(pl, rack, p).0);
    assert ContainerTick(pl, c, p, inputs.weather).racks == [ContainerTick(pl, c, p, inputs.weather).racks[0]];
  }

  lemma ElectricsService(a: Rack, b: Rack)
    requires SameElectrics(a, b)
    ensures a.inService == b.inService && a.soc == b.soc && a.polarizationV == b.polarizationV && a.soh == b.soh
    ensures a.resistanceScale == b.resistanceScale && a.currentA == b.currentA && a.balancing == b.balancing
    ensures a.cellDsoc == b.cellDsoc && a.cellDvV == b.cellDvV
  {}

  lemma StaysInService(pl: Plant, rack: Rack, p: real)
    ensures RackStepped(pl, rack, p).0.inService == rack.inService
  {
    hide Balance, RequestW, CurrentA, RelaxedV, OcvRackV, SocDrop;
    BalanceService(pl, rack);
  }

  lemma BalanceService(pl: Plant, rack: Rack)
    ensures Balanced(pl, rack).inService == rack.inService
  {}

  lemma EmsStays(pl: Plant, s: Site, rack: Rack)
    requires OneRack(s, rack)
    ensures EmsAfter(pl, s).blocksReleased == 1 && EmsAfter(pl, s).mode == External
  {
    hide TargetW, SiteCapabilityW;
  }

  // ----- The reference numbers ----------------------------------------------------------------

  /** EVE MB31, Table 5: permitted charging rate by cell temperature. */
  const CHARGE := TempCurve(
    [(0.0, 0.05), (5.0, 0.12), (10.0, 0.3), (15.0, 0.5), (20.0, 0.5), (25.0, 0.5), (45.0, 0.5), (50.0, 0.5),
        (55.0, 0.5), (60.0, 0.0)],
    0.5, Some((15.0, 55.0)))

  /** EVE MB31, Table 7: permitted discharging rate by cell temperature. */
  const DISCHARGE := TempCurve(
    [(-30.0, 0.0), (-20.0, 0.5), (-10.0, 0.5), (-5.0, 0.5), (0.0, 0.5), (5.0, 0.5), (45.0, 0.5), (50.0, 0.5),
        (55.0, 0.5), (60.0, 0.0)],
    0.5, Some((-20.0, 55.0)))

  /** These are the curves `New` builds from the two tables. */
  lemma TablesAreBuilt()
    ensures CurveOk(CHARGE) && CurveOk(DISCHARGE)
  {
    BuiltFrom(CHARGE, 3, 8);
    BuiltFrom(DISCHARGE, 1, 8);
  }

  /** One plateau at the peak is the longest run. */
  lemma BuiltFrom(c: TempCurve, lo: nat, hi: nat)
    requires lo < hi < |c.points| && c.peak == 0.5 && c.full == Some((c.points[lo].0, c.points[hi].0))
    requires forall k :: 0 <= k < |c.points| ==> c.points[k].1 <= 0.5 && (c.points[k].1 == 0.5 <==> lo <= k <= hi)
    ensures CurveOk(c)
  {
    var p := c.points;
    assert p[lo] in p;
    assert IsRun(p, 0.5, lo, hi);
    forall i, j | IsRun(p, 0.5, i, j)
      ensures p[lo].0 <= p[i].0 && p[j].0 <= p[hi].0
    {
      assert p[i].1 == 0.5 && p[j].1 == 0.5;
    }
    hide IsRun;
  }

  function Reference(sqrt: real -> real, plan: int -> real): Plant {
    Bundle(sqrt, CHARGE, DISCHARGE, plan)
  }

  /** The current of a discharge from rest: at least what an ideal source would need. */
  lemma DrawnOut(m: Ecm1Rc, rack: Rack, p: real, i: real)
    requires IsSqrt(m.sqrt) && m.r0 == 0.28 && m.curve == OcvTable()
    requires rack.inService && rack.soc == 0.5 && rack.soh == 1.0 && rack.resistanceScale == 1.0
        && rack.polarizationV == 0.0
    requires 190000.0 <= p <= 210000.0 && i == CurrentA(m, rack, RACK, p, 1.0)
    ensures 130.0 <= i <= 314.0
  {
    hide OcvCellV, SolveA, TerminalW;
    var e := EmfV(m, rack, RACK);
    var i0 := SolveA(m, e, 0.28, DeliverableW(e, 0.28, p));
    OcvInRange(rack.soc);
    SquareStrict(1206.0, e, 1206.0 * 1206.0, e * e);
    assert DeliverableW(e, 0.28, p) == p;
    SolvedSide(m, e, 0.28, p, p, i0);
    AtLeast(e, i0, p);
    CurrentParts(m, rack, RACK, p, 1.0);
  }

  lemma OcvInRange(soc: real)
    requires 0.0 <= soc <= 1.0
    ensures IncreasingCurve(OcvTable()) && 1206.4 <= OcvCellV(OcvTable(), soc) * 416.0 <= 1435.2
  {
    FullVoltage();
    hide OcvCellV;
    var c: Curve := OcvTable();
    OcvMonotone(c, soc, 1.0);
    assert c[0].1 == 2.90;
    hide OcvTable;
    Scaled416(2.90, OcvCellV(c, soc), 3.45);
  }

  lemma Scaled416(lo: real, v: real, hi: real)
    requires lo <= v <= hi
    ensures lo * 416.0 <= v * 416.0 <= hi * 416.0
  {}

  lemma FullVoltage()
    ensures IncreasingCurve(OcvTable()) && OcvCellV(OcvTable(), 1.0) == 3.45
  {
    OcvTableIsIncreasing();
    var c: Curve := OcvTable();
    ScanFrom(c, 1, |c|, 1.0);
    assert c[|c| - 1] == (1.0, 3.45);
    hide OcvTable, Segment;
  }

  lemma AtLeast(e: real, i: real, p: real)
    requires 0.0 < e <= 1436.0 && 190000.0 <= p == TerminalW(e, 0.28, i) && 0.0 <= i
    ensures 130.0 <= i
  {
    var ie, ii := i * e, i * i;
    Square(i);
    MulMono(i, e, 1436.0);
    Expanded(e, i, ie, ii);
    assert ie <= 1436.0 * i;
    hide TerminalW;
  }

  lemma Expanded(e: real, i: real, ie: real, ii: real)
    requires ie == i * e && ii == i * i
    ensures TerminalW(e, 0.28, i) == ie - 0.28 * ii
  {}

  /** A rack half full and at mild temperature. */
  predicate Mild(rack: Rack) {
    rack.inService && 0.49 <= rack.soc <= 0.5 && rack.soh == 1.0 && rack.resistanceScale == 1.0
        && 20.0 <= rack.cellTempC <= 30.0
  }

  /** It is not bled, so the BMS step leaves everything electrical as it was. */
  lemma NotBled(pl: Plant, rack: Rack)
    requires pl.bms.balancing == BALANCING && Mild(rack)
    ensures BleedHeatW(pl, rack) == 0.0
    ensures Mild(Balanced(pl, rack)) && Balanced(pl, rack).soc == rack.soc
        && Balanced(pl, rack).polarizationV == rack.polarizationV
    ensures Balanced(pl, rack).cellTempC == rack.cellTempC
  {
    hide GrownDsoc, SpreadV;
    assert !Bleeds(BALANCING, rack);
  }

  const RATED_W := 417996.8

  lemma FullLimits(pl: Plant, rack: Rack)
    requires pl.bms == BasicBms(0.03, CHARGE, DISCHARGE, BALANCING, RACK_THRESHOLDS) && pl.rackCfg == RACK && Mild(rack)
    ensures LimitsOf(pl, rack) == Limits(RATED_W, RATED_W)
  {
    NotBled(pl, rack);
    Untapered(rack.soc);
    FullRateAt(rack.cellTempC);
    hide Factor, Clamp, Balanced;
    var ready := Balanced(pl, rack);
    assert RackLimits(pl.bms, ready, RACK) == Limits(RATED_W * (1.0 * 1.0), RATED_W * (1.0 * 1.0));
  }

  lemma Untapered(soc: real)
    requires 0.49 <= soc <= 0.5
    ensures Clamp((soc - 0.05) / 0.03, 0.0, 1.0) == 1.0 && Clamp((0.95 - soc) / 0.03, 0.0, 1.0) == 1.0
  {}

  lemma FullRateAt(t: real)
    requires 20.0 <= t <= 30.0
    ensures Factor(CHARGE, t) == 1.0 && Factor(DISCHARGE, t) == 1.0
  {}

  lemma BigDischarge(sqrt: real -> real, plan: int -> real)
    ensures 190000.0 <= DcRequestW(Reference(sqrt, plan).pcs, 190000.0, Limits(RATED_W, RATED_W)) <= 210000.0
  {}

  lemma SmallCharge(sqrt: real -> real, plan: int -> real)
    ensures -700.0 <= DcRequestW(Reference(sqrt, plan).pcs, -13000.0, Limits(RATED_W, RATED_W)) <= -600.0
  {}

  // ----- The two ticks ---------------------------------------------------------------------------

  const START := Rack(true, 0.5, 1.0, 1372.8, 0.0, 25.0, 0.0, 1.0, 0.0, {}, 0.004, 0.0, false, 0.0)

  const SITE := Site(
    0, 0, Weather(25.0, 0.0),
    Ems(FollowPlan, 0.0, 0.0, 0.0, 0.0, 1, 0.0),
    Substation(Closed, 0.0, 0.0, 0.0, 0.0, 0.0, 0.0, Revenue(0.0, 0.0, 0, 0.0, 0.0, 0, 0.0, 0.0)),
    AuxPower(0.0, 0.0, 0.0, 0.0, 0.0),
    Energy(0.0, 0.0, 0.0, 0.0, AuxPower(0.0, 0.0, 0.0, 0.0, 0.0)),
    [Block(InService, Pcs(Standby, 0.0, 0.0, 0.0, 0.0),
           [Container(25.0, Hvac(Off, 0.0, 0.0, 0.0, false), [START])], {}, 0.0)],
    {}, 0, [])

  const CALM := Inputs(Weather(25.0, 0.0))

  /** The parts of the bundle the two ticks read. */
  ghost predicate Parts(pl: Plant) {
    && pl.rackCfg == RACK && pl.thermal == THERMAL
    && pl.bms == BasicBms(0.03, CHARGE, DISCHARGE, BALANCING, RACK_THRESHOLDS)
    && IsSqrt(pl.cell.sqrt) && pl.cell.r0 == 0.28 && pl.cell.r1 == 0.06 && pl.cell.tau1 == 30.0
    && pl.cell.curve == OcvTable()
  }

  /** The rack step from rest, in the reference numbers. */
  lemma StepFromRest(m: Ecm1Rc, ready: Rack, p: real, i: real)
    requires m.r0 == 0.28 && m.r1 == 0.06 && m.tau1 == 30.0 && i == CurrentA(m, ready, RACK, p, 1.0)
        && 0.0 <= i <= 314.0
    requires ready.inService && ready.soc == 0.5 && ready.soh == 1.0 && ready.resistanceScale == 1.0
        && ready.polarizationV == 0.0
    ensures var (next, res) := StepRack(m, ready, RACK, p, 1.0);
      && next.polarizationV == 0.002 * i && next.soc == 0.5 - i / 1130400.0
      && next == ready.(soc := next.soc, polarizationV := next.polarizationV, currentA := i, voltageV := next.voltageV)
      && res.heatW == BranchW(0.0, 0.28, i)
  {
    HeatIs(m, ready, RACK, p, 1.0);
    RelaxFromRest(m, ready, i);
    DropFromRest(ready, i);
    assert R0(m, ready) == 0.28;
    hide CurrentA, OcvRackV, TerminalW, BranchW, RelaxedV, SocDrop;
  }

  lemma RelaxFromRest(m: Ecm1Rc, ready: Rack, i: real)
    requires m.r1 == 0.06 && m.tau1 == 30.0 && ready.resistanceScale == 1.0 && ready.polarizationV == 0.0
    ensures RelaxedV(m, ready, i, 1.0) == 0.002 * i
  {}

  lemma DropFromRest(ready: Rack, i: real)
    requires ready.soh == 1.0
    ensures SocDrop(ready, RACK, i, 1.0) == i / 1130400.0
  {}

  /** A discharge from rest polarizes the rack by at least a quarter of a volt, and warms
      it by hardly anything. */
  lemma Polarized(pl: Plant, p: real)
    requires Parts(pl) && 190000.0 <= p <= 210000.0
    ensures var next := RackStepped(pl, START, p).0;
      && 0.26 <= next.polarizationV <= 0.63 && Mild(next) && next.tempOffsetC == 0.0 && next.cellTempC == 25.0
    ensures 0.0 <= RackHeatW(pl, START, p) <= 30000.0
  {
    hide OcvTable, StepRack, CurrentA, BranchW, Balance, Balanced, LimitsOf, BleedHeatW, Mild;
    var ready := Balanced(pl, START);
    var i := CurrentA(pl.cell, ready, RACK, p, 1.0);
    StartParts(pl);
    BalancedStart(pl);
    AsAsked(pl, p);
    DrawnOut(pl.cell, ready, p, i);
    StepFromRest(pl.cell, ready, p, i);
    AtRestHeat(i, i * i);
    MildAfter(StepRack(pl.cell, ready, RACK, p, 1.0).0, i);
  }

  lemma StartParts(pl: Plant)
    requires Parts(pl)
    ensures BleedHeatW(pl, START) == 0.0
  {
    hide OcvTable, Balanced, BleedHeatW;
    NotBled(pl, START);
  }

  lemma AsAsked(pl: Plant, p: real)
    requires Parts(pl) && -RATED_W <= p <= RATED_W
    ensures RequestW(pl, START, p) == p
  {
    hide OcvTable, LimitsOf;
    FullLimits(pl, START);
  }

  lemma MildAfter(next: Rack, i: real)
    requires 0.0 <= i <= 314.0
    requires next == START.(soc := 0.5 - i / 1130400.0, polarizationV := next.polarizationV, currentA := i,
      voltageV := next.voltageV, cellDsoc := next.cellDsoc, cellDvV := next.cellDvV)
    ensures Mild(next)
  {}

  lemma BalancedStart(pl: Plant)
    requires Parts(pl)
    ensures var ready := Balanced(pl, START);
      ready == START.(cellDsoc := ready.cellDsoc, cellDvV := ready.cellDvV, balancing := false)
  {
    hide GrownDsoc, SpreadV;
    assert !Bleeds(BALANCING, START);
  }

  lemma AtRestHeat(i: real, ii: real)
    requires 130.0 <= i <= 314.0 && ii == i * i
    ensures 0.0 <= BranchW(0.0, 0.28, i) <= 30000.0
  {
    SquareUnder(i, i, ii);
    RestBranch(i, ii);
    hide BranchW;
  }

  lemma SquareUnder(i: real, j: real, ij: real)
    requires 0.0 <= i <= 314.0 && 0.0 <= j <= 314.0 && ij == i * j
    ensures 0.0 <= ij <= 98596.0
  {
    MulNonNeg(i, j);
    Capped(i, j, ij);
  }

  lemma Capped(i: real, j: real, ij: real)
    requires 0.0 <= i && j <= 314.0 && ij == i * j
    ensures ij <= i * 314.0
  {
    MulNonNeg(i, 314.0 - j);
    assert i * (314.0 - j) == i * 314.0 - ij;
  }

  lemma RestBranch(i: real, ii: real)
    requires ii == i * i
    ensures BranchW(0.0, 0.28, i) == 0.28 * ii
  {}

  /** A small charge over a polarized branch makes negative heat. */
  lemma Relaxing(pl: Plant, rack: Rack, p: real)
    requires Parts(pl) && Sound(pl) && RackGood(pl, rack) && Mild(rack)
    requires 0.26 <= rack.polarizationV <= 0.63 && -700.0 <= p <= -600.0
    ensures RackHeatW(pl, rack, p) < 0.0
  {
    hide OcvTable, StepRack, Balanced, LimitsOf, BleedHeatW, Sound, RackOk, GivesBack;
    var ready := Balanced(pl, rack);
    SoundIsCellSound(pl);
    NotBled(pl, rack);
    FullLimits(pl, rack);
    BalancedGood(pl, rack);
    SmallAgainst(pl.cell, ready, p);
    HeatSign(pl.cell, ready, RACK, p, 1.0);
    assert RequestW(pl, rack, p) == p;
  }

  lemma SmallAgainst(m: Ecm1Rc, ready: Rack, p: real)
    requires m.r0 == 0.28 && m.curve == OcvTable() && Mild(ready)
    requires 0.26 <= ready.polarizationV <= 0.63 && -700.0 <= p <= -600.0
    ensures GivesBack(m, ready, RACK, p, 1.0)
  {
    hide OcvTable, OcvCellV, MostChargeA;
    OcvInRange(ready.soc);
    var ocv, v1 := OcvRackV(m, ready.soc, RACK), ready.polarizationV;
    assert DeliverableW(ocv - v1, 0.28, p) == p by { Deliverable(ocv - v1, p); }
    HeldAt(ocv, v1, ocv * v1);
    assert MostChargeA(ready, RACK, 1.0) == (1.0 - ready.soc) * 314.0 * 3600.0 by { RoomLeft(ready); }
  }

  lemma RoomLeft(ready: Rack)
    requires ready.soh == 1.0
    ensures MostChargeA(ready, RACK, 1.0) == (1.0 - ready.soc) * 314.0 * 3600.0
  {}

  lemma Deliverable(e: real, p: real)
    requires p <= 0.0
    ensures DeliverableW(e, 0.28, p) == p
  {
    Square(e);
  }

  lemma HeldAt(ocv: real, v1: real, ov: real)
    requires 1206.0 <= ocv && 0.26 <= v1 && ov == ocv * v1
    ensures 300.0 < ov
  {
    MulNonNeg(ocv - 1206.0, v1);
    assert (ocv - 1206.0) * v1 == ov - 1206.0 * v1;
  }

  /** A setpoint, a tick, another setpoint, another tick. */
  const RUN := [OpSetpoint(Some(190000.0)), OpTick(CALM), OpSetpoint(Some(-13000.0)), OpTick(CALM)]

  /** What the loss laws assume past the rest holds of the reference site. */
  lemma LossParametersAreSound(sqrt: real -> real, charge: TempCurve, discharge: TempCurve, plan: int -> real)
    requires IsSqrt(sqrt)
    ensures var pl := Bundle(sqrt, charge, discharge, plan); LossSound(pl) && MetersSound(pl)
  {
    ParametersAreSound(sqrt, charge, discharge, plan);
    hide Sound, OcvTable, IsSqrt;
  }

  lemma ReferenceParts(sqrt: real -> real, plan: int -> real)
    requires IsSqrt(sqrt)
    ensures var pl := Reference(sqrt, plan); Parts(pl) && LossSound(pl) && pl.siteRatedW == 100000000.0
  {
    LossParametersAreSound(sqrt, CHARGE, DISCHARGE, plan);
    hide LossSound, OcvTable, IsSqrt;
  }

  lemma SiteIsFresh()
    ensures FreshSite(SITE) && OneRack(SITE.(ems := SITE.ems.(mode := External)), START)
  {}

  /** The states of the run: after the first setpoint, the first tick, the second setpoint. */
  lemma RunStates(pl: Plant)
    ensures var s1 := SetExternalSetpoint(SITE, Some(190000.0));
      var s3 := SetExternalSetpoint(Tick(pl, s1, CALM), Some(-13000.0));
      && StateAfter(pl, SITE, RUN[..1]) == s1 && StateAfter(pl, SITE, RUN[..2]) == Tick(pl, s1, CALM)
      && StateAfter(pl, SITE, RUN[..3]) == s3 && StateAfter(pl, SITE, RUN) == Tick(pl, s3, CALM)
  {
    hide Tick;
    assert RUN[..1][..0] == [] && RUN[..2][..1] == RUN[..1] && RUN[..3][..2] == RUN[..2] && RUN[..4] == RUN
        && RUN[..4][..3] == RUN[..3];
  }

  /** The battery loss meter of the reference site falls between two ticks: the claim that
      every energy counter is monotonic fails for it. */
  lemma BatteryMeterFalls(sqrt: real -> real, plan: int -> real)
    requires IsSqrt(sqrt)
    ensures FreshSite(SITE)
    ensures var pl := Reference(sqrt, plan);
      StateAfter(pl, SITE, RUN).energy.batteryLossWh < StateAfter(pl, SITE, RUN[..2]).energy.batteryLossWh
  {
    var pl := Reference(sqrt, plan);
    ReferenceParts(sqrt, plan);
    BigDischarge(sqrt, plan);
    SmallCharge(sqrt, plan);
    SiteIsFresh();
    FreshTreeIsGood(sqrt, CHARGE, DISCHARGE, plan, SITE);
    RunStates(pl);
    RunKeepsInv(pl, SITE, RUN[..3]);
    hide Reference, Bundle, Tick, LossSound, Inv, Parts, StateAfter, FreshSite, DcRequestW;
    SecondTickFalls(pl);
  }

  lemma SecondTickFalls(pl: Plant)
    requires Parts(pl) && LossSound(pl) && pl.siteRatedW == 100000000.0
    requires 190000.0 <= DcRequestW(pl.pcs, 190000.0, Limits(RATED_W, RATED_W)) <= 210000.0
    requires -700.0 <= DcRequestW(pl.pcs, -13000.0, Limits(RATED_W, RATED_W)) <= -600.0
    requires var s1 := SetExternalSetpoint(SITE, Some(190000.0));
      Inv(pl, SetExternalSetpoint(Tick(pl, s1, CALM), Some(-13000.0)))
    ensures var s1 := SetExternalSetpoint(SITE, Some(190000.0));
      var s2 := Tick(pl, s1, CALM);
      Tick(pl, SetExternalSetpoint(s2, Some(-13000.0)), CALM).energy.batteryLossWh < s2.energy.batteryLossWh
  {
    hide Tick, Inv, DcRequestW, Sound, BranchSound, RackStepped, RackHeatW, Mild, LimitsOf;
    var s1 := SetExternalSetpoint(SITE, Some(190000.0));
    var s2 := Tick(pl, s1, CALM);
    var s3 := SetExternalSetpoint(s2, Some(-13000.0));
    SiteIsFresh();
    StartIsMild();
    FullLimits(pl, START);
    OnlyNext(pl, s1, START, CALM);
    var x, p := RackAt(s2, 0, 0, 0), DcRequestW(pl.pcs, 190000.0, Limits(RATED_W, RATED_W));
    Polarized(pl, p);
    StillMild(RackStepped(pl, START, p).0, RackHeatW(pl, START, p), x);
    FullLimits(pl, x);
    RackInTree(pl, s3, 0, 0, 0);
    Relaxing(pl, x, DcRequestW(pl.pcs, -13000.0, Limits(RATED_W, RATED_W)));
    OnlyHeat(pl, s3, x);
    TickLoss(pl, s3, CALM);
  }

  lemma StartIsMild()
    ensures Mild(START)
  {}

  lemma StillMild(stepped: Rack, heat: real, x: Rack)
    requires Mild(stepped) && stepped.tempOffsetC == 0.0 && stepped.cellTempC == 25.0 && 0.0 <= heat <= 30000.0
    requires SameElectrics(x, stepped) && x.cellTempC == Warmed(THERMAL, stepped, heat, 25.0, 1.0).cellTempC
    ensures Mild(x) && x.polarizationV == stepped.polarizationV
  {}
}
