/** Spread and balancing over runs: when a rack bleeds, how its spread grows, and what a
    rack left out of service does. */
module BleedLaws {
  import opened Reals
  import opened State
  import opened Log
  import opened Ocv
  import opened Derate
  import opened Cell
  import opened Bms
  import opened HeatLaws
  import opened Plants
  import opened Kernel
  import opened Commands
  import opened TickLaws
  import opened Runs
  import opened RunLaws
  import opened FlagLaws

  // ----- When a rack bleeds ---------------------------------------------------------------

  /** Service, charge and current allow bleeding. */
  predicate MayBleed(m: Balancing, rack: Rack) {
    rack.inService && m.socMin <= rack.soc && rack.currentA <= m.maxDischargeA
  }

  /** A rack as a tick finds it, at which bleeding begins. */
  predicate Begins(m: Balancing, rack: Rack) {
    MayBleed(m, rack) && m.dvStartV <= rack.cellDvV
  }

  /** A rack as a tick finds it, at which bleeding goes on. */
  predicate GoesOn(m: Balancing, rack: Rack) {
    MayBleed(m, rack) && m.dvStopV < rack.cellDvV
  }

  /** Bleeding began at some tick, or before the first, and went on at every tick since. */
  predicate BleedsSince(m: Balancing, found: seq<Rack>, first: bool) {
    exists j :: 0 <= j <= |found| && Began(m, found, first, j) && forall i :: j <= i < |found| ==> GoesOn(m, found[i])
  }

  predicate Began(m: Balancing, found: seq<Rack>, first: bool, j: nat)
    requires j <= |found|
  {
    if j == 0 then first else Begins(m, found[j - 1])
  }

  lemma OneMoreTick(m: Balancing, found: seq<Rack>, first: bool, rack: Rack)
    ensures BleedsSince(m, found + [rack], first) <==>
      (BleedsSince(m, found, first) && GoesOn(m, rack)) || Begins(m, rack)
  {
    hide GoesOn, Begins;
    var all := found + [rack];
    assert forall j :: 0 <= j <= |found| ==> Began(m, all, first, j) == Began(m, found, first, j);
    if BleedsSince(m, found, first) && GoesOn(m, rack) {
      var j :| 0 <= j <= |found| && Began(m, found, first, j) && forall i :: j <= i < |found| ==> GoesOn(m, found[i]);
      assert Began(m, all, first, j);
    }
    if Begins(m, rack) {
      assert Began(m, all, first, |all|);
    }
    if BleedsSince(m, all, first) {
      var j :| 0 <= j <= |all| && Began(m, all, first, j) && forall i :: j <= i < |all| ==> GoesOn(m, all[i]);
      if j < |all| {
        assert all[|found|] == rack;
        assert forall i :: j <= i < |found| ==> GoesOn(m, found[i]) by {
          assert forall i :: j <= i < |found| ==> all[i] == found[i];
        }
      }
    }
  }

  /** The racks the ticks of a run find at one place. */
  function Found(pl: Plant, s: Site, ops: seq<Op>, b: nat, c: nat, r: nat): seq<Rack> {
    if ops == [] then [] else
      var mid := StateAfter(pl, s, Init(ops));
      Found(pl, s, Init(ops), b, c, r)
      + (if Last(ops).OpTick? && HasRack(mid.blocks, b, c, r) then [RackAt(mid, b, c, r)] else [])
  }

  lemma SteppedBleeds(pl: Plant, rack: Rack, perRack: real)
    ensures RackStepped(pl, rack, perRack).0.balancing == Bleeds(pl.bms.balancing, rack)
  {
    BalancedBleeds(pl, rack);
    hide Balanced, RequestW, CurrentA, RelaxedV, OcvRackV, SocDrop, TerminalW;
  }

  lemma BalancedBleeds(pl: Plant, rack: Rack)
    ensures Balanced(pl, rack).balancing == Bleeds(pl.bms.balancing, rack)
  {
    hide Bleeds;
  }

  lemma TickBleeds(pl: Plant, s: Site, inputs: Inputs, b: nat, c: nat, r: nat)
    requires HasRack(s.blocks, b, c, r)
    ensures var next := Tick(pl, s, inputs);
      HasRack(next.blocks, b, c, r)
      && RackAt(next, b, c, r).balancing == Bleeds(pl.bms.balancing, RackAt(s, b, c, r))
  {
    hide Tick, RackStepped, Bleeds;
    TickRack(pl, s, inputs, b, c, r);
    SteppedBleeds(pl, RackAt(s, b, c, r), ShareOf(pl, s, b));
  }

  /** Hysteresis on every run: a rack bleeds exactly when, at some tick, service, charge and
      current allowed it and the spread was at least `dvStartV`, and at every tick since
      they still did and the spread was above `dvStopV`. No command moves the flag. */
  lemma {:induction false} BleedingHolds(pl: Plant, s: Site, ops: seq<Op>, b: nat, c: nat, r: nat)
    requires HasRack(s.blocks, b, c, r) && pl.bms.balancing.dvStopV < pl.bms.balancing.dvStartV
    ensures var end := StateAfter(pl, s, ops);
      HasRack(end.blocks, b, c, r)
      && (RackAt(end, b, c, r).balancing
          <==> BleedsSince(pl.bms.balancing, Found(pl, s, ops, b, c, r), RackAt(s, b, c, r).balancing))
  {
    hide Exec, BleedsSince, HasRack, MayBleed;
    var m, first := pl.bms.balancing, RackAt(s, b, c, r).balancing;
    if ops == [] {
      NoTicks(m, first);
    } else {
      var mid, op, found := StateAfter(pl, s, Init(ops)), Last(ops), Found(pl, s, Init(ops), b, c, r);
      BleedingHolds(pl, s, Init(ops), b, c, r);
      OpBleeds(pl, mid, op, b, c, r);
      if op.OpTick? {
        OneMoreTick(m, found, first, RackAt(mid, b, c, r));
      } else {
        assert found + [] == found;
      }
    }
  }

  lemma NoTicks(m: Balancing, first: bool)
    ensures BleedsSince(m, [], first) == first
  {
    assert Began(m, [], first, 0) == first;
  }

  lemma OpBleeds(pl: Plant, s: Site, op: Op, b: nat, c: nat, r: nat)
    requires HasRack(s.blocks, b, c, r) && pl.bms.balancing.dvStopV < pl.bms.balancing.dvStartV
    ensures HasRack(Exec(pl, s, op).blocks, b, c, r)
    ensures var m, rack := pl.bms.balancing, RackAt(s, b, c, r);
      RackAt(Exec(pl, s, op), b, c, r).balancing
      <==> if op.OpTick? then (rack.balancing && GoesOn(m, rack)) || Begins(m, rack) else rack.balancing
  {
    hide Tick, Applied, Commanded;
    if op.OpTick? {
      TickBleeds(pl, s, op.inputs, b, c, r);
    } else {
      OpSetsRack(pl, s, op, b, c, r);
    }
  }

  // ----- How far it bleeds ---------------------------------------------------------------------

  /** The books of one BMS step. Bleeding closes the spread by the bleed current's charge,
      or all of it, and takes its share of that from the charge of the rack, or all there
      is; without it the charge stays and the spread only grows. The spread in volts is
      read at the new charge, half the spread either side. */
  lemma BleedBooks(m: Balancing, c: Curve, rack: Rack, cfg: RackConfig, dt: Pos)
    requires BalancingSound(m) && SpreadOk(rack)
    ensures var next := Balance(m, c, rack, cfg, dt).0;
      var closed := GrownDsoc(m, rack, cfg, dt) - next.cellDsoc;
      && next.balancing == Bleeds(m, rack)
      && (Bleeds(m, rack) ==>
            && (0.0 < next.cellDsoc ==> closed * (3600.0 * CapacityAh(rack, cfg)) == m.bleedCurrentA * dt)
            && closed * (3600.0 * CapacityAh(rack, cfg)) <= m.bleedCurrentA * dt
            && (0.0 < next.soc ==> rack.soc - next.soc == m.bleedingShare * closed)
            && 0.0 <= next.cellDsoc)
      && (!Bleeds(m, rack) ==> closed == 0.0 && next.soc == rack.soc)
      && next.cellDvV == OcvCellV(c, next.soc + next.cellDsoc / 2.0) - OcvCellV(c, next.soc - next.cellDsoc / 2.0)
  {
    hide Bleeds, OcvCellV, OcvIntegralV, CapacityAh, GrownDsoc;
    var grown := GrownDsoc(m, rack, cfg, dt);
    GrownInRange(m, rack, cfg, dt);
    NarrowedInRange(m, rack, cfg, grown, dt);
    ByCurrent(m.bleedCurrentA * dt, 3600.0 * CapacityAh(rack, cfg), grown);
  }

  lemma ByCurrent(charge: real, k: Pos, grown: real)
    ensures var n := Min(charge / k, grown);
      n * k <= charge && (n < grown ==> n * k == charge)
  {
    Cancel(charge, k);
    if grown < charge / k { MulMono(k, grown, charge / k); }
  }

  /** The spread in volts is never negative, and zero without a spread. */
  lemma SpreadInVolts(c: Curve, soc: real, dsoc: real)
    requires 0.0 <= dsoc
    ensures 0.0 <= SpreadV(c, soc, dsoc) && SpreadV(c, soc, 0.0) == 0.0
  {
    hide OcvCellV;
    OcvMonotone(c, soc - dsoc / 2.0, soc + dsoc / 2.0);
  }

  /** The spread that charge moved adds. */
  function GrowthBy(m: Balancing, moved: real): real {
    m.growthPerThroughput * Abs(moved)
  }

  /** The spread a step of the cells lets the next BMS step add is the charge that step
      moved, either way, by the growth per throughput. */
  lemma ThroughputIsCharge(m: Balancing, cell: Ecm1Rc, rack: Rack, cfg: RackConfig, request: real, dt: Pos)
    requires CellSound(cell, cfg, dt) && RackOk(cell, rack, cfg) && rack.inService
    ensures var next := StepRack(cell, rack, cfg, request, dt).0;
      ThroughputDsoc(m, next, cfg, dt) == GrowthBy(m, next.soc - rack.soc)
  {
    hide StepRack, RackOk, ThroughputDsoc, SocDrop, OcvRackV;
    StepRackKeeps(cell, rack, cfg, request, dt);
    SohKept(cell, rack, cfg, request, dt);
    ServiceKept(cell, rack, cfg, request, dt);
    MovedCharge(m, StepRack(cell, rack, cfg, request, dt).0, rack, cfg, dt);
  }

  lemma MovedCharge(m: Balancing, next: Rack, rack: Rack, cfg: RackConfig, dt: Pos)
    requires next.inService && next.soh == rack.soh && next.soc == rack.soc - SocDrop(rack, cfg, next.currentA, dt)
    ensures ThroughputDsoc(m, next, cfg, dt) == GrowthBy(m, next.soc - rack.soc)
  {
    SameSohSameCapacity(next, rack, cfg);
    hide CapacityAh;
    AbsOfShare(next.currentA, dt, 3600.0 * CapacityAh(rack, cfg));
  }

  lemma ServiceKept(cell: Ecm1Rc, rack: Rack, cfg: RackConfig, request: real, dt: Pos)
    ensures StepRack(cell, rack, cfg, request, dt).0.inService == rack.inService
  {
    hide CurrentA, RelaxedV, OcvRackV, SocDrop, TerminalW, EmfV;
  }

  lemma AbsOfShare(i: real, dt: Pos, k: Pos)
    ensures Abs(i) * dt / k == Abs(i * dt / k)
  {
    if i < 0.0 {
      MulPos(-i, dt);
      assert i * dt == -(-i * dt);
    } else {
      MulNonNeg(i, dt);
    }
    SameSign(i * dt, k);
  }

  lemma SameSign(x: real, k: Pos)
    ensures 0.0 <= x ==> 0.0 <= x / k
    ensures x < 0.0 ==> x / k < 0.0 && -x / k == -(x / k)
  {}

  /** From one tick to the next BMS step: a rack in service that does not bleed spreads by
      its throughput and its drift, self-discharge included, up to a whole charge. */
  lemma SpreadGrows(pl: Plant, rack: Rack, perRack: real)
    requires Sound(pl) && RackGood(pl, rack) && rack.inService
    ensures var m, after := pl.bms.balancing, RackStepped(pl, rack, perRack).0;
      !Bleeds(m, after) ==>
        Balanced(pl, after).cellDsoc
        == Min(after.cellDsoc + GrowthBy(m, after.soc - Balanced(pl, rack).soc)
               + (m.growthPerS + rack.selfDischargeExcess), 1.0)
  {
    hide StepRack, RackOk, RequestW, Bleeds, ThroughputDsoc, StoredWh, Balanced, SpreadOk, Min, GrowthBy;
    BalancedGood(pl, rack);
    ThroughputIsCharge(pl.bms.balancing, pl.cell, Balanced(pl, rack), pl.rackCfg, RequestW(pl, rack, perRack), TICK);
    SteppedKeepsFlags(pl, rack, perRack);
    GrowsUnbled(pl, RackStepped(pl, rack, perRack).0);
  }

  lemma GrowsUnbled(pl: Plant, rack: Rack)
    ensures !Bleeds(pl.bms.balancing, rack) ==>
      Balanced(pl, rack).cellDsoc
      == Min(rack.cellDsoc + ThroughputDsoc(pl.bms.balancing, rack, pl.rackCfg, TICK)
             + (pl.bms.balancing.growthPerS + rack.selfDischargeExcess), 1.0)
  {
    hide Bleeds, ThroughputDsoc, SpreadV;
  }

  // ----- The limits inside the window ----------------------------------------------------------

  /** All of a power a taper band or more inside the window, and inside the band the part of
      it that the distance to the edge is of the band. */
  predicate Tapers(limit: real, full: real, inside: real, band: real) {
    (band <= inside ==> limit == full) && (0.0 <= inside <= band ==> limit * band == full * inside)
  }

  /** The rack's rating at a temperature. */
  function RatingW(curve: TempCurve, rack: Rack, cfg: RackConfig): real {
    cfg.maxCurrentA * (cfg.nominalCellV * cfg.cells) * Factor(curve, rack.cellTempC)
  }

  /** A rack in service may give its rating, derated by temperature and tapered towards the
      floor of its window, and take likewise towards the ceiling. */
  lemma LimitsTaper(m: BasicBms, rack: Rack, cfg: RackConfig)
    requires rack.inService
    ensures var lim := RackLimits(m, rack, cfg);
      && Tapers(lim.dischargeW, RatingW(m.dischargeTemp, rack, cfg), rack.soc - cfg.socMin, m.taperSocBand)
      && Tapers(lim.chargeW, RatingW(m.chargeTemp, rack, cfg), cfg.socMax - rack.soc, m.taperSocBand)
  {
    hide Factor, RackLimits, TaperedW, Tapers, RatingW;
    var rated := cfg.maxCurrentA * (cfg.nominalCellV * cfg.cells);
    var f, g := Factor(m.dischargeTemp, rack.cellTempC), Factor(m.chargeTemp, rack.cellTempC);
    LimitsAre(m, rack, cfg, rated, f, g);
    RatingIs(m.dischargeTemp, rack, cfg, rated, f);
    RatingIs(m.chargeTemp, rack, cfg, rated, g);
    Taper(rated, f, rack.soc - cfg.socMin, m.taperSocBand, RatingW(m.dischargeTemp, rack, cfg));
    Taper(rated, g, cfg.socMax - rack.soc, m.taperSocBand, RatingW(m.chargeTemp, rack, cfg));
  }

  lemma RatingIs(curve: TempCurve, rack: Rack, cfg: RackConfig, rated: real, f: real)
    requires rated == cfg.maxCurrentA * (cfg.nominalCellV * cfg.cells) && f == Factor(curve, rack.cellTempC)
    ensures RatingW(curve, rack, cfg) == rated * f
  {
    hide Factor;
  }

  function TaperedW(rated: real, f: real, x: real, band: Pos): real {
    rated * (Clamp(x / band, 0.0, 1.0) * f)
  }

  lemma LimitsAre(m: BasicBms, rack: Rack, cfg: RackConfig, rated: real, f: real, g: real)
    requires rack.inService && rated == cfg.maxCurrentA * (cfg.nominalCellV * cfg.cells)
    requires f == Factor(m.dischargeTemp, rack.cellTempC) && g == Factor(m.chargeTemp, rack.cellTempC)
    ensures RackLimits(m, rack, cfg)
      == Limits(TaperedW(rated, g, cfg.socMax - rack.soc, m.taperSocBand),
                TaperedW(rated, f, rack.soc - cfg.socMin, m.taperSocBand))
  {
    hide Factor, Clamp;
  }

  lemma Taper(rated: real, f: real, x: real, band: Pos, full: real)
    requires full == rated * f
    ensures Tapers(TaperedW(rated, f, x, band), full, x, band)
  {
    if band <= x { AllOfBand(x, band); }
    if 0.0 <= x <= band {
      InBand(x, band);
      Regroup(rated, Clamp(x / band, 0.0, 1.0), f, band, x);
    }
  }

  lemma AllOfBand(x: real, band: Pos)
    requires band <= x
    ensures Clamp(x / band, 0.0, 1.0) == 1.0
  {
    DivMono(band, x, band);
  }

  lemma InBand(x: real, band: Pos)
    requires 0.0 <= x <= band
    ensures Clamp(x / band, 0.0, 1.0) * band == x
  {
    DivMono(0.0, x, band);
    DivMono(x, band, band);
    Cancel(x, band);
  }

  lemma Regroup(rated: real, share: real, f: real, band: real, x: real)
    requires band * share == x
    ensures rated * (share * f) * band == rated * f * x
  {
    assert rated * (share * f) * band == rated * f * (band * share);
  }

  // ----- What a step leaves at the terminals ---------------------------------------------------

  /** A rack's terminals show what it delivers, and at rest its open-circuit voltage less
      what the branch still holds. */
  lemma TerminalsShow(m: Ecm1Rc, rack: Rack, cfg: RackConfig, request: real, dt: Pos)
    ensures var (next, res) := StepRack(m, rack, cfg, request, dt);
      && (rack.inService ==> next.voltageV * next.currentA == res.dcW)
      && (!rack.inService ==>
            next.currentA == 0.0 && next.voltageV + next.polarizationV == OcvRackV(m, rack.soc, cfg))
  {
    hide CurrentA, RelaxedV, OcvRackV, SocDrop, EmfV, R0;
  }

  /** The branch closes the same share of its way to the voltage of the current, whatever the
      current. */
  lemma BranchRelaxes(m: Ecm1Rc, rack: Rack, cfg: RackConfig, request: real, dt: Pos)
    ensures var next := StepRack(m, rack, cfg, request, dt).0;
      var at := next.currentA * R1(m, rack.resistanceScale);
      next.polarizationV - at == (1.0 - dt / m.tau1) * (rack.polarizationV - at)
  {
    hide StepRack, CurrentA, R1;
    StepsBranch(m, rack, cfg, request, dt);
    StepCurrent(m, rack, cfg, request, dt);
    RestOfWay(rack.polarizationV, CurrentA(m, rack, cfg, request, dt) * R1(m, rack.resistanceScale), dt / m.tau1);
  }

  lemma StepCurrent(m: Ecm1Rc, rack: Rack, cfg: RackConfig, request: real, dt: Pos)
    ensures StepRack(m, rack, cfg, request, dt).0.currentA == CurrentA(m, rack, cfg, request, dt)
  {
    hide RelaxedV, OcvRackV, SocDrop, EmfV, R0, TerminalW, BoundedA, SolvedA;
  }

  lemma RestOfWay(v: real, at: real, a: real)
    ensures v + a * (at - v) - at == (1.0 - a) * (v - at)
  {}
}
