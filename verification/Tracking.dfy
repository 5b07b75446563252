/** Delivery in full: when a rack, a block and the site give exactly what they are set to,
    over every tick of every run. */
module TrackingLaws {
  import opened Reals
  import opened State
  import opened Log
  import opened Cell
  import opened Derate
  import opened Bms
  import opened Converter
  import opened Substations
  import opened Plants
  import opened HeatLaws
  import opened Kernel
  import opened TickLaws
  import opened SiteLaws
  import opened Runs
  import opened RunLaws

  // ----- One rack step ------------------------------------------------------------------

  /** The most the terminals of an EMF behind a resistance are asked for: 99.9% of the best. */
  function BestW(e: real, r0: Pos): real {
    0.999 * (e * e / (4.0 * r0))
  }

  /** A power a rack in service can give in one step, read off the rack before it: nothing,
      or a power past the numeric floor, within 99.9% of the most the terminals can give,
      and no more than they give at the current left by rating and charge. */
  predicate Meets(m: Ecm1Rc, rack: Rack, cfg: RackConfig, w: real, dt: Pos) {
    var e, r0, room := EmfV(m, rack, cfg), R0(m, rack), RoomA(rack, cfg, w, dt);
    w == 0.0
    || (EPSILON <= Abs(w) && w <= BestW(e, r0)
        && if w < 0.0 then TerminalW(e, r0, -room) <= w else e <= 2.0 * (r0 * room) || w <= TerminalW(e, r0, room))
  }

  /** A rack in service gives exactly what it is asked for, and never when it cannot. */
  lemma StepMeets(m: Ecm1Rc, rack: Rack, cfg: RackConfig, w: real, dt: Pos)
    requires CellSound(m, cfg, dt) && RackOk(m, rack, cfg) && rack.inService
    ensures StepRack(m, rack, cfg, w, dt).1.dcW == w <==> Meets(m, rack, cfg, w, dt)
  {
    hide R0, OcvRackV, MostChargeA, MostDischargeA, TerminalW, SolveA, DeliverableW, Min, Clamp, StepRack, BestW;
    var e, r0: Pos := EmfV(m, rack, cfg), R0(m, rack);
    var p := DeliverableW(e, r0, w);
    var i0, i := SolveA(m, e, r0, p), CurrentA(m, rack, cfg, w, dt);
    var charge, discharge := MostChargeA(rack, cfg, dt), MostDischargeA(rack, cfg, dt);
    EmfPositive(m, rack, cfg);
    SolvedSide(m, e, r0, w, p, i0);
    BoundsNonNegative(rack, cfg, dt);
    CurrentParts(m, rack, cfg, w, dt);
    BoundedBy(i0, i, cfg.maxCurrentA, charge, discharge);
    NoLess(cfg.maxCurrentA, charge, discharge);
    StepPower(m, rack, cfg, w, dt);
    PartOfBest(e, r0, w, p);
    hide RackOk, CellSound, CurrentA;
    AskedAndGiven(e, r0, w, p, i0, i, Min(cfg.maxCurrentA, if i0 < 0.0 then charge else discharge),
        RoomA(rack, cfg, w, dt), BestW(e, r0));
  }

  lemma StepPower(m: Ecm1Rc, rack: Rack, cfg: RackConfig, w: real, dt: Pos)
    requires rack.inService
    ensures StepRack(m, rack, cfg, w, dt).1.dcW
         == TerminalW(EmfV(m, rack, cfg), R0(m, rack), CurrentA(m, rack, cfg, w, dt))
  {
    hide CurrentA, RelaxedV, SocDrop, R0, TerminalW, EmfV, OcvRackV;
  }

  /** The deliverable part of a power is all of it up to 99.9% of the best. */
  lemma PartOfBest(e: real, r0: Pos, w: real, p: real)
    requires p == DeliverableW(e, r0, w)
    ensures (p == w <==> w <= BestW(e, r0)) && p <= BestW(e, r0)
  {}

  /** Left of the vertex more current is more power. */
  lemma PowerRises(e: real, r0: Pos, i: real, x: real)
    requires i < x && 2.0 * (r0 * x) <= e
    ensures TerminalW(e, r0, i) < TerminalW(e, r0, x)
  {
    var u := e - r0 * (i + x);
    MulStrict(r0, i, x);
    assert 0.0 < u;
    assert TerminalW(e, r0, x) - TerminalW(e, r0, i) == (x - i) * u by {
      assert (e - r0 * x) * x - (e - r0 * i) * i == (x - i) * (e - r0 * (i + x));
    }
    MulPos(x - i, u);
  }

  /** The solved current is within a room exactly when the power asked for is. */
  lemma WithinRoom(e: real, r0: Pos, w: real, i0: real, room: real)
    requires 0.0 < e && 0.0 <= room && w == TerminalW(e, r0, i0) && 2.0 * (r0 * i0) <= e
    requires i0 != 0.0 && (i0 < 0.0 <==> w < 0.0)
    ensures Abs(i0) <= room <==>
      if w < 0.0 then TerminalW(e, r0, -room) <= w else e <= 2.0 * (r0 * room) || w <= TerminalW(e, r0, room)
  {
    hide TerminalW;
    if w < 0.0 {
      MulMono(r0, -room, 0.0);
      MulMono(r0, i0, 0.0);
      if i0 < -room { PowerRises(e, r0, i0, -room); }
      if -room < i0 { PowerRises(e, r0, -room, i0); }
    } else {
      if i0 < room && 2.0 * (r0 * room) <= e { PowerRises(e, r0, i0, room); }
      if room < i0 {
        PowerRises(e, r0, room, i0);
        MulStrict(r0, room, i0);
      }
    }
  }

  lemma AskedAndGiven(e: real, r0: Pos, w: real, p: real, i0: real, i: real, bound: real, room: real, cap: real)
    requires 0.0 < e && Toward(p, w) && (p == w <==> w <= cap) && p <= cap
    requires Abs(p) < EPSILON ==> i0 == 0.0
    requires EPSILON <= Abs(p) ==>
      TerminalW(e, r0, i0) == p && 2.0 * r0 * i0 <= e && i0 != 0.0 && (i0 < 0.0 <==> p < 0.0)
    requires 0.0 <= bound && Abs(i) == Min(Abs(i0), bound) && (i < 0.0 ==> i0 < 0.0) && (0.0 < i ==> 0.0 < i0)
    requires (i0 < 0.0 <==> w < 0.0) ==> bound == room
    ensures TerminalW(e, r0, i) == w <==>
      w == 0.0
      || (EPSILON <= Abs(w) && w <= cap
          && if w < 0.0 then TerminalW(e, r0, -room) <= w else e <= 2.0 * (r0 * room) || w <= TerminalW(e, r0, room))
  {
    AtRest(e, r0);
    hide TerminalW;
    if EPSILON <= Abs(p) {
      Grouped(r0, i0);
      LessCurrentLessPower(e, r0, i, i0);
      if p == w {
        WithinRoom(e, r0, w, i0, room);
        if i < i0 { PowerRises(e, r0, i, i0); }
        if i0 < i { MulMono(r0, i, 0.0); PowerRises(e, r0, i0, i); }
      }
    }
  }

  lemma Grouped(r0: real, i: real)
    ensures 2.0 * r0 * i == 2.0 * (r0 * i)
  {}

  /** What a rack in service gives of a power asked, short of solving for the current: the
      part of it the terminals can give; none below the numeric floor; and no more, either
      way, than at the current left by rating and charge. */
  function GivesW(m: Ecm1Rc, rack: Rack, cfg: RackConfig, w: real, dt: Pos): real {
    var e, r0 := EmfV(m, rack, cfg), R0(m, rack);
    HeldToRoomW(e, r0, Min(w, BestW(e, r0)), RoomA(rack, cfg, w, dt))
  }

  function HeldToRoomW(e: real, r0: Pos, p: real, room: real): real {
    if Abs(p) < EPSILON then 0.0
    else if p < 0.0 then Max(p, TerminalW(e, r0, -room))
    else if e <= 2.0 * (r0 * room) then p
    else Min(p, TerminalW(e, r0, room))
  }

  /** The power of a step, exactly, whatever is asked. */
  lemma StepGives(m: Ecm1Rc, rack: Rack, cfg: RackConfig, w: real, dt: Pos)
    requires CellSound(m, cfg, dt) && RackOk(m, rack, cfg) && rack.inService
    ensures StepRack(m, rack, cfg, w, dt).1.dcW == GivesW(m, rack, cfg, w, dt)
  {
    hide R0, OcvRackV, MostChargeA, MostDischargeA, TerminalW, SolveA, DeliverableW, Min, Clamp, StepRack, HeldToRoomW,
      BestW;
    var e, r0: Pos := EmfV(m, rack, cfg), R0(m, rack);
    var p := DeliverableW(e, r0, w);
    var i0, i := SolveA(m, e, r0, p), CurrentA(m, rack, cfg, w, dt);
    var charge, discharge := MostChargeA(rack, cfg, dt), MostDischargeA(rack, cfg, dt);
    EmfPositive(m, rack, cfg);
    SolvedSide(m, e, r0, w, p, i0);
    BoundsNonNegative(rack, cfg, dt);
    CurrentParts(m, rack, cfg, w, dt);
    BoundedBy(i0, i, cfg.maxCurrentA, charge, discharge);
    NoLess(cfg.maxCurrentA, charge, discharge);
    StepPower(m, rack, cfg, w, dt);
    SideOfBest(e, r0, w, p);
    hide RackOk, CellSound, CurrentA;
    HeldIs(e, r0, p, i0, i, Min(cfg.maxCurrentA, if i0 < 0.0 then charge else discharge), RoomA(rack, cfg, w, dt));
  }

  lemma SideOfBest(e: real, r0: Pos, w: real, p: real)
    requires 0.0 < e && p == DeliverableW(e, r0, w)
    ensures p == Min(w, BestW(e, r0)) && (p < 0.0 <==> w < 0.0)
  {
    MulPos(e, e);
    DivMono(0.0, e * e, 4.0 * r0);
  }

  lemma HeldIs(e: real, r0: Pos, p: real, i0: real, i: real, bound: real, room: real)
    requires 0.0 < e
    requires Abs(p) < EPSILON ==> i0 == 0.0
    requires EPSILON <= Abs(p) ==>
      TerminalW(e, r0, i0) == p && 2.0 * r0 * i0 <= e && i0 != 0.0 && (i0 < 0.0 <==> p < 0.0)
    requires 0.0 <= bound && Abs(i) == Min(Abs(i0), bound) && (i < 0.0 ==> i0 < 0.0) && (0.0 < i ==> 0.0 < i0)
    requires i0 != 0.0 ==> bound == room
    ensures TerminalW(e, r0, i) == HeldToRoomW(e, r0, p, room)
  {
    AtRest(e, r0);
    hide TerminalW;
    if EPSILON <= Abs(p) {
      Grouped(r0, i0);
      WithinRoom(e, r0, p, i0, room);
      if Abs(i0) <= room {
        assert i == i0;
      } else {
        assert i == if p < 0.0 then -room else room;
      }
    }
  }

  // ----- One rack through one tick ----------------------------------------------------------

  /** A share a rack gives in full: none of it out of service; in service one inside the
      limits its BMS hands out this tick, and which the cells can give. */
  predicate RackMeets(pl: Plant, rack: Rack, w: real) {
    rack.inService ==>
      && -LimitsOf(pl, rack).chargeW <= w <= LimitsOf(pl, rack).dischargeW
      && Meets(pl.cell, Balanced(pl, rack), pl.rackCfg, w, TICK)
  }

  lemma RackGives(pl: Plant, rack: Rack, w: real)
    requires Sound(pl) && RackGood(pl, rack) && rack.inService
    ensures RackStepped(pl, rack, w).1.dcW == w <==> RackMeets(pl, rack, w)
    ensures Toward(RackStepped(pl, rack, w).1.dcW, w)
  {
    var ready, request := Balanced(pl, rack), RequestW(pl, rack, w);
    RackTick(pl, rack, w);
    BalancedGood(pl, rack);
    LimitsNonNegative(pl.bms, ready, pl.rackCfg);
    StepRackKeeps(pl.cell, ready, pl.rackCfg, request, TICK);
    StepMeets(pl.cell, ready, pl.rackCfg, request, TICK);
    InsideLimits(pl, rack, w);
    hide Balanced, LimitsOf, RequestW, StepRack, RackOk, Meets, StoredWh, RackBook, Settles, RackHeatW;
  }

  lemma InsideLimits(pl: Plant, rack: Rack, w: real)
    requires Sound(pl) && rack.inService
    ensures Toward(RequestW(pl, rack, w), w)
    ensures RequestW(pl, rack, w) == w <==> -LimitsOf(pl, rack).chargeW <= w <= LimitsOf(pl, rack).dischargeW
  {
    RequestToward(pl, rack, w);
    hide Balanced, RackLimits;
  }

  // ----- Rows, containers, the block ---------------------------------------------------------

  predicate RowMeets(pl: Plant, racks: seq<Rack>, w: real, k: nat)
    requires k <= |racks|
  {
    forall r :: 0 <= r < k ==> RackMeets(pl, racks[r], w)
  }

  predicate AllMeet(pl: Plant, cs: seq<Container>, w: real, k: nat)
    requires k <= |cs|
  {
    forall c :: 0 <= c < k ==> RowMeets(pl, cs[c].racks, w, |cs[c].racks|)
  }

  /** Parts on the way to their shares add up to all of them only when each is whole. */
  lemma WholeParts(x: real, a: real, y: real, b: real, per: real)
    requires Toward(x, a) && Toward(y, b) && (0.0 <= per ==> 0.0 <= a && 0.0 <= b)
        && (per <= 0.0 ==> a <= 0.0 && b <= 0.0)
    ensures x + y == a + b <==> x == a && y == b
  {}

  lemma {:induction false} RowGives(pl: Plant, racks: seq<Rack>, w: real, k: nat)
    requires Sound(pl) && RowGood(pl, racks) && k <= |racks|
    ensures RowDcW(pl, racks, w, k) == Shares(RowInService(racks, k), w) <==> RowMeets(pl, racks, w, k)
  {
    hide Shares, RackStepped, RackGood, LimitsOf, Meets, Sound;
    SharesStep(0, w);
    if k > 0 {
      var rack, n := racks[k - 1], RowInService(racks, k - 1);
      RowGives(pl, racks, w, k - 1);
      RowTick(pl, racks, w, k - 1);
      RackTick(pl, rack, w);
      SharesStep(n, w);
      SharesSide(n, w);
      if rack.inService {
        RackGives(pl, rack, w);
        WholeParts(RowDcW(pl, racks, w, k - 1), Shares(n, w), RackStepped(pl, rack, w).1.dcW, w, w);
      }
    }
  }

  lemma {:induction false} ContainersGive(pl: Plant, cs: seq<Container>, w: real, k: nat)
    requires Sound(pl) && ContainersGood(pl, cs) && k <= |cs|
    ensures DcW(pl, cs, w, k) == Shares(InServiceCount(cs, k), w) <==> AllMeet(pl, cs, w, k)
  {
    hide Shares, RowDcW, RowInService, RowGood, RowMeets, Sound, ContainersGood, HeatW, RowHeatW, BlockBook, RowBook,
      Toward, AllMeet;
    SharesStep(0, w);
    if k == 0 {
      NoneToMeet(pl, cs, w);
    } else {
      var racks, n := cs[k - 1].racks, InServiceCount(cs, k - 1);
      ContainersGive(pl, cs, w, k - 1);
      ContainersDeliver(pl, cs, w, k - 1);
      ContainerIn(pl, cs, k - 1);
      OneMoreMeets(pl, cs, w, k);
      RowGives(pl, racks, w, |racks|);
      RowTick(pl, racks, w, |racks|);
      SharesAdd(n, RowInService(racks, |racks|), w);
      SharesSide(n, w);
      SharesSide(RowInService(racks, |racks|), w);
      WholeParts(DcW(pl, cs, w, k - 1), Shares(n, w), RowDcW(pl, racks, w, |racks|),
          Shares(RowInService(racks, |racks|), w), w);
    }
  }

  lemma NoneToMeet(pl: Plant, cs: seq<Container>, w: real)
    ensures AllMeet(pl, cs, w, 0)
  {}

  lemma OneMoreMeets(pl: Plant, cs: seq<Container>, w: real, k: nat)
    requires 0 < k <= |cs|
    ensures AllMeet(pl, cs, w, k) <==> AllMeet(pl, cs, w, k - 1) && RowMeets(pl, cs[k - 1].racks, w, |cs[k - 1].racks|)
  {
    hide RowMeets;
  }

  // ----- What a share brings, whatever it is ------------------------------------------------

  /** A share held to the limits a rack's BMS hands out. */
  function HeldW(pl: Plant, rack: Rack, share: real): real {
    var lim := LimitsOf(pl, rack);
    if share < -lim.chargeW then -lim.chargeW else if lim.dischargeW < share then lim.dischargeW else share
  }

  /** The power a rack makes of a share in a tick. */
  function RackPowerW(pl: Plant, rack: Rack, share: real): real {
    if rack.inService then GivesW(pl.cell, Balanced(pl, rack), pl.rackCfg, HeldW(pl, rack, share), TICK) else 0.0
  }

  lemma RackPowerIs(pl: Plant, rack: Rack, share: real)
    requires Sound(pl) && RackGood(pl, rack)
    ensures RackStepped(pl, rack, share).1.dcW == RackPowerW(pl, rack, share)
  {
    RackTick(pl, rack, share);
    BalancedGood(pl, rack);
    if rack.inService {
      AsksHeld(pl, rack, share);
      StepGives(pl.cell, Balanced(pl, rack), pl.rackCfg, HeldW(pl, rack, share), TICK);
    }
    hide Balanced, HeldW, RequestW, StepRack, RackOk, GivesW, StoredWh, RackBook, Settles, RackHeatW, Toward;
  }

  lemma AsksHeld(pl: Plant, rack: Rack, share: real)
    requires rack.inService
    ensures RequestW(pl, rack, share) == HeldW(pl, rack, share)
  {
    hide LimitsOf;
  }

  function RowPowerW(pl: Plant, racks: seq<Rack>, share: real, k: nat): real
    requires k <= |racks|
  {
    if k == 0 then 0.0 else RowPowerW(pl, racks, share, k - 1) + RackPowerW(pl, racks[k - 1], share)
  }

  function PowerW(pl: Plant, cs: seq<Container>, share: real, k: nat): real
    requires k <= |cs|
  {
    if k == 0 then 0.0 else PowerW(pl, cs, share, k - 1) + RowPowerW(pl, cs[k - 1].racks, share, |cs[k - 1].racks|)
  }

  lemma {:induction false} RowPowerIs(pl: Plant, racks: seq<Rack>, share: real, k: nat)
    requires Sound(pl) && RowGood(pl, racks) && k <= |racks|
    ensures RowDcW(pl, racks, share, k) == RowPowerW(pl, racks, share, k)
  {
    hide RackStepped, RackPowerW, RackGood, Sound;
    if k > 0 {
      RowPowerIs(pl, racks, share, k - 1);
      RackPowerIs(pl, racks[k - 1], share);
    }
  }

  lemma {:induction false} PowerIs(pl: Plant, cs: seq<Container>, share: real, k: nat)
    requires Sound(pl) && ContainersGood(pl, cs) && k <= |cs|
    ensures DcW(pl, cs, share, k) == PowerW(pl, cs, share, k)
  {
    hide RowDcW, RowPowerW, RowGood, Sound, ContainersGood;
    if k > 0 {
      PowerIs(pl, cs, share, k - 1);
      ContainerIn(pl, cs, k - 1);
      RowPowerIs(pl, cs[k - 1].racks, share, |cs[k - 1].racks|);
    }
  }

  /** Shares that every rack in service has inside its limits sum to a power inside the
      block's. */
  lemma {:induction false} RowWithin(pl: Plant, racks: seq<Rack>, w: real, k: nat)
    requires Sound(pl) && k <= |racks| && RowMeets(pl, racks, w, k)
    ensures -RowLimits(pl, racks, k).chargeW <= Shares(RowInService(racks, k), w) <= RowLimits(pl, racks, k).dischargeW
  {
    hide Shares, LimitsOf, Meets, Sound;
    SharesStep(0, w);
    if k > 0 {
      RowWithin(pl, racks, w, k - 1);
      SharesStep(RowInService(racks, k - 1), w);
      OneRackLimits(pl, racks[k - 1]);
    }
  }

  lemma OneRackLimits(pl: Plant, rack: Rack)
    requires Sound(pl)
    ensures 0.0 <= LimitsOf(pl, rack).chargeW && 0.0 <= LimitsOf(pl, rack).dischargeW
    ensures !rack.inService ==> LimitsOf(pl, rack) == Limits(0.0, 0.0)
  {
    LimitsNonNegative(pl.bms, Balanced(pl, rack), pl.rackCfg);
    BalancedService(pl, rack);
    hide Balanced, Factor, Clamp;
  }

  lemma BalancedService(pl: Plant, rack: Rack)
    ensures Balanced(pl, rack).inService == rack.inService
  {}

  lemma {:induction false} ContainersWithin(pl: Plant, cs: seq<Container>, w: real, k: nat)
    requires Sound(pl) && k <= |cs| && AllMeet(pl, cs, w, k)
    ensures -DcLimits(pl, cs, k).chargeW <= Shares(InServiceCount(cs, k), w) <= DcLimits(pl, cs, k).dischargeW
  {
    hide Shares, RowLimits, RowInService, RowMeets, Sound, AllMeet;
    SharesStep(0, w);
    if k > 0 {
      var racks := cs[k - 1].racks;
      OneMoreMeets(pl, cs, w, k);
      ContainersWithin(pl, cs, w, k - 1);
      RowWithin(pl, racks, w, |racks|);
      SharesAdd(InServiceCount(cs, k - 1), RowInService(racks, |racks|), w);
    }
  }

  // ----- The converter ------------------------------------------------------------------------

  /** The converter stands by: below its threshold, or on a charge that does not cover its
      own loss. */
  predicate StandsBy(m: CurvePcs, ac: real) {
    Abs(ac) < m.standbyThresholdW || (ac < 0.0 && -ac <= LossW(m, -ac))
  }

  /** The DC power an AC power takes. */
  function NeedsW(m: CurvePcs, ac: real): real {
    ac + LossW(m, Abs(ac))
  }

  lemma RequestIs(m: CurvePcs, target: real, limits: Limits)
    requires PcsSound(m) && 0.0 <= limits.chargeW && 0.0 <= limits.dischargeW
    ensures var ac, request := AtRatingW(m, target), DcRequestW(m, target, limits);
      && (StandsBy(m, ac) ==> request == 0.0)
      && (!StandsBy(m, ac) ==>
            Toward(request, NeedsW(m, ac)) && NeedsW(m, ac) != 0.0
            && (-limits.chargeW <= NeedsW(m, ac) <= limits.dischargeW ==> request == NeedsW(m, ac)))
  {
    LossNonNegative(m, Abs(AtRatingW(m, target)));
    assert 0.0 < m.standbyThresholdW;
    hide LossW, PcsSound;
  }

  /** The DC power a block is asked for: nothing standing by, else what the target inside the
      rating takes, held to the DC limits. */
  function AskedW(m: CurvePcs, target: real, limits: Limits): real {
    var ac := AtRatingW(m, target);
    if StandsBy(m, ac) then 0.0
    else if NeedsW(m, ac) < -limits.chargeW then -limits.chargeW
    else if limits.dischargeW < NeedsW(m, ac) then limits.dischargeW
    else NeedsW(m, ac)
  }

  lemma RequestHeld(m: CurvePcs, target: real, limits: Limits)
    requires PcsSound(m) && 0.0 <= limits.chargeW && 0.0 <= limits.dischargeW
    ensures DcRequestW(m, target, limits) == AskedW(m, target, limits)
  {
    LossNonNegative(m, Abs(AtRatingW(m, target)));
    assert 0.0 < m.standbyThresholdW;
    hide LossW, PcsSound;
  }

  /** Of the part of a need that arrives the converter makes the whole power only when it is
      the whole need. */
  lemma ConvertsWhole(m: CurvePcs, ac: real, dc: real)
    requires PcsSound(m) && Abs(ac) <= m.ratedW && !StandsBy(m, ac) && Toward(dc, NeedsW(m, ac))
    ensures AcOf(m, dc) == ac <==> dc == NeedsW(m, ac)
  {
    assert 0.0 < m.standbyThresholdW;
    hide LossW, DischargeAcW, ChargeAcAbsW, PcsSound;
    LossNonNegative(m, Abs(ac));
    if 0.0 < dc {
      DischargeSolves(m, dc, DischargeAcW(m, dc));
      DischargeOrders(m, dc, ac, DischargeAcW(m, dc));
    } else if dc < 0.0 {
      ChargeSolves(m, -dc, -ac, ChargeAcAbsW(m, -dc));
    }
  }

  // ----- The block ------------------------------------------------------------------------------

  lemma {:induction false} RowOut(pl: Plant, racks: seq<Rack>, k: nat)
    requires Sound(pl) && k <= |racks| && RowInService(racks, k) == 0
    ensures RowLimits(pl, racks, k) == Limits(0.0, 0.0)
  {
    hide LimitsOf, Sound, RowInService, RowLimits, AddLimits;
    RowStep(pl, racks, k);
    if k > 0 {
      RowOut(pl, racks, k - 1);
      OneRackLimits(pl, racks[k - 1]);
      NothingAdded();
    }
  }

  lemma NothingAdded()
    ensures AddLimits(Limits(0.0, 0.0), Limits(0.0, 0.0)) == Limits(0.0, 0.0)
  {}

  lemma RowStep(pl: Plant, racks: seq<Rack>, k: nat)
    requires k <= |racks|
    ensures k == 0 ==> RowLimits(pl, racks, k) == Limits(0.0, 0.0)
    ensures k > 0 ==> RowLimits(pl, racks, k) == AddLimits(RowLimits(pl, racks, k - 1), LimitsOf(pl, racks[k - 1]))
    ensures k > 0 ==>
      RowInService(racks, k) == RowInService(racks, k - 1) + (if racks[k - 1].inService then 1 else 0)
  {
    hide LimitsOf;
  }

  lemma {:induction false} AllOut(pl: Plant, cs: seq<Container>, k: nat)
    requires Sound(pl) && k <= |cs| && InServiceCount(cs, k) == 0
    ensures DcLimits(pl, cs, k) == Limits(0.0, 0.0)
  {
    hide RowLimits, Sound;
    if k > 0 {
      AllOut(pl, cs, k - 1);
      RowOut(pl, cs[k - 1].racks, |cs[k - 1].racks|);
    }
  }

  lemma NoLimitsNoRequest(m: CurvePcs, target: real)
    requires PcsSound(m)
    ensures DcRequestW(m, target, Limits(0.0, 0.0)) == 0.0
  {
    LossNonNegative(m, Abs(AtRatingW(m, target)));
    hide LossW;
  }

  /** Every rack of a block took one step, each asked for the same. */
  ghost predicate EachAsked(pl: Plant, before: seq<Container>, after: seq<Container>, each: real) {
    && SameRacks(before, after)
    && forall c, r :: 0 <= c < |before| && 0 <= r < |before[c].racks| ==>
         SameElectrics(after[c].racks[r], RackStepped(pl, before[c].racks[r], each).0)
  }

  lemma TickAsks(pl: Plant, cs: seq<Container>, each: real, weather: Weather)
    ensures EachAsked(pl, cs, ContainersTick(pl, cs, each, weather, |cs|), each)
  {
    var next := ContainersTick(pl, cs, each, weather, |cs|);
    ContainersTickShape(pl, cs, each, weather);
    hide ContainersTick, ContainerTick, RackStepped, SameElectrics;
    forall c, r | 0 <= c < |cs| && 0 <= r < |cs[c].racks|
      ensures SameElectrics(next[c].racks[r], RackStepped(pl, cs[c].racks[r], each).0)
    {
      ContainersTickAt(pl, cs, each, weather, |cs|, c);
      ContainerRack(pl, cs[c], each, weather, r);
    }
  }

  /** The even split: every rack in service is asked for one and the same share, and the
      shares sum to what the block's DC side is asked for. */
  lemma EvenSplit(pl: Plant, b: Block, inSet: bool, share: real, weather: Weather) returns (each: real)
    requires Sound(pl) && ContainersGood(pl, b.containers)
    ensures var next, cs := BlockTick(pl, b, inSet, share, weather), b.containers;
      && Shares(InServiceCount(cs, |cs|), each) == DcRequestW(pl.pcs, next.pcs.setpointW, DcLimits(pl, cs, |cs|))
      && next.pcs.dcW == DcW(pl, cs, each, |cs|)
      && EachAsked(pl, cs, next.containers, each)
  {
    each := PerRackW(pl, b, inSet, share);
    BlockTracks(pl, b, inSet, share, weather);
    SplitSums(pl, b, inSet, share);
    TickAsks(pl, b.containers, each, weather);
    TickContainers(pl, b, inSet, share, weather);
    hide DcRequestW, DcLimits, ContainersTick, PerRackW, DcW, BlockTick, ContainersGood, Sound, InServiceCount, Shares,
      CapabilityW, Toward, Abs, EachAsked;
  }

  lemma TickContainers(pl: Plant, b: Block, inSet: bool, share: real, weather: Weather)
    ensures BlockTick(pl, b, inSet, share, weather).containers
         == ContainersTick(pl, b.containers, PerRackW(pl, b, inSet, share), weather, |b.containers|)
  {
    hide ContainersTick, PerRackW, DcW, BlockWord, MissS, Finalize;
  }

  lemma SplitSums(pl: Plant, b: Block, inSet: bool, share: real)
    requires Sound(pl)
    ensures Shares(InServiceCount(b.containers, |b.containers|), PerRackW(pl, b, inSet, share))
         == DcRequestW(pl.pcs, BlockTargetW(inSet, share), DcLimits(pl, b.containers, |b.containers|))
  {
    var n := InServiceCount(b.containers, |b.containers|);
    if n == 0 {
      AllOut(pl, b.containers, |b.containers|);
      NoLimitsNoRequest(pl.pcs, BlockTargetW(inSet, share));
      SharesStep(0, PerRackW(pl, b, inSet, share));
    } else {
      WholeFromShares(n, DcRequest(pl, b, inSet, share));
    }
    hide Shares, DcRequestW, DcLimits, InServiceCount;
  }

  lemma SharesEqual(n: nat, x: real, y: real)
    requires n > 0 && Shares(n, x) == Shares(n, y)
    ensures x == y
  {}

  /** Delivery in full, of one block and tick. Let each be the share of the DC power that
      the block's setpoint takes, inside the rating. The block makes exactly that setpoint
      if and only if every rack in service can give its share; and a converter that stands
      by makes nothing. */
  lemma BlockMeets(pl: Plant, b: Block, inSet: bool, share: real, weather: Weather, each: real)
    requires Sound(pl) && ContainersGood(pl, b.containers)
    ensures var next, cs := BlockTick(pl, b, inSet, share, weather), b.containers;
      var ac := AtRatingW(pl.pcs, next.pcs.setpointW);
      && (StandsBy(pl.pcs, ac) ==> next.pcs.acW == 0.0 && next.pcs.dcW == 0.0)
      && (!StandsBy(pl.pcs, ac) && Shares(InServiceCount(cs, |cs|), each) == NeedsW(pl.pcs, ac) ==>
            (next.pcs.acW == ac <==> AllMeet(pl, cs, each, |cs|)))
  {
    var cs, target := b.containers, BlockTargetW(inSet, share);
    var even := EvenSplit(pl, b, inSet, share, weather);
    var n, limits, ac := InServiceCount(cs, |cs|), DcLimits(pl, cs, |cs|), AtRatingW(pl.pcs, target);
    BlockTracks(pl, b, inSet, share, weather);
    BlockMakes(pl, b, inSet, share, weather);
    DcLimitsNonNegative(pl, cs, |cs|);
    RequestIs(pl.pcs, target, limits);
    ContainersDeliver(pl, cs, even, |cs|);
    ContainersGive(pl, cs, even, |cs|);
    SharesStep(0, each);
    hide BlockTick, Shares, InServiceCount, DcLimits, DcW, ContainersGood, LossW, NeedsW, StandsBy, DcRequestW, AllMeet,
      AcOf, SameElectrics, HeatW, BlockBook, PcsSound;
    if !StandsBy(pl.pcs, ac) && Shares(n, each) == NeedsW(pl.pcs, ac) {
      ConvertsWhole(pl.pcs, ac, DcW(pl, cs, even, |cs|));
      if AllMeet(pl, cs, each, |cs|) { ContainersWithin(pl, cs, each, |cs|); }
      if Shares(n, each) == Shares(n, even) { SharesEqual(n, each, even); }
    }
  }

  /** What one block made in a tick whose racks in service each got the share `each`: shares
      that sum to what it was asked for, DC power that is what its racks make of them, and
      AC power that is what the converter makes of that. */
  predicate Powers(pl: Plant, before: Block, after: Block, each: real) {
    var cs := before.containers;
    && Shares(InServiceCount(cs, |cs|), each) == AskedW(pl.pcs, after.pcs.setpointW, DcLimits(pl, cs, |cs|))
    && after.pcs.dcW == PowerW(pl, cs, each, |cs|)
    && Converts(pl.pcs, after.pcs.dcW, after.pcs.acW)
  }

  /** AC power from DC power: none below the no-load loss, else what leaves exactly its loss. */
  predicate Converts(m: CurvePcs, dc: real, ac: real) {
    && (0.0 < dc ==> 0.0 <= ac && if ac == 0.0 then dc <= LossW(m, 0.0) else dc - ac == LossW(m, ac))
    && (dc < 0.0 ==> ac <= 0.0 && dc - ac == LossW(m, -ac))
    && (dc == 0.0 ==> ac == 0.0)
  }

  /** The power of a block and tick, exactly, delivered in full or in part. */
  lemma BlockPower(pl: Plant, b: Block, inSet: bool, share: real, weather: Weather) returns (each: real)
    requires Sound(pl) && ContainersGood(pl, b.containers)
    ensures Powers(pl, b, BlockTick(pl, b, inSet, share, weather), each)
  {
    var cs, next := b.containers, BlockTick(pl, b, inSet, share, weather);
    each := EvenSplit(pl, b, inSet, share, weather);
    BlockMakes(pl, b, inSet, share, weather);
    DcLimitsNonNegative(pl, cs, |cs|);
    RequestHeld(pl.pcs, next.pcs.setpointW, DcLimits(pl, cs, |cs|));
    PowerIs(pl, cs, each, |cs|);
    BlockTracks(pl, b, inSet, share, weather);
    BlockDelivers(pl, b, inSet, share);
    SoundConverter(pl);
    hide BlockTick, Shares, InServiceCount, DcLimits, DcW, ContainersGood, AskedW, DcRequestW, Converts, AcOf, PowerW,
      EachAsked, PcsSound, PerRackW, CapabilityW, Abs, Sound;
    ConvertsDc(pl.pcs, next.pcs.setpointW, DcLimits(pl, cs, |cs|), next.pcs.dcW);
  }

  lemma SoundConverter(pl: Plant)
    requires Sound(pl)
    ensures PcsSound(pl.pcs)
  {
    hide PcsSound;
  }

  lemma ConvertsDc(m: CurvePcs, target: real, limits: Limits, dc: real)
    requires PcsSound(m) && 0.0 <= limits.chargeW && 0.0 <= limits.dischargeW
    requires Toward(dc, DcRequestW(m, target, limits))
    ensures Converts(m, dc, AcOf(m, dc))
  {
    var ac := AtRatingW(m, target);
    hide LossW, DischargeAcW, ChargeAcAbsW, PcsSound;
    LossNonNegative(m, Abs(ac));
    if 0.0 < dc {
      DischargeSolves(m, dc, DischargeAcW(m, dc));
    } else if dc < 0.0 {
      ChargeSolves(m, -dc, -ac, ChargeAcAbsW(m, -dc));
    }
  }

  lemma BlockMakes(pl: Plant, b: Block, inSet: bool, share: real, weather: Weather)
    ensures var pcs := BlockTick(pl, b, inSet, share, weather).pcs; pcs.acW == AcOf(pl.pcs, pcs.dcW)
    ensures var pcs := BlockTick(pl, b, inSet, share, weather).pcs;
      pcs.opState == if b.pcs.opState == Fault then Fault else if Abs(pcs.dcW) < EPSILON then Standby else Run
    ensures AcOf(pl.pcs, 0.0) == 0.0
  {
    hide ContainersTick, PerRackW, DcW, BlockWord, MissS, DischargeAcW, ChargeAcAbsW;
  }

  /** The capability a block advertises is exact: a power inside the rating can be made
      without passing the DC limits exactly when it is no more than advertised. */
  lemma CapabilityExact(m: CurvePcs, limits: Limits, ac: real)
    requires PcsSound(m) && 0.0 <= limits.chargeW && 0.0 <= limits.dischargeW && Abs(ac) <= m.ratedW
    ensures 0.0 < ac ==> (NeedsW(m, ac) <= limits.dischargeW <==> ac <= AcCapability(m, limits).dischargeW)
    ensures ac < 0.0 && LossW(m, -ac) <= -ac ==>
      (-NeedsW(m, ac) <= limits.chargeW <==> -ac <= AcCapability(m, limits).chargeW)
  {
    var x, y := DischargeAcW(m, limits.dischargeW), ChargeAcAbsW(m, limits.chargeW);
    hide LossW, DischargeAcW, ChargeAcAbsW, PcsSound;
    if 0.0 < ac {
      DischargeSolves(m, limits.dischargeW, x);
      DischargeOrders(m, limits.dischargeW, ac, x);
      if ac < x { DischargeRises(m, ac, x); }
    }
    if ac < 0.0 && LossW(m, -ac) <= -ac {
      var most := -NeedsW(m, ac);
      ChargeSolves(m, most, -ac, ChargeAcAbsW(m, most));
      if most <= limits.chargeW {
        ChargeMonotone(m, most, limits.chargeW);
      } else {
        ChargeSolves(m, limits.chargeW, -ac, y);
      }
    }
  }

  // ----- The site ---------------------------------------------------------------------------------

  /** Block k takes a share of the site's power in a tick that leaves `released` blocks
      released. */
  predicate Takes(s: Site, released: nat, k: nat)
    requires k < |s.blocks|
  {
    s.substation.breaker == Closed && s.blocks[k].mode == InService && s.blocks[k].pcs.opState != Fault && k < released
  }

  lemma {:induction false} ActiveTakes(blocks: seq<Block>, ems: Ems, connected: bool, k: nat)
    requires k <= |blocks|
    ensures 0 < Active(blocks, ems, connected, k)
        <==> exists i :: 0 <= i < k && Dispatchable(blocks[i], i, ems, connected)
  {
    hide Dispatchable;
    if k > 0 {
      ActiveTakes(blocks, ems, connected, k - 1);
      if Dispatchable(blocks[k - 1], k - 1, ems, connected) {
        assert 0 <= k - 1 < k && Dispatchable(blocks[k - 1], k - 1, ems, connected);
      }
    }
  }

  /** The site's power is dealt evenly: every block that takes a share is set to the same AC
      power and every other to none, and the settings sum to the site's setpoint whenever
      any block takes a share. */
  lemma SetpointsEven(pl: Plant, s: Site, inputs: Inputs)
    requires Sound(pl) && Inv(pl, s)
    ensures var next := Tick(pl, s, inputs);
      var released := next.ems.blocksReleased;
      && |next.blocks| == |s.blocks|
      && (forall i :: 0 <= i < |s.blocks| && !Takes(s, released, i) ==> next.blocks[i].pcs.setpointW == 0.0)
      && (forall i, j ::
            0 <= i < |s.blocks| && 0 <= j < |s.blocks| && Takes(s, released, i) && Takes(s, released, j) ==>
            next.blocks[i].pcs.setpointW == next.blocks[j].pcs.setpointW)
      && ((exists i :: 0 <= i < |s.blocks| && Takes(s, released, i)) ==>
            SumSetpointW(next.blocks, |next.blocks|) == next.ems.siteSetpointW)
  {
    hide Tick, Sound, Inv, SumSetpointW, Active, SumAcW, Shares, Toward, Abs;
    var next := Tick(pl, s, inputs);
    SiteTracks(pl, s, inputs);
    ActiveTakes(s.blocks, EmsTick(pl, s), Connected(s), |s.blocks|);
    forall i | 0 <= i < |s.blocks|
      ensures next.blocks[i].pcs.setpointW == if Takes(s, next.ems.blocksReleased, i) then SiteShareW(pl, s) else 0.0
      ensures Takes(s, next.ems.blocksReleased, i) <==> Dispatchable(s.blocks[i], i, EmsTick(pl, s), Connected(s))
    {
      TickSets(pl, s, inputs, i);
    }
    hide Dispatchable, Takes;
  }

  lemma TickSets(pl: Plant, s: Site, inputs: Inputs, k: nat)
    requires k < |s.blocks|
    ensures var next := Tick(pl, s, inputs);
      && |next.blocks| == |s.blocks|
      && next.blocks[k] == BlockTick(pl, s.blocks[k], InSet(pl, s, k), SiteShareW(pl, s), inputs.weather)
      && (Takes(s, next.ems.blocksReleased, k) <==> Dispatchable(s.blocks[k], k, EmsTick(pl, s), Connected(s)))
      && next.blocks[k].pcs.setpointW
         == if Takes(s, next.ems.blocksReleased, k) then SiteShareW(pl, s) else 0.0
  {
    NextBlocksAt(pl, s, inputs.weather, |s.blocks|, k);
    SetsTarget(pl, s.blocks[k], InSet(pl, s, k), SiteShareW(pl, s), inputs.weather);
    hide NextBlocks, AuxTick, SubstationTick, EnergyAfter, AlarmsAfter, Emitted, BlockTick, EmsTick, SiteShareW,
      SiteCapabilityW;
  }

  lemma SetsTarget(pl: Plant, b: Block, inSet: bool, share: real, weather: Weather)
    ensures BlockTick(pl, b, inSet, share, weather).pcs.setpointW == if inSet then share else 0.0
  {
    hide ContainersTick, PerRackW, DcW, BlockWord, MissS, AcOf;
  }

  /** Parts on the way to settings of one direction sum to the whole only when each is. */
  lemma {:induction false} SumMeets(blocks: seq<Block>, side: real, k: nat)
    requires k <= |blocks|
    requires forall i :: 0 <= i < k ==> OnSide(blocks[i].pcs, side)
    ensures Toward(SumAcW(blocks, k), SumSetpointW(blocks, k))
    ensures (0.0 <= side ==> 0.0 <= SumSetpointW(blocks, k)) && (side <= 0.0 ==> SumSetpointW(blocks, k) <= 0.0)
    ensures SumAcW(blocks, k) == SumSetpointW(blocks, k)
       <==> forall i :: 0 <= i < k ==> blocks[i].pcs.acW == blocks[i].pcs.setpointW
  {
    if k > 0 {
      SumMeets(blocks, side, k - 1);
      var last := blocks[k - 1].pcs;
      assert OnSide(last, side);
      TowardAdd(SumAcW(blocks, k - 1), SumSetpointW(blocks, k - 1), last.acW, last.setpointW, side);
      WholeParts(SumAcW(blocks, k - 1), SumSetpointW(blocks, k - 1), last.acW, last.setpointW, side);
      hide OnSide, Toward;
    }
  }

  predicate OnSide(pcs: Pcs, side: real) {
    && Toward(pcs.acW, pcs.setpointW)
    && (0.0 <= side ==> 0.0 <= pcs.setpointW) && (side <= 0.0 ==> pcs.setpointW <= 0.0)
  }

  /** A site with a block to take a share makes exactly its setpoint if and only if every
      block makes its own. */
  lemma SiteMeets(pl: Plant, s: Site, inputs: Inputs)
    requires Sound(pl) && Inv(pl, s)
    ensures var next := Tick(pl, s, inputs);
      && |next.blocks| == |s.blocks|
      && ((exists i :: 0 <= i < |s.blocks| && Takes(s, next.ems.blocksReleased, i)) ==>
            (SumAcW(next.blocks, |next.blocks|) == next.ems.siteSetpointW <==>
             forall b <- next.blocks :: b.pcs.acW == b.pcs.setpointW))
  {
    hide Tick, Sound, Inv, SumAcW, SumSetpointW, Toward, Abs;
    var next := Tick(pl, s, inputs);
    SetpointsEven(pl, s, inputs);
    BlocksOfTickTrack(pl, s, inputs);
    forall i | 0 <= i < |next.blocks|
      ensures OnSide(next.blocks[i].pcs, SiteShareW(pl, s))
    {
      assert next.blocks[i] in next.blocks;
      TickSets(pl, s, inputs, i);
    }
    SumMeets(next.blocks, SiteShareW(pl, s), |next.blocks|);
    hide Takes, OnSide;
  }

  // ----- Every tick of every run ---------------------------------------------------------------------

  /** What one block did in a tick, whose racks in service get an even share of `each`. */
  predicate MadeInFull(pl: Plant, before: Block, after: Block, each: real) {
    var cs, ac := before.containers, AtRatingW(pl.pcs, after.pcs.setpointW);
    && (StandsBy(pl.pcs, ac) ==> after.pcs.acW == 0.0 && after.pcs.dcW == 0.0)
    && (!StandsBy(pl.pcs, ac) && Shares(InServiceCount(cs, |cs|), each) == NeedsW(pl.pcs, ac) ==>
          (after.pcs.acW == ac <==> AllMeet(pl, cs, each, |cs|)))
  }

  /** A block through one tick: delivery in full for whatever share, and a converter that
      runs exactly while DC power flows and it is not in fault. */
  ghost predicate BlockMade(pl: Plant, before: Block, after: Block) {
    && (forall each: real :: MadeInFull(pl, before, after, each))
    && after.pcs.opState
       == if before.pcs.opState == Fault then Fault else if Abs(after.pcs.dcW) < EPSILON then Standby else Run
  }

  /** Delivery in full, on every tick of every run: each block that does not stand by makes
      its AC setpoint, inside its rating, exactly when every rack in service can give an
      even share of the DC power it takes; and the site makes its setpoint exactly when
      every block makes its own. */
  lemma EveryTickDelivers(pl: Plant, start: Site, ops: seq<Op>, inputs: Inputs)
    requires Sound(pl) && Inv(pl, start)
    ensures var s, next := StateAfter(pl, start, ops), StateAfter(pl, start, ops + [OpTick(inputs)]);
      && |next.blocks| == |s.blocks|
      && (forall k :: 0 <= k < |s.blocks| ==> BlockMade(pl, s.blocks[k], next.blocks[k]))
      && ((exists i :: 0 <= i < |s.blocks| && Takes(s, next.ems.blocksReleased, i)) ==>
            (SumAcW(next.blocks, |next.blocks|) == next.ems.siteSetpointW <==>
             forall b <- next.blocks :: b.pcs.acW == b.pcs.setpointW))
  {
    hide Tick, Inv, SumAcW, BlockMade, Takes, Sound;
    var s := StateAfter(pl, start, ops);
    assert Init(ops + [OpTick(inputs)]) == ops;
    RunKeepsInv(pl, start, ops);
    SiteMeets(pl, s, inputs);
    forall k | 0 <= k < |s.blocks|
      ensures BlockMade(pl, s.blocks[k], Tick(pl, s, inputs).blocks[k])
    {
      TickMakes(pl, s, inputs, k);
    }
  }

  lemma TickMakes(pl: Plant, s: Site, inputs: Inputs, k: nat)
    requires Sound(pl) && Inv(pl, s) && k < |s.blocks|
    ensures |Tick(pl, s, inputs).blocks| == |s.blocks|
    ensures BlockMade(pl, s.blocks[k], Tick(pl, s, inputs).blocks[k])
  {
    hide Tick, BlockTick, SiteShareW, ContainersGood, Sound, Abs, InSet, BlockMade, WordsOk, TripSafe;
    TickSets(pl, s, inputs, k);
    BlockTickMakes(pl, s.blocks[k], InSet(pl, s, k), SiteShareW(pl, s), inputs.weather);
  }

  lemma BlockTickMakes(pl: Plant, b: Block, inSet: bool, share: real, weather: Weather)
    requires Sound(pl) && ContainersGood(pl, b.containers)
    ensures BlockMade(pl, b, BlockTick(pl, b, inSet, share, weather))
  {
    hide BlockTick, ContainersGood, Sound, StandsBy, NeedsW, AllMeet, Shares, InServiceCount, AtRatingW, AcOf, Abs;
    BlockMakes(pl, b, inSet, share, weather);
    forall each: real
      ensures MadeInFull(pl, b, BlockTick(pl, b, inSet, share, weather), each)
    {
      BlockMeets(pl, b, inSet, share, weather, each);
    }
  }

  /** In full or in part: on every tick of every run the power of every block is that. */
  lemma EveryTickPowers(pl: Plant, start: Site, ops: seq<Op>, inputs: Inputs, k: nat) returns (each: real)
    requires Sound(pl) && Inv(pl, start) && k < |StateAfter(pl, start, ops).blocks|
    ensures var s, next := StateAfter(pl, start, ops), StateAfter(pl, start, ops + [OpTick(inputs)]);
      |next.blocks| == |s.blocks| && Powers(pl, s.blocks[k], next.blocks[k], each)
  {
    hide Tick, Inv, Sound, Powers;
    var s := StateAfter(pl, start, ops);
    assert Init(ops + [OpTick(inputs)]) == ops;
    RunKeepsInv(pl, start, ops);
    each := TickPowers(pl, s, inputs, k);
  }

  lemma TickPowers(pl: Plant, s: Site, inputs: Inputs, k: nat) returns (each: real)
    requires Sound(pl) && Inv(pl, s) && k < |s.blocks|
    ensures |Tick(pl, s, inputs).blocks| == |s.blocks|
    ensures Powers(pl, s.blocks[k], Tick(pl, s, inputs).blocks[k], each)
  {
    hide Tick, BlockTick, SiteShareW, ContainersGood, Sound, InSet, Powers, WordsOk, TripSafe;
    TickSets(pl, s, inputs, k);
    each := BlockPower(pl, s.blocks[k], InSet(pl, s, k), SiteShareW(pl, s), inputs.weather);
  }

  /** And what a site makes stays inside the availability it publishes, which stays inside
      the ratings of the blocks released. */
  lemma EveryTickAvailable(pl: Plant, start: Site, ops: seq<Op>, inputs: Inputs)
    requires Sound(pl) && Inv(pl, start)
    ensures var next := StateAfter(pl, start, ops + [OpTick(inputs)]);
      var rated := Shares(next.ems.blocksReleased, pl.pcs.ratedW);
      && -next.ems.availableChargeW <= SumAcW(next.blocks, |next.blocks|) <= next.ems.availableDischargeW
      && 0.0 <= next.ems.availableChargeW <= rated && 0.0 <= next.ems.availableDischargeW <= rated
  {
    hide Tick, Inv, SumAcW, Sound, Shares;
    assert Init(ops + [OpTick(inputs)]) == ops;
    RunKeepsInv(pl, start, ops);
    TickAvailable(pl, StateAfter(pl, start, ops), inputs);
  }

  /** What the blocks that take a share could make between them. */
  function CapabilityOver(pl: Plant, s: Site, released: nat, k: nat): Limits
    requires k <= |s.blocks|
  {
    if k == 0 then Limits(0.0, 0.0) else
      var cs, before := s.blocks[k - 1].containers, CapabilityOver(pl, s, released, k - 1);
      if Takes(s, released, k - 1) then AddLimits(before, AcCapability(pl.pcs, DcLimits(pl, cs, |cs|))) else before
  }

  /** The availability a tick publishes is what the blocks that take a share could make. */
  lemma AvailabilityIs(pl: Plant, s: Site, inputs: Inputs)
    ensures var ems := Tick(pl, s, inputs).ems;
      Limits(ems.availableChargeW, ems.availableDischargeW)
      == CapabilityOver(pl, s, ems.blocksReleased, |s.blocks|)
  {
    hide NextBlocks, AuxTick, SubstationTick, EnergyAfter, AlarmsAfter, Emitted, EmsTick, SiteCapabilityW,
        CapabilityOver;
    CapabilityIs(pl, s, EmsTick(pl, s).blocksReleased, |s.blocks|);
  }

  lemma {:induction false} CapabilityIs(pl: Plant, s: Site, released: nat, k: nat)
    requires k <= |s.blocks| && released == EmsTick(pl, s).blocksReleased
    ensures SiteCapabilityW(pl, s, k) == CapabilityOver(pl, s, released, k)
  {
    hide EmsTick, AcCapability, DcLimits;
    if k > 0 { CapabilityIs(pl, s, released, k - 1); }
  }

  lemma TickAvailable(pl: Plant, s: Site, inputs: Inputs)
    requires Sound(pl) && Inv(pl, s)
    ensures var next := Tick(pl, s, inputs);
      var rated := Shares(next.ems.blocksReleased, pl.pcs.ratedW);
      && -next.ems.availableChargeW <= SumAcW(next.blocks, |next.blocks|) <= next.ems.availableDischargeW
      && 0.0 <= next.ems.availableChargeW <= rated && 0.0 <= next.ems.availableDischargeW <= rated
  {
    hide NextBlocks, AuxTick, SubstationTick, EnergyAfter, AlarmsAfter, Emitted, SiteCapabilityW, Sound, BlocksGood,
      WordsOk, Shares, EmsTick, SumAcW, Active;
    BlocksCover(pl, s, inputs.weather, |s.blocks|);
    ActiveAtMost(s.blocks, EmsTick(pl, s), Connected(s), |s.blocks|);
    SharesMono(Active(s.blocks, EmsTick(pl, s), Connected(s), |s.blocks|), EmsTick(pl, s).blocksReleased,
        pl.pcs.ratedW);
  }

  lemma {:induction false} BlocksCover(pl: Plant, s: Site, weather: Weather, k: nat)
    requires Sound(pl) && BlocksGood(pl, s.blocks) && k <= |s.blocks|
    ensures var next, lim := NextBlocks(pl, s, weather, k), SiteCapabilityW(pl, s, k);
      var rated := Shares(Active(s.blocks, EmsTick(pl, s), Connected(s), k), pl.pcs.ratedW);
      && -lim.chargeW <= SumAcW(next, k) <= lim.dischargeW
      && 0.0 <= lim.chargeW <= rated && 0.0 <= lim.dischargeW <= rated
  {
    hide EmsTick, SiteShareW, Shares, NextBlock, Dispatchable, Sound, BlocksGood, CapabilityW;
    var rated: real := pl.pcs.ratedW;
    SharesStep(0, rated);
    if k > 0 {
      var before, last := NextBlocks(pl, s, weather, k - 1), NextBlock(pl, s, weather, k - 1);
      BlocksCover(pl, s, weather, k - 1);
      SumAcPrefix(before, before + [last], k - 1);
      SharesStep(Active(s.blocks, EmsTick(pl, s), Connected(s), k - 1), rated);
      BlockCovers(pl, s, weather, k - 1);
    }
  }

  lemma BlockCovers(pl: Plant, s: Site, weather: Weather, k: nat)
    requires Sound(pl) && BlocksGood(pl, s.blocks) && k < |s.blocks|
    ensures var inSet := Dispatchable(s.blocks[k], k, EmsTick(pl, s), Connected(s));
      var lim, ac := CapabilityW(pl, s.blocks[k], InSet(pl, s, k)), NextBlock(pl, s, weather, k).pcs.acW;
      && -lim.chargeW <= ac <= lim.dischargeW
      && 0.0 <= lim.chargeW <= (if inSet then pl.pcs.ratedW else 0.0)
      && 0.0 <= lim.dischargeW <= (if inSet then pl.pcs.ratedW else 0.0)
  {
    hide SiteShareW, BlockTick, ContainersGood, Dispatchable, EmsTick, AcCapability, DcLimits, Toward, Abs, PerRackW,
        DcW;
    BlockTracks(pl, s.blocks[k], InSet(pl, s, k), SiteShareW(pl, s), weather);
    CapabilityBounds(pl, s.blocks[k], InSet(pl, s, k));
  }

  lemma CapabilityBounds(pl: Plant, b: Block, inSet: bool)
    requires Sound(pl)
    ensures var lim := CapabilityW(pl, b, inSet);
      && 0.0 <= lim.chargeW <= (if inSet then pl.pcs.ratedW else 0.0)
      && 0.0 <= lim.dischargeW <= (if inSet then pl.pcs.ratedW else 0.0)
  {
    var limits := DcLimits(pl, b.containers, |b.containers|);
    DcLimitsNonNegative(pl, b.containers, |b.containers|);
    CapabilityNonNegative(pl.pcs, limits);
    hide DcLimits, ChargeAcAbsW, DischargeAcW, PcsSound;
  }
}
