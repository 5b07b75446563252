/** The loss meters over runs: which ones only rise, and how far the battery meter can
    fall while the polarization branches relax. */
module LossLaws {
  import opened Reals
  import opened State
  import opened Log
  import opened Ocv
  import opened Cell
  import opened Bms
  import opened Converter
  import opened Thermal
  import opened Substations
  import opened Plants
  import opened Kernel
  import opened Commands
  import opened TickLaws
  import opened SiteLaws
  import opened Runs
  import opened RunLaws
  import opened HeatLaws

  ghost predicate LossSound(pl: Plant) {
    Sound(pl) && BranchSound(pl.cell, TICK)
  }

  // ----- One rack ------------------------------------------------------------------------------

  /** Bleeding only ever makes heat. */
  lemma BleedNonNegative(pl: Plant, rack: Rack)
    requires Sound(pl) && RackGood(pl, rack)
    ensures 0.0 <= BleedHeatW(pl, rack)
  {
    hide OcvCellV, OcvIntegralV;
    BalanceKeeps(pl.bms.balancing, pl.cell, rack, pl.rackCfg, TICK);
    var next := Balanced(pl, rack);
    StoredFalls(pl, rack, next);
    BleedIsWh(pl, rack);
    hide Balance, StoredWh;
    WhSign(BleedHeatW(pl, rack));
  }

  lemma WhSign(w: real)
    ensures 0.0 <= Wh(w, TICK) <==> 0.0 <= w
  {}

  lemma StoredFalls(pl: Plant, a: Rack, b: Rack)
    requires RackGood(pl, a) && 0.0 <= b.soc <= a.soc && b.soh == a.soh
    ensures StoredWh(pl.cell, b, pl.rackCfg) <= StoredWh(pl.cell, a, pl.rackCfg)
  {
    hide OcvCellV, OcvIntegralV, CapacityAh;
    var c := pl.cell.curve;
    SameSohSameCapacity(a, b, pl.rackCfg);
    OcvMonotone(c, b.soc, a.soc);
    IntegralBounds(c, b.soc, a.soc);
    MulNonNeg(OcvCellV(c, b.soc), a.soc - b.soc);
    MulMono(CapacityAh(a, pl.rackCfg) * pl.rackCfg.cells, OcvIntegralV(c, b.soc), OcvIntegralV(c, a.soc));
  }

  /** Over a tick a rack's heat covers what its branch takes up. */
  lemma RackCovers(pl: Plant, rack: Rack, perRack: real)
    requires LossSound(pl) && RackGood(pl, rack)
    ensures BranchJ(pl.cell, RackStepped(pl, rack, perRack).0) - BranchJ(pl.cell, rack)
         <= RackHeatW(pl, rack, perRack) * TICK
  {
    hide BranchJ, Balanced, BleedHeatW, StepRack, RequestW, RackGood;
    BleedNonNegative(pl, rack);
    StepCoversBranch(pl.cell, Balanced(pl, rack), pl.rackCfg, RequestW(pl, rack, perRack), TICK);
    BalanceKeepsBranch(pl, rack);
  }

  lemma BalanceKeepsBranch(pl: Plant, rack: Rack)
    requires 0.0 < pl.cell.r1
    ensures BranchJ(pl.cell, Balanced(pl, rack)) == BranchJ(pl.cell, rack)
  {
    hide HeldJ, BranchR, Bleeds, GrownDsoc, SpreadV, BledSoc, OcvIntegralV, CapacityAh, NarrowedDsoc;
  }

  // ----- Sums over the tree --------------------------------------------------------------------

  function RowBranchJ(pl: Plant, racks: seq<Rack>, k: nat): real
    requires k <= |racks| && 0.0 < pl.cell.r1
  {
    if k == 0 then 0.0 else RowBranchJ(pl, racks, k - 1) + BranchJ(pl.cell, racks[k - 1])
  }

  function BranchIn(pl: Plant, cs: seq<Container>, k: nat): real
    requires k <= |cs| && 0.0 < pl.cell.r1
  {
    if k == 0 then 0.0 else BranchIn(pl, cs, k - 1) + RowBranchJ(pl, cs[k - 1].racks, |cs[k - 1].racks|)
  }

  function SiteBranchJ(pl: Plant, blocks: seq<Block>, k: nat): real
    requires k <= |blocks| && 0.0 < pl.cell.r1
  {
    if k == 0 then 0.0
    else SiteBranchJ(pl, blocks, k - 1) + BranchIn(pl, blocks[k - 1].containers, |blocks[k - 1].containers|)
  }

  /** The energy in every polarization branch of the site, Wh. */
  function BranchWh(pl: Plant, s: Site): real
    requires 0.0 < pl.cell.r1
  {
    SiteBranchJ(pl, s.blocks, |s.blocks|) / 3600.0
  }

  lemma {:induction false} RowNonNegative(pl: Plant, racks: seq<Rack>, k: nat)
    requires k <= |racks| && 0.0 < pl.cell.r1
    ensures 0.0 <= RowBranchJ(pl, racks, k)
  {
    hide BranchJ;
    if k > 0 {
      RowNonNegative(pl, racks, k - 1);
      BranchNonNegative(pl.cell, racks[k - 1]);
    }
  }

  lemma {:induction false} InNonNegative(pl: Plant, cs: seq<Container>, k: nat)
    requires k <= |cs| && 0.0 < pl.cell.r1
    ensures 0.0 <= BranchIn(pl, cs, k)
  {
    hide RowBranchJ;
    if k > 0 {
      InNonNegative(pl, cs, k - 1);
      RowNonNegative(pl, cs[k - 1].racks, |cs[k - 1].racks|);
    }
  }

  lemma {:induction false} SiteNonNegative(pl: Plant, blocks: seq<Block>, k: nat)
    requires k <= |blocks| && 0.0 < pl.cell.r1
    ensures 0.0 <= SiteBranchJ(pl, blocks, k)
  {
    hide BranchIn;
    if k > 0 {
      SiteNonNegative(pl, blocks, k - 1);
      InNonNegative(pl, blocks[k - 1].containers, |blocks[k - 1].containers|);
    }
  }

  lemma {:induction false} RowCovers(pl: Plant, racks: seq<Rack>, next: seq<Rack>, perRack: real, k: nat)
    requires LossSound(pl) && RowGood(pl, racks) && k <= |racks| == |next|
    requires forall i :: 0 <= i < |racks| ==> SameElectrics(next[i], RackStepped(pl, racks[i], perRack).0)
    ensures RowBranchJ(pl, next, k) - RowBranchJ(pl, racks, k) <= RowHeatW(pl, racks, perRack, k) * TICK
  {
    hide RackStepped, RackHeatW, RackGood, SameElectrics, BranchJ, Sound;
    if k > 0 {
      RowCovers(pl, racks, next, perRack, k - 1);
      RackCovers(pl, racks[k - 1], perRack);
      SameBranch(pl, next[k - 1], RackStepped(pl, racks[k - 1], perRack).0);
    }
  }

  lemma SameBranch(pl: Plant, a: Rack, b: Rack)
    requires SameElectrics(a, b) && 0.0 < pl.cell.r1
    ensures BranchJ(pl.cell, a) == BranchJ(pl.cell, b)
  {
    hide HeldJ;
  }

  lemma ContainerCovers(pl: Plant, c: Container, perRack: real, weather: Weather)
    requires LossSound(pl) && RowGood(pl, c.racks)
    ensures var next := ContainerTick(pl, c, perRack, weather);
      && |next.racks| == |c.racks|
      && RowBranchJ(pl, next.racks, |c.racks|) - RowBranchJ(pl, c.racks, |c.racks|)
         <= RowHeatW(pl, c.racks, perRack, |c.racks|) * TICK
  {
    hide ContainerTick, RackStepped, RackGood, SameElectrics, RackHeatW, BranchJ, Sound;
    var next := ContainerTick(pl, c, perRack, weather);
    ContainerSettles(pl, c, perRack, weather);
    forall i | 0 <= i < |c.racks|
      ensures SameElectrics(next.racks[i], RackStepped(pl, c.racks[i], perRack).0)
    {
      ContainerRack(pl, c, perRack, weather, i);
    }
    RowCovers(pl, c.racks, next.racks, perRack, |c.racks|);
  }

  lemma {:induction false} ContainersCover(pl: Plant, cs: seq<Container>, next: seq<Container>, perRack: real,
      weather: Weather, k: nat)
    requires LossSound(pl) && ContainersGood(pl, cs) && k <= |cs| == |next|
    requires forall i :: 0 <= i < |cs| ==> next[i] == ContainerTick(pl, cs[i], perRack, weather)
    ensures BranchIn(pl, next, k) - BranchIn(pl, cs, k) <= HeatW(pl, cs, perRack, k) * TICK
  {
    hide ContainerTick, RowGood, RowHeatW, RowBranchJ, Sound;
    if k > 0 {
      ContainersCover(pl, cs, next, perRack, weather, k - 1);
      ContainerCovers(pl, cs[k - 1], perRack, weather);
    }
  }

  lemma BlockCovers(pl: Plant, b: Block, inSet: bool, share: real, weather: Weather)
    requires LossSound(pl) && ContainersGood(pl, b.containers)
    ensures var perRack, n, next := PerRackW(pl, b, inSet, share), |b.containers|,
        BlockTick(pl, b, inSet, share, weather);
      && |next.containers| == n
      && BranchIn(pl, next.containers, n) - BranchIn(pl, b.containers, n) <= HeatW(pl, b.containers, perRack, n) * TICK
  {
    hide PerRackW, BlockWord, MissS, DcW, Finalize, BranchIn, HeatW, ContainersGood, ContainerTick;
    var perRack, cs := PerRackW(pl, b, inSet, share), b.containers;
    var next := ContainersTick(pl, cs, perRack, weather, |cs|);
    forall i | 0 <= i < |cs|
      ensures next[i] == ContainerTick(pl, cs[i], perRack, weather)
    {
      ContainersTickAt(pl, cs, perRack, weather, |cs|, i);
    }
    hide ContainersTick, LossSound;
    ContainersCover(pl, cs, next, perRack, weather, |cs|);
  }

  lemma {:induction false} BlocksCover(pl: Plant, s: Site, next: seq<Block>, weather: Weather, k: nat)
    requires LossSound(pl) && BlocksGood(pl, s.blocks) && k <= |s.blocks| == |next|
    requires forall i :: 0 <= i < |next| ==> next[i] == NextBlock(pl, s, weather, i)
    ensures SiteBranchJ(pl, next, k) - SiteBranchJ(pl, s.blocks, k) <= SiteHeatW(pl, s, k) * TICK
  {
    hide BlockTick, InSet, SiteShareW, ContainersGood, HeatW, BranchIn, PerRackW, Sound;
    if k > 0 {
      BlocksCover(pl, s, next, weather, k - 1);
      BlockCovers(pl, s.blocks[k - 1], InSet(pl, s, k - 1), SiteShareW(pl, s), weather);
    }
  }

  // ----- The battery meter ------------------------------------------------------------------------

  /** The battery meter falls in a tick exactly when the racks' heat sums below zero, and
      never by more than the polarization branches gave back in it. */
  lemma TickLoss(pl: Plant, s: Site, inputs: Inputs)
    requires LossSound(pl) && Inv(pl, s)
    ensures var next, heat := Tick(pl, s, inputs), SiteHeatW(pl, s, |s.blocks|);
      && (next.energy.batteryLossWh < s.energy.batteryLossWh <==> heat < 0.0)
      && BranchWh(pl, next) - BranchWh(pl, s) <= next.energy.batteryLossWh - s.energy.batteryLossWh
  {
    hide NextBlocks, SiteHeatW, NextBlock, SiteBranchJ, Sound, BlocksGood, TripSafe, WordsOk, EnergyAfter, Tick,
      BranchSound, AuxTick, SubstationTick, SumAcW, AuxTotalW;
    TickMeters(pl, s, inputs);
    TickBlocks(pl, s, inputs);
    var blocks := NextBlocks(pl, s, inputs.weather, |s.blocks|);
    forall i | 0 <= i < |blocks|
      ensures blocks[i] == NextBlock(pl, s, inputs.weather, i)
    {
      NextBlocksAt(pl, s, inputs.weather, |s.blocks|, i);
    }
    BlocksCover(pl, s, blocks, inputs.weather, |s.blocks|);
    LossGrowth(pl, s, blocks, AuxTick(pl, blocks), Tick(pl, s, inputs).substation);
  }

  lemma LossGrowth(pl: Plant, s: Site, blocks: seq<Block>, aux: AuxPower, sub: Substation)
    ensures EnergyAfter(pl, s, blocks, aux, sub).batteryLossWh - s.energy.batteryLossWh
         == SiteHeatW(pl, s, |s.blocks|) * TICK / 3600.0
  {
    hide SiteHeatW, SumLossW, Accumulate;
  }

  lemma TickBlocks(pl: Plant, s: Site, inputs: Inputs)
    ensures Tick(pl, s, inputs).blocks == NextBlocks(pl, s, inputs.weather, |s.blocks|)
  {
    hide NextBlocks, AuxTick, SubstationTick, EnergyAfter, AlarmsAfter, Emitted, EmsAfter, SumAcW;
  }

  lemma {:induction false} SameRowBranch(pl: Plant, a: seq<Rack>, b: seq<Rack>, k: nat)
    requires 0.0 < pl.cell.r1 && k <= |a| == |b| && forall r :: 0 <= r < |a| ==> SameStore(a[r], b[r])
    ensures RowBranchJ(pl, a, k) == RowBranchJ(pl, b, k)
  {
    if k > 0 {
      SameRowBranch(pl, a, b, k - 1);
      hide HeldJ;
    }
  }

  lemma {:induction false} SameBranchIn(pl: Plant, a: seq<Block>, b: seq<Block>, i: nat, k: nat)
    requires 0.0 < pl.cell.r1 && SameCharge(a, b) && i < |a| && k <= |a[i].containers|
    ensures |a| == |b| && |a[i].containers| == |b[i].containers|
    ensures BranchIn(pl, a[i].containers, k) == BranchIn(pl, b[i].containers, k)
  {
    hide RowBranchJ;
    if k > 0 {
      SameBranchIn(pl, a, b, i, k - 1);
      SameRowCharge(a, b, i, k - 1);
      SameRowBranch(pl, a[i].containers[k - 1].racks, b[i].containers[k - 1].racks, |a[i].containers[k - 1].racks|);
    }
  }

  lemma {:induction false} SameSiteBranch(pl: Plant, a: seq<Block>, b: seq<Block>, k: nat)
    requires 0.0 < pl.cell.r1 && SameCharge(a, b) && k <= |a|
    ensures |a| == |b| && SiteBranchJ(pl, a, k) == SiteBranchJ(pl, b, k)
  {
    hide BranchIn, SameCharge;
    SameChargeShape(a, b);
    if k > 0 {
      SameSiteBranch(pl, a, b, k - 1);
      SameBranchIn(pl, a, b, k - 1, |a[k - 1].containers|);
    }
  }

  lemma OpLoss(pl: Plant, s: Site, op: Op)
    requires LossSound(pl) && Inv(pl, s)
    ensures var next := Exec(pl, s, op);
      BranchWh(pl, next) - BranchWh(pl, s) <= next.energy.batteryLossWh - s.energy.batteryLossWh
  {
    hide Tick, Dispatch, SiteBranchJ, SameCharge, Inv, Sound;
    if op.OpTick? {
      TickLoss(pl, s, op.inputs);
    } else if (op.OpApply? || op.OpDirect?) && Dispatch(s, op.action).Ok? {
      DispatchMovesNothing(s, op.action);
      SameSiteBranch(pl, s.blocks, Dispatch(s, op.action).value.site.blocks, |s.blocks|);
    }
  }

  /** From any reachable tree on, whatever happens, the battery meter never falls below its
      reading by more than the polarization branches held then. What a run adds to the
      branches it has metered as loss first. */
  lemma {:induction false} RunLossBound(pl: Plant, s: Site, ops: seq<Op>)
    requires LossSound(pl) && Inv(pl, s)
    ensures var end := StateAfter(pl, s, ops);
      && s.energy.batteryLossWh - BranchWh(pl, s) <= end.energy.batteryLossWh - BranchWh(pl, end)
      && s.energy.batteryLossWh - BranchWh(pl, s) <= end.energy.batteryLossWh
  {
    hide Exec, Inv, Sound, SiteBranchJ;
    var end := StateAfter(pl, s, ops);
    if ops != [] {
      RunLossBound(pl, s, Init(ops));
      RunKeepsInv(pl, s, Init(ops));
      OpLoss(pl, StateAfter(pl, s, Init(ops)), Last(ops));
    }
    SiteNonNegative(pl, end.blocks, |end.blocks|);
  }

  // ----- When it falls, read off before the tick ---------------------------------------------------

  /** A rack's share of a tick is a request that its polarization branch outweighs. */
  predicate GivesBackAt(pl: Plant, rack: Rack, perRack: real) {
    GivesBack(pl.cell, Balanced(pl, rack), pl.rackCfg, RequestW(pl, rack, perRack), TICK)
  }

  /** No rack of the site is asked for such a share. */
  ghost predicate NoneGivesBack(pl: Plant, s: Site) {
    forall b: nat, c: nat, r: nat :: HasRack(s.blocks, b, c, r) ==>
        !GivesBackAt(pl, RackAt(s, b, c, r), ShareOf(pl, s, b))
  }

  lemma RackHeatSign(pl: Plant, rack: Rack, perRack: real)
    requires Sound(pl) && RackGood(pl, rack)
    ensures RackHeatW(pl, rack, perRack) < 0.0 ==> GivesBackAt(pl, rack, perRack)
    ensures BleedHeatW(pl, rack) == 0.0 ==> (RackHeatW(pl, rack, perRack) < 0.0 <==> GivesBackAt(pl, rack, perRack))
  {
    SoundIsCellSound(pl);
    BalancedGood(pl, rack);
    BleedNonNegative(pl, rack);
    hide Sound, CellSound, RackOk, SpreadOk, GivesBack, Balanced, BleedHeatW, StepRack, RequestW;
    HeatSign(pl.cell, Balanced(pl, rack), pl.rackCfg, RequestW(pl, rack, perRack), TICK);
  }

  lemma SoundIsCellSound(pl: Plant)
    requires Sound(pl)
    ensures CellSound(pl.cell, pl.rackCfg, TICK)
  {
    hide CellSound, PcsSound;
  }

  lemma {:induction false} RowWarm(pl: Plant, racks: seq<Rack>, perRack: real, k: nat)
    requires Sound(pl) && RowGood(pl, racks) && k <= |racks|
    requires forall r :: 0 <= r < |racks| ==> !GivesBackAt(pl, racks[r], perRack)
    ensures 0.0 <= RowHeatW(pl, racks, perRack, k)
  {
    hide Sound, RackGood, RackHeatW, GivesBackAt;
    if k > 0 {
      RowWarm(pl, racks, perRack, k - 1);
      RackHeatSign(pl, racks[k - 1], perRack);
    }
  }

  lemma {:induction false} ContainersWarm(pl: Plant, cs: seq<Container>, perRack: real, k: nat)
    requires Sound(pl) && ContainersGood(pl, cs) && k <= |cs|
    requires forall c, r :: 0 <= c < |cs| && 0 <= r < |cs[c].racks| ==> !GivesBackAt(pl, cs[c].racks[r], perRack)
    ensures 0.0 <= HeatW(pl, cs, perRack, k)
  {
    hide Sound, RowGood, RowHeatW, GivesBackAt;
    if k > 0 {
      ContainersWarm(pl, cs, perRack, k - 1);
      RowWarm(pl, cs[k - 1].racks, perRack, |cs[k - 1].racks|);
    }
  }

  lemma {:induction false} SiteWarm(pl: Plant, s: Site, k: nat)
    requires Sound(pl) && BlocksGood(pl, s.blocks) && NoneGivesBack(pl, s) && k <= |s.blocks|
    ensures 0.0 <= SiteHeatW(pl, s, k)
  {
    hide Sound, ContainersGood, HeatW, GivesBackAt, InSet, SiteShareW, PerRackW;
    if k > 0 {
      SiteWarm(pl, s, k - 1);
      var b, cs := s.blocks[k - 1], s.blocks[k - 1].containers;
      forall c, r | 0 <= c < |cs| && 0 <= r < |cs[c].racks|
        ensures !GivesBackAt(pl, cs[c].racks[r], ShareOf(pl, s, k - 1))
      {
        assert HasRack(s.blocks, k - 1, c, r);
      }
      ContainersWarm(pl, cs, ShareOf(pl, s, k - 1), |cs|);
    }
  }

  /** In a tick that asks no rack for such a share the battery meter does not fall. */
  lemma WarmTick(pl: Plant, s: Site, inputs: Inputs)
    requires LossSound(pl) && Inv(pl, s) && NoneGivesBack(pl, s)
    ensures s.energy.batteryLossWh <= Tick(pl, s, inputs).energy.batteryLossWh
  {
    hide Tick, SiteHeatW, NoneGivesBack, SiteBranchJ, Sound, BranchSound, BlocksGood, WordsOk, TripSafe;
    SiteWarm(pl, s, |s.blocks|);
    TickLoss(pl, s, inputs);
  }

  /** On a site of one rack that is not bleeding the meter falls in a tick exactly when the
      rack is asked for such a share. */
  lemma OneRackTick(pl: Plant, s: Site, inputs: Inputs)
    requires LossSound(pl) && Inv(pl, s)
    requires |s.blocks| == 1 && |s.blocks[0].containers| == 1 && |s.blocks[0].containers[0].racks| == 1
    requires !Bleeds(pl.bms.balancing, RackAt(s, 0, 0, 0))
    ensures Tick(pl, s, inputs).energy.batteryLossWh < s.energy.batteryLossWh
       <==> GivesBackAt(pl, RackAt(s, 0, 0, 0), ShareOf(pl, s, 0))
  {
    hide Tick, SiteBranchJ, Sound, BranchSound, Inv, GivesBackAt, Bleeds, SiteHeatW, ShareOf, RackGood;
    var rack := RackAt(s, 0, 0, 0);
    RackInTree(pl, s, 0, 0, 0);
    Unbled(pl, rack);
    OneRackHeat(pl, s);
    RackHeatSign(pl, rack, ShareOf(pl, s, 0));
    TickLoss(pl, s, inputs);
  }

  lemma Unbled(pl: Plant, rack: Rack)
    requires !Bleeds(pl.bms.balancing, rack)
    ensures BleedHeatW(pl, rack) == 0.0
  {
    hide Bleeds, GrownDsoc, SpreadV;
  }

  lemma OneRackHeat(pl: Plant, s: Site)
    requires |s.blocks| == 1 && |s.blocks[0].containers| == 1 && |s.blocks[0].containers[0].racks| == 1
    ensures SiteHeatW(pl, s, 1) == RackHeatW(pl, RackAt(s, 0, 0, 0), ShareOf(pl, s, 0))
  {
    hide RackHeatW, PerRackW, InSet, SiteShareW;
    var p, cs := ShareOf(pl, s, 0), s.blocks[0].containers;
    assert RowHeatW(pl, cs[0].racks, p, 0) == 0.0;
    assert RowHeatW(pl, cs[0].racks, p, 1) == RackHeatW(pl, cs[0].racks[0], p);
    assert HeatW(pl, cs, p, 0) == 0.0;
    assert SiteHeatW(pl, s, 0) == 0.0;
  }

  // ----- The meters that only rise ------------------------------------------------------------------

  /** No powers below zero among the parameters of the house load and the grid. */
  predicate MetersSound(pl: Plant) {
    && 0.0 <= pl.thermal.standbyW && 0.0 <= pl.thermal.unitCoolingW && 0.0 <= pl.thermal.unitFanW
    && 0.0 <= pl.thermal.heatingW
    && 0.0 <= pl.aux.bmsPerRackW && 0.0 <= pl.aux.pcsStandbyW && 0.0 <= pl.aux.controlsW
    && 0.0 <= pl.aux.lightingAndSafetyW
    && 0.0 <= pl.grid.noLoadLossW && 0.0 <= pl.grid.loadLossAtRatedW
  }

  predicate ItemsRise(a: AuxPower, b: AuxPower) {
    && a.hvacW <= b.hvacW && a.bmsW <= b.bmsW && a.pcsStandbyW <= b.pcsStandbyW
    && a.controlsW <= b.controlsW && a.lightingAndSafetyW <= b.lightingAndSafetyW
  }

  /** Every loss and consumption meter but the battery's is no lower. */
  predicate OthersRise(a: Energy, b: Energy) {
    && a.pcsLossWh <= b.pcsLossWh && a.transformerLossWh <= b.transformerLossWh && a.auxWh <= b.auxWh
    && ItemsRise(a.auxItems, b.auxItems)
  }

  lemma HvacPositive(m: LumpedThermal, mode: HvacMode)
    requires 0.0 <= m.standbyW && 0.0 <= m.unitCoolingW && 0.0 <= m.unitFanW && 0.0 <= m.heatingW
    ensures 0.0 <= ModeElectricalW(m, mode)
  {
    DivMono(0.0, m.unitCoolingW, m.cop);
  }

  lemma {:induction false} HvacSum(pl: Plant, cs: seq<Container>, perRack: real, weather: Weather,
      next: seq<Container>, k: nat)
    requires MetersSound(pl) && k <= |cs| == |next|
    requires forall i :: 0 <= i < |cs| ==> next[i] == ContainerTick(pl, cs[i], perRack, weather)
    ensures 0.0 <= HvacW(next, k)
  {
    hide ContainerTick;
    if k > 0 {
      HvacSum(pl, cs, perRack, weather, next, k - 1);
      ContainerHvac(pl, cs[k - 1], perRack, weather);
    }
  }

  lemma ContainerHvac(pl: Plant, c: Container, perRack: real, weather: Weather)
    requires MetersSound(pl)
    ensures 0.0 <= ContainerTick(pl, c, perRack, weather).hvac.electricalW
  {
    hide ModeElectricalW, NextMode, RackRow, HeatRow, Alarmed, CellsToAirW, EnvelopeGainW, RacksWarmed, NextHoldS,
        ModeThermalW;
    var mode := if c.hvac.failed then Off else NextMode(pl.thermal, c.hvac.mode, c.airTempC, c.hvac.holdS <= 0.0);
    HvacPositive(pl.thermal, mode);
  }

  lemma BlockMeters(pl: Plant, b: Block, inSet: bool, share: real, weather: Weather)
    requires Sound(pl) && MetersSound(pl) && ContainersGood(pl, b.containers)
    ensures var next := BlockTick(pl, b, inSet, share, weather);
      0.0 <= next.pcs.lossW && 0.0 <= HvacW(next.containers, |next.containers|)
  {
    hide PerRackW, BlockWord, MissS, DcW, Finalize, ContainersGood, ContainerTick, HvacW, Toward, Abs, CapabilityW,
        MetersSound;
    BlockTracks(pl, b, inSet, share, weather);
    var perRack, cs := PerRackW(pl, b, inSet, share), b.containers;
    var next := ContainersTick(pl, cs, perRack, weather, |cs|);
    forall i | 0 <= i < |cs|
      ensures next[i] == ContainerTick(pl, cs[i], perRack, weather)
    {
      ContainersTickAt(pl, cs, perRack, weather, |cs|, i);
    }
    hide ContainersTick, Sound;
    HvacSum(pl, cs, perRack, weather, next, |cs|);
  }

  lemma {:induction false} BlocksMeters(pl: Plant, s: Site, next: seq<Block>, weather: Weather, k: nat)
    requires Sound(pl) && MetersSound(pl) && BlocksGood(pl, s.blocks) && k <= |s.blocks| == |next|
    requires forall i :: 0 <= i < |next| ==> next[i] == NextBlock(pl, s, weather, i)
    ensures 0.0 <= SumLossW(next, k) && 0.0 <= SumHvacW(next, k)
  {
    hide BlockTick, InSet, SiteShareW, ContainersGood, HvacW, Sound, MetersSound;
    if k > 0 {
      BlocksMeters(pl, s, next, weather, k - 1);
      BlockMeters(pl, s.blocks[k - 1], InSet(pl, s, k - 1), SiteShareW(pl, s), weather);
    }
  }

  lemma AuxPositive(pl: Plant, blocks: seq<Block>)
    requires MetersSound(pl) && 0.0 <= SumHvacW(blocks, |blocks|)
    ensures ItemsRise(AuxPower(0.0, 0.0, 0.0, 0.0, 0.0), AuxTick(pl, blocks))
    ensures 0.0 <= AuxTotalW(AuxTick(pl, blocks))
  {
    hide SumHvacW, RackCount, NotConverting;
    MulNonNeg(pl.aux.bmsPerRackW, RackCount(blocks, |blocks|) as real);
    MulNonNeg(pl.aux.pcsStandbyW, NotConverting(blocks, |blocks|) as real);
  }

  /** The transformer's loss while connected; an open breaker makes none. */
  lemma TransformerPositive(pl: Plant, s: Substation, acW: real, auxW: real, now: int)
    requires MetersSound(pl)
    ensures 0.0 <= SubstationTick(pl.grid, s, acW, auxW, TICK, now).transformerLossW
    ensures SubstationTick(pl.grid, s, acW, auxW, TICK, now).auxW == auxW
  {
    hide Observe, Wh;
    var loading := acW / pl.grid.siteRatedW;
    LoadLoss(pl.grid.loadLossAtRatedW, loading);
  }

  lemma LoadLoss(k: real, x: real)
    requires 0.0 <= k
    ensures 0.0 <= k * x * x
  {
    Square(x);
    MulNonNeg(k, x * x);
    assert k * x * x == k * (x * x);
  }

  lemma TickOthersRise(pl: Plant, s: Site, inputs: Inputs)
    requires Sound(pl) && MetersSound(pl) && Inv(pl, s)
    ensures OthersRise(s.energy, Tick(pl, s, inputs).energy)
  {
    hide NextBlocks, NextBlock, Sound, BlocksGood, TripSafe, WordsOk, Tick, AuxTick, SubstationTick, SumAcW,
      AuxTotalW, SumLossW, SumHvacW, SiteHeatW, MetersSound;
    TickMeters(pl, s, inputs);
    var blocks := NextBlocks(pl, s, inputs.weather, |s.blocks|);
    forall i | 0 <= i < |blocks|
      ensures blocks[i] == NextBlock(pl, s, inputs.weather, i)
    {
      NextBlocksAt(pl, s, inputs.weather, |s.blocks|, i);
    }
    BlocksMeters(pl, s, blocks, inputs.weather, |s.blocks|);
    AuxPositive(pl, blocks);
    TransformerPositive(pl, s.substation, SumAcW(blocks, |blocks|), AuxTotalW(AuxTick(pl, blocks)), s.UnixTimeS() + 1);
  }

  /** Over every run the converter, transformer and consumption meters, item by item, only
      rise. */
  lemma {:induction false} RunOthersRise(pl: Plant, s: Site, ops: seq<Op>)
    requires Sound(pl) && MetersSound(pl) && Inv(pl, s)
    ensures OthersRise(s.energy, StateAfter(pl, s, ops).energy)
  {
    hide Exec, Inv, Sound, MetersSound;
    if ops != [] {
      RunOthersRise(pl, s, Init(ops));
      RunKeepsInv(pl, s, Init(ops));
      OpOthersRise(pl, StateAfter(pl, s, Init(ops)), Last(ops));
    }
  }

  lemma OpOthersRise(pl: Plant, s: Site, op: Op)
    requires Sound(pl) && MetersSound(pl) && Inv(pl, s)
    ensures OthersRise(s.energy, Exec(pl, s, op).energy)
  {
    hide Tick, Dispatch, SameCharge, Inv, Sound, MetersSound;
    if op.OpTick? {
      TickOthersRise(pl, s, op.inputs);
    } else if (op.OpApply? || op.OpDirect?) && Dispatch(s, op.action).Ok? {
      DispatchMovesNothing(s, op.action);
    }
  }
}
