/** What the counts and sums of a tick stand for: racks and converters counted once each,
    the house load item by item, the transformer's loss, the warmest container, and the
    shortfall the site word reads. */
module InventoryLaws {
  import opened Reals
  import opened State
  import opened Cell
  import opened Bms
  import opened Thermal
  import opened Substations
  import opened Plants
  import opened Kernel
  import opened Commands
  import opened TickLaws
  import opened SiteLaws
  import opened Runs
  import opened RunLaws
  import opened SafetyLaws
  import opened HvacRuns
  import opened TrackingLaws

  // ----- Counting ---------------------------------------------------------------------------

  function Tag<T>(s: set<T>, tag: int): set<(int, T)> {
    set x | x in s :: (tag, x)
  }

  /** Tagging the members of a set leaves as many. */
  lemma {:induction false} Tagged<T>(s: set<T>, tag: int)
    ensures |Tag(s, tag)| == |s|
  {
    if s == {} {
      assert Tag(s, tag) == {};
    } else {
      var x :| x in s;
      Tagged(s - {x}, tag);
      assert Tag(s, tag) == Tag(s - {x}, tag) + {(tag, x)};
    }
  }

  /** The racks in service of a row, by position. */
  function ServiceRow(racks: seq<Rack>, k: nat): set<int>
    requires k <= |racks|
  {
    set r | 0 <= r < k && racks[r].inService
  }

  lemma {:induction false} RowCount(racks: seq<Rack>, k: nat)
    requires k <= |racks|
    ensures RowInService(racks, k) == |ServiceRow(racks, k)|
  {
    if k > 0 {
      RowCount(racks, k - 1);
      assert ServiceRow(racks, k)
          == ServiceRow(racks, k - 1) + (if racks[k - 1].inService then {k - 1} else {});
    }
  }

  /** The racks in service of some containers, by container and position. */
  function InServiceAt(cs: seq<Container>, k: nat): set<(int, int)>
    requires k <= |cs|
  {
    set c, r | 0 <= c < k && 0 <= r < |cs[c].racks| && cs[c].racks[r].inService :: (c, r)
  }

  lemma OneMoreContainerIn(cs: seq<Container>, k: nat)
    requires 0 < k <= |cs|
    ensures var last := Tag(ServiceRow(cs[k - 1].racks, |cs[k - 1].racks|), k - 1);
      InServiceAt(cs, k) == InServiceAt(cs, k - 1) + last && InServiceAt(cs, k - 1) !! last
  {
    var row := ServiceRow(cs[k - 1].racks, |cs[k - 1].racks|);
    var last := Tag(row, k - 1);
    forall c, r | 0 <= c < k && 0 <= r < |cs[c].racks| && cs[c].racks[r].inService
      ensures (c, r) in InServiceAt(cs, k - 1) + last
    {
      if c == k - 1 { assert r in row; }
    }
    forall p | p in last
      ensures p in InServiceAt(cs, k) && p !in InServiceAt(cs, k - 1)
    {
      assert p.1 in row && p.0 == k - 1 && cs[p.0].racks[p.1].inService;
    }
  }

  /** A block's DC request is split over as many shares as it has racks in service. */
  lemma {:induction false} InServiceIsCount(cs: seq<Container>, k: nat)
    requires k <= |cs|
    ensures InServiceCount(cs, k) == |InServiceAt(cs, k)|
  {
    hide InServiceAt, ServiceRow, Tag;
    if k == 0 {
      NoneIn(cs);
    } else {
      InServiceIsCount(cs, k - 1);
      RowCount(cs[k - 1].racks, |cs[k - 1].racks|);
      Tagged(ServiceRow(cs[k - 1].racks, |cs[k - 1].racks|), k - 1);
      OneMoreContainerIn(cs, k);
    }
  }

  lemma NoneIn(cs: seq<Container>)
    ensures InServiceAt(cs, 0) == {}
  {
    assert forall p :: p !in InServiceAt(cs, 0);
  }

  /** The racks of some containers, and of some blocks, in a row. */
  function RacksOf(cs: seq<Container>, k: nat): seq<Rack>
    requires k <= |cs|
  {
    if k == 0 then [] else RacksOf(cs, k - 1) + cs[k - 1].racks
  }

  /** The limits of a block's racks are one rack's each, added up: over a row in two parts the
      sum of theirs. */
  lemma {:induction false} RowsConcat(pl: Plant, a: seq<Rack>, b: seq<Rack>, k: nat)
    requires k <= |b|
    ensures RowLimits(pl, a + b, |a| + k) == AddLimits(RowLimits(pl, a, |a|), RowLimits(pl, b, k))
  {
    hide LimitsOf;
    if k == 0 {
      RowsPrefix(pl, a, b, |a|);
    } else {
      RowsConcat(pl, a, b, k - 1);
    }
  }

  lemma {:induction false} RowsPrefix(pl: Plant, a: seq<Rack>, b: seq<Rack>, k: nat)
    requires k <= |a|
    ensures RowLimits(pl, a + b, k) == RowLimits(pl, a, k)
  {
    hide LimitsOf;
    if k > 0 { RowsPrefix(pl, a, b, k - 1); }
  }

  lemma OneRack(pl: Plant, rack: Rack)
    ensures RowLimits(pl, [rack], 1) == LimitsOf(pl, rack)
  {
    hide LimitsOf;
    assert RowLimits(pl, [rack], 0) == Limits(0.0, 0.0);
  }

  /** And a block's DC limits are those of all its racks in a row. */
  lemma {:induction false} DcLimitsAre(pl: Plant, cs: seq<Container>, k: nat)
    requires k <= |cs|
    ensures DcLimits(pl, cs, k) == RowLimits(pl, RacksOf(cs, k), |RacksOf(cs, k)|)
  {
    hide RowLimits;
    if k == 0 {
      NoRacks(pl);
    } else {
      DcLimitsAre(pl, cs, k - 1);
      RowsConcat(pl, RacksOf(cs, k - 1), cs[k - 1].racks, |cs[k - 1].racks|);
    }
  }

  lemma NoRacks(pl: Plant)
    ensures RowLimits(pl, [], 0) == Limits(0.0, 0.0)
  {}

  function AllRacks(blocks: seq<Block>, k: nat): seq<Rack>
    requires k <= |blocks|
  {
    if k == 0 then [] else AllRacks(blocks, k - 1) + RacksOf(blocks[k - 1].containers, |blocks[k - 1].containers|)
  }

  lemma {:induction false} RacksInIs(cs: seq<Container>, k: nat)
    requires k <= |cs|
    ensures RacksIn(cs, k) == |RacksOf(cs, k)|
  {
    if k > 0 { RacksInIs(cs, k - 1); }
  }

  lemma {:induction false} RackCountIs(blocks: seq<Block>, k: nat)
    requires k <= |blocks|
    ensures RackCount(blocks, k) == |AllRacks(blocks, k)|
  {
    hide RacksIn, RacksOf;
    if k > 0 {
      RackCountIs(blocks, k - 1);
      RacksInIs(blocks[k - 1].containers, |blocks[k - 1].containers|);
    }
  }

  /** Energized and not converting: standing by or in fault, in a block not maintained. */
  predicate Idles(b: Block) {
    (b.pcs.opState == Standby || b.pcs.opState == PcsOpState.Fault) && b.mode != Maintenance
  }

  function Idle(blocks: seq<Block>, k: nat): set<int>
    requires k <= |blocks|
  {
    set b | 0 <= b < k && Idles(blocks[b])
  }

  lemma OneMoreIdle(blocks: seq<Block>, k: nat)
    requires 0 < k <= |blocks|
    ensures |Idle(blocks, k)| == |Idle(blocks, k - 1)| + (if Idles(blocks[k - 1]) then 1 else 0)
  {
    hide Idles;
    assert Idle(blocks, k) == Idle(blocks, k - 1) + (if Idles(blocks[k - 1]) then {k - 1} else {});
  }

  lemma {:induction false} NotConvertingIs(blocks: seq<Block>, k: nat)
    requires k <= |blocks|
    ensures NotConverting(blocks, k) == |Idle(blocks, k)|
  {
    if k == 0 {
      assert Idle(blocks, 0) == {};
    } else {
      NotConvertingIs(blocks, k - 1);
      OneMoreIdle(blocks, k);
      hide Idle;
    }
  }

  // ----- The house load -----------------------------------------------------------------------

  /** What n units draw, so many compressors and heaters of them at work. */
  function DrawW(m: LumpedThermal, n: nat, compressors: nat, heaters: nat): real {
    m.standbyW * n as real + (m.unitCoolingW / m.cop + m.unitFanW) * compressors as real
    + (m.heatingW + m.unitFanW) * heaters as real
  }

  function In(cs: seq<Container>, mode: HvacMode, k: nat): set<int>
    requires k <= |cs|
  {
    set c | 0 <= c < k && cs[c].hvac.mode == mode
  }

  lemma OneMoreUnit(cs: seq<Container>, mode: HvacMode, k: nat)
    requires 0 < k <= |cs|
    ensures |In(cs, mode, k)| == |In(cs, mode, k - 1)| + (if cs[k - 1].hvac.mode == mode then 1 else 0)
  {
    assert In(cs, mode, k) == In(cs, mode, k - 1) + (if cs[k - 1].hvac.mode == mode then {k - 1} else {});
  }

  /** The unit draws what its mode does. */
  predicate Stepped(m: LumpedThermal, c: Container) {
    c.hvac.electricalW == ModeElectricalW(m, c.hvac.mode)
  }

  /** The HVAC load of containers whose units a tick has stepped: the controls of every unit,
      a compressor and a fan for each cooling unit at work, the heater and a fan for each
      that heats. */
  lemma {:induction false} HvacDraws(m: LumpedThermal, cs: seq<Container>, k: nat)
    requires k <= |cs| && forall c :: 0 <= c < |cs| ==> Stepped(m, cs[c])
    ensures HvacW(cs, k) == DrawW(m, k, |In(cs, Cool1, k)| + 2 * |In(cs, Cool2, k)|, |In(cs, Heat, k)|)
  {
    hide In, DrawW, ModeElectricalW;
    if k == 0 {
      NoUnits(m, cs);
    } else {
      HvacDraws(m, cs, k - 1);
      assert Stepped(m, cs[k - 1]);
      OneMoreUnit(cs, Cool1, k);
      OneMoreUnit(cs, Cool2, k);
      OneMoreUnit(cs, Heat, k);
      OneMoreDraw(m, cs[k - 1].hvac.mode, k - 1, |In(cs, Cool1, k - 1)| + 2 * |In(cs, Cool2, k - 1)|,
          |In(cs, Heat, k - 1)|);
    }
  }

  lemma NoUnits(m: LumpedThermal, cs: seq<Container>)
    ensures |In(cs, Cool1, 0)| == |In(cs, Cool2, 0)| == |In(cs, Heat, 0)| == 0 && DrawW(m, 0, 0, 0) == 0.0
  {
    assert In(cs, Cool1, 0) == In(cs, Cool2, 0) == In(cs, Heat, 0) == {};
  }

  lemma OneMoreDraw(m: LumpedThermal, mode: HvacMode, n: nat, compressors: nat, heaters: nat)
    ensures DrawW(m, n, compressors, heaters) + ModeElectricalW(m, mode)
         == DrawW(m, n + 1, compressors + (match mode case Cool1 => 1 case Cool2 => 2 case Off => 0 case Heat => 0),
                  heaters + (if mode == Heat then 1 else 0))
  {
    Adds(m.standbyW, n, 1);
    Adds(m.unitCoolingW / m.cop + m.unitFanW, compressors, match mode case Cool1 => 1 case Cool2 => 2 case _ => 0);
    Adds(m.heatingW + m.unitFanW, heaters, if mode == Heat then 1 else 0);
  }

  lemma Adds(x: real, n: nat, more: nat)
    ensures x * (n + more) as real == x * n as real + x * more as real
  {}

  /** The containers of some blocks, in a row. */
  function AllContainers(blocks: seq<Block>, k: nat): seq<Container>
    requires k <= |blocks|
  {
    if k == 0 then [] else AllContainers(blocks, k - 1) + blocks[k - 1].containers
  }

  lemma {:induction false} HvacConcat(a: seq<Container>, b: seq<Container>, k: nat)
    requires k <= |b|
    ensures HvacW(a + b, |a| + k) == HvacW(a, |a|) + HvacW(b, k)
  {
    if k > 0 {
      HvacConcat(a, b, k - 1);
    } else {
      HvacPrefix(a, b, |a|);
    }
  }

  lemma {:induction false} HvacPrefix(a: seq<Container>, b: seq<Container>, k: nat)
    requires k <= |a|
    ensures HvacW(a + b, k) == HvacW(a, k)
  {
    if k > 0 { HvacPrefix(a, b, k - 1); }
  }

  lemma {:induction false} SumHvacIs(blocks: seq<Block>, k: nat)
    requires k <= |blocks|
    ensures SumHvacW(blocks, k) == HvacW(AllContainers(blocks, k), |AllContainers(blocks, k)|)
  {
    hide HvacW;
    if k > 0 {
      SumHvacIs(blocks, k - 1);
      HvacConcat(AllContainers(blocks, k - 1), blocks[k - 1].containers, |blocks[k - 1].containers|);
    } else {
      NoHvac();
    }
  }

  lemma NoHvac()
    ensures HvacW([], 0) == 0.0
  {}

  lemma {:induction false} EveryContainer(m: LumpedThermal, blocks: seq<Block>, k: nat)
    requires k <= |blocks|
    requires forall b <- blocks, c <- b.containers :: Stepped(m, c)
    ensures forall c :: 0 <= c < |AllContainers(blocks, k)| ==> Stepped(m, AllContainers(blocks, k)[c])
  {
    hide Stepped;
    if k > 0 {
      EveryContainer(m, blocks, k - 1);
      assert forall c <- blocks[k - 1].containers :: Stepped(m, c);
    }
  }

  lemma TickStepped(pl: Plant, s: Site, inputs: Inputs, b: int, c: int)
    requires var next := Tick(pl, s, inputs); 0 <= b < |next.blocks| && 0 <= c < |next.blocks[b].containers|
    ensures Stepped(pl.thermal, Tick(pl, s, inputs).blocks[b].containers[c])
  {
    hide Emitted, EmsAfter, AuxTick, SubstationTick, EnergyAfter, AlarmsAfter, SiteShareW, InSet, NextBlocks, BlockTick,
      StepHvac;
    NextBlocksAt(pl, s, inputs.weather, |s.blocks|, b);
    TickKeepsShape(pl, s, inputs.weather);
    BlockStepsHvac(pl, s.blocks[b], InSet(pl, s, b), SiteShareW(pl, s), inputs.weather, c);
    StepsTo(pl.thermal, s.blocks[b].containers[c].hvac, s.blocks[b].containers[c].airTempC);
  }

  lemma StepsTo(m: LumpedThermal, h: Hvac, air: real)
    ensures StepHvac(m, h, air, TICK).electricalW == ModeElectricalW(m, StepHvac(m, h, air, TICK).mode)
  {
    hide NextMode, NextHoldS, ModeElectricalW;
  }

  /** The house load of a site, item by item: the BMS of every rack, the standby of every
      converter that idles in a block in service, what the HVAC units draw in the modes they
      are in, and the two constant loads. */
  function LoadOf(pl: Plant, blocks: seq<Block>): AuxPower {
    var n, cs := |blocks|, AllContainers(blocks, |blocks|);
    AuxPower(DrawW(pl.thermal, |cs|, |In(cs, Cool1, |cs|)| + 2 * |In(cs, Cool2, |cs|)|, |In(cs, Heat, |cs|)|),
             pl.aux.bmsPerRackW * |AllRacks(blocks, n)| as real, pl.aux.pcsStandbyW * |Idle(blocks, n)| as real,
             pl.aux.controlsW, pl.aux.lightingAndSafetyW)
  }

  /** A tick draws the house load of the tree it leaves. */
  lemma HouseLoad(pl: Plant, s: Site, inputs: Inputs)
    ensures Tick(pl, s, inputs).aux == LoadOf(pl, Tick(pl, s, inputs).blocks)
  {
    hide Tick, AuxTick, LoadOf, AllContainers, DrawW, In, SumHvacW, Stepped;
    AuxIs(pl, s, inputs);
    UnitsStepped(pl, s, inputs);
    UnitsDraw(pl.thermal, Tick(pl, s, inputs).blocks);
    LoadIs(pl, Tick(pl, s, inputs).blocks);
  }

  lemma LoadIs(pl: Plant, blocks: seq<Block>)
    requires var cs := AllContainers(blocks, |blocks|);
      SumHvacW(blocks, |blocks|)
      == DrawW(pl.thermal, |cs|, |In(cs, Cool1, |cs|)| + 2 * |In(cs, Cool2, |cs|)|, |In(cs, Heat, |cs|)|)
    ensures AuxTick(pl, blocks) == LoadOf(pl, blocks)
  {
    hide AllRacks, Idle, DrawW, In, SumHvacW, RackCount, NotConverting, AllContainers;
    RackCountIs(blocks, |blocks|);
    NotConvertingIs(blocks, |blocks|);
  }

  lemma UnitsDraw(m: LumpedThermal, blocks: seq<Block>)
    requires forall b <- blocks, c <- b.containers :: Stepped(m, c)
    ensures var cs := AllContainers(blocks, |blocks|);
      SumHvacW(blocks, |blocks|) == DrawW(m, |cs|, |In(cs, Cool1, |cs|)| + 2 * |In(cs, Cool2, |cs|)|, |In(cs, Heat,
          |cs|)|)
  {
    hide DrawW, In, HvacW, SumHvacW, Stepped, AllContainers;
    var cs := AllContainers(blocks, |blocks|);
    SumHvacIs(blocks, |blocks|);
    EveryContainer(m, blocks, |blocks|);
    HvacDraws(m, cs, |cs|);
  }

  lemma UnitsStepped(pl: Plant, s: Site, inputs: Inputs)
    ensures forall b <- Tick(pl, s, inputs).blocks, c <- b.containers :: Stepped(pl.thermal, c)
  {
    hide Tick, Stepped;
    var blocks := Tick(pl, s, inputs).blocks;
    forall b, c | 0 <= b < |blocks| && 0 <= c < |blocks[b].containers|
      ensures Stepped(pl.thermal, blocks[b].containers[c])
    {
      TickStepped(pl, s, inputs, b, c);
    }
  }

  lemma AuxIs(pl: Plant, s: Site, inputs: Inputs)
    ensures Tick(pl, s, inputs).aux == AuxTick(pl, Tick(pl, s, inputs).blocks)
  {
    hide Emitted, EmsAfter, AuxTick, SubstationTick, EnergyAfter, AlarmsAfter, NextBlocks;
  }

  /** The meters of a tick, each on its own: every one moves by the hour's share of the power
      the tree then shows, and the converters' by the sum over the blocks. */
  lemma MetersRead(pl: Plant, s: Site, inputs: Inputs)
    ensures var next := Tick(pl, s, inputs);
      var e, e', aux := s.energy, next.energy, next.aux;
      && e'.pcsLossWh - e.pcsLossWh == Wh(SumLossW(next.blocks, |next.blocks|), TICK)
      && e'.transformerLossWh - e.transformerLossWh == Wh(next.substation.transformerLossW, TICK)
      && e'.auxWh - e.auxWh == Wh(AuxTotalW(aux), TICK) && next.substation.auxW == AuxTotalW(aux)
      && e'.auxItems.hvacW - e.auxItems.hvacW == Wh(aux.hvacW, TICK)
      && e'.auxItems.bmsW - e.auxItems.bmsW == Wh(aux.bmsW, TICK)
      && e'.auxItems.pcsStandbyW - e.auxItems.pcsStandbyW == Wh(aux.pcsStandbyW, TICK)
      && e'.auxItems.controlsW - e.auxItems.controlsW == Wh(aux.controlsW, TICK)
      && e'.auxItems.lightingAndSafetyW - e.auxItems.lightingAndSafetyW == Wh(aux.lightingAndSafetyW, TICK)
  {
    TickMeters(pl, s, inputs);
    AuxIs(pl, s, inputs);
    var blocks := NextBlocks(pl, s, inputs.weather, |s.blocks|);
    BlocksAre(pl, s, inputs);
    SubstationLoad(pl.grid, s.substation, SumAcW(blocks, |blocks|), AuxTotalW(AuxTick(pl, blocks)), s.UnixTimeS() + 1);
    hide Tick, NextBlocks, SubstationTick, Wh, AuxTick, AuxTotalW, SumAcW, SumLossW, SiteHeatW;
  }

  lemma BlocksAre(pl: Plant, s: Site, inputs: Inputs)
    ensures Tick(pl, s, inputs).blocks == NextBlocks(pl, s, inputs.weather, |s.blocks|)
  {
    hide Emitted, EmsAfter, AuxTick, SubstationTick, EnergyAfter, AlarmsAfter, NextBlocks;
  }

  lemma SubstationLoad(m: SimpleGrid, s: Substation, acW: real, auxW: real, now: int)
    ensures SubstationTick(m, s, acW, auxW, TICK, now).auxW == auxW
  {
    hide Observe, Wh;
  }

  // ----- The heat of a container ------------------------------------------------------------------

  /** The heat in every container moves over a tick by what its racks give off, what comes in
      through the envelope in the weather of that tick, and what its unit takes out. */
  lemma TickHeats(pl: Plant, s: Site, inputs: Inputs, b: nat, c: nat)
    requires HasContainer(s, b, c)
    ensures HasContainer(Tick(pl, s, inputs), b, c)
    ensures var before, after := s.blocks[b].containers[c], Tick(pl, s, inputs).blocks[b].containers[c];
      StoredJ(pl.thermal, after) - StoredJ(pl.thermal, before)
      == TICK * (RowHeatW(pl, before.racks, ShareOf(pl, s, b), |before.racks|)
                 + EnvelopeGainW(pl.thermal, inputs.weather, before.airTempC) - after.hvac.thermalW)
  {
    hide Emitted, EmsAfter, AuxTick, SubstationTick, EnergyAfter, AlarmsAfter, SiteShareW, InSet, NextBlocks, BlockTick,
      PerRackW, StoredJ, EnvelopeGainW, RowHeatW, ContainerTick;
    NextBlocksAt(pl, s, inputs.weather, |s.blocks|, b);
    BlockHeats(pl, s.blocks[b], InSet(pl, s, b), SiteShareW(pl, s), inputs.weather, c);
  }

  lemma BlockHeats(pl: Plant, b: Block, inSet: bool, share: real, weather: Weather, c: nat)
    requires c < |b.containers|
    ensures var next, before := BlockTick(pl, b, inSet, share, weather), b.containers[c];
      |next.containers| == |b.containers|
      && StoredJ(pl.thermal, next.containers[c]) - StoredJ(pl.thermal, before)
         == TICK * (RowHeatW(pl, before.racks, PerRackW(pl, b, inSet, share), |before.racks|)
                    + EnvelopeGainW(pl.thermal, weather, before.airTempC) - next.containers[c].hvac.thermalW)
  {
    hide BlockTick, ContainersTick, ContainerTick, PerRackW, StoredJ, EnvelopeGainW, RowHeatW;
    TickContainers(pl, b, inSet, share, weather);
    ContainersTickAt(pl, b.containers, PerRackW(pl, b, inSet, share), weather, |b.containers|, c);
    ContainerHeats(pl, b.containers[c], PerRackW(pl, b, inSet, share), weather);
  }

  lemma ContainerHeats(pl: Plant, c: Container, perRack: real, weather: Weather)
    ensures var next := ContainerTick(pl, c, perRack, weather);
      StoredJ(pl.thermal, next) - StoredJ(pl.thermal, c)
      == TICK * (RowHeatW(pl, c.racks, perRack, |c.racks|) + EnvelopeGainW(pl.thermal, weather, c.airTempC)
                 - next.hvac.thermalW)
  {
    hide StepContainer, EnvelopeGainW, RackHeatW, RackStepped, StoredJ, RackAlarms;
    var row, heat := RackRow(pl, c.racks, perRack, |c.racks|), HeatRow(pl, c.racks, perRack, |c.racks|);
    var ready := c.(racks := row);
    var heated := StepContainer(pl.thermal, ready, heat, weather, TICK);
    ContainerConservesHeat(pl.thermal, ready, heat, weather, TICK);
    RowHeatIs(pl, c.racks, perRack, |c.racks|);
    SameCells(pl, c, perRack);
    WordsHoldNoHeat(pl, heated);
  }

  lemma {:induction false} RowHeatIs(pl: Plant, racks: seq<Rack>, perRack: real, k: nat)
    requires k <= |racks|
    ensures SumW(HeatRow(pl, racks, perRack, k), k) == RowHeatW(pl, racks, perRack, k)
  {
    hide RackHeatW;
    if k > 0 {
      RowHeatIs(pl, racks, perRack, k - 1);
      SumPrefix(HeatRow(pl, racks, perRack, k - 1), RackHeatW(pl, racks[k - 1], perRack), k - 1);
    }
  }

  lemma {:induction false} SumPrefix(heat: seq<real>, more: real, k: nat)
    requires k <= |heat|
    ensures SumW(heat + [more], k) == SumW(heat, k)
  {
    if k > 0 { SumPrefix(heat, more, k - 1); }
  }

  /** Stepping the racks moves no heat yet. */
  lemma SameCells(pl: Plant, c: Container, perRack: real)
    ensures StoredJ(pl.thermal, c.(racks := RackRow(pl, c.racks, perRack, |c.racks|))) == StoredJ(pl.thermal, c)
  {
    hide RackRow, CellsJ, RackStepped;
    var row := RackRow(pl, c.racks, perRack, |c.racks|);
    forall i | 0 <= i < |c.racks|
      ensures row[i].cellTempC == c.racks[i].cellTempC
    {
      RackRowAt(pl, c.racks, perRack, |c.racks|, i);
      SteppedKeepsTemp(pl, c.racks[i], perRack);
    }
    SameTemps(pl.thermal, c.racks, row, |row|);
  }

  lemma SteppedKeepsTemp(pl: Plant, rack: Rack, perRack: real)
    ensures RackStepped(pl, rack, perRack).0.cellTempC == rack.cellTempC
  {
    BalancedKeepsTemp(pl, rack);
    hide Balanced, RequestW, CurrentA, RelaxedV, OcvRackV, SocDrop, TerminalW, EmfV, R0;
  }

  lemma BalancedKeepsTemp(pl: Plant, rack: Rack)
    ensures Balanced(pl, rack).cellTempC == rack.cellTempC
  {}

  lemma {:induction false} SameTemps(m: LumpedThermal, a: seq<Rack>, b: seq<Rack>, k: nat)
    requires k <= |a| == |b| && forall i :: 0 <= i < |a| ==> a[i].cellTempC == b[i].cellTempC
    ensures CellsJ(m, a, k) == CellsJ(m, b, k)
  {
    if k > 0 { SameTemps(m, a, b, k - 1); }
  }

  lemma WordsHoldNoHeat(pl: Plant, c: Container)
    ensures StoredJ(pl.thermal, c.(racks := Alarmed(pl, c.racks, |c.racks|))) == StoredJ(pl.thermal, c)
  {
    hide RackAlarms, Alarmed, CellsJ;
    var words := Alarmed(pl, c.racks, |c.racks|);
    forall i | 0 <= i < |c.racks|
      ensures words[i].cellTempC == c.racks[i].cellTempC
    {
      AlarmedAt(pl, c.racks, |c.racks|, i);
    }
    SameTemps(pl.thermal, c.racks, words, |words|);
  }

  // ----- What the words read ----------------------------------------------------------------------

  /** The air a block's over-temperature bit reads is that of its warmest container. */
  lemma {:induction false} AirMaxIs(cs: seq<Container>, k: nat)
    requires k <= |cs|
    ensures AirMax(cs, k).Some? <==> k > 0
    ensures k > 0 ==> forall c :: 0 <= c < k ==> cs[c].airTempC <= AirMax(cs, k).value
    ensures k > 0 ==> exists c :: 0 <= c < k && cs[c].airTempC == AirMax(cs, k).value
  {
    if k > 0 {
      AirMaxIs(cs, k - 1);
      assert cs[k - 1].airTempC <= AirMax(cs, k).value;
      if k > 1 && AirMax(cs, k).value == AirMax(cs, k - 1).value {
        var c :| 0 <= c < k - 1 && cs[c].airTempC == AirMax(cs, k - 1).value;
        assert cs[c].airTempC == AirMax(cs, k).value;
      }
    }
  }

  /** On every tick of every run the limitation bit follows its band on how far the site is
      off its setpoint, as a share of its rating. */
  lemma EveryTickLimited(pl: Plant, start: Site, ops: seq<Op>, inputs: Inputs)
    requires Sound(pl) && Inv(pl, start)
    ensures var s, next := StateAfter(pl, start, ops), StateAfter(pl, start, ops + [OpTick(inputs)]);
      POWER_LIMITED in next.alarms <==>
        Rising(POWER_LIMITED in s.alarms,
               Abs(next.ems.siteSetpointW - SumAcW(next.blocks, |next.blocks|)) / pl.siteRatedW,
               pl.thresholds.siteShortfall)
  {
    hide Tick, Inv, SumAcW, Sound, Rising, SomeOut;
    var s := StateAfter(pl, start, ops);
    var next := Tick(pl, s, inputs);
    assert Init(ops + [OpTick(inputs)]) == ops;
    RunKeepsInv(pl, start, ops);
    SiteTracks(pl, s, inputs);
    SiteWordReads(pl, s, inputs);
    ShortfallIs(pl, next.ems.siteSetpointW, SumAcW(next.blocks, |next.blocks|));
    hide Shortfall, Toward, Shares, SumSetpointW, Active;
  }

  /** And after every tick the availability bit is up exactly when some block is not
      connected, in service, out of fault and released, or some rack is out of service. */
  lemma AvailabilityReads(pl: Plant, s: Site, inputs: Inputs)
    ensures var next := Tick(pl, s, inputs);
      PARTIAL_AVAILABILITY in next.alarms <==>
        || (exists k :: 0 <= k < |next.blocks| && !Takes(next, next.ems.blocksReleased, k))
        || (exists b <- next.blocks, c <- b.containers, r <- c.racks :: !r.inService)
  {
    hide Tick, Rising, Shortfall;
    SiteWordReads(pl, s, inputs);
    OutIs(Tick(pl, s, inputs));
    hide SomeOut, Takes;
  }

  lemma OutIs(s: Site)
    ensures SomeOut(s.blocks, s.ems, Connected(s)) <==>
      || (exists k :: 0 <= k < |s.blocks| && !Takes(s, s.ems.blocksReleased, k))
      || (exists b <- s.blocks, c <- b.containers, r <- c.racks :: !r.inService)
  {
    forall k | 0 <= k < |s.blocks|
      ensures Dispatchable(s.blocks[k], k, s.ems, Connected(s)) <==> Takes(s, s.ems.blocksReleased, k)
    {
    }
    hide Dispatchable, Takes;
  }

  lemma ShortfallIs(pl: Plant, setpoint: real, delivered: real)
    requires Toward(delivered, setpoint)
    ensures Shortfall(pl, setpoint, delivered) == Abs(setpoint - delivered) / pl.siteRatedW
  {}

  /** A tick records its weather and counts itself. */
  lemma TickRecords(pl: Plant, s: Site, inputs: Inputs)
    ensures var next := Tick(pl, s, inputs);
      next.weather == inputs.weather && next.UnixTimeS() == s.UnixTimeS() + 1 && next.pending == []
  {
    hide Emitted, EmsAfter, AuxTick, SubstationTick, EnergyAfter, AlarmsAfter, NextBlocks;
  }

  // ----- The transformer and the periods -----------------------------------------------------------

  /** The loss of a substation step that feeds so much AC power. */
  function LossAt(m: SimpleGrid, s: Substation, acW: real): real {
    StepGrid(m, s, acW, 0.0, TICK).transformerLossW
  }

  /** The transformer loses nothing while the breaker is open; closed, its no-load loss with
      no power through it and the rated load loss more at the rating, either way, and in
      between by the square of the loading. */
  lemma TransformerLoss(m: SimpleGrid, s: Substation, acW: real, auxW: real, k: real, now: int)
    ensures s.breaker == Open ==> LossAt(m, s, acW) == 0.0
    ensures s.breaker == Closed ==>
      && LossAt(m, s, 0.0) == m.noLoadLossW
      && (forall x: real :: Abs(x) == m.siteRatedW ==> LossAt(m, s, x) == m.noLoadLossW + m.loadLossAtRatedW)
      && LossAt(m, s, k * acW) - m.noLoadLossW == k * k * (LossAt(m, s, acW) - m.noLoadLossW)
    ensures SubstationTick(m, s, acW, auxW, TICK, now).transformerLossW == LossAt(m, s, acW)
  {
    hide LossAt;
    ReadLoss(m, s, acW, auxW, now);
    if s.breaker == Closed {
      ClosedLoss(m, s, acW);
      ClosedLoss(m, s, k * acW);
      ClosedLoss(m, s, 0.0);
      Scales(acW, k, m.siteRatedW);
      SquareScales(m.loadLossAtRatedW, acW / m.siteRatedW, k);
      NoLoad(m.loadLossAtRatedW, m.siteRatedW);
      forall x: real | Abs(x) == m.siteRatedW
        ensures LossAt(m, s, x) == m.noLoadLossW + m.loadLossAtRatedW
      {
        ClosedLoss(m, s, x);
        AtRated(x, m.siteRatedW, m.loadLossAtRatedW);
      }
    }
  }

  lemma ReadLoss(m: SimpleGrid, s: Substation, acW: real, auxW: real, now: int)
    ensures SubstationTick(m, s, acW, auxW, TICK, now).transformerLossW == LossAt(m, s, acW)
    ensures s.breaker == Open ==> LossAt(m, s, acW) == 0.0
  {
    hide Observe, Wh;
  }

  lemma ClosedLoss(m: SimpleGrid, s: Substation, acW: real)
    requires s.breaker == Closed
    ensures LossAt(m, s, acW) == m.noLoadLossW + m.loadLossAtRatedW * (acW / m.siteRatedW) * (acW / m.siteRatedW)
  {
    hide Wh;
  }

  lemma NoLoad(l: real, rated: Pos)
    ensures l * (0.0 / rated) * (0.0 / rated) == 0.0
  {}

  lemma AtRated(x: real, rated: Pos, l: real)
    requires Abs(x) == rated
    ensures l * (x / rated) * (x / rated) == l
  {
    assert x / rated == if x < 0.0 then -1.0 else 1.0;
  }

  lemma Scales(acW: real, k: real, rated: Pos)
    ensures k * acW / rated == k * (acW / rated)
  {}

  lemma SquareScales(l: real, x: real, k: real)
    ensures l * (k * x) * (k * x) == k * k * (l * x * x)
  {}

  /** Where a substation step's energy is booked: with the breaker open all of the house load
      on the station-service feed; closed, what is left of the AC power after transformer
      and house load on the export register when it flows out and on the import register
      when it flows in, never on both. */
  lemma RegistersMove(m: SimpleGrid, s: Substation, acW: real, auxW: real, now: int)
    ensures var next := SubstationTick(m, s, acW, auxW, TICK, now);
      && (s.breaker == Open ==>
            next.poiW == 0.0 && next.exportWh == s.exportWh && next.importWh == s.importWh
            && next.stationServiceWh == s.stationServiceWh + Wh(auxW, TICK))
      && (s.breaker == Closed ==>
            next.poiW == acW - next.transformerLossW - auxW && next.stationServiceWh == s.stationServiceWh
            && next.exportWh == s.exportWh + Max(Wh(next.poiW, TICK), 0.0)
            && next.importWh == s.importWh + Max(-Wh(next.poiW, TICK), 0.0))
  {
    hide Wh, Observe;
  }

  /** The open fiscal period began at the last quarter-hour passed, once one has been, on every
      run. */
  lemma {:induction false} RunPeriodStart(pl: Plant, s: Site, ops: seq<Op>)
    ensures var end := StateAfter(pl, s, ops);
      end.substation.revenue.periodStartS
      == if end.UnixTimeS() / PERIOD_S == s.UnixTimeS() / PERIOD_S then s.substation.revenue.periodStartS
         else PERIOD_S * (end.UnixTimeS() / PERIOD_S)
    ensures StateAfter(pl, s, ops).UnixTimeS() >= s.UnixTimeS()
  {
    hide Exec;
    if ops != [] {
      RunPeriodStart(pl, s, Init(ops));
      OpPeriodStart(pl, StateAfter(pl, s, Init(ops)), Last(ops));
    }
  }

  lemma OpPeriodStart(pl: Plant, s: Site, op: Op)
    ensures var next := Exec(pl, s, op);
      && next.UnixTimeS() == s.UnixTimeS() + (if op.OpTick? then 1 else 0)
      && next.substation.revenue.periodStartS
         == if op.OpTick? && next.UnixTimeS() % PERIOD_S == 0 then next.UnixTimeS()
            else s.substation.revenue.periodStartS
  {
    hide Tick, Dispatch, SameCharge;
    if op.OpTick? {
      TickPeriodStart(pl, s, op.inputs);
    } else if (op.OpApply? || op.OpDirect?) && Dispatch(s, op.action).Ok? {
      DispatchMovesNothing(s, op.action);
      DispatchKeepsClock(s, op.action);
    }
  }

  lemma TickPeriodStart(pl: Plant, s: Site, inputs: Inputs)
    ensures var next := Tick(pl, s, inputs);
      && next.UnixTimeS() == s.UnixTimeS() + 1
      && next.substation.revenue.periodStartS
         == if next.UnixTimeS() % PERIOD_S == 0 then next.UnixTimeS() else s.substation.revenue.periodStartS
  {
    TickMeters(pl, s, inputs);
    TickCounts(pl, s, inputs);
    hide Tick, NextBlocks, AuxTick, EnergyAfter, SumAcW, AuxTotalW, Wh;
  }
}
