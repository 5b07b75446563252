/** The running simulation: the tree, the events of the last tick, and the working
    buffers of the block loop. Every method is proved equal to the functions of the
    tree in `Kernel` and `Commands`; none of those reads a buffer, so what a buffer
    held before a step never shows. */
module Simulations {
  import opened Reals
  import opened Wrappers
  import opened State
  import opened Words
  import opened Log
  import opened Cell
  import opened Bms
  import opened Converter
  import opened Thermal
  import opened Substations
  import opened Plants
  import opened Kernel
  import opened Commands
  import opened CommandLaws
  import opened Causes
  import opened Runs

  // ----- The flat rack index of a block ------------------------------------------------------

  /** The racks of the first k containers in one row. */
  function Flat(cs: seq<Container>, k: nat): (r: seq<Rack>)
    requires k <= |cs|
    ensures |r| == RacksIn(cs, k)
  {
    if k == 0 then [] else Flat(cs, k - 1) + cs[k - 1].racks
  }

  lemma {:induction false} FlatAt(cs: seq<Container>, k: nat, c: nat, r: nat)
    requires c < k <= |cs| && r < |cs[c].racks|
    ensures RacksIn(cs, c) + r < RacksIn(cs, k) && Flat(cs, k)[RacksIn(cs, c) + r] == cs[c].racks[r]
  {
    if c < k - 1 { FlatAt(cs, k - 1, c, r); }
  }

  lemma {:induction false} RacksInMono(cs: seq<Container>, j: nat, k: nat)
    requires j <= k <= |cs|
    ensures RacksIn(cs, j) <= RacksIn(cs, k)
  {
    if j < k { RacksInMono(cs, j, k - 1); }
  }

  /** The first k racks after the BMS step. */
  function BalancedRow(pl: Plant, racks: seq<Rack>, k: nat): (r: seq<Rack>)
    requires k <= |racks|
    ensures |r| == k
  {
    if k == 0 then [] else BalancedRow(pl, racks, k - 1) + [Balanced(pl, racks[k - 1])]
  }

  lemma {:induction false} BalancedRowAt(pl: Plant, racks: seq<Rack>, k: nat, i: nat)
    requires i < k <= |racks|
    ensures BalancedRow(pl, racks, k)[i] == Balanced(pl, racks[i])
  {
    hide Balanced;
    if i < k - 1 { BalancedRowAt(pl, racks, k - 1, i); }
  }

  function BalancedContainer(pl: Plant, c: Container): Container {
    c.(racks := BalancedRow(pl, c.racks, |c.racks|))
  }

  lemma BalancedContainerIs(pl: Plant, c: Container, racks: seq<Rack>)
    requires racks == BalancedRow(pl, c.racks, |c.racks|)
    ensures c.(racks := racks) == BalancedContainer(pl, c)
  {}

  lemma BalancedInService(pl: Plant, rack: Rack)
    ensures Balanced(pl, rack).inService == rack.inService && Balanced(pl, rack).alarms == rack.alarms
  {}

  /** The buffers hold limits and bleed heat of the racks of the first k containers. */
  ghost predicate Filled(pl: Plant, limits: seq<Limits>, heat: seq<real>, cs: seq<Container>, k: nat)
    requires k <= |cs|
  {
    && RacksIn(cs, k) <= |limits| == |heat|
    && forall j :: 0 <= j < RacksIn(cs, k) ==>
      limits[j] == LimitsOf(pl, Flat(cs, k)[j]) && heat[j] == BleedHeatW(pl, Flat(cs, k)[j])
  }

  lemma FilledNone(pl: Plant, limits: seq<Limits>, heat: seq<real>, cs: seq<Container>)
    requires |limits| == |heat|
    ensures Filled(pl, limits, heat, cs, 0)
  {}

  lemma FilledRow(pl: Plant, limits: seq<Limits>, heat: seq<real>, limits': seq<Limits>, heat': seq<real>,
      cs: seq<Container>, c: nat)
    requires c < |cs| && Filled(pl, limits, heat, cs, c)
    requires |limits'| == |heat'| == |limits| && RacksIn(cs, c + 1) <= |limits|
    requires limits'[..RacksIn(cs, c)] == limits[..RacksIn(cs, c)] && heat'[..RacksIn(cs, c)] == heat[..RacksIn(cs, c)]
    requires forall j :: 0 <= j < |cs[c].racks| ==>
      limits'[RacksIn(cs, c) + j] == LimitsOf(pl, cs[c].racks[j])
          && heat'[RacksIn(cs, c) + j] == BleedHeatW(pl, cs[c].racks[j])
    ensures Filled(pl, limits', heat', cs, c + 1)
  {
    hide LimitsOf, BleedHeatW;
    var i := RacksIn(cs, c);
    forall j | 0 <= j < RacksIn(cs, c + 1)
      ensures limits'[j] == LimitsOf(pl, Flat(cs, c + 1)[j]) && heat'[j] == BleedHeatW(pl, Flat(cs, c + 1)[j])
    {
      if j < i {
        assert limits'[..i][j] == limits[..i][j] && heat'[..i][j] == heat[..i][j];
      } else {
        assert Flat(cs, c + 1)[j] == cs[c].racks[j - i];
        assert limits'[i + (j - i)] == LimitsOf(pl, cs[c].racks[j - i]);
      }
    }
  }

  lemma FilledAt(pl: Plant, limits: seq<Limits>, heat: seq<real>, cs: seq<Container>, c: nat)
    requires c < |cs| && Filled(pl, limits, heat, cs, |cs|) && RacksIn(cs, c + 1) <= RacksIn(cs, |cs|)
    ensures forall r :: 0 <= r < |cs[c].racks| ==>
      limits[RacksIn(cs, c) + r] == LimitsOf(pl, cs[c].racks[r])
          && heat[RacksIn(cs, c) + r] == BleedHeatW(pl, cs[c].racks[r])
  {
    hide LimitsOf, BleedHeatW;
    forall r | 0 <= r < |cs[c].racks|
      ensures limits[RacksIn(cs, c) + r] == LimitsOf(pl, cs[c].racks[r])
          && heat[RacksIn(cs, c) + r] == BleedHeatW(pl, cs[c].racks[r])
    {
      FlatAt(cs, |cs|, c, r);
    }
  }

  /** The log reads nothing of a rack but its word. */
  lemma {:induction false} SameWordsSameDiff(b: nat, c: nat, a: seq<Rack>, a': seq<Rack>, next: seq<Rack>, k: nat)
    requires k <= |a| == |a'| == |next| && forall r :: 0 <= r < |a| ==> a[r].alarms == a'[r].alarms
    ensures RacksDiff(b, c, a, next, k) == RacksDiff(b, c, a', next, k)
  {
    hide WordChanges;
    if k > 0 { SameWordsSameDiff(b, c, a, a', next, k - 1); }
  }

  /** One container of pass two is `ContainerTick`, and its events are the changes of its
      rack words since before the tick. */
  lemma ContainerDone(pl: Plant, c: Container, perRack: real, weather: Weather, b: nat, ci: nat, heated: Container,
      done: Container)
    requires heated == StepContainer(pl.thermal, c.(racks := RackRow(pl, c.racks, perRack, |c.racks|)),
                                     HeatRow(pl, c.racks, perRack, |c.racks|), weather, TICK)
    requires done == heated.(racks := Alarmed(pl, heated.racks, |heated.racks|))
    ensures |heated.racks| == |c.racks| && done == ContainerTick(pl, c, perRack, weather)
    ensures RacksDiff(b, ci, heated.racks, done.racks, |c.racks|) == RacksDiff(b, ci, c.racks, done.racks, |c.racks|)
  {
    hide RackStepped, RackHeatW, RacksDiff, StepHvac, EnvelopeGainW, CellsToAirW, Alarmed;
    forall r | 0 <= r < |c.racks|
      ensures heated.racks[r].alarms == c.racks[r].alarms
    {
      RackRowAt(pl, c.racks, perRack, |c.racks|, r);
      SteppedWord(pl, c.racks[r], perRack);
    }
    SameWordsSameDiff(b, ci, heated.racks, c.racks, done.racks, |c.racks|);
    hide RackRow, HeatRow;
  }

  lemma RowTotalsNone(pl: Plant, cs: seq<Container>, next: seq<Container>, perRack: real, b: nat)
    requires SameRacks(cs, next)
    ensures DcW(pl, cs, perRack, 0) == 0.0 && HeatW(pl, cs, perRack, 0) == 0.0 && HvacW(next, 0) == 0.0
    ensures ContainersDiff(b, cs, next, 0) == []
  {}

  lemma RowTotalsStep(pl: Plant, cs: seq<Container>, next: seq<Container>, perRack: real, b: nat, c: nat)
    requires c < |cs| && SameRacks(cs, next)
    ensures |next| == |cs| && |next[c].racks| == |cs[c].racks|
    ensures DcW(pl, cs, perRack, c + 1) == DcW(pl, cs, perRack, c) + RowDcW(pl, cs[c].racks, perRack, |cs[c].racks|)
    ensures HeatW(pl, cs, perRack, c + 1) == HeatW(pl, cs, perRack, c)
        + RowHeatW(pl, cs[c].racks, perRack, |cs[c].racks|)
    ensures HvacW(next, c + 1) == HvacW(next, c) + next[c].hvac.electricalW
    ensures ContainersDiff(b, cs, next, c + 1)
         == ContainersDiff(b, cs, next, c) + RacksDiff(b, c, cs[c].racks, next[c].racks, |cs[c].racks|)
  {
    hide RowDcW, RowHeatW, RacksDiff;
  }

  lemma SteppedWord(pl: Plant, rack: Rack, perRack: real)
    ensures RackStepped(pl, rack, perRack).0.alarms == rack.alarms
  {
    BalancedInService(pl, rack);
    hide Balanced, RequestW, CurrentA, RelaxedV, OcvRackV, SocDrop;
  }

  /** The buffers are long enough for the tree, as its construction from one
      configuration makes them. */
  predicate FitsBlock(cs: seq<Container>, perBlock: nat, perContainer: nat) {
    RacksIn(cs, |cs|) <= perBlock && forall c <- cs :: |c.racks| <= perContainer
  }

  lemma FitsRacks(cs: seq<Container>, perBlock: nat, perContainer: nat)
    requires FitsBlock(cs, perBlock, perContainer)
    ensures RacksIn(cs, |cs|) <= perBlock
  {}

  predicate Fits(blocks: seq<Block>, perBlock: nat, perContainer: nat) {
    forall b <- blocks :: FitsBlock(b.containers, perBlock, perContainer)
  }

  lemma FitsAt(blocks: seq<Block>, perBlock: nat, perContainer: nat, k: nat)
    requires k < |blocks| && Fits(blocks, perBlock, perContainer)
    ensures FitsBlock(blocks[k].containers, perBlock, perContainer)
  {
    hide FitsBlock;
  }

  lemma {:induction false} SameRacksFlat(a: seq<Container>, b: seq<Container>, k: nat)
    requires SameRacks(a, b) && k <= |a|
    ensures RacksIn(a, k) == RacksIn(b, k)
  {
    if k > 0 { SameRacksFlat(a, b, k - 1); }
  }

  lemma ShapeKeepsFits(a: seq<Block>, b: seq<Block>, perBlock: nat, perContainer: nat)
    requires SameShape(a, b) && Fits(a, perBlock, perContainer)
    ensures Fits(b, perBlock, perContainer)
  {
    hide SameRacks, FitsBlock;
    forall x <- b
      ensures FitsBlock(x.containers, perBlock, perContainer)
    {
      var i :| 0 <= i < |b| && b[i] == x;
      RacksKeepFits(a[i].containers, x.containers, perBlock, perContainer);
    }
  }

  lemma RacksKeepFits(a: seq<Container>, b: seq<Container>, perBlock: nat, perContainer: nat)
    requires SameRacks(a, b) && FitsBlock(a, perBlock, perContainer)
    ensures FitsBlock(b, perBlock, perContainer)
  {
    SameRacksFlat(a, b, |a|);
    forall x <- b
      ensures |x.racks| <= perContainer
    {
      var i :| 0 <= i < |b| && b[i] == x;
      assert a[i] in a;
    }
  }

  /** The loss meters after the first k blocks of a tick. */
  function LossesAfter(pl: Plant, s: Site, e: Energy, next: seq<Block>, k: nat): Energy
    requires k <= |s.blocks| && k <= |next|
  {
    e.(batteryLossWh := e.batteryLossWh + Wh(SiteHeatW(pl, s, k), TICK),
        pcsLossWh := e.pcsLossWh + Wh(SumLossW(next, k), TICK))
  }

  /** The other meters after the substation of a tick. */
  function MetersAfter(e: Energy, aux: AuxPower, sub: Substation): Energy {
    e.(transformerLossWh := e.transformerLossWh + Wh(sub.transformerLossW, TICK),
       auxWh := e.auxWh + Wh(sub.auxW, TICK),
       auxItems := Accumulate(e.auxItems, aux, TICK))
  }

  lemma EnergyInTwo(pl: Plant, s: Site, next: seq<Block>, aux: AuxPower, sub: Substation)
    requires |next| == |s.blocks|
    ensures MetersAfter(LossesAfter(pl, s, s.energy, next, |s.blocks|), aux, sub) == EnergyAfter(pl, s, next, aux, sub)
  {
    hide Wh, SiteHeatW, SumLossW, Accumulate;
  }

  lemma TotalsNone(pl: Plant, s: Site, next: seq<Block>)
    requires SameShape(s.blocks, next)
    ensures SumAcW(next, 0) == 0.0 && SumHvacW(next, 0) == 0.0 && SiteCapabilityW(pl, s, 0) == Limits(0.0, 0.0)
    ensures BlocksDiff(s.blocks, next, 0) == []
  {}

  /** The running totals of the block loop take up one more block. */
  lemma TotalsStep(pl: Plant, s: Site, next: seq<Block>, weather: Weather, k: nat, outcome: Outcome)
    requires k < |s.blocks| && SameShape(s.blocks, next) && SameRacks(s.blocks[k].containers, next[k].containers)
    requires outcome == BlockOutcome(pl, s.blocks[k], InSet(pl, s, k), SiteShareW(pl, s), weather)
    requires next[k] == BlockTick(pl, s.blocks[k], InSet(pl, s, k), SiteShareW(pl, s), weather)
    ensures SumAcW(next, k + 1) == SumAcW(next, k) + outcome.acW
        && SumHvacW(next, k + 1) == SumHvacW(next, k) + outcome.hvacW
    ensures SiteCapabilityW(pl, s, k + 1) == AddLimits(SiteCapabilityW(pl, s, k), outcome.capability)
    ensures BlocksDiff(s.blocks, next, k + 1) == BlocksDiff(s.blocks, next, k) + BlockDiff(k, s.blocks[k], next[k])
  {
    hide BlockTick, BlockDiff, SiteShareW, InSet, HeatW, PerRackW, CapabilityW;
  }

  lemma SubstationKeepsBreaker(m: SimpleGrid, s: Substation, acW: real, auxW: real, now: int)
    ensures SubstationTick(m, s, acW, auxW, TICK, now).breaker == s.breaker
  {
    hide Observe, Wh;
  }

  lemma LossesNone(pl: Plant, s: Site, e: Energy, next: seq<Block>)
    ensures LossesAfter(pl, s, e, next, 0) == e
  {}

  lemma LossesStep(pl: Plant, s: Site, e: Energy, next: seq<Block>, weather: Weather, k: nat, outcome: Outcome)
    requires k < |s.blocks| == |next|
    requires outcome == BlockOutcome(pl, s.blocks[k], InSet(pl, s, k), SiteShareW(pl, s), weather)
    ensures var before := LossesAfter(pl, s, e, next, k);
      LossesAfter(pl, s, e, next, k + 1)
      == before.(batteryLossWh := before.batteryLossWh + Wh(outcome.batteryHeatW, TICK),
                 pcsLossWh := before.pcsLossWh + Wh(next[k].pcs.lossW, TICK))
  {
    WhAdds(SiteHeatW(pl, s, k), outcome.batteryHeatW, TICK);
    WhAdds(SumLossW(next, k), next[k].pcs.lossW, TICK);
    hide Wh, BlockTick, SiteShareW, InSet, HeatW, PerRackW;
  }

  /** What the caller is told: changed or not, or the refusal. */
  function Told(answer: Answer): Result<bool, FaultError> {
    match answer
    case Ok(done) => Ok(done.changed)
    case Err(e) => Err(e)
  }

  lemma TripEventsNone(blocks: seq<Block>)
    ensures TripEvents(blocks, 0) == []
  {}

  lemma TripEventsStep(blocks: seq<Block>, k: nat)
    requires k < |blocks|
    ensures TripEvents(blocks, k + 1) == TripEvents(blocks, k)
      + (if blocks[k].pcs.opState != Fault then [PcsStateChanged(k, blocks[k].pcs.opState, Fault)] else [])
  {
    hide Touches;
  }

  lemma RowNone(pl: Plant, b: nat, c: nat, racks: seq<Rack>)
    ensures RacksDiff(b, c, racks, ResetRacks(racks, |racks|), 0) == [] && RowStill(pl, b, c, racks, 0) == []
  {}

  lemma RowNext(pl: Plant, b: nat, c: nat, racks: seq<Rack>, next: seq<Rack>, r: nat)
    requires r < |racks| == |next|
    ensures RacksDiff(b, c, racks, next, r + 1)
         == RacksDiff(b, c, racks, next, r) + WordChanges(RackNode(b, c, r), racks[r].alarms, next[r].alarms)
    ensures RowStill(pl, b, c, racks, r + 1)
         == RowStill(pl, b, c, racks, r) + Trips(RackNode(b, c, r), Again(pl, racks[r]), 8)
  {
    hide WordChanges, Touches, Trips, Again;
  }

  class Simulation {
    const plant: Plant
    var state: Site
    var events: seq<Event>
    const rackLimits: array<Limits>
    const bmsHeat: array<real>
    const rackHeat: array<real>

    predicate Buffers() {
      bmsHeat.Length == rackLimits.Length && bmsHeat != rackHeat
    }

    predicate Valid()
      reads this
    {
      Buffers() && Fits(state.blocks, rackLimits.Length, rackHeat.Length)
    }

    /** Resume from a tree: the buffers start at zero, the event row empty. */
    constructor (plant: Plant, site: Site, racksPerBlock: nat, racksPerContainer: nat)
      requires Fits(site.blocks, racksPerBlock, racksPerContainer)
      ensures Valid() && this.plant == plant && state == site && events == []
      ensures fresh(rackLimits) && fresh(bmsHeat) && fresh(rackHeat)
    {
      this.plant := plant;
      state := site;
      events := [];
      rackLimits := new Limits[racksPerBlock](i => Limits(0.0, 0.0));
      bmsHeat := new real[racksPerBlock](i => 0.0);
      rackHeat := new real[racksPerContainer](i => 0.0);
    }

    /** Pass one over a row: the BMS step of every rack, its limits and bleed heat into the
        buffers from `i` on. */
    method BalanceRow(racks: seq<Rack>, i: nat) returns (next: seq<Rack>, limits: Limits, inService: nat)
      requires Buffers() && i + |racks| <= rackLimits.Length
      modifies rackLimits, bmsHeat
      ensures next == BalancedRow(plant, racks, |racks|)
      ensures limits == RowLimits(plant, racks, |racks|) && inService == RowInService(racks, |racks|)
      ensures rackLimits[..i] == old(rackLimits[..i]) && bmsHeat[..i] == old(bmsHeat[..i])
      ensures forall j :: 0 <= j < |racks| ==>
        rackLimits[i + j] == LimitsOf(plant, racks[j]) && bmsHeat[i + j] == BleedHeatW(plant, racks[j])
    {
      hide Balance, RackLimits;
      next, limits, inService := racks, Limits(0.0, 0.0), 0;
      for r := 0 to |racks|
        invariant |next| == |racks| && next[..r] == BalancedRow(plant, racks, r) && next[r..] == racks[r..]
        invariant limits == RowLimits(plant, racks, r) && inService == RowInService(racks, r)
        invariant rackLimits[..i] == old(rackLimits[..i]) && bmsHeat[..i] == old(bmsHeat[..i])
        invariant forall j :: 0 <= j < r ==>
          rackLimits[i + j] == LimitsOf(plant, racks[j]) && bmsHeat[i + j] == BleedHeatW(plant, racks[j])
      {
        assert next[r] == next[r..][0] == racks[r];
        var rack, bledWh := BalanceInPlace(plant.bms.balancing, plant.cell.curve, next[r], plant.rackCfg, TICK);
        ghost var rest := next[r + 1..];
        next := next[r := rack];
        assert next[r + 1..] == rest == racks[r..][1..];
        bmsHeat[i + r] := BleedW(bledWh, TICK);
        var lim := RackLimits(plant.bms, rack, plant.rackCfg);
        rackLimits[i + r] := lim;
        limits := AddLimits(limits, lim);
        BalancedInService(plant, racks[r]);
        inService := inService + (if rack.inService then 1 else 0);
      }
    }

    /** Pass one over a block. */
    method BalanceBlock(cs: seq<Container>) returns (next: seq<Container>, limits: Limits, inService: nat)
      requires Buffers() && RacksIn(cs, |cs|) <= rackLimits.Length
      modifies rackLimits, bmsHeat
      ensures |next| == |cs| && forall c :: 0 <= c < |cs| ==> next[c] == BalancedContainer(plant, cs[c])
      ensures limits == DcLimits(plant, cs, |cs|) && inService == InServiceCount(cs, |cs|)
      ensures Filled(plant, rackLimits[..], bmsHeat[..], cs, |cs|)
    {
      hide BalancedContainer, LimitsOf, BleedHeatW, RowLimits, RowInService, Filled, BalancedRow;
      FilledNone(plant, rackLimits[..], bmsHeat[..], cs);
      next, limits, inService := cs, Limits(0.0, 0.0), 0;
      var i := 0;
      for c := 0 to |cs|
        invariant |next| == |cs| && forall k :: 0 <= k < |cs| ==>
            next[k] == (if k < c then BalancedContainer(plant, cs[k]) else cs[k])
        invariant limits == DcLimits(plant, cs, c) && inService == InServiceCount(cs, c)
        invariant i == RacksIn(cs, c) && Filled(plant, rackLimits[..], bmsHeat[..], cs, c)
      {
        RacksInMono(cs, c + 1, |cs|);
        ghost var limitsBefore, heatBefore := rackLimits[..], bmsHeat[..];
        var racks, more, n := BalanceRow(next[c].racks, i);
        FilledRow(plant, limitsBefore, heatBefore, rackLimits[..], bmsHeat[..], cs, c);
        next := next[c := next[c].(racks := racks)];
        BalancedContainerIs(plant, cs[c], racks);
        limits, inService, i := AddLimits(limits, more), inService + n, i + |racks|;
      }
    }

    /** Pass two over a row: every rack steps on its share inside the limits of pass one;
        its heat, with the bleed, goes into the container's buffer. */
    method StepRow(ready: seq<Rack>, ghost racks: seq<Rack>, perRack: real, i: nat)
      returns (next: seq<Rack>, dcW: real, heatW: real)
      requires Buffers()
      requires i + |racks| <= rackLimits.Length && |racks| <= rackHeat.Length
      requires ready == BalancedRow(plant, racks, |racks|)
      requires forall j :: 0 <= j < |racks| ==>
        rackLimits[i + j] == LimitsOf(plant, racks[j]) && bmsHeat[i + j] == BleedHeatW(plant, racks[j])
      modifies rackHeat
      ensures next == RackRow(plant, racks, perRack, |racks|)
          && rackHeat[..|racks|] == HeatRow(plant, racks, perRack, |racks|)
      ensures dcW == RowDcW(plant, racks, perRack, |racks|) && heatW == RowHeatW(plant, racks, perRack, |racks|)
    {
      hide Balanced, LimitsOf, BleedHeatW, StepRack, RackRow, HeatRow, BalancedRow;
      next, dcW, heatW := ready, 0.0, 0.0;
      ghost var target, heats := RackRow(plant, racks, perRack, |racks|), HeatRow(plant, racks, perRack, |racks|);
      for r := 0 to |ready|
        invariant |next| == |ready| && forall k :: 0 <= k < |next| ==>
            next[k] == (if k < r then target[k] else ready[k])
        invariant forall k :: 0 <= k < r ==> rackHeat[k] == heats[k]
        invariant dcW == RowDcW(plant, racks, perRack, r) && heatW == RowHeatW(plant, racks, perRack, r)
      {
        BalancedRowAt(plant, racks, |racks|, r);
        BalancedInService(plant, racks[r]);
        RackRowAt(plant, racks, perRack, |racks|, r);
        HeatRowAt(plant, racks, perRack, |racks|, r);
        var lim, bleed := rackLimits[i + r], bmsHeat[i + r];
        var request := if next[r].inService then Clamp(perRack, -lim.chargeW, lim.dischargeW) else 0.0;
        var rack, res := StepRackInPlace(plant.cell, next[r], plant.rackCfg, request, TICK);
        next := next[r := rack];
        dcW := dcW + res.dcW;
        rackHeat[r] := res.heatW + bleed;
        heatW := heatW + (res.heatW + bleed);
      }
      assert next == target;
    }

    /** The alarm words of a stepped container's racks, and an event for each bit that
        moved. */
    method EvaluateRacks(c: Container, b: nat, ci: nat) returns (next: Container)
      modifies this`events
      ensures next == c.(racks := Alarmed(plant, c.racks, |c.racks|))
      ensures events == old(events) + RacksDiff(b, ci, c.racks, next.racks, |c.racks|)
    {
      hide RackAlarms, WordChanges, Alarmed;
      var racks := c.racks;
      ghost var target := Alarmed(plant, c.racks, |c.racks|);
      for r := 0 to |racks|
        invariant |racks| == |c.racks| && forall k :: 0 <= k < |racks| ==>
            racks[k] == (if k < r then target[k] else c.racks[k])
        invariant events == old(events) + RacksDiff(b, ci, c.racks, target, r)
      {
        AlarmedAt(plant, c.racks, |c.racks|, r);
        var word := EvaluateRackAlarms(plant.bms, racks[r], plant.rackCfg);
        events := PushChanges(events, RackNode(b, ci, r), racks[r].alarms, word);
        racks := racks[r := racks[r].(alarms := word)];
      }
      assert racks == target;
      next := c.(racks := racks);
    }

    /** One container of pass two: racks, heat, rack words. */
    method StepOneContainer(ready: Container, ghost c: Container, perRack: real, weather: Weather, b: nat, ci: nat,
        i: nat)
      returns (done: Container, dcW: real, heatW: real)
      requires Buffers()
      requires i + |c.racks| <= rackLimits.Length && |c.racks| <= rackHeat.Length
      requires ready == BalancedContainer(plant, c)
      requires forall j :: 0 <= j < |c.racks| ==>
        rackLimits[i + j] == LimitsOf(plant, c.racks[j]) && bmsHeat[i + j] == BleedHeatW(plant, c.racks[j])
      modifies rackHeat, this`events
      ensures done == ContainerTick(plant, c, perRack, weather) && |done.racks| == |c.racks|
      ensures dcW == RowDcW(plant, c.racks, perRack, |c.racks|) && heatW == RowHeatW(plant, c.racks, perRack, |c.racks|)
      ensures events == old(events) + RacksDiff(b, ci, c.racks, done.racks, |c.racks|)
    {
      hide LimitsOf, BleedHeatW, StepContainer, RowDcW, RowHeatW, RacksDiff, BalancedRow, RackRow, HeatRow,
        Alarmed, ContainerTick;
      var racks, dc, heat := StepRow(ready.racks, c.racks, perRack, i);
      var heated := StepContainerInPlace(plant.thermal, ready.(racks := racks), rackHeat[..|racks|], weather, TICK);
      done := EvaluateRacks(heated, b, ci);
      dcW, heatW := dc, heat;
      ContainerDone(plant, c, perRack, weather, b, ci, heated, done);
    }

    /** Pass two over a block: racks, heat, rack words, container by container. */
    method StepContainers(ready: seq<Container>, ghost cs: seq<Container>, perRack: real, weather: Weather, b: nat)
      returns (next: seq<Container>, dcW: real, heatW: real, hvacW: real)
      requires Buffers() && FitsBlock(cs, rackLimits.Length, rackHeat.Length)
      requires |ready| == |cs| && forall c :: 0 <= c < |cs| ==> ready[c] == BalancedContainer(plant, cs[c])
      requires Filled(plant, rackLimits[..], bmsHeat[..], cs, |cs|)
      modifies rackHeat, this`events
      ensures next == ContainersTick(plant, cs, perRack, weather, |cs|) && SameRacks(cs, next)
      ensures dcW == DcW(plant, cs, perRack, |cs|) && heatW == HeatW(plant, cs, perRack, |cs|)
          && hvacW == HvacW(next, |next|)
      ensures events == old(events) + ContainersDiff(b, cs, next, |cs|)
    {
      hide LimitsOf, BleedHeatW, ContainerTick, RowDcW, RowHeatW, RacksDiff, BalancedContainer, Filled, Fits,
        ContainersTick, DcW, HeatW, HvacW, ContainersDiff, SameRacks;
      next, dcW, heatW, hvacW := ready, 0.0, 0.0, 0.0;
      ghost var target := ContainersTick(plant, cs, perRack, weather, |cs|);
      ContainersTickShape(plant, cs, perRack, weather);
      RowTotalsNone(plant, cs, target, perRack, b);
      var i := 0;
      for c := 0 to |ready|
        invariant |next| == |ready| && forall k :: 0 <= k < |cs| ==> next[k] == (if k < c then target[k] else ready[k])
        invariant dcW == DcW(plant, cs, perRack, c) && heatW == HeatW(plant, cs, perRack, c)
            && hvacW == HvacW(target, c)
        invariant i == RacksIn(cs, c)
        invariant events == old(events) + ContainersDiff(b, cs, target, c)
      {
        RacksInMono(cs, c + 1, |cs|);
        FilledAt(plant, rackLimits[..], bmsHeat[..], cs, c);
        var done, dc, heat := StepOneContainer(next[c], cs[c], perRack, weather, b, c, i);
        ContainersTickAt(plant, cs, perRack, weather, |cs|, c);
        RowTotalsStep(plant, cs, target, perRack, b, c);
        next := next[c := done];
        i, dcW, heatW, hvacW := i + |done.racks|, dcW + dc, heatW + heat, hvacW + done.hvac.electricalW;
      }
      assert next == target;
    }

    /** Step one power block. Events go out racks first, then the converter transition,
        then the block. */
    method StepBlock(block: Block, b: nat, inSet: bool, share: real, weather: Weather)
      returns (next: Block, outcome: Outcome)
      requires Buffers() && FitsBlock(block.containers, rackLimits.Length, rackHeat.Length)
      modifies rackLimits, bmsHeat, rackHeat, this`events
      ensures next == BlockTick(plant, block, inSet, share, weather) && SameRacks(block.containers, next.containers)
      ensures outcome == BlockOutcome(plant, block, inSet, share, weather)
      ensures events == old(events) + BlockDiff(b, block, next)
    {
      hide BalancedContainer, Filled, Fits, FitsBlock, ContainersTick, DcLimits, InServiceCount, DcW, HeatW,
        ContainersDiff, MissS, BlockWord, Finalize, DcRequestW, AcCapability, HvacW, SameRacks;
      FitsRacks(block.containers, rackLimits.Length, rackHeat.Length);
      var ready, limits, inService := BalanceBlock(block.containers);
      var capability := if inSet then AcCapability(plant.pcs, limits) else Limits(0.0, 0.0);
      var target := if inSet then share else 0.0;
      var pcs := block.pcs.(setpointW := target);
      var request := DcRequestW(plant.pcs, target, limits);
      var perRack := if inService == 0 then 0.0 else request / inService as real;
      var containers, dcW, heatW, hvacW := StepContainers(ready, block.containers, perRack, weather, b);
      var before := pcs.opState;
      var acW;
      pcs, acW := FinalizeInPlace(plant.pcs, pcs, dcW);
      if pcs.opState != before {
        events := events + [PcsStateChanged(b, before, pcs.opState)];
      }
      next := block.(containers := containers, pcs := pcs);
      var word, missS := BlockWord(plant, next), MissS(plant, next);
      events := PushChanges(events, BlockNode(b), block.alarms, word);
      next := next.(alarms := word, setpointMissS := missS);
      outcome := Outcome(acW, hvacW, heatW, capability);
    }

    /** The block loop of a tick that began at `s`. */
    method StepBlocks(ghost s: Site, share: real, connected: bool, weather: Weather)
      returns (acW: real, hvacW: real, available: Limits)
      requires Valid() && state.blocks == s.blocks && state.ems == EmsTick(plant, s)
      requires share == SiteShareW(plant, s) && connected == Connected(s)
      modifies rackLimits, bmsHeat, rackHeat, this`events, this`state
      ensures var n, next := |s.blocks|, NextBlocks(plant, s, weather, |s.blocks|);
        && state == old(state).(blocks := next, energy := LossesAfter(plant, s, old(state.energy), next, n))
        && acW == SumAcW(next, n) && hvacW == SumHvacW(next, n) && available == SiteCapabilityW(plant, s, n)
        && SameShape(s.blocks, next) && events == old(events) + BlocksDiff(s.blocks, next, n)
    {
      hide Fits, FitsBlock, BlockTick, BlockDiff, SiteShareW, CapabilityW, SameRacks, SameShape, EmsTick, HeatW,
        PerRackW, Wh, NextBlocks, HvacW, LossesAfter, SumLossW, SiteHeatW, SumAcW, SumHvacW, SiteCapabilityW,
        BlocksDiff, BlockOutcome;
      acW, hvacW, available := 0.0, 0.0, Limits(0.0, 0.0);
      ghost var target := NextBlocks(plant, s, weather, |s.blocks|);
      TickKeepsShape(plant, s, weather);
      LossesNone(plant, s, state.energy, target);
      TotalsNone(plant, s, target);
      for k := 0 to |state.blocks|
        invariant |state.blocks| == |s.blocks|
        invariant state == old(state).(blocks := state.blocks,
            energy := LossesAfter(plant, s, old(state.energy), target, k))
        invariant forall j :: 0 <= j < |s.blocks| ==> state.blocks[j] == (if j < k then target[j] else s.blocks[j])
        invariant acW == SumAcW(target, k) && hvacW == SumHvacW(target, k) && available == SiteCapabilityW(plant, s, k)
        invariant events == old(events) + BlocksDiff(s.blocks, target, k)
      {
        FitsAt(s.blocks, rackLimits.Length, rackHeat.Length, k);
        var block := state.blocks[k];
        var inSet := Dispatchable(block, k, state.ems, connected);
        var next, outcome := StepBlock(block, k, inSet, share, weather);
        NextBlocksAt(plant, s, weather, |s.blocks|, k);
        LossesStep(plant, s, old(state.energy), target, weather, k, outcome);
        TotalsStep(plant, s, target, weather, k, outcome);
        state := state.(blocks := state.blocks[k := next],
                        energy := state.energy.(batteryLossWh := state.energy.batteryLossWh
                            + Wh(outcome.batteryHeatW, TICK),
                                                pcsLossWh := state.energy.pcsLossWh + Wh(next.pcs.lossW, TICK)));
        acW, hvacW := acW + outcome.acW, hvacW + outcome.hvacW;
        available := AddLimits(available, outcome.capability);
      }
      assert state.blocks == target;
    }

    /** Advance the return by one tick of a connected site. */
    method ReleaseNext()
      modifies this`state
      ensures state == old(state).(ems := Release(old(state.ems), |old(state.blocks)|, plant.spacingS, TICK))
    {
      var blocks := |state.blocks|;
      assert state == state.(ems := state.ems);
      if blocks <= state.ems.blocksReleased { return; }
      if state.ems.nextReleaseS <= 0.0 {
        state := state.(ems := state.ems.(blocksReleased := state.ems.blocksReleased + 1,
            nextReleaseS := plant.spacingS));
      }
      if state.ems.blocksReleased < blocks {
        state := state.(ems := state.ems.(nextReleaseS := state.ems.nextReleaseS - TICK));
      } else {
        state := state.(ems := state.ems.(nextReleaseS := 0.0));
      }
    }

    /** End of tick: the site word, then every event handed out counted into the log. */
    method CloseTickAlarms()
      modifies this`state, this`events
      ensures var word := SiteWord(plant, old(state.alarms), old(state.blocks), old(state.ems),
          old(state.substation.breaker));
        && events == old(events) + WordChanges(SiteNode, old(state.alarms), word)
        && state == old(state).(alarms := word, eventCount := old(state.eventCount) + |events|)
    {
      hide SiteWord, WordChanges;
      var word := SiteWord(plant, state.alarms, state.blocks, state.ems, state.substation.breaker);
      events := PushChanges(events, SiteNode, state.alarms, word);
      state := state.(alarms := word);
      for i := 0 to |events|
        invariant state == old(state).(alarms := word, eventCount := old(state.eventCount) + i)
        invariant events == old(events) + WordChanges(SiteNode, old(state.alarms), word)
      {
        state := state.(eventCount := state.eventCount + 1);
      }
    }

    /** Advance the plant by one tick. The row handed out is what was pending, then what
        the tick changed. */
    method Step(inputs: Inputs)
      requires Valid()
      modifies this`state, this`events, rackLimits, bmsHeat, rackHeat
      ensures Valid()
      ensures state == Tick(plant, old(state), inputs)
      ensures events == Emitted(plant, old(state), inputs)
    {
      hide Fits, NextBlocks, SumAcW, SumHvacW, SiteCapabilityW, Release, Clamp, ShareW, SubstationTick, Accumulate,
        LossesAfter, SiteWord, BlocksDiff, WordChanges, SameShape, AuxTick, EnergyAfter;
      ghost var s := state;
      events := state.pending;
      state := state.(pending := [], weather := inputs.weather);

      var connected := state.substation.breaker == Closed;
      var raw := if !connected then 0.0 else
        match state.ems.mode
        case External => state.ems.externalSetpointW
        case FollowPlan => plant.plan(state.UnixTimeS());
      var rated: real := plant.siteRatedW;
      var target := Clamp(raw, -rated, rated);
      state := state.(ems := state.ems.(siteSetpointW := target));
      if connected { ReleaseNext(); }
      var share := ShareW(state.blocks, state.ems, connected, target);
      assert state.ems == EmsTick(plant, s);

      var acW, hvacW, available := StepBlocks(s, share, connected, inputs.weather);
      ghost var blocks := state.blocks;
      state := state.(ems := state.ems.(availableDischargeW := available.dischargeW,
          availableChargeW := available.chargeW));
      assert state.ems == EmsAfter(plant, s);

      StepSite(acW, hvacW);
      ShapeKeepsFits(s.blocks, blocks, rackLimits.Length, rackHeat.Length);
      EnergyInTwo(plant, s, blocks, state.aux, state.substation);
      assert state.energy == EnergyAfter(plant, s, blocks, state.aux, state.substation);
      SubstationKeepsBreaker(plant.grid, s.substation, acW, AuxTotalW(state.aux), s.UnixTimeS() + 1);
      CloseTickAlarms();
      assert events == Emitted(plant, s, inputs);
      state := state.(tick := state.tick + 1);
    }

    /** Auxiliaries, substation and meters of a tick, from its AC power and HVAC draw. */
    method StepSite(acW: real, hvacW: real)
      requires hvacW == SumHvacW(state.blocks, |state.blocks|)
      modifies this`state
      ensures var aux := AuxTick(plant, old(state.blocks));
        var sub := SubstationTick(plant.grid, old(state.substation), acW, AuxTotalW(aux), TICK,
            old(state).UnixTimeS() + 1);
        state == old(state).(aux := aux, substation := sub, energy := MetersAfter(old(state.energy), aux, sub))
    {
      hide SumHvacW, RackCount, NotConverting, StepGrid, Observe, Accumulate;
      var aux := AuxPower(hvacW, plant.aux.bmsPerRackW * RackCount(state.blocks, |state.blocks|) as real,
                          plant.aux.pcsStandbyW * NotConverting(state.blocks, |state.blocks|) as real,
                          plant.aux.controlsW, plant.aux.lightingAndSafetyW);
      state := state.(aux := aux);
      state := state.(energy := state.energy.(auxItems := Accumulate(state.energy.auxItems, aux, TICK)));
      var substation := StepGridInPlace(plant.grid, state.substation, acW, AuxTotalW(aux), TICK);
      state := state.(substation := substation);
      var tickEnd := state.UnixTimeS() + 1;
      var revenue := ObserveInPlace(state.substation.revenue, state.substation.poiW, TICK, tickEnd);
      state := state.(substation := state.substation.(revenue := revenue));
      state := state.(energy := state.energy.(
        transformerLossWh := state.energy.transformerLossWh + Wh(state.substation.transformerLossW, TICK),
        auxWh := state.energy.auxWh + Wh(state.substation.auxW, TICK)));
      assert aux == AuxTick(plant, old(state.blocks));
      assert state.substation == SubstationTick(plant.grid, old(state.substation), acW, AuxTotalW(aux), TICK,
          old(state).UnixTimeS() + 1);
      assert state.energy == MetersAfter(old(state.energy), aux, state.substation);
    }

    // ----- Between ticks -------------------------------------------------------------------

    /** Write or clear the external setpoint. */
    method SetExternalSetpoint(setpoint: Option<real>)
      modifies this`state
      ensures state == Exec(plant, old(state), OpSetpoint(setpoint))
    {
      match setpoint
      case Some(w) => state := state.(ems := state.ems.(mode := External, externalSetpointW := w));
      case None => state := state.(ems := state.ems.(mode := FollowPlan, externalSetpointW := 0.0));
    }

    method SetHvacFailed(b: nat, c: nat, failed: bool) returns (r: Result<(), FaultError>)
      modifies this`state
      ensures state == Answered(old(state), Commands.SetHvacFailed(old(state), b, c, failed))
      ensures r.Ok? <==> HasContainer(old(state), b, c)
      ensures r.Err? ==> r.error == NoSuchContainer(b, c)
    {
      if !HasContainer(state, b, c) { return Err(NoSuchContainer(b, c)); }
      var container := state.blocks[b].containers[c];
      state := WithContainer(state, b, c, container.(hvac := container.hvac.(failed := failed)));
      assert state.pending + [] == state.pending;
      return Ok(());
    }

    method SetRackInService(b: nat, c: nat, rack: nat, inService: bool) returns (r: Result<(), FaultError>)
      modifies this`state
      ensures state == Answered(old(state), Commands.SetRackInService(old(state), b, c, rack, inService))
      ensures r.Ok? <==> HasRack(old(state).blocks, b, c, rack)
      ensures r.Err? ==> r.error == NoSuchNode(RackNode(b, c, rack))
    {
      if !HasRack(state.blocks, b, c, rack) { return Err(NoSuchNode(RackNode(b, c, rack))); }
      state := WithRack(state, b, c, rack, RackAt(state, b, c, rack).(inService := inService));
      assert state.pending + [] == state.pending;
      return Ok(());
    }

    method SetBlockMode(b: nat, mode: BlockMode) returns (r: Result<(), FaultError>)
      modifies this`state
      ensures state == Answered(old(state), Commands.SetBlockMode(old(state), b, mode))
      ensures r.Ok? <==> b < |old(state).blocks|
      ensures r.Err? ==> r.error == NoSuchNode(BlockNode(b))
    {
      if |state.blocks| <= b { return Err(NoSuchNode(BlockNode(b))); }
      state := WithBlock(state, b, state.blocks[b].(mode := mode));
      assert state.pending + [] == state.pending;
      return Ok(());
    }

    /** Trip one block's converter; `false` when it was already in fault. */
    method TripPcs(b: nat) returns (r: Result<bool, FaultError>)
      modifies this`state
      ensures state == Answered(old(state), Commands.TripPcs(old(state), b))
      ensures r == Told(Commands.TripPcs(old(state), b))
    {
      if |state.blocks| <= b { return Err(NoSuchNode(BlockNode(b))); }
      var from := state.blocks[b].pcs.opState;
      assert state.pending + [] == state.pending;
      if from == Fault { return Ok(false); }
      state := WithBlock(state, b, Tripped(state.blocks[b]));
      state := state.(pending := state.pending + [PcsStateChanged(b, from, Fault)]);
      return Ok(true);
    }

    /** Drop every converter to fault, leaving each transition pending. */
    method DropAllPcs()
      modifies this`state
      ensures var s := old(state);
        state == s.(blocks := AllTripped(s.blocks, |s.blocks|), pending := s.pending + TripEvents(s.blocks, |s.blocks|))
    {
      hide TripEvents, Touches;
      ghost var s := state;
      TripEventsNone(s.blocks);
      for k := 0 to |state.blocks|
        invariant |state.blocks| == |s.blocks|
        invariant forall j :: 0 <= j < |s.blocks| ==>
            state.blocks[j] == (if j < k then Tripped(s.blocks[j]) else s.blocks[j])
        invariant state == s.(blocks := state.blocks, pending := s.pending + TripEvents(s.blocks, k))
      {
        TripEventsStep(s.blocks, k);
        var from := state.blocks[k].pcs.opState;
        if from != Fault {
          state := state.(blocks := state.blocks[k := Tripped(state.blocks[k])],
                          pending := state.pending + [PcsStateChanged(k, from, Fault)]);
        } else {
          assert Tripped(s.blocks[k]) == s.blocks[k];
        }
      }
      assert state.blocks == AllTripped(s.blocks, |s.blocks|);
    }

    /** Protection trips the site; `false`, changing nothing, on a site already tripped. */
    method TripProtection() returns (changed: bool)
      modifies this`state
      ensures state == Answered(old(state), Ok(Commands.TripProtection(old(state))))
      ensures changed == Commands.TripProtection(old(state)).changed
    {
      assert state.pending + [] == state.pending;
      if PROTECTION_TRIP in state.alarms { return false; }
      hide TripEvents, AllTripped;
      state := state.(alarms := WithBit(state.alarms, PROTECTION_TRIP, true));
      state := state.(pending := state.pending + [AlarmRaised(SiteNode, PROTECTION_TRIP, SeverityOf(PROTECTION_TRIP))]);
      state := state.(substation := state.substation.(breaker := Open));
      state := state.(ems := StartOver(state.ems));
      DropAllPcs();
      return true;
    }

    /** The causes of a row that would raise again, bit by bit. */
    method TripsAgain(node: Node, again: Word, before: seq<Cause>) returns (still: seq<Cause>)
      ensures still == before + Trips(node, again, 8)
    {
      still := before;
      for bit := 8 to 16
        invariant still == before + Trips(node, again, bit - 8)
      {
        if bit in again { still := still + [(node, bit)]; }
      }
    }

    /** Clear one container's latched rack bits, adding the clears to `before` and what
        would raise again to `found`. */
    method ResetRacksOf(b: nat, c: nat, before: seq<Event>, found: seq<Cause>)
      returns (events: seq<Event>, still: seq<Cause>)
      requires HasContainer(state, b, c)
      modifies this`state
      ensures HasContainer(old(state), b, c)
      ensures var container := old(state).blocks[b].containers[c];
        && state == WithContainer(old(state), b, c, ResetContainer(container))
        && events == before + RacksDiff(b, c, container.racks, ResetContainer(container).racks, |container.racks|)
        && still == found + RowStill(plant, b, c, container.racks, |container.racks|)
    {
      hide WordChanges, ClearTrips, RackAlarms, Trips, RacksDiff, RowStill;
      RowNone(plant, b, c, state.blocks[b].containers[c].racks);
      var container, racks := state.blocks[b].containers[c], state.blocks[b].containers[c].racks;
      ghost var target := ResetContainer(container).racks;
      events, still := before, found;
      for r := 0 to |racks|
        invariant state == old(state) && |racks| == |container.racks|
        invariant forall k :: 0 <= k < |racks| ==> racks[k] == (if k < r then target[k] else container.racks[k])
        invariant events == before + RacksDiff(b, c, container.racks, target, r)
        invariant still == found + RowStill(plant, b, c, container.racks, r)
      {
        var word := ClearTrips(racks[r].alarms);
        events := PushChanges(events, RackNode(b, c, r), racks[r].alarms, word);
        var again := EvaluateRackAlarms(plant.bms, racks[r].(alarms := word), plant.rackCfg);
        RowNext(plant, b, c, container.racks, target, r);
        still := TripsAgain(RackNode(b, c, r), again * racks[r].alarms, still);
        racks := racks[r := racks[r].(alarms := word)];
      }
      assert racks == target;
      state := WithContainer(state, b, c, container.(racks := racks));
    }

    /** Clear one block's rack bits, container by container. */
    method ResetContainersOf(b: nat, before: seq<Event>, found: seq<Cause>)
      returns (events: seq<Event>, still: seq<Cause>)
      requires b < |state.blocks|
      modifies this`state
      ensures b < |old(state).blocks|
      ensures var block := old(state).blocks[b];
        var next := ResetContainers(block.containers, |block.containers|);
        && SameRacks(block.containers, next)
        && state == WithBlock(old(state), b, block.(containers := next))
        && events == before + ContainersDiff(b, block.containers, next, |block.containers|)
        && still == found + BlockStill(plant, b, block.containers, |block.containers|)
    {
      hide RacksDiff, ResetContainer, ContainersDiff, ResetContainers, RowStill, SameRacks;
      ghost var s := state;
      var cs := state.blocks[b].containers;
      events, still := before, found;
      ghost var target := ResetContainers(cs, |cs|);
      ContainersNone(b, cs);
      for c := 0 to |cs|
        invariant b < |state.blocks| && state == WithBlock(s, b, s.blocks[b].(containers := state.blocks[b].containers))
        invariant |state.blocks[b].containers| == |cs|
        invariant forall k :: 0 <= k < |target| ==>
            state.blocks[b].containers[k] == (if k < c then target[k] else cs[k])
        invariant events == before + ContainersDiff(b, cs, target, c)
        invariant still == found + BlockStill(plant, b, cs, c)
      {
        ContainersNext(b, cs, c);
        events, still := ResetRacksOf(b, c, events, still);
      }
      assert state.blocks[b].containers == target;
    }

    /** Clear one block's latched bits and take its converter out of fault. */
    method ResetOneBlock(b: nat, before: seq<Event>, found: seq<Cause>) returns (events: seq<Event>, still: seq<Cause>)
      requires b < |state.blocks|
      modifies this`state
      ensures b < |old(state).blocks| && state == WithBlock(old(state), b, ResetBlock(old(state).blocks[b]))
      ensures events == before + ResetBlockEvents(b, old(state).blocks[b])
      ensures var cs := old(state).blocks[b].containers; still == found + BlockStill(plant, b, cs, |cs|)
    {
      hide WordChanges, ClearTrips, RacksDiff, ResetContainer, ContainersDiff, ResetContainers, BlockStill, SameRacks;
      var block := state.blocks[b];
      events := before;
      var pcs := block.pcs;
      if pcs.opState == Fault {
        pcs := pcs.(opState := Standby);
        events := events + [PcsStateChanged(b, Fault, Standby)];
      }
      var word := ClearTrips(block.alarms);
      events := PushChanges(events, BlockNode(b), block.alarms, word);
      state := WithBlock(state, b, block.(pcs := pcs, alarms := word));
      events, still := ResetContainersOf(b, events, found);
    }

    /** The operator reset over a scope; hands back the trips whose cause is still
        present. */
    method ResetAlarms(scope: Scope) returns (r: Result<seq<Cause>, FaultError>)
      modifies this`state
      ensures state == Answered(old(state), Commands.ResetAlarms(old(state), scope))
      ensures r.Ok? <==> Commands.ResetAlarms(old(state), scope).Ok?
      ensures r.Ok? ==> r.value == Still(plant, old(state), scope)
      ensures r.Err? ==> r.error == NoSuchScope(scope)
    {
      hide ResetBlock, ResetBlockEvents, WordChanges, ClearTrips, ResetBlocks, ResetBlocksEvents, RackAlarms, Trips,
        BlockStill, SiteStill;
      match scope
      case SiteScope =>
        var events, still := ResetAllBlocks();
        var word := ClearTrips(state.alarms);
        events := PushChanges(events, SiteNode, state.alarms, word);
        state := state.(alarms := word);
        if state.substation.breaker == Open {
          state := state.(substation := state.substation.(breaker := Closed));
          state := state.(ems := StartOver(state.ems));
        }
        state := state.(pending := state.pending + events);
        return Ok(still);
      case BlockScope(b) =>
        if |state.blocks| <= b { return Err(NoSuchScope(scope)); }
        var events, still := ResetOneBlock(b, [], []);
        assert [] + events == events && [] + still == still;
        state := state.(pending := state.pending + events);
        return Ok(still);
      case RackScope(b, c, rack) =>
        if !HasRack(state.blocks, b, c, rack) { return Err(NoSuchScope(scope)); }
        var old_ := RackAt(state, b, c, rack);
        var word := ClearTrips(old_.alarms);
        var events := PushChanges([], RackNode(b, c, rack), old_.alarms, word);
        var again := EvaluateRackAlarms(plant.bms, old_.(alarms := word), plant.rackCfg);
        var still := TripsAgain(RackNode(b, c, rack), again * old_.alarms, []);
        assert [] + events == events && [] + still == still;
        state := WithRack(state, b, c, rack, old_.(alarms := word));
        state := state.(pending := state.pending + events);
        return Ok(still);
    }

    method ResetAllBlocks() returns (events: seq<Event>, still: seq<Cause>)
      modifies this`state
      ensures state == old(state).(blocks := ResetBlocks(old(state).blocks, |old(state).blocks|))
      ensures events == ResetBlocksEvents(old(state).blocks, |old(state).blocks|)
      ensures still == SiteStill(plant, old(state).blocks, |old(state).blocks|)
    {
      hide ResetBlock, ResetBlockEvents, BlockStill;
      ghost var s := state;
      events, still := [], [];
      for k := 0 to |state.blocks|
        invariant |state.blocks| == |s.blocks| && state == s.(blocks := state.blocks)
        invariant forall j :: 0 <= j < |s.blocks| ==>
            state.blocks[j] == (if j < k then ResetBlock(s.blocks[j]) else s.blocks[j])
        invariant events == ResetBlocksEvents(s.blocks, k)
        invariant still == SiteStill(plant, s.blocks, k)
      {
        events, still := ResetOneBlock(k, events, still);
      }
      assert state.blocks == ResetBlocks(s.blocks, |s.blocks|);
    }

    /** Hand an action to its command. */
    method Dispatch(a: FaultAction) returns (r: Result<bool, FaultError>)
      modifies this`state
      ensures state == Commanded(old(state), a) && r == Told(Commands.Dispatch(old(state), a))
      ensures old(state.pending) <= state.pending
    {
      hide ResetBlock, ResetBlockEvents, WordChanges, ClearTrips, ResetBlocks, ResetBlocksEvents, WithRack,
        WithContainer, WithBlock, TripEvents, AllTripped, Still, Commands.SetHvacFailed, Commands.SetRackInService,
        Commands.SetBlockMode, Commands.TripPcs, Commands.SetSelfDischarge, Commands.TripProtection;
      PendingUntouched(state, a);
      match a
      case HvacFailure(b, c) => r := HvacTo(b, c, true);
      case HvacRepair(b, c) => r := HvacTo(b, c, false);
      case PcsTrip(b) => r := TripPcs(b);
      case ProtectionTrip =>
        var changed := TripProtection();
        r := Ok(changed);
      case RackSelfDischarge(b, c, rack, ppm) => r := SelfDischargeTo(b, c, rack, ppm);
      case RackIsolate(b, c, rack) => r := RackTo(b, c, rack, false);
      case RackRestore(b, c, rack) => r := RackTo(b, c, rack, true);
      case BlockMaintenanceEnter(b) => r := ModeTo(b, Maintenance);
      case BlockMaintenanceExit(b) => r := ModeTo(b, InService);
      case AlarmReset(scope) =>
        var before := |state.pending|;
        var done := ResetAlarms(scope);
        r := if done.Err? then Err(done.error) else Ok(|state.pending| > before);
    }

    method HvacTo(b: nat, c: nat, failed: bool) returns (r: Result<bool, FaultError>)
      modifies this`state
      ensures state == Answered(old(state), Commands.SetHvacFailed(old(state), b, c, failed))
      ensures r == Told(Commands.SetHvacFailed(old(state), b, c, failed))
    {
      var was := if HasContainer(state, b, c) then Some(state.blocks[b].containers[c].hvac.failed) else None;
      var done := SetHvacFailed(b, c, failed);
      r := if done.Err? then Err(done.error) else Ok(was != Some(failed));
    }

    method RackTo(b: nat, c: nat, rack: nat, inService: bool) returns (r: Result<bool, FaultError>)
      modifies this`state
      ensures state == Answered(old(state), Commands.SetRackInService(old(state), b, c, rack, inService))
      ensures r == Told(Commands.SetRackInService(old(state), b, c, rack, inService))
    {
      var was := if HasRack(state.blocks, b, c, rack) then Some(RackAt(state, b, c, rack).inService) else None;
      var done := SetRackInService(b, c, rack, inService);
      r := if done.Err? then Err(done.error) else Ok(was != Some(inService));
    }

    method ModeTo(b: nat, mode: BlockMode) returns (r: Result<bool, FaultError>)
      modifies this`state
      ensures state == Answered(old(state), Commands.SetBlockMode(old(state), b, mode))
      ensures r == Told(Commands.SetBlockMode(old(state), b, mode))
    {
      var was := if b < |state.blocks| then Some(state.blocks[b].mode) else None;
      var done := SetBlockMode(b, mode);
      r := if done.Err? then Err(done.error) else Ok(was != Some(mode));
    }

    method SelfDischargeTo(b: nat, c: nat, rack: nat, ppm: nat) returns (r: Result<bool, FaultError>)
      modifies this`state
      ensures state == Answered(old(state), SetSelfDischarge(old(state), b, c, rack, ppm))
      ensures r == Told(SetSelfDischarge(old(state), b, c, rack, ppm))
    {
      if !HasRack(state.blocks, b, c, rack) { return Err(NoSuchNode(RackNode(b, c, rack))); }
      var old_ := RackAt(state, b, c, rack);
      var rate := ppm as real * 0.000001 / DAY_S;
      state := WithRack(state, b, c, rack, old_.(selfDischargeExcess := rate));
      assert state.pending + [] == state.pending;
      r := Ok(old_.selfDischargeExcess != rate);
    }

    /** Apply a fault action between ticks: cause, then effect. A refusal changes nothing
        and leaves no mark. */
    method Apply(a: FaultAction) returns (r: Result<bool, FaultError>)
      modifies this`state
      ensures state == Applied(old(state), a) && r == Told(Commands.Dispatch(old(state), a))
    {
      hide ResetBlock, ResetBlockEvents, Commands.Dispatch;
      var mark := |state.pending|;
      ghost var s := state;
      r := Dispatch(a);
      if r.Ok? {
        ghost var effects := Commands.Dispatch(s, a).value.events;
        assert state.pending[..mark] == s.pending && state.pending[mark..] == effects;
        state := state.(pending := state.pending[..mark] + [FaultApplied(a)] + state.pending[mark..]);
      }
    }
  }
}
