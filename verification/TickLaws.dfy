/** What one tick keeps and what it books: rack by rack, container by container, block
    by block. */
module TickLaws {
  import opened Reals
  import opened State
  import opened Words
  import opened Log
  import opened Ocv
  import opened Cell
  import opened Bms
  import opened Converter
  import opened Thermal
  import opened Substations
  import opened Plants

  /** What the models assume of their parameters; `Gw01.ParametersAreSound` shows the
      reference site meets it. */
  ghost predicate Sound(pl: Plant) {
    && CellSound(pl.cell, pl.rackCfg, TICK)
    && BalancingSound(pl.bms.balancing)
    && PcsSound(pl.pcs)
    && 0.0 <= pl.rackCfg.nominalCellV
  }

  /** The physical invariant of one rack. */
  ghost predicate RackGood(pl: Plant, rack: Rack) {
    RackOk(pl.cell, rack, pl.rackCfg) && SpreadOk(rack)
  }

  ghost predicate RowGood(pl: Plant, racks: seq<Rack>) {
    forall r <- racks :: RackGood(pl, r)
  }

  ghost predicate ContainersGood(pl: Plant, cs: seq<Container>) {
    forall c <- cs :: RowGood(pl, c.racks)
  }

  // ----- The books of one tick -------------------------------------------------------------

  /** Chemical power drawn at the open-circuit voltage, power bled, and how far the stored
      energy may have fallen less than the two say. */
  datatype Book = Book(chemW: real, bleedW: real, gapWh: real)

  function AddBook(a: Book, b: Book): Book {
    Book(a.chemW + b.chemW, a.bleedW + b.bleedW, a.gapWh + b.gapWh)
  }

  const NOTHING := Book(0.0, 0.0, 0.0)

  function RackBook(pl: Plant, rack: Rack, perRack: real): Book {
    var ready := Balanced(pl, rack);
    var next := RackStepped(pl, rack, perRack).0;
    Book(OcvRackV(pl.cell, ready.soc, pl.rackCfg) * next.currentA, BleedHeatW(pl, rack),
         GapWh(pl.cell, ready, next, pl.rackCfg))
  }

  function RowBook(pl: Plant, racks: seq<Rack>, perRack: real, k: nat): Book
    requires k <= |racks|
  {
    if k == 0 then NOTHING else AddBook(RowBook(pl, racks, perRack, k - 1), RackBook(pl, racks[k - 1], perRack))
  }

  function BlockBook(pl: Plant, cs: seq<Container>, perRack: real, k: nat): Book
    requires k <= |cs|
  {
    if k == 0 then NOTHING
    else AddBook(BlockBook(pl, cs, perRack, k - 1), RowBook(pl, cs[k - 1].racks, perRack, |cs[k - 1].racks|))
  }

  function RowStoredWh(pl: Plant, racks: seq<Rack>, k: nat): real
    requires k <= |racks|
  {
    if k == 0 then 0.0 else RowStoredWh(pl, racks, k - 1) + StoredWh(pl.cell, racks[k - 1], pl.rackCfg)
  }

  function StoredIn(pl: Plant, cs: seq<Container>, k: nat): real
    requires k <= |cs|
  {
    if k == 0 then 0.0 else StoredIn(pl, cs, k - 1) + RowStoredWh(pl, cs[k - 1].racks, |cs[k - 1].racks|)
  }

  /** Stored energy fell by what was booked, or by less within the gap. */
  predicate Settles(fallWh: real, book: Book) {
    Wh(book.chemW + book.bleedW, TICK) - book.gapWh <= fallWh <= Wh(book.chemW + book.bleedW, TICK)
  }

  lemma SettlesAdd(f: real, a: Book, g: real, b: Book)
    requires Settles(f, a) && Settles(g, b)
    ensures Settles(f + g, AddBook(a, b))
  {}

  // ----- One rack -----------------------------------------------------------------------------

  lemma BleedIsWh(pl: Plant, rack: Rack)
    ensures Wh(BleedHeatW(pl, rack), TICK) == Balance(pl.bms.balancing, pl.cell.curve, rack, pl.rackCfg, TICK).1
  {
    hide Balance;
  }

  lemma BalancedGood(pl: Plant, rack: Rack)
    requires Sound(pl) && RackGood(pl, rack)
    ensures RackGood(pl, Balanced(pl, rack)) && Balanced(pl, rack).inService == rack.inService
    ensures StoredWh(pl.cell, rack, pl.rackCfg) - StoredWh(pl.cell, Balanced(pl, rack), pl.rackCfg)
         == Wh(BleedHeatW(pl, rack), TICK)
    ensures Balanced(pl, rack).alarms == rack.alarms
  {
    BalanceKeeps(pl.bms.balancing, pl.cell, rack, pl.rackCfg, TICK);
    BleedIsWh(pl, rack);
    hide Balance, StoredWh, LowestOcvV, PolarizationBound, Wh, BleedHeatW;
  }

  lemma RequestToward(pl: Plant, rack: Rack, perRack: real)
    requires Sound(pl)
    ensures Toward(RequestW(pl, rack, perRack), perRack)
  {
    LimitsNonNegative(pl.bms, Balanced(pl, rack), pl.rackCfg);
    hide RackLimits, Balanced;
  }

  /** One rack through one tick: it stays good, it delivers no more than its share in
      either direction, and its books settle against the stored energy. */
  lemma RackTick(pl: Plant, rack: Rack, perRack: real)
    requires Sound(pl) && RackGood(pl, rack)
    ensures var (next, res) := RackStepped(pl, rack, perRack);
      && RackGood(pl, next)
      && next.alarms == rack.alarms && next.inService == rack.inService
      && (rack.inService ==> Toward(res.dcW, perRack)) && (!rack.inService ==> res.dcW == 0.0)
      && res.dcW + RackHeatW(pl, rack, perRack)
         == RackBook(pl, rack, perRack).chemW + RackBook(pl, rack, perRack).bleedW
      && Settles(StoredWh(pl.cell, rack, pl.rackCfg) - StoredWh(pl.cell, next, pl.rackCfg), RackBook(pl, rack, perRack))
  {
    hide Balanced, RequestW, BleedHeatW, StoredWh, GapWh, OcvRackV, StepRack, RackOk;
    var ready, request := Balanced(pl, rack), RequestW(pl, rack, perRack);
    BalancedGood(pl, rack);
    RequestToward(pl, rack, perRack);
    StepRackKeeps(pl.cell, ready, pl.rackCfg, request, TICK);
    StepRackBooks(pl.cell, ready, pl.rackCfg, request, TICK);
    StepKeepsRest(pl, ready, request);
    ChemIsPower(pl, ready, RackStepped(pl, rack, perRack).0.currentA);
    TowardTrans(RackStepped(pl, rack, perRack).1.dcW, request, perRack);
  }

  lemma TowardTrans(x: real, y: real, z: real)
    ensures Toward(x, y) && Toward(y, z) ==> Toward(x, z)
  {}

  lemma StepKeepsRest(pl: Plant, rack: Rack, request: real)
    ensures var next := StepRack(pl.cell, rack, pl.rackCfg, request, TICK).0;
      && next.alarms == rack.alarms && next.inService == rack.inService
      && next.cellDsoc == rack.cellDsoc && next.selfDischargeExcess == rack.selfDischargeExcess
  {
    hide CurrentA, RelaxedV, OcvRackV, SocDrop;
  }

  lemma ChemIsPower(pl: Plant, rack: Rack, i: real)
    ensures ChemWh(pl.cell, rack, pl.rackCfg, i, TICK) == Wh(OcvRackV(pl.cell, rack.soc, pl.rackCfg) * i, TICK)
  {
    hide OcvRackV;
  }

  // ----- A row of racks ---------------------------------------------------------------------------

  /** n equal shares. */
  function Shares(n: nat, per: real): real {
    n as real * per
  }

  lemma SharesStep(n: nat, per: real)
    ensures Shares(n + 1, per) == Shares(n, per) + per && Shares(0, per) == 0.0
  {}

  lemma SharesAdd(n: nat, m: nat, per: real)
    ensures Shares(n + m, per) == Shares(n, per) + Shares(m, per)
  {}

  lemma TowardAdd(x: real, a: real, y: real, b: real, per: real)
    requires Toward(x, a) && Toward(y, b) && (0.0 <= per ==> 0.0 <= a && 0.0 <= b)
        && (per <= 0.0 ==> a <= 0.0 && b <= 0.0)
    ensures Toward(x + y, a + b)
  {}

  lemma SharesSide(n: nat, per: real)
    ensures (0.0 <= per ==> 0.0 <= Shares(n, per)) && (per <= 0.0 ==> Shares(n, per) <= 0.0)
  {
    if 0.0 <= per { MulNonNeg(n as real, per); }
    if per <= 0.0 { MulNonNeg(n as real, -per); }
  }

  lemma {:induction false} RowTick(pl: Plant, racks: seq<Rack>, perRack: real, k: nat)
    requires Sound(pl) && RowGood(pl, racks) && k <= |racks|
    ensures Toward(RowDcW(pl, racks, perRack, k), Shares(RowInService(racks, k), perRack))
    ensures RowDcW(pl, racks, perRack, k) + RowHeatW(pl, racks, perRack, k)
         == RowBook(pl, racks, perRack, k).chemW + RowBook(pl, racks, perRack, k).bleedW
  {
    hide Shares, RackStepped, RackHeatW, RackBook, RackGood;
    SharesStep(0, perRack);
    if k > 0 {
      RowTick(pl, racks, perRack, k - 1);
      var rack := racks[k - 1];
      RackTick(pl, rack, perRack);
      var n := RowInService(racks, k - 1);
      SharesStep(n, perRack);
      SharesSide(n, perRack);
      if rack.inService {
        TowardAdd(RowDcW(pl, racks, perRack, k - 1), Shares(n, perRack), RackStepped(pl, rack, perRack).1.dcW,
            perRack, perRack);
      }
    }
  }

  /** Two racks alike in everything electrical. */
  predicate SameElectrics(a: Rack, b: Rack) {
    a == b.(cellTempC := a.cellTempC, alarms := a.alarms)
  }

  lemma SameElectricsGood(pl: Plant, a: Rack, b: Rack)
    requires SameElectrics(a, b)
    ensures RackGood(pl, a) <==> RackGood(pl, b)
    ensures StoredWh(pl.cell, a, pl.rackCfg) == StoredWh(pl.cell, b, pl.rackCfg)
  {
    hide OcvIntegralV, LowestOcvV, PolarizationBound;
  }

  /** The rack a container tick leaves at i: stepped, then warmed, then its word. */
  lemma ContainerRack(pl: Plant, c: Container, perRack: real, weather: Weather, i: nat)
    requires i < |c.racks|
    ensures |ContainerTick(pl, c, perRack, weather).racks| == |c.racks|
    ensures var last := ContainerTick(pl, c, perRack, weather).racks[i];
      SameElectrics(last, RackStepped(pl, c.racks[i], perRack).0)
      && (WordOk(c.racks[i].alarms) && RackStepped(pl, c.racks[i], perRack).0.alarms == c.racks[i].alarms ==>
          WordOk(last.alarms))
  {
    hide StepHvac, EnvelopeGainW, CellsToAirW, RackStepped, RackHeatW, ToAirW, RackAlarms;
    var row, heat := RackRow(pl, c.racks, perRack, |c.racks|), HeatRow(pl, c.racks, perRack, |c.racks|);
    var heated := StepContainer(pl.thermal, c.(racks := row), heat, weather, TICK);
    RackRowAt(pl, c.racks, perRack, |c.racks|, i);
    AlarmedAt(pl, heated.racks, |heated.racks|, i);
    RackAlarmsLatch(pl.bms, heated.racks[i], pl.rackCfg, 0);
    hide RackRow, HeatRow, Alarmed;
  }

  lemma {:induction false} RowSettles(pl: Plant, racks: seq<Rack>, next: seq<Rack>, perRack: real, k: nat)
    requires Sound(pl) && RowGood(pl, racks) && k <= |racks| == |next|
    requires forall i :: 0 <= i < |racks| ==> SameElectrics(next[i], RackStepped(pl, racks[i], perRack).0)
    ensures Settles(RowStoredWh(pl, racks, k) - RowStoredWh(pl, next, k), RowBook(pl, racks, perRack, k))
  {
    hide RackStepped, RackBook, RackGood, SameElectrics, StoredWh;
    if k > 0 {
      RowSettles(pl, racks, next, perRack, k - 1);
      RackTick(pl, racks[k - 1], perRack);
      SameElectricsGood(pl, next[k - 1], RackStepped(pl, racks[k - 1], perRack).0);
      SettlesAdd(RowStoredWh(pl, racks, k - 1) - RowStoredWh(pl, next, k - 1), RowBook(pl, racks, perRack, k - 1),
                 StoredWh(pl.cell, racks[k - 1], pl.rackCfg) - StoredWh(pl.cell, next[k - 1], pl.rackCfg),
                 RackBook(pl, racks[k - 1], perRack));
      hide Settles;
    }
  }

  // ----- Containers -----------------------------------------------------------------------------

  /** A container tick keeps every rack good and settles the container's books. */
  lemma ContainerSettles(pl: Plant, c: Container, perRack: real, weather: Weather)
    requires Sound(pl) && RowGood(pl, c.racks)
    ensures var next := ContainerTick(pl, c, perRack, weather);
      && |next.racks| == |c.racks| && RowGood(pl, next.racks)
      && Settles(RowStoredWh(pl, c.racks, |c.racks|) - RowStoredWh(pl, next.racks, |c.racks|),
          RowBook(pl, c.racks, perRack, |c.racks|))
  {
    hide ContainerTick, RackStepped, RackGood, SameElectrics;
    var next := ContainerTick(pl, c, perRack, weather);
    if |c.racks| == 0 {
      EmptyContainer(pl, c, perRack, weather);
    } else {
      ContainerRack(pl, c, perRack, weather, 0);
    }
    forall i | 0 <= i < |c.racks|
      ensures SameElectrics(next.racks[i], RackStepped(pl, c.racks[i], perRack).0) && RackGood(pl, next.racks[i])
    {
      ContainerRack(pl, c, perRack, weather, i);
      RackTick(pl, c.racks[i], perRack);
      SameElectricsGood(pl, next.racks[i], RackStepped(pl, c.racks[i], perRack).0);
    }
    RowSettles(pl, c.racks, next.racks, perRack, |c.racks|);
  }

  lemma EmptyContainer(pl: Plant, c: Container, perRack: real, weather: Weather)
    requires c.racks == []
    ensures ContainerTick(pl, c, perRack, weather).racks == []
  {
    hide StepHvac, EnvelopeGainW;
  }

  lemma {:induction false} ContainersSettle(pl: Plant, cs: seq<Container>, perRack: real, weather: Weather, k: nat)
    requires Sound(pl) && ContainersGood(pl, cs) && k <= |cs|
    ensures ContainersGood(pl, ContainersTick(pl, cs, perRack, weather, k))
    ensures SameRacks(cs[..k], ContainersTick(pl, cs, perRack, weather, k))
    ensures Settles(StoredIn(pl, cs, k) - StoredIn(pl, ContainersTick(pl, cs, perRack, weather, k), k),
        BlockBook(pl, cs, perRack, k))
  {
    hide ContainerTick, RowGood, RowBook, RowStoredWh, ContainersGood, SameRacks, Settles, Sound;
    if k == 0 {
      NoContainers(pl, cs);
    } else {
      ContainersSettle(pl, cs, perRack, weather, k - 1);
      ContainerIn(pl, cs, k - 1);
      ContainerSettles(pl, cs[k - 1], perRack, weather);
      var before, last := ContainersTick(pl, cs, perRack, weather, k - 1),
          ContainerTick(pl, cs[k - 1], perRack, weather);
      OneMoreContainer(pl, cs, before, last, k - 1);
      StoredPrefix(pl, before, before + [last], k - 1);
      SettlesAdd(StoredIn(pl, cs, k - 1) - StoredIn(pl, before, k - 1), BlockBook(pl, cs, perRack, k - 1),
                 RowStoredWh(pl, cs[k - 1].racks, |cs[k - 1].racks|) - RowStoredWh(pl, last.racks, |last.racks|),
                 RowBook(pl, cs[k - 1].racks, perRack, |cs[k - 1].racks|));
    }
  }

  lemma NoContainers(pl: Plant, cs: seq<Container>)
    ensures ContainersGood(pl, []) && SameRacks(cs[..0], []) && Settles(0.0, NOTHING)
  {}

  lemma ContainerIn(pl: Plant, cs: seq<Container>, k: nat)
    requires ContainersGood(pl, cs) && k < |cs|
    ensures RowGood(pl, cs[k].racks)
  {
    hide RowGood;
  }

  lemma OneMoreContainer(pl: Plant, cs: seq<Container>, before: seq<Container>, last: Container, k: nat)
    requires k < |cs| && |before| == k && ContainersGood(pl, before) && SameRacks(cs[..k], before)
    requires RowGood(pl, last.racks) && |last.racks| == |cs[k].racks|
    ensures ContainersGood(pl, before + [last]) && SameRacks(cs[..k + 1], before + [last])
  {
    hide RowGood;
  }

  lemma {:induction false} StoredPrefix(pl: Plant, a: seq<Container>, b: seq<Container>, k: nat)
    requires k <= |a| <= |b| && a[..k] == b[..k]
    ensures StoredIn(pl, a, k) == StoredIn(pl, b, k)
  {
    if k > 0 {
      assert a[..k - 1] == a[..k][..k - 1] == b[..k][..k - 1] == b[..k - 1];
      assert a[k - 1] == a[..k][k - 1] == b[k - 1];
      StoredPrefix(pl, a, b, k - 1);
    }
  }

  lemma {:induction false} ContainersDeliver(pl: Plant, cs: seq<Container>, perRack: real, k: nat)
    requires Sound(pl) && ContainersGood(pl, cs) && k <= |cs|
    ensures Toward(DcW(pl, cs, perRack, k), Shares(InServiceCount(cs, k), perRack))
    ensures DcW(pl, cs, perRack, k) + HeatW(pl, cs, perRack, k)
         == BlockBook(pl, cs, perRack, k).chemW + BlockBook(pl, cs, perRack, k).bleedW
  {
    hide Shares, RowDcW, RowHeatW, RowBook, RowInService, RowGood;
    SharesStep(0, perRack);
    if k > 0 {
      ContainersDeliver(pl, cs, perRack, k - 1);
      var racks := cs[k - 1].racks;
      assert RowGood(pl, racks);
      RowTick(pl, racks, perRack, |racks|);
      var n, m := InServiceCount(cs, k - 1), RowInService(racks, |racks|);
      SharesAdd(n, m, perRack);
      SharesSide(n, perRack);
      SharesSide(m, perRack);
      TowardAdd(DcW(pl, cs, perRack, k - 1), Shares(n, perRack), RowDcW(pl, racks, perRack, |racks|),
          Shares(m, perRack), perRack);
    }
  }

  // ----- Limits ------------------------------------------------------------------------------------

  lemma {:induction false} RowLimitsNonNegative(pl: Plant, racks: seq<Rack>, k: nat)
    requires Sound(pl) && k <= |racks|
    ensures 0.0 <= RowLimits(pl, racks, k).chargeW && 0.0 <= RowLimits(pl, racks, k).dischargeW
  {
    hide RackLimits, Balanced;
    if k > 0 {
      RowLimitsNonNegative(pl, racks, k - 1);
      LimitsNonNegative(pl.bms, Balanced(pl, racks[k - 1]), pl.rackCfg);
    }
  }

  lemma {:induction false} DcLimitsNonNegative(pl: Plant, cs: seq<Container>, k: nat)
    requires Sound(pl) && k <= |cs|
    ensures 0.0 <= DcLimits(pl, cs, k).chargeW && 0.0 <= DcLimits(pl, cs, k).dischargeW
  {
    hide RowLimits;
    if k > 0 {
      DcLimitsNonNegative(pl, cs, k - 1);
      RowLimitsNonNegative(pl, cs[k - 1].racks, |cs[k - 1].racks|);
    }
  }

  // ----- The block ------------------------------------------------------------------------------------

  lemma WholeFromShares(n: nat, whole: real)
    requires n > 0
    ensures Shares(n, whole / n as real) == whole
  {}

  /** The racks of a block never deliver past its DC request. */
  lemma BlockDelivers(pl: Plant, b: Block, inSet: bool, share: real)
    requires Sound(pl) && ContainersGood(pl, b.containers)
    ensures var perRack := PerRackW(pl, b, inSet, share);
      Toward(DcW(pl, b.containers, perRack, |b.containers|), DcRequest(pl, b, inSet, share))
  {
    var perRack, n := PerRackW(pl, b, inSet, share), InServiceCount(b.containers, |b.containers|);
    ContainersDeliver(pl, b.containers, perRack, |b.containers|);
    SharesStep(0, perRack);
    if n > 0 {
      WholeFromShares(n, DcRequest(pl, b, inSet, share));
    }
    hide Shares, DcW, DcRequest, InServiceCount;
  }

  /** The tracking sandwich of one block and tick: what it converts lies between nothing
      and its AC setpoint, inside its rating and the capability it advertises, at a
      non-negative loss; and outside the dispatchable set it converts nothing. */
  lemma BlockTracks(pl: Plant, b: Block, inSet: bool, share: real, weather: Weather)
    requires Sound(pl) && ContainersGood(pl, b.containers)
    ensures var next := BlockTick(pl, b, inSet, share, weather);
      && next.pcs.setpointW == BlockTargetW(inSet, share)
      && Toward(next.pcs.acW, next.pcs.setpointW) && Abs(next.pcs.acW) <= pl.pcs.ratedW
      && 0.0 <= next.pcs.lossW == next.pcs.dcW - next.pcs.acW
      && next.pcs.dcW == DcW(pl, b.containers, PerRackW(pl, b, inSet, share), |b.containers|)
      && (inSet ==> -CapabilityW(pl, b, inSet).chargeW <= next.pcs.acW <= CapabilityW(pl, b, inSet).dischargeW)
      && (!inSet ==> next.pcs.acW == 0.0 && next.pcs.dcW == 0.0)
      && (!inSet ==> next.pcs.opState != Run)
  {
    hide LossW, DischargeAcW, ChargeAcAbsW, ContainersTick, BlockWord, MissS, DcW, PerRackW, DcLimits, AcCapability;
    var target, limits := BlockTargetW(inSet, share), DcLimits(pl, b.containers, |b.containers|);
    var dc := DcW(pl, b.containers, PerRackW(pl, b, inSet, share), |b.containers|);
    BlockDelivers(pl, b, inSet, share);
    DcLimitsNonNegative(pl, b.containers, |b.containers|);
    ConverterTracks(pl.pcs, target, limits, dc);
    CapabilityCovers(pl.pcs, target, limits, dc);
    if !inSet {
      AtRestNothing(pl.pcs, limits);
    }
    hide DcRequestW, AcOf, PcsSound;
  }

  /** A target of nothing is a request for nothing. */
  lemma AtRestNothing(m: CurvePcs, limits: Limits)
    requires PcsSound(m)
    ensures DcRequestW(m, 0.0, limits) == 0.0
  {
    hide LossW;
  }

  /** What a block's DC side delivers and its racks lose is what its books drew. */
  lemma BlockBalances(pl: Plant, b: Block, inSet: bool, share: real)
    requires Sound(pl) && ContainersGood(pl, b.containers)
    ensures var perRack, n := PerRackW(pl, b, inSet, share), |b.containers|;
      DcW(pl, b.containers, perRack, n) + HeatW(pl, b.containers, perRack, n)
      == BlockBook(pl, b.containers, perRack, n).chemW + BlockBook(pl, b.containers, perRack, n).bleedW
  {
    hide PerRackW;
    ContainersDeliver(pl, b.containers, PerRackW(pl, b, inSet, share), |b.containers|);
  }
}
