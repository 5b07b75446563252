/** What one tick of the whole site keeps and books. */
module SiteLaws {
  import opened Reals
  import opened State
  import opened Words
  import opened Log
  import opened Bms
  import opened Cell
  import opened Converter
  import opened Thermal
  import opened Substations
  import opened Plants
  import opened Kernel
  import opened Commands
  import opened TickLaws

  // ----- The invariant ---------------------------------------------------------------------

  ghost predicate BlocksGood(pl: Plant, blocks: seq<Block>) {
    forall b <- blocks :: ContainersGood(pl, b.containers)
  }

  /** While the breaker is open no block is released and no converter runs. */
  predicate TripSafe(s: Site) {
    && TripMeansOpen(s)
    && s.ems.blocksReleased <= |s.blocks|
    && (s.substation.breaker == Open ==>
          s.ems.blocksReleased == 0 && forall b <- s.blocks :: b.pcs.opState != Run)
  }

  /** What every reachable tree satisfies. */
  ghost predicate Inv(pl: Plant, s: Site) {
    BlocksGood(pl, s.blocks) && WordsOk(s.blocks, s.alarms) && TripSafe(s)
  }

  // ----- Blocks through a tick ----------------------------------------------------------------

  lemma ContainerWords(pl: Plant, c: Container, perRack: real, weather: Weather, r: nat)
    requires Sound(pl) && RowGood(pl, c.racks) && r < |c.racks| && WordOk(c.racks[r].alarms)
    ensures |ContainerTick(pl, c, perRack, weather).racks| == |c.racks|
    ensures WordOk(ContainerTick(pl, c, perRack, weather).racks[r].alarms)
  {
    hide ContainerTick, RackStepped, WordOk, SameElectrics, RackGood;
    ContainerRack(pl, c, perRack, weather, r);
    RackTick(pl, c.racks[r], perRack);
  }

  lemma BlockWordsKept(pl: Plant, b: Block, inSet: bool, share: real, weather: Weather)
    requires Sound(pl) && ContainersGood(pl, b.containers) && BlockWordsOk(b)
    ensures BlockWordsOk(BlockTick(pl, b, inSet, share, weather))
  {
    hide PerRackW, ContainerTick, BlockSettings, WithBits, MissS, DcW, WordOk, Finalize, RowGood;
    var perRack := PerRackW(pl, b, inSet, share);
    var conv := BlockConverted(pl, b, inSet, share, weather);
    WithBitsKeeps(conv.alarms, BlockSettings(pl, conv), 0);
    ContainersTickShape(pl, b.containers, perRack, weather);
    var cs := ContainersTick(pl, b.containers, perRack, weather, |b.containers|);
    forall c, r | 0 <= c < |cs| && 0 <= r < |cs[c].racks|
      ensures WordOk(cs[c].racks[r].alarms)
    {
      ContainersTickAt(pl, b.containers, perRack, weather, |b.containers|, c);
      ContainerWords(pl, b.containers[c], perRack, weather, r);
    }
    hide ContainersTick;
  }

  lemma BlockTickGood(pl: Plant, b: Block, inSet: bool, share: real, weather: Weather)
    requires Sound(pl) && ContainersGood(pl, b.containers)
    ensures var perRack, n, next := PerRackW(pl, b, inSet, share), |b.containers|,
        BlockTick(pl, b, inSet, share, weather);
      && |next.containers| == n && ContainersGood(pl, next.containers)
      && Settles(StoredIn(pl, b.containers, n) - StoredIn(pl, next.containers, n),
          BlockBook(pl, b.containers, perRack, n))
  {
    hide PerRackW, BlockWord, MissS, DcW, Finalize, StoredIn, BlockBook, Settles, ContainersGood, ContainersTick,
      SameRacks;
    ContainersSettle(pl, b.containers, PerRackW(pl, b, inSet, share), weather, |b.containers|);
  }

  // ----- The plant controller --------------------------------------------------------------------

  lemma EmsTickKeeps(pl: Plant, s: Site)
    requires TripSafe(s)
    ensures EmsTick(pl, s).blocksReleased <= |s.blocks|
    ensures s.substation.breaker == Open ==> EmsTick(pl, s).blocksReleased == 0
    ensures s.ems.blocksReleased <= EmsTick(pl, s).blocksReleased
  {
    hide TargetW;
  }

  lemma {:induction false} ActiveAtMost(blocks: seq<Block>, ems: Ems, connected: bool, k: nat)
    requires k <= |blocks|
    ensures Active(blocks, ems, connected, k) <= ems.blocksReleased && Active(blocks, ems, connected, k) <= k
    ensures !connected ==> Active(blocks, ems, connected, k) == 0
  {
    if k > 0 { ActiveAtMost(blocks, ems, connected, k - 1); }
  }

  // ----- Power over the site --------------------------------------------------------------------------

  lemma {:induction false} SumAcPrefix(a: seq<Block>, b: seq<Block>, k: nat)
    requires k <= |a| && k <= |b| && a[..k] == b[..k]
    ensures SumAcW(a, k) == SumAcW(b, k) && SumLossW(a, k) == SumLossW(b, k)
    ensures SumSetpointW(a, k) == SumSetpointW(b, k)
  {
    if k > 0 {
      assert a[..k - 1] == a[..k][..k - 1] == b[..k][..k - 1] == b[..k - 1];
      assert a[k - 1] == a[..k][k - 1] == b[k - 1];
      SumAcPrefix(a, b, k - 1);
    }
  }

  function SumSetpointW(blocks: seq<Block>, k: nat): real
    requires k <= |blocks|
  {
    if k == 0 then 0.0 else SumSetpointW(blocks, k - 1) + blocks[k - 1].pcs.setpointW
  }

  function SiteBook(pl: Plant, s: Site, k: nat): Book
    requires k <= |s.blocks|
  {
    if k == 0 then NOTHING else
      var b := s.blocks[k - 1];
      AddBook(SiteBook(pl, s, k - 1),
              BlockBook(pl, b.containers, PerRackW(pl, b, InSet(pl, s, k - 1), SiteShareW(pl, s)), |b.containers|))
  }

  function SiteStoredWh(pl: Plant, blocks: seq<Block>, k: nat): real
    requires k <= |blocks|
  {
    if k == 0 then 0.0 else
      SiteStoredWh(pl, blocks, k - 1) + StoredIn(pl, blocks[k - 1].containers, |blocks[k - 1].containers|)
  }

  lemma {:induction false} StoredPrefixSite(pl: Plant, a: seq<Block>, b: seq<Block>, k: nat)
    requires k <= |a| && k <= |b| && a[..k] == b[..k]
    ensures SiteStoredWh(pl, a, k) == SiteStoredWh(pl, b, k)
  {
    hide StoredIn;
    if k > 0 {
      assert a[..k - 1] == a[..k][..k - 1] == b[..k][..k - 1] == b[..k - 1];
      assert a[k - 1] == a[..k][k - 1] == b[k - 1];
      StoredPrefixSite(pl, a, b, k - 1);
    }
  }

  /** AC power of the first k blocks: on the way from nothing to their setpoints' sum,
      which is that many shares, and no more than that many ratings. */
  lemma {:induction false} BlocksTrack(pl: Plant, s: Site, weather: Weather, k: nat)
    requires Sound(pl) && BlocksGood(pl, s.blocks) && k <= |s.blocks|
    ensures var next, n, share := NextBlocks(pl, s, weather, k), Active(s.blocks, EmsTick(pl, s), Connected(s), k),
        SiteShareW(pl, s);
      && SumSetpointW(next, k) == Shares(n, share)
      && Toward(SumAcW(next, k), Shares(n, share))
      && Abs(SumAcW(next, k)) <= Shares(n, pl.pcs.ratedW)
  {
    hide EmsTick, SiteShareW, Shares, NextBlock, Dispatchable, Sound, BlocksGood, Toward, Abs;
    var share, rated: real := SiteShareW(pl, s), pl.pcs.ratedW;
    if k == 0 {
      NothingTracks(share, rated);
    } else {
      var before, last := NextBlocks(pl, s, weather, k - 1), NextBlock(pl, s, weather, k - 1);
      var n := Active(s.blocks, EmsTick(pl, s), Connected(s), k - 1);
      BlocksTrack(pl, s, weather, k - 1);
      SumAcPrefix(before, before + [last], k - 1);
      NextBlockTracks(pl, s, weather, k - 1);
      TracksJoin(SumAcW(before, k - 1), n, share, rated, InSet(pl, s, k - 1), last.pcs.acW);
    }
  }

  lemma NothingTracks(share: real, rated: real)
    ensures Shares(0, share) == 0.0 && Toward(0.0, Shares(0, share)) && Abs(0.0) <= Shares(0, rated)
  {
    SharesStep(0, share);
    SharesStep(0, rated);
    hide Shares;
  }

  lemma NextBlockTracks(pl: Plant, s: Site, weather: Weather, k: nat)
    requires Sound(pl) && BlocksGood(pl, s.blocks) && k < |s.blocks|
    ensures var pcs, share := NextBlock(pl, s, weather, k).pcs, BlockTargetW(InSet(pl, s, k), SiteShareW(pl, s));
      pcs.setpointW == share && Toward(pcs.acW, share) && Abs(pcs.acW) <= pl.pcs.ratedW
  {
    hide SiteShareW, BlockTick, PerRackW, DcW, ContainersGood, CapabilityW, InSet, Toward, Abs, Sound;
    BlockTracks(pl, s.blocks[k], InSet(pl, s, k), SiteShareW(pl, s), weather);
  }

  /** One more block, with its share or with none. */
  lemma TracksJoin(ac: real, n: nat, share: real, rated: real, inSet: bool, more: real)
    requires Toward(ac, Shares(n, share)) && Abs(ac) <= Shares(n, rated)
    requires Toward(more, BlockTargetW(inSet, share)) && Abs(more) <= rated
    ensures var m := if inSet then n + 1 else n;
      && Shares(n, share) + BlockTargetW(inSet, share) == Shares(m, share)
      && Toward(ac + more, Shares(m, share)) && Abs(ac + more) <= Shares(m, rated)
  {
    SharesStep(n, share);
    SharesStep(n, rated);
    SharesSide(n, share);
    hide Shares;
    if inSet {
      TowardAdd(ac, Shares(n, share), more, share, share);
      AbsSum(ac, more, Shares(n, rated), rated);
    }
  }

  /** AC power, converter losses and battery heat of the first k blocks are what their
      books drew. */
  lemma {:induction false} BlocksBalance(pl: Plant, s: Site, weather: Weather, k: nat)
    requires Sound(pl) && BlocksGood(pl, s.blocks) && k <= |s.blocks|
    ensures var next := NextBlocks(pl, s, weather, k);
      SumAcW(next, k) + SumLossW(next, k) + SiteHeatW(pl, s, k) == SiteBook(pl, s, k).chemW + SiteBook(pl, s, k).bleedW
  {
    hide EmsTick, SiteShareW, BlockTick, BlockBook, HeatW, PerRackW, DcW, ContainersGood, CapabilityW, InSet;
    if k > 0 {
      var b, inSet, share := s.blocks[k - 1], InSet(pl, s, k - 1), SiteShareW(pl, s);
      var before, last := NextBlocks(pl, s, weather, k - 1), NextBlock(pl, s, weather, k - 1);
      BlocksBalance(pl, s, weather, k - 1);
      SumAcPrefix(before, before + [last], k - 1);
      BlockTracks(pl, b, inSet, share, weather);
      BlockBalances(pl, b, inSet, share);
      hide NextBlocks, Sound, BlocksGood, Abs, Toward;
    }
  }

  lemma AbsSum(x: real, y: real, a: real, b: real)
    requires Abs(x) <= a && Abs(y) <= b
    ensures Abs(x + y) <= a + b
  {}

  lemma {:induction false} BlocksSettle(pl: Plant, s: Site, weather: Weather, k: nat)
    requires Sound(pl) && BlocksGood(pl, s.blocks) && k <= |s.blocks|
    ensures BlocksGood(pl, NextBlocks(pl, s, weather, k))
    ensures Settles(SiteStoredWh(pl, s.blocks, k) - SiteStoredWh(pl, NextBlocks(pl, s, weather, k), k),
        SiteBook(pl, s, k))
  {
    hide SiteShareW, BlockTick, BlockBook, StoredIn, PerRackW, ContainersGood, InSet;
    if k > 0 {
      hide Settles, Sound, AddBook;
      var b := s.blocks[k - 1];
      var before, last := NextBlocks(pl, s, weather, k - 1), NextBlock(pl, s, weather, k - 1);
      BlocksSettle(pl, s, weather, k - 1);
      StoredPrefixSite(pl, before, before + [last], k - 1);
      BlockTickGood(pl, b, InSet(pl, s, k - 1), SiteShareW(pl, s), weather);
      SettlesAdd(SiteStoredWh(pl, s.blocks, k - 1) - SiteStoredWh(pl, before, k - 1), SiteBook(pl, s, k - 1),
                 StoredIn(pl, b.containers, |b.containers|) - StoredIn(pl, last.containers, |last.containers|),
                 BlockBook(pl, b.containers, PerRackW(pl, b, InSet(pl, s, k - 1), SiteShareW(pl, s)), |b.containers|));
    }
  }

  // ----- The tick ------------------------------------------------------------------------------------

  /** Everything the site metered, outwards and lost, Wh. */
  function BooksWh(s: Site): real {
    NetOutWh(s.substation) + s.energy.batteryLossWh + s.energy.pcsLossWh + s.energy.transformerLossWh + s.energy.auxWh
  }

  /** Site power of one tick: within the setpoint in its own direction, within the ratings
      of the released blocks; the setpoints handed to the blocks sum to the site setpoint
      whenever any block can take a share. */
  lemma SiteTracks(pl: Plant, s: Site, inputs: Inputs)
    requires Sound(pl) && Inv(pl, s)
    ensures var next := Tick(pl, s, inputs);
      var ac := SumAcW(next.blocks, |next.blocks|);
      && |next.blocks| == |s.blocks|
      && Toward(ac, next.ems.siteSetpointW)
      && Abs(ac) <= Shares(next.ems.blocksReleased, pl.pcs.ratedW)
      && (s.substation.breaker == Open ==> ac == 0.0)
      && SumSetpointW(next.blocks, |next.blocks|)
         == (if Active(s.blocks, EmsTick(pl, s), Connected(s), |s.blocks|) > 0 then next.ems.siteSetpointW else 0.0)
  {
    hide Shares, NextBlocks, SiteCapabilityW, Release, AuxTick, SubstationTick, EnergyAfter, AlarmsAfter, Emitted,
      BlocksGood, WordsOk, Sound, TargetW;
    var n := Active(s.blocks, EmsTick(pl, s), Connected(s), |s.blocks|);
    BlocksTrack(pl, s, inputs.weather, |s.blocks|);
    ActiveAtMost(s.blocks, EmsTick(pl, s), Connected(s), |s.blocks|);
    SharesStep(0, SiteShareW(pl, s));
    SharesMono(n, EmsTick(pl, s).blocksReleased, pl.pcs.ratedW);
    ReleaseKeepsSetpoint(pl, s);
    if n > 0 {
      WholeFromShares(n, TargetW(pl, s));
    }
    hide Active;
  }

  lemma SharesMono(n: nat, m: nat, per: Pos)
    requires n <= m
    ensures Shares(n, per) <= Shares(m, per)
  {
    MulMono(per, n as real, m as real);
  }

  lemma ReleaseKeepsSetpoint(pl: Plant, s: Site)
    ensures EmsTick(pl, s).siteSetpointW == TargetW(pl, s)
  {
    hide TargetW;
  }

  /** The exact site ledger of one tick, breaker open or closed: what the meters gained is
      the chemical energy drawn plus the energy bled; and the metered auxiliary energy
      moves with the itemized one. */
  lemma TickLedger(pl: Plant, s: Site, inputs: Inputs)
    requires Sound(pl) && Inv(pl, s)
    ensures var next, book := Tick(pl, s, inputs), SiteBook(pl, s, |s.blocks|);
      && BooksWh(next) - BooksWh(s) == Wh(book.chemW + book.bleedW, TICK)
      && next.energy.auxWh - AuxTotalW(next.energy.auxItems) == s.energy.auxWh - AuxTotalW(s.energy.auxItems)
  {
    hide Inv, Sound, SiteBook, SumAcW, SumLossW, SiteHeatW, Tick, SubstationTick, NetOutWh, AuxTotalW, AuxTick,
      BooksWh, EnergyAfter, NextBlocks, Wh;
    var next, blocks := Tick(pl, s, inputs), NextBlocks(pl, s, inputs.weather, |s.blocks|);
    var ac, aux := SumAcW(blocks, |blocks|), AuxTick(pl, blocks);
    OpenSiteIsIdle(pl, s, inputs);
    GoodBlocksBalance(pl, s, inputs.weather);
    TickMeters(pl, s, inputs);
    SubstationBalance(pl.grid, s.substation, ac, AuxTotalW(aux), TICK, s.UnixTimeS() + 1);
    MetersAdd(pl, s, next, blocks, aux);
    var n, book := |s.blocks|, SiteBook(pl, s, |s.blocks|);
    WhShares(ac, SumLossW(blocks, n), SiteHeatW(pl, s, n), book.chemW + book.bleedW);
  }

  lemma MetersAdd(pl: Plant, s: Site, next: Site, blocks: seq<Block>, aux: AuxPower)
    requires |blocks| == |s.blocks|
    requires next.energy == EnergyAfter(pl, s, blocks, aux, next.substation) && next.substation.auxW == AuxTotalW(aux)
    ensures BooksWh(next) - BooksWh(s) == NetOutWh(next.substation) - NetOutWh(s.substation)
      + Wh(SiteHeatW(pl, s, |s.blocks|), TICK) + Wh(SumLossW(blocks, |blocks|), TICK)
      + Wh(next.substation.transformerLossW, TICK) + Wh(AuxTotalW(aux), TICK)
    ensures next.energy.auxWh - AuxTotalW(next.energy.auxItems) == s.energy.auxWh - AuxTotalW(s.energy.auxItems)
  {
    ItemsAdd(s.energy.auxItems, aux);
    hide SiteHeatW, SumLossW, NetOutWh, AuxTotalW, Accumulate, Wh;
  }

  lemma WhShares(a: real, b: real, c: real, total: real)
    requires a + b + c == total
    ensures Wh(a, TICK) + Wh(b, TICK) + Wh(c, TICK) == Wh(total, TICK)
  {}

  lemma OpenSiteIsIdle(pl: Plant, s: Site, inputs: Inputs)
    requires Sound(pl) && Inv(pl, s)
    ensures var blocks := NextBlocks(pl, s, inputs.weather, |s.blocks|);
      s.substation.breaker == Open ==> SumAcW(blocks, |blocks|) == 0.0
  {
    SiteTracks(pl, s, inputs);
    hide Shares, NextBlocks, AuxTick, SubstationTick, EnergyAfter, AlarmsAfter, Emitted, Inv, Sound, EmsAfter,
      SumAcW, Active;
  }

  lemma GoodBlocksBalance(pl: Plant, s: Site, weather: Weather)
    requires Sound(pl) && Inv(pl, s)
    ensures var next, n := NextBlocks(pl, s, weather, |s.blocks|), |s.blocks|;
      SumAcW(next, n) + SumLossW(next, n) + SiteHeatW(pl, s, n) == SiteBook(pl, s, n).chemW + SiteBook(pl, s, n).bleedW
  {
    hide BlocksGood;
    BlocksBalance(pl, s, weather, |s.blocks|);
  }

  lemma TickMeters(pl: Plant, s: Site, inputs: Inputs)
    ensures var next, blocks := Tick(pl, s, inputs), NextBlocks(pl, s, inputs.weather, |s.blocks|);
      var aux := AuxTick(pl, blocks);
      && next.substation == SubstationTick(pl.grid, s.substation, SumAcW(blocks, |blocks|), AuxTotalW(aux), TICK,
          s.UnixTimeS() + 1)
      && next.energy == EnergyAfter(pl, s, blocks, aux, next.substation)
  {
    hide NextBlocks, AuxTick, SubstationTick, EnergyAfter, AlarmsAfter, Emitted, EmsAfter, SumAcW;
  }

  lemma ItemsAdd(e: AuxPower, p: AuxPower)
    ensures AuxTotalW(Accumulate(e, p, TICK)) == AuxTotalW(e) + Wh(AuxTotalW(p), TICK)
  {}

  lemma SiteBits(pl: Plant, w: Word, blocks: seq<Block>, ems: Ems, breaker: Breaker)
    ensures var next := SiteWord(pl, w, blocks, ems, breaker);
      && (HV_BREAKER_OPEN in next <==> breaker == Open)
      && (PARTIAL_AVAILABILITY in next <==> SomeOut(blocks, ems, breaker == Closed))
      && (POWER_LIMITED in next <==>
            Rising(POWER_LIMITED in w, Shortfall(pl, ems.siteSetpointW, SumAcW(blocks, |blocks|)),
                pl.thresholds.siteShortfall))
  {
    var settings := SiteSettings(pl, w, blocks, ems, breaker);
    hide SomeOut, Rising, Shortfall, WithBits;
    WithBitsSets(w, settings, 0);
    WithBitsSets(w, settings, 1);
    WithBitsSets(w, settings, 2);
  }

  /** What the site word says after a tick is what the tree then holds: the breaker bit
      mirrors the breaker; the availability bit is clear exactly when every block can be
      dispatched and every rack is in service, so that an open site always shows both; and
      the limitation bit follows its band on what the blocks delivered. */
  lemma SiteWordReads(pl: Plant, s: Site, inputs: Inputs)
    ensures var next := Tick(pl, s, inputs);
      && (HV_BREAKER_OPEN in next.alarms <==> next.substation.breaker == Open)
      && (PARTIAL_AVAILABILITY in next.alarms <==> SomeOut(next.blocks, next.ems, Connected(next)))
      && (POWER_LIMITED in next.alarms <==>
            Rising(POWER_LIMITED in s.alarms, Shortfall(pl, next.ems.siteSetpointW, SumAcW(next.blocks, |next.blocks|)),
                   pl.thresholds.siteShortfall))
      && (next.substation.breaker == Open && next.blocks != [] ==> PARTIAL_AVAILABILITY in next.alarms)
  {
    BreakerKept(pl, s, inputs);
    var blocks := NextBlocks(pl, s, inputs.weather, |s.blocks|);
    SiteBits(pl, s.alarms, blocks, EmsAfter(pl, s), s.substation.breaker);
    OpenIsOut(blocks, EmsAfter(pl, s));
    hide NextBlocks, AuxTick, SubstationTick, EnergyAfter, Emitted, EmsAfter, SiteWord, SomeOut, Rising, Shortfall,
        SumAcW;
  }

  lemma OpenIsOut(blocks: seq<Block>, ems: Ems)
    ensures blocks != [] ==> SomeOut(blocks, ems, false)
  {
    if blocks != [] { assert !Dispatchable(blocks[0], 0, ems, false); }
  }

  /** How far a block is off its setpoint, as a share of its rating. */
  function Miss(pl: Plant, b: Block): real {
    Abs(b.pcs.setpointW - b.pcs.acW) / pl.pcsRatedW
  }

  lemma BlockBits(pl: Plant, b: Block)
    ensures var next := BlockWord(pl, b);
      && (SETPOINT_NOT_MET in next <==>
            if SETPOINT_NOT_MET in b.alarms then pl.thresholds.setpointMiss.clear < Miss(pl, b)
            else pl.thresholds.setpointDeadbandS <= MissS(pl, b))
      && (CONTAINER_OVER_TEMP in next <==>
            var air := AirMax(b.containers, |b.containers|);
            air.Some? && Rising(CONTAINER_OVER_TEMP in b.alarms, air.value, pl.thresholds.containerAirC))
      && (PCS_FAULT in next <==> b.pcs.opState == Fault)
      && (MAINTENANCE in next <==> b.mode == Maintenance)
      && (HVAC_FAILURE in next <==> exists c <- b.containers :: c.hvac.failed)
  {
    hide WithBits, Rising, AirMax, MissS;
    var settings := BlockSettings(pl, b);
    WithBitsSets(b.alarms, settings, 0);
    WithBitsSets(b.alarms, settings, 1);
    WithBitsSets(b.alarms, settings, 2);
    WithBitsSets(b.alarms, settings, 3);
    WithBitsSets(b.alarms, settings, 4);
  }

  /** What a block's word says after a tick is what the block then holds; the miss timer
      counts the ticks in a row it was off its setpoint. */
  lemma BlockWordReads(pl: Plant, b: Block, inSet: bool, share: real, weather: Weather)
    ensures var next := BlockTick(pl, b, inSet, share, weather);
      && (PCS_FAULT in next.alarms <==> next.pcs.opState == Fault)
      && (MAINTENANCE in next.alarms <==> next.mode == Maintenance)
      && (HVAC_FAILURE in next.alarms <==> exists c <- next.containers :: c.hvac.failed)
      && (CONTAINER_OVER_TEMP in next.alarms <==>
            var air := AirMax(next.containers, |next.containers|);
            air.Some? && Rising(CONTAINER_OVER_TEMP in b.alarms, air.value, pl.thresholds.containerAirC))
      && (SETPOINT_NOT_MET in next.alarms <==>
            if SETPOINT_NOT_MET in b.alarms then pl.thresholds.setpointMiss.clear < Miss(pl, next)
            else pl.thresholds.setpointDeadbandS <= next.setpointMissS)
      && next.setpointMissS == (if pl.thresholds.setpointMiss.raise <= Miss(pl, next) then b.setpointMissS + TICK
          else 0.0)
  {
    hide ContainersTick, PerRackW, DcW, Finalize, BlockWord, Rising, AirMax;
    BlockBits(pl, BlockConverted(pl, b, inSet, share, weather));
  }

  /** A rack's word after a tick is evaluated on the rack the tick leaves, over the word
      it had. */
  lemma RackWordReads(pl: Plant, c: Container, perRack: real, weather: Weather, i: nat)
    requires i < |c.racks|
    ensures |ContainerTick(pl, c, perRack, weather).racks| == |c.racks|
    ensures var last := ContainerTick(pl, c, perRack, weather).racks[i];
      last.alarms == RackAlarms(pl.bms, last.(alarms := c.racks[i].alarms), pl.rackCfg)
  {
    hide StepHvac, EnvelopeGainW, CellsToAirW, RackStepped, RackHeatW, ToAirW, RackAlarms;
    var row, heat := RackRow(pl, c.racks, perRack, |c.racks|), HeatRow(pl, c.racks, perRack, |c.racks|);
    var heated := StepContainer(pl.thermal, c.(racks := row), heat, weather, TICK);
    RackRowAt(pl, c.racks, perRack, |c.racks|, i);
    AlarmedAt(pl, heated.racks, |heated.racks|, i);
    SteppedKeepsWord(pl, c.racks[i], perRack);
    assert heated.racks[i].alarms == c.racks[i].alarms;
    assert heated.racks[i] == heated.racks[i].(alarms := c.racks[i].alarms);
    hide RackRow, HeatRow, Alarmed;
  }

  /** The cell temperature a container tick leaves a rack at. */
  lemma ContainerTemp(pl: Plant, c: Container, perRack: real, weather: Weather, i: nat)
    requires i < |c.racks|
    ensures |ContainerTick(pl, c, perRack, weather).racks| == |c.racks|
    ensures ContainerTick(pl, c, perRack, weather).racks[i].cellTempC
         == Warmed(pl.thermal, RackStepped(pl, c.racks[i], perRack).0, RackHeatW(pl, c.racks[i], perRack),
             c.airTempC, TICK).cellTempC
  {
    hide StepHvac, EnvelopeGainW, CellsToAirW, RackStepped, RackHeatW, ToAirW, RackAlarms;
    var row, heat := RackRow(pl, c.racks, perRack, |c.racks|), HeatRow(pl, c.racks, perRack, |c.racks|);
    var heated := StepContainer(pl.thermal, c.(racks := row), heat, weather, TICK);
    RackRowAt(pl, c.racks, perRack, |c.racks|, i);
    HeatRowAt(pl, c.racks, perRack, |c.racks|, i);
    AlarmedAt(pl, heated.racks, |heated.racks|, i);
    hide RackRow, HeatRow, Alarmed;
  }

  lemma SteppedKeepsWord(pl: Plant, rack: Rack, perRack: real)
    ensures RackStepped(pl, rack, perRack).0.alarms == rack.alarms
  {
    BalanceKeepsWord(pl, rack);
    hide Balanced, RequestW;
    StepKeepsRest(pl, Balanced(pl, rack), RequestW(pl, rack, perRack));
    hide StepRack;
  }

  lemma BalanceKeepsWord(pl: Plant, rack: Rack)
    ensures Balanced(pl, rack).alarms == rack.alarms
  {}

  /** Stored energy never falls by more in a tick than the books say. */
  lemma TickSettles(pl: Plant, s: Site, inputs: Inputs)
    requires Sound(pl) && Inv(pl, s)
    ensures var next := Tick(pl, s, inputs);
      |next.blocks| == |s.blocks|
      && Settles(SiteStoredWh(pl, s.blocks, |s.blocks|) - SiteStoredWh(pl, next.blocks, |s.blocks|),
          SiteBook(pl, s, |s.blocks|))
  {
    hide NextBlocks, EmsAfter, AuxTick, SubstationTick, EnergyAfter, AlarmsAfter, Emitted, SiteStoredWh, SiteBook,
      Settles, TripSafe, WordsOk, BlocksGood;
    BlocksSettle(pl, s, inputs.weather, |s.blocks|);
  }

  lemma TickKeepsWords(pl: Plant, s: Site, inputs: Inputs)
    requires Sound(pl) && Inv(pl, s)
    ensures var next := Tick(pl, s, inputs);
      WordsOk(next.blocks, next.alarms) && (PROTECTION_TRIP in next.alarms <==> PROTECTION_TRIP in s.alarms)
  {
    hide EmsAfter, AuxTick, SubstationTick, EnergyAfter, Emitted, BlockTick, WithBits, SiteSettings, BlockWordsOk,
      SiteShareW, ContainersGood, Sound, InSet;
    var blocks := NextBlocks(pl, s, inputs.weather, |s.blocks|);
    WithBitsKeeps(s.alarms, SiteSettings(pl, s.alarms, blocks, EmsAfter(pl, s), s.substation.breaker), PROTECTION_TRIP);
    forall b | 0 <= b < |blocks|
      ensures BlockWordsOk(blocks[b])
    {
      NextBlocksAt(pl, s, inputs.weather, |s.blocks|, b);
      BlockWordsKept(pl, s.blocks[b], InSet(pl, s, b), SiteShareW(pl, s), inputs.weather);
    }
    hide NextBlocks;
  }

  lemma TickKeepsTripSafe(pl: Plant, s: Site, inputs: Inputs)
    requires Sound(pl) && Inv(pl, s)
    ensures TripSafe(Tick(pl, s, inputs)) && Tick(pl, s, inputs).substation.breaker == s.substation.breaker
  {
    TickKeepsWords(pl, s, inputs);
    EmsTickKeeps(pl, s);
    BreakerKept(pl, s, inputs);
    hide AuxTick, SubstationTick, EnergyAfter, AlarmsAfter, Emitted, BlockTick, SiteShareW, ContainersGood, Sound,
      EmsTick, WordsOk, SiteCapabilityW;
    var next := Tick(pl, s, inputs);
    if s.substation.breaker == Open {
      forall b | 0 <= b < |next.blocks|
        ensures next.blocks[b].pcs.opState != Run
      {
        NextBlocksAt(pl, s, inputs.weather, |s.blocks|, b);
        BlockTracks(pl, s.blocks[b], InSet(pl, s, b), SiteShareW(pl, s), inputs.weather);
      }
    }
    hide NextBlocks;
  }

  lemma BreakerKept(pl: Plant, s: Site, inputs: Inputs)
    ensures Tick(pl, s, inputs).substation.breaker == s.substation.breaker
  {
    hide NextBlocks, EmsAfter, AuxTick, EnergyAfter, AlarmsAfter, Emitted, SumAcW, Wh;
  }

  /** A tick keeps the invariant. */
  lemma TickKeepsInv(pl: Plant, s: Site, inputs: Inputs)
    requires Sound(pl) && Inv(pl, s)
    ensures Inv(pl, Tick(pl, s, inputs))
  {
    BlocksSettle(pl, s, inputs.weather, |s.blocks|);
    TickKeepsWords(pl, s, inputs);
    TickKeepsTripSafe(pl, s, inputs);
    hide NextBlocks, EmsAfter, AuxTick, SubstationTick, EnergyAfter, AlarmsAfter, Emitted, BlocksGood, WordsOk,
      TripSafe, Settles;
  }
}
