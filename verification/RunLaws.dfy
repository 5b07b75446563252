/** What holds on every run of ticks and commands. */
module RunLaws {
  import opened Reals
  import opened Wrappers
  import opened State
  import opened Words
  import opened Log
  import opened Cell
  import opened Substations
  import opened Plants
  import opened Kernel
  import opened Commands
  import opened CommandLaws
  import opened TickLaws
  import opened SiteLaws
  import opened Runs

  function Init(ops: seq<Op>): seq<Op>
    requires ops != []
  {
    ops[..|ops| - 1]
  }

  function Last(ops: seq<Op>): Op
    requires ops != []
  {
    ops[|ops| - 1]
  }

  function Ticks(ops: seq<Op>): nat {
    if ops == [] then 0 else Ticks(Init(ops)) + (if Last(ops).OpTick? then 1 else 0)
  }

  /** A run is its first part and then the rest. */
  lemma {:induction false} RunConcat(pl: Plant, s: Site, a: seq<Op>, b: seq<Op>)
    ensures StateAfter(pl, s, a + b) == StateAfter(pl, StateAfter(pl, s, a), b)
  {
    hide Exec;
    if b == [] {
      assert a + b == a;
    } else {
      assert (a + b)[..|a + b| - 1] == a + b[..|b| - 1];
      RunConcat(pl, s, a, b[..|b| - 1]);
    }
  }

  /** What the last operation to write a value wrote; the first value where none did. */
  function Written<T>(ops: seq<Op>, writes: Op -> Option<T>, first: T): T {
    if ops == [] then first else
      match writes(Last(ops))
      case Some(v) => v
      case None => Written(Init(ops), writes, first)
  }

  /** Operation k writes the value and none after it does. */
  predicate Decides<T>(ops: seq<Op>, writes: Op -> Option<T>, k: nat)
    requires k < |ops|
  {
    writes(ops[k]).Some? && forall j :: k < j < |ops| ==> writes(ops[j]).None?
  }

  lemma {:induction false} WrittenMeans<T>(ops: seq<Op>, writes: Op -> Option<T>, first: T)
    ensures (forall k :: 0 <= k < |ops| ==> writes(ops[k]).None?) ==> Written(ops, writes, first) == first
    ensures forall k :: 0 <= k < |ops| && Decides(ops, writes, k) ==>
      Written(ops, writes, first) == writes(ops[k]).value
  {
    if ops != [] {
      WrittenMeans(Init(ops), writes, first);
      assert forall k :: 0 <= k < |ops| - 1 ==> Init(ops)[k] == ops[k];
      assert writes(Last(ops)) == writes(ops[|ops| - 1]);
      forall k | 0 <= k < |ops| && Decides(ops, writes, k)
        ensures Written(ops, writes, first) == writes(ops[k]).value
      {
        if k < |ops| - 1 { assert Decides(Init(ops), writes, k); }
      }
    }
  }

  // ----- Tracking ---------------------------------------------------------------------------

  /** The tracking sandwich: on every tick of every run each block converts something
      between nothing and its AC setpoint, within its rating, at a non-negative loss; the
      site delivers between nothing and its setpoint, and no more than the ratings of the
      blocks released. */
  lemma EveryTickTracks(pl: Plant, start: Site, ops: seq<Op>, inputs: Inputs)
    requires Sound(pl) && Inv(pl, start)
    ensures var next := StateAfter(pl, start, ops + [OpTick(inputs)]);
      && (forall b <- next.blocks ::
            Toward(b.pcs.acW, b.pcs.setpointW) && Abs(b.pcs.acW) <= pl.pcs.ratedW && 0.0 <= b.pcs.lossW)
      && Toward(SumAcW(next.blocks, |next.blocks|), next.ems.siteSetpointW)
      && Abs(SumAcW(next.blocks, |next.blocks|)) <= Shares(next.ems.blocksReleased, pl.pcs.ratedW)
  {
    var s := StateAfter(pl, start, ops);
    assert Init(ops + [OpTick(inputs)]) == ops;
    RunKeepsInv(pl, start, ops);
    SiteTracks(pl, s, inputs);
    BlocksOfTickTrack(pl, s, inputs);
    hide Tick, Inv, Toward, Shares, SumAcW;
  }

  lemma BlocksOfTickTrack(pl: Plant, s: Site, inputs: Inputs)
    requires Sound(pl) && Inv(pl, s)
    ensures forall b <- Tick(pl, s, inputs).blocks ::
      Toward(b.pcs.acW, b.pcs.setpointW) && Abs(b.pcs.acW) <= pl.pcs.ratedW && 0.0 <= b.pcs.lossW
  {
    hide AuxTick, SubstationTick, EnergyAfter, AlarmsAfter, Emitted, BlockTick, SiteShareW, ContainersGood, Sound,
      EmsAfter, WordsOk, TripSafe, InSet, Toward, Abs;
    var next := Tick(pl, s, inputs);
    forall i | 0 <= i < |next.blocks|
      ensures var b := next.blocks[i];
        Toward(b.pcs.acW, b.pcs.setpointW) && Abs(b.pcs.acW) <= pl.pcs.ratedW && 0.0 <= b.pcs.lossW
    {
      NextBlocksAt(pl, s, inputs.weather, |s.blocks|, i);
      BlockTracks(pl, s.blocks[i], InSet(pl, s, i), SiteShareW(pl, s), inputs.weather);
    }
    hide NextBlocks;
  }

  // ----- The ledger and the stored energy ------------------------------------------------------

  /** The books of one operation, Wh: a tick's, or nothing. */
  function OpBook(pl: Plant, s: Site, op: Op): Book {
    if op.OpTick? then
      var book := SiteBook(pl, s, |s.blocks|);
      Book(Wh(book.chemW, TICK), Wh(book.bleedW, TICK), book.gapWh)
    else NOTHING
  }

  /** The books of a run, Wh: chemical energy drawn, energy bled, and the gap. */
  function RunBook(pl: Plant, s: Site, ops: seq<Op>): Book {
    if ops == [] then NOTHING
    else AddBook(RunBook(pl, s, Init(ops)), OpBook(pl, StateAfter(pl, s, Init(ops)), Last(ops)))
  }

  function Charge(pl: Plant, s: Site): real {
    SiteStoredWh(pl, s.blocks, |s.blocks|)
  }

  /** Racks alike in what they store, in the cells and in the polarization branch. */
  predicate SameStore(a: Rack, b: Rack) {
    a.soc == b.soc && a.soh == b.soh && a.polarizationV == b.polarizationV && a.resistanceScale == b.resistanceScale
  }

  ghost predicate SameCharge(a: seq<Block>, b: seq<Block>) {
    && SameShape(a, b)
    && forall i: nat, c: nat, r: nat :: HasRack(a, i, c, r) ==>
         SameStore(a[i].containers[c].racks[r], b[i].containers[c].racks[r])
  }

  lemma {:induction false} SameRowStored(pl: Plant, a: seq<Rack>, b: seq<Rack>, k: nat)
    requires k <= |a| == |b| && forall r :: 0 <= r < |a| ==> SameStore(a[r], b[r])
    ensures RowStoredWh(pl, a, k) == RowStoredWh(pl, b, k)
  {
    if k > 0 {
      SameRowStored(pl, a, b, k - 1);
      SameCapacityStored(pl, a[k - 1], b[k - 1]);
      hide StoredWh;
    }
  }

  lemma SameCapacityStored(pl: Plant, a: Rack, b: Rack)
    requires SameStore(a, b)
    ensures StoredWh(pl.cell, a, pl.rackCfg) == StoredWh(pl.cell, b, pl.rackCfg)
  {}

  lemma SameRowCharge(a: seq<Block>, b: seq<Block>, i: nat, c: nat)
    requires SameCharge(a, b) && i < |a| && c < |a[i].containers|
    ensures |a| == |b| && |a[i].containers| == |b[i].containers|
        && |a[i].containers[c].racks| == |b[i].containers[c].racks|
    ensures var x, y := a[i].containers[c].racks, b[i].containers[c].racks;
      forall r :: 0 <= r < |x| ==> SameStore(x[r], y[r])
  {
    var x, y := a[i].containers[c].racks, b[i].containers[c].racks;
    forall r | 0 <= r < |x|
      ensures SameStore(x[r], y[r])
    {
      assert HasRack(a, i, c, r);
    }
  }

  lemma {:induction false} SameStoredIn(pl: Plant, a: seq<Block>, b: seq<Block>, i: nat, k: nat)
    requires SameCharge(a, b) && i < |a| && k <= |a[i].containers|
    ensures StoredIn(pl, a[i].containers, k) == StoredIn(pl, b[i].containers, k)
  {
    hide RowStoredWh;
    if k > 0 {
      SameStoredIn(pl, a, b, i, k - 1);
      SameRowCharge(a, b, i, k - 1);
      SameRowStored(pl, a[i].containers[k - 1].racks, b[i].containers[k - 1].racks, |a[i].containers[k - 1].racks|);
    }
  }

  lemma {:induction false} SameChargeStored(pl: Plant, a: seq<Block>, b: seq<Block>, k: nat)
    requires SameCharge(a, b) && k <= |a|
    ensures SiteStoredWh(pl, a, k) == SiteStoredWh(pl, b, k)
  {
    hide StoredIn, SameCharge;
    if k > 0 {
      SameChargeStored(pl, a, b, k - 1);
      SameChargeShape(a, b);
      SameStoredIn(pl, a, b, k - 1, |a[k - 1].containers|);
    }
  }

  lemma SameChargeShape(a: seq<Block>, b: seq<Block>)
    requires SameCharge(a, b)
    ensures |a| == |b| && forall i :: 0 <= i < |a| ==> |a[i].containers| == |b[i].containers|
  {}

  lemma ResetBlockCharge(block: Block, c: int, r: int)
    requires 0 <= c < |block.containers| && 0 <= r < |block.containers[c].racks|
    ensures |ResetBlock(block).containers| == |block.containers|
    ensures |ResetBlock(block).containers[c].racks| == |block.containers[c].racks|
    ensures ResetBlock(block).containers[c].racks[r] == ResetRack(block.containers[c].racks[r])
  {
    assert ResetBlock(block).containers[c] == ResetContainer(block.containers[c]);
  }

  /** One block put in place of another with the same charge. */
  lemma BlockKeepsCharge(s: Site, b: nat, block: Block)
    requires b < |s.blocks| && SameRacks(s.blocks[b].containers, block.containers)
    requires forall c, r :: 0 <= c < |block.containers| && 0 <= r < |block.containers[c].racks| ==>
      SameStore(s.blocks[b].containers[c].racks[r], block.containers[c].racks[r])
    ensures SameCharge(s.blocks, WithBlock(s, b, block).blocks)
  {}

  lemma RackKeepsCharge(s: Site, b: nat, c: nat, r: nat, rack: Rack)
    requires HasRack(s.blocks, b, c, r) && SameStore(RackAt(s, b, c, r), rack)
    ensures SameCharge(s.blocks, WithRack(s, b, c, r, rack).blocks)
  {}

  lemma ContainerKeepsCharge(s: Site, b: nat, c: nat, container: Container)
    requires HasContainer(s, b, c) && container.racks == s.blocks[b].containers[c].racks
    ensures SameCharge(s.blocks, WithContainer(s, b, c, container).blocks)
  {}

  lemma TripKeepsCharge(blocks: seq<Block>)
    ensures SameCharge(blocks, AllTripped(blocks, |blocks|))
  {}

  lemma ResetKeepsCharge(blocks: seq<Block>)
    ensures SameCharge(blocks, ResetBlocks(blocks, |blocks|))
  {
    hide ResetBlock;
    ResetKeepsShape(blocks);
    forall i: nat, c: nat, r: nat | HasRack(blocks, i, c, r)
      ensures ResetBlocks(blocks, |blocks|)[i] == ResetBlock(blocks[i])
      ensures SameStore(blocks[i].containers[c].racks[r], ResetBlocks(blocks, |blocks|)[i].containers[c].racks[r])
    {
      ResetBlockCharge(blocks[i], c, r);
    }
  }

  lemma ResetBlockKeepsCharge(s: Site, b: nat)
    requires b < |s.blocks|
    ensures SameCharge(s.blocks, WithBlock(s, b, ResetBlock(s.blocks[b])).blocks)
  {
    var block := ResetBlock(s.blocks[b]);
    forall c, r | 0 <= c < |s.blocks[b].containers| && 0 <= r < |s.blocks[b].containers[c].racks|
      ensures SameStore(s.blocks[b].containers[c].racks[r], block.containers[c].racks[r])
    {
      ResetBlockCharge(s.blocks[b], c, r);
    }
    BlockKeepsCharge(s, b, block);
  }

  /** No command moves charge or a meter. */
  lemma DispatchMovesNothing(s: Site, a: FaultAction)
    requires Dispatch(s, a).Ok?
    ensures var next := Dispatch(s, a).value.site;
      SameCharge(s.blocks, next.blocks) && next.energy == s.energy
          && next.substation == s.substation.(breaker := next.substation.breaker)
  {
    hide SameCharge, ResetBlock, ClearTrips, ResetSiteEvents, ResetBlockEvents, TripEvents, WordChanges,
      ResetBlocks, AllTripped;
    match a
    case HvacFailure(b, c) =>
      var container := s.blocks[b].containers[c];
      ContainerKeepsCharge(s, b, c, container.(hvac := container.hvac.(failed := true)));
    case HvacRepair(b, c) =>
      var container := s.blocks[b].containers[c];
      ContainerKeepsCharge(s, b, c, container.(hvac := container.hvac.(failed := false)));
    case PcsTrip(b) =>
      SelfCharge(s.blocks);
      BlockKeepsCharge(s, b, Tripped(s.blocks[b]));
    case ProtectionTrip =>
      SelfCharge(s.blocks);
      TripKeepsCharge(s.blocks);
    case RackSelfDischarge(b, c, r, ppm) =>
      RackKeepsCharge(s, b, c, r, RackAt(s, b, c, r).(selfDischargeExcess := ppm as real * 0.000001 / DAY_S));
    case RackIsolate(b, c, r) => RackKeepsCharge(s, b, c, r, RackAt(s, b, c, r).(inService := false));
    case RackRestore(b, c, r) => RackKeepsCharge(s, b, c, r, RackAt(s, b, c, r).(inService := true));
    case BlockMaintenanceEnter(b) => BlockKeepsCharge(s, b, s.blocks[b].(mode := Maintenance));
    case BlockMaintenanceExit(b) => BlockKeepsCharge(s, b, s.blocks[b].(mode := InService));
    case AlarmReset(SiteScope) => ResetKeepsCharge(s.blocks);
    case AlarmReset(BlockScope(b)) => ResetBlockKeepsCharge(s, b);
    case AlarmReset(RackScope(b, c, r)) => RackKeepsCharge(s, b, c, r, ResetRack(RackAt(s, b, c, r)));
  }

  lemma SelfCharge(blocks: seq<Block>)
    ensures SameCharge(blocks, blocks)
  {}

  lemma OpBooks(pl: Plant, s: Site, op: Op)
    requires Sound(pl) && Inv(pl, s)
    ensures var next, book := Exec(pl, s, op), OpBook(pl, s, op);
      && BooksWh(next) - BooksWh(s) == book.chemW + book.bleedW
      && next.energy.auxWh - AuxTotalW(next.energy.auxItems) == s.energy.auxWh - AuxTotalW(s.energy.auxItems)
      && book.chemW + book.bleedW - book.gapWh <= Charge(pl, s) - Charge(pl, next) <= book.chemW + book.bleedW
  {
    hide Tick, Dispatch, SiteBook, SiteStoredWh, SameCharge, Inv, Sound, AuxTotalW, NetOutWh;
    if op.OpTick? {
      TickLedger(pl, s, op.inputs);
      TickSettles(pl, s, op.inputs);
      hide BooksWh;
    } else if (op.OpApply? || op.OpDirect?) && Dispatch(s, op.action).Ok? {
      var next := Dispatch(s, op.action).value.site;
      DispatchMovesNothing(s, op.action);
      SameChargeShape(s.blocks, next.blocks);
      SameChargeStored(pl, s.blocks, next.blocks, |s.blocks|);
      MetersSame(s.substation, next.substation);
    }
  }

  lemma MetersSame(a: Substation, b: Substation)
    requires b == a.(breaker := b.breaker)
    ensures NetOutWh(b) == NetOutWh(a)
  {}

  /** The exact site ledger over every run of ticks and commands, breaker open or closed:
      export less import and station service, plus transformer, auxiliary, converter and
      battery losses, grow by exactly the chemical energy drawn plus the energy bled; and
      the metered auxiliary energy stays in step with the itemized one. */
  lemma {:induction false} RunLedger(pl: Plant, s: Site, ops: seq<Op>)
    requires Sound(pl) && Inv(pl, s)
    ensures var end, book := StateAfter(pl, s, ops), RunBook(pl, s, ops);
      && BooksWh(end) - BooksWh(s) == book.chemW + book.bleedW
      && end.energy.auxWh - AuxTotalW(end.energy.auxItems) == s.energy.auxWh - AuxTotalW(s.energy.auxItems)
  {
    hide Exec, OpBook, BooksWh, AuxTotalW, Inv, Sound;
    if ops != [] {
      RunLedger(pl, s, Init(ops));
      RunKeepsInv(pl, s, Init(ops));
      OpBooks(pl, StateAfter(pl, s, Init(ops)), Last(ops));
    }
  }

  /** What the site balance leaves over on a run: stored energy fallen less the books. */
  function ResidualWh(pl: Plant, s: Site, end: Site): real {
    (Charge(pl, s) - Charge(pl, end)) - (BooksWh(end) - BooksWh(s))
  }

  /** The site balance residual is one-signed and bounded on every run: stored energy never
      falls by more than the books say, and lags them by at most the sum of the per-rack
      gaps, capacity x cells x |change of OCV| x |change of SoC|. */
  lemma {:induction false} RunResidual(pl: Plant, s: Site, ops: seq<Op>)
    requires Sound(pl) && Inv(pl, s)
    ensures -RunBook(pl, s, ops).gapWh <= ResidualWh(pl, s, StateAfter(pl, s, ops)) <= 0.0
  {
    hide Exec, OpBook, BooksWh, AuxTotalW, Inv, Sound, Charge;
    if ops != [] {
      RunResidual(pl, s, Init(ops));
      RunKeepsInv(pl, s, Init(ops));
      OpBooks(pl, StateAfter(pl, s, Init(ops)), Last(ops));
    }
  }

  // ----- The log -----------------------------------------------------------------------------------

  /** One operation, its hand-out and what it leaves pending, on one channel. */
  lemma OpReplay(pl: Plant, s: Site, op: Op, v: Option<Value>, ch: Channel)
    requires Sound(pl) && Inv(pl, s) && HasChannel(s.blocks, ch)
    requires After(v, s.pending, ch) == Some(ValueAt(s.blocks, s.alarms, ch))
    ensures var next := Exec(pl, s, op);
      && SameShape(s.blocks, next.blocks) && HasChannel(next.blocks, ch)
      && After(v, HandedOut(pl, s, op) + next.pending, ch) == Some(ValueAt(next.blocks, next.alarms, ch))
  {
    hide ValueAt, After, Sound, TripSafe, BlocksGood;
    match op
    case OpTick(inputs) => TickReplay(pl, s, inputs, v, ch);
    case OpSetpoint(p) =>
      assert [] + s.pending == s.pending;
      SelfShape(s.blocks);
    case OpApply(a) =>
      if Dispatch(s, a).Ok? {
        MarkQuiet(s, a, v, ch);
        DispatchReplay(s, a, v, ch);
      }
      assert [] + Applied(s, a).pending == Applied(s, a).pending;
      SelfShape(s.blocks);
    case OpDirect(a) =>
      if Dispatch(s, a).Ok? {
        DispatchReplay(s, a, v, ch);
      }
      assert [] + Commanded(s, a).pending == Commanded(s, a).pending;
      SelfShape(s.blocks);
  }

  lemma SelfShape(a: seq<Block>)
    ensures SameShape(a, a)
  {}

  lemma TickHandsOut(pl: Plant, s: Site, inputs: Inputs)
    ensures var next := Tick(pl, s, inputs);
      && SameShape(s.blocks, next.blocks) && next.pending == []
      && Emitted(pl, s, inputs) == s.pending + SiteDiff(s.blocks, s.alarms, next.blocks, next.alarms)
  {
    TickKeepsShape(pl, s, inputs.weather);
    hide NextBlocks, AlarmsAfter, EmsAfter, AuxTick, SubstationTick, EnergyAfter, SiteDiff, SameShape;
  }

  lemma TickReplay(pl: Plant, s: Site, inputs: Inputs, v: Option<Value>, ch: Channel)
    requires Sound(pl) && Inv(pl, s) && HasChannel(s.blocks, ch)
    requires After(v, s.pending, ch) == Some(ValueAt(s.blocks, s.alarms, ch))
    ensures var next := Tick(pl, s, inputs);
      && SameShape(s.blocks, next.blocks) && HasChannel(next.blocks, ch)
      && After(v, Emitted(pl, s, inputs) + next.pending, ch) == Some(ValueAt(next.blocks, next.alarms, ch))
  {
    hide ValueAt, After, Sound, TripSafe, BlocksGood, Tick, Emitted, WordsOk, SameShape, HasChannel, SiteDiff,
      Touches, WordOk;
    TickKeepsWords(pl, s, inputs);
    TickHandsOut(pl, s, inputs);
    var next := Tick(pl, s, inputs);
    var diff := SiteDiff(s.blocks, s.alarms, next.blocks, next.alarms);
    AfterConcat(v, s.pending, diff, ch);
    DiffReplay(s.blocks, s.alarms, next.blocks, next.alarms, ch);
    assert Emitted(pl, s, inputs) + [] == s.pending + diff;
  }

  lemma DispatchReplay(s: Site, a: FaultAction, v: Option<Value>, ch: Channel)
    requires HasChannel(s.blocks, ch) && WordsOk(s.blocks, s.alarms) && Dispatch(s, a).Ok?
    requires After(v, s.pending, ch) == Some(ValueAt(s.blocks, s.alarms, ch))
    ensures var done := Dispatch(s, a).value;
      && SameShape(s.blocks, done.site.blocks) && HasChannel(done.site.blocks, ch)
      && After(v, s.pending + done.events, ch) == Some(ValueAt(done.site.blocks, done.site.alarms, ch))
      && After(v, s.pending + [FaultApplied(a)] + done.events, ch)
          == Some(ValueAt(done.site.blocks, done.site.alarms, ch))
  {
    hide Dispatch, ValueAt, After, WordsOk, HasChannel, SameShape;
    var done := Dispatch(s, a).value;
    DispatchExplained(s, a, ch);
    AfterConcat(v, s.pending, done.events, ch);
    AfterConcat(v, s.pending + [FaultApplied(a)], done.events, ch);
    MarkQuiet(s, a, v, ch);
  }

  lemma MarkQuiet(s: Site, a: FaultAction, v: Option<Value>, ch: Channel)
    ensures After(v, s.pending + [FaultApplied(a)], ch) == After(v, s.pending, ch)
  {
    AfterConcat(v, s.pending, [FaultApplied(a)], ch);
    AfterQuiet(After(v, s.pending, ch), [FaultApplied(a)], ch);
  }

  /** The log is complete on every run: for every alarm word and every converter state of
      the site, folding all events handed out and then the ones still pending over the
      first value gives exactly the last one, no raise meeting a set bit, no clear a clear
      one, no transition another state than it names. The log's count is the number of
      events handed out. */
  lemma {:induction false} LogComplete(pl: Plant, s: Site, ops: seq<Op>, ch: Channel)
    requires Sound(pl) && Inv(pl, s) && s.pending == [] && HasChannel(s.blocks, ch)
    ensures var end := StateAfter(pl, s, ops);
      && HasChannel(end.blocks, ch)
      && After(Some(ValueAt(s.blocks, s.alarms, ch)), RunLog(pl, s, ops) + end.pending, ch)
         == Some(ValueAt(end.blocks, end.alarms, ch))
      && end.eventCount == s.eventCount + |RunLog(pl, s, ops)|
  {
    hide ValueAt, Sound, Inv, HasChannel, Exec, HandedOut, After;
    var v := Some(ValueAt(s.blocks, s.alarms, ch));
    if ops == [] {
      AfterQuiet(v, [] + s.pending, ch);
    } else {
      var mid, op, before := StateAfter(pl, s, Init(ops)), Last(ops), RunLog(pl, s, Init(ops));
      LogComplete(pl, s, Init(ops), ch);
      RunKeepsInv(pl, s, Init(ops));
      AfterConcat(v, before, mid.pending, ch);
      OpReplay(pl, mid, op, After(v, before, ch), ch);
      var next := Exec(pl, mid, op);
      AfterConcat(v, before, HandedOut(pl, mid, op) + next.pending, ch);
      assert before + (HandedOut(pl, mid, op) + next.pending) == RunLog(pl, s, ops) + next.pending;
      CountStep(pl, mid, op);
    }
  }

  /** What an operation between ticks leaves pending: for `apply` its cause, then its
      effects; for a direct command its effects; nothing for a refusal or a setpoint. */
  function Leaves(pl: Plant, s: Site, op: Op): seq<Event> {
    if !(op.OpApply? || op.OpDirect?) || Dispatch(s, op.action).Err? then []
    else (if op.OpApply? then [FaultApplied(op.action)] else []) + Dispatch(s, op.action).value.events
  }

  function AllLeft(pl: Plant, s: Site, ops: seq<Op>): seq<Event> {
    if ops == [] then [] else AllLeft(pl, s, Init(ops)) + Leaves(pl, StateAfter(pl, s, Init(ops)), Last(ops))
  }

  /** Between two ticks the pending events read as cause, then its effects, command after
      command. */
  lemma {:induction false} PendingReads(pl: Plant, s: Site, ops: seq<Op>)
    requires forall op <- ops :: !op.OpTick?
    ensures StateAfter(pl, s, ops).pending == s.pending + AllLeft(pl, s, ops)
  {
    hide Exec, Leaves;
    if ops != [] {
      var mid, op := StateAfter(pl, s, Init(ops)), Last(ops);
      assert op in ops && forall x <- Init(ops) :: x in ops;
      PendingReads(pl, s, Init(ops));
      OpLeaves(pl, mid, op);
      assert s.pending + (AllLeft(pl, s, Init(ops)) + Leaves(pl, mid, op))
          == (s.pending + AllLeft(pl, s, Init(ops))) + Leaves(pl, mid, op);
    }
  }

  /** One operation appends what it leaves, and no effect is itself a cause. */
  lemma OpLeaves(pl: Plant, s: Site, op: Op)
    requires !op.OpTick?
    ensures Exec(pl, s, op).pending == s.pending + Leaves(pl, s, op)
    ensures (op.OpApply? || op.OpDirect?) && Dispatch(s, op.action).Ok? ==>
      forall e <- Dispatch(s, op.action).value.events :: !e.FaultApplied?
  {
    hide Dispatch, Tick;
    if op.OpApply? || op.OpDirect? {
      EffectsAreEffects(s, op.action);
    }
  }

  lemma CountStep(pl: Plant, s: Site, op: Op)
    ensures Exec(pl, s, op).eventCount == s.eventCount + |HandedOut(pl, s, op)|
  {
    hide Emitted, NextBlocks, AlarmsAfter, EmsAfter, AuxTick, SubstationTick, EnergyAfter, ResetBlock, WordChanges,
      ResetBlockEvents, ResetSiteEvents, TripEvents;
  }
}
