/** The door is atomic and honest, and its events replay to what it did. */
module CommandLaws {
  import opened Wrappers
  import opened State
  import opened Words
  import opened Log
  import opened Kernel
  import opened Commands

  // ----- Nothing to say is nothing done -------------------------------------------------

  lemma {:induction false} ChangesEmpty(node: Node, old_: Word, new_: Word, k: nat)
    ensures Changes(node, old_, new_, k) == [] <==> forall b :: 0 <= b < k ==> (b in old_ <==> b in new_)
  {
    if k > 0 { ChangesEmpty(node, old_, new_, k - 1); }
  }

  lemma ResetWordSilent(node: Node, w: Word)
    ensures WordChanges(node, w, ClearTrips(w)) == [] <==> ClearTrips(w) == w
  {
    ChangesEmpty(node, w, ClearTrips(w), 16);
    if forall b :: 0 <= b < 16 ==> (b in w <==> b in ClearTrips(w)) {
      assert forall b :: b in w ==> b in ClearTrips(w);
    }
  }

  lemma {:induction false} ResetRacksSilent(b: nat, c: nat, racks: seq<Rack>, k: nat)
    requires k <= |racks|
    ensures RacksDiff(b, c, racks, ResetRacks(racks, |racks|), k) == []
       <==> forall r :: 0 <= r < k ==> ResetRack(racks[r]) == racks[r]
  {
    if k > 0 {
      ResetRacksSilent(b, c, racks, k - 1);
      ResetWordSilent(RackNode(b, c, k - 1), racks[k - 1].alarms);
      hide WordChanges, ClearTrips;
    }
  }

  lemma ResetContainerSilent(b: nat, c: nat, container: Container)
    ensures RacksDiff(b, c, container.racks, ResetContainer(container).racks, |container.racks|) == []
       <==> ResetContainer(container) == container
  {
    ResetRacksSilent(b, c, container.racks, |container.racks|);
    hide RacksDiff, ResetRack;
    if ResetContainer(container) == container {
      assert forall r :: 0 <= r < |container.racks| ==>
          ResetContainer(container).racks[r] == ResetRack(container.racks[r]);
    } else {
      assert ResetContainer(container).racks != container.racks;
    }
  }

  lemma {:induction false} ResetContainersSilent(b: nat, cs: seq<Container>, k: nat)
    requires k <= |cs|
    ensures SameRacks(cs, ResetContainers(cs, |cs|))
    ensures ContainersDiff(b, cs, ResetContainers(cs, |cs|), k) == []
       <==> forall c :: 0 <= c < k ==> ResetContainer(cs[c]) == cs[c]
  {
    hide ContainersDiff, RacksDiff, ResetContainer, ResetContainers, SameRacks;
    ContainersNone(b, cs);
    if k > 0 {
      ResetContainersSilent(b, cs, k - 1);
      ResetContainerSilent(b, k - 1, cs[k - 1]);
      ContainersNext(b, cs, k - 1);
      EmptyJoin(ContainersDiff(b, cs, ResetContainers(cs, |cs|), k - 1),
                RacksDiff(b, k - 1, cs[k - 1].racks, ResetContainer(cs[k - 1]).racks, |cs[k - 1].racks|));
    }
  }

  lemma ContainersNone(b: nat, cs: seq<Container>)
    ensures SameRacks(cs, ResetContainers(cs, |cs|)) && ContainersDiff(b, cs, ResetContainers(cs, |cs|), 0) == []
  {}

  lemma ContainersNext(b: nat, cs: seq<Container>, c: nat)
    requires c < |cs| && SameRacks(cs, ResetContainers(cs, |cs|))
    ensures var next := ResetContainers(cs, |cs|);
      && next[c] == ResetContainer(cs[c]) && |next[c].racks| == |cs[c].racks|
      && ContainersDiff(b, cs, next, c + 1)
         == ContainersDiff(b, cs, next, c) + RacksDiff(b, c, cs[c].racks, next[c].racks, |cs[c].racks|)
  {
    hide RacksDiff, Touches;
  }

  lemma ResetBlockSilent(b: nat, block: Block)
    ensures ResetBlockEvents(b, block) == [] <==> ResetBlock(block) == block
  {
    var cs := block.containers;
    ResetContainersSilent(b, cs, |cs|);
    ResetWordSilent(BlockNode(b), block.alarms);
    hide ContainersDiff, WordChanges, ClearTrips, ResetContainer;
    if forall c :: 0 <= c < |cs| ==> ResetContainer(cs[c]) == cs[c] {
      assert ResetContainers(cs, |cs|) == cs;
    } else {
      var c :| 0 <= c < |cs| && ResetContainer(cs[c]) != cs[c];
      assert ResetContainers(cs, |cs|)[c] != cs[c];
    }
  }

  lemma {:induction false} ResetBlocksSilent(blocks: seq<Block>, k: nat)
    requires k <= |blocks|
    ensures ResetBlocksEvents(blocks, k) == [] <==> forall b :: 0 <= b < k ==> ResetBlock(blocks[b]) == blocks[b]
  {
    hide ResetBlock, ResetBlockEvents, Concerns;
    if k > 0 {
      ResetBlocksSilent(blocks, k - 1);
      ResetBlockSilent(k - 1, blocks[k - 1]);
      EmptyJoin(ResetBlocksEvents(blocks, k - 1), ResetBlockEvents(k - 1, blocks[k - 1]));
    }
  }

  lemma EmptyJoin<T>(a: seq<T>, b: seq<T>)
    ensures a + b == [] <==> a == [] && b == []
  {}

  /** A site reset is silent exactly when it changes nothing. On a tripped site it never
      is, because the trip bit it clears is latched. */
  lemma ResetSiteSilent(s: Site)
    requires TripMeansOpen(s)
    ensures ResetSiteEvents(s) == [] <==> ResetSite(s) == s
  {
    ResetBlocksSilent(s.blocks, |s.blocks|);
    ResetWordSilent(SiteNode, s.alarms);
    hide ResetBlocksEvents, WordChanges, ResetBlock;
    if forall b :: 0 <= b < |s.blocks| ==> ResetBlock(s.blocks[b]) == s.blocks[b] {
      assert ResetBlocks(s.blocks, |s.blocks|) == s.blocks;
    } else {
      var b :| 0 <= b < |s.blocks| && ResetBlock(s.blocks[b]) != s.blocks[b];
      assert ResetBlocks(s.blocks, |s.blocks|)[b] != s.blocks[b];
    }
  }

  // ----- Atomic and honest -----------------------------------------------------------------

  lemma BlockUpdated(s: Site, b: nat, block: Block)
    requires b < |s.blocks|
    ensures WithBlock(s, b, block) == s <==> block == s.blocks[b]
  {
    assert s.blocks[b := block][b] == block;
    assert block == s.blocks[b] ==> s.blocks[b := block] == s.blocks;
  }

  lemma ContainerUpdated(s: Site, b: nat, c: nat, container: Container)
    requires HasContainer(s, b, c)
    ensures WithContainer(s, b, c, container) == s <==> container == s.blocks[b].containers[c]
  {
    var bb := s.blocks[b];
    BlockUpdated(s, b, bb.(containers := bb.containers[c := container]));
    assert bb.containers[c := container][c] == container;
    assert container == bb.containers[c] ==> bb.containers[c := container] == bb.containers;
  }

  /** An action is accepted exactly when every node it names exists, and answers
      `changed` exactly when it changes the tree or has something to log. */
  lemma DispatchHonest(s: Site, a: FaultAction)
    requires TripMeansOpen(s)
    ensures Dispatch(s, a).Ok? <==> Addresses(s, a)
    ensures Dispatch(s, a).Ok? ==>
      var done := Dispatch(s, a).value;
      (done.changed <==> done.site != s) && (!done.changed ==> done.events == [])
  {
    hide ResetBlock, ResetSite, ResetSiteEvents, ResetBlockEvents, WithBlock, WithContainer, WithRack, WordChanges;
    match a
    case HvacFailure(b, c) =>
      if HasContainer(s, b, c) { HvacHonest(s, b, c, true); }
    case HvacRepair(b, c) =>
      if HasContainer(s, b, c) { HvacHonest(s, b, c, false); }
    case PcsTrip(b) =>
      if b < |s.blocks| { BlockUpdated(s, b, Tripped(s.blocks[b])); }
    case ProtectionTrip =>
    case RackSelfDischarge(b, c, r, ppm) =>
      if HasRack(s.blocks, b, c, r) {
        RackHonest(s, b, c, r, RackAt(s, b, c, r).(selfDischargeExcess := ppm as real * 0.000001 / DAY_S));
      }
    case RackIsolate(b, c, r) =>
      if HasRack(s.blocks, b, c, r) { RackHonest(s, b, c, r, RackAt(s, b, c, r).(inService := false)); }
    case RackRestore(b, c, r) =>
      if HasRack(s.blocks, b, c, r) { RackHonest(s, b, c, r, RackAt(s, b, c, r).(inService := true)); }
    case BlockMaintenanceEnter(b) =>
      if b < |s.blocks| { BlockUpdated(s, b, s.blocks[b].(mode := Maintenance)); }
    case BlockMaintenanceExit(b) =>
      if b < |s.blocks| { BlockUpdated(s, b, s.blocks[b].(mode := InService)); }
    case AlarmReset(SiteScope) => ResetSiteSilent(s);
    case AlarmReset(BlockScope(b)) =>
      if b < |s.blocks| {
        ResetBlockSilent(b, s.blocks[b]);
        BlockUpdated(s, b, ResetBlock(s.blocks[b]));
      }
    case AlarmReset(RackScope(b, c, r)) =>
      if HasRack(s.blocks, b, c, r) {
        ResetWordSilent(RackNode(b, c, r), RackAt(s, b, c, r).alarms);
        RackHonest(s, b, c, r, ResetRack(RackAt(s, b, c, r)));
      }
  }

  lemma HvacHonest(s: Site, b: nat, c: nat, failed: bool)
    requires HasContainer(s, b, c)
    ensures var container := s.blocks[b].containers[c];
      WithContainer(s, b, c, container.(hvac := container.hvac.(failed := failed))) == s
      <==> container.hvac.failed == failed
  {
    var container := s.blocks[b].containers[c];
    ContainerUpdated(s, b, c, container.(hvac := container.hvac.(failed := failed)));
  }

  lemma RackHonest(s: Site, b: nat, c: nat, r: nat, rack: Rack)
    requires HasRack(s.blocks, b, c, r)
    ensures WithRack(s, b, c, r, rack) == s <==> rack == RackAt(s, b, c, r)
  {
    var cc := s.blocks[b].containers[c];
    ContainerUpdated(s, b, c, cc.(racks := cc.racks[r := rack]));
    assert cc.racks[r := rack][r] == rack;
    assert rack == cc.racks[r] ==> cc.racks[r := rack] == cc.racks;
  }

  /** `apply` on a reachable tree: a refusal leaves it as it was, without a mark; an
      accepted action appends its mark and then its effects; and it answers `false`
      exactly when the tree is unchanged but for the mark. */
  lemma ApplyHonest(s: Site, a: FaultAction)
    requires TripMeansOpen(s)
    ensures !Addresses(s, a) ==> Dispatch(s, a).Err? && Applied(s, a) == s
    ensures Addresses(s, a) ==>
      && Dispatch(s, a).Ok?
      && Applied(s, a).pending == s.pending + [FaultApplied(a)] + Dispatch(s, a).value.events
      && (forall e <- Dispatch(s, a).value.events :: !e.FaultApplied?)
      && (!Dispatch(s, a).value.changed <==> Applied(s, a) == s.(pending := s.pending + [FaultApplied(a)]))
  {
    DispatchHonest(s, a);
    EffectsAreEffects(s, a);
    PendingUntouched(s, a);
    hide Dispatch, Addresses;
    if Dispatch(s, a).Ok? {
      var done := Dispatch(s, a).value;
      var mark := s.pending + [FaultApplied(a)];
      assert done.site == s ==> mark + done.events == mark;
      if Applied(s, a) == s.(pending := mark) {
        assert |mark + done.events| == |mark|;
        assert done.site == s.(pending := done.site.pending);
      }
    }
  }

  lemma PendingUntouched(s: Site, a: FaultAction)
    ensures Dispatch(s, a).Ok? ==> Dispatch(s, a).value.site.pending == s.pending
  {
    hide ResetBlock, AllTripped, ResetBlocks, ResetSiteEvents, ResetBlockEvents, WordChanges, TripEvents;
  }

  lemma EffectsAreEffects(s: Site, a: FaultAction)
    ensures Dispatch(s, a).Ok? ==> forall e <- Dispatch(s, a).value.events :: Touches(e).Some?
  {
    hide ResetBlock, AllTripped, ResetBlocks, WithRack, WithContainer, WithBlock, ResetBlockEvents, WordChanges,
      TripEvents, ResetBlocksEvents;
  }

  // ----- Commands and the log --------------------------------------------------------------

  lemma ClearTripsOk(w: Word)
    requires WordOk(w)
    ensures WordOk(ClearTrips(w))
  {}

  /** Replaying one block's reset events over it gives the reset block. */
  lemma ResetBlockReplay(blocks: seq<Block>, next: seq<Block>, site: Word, b: nat, ch: Channel)
    requires |next| == |blocks| && b < |blocks| && next[b] == ResetBlock(blocks[b])
    requires HasChannel(blocks, ch) && BlockOf(ch) == Some(b) && BlockWordsOk(blocks[b])
    ensures HasChannel(next, ch)
    ensures After(Some(ValueAt(blocks, site, ch)), ResetBlockEvents(b, blocks[b]), ch) == Some(ValueAt(next, site, ch))
  {
    var old_, new_ := blocks[b], next[b];
    var v := Some(ValueAt(blocks, site, ch));
    var pcs := PcsChange(b, old_.pcs, new_.pcs);
    var word := WordChanges(BlockNode(b), old_.alarms, new_.alarms);
    var racks := ContainersDiff(b, old_.containers, new_.containers, |old_.containers|);
    AfterConcat(v, pcs + word, racks, ch);
    AfterConcat(v, pcs, word, ch);
    hide ContainersDiff, WordChanges, Changes;
    match ch
    case WordOf(BlockNode(_)) =>
      AfterQuiet(v, pcs, ch);
      ClearTripsOk(old_.alarms);
      WordReplay(BlockNode(b), old_.alarms, new_.alarms);
      AfterQuiet(Some(ValueAt(next, site, ch)), racks, ch);
    case WordOf(RackNode(_, c, r)) =>
      AfterQuiet(v, pcs, ch);
      AfterQuiet(v, word, ch);
      ClearTripsOk(old_.containers[c].racks[r].alarms);
      ContainersReplay(b, old_.containers, new_.containers, |old_.containers|, c, r);
    case PcsOf(_) =>
      if pcs != [] {
        AfterOne(v.value, pcs[0], ch);
      }
      AfterQuiet(Some(ValueAt(next, site, ch)), word, ch);
      AfterQuiet(Some(ValueAt(next, site, ch)), racks, ch);
  }

  lemma {:induction false} ResetBlocksReplay(blocks: seq<Block>, site: Word, k: nat, ch: Channel)
    requires k <= |blocks| && HasChannel(blocks, ch) && WordsOk(blocks, site)
    ensures HasChannel(ResetBlocks(blocks, |blocks|), ch)
    ensures After(Some(ValueAt(blocks, site, ch)), ResetBlocksEvents(blocks, k), ch)
         == Some(if BlockOf(ch).Some? && BlockOf(ch).value < k then ValueAt(ResetBlocks(blocks, |blocks|), site, ch)
                 else ValueAt(blocks, site, ch))
  {
    hide ValueAt, ResetBlock, ResetBlockEvents, BlockWordsOk, Touches, Step;
    ResetKeepsChannels(blocks, ch);
    if k > 0 {
      var v := Some(ValueAt(blocks, site, ch));
      var last := ResetBlockEvents(k - 1, blocks[k - 1]);
      ResetBlocksReplay(blocks, site, k - 1, ch);
      AfterConcat(v, ResetBlocksEvents(blocks, k - 1), last, ch);
      if BlockOf(ch) == Some(k - 1) {
        ResetBlockReplay(blocks, ResetBlocks(blocks, |blocks|), site, k - 1, ch);
      } else {
        AfterQuiet(After(v, ResetBlocksEvents(blocks, k - 1), ch), last, ch);
      }
      hide After, HasChannel, ResetBlocks;
    }
  }

  lemma ResetKeepsChannels(blocks: seq<Block>, ch: Channel)
    requires HasChannel(blocks, ch)
    ensures HasChannel(ResetBlocks(blocks, |blocks|), ch) && SameShape(blocks, ResetBlocks(blocks, |blocks|))
  {
    ResetKeepsShape(blocks);
    ShapeKeepsChannels(blocks, ResetBlocks(blocks, |blocks|), ch);
  }

  lemma ResetKeepsShape(blocks: seq<Block>)
    ensures SameShape(blocks, ResetBlocks(blocks, |blocks|))
  {
    hide ResetBlock, SameRacks;
    forall b | 0 <= b < |blocks|
      ensures SameRacks(blocks[b].containers, ResetBlocks(blocks, |blocks|)[b].containers)
    {
      assert ResetBlocks(blocks, |blocks|)[b] == ResetBlock(blocks[b]);
    }
  }

  lemma {:induction false} TripReplay(blocks: seq<Block>, k: nat, b: nat)
    requires k <= |blocks| && b < |blocks|
    ensures After(Some(PcsValue(blocks[b].pcs.opState)), TripEvents(blocks, k), PcsOf(b))
         == Some(PcsValue(if b < k then Fault else blocks[b].pcs.opState))
  {
    hide PcsChange, After, Touches, Step, Tripped;
    var v, ch := Some(PcsValue(blocks[b].pcs.opState)), PcsOf(b);
    if k == 0 {
      AfterQuiet(v, [], ch);
    } else {
      var init, last := TripEvents(blocks, k - 1), PcsChange(k - 1, blocks[k - 1].pcs, Tripped(blocks[k - 1]).pcs);
      assert TripEvents(blocks, k) == init + last;
      hide TripEvents;
      TripReplay(blocks, k - 1, b);
      AfterConcat(v, init, last, ch);
      TripStep(blocks, k - 1, b);
    }
  }

  lemma TripStep(blocks: seq<Block>, k: nat, b: nat)
    requires k < |blocks| && b < |blocks|
    ensures After(Some(PcsValue(if b < k then Fault else blocks[b].pcs.opState)),
                  PcsChange(k, blocks[k].pcs, Tripped(blocks[k]).pcs), PcsOf(b))
         == Some(PcsValue(if b < k + 1 then Fault else blocks[b].pcs.opState))
  {
    hide PcsChange, After, Step;
    if b == k {
      PcsReplay(b, blocks[b].pcs, Tripped(blocks[b]).pcs);
    } else {
      AfterQuiet(Some(PcsValue(if b < k then Fault else blocks[b].pcs.opState)),
                 PcsChange(k, blocks[k].pcs, Tripped(blocks[k]).pcs), PcsOf(b));
    }
  }

  /** What a command owes the log: the shape and the laid-out words stay, and replaying
      its events over the tree before gives the tree after, on one channel. */
  ghost predicate Explained(s: Site, done: Done, ch: Channel) {
    && SameShape(s.blocks, done.site.blocks) && HasChannel(s.blocks, ch) && HasChannel(done.site.blocks, ch)
    && After(Some(ValueAt(s.blocks, s.alarms, ch)), done.events, ch)
       == Some(ValueAt(done.site.blocks, done.site.alarms, ch))
  }

  lemma TripExplained(s: Site, ch: Channel)
    requires HasChannel(s.blocks, ch) && WordsOk(s.blocks, s.alarms)
    ensures Explained(s, TripProtection(s), ch) && WordsOk(TripProtection(s).site.blocks, TripProtection(s).site.alarms)
  {
    TripWords(s);
    hide After, TripEvents, AllTripped, ValueAt, WordsOk, HasChannel, SameShape, Touches;
    var done := TripProtection(s);
    var v := Some(ValueAt(s.blocks, s.alarms, ch));
    SameShapeSelf(s.blocks);
    if PROTECTION_TRIP in s.alarms {
      AfterQuiet(v, [], ch);
    } else {
      var raise := AlarmRaised(SiteNode, PROTECTION_TRIP, SeverityOf(PROTECTION_TRIP));
      var pcs := TripEvents(s.blocks, |s.blocks|);
      TripShape(s.blocks, ch);
      AfterConcat(v, [raise], pcs, ch);
      RaiseExplained(s, raise, ch);
      TripsExplained(s, ch);
    }
  }

  lemma TripWords(s: Site)
    requires WordsOk(s.blocks, s.alarms)
    ensures WordsOk(TripProtection(s).site.blocks, TripProtection(s).site.alarms)
  {
    hide TripEvents;
  }

  lemma SameShapeSelf(a: seq<Block>)
    ensures SameShape(a, a)
  {}

  lemma TripShape(blocks: seq<Block>, ch: Channel)
    requires HasChannel(blocks, ch)
    ensures SameShape(blocks, AllTripped(blocks, |blocks|)) && HasChannel(AllTripped(blocks, |blocks|), ch)
  {}

  /** The raise of the trip bit, on one channel. */
  lemma RaiseExplained(s: Site, raise: Event, ch: Channel)
    requires HasChannel(s.blocks, ch) && PROTECTION_TRIP !in s.alarms
    requires raise == AlarmRaised(SiteNode, PROTECTION_TRIP, SeverityOf(PROTECTION_TRIP))
    ensures After(Some(ValueAt(s.blocks, s.alarms, ch)), [raise], ch)
         == Some(ValueAt(s.blocks, WithBit(s.alarms, PROTECTION_TRIP, true), ch))
  {
    hide After;
    if ch == WordOf(SiteNode) {
      AfterOne(ValueAt(s.blocks, s.alarms, ch), raise, ch);
    } else {
      AfterQuiet(Some(ValueAt(s.blocks, s.alarms, ch)), [raise], ch);
    }
  }

  /** The converters' transitions, on one channel. */
  lemma TripsExplained(s: Site, ch: Channel)
    requires HasChannel(s.blocks, ch)
    ensures HasChannel(AllTripped(s.blocks, |s.blocks|), ch)
    ensures var w, blocks := WithBit(s.alarms, PROTECTION_TRIP, true), AllTripped(s.blocks, |s.blocks|);
      After(Some(ValueAt(s.blocks, w, ch)), TripEvents(s.blocks, |s.blocks|), ch) == Some(ValueAt(blocks, w, ch))
  {
    hide After, TripEvents;
    var w := WithBit(s.alarms, PROTECTION_TRIP, true);
    match ch
    case PcsOf(b) => TripReplay(s.blocks, |s.blocks|, b);
    case WordOf(_) => AfterQuiet(Some(ValueAt(s.blocks, w, ch)), TripEvents(s.blocks, |s.blocks|), ch);
  }

  lemma OnlySiteReadsSite(blocks: seq<Block>, w: Word, w': Word, ch: Channel)
    requires HasChannel(blocks, ch)
    ensures if ch == WordOf(SiteNode) then ValueAt(blocks, w, ch) == WordValue(w)
            else ValueAt(blocks, w, ch) == ValueAt(blocks, w', ch)
  {}

  lemma ResetSiteExplained(s: Site, changed: bool, ch: Channel)
    requires HasChannel(s.blocks, ch) && WordsOk(s.blocks, s.alarms)
    ensures Explained(s, Done(ResetSite(s), ResetSiteEvents(s), changed), ch)
  {
    hide ResetBlock, WordChanges, ResetBlocksEvents, BlockWordsOk, ValueAt, ResetBlocks, After, Touches;
    var v := Some(ValueAt(s.blocks, s.alarms, ch));
    var blocks, word := ResetBlocksEvents(s.blocks, |s.blocks|), WordChanges(SiteNode, s.alarms, ClearTrips(s.alarms));
    ResetBlocksReplay(s.blocks, s.alarms, |s.blocks|, ch);
    ResetKeepsChannels(s.blocks, ch);
    AfterConcat(v, blocks, word, ch);
    OnlySiteReadsSite(ResetBlocks(s.blocks, |s.blocks|), s.alarms, ClearTrips(s.alarms), ch);
    OnlySiteReadsSite(ResetBlocks(s.blocks, |s.blocks|), ClearTrips(s.alarms), s.alarms, ch);
    OnlySiteReadsSite(s.blocks, s.alarms, s.alarms, ch);
    ClearTripsOk(s.alarms);
    if ch == WordOf(SiteNode) {
      WordReplay(SiteNode, s.alarms, ClearTrips(s.alarms));
    } else {
      AfterQuiet(After(v, blocks, ch), word, ch);
    }
  }

  lemma ResetBlockExplained(s: Site, b: nat, changed: bool, ch: Channel)
    requires b < |s.blocks| && HasChannel(s.blocks, ch) && WordsOk(s.blocks, s.alarms)
    ensures Explained(s, Done(WithBlock(s, b, ResetBlock(s.blocks[b])), ResetBlockEvents(b, s.blocks[b]), changed), ch)
  {
    var next := WithBlock(s, b, ResetBlock(s.blocks[b]));
    if BlockOf(ch) == Some(b) {
      ResetBlockReplay(s.blocks, next.blocks, s.alarms, b, ch);
    } else {
      AfterQuiet(Some(ValueAt(s.blocks, s.alarms, ch)), ResetBlockEvents(b, s.blocks[b]), ch);
    }
  }

  lemma ResetRackExplained(s: Site, b: nat, c: nat, r: nat, changed: bool, ch: Channel)
    requires HasRack(s.blocks, b, c, r) && HasChannel(s.blocks, ch) && WordsOk(s.blocks, s.alarms)
    ensures var w := RackAt(s, b, c, r).alarms;
      Explained(s, Done(WithRack(s, b, c, r, ResetRack(RackAt(s, b, c, r))),
          WordChanges(RackNode(b, c, r), w, ClearTrips(w)), changed), ch)
  {
    var w := RackAt(s, b, c, r).alarms;
    ClearTripsOk(w);
    if ch == WordOf(RackNode(b, c, r)) {
      WordReplay(RackNode(b, c, r), w, ClearTrips(w));
    } else {
      AfterQuiet(Some(ValueAt(s.blocks, s.alarms, ch)), WordChanges(RackNode(b, c, r), w, ClearTrips(w)), ch);
    }
  }

  /** A rack changed in nothing the log speaks of. */
  lemma RackSetExplained(s: Site, b: nat, c: nat, r: nat, rack: Rack, changed: bool, ch: Channel)
    requires HasRack(s.blocks, b, c, r) && rack.alarms == RackAt(s, b, c, r).alarms && HasChannel(s.blocks, ch)
    ensures Explained(s, Done(WithRack(s, b, c, r, rack), [], changed), ch)
  {}

  /** Every accepted action leaves events that replay to what it did. */
  lemma DispatchExplained(s: Site, a: FaultAction, ch: Channel)
    requires HasChannel(s.blocks, ch) && WordsOk(s.blocks, s.alarms) && Dispatch(s, a).Ok?
    ensures Explained(s, Dispatch(s, a).value, ch)
  {
    hide WordChanges, ResetBlockEvents, ResetSiteEvents, ResetBlock, ResetSite, TripProtection, WordsOk, Explained,
      WithRack, WithBlock;
    match a
    case HvacFailure(b, c) => ContainerSetExplained(s, b, c, true, ch);
    case HvacRepair(b, c) => ContainerSetExplained(s, b, c, false, ch);
    case PcsTrip(b) => TripPcsExplained(s, b, ch);
    case ProtectionTrip => TripExplained(s, ch);
    case RackSelfDischarge(b, c, r, ppm) =>
      RackSetExplained(s, b, c, r, RackAt(s, b, c, r).(selfDischargeExcess := ppm as real * 0.000001 / DAY_S),
                       Dispatch(s, a).value.changed, ch);
    case RackIsolate(b, c, r) =>
      RackSetExplained(s, b, c, r, RackAt(s, b, c, r).(inService := false), Dispatch(s, a).value.changed, ch);
    case RackRestore(b, c, r) =>
      RackSetExplained(s, b, c, r, RackAt(s, b, c, r).(inService := true), Dispatch(s, a).value.changed, ch);
    case BlockMaintenanceEnter(b) => ModeSetExplained(s, b, Maintenance, ch);
    case BlockMaintenanceExit(b) => ModeSetExplained(s, b, InService, ch);
    case AlarmReset(SiteScope) => ResetSiteExplained(s, Dispatch(s, a).value.changed, ch);
    case AlarmReset(BlockScope(b)) => ResetBlockExplained(s, b, Dispatch(s, a).value.changed, ch);
    case AlarmReset(RackScope(b, c, r)) => ResetRackExplained(s, b, c, r, Dispatch(s, a).value.changed, ch);
  }

  lemma ContainerSetExplained(s: Site, b: nat, c: nat, failed: bool, ch: Channel)
    requires HasContainer(s, b, c) && HasChannel(s.blocks, ch)
    ensures Explained(s, SetHvacFailed(s, b, c, failed).value, ch)
  {}

  lemma ModeSetExplained(s: Site, b: nat, mode: BlockMode, ch: Channel)
    requires b < |s.blocks| && HasChannel(s.blocks, ch)
    ensures Explained(s, SetBlockMode(s, b, mode).value, ch)
  {}

  lemma TripPcsExplained(s: Site, b: nat, ch: Channel)
    requires b < |s.blocks| && HasChannel(s.blocks, ch)
    ensures Explained(s, TripPcs(s, b).value, ch)
  {
    var done := TripPcs(s, b).value;
    if done.events != [] {
      if ch == PcsOf(b) {
        AfterOne(ValueAt(s.blocks, s.alarms, ch), done.events[0], ch);
      } else {
        AfterQuiet(Some(ValueAt(s.blocks, s.alarms, ch)), done.events, ch);
      }
    }
  }
}
