/** The order of the log: what one tick or one command changes is logged in tree order, at
    most once a bit and once a converter; so is the list of causes a reset hands back. */
module EventOrderLaws {
  import opened Wrappers
  import opened State
  import opened Words
  import opened Log
  import opened Plants
  import opened Kernel
  import opened Commands
  import opened Causes

  /** Where an entry stands: by block, by stage inside the block, by rack, by bit. */
  datatype Key = Key(block: int, stage: int, container: int, rack: int, bit: int)

  predicate Less(a: Key, b: Key) {
    a.block < b.block
    || (a.block == b.block
        && (a.stage < b.stage
            || (a.stage == b.stage
                && (a.container < b.container
                    || (a.container == b.container
                        && (a.rack < b.rack || (a.rack == b.rack && a.bit < b.bit)))))))
  }

  // ----- Rows of entries ------------------------------------------------------------------

  /** Strictly rising keys. */
  predicate InOrder<T>(row: seq<T>, key: T -> Key) {
    forall i, j :: 0 <= i < j < |row| ==> Less(key(row[i]), key(row[j]))
  }

  /** In order, from one key on and before another. */
  predicate Span<T>(row: seq<T>, key: T -> Key, lo: Key, hi: Key) {
    InOrder(row, key) && forall i :: 0 <= i < |row| ==> !Less(key(row[i]), lo) && Less(key(row[i]), hi)
  }

  lemma Join<T>(a: seq<T>, b: seq<T>, key: T -> Key, lo: Key, mid: Key, hi: Key)
    requires Span(a, key, lo, mid) && Span(b, key, mid, hi) && !Less(mid, lo) && !Less(hi, mid)
    ensures Span(a + b, key, lo, hi)
  {
    forall i, j | 0 <= i < j < |a + b|
      ensures Less(key((a + b)[i]), key((a + b)[j]))
    {
      Apart(key((a + b)[i]), mid, key((a + b)[j]));
    }
    forall i | 0 <= i < |a + b|
      ensures !Less(key((a + b)[i]), lo) && Less(key((a + b)[i]), hi)
    {
      Ordered(key((a + b)[i]), lo, mid, hi);
    }
    hide Less;
  }

  lemma Apart(x: Key, mid: Key, y: Key)
    ensures Less(x, mid) && !Less(y, mid) ==> Less(x, y)
  {}

  lemma Ordered(x: Key, lo: Key, mid: Key, hi: Key)
    requires !Less(mid, lo) && !Less(hi, mid)
    ensures (Less(x, mid) ==> Less(x, hi)) && (!Less(x, mid) ==> !Less(x, lo))
  {}

  lemma Widen<T>(row: seq<T>, key: T -> Key, lo: Key, hi: Key, lo': Key, hi': Key)
    requires Span(row, key, lo, hi) && !Less(lo, lo') && !Less(hi', hi)
    ensures Span(row, key, lo', hi')
  {
    forall i | 0 <= i < |row|
      ensures !Less(key(row[i]), lo') && Less(key(row[i]), hi')
    {
      Ordered(key(row[i]), lo', lo, hi');
      Ordered(key(row[i]), lo', hi, hi');
    }
    hide Less;
  }

  lemma NoneIn<T>(key: T -> Key, lo: Key, hi: Key)
    ensures Span([], key, lo, hi)
  {}

  lemma OneIn<T>(x: T, key: T -> Key, lo: Key, hi: Key)
    requires !Less(key(x), lo) && Less(key(x), hi)
    ensures Span([x], key, lo, hi)
  {}

  // ----- Keys --------------------------------------------------------------------------------

  /** The order of the stages of a block. */
  datatype Stages = Stages(racks: int, pcs: int, word: int)

  /** A tick logs the racks, the converter, then the block; a reset the converter, the block,
      then the racks. */
  const TICKING := Stages(0, 1, 2)
  const RESETTING := Stages(2, 0, 1)

  function NodeKey(node: Node, bit: int, at: Stages, blocks: nat): Key {
    match node
    case SiteNode => Key(blocks, 0, 0, 0, bit)
    case BlockNode(b) => Key(b, at.word, 0, 0, bit)
    case RackNode(b, c, r) => Key(b, at.racks, c, r, bit)
  }

  function KeyOf(e: Event, at: Stages, blocks: nat): Key {
    match e
    case PcsStateChanged(b, _, _) => Key(b, at.pcs, 0, 0, 0)
    case AlarmRaised(node, bit, _) => NodeKey(node, bit, at, blocks)
    case AlarmCleared(node, bit, _) => NodeKey(node, bit, at, blocks)
    case FaultApplied(_) => Key(-1, 0, 0, 0, 0)
  }

  function ByTree(at: Stages, blocks: nat): Event -> Key {
    (e: Event) => KeyOf(e, at, blocks)
  }

  // ----- One word ---------------------------------------------------------------------------

  lemma {:induction false} ChangesSpan(node: Node, old_: Word, new_: Word, k: nat, at: Stages, blocks: nat)
    ensures Span(Changes(node, old_, new_, k), ByTree(at, blocks), NodeKey(node, 0, at, blocks),
        NodeKey(node, k, at, blocks))
  {
    hide Span;
    var key, lo := ByTree(at, blocks), NodeKey(node, 0, at, blocks);
    var mid, hi := NodeKey(node, k - 1, at, blocks), NodeKey(node, k, at, blocks);
    if k == 0 {
      NoneIn(key, lo, hi);
    } else {
      ChangesSpan(node, old_, new_, k - 1, at, blocks);
      if (k - 1 in old_) == (k - 1 in new_) {
        Widen(Changes(node, old_, new_, k - 1), key, lo, mid, lo, hi);
      } else {
        var e := ChangeOf(node, k - 1, k - 1 in new_);
        OneIn(e, key, mid, hi);
        Join(Changes(node, old_, new_, k - 1), [e], key, lo, mid, hi);
      }
    }
  }

  lemma WordSpan(node: Node, old_: Word, new_: Word, at: Stages, blocks: nat)
    ensures Span(WordChanges(node, old_, new_), ByTree(at, blocks), NodeKey(node, 0, at, blocks),
        NodeKey(node, 16, at, blocks))
  {
    hide Changes, Span;
    ChangesSpan(node, old_, new_, 16, at, blocks);
  }

  // ----- Racks -------------------------------------------------------------------------------

  lemma {:induction false} RacksSpan(b: nat, c: nat, old_: seq<Rack>, new_: seq<Rack>, k: nat, at: Stages, blocks: nat)
    requires k <= |old_| == |new_|
    ensures Span(RacksDiff(b, c, old_, new_, k), ByTree(at, blocks), Key(b, at.racks, c, 0, 0),
        Key(b, at.racks, c, k, 0))
  {
    hide WordChanges, Span, ByTree;
    var key, lo := ByTree(at, blocks), Key(b, at.racks, c, 0, 0);
    var mid, hi := Key(b, at.racks, c, k - 1, 0), Key(b, at.racks, c, k, 0);
    if k == 0 {
      NoneIn(key, lo, hi);
    } else {
      var word := WordChanges(RackNode(b, c, k - 1), old_[k - 1].alarms, new_[k - 1].alarms);
      RacksSpan(b, c, old_, new_, k - 1, at, blocks);
      WordSpan(RackNode(b, c, k - 1), old_[k - 1].alarms, new_[k - 1].alarms, at, blocks);
      Widen(word, key, mid, Key(b, at.racks, c, k - 1, 16), mid, hi);
      Join(RacksDiff(b, c, old_, new_, k - 1), word, key, lo, mid, hi);
    }
  }

  lemma {:induction false} ContainersSpan(b: nat, old_: seq<Container>, new_: seq<Container>, k: nat, at: Stages,
      blocks: nat)
    requires k <= |old_| && SameRacks(old_, new_)
    ensures Span(ContainersDiff(b, old_, new_, k), ByTree(at, blocks), Key(b, at.racks, 0, 0, 0),
        Key(b, at.racks, k, 0, 0))
  {
    hide RacksDiff, Span, ByTree;
    var key, lo := ByTree(at, blocks), Key(b, at.racks, 0, 0, 0);
    var mid, hi := Key(b, at.racks, k - 1, 0, 0), Key(b, at.racks, k, 0, 0);
    if k == 0 {
      NoneIn(key, lo, hi);
    } else {
      var racks, racks' := old_[k - 1].racks, new_[k - 1].racks;
      var row := RacksDiff(b, k - 1, racks, racks', |racks|);
      ContainersSpan(b, old_, new_, k - 1, at, blocks);
      RacksSpan(b, k - 1, racks, racks', |racks|, at, blocks);
      Widen(row, key, mid, Key(b, at.racks, k - 1, |racks|, 0), mid, hi);
      Join(ContainersDiff(b, old_, new_, k - 1), row, key, lo, mid, hi);
    }
  }

  // ----- Blocks ------------------------------------------------------------------------------

  lemma PcsSpan(b: nat, old_: Pcs, new_: Pcs, at: Stages, blocks: nat)
    ensures Span(PcsChange(b, old_, new_), ByTree(at, blocks), Key(b, at.pcs, 0, 0, 0), Key(b, at.pcs + 1, 0, 0, 0))
  {
    hide Span;
    if old_.opState == new_.opState {
      NoneIn(ByTree(at, blocks), Key(b, at.pcs, 0, 0, 0), Key(b, at.pcs + 1, 0, 0, 0));
    } else {
      OneIn(PcsStateChanged(b, old_.opState, new_.opState), ByTree(at, blocks), Key(b, at.pcs, 0, 0, 0),
          Key(b, at.pcs + 1, 0, 0, 0));
    }
  }

  /** The three stages of a block. */
  lemma Three(x: seq<Event>, y: seq<Event>, z: seq<Event>, key: Event -> Key, b: int)
    requires Span(x, key, Key(b, 0, 0, 0, 0), Key(b, 1, 0, 0, 0))
    requires Span(y, key, Key(b, 1, 0, 0, 0), Key(b, 2, 0, 0, 0))
    requires Span(z, key, Key(b, 2, 0, 0, 0), Key(b + 1, 0, 0, 0, 0))
    ensures Span(x + y + z, key, Key(b, 0, 0, 0, 0), Key(b + 1, 0, 0, 0, 0))
  {
    hide Span;
    Join(x, y, key, Key(b, 0, 0, 0, 0), Key(b, 1, 0, 0, 0), Key(b, 2, 0, 0, 0));
    Join(x + y, z, key, Key(b, 0, 0, 0, 0), Key(b, 2, 0, 0, 0), Key(b + 1, 0, 0, 0, 0));
  }

  lemma BlockSpan(b: nat, old_: Block, new_: Block, blocks: nat)
    requires SameRacks(old_.containers, new_.containers)
    ensures Span(BlockDiff(b, old_, new_), ByTree(TICKING, blocks), Key(b, 0, 0, 0, 0), Key(b + 1, 0, 0, 0, 0))
  {
    hide ContainersDiff, WordChanges, Span, ByTree, PcsChange;
    var key, n := ByTree(TICKING, blocks), |old_.containers|;
    var racks := ContainersDiff(b, old_.containers, new_.containers, n);
    var word := WordChanges(BlockNode(b), old_.alarms, new_.alarms);
    ContainersSpan(b, old_.containers, new_.containers, n, TICKING, blocks);
    Widen(racks, key, Key(b, 0, 0, 0, 0), Key(b, 0, n, 0, 0), Key(b, 0, 0, 0, 0), Key(b, 1, 0, 0, 0));
    PcsSpan(b, old_.pcs, new_.pcs, TICKING, blocks);
    WordSpan(BlockNode(b), old_.alarms, new_.alarms, TICKING, blocks);
    Widen(word, key, Key(b, 2, 0, 0, 0), Key(b, 2, 0, 0, 16), Key(b, 2, 0, 0, 0), Key(b + 1, 0, 0, 0, 0));
    Three(racks, PcsChange(b, old_.pcs, new_.pcs), word, key, b);
  }

  lemma {:induction false} BlocksSpan(old_: seq<Block>, new_: seq<Block>, k: nat)
    requires k <= |old_| && SameShape(old_, new_)
    ensures Span(BlocksDiff(old_, new_, k), ByTree(TICKING, |old_|), Key(0, 0, 0, 0, 0), Key(k, 0, 0, 0, 0))
  {
    hide BlockDiff, Span, ByTree;
    var key, lo, mid, hi := ByTree(TICKING, |old_|), Key(0, 0, 0, 0, 0), Key(k - 1, 0, 0, 0, 0), Key(k, 0, 0, 0, 0);
    if k == 0 {
      NoneIn(key, lo, hi);
    } else {
      BlocksSpan(old_, new_, k - 1);
      BlockSpan(k - 1, old_[k - 1], new_[k - 1], |old_|);
      Join(BlocksDiff(old_, new_, k - 1), BlockDiff(k - 1, old_[k - 1], new_[k - 1]), key, lo, mid, hi);
    }
  }

  /** The events of the blocks and then those of the site word. */
  lemma WithSite(blocks: seq<Event>, word: seq<Event>, at: Stages, n: nat)
    requires Span(blocks, ByTree(at, n), Key(0, 0, 0, 0, 0), Key(n, 0, 0, 0, 0))
    requires Span(word, ByTree(at, n), Key(n, 0, 0, 0, 0), Key(n, 0, 0, 0, 16))
    ensures InOrder(blocks + word, ByTree(at, n))
  {
    hide ByTree;
    Join(blocks, word, ByTree(at, n), Key(0, 0, 0, 0, 0), Key(n, 0, 0, 0, 0), Key(n, 0, 0, 0, 16));
    hide InOrder;
  }

  lemma SiteOrder(old_: seq<Block>, oldSite: Word, new_: seq<Block>, newSite: Word)
    requires SameShape(old_, new_)
    ensures InOrder(SiteDiff(old_, oldSite, new_, newSite), ByTree(TICKING, |old_|))
  {
    hide InOrder, BlocksDiff, WordChanges, Span, ByTree;
    BlocksSpan(old_, new_, |old_|);
    WordSpan(SiteNode, oldSite, newSite, TICKING, |old_|);
    WithSite(BlocksDiff(old_, new_, |old_|), WordChanges(SiteNode, oldSite, newSite), TICKING, |old_|);
  }

  /** A tick hands out what was pending and then what it changed, in tree order: block by
      block its racks, its converter and its word, and the site word last, bits rising; so
      no bit and no converter twice. */
  lemma TickOrder(pl: Plant, s: Site, inputs: Inputs)
    ensures |s.pending| <= |Emitted(pl, s, inputs)| && Emitted(pl, s, inputs)[..|s.pending|] == s.pending
    ensures InOrder(Emitted(pl, s, inputs)[|s.pending|..], ByTree(TICKING, |s.blocks|))
  {
    hide NextBlocks, AlarmsAfter, SiteDiff, InOrder, ByTree;
    var blocks := NextBlocks(pl, s, inputs.weather, |s.blocks|);
    TickKeepsShape(pl, s, inputs.weather);
    SiteOrder(s.blocks, s.alarms, blocks, AlarmsAfter(pl, s, blocks));
    var diff := SiteDiff(s.blocks, s.alarms, blocks, AlarmsAfter(pl, s, blocks));
    assert Emitted(pl, s, inputs) == s.pending + diff;
    assert (s.pending + diff)[|s.pending|..] == diff && (s.pending + diff)[..|s.pending|] == s.pending;
  }

  // ----- Commands ------------------------------------------------------------------------------

  lemma ResetSpan(b: nat, block: Block, blocks: nat)
    ensures Span(ResetBlockEvents(b, block), ByTree(RESETTING, blocks), Key(b, 0, 0, 0, 0), Key(b + 1, 0, 0, 0, 0))
  {
    hide ContainersDiff, WordChanges, Span, ByTree, PcsChange, ResetContainers, ClearTrips;
    var next, key, n := ResetBlock(block), ByTree(RESETTING, blocks), |block.containers|;
    var racks := ContainersDiff(b, block.containers, next.containers, n);
    var word := WordChanges(BlockNode(b), block.alarms, ClearTrips(block.alarms));
    PcsSpan(b, block.pcs, next.pcs, RESETTING, blocks);
    WordSpan(BlockNode(b), block.alarms, ClearTrips(block.alarms), RESETTING, blocks);
    Widen(word, key, Key(b, 1, 0, 0, 0), Key(b, 1, 0, 0, 16), Key(b, 1, 0, 0, 0), Key(b, 2, 0, 0, 0));
    ContainersSpan(b, block.containers, next.containers, n, RESETTING, blocks);
    Widen(racks, key, Key(b, 2, 0, 0, 0), Key(b, 2, n, 0, 0), Key(b, 2, 0, 0, 0), Key(b + 1, 0, 0, 0, 0));
    Three(PcsChange(b, block.pcs, next.pcs), word, racks, key, b);
  }

  lemma {:induction false} ResetsSpan(old_: seq<Block>, k: nat)
    requires k <= |old_|
    ensures Span(ResetBlocksEvents(old_, k), ByTree(RESETTING, |old_|), Key(0, 0, 0, 0, 0), Key(k, 0, 0, 0, 0))
  {
    hide ResetBlockEvents, Span, ByTree;
    var key, lo, mid, hi := ByTree(RESETTING, |old_|), Key(0, 0, 0, 0, 0), Key(k - 1, 0, 0, 0, 0), Key(k, 0, 0, 0, 0);
    if k == 0 {
      NoneIn(key, lo, hi);
    } else {
      ResetsSpan(old_, k - 1);
      ResetSpan(k - 1, old_[k - 1], |old_|);
      Join(ResetBlocksEvents(old_, k - 1), ResetBlockEvents(k - 1, old_[k - 1]), key, lo, mid, hi);
    }
  }

  lemma ResetSiteOrder(s: Site)
    ensures InOrder(ResetSiteEvents(s), ByTree(RESETTING, |s.blocks|))
  {
    hide InOrder, ResetBlocksEvents, WordChanges, ClearTrips, Span, ByTree;
    ResetsSpan(s.blocks, |s.blocks|);
    WordSpan(SiteNode, s.alarms, ClearTrips(s.alarms), RESETTING, |s.blocks|);
    WithSite(ResetBlocksEvents(s.blocks, |s.blocks|), WordChanges(SiteNode, s.alarms, ClearTrips(s.alarms)), RESETTING,
        |s.blocks|);
  }

  lemma {:induction false} TripsSpan(old_: seq<Block>, k: nat)
    requires k <= |old_|
    ensures Span(TripEvents(old_, k), ByTree(RESETTING, |old_|), Key(0, 0, 0, 0, 0), Key(k, 0, 0, 0, 0))
    ensures forall e <- TripEvents(old_, k) :: e.PcsStateChanged?
  {
    hide Span, ByTree, Tripped;
    var key, lo, mid, hi := ByTree(RESETTING, |old_|), Key(0, 0, 0, 0, 0), Key(k - 1, 0, 0, 0, 0), Key(k, 0, 0, 0, 0);
    if k == 0 {
      NoneIn(key, lo, hi);
    } else {
      var last := PcsChange(k - 1, old_[k - 1].pcs, Tripped(old_[k - 1]).pcs);
      TripsSpan(old_, k - 1);
      PcsSpan(k - 1, old_[k - 1].pcs, Tripped(old_[k - 1]).pcs, RESETTING, |old_|);
      Widen(last, key, mid, Key(k - 1, 1, 0, 0, 0), mid, hi);
      Join(TripEvents(old_, k - 1), last, key, lo, mid, hi);
    }
  }

  lemma SpanInOrder<T>(row: seq<T>, key: T -> Key, lo: Key, hi: Key)
    requires Span(row, key, lo, hi)
    ensures InOrder(row, key)
  {
    hide InOrder;
  }

  lemma OneInOrder<T>(row: seq<T>, key: T -> Key)
    requires |row| <= 1
    ensures InOrder(row, key)
  {}

  /** The effects of an accepted action are logged in order too: of a reset block by block the
      converter, the word and the racks, the site word last; of a protection trip the raise
      first and then the converters by block. */
  lemma EffectsOrder(s: Site, a: FaultAction)
    requires Dispatch(s, a).Ok?
    ensures var es, key := Dispatch(s, a).value.events, ByTree(RESETTING, |s.blocks|);
      if a.ProtectionTrip? && es != [] then
        && es[0] == AlarmRaised(SiteNode, PROTECTION_TRIP, Trip)
        && (forall e <- es[1..] :: e.PcsStateChanged?) && InOrder(es[1..], key)
      else InOrder(es, key)
  {
    hide ResetSiteEvents, ResetBlockEvents, TripEvents, WordChanges, ResetBlock, ResetSite, AllTripped, ClearTrips,
      InOrder, Span, ByTree, WithRack, WithContainer, WithBlock;
    var n, key := |s.blocks|, ByTree(RESETTING, |s.blocks|);
    match a
    case ProtectionTrip =>
      TripsSpan(s.blocks, n);
      SpanInOrder(TripEvents(s.blocks, n), key, Key(0, 0, 0, 0, 0), Key(n, 0, 0, 0, 0));
      OneInOrder([], key);
    case AlarmReset(scope) => ResetEffectsOrder(s, scope);
    case _ => OneInOrder(Dispatch(s, a).value.events, key);
  }

  lemma ResetEffectsOrder(s: Site, scope: Scope)
    requires ResetAlarms(s, scope).Ok?
    ensures InOrder(ResetAlarms(s, scope).value.events, ByTree(RESETTING, |s.blocks|))
  {
    hide ResetSiteEvents, ResetBlockEvents, WordChanges, ResetBlock, ResetSite, ClearTrips, InOrder, Span, ByTree,
      WithRack, WithBlock;
    var key := ByTree(RESETTING, |s.blocks|);
    match scope
    case SiteScope => ResetSiteOrder(s);
    case BlockScope(b) =>
      ResetSpan(b, s.blocks[b], |s.blocks|);
      SpanInOrder(ResetBlockEvents(b, s.blocks[b]), key, Key(b, 0, 0, 0, 0), Key(b + 1, 0, 0, 0, 0));
    case RackScope(b, c, r) =>
      var w := RackAt(s, b, c, r).alarms;
      WordSpan(RackNode(b, c, r), w, ClearTrips(w), RESETTING, |s.blocks|);
      SpanInOrder(WordChanges(RackNode(b, c, r), w, ClearTrips(w)), key, Key(b, 2, c, r, 0), Key(b, 2, c, r, 16));
  }

  // ----- The causes a reset hands back ------------------------------------------------------------

  function CauseKey(cause: Cause): Key {
    NodeKey(cause.0, cause.1, TICKING, 0)
  }

  lemma {:induction false} TripsOf(node: Node, w: Word, k: nat)
    ensures Span(Trips(node, w, k), CauseKey, NodeKey(node, 8, TICKING, 0), NodeKey(node, 8 + k, TICKING, 0))
  {
    hide Span;
    var lo, mid, hi := NodeKey(node, 8, TICKING, 0), NodeKey(node, 7 + k, TICKING, 0),
        NodeKey(node, 8 + k, TICKING, 0);
    if k == 0 {
      NoneIn(CauseKey, lo, hi);
    } else {
      var last := if 7 + k in w then [(node, 7 + k)] else [];
      TripsOf(node, w, k - 1);
      if 7 + k in w { OneIn((node, 7 + k), CauseKey, mid, hi); } else { NoneIn(CauseKey, mid, hi); }
      Join(Trips(node, w, k - 1), last, CauseKey, lo, mid, hi);
    }
  }

  lemma {:induction false} RowSpan(pl: Plant, b: nat, c: nat, racks: seq<Rack>, k: nat)
    requires k <= |racks|
    ensures Span(RowStill(pl, b, c, racks, k), CauseKey, Key(b, 0, c, 0, 0), Key(b, 0, c, k, 0))
  {
    hide Span, Trips, Again;
    var lo, mid, hi := Key(b, 0, c, 0, 0), Key(b, 0, c, k - 1, 0), Key(b, 0, c, k, 0);
    if k == 0 {
      NoneIn(CauseKey, lo, hi);
    } else {
      var last := Trips(RackNode(b, c, k - 1), Again(pl, racks[k - 1]), 8);
      RowSpan(pl, b, c, racks, k - 1);
      TripsOf(RackNode(b, c, k - 1), Again(pl, racks[k - 1]), 8);
      Widen(last, CauseKey, Key(b, 0, c, k - 1, 8), Key(b, 0, c, k - 1, 16), mid, hi);
      Join(RowStill(pl, b, c, racks, k - 1), last, CauseKey, lo, mid, hi);
    }
  }

  lemma {:induction false} BlockStillSpan(pl: Plant, b: nat, cs: seq<Container>, k: nat)
    requires k <= |cs|
    ensures Span(BlockStill(pl, b, cs, k), CauseKey, Key(b, 0, 0, 0, 0), Key(b, 0, k, 0, 0))
  {
    hide Span, RowStill;
    var lo, mid, hi := Key(b, 0, 0, 0, 0), Key(b, 0, k - 1, 0, 0), Key(b, 0, k, 0, 0);
    if k == 0 {
      NoneIn(CauseKey, lo, hi);
    } else {
      var racks := cs[k - 1].racks;
      var last := RowStill(pl, b, k - 1, racks, |racks|);
      BlockStillSpan(pl, b, cs, k - 1);
      RowSpan(pl, b, k - 1, racks, |racks|);
      Widen(last, CauseKey, mid, Key(b, 0, k - 1, |racks|, 0), mid, hi);
      Join(BlockStill(pl, b, cs, k - 1), last, CauseKey, lo, mid, hi);
    }
  }

  lemma {:induction false} SiteStillSpan(pl: Plant, blocks: seq<Block>, k: nat)
    requires k <= |blocks|
    ensures Span(SiteStill(pl, blocks, k), CauseKey, Key(0, 0, 0, 0, 0), Key(k, 0, 0, 0, 0))
  {
    hide Span, BlockStill;
    var lo, mid, hi := Key(0, 0, 0, 0, 0), Key(k - 1, 0, 0, 0, 0), Key(k, 0, 0, 0, 0);
    if k == 0 {
      NoneIn(CauseKey, lo, hi);
    } else {
      var cs := blocks[k - 1].containers;
      var last := BlockStill(pl, k - 1, cs, |cs|);
      SiteStillSpan(pl, blocks, k - 1);
      BlockStillSpan(pl, k - 1, cs, |cs|);
      Widen(last, CauseKey, mid, Key(k - 1, 0, |cs|, 0, 0), mid, hi);
      Join(SiteStill(pl, blocks, k - 1), last, CauseKey, lo, mid, hi);
    }
  }

  /** The list a reset hands back is in tree order, bits rising, each cause once. */
  lemma StillInOrder(pl: Plant, s: Site, scope: Scope)
    ensures InOrder(Still(pl, s, scope), CauseKey)
  {
    hide Again, SiteStill, BlockStill, Trips, Span, InOrder;
    OneInOrder([], CauseKey);
    match scope
    case SiteScope =>
      SiteStillSpan(pl, s.blocks, |s.blocks|);
      SpanInOrder(SiteStill(pl, s.blocks, |s.blocks|), CauseKey, Key(0, 0, 0, 0, 0), Key(|s.blocks|, 0, 0, 0, 0));
    case BlockScope(b) =>
      if b < |s.blocks| {
        var cs := s.blocks[b].containers;
        BlockStillSpan(pl, b, cs, |cs|);
        SpanInOrder(BlockStill(pl, b, cs, |cs|), CauseKey, Key(b, 0, 0, 0, 0), Key(b, 0, |cs|, 0, 0));
      }
    case RackScope(b, c, r) =>
      if HasRack(s.blocks, b, c, r) {
        var w := Again(pl, RackAt(s, b, c, r));
        TripsOf(RackNode(b, c, r), w, 8);
        SpanInOrder(Trips(RackNode(b, c, r), w, 8), CauseKey, Key(b, 0, c, r, 8), Key(b, 0, c, r, 16));
      }
  }
}
