/** The event log: how word changes become events, and what replaying them gives back. */
module Log {
  import opened State
  import opened Words
  import opened Wrappers

  // ----- Emitting ------------------------------------------------------------------

  function ChangeOf(node: Node, bit: int, on: bool): Event {
    if on then AlarmRaised(node, bit, SeverityOf(bit)) else AlarmCleared(node, bit, SeverityOf(bit))
  }

  /** One event per position below k where the two words differ, lowest first. */
  function Changes(node: Node, old_: Word, new_: Word, k: nat): (r: seq<Event>)
    ensures forall e <- r :: Touches(e) == Some(WordOf(node))
  {
    if k == 0 then []
    else if (k - 1 in old_) == (k - 1 in new_) then Changes(node, old_, new_, k - 1)
    else Changes(node, old_, new_, k - 1) + [ChangeOf(node, k - 1, k - 1 in new_)]
  }

  function WordChanges(node: Node, old_: Word, new_: Word): (r: seq<Event>)
    ensures forall e <- r :: Touches(e) == Some(WordOf(node))
  {
    Changes(node, old_, new_, 16)
  }

  lemma {:induction false} NoChanges(node: Node, old_: Word, k: nat)
    ensures Changes(node, old_, old_, k) == []
  {
    if k > 0 { NoChanges(node, old_, k - 1); }
  }

  method PushChanges(events: seq<Event>, node: Node, old_: Word, new_: Word) returns (r: seq<Event>)
    ensures r == events + WordChanges(node, old_, new_)
  {
    r := events;
    var changed := (old_ - new_) + (new_ - old_);
    if changed == {} {
      assert old_ == new_;
      NoChanges(node, old_, 16);
      return;
    }
    for bit := 0 to 16
      invariant r == events + Changes(node, old_, new_, bit)
    {
      if bit in changed {
        r := r + [ChangeOf(node, bit, bit in new_)];
      }
    }
  }

  // ----- Replaying --------------------------------------------------------------------

  /** What the log can say something about: one alarm word, or one converter's state. */
  datatype Channel = WordOf(node: Node) | PcsOf(block: nat)

  datatype Value = WordValue(word: Word) | PcsValue(op: PcsOpState)

  function Touches(e: Event): Option<Channel> {
    match e
    case PcsStateChanged(b, _, _) => Some(PcsOf(b))
    case AlarmRaised(n, _, _) => Some(WordOf(n))
    case AlarmCleared(n, _, _) => Some(WordOf(n))
    case FaultApplied(_) => None
  }

  /** One event on its channel; `None` when it contradicts the value it meets: a raise
      of a set bit, a clear of a clear one, a wrong severity, a transition from another
      state than the one it names. */
  function Step(v: Value, e: Event): Option<Value> {
    match e
    case PcsStateChanged(_, from, to) =>
      if v == PcsValue(from) && from != to then Some(PcsValue(to)) else None
    case AlarmRaised(_, bit, sev) =>
      if v.WordValue? && bit !in v.word && (sev == Trip <==> 8 <= bit) then Some(WordValue(v.word + {bit})) else None
    case AlarmCleared(_, bit, sev) =>
      if v.WordValue? && bit in v.word && (sev == Trip <==> 8 <= bit) then Some(WordValue(v.word - {bit})) else None
    case FaultApplied(_) => None
  }

  /** The value of a channel after a stretch of log. */
  function After(v: Option<Value>, events: seq<Event>, ch: Channel): Option<Value> {
    if events == [] then v else
      var before := After(v, events[..|events| - 1], ch);
      var e := events[|events| - 1];
      if before.None? || Touches(e) != Some(ch) then before else Step(before.value, e)
  }

  lemma {:induction false} AfterConcat(v: Option<Value>, a: seq<Event>, b: seq<Event>, ch: Channel)
    ensures After(v, a + b, ch) == After(After(v, a, ch), b, ch)
  {
    if b == [] {
      assert a + b == a;
    } else {
      var init := b[..|b| - 1];
      assert (a + b)[..|a + b| - 1] == a + init;
      AfterConcat(v, a, init, ch);
    }
  }

  lemma {:induction false} AfterQuiet(v: Option<Value>, events: seq<Event>, ch: Channel)
    requires forall e <- events :: Touches(e) != Some(ch)
    ensures After(v, events, ch) == v
  {
    if events != [] {
      AfterQuiet(v, events[..|events| - 1], ch);
    }
  }

  lemma AfterOne(v: Value, e: Event, ch: Channel)
    requires Touches(e) == Some(ch)
    ensures After(Some(v), [e], ch) == Step(v, e)
  {
    assert [e][..0] == [];
  }

  /** The word halfway through a comparison: new below k, old from there on. */
  function Spliced(old_: Word, new_: Word, k: nat): Word {
    set b | b in old_ + new_ && (if 0 <= b < k then b in new_ else b in old_)
  }

  lemma SplicedStep(old_: Word, new_: Word, k: nat)
    requires k > 0
    ensures k - 1 in Spliced(old_, new_, k - 1) <==> k - 1 in old_
    ensures Spliced(old_, new_, k) == WithBit(Spliced(old_, new_, k - 1), k - 1, k - 1 in new_)
    ensures (k - 1 in old_) == (k - 1 in new_) ==> Spliced(old_, new_, k) == Spliced(old_, new_, k - 1)
  {}

  lemma ChangeSteps(node: Node, w: Word, bit: nat, up: bool)
    requires (bit in w) != up
    ensures Touches(ChangeOf(node, bit, up)) == Some(WordOf(node))
    ensures Step(WordValue(w), ChangeOf(node, bit, up)) == Some(WordValue(WithBit(w, bit, up)))
  {}

  lemma {:induction false} ChangesReplay(node: Node, old_: Word, new_: Word, k: nat)
    ensures After(Some(WordValue(old_)), Changes(node, old_, new_, k), WordOf(node))
         == Some(WordValue(Spliced(old_, new_, k)))
  {
    hide Spliced, Step, WithBit, ChangeOf;
    if k == 0 {
      SplicedNone(old_, new_);
    } else {
      ChangesReplay(node, old_, new_, k - 1);
      SplicedStep(old_, new_, k);
      if (k - 1 in old_) != (k - 1 in new_) {
        var e := ChangeOf(node, k - 1, k - 1 in new_);
        AfterConcat(Some(WordValue(old_)), Changes(node, old_, new_, k - 1), [e], WordOf(node));
        ChangeSteps(node, Spliced(old_, new_, k - 1), k - 1, k - 1 in new_);
        AfterOne(WordValue(Spliced(old_, new_, k - 1)), e, WordOf(node));
        hide After;
      }
    }
  }

  lemma SplicedNone(old_: Word, new_: Word)
    ensures Spliced(old_, new_, 0) == old_
  {}

  /** Replaying the changes between two words over the old one gives the new one. */
  lemma WordReplay(node: Node, old_: Word, new_: Word)
    requires WordOk(old_) && WordOk(new_)
    ensures After(Some(WordValue(old_)), WordChanges(node, old_, new_), WordOf(node)) == Some(WordValue(new_))
  {
    ChangesReplay(node, old_, new_, 16);
    assert Spliced(old_, new_, 16) == new_;
  }

  lemma PcsReplay(b: nat, old_: Pcs, new_: Pcs)
    ensures After(Some(PcsValue(old_.opState)), PcsChange(b, old_, new_), PcsOf(b)) == Some(PcsValue(new_.opState))
  {
    var e := PcsStateChanged(b, old_.opState, new_.opState);
    AfterOne(PcsValue(old_.opState), e, PcsOf(b));
  }

  // ----- The differences between two trees --------------------------------------------------

  function PcsChange(b: nat, old_: Pcs, new_: Pcs): (r: seq<Event>)
    ensures forall e <- r :: Touches(e) == Some(PcsOf(b))
  {
    if old_.opState == new_.opState then [] else [PcsStateChanged(b, old_.opState, new_.opState)]
  }

  function RacksDiff(b: nat, c: nat, old_: seq<Rack>, new_: seq<Rack>, k: nat): (r: seq<Event>)
    requires k <= |old_| == |new_|
    ensures forall e <- r :: exists i: nat :: i < k && Touches(e) == Some(WordOf(RackNode(b, c, i)))
  {
    if k == 0 then []
    else RacksDiff(b, c, old_, new_, k - 1)
         + WordChanges(RackNode(b, c, k - 1), old_[k - 1].alarms, new_[k - 1].alarms)
  }

  predicate SameRacks(old_: seq<Container>, new_: seq<Container>) {
    |old_| == |new_| && forall c :: 0 <= c < |old_| ==> |old_[c].racks| == |new_[c].racks|
  }

  function ContainersDiff(b: nat, old_: seq<Container>, new_: seq<Container>, k: nat): (r: seq<Event>)
    requires k <= |old_| && SameRacks(old_, new_)
    ensures forall e <- r :: exists c: nat, i: nat :: c < k && Touches(e) == Some(WordOf(RackNode(b, c, i)))
  {
    if k == 0 then []
    else ContainersDiff(b, old_, new_, k - 1)
         + RacksDiff(b, k - 1, old_[k - 1].racks, new_[k - 1].racks, |old_[k - 1].racks|)
  }

  /** The block a channel belongs to. */
  function BlockOf(ch: Channel): Option<nat> {
    match ch
    case WordOf(SiteNode) => None
    case WordOf(BlockNode(b)) => Some(b)
    case WordOf(RackNode(b, _, _)) => Some(b)
    case PcsOf(b) => Some(b)
  }

  predicate Concerns(e: Event, b: nat) {
    Touches(e).Some? && BlockOf(Touches(e).value) == Some(b)
  }

  /** One block's events of one tick: racks, the converter transition, the block word. */
  function BlockDiff(b: nat, old_: Block, new_: Block): (r: seq<Event>)
    requires SameRacks(old_.containers, new_.containers)
    ensures forall e <- r :: Concerns(e, b)
  {
    ContainersDiff(b, old_.containers, new_.containers, |old_.containers|)
    + PcsChange(b, old_.pcs, new_.pcs)
    + WordChanges(BlockNode(b), old_.alarms, new_.alarms)
  }

  predicate SameShape(old_: seq<Block>, new_: seq<Block>) {
    |old_| == |new_| && forall b :: 0 <= b < |old_| ==> SameRacks(old_[b].containers, new_[b].containers)
  }

  function BlocksDiff(old_: seq<Block>, new_: seq<Block>, k: nat): (r: seq<Event>)
    requires k <= |old_| && SameShape(old_, new_)
    ensures forall e <- r :: exists b: nat :: b < k && Concerns(e, b)
  {
    if k == 0 then []
    else BlocksDiff(old_, new_, k - 1) + BlockDiff(k - 1, old_[k - 1], new_[k - 1])
  }

  // ----- Reading a tree ------------------------------------------------------------------------

  predicate HasRack(blocks: seq<Block>, b: nat, c: nat, r: nat) {
    b < |blocks| && c < |blocks[b].containers| && r < |blocks[b].containers[c].racks|
  }

  predicate HasChannel(blocks: seq<Block>, ch: Channel) {
    match ch
    case WordOf(SiteNode) => true
    case WordOf(BlockNode(b)) => b < |blocks|
    case WordOf(RackNode(b, c, r)) => HasRack(blocks, b, c, r)
    case PcsOf(b) => b < |blocks|
  }

  lemma ShapeKeepsChannels(old_: seq<Block>, new_: seq<Block>, ch: Channel)
    requires SameShape(old_, new_)
    ensures HasChannel(old_, ch) <==> HasChannel(new_, ch)
  {}

  /** What the tree holds on a channel. */
  function ValueAt(blocks: seq<Block>, site: Word, ch: Channel): Value
    requires HasChannel(blocks, ch)
  {
    match ch
    case WordOf(SiteNode) => WordValue(site)
    case WordOf(BlockNode(b)) => WordValue(blocks[b].alarms)
    case WordOf(RackNode(b, c, r)) => WordValue(blocks[b].containers[c].racks[r].alarms)
    case PcsOf(b) => PcsValue(blocks[b].pcs.opState)
  }

  predicate BlockWordsOk(b: Block) {
    && WordOk(b.alarms)
    && forall c, r :: 0 <= c < |b.containers| && 0 <= r < |b.containers[c].racks| ==>
         WordOk(b.containers[c].racks[r].alarms)
  }

  predicate WordsOk(blocks: seq<Block>, site: Word) {
    WordOk(site) && forall b :: 0 <= b < |blocks| ==> BlockWordsOk(blocks[b])
  }

  lemma {:induction false} RacksReplay(b: nat, c: nat, old_: seq<Rack>, new_: seq<Rack>, k: nat, r: nat)
    requires r < |old_| && k <= |old_| == |new_| && WordOk(old_[r].alarms) && WordOk(new_[r].alarms)
    ensures After(Some(WordValue(old_[r].alarms)), RacksDiff(b, c, old_, new_, k), WordOf(RackNode(b, c, r)))
         == Some(WordValue(if r < k then new_[r].alarms else old_[r].alarms))
  {
    if k > 0 {
      hide WordChanges, After, WordOk;
      var ch := WordOf(RackNode(b, c, r));
      var last := WordChanges(RackNode(b, c, k - 1), old_[k - 1].alarms, new_[k - 1].alarms);
      RacksReplay(b, c, old_, new_, k - 1, r);
      AfterConcat(Some(WordValue(old_[r].alarms)), RacksDiff(b, c, old_, new_, k - 1), last, ch);
      if r == k - 1 {
        WordReplay(RackNode(b, c, r), old_[r].alarms, new_[r].alarms);
      } else {
        AfterQuiet(Some(WordValue(if r < k then new_[r].alarms else old_[r].alarms)), last, ch);
      }
    }
  }

  lemma {:induction false} ContainersReplay(b: nat, old_: seq<Container>, new_: seq<Container>, k: nat, c: nat, r: nat)
    requires k <= |old_| && SameRacks(old_, new_) && c < |old_| && r < |old_[c].racks|
    requires WordOk(old_[c].racks[r].alarms) && WordOk(new_[c].racks[r].alarms)
    ensures After(Some(WordValue(old_[c].racks[r].alarms)), ContainersDiff(b, old_, new_, k), WordOf(RackNode(b, c, r)))
         == Some(WordValue(if c < k then new_[c].racks[r].alarms else old_[c].racks[r].alarms))
  {
    if k > 0 {
      hide RacksDiff, After, WordOk, Step, Touches;
      var ch := WordOf(RackNode(b, c, r));
      var v := Some(WordValue(old_[c].racks[r].alarms));
      var n := |old_[k - 1].racks|;
      var last := RacksDiff(b, k - 1, old_[k - 1].racks, new_[k - 1].racks, n);
      ContainersReplay(b, old_, new_, k - 1, c, r);
      AfterConcat(v, ContainersDiff(b, old_, new_, k - 1), last, ch);
      if c == k - 1 {
        RacksReplay(b, c, old_[c].racks, new_[c].racks, n, r);
      } else {
        RacksQuiet(b, k - 1, old_[k - 1].racks, new_[k - 1].racks, n, ch);
        AfterQuiet(After(v, ContainersDiff(b, old_, new_, k - 1), ch), last, ch);
      }
    }
  }

  lemma RacksQuiet(b: nat, c: nat, old_: seq<Rack>, new_: seq<Rack>, k: nat, ch: Channel)
    requires k <= |old_| == |new_| && ch.WordOf? && ch.node.RackNode? && ch.node.container != c
    ensures forall e <- RacksDiff(b, c, old_, new_, k) :: Touches(e) != Some(ch)
  {
    forall e <- RacksDiff(b, c, old_, new_, k)
      ensures Touches(e) != Some(ch)
    {
    }
  }

  /** A block's events replay its old channels to its new ones. */
  lemma BlockReplay(blocks: seq<Block>, next: seq<Block>, site: Word, b: nat, ch: Channel)
    requires SameShape(blocks, next) && b < |blocks| && HasChannel(blocks, ch) && BlockOf(ch) == Some(b)
    requires BlockWordsOk(blocks[b]) && BlockWordsOk(next[b])
    ensures After(Some(ValueAt(blocks, site, ch)), BlockDiff(b, blocks[b], next[b]), ch)
         == Some(ValueAt(next, site, ch))
  {
    var old_, new_ := blocks[b], next[b];
    var v := Some(ValueAt(blocks, site, ch));
    var racks := ContainersDiff(b, old_.containers, new_.containers, |old_.containers|);
    var pcs := PcsChange(b, old_.pcs, new_.pcs);
    var word := WordChanges(BlockNode(b), old_.alarms, new_.alarms);
    AfterConcat(v, racks + pcs, word, ch);
    AfterConcat(v, racks, pcs, ch);
    match ch
    case WordOf(BlockNode(_)) =>
      AfterQuiet(v, racks, ch);
      AfterQuiet(v, pcs, ch);
      WordReplay(BlockNode(b), old_.alarms, new_.alarms);
    case WordOf(RackNode(_, c, r)) =>
      ContainersReplay(b, old_.containers, new_.containers, |old_.containers|, c, r);
      AfterQuiet(Some(ValueAt(next, site, ch)), pcs, ch);
      AfterQuiet(Some(ValueAt(next, site, ch)), word, ch);
    case PcsOf(_) =>
      AfterQuiet(v, racks, ch);
      if pcs != [] {
        AfterOne(v.value, pcs[0], ch);
      }
      AfterQuiet(Some(ValueAt(next, site, ch)), word, ch);
  }

  lemma {:induction false} BlocksReplay(blocks: seq<Block>, next: seq<Block>, site: Word, k: nat, ch: Channel)
    requires SameShape(blocks, next) && k <= |blocks| && HasChannel(blocks, ch)
    requires WordsOk(blocks, site) && WordsOk(next, site)
    ensures After(Some(ValueAt(blocks, site, ch)), BlocksDiff(blocks, next, k), ch)
         == Some(if BlockOf(ch).Some? && BlockOf(ch).value < k then ValueAt(next, site, ch)
             else ValueAt(blocks, site, ch))
  {
    hide ValueAt, BlockDiff, BlockWordsOk, SameRacks, Touches;
    if k > 0 {
      var v := Some(ValueAt(blocks, site, ch));
      var last := BlockDiff(k - 1, blocks[k - 1], next[k - 1]);
      BlocksReplay(blocks, next, site, k - 1, ch);
      AfterConcat(v, BlocksDiff(blocks, next, k - 1), last, ch);
      if BlockOf(ch) == Some(k - 1) {
        BlockReplay(blocks, next, site, k - 1, ch);
      } else {
        AfterQuiet(After(v, BlocksDiff(blocks, next, k - 1), ch), last, ch);
      }
    }
  }

  /** What one tick logs about two trees of one shape. */
  function SiteDiff(old_: seq<Block>, oldSite: Word, new_: seq<Block>, newSite: Word): seq<Event>
    requires SameShape(old_, new_)
  {
    BlocksDiff(old_, new_, |old_|) + WordChanges(SiteNode, oldSite, newSite)
  }

  /** Replaying the differences of two trees over the first gives the second, on every
      channel, with no event contradicting what it meets. */
  lemma DiffReplay(old_: seq<Block>, oldSite: Word, new_: seq<Block>, newSite: Word, ch: Channel)
    requires SameShape(old_, new_) && HasChannel(old_, ch)
    requires WordsOk(old_, oldSite) && WordsOk(new_, newSite)
    ensures HasChannel(new_, ch)
    ensures After(Some(ValueAt(old_, oldSite, ch)), SiteDiff(old_, oldSite, new_, newSite), ch)
         == Some(ValueAt(new_, newSite, ch))
  {
    hide After, BlocksDiff, WordChanges, BlockWordsOk, WordOk;
    var v := Some(ValueAt(old_, oldSite, ch));
    var blocks, word := BlocksDiff(old_, new_, |old_|), WordChanges(SiteNode, oldSite, newSite);
    BlocksReplay(old_, new_, oldSite, |old_|, ch);
    AfterConcat(v, blocks, word, ch);
    if ch == WordOf(SiteNode) {
      WordReplay(SiteNode, oldSite, newSite);
    } else {
      AfterQuiet(After(v, blocks, ch), word, ch);
    }
  }
}
