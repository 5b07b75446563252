/** The list an operator reset hands back: the trips it cleared whose cause is still
    present. */
module Causes {
  import opened Reals
  import opened State
  import opened Words
  import opened Log
  import opened Derate
  import opened Bms
  import opened Plants
  import opened Commands

  type Cause = (Node, int)

  /** The raised bits of the first k latched positions, as causes of a node. */
  function Trips(node: Node, w: Word, k: nat): seq<Cause> {
    if k == 0 then [] else Trips(node, w, k - 1) + (if 7 + k in w then [(node, 7 + k)] else [])
  }

  /** A rack's cleared trips that evaluating the reset rack would raise again. */
  function Again(pl: Plant, rack: Rack): Word {
    RackAlarms(pl.bms, ResetRack(rack), pl.rackCfg) * rack.alarms
  }

  function RowStill(pl: Plant, b: nat, c: nat, racks: seq<Rack>, k: nat): seq<Cause>
    requires k <= |racks|
  {
    if k == 0 then [] else RowStill(pl, b, c, racks, k - 1) + Trips(RackNode(b, c, k - 1), Again(pl, racks[k - 1]), 8)
  }

  function BlockStill(pl: Plant, b: nat, cs: seq<Container>, k: nat): seq<Cause>
    requires k <= |cs|
  {
    if k == 0 then []
    else BlockStill(pl, b, cs, k - 1) + RowStill(pl, b, k - 1, cs[k - 1].racks, |cs[k - 1].racks|)
  }

  function SiteStill(pl: Plant, blocks: seq<Block>, k: nat): seq<Cause>
    requires k <= |blocks|
  {
    if k == 0 then []
    else SiteStill(pl, blocks, k - 1) + BlockStill(pl, k - 1, blocks[k - 1].containers, |blocks[k - 1].containers|)
  }

  /** What a reset of a scope the site has hands back. */
  function Still(pl: Plant, s: Site, scope: Scope): seq<Cause> {
    match scope
    case SiteScope => SiteStill(pl, s.blocks, |s.blocks|)
    case BlockScope(b) =>
      if b < |s.blocks| then BlockStill(pl, b, s.blocks[b].containers, |s.blocks[b].containers|) else []
    case RackScope(b, c, r) =>
      if HasRack(s.blocks, b, c, r) then Trips(RackNode(b, c, r), Again(pl, RackAt(s, b, c, r)), 8) else []
  }

  // ----- What the list holds -----------------------------------------------------------------

  predicate InScope(scope: Scope, b: nat, c: nat, r: nat) {
    scope == SiteScope || scope == BlockScope(b) || scope == RackScope(b, c, r)
  }

  /** The condition behind a latched bit holds on the rack as it stands. */
  predicate Present(th: RackThresholds, rack: Rack, bit: int) {
    || (bit == OVER_TEMP_TRIP && th.overTempTripC <= rack.cellTempC)
    || (bit == IMBALANCE_TRIP && th.imbalanceTripV <= rack.cellDvV)
    || (bit == UNDER_TEMP_TRIP && rack.cellTempC <= th.underTempTripC)
  }

  lemma {:induction false} TripsHold(node: Node, w: Word, k: nat, x: Cause)
    ensures x in Trips(node, w, k) <==> x.0 == node && 8 <= x.1 < 8 + k && x.1 in w
  {
    if k > 0 { TripsHold(node, w, k - 1, x); }
  }

  lemma {:induction false} RowHolds(pl: Plant, b: nat, c: nat, racks: seq<Rack>, k: nat, x: Cause)
    requires k <= |racks|
    ensures x in RowStill(pl, b, c, racks, k) <==>
      exists r: nat :: r < k && x.0 == RackNode(b, c, r) && 8 <= x.1 < 16 && x.1 in Again(pl, racks[r])
  {
    hide Again, Trips;
    if k > 0 {
      RowHolds(pl, b, c, racks, k - 1, x);
      TripsHold(RackNode(b, c, k - 1), Again(pl, racks[k - 1]), 8, x);
    }
  }

  lemma {:induction false} BlockHolds(pl: Plant, b: nat, cs: seq<Container>, k: nat, x: Cause)
    requires k <= |cs|
    ensures x in BlockStill(pl, b, cs, k) <==>
      exists c: nat, r: nat :: c < k && r < |cs[c].racks| && x.0 == RackNode(b, c, r)
        && 8 <= x.1 < 16 && x.1 in Again(pl, cs[c].racks[r])
  {
    hide Again, RowStill;
    if k > 0 {
      BlockHolds(pl, b, cs, k - 1, x);
      RowHolds(pl, b, k - 1, cs[k - 1].racks, |cs[k - 1].racks|, x);
    }
  }

  lemma {:induction false} SiteHolds(pl: Plant, blocks: seq<Block>, k: nat, x: Cause)
    requires k <= |blocks|
    ensures x in SiteStill(pl, blocks, k) <==>
      exists b: nat, c: nat, r: nat :: b < k && HasRack(blocks, b, c, r) && x.0 == RackNode(b, c, r)
        && 8 <= x.1 < 16 && x.1 in Again(pl, blocks[b].containers[c].racks[r])
  {
    hide Again, BlockStill;
    if k > 0 {
      SiteHolds(pl, blocks, k - 1, x);
      BlockHolds(pl, k - 1, blocks[k - 1].containers, |blocks[k - 1].containers|, x);
    }
  }

  /** A cleared trip would be raised again exactly when it was latched and its condition
      still holds. */
  lemma AgainIsPresent(pl: Plant, rack: Rack, bit: int)
    requires 8 <= bit < 16
    ensures bit in Again(pl, rack) <==> bit in rack.alarms && Present(pl.bms.thresholds, rack, bit)
  {
    RackAlarmsRead(pl.bms, ResetRack(rack), pl.rackCfg);
    hide RackAlarms, Rising, Falling, Factor;
    if 11 <= bit {
      UnsetStaysClear(pl, ResetRack(rack), bit);
    }
  }

  /** Only the ten laid-out bits are ever raised by evaluation. */
  lemma UnsetStaysClear(pl: Plant, rack: Rack, bit: int)
    requires 11 <= bit && bit !in rack.alarms
    ensures bit !in RackAlarms(pl.bms, rack, pl.rackCfg)
  {
    hide WithBits, Rising, Falling, Factor;
    var f := Min(Factor(pl.bms.chargeTemp, rack.cellTempC), Factor(pl.bms.dischargeTemp, rack.cellTempC));
    var settings := RackSettings(pl.bms.thresholds, rack, pl.rackCfg, f);
    assert forall k :: 0 <= k < |settings| ==> settings[k].0 <= 10;
    hide RackSettings;
    assert forall x <- settings :: x.0 <= 10;
    WithBitsKeeps(rack.alarms, settings, bit);
  }

  /** The list names exactly the trips that were latched on a rack in scope and whose
      condition still holds there. */
  lemma StillIsPresent(pl: Plant, s: Site, scope: Scope, b: nat, c: nat, r: nat, bit: int)
    requires HasRack(s.blocks, b, c, r)
    ensures (RackNode(b, c, r), bit) in Still(pl, s, scope) <==>
      && InScope(scope, b, c, r) && 8 <= bit < 16
      && bit in RackAt(s, b, c, r).alarms && Present(pl.bms.thresholds, RackAt(s, b, c, r), bit)
  {
    hide Again, Present, SiteStill, BlockStill, Trips;
    var x := (RackNode(b, c, r), bit);
    if 8 <= bit < 16 { AgainIsPresent(pl, RackAt(s, b, c, r), bit); }
    match scope
    case SiteScope => SiteHolds(pl, s.blocks, |s.blocks|, x);
    case BlockScope(b0) =>
      if b0 < |s.blocks| { BlockHolds(pl, b0, s.blocks[b0].containers, |s.blocks[b0].containers|, x); }
    case RackScope(b0, c0, r0) =>
      if HasRack(s.blocks, b0, c0, r0) { TripsHold(RackNode(b0, c0, r0), Again(pl, RackAt(s, b0, c0, r0)), 8, x); }
  }

  /** Only racks are on the list: neither a block nor the site has a cause that outlives
      the reset. */
  lemma StillIsRacks(pl: Plant, s: Site, scope: Scope, x: Cause)
    requires x in Still(pl, s, scope)
    ensures x.0.RackNode? && HasRack(s.blocks, x.0.block, x.0.container, x.0.rack)
  {
    hide Again, Present, SiteStill, BlockStill, Trips;
    match scope
    case SiteScope => SiteHolds(pl, s.blocks, |s.blocks|, x);
    case BlockScope(b) => BlockHolds(pl, b, s.blocks[b].containers, |s.blocks[b].containers|, x);
    case RackScope(b, c, r) => TripsHold(RackNode(b, c, r), Again(pl, RackAt(s, b, c, r)), 8, x);
  }
}
