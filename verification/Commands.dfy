/** The between-ticks door: what each fault action does to the tree, the events it
    leaves pending, and the changed/unchanged answer. */
module Commands {
  import opened Wrappers
  import opened State
  import opened Words
  import opened Log
  import opened Kernel

  datatype FaultError =
    | NoSuchNode(node: Node)
    | NoSuchContainer(block: nat, container: nat)
    | NoSuchScope(scope: Scope)

  /** An accepted action: the tree it leaves, still without the events, the events in
      order, and whether the plant changed. */
  datatype Done = Done(site: Site, events: seq<Event>, changed: bool)

  type Answer = Result<Done, FaultError>

  const DAY_S := 86400.0

  // ----- Reaching into the tree ---------------------------------------------------------

  predicate HasContainer(s: Site, b: nat, c: nat) {
    b < |s.blocks| && c < |s.blocks[b].containers|
  }

  function WithBlock(s: Site, b: nat, block: Block): Site
    requires b < |s.blocks|
  {
    s.(blocks := s.blocks[b := block])
  }

  function WithContainer(s: Site, b: nat, c: nat, container: Container): Site
    requires HasContainer(s, b, c)
  {
    var block := s.blocks[b];
    WithBlock(s, b, block.(containers := block.containers[c := container]))
  }

  function WithRack(s: Site, b: nat, c: nat, r: nat, rack: Rack): Site
    requires HasRack(s.blocks, b, c, r)
  {
    var container := s.blocks[b].containers[c];
    WithContainer(s, b, c, container.(racks := container.racks[r := rack]))
  }

  function RackAt(s: Site, b: nat, c: nat, r: nat): Rack
    requires HasRack(s.blocks, b, c, r)
  {
    s.blocks[b].containers[c].racks[r]
  }

  // ----- The commands ---------------------------------------------------------------------

  function SetHvacFailed(s: Site, b: nat, c: nat, failed: bool): Answer {
    if !HasContainer(s, b, c) then Err(NoSuchContainer(b, c)) else
      var container := s.blocks[b].containers[c];
      Ok(Done(WithContainer(s, b, c, container.(hvac := container.hvac.(failed := failed))), [],
          container.hvac.failed != failed))
  }

  function SetRackInService(s: Site, b: nat, c: nat, r: nat, inService: bool): Answer {
    if !HasRack(s.blocks, b, c, r) then Err(NoSuchNode(RackNode(b, c, r))) else
      var rack := RackAt(s, b, c, r);
      Ok(Done(WithRack(s, b, c, r, rack.(inService := inService)), [], rack.inService != inService))
  }

  function SetSelfDischarge(s: Site, b: nat, c: nat, r: nat, ppm: nat): Answer {
    if !HasRack(s.blocks, b, c, r) then Err(NoSuchNode(RackNode(b, c, r))) else
      var rack := RackAt(s, b, c, r);
      var rate := ppm as real * 0.000001 / DAY_S;
      Ok(Done(WithRack(s, b, c, r, rack.(selfDischargeExcess := rate)), [], rack.selfDischargeExcess != rate))
  }

  function SetBlockMode(s: Site, b: nat, mode: BlockMode): Answer {
    if |s.blocks| <= b then Err(NoSuchNode(BlockNode(b))) else
      Ok(Done(WithBlock(s, b, s.blocks[b].(mode := mode)), [], s.blocks[b].mode != mode))
  }

  function Tripped(block: Block): Block {
    block.(pcs := block.pcs.(opState := Fault))
  }

  function TripPcs(s: Site, b: nat): Answer {
    if |s.blocks| <= b then Err(NoSuchNode(BlockNode(b)))
    else if s.blocks[b].pcs.opState == Fault then Ok(Done(s, [], false))
    else Ok(Done(WithBlock(s, b, Tripped(s.blocks[b])), [PcsStateChanged(b, s.blocks[b].pcs.opState, Fault)], true))
  }

  function AllTripped(blocks: seq<Block>, k: nat): (r: seq<Block>)
    requires k <= |blocks|
    ensures |r| == k && forall i :: 0 <= i < k ==> r[i] == Tripped(blocks[i])
  {
    if k == 0 then [] else AllTripped(blocks, k - 1) + [Tripped(blocks[k - 1])]
  }

  /** The converter transitions of the first k blocks of a protection trip. */
  function TripEvents(blocks: seq<Block>, k: nat): (r: seq<Event>)
    requires k <= |blocks|
    ensures forall e <- r :: exists b: nat :: b < k && Touches(e) == Some(PcsOf(b))
  {
    if k == 0 then []
    else TripEvents(blocks, k - 1) + PcsChange(k - 1, blocks[k - 1].pcs, Tripped(blocks[k - 1]).pcs)
  }

  /** Protection trips the site: trip bit latched, breaker open, every converter in
      fault, the return back at no block released. */
  function TripProtection(s: Site): Done {
    if PROTECTION_TRIP in s.alarms then Done(s, [], false) else
      Done(s.(alarms := WithBit(s.alarms, PROTECTION_TRIP, true),
              substation := s.substation.(breaker := Open),
              ems := StartOver(s.ems),
              blocks := AllTripped(s.blocks, |s.blocks|)),
           [AlarmRaised(SiteNode, PROTECTION_TRIP, SeverityOf(PROTECTION_TRIP))] + TripEvents(s.blocks, |s.blocks|),
           true)
  }

  // ----- The operator reset --------------------------------------------------------------------

  function ResetRack(rack: Rack): Rack {
    rack.(alarms := ClearTrips(rack.alarms))
  }

  function ResetRacks(racks: seq<Rack>, k: nat): (r: seq<Rack>)
    requires k <= |racks|
    ensures |r| == k && forall i :: 0 <= i < k ==> r[i] == ResetRack(racks[i])
  {
    if k == 0 then [] else ResetRacks(racks, k - 1) + [ResetRack(racks[k - 1])]
  }

  function ResetContainer(c: Container): Container {
    c.(racks := ResetRacks(c.racks, |c.racks|))
  }

  function ResetContainers(cs: seq<Container>, k: nat): (r: seq<Container>)
    requires k <= |cs|
    ensures |r| == k && forall i :: 0 <= i < k ==> r[i] == ResetContainer(cs[i])
  {
    if k == 0 then [] else ResetContainers(cs, k - 1) + [ResetContainer(cs[k - 1])]
  }

  function ResetPcs(p: Pcs): Pcs {
    if p.opState == Fault then p.(opState := Standby) else p
  }

  function ResetBlock(b: Block): (r: Block)
    ensures SameRacks(b.containers, r.containers)
  {
    b.(pcs := ResetPcs(b.pcs), alarms := ClearTrips(b.alarms),
       containers := ResetContainers(b.containers, |b.containers|))
  }

  /** A block's reset events: the converter leaving fault, its word, its racks. */
  function ResetBlockEvents(b: nat, block: Block): (r: seq<Event>)
    ensures forall e <- r :: Concerns(e, b)
  {
    PcsChange(b, block.pcs, ResetBlock(block).pcs)
    + WordChanges(BlockNode(b), block.alarms, ClearTrips(block.alarms))
    + ContainersDiff(b, block.containers, ResetBlock(block).containers, |block.containers|)
  }

  function ResetBlocks(blocks: seq<Block>, k: nat): (r: seq<Block>)
    requires k <= |blocks|
    ensures |r| == k && forall i :: 0 <= i < k ==> r[i] == ResetBlock(blocks[i])
  {
    if k == 0 then [] else ResetBlocks(blocks, k - 1) + [ResetBlock(blocks[k - 1])]
  }

  function ResetBlocksEvents(blocks: seq<Block>, k: nat): (r: seq<Event>)
    requires k <= |blocks|
    ensures forall e <- r :: exists b: nat :: b < k && Concerns(e, b)
  {
    if k == 0 then [] else ResetBlocksEvents(blocks, k - 1) + ResetBlockEvents(k - 1, blocks[k - 1])
  }

  /** The site after a reset of everything; on a tripped site this is also the close. */
  function ResetSite(s: Site): Site {
    var next := s.(blocks := ResetBlocks(s.blocks, |s.blocks|), alarms := ClearTrips(s.alarms));
    if s.substation.breaker == Open
    then next.(substation := s.substation.(breaker := Closed), ems := StartOver(s.ems)) else next
  }

  function ResetSiteEvents(s: Site): seq<Event> {
    ResetBlocksEvents(s.blocks, |s.blocks|) + WordChanges(SiteNode, s.alarms, ClearTrips(s.alarms))
  }

  function ResetAlarms(s: Site, scope: Scope): Answer {
    match scope
    case SiteScope =>
      var events := ResetSiteEvents(s);
      Ok(Done(ResetSite(s), events, events != []))
    case BlockScope(b) =>
      if |s.blocks| <= b then Err(NoSuchScope(scope)) else
        var events := ResetBlockEvents(b, s.blocks[b]);
        Ok(Done(WithBlock(s, b, ResetBlock(s.blocks[b])), events, events != []))
    case RackScope(b, c, r) =>
      if !HasRack(s.blocks, b, c, r) then Err(NoSuchScope(scope)) else
        var rack := RackAt(s, b, c, r);
        var events := WordChanges(RackNode(b, c, r), rack.alarms, ClearTrips(rack.alarms));
        Ok(Done(WithRack(s, b, c, r, ResetRack(rack)), events, events != []))
  }

  // ----- The one door ------------------------------------------------------------------------------

  function Dispatch(s: Site, a: FaultAction): Answer {
    match a
    case HvacFailure(b, c) => SetHvacFailed(s, b, c, true)
    case HvacRepair(b, c) => SetHvacFailed(s, b, c, false)
    case PcsTrip(b) => TripPcs(s, b)
    case ProtectionTrip => Ok(TripProtection(s))
    case RackSelfDischarge(b, c, r, ppm) => SetSelfDischarge(s, b, c, r, ppm)
    case RackIsolate(b, c, r) => SetRackInService(s, b, c, r, false)
    case RackRestore(b, c, r) => SetRackInService(s, b, c, r, true)
    case BlockMaintenanceEnter(b) => SetBlockMode(s, b, Maintenance)
    case BlockMaintenanceExit(b) => SetBlockMode(s, b, InService)
    case AlarmReset(scope) => ResetAlarms(s, scope)
  }

  /** The tree after a command's answer: its effects wait in the tree, a refusal changes
      nothing. */
  function Answered(s: Site, answer: Answer): Site {
    match answer
    case Ok(done) => done.site.(pending := s.pending + done.events)
    case Err(_) => s
  }

  /** The tree after a direct command. */
  function Commanded(s: Site, a: FaultAction): Site {
    Answered(s, Dispatch(s, a))
  }

  /** The tree after `apply`: the mark goes in ahead of what the action left pending. */
  function Applied(s: Site, a: FaultAction): Site {
    match Dispatch(s, a)
    case Ok(done) => done.site.(pending := s.pending + [FaultApplied(a)] + done.events)
    case Err(_) => s
  }

  // ----- What commands keep -------------------------------------------------------------------------

  /** The action names only nodes the site has. */
  predicate Addresses(s: Site, a: FaultAction) {
    match a
    case HvacFailure(b, c) => HasContainer(s, b, c)
    case HvacRepair(b, c) => HasContainer(s, b, c)
    case PcsTrip(b) => b < |s.blocks|
    case ProtectionTrip => true
    case RackSelfDischarge(b, c, r, _) => HasRack(s.blocks, b, c, r)
    case RackIsolate(b, c, r) => HasRack(s.blocks, b, c, r)
    case RackRestore(b, c, r) => HasRack(s.blocks, b, c, r)
    case BlockMaintenanceEnter(b) => b < |s.blocks|
    case BlockMaintenanceExit(b) => b < |s.blocks|
    case AlarmReset(SiteScope) => true
    case AlarmReset(BlockScope(b)) => b < |s.blocks|
    case AlarmReset(RackScope(b, c, r)) => HasRack(s.blocks, b, c, r)
  }

  /** The trip bit is latched exactly while the breaker is open. */
  predicate TripMeansOpen(s: Site) {
    PROTECTION_TRIP in s.alarms <==> s.substation.breaker == Open
  }
}
