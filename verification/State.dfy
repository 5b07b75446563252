/** The state tree: plain values, owned by the simulation. Active power is
    positive when discharging. */
module State {
  import opened Reals

  /** An alarm word, as the set of its raised bit positions (see `Words`). */
  type Word = set<int>

  // ----- Hardware ----------------------------------------------------------------

  datatype Rack = Rack(
    inService: bool,
    soc: real,
    soh: Pos,
    voltageV: real,
    currentA: real,
    cellTempC: real,
    polarizationV: real,
    resistanceScale: Pos,
    tempOffsetC: real,
    alarms: Word,
    cellDsoc: real,
    cellDvV: real,
    balancing: bool,
    selfDischargeExcess: real)

  datatype HvacMode = Off | Cool1 | Cool2 | Heat

  datatype Hvac = Hvac(mode: HvacMode, holdS: real, electricalW: real, thermalW: real, failed: bool)

  datatype Container = Container(airTempC: real, hvac: Hvac, racks: seq<Rack>)

  datatype PcsOpState = Standby | Run | Fault

  datatype Pcs = Pcs(opState: PcsOpState, setpointW: real, acW: real, dcW: real, lossW: real)

  datatype BlockMode = InService | Maintenance

  datatype Block = Block(
    mode: BlockMode,
    pcs: Pcs,
    containers: seq<Container>,
    alarms: Word,
    setpointMissS: real)

  // ----- Plant level ---------------------------------------------------------------

  datatype EmsMode = FollowPlan | External

  datatype Ems = Ems(
    mode: EmsMode,
    siteSetpointW: real,
    externalSetpointW: real,
    availableDischargeW: real,
    availableChargeW: real,
    blocksReleased: nat,
    nextReleaseS: real)

  datatype Breaker = Open | Closed

  datatype Revenue = Revenue(
    importWh: real,
    exportWh: real,
    periodStartS: int,
    periodImportWh: real,
    periodExportWh: real,
    periodsClosed: nat,
    lastImportWh: real,
    lastExportWh: real)

  datatype Substation = Substation(
    breaker: Breaker,
    poiW: real,
    transformerLossW: real,
    auxW: real,
    importWh: real,
    exportWh: real,
    stationServiceWh: real,
    revenue: Revenue)

  datatype AuxPower = AuxPower(
    hvacW: real, bmsW: real, pcsStandbyW: real, controlsW: real, lightingAndSafetyW: real)

  datatype Energy = Energy(
    batteryLossWh: real,
    pcsLossWh: real,
    transformerLossWh: real,
    auxWh: real,
    auxItems: AuxPower)

  datatype Weather = Weather(ambientC: real, irradianceWm2: real)

  datatype Limits = Limits(chargeW: real, dischargeW: real)

  // ----- Events and faults -----------------------------------------------------------

  datatype Node = SiteNode | BlockNode(block: nat) | RackNode(block: nat, container: nat, rack: nat)

  datatype Severity = Warning | Trip

  datatype Scope = SiteScope | BlockScope(block: nat) | RackScope(block: nat, container: nat, rack: nat)

  datatype FaultAction =
    | HvacFailure(block: nat, container: nat)
    | HvacRepair(block: nat, container: nat)
    | PcsTrip(block: nat)
    | ProtectionTrip
    | RackSelfDischarge(block: nat, container: nat, rack: nat, excessPpmPerDay: nat)
    | RackIsolate(block: nat, container: nat, rack: nat)
    | RackRestore(block: nat, container: nat, rack: nat)
    | BlockMaintenanceEnter(block: nat)
    | BlockMaintenanceExit(block: nat)
    | AlarmReset(scope: Scope)

  datatype Event =
    | PcsStateChanged(block: nat, from: PcsOpState, to: PcsOpState)
    | AlarmRaised(node: Node, bit: int, severity: Severity)
    | AlarmCleared(node: Node, bit: int, severity: Severity)
    | FaultApplied(action: FaultAction)

  // ----- The root ------------------------------------------------------------------------

  datatype Site = Site(
    startUnixS: int,
    tick: nat,
    weather: Weather,
    ems: Ems,
    substation: Substation,
    aux: AuxPower,
    energy: Energy,
    blocks: seq<Block>,
    alarms: Word,
    eventCount: nat,
    pending: seq<Event>)
  {
    function UnixTimeS(): int { startUnixS + tick }
  }
}
