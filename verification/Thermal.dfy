/** The two-node container thermal model and its staged HVAC controller. */
module Thermal {
  import opened Reals
  import opened State

  datatype LumpedThermal = LumpedThermal(
    airCapacity: Pos,
    rackCapacity: Pos,
    rackToAir: real,
    ua: real,
    solAir: real,
    unitCoolingW: real,
    cool1On: real,
    cool1Off: real,
    cool2On: real,
    cool2Off: real,
    cop: Pos,
    heatingW: real,
    heatOn: real,
    heatOff: real,
    unitFanW: real,
    standbyW: real,
    minRunS: real,
    minOffS: real)

  // ----- The controller ----------------------------------------------------------------

  function CoolingUnits(mode: HvacMode): real {
    match mode
    case Cool1 => 1.0
    case Cool2 => 2.0
    case Off => 0.0
    case Heat => 0.0
  }

  predicate Cooling(mode: HvacMode) {
    0.0 < CoolingUnits(mode)
  }

  function CoolingStart(m: LumpedThermal, air: real, free: bool): HvacMode {
    if !free then Off else if m.cool2On <= air then Cool2 else Cool1
  }

  /** The mode the controller wants next; `free` says the protection interval has run out. */
  function NextMode(m: LumpedThermal, mode: HvacMode, air: real, free: bool): HvacMode {
    if Cooling(mode) && m.cool2On <= air then Cool2 else
      match mode
      case Cool2 => if air <= m.cool2Off && free then Cool1 else Cool2
      case Cool1 => if air <= m.cool1Off && free then Off else Cool1
      case Heat =>
        if m.cool1On <= air then CoolingStart(m, air, free)
        else if m.heatOff <= air then Off
        else Heat
      case Off =>
        if air <= m.heatOn then Heat
        else if m.cool1On <= air then CoolingStart(m, air, free)
        else Off
  }

  function NextHoldS(m: LumpedThermal, from: HvacMode, to: HvacMode, hold: real, dt: real): real {
    if Cooling(to) && to != from then m.minRunS
    else if Cooling(from) && !Cooling(to) then m.minOffS
    else Max(hold - dt, 0.0)
  }

  function ModeThermalW(m: LumpedThermal, mode: HvacMode): real {
    if mode == Heat then -m.heatingW else CoolingUnits(mode) * m.unitCoolingW
  }

  function ModeElectricalW(m: LumpedThermal, mode: HvacMode): real {
    m.standbyW + CoolingUnits(mode) * (m.unitCoolingW / m.cop + m.unitFanW)
    + (if mode == Heat then m.heatingW + m.unitFanW else 0.0)
  }

  /** One tick of the unit at an air temperature. */
  function StepHvac(m: LumpedThermal, h: Hvac, air: real, dt: real): Hvac {
    var mode := if h.failed then Off else NextMode(m, h.mode, air, h.holdS <= 0.0);
    h.(mode := mode,
       holdS := NextHoldS(m, h.mode, mode, h.holdS, dt),
       thermalW := ModeThermalW(m, mode),
       electricalW := ModeElectricalW(m, mode))
  }

  // ----- Compressor protection over any trace -----------------------------------------------

  /** What one tick brings: the air temperature, and whether the unit is failed. */
  datatype Moment = Moment(airC: real, failed: bool)

  /** The unit after the first k moments of a trace of temperatures, failures and repairs. */
  function At(m: LumpedThermal, h: Hvac, trace: seq<Moment>, dt: real, k: nat): Hvac
    requires k <= |trace|
  {
    if k == 0 then h
    else StepHvac(m, At(m, h, trace, dt, k - 1).(failed := trace[k - 1].failed), trace[k - 1].airC, dt)
  }

  /** The last compressor stops during tick i. */
  predicate StopsAt(m: LumpedThermal, h: Hvac, trace: seq<Moment>, dt: real, i: nat)
    requires i < |trace|
  {
    Cooling(At(m, h, trace, dt, i).mode) && !Cooling(At(m, h, trace, dt, i + 1).mode)
  }

  /** Cooling starts from a stopped compressor during tick i. */
  predicate StartsAt(m: LumpedThermal, h: Hvac, trace: seq<Moment>, dt: real, i: nat)
    requires i < |trace|
  {
    !Cooling(At(m, h, trace, dt, i).mode) && Cooling(At(m, h, trace, dt, i + 1).mode)
  }

  /** Tick i ends in another cooling stage than it began in. */
  predicate ChangesStageAt(m: LumpedThermal, h: Hvac, trace: seq<Moment>, dt: real, i: nat)
    requires i < |trace|
  {
    Cooling(At(m, h, trace, dt, i + 1).mode) && At(m, h, trace, dt, i + 1).mode != At(m, h, trace, dt, i).mode
  }

  /** Tick i ends with fewer cooling units running than it began with. */
  predicate ShedsAt(m: LumpedThermal, h: Hvac, trace: seq<Moment>, dt: real, i: nat)
    requires i < |trace|
  {
    CoolingUnits(At(m, h, trace, dt, i + 1).mode) < CoolingUnits(At(m, h, trace, dt, i).mode)
  }

  /** What one tick does to the timer. */
  lemma TimerStep(m: LumpedThermal, h: Hvac, air: real, dt: Pos)
    ensures var next := StepHvac(m, h, air, dt);
      && (Cooling(next.mode) && next.mode != h.mode ==> next.holdS == m.minRunS)
      && (Cooling(h.mode) && !Cooling(next.mode) ==> next.holdS == m.minOffS)
      && (Cooling(h.mode) == Cooling(next.mode) && (Cooling(h.mode) ==> next.mode == h.mode) ==>
          h.holdS - dt <= next.holdS)
      && (!Cooling(h.mode) && Cooling(next.mode) ==> h.holdS <= 0.0)
      && (CoolingUnits(next.mode) < CoolingUnits(h.mode) && !h.failed ==> h.holdS <= 0.0)
  {}

  lemma TimerStepAt(m: LumpedThermal, h: Hvac, trace: seq<Moment>, dt: Pos, k: nat)
    requires k < |trace|
    ensures var now, next := At(m, h, trace, dt, k), At(m, h, trace, dt, k + 1);
      && (Cooling(next.mode) && next.mode != now.mode ==> next.holdS == m.minRunS)
      && (Cooling(now.mode) && !Cooling(next.mode) ==> next.holdS == m.minOffS)
      && (Cooling(now.mode) == Cooling(next.mode) && (Cooling(now.mode) ==> next.mode == now.mode) ==>
          now.holdS - dt <= next.holdS)
      && (!Cooling(now.mode) && Cooling(next.mode) ==> now.holdS <= 0.0)
      && (CoolingUnits(next.mode) < CoolingUnits(now.mode) && !trace[k].failed ==> now.holdS <= 0.0)
  {
    hide StepHvac, Cooling, CoolingUnits;
    TimerStep(m, At(m, h, trace, dt, k).(failed := trace[k].failed), trace[k].airC, dt);
  }

  lemma ElapsedStep(n: nat, dt: Pos)
    ensures 0.0 <= Elapsed(n, dt) && Elapsed(n + 1, dt) == Elapsed(n, dt) + dt
  {
    MulNonNeg(n as real, dt);
  }

  /** While stopped, the timer still holds what a past stop armed, less the time since. */
  lemma {:induction false} OffTimerHolds(m: LumpedThermal, h: Hvac, trace: seq<Moment>, dt: Pos, i: nat, k: nat)
    requires i < k <= |trace| && StopsAt(m, h, trace, dt, i) && !Cooling(At(m, h, trace, dt, k).mode)
    ensures m.minOffS - Elapsed(k - i - 1, dt) <= At(m, h, trace, dt, k).holdS
  {
    hide At, Cooling, CoolingUnits, Elapsed;
    TimerStepAt(m, h, trace, dt, k - 1);
    ElapsedStep(k - i - 1, dt);
    if k > i + 1 {
      ElapsedStep(k - i - 2, dt);
      if !Cooling(At(m, h, trace, dt, k - 1).mode) {
        OffTimerHolds(m, h, trace, dt, i, k - 1);
      }
    }
  }

  /** While cooling, the timer still holds what the last stage change armed. */
  lemma {:induction false} RunTimerHolds(m: LumpedThermal, h: Hvac, trace: seq<Moment>, dt: Pos, i: nat, k: nat)
    requires i < k <= |trace| && ChangesStageAt(m, h, trace, dt, i) && Cooling(At(m, h, trace, dt, k).mode)
    ensures m.minRunS - Elapsed(k - i - 1, dt) <= At(m, h, trace, dt, k).holdS
  {
    hide At, Cooling, CoolingUnits, Elapsed;
    TimerStepAt(m, h, trace, dt, k - 1);
    ElapsedStep(k - i - 1, dt);
    if k > i + 1 {
      ElapsedStep(k - i - 2, dt);
      if At(m, h, trace, dt, k - 1).mode == At(m, h, trace, dt, k).mode {
        RunTimerHolds(m, h, trace, dt, i, k - 1);
      }
    }
  }

  /** Cooling never restarts within `min_off_s` of stopping, whatever the temperatures,
      failures and repairs in between. */
  lemma NoEarlyRestart(m: LumpedThermal, h: Hvac, trace: seq<Moment>, dt: Pos, i: nat, j: nat)
    requires i < j < |trace| && StopsAt(m, h, trace, dt, i) && StartsAt(m, h, trace, dt, j)
    ensures m.minOffS <= Elapsed(j - i - 1, dt)
  {
    hide At, Cooling, CoolingUnits, Elapsed;
    TimerStepAt(m, h, trace, dt, j);
    OffTimerHolds(m, h, trace, dt, i, j);
  }

  /** A healthy unit never sheds a stage within `min_run_s` of its last stage change. */
  lemma NoEarlyShed(m: LumpedThermal, h: Hvac, trace: seq<Moment>, dt: Pos, i: nat, j: nat)
    requires i < j < |trace| && ChangesStageAt(m, h, trace, dt, i) && ShedsAt(m, h, trace, dt, j)
    requires !trace[j].failed
    ensures m.minRunS <= Elapsed(j - i - 1, dt)
  {
    ShedFromCooling(m, h, trace, dt, j);
    hide At, Cooling, CoolingUnits, Elapsed;
    TimerStepAt(m, h, trace, dt, j);
    RunTimerHolds(m, h, trace, dt, i, j);
  }

  lemma ShedFromCooling(m: LumpedThermal, h: Hvac, trace: seq<Moment>, dt: real, j: nat)
    requires j < |trace| && ShedsAt(m, h, trace, dt, j)
    ensures Cooling(At(m, h, trace, dt, j).mode)
  {
    hide At;
  }

  lemma {:induction false} StopBetween(m: LumpedThermal, h: Hvac, trace: seq<Moment>, dt: real, a: nat,
      b: nat)
    returns (i: nat)
    requires a < b <= |trace| && Cooling(At(m, h, trace, dt, a).mode) && !Cooling(At(m, h, trace, dt, b).mode)
    ensures a <= i < b && StopsAt(m, h, trace, dt, i)
  {
    if Cooling(At(m, h, trace, dt, b - 1).mode) {
      i := b - 1;
    } else {
      i := StopBetween(m, h, trace, dt, a, b - 1);
    }
  }

  /** The shortest start-to-start cycle, in ticks. */
  function CycleTicks(m: LumpedThermal, dt: Pos): nat {
    TicksIn(m.minRunS, dt) + TicksIn(m.minOffS, dt) + 2
  }

  lemma StartsApart(m: LumpedThermal, h: Hvac, trace: seq<Moment>, dt: Pos, j: nat, k: nat)
    requires j < k < |trace| && StartsAt(m, h, trace, dt, j) && StartsAt(m, h, trace, dt, k)
    requires forall x <- trace :: !x.failed
    ensures CycleTicks(m, dt) <= k - j
  {
    StartIsChange(m, h, trace, dt, j);
    StartIsChange(m, h, trace, dt, k);
    hide At, StartsAt, StopsAt, ChangesStageAt, ShedsAt, TicksIn, Elapsed, Cooling;
    var i := StopBetween(m, h, trace, dt, j + 1, k);
    StopIsShed(m, h, trace, dt, i);
    NoEarlyShed(m, h, trace, dt, j, i);
    NoEarlyRestart(m, h, trace, dt, i, k);
    Covers(m.minRunS, dt, i - j - 1);
    Covers(m.minOffS, dt, k - i - 1);
  }

  lemma StartIsChange(m: LumpedThermal, h: Hvac, trace: seq<Moment>, dt: real, j: nat)
    requires j < |trace| && StartsAt(m, h, trace, dt, j)
    ensures ChangesStageAt(m, h, trace, dt, j)
    ensures Cooling(At(m, h, trace, dt, j + 1).mode) && !Cooling(At(m, h, trace, dt, j).mode)
  {
    hide At;
  }

  lemma StopIsShed(m: LumpedThermal, h: Hvac, trace: seq<Moment>, dt: real, i: nat)
    requires i < |trace| && StopsAt(m, h, trace, dt, i)
    ensures ShedsAt(m, h, trace, dt, i)
  {
    hide At;
  }

  /** Starts among the first k ticks, and the latest of them. */
  function Starts(m: LumpedThermal, h: Hvac, trace: seq<Moment>, dt: real, k: nat): nat
    requires k <= |trace|
  {
    if k == 0 then 0
    else Starts(m, h, trace, dt, k - 1) + (if StartsAt(m, h, trace, dt, k - 1) then 1 else 0)
  }

  lemma {:induction false} LastStart(m: LumpedThermal, h: Hvac, trace: seq<Moment>, dt: Pos, k: nat) returns (j: nat)
    requires k <= |trace| && 0 < Starts(m, h, trace, dt, k)
    requires forall x <- trace :: !x.failed
    ensures j < k && StartsAt(m, h, trace, dt, j) && (Starts(m, h, trace, dt, k) - 1) * CycleTicks(m, dt) <= j
  {
    hide At, CycleTicks, StartsAt;
    var n := Starts(m, h, trace, dt, k);
    if StartsAt(m, h, trace, dt, k - 1) {
      j := k - 1;
      if n > 1 {
        var before := LastStart(m, h, trace, dt, k - 1);
        StartsApart(m, h, trace, dt, before, j);
        assert (n - 1) * CycleTicks(m, dt) == (n - 2) * CycleTicks(m, dt) + CycleTicks(m, dt);
      }
    } else {
      j := LastStart(m, h, trace, dt, k - 1);
    }
  }

  /** A healthy unit starts cooling at most once, and once more per whole protected cycle. */
  lemma StartsBounded(m: LumpedThermal, h: Hvac, trace: seq<Moment>, dt: Pos)
    requires forall x <- trace :: !x.failed
    ensures Starts(m, h, trace, dt, |trace|) <= 1 + |trace| / CycleTicks(m, dt)
  {
    hide At, CycleTicks, StartsAt, Starts;
    var n, c := Starts(m, h, trace, dt, |trace|), CycleTicks(m, dt);
    CyclePositive(m, dt);
    if n > 0 {
      var j := LastStart(m, h, trace, dt, |trace|);
      AtMost(n - 1, c, |trace|);
    }
  }

  lemma CyclePositive(m: LumpedThermal, dt: Pos)
    ensures 0 < CycleTicks(m, dt)
  {}

  lemma AtMost(n: nat, c: nat, total: nat)
    requires 0 < c && n * c <= total
    ensures n <= total / c
  {
    var q := total / c;
    assert total < (q + 1) * c;
    if q < n {
      IntMulMono(q + 1, n, c);
    }
  }

  lemma IntMulMono(x: nat, y: nat, c: nat)
    requires x <= y
    ensures x * c <= y * c
  {}

  // ----- Heating -------------------------------------------------------------------------------

  /** No one decision to heat looks at the timer, and a second cooling unit joins a running
      one at once. Over time heating does wait, for a compressor the timer keeps running:
      see `HeatingComes`. */
  lemma TimerGatesCompressorsOnly(m: LumpedThermal, mode: HvacMode, air: real, free: bool)
    ensures NextMode(m, mode, air, true) == Heat <==> NextMode(m, mode, air, false) == Heat
    ensures !Cooling(mode) && air <= m.heatOn && m.heatOn < m.heatOff && m.heatOn < m.cool1On ==>
              NextMode(m, mode, air, free) == Heat
    ensures Cooling(mode) && m.cool2On <= air ==> NextMode(m, mode, air, free) == Cool2
  {}

  /** The bands in the order a configuration lists them. */
  predicate BandsOrdered(m: LumpedThermal) {
    && m.heatOn < m.heatOff && m.heatOn < m.cool1On && m.heatOn < m.cool2On
    && m.heatOn <= m.cool1Off && m.heatOn <= m.cool2Off
  }

  /** Over any trace, a healthy unit asked for heat heats exactly when no compressor was
      running: a compressor at work is all that can hold heating up. */
  lemma HeatsUnlessCooling(m: LumpedThermal, h: Hvac, trace: seq<Moment>, dt: real, k: nat)
    requires k < |trace| && BandsOrdered(m) && !trace[k].failed && trace[k].airC <= m.heatOn
    ensures At(m, h, trace, dt, k + 1).mode == Heat <==> !Cooling(At(m, h, trace, dt, k).mode)
  {}

  /** Ticks until a unit that stays cold and healthy heats: the next one when no compressor
      runs; else what is left on the timer, for a second stage a whole minimum run more,
      and the ticks that shed the stages. */
  function HeatingDelay(m: LumpedThermal, mode: HvacMode, holdS: real, dt: Pos): nat {
    match mode
    case Cool1 => TicksIn(holdS, dt) + 2
    case Cool2 => TicksIn(holdS, dt) + 1 + TicksIn(m.minRunS, dt) + 2
    case Off => 1
    case Heat => 1
  }

  predicate ColdAndHealthy(m: LumpedThermal, trace: seq<Moment>) {
    forall x <- trace :: !x.failed && x.airC <= m.heatOn
  }

  lemma TicksDown(s: real, dt: Pos)
    ensures if s <= 0.0 then TicksIn(s, dt) == 0
      else TicksIn(s, dt) > 0 && TicksIn(Max(s - dt, 0.0), dt) == TicksIn(s, dt) - 1
  {
    WholeTicks(0, dt);
    if 0.0 < s {
      var n, r := TicksIn(s, dt), Max(s - dt, 0.0);
      var k := TicksIn(r, dt);
      WholeTicks(n, dt);
      WholeTicks(k, dt);
      hide Elapsed;
      Covers(r, dt, n - 1);
      Covers(s, dt, k + 1);
    }
  }

  /** One cold, healthy tick brings heating one tick nearer. */
  lemma DelayStep(m: LumpedThermal, h: Hvac, air: real, dt: Pos)
    requires BandsOrdered(m) && !h.failed && air <= m.heatOn
    ensures var next, delay := StepHvac(m, h, air, dt), HeatingDelay(m, h.mode, h.holdS, dt);
      if delay == 1 then next.mode == Heat
      else next.mode != Heat && HeatingDelay(m, next.mode, next.holdS, dt) == delay - 1
  {
    TicksDown(h.holdS, dt);
    hide TicksIn, Max, ModeThermalW, ModeElectricalW;
  }

  /** The unit after a first tick and the rest of a trace. */
  lemma {:induction false} AtFromFirst(m: LumpedThermal, h: Hvac, trace: seq<Moment>, dt: real, k: nat)
    requires 1 <= k <= |trace|
    ensures At(m, h, trace, dt, k)
         == At(m, StepHvac(m, h.(failed := trace[0].failed), trace[0].airC, dt), trace[1..], dt, k - 1)
  {
    hide StepHvac;
    if k > 1 { AtFromFirst(m, h, trace, dt, k - 1); }
  }

  /** The delay exactly: over a trace that stays cold and healthy the unit heats from the
      tick `HeatingDelay` names on, and on none before it. */
  lemma {:induction false} HeatingComes(m: LumpedThermal, h: Hvac, trace: seq<Moment>, dt: Pos, k: nat)
    requires BandsOrdered(m) && ColdAndHealthy(m, trace) && 1 <= k <= |trace|
    ensures At(m, h, trace, dt, k).mode == Heat <==> HeatingDelay(m, h.mode, h.holdS, dt) <= k
    decreases k
  {
    var first := StepHvac(m, h.(failed := false), trace[0].airC, dt);
    assert trace[0] in trace && forall x <- trace[1..] :: x in trace;
    AtFromFirst(m, h, trace, dt, k);
    DelayStep(m, h.(failed := false), trace[0].airC, dt);
    DelayPositive(m, h.mode, h.holdS, dt);
    hide StepHvac;
    if k == 1 {
      assert At(m, first, trace[1..], dt, 0) == first;
    } else {
      HeatingComes(m, first, trace[1..], dt, k - 1);
    }
    hide At, HeatingDelay;
  }

  lemma DelayPositive(m: LumpedThermal, mode: HvacMode, holdS: real, dt: Pos)
    ensures 1 <= HeatingDelay(m, mode, holdS, dt)
    ensures mode == Heat ==> HeatingDelay(m, mode, holdS, dt) == 1
  {}

  // ----- Heat flows ----------------------------------------------------------------------------

  /** Heat one rack's cells pass to the air they breathe. */
  function ToAirW(m: LumpedThermal, rack: Rack, air: real): real {
    m.rackToAir * (rack.cellTempC - (air + rack.tempOffsetC))
  }

  function Warmed(m: LumpedThermal, rack: Rack, heat: real, air: real, dt: real): Rack {
    rack.(cellTempC := rack.cellTempC + dt * (heat - ToAirW(m, rack, air)) / m.rackCapacity)
  }

  /** The first k racks after the step. */
  function RacksWarmed(m: LumpedThermal, racks: seq<Rack>, heat: seq<real>, air: real, dt: real, k: nat): (r: seq<Rack>)
    requires k <= |racks| == |heat|
    ensures |r| == k && forall i :: 0 <= i < k ==> r[i] == Warmed(m, racks[i], heat[i], air, dt)
  {
    if k == 0 then []
    else RacksWarmed(m, racks, heat, air, dt, k - 1) + [Warmed(m, racks[k - 1], heat[k - 1], air, dt)]
  }

  function CellsToAirW(m: LumpedThermal, racks: seq<Rack>, air: real, k: nat): real
    requires k <= |racks|
  {
    if k == 0 then 0.0 else CellsToAirW(m, racks, air, k - 1) + ToAirW(m, racks[k - 1], air)
  }

  function EnvelopeGainW(m: LumpedThermal, weather: Weather, air: real): real {
    m.ua * (weather.ambientC - air) + m.ua * m.solAir * weather.irradianceWm2
  }

  /** One container step: every flow read at the temperatures the tick began with. */
  function StepContainer(m: LumpedThermal, c: Container, heat: seq<real>, weather: Weather, dt: real): Container
    requires |heat| == |c.racks|
  {
    var air := c.airTempC;
    var hvac := StepHvac(m, c.hvac, air, dt);
    var flow := CellsToAirW(m, c.racks, air, |c.racks|) + EnvelopeGainW(m, weather, air) - hvac.thermalW;
    Container(air + dt * flow / m.airCapacity, hvac, RacksWarmed(m, c.racks, heat, air, dt, |c.racks|))
  }

  method StepContainerInPlace(m: LumpedThermal, c: Container, heat: seq<real>, weather: Weather, dt: real)
    returns (next: Container)
    requires |heat| == |c.racks|
    ensures next == StepContainer(m, c, heat, weather, dt)
  {
    hide StepHvac, ToAirW, Warmed, EnvelopeGainW;
    var air := c.airTempC;
    var hvac := StepHvac(m, c.hvac, air, dt);
    var racks, toAir := c.racks, 0.0;
    for k := 0 to |racks|
      invariant |racks| == |c.racks|
      invariant forall i :: 0 <= i < |racks| ==>
        racks[i] == (if i < k then Warmed(m, c.racks[i], heat[i], air, dt) else c.racks[i])
      invariant toAir == CellsToAirW(m, c.racks, air, k)
    {
      toAir := toAir + ToAirW(m, racks[k], air);
      racks := racks[k := Warmed(m, racks[k], heat[k], air, dt)];
    }
    assert racks == RacksWarmed(m, c.racks, heat, air, dt, |racks|);
    next := Container(air + dt * (toAir + EnvelopeGainW(m, weather, air) - hvac.thermalW) / m.airCapacity, hvac, racks);
  }

  /** Energy of a flow in less a flow out. */
  function NetJ(dt: real, into: real, out: real): real {
    dt * (into - out)
  }

  function NodeJ(m: LumpedThermal, rack: Rack): real {
    rack.cellTempC * m.rackCapacity
  }

  /** Heat held by the cells of the first k racks, J above 0 C. */
  function CellsJ(m: LumpedThermal, racks: seq<Rack>, k: nat): real
    requires k <= |racks|
  {
    if k == 0 then 0.0 else CellsJ(m, racks, k - 1) + NodeJ(m, racks[k - 1])
  }

  function SumW(heat: seq<real>, k: nat): real
    requires k <= |heat|
  {
    if k == 0 then 0.0 else SumW(heat, k - 1) + heat[k - 1]
  }

  function StoredJ(m: LumpedThermal, c: Container): real {
    CellsJ(m, c.racks, |c.racks|) + c.airTempC * m.airCapacity
  }

  lemma {:induction false} CellsBalance(m: LumpedThermal, racks: seq<Rack>, heat: seq<real>, air: real, dt: real,
      k: nat, next: seq<Rack>)
    requires k <= |racks| == |heat| == |next| && forall i :: 0 <= i < k ==>
        next[i] == Warmed(m, racks[i], heat[i], air, dt)
    ensures CellsJ(m, next, k) - CellsJ(m, racks, k) == NetJ(dt, SumW(heat, k), CellsToAirW(m, racks, air, k))
  {
    hide ToAirW, Warmed, NodeJ, NetJ;
    if k == 0 {
      NoNet(dt);
    } else {
      CellsBalance(m, racks, heat, air, dt, k - 1, next);
      WarmedBalance(m, racks[k - 1], heat[k - 1], air, dt);
      var a, b := SumW(heat, k - 1), CellsToAirW(m, racks, air, k - 1);
      assert next[k - 1] == Warmed(m, racks[k - 1], heat[k - 1], air, dt);
      Spread(dt, SumW(heat, k), CellsToAirW(m, racks, air, k), a, heat[k - 1], b, ToAirW(m, racks[k - 1], air));
    }
  }

  lemma WarmedBalance(m: LumpedThermal, rack: Rack, heat: real, air: real, dt: real)
    ensures NodeJ(m, Warmed(m, rack, heat, air, dt)) - NodeJ(m, rack)
         == NetJ(dt, heat, ToAirW(m, rack, air))
  {
    hide ToAirW;
    OneNode(rack.cellTempC, dt * (heat - ToAirW(m, rack, air)), m.rackCapacity);
  }

  lemma OneNode(t: real, d: real, capacity: Pos)
    ensures (t + d / capacity) * capacity - t * capacity == d
  {}

  lemma NoNet(dt: real)
    ensures NetJ(dt, 0.0, 0.0) == 0.0
  {}

  lemma Spread(dt: real, s: real, c: real, a: real, x: real, b: real, y: real)
    requires s == a + x && c == b + y
    ensures NetJ(dt, s, c) == NetJ(dt, a, b) + NetJ(dt, x, y)
  {}

  /** The step conserves energy exactly: what the nodes gained is the battery heat plus
      the envelope gain less what the unit removed. */
  lemma ContainerConservesHeat(m: LumpedThermal, c: Container, heat: seq<real>, weather: Weather, dt: real)
    requires |heat| == |c.racks|
    ensures var next := StepContainer(m, c, heat, weather, dt);
      StoredJ(m, next) - StoredJ(m, c)
      == dt * (SumW(heat, |heat|) + EnvelopeGainW(m, weather, c.airTempC) - next.hvac.thermalW)
  {
    hide StepHvac, EnvelopeGainW, Warmed, CellsToAirW, SumW, CellsJ;
    var next := StepContainer(m, c, heat, weather, dt);
    var toAir, gain := CellsToAirW(m, c.racks, c.airTempC, |c.racks|), EnvelopeGainW(m, weather, c.airTempC);
    CellsBalance(m, c.racks, heat, c.airTempC, dt, |c.racks|, next.racks);
    OneNode(c.airTempC, dt * (toAir + gain - next.hvac.thermalW), m.airCapacity);
    Joins(dt, SumW(heat, |heat|), toAir, gain, next.hvac.thermalW);
  }

  lemma Joins(dt: real, h: real, t: real, g: real, o: real)
    ensures dt * (h - t) + dt * (t + g - o) == dt * (h + g - o)
  {}
}
