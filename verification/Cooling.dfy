/** When a unit cools, holds and rests: the cooling side of the staged controller over any
    trace, what its modes draw and move, and which way heat flows. */
module CoolingLaws {
  import opened Reals
  import opened State
  import opened Thermal

  // ----- A hot container is cooled --------------------------------------------------------

  predicate HotAndHealthy(m: LumpedThermal, trace: seq<Moment>) {
    forall x <- trace :: !x.failed && m.cool1On <= x.airC
  }

  /** The first cooling stage starts above the heater and above where it stops. */
  predicate StartsAbove(m: LumpedThermal) {
    m.heatOn < m.cool1On && m.cool1Off < m.cool1On
  }

  /** Ticks until a unit that stays hot and healthy cools: what is left of the protection
      interval and one more; none lost by a unit that cools already. */
  function CoolingDelay(mode: HvacMode, holdS: real, dt: Pos): nat {
    if Cooling(mode) then 1 else TicksIn(holdS, dt) + 1
  }

  /** One hot, healthy tick brings cooling one tick nearer, the heater off meanwhile. */
  lemma HotStep(m: LumpedThermal, h: Hvac, air: real, dt: Pos)
    requires StartsAbove(m) && !h.failed && m.cool1On <= air
    ensures var next, delay := StepHvac(m, h, air, dt), CoolingDelay(h.mode, h.holdS, dt);
      if delay == 1 then Cooling(next.mode)
      else next.mode == Off && CoolingDelay(next.mode, next.holdS, dt) == delay - 1
    ensures !Cooling(h.mode) && h.holdS <= 0.0 ==>
      (StepHvac(m, h, air, dt).mode == Cool2 <==> m.cool2On <= air)
  {
    TicksDown(h.holdS, dt);
    hide TicksIn, Max, ModeThermalW, ModeElectricalW;
  }

  /** Cooling comes: over a trace that stays hot and healthy a stopped unit cools from the
      tick its remaining protection names on, and on none before it, when it is off and not
      heating; it starts with both stages exactly when `cool2On` is reached at that tick.
      A unit that cools goes on. */
  lemma {:induction false} CoolingComes(m: LumpedThermal, h: Hvac, trace: seq<Moment>, dt: Pos, k: nat)
    requires StartsAbove(m) && HotAndHealthy(m, trace) && 1 <= k <= |trace|
    ensures Cooling(At(m, h, trace, dt, k).mode) <==> CoolingDelay(h.mode, h.holdS, dt) <= k
    ensures At(m, h, trace, dt, k).mode != Heat
    ensures !Cooling(h.mode) && k == CoolingDelay(h.mode, h.holdS, dt) ==>
      (At(m, h, trace, dt, k).mode == Cool2 <==> m.cool2On <= trace[k - 1].airC)
    decreases k
  {
    var healthy := h.(failed := false);
    var first := StepHvac(m, healthy, trace[0].airC, dt);
    assert trace[0] in trace && forall x <- trace[1..] :: x in trace;
    AtFromFirst(m, h, trace, dt, k);
    HotStep(m, healthy, trace[0].airC, dt);
    DelayOne(h.mode, h.holdS, dt);
    hide StepHvac;
    if k == 1 {
      assert At(m, first, trace[1..], dt, 0) == first;
    } else {
      CoolingComes(m, first, trace[1..], dt, k - 1);
      DelayOne(first.mode, first.holdS, dt);
    }
    hide At, CoolingDelay;
  }

  lemma DelayOne(mode: HvacMode, holdS: real, dt: Pos)
    ensures 1 <= CoolingDelay(mode, holdS, dt)
    ensures !Cooling(mode) ==> (CoolingDelay(mode, holdS, dt) == 1 <==> holdS <= 0.0)
    ensures Cooling(mode) ==> CoolingDelay(mode, holdS, dt) == 1
  {
    TicksDown(holdS, dt);
  }

  // ----- A unit that cools goes on until both release it ------------------------------------

  /** What stops the last compressor: a failure, or the first stage alone at or below its
      off band, no call for the second, and the minimum run time over. */
  predicate Released(m: LumpedThermal, h: Hvac, x: Moment) {
    x.failed || (h.mode == Cool1 && x.airC <= m.cool1Off && x.airC < m.cool2On && h.holdS <= 0.0)
  }

  /** What sheds the second stage alone. */
  predicate Shed(m: LumpedThermal, h: Hvac, x: Moment) {
    !x.failed && h.mode == Cool2 && x.airC <= m.cool2Off && x.airC < m.cool2On && h.holdS <= 0.0
  }

  /** One tick of a unit that cools, over any trace: it stops exactly when released, sheds
      its second stage exactly when its off band and the timer both allow, and takes it on
      exactly when `cool2On` is reached. */
  lemma CoolingTick(m: LumpedThermal, h: Hvac, trace: seq<Moment>, dt: real, k: nat)
    requires k < |trace| && Cooling(At(m, h, trace, dt, k).mode)
    ensures var now, next := At(m, h, trace, dt, k), At(m, h, trace, dt, k + 1);
      && (StopsAt(m, h, trace, dt, k) <==> Released(m, now, trace[k]))
      && (now.mode == Cool2 && next.mode == Cool1 <==> Shed(m, now, trace[k]))
      && (now.mode == Cool1 && next.mode == Cool2 <==>
            now.mode == Cool1 && !trace[k].failed && m.cool2On <= trace[k].airC)
  {
    hide NextHoldS, ModeThermalW, ModeElectricalW;
  }

  predicate CoolsAt(m: LumpedThermal, h: Hvac, trace: seq<Moment>, dt: real, j: int)
    requires 0 <= j <= |trace|
  {
    Cooling(At(m, h, trace, dt, j).mode)
  }

  predicate ReleasedAt(m: LumpedThermal, h: Hvac, trace: seq<Moment>, dt: real, j: int)
    requires 0 <= j < |trace|
  {
    Released(m, At(m, h, trace, dt, j), trace[j])
  }

  lemma CoolsOn(m: LumpedThermal, h: Hvac, trace: seq<Moment>, dt: real, j: nat)
    requires j < |trace| && CoolsAt(m, h, trace, dt, j)
    ensures CoolsAt(m, h, trace, dt, j + 1) <==> !ReleasedAt(m, h, trace, dt, j)
  {
    hide At, Cooling, Released;
    CoolingTick(m, h, trace, dt, j);
  }

  /** A unit that cools at tick i still does at every tick up to k exactly when nothing in
      between releases it. */
  lemma {:induction false} CoolsUntilReleased(m: LumpedThermal, h: Hvac, trace: seq<Moment>, dt: real, i: nat, k: nat)
    requires i <= k <= |trace| && CoolsAt(m, h, trace, dt, i)
    ensures (forall j :: i <= j <= k ==> CoolsAt(m, h, trace, dt, j))
       <==> (forall j :: i <= j < k ==> !ReleasedAt(m, h, trace, dt, j))
  {
    hide CoolsAt, ReleasedAt;
    if i < k {
      CoolsUntilReleased(m, h, trace, dt, i, k - 1);
      if CoolsAt(m, h, trace, dt, k - 1) { CoolsOn(m, h, trace, dt, k - 1); }
    }
  }

  // ----- A cool container is left alone -------------------------------------------------------

  predicate CoolAndHealthy(m: LumpedThermal, trace: seq<Moment>) {
    forall x <- trace :: CoolMoment(m, x)
  }

  /** At or below both off bands and below both on bands. */
  predicate CoolMoment(m: LumpedThermal, x: Moment) {
    !x.failed && x.airC <= m.cool1Off && x.airC <= m.cool2Off && x.airC < m.cool1On && x.airC < m.cool2On
  }

  /** Ticks a unit goes on cooling in a container that has cooled down: what is left on the
      timer, for a second stage a whole minimum run more, and the ticks that shed them. */
  function StopDelay(m: LumpedThermal, mode: HvacMode, holdS: real, dt: Pos): nat {
    match mode
    case Cool1 => TicksIn(holdS, dt) + 1
    case Cool2 => TicksIn(holdS, dt) + 1 + TicksIn(m.minRunS, dt) + 1
    case Off => 0
    case Heat => 0
  }

  lemma CoolStep(m: LumpedThermal, h: Hvac, x: Moment, dt: Pos)
    requires CoolMoment(m, x)
    ensures var next := StepHvac(m, h.(failed := x.failed), x.airC, dt);
      var delay, after := StopDelay(m, h.mode, h.holdS, dt), StopDelay(m, next.mode, next.holdS, dt);
      (Cooling(next.mode) <==> 1 < delay) && after == if delay == 0 then 0 else delay - 1
  {
    TicksDown(h.holdS, dt);
    hide TicksIn, Max, ModeThermalW, ModeElectricalW;
  }

  /** Cooling ends: over a trace that stays cool and healthy a unit cools up to exactly the
      tick `StopDelay` names, and never again. */
  lemma {:induction false} CoolingEnds(m: LumpedThermal, h: Hvac, trace: seq<Moment>, dt: Pos, k: nat)
    requires CoolAndHealthy(m, trace) && k <= |trace|
    ensures Cooling(At(m, h, trace, dt, k).mode) <==> k < StopDelay(m, h.mode, h.holdS, dt)
    decreases k
  {
    if k > 0 {
      assert trace[0] in trace && forall x <- trace[1..] :: x in trace;
      var first := StepHvac(m, h.(failed := trace[0].failed), trace[0].airC, dt);
      AtFromFirst(m, h, trace, dt, k);
      CoolStep(m, h, trace[0], dt);
      hide StepHvac, At, CoolMoment;
      CoolingEnds(m, first, trace[1..], dt, k - 1);
      hide StopDelay;
    }
  }

  // ----- Inside its bands a unit keeps its mode ---------------------------------------------

  /** The air temperatures at which a mode is kept whatever the timer says. */
  predicate InBand(m: LumpedThermal, mode: HvacMode, air: real) {
    match mode
    case Off => m.heatOn < air < m.cool1On
    case Heat => air < m.heatOff && air < m.cool1On
    case Cool1 => m.cool1Off < air < m.cool2On
    case Cool2 => m.cool2Off < air
  }

  /** Hysteresis over any trace: a healthy unit stays in its mode as long as the air stays
      in that mode's band. */
  lemma {:induction false} KeepsMode(m: LumpedThermal, h: Hvac, trace: seq<Moment>, dt: real, k: nat)
    requires k <= |trace| && forall x <- trace :: !x.failed && InBand(m, h.mode, x.airC)
    ensures At(m, h, trace, dt, k).mode == h.mode
  {
    if k > 0 {
      KeepsMode(m, h, trace, dt, k - 1);
      assert trace[k - 1] in trace;
      StaysInBand(m, At(m, h, trace, dt, k - 1).(failed := false), trace[k - 1].airC, dt);
      hide StepHvac, InBand;
    }
  }

  lemma StaysInBand(m: LumpedThermal, h: Hvac, air: real, dt: real)
    requires !h.failed && InBand(m, h.mode, air)
    ensures StepHvac(m, h, air, dt).mode == h.mode
  {
    hide NextHoldS, ModeThermalW, ModeElectricalW;
  }

  /** The heater stops once the air reaches its off band, in one tick; a failed unit is off. */
  lemma HeatingEnds(m: LumpedThermal, h: Hvac, trace: seq<Moment>, dt: real, k: nat)
    requires k < |trace|
    ensures At(m, h, trace, dt, k).mode == Heat && m.heatOff <= trace[k].airC ==>
      At(m, h, trace, dt, k + 1).mode != Heat
    ensures trace[k].failed ==> At(m, h, trace, dt, k + 1).mode == Off
  {}

  // ----- What a mode moves and draws -----------------------------------------------------------

  /** A unit takes heat out exactly while it cools and puts heat in exactly while it heats;
      each cooling unit moves its rating and draws that over the COP and a fan, the heater
      draws what it delivers and a fan, and the controls draw in every mode. */
  lemma UnitPower(m: LumpedThermal, h: Hvac, air: real, dt: real)
    requires 0.0 < m.unitCoolingW && 0.0 < m.heatingW
    ensures var next := StepHvac(m, h, air, dt);
      var workW := next.electricalW - m.standbyW;
      && (0.0 < next.thermalW <==> Cooling(next.mode)) && (next.thermalW < 0.0 <==> next.mode == Heat)
      && (next.mode == Cool1 ==> next.thermalW == m.unitCoolingW && (workW - m.unitFanW) * m.cop == next.thermalW)
      && (next.mode == Cool2 ==>
            next.thermalW == 2.0 * m.unitCoolingW && (workW - 2.0 * m.unitFanW) * m.cop == next.thermalW)
      && (next.mode == Heat ==> next.thermalW == -m.heatingW && workW - m.unitFanW == -next.thermalW)
      && (next.mode == Off ==> next.thermalW == 0.0 && workW == 0.0)
  {
    var next := StepHvac(m, h, air, dt);
    OverCop(m.unitCoolingW, m.cop);
    hide NextMode, NextHoldS;
  }

  lemma OverCop(w: real, cop: Pos)
    ensures w / cop * cop == w && (2.0 * (w / cop)) * cop == 2.0 * w
  {}

  // ----- Which way heat flows --------------------------------------------------------------------

  /** Where a rack's cells would come to rest in still air: above it by the offset and by
      what drives the battery heat out. */
  function RestC(m: LumpedThermal, rack: Rack, heat: real, air: real): real
    requires m.rackToAir != 0.0
  {
    air + rack.tempOffsetC + heat / m.rackToAir
  }

  /** Cells relax towards rest by a fixed share of the way each step, never past it. */
  lemma CellsRelax(m: LumpedThermal, rack: Rack, heat: real, air: real, dt: Pos)
    requires 0.0 < m.rackToAir && dt * m.rackToAir <= m.rackCapacity
    ensures var rest, next := RestC(m, rack, heat, air), Warmed(m, rack, heat, air, dt).cellTempC;
      && Toward(next - rack.cellTempC, rest - rack.cellTempC)
      && (next - rack.cellTempC) * m.rackCapacity == dt * m.rackToAir * (rest - rack.cellTempC)
  {
    var way := RestC(m, rack, heat, air) - rack.cellTempC;
    DrivenBy(m.rackToAir, rack.cellTempC, air + rack.tempOffsetC, heat);
    PartWay(dt, m.rackToAir, m.rackCapacity, way, heat - ToAirW(m, rack, air));
  }

  lemma DrivenBy(g: real, t: real, air: real, heat: real)
    requires 0.0 < g
    ensures heat - g * (t - air) == g * (air + heat / g - t)
  {}

  lemma PartWay(dt: Pos, g: real, capacity: Pos, way: real, flow: real)
    requires 0.0 < g && dt * g <= capacity && flow == g * way
    ensures Toward(dt * flow / capacity, way) && dt * flow / capacity * capacity == dt * g * way
  {
    var a := dt * g / capacity;
    MulPos(dt, g);
    DivMono(0.0, dt * g, capacity);
    DivMono(dt * g, capacity, capacity);
    assert dt * flow / capacity == a * way by { assert dt * flow == dt * g * way; OfShare(dt * g, way, capacity, a); }
    ShareOfWay(a, way);
  }

  lemma OfShare(k: real, way: real, capacity: Pos, a: real)
    requires a == k / capacity
    ensures k * way / capacity == a * way
  {}

  lemma ShareOfWay(a: real, way: real)
    requires 0.0 <= a <= 1.0
    ensures Toward(a * way, way)
  {
    if 0.0 <= way {
      MulNonNeg(a, way);
      MulNonNeg(1.0 - a, way);
    }
    if way <= 0.0 {
      MulNonNeg(a, -way);
      MulNonNeg(1.0 - a, -way);
    }
    assert (1.0 - a) * way == way - a * way;
  }

  /** Through the envelope heat comes in exactly while the air is below the ambient raised
      by the sun's share, and goes out while it is above. */
  lemma EnvelopeFlows(m: LumpedThermal, weather: Weather, air: real)
    requires 0.0 < m.ua
    ensures var solAirC := weather.ambientC + m.solAir * weather.irradianceWm2;
      && EnvelopeGainW(m, weather, air) == m.ua * (solAirC - air)
      && (0.0 < EnvelopeGainW(m, weather, air) <==> air < solAirC)
      && (EnvelopeGainW(m, weather, air) < 0.0 <==> solAirC < air)
  {
    var d := weather.ambientC + m.solAir * weather.irradianceWm2 - air;
    assert EnvelopeGainW(m, weather, air) == m.ua * d;
    if 0.0 < d { MulPos(m.ua, d); }
    if d < 0.0 { MulPos(m.ua, -d); }
  }
}
