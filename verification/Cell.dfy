/** The 1-RC equivalent-circuit rack model. */
module Cell {
  import opened Reals
  import opened Ocv
  import opened State

  /** Rack topology and ratings. */
  datatype RackConfig = RackConfig(
    cells: Pos, capacityAh: Pos, nominalCellV: real, maxCurrentA: real, socMin: real, socMax: real)

  /** Rack parameters, with the OCV curve and the square root the model computes with. */
  datatype Ecm1Rc = Ecm1Rc(r0: Pos, r1: real, tau1: Pos, curve: Curve, sqrt: real -> real)

  datatype RackStep = RackStep(dcW: real, heatW: real)

  function CapacityAh(rack: Rack, cfg: RackConfig): Pos {
    cfg.capacityAh * rack.soh
  }

  function R0(m: Ecm1Rc, rack: Rack): Pos {
    m.r0 * rack.resistanceScale
  }

  function R1(m: Ecm1Rc, scale: Pos): real {
    m.r1 * scale
  }

  /** The SoC a current takes in one step. */
  function SocDrop(rack: Rack, cfg: RackConfig, i: real, dt: Pos): real {
    i * dt / (3600.0 * CapacityAh(rack, cfg))
  }

  function OcvRackV(m: Ecm1Rc, soc: real, cfg: RackConfig): real {
    OcvCellV(m.curve, soc) * cfg.cells
  }

  function StoredWh(m: Ecm1Rc, rack: Rack, cfg: RackConfig): real {
    OcvIntegralV(m.curve, rack.soc) * (CapacityAh(rack, cfg) * cfg.cells)
  }

  /** Terminal power of an EMF behind a resistance. */
  function TerminalW(e: real, r0: real, i: real): real {
    (e - r0 * i) * i
  }

  /** The small root of the power equation, for a request the cell can deliver. */
  function SolveA(m: Ecm1Rc, e: real, r0: Pos, p: real): real {
    if Abs(p) < EPSILON then 0.0
    else (e - m.sqrt(e * e - 4.0 * r0 * p)) / (2.0 * r0)
  }

  function DeliverableW(e: real, r0: Pos, request: real): real {
    Min(request, 0.999 * (e * e / (4.0 * r0)))
  }

  function MostDischargeA(rack: Rack, cfg: RackConfig, dt: Pos): real {
    rack.soc * CapacityAh(rack, cfg) * 3600.0 / dt
  }

  function MostChargeA(rack: Rack, cfg: RackConfig, dt: Pos): real {
    (1.0 - rack.soc) * CapacityAh(rack, cfg) * 3600.0 / dt
  }

  /** The current after the hard electrical and SoC bounds. */
  function BoundedA(i: real, rack: Rack, cfg: RackConfig, dt: Pos): real {
    var i1 := Clamp(i, -cfg.maxCurrentA, cfg.maxCurrentA);
    Clamp(i1, -MostChargeA(rack, cfg, dt), MostDischargeA(rack, cfg, dt))
  }

  function EmfV(m: Ecm1Rc, rack: Rack, cfg: RackConfig): real {
    OcvRackV(m, rack.soc, cfg) - rack.polarizationV
  }

  /** The current that would deliver the request, ahead of the hard bounds. */
  function SolvedA(m: Ecm1Rc, rack: Rack, cfg: RackConfig, request: real): real {
    var e := EmfV(m, rack, cfg);
    SolveA(m, e, R0(m, rack), DeliverableW(e, R0(m, rack), request))
  }

  /** The current a request draws; zero in a rack out of service. */
  function CurrentA(m: Ecm1Rc, rack: Rack, cfg: RackConfig, request: real, dt: Pos): real {
    if !rack.inService then 0.0 else
      BoundedA(SolvedA(m, rack, cfg, request), rack, cfg, dt)
  }

  /** The polarization branch after one step at current i. */
  function RelaxedV(m: Ecm1Rc, rack: Rack, i: real, dt: Pos): real {
    rack.polarizationV + dt / m.tau1 * (i * R1(m, rack.resistanceScale) - rack.polarizationV)
  }

  function StepRack(m: Ecm1Rc, rack: Rack, cfg: RackConfig, request: real, dt: Pos): (Rack, RackStep) {
    var ocv := OcvRackV(m, rack.soc, cfg);
    var i := CurrentA(m, rack, cfg, request, dt);
    var v1 := RelaxedV(m, rack, i, dt);
    if !rack.inService then
      (rack.(currentA := 0.0, polarizationV := v1, voltageV := ocv - v1), RackStep(0.0, 0.0))
    else
      var e := EmfV(m, rack, cfg);
      var r0 := R0(m, rack);
      var p := TerminalW(e, r0, i);
      (rack.(soc := Clamp(rack.soc - SocDrop(rack, cfg, i, dt), 0.0, 1.0),
             currentA := i, voltageV := e - r0 * i, polarizationV := v1),
       RackStep(p, ocv * i - p))
  }

  /** The step as it runs: solve, bound, then the fields one after another. */
  method StepRackInPlace(m: Ecm1Rc, rack: Rack, cfg: RackConfig, request: real, dt: Pos)
    returns (next: Rack, res: RackStep)
    ensures (next, res) == StepRack(m, rack, cfg, request, dt)
  {
    hide OcvCellV, Clamp, Min, SocDrop, RelaxedV, R0, MostChargeA, MostDischargeA, TerminalW, SolveA, DeliverableW;
    next := rack;
    var cellV := OcvCell(m.curve, rack.soc);
    var ocv, v1 := cellV * cfg.cells, rack.polarizationV;
    if !rack.inService {
      next := next.(currentA := 0.0);
      next := next.(polarizationV := RelaxedV(m, rack, 0.0, dt));
      next := next.(voltageV := ocv - next.polarizationV);
      res := RackStep(0.0, 0.0);
      assert next == StepRack(m, rack, cfg, request, dt).0;
      return;
    }
    var e, r0: Pos := ocv - v1, R0(m, rack);
    var p := DeliverableW(e, r0, request);
    var i := SolveA(m, e, r0, p);
    i := Clamp(i, -cfg.maxCurrentA, cfg.maxCurrentA);
    i := Clamp(i, -MostChargeA(rack, cfg, dt), MostDischargeA(rack, cfg, dt));
    p := TerminalW(e, r0, i);
    next := next.(soc := Clamp(next.soc - SocDrop(rack, cfg, i, dt), 0.0, 1.0));
    next := next.(currentA := i);
    next := next.(voltageV := e - r0 * i);
    next := next.(polarizationV := RelaxedV(m, rack, i, dt));
    res := RackStep(p, ocv * i - p);
    assert e == EmfV(m, rack, cfg) && i == CurrentA(m, rack, cfg, request, dt);
    assert res == StepRack(m, rack, cfg, request, dt).1;
    assert next.voltageV == StepRack(m, rack, cfg, request, dt).0.voltageV;
    assert next == StepRack(m, rack, cfg, request, dt).0;
  }

  // ----- What every rack keeps ---------------------------------------------------------

  /** The polarization branch never gets further than its voltage at full current. */
  function PolarizationBound(m: Ecm1Rc, scale: Pos, cfg: RackConfig): real {
    cfg.maxCurrentA * R1(m, scale)
  }

  /** The open-circuit voltage of an empty rack. */
  function LowestOcvV(m: Ecm1Rc, cfg: RackConfig): real {
    m.curve[0].1 * cfg.cells
  }

  /** The electrical invariant of a rack: SoC in range, current and polarization
      bounded, and the bounds such that the EMF behind R0 stays positive. */
  ghost predicate RackOk(m: Ecm1Rc, rack: Rack, cfg: RackConfig) {
    && 0.0 <= rack.soc <= 1.0
    && Abs(rack.currentA) <= cfg.maxCurrentA
    && Abs(rack.polarizationV) <= PolarizationBound(m, rack.resistanceScale, cfg)
    && PolarizationBound(m, rack.resistanceScale, cfg) < LowestOcvV(m, cfg)
  }

  ghost predicate CellSound(m: Ecm1Rc, cfg: RackConfig, dt: real) {
    IsSqrt(m.sqrt) && 0.0 <= m.r1 && 0.0 <= cfg.maxCurrentA && dt <= m.tau1
  }

  lemma EmfPositive(m: Ecm1Rc, rack: Rack, cfg: RackConfig)
    requires RackOk(m, rack, cfg)
    ensures 0.0 < EmfV(m, rack, cfg)
  {
    hide OcvCellV, PolarizationBound;
    OcvMonotone(m.curve, rack.soc, rack.soc);
    MulMono(cfg.cells, m.curve[0].1, OcvCellV(m.curve, rack.soc));
  }

  /** The small root of (e - r0 i) i == p, from any root s of the discriminant. */
  lemma SmallRoot(e: real, r0: real, p: real, s: real, i: real)
    requires 0.0 < e && 0.0 < r0 && 0.0 <= s && s * s == e * e - 4.0 * r0 * p
    requires i == (e - s) / (2.0 * r0)
    ensures TerminalW(e, r0, i) == p && 2.0 * r0 * i == e - s
    ensures (0.0 <= p ==> 0.0 <= i) && (p <= 0.0 ==> i <= 0.0)
  {
    var d := 2.0 * r0 * i;
    assert d == e - s by { Cancel(e - s, 2.0 * r0); }
    assert 4.0 * r0 * TerminalW(e, r0, i) == 4.0 * r0 * p by {
      hide TerminalW;
      DoubledRoot(e, r0, i, d, s);
    }
    CancelFactor(4.0 * r0, TerminalW(e, r0, i), p);
    RootSide(e, s, 4.0 * r0 * p, e * e, s * s);
    SignOfProduct(4.0 * r0, p);
    SignOfProduct(2.0 * r0, i);
  }

  lemma Cancel(x: real, d: real)
    requires d != 0.0
    ensures d * (x / d) == x
  {}

  lemma CancelFactor(k: real, x: real, y: real)
    requires k != 0.0 && k * x == k * y
    ensures x == y
  {}

  lemma SignOfProduct(k: real, x: real)
    requires 0.0 < k
    ensures (0.0 <= k * x) == (0.0 <= x) && (k * x <= 0.0) == (x <= 0.0)
  {}

  lemma DoubledRoot(e: real, r0: real, i: real, d: real, s: real)
    requires d == 2.0 * r0 * i && d == e - s
    ensures 4.0 * r0 * TerminalW(e, r0, i) == e * e - s * s
  {
    calc {
      4.0 * r0 * TerminalW(e, r0, i);
      2.0 * e * (2.0 * r0 * i) - (2.0 * r0 * i) * (2.0 * r0 * i);
      2.0 * e * d - d * d;
      e * e - s * s;
    }
  }

  lemma RootSide(e: real, s: real, q: real, ee: real, ss: real)
    requires 0.0 < e && 0.0 <= s && ee == e * e && ss == s * s && ss == ee - q
    ensures (0.0 <= q ==> s <= e) && (q <= 0.0 ==> e <= s)
  {
    if 0.0 <= q {
      SquareOrder(s, e, ss, ee);
    }
    if q <= 0.0 {
      SquareOrder(e, s, ee, ss);
    }
  }

  /** On the physical branch less current is less power, with the same sign. */
  lemma LessCurrentLessPower(e: real, r0: real, i: real, i0: real)
    requires 0.0 < e && 0.0 < r0 && Toward(i, i0) && 2.0 * r0 * i0 <= e
    ensures Toward(TerminalW(e, r0, i), TerminalW(e, r0, i0))
  {
    var u := e - r0 * (i0 + i);
    assert TerminalW(e, r0, i0) - TerminalW(e, r0, i) == (i0 - i) * u by {
      calc {
        (e - r0 * i0) * i0 - (e - r0 * i) * i;
        e * i0 - r0 * i0 * i0 - e * i + r0 * i * i;
        (i0 - i) * (e - r0 * (i0 + i));
      }
    }
    if 0.0 <= i0 {
      MulMono(r0, i, i0);
      MulNonNeg(i0 - i, u);
      MulNonNeg(i, e - r0 * i);
    } else {
      MulMono(r0, i, 0.0);
      MulMono(r0, i0, i);
      MulNonNeg(i - i0, u);
      MulNonNeg(-i, e - r0 * i);
    }
  }

  /** The deliverable request leaves a real discriminant, on the request's side of zero. */
  lemma DeliverableHasRoot(e: real, r0: Pos, request: real, p: real, q: real)
    requires p == DeliverableW(e, r0, request) && q == 4.0 * r0 * p
    ensures 0.0 <= e * e - q && Toward(p, request)
  {
    var ee := e * e;
    var top := ee / (4.0 * r0);
    Cancel(ee, 4.0 * r0);
    MulMono(4.0 * r0, p, 0.999 * top);
    assert 0.0 <= top;
  }

  /** The solved current, and any part of it, delivers part of what is asked. */
  lemma SolvedDelivers(m: Ecm1Rc, e: real, r0: Pos, request: real, i: real)
    requires IsSqrt(m.sqrt) && 0.0 < e
    requires Toward(i, SolveA(m, e, r0, DeliverableW(e, r0, request)))
    ensures Toward(TerminalW(e, r0, i), request)
  {
    var p := DeliverableW(e, r0, request);
    var i0 := SolveA(m, e, r0, p);
    hide DeliverableW, TerminalW;
    DeliverableHasRoot(e, r0, request, p, 4.0 * r0 * p);
    if Abs(p) < EPSILON {
      AtRest(e, r0);
    } else {
      SmallRoot(e, r0, p, m.sqrt(e * e - 4.0 * r0 * p), i0);
      LessCurrentLessPower(e, r0, i, i0);
    }
  }

  lemma AtRest(e: real, r0: real)
    ensures TerminalW(e, r0, 0.0) == 0.0
  {}

  /** The hard bounds only ever shrink a current, to what the charge left allows. */
  lemma BoundsShrink(i: real, rack: Rack, cfg: RackConfig, dt: Pos, b: real)
    requires 0.0 <= rack.soc <= 1.0 && 0.0 <= cfg.maxCurrentA && b == BoundedA(i, rack, cfg, dt)
    ensures Toward(b, i) && Abs(b) <= cfg.maxCurrentA
    ensures 0.0 <= rack.soc - SocDrop(rack, cfg, b, dt) <= 1.0
  {
    hide MostChargeA, MostDischargeA, SocDrop, Clamp;
    BoundsNonNegative(rack, cfg, dt);
    ClampShrinks(i, b, cfg.maxCurrentA, MostChargeA(rack, cfg, dt), MostDischargeA(rack, cfg, dt));
    DropInRange(rack, cfg, b, dt);
  }

  lemma BoundsNonNegative(rack: Rack, cfg: RackConfig, dt: Pos)
    requires 0.0 <= rack.soc <= 1.0
    ensures 0.0 <= MostChargeA(rack, cfg, dt) && 0.0 <= MostDischargeA(rack, cfg, dt)
  {
    hide CapacityAh;
    ScaledBounds(rack.soc, CapacityAh(rack, cfg), dt, CapacityAh(rack, cfg) * 3600.0 / dt);
  }

  lemma ScaledBounds(soc: real, cap: Pos, dt: Pos, k: real)
    requires 0.0 <= soc <= 1.0 && k == cap * 3600.0 / dt
    ensures 0.0 <= soc * cap * 3600.0 / dt == soc * k
    ensures 0.0 <= (1.0 - soc) * cap * 3600.0 / dt == (1.0 - soc) * k
  {
    MulNonNeg(soc, k);
    MulNonNeg(1.0 - soc, k);
    assert soc * cap * 3600.0 / dt == soc * k;
    assert (1.0 - soc) * cap * 3600.0 / dt == (1.0 - soc) * k;
  }

  lemma ClampShrinks(i: real, b: real, most: real, charge: real, discharge: real)
    requires 0.0 <= most && 0.0 <= charge && 0.0 <= discharge
    requires b == Clamp(Clamp(i, -most, most), -charge, discharge)
    ensures Toward(b, i) && Abs(b) <= most && -charge <= b <= discharge
  {}

  lemma DropInRange(rack: Rack, cfg: RackConfig, b: real, dt: Pos)
    requires 0.0 <= rack.soc <= 1.0
    requires -MostChargeA(rack, cfg, dt) <= b <= MostDischargeA(rack, cfg, dt)
    ensures 0.0 <= rack.soc - SocDrop(rack, cfg, b, dt) <= 1.0
  {
    hide CapacityAh;
    var cap: Pos := CapacityAh(rack, cfg);
    ScaledBounds(rack.soc, cap, dt, cap * 3600.0 / dt);
    Unscale(b, -(1.0 - rack.soc), rack.soc, cap, dt, cap * 3600.0 / dt);
  }

  lemma Unscale(b: real, lo: real, hi: real, cap: Pos, dt: Pos, k: real)
    requires k == cap * 3600.0 / dt && lo * k <= b <= hi * k
    ensures lo <= b * dt / (3600.0 * cap) <= hi
  {
    var d := b * dt / (3600.0 * cap);
    assert d * k == b by {
      Cancel(b * dt, 3600.0 * cap);
      Cancel(cap * 3600.0, dt);
      CancelFactor(dt, d * k, b) by {
        calc {
          dt * (d * k);
          d * (dt * k);
          d * (3600.0 * cap);
          dt * b;
        }
      }
    }
    if d < lo { MulStrict(k, d, lo); }
    if hi < d { MulStrict(k, hi, d); }
  }

  lemma Mixes(a: real, b: real, x: real, y: real, bound: real)
    requires 0.0 <= a && 0.0 <= b && a + b == 1.0 && Abs(x) <= bound && Abs(y) <= bound
    ensures Abs(b * x + a * y) <= bound
  {
    AbsScale(x, b, bound);
    AbsScale(y, a, bound);
    ShareOut(bound, a, b);
    AbsAdd(b * x, a * y, bound * b, bound * a);
  }

  lemma ShareOut(bound: real, a: real, b: real)
    requires a + b == 1.0
    ensures bound * b + bound * a == bound
  {
    assert b == 1.0 - a;
  }

  lemma AbsAdd(p: real, q: real, m: real, n: real)
    requires Abs(p) <= m && Abs(q) <= n
    ensures Abs(p + q) <= m + n
  {}

  lemma AbsScale(i: real, r: real, most: real)
    requires 0.0 <= r && Abs(i) <= most
    ensures Abs(i * r) <= most * r
  {
    MulMono(r, i, most);
    MulMono(r, -most, i);
  }

  lemma Relaxes(v1: real, i: real, r: real, a: real, most: real)
    requires 0.0 < a <= 1.0 && 0.0 <= r && Abs(i) <= most && Abs(v1) <= most * r
    ensures Abs(v1 + a * (i * r - v1)) <= most * r
  {
    AbsScale(i, r, most);
    var t := i * r;
    Mixes(a, 1.0 - a, v1, t, most * r);
    assert v1 + a * (t - v1) == (1.0 - a) * v1 + a * t;
  }

  lemma RelaxationBounded(m: Ecm1Rc, rack: Rack, cfg: RackConfig, i: real, dt: Pos)
    requires 0.0 <= m.r1 && dt <= m.tau1 && Abs(i) <= cfg.maxCurrentA
    requires Abs(rack.polarizationV) <= PolarizationBound(m, rack.resistanceScale, cfg)
    ensures Abs(RelaxedV(m, rack, i, dt)) <= PolarizationBound(m, rack.resistanceScale, cfg)
  {
    MulNonNeg(m.r1, rack.resistanceScale);
    ShareOfTau(dt, m.tau1);
    hide R1, Abs;
    Relaxes(rack.polarizationV, i, R1(m, rack.resistanceScale), dt / m.tau1, cfg.maxCurrentA);
  }

  lemma ShareOfTau(dt: Pos, tau: Pos)
    requires dt <= tau
    ensures 0.0 < dt / tau <= 1.0
  {
    DivMono(dt, tau, tau);
  }

  lemma DrawnCurrent(m: Ecm1Rc, rack: Rack, cfg: RackConfig, request: real, dt: Pos, i: real)
    requires CellSound(m, cfg, dt) && RackOk(m, rack, cfg) && i == CurrentA(m, rack, cfg, request, dt)
    ensures Abs(i) <= cfg.maxCurrentA
    ensures rack.inService ==> Toward(TerminalW(EmfV(m, rack, cfg), R0(m, rack), i), request)
    ensures 0.0 <= rack.soc - SocDrop(rack, cfg, i, dt) <= 1.0
  {
    hide EmfV, TerminalW, SolveA, DeliverableW, BoundedA, CapacityAh, PolarizationBound, R0;
    if rack.inService {
      EmfPositive(m, rack, cfg);
      BoundsShrink(SolvedA(m, rack, cfg, request), rack, cfg, dt, i);
      SolvedDelivers(m, EmfV(m, rack, cfg), R0(m, rack), request, i);
    }
  }

  /** A rack step keeps the rack invariant, never delivers past its request in
      either direction, and moves the SoC by the charge drawn: the clamp to [0, 1]
      never bites. */
  lemma StepRackKeeps(m: Ecm1Rc, rack: Rack, cfg: RackConfig, request: real, dt: Pos)
    requires CellSound(m, cfg, dt) && RackOk(m, rack, cfg)
    ensures var (next, res) := StepRack(m, rack, cfg, request, dt);
      && RackOk(m, next, cfg)
      && (rack.inService ==> Toward(res.dcW, request))
      && (!rack.inService ==> res.dcW == 0.0 && res.heatW == 0.0)
      && next.soc == rack.soc - SocDrop(rack, cfg, next.currentA, dt)
      && res.dcW + res.heatW == OcvRackV(m, rack.soc, cfg) * next.currentA
  {
    hide CurrentA, RelaxedV, TerminalW, OcvRackV, EmfV, SocDrop, R0, R1, PolarizationBound, IsSqrt;
    var i := CurrentA(m, rack, cfg, request, dt);
    DrawnCurrent(m, rack, cfg, request, dt, i);
    RelaxationBounded(m, rack, cfg, i, dt);
    NoDrop(rack, cfg, dt);
    NoCurrent(m, rack, cfg, request, dt);
    Restored(OcvRackV(m, rack.soc, cfg), i, TerminalW(EmfV(m, rack, cfg), R0(m, rack), i));
  }

  lemma Restored(ocv: real, i: real, p: real)
    ensures p + (ocv * i - p) == ocv * i
  {}

  lemma NoDrop(rack: Rack, cfg: RackConfig, dt: Pos)
    ensures SocDrop(rack, cfg, 0.0, dt) == 0.0
  {}

  lemma NoCurrent(m: Ecm1Rc, rack: Rack, cfg: RackConfig, request: real, dt: Pos)
    ensures !rack.inService ==> CurrentA(m, rack, cfg, request, dt) == 0.0
    ensures OcvRackV(m, rack.soc, cfg) * 0.0 == 0.0
  {}

  // ----- The books against the stored energy ---------------------------------------------

  /** The chemical energy a step's current draws at the open-circuit voltage, Wh. */
  function ChemWh(m: Ecm1Rc, rack: Rack, cfg: RackConfig, i: real, dt: Pos): real {
    OcvRackV(m, rack.soc, cfg) * i * dt / 3600.0
  }

  /** How far the books of one step may lead the stored energy, Wh. */
  function GapWh(m: Ecm1Rc, before: Rack, after: Rack, cfg: RackConfig): real {
    CapacityAh(before, cfg) * cfg.cells
    * Abs(OcvCellV(m.curve, after.soc) - OcvCellV(m.curve, before.soc)) * Abs(after.soc - before.soc)
  }

  /** Stored energy never falls by more than the chemical energy the step books, and
      by at most the gap less. */
  lemma StepRackBooks(m: Ecm1Rc, rack: Rack, cfg: RackConfig, request: real, dt: Pos)
    requires CellSound(m, cfg, dt) && RackOk(m, rack, cfg)
    ensures var (next, res) := StepRack(m, rack, cfg, request, dt);
      var fallWh := StoredWh(m, rack, cfg) - StoredWh(m, next, cfg);
      var chemWh := ChemWh(m, rack, cfg, next.currentA, dt);
      chemWh - GapWh(m, rack, next, cfg) <= fallWh <= chemWh
  {
    hide GapWh, StoredWh, ChemWh, SocDrop, OcvRackV;
    var (next, res) := StepRack(m, rack, cfg, request, dt);
    StepRackKeeps(m, rack, cfg, request, dt);
    SohKept(m, rack, cfg, request, dt);
    hide StepRack;
    SocChangeBooks(m, rack, next, cfg, next.currentA, dt);
  }

  lemma SohKept(m: Ecm1Rc, rack: Rack, cfg: RackConfig, request: real, dt: Pos)
    ensures StepRack(m, rack, cfg, request, dt).0.soh == rack.soh
  {}

  lemma SocChangeBooks(m: Ecm1Rc, rack: Rack, next: Rack, cfg: RackConfig, i: real, dt: Pos)
    requires 0.0 <= rack.soc <= 1.0 && 0.0 <= next.soc <= 1.0 && next.soh == rack.soh
    requires next.soc == rack.soc - SocDrop(rack, cfg, i, dt)
    ensures var fallWh := StoredWh(m, rack, cfg) - StoredWh(m, next, cfg);
      var chemWh := ChemWh(m, rack, cfg, i, dt);
      chemWh - GapWh(m, rack, next, cfg) <= fallWh <= chemWh
  {
    hide OcvCellV, OcvIntegralV, CapacityAh;
    var k := CapacityAh(rack, cfg) * cfg.cells;
    var v, v' := OcvCellV(m.curve, rack.soc), OcvCellV(m.curve, next.soc);
    var d := rack.soc - next.soc;
    var area := OcvIntegralV(m.curve, rack.soc) - OcvIntegralV(m.curve, next.soc);
    var slack := Abs(v' - v) * Abs(next.soc - rack.soc);
    AreaNearChord(m.curve, rack.soc, next.soc);
    ChargeIsSoc(v, cfg.cells, i, dt, CapacityAh(rack, cfg), d);
    assert CapacityAh(next, cfg) == CapacityAh(rack, cfg) by { SameSohSameCapacity(rack, next, cfg); }
    ScaledChord(k, area, v * d, slack);
  }

  lemma SameSohSameCapacity(a: Rack, b: Rack, cfg: RackConfig)
    requires a.soh == b.soh
    ensures CapacityAh(a, cfg) == CapacityAh(b, cfg)
  {}

  /** The integral between two charges against the voltage at the first. */
  lemma AreaNearChord(c: Curve, a: real, b: real)
    requires 0.0 <= a <= 1.0 && 0.0 <= b <= 1.0
    ensures var area := OcvIntegralV(c, a) - OcvIntegralV(c, b);
      var chord := OcvCellV(c, a) * (a - b);
      chord - Abs(OcvCellV(c, b) - OcvCellV(c, a)) * Abs(b - a) <= area <= chord
  {
    hide OcvCellV, OcvIntegralV;
    if b <= a {
      IntegralBounds(c, b, a);
      OcvMonotone(c, b, a);
    } else {
      IntegralBounds(c, a, b);
      OcvMonotone(c, a, b);
    }
  }

  lemma ScaledChord(k: real, area: real, chord: real, slack: real)
    requires 0.0 <= k && chord - slack <= area <= chord
    ensures k * chord - k * slack <= k * area <= k * chord
  {
    MulMono(k, area, chord);
    MulMono(k, chord - slack, area);
  }

  lemma ChargeIsSoc(v: real, cells: Pos, i: real, dt: Pos, cap: Pos, d: real)
    requires d == i * dt / (3600.0 * cap)
    ensures v * cells * i * dt / 3600.0 == cap * cells * (v * d)
  {
    Cancel(i * dt, 3600.0 * cap);
    calc {
      3600.0 * (cap * cells * (v * d));
      cells * v * (3600.0 * cap * d);
      v * cells * i * dt;
    }
  }
}
