/** Battery heat against the polarization branch. The heat booked for a rack can be
    negative: while the branch relaxes it hands back energy it stored. These laws say
    exactly when that happens, and that over any run no more comes back than the
    branches held. */
module HeatLaws {
  import opened Reals
  import opened State
  import opened Ocv
  import opened Cell

  // ----- The sign of one rack's heat -------------------------------------------------------

  /** The power a current leaves in the polarization branch and in R0. */
  function BranchW(v1: real, r0: real, i: real): real {
    (v1 + r0 * i) * i
  }

  /** The heat of a step is the power in the two resistive branches, which carry the same
      current. */
  lemma HeatIs(m: Ecm1Rc, rack: Rack, cfg: RackConfig, request: real, dt: Pos)
    ensures var i := CurrentA(m, rack, cfg, request, dt);
      StepRack(m, rack, cfg, request, dt).1.heatW
      == (if rack.inService then BranchW(rack.polarizationV, R0(m, rack), i) else 0.0)
  {
    hide CurrentA, RelaxedV, SocDrop, R0;
    var ocv, v1, i := OcvRackV(m, rack.soc, cfg), rack.polarizationV, CurrentA(m, rack, cfg, request, dt);
    SplitHeat(ocv, v1, R0(m, rack), i);
    hide OcvRackV;
  }

  lemma SplitHeat(ocv: real, v1: real, r0: real, i: real)
    ensures ocv * i - TerminalW(ocv - v1, r0, i) == BranchW(v1, r0, i)
  {
    assert ocv * i - ((ocv - v1) - r0 * i) * i == (v1 + r0 * i) * i;
  }

  /** The current a rack may still take in the direction of a request. */
  function RoomA(rack: Rack, cfg: RackConfig, request: real, dt: Pos): real {
    Min(cfg.maxCurrentA, if request < 0.0 then MostChargeA(rack, cfg, dt) else MostDischargeA(rack, cfg, dt))
  }

  predicate Against(v1: real, request: real) {
    (0.0 < v1 && request < 0.0) || (v1 < 0.0 && 0.0 < request)
  }

  /** A request the polarization branch is charged against, so small that R0 dissipates
      less than the branch gives back: below the power the rack has at the current where
      the two cancel, or held to less than that current. */
  predicate GivesBack(m: Ecm1Rc, rack: Rack, cfg: RackConfig, request: real, dt: Pos) {
    var v1, r0, p := rack.polarizationV, R0(m, rack), DeliverableW(EmfV(m, rack, cfg), R0(m, rack), request);
    var room := RoomA(rack, cfg, request, dt);
    && rack.inService && Against(v1, request) && EPSILON <= Abs(p) && 0.0 < room
    && (Abs(p) * r0 < OcvRackV(m, rack.soc, cfg) * Abs(v1) || r0 * room < Abs(v1))
  }

  /** Negative heat, as a sign of the current: the branch drives it, and R0 takes less. */
  lemma NegativeHeat(v1: real, r0: Pos, i: real)
    ensures BranchW(v1, r0, i) < 0.0 <==> Against(v1, i) && r0 * Abs(i) < Abs(v1)
  {
    var u := v1 + r0 * i;
    SignProduct(u, i);
    if i < 0.0 { MulStrict(r0, i, 0.0); }
    if 0.0 < i { MulStrict(r0, 0.0, i); }
    assert r0 * -i == -(r0 * i);
  }

  lemma SignProduct(x: real, y: real)
    ensures x * y < 0.0 <==> (x < 0.0 && 0.0 < y) || (0.0 < x && y < 0.0)
  {
    if 0.0 < x { if y < 0.0 { MulStrict(x, y, 0.0); } else { MulNonNeg(x, y); } }
    if x < 0.0 { if 0.0 < y { MulStrict(y, x, 0.0); } else { MulNonNeg(-x, -y); assert -x * -y == x * y; } }
  }

  /** On the physical branch the power of a current orders like the current. */
  lemma PowerOrders(e: real, r0: Pos, i: real, x: real)
    requires 2.0 * r0 * i <= e && 2.0 * r0 * x < e
    ensures TerminalW(e, r0, i) < TerminalW(e, r0, x) <==> i < x
  {
    var u := e - r0 * (i + x);
    assert 0.0 < u;
    assert TerminalW(e, r0, x) - TerminalW(e, r0, i) == (x - i) * u by {
      assert (e - r0 * x) * x - (e - r0 * i) * i == (x - i) * (e - r0 * (i + x));
    }
    if i < x { MulPos(x - i, u); } else { MulNonNeg(i - x, u); assert (i - x) * u == -((x - i) * u); }
  }

  lemma SolvedRoot(m: Ecm1Rc, e: real, r0: Pos, p: real)
    requires EPSILON <= Abs(p)
    ensures SolveA(m, e, r0, p) == (e - m.sqrt(e * e - 4.0 * r0 * p)) / (2.0 * r0)
  {}

  /** The solved current has its power's sign, delivers it, and lies on the physical branch. */
  lemma SolvedSide(m: Ecm1Rc, e: real, r0: Pos, request: real, p: real, i: real)
    requires IsSqrt(m.sqrt) && 0.0 < e && p == DeliverableW(e, r0, request) && i == SolveA(m, e, r0, p)
    ensures Toward(p, request)
    ensures Abs(p) < EPSILON ==> i == 0.0
    ensures EPSILON <= Abs(p) ==> TerminalW(e, r0, i) == p && 2.0 * r0 * i <= e && i != 0.0 && (i < 0.0 <==> p < 0.0)
  {
    hide DeliverableW, TerminalW;
    DeliverableHasRoot(e, r0, request, p, 4.0 * r0 * p);
    if Abs(p) < EPSILON {
    } else {
      SolvedRoot(m, e, r0, p);
      SmallRoot(e, r0, p, m.sqrt(e * e - 4.0 * r0 * p), i);
      AtRest(e, r0);
    }
  }

  /** The bounds cap a current at the room left in its direction. */
  lemma BoundedBy(i0: real, i: real, most: real, charge: real, discharge: real)
    requires 0.0 <= most && 0.0 <= charge && 0.0 <= discharge
    requires i == Clamp(Clamp(i0, -most, most), -charge, discharge)
    ensures Abs(i) == Min(Abs(i0), Min(most, if i0 < 0.0 then charge else discharge))
    ensures (i < 0.0 ==> i0 < 0.0) && (0.0 < i ==> 0.0 < i0)
    ensures 0.0 < Min(most, if i0 < 0.0 then charge else discharge) ==>
        (i < 0.0 <==> i0 < 0.0) && (0.0 < i <==> 0.0 < i0)
  {}

  /** The current at which the branch and R0 cancel, and what the terminals see there. */
  lemma CancelCurrent(ocv: real, v1: real, r0: Pos, x: real)
    requires x == -v1 / r0 && Abs(v1) < ocv
    ensures r0 * x == -v1 && TerminalW(ocv - v1, r0, x) == ocv * x
    ensures 2.0 * r0 * x < ocv - v1
    ensures Abs(x) * r0 == Abs(v1)
  {
    Cancel(-v1, r0);
  }

  /** Two currents on the physical branch order like their powers, both scaled by R0. */
  lemma OrderedByPower(e: real, r0: Pos, i: real, x: real, p: real, w: real, ri: real, rx: real, rp: real, rw: real)
    requires 2.0 * ri <= e && 2.0 * rx < e && p == TerminalW(e, r0, i) && w == TerminalW(e, r0, x)
    requires ri == r0 * i && rx == r0 * x && rp == r0 * p && rw == r0 * w
    ensures ri < rx <==> rp < rw
  {
    PowerOrders(e, r0, i, x);
    ScaledOrder(r0, i, x);
    ScaledOrder(r0, p, w);
    hide TerminalW;
  }

  /** The same with the strict bound on the first current. */
  lemma OrderedByPower2(e: real, r0: Pos, i: real, x: real, p: real, w: real, ri: real, rx: real, rp: real, rw: real)
    requires 2.0 * rx <= e && 2.0 * ri < e && p == TerminalW(e, r0, i) && w == TerminalW(e, r0, x)
    requires ri == r0 * i && rx == r0 * x && rp == r0 * p && rw == r0 * w
    ensures rx < ri <==> rw < rp
  {
    OrderedByPower(e, r0, x, i, w, p, rx, ri, rw, rp);
  }

  /** Below the cancelling current, read off the power asked for. */
  lemma BelowCancel(ocv: real, v1: real, r0: Pos, p: real, i0: real, ri: real, rp: real, ov: real)
    requires Abs(v1) < ocv && 2.0 * ri <= ocv - v1 && p == TerminalW(ocv - v1, r0, i0) && Against(v1, p)
        && Against(v1, i0)
    requires ri == r0 * i0 && rp == r0 * p && ov == ocv * v1
    ensures Abs(ri) < Abs(v1) <==> Abs(rp) < Abs(ov)
  {
    var x := -v1 / r0;
    CancelCurrent(ocv, v1, r0, x);
    CancelPower(ocv, v1, r0, x);
    SignsOf(ocv, v1, r0, p, i0, ov, rp, ri);
    hide TerminalW;
    if v1 < 0.0 {
      OrderedByPower(ocv - v1, r0, i0, x, p, ocv * x, ri, -v1, rp, -ov);
    } else {
      OrderedByPower2(ocv - v1, r0, i0, x, p, ocv * x, ri, -v1, rp, -ov);
    }
  }

  lemma CancelPower(ocv: real, v1: real, r0: real, x: real)
    requires r0 * x == -v1
    ensures r0 * (ocv * x) == -(ocv * v1)
  {
    assert r0 * (ocv * x) == ocv * (r0 * x);
  }

  lemma SignsOf(ocv: real, v1: real, r0: Pos, p: real, i0: real, ov: real, rp: real, ri: real)
    requires 0.0 < ocv && ov == ocv * v1 && rp == r0 * p && ri == r0 * i0
    ensures (0.0 < ov <==> 0.0 < v1) && (ov < 0.0 <==> v1 < 0.0)
    ensures (0.0 < rp <==> 0.0 < p) && (rp < 0.0 <==> p < 0.0)
    ensures (0.0 < ri <==> 0.0 < i0) && (ri < 0.0 <==> i0 < 0.0)
  {
    SignScaled(ocv, v1);
    SignScaled(r0, p);
    SignScaled(r0, i0);
  }

  lemma SignScaled(k: real, x: real)
    requires 0.0 < k
    ensures (0.0 < k * x <==> 0.0 < x) && (k * x < 0.0 <==> x < 0.0)
  {
    if 0.0 < x { MulPos(k, x); }
    if x < 0.0 { MulPos(k, -x); assert k * -x == -(k * x); }
  }

  lemma AbsTimes(k: real, x: real)
    requires 0.0 <= k
    ensures Abs(k * x) == k * Abs(x)
  {
    if x < 0.0 { MulNonNeg(k, -x); assert k * -x == -(k * x); } else { MulNonNeg(k, x); }
  }

  lemma ScaledOrder(k: Pos, x: real, y: real)
    ensures k * x < k * y <==> x < y
  {
    if x < y { MulStrict(k, x, y); } else { MulMono(k, y, x); }
  }

  /** The heat of a step is negative exactly when the request runs against the
      polarization branch, is not at rest, meets room, and is small against what the branch
      holds: all of it readable before the call. So it is never negative over a branch at
      rest, nor for a request that drives the branch further its own way. */
  lemma HeatSign(m: Ecm1Rc, rack: Rack, cfg: RackConfig, request: real, dt: Pos)
    requires CellSound(m, cfg, dt) && RackOk(m, rack, cfg)
    ensures StepRack(m, rack, cfg, request, dt).1.heatW < 0.0 <==> GivesBack(m, rack, cfg, request, dt)
    ensures !Against(rack.polarizationV, request) ==> 0.0 <= StepRack(m, rack, cfg, request, dt).1.heatW
  {
    hide StepRack, RackOk, CellSound, CurrentA, R0, OcvRackV, GivesBack, BranchW, Abs;
    HeatIs(m, rack, cfg, request, dt);
    if rack.inService {
      var v1, r0: Pos, i := rack.polarizationV, R0(m, rack), CurrentA(m, rack, cfg, request, dt);
      NegativeHeat(v1, r0, i);
      CurrentRoom(m, rack, cfg, request, dt);
    }
    GivesBackAgainst(m, rack, cfg, request, dt);
  }

  lemma GivesBackAgainst(m: Ecm1Rc, rack: Rack, cfg: RackConfig, request: real, dt: Pos)
    ensures GivesBack(m, rack, cfg, request, dt) ==> rack.inService && Against(rack.polarizationV, request)
  {
    hide DeliverableW, RoomA, Against;
  }

  /** What the sign of the heat depends on, for the current a request draws. */
  lemma CurrentRoom(m: Ecm1Rc, rack: Rack, cfg: RackConfig, request: real, dt: Pos)
    requires CellSound(m, cfg, dt) && RackOk(m, rack, cfg) && rack.inService
    ensures var v1, r0, i := rack.polarizationV, R0(m, rack), CurrentA(m, rack, cfg, request, dt);
      Against(v1, i) && r0 * Abs(i) < Abs(v1) <==> GivesBack(m, rack, cfg, request, dt)
  {
    hide DeliverableW, R0, MostChargeA, MostDischargeA, OcvRackV, SolveA, TerminalW, Min, Clamp;
    var ocv, v1, r0: Pos := OcvRackV(m, rack.soc, cfg), rack.polarizationV, R0(m, rack);
    var p := DeliverableW(ocv - v1, r0, request);
    var i0, i := SolveA(m, ocv - v1, r0, p), CurrentA(m, rack, cfg, request, dt);
    var charge, discharge := MostChargeA(rack, cfg, dt), MostDischargeA(rack, cfg, dt);
    EmfPositive(m, rack, cfg);
    BranchBelowOcv(m, rack, cfg);
    SolvedSide(m, ocv - v1, r0, request, p, i0);
    BoundsNonNegative(rack, cfg, dt);
    CurrentParts(m, rack, cfg, request, dt);
    BoundedBy(i0, i, cfg.maxCurrentA, charge, discharge);
    NoLess(cfg.maxCurrentA, charge, discharge);
    hide RackOk, CellSound, CurrentA;
    Weigh(ocv, v1, r0, request, p, i0, i, Min(cfg.maxCurrentA, if i0 < 0.0 then charge else discharge));
  }

  lemma NoLess(most: real, charge: real, discharge: real)
    requires 0.0 <= most && 0.0 <= charge && 0.0 <= discharge
    ensures 0.0 <= Min(most, charge) && 0.0 <= Min(most, discharge)
  {}

  lemma CurrentParts(m: Ecm1Rc, rack: Rack, cfg: RackConfig, request: real, dt: Pos)
    requires rack.inService
    ensures var e, r0 := OcvRackV(m, rack.soc, cfg) - rack.polarizationV, R0(m, rack);
      CurrentA(m, rack, cfg, request, dt)
      == Clamp(Clamp(SolveA(m, e, r0, DeliverableW(e, r0, request)), -cfg.maxCurrentA, cfg.maxCurrentA),
               -MostChargeA(rack, cfg, dt), MostDischargeA(rack, cfg, dt))
  {
    hide Clamp, SolveA, DeliverableW, MostChargeA, MostDischargeA, R0;
  }

  lemma Weigh(ocv: real, v1: real, r0: Pos, request: real, p: real, i0: real, i: real, room: real)
    requires 0.0 < ocv - v1 && Abs(v1) < ocv && Toward(p, request) && 0.0 <= room
    requires Abs(p) < EPSILON ==> i0 == 0.0
    requires EPSILON <= Abs(p) ==>
      TerminalW(ocv - v1, r0, i0) == p && 2.0 * r0 * i0 <= ocv - v1 && i0 != 0.0 && (i0 < 0.0 <==> p < 0.0)
    requires Abs(i) == Min(Abs(i0), room) && (i < 0.0 ==> i0 < 0.0) && (0.0 < i ==> 0.0 < i0)
    ensures Against(v1, i) && r0 * Abs(i) < Abs(v1) <==>
      Against(v1, request) && EPSILON <= Abs(p) && 0.0 < room && (Abs(p) * r0 < ocv * Abs(v1) || r0 * room < Abs(v1))
  {
    hide TerminalW;
    if Against(v1, request) && EPSILON <= Abs(p) {
      BelowCancel(ocv, v1, r0, p, i0, r0 * i0, r0 * p, ocv * v1);
      AbsTimes(r0, i0);
      AbsTimes(r0, p);
      AbsTimes(ocv, v1);
      SmallerOf(r0, Abs(i0), room, Abs(i), Abs(v1));
    }
  }

  lemma SmallerOf(r0: Pos, a: real, room: real, i: real, v: real)
    requires i == Min(a, room)
    ensures r0 * i < v <==> r0 * a < v || r0 * room < v
  {
    if a <= room { MulMono(r0, a, room); } else { MulMono(r0, room, a); }
  }

  lemma BranchBelowOcv(m: Ecm1Rc, rack: Rack, cfg: RackConfig)
    requires RackOk(m, rack, cfg)
    ensures Abs(rack.polarizationV) < OcvRackV(m, rack.soc, cfg)
  {
    hide OcvCellV, PolarizationBound;
    OcvMonotone(m.curve, rack.soc, rack.soc);
    MulMono(cfg.cells, m.curve[0].1, OcvCellV(m.curve, rack.soc));
  }

  // ----- What the branch can give back -------------------------------------------------------

  /** The time constants leave the branch slower than the tick: what the RC bound needs of
      the parameters, past what the rack invariant needs. */
  predicate BranchSound(m: Ecm1Rc, dt: real) {
    0.0 < m.r1 && dt * m.r1 <= m.tau1 * m.r0
  }

  function BranchR(m: Ecm1Rc, scale: Pos): Pos
    requires 0.0 < m.r1
  {
    m.r1 * scale
  }

  /** The energy in a polarization branch, tau / (2 r1) v^2, in joules. */
  function BranchJ(m: Ecm1Rc, rack: Rack): real
    requires 0.0 < m.r1
  {
    HeldJ(m.tau1 / (2.0 * BranchR(m, rack.resistanceScale)), rack.polarizationV)
  }

  function HeldJ(half: real, v: real): real {
    half * (v * v)
  }

  lemma BranchNonNegative(m: Ecm1Rc, rack: Rack)
    requires 0.0 < m.r1
    ensures 0.0 <= BranchJ(m, rack)
  {
    DivMono(0.0, m.tau1, 2.0 * BranchR(m, rack.resistanceScale));
    Square(rack.polarizationV);
    MulNonNeg(m.tau1 / (2.0 * BranchR(m, rack.resistanceScale)), rack.polarizationV * rack.polarizationV);
  }

  lemma Square(x: real)
    ensures 0.0 <= x * x
  {}

  /** n = (1 - a) v + a j: what relaxing towards j adds to the square. */
  lemma RelaxedSquare(v: real, j: real, a: real, n: real)
    requires 0.0 <= a <= 1.0 && n == v + a * (j - v)
    ensures n * n - v * v <= 2.0 * a * (v * j) + 2.0 * a * (a * (j * j))
  {
    var t := a * (j + v);
    var rest := 2.0 * a * (1.0 - a) * (v * v);
    Square(t);
    Square(v);
    MulNonNeg(a, 1.0 - a);
    MulNonNeg(a * (1.0 - a), v * v);
    assert rest == 2.0 * (a * (1.0 - a) * (v * v));
    RelaxedIdentity(v, j, a);
  }

  lemma RelaxedIdentity(v: real, j: real, a: real)
    ensures var n := v + a * (j - v);
      2.0 * a * (v * j) + 2.0 * a * (a * (j * j)) - (n * n - v * v)
      == (a * (j + v)) * (a * (j + v)) + 2.0 * a * (1.0 - a) * (v * v)
  {}

  /** One step of a branch takes up no more than the resistors dissipate. */
  lemma BranchGives(v: real, i: real, r0: Pos, r1: Pos, tau: Pos, dt: Pos, n: real)
    requires dt <= tau && dt * r1 <= tau * r0 && n == v + dt / tau * (i * r1 - v)
    ensures HeldJ(tau / (2.0 * r1), n) - HeldJ(tau / (2.0 * r1), v) <= BranchW(v, r0, i) * dt
  {
    var a, j := dt / tau, i * r1;
    ShareOfTau(dt, tau);
    RelaxedSquare(v, j, a, n);
    ShareOfR0(a, dt, tau, r1, r0);
    Dissipates(v, i, r0, r1, a, j);
    HalfScaled(tau, r1, a, dt, n * n - v * v, BranchW(v, r0, i));
    hide BranchW;
    HeldDifference(tau / (2.0 * r1), n, v);
  }

  lemma HeldDifference(half: real, n: real, v: real)
    ensures HeldJ(half, n) - HeldJ(half, v) == half * (n * n - v * v)
  {}

  lemma ShareOfR0(a: real, dt: Pos, tau: Pos, r1: Pos, r0: Pos)
    requires a == dt / tau && dt * r1 <= tau * r0
    ensures a * r1 <= r0
  {
    Cancel(dt, tau);
    assert tau * (a * r1) == (tau * a) * r1;
    ScaledOrder(tau, r0, a * r1);
  }

  lemma Dissipates(v: real, i: real, r0: Pos, r1: Pos, a: real, j: real)
    requires 0.0 <= a && j == i * r1 && a * r1 <= r0
    ensures 2.0 * a * (v * j) + 2.0 * a * (a * (j * j)) <= 2.0 * a * r1 * BranchW(v, r0, i)
  {
    var k := r1 * (i * i);
    Square(i);
    MulNonNeg(r1, i * i);
    MulMono(k, a * r1, r0);
    assert a * (j * j) == k * (a * r1);
    MulMono(2.0 * a, v * j + a * (j * j), v * j + k * r0);
    assert v * j + k * r0 == r1 * BranchW(v, r0, i);
    Scaled2(a, v * j, a * (j * j), r1, BranchW(v, r0, i));
  }

  lemma Scaled2(a: real, x: real, y: real, r1: real, w: real)
    ensures 2.0 * a * (x + y) == 2.0 * a * x + 2.0 * a * y && 2.0 * a * (r1 * w) == 2.0 * a * r1 * w
  {}

  lemma HalfScaled(tau: Pos, r1: Pos, a: real, dt: real, x: real, w: real)
    requires a == dt / tau && x <= 2.0 * a * r1 * w
    ensures tau / (2.0 * r1) * x <= w * dt
  {
    var half := tau / (2.0 * r1);
    DivMono(0.0, tau, 2.0 * r1);
    MulMono(half, x, 2.0 * a * r1 * w);
    Cancel(tau, 2.0 * r1);
    Cancel(dt, tau);
    assert half * (2.0 * a * r1 * w) == (2.0 * r1 * half) * a * w;
    assert tau * a * w == w * dt;
  }

  /** A rack step's heat covers what its branch takes up: the branch hands back no more
      than it held. */
  lemma StepCoversBranch(m: Ecm1Rc, rack: Rack, cfg: RackConfig, request: real, dt: Pos)
    requires BranchSound(m, dt) && dt <= m.tau1
    ensures var (next, res) := StepRack(m, rack, cfg, request, dt);
      BranchJ(m, next) - BranchJ(m, rack) <= res.heatW * dt
  {
    hide StepRack, CurrentA, BranchW, HeldJ, RelaxedV, R0, BranchR;
    var i, r0 := CurrentA(m, rack, cfg, request, dt), R0(m, rack);
    HeatIs(m, rack, cfg, request, dt);
    RelaxCovers(m, rack, i, dt);
    StepsBranch(m, rack, cfg, request, dt);
    NoCurrent(m, rack, cfg, request, dt);
    IdleBranch(rack.polarizationV, r0);
  }

  lemma RelaxCovers(m: Ecm1Rc, rack: Rack, i: real, dt: Pos)
    requires BranchSound(m, dt) && dt <= m.tau1
    ensures var half := m.tau1 / (2.0 * BranchR(m, rack.resistanceScale));
      HeldJ(half, RelaxedV(m, rack, i, dt)) - HeldJ(half, rack.polarizationV)
      <= BranchW(rack.polarizationV, R0(m, rack), i) * dt
  {
    hide HeldJ, BranchW;
    ScaledBoth(dt, m.r1, m.tau1, m.r0, rack.resistanceScale);
    BranchGives(rack.polarizationV, i, R0(m, rack), BranchR(m, rack.resistanceScale), m.tau1, dt,
        RelaxedV(m, rack, i, dt));
  }

  lemma IdleBranch(v: real, r0: real)
    ensures BranchW(v, r0, 0.0) == 0.0
  {}

  lemma ScaledBoth(dt: real, r1: real, tau: real, r0: real, scale: Pos)
    requires dt * r1 <= tau * r0
    ensures dt * (r1 * scale) <= tau * (r0 * scale)
  {
    MulMono(scale, dt * r1, tau * r0);
    assert dt * (r1 * scale) == scale * (dt * r1) && tau * (r0 * scale) == scale * (tau * r0);
  }

  lemma StepsBranch(m: Ecm1Rc, rack: Rack, cfg: RackConfig, request: real, dt: Pos)
    ensures var next := StepRack(m, rack, cfg, request, dt).0;
      && next.polarizationV == RelaxedV(m, rack, CurrentA(m, rack, cfg, request, dt), dt)
      && next.resistanceScale == rack.resistanceScale
  {
    hide CurrentA, RelaxedV, OcvRackV, SocDrop, R0;
  }
}
