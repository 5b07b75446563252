/** The basic BMS: limits, cell spread and passive balancing, the rack alarm word. */
module Bms {
  import opened Reals
  import opened Ocv
  import opened State
  import opened Words
  import opened Derate
  import opened Cell

  datatype Band = Band(raise: real, clear: real)

  /** A bit that raises as the value climbs to `raise` and clears below `clear`. */
  predicate Rising(raised: bool, value: real, band: Band) {
    if raised then band.clear < value else band.raise <= value
  }

  /** A bit that raises as the value falls to `raise` and clears above `clear`. */
  predicate Falling(raised: bool, value: real, band: Band) {
    if raised then value < band.clear else value <= band.raise
  }

  datatype Balancing = Balancing(
    growthPerThroughput: real,
    growthPerS: real,
    bleedCurrentA: real,
    bleedingShare: real,
    socMin: real,
    dvStartV: real,
    dvStopV: real,
    maxDischargeA: real)

  datatype RackThresholds = RackThresholds(
    overTemp: Band,
    overTempTripC: real,
    underTemp: Band,
    underTempTripC: real,
    socMargin: real,
    imbalance: Band,
    imbalanceTripV: real,
    derate: Band)

  datatype BasicBms = BasicBms(
    taperSocBand: Pos,
    chargeTemp: TempCurve,
    dischargeTemp: TempCurve,
    balancing: Balancing,
    thresholds: RackThresholds)

  // ----- Limits ----------------------------------------------------------------------

  function RackLimits(m: BasicBms, rack: Rack, cfg: RackConfig): Limits {
    if !rack.inService then Limits(0.0, 0.0) else
      var rated := cfg.maxCurrentA * (cfg.nominalCellV * cfg.cells);
      var dischargeF :=
        Clamp((rack.soc - cfg.socMin) / m.taperSocBand, 0.0, 1.0) * Factor(m.dischargeTemp, rack.cellTempC);
      var chargeF := Clamp((cfg.socMax - rack.soc) / m.taperSocBand, 0.0, 1.0) * Factor(m.chargeTemp, rack.cellTempC);
      Limits(rated * chargeF, rated * dischargeF)
  }

  /** The window holds: nothing out at or below its floor, nothing in at or above its
      ceiling, nothing at all where the temperature tables permit nothing or out of
      service; and never more than the rack's rating. */
  lemma LimitsRespectWindow(m: BasicBms, rack: Rack, cfg: RackConfig)
    requires 0.0 <= cfg.maxCurrentA && 0.0 <= cfg.nominalCellV
    ensures var lim, rated := RackLimits(m, rack, cfg), cfg.maxCurrentA * (cfg.nominalCellV * cfg.cells);
      && (rack.soc <= cfg.socMin || Factor(m.dischargeTemp, rack.cellTempC) == 0.0 || !rack.inService ==>
          lim.dischargeW == 0.0)
      && (cfg.socMax <= rack.soc || Factor(m.chargeTemp, rack.cellTempC) == 0.0 || !rack.inService ==>
          lim.chargeW == 0.0)
      && lim.dischargeW <= rated && lim.chargeW <= rated
  {
    hide Factor, Clamp;
    var lim, rated := RackLimits(m, rack, cfg), cfg.maxCurrentA * (cfg.nominalCellV * cfg.cells);
    MulNonNeg(cfg.nominalCellV, cfg.cells);
    MulNonNeg(cfg.maxCurrentA, cfg.nominalCellV * cfg.cells);
    TaperAtEdge(rack.soc - cfg.socMin, m.taperSocBand);
    TaperAtEdge(cfg.socMax - rack.soc, m.taperSocBand);
    if rack.inService {
      var out, into := Clamp((rack.soc - cfg.socMin) / m.taperSocBand, 0.0, 1.0),
          Clamp((cfg.socMax - rack.soc) / m.taperSocBand, 0.0, 1.0);
      var fOut, fIn := Factor(m.dischargeTemp, rack.cellTempC), Factor(m.chargeTemp, rack.cellTempC);
      ShareOfRating(rated, out, fOut, out * fOut, lim.dischargeW);
      ShareOfRating(rated, into, fIn, into * fIn, lim.chargeW);
    }
  }

  lemma TaperAtEdge(x: real, band: Pos)
    ensures var f := Clamp(x / band, 0.0, 1.0); 0.0 <= f <= 1.0 && (x <= 0.0 ==> f == 0.0)
  {
    if x <= 0.0 { DivMono(x, 0.0, band); }
  }

  lemma ShareOfRating(rated: real, a: real, b: real, share: real, lim: real)
    requires 0.0 <= rated && 0.0 <= a <= 1.0 && 0.0 <= b <= 1.0 && share == a * b && lim == rated * share
    ensures lim <= rated && (a == 0.0 || b == 0.0 ==> lim == 0.0)
  {
    MulNonNeg(a, 1.0 - b);
    assert a * (1.0 - b) == a - share;
    MulNonNeg(rated, 1.0 - share);
    assert rated * (1.0 - share) == rated - lim;
  }

  lemma LimitsNonNegative(m: BasicBms, rack: Rack, cfg: RackConfig)
    requires 0.0 <= cfg.maxCurrentA && 0.0 <= cfg.nominalCellV
    ensures 0.0 <= RackLimits(m, rack, cfg).chargeW && 0.0 <= RackLimits(m, rack, cfg).dischargeW
  {
    hide Factor;
    var rated := cfg.maxCurrentA * (cfg.nominalCellV * cfg.cells);
    MulNonNeg(cfg.nominalCellV, cfg.cells);
    MulNonNeg(cfg.maxCurrentA, cfg.nominalCellV * cfg.cells);
    var d, c := Clamp((rack.soc - cfg.socMin) / m.taperSocBand, 0.0, 1.0),
        Clamp((cfg.socMax - rack.soc) / m.taperSocBand, 0.0, 1.0);
    MulNonNeg(d, Factor(m.dischargeTemp, rack.cellTempC));
    MulNonNeg(c, Factor(m.chargeTemp, rack.cellTempC));
    MulNonNeg(rated, d * Factor(m.dischargeTemp, rack.cellTempC));
    MulNonNeg(rated, c * Factor(m.chargeTemp, rack.cellTempC));
  }

  // ----- Spread and balancing --------------------------------------------------------------

  /** The spread one step of throughput adds, in service. */
  function ThroughputDsoc(m: Balancing, rack: Rack, cfg: RackConfig, dt: Pos): real {
    if rack.inService then m.growthPerThroughput * (Abs(rack.currentA) * dt / (3600.0 * CapacityAh(rack, cfg)))
    else 0.0
  }

  /** The spread one step of drift adds, in service or not. */
  function DriftDsoc(m: Balancing, rack: Rack, dt: Pos): real {
    (m.growthPerS + rack.selfDischargeExcess) * dt
  }

  /** The spread after one step of growth, ahead of balancing. */
  function GrownDsoc(m: Balancing, rack: Rack, cfg: RackConfig, dt: Pos): real {
    Min(rack.cellDsoc + ThroughputDsoc(m, rack, cfg, dt) + DriftDsoc(m, rack, dt), 1.0)
  }

  predicate Bleeds(m: Balancing, rack: Rack) {
    && rack.inService && m.socMin <= rack.soc && rack.currentA <= m.maxDischargeA
    && (if rack.balancing then m.dvStopV < rack.cellDvV else m.dvStartV <= rack.cellDvV)
  }

  /** The spread closed by one step of bleeding, no further than to zero. */
  function NarrowedDsoc(m: Balancing, rack: Rack, cfg: RackConfig, dsoc: real, dt: Pos): real {
    Min(m.bleedCurrentA * dt / (3600.0 * CapacityAh(rack, cfg)), dsoc)
  }

  function BledSoc(m: Balancing, rack: Rack, narrowed: real): real {
    Max(rack.soc - m.bleedingShare * narrowed, 0.0)
  }

  function SpreadV(c: Curve, soc: real, dsoc: real): real {
    OcvCellV(c, soc + dsoc / 2.0) - OcvCellV(c, soc - dsoc / 2.0)
  }

  /** One BMS step: the rack after it and the energy bled, Wh. */
  function Balance(m: Balancing, c: Curve, rack: Rack, cfg: RackConfig, dt: Pos): (Rack, real) {
    var grown := GrownDsoc(m, rack, cfg, dt);
    if Bleeds(m, rack) then
      var narrowed := NarrowedDsoc(m, rack, cfg, grown, dt);
      var dsoc := grown - narrowed;
      var soc := BledSoc(m, rack, narrowed);
      (rack.(cellDsoc := dsoc, balancing := true, soc := soc, cellDvV := SpreadV(c, soc, dsoc)),
       (OcvIntegralV(c, rack.soc) - OcvIntegralV(c, soc)) * (CapacityAh(rack, cfg) * cfg.cells))
    else
      (rack.(cellDsoc := grown, balancing := false, cellDvV := SpreadV(c, rack.soc, grown)), 0.0)
  }

  /** The step as it runs: growth, policy, bleeding, then the spread the next step reads. */
  method BalanceInPlace(m: Balancing, c: Curve, rack: Rack, cfg: RackConfig, dt: Pos) returns (next: Rack, bledWh: real)
    ensures (next, bledWh) == Balance(m, c, rack, cfg, dt)
  {
    hide OcvCellV, OcvIntegralV, CapacityAh, ThroughputDsoc, DriftDsoc, NarrowedDsoc, BledSoc, Min;
    next, bledWh := rack, 0.0;
    IdleAddsNothing(m, rack, cfg, dt);
    if next.inService {
      next := next.(cellDsoc := next.cellDsoc + ThroughputDsoc(m, rack, cfg, dt));
    }
    next := next.(cellDsoc := Min(next.cellDsoc + DriftDsoc(m, rack, dt), 1.0));
    var mayBleed := next.inService && m.socMin <= next.soc && next.currentA <= m.maxDischargeA;
    next := next.(balancing :=
      mayBleed && (if next.balancing then m.dvStopV < next.cellDvV else m.dvStartV <= next.cellDvV));
    if next.balancing {
      var narrowed := NarrowedDsoc(m, rack, cfg, next.cellDsoc, dt);
      next := next.(cellDsoc := next.cellDsoc - narrowed);
      var before := next.soc;
      next := next.(soc := BledSoc(m, rack, narrowed));
      var high := OcvIntegral(c, before);
      var low := OcvIntegral(c, next.soc);
      bledWh := (high - low) * (CapacityAh(rack, cfg) * cfg.cells);
    }
    var half := next.cellDsoc / 2.0;
    var top := OcvCell(c, next.soc + half);
    var bottom := OcvCell(c, next.soc - half);
    next := next.(cellDvV := top - bottom);
    assert next == Balance(m, c, rack, cfg, dt).0;
    assert bledWh == Balance(m, c, rack, cfg, dt).1;
  }

  lemma IdleAddsNothing(m: Balancing, rack: Rack, cfg: RackConfig, dt: Pos)
    ensures !rack.inService ==> ThroughputDsoc(m, rack, cfg, dt) == 0.0
  {}

  /** The heat of a bleed spread over the step. */
  function BleedW(bledWh: real, dt: Pos): real {
    bledWh * 3600.0 / dt
  }

  ghost predicate BalancingSound(m: Balancing) {
    && 0.0 <= m.growthPerThroughput && 0.0 <= m.growthPerS
    && 0.0 <= m.bleedCurrentA && 0.0 <= m.bleedingShare
  }

  predicate SpreadOk(rack: Rack) {
    0.0 <= rack.cellDsoc <= 1.0 && 0.0 <= rack.selfDischargeExcess
  }

  lemma GrownInRange(m: Balancing, rack: Rack, cfg: RackConfig, dt: Pos)
    requires BalancingSound(m) && SpreadOk(rack)
    ensures 0.0 <= GrownDsoc(m, rack, cfg, dt) <= 1.0
  {
    hide ThroughputDsoc, DriftDsoc;
    GrowthNonNegative(m, rack, cfg, dt);
  }

  lemma GrowthNonNegative(m: Balancing, rack: Rack, cfg: RackConfig, dt: Pos)
    requires BalancingSound(m) && SpreadOk(rack)
    ensures 0.0 <= ThroughputDsoc(m, rack, cfg, dt) && 0.0 <= DriftDsoc(m, rack, dt)
  {
    UsedNonNegative(m.growthPerThroughput, rack.currentA, CapacityAh(rack, cfg), dt);
    MulNonNeg(m.growthPerS + rack.selfDischargeExcess, dt);
  }

  lemma UsedNonNegative(growth: real, i: real, cap: Pos, dt: Pos)
    requires 0.0 <= growth
    ensures 0.0 <= growth * (Abs(i) * dt / (3600.0 * cap))
  {
    MulNonNeg(Abs(i), dt);
    DivMono(0.0, Abs(i) * dt, 3600.0 * cap);
    MulNonNeg(growth, Abs(i) * dt / (3600.0 * cap));
  }

  lemma NarrowedInRange(m: Balancing, rack: Rack, cfg: RackConfig, dsoc: real, dt: Pos)
    requires BalancingSound(m) && 0.0 <= dsoc
    ensures 0.0 <= NarrowedDsoc(m, rack, cfg, dsoc, dt) <= dsoc
  {
    hide CapacityAh;
    MulNonNeg(m.bleedCurrentA, dt);
    DivMono(0.0, m.bleedCurrentA * dt, 3600.0 * CapacityAh(rack, cfg));
  }

  /** A BMS step keeps the spread in range and every electrical quantity but the SoC,
      never charges, keeps the SoC in range, and the energy it reports bled is exactly
      the energy the rack lost. */
  lemma BalanceKeeps(m: Balancing, cell: Ecm1Rc, rack: Rack, cfg: RackConfig, dt: Pos)
    requires BalancingSound(m) && SpreadOk(rack) && 0.0 <= rack.soc <= 1.0
    ensures var (next, bledWh) := Balance(m, cell.curve, rack, cfg, dt);
      && SpreadOk(next) && 0.0 <= next.soc <= rack.soc
      && next == rack.(soc := next.soc, cellDsoc := next.cellDsoc, cellDvV := next.cellDvV, balancing := next.balancing)
      && StoredWh(cell, rack, cfg) - StoredWh(cell, next, cfg) == bledWh
  {
    hide GrownDsoc, NarrowedDsoc, SpreadV, OcvIntegralV, Bleeds, CapacityAh, BledSoc;
    var grown := GrownDsoc(m, rack, cfg, dt);
    var narrowed := NarrowedDsoc(m, rack, cfg, grown, dt);
    GrownInRange(m, rack, cfg, dt);
    NarrowedInRange(m, rack, cfg, grown, dt);
    BledInRange(m, rack, narrowed);
    var (next, bledWh) := Balance(m, cell.curve, rack, cfg, dt);
    SameCapacity(rack, next, cfg);
    Difference(OcvIntegralV(cell.curve, rack.soc), OcvIntegralV(cell.curve, next.soc),
        CapacityAh(rack, cfg) * cfg.cells);
  }

  lemma BledInRange(m: Balancing, rack: Rack, narrowed: real)
    requires BalancingSound(m) && 0.0 <= rack.soc <= 1.0 && 0.0 <= narrowed
    ensures 0.0 <= BledSoc(m, rack, narrowed) <= rack.soc
  {
    MulNonNeg(m.bleedingShare, narrowed);
  }

  lemma SameCapacity(a: Rack, b: Rack, cfg: RackConfig)
    requires a.soh == b.soh
    ensures CapacityAh(a, cfg) == CapacityAh(b, cfg)
  {}

  lemma Difference(x: real, y: real, k: real)
    ensures x * k - y * k == (x - y) * k
  {}

  // ----- The rack word ------------------------------------------------------------------------

  const OVER_TEMP_WARNING := 0
  const UNDER_TEMP_WARNING := 1
  const SOC_HIGH := 2
  const SOC_LOW := 3
  const IMBALANCE_WARNING := 4
  const DERATE_ACTIVE := 5
  const ISOLATED := 6
  const OVER_TEMP_TRIP := 8
  const IMBALANCE_TRIP := 9
  const UNDER_TEMP_TRIP := 10

  /** The ten bits of the rack word: six bands, one mirror, three latches. */
  function RackSettings(th: RackThresholds, rack: Rack, cfg: RackConfig, derateFactor: real): (r: seq<(int, bool)>)
    ensures forall s <- r :: 0 <= s.0 < 16 && (8 <= s.0 && s.0 in rack.alarms ==> s.1)
  {
    hide Rising, Falling;
    var w, t := rack.alarms, rack.cellTempC;
    [(OVER_TEMP_WARNING, Rising(OVER_TEMP_WARNING in w, t, th.overTemp)),
     (UNDER_TEMP_WARNING, Falling(UNDER_TEMP_WARNING in w, t, th.underTemp)),
     (SOC_HIGH, Rising(SOC_HIGH in w, rack.soc, Band(cfg.socMax + th.socMargin, cfg.socMax))),
     (SOC_LOW, Falling(SOC_LOW in w, rack.soc, Band(cfg.socMin - th.socMargin, cfg.socMin))),
     (IMBALANCE_WARNING, Rising(IMBALANCE_WARNING in w, rack.cellDvV, th.imbalance)),
     (DERATE_ACTIVE, Falling(DERATE_ACTIVE in w, derateFactor, th.derate)),
     (ISOLATED, !rack.inService),
     (OVER_TEMP_TRIP, OVER_TEMP_TRIP in w || th.overTempTripC <= t),
     (IMBALANCE_TRIP, IMBALANCE_TRIP in w || th.imbalanceTripV <= rack.cellDvV),
     (UNDER_TEMP_TRIP, UNDER_TEMP_TRIP in w || t <= th.underTempTripC)]
  }

  function RackAlarms(m: BasicBms, rack: Rack, cfg: RackConfig): Word {
    var f := Min(Factor(m.chargeTemp, rack.cellTempC), Factor(m.dischargeTemp, rack.cellTempC));
    WithBits(rack.alarms, RackSettings(m.thresholds, rack, cfg, f))
  }

  /** The evaluation as it runs: the computed bits folded into the word one by one. */
  method EvaluateRackAlarms(m: BasicBms, rack: Rack, cfg: RackConfig) returns (next: Word)
    ensures next == RackAlarms(m, rack, cfg)
  {
    hide Factor, RackSettings, WithBit;
    var f := Min(Factor(m.chargeTemp, rack.cellTempC), Factor(m.dischargeTemp, rack.cellTempC));
    var settings := RackSettings(m.thresholds, rack, cfg, f);
    next := rack.alarms;
    for k := 0 to |settings|
      invariant next == WithBits(rack.alarms, settings[..k])
    {
      assert settings[..k + 1][..k] == settings[..k];
      next := WithBit(next, settings[k].0, settings[k].1);
    }
    assert settings[..|settings|] == settings;
  }

  lemma RackBitsDistinct(th: RackThresholds, rack: Rack, cfg: RackConfig, f: real)
    ensures Distinct(RackSettings(th, rack, cfg, f))
  {
    hide Rising, Falling;
    var settings := RackSettings(th, rack, cfg, f);
    assert |settings| == 10 && forall k :: 0 <= k < 10 ==> settings[k].0 == if k < 7 then k else k + 1;
    hide RackSettings;
  }

  /** What each bit of an evaluated word reads: six bands over the bit as it was, the
      isolation mirror, and three latches. */
  lemma RackAlarmsRead(m: BasicBms, rack: Rack, cfg: RackConfig)
    ensures var next, w, th, t := RackAlarms(m, rack, cfg), rack.alarms, m.thresholds, rack.cellTempC;
      && (OVER_TEMP_WARNING in next <==> Rising(OVER_TEMP_WARNING in w, t, th.overTemp))
      && (UNDER_TEMP_WARNING in next <==> Falling(UNDER_TEMP_WARNING in w, t, th.underTemp))
      && (SOC_HIGH in next <==> Rising(SOC_HIGH in w, rack.soc, Band(cfg.socMax + th.socMargin, cfg.socMax)))
      && (SOC_LOW in next <==> Falling(SOC_LOW in w, rack.soc, Band(cfg.socMin - th.socMargin, cfg.socMin)))
      && (IMBALANCE_WARNING in next <==> Rising(IMBALANCE_WARNING in w, rack.cellDvV, th.imbalance))
      && (DERATE_ACTIVE in next <==>
            Falling(DERATE_ACTIVE in w, Min(Factor(m.chargeTemp, t), Factor(m.dischargeTemp, t)), th.derate))
      && (ISOLATED in next <==> !rack.inService)
      && (OVER_TEMP_TRIP in next <==> OVER_TEMP_TRIP in w || th.overTempTripC <= t)
      && (IMBALANCE_TRIP in next <==> IMBALANCE_TRIP in w || th.imbalanceTripV <= rack.cellDvV)
      && (UNDER_TEMP_TRIP in next <==> UNDER_TEMP_TRIP in w || t <= th.underTempTripC)
  {
    hide Factor, Rising, Falling, WithBits, Distinct;
    var f := Min(Factor(m.chargeTemp, rack.cellTempC), Factor(m.dischargeTemp, rack.cellTempC));
    var settings := RackSettings(m.thresholds, rack, cfg, f);
    RackBitsDistinct(m.thresholds, rack, cfg, f);
    WithBitsSets(rack.alarms, settings, 0);
    WithBitsSets(rack.alarms, settings, 1);
    WithBitsSets(rack.alarms, settings, 2);
    WithBitsSets(rack.alarms, settings, 3);
    WithBitsSets(rack.alarms, settings, 4);
    WithBitsSets(rack.alarms, settings, 5);
    WithBitsSets(rack.alarms, settings, 6);
    WithBitsSets(rack.alarms, settings, 7);
    WithBitsSets(rack.alarms, settings, 8);
    WithBitsSets(rack.alarms, settings, 9);
  }

  /** Evaluation keeps the word laid out, and a latched bit outlives its cause:
      evaluation alone never clears a trip. */
  lemma RackAlarmsLatch(m: BasicBms, rack: Rack, cfg: RackConfig, bit: int)
    ensures WordOk(rack.alarms) ==> WordOk(RackAlarms(m, rack, cfg))
    ensures bit in rack.alarms && 8 <= bit ==> bit in RackAlarms(m, rack, cfg)
  {
    hide Factor, WithBits, RackSettings;
    var f := Min(Factor(m.chargeTemp, rack.cellTempC), Factor(m.dischargeTemp, rack.cellTempC));
    WithBitsKeeps(rack.alarms, RackSettings(m.thresholds, rack, cfg, f), bit);
  }
}
