/** The substation and its meters: SCADA registers at the POI, the station-service
    feed, and the fiscal quarter-hour meter. */
module Substations {
  import opened Reals
  import opened State

  datatype SimpleGrid = SimpleGrid(siteRatedW: Pos, noLoadLossW: real, loadLossAtRatedW: real)

  const PERIOD_S := 900

  /** Energy of a power over one step, Wh. */
  function Wh(w: real, dt: real): real {
    w * dt / 3600.0
  }

  /** Open breaker: the POI reads zero, its meters stand still, and the house load is
      metered on the station-service feed. */
  function StepGrid(m: SimpleGrid, s: Substation, acW: real, auxW: real, dt: real): Substation {
    if s.breaker == Open then
      s.(poiW := 0.0, transformerLossW := 0.0, auxW := auxW, stationServiceWh := s.stationServiceWh + Wh(auxW, dt))
    else
      var loading := acW / m.siteRatedW;
      var loss := m.noLoadLossW + m.loadLossAtRatedW * loading * loading;
      var poi := acW - loss - auxW;
      var wh := Wh(poi, dt);
      s.(poiW := poi, transformerLossW := loss, auxW := auxW,
         exportWh := if 0.0 <= wh then s.exportWh + wh else s.exportWh,
         importWh := if 0.0 <= wh then s.importWh else s.importWh - wh)
  }

  /** One tick of the fiscal meter, the tick ending at `now`. */
  function Observe(r: Revenue, poiW: real, dt: real, now: int): Revenue {
    var wh := Wh(poiW, dt);
    var booked := if 0.0 <= wh
      then r.(exportWh := r.exportWh + wh, periodExportWh := r.periodExportWh + wh)
      else r.(importWh := r.importWh - wh, periodImportWh := r.periodImportWh - wh);
    if now % PERIOD_S == 0 then
      booked.(lastImportWh := booked.periodImportWh, lastExportWh := booked.periodExportWh,
              periodImportWh := 0.0, periodExportWh := 0.0,
              periodsClosed := booked.periodsClosed + 1, periodStartS := now)
    else booked
  }

  /** The substation step as it runs: an open breaker returns early. */
  method StepGridInPlace(m: SimpleGrid, s: Substation, acW: real, auxW: real, dt: real) returns (next: Substation)
    ensures next == StepGrid(m, s, acW, auxW, dt)
  {
    next := s;
    if next.breaker == Open {
      next := next.(poiW := 0.0, transformerLossW := 0.0, auxW := auxW);
      next := next.(stationServiceWh := next.stationServiceWh + Wh(auxW, dt));
      return;
    }
    var loading := acW / m.siteRatedW;
    var loss := m.noLoadLossW + m.loadLossAtRatedW * loading * loading;
    var poi := acW - loss - auxW;
    next := next.(transformerLossW := loss, auxW := auxW, poiW := poi);
    var wh := Wh(poi, dt);
    if 0.0 <= wh {
      next := next.(exportWh := next.exportWh + wh);
    } else {
      next := next.(importWh := next.importWh - wh);
    }
  }

  /** The fiscal meter as it runs: book by sign, then close on a quarter-hour. */
  method ObserveInPlace(r: Revenue, poiW: real, dt: real, now: int) returns (next: Revenue)
    ensures next == Observe(r, poiW, dt, now)
  {
    next := r;
    var wh := Wh(poiW, dt);
    if 0.0 <= wh {
      next := next.(exportWh := next.exportWh + wh);
      next := next.(periodExportWh := next.periodExportWh + wh);
    } else {
      next := next.(importWh := next.importWh - wh);
      next := next.(periodImportWh := next.periodImportWh - wh);
    }
    if now % PERIOD_S == 0 {
      next := next.(lastImportWh := next.periodImportWh, lastExportWh := next.periodExportWh);
      next := next.(periodImportWh := 0.0, periodExportWh := 0.0);
      next := next.(periodsClosed := next.periodsClosed + 1, periodStartS := now);
    }
  }

  function SubstationTick(m: SimpleGrid, s: Substation, acW: real, auxW: real, dt: real, now: int): Substation {
    var metered := StepGrid(m, s, acW, auxW, dt);
    metered.(revenue := Observe(metered.revenue, metered.poiW, dt, now))
  }

  /** What has crossed the site's boundary outwards, Wh. */
  function NetOutWh(s: Substation): real {
    s.exportWh - s.importWh - s.stationServiceWh
  }

  lemma WhAdds(x: real, y: real, dt: real)
    ensures Wh(x + y, dt) == Wh(x, dt) + Wh(y, dt) && Wh(x - y, dt) == Wh(x, dt) - Wh(y, dt) && Wh(0.0, dt) == 0.0
  {}

  /** The substation neither makes nor loses energy: what the converters put in leaves
      through the boundary, the transformer or the house load. A site whose breaker is
      open has to hand it nothing. */
  lemma SubstationBalance(m: SimpleGrid, s: Substation, acW: real, auxW: real, dt: real, now: int)
    requires s.breaker == Open ==> acW == 0.0
    ensures var next := SubstationTick(m, s, acW, auxW, dt, now);
      && next.auxW == auxW
      && NetOutWh(next) - NetOutWh(s) + Wh(next.transformerLossW, dt) + Wh(auxW, dt) == Wh(acW, dt)
      && s.exportWh <= next.exportWh && s.importWh <= next.importWh
      && (s.breaker == Open ==> next.exportWh == s.exportWh && next.importWh == s.importWh && next.poiW == 0.0)
      && next.breaker == s.breaker
  {
    var next := SubstationTick(m, s, acW, auxW, dt, now);
    WhAdds(acW - next.transformerLossW, auxW, dt);
    WhAdds(acW, next.transformerLossW, dt);
    hide Wh;
  }

  /** The fiscal totals move exactly as the SCADA registers do, what a tick books goes to
      the open period or the one it closes, and a period closes on each quarter-hour. */
  lemma FiscalAgrees(m: SimpleGrid, s: Substation, acW: real, auxW: real, dt: real, now: int)
    ensures var next := SubstationTick(m, s, acW, auxW, dt, now);
      var r, r' := s.revenue, next.revenue;
      && r'.exportWh - r.exportWh == next.exportWh - s.exportWh
      && r'.importWh - r.importWh == next.importWh - s.importWh
      && r'.periodsClosed == r.periodsClosed + (if now % PERIOD_S == 0 then 1 else 0)
      && (r'.periodsClosed == r.periodsClosed ==>
            r'.periodExportWh - r.periodExportWh == r'.exportWh - r.exportWh
            && r'.periodImportWh - r.periodImportWh == r'.importWh - r.importWh)
      && (r'.periodsClosed > r.periodsClosed ==>
            r'.periodExportWh == 0.0 && r'.lastExportWh - r.periodExportWh == r'.exportWh - r.exportWh
            && r'.periodImportWh == 0.0 && r'.lastImportWh - r.periodImportWh == r'.importWh - r.importWh)
  {
    WhAdds(0.0, 0.0, dt);
    hide Wh;
  }

  /** Quarter-hours are counted by floors, negative times included. */
  lemma QuarterHours(now: int)
    ensures now / PERIOD_S == (now - 1) / PERIOD_S + (if now % PERIOD_S == 0 then 1 else 0)
  {}
}
