/** The staggered return in closed form. */
module ReturnLaws {
  import opened Reals
  import opened State
  import opened Log
  import opened Substations
  import opened Plants
  import opened Kernel
  import opened Commands
  import opened SiteLaws
  import opened Runs
  import opened RunLaws
  import opened SafetyLaws

  /** Whole ticks between one release and the next: at least one. */
  function PeriodTicks(spacing: real, dt: Pos): (q: nat)
    ensures 1 <= q
  {
    if TicksIn(spacing, dt) == 0 then 1 else TicksIn(spacing, dt)
  }

  /** Blocks released after t connected ticks of a return over n blocks. */
  function Due(n: nat, q: nat, t: nat): nat
    requires 1 <= q
  {
    if t == 0 || n == 0 then 0
    else if n <= (t - 1) / q + 1 then n
    else (t - 1) / q + 1
  }

  /** Block k is released on the tick that comes exactly k periods after the first. */
  lemma DueOnTheGrid(n: nat, q: nat, t: nat, k: nat)
    requires 1 <= q && k < n
    ensures k < Due(n, q, t) <==> k * q + 1 <= t
  {
    if t == 0 {
      Times(0, k, q);
    } else {
      WholePeriods(t - 1, q, k);
    }
  }

  lemma WholePeriods(t: nat, q: nat, k: nat)
    requires 1 <= q
    ensures k <= t / q <==> k * q <= t
  {
    var a, p := t / q, t % q;
    DivisionHolds(t, q, a, p);
    if k <= a {
      Times(k, a, q);
    } else {
      Times(a + 1, k, q);
      OneMore(a, q);
    }
  }

  lemma DivisionHolds(t: nat, q: nat, a: nat, p: nat)
    requires 1 <= q && a == t / q && p == t % q
    ensures t == a * q + p && p < q
  {}

  lemma OneMore(a: nat, q: nat)
    ensures (a + 1) * q == a * q + q
  {}

  lemma Times(a: nat, b: nat, q: nat)
    requires a <= b
    ensures a * q <= b * q
  {}

  /** The return t ticks on: the blocks due are released, and the countdown to the next
      has run since the last release. */
  predicate OnSchedule(ems: Ems, n: nat, spacing: real, dt: Pos, t: nat) {
    var q := PeriodTicks(spacing, dt);
    && ems.blocksReleased == Due(n, q, t)
    && (ems.blocksReleased < n ==>
          if t == 0 then ems.nextReleaseS == 0.0
          else ems.nextReleaseS == spacing - Elapsed((t - 1) % q + 1, dt))
  }

  lemma Wheel(t: nat, q: nat)
    requires 1 <= q && 1 <= t
    ensures if (t - 1) % q + 1 < q then t / q == (t - 1) / q && t % q == (t - 1) % q + 1
            else t / q == (t - 1) / q + 1 && t % q == 0
  {
    var a, p := (t - 1) / q, (t - 1) % q;
    assert t == a * q + (p + 1);
    if p + 1 < q {
      DivUnique(t, q, a, p + 1);
    } else {
      assert t == (a + 1) * q + 0;
      DivUnique(t, q, a + 1, 0);
    }
  }

  lemma DivUnique(t: int, q: int, a: int, p: int)
    requires 0 <= p < q && t == a * q + p
    ensures t / q == a && t % q == p
  {
    var a', p' := t / q, t % q;
    assert t == a' * q + p';
    assert (a - a') * q == p' - p;
    if a < a' { MulAtLeast(a' - a, q); }
    if a' < a { MulAtLeast(a - a', q); }
  }

  lemma MulAtLeast(d: int, q: int)
    requires 1 <= d && 0 < q
    ensures q <= d * q
  {}

  /** The countdown reads due exactly once a whole period has passed. */
  lemma CountdownEnds(spacing: real, dt: Pos, p: nat)
    requires p < PeriodTicks(spacing, dt)
    ensures spacing - Elapsed(p + 1, dt) <= 0.0 <==> p + 1 == PeriodTicks(spacing, dt)
  {
    var q := PeriodTicks(spacing, dt);
    hide TicksIn;
    var _ := TicksIn(spacing, dt);
    if p + 1 < q {
      MulMono(dt, (p + 1) as real, (q - 1) as real);
    } else if TicksIn(spacing, dt) == 0 {
      MulMono(dt, 0.0, 1.0);
    }
  }

  lemma ReleaseOnSchedule(ems: Ems, n: nat, spacing: real, dt: Pos, t: nat)
    requires OnSchedule(ems, n, spacing, dt, t)
    ensures OnSchedule(Release(ems, n, spacing, dt), n, spacing, dt, t + 1)
  {
    hide Elapsed;
    var q := PeriodTicks(spacing, dt);
    WholeTicks(0, dt);
    hide PeriodTicks;
    if t == 0 {
      Wheel(1, q);
      DivUnique(0, q, 0, 0);
    } else {
      var p := (t - 1) % q;
      Wheel(t, q);
      CountdownEnds(spacing, dt, p);
      WholeTicks(p + 1, dt);
    }
  }

  // ----- Over runs ---------------------------------------------------------------------------------

  function TicksOf(ops: seq<Op>): nat {
    if ops == [] then 0 else TicksOf(Init(ops)) + (if Last(ops).OpTick? then 1 else 0)
  }

  /** What a return is begun from. */
  predicate Starting(s: Site) {
    s.substation.breaker == Closed && s.ems.blocksReleased == 0 && s.ems.nextReleaseS == 0.0
  }

  /** A trip takes the return back to nothing released, and the site reset that closes the
      breaker begins it from the top. */
  lemma TripStartsOver(s: Site)
    requires TripSafe(s)
    ensures TripProtection(s).site.ems.blocksReleased == 0
    ensures s.substation.breaker == Open ==> Starting(ResetSite(s))
  {
    hide AllTripped, ResetBlocks;
  }

  lemma DispatchKeepsReturn(s: Site, a: FaultAction)
    requires Dispatch(s, a).Ok? && a != FaultAction.ProtectionTrip && s.substation.breaker == Closed
    ensures var next := Dispatch(s, a).value.site;
      next.ems == s.ems && next.substation == s.substation && |next.blocks| == |s.blocks|
  {
    hide ResetBlock, ResetBlockEvents, ResetBlocksEvents, ResetBlocks, WordChanges;
  }

  lemma TickReleases(pl: Plant, s: Site, inputs: Inputs)
    requires s.substation.breaker == Closed
    ensures var next, released := Tick(pl, s, inputs), Release(s.ems, |s.blocks|, pl.spacingS, TICK);
      && |next.blocks| == |s.blocks| && next.substation.breaker == Closed
      && next.ems.blocksReleased == released.blocksReleased && next.ems.nextReleaseS == released.nextReleaseS
  {
    BreakerKept(pl, s, inputs);
    hide NextBlocks, AuxTick, EnergyAfter, AlarmsAfter, Emitted, SubstationTick, SumAcW, TargetW, SiteCapabilityW;
  }

  lemma SameCountdown(a: Ems, b: Ems, n: nat, spacing: real, dt: Pos, t: nat)
    requires a.blocksReleased == b.blocksReleased && a.nextReleaseS == b.nextReleaseS
    ensures OnSchedule(a, n, spacing, dt, t) <==> OnSchedule(b, n, spacing, dt, t)
  {
    hide Due, Elapsed;
  }

  lemma OpOnSchedule(pl: Plant, s: Site, op: Op, t: nat)
    requires s.substation.breaker == Closed && !IsTrip(op) && OnSchedule(s.ems, |s.blocks|, pl.spacingS, TICK, t)
    ensures var next := Exec(pl, s, op);
      && next.substation.breaker == Closed && |next.blocks| == |s.blocks|
      && OnSchedule(next.ems, |s.blocks|, pl.spacingS, TICK, if op.OpTick? then t + 1 else t)
  {
    hide OnSchedule, Tick, Dispatch, Release;
    match op
    case OpTick(inputs) =>
      TickReleases(pl, s, inputs);
      ReleaseOnSchedule(s.ems, |s.blocks|, pl.spacingS, TICK, t);
      SameCountdown(Release(s.ems, |s.blocks|, pl.spacingS, TICK), Tick(pl, s, inputs).ems, |s.blocks|, pl.spacingS,
          TICK, t + 1);
    case OpSetpoint(p) =>
      SameCountdown(s.ems, SetExternalSetpoint(s, p).ems, |s.blocks|, pl.spacingS, TICK, t);
    case OpApply(a) =>
      if Dispatch(s, a).Ok? { DispatchKeepsReturn(s, a); }
    case OpDirect(a) =>
      if Dispatch(s, a).Ok? { DispatchKeepsReturn(s, a); }
  }

  lemma {:induction false} RunOnSchedule(pl: Plant, s: Site, ops: seq<Op>)
    requires Starting(s) && forall op <- ops :: !IsTrip(op)
    ensures var end := StateAfter(pl, s, ops);
      && end.substation.breaker == Closed && |end.blocks| == |s.blocks|
      && OnSchedule(end.ems, |s.blocks|, pl.spacingS, TICK, TicksOf(ops))
  {
    hide Exec, IsTrip;
    if ops != [] {
      hide OnSchedule;
      assert forall x <- Init(ops) :: x in ops;
      RunOnSchedule(pl, s, Init(ops));
      OpOnSchedule(pl, StateAfter(pl, s, Init(ops)), Last(ops), TicksOf(Init(ops)));
    }
  }

  /** The staggered return in closed form: from the site reset that closes the breaker, or
      any tree with nothing released yet, and until the next trip, block k is released
      exactly from the tick that comes k periods after the one that released block 0, a
      period being the least number of whole ticks, one or more, that covers the spacing. */
  lemma ReturnSchedule(pl: Plant, s: Site, ops: seq<Op>, k: nat)
    requires Starting(s) && k < |s.blocks| && forall op <- ops :: !IsTrip(op)
    ensures var end := StateAfter(pl, s, ops);
      k < end.ems.blocksReleased <==> k * PeriodTicks(pl.spacingS, TICK) + 1 <= TicksOf(ops)
  {
    hide StateAfter, PeriodTicks, IsTrip;
    RunOnSchedule(pl, s, ops);
    DueOnTheGrid(|s.blocks|, PeriodTicks(pl.spacingS, TICK), TicksOf(ops), k);
    hide Due;
  }
}
