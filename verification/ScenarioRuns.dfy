/** A played scenario is a run: what is scheduled reaches the plant through its one door, in
    schedule order, so that every law of runs is a law of scenarios. */
module ScenarioRuns {
  import opened Wrappers
  import opened State
  import opened Log
  import opened Plants
  import opened Kernel
  import opened Commands
  import opened TickLaws
  import opened SiteLaws
  import opened Runs
  import opened RunLaws
  import opened Schedules
  import opened Players

  // ----- Firing ---------------------------------------------------------------------------

  /** What a scheduled event is for the kernel: a physical one an action through its door,
      a data fault nothing. */
  function AsOps(e: Scheduled): seq<Op> {
    match e.due
    case Physical(a) => [OpApply(a)]
    case Data(_) => []
  }

  function Fired(due: seq<Scheduled>): seq<Op> {
    if due == [] then [] else Fired(due[..|due| - 1]) + AsOps(due[|due| - 1])
  }

  lemma {:induction false} FiredCommands(due: seq<Scheduled>)
    ensures forall op <- Fired(due) :: op.OpApply?
  {
    if due != [] { FiredCommands(due[..|due| - 1]); }
  }

  lemma {:induction false} FireIsStateAfter(pl: Plant, s: Site, due: seq<Scheduled>)
    ensures FireAll(s, due) == StateAfter(pl, s, Fired(due))
  {
    hide Applied, Tick;
    if due != [] {
      var init, last := due[..|due| - 1], due[|due| - 1];
      FireIsStateAfter(pl, s, init);
      match last.due
      case Physical(a) => assert (Fired(init) + [OpApply(a)])[..|Fired(init)|] == Fired(init);
      case Data(_) => assert Fired(init) + [] == Fired(init);
    }
  }

  /** Firing is one `apply` per physical event due, in schedule order; the events left
      pending grow by the mark and the effects of each accepted one. */
  lemma FireIsRun(pl: Plant, s: Site, due: seq<Scheduled>)
    ensures FireAll(s, due) == StateAfter(pl, s, Fired(due))
    ensures FireAll(s, due).pending == s.pending + AllLeft(pl, s, Fired(due))
  {
    hide Fired, FireAll, StateAfter, AllLeft;
    FiredCommands(due);
    PendingReads(pl, s, Fired(due));
    FireIsStateAfter(pl, s, due);
  }

  /** Event by event: a data fault and a refusal change nothing, and skip only themselves;
      an accepted action leaves its tree, its mark and then its effects. */
  lemma FiringStep(s: Site, due: seq<Scheduled>, i: nat)
    requires i < |due|
    ensures var before, after := FireAll(s, due[..i]), FireAll(s, due[..i + 1]);
      && (due[i].due.Data? ==> after == before)
      && (due[i].due.Physical? ==>
            var a := due[i].due.action;
            if Dispatch(before, a).Err? then after == before else
              var done := Dispatch(before, a).value;
              after == done.site.(pending := before.pending + [FaultApplied(a)] + done.events))
  {
    hide Dispatch;
    assert due[..i + 1][..i] == due[..i];
  }

  /** The refusal a firing reports is the first: none exactly when every action was
      accepted in its turn. */
  lemma {:induction false} FirstRefusedMeans(s: Site, due: seq<Scheduled>) returns (i: nat)
    ensures FirstRefused(s, due).None? <==>
      forall k :: 0 <= k < |due| && due[k].due.Physical? ==> Dispatch(FireAll(s, due[..k]), due[k].due.action).Ok?
    ensures FirstRefused(s, due).Some? ==>
      && i < |due| && due[i].due.Physical?
      && Dispatch(FireAll(s, due[..i]), due[i].due.action) == Err(FirstRefused(s, due).value.error)
      && FirstRefused(s, due).value.index == due[i].index
      && forall k :: 0 <= k < i && due[k].due.Physical? ==> Dispatch(FireAll(s, due[..k]), due[k].due.action).Ok?
  {
    hide Dispatch, FireAll;
    i := 0;
    if due != [] {
      var init, n := due[..|due| - 1], |due| - 1;
      assert forall k :: 0 <= k <= n ==> init[..k] == due[..k];
      i := FirstRefusedMeans(s, init);
      if FirstRefused(s, init).None? { i := n; }
      assert due[..n] == init;
    }
  }

  // ----- What is due in a round --------------------------------------------------------------

  /** The entries of one tick, in schedule order. */
  function EntriesAt(schedule: seq<Scheduled>, tick: nat): seq<Scheduled> {
    if schedule == [] then [] else
      var last := schedule[|schedule| - 1];
      EntriesAt(schedule[..|schedule| - 1], tick) + (if last.tick == tick then [last] else [])
  }

  function Capped(a: nat, b: nat): nat {
    if a <= b then a else b
  }

  lemma {:induction false} EntriesUpTo(schedule: seq<Scheduled>, tick: nat, lo: nat, hi: nat, k: nat)
    requires lo <= hi <= |schedule| && k <= |schedule|
    requires forall i :: 0 <= i < |schedule| ==> (lo <= i < hi <==> schedule[i].tick == tick)
    ensures EntriesAt(schedule[..k], tick) == schedule[Capped(lo, k)..Capped(hi, k)]
  {
    if k > 0 {
      EntriesUpTo(schedule, tick, lo, hi, k - 1);
      OneMoreEntry(schedule, tick, k);
      SliceGrows(schedule, lo, hi, k);
      hide EntriesAt, Capped;
    }
  }

  lemma OneMoreEntry(schedule: seq<Scheduled>, tick: nat, k: nat)
    requires 0 < k <= |schedule|
    ensures EntriesAt(schedule[..k], tick)
         == EntriesAt(schedule[..k - 1], tick) + (if schedule[k - 1].tick == tick then [schedule[k - 1]] else [])
  {
    assert schedule[..k][..k - 1] == schedule[..k - 1];
  }

  lemma SliceGrows<T>(s: seq<T>, lo: nat, hi: nat, k: nat)
    requires lo <= hi <= |s| && 0 < k <= |s|
    ensures s[Capped(lo, k)..Capped(hi, k)]
         == s[Capped(lo, k - 1)..Capped(hi, k - 1)] + (if lo <= k - 1 < hi then [s[k - 1]] else [])
  {}

  lemma {:induction false} BeforeRises(schedule: seq<Scheduled>, tick: nat)
    requires InOrder(schedule)
    ensures Before(schedule, tick) <= Before(schedule, tick + 1)
  {
    hide Before, InOrder;
    if Before(schedule, tick + 1) < Before(schedule, tick) {
      BeforeSplits(schedule, tick + 1, Before(schedule, tick + 1));
      BeforeSplits(schedule, tick, Before(schedule, tick + 1));
    }
  }

  /** What a round in step fires is the entries of its tick, in schedule order. */
  lemma DueIsEntries(schedule: seq<Scheduled>, st: Stage)
    requires InOrder(schedule) && InStep(schedule, st)
    ensures st.cursor <= |schedule| && DueAt(schedule, st) == EntriesAt(schedule, st.site.tick)
  {
    hide Before, InOrder, Advance, EntriesAt;
    var tick := st.site.tick;
    var lo, hi := Before(schedule, tick), Before(schedule, tick + 1);
    AdvanceFromStep(schedule, tick);
    BeforeRises(schedule, tick);
    forall i | 0 <= i < |schedule|
      ensures lo <= i < hi <==> schedule[i].tick == tick
    {
      BeforeSplits(schedule, tick, i);
      BeforeSplits(schedule, tick + 1, i);
    }
    EntriesUpTo(schedule, tick, lo, hi, |schedule|);
    assert schedule[..|schedule|] == schedule;
  }

  lemma {:induction false} EntriesMembers(schedule: seq<Scheduled>, tick: nat, x: Scheduled)
    ensures x in EntriesAt(schedule, tick) <==> x in schedule && x.tick == tick
  {
    if schedule != [] {
      var init, last := schedule[..|schedule| - 1], schedule[|schedule| - 1];
      EntriesMembers(init, tick, x);
      assert schedule == init + [last];
    }
  }

  /** An event of the file fires on the tick its time falls in, as the file lists it, and on
      no other. */
  lemma FiresOnItsTick(events: seq<FileEvent>, i: nat, tick: nat)
    requires i < |events|
    ensures var row := EntriesAt(Resolve(events, |events|), tick);
      && (forall x <- row :: x.index < |events| && x.due == events[x.index].due && x.atS == events[x.index].atS)
      && ((exists x <- row :: x.index == i) <==>
            tick * TICK_SECONDS <= events[i].atS < (tick + 1) * TICK_SECONDS)
  {
    hide Resolve, EntriesAt;
    var schedule := Resolve(events, |events|);
    ResolveSorts(events, |events|);
    forall x | x in EntriesAt(schedule, tick)
      ensures x.index < |events| && x == At(events, x.index) && x.tick == tick
    {
      EntriesMembers(schedule, tick, x);
    }
    Listed(events, i);
    EntriesMembers(schedule, tick, At(events, i));
    assert At(events, i).index == i;
  }

  lemma Listed(events: seq<FileEvent>, i: nat)
    requires i < |events|
    ensures At(events, i) in Resolve(events, |events|)
  {
    hide Resolve, At;
    ResolveSorts(events, |events|);
    var all := seq(|events|, k requires 0 <= k < |events| => At(events, k));
    assert all[i] == At(events, i) && all[i] in multiset(all);
    assert At(events, i) in multiset(Resolve(events, |events|));
  }

  // ----- A round is a run, and so is a scenario ------------------------------------------------

  /** The operations of one round: the shell's commands, what is scheduled, the tick. */
  function RoundOps(schedule: seq<Scheduled>, tick: nat, r: Round): seq<Op> {
    r.commands + Fired(EntriesAt(schedule, tick)) + [OpTick(r.inputs)]
  }

  /** The operations of a scenario played from a tick on. */
  function ScenarioOps(schedule: seq<Scheduled>, tick: nat, rounds: seq<Round>): seq<Op>
    decreases |rounds|
  {
    if rounds == [] then [] else RoundOps(schedule, tick, rounds[0]) + ScenarioOps(schedule, tick + 1, rounds[1..])
  }

  lemma {:induction false} RunLogConcat(pl: Plant, s: Site, a: seq<Op>, b: seq<Op>)
    ensures RunLog(pl, s, a + b) == RunLog(pl, s, a) + RunLog(pl, StateAfter(pl, s, a), b)
  {
    hide Exec, HandedOut;
    if b == [] {
      assert a + b == a;
    } else {
      var init := b[..|b| - 1];
      assert (a + b)[..|a + b| - 1] == a + init;
      RunLogConcat(pl, s, a, init);
      RunConcat(pl, s, a, init);
    }
  }

  lemma {:induction false} QuietLog(pl: Plant, s: Site, ops: seq<Op>)
    requires forall op <- ops :: !op.OpTick?
    ensures RunLog(pl, s, ops) == []
  {
    hide Exec;
    if ops != [] {
      assert forall op <- Init(ops) :: op in ops;
      QuietLog(pl, s, Init(ops));
      assert Last(ops) in ops;
    }
  }

  /** One round in step: the tree after it is that of its commands, one `apply` per entry of
      its tick and one tick; the events it hands out are that run's. */
  lemma RoundIsRun(pl: Plant, schedule: seq<Scheduled>, st: Stage, r: Round)
    requires InOrder(schedule) && InStep(schedule, st) && Commanding(r)
    ensures st.cursor <= |schedule|
    ensures var (next, events) := PlayRound(pl, schedule, st, r);
      var ops := RoundOps(schedule, st.site.tick, r);
      next.site == StateAfter(pl, st.site, ops) && events == RunLog(pl, st.site, ops)
  {
    hide Tick, Emitted, FireAll, Before, InOrder, EntriesAt, DueAt, Fired;
    var told := Command(pl, st, r.commands);
    CommandsKeepTick(pl, st.site, r.commands);
    DueIsEntries(schedule, told);
    var due := EntriesAt(schedule, st.site.tick);
    FireIsRun(pl, told.site, due);
    RunConcat(pl, st.site, r.commands, Fired(due));
    FiredCommands(due);
    QuietLog(pl, st.site, r.commands + Fired(due));
    TickLast(pl, st.site, r.commands + Fired(due), r.inputs);
  }

  lemma TickLast(pl: Plant, s: Site, ops: seq<Op>, inputs: Inputs)
    ensures StateAfter(pl, s, ops + [OpTick(inputs)]) == Tick(pl, StateAfter(pl, s, ops), inputs)
    ensures RunLog(pl, s, ops + [OpTick(inputs)]) == RunLog(pl, s, ops) + Emitted(pl, StateAfter(pl, s, ops), inputs)
  {
    hide Tick, Emitted;
    assert Init(ops + [OpTick(inputs)]) == ops;
  }

  /** The events a played scenario hands out, tick after tick. */
  function Handed(trace: seq<(Site, seq<Event>)>): seq<Event> {
    if trace == [] then [] else trace[0].1 + Handed(trace[1..])
  }

  /** A played scenario is a run, of the shell's commands and the schedule's actions in their
      places: the same tree and the same log. So every law of runs is one of scenarios. */
  lemma {:induction false} PlayIsRun(pl: Plant, schedule: seq<Scheduled>, st: Stage, rounds: seq<Round>)
    requires InOrder(schedule) && InStep(schedule, st) && forall r <- rounds :: Commanding(r)
    ensures st.cursor <= |schedule|
    ensures var ops := ScenarioOps(schedule, st.site.tick, rounds);
      && Play(pl, schedule, st, rounds).site == StateAfter(pl, st.site, ops)
      && Handed(Trace(pl, schedule, st, rounds)) == RunLog(pl, st.site, ops)
    decreases |rounds|
  {
    hide PlayRound, StateAfter, RunLog, InOrder, InStep, RoundOps;
    InStepCursor(schedule, st);
    if rounds == [] {
      NoOps(pl, st.site);
    } else {
      var (next, events) := PlayRound(pl, schedule, st, rounds[0]);
      var ops, rest := RoundOps(schedule, st.site.tick, rounds[0]),
          ScenarioOps(schedule, st.site.tick + 1, rounds[1..]);
      RoundIsRun(pl, schedule, st, rounds[0]);
      RoundInStep(pl, schedule, st, rounds[0]);
      assert forall r <- rounds[1..] :: r in rounds;
      PlayIsRun(pl, schedule, next, rounds[1..]);
      RunConcat(pl, st.site, ops, rest);
      RunLogConcat(pl, st.site, ops, rest);
    }
  }

  lemma NoOps(pl: Plant, s: Site)
    ensures StateAfter(pl, s, []) == s && RunLog(pl, s, []) == []
  {}

  lemma InStepCursor(schedule: seq<Scheduled>, st: Stage)
    requires InStep(schedule, st)
    ensures st.cursor <= |schedule|
  {
    hide Before;
  }

  /** The log of a scenario is complete, from tick 0: every alarm word and converter state
      at the end is what the events handed out, and then those pending, make of the first. */
  lemma ScenarioLogComplete(pl: Plant, schedule: seq<Scheduled>, s: Site, rounds: seq<Round>, ch: Channel)
    requires Sound(pl) && Inv(pl, s) && s.pending == [] && HasChannel(s.blocks, ch) && s.tick == 0
    requires InOrder(schedule) && forall r <- rounds :: Commanding(r)
    ensures var end := Play(pl, schedule, Stage(s, 0), rounds).site;
      && Inv(pl, end) && HasChannel(end.blocks, ch)
      && After(Some(ValueAt(s.blocks, s.alarms, ch)), Handed(Trace(pl, schedule, Stage(s, 0), rounds)) + end.pending,
          ch)
         == Some(ValueAt(end.blocks, end.alarms, ch))
  {
    hide Play, Trace, StateAfter, RunLog, InOrder, Inv, Sound, After, ValueAt, HasChannel, ScenarioOps;
    NothingBeforeZero(schedule);
    PlayIsRun(pl, schedule, Stage(s, 0), rounds);
    RunKeepsInv(pl, s, ScenarioOps(schedule, 0, rounds));
    LogComplete(pl, s, ScenarioOps(schedule, 0, rounds), ch);
  }
}
