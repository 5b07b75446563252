/** The scenario player: a cursor over the schedule, and what resuming rests on. */
module Players {
  import opened Wrappers
  import opened State
  import opened Plants
  import opened Kernel
  import opened Commands
  import opened Runs
  import opened RunLaws
  import opened SafetyLaws
  import opened Simulations
  import opened Schedules

  // ----- A run under a scenario ------------------------------------------------------------

  /** A tree and how far along the schedule its player is. */
  datatype Stage = Stage(site: Site, cursor: nat)

  /** One round of the loop: the shell's own commands are drained, what is due fires, the
      kernel steps. */
  datatype Round = Round(commands: seq<Op>, inputs: Inputs)

  predicate Commanding(r: Round) {
    forall op <- r.commands :: !op.OpTick?
  }

  /** The cursor past everything due before `tick`. */
  function Advance(schedule: seq<Scheduled>, cursor: nat, tick: nat): (c: nat)
    requires cursor <= |schedule|
    ensures cursor <= c <= |schedule|
    decreases |schedule| - cursor
  {
    if cursor < |schedule| && schedule[cursor].tick <= tick then Advance(schedule, cursor + 1, tick) else cursor
  }

  /** Apply the physical ones among some scheduled events, in order. */
  function FireAll(s: Site, due: seq<Scheduled>): Site {
    if due == [] then s else
      var before := FireAll(s, due[..|due| - 1]);
      match due[|due| - 1].due
      case Physical(a) => Applied(before, a)
      case Data(_) => before
  }

  /** What comes due before the next tick of a stage. */
  function DueAt(schedule: seq<Scheduled>, st: Stage): seq<Scheduled>
    requires st.cursor <= |schedule|
  {
    schedule[st.cursor..Advance(schedule, st.cursor, st.site.tick)]
  }

  function Fire(schedule: seq<Scheduled>, st: Stage): (r: Stage)
    requires st.cursor <= |schedule|
    ensures r.cursor <= |schedule|
  {
    Stage(FireAll(st.site, DueAt(schedule, st)), Advance(schedule, st.cursor, st.site.tick))
  }

  /** The shell's commands on a stage; none of them moves the player. */
  function Command(pl: Plant, st: Stage, commands: seq<Op>): Stage {
    st.(site := StateAfter(pl, st.site, commands))
  }

  /** One round: the stage after it and the events its tick handed out. */
  function PlayRound(pl: Plant, schedule: seq<Scheduled>, st: Stage, r: Round): (next: (Stage, seq<Event>))
    requires st.cursor <= |schedule|
    ensures next.0.cursor <= |schedule|
  {
    var ready := Fire(schedule, Command(pl, st, r.commands));
    (Stage(Tick(pl, ready.site, r.inputs), ready.cursor), Emitted(pl, ready.site, r.inputs))
  }

  function Play(pl: Plant, schedule: seq<Scheduled>, st: Stage, rounds: seq<Round>): (end: Stage)
    requires st.cursor <= |schedule|
    ensures end.cursor <= |schedule|
    decreases |rounds|
  {
    if rounds == [] then st else Play(pl, schedule, PlayRound(pl, schedule, st, rounds[0]).0, rounds[1..])
  }

  /** Every tree of a run and the events handed out with it. */
  function Trace(pl: Plant, schedule: seq<Scheduled>, st: Stage, rounds: seq<Round>): seq<(Site, seq<Event>)>
    requires st.cursor <= |schedule|
    decreases |rounds|
  {
    if rounds == [] then [] else
      var (next, events) := PlayRound(pl, schedule, st, rounds[0]);
      [(next.site, events)] + Trace(pl, schedule, next, rounds[1..])
  }

  /** A tree resumed: the player's place rebuilt from the tick alone. */
  function Resumed(schedule: seq<Scheduled>, s: Site): (st: Stage)
    ensures st.cursor <= |schedule|
  {
    Stage(s, Before(schedule, s.tick))
  }

  // ----- The cursor is a function of the tick -------------------------------------------------

  /** Between a step and the next firing: handed out is everything before the tick. */
  predicate InStep(schedule: seq<Scheduled>, st: Stage) {
    st.cursor == Before(schedule, st.site.tick)
  }

  lemma {:induction false} AdvanceSplits(schedule: seq<Scheduled>, cursor: nat, tick: nat)
    requires InOrder(schedule) && cursor <= |schedule| && Before(schedule, tick) <= cursor
    requires forall i :: 0 <= i < cursor ==> schedule[i].tick <= tick
    ensures Advance(schedule, cursor, tick) == Before(schedule, tick + 1)
    decreases |schedule| - cursor
  {
    if cursor < |schedule| {
      BeforeSplits(schedule, tick + 1, cursor);
      if schedule[cursor].tick <= tick {
        AdvanceSplits(schedule, cursor + 1, tick);
      }
    }
    if cursor > 0 { BeforeSplits(schedule, tick + 1, cursor - 1); }
  }

  lemma AdvanceFromStep(schedule: seq<Scheduled>, tick: nat)
    requires InOrder(schedule)
    ensures Advance(schedule, Before(schedule, tick), tick) == Before(schedule, tick + 1)
  {
    forall i | 0 <= i < Before(schedule, tick)
      ensures schedule[i].tick <= tick
    {
      BeforeSplits(schedule, tick, i);
    }
    AdvanceSplits(schedule, Before(schedule, tick), tick);
  }

  lemma DispatchKeepsTick(s: Site, a: FaultAction)
    requires Dispatch(s, a).Ok?
    ensures Dispatch(s, a).value.site.tick == s.tick
  {
    hide ResetBlock, ResetBlockEvents, ResetBlocksEvents, AllTripped, TripEvents, ResetBlocks;
  }

  lemma {:induction false} FireKeepsTick(s: Site, due: seq<Scheduled>)
    ensures FireAll(s, due).tick == s.tick
  {
    hide Dispatch;
    if due != [] {
      var before := FireAll(s, due[..|due| - 1]);
      FireKeepsTick(s, due[..|due| - 1]);
      match due[|due| - 1].due
      case Physical(a) => if Dispatch(before, a).Ok? { DispatchKeepsTick(before, a); }
      case Data(_) =>
    }
  }

  lemma {:induction false} CommandsKeepTick(pl: Plant, s: Site, ops: seq<Op>)
    requires forall op <- ops :: !op.OpTick?
    ensures StateAfter(pl, s, ops).tick == s.tick
  {
    hide Dispatch, Tick;
    if ops != [] {
      var init, op := ops[..|ops| - 1], ops[|ops| - 1];
      assert forall x <- init :: x in ops;
      assert op in ops;
      CommandsKeepTick(pl, s, init);
      var mid := StateAfter(pl, s, init);
      if (op.OpApply? || op.OpDirect?) && Dispatch(mid, op.action).Ok? { DispatchKeepsTick(mid, op.action); }
    }
  }

  /** Each event is handed out once, on its tick: what a round in step fires is exactly the
      entries scheduled at that tick, and the round leaves the player in step. */
  lemma RoundInStep(pl: Plant, schedule: seq<Scheduled>, st: Stage, r: Round)
    requires InOrder(schedule) && InStep(schedule, st) && Commanding(r)
    ensures var next := PlayRound(pl, schedule, st, r).0;
      InStep(schedule, next) && next.site.tick == st.site.tick + 1
    ensures st.cursor <= Advance(schedule, st.cursor, st.site.tick)
    ensures forall i :: 0 <= i < |schedule| ==>
      (st.cursor <= i < Advance(schedule, st.cursor, st.site.tick) <==> schedule[i].tick == st.site.tick)
  {
    hide Tick, FireAll, StateAfter, Before, Advance, Emitted, InOrder;
    AdvanceFromStep(schedule, st.site.tick);
    CommandsKeepTick(pl, st.site, r.commands);
    var told := Command(pl, st, r.commands);
    FireKeepsTick(told.site, DueAt(schedule, told));
    TickCounts(pl, Fire(schedule, told).site, r.inputs);
    forall i | 0 <= i < |schedule|
      ensures st.cursor <= i < Advance(schedule, st.cursor, st.site.tick) <==> schedule[i].tick == st.site.tick
    {
      BeforeSplits(schedule, st.site.tick, i);
      BeforeSplits(schedule, st.site.tick + 1, i);
    }
  }

  lemma {:induction false} PlayInStep(pl: Plant, schedule: seq<Scheduled>, st: Stage, rounds: seq<Round>)
    requires InOrder(schedule) && InStep(schedule, st) && forall r <- rounds :: Commanding(r)
    ensures var end := Play(pl, schedule, st, rounds); InStep(schedule, end) && end.site.tick == st.site.tick + |rounds|
    decreases |rounds|
  {
    hide PlayRound, InStep, InOrder;
    if rounds != [] {
      RoundInStep(pl, schedule, st, rounds[0]);
      assert forall r <- rounds[1..] :: r in rounds;
      PlayInStep(pl, schedule, PlayRound(pl, schedule, st, rounds[0]).0, rounds[1..]);
    }
  }

  lemma {:induction false} TraceConcat(pl: Plant, schedule: seq<Scheduled>, st: Stage, a: seq<Round>, b: seq<Round>)
    requires st.cursor <= |schedule|
    ensures Trace(pl, schedule, st, a + b) == Trace(pl, schedule, st, a)
        + Trace(pl, schedule, Play(pl, schedule, st, a), b)
    decreases |a|
  {
    hide PlayRound;
    if a == [] {
      assert a + b == b;
    } else {
      assert (a + b)[1..] == a[1..] + b;
      TraceConcat(pl, schedule, PlayRound(pl, schedule, st, a[0]).0, a[1..], b);
    }
  }

  /** Commands given before and after a point of the same round. */
  lemma RoundSplits(pl: Plant, schedule: seq<Scheduled>, st: Stage, told: seq<Op>, r: Round)
    requires st.cursor <= |schedule|
    ensures PlayRound(pl, schedule, st, r.(commands := told + r.commands))
        == PlayRound(pl, schedule, Command(pl, st, told), r)
  {
    RunConcat(pl, st.site, told, r.commands);
    hide StateAfter, Fire, Tick, Emitted;
  }

  /** Resume equals uninterrupted: play any rounds from tick 0, and some of the commands of
      the next one; keep only the tree, rebuild the player from its tick, and play on. The
      trees and the events are those of the run that never stopped. The kernel's working
      buffers are no part of what is kept: `Simulation.Step` is a function of the tree. */
  lemma ResumeIsUninterrupted(pl: Plant, schedule: seq<Scheduled>, s: Site, a: seq<Round>, told: seq<Op>, r: Round,
      b: seq<Round>)
    requires InOrder(schedule) && s.tick == 0 && (forall x <- a :: Commanding(x)) && forall op <- told :: !op.OpTick?
    ensures var stopped := Command(pl, Play(pl, schedule, Stage(s, 0), a), told).site;
      Trace(pl, schedule, Stage(s, 0), a + [r.(commands := told + r.commands)] + b)
      == Trace(pl, schedule, Stage(s, 0), a) + Trace(pl, schedule, Resumed(schedule, stopped), [r] + b)
  {
    var whole := r.(commands := told + r.commands);
    var mid := Play(pl, schedule, Stage(s, 0), a);
    NothingBeforeZero(schedule);
    PlayInStep(pl, schedule, Stage(s, 0), a);
    CommandsKeepTick(pl, mid.site, told);
    assert a + [whole] + b == a + ([whole] + b);
    TraceConcat(pl, schedule, Stage(s, 0), a, [whole] + b);
    RoundSplits(pl, schedule, mid, told, r);
    FirstRound(pl, schedule, mid, whole, b);
    FirstRound(pl, schedule, Command(pl, mid, told), r, b);
    hide Trace, Play, PlayRound, StateAfter, Before, InOrder;
  }

  lemma FirstRound(pl: Plant, schedule: seq<Scheduled>, st: Stage, r: Round, b: seq<Round>)
    requires st.cursor <= |schedule|
    ensures var (next, events) := PlayRound(pl, schedule, st, r);
      Trace(pl, schedule, st, [r] + b) == [(next.site, events)] + Trace(pl, schedule, next, b)
  {
    hide PlayRound;
    assert ([r] + b)[1..] == b;
  }

  /** Straight after a step, the case without such commands. */
  lemma ResumeAfterStep(pl: Plant, schedule: seq<Scheduled>, s: Site, a: seq<Round>, b: seq<Round>)
    requires InOrder(schedule) && s.tick == 0 && forall r <- a :: Commanding(r)
    ensures Trace(pl, schedule, Stage(s, 0), a + b)
         == Trace(pl, schedule, Stage(s, 0), a)
            + Trace(pl, schedule, Resumed(schedule, Play(pl, schedule, Stage(s, 0), a).site), b)
  {
    hide Trace, Play;
    NothingBeforeZero(schedule);
    PlayInStep(pl, schedule, Stage(s, 0), a);
    TraceConcat(pl, schedule, Stage(s, 0), a, b);
  }

  lemma {:induction false} NothingBeforeZero(schedule: seq<Scheduled>)
    ensures Before(schedule, 0) == 0
  {
    if schedule != [] { NothingBeforeZero(schedule[..|schedule| - 1]); }
  }

  /** A tree taken after firing and before the step resumes to the same player exactly when
      nothing was due: otherwise the resumed player would fire those events again. */
  lemma ResumeAfterFiring(schedule: seq<Scheduled>, st: Stage)
    requires InOrder(schedule) && InStep(schedule, st)
    ensures Resumed(schedule, Fire(schedule, st).site) == Fire(schedule, st) <==> DueAt(schedule, st) == []
  {
    hide FireAll, Before, Advance, InOrder;
    AdvanceFromStep(schedule, st.site.tick);
    FireKeepsTick(st.site, DueAt(schedule, st));
  }

  // ----- The player as it runs ------------------------------------------------------------------

  datatype Refused = Refused(index: nat, error: FaultError)

  /** The first refusal among some scheduled events. */
  function FirstRefused(s: Site, due: seq<Scheduled>): Option<Refused> {
    if due == [] then None else
      var init, last := due[..|due| - 1], due[|due| - 1];
      var before := FirstRefused(s, init);
      if before.Some? || !last.due.Physical? then before else
        match Dispatch(FireAll(s, init), last.due.action)
        case Ok(_) => None
        case Err(e) => Some(Refused(last.index, e))
  }

  class Player {
    const schedule: seq<Scheduled>
    var cursor: nat

    predicate Valid()
      reads this
    {
      cursor <= |schedule|
    }

    constructor (schedule: seq<Scheduled>)
      ensures Valid() && this.schedule == schedule && cursor == 0
    {
      this.schedule := schedule;
      cursor := 0;
    }

    /** Everything due before `tick` and not yet handed out. */
    method Due(tick: nat) returns (due: seq<Scheduled>)
      requires Valid()
      modifies this
      ensures Valid() && cursor == Advance(schedule, old(cursor), tick) && due == schedule[old(cursor)..cursor]
    {
      var from := cursor;
      while cursor < |schedule| && schedule[cursor].tick <= tick
        invariant from <= cursor <= |schedule|
        invariant Advance(schedule, cursor, tick) == Advance(schedule, from, tick)
        decreases |schedule| - cursor
      {
        cursor := cursor + 1;
      }
      due := schedule[from..cursor];
    }

    /** Apply what is due through the kernel's door, a refusal not stopping the rest. */
    method FireDue(sim: Simulation) returns (due: seq<Scheduled>, refused: Option<Refused>)
      requires Valid()
      modifies this, sim`state
      ensures Valid()
      ensures Stage(sim.state, cursor) == Fire(schedule, old(Stage(sim.state, cursor)))
      ensures due == DueAt(schedule, old(Stage(sim.state, cursor))) && refused == FirstRefused(old(sim.state), due)
    {
      hide Dispatch, Applied, Advance;
      due := Due(sim.state.tick);
      refused := None;
      ghost var s := sim.state;
      ghost var at := cursor;
      for i := 0 to |due|
        invariant cursor == at && sim.state == FireAll(s, due[..i]) && refused == FirstRefused(s, due[..i])
      {
        assert due[..i + 1][..i] == due[..i];
        AppliedEffect(sim.state, due[i]);
        if due[i].due.Physical? {
          var r := sim.Apply(due[i].due.action);
          if r.Err? && refused.None? {
            refused := Some(Refused(due[i].index, r.error));
          }
        }
      }
      assert due[..|due|] == due;
    }

    /** Mark everything scheduled before `tick` as fired. */
    method CatchUp(tick: nat)
      requires Valid()
      modifies this
      ensures Valid() && cursor == Before(schedule, tick)
    {
      cursor := Before(schedule, tick);
    }
  }

  lemma AppliedEffect(s: Site, e: Scheduled)
    ensures e.due.Physical? && Dispatch(s, e.due.action).Err? ==> Applied(s, e.due.action) == s
  {
    hide Dispatch;
  }
}
