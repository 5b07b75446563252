/** From a scenario's events to a fixed schedule. */
module Schedules {
  import opened Wrappers
  import opened State
  import opened Targets
  import opened Orders

  /** What fires: an action for the kernel, or a data fault for the tap. */
  datatype Due = Physical(action: FaultAction) | Data(fault: nat)

  /** An event as the file lists it; a data fault has no target. */
  datatype FileEvent = FileEvent(atS: nat, target: Option<Target>, due: Due)

  datatype Scheduled = Scheduled(index: nat, atS: nat, tick: nat, due: Due)

  const TICK_SECONDS := 1

  // ----- The order of the file ----------------------------------------------------------------

  /** On each target times rise down the file. */
  predicate TimesRise(events: seq<FileEvent>, k: nat)
    requires k <= |events|
  {
    forall i, j :: 0 <= i < j < k && events[i].target.Some? && events[i].target == events[j].target
      ==> events[i].atS < events[j].atS
  }

  datatype OrderError = SharedTick(index: nat, other: nat) | OutOfOrder(index: nat, other: nat)

  /** The latest event of every target among the first k. */
  ghost predicate Seen(events: seq<FileEvent>, k: nat, lastOn: map<Target, nat>)
    requires k <= |events|
  {
    && (forall t <- lastOn :: lastOn[t] < k && events[lastOn[t]].target == Some(t))
    && (forall i :: 0 <= i < k && events[i].target.Some? ==>
          events[i].target.value in lastOn && events[i].atS <= events[lastOn[events[i].target.value]].atS)
  }

  predicate Follows(events: seq<FileEvent>, k: nat, lastOn: map<Target, nat>)
    requires k < |events|
  {
    match events[k].target
    case None => true
    case Some(t) => t in lastOn ==> lastOn[t] < |events| && events[lastOn[t]].atS < events[k].atS
  }

  lemma SeenStep(events: seq<FileEvent>, k: nat, lastOn: map<Target, nat>)
    requires k < |events| && Seen(events, k, lastOn)
    ensures TimesRise(events, k) && Follows(events, k, lastOn) ==> TimesRise(events, k + 1)
    ensures !Follows(events, k, lastOn) ==> !TimesRise(events, |events|)
    ensures Follows(events, k, lastOn) ==>
      Seen(events, k + 1, match events[k].target case Some(t) => lastOn[t := k] case None => lastOn)
  {
    if !Follows(events, k, lastOn) {
      assert events[lastOn[events[k].target.value]].target == events[k].target;
    }
  }

  /** One pass with the last event seen on each target: accepted exactly when times rise on
      every target; a refusal names two events of one target that do not. */
  method CheckOrder(events: seq<FileEvent>) returns (r: Result<(), OrderError>)
    ensures r.Ok? <==> TimesRise(events, |events|)
    ensures r.Err? ==> var i, o := r.error.index, r.error.other;
      && o < i < |events| && events[o].target.Some? && events[o].target == events[i].target
      && (if r.error.SharedTick? then events[i].atS == events[o].atS else events[i].atS < events[o].atS)
  {
    var lastOn: map<Target, nat> := map[];
    for k := 0 to |events|
      invariant TimesRise(events, k) && Seen(events, k, lastOn)
    {
      SeenStep(events, k, lastOn);
      hide TimesRise;
      if events[k].target.Some? {
        var t := events[k].target.value;
        if t in lastOn {
          var other := lastOn[t];
          if events[k].atS == events[other].atS { return Err(SharedTick(k, other)); }
          if events[k].atS < events[other].atS { return Err(OutOfOrder(k, other)); }
        }
        lastOn := lastOn[t := k];
      }
    }
    return Ok(());
  }

  // ----- Resolution -------------------------------------------------------------------------------

  function At(events: seq<FileEvent>, i: nat): Scheduled
    requires i < |events|
  {
    Scheduled(i, events[i].atS, events[i].atS / TICK_SECONDS, events[i].due)
  }

  predicate Sooner(a: Scheduled, b: Scheduled) {
    a.tick < b.tick || (a.tick == b.tick && a.index < b.index)
  }

  function Inserted(row: seq<Scheduled>, s: Scheduled): seq<Scheduled> {
    if row == [] then [s]
    else if Sooner(s, row[|row| - 1]) then Inserted(row[..|row| - 1], s) + [row[|row| - 1]]
    else row + [s]
  }

  /** The first k events of the file sorted by (tick, file index). */
  function Resolve(events: seq<FileEvent>, k: nat): seq<Scheduled>
    requires k <= |events|
  {
    if k == 0 then [] else Inserted(Resolve(events, k - 1), At(events, k - 1))
  }

  predicate InOrder(row: seq<Scheduled>) {
    forall i, j :: 0 <= i < j < |row| ==> Sooner(row[i], row[j])
  }

  lemma {:induction false} InsertedHolds(row: seq<Scheduled>, s: Scheduled)
    ensures multiset(Inserted(row, s)) == multiset(row) + multiset{s}
  {
    if row != [] {
      var init, last := row[..|row| - 1], row[|row| - 1];
      assert row == init + [last];
      if Sooner(s, last) { InsertedHolds(init, s); }
      hide Sooner;
    }
  }

  lemma InsertedMembers(row: seq<Scheduled>, s: Scheduled, x: Scheduled)
    ensures x in Inserted(row, s) <==> x in row || x == s
  {
    InsertedHolds(row, s);
    assert x in Inserted(row, s) <==> x in multiset(Inserted(row, s));
    assert x in row <==> x in multiset(row);
    hide Inserted;
  }

  lemma {:induction false} InsertedKeeps(row: seq<Scheduled>, s: Scheduled)
    requires InOrder(row) && forall x <- row :: x.index != s.index
    ensures InOrder(Inserted(row, s))
  {
    if row != [] {
      var init, last := row[..|row| - 1], row[|row| - 1];
      assert last in row;
      if Sooner(s, last) {
        assert forall x <- init :: x in row;
        InsertedKeeps(init, s);
        OrderedThen(Inserted(init, s), last, init, s, row);
      } else {
        forall i | 0 <= i < |row|
          ensures Sooner(row[i], s)
        {
          if i < |row| - 1 { assert Sooner(row[i], last); }
        }
      }
    }
  }

  lemma OrderedThen(head: seq<Scheduled>, last: Scheduled, init: seq<Scheduled>, s: Scheduled, row: seq<Scheduled>)
    requires InOrder(row) && row == init + [last] && head == Inserted(init, s) && InOrder(head) && Sooner(s, last)
    ensures InOrder(head + [last])
  {
    hide Inserted;
    forall i | 0 <= i < |head|
      ensures Sooner(head[i], last)
    {
      InsertedMembers(init, s, head[i]);
      if head[i] in init {
        var k :| 0 <= k < |init| && init[k] == head[i];
        assert Sooner(row[k], row[|row| - 1]);
      }
    }
  }

  /** The schedule is in firing order and holds every event of the file exactly once. */
  lemma {:induction false} ResolveSorts(events: seq<FileEvent>, k: nat)
    requires k <= |events|
    ensures InOrder(Resolve(events, k))
    ensures multiset(Resolve(events, k)) == multiset(seq(k, i requires 0 <= i < k => At(events, i)))
    ensures forall x <- Resolve(events, k) :: x.index < k && x == At(events, x.index)
  {
    hide Inserted, InOrder, At;
    var all := seq(k, i requires 0 <= i < k => At(events, i));
    if k == 0 {
      NothingScheduled(events);
      assert all == [];
    } else {
      ResolveSorts(events, k - 1);
      var before, last := Resolve(events, k - 1), At(events, k - 1);
      AtIndex(events, k - 1);
      InsertedKeeps(before, last);
      InsertedHolds(before, last);
      assert all == seq(k - 1, i requires 0 <= i < k - 1 => At(events, i)) + [last];
      forall x <- Resolve(events, k)
        ensures x.index < k && x == At(events, x.index)
      {
        InsertedMembers(before, last, x);
      }
    }
  }

  lemma NothingScheduled(events: seq<FileEvent>)
    ensures Resolve(events, 0) == [] && InOrder([])
  {}

  lemma AtIndex(events: seq<FileEvent>, i: nat)
    requires i < |events|
    ensures At(events, i).index == i
  {}

  /** Whatever sorts the events of a file by tick and index finds this schedule. */
  lemma AnySortResolves(events: seq<FileEvent>, row: seq<Scheduled>)
    requires InOrder(row) && multiset(row) == multiset(seq(|events|, i requires 0 <= i < |events| => At(events, i)))
    ensures row == Resolve(events, |events|)
  {
    var sorted := Resolve(events, |events|);
    ResolveSorts(events, |events|);
    SameBag(row, sorted);
    SortedIsUnique((x: Scheduled, y: Scheduled) => Sooner(x, y), row, sorted);
  }

  lemma SameBag(a: seq<Scheduled>, b: seq<Scheduled>)
    requires multiset(a) == multiset(b)
    ensures |a| == |b| && Within(a, b) && Within(b, a)
  {
    assert |multiset(a)| == |a| && |multiset(b)| == |b|;
    forall i | 0 <= i < |a|
      ensures a[i] in b
    {
      assert a[i] in multiset(a);
    }
    forall i | 0 <= i < |b|
      ensures b[i] in a
    {
      assert b[i] in multiset(b);
    }
  }

  /** Entries before a tick: `partition_point`. */
  function Before(row: seq<Scheduled>, tick: nat): (n: nat)
    ensures n <= |row|
  {
    if row == [] then 0
    else if row[|row| - 1].tick < tick then |row|
    else Before(row[..|row| - 1], tick)
  }

  lemma {:induction false} BeforeSplits(row: seq<Scheduled>, tick: nat, i: nat)
    requires InOrder(row) && i < |row|
    ensures i < Before(row, tick) <==> row[i].tick < tick
  {
    if row[|row| - 1].tick < tick {
      if i < |row| - 1 { assert Sooner(row[i], row[|row| - 1]); }
    } else if i < |row| - 1 {
      BeforeSplits(row[..|row| - 1], tick, i);
    }
  }
}
