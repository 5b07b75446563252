/** What the device hands over, over every history: its wakes are histories of the outbox,
    its events are accounted for, its cadence keeps its periods. */
module DeliveryLaws {
  import opened Wrappers
  import opened State
  import opened Outboxes
  import opened Publishers

  // ----- A device history is an outbox history --------------------------------------------

  lemma {:induction false} DoAllConcat(x: Line, a: seq<BoxOp>, b: seq<BoxOp>, client: Oracle)
    ensures DoAll(x, a + b, client) == DoAll(DoAll(x, a, client), b, client)
  {
    hide Do;
    if b == [] {
      assert a + b == a;
    } else {
      assert (a + b)[..|a + b| - 1] == a + b[..|b| - 1];
      DoAllConcat(x, a, b[..|b| - 1], client);
    }
  }

  lemma DoFirst(x: Line, op: BoxOp, rest: seq<BoxOp>, client: Oracle)
    ensures DoAll(x, [op] + rest, client) == DoAll(Do(x, op, client), rest, client)
  {
    hide Do;
    DoAllConcat(x, [op], rest, client);
    assert [op][..0] == [];
    assert DoAll(x, [], client) == x;
  }

  /** The sends of the cadence loop from point i on. */
  function CadenceOps(x: Line, last: seq<Option<int>>, points: seq<Class>, snap: Snap, client: Oracle,
      i: nat): seq<BoxOp>
    requires |last| == 3 && |snap.readings| == |points| && i <= |points|
    decreases |points| - i
  {
    if i == |points| then []
    else if !CadenceDue(last, points[i], snap.simS) then CadenceOps(x, last, points, snap, client, i + 1)
    else
      var m := CadenceMsg(i, snap);
      [DoSend(snap.view, m)]
      + (if SendOk(x, snap.view, m, client)
         then CadenceOps(Send(x, snap.view, m, client), last, points, snap, client, i + 1) else [])
  }

  function ChangedOps(x: Line, last: seq<Option<real>>, points: seq<Class>, snap: Snap, client: Oracle,
      i: nat): seq<BoxOp>
    requires |last| == |points| == |snap.readings| && i <= |points|
    decreases |points| - i
  {
    if i == |points| then [] else
      var (y, next) := WordStep(x, last, points, snap, client, i);
      (if points[i] == OnChange && last[i] != Some(snap.readings[i]) then [DoSend(snap.view, WordMsg(i, snap))] else [])
      + ChangedOps(y, next, points, snap, client, i + 1)
  }

  /** The sends of the first k events of a batch. */
  function EventOps(snap: Snap, batch: Batch, k: nat): seq<BoxOp>
    requires k <= |batch.events|
  {
    if k == 0 then [] else EventOps(snap, batch, k - 1) + [DoSend(snap.view, EventMsg(batch, k - 1))]
  }

  /** What one wake asks of the outbox. */
  function StepOps(w: World, points: seq<Class>, op: Wake, client: Oracle): seq<BoxOp>
    requires DeskOk(w.desk, points) && FitsPoints(points, op)
  {
    match op
    case Backfills(snap) => [DoBackfill(snap.view)]
    case Cadence(snap) => CadenceOps(w.desk.line, w.desk.lastPubS, points, snap, client, 0)
    case Changed(snap) =>
      var (x, returned) := Returned(w.desk.line, snap.view);
      [DoReturned(snap.view)]
      + ChangedOps(x, if w.connections != w.desk.publishedOn || returned then Forgot(|points|) else w.desk.lastWord,
                   points, snap, client, 0)
    case Events(snap, batch) => EventOps(snap, batch, |batch.events|)
    case Reconnect(retained) => [DoReconnect(retained)]
  }

  function HistoryOps(points: seq<Class>, ops: seq<Wake>, client: Oracle): seq<BoxOp>
    requires forall op <- ops :: FitsPoints(points, op)
  {
    if ops == [] then [] else
      HistoryOps(points, ops[..|ops| - 1], client)
      + StepOps(History(points, ops[..|ops| - 1], client), points, ops[|ops| - 1], client)
  }

  lemma {:induction false} CadenceByOps(x: Line, last: seq<Option<int>>, points: seq<Class>, snap: Snap,
      client: Oracle, i: nat)
    requires |last| == 3 && |snap.readings| == |points| && i <= |points|
    ensures DoAll(x, CadenceOps(x, last, points, snap, client, i), client)
        == CadenceFrom(x, last, points, snap, client, i)
    decreases |points| - i
  {
    hide Send, SendOk;
    if i < |points| {
      if CadenceDue(last, points[i], snap.simS) {
        var m := CadenceMsg(i, snap);
        var y := Send(x, snap.view, m, client);
        var rest := if SendOk(x, snap.view, m, client) then CadenceOps(y, last, points, snap, client, i + 1) else [];
        CadenceByOps(y, last, points, snap, client, i + 1);
        DoFirst(x, DoSend(snap.view, m), rest, client);
      } else {
        CadenceByOps(x, last, points, snap, client, i + 1);
      }
    }
  }

  lemma {:induction false} ChangedByOps(x: Line, last: seq<Option<real>>, points: seq<Class>, snap: Snap,
      client: Oracle, i: nat)
    requires |last| == |points| == |snap.readings| && i <= |points|
    ensures DoAll(x, ChangedOps(x, last, points, snap, client, i), client)
        == ChangedFrom(x, last, points, snap, client, i).0
    decreases |points| - i
  {
    hide Send, SendOk;
    if i < |points| {
      var (y, next) := WordStep(x, last, points, snap, client, i);
      var rest := ChangedOps(y, next, points, snap, client, i + 1);
      ChangedByOps(y, next, points, snap, client, i + 1);
      ChangedByStep(x, last, points, snap, client, i);
      if points[i] == OnChange && last[i] != Some(snap.readings[i]) {
        DoFirst(x, DoSend(snap.view, WordMsg(i, snap)), rest, client);
      } else {
        assert [] + rest == rest;
      }
    }
  }

  /** The outbox after the first k events of a batch, and the count of refusals. */
  lemma {:induction false} EventsByOps(x: Line, dropped: nat, snap: Snap, batch: Batch, client: Oracle, k: nat)
    requires k <= |batch.events|
    ensures EventsFrom(x, dropped, snap, batch, client, 0)
         == EventsFrom(DoAll(x, EventOps(snap, batch, k), client), dropped + Refusals(x, snap, batch, client, k),
             snap, batch, client, k)
  {
    hide Send, SendOk, EventsFrom, DoAll, EventOps;
    if k == 0 {
      NoEventOps(x, snap, batch, client);
    } else {
      EventsByOps(x, dropped, snap, batch, client, k - 1);
      var y := DoAll(x, EventOps(snap, batch, k - 1), client);
      EventsStep(y, dropped + Refusals(x, snap, batch, client, k - 1), snap, batch, client, k - 1);
      OneEventOp(x, snap, batch, client, k);
    }
  }

  lemma NoEventOps(x: Line, snap: Snap, batch: Batch, client: Oracle)
    ensures DoAll(x, EventOps(snap, batch, 0), client) == x
  {}

  lemma OneEventOp(x: Line, snap: Snap, batch: Batch, client: Oracle, k: nat)
    requires 0 < k <= |batch.events|
    ensures DoAll(x, EventOps(snap, batch, k), client)
         == Send(DoAll(x, EventOps(snap, batch, k - 1), client), snap.view, EventMsg(batch, k - 1), client)
  {
    hide Send;
    var ops, op := EventOps(snap, batch, k - 1), DoSend(snap.view, EventMsg(batch, k - 1));
    assert (ops + [op])[..|ops + [op]| - 1] == ops;
  }

  /** How many of the first k events the client refuses to the publisher's face. */
  function Refusals(x: Line, snap: Snap, batch: Batch, client: Oracle, k: nat): nat
    requires k <= |batch.events|
  {
    if k == 0 then 0 else
      Refusals(x, snap, batch, client, k - 1)
      + (if SendOk(DoAll(x, EventOps(snap, batch, k - 1), client), snap.view, EventMsg(batch, k - 1), client) then 0
          else 1)
  }

  lemma EventsAre(d: Desk, snap: Snap, batch: Batch, client: Oracle)
    ensures var next, n := PublishEvents(d, snap, batch, client), |batch.events|;
      && next.line == DoAll(d.line, EventOps(snap, batch, n), client)
      && next.dropped == d.dropped + Refusals(d.line, snap, batch, client, n)
  {
    hide DoAll, SendOk;
    EventsByOps(d.line, d.dropped, snap, batch, client, |batch.events|);
  }

  lemma StepByOps(w: World, points: seq<Class>, op: Wake, client: Oracle)
    requires DeskOk(w.desk, points) && FitsPoints(points, op)
    ensures Step(w, points, op, client).desk.line == DoAll(w.desk.line, StepOps(w, points, op, client), client)
  {
    hide Send, Backfill, CadenceOps, ChangedOps, EventOps, EventsFrom, CadenceFrom, ChangedFrom, Returned;
    match op
    case Backfills(snap) => OneOp(w.desk.line, DoBackfill(snap.view), client);
    case Cadence(snap) => CadenceByOps(w.desk.line, w.desk.lastPubS, points, snap, client, 0);
    case Changed(snap) =>
      var (x, returned) := Returned(w.desk.line, snap.view);
      var last := if w.connections != w.desk.publishedOn || returned then Forgot(|points|) else w.desk.lastWord;
      ChangedByOps(x, last, points, snap, client, 0);
      DoFirst(w.desk.line, DoReturned(snap.view), ChangedOps(x, last, points, snap, client, 0), client);
      OneOp(w.desk.line, DoReturned(snap.view), client);
    case Events(snap, batch) => EventsAre(w.desk, snap, batch, client);
    case Reconnect(retained) => OneOp(w.desk.line, DoReconnect(retained), client);
  }

  lemma OneOp(x: Line, op: BoxOp, client: Oracle)
    ensures DoAll(x, [op], client) == Do(x, op, client)
  {
    hide Do;
    assert [op][..0] == [];
    assert DoAll(x, [], client) == x;
  }

  /** Whatever the publisher does, wake after wake, its outbox goes through a history of
      sends, replays, returns and reconnects: every law of those holds of it. */
  lemma {:induction false} HistoryByOps(points: seq<Class>, ops: seq<Wake>, client: Oracle)
    requires forall op <- ops :: FitsPoints(points, op)
    ensures History(points, ops, client).desk.line == DoAll(FRESH, HistoryOps(points, ops, client), client)
  {
    hide Step, StepOps, Do;
    if ops != [] {
      var before, mid := HistoryOps(points, ops[..|ops| - 1], client), History(points, ops[..|ops| - 1], client);
      HistoryByOps(points, ops[..|ops| - 1], client);
      StepByOps(mid, points, ops[|ops| - 1], client);
      DoAllConcat(FRESH, before, StepOps(mid, points, ops[|ops| - 1], client), client);
    }
  }

  /** Conservation on the device: with any client, through any wakes and reconnects, every
      message the publisher ever sent is exactly once on the wire, in the store, or in one
      of the four named losses; and nothing born in a dropout went out retained. */
  lemma DeviceAccounted(points: seq<Class>, ops: seq<Wake>, client: Oracle, m: Message)
    requires forall op <- ops :: FitsPoints(points, op)
    ensures var x := History(points, ops, client).desk.line;
      && BoxOk(x.box)
      && multiset(Wire(x)) + multiset(x.box.store) + multiset(Of(x.log, Refused)) + multiset(Of(x.log, LostInReplay))
           + multiset(Of(x.log, Forgotten)) + multiset(Of(x.log, Cleared))
         == multiset(Entered(x.births))
      && (m.retain ==> multiset(Wire(x))[m] <= multiset(LiveBirths(x.births))[m])
  {
    hide History, HistoryOps, DoAll, Of, Entered, LiveBirths, Wire;
    HistoryByOps(points, ops, client);
    var boxOps := HistoryOps(points, ops, client);
    NothingLostSilently(boxOps, client);
    EveryMessageAccounted(boxOps, client);
    if m.retain { NothingDarkRetained(boxOps, client, m); }
    hide Conserved, BoxOk;
  }

  // ----- Events --------------------------------------------------------------------------------

  /** The first k events of a batch as they are handed over. */
  function EventBirths(batch: Batch, dark: bool, k: nat): (r: seq<Birth>)
    requires k <= |batch.events|
    ensures |r| == k && forall i :: 0 <= i < k ==> r[i] == Birth(EventMsg(batch, i), dark)
  {
    if k == 0 then [] else EventBirths(batch, dark, k - 1) + [Birth(EventMsg(batch, k - 1), dark)]
  }

  lemma SendBirths(x: Line, v: View, m: Message, client: Oracle)
    ensures Send(x, v, m, client).births == x.births + [Birth(m, v.offline)]
  {}

  lemma {:induction false} EventsBorn(x: Line, snap: Snap, batch: Batch, client: Oracle, k: nat)
    requires k <= |batch.events|
    ensures DoAll(x, EventOps(snap, batch, k), client).births == x.births + EventBirths(batch, snap.view.offline, k)
  {
    hide Send, DoAll, EventOps;
    if k == 0 {
      NoEventOps(x, snap, batch, client);
    } else {
      EventsBorn(x, snap, batch, client, k - 1);
      OneEventOp(x, snap, batch, client, k);
      SendBirths(DoAll(x, EventOps(snap, batch, k - 1), client), snap.view, EventMsg(batch, k - 1), client);
    }
  }

  /** Publishing a batch hands over each of its events once, in log order, numbered from
      the batch's first, whatever the client and the tap do. */
  lemma EventsOnceInOrder(d: Desk, snap: Snap, batch: Batch, client: Oracle)
    ensures PublishEvents(d, snap, batch, client).line.births
         == d.line.births + EventBirths(batch, snap.view.offline, |batch.events|)
  {
    hide PublishEvents, DoAll;
    EventsAre(d, snap, batch, client);
    EventsBorn(d.line, snap, batch, client, |batch.events|);
  }

  /** How many of a row of messages are events. */
  function EventsIn(msgs: seq<Message>): nat {
    if msgs == [] then 0 else EventsIn(msgs[..|msgs| - 1]) + (if msgs[|msgs| - 1].topic.EventTopic? then 1 else 0)
  }

  function RefusedEvents(log: seq<Left>): nat {
    EventsIn(Of(log, Refused))
  }

  lemma {:induction false} EventsConcat(a: seq<Message>, b: seq<Message>)
    ensures EventsIn(a + b) == EventsIn(a) + EventsIn(b)
  {
    if b == [] {
      assert a + b == a;
    } else {
      assert (a + b)[..|a + b| - 1] == a + b[..|b| - 1];
      EventsConcat(a, b[..|b| - 1]);
    }
  }

  lemma {:induction false} OfConcat(a: seq<Left>, b: seq<Left>, fate: Fate)
    ensures Of(a + b, fate) == Of(a, fate) + Of(b, fate)
  {
    if b == [] {
      assert a + b == a;
    } else {
      assert (a + b)[..|a + b| - 1] == a + b[..|b| - 1];
      OfConcat(a, b[..|b| - 1], fate);
    }
  }

  lemma {:induction false} NoneOf(log: seq<Left>, fate: Fate)
    requires forall l <- log :: l.fate != fate
    ensures Of(log, fate) == []
  {
    if log != [] { NoneOf(log[..|log| - 1], fate); }
  }

  lemma OneOf(l: Left, fate: Fate)
    ensures Of([l], fate) == if l.fate == fate then [l.msg] else []
  {
    assert [l][..0] == [];
    assert Of([], fate) == [];
  }

  lemma {:induction false} AllLeftFate(msgs: seq<Message>, fate: Fate)
    ensures forall l <- AllLeft(msgs, fate) :: l.fate == fate
  {
    if msgs != [] { AllLeftFate(msgs[..|msgs| - 1], fate); }
  }

  /** What a step adds to the history holds no live refusal. */
  predicate NoRefusal(x: Line, y: Line) {
    |x.log| <= |y.log| && y.log[..|x.log|] == x.log && forall k :: |x.log| <= k < |y.log| ==> y.log[k].fate != Refused
  }

  lemma NoRefusalCounts(x: Line, y: Line)
    requires NoRefusal(x, y)
    ensures Of(y.log, Refused) == Of(x.log, Refused)
  {
    var added := y.log[|x.log|..];
    assert y.log == x.log + added;
    OfConcat(x.log, added, Refused);
    NoneOf(added, Refused);
  }

  lemma ObserveRefuses(x: Line, v: View)
    ensures NoRefusal(x, Observe(x, v))
  {
    AllLeftFate(x.box.store, Cleared);
    var all := AllLeft(x.box.store, Cleared);
    assert forall k :: 0 <= k < |all| ==> all[k] in all;
  }

  lemma NoRefusalTrans(x: Line, y: Line, z: Line)
    requires NoRefusal(x, y) && NoRefusal(y, z)
    ensures NoRefusal(x, z)
  {
    assert z.log[..|x.log|] == z.log[..|y.log|][..|x.log|];
    forall k | |x.log| <= k < |y.log|
      ensures z.log[k].fate != Refused
    {
      assert z.log[..|y.log|][k] == z.log[k];
    }
  }

  /** A send adds a live refusal exactly when it reports failure: that message. */
  lemma SendRefuses(x: Line, v: View, m: Message, client: Oracle)
    ensures Of(Send(x, v, m, client).log, Refused)
         == Of(x.log, Refused) + (if SendOk(x, v, m, client) then [] else [m])
  {
    hide Of;
    var y := Observe(x, v);
    ObserveRefuses(x, v);
    NoRefusalCounts(x, y);
    if v.offline || y.box.replaying {
      KeepRefuses(Born(x, v, m), if v.offline then Dim(m) else m);
      NoRefusalCounts(Born(x, v, m), Send(x, v, m, client));
    } else {
      var l := Left(m, if client(y.attempts, m) then Accepted else Refused);
      OfConcat(y.log, [l], Refused);
      OneOf(l, Refused);
    }
  }

  lemma KeepRefuses(x: Line, m: Message)
    ensures NoRefusal(x, Keep(x, m))
  {}

  lemma {:induction false} DrainRefuses(x: Line, client: Oracle, n: nat)
    ensures NoRefusal(x, Drain(x, client, n))
    decreases n
  {
    hide NoRefusal;
    if n == 0 || x.box.store == [] {
      Unmoved(x, Drain(x, client, n));
    } else {
      var m := x.box.store[0];
      var y := Publish(x.(box := x.box.(store := x.box.store[1..])), m, client, LostInReplay);
      OneMore(x, y);
      if client(x.attempts, m) {
        DrainRefuses(y, client, n - 1);
        NoRefusalTrans(x, y, Drain(y, client, n - 1));
      }
    }
  }

  lemma Unmoved(x: Line, y: Line)
    requires y.log == x.log
    ensures NoRefusal(x, y)
  {}

  lemma OneMore(x: Line, y: Line)
    requires |y.log| == |x.log| + 1 && y.log[..|x.log|] == x.log && y.log[|x.log|].fate != Refused
    ensures NoRefusal(x, y)
  {}

  lemma BackfillRefuses(x: Line, v: View, client: Oracle)
    ensures NoRefusal(x, Backfill(x, v, client))
  {
    hide NoRefusal, Drain;
    var y := Observe(x, v);
    ObserveRefuses(x, v);
    if !v.offline {
      var due := FirstNew(v.due, y.box.replayed);
      var begun := if !y.box.replaying && due.Some? then Begin(y, due.value) else y;
      Unmoved(y, begun);
      DrainRefuses(begun, client, BURST);
      NoRefusalTrans(x, y, begun);
      NoRefusalTrans(x, begun, Drain(begun, client, BURST));
    }
  }

  /** How many events a row of operations hands over. */
  function SentEvents(ops: seq<BoxOp>): nat {
    if ops == [] then 0 else
      SentEvents(ops[..|ops| - 1]) + (if ops[|ops| - 1].DoSend? && ops[|ops| - 1].msg.topic.EventTopic? then 1 else 0)
  }

  lemma {:induction false} SentConcat(a: seq<BoxOp>, b: seq<BoxOp>)
    ensures SentEvents(a + b) == SentEvents(a) + SentEvents(b)
  {
    if b == [] {
      assert a + b == a;
    } else {
      assert (a + b)[..|a + b| - 1] == a + b[..|b| - 1];
      SentConcat(a, b[..|b| - 1]);
    }
  }

  lemma SentOne(op: BoxOp)
    ensures SentEvents([op]) == if op.DoSend? && op.msg.topic.EventTopic? then 1 else 0
  {
    assert [op][..0] == [];
    assert SentEvents([]) == 0;
  }

  lemma NothingSent()
    ensures SentEvents([]) == 0
  {}

  lemma {:induction false} CadenceSends(x: Line, last: seq<Option<int>>, points: seq<Class>, snap: Snap,
      client: Oracle, i: nat)
    requires |last| == 3 && |snap.readings| == |points| && i <= |points|
    ensures SentEvents(CadenceOps(x, last, points, snap, client, i)) == 0
    decreases |points| - i
  {
    hide Send, SendOk;
    if i < |points| {
      if CadenceDue(last, points[i], snap.simS) {
        var m := CadenceMsg(i, snap);
        var y := Send(x, snap.view, m, client);
        CadenceSends(y, last, points, snap, client, i + 1);
        SentOne(DoSend(snap.view, m));
        SentConcat([DoSend(snap.view, m)], if SendOk(x, snap.view, m, client)
            then CadenceOps(y, last, points, snap, client, i + 1) else []);
      } else {
        CadenceSends(x, last, points, snap, client, i + 1);
      }
    }
  }

  lemma {:induction false} ChangedSends(x: Line, last: seq<Option<real>>, points: seq<Class>, snap: Snap,
      client: Oracle, i: nat)
    requires |last| == |points| == |snap.readings| && i <= |points|
    ensures SentEvents(ChangedOps(x, last, points, snap, client, i)) == 0
    decreases |points| - i
  {
    hide WordStep, SentEvents;
    if i == |points| {
      NothingSent();
    } else {
      var (y, next) := WordStep(x, last, points, snap, client, i);
      var rest := ChangedOps(y, next, points, snap, client, i + 1);
      ChangedSends(y, next, points, snap, client, i + 1);
      var first := if points[i] == OnChange && last[i] != Some(snap.readings[i])
          then [DoSend(snap.view, WordMsg(i, snap))] else [];
      NothingSent();
      SentOne(DoSend(snap.view, WordMsg(i, snap)));
      SentConcat(first, rest);
    }
  }

  lemma {:induction false} BatchSends(snap: Snap, batch: Batch, k: nat)
    requires k <= |batch.events|
    ensures SentEvents(EventOps(snap, batch, k)) == k
  {
    if k > 0 {
      BatchSends(snap, batch, k - 1);
      SentConcat(EventOps(snap, batch, k - 1), [DoSend(snap.view, EventMsg(batch, k - 1))]);
      SentOne(DoSend(snap.view, EventMsg(batch, k - 1)));
    }
  }

  function EventsOf(op: Wake): nat {
    if op.Events? then |op.batch.events| else 0
  }

  lemma StepSends(w: World, points: seq<Class>, op: Wake, client: Oracle)
    requires DeskOk(w.desk, points) && FitsPoints(points, op)
    ensures SentEvents(StepOps(w, points, op, client)) == EventsOf(op)
  {
    hide CadenceOps, ChangedOps, EventOps, Returned, SentEvents;
    match op
    case Backfills(snap) => SentOne(DoBackfill(snap.view));
    case Cadence(snap) => CadenceSends(w.desk.line, w.desk.lastPubS, points, snap, client, 0);
    case Changed(snap) =>
      var (x, returned) := Returned(w.desk.line, snap.view);
      var last := if w.connections != w.desk.publishedOn || returned then Forgot(|points|) else w.desk.lastWord;
      ChangedSends(x, last, points, snap, client, 0);
      SentOne(DoReturned(snap.view));
      SentConcat([DoReturned(snap.view)], ChangedOps(x, last, points, snap, client, 0));
    case Events(snap, batch) => BatchSends(snap, batch, |batch.events|);
    case Reconnect(retained) => SentOne(DoReconnect(retained));
  }

  /** What one operation does to the two counts: it hands an event over, and it may see it
      refused to its face. */
  lemma DoCounts(x: Line, op: BoxOp, client: Oracle)
    ensures EventsIn(Entered(Do(x, op, client).births)) == EventsIn(Entered(x.births)) + SentEvents([op])
    ensures SentEvents([op]) == 0 ==> RefusedEvents(Do(x, op, client).log) == RefusedEvents(x.log)
  {
    hide Entered, EventsIn, Of, SentEvents, Send, Backfill, Observe;
    SentOne(op);
    match op
    case DoReturned(v) =>
      ObserveRefuses(x, v);
      NoRefusalCounts(x, Observe(x, v));
      ObserveBirths(x, v);
    case DoSend(v, m) =>
      SendBirths(x, v, m, client);
      SendRefuses(x, v, m, client);
      EnteredConcat(x.births, [Birth(m, v.offline)]);
      OneBorn(Birth(m, v.offline));
      var entered := if v.offline then Dim(m) else m;
      EventsConcat(Entered(x.births), [entered]);
      OneEvent(entered);
      EventsConcat(Of(x.log, Refused), [m]);
      EventsConcat(Of(x.log, Refused), []);
      OneEvent(m);
    case DoBackfill(v) =>
      BackfillRefuses(x, v, client);
      NoRefusalCounts(x, Backfill(x, v, client));
      BackfillBirths(x, v, client);
    case DoReconnect(retained) =>
  }

  lemma OneEvent(m: Message)
    ensures EventsIn([m]) == (if m.topic.EventTopic? then 1 else 0) && EventsIn([]) == 0
  {
    assert [m][..0] == [];
  }

  lemma ObserveBirths(x: Line, v: View)
    ensures Observe(x, v).births == x.births
  {}

  lemma {:induction false} DrainBirths(x: Line, client: Oracle, n: nat)
    ensures Drain(x, client, n).births == x.births
    decreases n
  {
    if n > 0 && x.box.store != [] && client(x.attempts, x.box.store[0]) {
      DrainBirths(Publish(x.(box := x.box.(store := x.box.store[1..])), x.box.store[0], client, LostInReplay),
          client, n - 1);
    }
  }

  lemma BackfillBirths(x: Line, v: View, client: Oracle)
    ensures Backfill(x, v, client).births == x.births
  {
    hide Drain;
    var y := Observe(x, v);
    if FirstNew(v.due, y.box.replayed).Some? {
      DrainBirths(Begin(y, FirstNew(v.due, y.box.replayed).value), client, BURST);
    }
    DrainBirths(y, client, BURST);
  }

  lemma {:induction false} DoAllCounts(x: Line, ops: seq<BoxOp>, client: Oracle)
    ensures EventsIn(Entered(DoAll(x, ops, client).births)) == EventsIn(Entered(x.births)) + SentEvents(ops)
    ensures SentEvents(ops) == 0 ==> RefusedEvents(DoAll(x, ops, client).log) == RefusedEvents(x.log)
  {
    hide Do, Entered, EventsIn, Of;
    if ops != [] {
      var init, op := ops[..|ops| - 1], ops[|ops| - 1];
      DoAllCounts(x, init, client);
      DoCounts(DoAll(x, init, client), op, client);
      SentOne(op);
    }
  }

  /** The refusals of a batch are what it adds to the events refused to the sender's face. */
  lemma {:induction false} RefusalsAre(x: Line, snap: Snap, batch: Batch, client: Oracle, k: nat)
    requires k <= |batch.events|
    ensures RefusedEvents(DoAll(x, EventOps(snap, batch, k), client).log)
        == RefusedEvents(x.log) + Refusals(x, snap, batch, client, k)
  {
    hide Send, SendOk, EventsIn, Of, DoAll, EventOps;
    if k == 0 {
      NoEventOps(x, snap, batch, client);
    } else {
      RefusalsAre(x, snap, batch, client, k - 1);
      OneEventOp(x, snap, batch, client, k);
      var y, m := DoAll(x, EventOps(snap, batch, k - 1), client), EventMsg(batch, k - 1);
      SendRefuses(y, snap.view, m, client);
      EventsConcat(Of(y.log, Refused), [m]);
      EventsConcat(Of(y.log, Refused), []);
      OneEvent(m);
    }
  }

  /** Over every history the dropped count is exactly the number of events the client
      refused to the publisher's face. */
  lemma {:induction false} DroppedCounts(points: seq<Class>, ops: seq<Wake>, client: Oracle)
    requires forall op <- ops :: FitsPoints(points, op)
    ensures var d := History(points, ops, client).desk; d.dropped == RefusedEvents(d.line.log)
  {
    hide EventsIn, Of, DoAll, StepOps, PublishEvents;
    if ops == [] {
      NothingRefused();
    } else {
      var mid, op := History(points, ops[..|ops| - 1], client), ops[|ops| - 1];
      DroppedCounts(points, ops[..|ops| - 1], client);
      StepByOps(mid, points, op, client);
      StepSends(mid, points, op, client);
      if op.Events? {
        EventsAre(mid.desk, op.snap, op.batch, client);
        RefusalsAre(mid.desk.line, op.snap, op.batch, client, |op.batch.events|);
      } else {
        DoAllCounts(mid.desk.line, StepOps(mid, points, op, client), client);
        DroppedKept(mid, points, op, client);
      }
      hide Step, History;
    }
  }

  lemma NothingRefused()
    ensures RefusedEvents([]) == 0 && EventsIn(Entered([])) == 0
  {}

  lemma DroppedKept(w: World, points: seq<Class>, op: Wake, client: Oracle)
    requires DeskOk(w.desk, points) && FitsPoints(points, op) && !op.Events?
    ensures Step(w, points, op, client).desk.dropped == w.desk.dropped
  {
    hide CadenceFrom, ChangedFrom, Returned, Backfill;
  }

  /** The events a history handed to the publisher. */
  function Handed(ops: seq<Wake>): nat {
    if ops == [] then 0 else Handed(ops[..|ops| - 1]) + EventsOf(ops[|ops| - 1])
  }

  lemma {:induction false} HandedAre(points: seq<Class>, ops: seq<Wake>, client: Oracle)
    requires forall op <- ops :: FitsPoints(points, op)
    ensures EventsIn(Entered(History(points, ops, client).desk.line.births)) == Handed(ops)
  {
    hide EventsIn, Entered, DoAll, StepOps, Step;
    if ops == [] {
      NothingRefused();
    } else {
      var mid, op := History(points, ops[..|ops| - 1], client), ops[|ops| - 1];
      HandedAre(points, ops[..|ops| - 1], client);
      StepByOps(mid, points, op, client);
      StepSends(mid, points, op, client);
      DoAllCounts(mid.desk.line, StepOps(mid, points, op, client), client);
    }
  }

  lemma {:induction false} CountPerm(a: seq<Message>, b: seq<Message>)
    requires multiset(a) == multiset(b)
    ensures EventsIn(a) == EventsIn(b)
  {
    if a == [] {
      assert |b| == |multiset(b)| == |multiset(a)|;
    } else {
      var init, m := a[..|a| - 1], a[|a| - 1];
      assert a == init + [m];
      assert m in multiset(b);
      var k :| 0 <= k < |b| && b[k] == m;
      var front, back := b[..k], b[k + 1..];
      assert b == front + [m] + back;
      DropSame(init, m, front, back);
      CountPerm(init, front + back);
      hide EventsIn;
      EventsConcat(init, [m]);
      EventsConcat(front, back);
      EventsConcat(front + [m], back);
      EventsConcat(front, [m]);
    }
  }

  lemma DropSame(a: seq<Message>, m: Message, x: seq<Message>, y: seq<Message>)
    requires multiset(a + [m]) == multiset(x + [m] + y)
    ensures multiset(a) == multiset(x + y)
  {
    assert multiset(a + [m]) == multiset(a) + multiset{m};
    assert multiset(x + [m] + y) == multiset(x) + multiset{m} + multiset(y);
    assert multiset(x + y) == multiset(x) + multiset(y);
    Cancels(multiset(a), m, multiset(x), multiset(y));
  }

  lemma Cancels(a: multiset<Message>, m: Message, x: multiset<Message>, y: multiset<Message>)
    requires a + multiset{m} == x + multiset{m} + y
    ensures a == x + y
  {
    forall z
      ensures a[z] == (x + y)[z]
    {
      assert (a + multiset{m})[z] == (x + multiset{m} + y)[z];
    }
  }

  /** Events of one fate. */
  function Fated(x: Line, fate: Fate): nat {
    EventsIn(Of(x.log, fate))
  }

  /** Every event handed over is on the wire, waits, was counted as dropped, or was lost
      without being counted: out of a replay, to a full store, to a new dropout. So the
      count is that of all lost events exactly when none was lost in those three ways. */
  lemma EventsAccounted(points: seq<Class>, ops: seq<Wake>, client: Oracle)
    requires forall op <- ops :: FitsPoints(points, op)
    ensures var d := History(points, ops, client).desk;
      Handed(ops) == EventsIn(Wire(d.line)) + EventsIn(d.line.box.store) + d.dropped
        + Fated(d.line, LostInReplay) + Fated(d.line, Forgotten) + Fated(d.line, Cleared)
    ensures var d := History(points, ops, client).desk;
      d.dropped == Handed(ops) - EventsIn(Wire(d.line)) - EventsIn(d.line.box.store)
      <==> Fated(d.line, LostInReplay) == Fated(d.line, Forgotten) == Fated(d.line, Cleared) == 0
  {
    hide History, EventsIn, Of, Handed;
    var d := History(points, ops, client).desk;
    DeviceAccounted(points, ops, client, CadenceMsg(0, Snap(View(false, []), 0, 0, [0.0])));
    DroppedCounts(points, ops, client);
    HandedAre(points, ops, client);
    SixRows(d.line, Entered(d.line.births));
  }

  lemma SixRows(x: Line, entered: seq<Message>)
    requires multiset(Wire(x)) + multiset(x.box.store) + multiset(Of(x.log, Refused))
        + multiset(Of(x.log, LostInReplay))
           + multiset(Of(x.log, Forgotten)) + multiset(Of(x.log, Cleared)) == multiset(entered)
    ensures EventsIn(entered) == EventsIn(Wire(x)) + EventsIn(x.box.store) + Fated(x, Refused)
        + Fated(x, LostInReplay) + Fated(x, Forgotten) + Fated(x, Cleared)
  {
    hide EventsIn, Of, Wire;
    var a, b, c := Wire(x) + x.box.store, Of(x.log, Refused) + Of(x.log, LostInReplay),
        Of(x.log, Forgotten) + Of(x.log, Cleared);
    CountPerm(a + b + c, entered);
    EventsConcat(a + b, c);
    EventsConcat(a, b);
    EventsConcat(Wire(x), x.box.store);
    EventsConcat(Of(x.log, Refused), Of(x.log, LostInReplay));
    EventsConcat(Of(x.log, Forgotten), Of(x.log, Cleared));
  }

  const ALARM := FaultApplied(FaultAction.ProtectionTrip)

  /** An event in a dropout, then a burst whose first message the client refuses. */
  const LOSES_EVENT := [
    Events(Snap(View(true, []), 0, 0, []), Batch(0, 0, [ALARM])), Backfills(Snap(View(false, [0]), 0, 0, []))]

  function Nobody(n: nat, m: Message): bool { false }

  /** A lost event need not be counted: this one is neither on the wire nor waiting, and
      the dropped count stands at zero. */
  lemma LostEventUncounted()
    ensures forall op <- LOSES_EVENT :: FitsPoints([], op)
    ensures var d := History([], LOSES_EVENT, Nobody).desk;
      Handed(LOSES_EVENT) == 1 && EventsIn(Wire(d.line)) == 0 && d.line.box.store == [] && d.dropped == 0
  {
    var a, b := LOSES_EVENT[0], LOSES_EVENT[1];
    assert LOSES_EVENT[..1] == [a] && [a][..0] == [];
    DarkEvent();
    assert History([], [], Nobody) == Start([]);
    RefusedEvent(History([], [a], Nobody));
    assert Handed([]) == 0 && Handed([a]) == 1;
    hide Step;
  }

  predicate HasOne(w: World, store: seq<Message>, log: seq<Left>) {
    && w.desk.dropped == 0 && w.desk.line.log == log
    && w.desk.line.box == Box(store, store != [], store == [], if store == [] then [0] else [], store == [], 0)
    && |w.desk.lastPubS| == 3 && w.desk.lastWord == []
  }

  const LOST := Message(EventTopic(ALARM), EventPayload(0, 0, ALARM), AtLeastOnce, false)

  lemma DarkEvent()
    ensures HasOne(Step(Start([]), [], LOSES_EVENT[0], Nobody), [LOST], [])
  {
    var snap, batch := Snap(View(true, []), 0, 0, []), Batch(0, 0, [ALARM]);
    assert EventMsg(batch, 0) == LOST && Dim(LOST) == LOST;
    var x := Send(FRESH, snap.view, LOST, Nobody);
    assert AllLeft([], Cleared) == [];
    assert x.box == Box([LOST], true, false, [], false, 0) && x.log == [];
    assert EventsFrom(x, 0, snap, batch, Nobody, 1) == (x, 0);
    assert EventsFrom(FRESH, 0, snap, batch, Nobody, 0) == (x, 0);
  }

  lemma RefusedEvent(w: World)
    requires HasOne(w, [LOST], [])
    ensures HasOne(Step(w, [], LOSES_EVENT[1], Nobody), [], [Left(LOST, LostInReplay)])
    ensures EventsIn(Wire(Step(w, [], LOSES_EVENT[1], Nobody).desk.line)) == 0
  {
    var x, v := w.desk.line, View(false, [0]);
    var y := Begin(Observe(x, v), 0);
    assert FirstNew([0], []) == Some(0);
    assert [LOST][1..] == [];
    var z := Drain(y, Nobody, BURST);
    assert z.box == Box([], false, true, [0], true, 0) && z.log == [Left(LOST, LostInReplay)];
    assert Backfill(x, v, Nobody) == z;
    OneOf(Left(LOST, LostInReplay), Accepted);
  }

  // ----- Without a dropout every loss is counted --------------------------------------------------

  /** An outbox no dropout has touched: nothing stored, nothing lost but to the sender's
      face. */
  predicate Bright(x: Line) {
    && x.box.store == [] && !x.box.offline && !x.box.replaying
    && forall l <- x.log :: l.fate == Accepted || l.fate == Refused
  }

  predicate OnlineOp(op: BoxOp) {
    op.DoReconnect? || !op.view.offline
  }

  lemma DoBright(x: Line, op: BoxOp, client: Oracle)
    requires Bright(x) && OnlineOp(op)
    ensures Bright(Do(x, op, client))
  {}

  lemma {:induction false} DoAllBright(x: Line, ops: seq<BoxOp>, client: Oracle)
    requires Bright(x) && forall op <- ops :: OnlineOp(op)
    ensures Bright(DoAll(x, ops, client))
  {
    hide Do, Bright, OnlineOp;
    if ops != [] {
      assert ops[|ops| - 1] in ops && forall op <- ops[..|ops| - 1] :: op in ops;
      DoAllBright(x, ops[..|ops| - 1], client);
      DoBright(DoAll(x, ops[..|ops| - 1], client), ops[|ops| - 1], client);
    }
  }

  lemma {:induction false} CadenceOnline(x: Line, last: seq<Option<int>>, points: seq<Class>, snap: Snap,
      client: Oracle, i: nat)
    requires |last| == 3 && |snap.readings| == |points| && i <= |points| && !snap.view.offline
    ensures forall op <- CadenceOps(x, last, points, snap, client, i) :: OnlineOp(op)
    decreases |points| - i
  {
    hide Send, SendOk;
    if i < |points| {
      CadenceOnline(x, last, points, snap, client, i + 1);
      CadenceOnline(Send(x, snap.view, CadenceMsg(i, snap), client), last, points, snap, client, i + 1);
    }
  }

  lemma {:induction false} ChangedOnline(x: Line, last: seq<Option<real>>, points: seq<Class>, snap: Snap,
      client: Oracle, i: nat)
    requires |last| == |points| == |snap.readings| && i <= |points| && !snap.view.offline
    ensures forall op <- ChangedOps(x, last, points, snap, client, i) :: OnlineOp(op)
    decreases |points| - i
  {
    hide WordStep;
    if i < |points| {
      var (y, next) := WordStep(x, last, points, snap, client, i);
      ChangedOnline(y, next, points, snap, client, i + 1);
    }
  }

  lemma {:induction false} BatchOnline(snap: Snap, batch: Batch, k: nat)
    requires k <= |batch.events| && !snap.view.offline
    ensures forall op <- EventOps(snap, batch, k) :: OnlineOp(op)
  {
    if k > 0 { BatchOnline(snap, batch, k - 1); }
  }

  predicate OnlineWake(op: Wake) {
    op.Reconnect? || !op.snap.view.offline
  }

  lemma StepOnline(w: World, points: seq<Class>, op: Wake, client: Oracle)
    requires DeskOk(w.desk, points) && FitsPoints(points, op) && OnlineWake(op)
    ensures forall o <- StepOps(w, points, op, client) :: OnlineOp(o)
  {
    hide CadenceOps, ChangedOps, EventOps, Returned;
    match op
    case Backfills(snap) =>
    case Cadence(snap) => CadenceOnline(w.desk.line, w.desk.lastPubS, points, snap, client, 0);
    case Changed(snap) =>
      var (x, returned) := Returned(w.desk.line, snap.view);
      var last := if w.connections != w.desk.publishedOn || returned then Forgot(|points|) else w.desk.lastWord;
      ChangedOnline(x, last, points, snap, client, 0);
    case Events(snap, batch) => BatchOnline(snap, batch, |batch.events|);
    case Reconnect(_) =>
  }

  lemma {:induction false} HistoryBright(points: seq<Class>, ops: seq<Wake>, client: Oracle)
    requires (forall op <- ops :: FitsPoints(points, op)) && forall op <- ops :: OnlineWake(op)
    ensures Bright(History(points, ops, client).desk.line)
  {
    hide Bright, Step, StepOps, DoAll, OnlineOp;
    if ops == [] {
      FreshBright();
    } else {
      assert forall op <- ops[..|ops| - 1] :: op in ops;
      var mid, op := History(points, ops[..|ops| - 1], client), ops[|ops| - 1];
      HistoryBright(points, ops[..|ops| - 1], client);
      StepOnline(mid, points, op, client);
      StepByOps(mid, points, op, client);
      DoAllBright(mid.desk.line, StepOps(mid, points, op, client), client);
    }
  }

  lemma FreshBright()
    ensures Bright(FRESH)
  {}

  /** As long as no dropout opens, every event not on the wire was counted as dropped. */
  lemma BrightCountsAll(points: seq<Class>, ops: seq<Wake>, client: Oracle)
    requires (forall op <- ops :: FitsPoints(points, op)) && forall op <- ops :: OnlineWake(op)
    ensures var d := History(points, ops, client).desk; Handed(ops) == EventsIn(Wire(d.line)) + d.dropped
  {
    hide History, Handed, Of, Wire, OnlineWake;
    var x := History(points, ops, client).desk.line;
    HistoryBright(points, ops, client);
    EventsAccounted(points, ops, client);
    NoneOf(x.log, LostInReplay);
    NoneOf(x.log, Forgotten);
    NoneOf(x.log, Cleared);
    assert EventsIn([]) == 0;
  }
}
