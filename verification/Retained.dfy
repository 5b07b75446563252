/** The broker's retained words: when they agree with the plant, over every history of
    wakes, dropouts, replays, refusals and reconnects. */
module RetainedLaws {
  import opened Wrappers
  import opened Outboxes
  import opened Publishers
  import opened DeliveryLaws
  import opened BrokerLaws

  // ----- What the broker is owed -----------------------------------------------------------------

  /** The newest word of point i still in the store. */
  function Waiting(store: seq<Message>, i: nat): (r: Option<Message>)
    ensures r.Some? ==> r.value in store && IsWord(r.value, i)
  {
    if store == [] then None
    else if IsWord(store[|store| - 1], i) then Some(store[|store| - 1])
    else Waiting(store[..|store| - 1], i)
  }

  /** The newest word of point i that has left, and how. */
  function Newest(log: seq<Left>, i: nat): Option<Left> {
    if log == [] then None
    else if IsWord(log[|log| - 1].msg, i) then Some(log[|log| - 1])
    else Newest(log[..|log| - 1], i)
  }

  predicate Reads(m: Message, v: real) {
    m.payload.PointPayload? && m.payload.value == v
  }

  /** The last word of point i on its way or gone: if it waits it says `v`; if it left, no
      dropout cleared it, and if the client took it the broker retains `v`. */
  predicate Owed(x: Line, i: nat, v: real) {
    match Waiting(x.box.store, i)
    case Some(m) => Reads(m, v)
    case None =>
      var l := Newest(x.log, i);
      && l.Some? && l.value.fate != Cleared
      && (l.value.fate == Accepted ==>
            PointTopic(i) in x.broker && x.broker[PointTopic(i)] == l.value.msg.payload && Reads(l.value.msg, v))
  }

  /** The device believes itself online, on the connection it last published on. */
  predicate Settled(w: World) {
    w.connections == w.desk.publishedOn && !w.desk.line.box.offline && !w.desk.line.box.returned
  }

  predicate WordHolds(w: World, i: nat)
    requires i < |w.desk.lastWord|
  {
    Settled(w) && w.desk.lastWord[i].Some? ==> Owed(w.desk.line, i, w.desk.lastWord[i].value)
  }

  predicate WorldOk(w: World) {
    BoxOk(w.desk.line.box) && w.desk.publishedOn <= w.connections
  }

  // ----- Steps of the outbox ------------------------------------------------------------------------

  lemma {:induction false} WaitingAfter(store: seq<Message>, m: Message, i: nat)
    ensures Waiting(store + [m], i) == if IsWord(m, i) then Some(m) else Waiting(store, i)
  {
    assert (store + [m])[..|store + [m]| - 1] == store;
  }

  lemma {:induction false} WaitingBehind(store: seq<Message>, i: nat)
    requires store != []
    ensures Waiting(store, i)
         == if Waiting(store[1..], i).Some? then Waiting(store[1..], i)
            else if IsWord(store[0], i) then Some(store[0]) else None
  {
    if |store| > 1 {
      WaitingBehind(store[..|store| - 1], i);
      assert store[1..][..|store[1..]| - 1] == store[..|store| - 1][1..];
    }
  }

  lemma NewestAfter(log: seq<Left>, l: Left, i: nat)
    ensures Newest(log + [l], i) == if IsWord(l.msg, i) then Some(l) else Newest(log, i)
  {
    assert (log + [l])[..|log + [l]| - 1] == log;
  }

  lemma NoWordWaits(store: seq<Message>, i: nat)
    requires forall m <- store :: !m.retain
    ensures Waiting(store, i) == None
  {}

  /** The front of the store leaving, accepted, refused or forgotten, breaks no promise. */
  lemma PopOwed(x: Line, y: Line, fate: Fate, i: nat, v: real)
    requires x.box.store != [] && y.box.store == x.box.store[1..] && fate != Cleared
    requires y.log == x.log + [Left(x.box.store[0], fate)]
    requires y.broker == if fate == Accepted && x.box.store[0].retain
      then x.broker[x.box.store[0].topic := x.box.store[0].payload] else x.broker
    requires Owed(x, i, v)
    ensures Owed(y, i, v)
  {
    WaitingBehind(x.box.store, i);
    NewestAfter(x.log, Left(x.box.store[0], fate), i);
    hide Waiting, Newest;
  }

  lemma PushOwed(x: Line, y: Line, m: Message, i: nat, v: real)
    requires y.box.store == x.box.store + [m] && y.log == x.log && y.broker == x.broker
    requires if IsWord(m, i) then Reads(m, v) else Owed(x, i, v)
    ensures Owed(y, i, v)
  {
    WaitingAfter(x.box.store, m, i);
    hide Waiting, Newest;
  }

  lemma KeepOwed(x: Line, m: Message, i: nat, v: real)
    requires if IsWord(m, i) then Reads(m, v) else Owed(x, i, v)
    ensures Owed(Keep(x, m), i, v)
  {
    hide Owed;
    if |x.box.store| == STORE {
      var mid := x.(box := x.box.(store := x.box.store[1..], forgotten := x.box.forgotten + 1),
                    log := x.log + [Left(x.box.store[0], Forgotten)]);
      if !IsWord(m, i) { PopOwed(x, mid, Forgotten, i, v); }
      PushOwed(mid, Keep(x, m), m, i, v);
    } else {
      PushOwed(x, Keep(x, m), m, i, v);
    }
  }

  lemma PublishOwed(x: Line, m: Message, client: Oracle, i: nat, v: real)
    requires BoxOk(x.box) && !x.box.replaying
    requires if IsWord(m, i) && client(x.attempts, m) then Reads(m, v) else !IsWord(m, i) ==> Owed(x, i, v)
    ensures Owed(Publish(x, m, client, Refused), i, v)
  {
    NoWordWaits(x.box.store, i);
    NewestAfter(x.log, Left(m, if client(x.attempts, m) then Accepted else Refused), i);
    hide Waiting, Newest;
  }

  /** One send on a settled, online device. `v` is what the cache will say of point i. */
  lemma SendOwed(x: Line, view: View, m: Message, client: Oracle, i: nat, v: real)
    requires BoxOk(x.box) && !x.box.offline && !view.offline
    requires if IsWord(m, i) then Reads(m, v) || !SendOk(x, view, m, client) else Owed(x, i, v)
    ensures Owed(Send(x, view, m, client), i, v)
  {
    hide Owed;
    var y := Born(x, view, m);
    if y.box.replaying {
      if !IsWord(m, i) { SameOwed(x, y, i, v); }
      KeepOwed(y, m, i, v);
    } else {
      if !IsWord(m, i) { SameOwed(x, y, i, v); }
      PublishOwed(y, m, client, i, v);
    }
  }

  lemma SameOwed(x: Line, y: Line, i: nat, v: real)
    requires y.box.store == x.box.store && y.log == x.log && y.broker == x.broker
    ensures Owed(x, i, v) <==> Owed(y, i, v)
  {
    hide Waiting, Newest;
  }

  lemma {:induction false} DrainOwed(x: Line, client: Oracle, n: nat, i: nat, v: real)
    requires Owed(x, i, v)
    ensures Owed(Drain(x, client, n), i, v)
    decreases n
  {
    hide Owed;
    if n > 0 {
      if x.box.store == [] {
        SameOwed(x, Drain(x, client, n), i, v);
      } else {
        var m := x.box.store[0];
        var y := Publish(x.(box := x.box.(store := x.box.store[1..])), m, client, LostInReplay);
        PopOwed(x, y, if client(x.attempts, m) then Accepted else LostInReplay, i, v);
        if client(x.attempts, m) { DrainOwed(y, client, n - 1, i, v); }
      }
    }
  }

  // ----- Steps of the publisher --------------------------------------------------------------------

  predicate Up(x: Line) {
    !x.box.offline && !x.box.returned
  }

  /** The promise about point i, as long as the device believes itself online. */
  predicate Kept(x: Line, i: nat, word: Option<real>) {
    Up(x) && word.Some? ==> Owed(x, i, word.value)
  }

  lemma ObserveKept(x: Line, v: View, i: nat, word: Option<real>)
    requires Kept(x, i, word)
    ensures Kept(Observe(x, v), i, word)
    ensures Up(Observe(x, v)) ==> Observe(x, v) == x && !v.offline
  {
    hide Owed;
  }

  lemma SendKept(x: Line, view: View, m: Message, client: Oracle, i: nat, word: Option<real>)
    requires BoxOk(x.box) && Kept(x, i, word)
    requires IsWord(m, i) ==> (word.Some? && Reads(m, word.value)) || !SendOk(x, view, m, client)
    ensures BoxOk(Send(x, view, m, client).box) && Kept(Send(x, view, m, client), i, word)
    ensures Up(Send(x, view, m, client)) ==> Up(x) && !view.offline
  {
    SendShape(x, view, m, client);
    hide Owed, BoxOk;
    if Up(Send(x, view, m, client)) && word.Some? {
      SendOwed(x, view, m, client, i, word.value);
    }
  }

  /** A word just sent settles what is owed of its point, whatever was owed before. */
  lemma SendRenews(x: Line, view: View, m: Message, client: Oracle, i: nat, v: real)
    requires BoxOk(x.box) && IsWord(m, i) && Reads(m, v)
    ensures BoxOk(Send(x, view, m, client).box) && Kept(Send(x, view, m, client), i, Some(v))
  {
    SendShape(x, view, m, client);
    hide Owed, BoxOk;
    if Up(Send(x, view, m, client)) {
      SendOwed(x, view, m, client, i, v);
    }
  }

  lemma SendShape(x: Line, view: View, m: Message, client: Oracle)
    requires BoxOk(x.box)
    ensures BoxOk(Send(x, view, m, client).box)
    ensures Up(Send(x, view, m, client)) ==> Up(x) && !view.offline
    ensures !view.offline ==> Send(x, view, m, client).box.replaying == x.box.replaying
  {
    if Queued(x, DoSend(view, m)) {
      var left := SendFifo(x, view, m, client);
    }
    ObserveFifo(x, view);
    hide Fifo, Distinct;
  }

  lemma {:induction false} CadenceKept(x: Line, last: seq<Option<int>>, points: seq<Class>, snap: Snap, client: Oracle,
                                       j: nat, i: nat, word: Option<real>)
    requires |last| == 3 && |snap.readings| == |points| && j <= |points| && BoxOk(x.box) && Kept(x, i, word)
    ensures var y := CadenceFrom(x, last, points, snap, client, j); BoxOk(y.box) && Kept(y, i, word)
    decreases |points| - j
  {
    hide Kept, BoxOk, Send, SendOk;
    if j < |points| {
      if CadenceDue(last, points[j], snap.simS) {
        SendKept(x, snap.view, CadenceMsg(j, snap), client, i, word);
        CadenceKept(Send(x, snap.view, CadenceMsg(j, snap), client), last, points, snap, client, j + 1, i, word);
      } else {
        CadenceKept(x, last, points, snap, client, j + 1, i, word);
      }
    }
  }

  lemma {:induction false} EventsKept(x: Line, dropped: nat, snap: Snap, batch: Batch, client: Oracle, j: nat,
      i: nat, word: Option<real>)
    requires j <= |batch.events| && BoxOk(x.box) && Kept(x, i, word)
    ensures var y := EventsFrom(x, dropped, snap, batch, client, j).0; BoxOk(y.box) && Kept(y, i, word)
    decreases |batch.events| - j
  {
    hide Kept, BoxOk, Send, SendOk;
    if j < |batch.events| {
      SendKept(x, snap.view, EventMsg(batch, j), client, i, word);
      EventsKept(Send(x, snap.view, EventMsg(batch, j), client),
                 if SendOk(x, snap.view, EventMsg(batch, j), client) then dropped
                     else dropped + 1, snap, batch, client, j + 1, i, word);
    }
  }

  lemma WordStepKept(x: Line, last: seq<Option<real>>, points: seq<Class>, snap: Snap, client: Oracle, j: nat, i: nat)
    requires |last| == |points| == |snap.readings| && j < |points| && i < |points|
    requires BoxOk(x.box) && Kept(x, i, last[i])
    ensures var (y, next) := WordStep(x, last, points, snap, client, j); BoxOk(y.box) && Kept(y, i, next[i])
  {
    hide Kept, BoxOk, Send, SendOk;
    var m := WordMsg(j, snap);
    if points[j] == OnChange && last[j] != Some(snap.readings[j]) {
      if i == j && SendOk(x, snap.view, m, client) {
        SendRenews(x, snap.view, m, client, i, snap.readings[i]);
      } else {
        SendKept(x, snap.view, m, client, i, last[i]);
      }
    }
  }

  lemma {:induction false} ChangedKept(x: Line, last: seq<Option<real>>, points: seq<Class>, snap: Snap,
      client: Oracle, j: nat, i: nat)
    requires |last| == |points| == |snap.readings| && j <= |points| && i < |points|
    requires BoxOk(x.box) && Kept(x, i, last[i])
    ensures var (y, next) := ChangedFrom(x, last, points, snap, client, j); BoxOk(y.box) && Kept(y, i, next[i])
    decreases |points| - j
  {
    hide Kept, BoxOk, WordStep;
    if j < |points| {
      var (y, next) := WordStep(x, last, points, snap, client, j);
      WordStepKept(x, last, points, snap, client, j, i);
      ChangedByStep(x, last, points, snap, client, j);
      ChangedKept(y, next, points, snap, client, j + 1, i);
    }
  }

  lemma ReturnedKept(x: Line, v: View, i: nat, word: Option<real>)
    requires BoxOk(x.box) && Kept(x, i, word)
    ensures var (y, returned) := Returned(x, v);
      BoxOk(y.box) && (Kept(y, i, word) || returned) && (y.box.returned == false) && y.box.offline == v.offline
      && (!v.offline ==> y.box.replaying == x.box.replaying || x.box.offline)
  {
    ObserveKept(x, v, i, word);
    ObserveFifo(x, v);
    hide Owed, Fifo, Distinct;
  }

  // ----- Every history ---------------------------------------------------------------------------------

  lemma StepHolds(w: World, points: seq<Class>, op: Wake, client: Oracle, i: nat)
    requires DeskOk(w.desk, points) && FitsPoints(points, op) && i < |points|
    requires WorldOk(w) && WordHolds(w, i)
    ensures WorldOk(Step(w, points, op, client)) && WordHolds(Step(w, points, op, client), i)
  {
    hide BoxOk, Owed, Send, Drain, Observe, CadenceFrom, EventsFrom, ChangedFrom, Returned, Backfill;
    var word := if w.connections == w.desk.publishedOn then w.desk.lastWord[i] else None;
    assert Kept(w.desk.line, i, word);
    match op
    case Backfills(snap) => BackfillKept(w.desk.line, snap.view, client, i, word);
    case Cadence(snap) => CadenceKept(w.desk.line, w.desk.lastPubS, points, snap, client, 0, i, word);
    case Events(snap, batch) => EventsKept(w.desk.line, w.desk.dropped, snap, batch, client, 0, i, word);
    case Changed(snap) =>
      var (x, returned) := Returned(w.desk.line, snap.view);
      ReturnedKept(w.desk.line, snap.view, i, word);
      var anew := w.connections != w.desk.publishedOn || returned;
      ChangedKept(x, if anew then Forgot(|points|) else w.desk.lastWord, points, snap, client, 0, i);
    case Reconnect(_) =>
  }

  lemma BackfillKept(x: Line, v: View, client: Oracle, i: nat, word: Option<real>)
    requires BoxOk(x.box) && Kept(x, i, word)
    ensures BoxOk(Backfill(x, v, client).box) && Kept(Backfill(x, v, client), i, word)
  {
    var left := BackfillFifo(x, v, client);
    ObserveKept(x, v, i, word);
    hide Owed, Fifo, BoxOk;
    var y := Observe(x, v);
    if !v.offline {
      var begun := if !y.box.replaying && FirstNew(v.due, y.box.replayed).Some?
        then Begin(y, FirstNew(v.due, y.box.replayed).value) else y;
      if begun.box.replaying {
        assert Backfill(x, v, client) == Drain(begun, client, BURST);
        DrainUp(begun, client, BURST);
        if Up(begun) && word.Some? {
          SameOwed(y, begun, i, word.value);
          DrainOwed(begun, client, BURST, i, word.value);
        }
      }
    }
  }

  lemma {:induction false} DrainUp(x: Line, client: Oracle, n: nat)
    ensures Up(Drain(x, client, n)) <==> Up(x)
    decreases n
  {
    if n > 0 && x.box.store != [] && client(x.attempts, x.box.store[0]) {
      DrainUp(Publish(x.(box := x.box.(store := x.box.store[1..])), x.box.store[0], client, LostInReplay), client,
          n - 1);
    }
  }

  lemma {:induction false} HistoryHolds(points: seq<Class>, ops: seq<Wake>, client: Oracle, i: nat)
    requires (forall op <- ops :: FitsPoints(points, op)) && i < |points|
    ensures WorldOk(History(points, ops, client)) && WordHolds(History(points, ops, client), i)
  {
    hide Step, Owed;
    if ops == [] {
      StartHolds(points, i);
    } else {
      assert forall op <- ops[..|ops| - 1] :: op in ops;
      HistoryHolds(points, ops[..|ops| - 1], client, i);
      StepHolds(History(points, ops[..|ops| - 1], client), points, ops[|ops| - 1], client, i);
    }
  }

  lemma StartHolds(points: seq<Class>, i: nat)
    requires i < |points|
    ensures WorldOk(Start(points)) && WordHolds(Start(points), i)
  {
    FreshKeeps();
  }

  // ----- The retained words agree ----------------------------------------------------------------------

  /** After the change loop has passed point i: the cache says what it reads now, or its
      last word was refused. */
  predicate Done(x: Line, last: seq<Option<real>>, snap: Snap, i: nat)
    requires i < |last| && i < |snap.readings|
  {
    last[i] == Some(snap.readings[i]) || (Newest(x.log, i).Some? && Newest(x.log, i).value.fate == Refused)
  }

  lemma LiveSendLogs(x: Line, view: View, m: Message, client: Oracle)
    requires BoxOk(x.box) && Up(x) && !view.offline && !x.box.replaying
    ensures var y := Send(x, view, m, client);
      && y.log == x.log + [Left(m, if SendOk(x, view, m, client) then Accepted else Refused)]
      && Up(y) && !y.box.replaying
  {}

  lemma WordStepDone(x: Line, last: seq<Option<real>>, points: seq<Class>, snap: Snap, client: Oracle, j: nat, i: nat)
    requires |last| == |points| == |snap.readings| && j < |points| && i < |points| && points[i] == OnChange
    requires BoxOk(x.box) && Up(x) && !snap.view.offline && !x.box.replaying && (i < j ==> Done(x, last, snap, i))
    ensures var (y, next) := WordStep(x, last, points, snap, client, j);
      BoxOk(y.box) && Up(y) && !y.box.replaying && (i <= j ==> Done(y, next, snap, i))
  {
    hide BoxOk, Newest, Send, SendOk;
    var m := WordMsg(j, snap);
    if points[j] == OnChange && last[j] != Some(snap.readings[j]) {
      SendShape(x, snap.view, m, client);
      LiveSendLogs(x, snap.view, m, client);
      NewestAfter(x.log, Left(m, if SendOk(x, snap.view, m, client) then Accepted else Refused), i);
    }
  }

  lemma {:induction false} ChangedDone(x: Line, last: seq<Option<real>>, points: seq<Class>, snap: Snap,
      client: Oracle, j: nat, i: nat)
    requires |last| == |points| == |snap.readings| && j <= |points| && i < |points| && points[i] == OnChange
    requires BoxOk(x.box) && Up(x) && !snap.view.offline && !x.box.replaying && (i < j ==> Done(x, last, snap, i))
    ensures var (y, next) := ChangedFrom(x, last, points, snap, client, j);
      BoxOk(y.box) && Up(y) && !y.box.replaying && Done(y, next, snap, i)
    decreases |points| - j
  {
    hide BoxOk, WordStep, Done;
    if j < |points| {
      var (y, next) := WordStep(x, last, points, snap, client, j);
      WordStepDone(x, last, points, snap, client, j, i);
      ChangedByStep(x, last, points, snap, client, j);
      ChangedDone(y, next, points, snap, client, j + 1, i);
    }
  }

  predicate PayloadReads(p: Option<Payload>, v: real) {
    p.Some? && p.value.PointPayload? && p.value.value == v
  }

  /** What `publish_changed` starts from: its outbox, and the words it takes as published. */
  function Opening(w: World, points: seq<Class>, snap: Snap): (Line, seq<Option<real>>)
    requires DeskOk(w.desk, points)
  {
    var (x, returned) := Returned(w.desk.line, snap.view);
    (x, if w.connections != w.desk.publishedOn || returned then Forgot(|points|) else w.desk.lastWord)
  }

  lemma AfterChanged(w: World, points: seq<Class>, snap: Snap, client: Oracle, i: nat)
    requires DeskOk(w.desk, points) && |snap.readings| == |points| && i < |points| && points[i] == OnChange
    requires WorldOk(w) && WordHolds(w, i) && !snap.view.offline && !w.desk.line.box.replaying
    ensures var x := Step(w, points, Changed(snap), client).desk.line;
      var last := Newest(x.log, i);
      && last.Some? && last.value.fate != Cleared
      && (last.value.fate == Accepted ==>
            Held(x.broker, i) == Some(last.value.msg.payload) && Reads(last.value.msg, snap.readings[i]))
  {
    hide Send, Newest, Waiting, ChangedFrom, Returned;
    StepHolds(w, points, Changed(snap), client, i);
    ReturnedKept(w.desk.line, snap.view, i, None);
    BackOnline(w.desk.line, snap.view);
    var (x, last) := Opening(w, points, snap);
    ChangedDone(x, last, points, snap, client, 0, i);
    NoWordWaits(Step(w, points, Changed(snap), client).desk.line.box.store, i);
  }

  /** Retained words agree, exactly when they do: whatever dropouts, bursts, chatter,
      refusals and reconnects went before, once `publish_changed` has found the device
      online with no replay draining, the newest word of every event-class point has left
      and no dropout cleared it; and the broker retains what the point reads if and only if
      the client took that word, or the last one it took since the connection, or what the
      connection brought, already says so. */
  lemma RetainedWordsAgree(points: seq<Class>, ops: seq<Wake>, snap: Snap, client: Oracle, i: nat)
    requires (forall op <- ops :: FitsPoints(points, op)) && |snap.readings| == |points| && i < |points|
        && points[i] == OnChange
    requires !snap.view.offline && !History(points, ops, client).desk.line.box.replaying
    ensures var x := Step(History(points, ops, client), points, Changed(snap), client).desk.line;
      var last, v := Newest(x.log, i), snap.readings[i];
      && last.Some? && last.value.fate != Cleared
      && (last.value.fate == Accepted ==> Held(x.broker, i) == Some(last.value.msg.payload) && Reads(last.value.msg, v))
      && (PayloadReads(Held(x.broker, i), v) <==> last.value.fate == Accepted || PayloadReads(Standing(x, i), v))
  {
    hide History, Step, Newest, Standing;
    HistoryHolds(points, ops, client, i);
    AfterChanged(History(points, ops, client), points, snap, client, i);
    WakeBroker(points, ops, Changed(snap), client, i);
  }

  /** The outbox after one more wake is that of an outbox history. */
  lemma WakeByOps(points: seq<Class>, ops: seq<Wake>, op: Wake, client: Oracle) returns (boxOps: seq<BoxOp>)
    requires (forall o <- ops :: FitsPoints(points, o)) && FitsPoints(points, op)
    ensures Step(History(points, ops, client), points, op, client).desk.line == DoAll(FRESH, boxOps, client)
  {
    hide Step, DoAll;
    var all := ops + [op];
    assert all[..|all| - 1] == ops;
    boxOps := HistoryOps(points, all, client);
    HistoryByOps(points, all, client);
  }

  lemma WakeBroker(points: seq<Class>, ops: seq<Wake>, op: Wake, client: Oracle, i: nat)
    requires (forall o <- ops :: FitsPoints(points, o)) && FitsPoints(points, op)
    ensures BrokerIs(Step(History(points, ops, client), points, op, client).desk.line, i)
  {
    hide Step, History, BrokerIs;
    var boxOps := WakeByOps(points, ops, op, client);
    BrokerRetains(boxOps, client, i);
  }

  // ----- Read off before the call ----------------------------------------------------------------------

  /** How many words the change loop sends from point j up to, not including, point i. */
  function ChangedBetween(last: seq<Option<real>>, points: seq<Class>, snap: Snap, j: nat, i: nat): nat
    requires |last| == |points| == |snap.readings| && i <= |points|
    decreases i - j
  {
    if i <= j then 0 else
      (if points[j] == OnChange && last[j] != Some(snap.readings[j]) then 1 else 0)
      + ChangedBetween(last, points, snap, j + 1, i)
  }

  lemma {:induction false} ChangedBehind(last: seq<Option<real>>, points: seq<Class>, snap: Snap, k: nat,
      word: Option<real>, j: nat, i: nat)
    requires |last| == |points| == |snap.readings| && i <= |points| && k < j && k < |points|
    ensures ChangedBetween(last[k := word], points, snap, j, i) == ChangedBetween(last, points, snap, j, i)
    decreases i - j
  {
    if j < i { ChangedBehind(last, points, snap, k, word, j + 1, i); }
  }

  /** One live word: the client's answer decides what the broker holds of that point, and of
      no other. */
  lemma LiveWord(x: Line, snap: Snap, client: Oracle, j: nat, i: nat)
    requires BoxOk(x.box) && Up(x) && !snap.view.offline && !x.box.replaying && j < |snap.readings|
        && i < |snap.readings|
    ensures var y := Send(x, snap.view, WordMsg(j, snap), client);
      && BoxOk(y.box) && Up(y) && !y.box.replaying && y.attempts == x.attempts + 1
      && Held(y.broker, i) == if i == j && client(x.attempts, WordMsg(j, snap)) then Some(WordMsg(j, snap).payload)
          else Held(x.broker, i)
  {}

  lemma {:induction false} ChangedBroker(x: Line, last: seq<Option<real>>, points: seq<Class>, snap: Snap,
      client: Oracle, j: nat, i: nat)
    requires |last| == |points| == |snap.readings| && j <= |points| && i < |points|
    requires BoxOk(x.box) && Up(x) && !snap.view.offline && !x.box.replaying
    ensures var y, n := ChangedFrom(x, last, points, snap, client, j).0,
        x.attempts + ChangedBetween(last, points, snap, j, i);
      Held(y.broker, i)
      == if j <= i && points[i] == OnChange && last[i] != Some(snap.readings[i]) && client(n, WordMsg(i, snap))
         then Some(WordMsg(i, snap).payload) else Held(x.broker, i)
    decreases |points| - j
  {
    hide Send, SendOk, BoxOk, Held, Up;
    if j < |points| {
      ChangedByStep(x, last, points, snap, client, j);
      var (y, next) := WordStep(x, last, points, snap, client, j);
      if points[j] == OnChange && last[j] != Some(snap.readings[j]) {
        LiveWord(x, snap, client, j, i);
        ChangedBehind(last, points, snap, j, Some(snap.readings[j]), j + 1, i);
      }
      ChangedBroker(y, next, points, snap, client, j + 1, i);
    }
  }

  /** The same, read off before the call: the broker retains what the point reads after an
      online, drained `publish_changed` if and only if the call sends the word and the
      client takes it, or the broker retained it before. */
  lemma RetainedWordsBefore(points: seq<Class>, ops: seq<Wake>, snap: Snap, client: Oracle, i: nat)
    requires (forall op <- ops :: FitsPoints(points, op)) && |snap.readings| == |points| && i < |points|
        && points[i] == OnChange
    requires !snap.view.offline && !History(points, ops, client).desk.line.box.replaying
    ensures var w, v := History(points, ops, client), snap.readings[i];
      var (x, last) := Opening(w, points, snap);
      var n := w.desk.line.attempts + ChangedBetween(last, points, snap, 0, i);
      PayloadReads(Held(Step(w, points, Changed(snap), client).desk.line.broker, i), v)
      <==> (last[i] != Some(v) && client(n, WordMsg(i, snap))) || PayloadReads(Held(w.desk.line.broker, i), v)
  {
    hide History, Held, ChangedFrom, Returned, ChangedBetween;
    var w := History(points, ops, client);
    HistoryHolds(points, ops, client, i);
    ReturnedKept(w.desk.line, snap.view, i, None);
    BackOnline(w.desk.line, snap.view);
    var (x, last) := Opening(w, points, snap);
    ChangedBroker(x, last, points, snap, client, 0, i);
    hide BoxOk, WordHolds;
  }

  lemma BackOnline(x: Line, v: View)
    requires BoxOk(x.box) && !x.box.replaying && !v.offline
    ensures var y := Returned(x, v).0; Up(y) && !y.box.replaying && y.attempts == x.attempts && y.broker == x.broker
  {}

  /** Enough for it, asked of the client and of the traffic alone: the client takes every
      retained message it is handed, and no replay is joined by more messages than the
      store holds between its burst and the end of its draining. Refused samples and events,
      and dropouts however long, do no harm. */
  lemma RetainedWordsExact(points: seq<Class>, ops: seq<Wake>, snap: Snap, client: Oracle, i: nat)
    requires (forall op <- ops :: FitsPoints(points, op)) && |snap.readings| == |points| && i < |points|
        && points[i] == OnChange
    requires !snap.view.offline && !History(points, ops, client).desk.line.box.replaying
    requires Obliging(client) && Step(History(points, ops, client), points, Changed(snap),
        client).desk.line.worst <= STORE
    ensures var x := Step(History(points, ops, client), points, Changed(snap), client).desk.line;
      PayloadReads(Held(x.broker, i), snap.readings[i])
  {
    hide History, Step, Newest, Obliging, Standing, DoAll;
    RetainedWordsAgree(points, ops, snap, client, i);
    var boxOps := WakeByOps(points, ops, Changed(snap), client);
    AllUnhurt(boxOps, client);
    NewestIn(Step(History(points, ops, client), points, Changed(snap), client).desk.line.log, i);
  }

  lemma {:induction false} NewestIn(log: seq<Left>, i: nat)
    ensures Newest(log, i).Some? ==> Newest(log, i).value in log && IsWord(Newest(log, i).value.msg, i)
  {
    if log != [] { NewestIn(log[..|log| - 1], i); }
  }

  // ----- A replayed word the client refuses is lost --------------------------------------------------------

  const ONE_WORD := [OnChange]

  function At(offline: bool, due: seq<nat>, value: real): Snap {
    Snap(View(offline, due), 0, 0, [value])
  }

  /** A change in a dropout; a burst whose first message the client refuses, which pauses
      the replay; a live word that queues behind it; its replay, refused too. */
  const UNLUCKY := [
    Changed(At(false, [], 0.0)), Changed(At(true, [], 1.0)), Backfills(At(false, [0], 1.0)),
    Changed(At(false, [0], 2.0)), Backfills(At(false, [0], 2.0)), Backfills(At(false, [0], 2.0))]

  /** The client takes its first message and no other. */
  function OnlyFirst(n: nat, m: Message): bool { n == 0 }

  const OLD_WORD := map[PointTopic(0) := PointPayload(0, 0.0)]

  /** The world of the unlucky history: its outbox, and what the cache says; the broker
      still has the first word. */
  predicate Stands(w: World, box: Box, word: real) {
    && DeskOk(w.desk, ONE_WORD) && w.desk.line.box == box && w.desk.lastWord == [Some(word)]
    && w.desk.line.attempts >= 1 && w.desk.line.broker == OLD_WORD && w.connections == w.desk.publishedOn == 0
  }

  lemma UnluckyStart()
    ensures Stands(Step(Start(ONE_WORD), ONE_WORD, UNLUCKY[0], OnlyFirst), FRESH.box, 0.0)
  {
    assert Forgot(1) == [None];
  }

  lemma UnluckyDropout(w: World)
    requires Stands(w, FRESH.box, 0.0)
    ensures Stands(Step(w, ONE_WORD, UNLUCKY[1], OnlyFirst),
        Box([Dim(WordMsg(0, At(true, [], 1.0)))], true, false, [], false, 0), 1.0)
  {}

  lemma UnluckyBurst(w: World, m: Message)
    requires Stands(w, Box([m], true, false, [], false, 0), 1.0)
    ensures Stands(Step(w, ONE_WORD, UNLUCKY[2], OnlyFirst), Box([], false, true, [0], true, 0), 1.0)
  {}

  lemma UnluckyQueue(w: World)
    requires Stands(w, Box([], false, true, [0], true, 0), 1.0)
    ensures Stands(Step(w, ONE_WORD, UNLUCKY[3], OnlyFirst),
        Box([WordMsg(0, At(false, [0], 2.0))], false, false, [0], true, 0), 2.0)
  {
    assert Forgot(1) == [None];
  }

  lemma UnluckyReplay(w: World, m: Message)
    requires Stands(w, Box([m], false, false, [0], true, 0), 2.0)
    ensures Stands(Step(w, ONE_WORD, UNLUCKY[4], OnlyFirst), Box([], false, false, [0], true, 0), 2.0)
  {}

  lemma UnluckyEnd(w: World)
    requires Stands(w, Box([], false, false, [0], true, 0), 2.0)
    ensures Stands(Step(w, ONE_WORD, UNLUCKY[5], OnlyFirst), Box([], false, false, [0], false, 0), 2.0)
  {}

  lemma UnluckyWake(w: World)
    requires Stands(w, Box([], false, false, [0], false, 0), 2.0)
    ensures Step(w, ONE_WORD, Changed(At(false, [0], 2.0)), OnlyFirst).desk.line.broker == OLD_WORD
  {}

  lemma UnluckyPrefix(k: nat)
    requires k < |UNLUCKY|
    ensures forall op <- UNLUCKY :: FitsPoints(ONE_WORD, op)
    ensures History(ONE_WORD, UNLUCKY[..k + 1], OnlyFirst)
         == Step(History(ONE_WORD, UNLUCKY[..k], OnlyFirst), ONE_WORD, UNLUCKY[k], OnlyFirst)
  {
    assert UNLUCKY[..k + 1][..k] == UNLUCKY[..k];
  }

  /** The proviso is needed: `backfill` takes a message off the store before the client
      has accepted it, so a word refused in a replay is lost, and since the cache says it
      was published, an online, drained `publish_changed` leaves the broker wrong: it
      retains 0 where the point reads 2. */
  lemma RefusedReplayLosesWord()
    ensures forall op <- UNLUCKY :: FitsPoints(ONE_WORD, op)
    ensures var w := History(ONE_WORD, UNLUCKY, OnlyFirst);
      && !w.desk.line.box.replaying && !w.desk.line.box.offline
      && Step(w, ONE_WORD, Changed(At(false, [0], 2.0)), OnlyFirst).desk.line.broker == OLD_WORD
  {
    hide Step, Stands;
    UnluckyPrefix(0);
    UnluckyPrefix(1);
    UnluckyPrefix(2);
    UnluckyPrefix(3);
    UnluckyPrefix(4);
    UnluckyPrefix(5);
    assert UNLUCKY[..0] == [] && UNLUCKY[..6] == UNLUCKY;
    UnluckyStart();
    UnluckyDropout(History(ONE_WORD, UNLUCKY[..1], OnlyFirst));
    UnluckyBurst(History(ONE_WORD, UNLUCKY[..2], OnlyFirst), Dim(WordMsg(0, At(true, [], 1.0))));
    UnluckyQueue(History(ONE_WORD, UNLUCKY[..3], OnlyFirst));
    UnluckyReplay(History(ONE_WORD, UNLUCKY[..4], OnlyFirst), WordMsg(0, At(false, [0], 2.0)));
    UnluckyEnd(History(ONE_WORD, UNLUCKY[..5], OnlyFirst));
    UnluckyWake(History(ONE_WORD, UNLUCKY, OnlyFirst));
    StandsIs(History(ONE_WORD, UNLUCKY, OnlyFirst), Box([], false, false, [0], false, 0), 2.0);
  }

  lemma StandsIs(w: World, box: Box, word: real)
    requires Stands(w, box, word)
    ensures w.desk.line.box == box
  {}
}