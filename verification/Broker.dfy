/** What the broker retains, told from the history of the outbox alone; and when a word
    handed to a replay is sure to reach it. */
module BrokerLaws {
  import opened Wrappers
  import opened Outboxes
  import opened DeliveryLaws

  predicate IsWord(m: Message, i: nat) {
    m.retain && m.topic == PointTopic(i)
  }

  /** The newest word of point i the client took after the first `since` departures. */
  function LastTaken(log: seq<Left>, since: nat, i: nat): Option<Message> {
    if |log| <= since then None
    else if log[|log| - 1].fate == Accepted && IsWord(log[|log| - 1].msg, i) then Some(log[|log| - 1].msg)
    else LastTaken(log[..|log| - 1], since, i)
  }

  function Held(broker: map<Topic, Payload>, i: nat): Option<Payload> {
    if PointTopic(i) in broker then Some(broker[PointTopic(i)]) else None
  }

  /** The last word of point i accepted since the connection, or else what the connection
      brought. */
  function Standing(x: Line, i: nat): Option<Payload> {
    match LastTaken(x.log, x.since, i)
    case Some(m) => Some(m.payload)
    case None => Held(x.brought, i)
  }

  predicate BrokerIs(x: Line, i: nat) {
    x.since <= |x.log| && Held(x.broker, i) == Standing(x, i)
  }

  lemma Departs(x: Line, y: Line, l: Left, i: nat)
    requires BrokerIs(x, i) && y.log == x.log + [l] && y.since == x.since && y.brought == x.brought
    requires y.broker == if l.fate == Accepted && l.msg.retain then x.broker[l.msg.topic := l.msg.payload] else x.broker
    ensures BrokerIs(y, i)
  {
    assert y.log[..|y.log| - 1] == x.log;
  }

  lemma SameBroker(x: Line, y: Line, i: nat)
    requires BrokerIs(x, i)
    requires y.log == x.log && y.broker == x.broker && y.brought == x.brought && y.since == x.since
    ensures BrokerIs(y, i)
  {}

  lemma {:induction false} ClearedTaken(log: seq<Left>, msgs: seq<Message>, since: nat, i: nat)
    requires since <= |log|
    ensures LastTaken(log + AllLeft(msgs, Cleared), since, i) == LastTaken(log, since, i)
  {
    var all := AllLeft(msgs, Cleared);
    if msgs == [] {
      assert log + all == log;
    } else {
      var init := AllLeft(msgs[..|msgs| - 1], Cleared);
      assert all == init + [Left(msgs[|msgs| - 1], Cleared)];
      assert (log + all)[..|log + all| - 1] == log + init;
      ClearedTaken(log, msgs[..|msgs| - 1], since, i);
    }
  }

  lemma ObserveBroker(x: Line, v: View, i: nat)
    requires BrokerIs(x, i)
    ensures BrokerIs(Observe(x, v), i)
  {
    ClearedTaken(x.log, x.box.store, x.since, i);
    hide LastTaken, AllLeft;
  }

  lemma SendBroker(x: Line, v: View, m: Message, client: Oracle, i: nat)
    requires BrokerIs(x, i)
    ensures BrokerIs(Send(x, v, m, client), i)
  {
    hide BrokerIs, Observe;
    var y := Born(x, v, m);
    ObserveBroker(x, v, i);
    SameBroker(Observe(x, v), y, i);
    if v.offline || y.box.replaying {
      KeepBroker(y, if v.offline then Dim(m) else m, i);
    } else {
      Departs(y, Publish(y, m, client, Refused), Left(m, if client(y.attempts, m) then Accepted else Refused), i);
    }
  }

  lemma KeepBroker(x: Line, m: Message, i: nat)
    requires BrokerIs(x, i)
    ensures BrokerIs(Keep(x, m), i)
  {
    hide BrokerIs;
    if |x.box.store| == STORE {
      Departs(x, Keep(x, m), Left(x.box.store[0], Forgotten), i);
    } else {
      SameBroker(x, Keep(x, m), i);
    }
  }

  lemma {:induction false} DrainBroker(x: Line, client: Oracle, n: nat, i: nat)
    requires BrokerIs(x, i)
    ensures BrokerIs(Drain(x, client, n), i)
    decreases n
  {
    hide BrokerIs;
    if n > 0 {
      if x.box.store == [] {
        SameBroker(x, Drain(x, client, n), i);
      } else {
        var m := x.box.store[0];
        var y := Publish(x.(box := x.box.(store := x.box.store[1..])), m, client, LostInReplay);
        Departs(x, y, Left(m, if client(x.attempts, m) then Accepted else LostInReplay), i);
        if client(x.attempts, m) { DrainBroker(y, client, n - 1, i); }
      }
    }
  }

  lemma DoBroker(x: Line, op: BoxOp, client: Oracle, i: nat)
    requires BrokerIs(x, i)
    ensures BrokerIs(Do(x, op, client), i)
  {
    hide BrokerIs, Observe, Send, Drain;
    match op
    case DoReturned(v) =>
      ObserveBroker(x, v, i);
      SameBroker(Observe(x, v), Returned(x, v).0, i);
    case DoSend(v, m) => SendBroker(x, v, m, client, i);
    case DoBackfill(v) =>
      ObserveBroker(x, v, i);
      var y := Observe(x, v);
      var due := FirstNew(v.due, y.box.replayed);
      if due.Some? {
        SameBroker(y, Begin(y, due.value), i);
        DrainBroker(Begin(y, due.value), client, BURST, i);
      }
      DrainBroker(y, client, BURST, i);
    case DoReconnect(retained) => Reconnected(x, retained, i);
  }

  lemma Reconnected(x: Line, retained: map<Topic, Payload>, i: nat)
    ensures BrokerIs(Outboxes.Reconnect(x, retained), i)
  {}

  /** After any history the broker holds, of each point, the last word accepted since the
      connection, or else what the connection brought. */
  lemma {:induction false} BrokerRetains(ops: seq<BoxOp>, client: Oracle, i: nat)
    ensures BrokerIs(DoAll(FRESH, ops, client), i)
  {
    hide Do;
    if ops != [] {
      BrokerRetains(ops[..|ops| - 1], client, i);
      hide BrokerIs;
      DoBroker(DoAll(FRESH, ops[..|ops| - 1], client), ops[|ops| - 1], client, i);
    }
  }

  // ----- Words that are sure to arrive ----------------------------------------------------------

  /** A client that takes every retained message it is handed. */
  ghost predicate Obliging(client: Oracle) {
    forall n, m: Message :: m.retain ==> client(n, m)
  }

  predicate Backed(x: Line) {
    forall j :: 0 <= j < |x.box.store| && x.box.store[j].retain ==> x.box.replaying && |x.box.store| - j <= x.backlog
  }

  predicate WordsSafe(log: seq<Left>) {
    forall l <- log :: l.msg.retain ==> l.fate == Accepted || l.fate == Cleared
  }

  /** As long as no replay kept more than the store holds: a word in the store came during
      the replay, with everything behind it, and no word that left was lost but to a
      dropout's clear. */
  predicate Unhurt(x: Line) {
    x.backlog <= x.worst && (x.worst <= STORE ==> Backed(x) && WordsSafe(x.log))
  }

  lemma ObserveUnhurt(x: Line, v: View)
    requires Unhurt(x)
    ensures Unhurt(Observe(x, v))
  {
    AllLeftFate(x.box.store, Cleared);
    hide AllLeft;
  }

  lemma KeepUnhurt(x: Line, m: Message)
    requires Unhurt(x) && BoxOk(x.box) && (!x.box.replaying ==> !m.retain)
    ensures Unhurt(Keep(x, m))
  {
    var y := Keep(x, m);
    if y.worst <= STORE {
      FrontIsNoWord(x);
      KeepBacked(x, m);
      KeepSafe(x, m);
    }
    hide Backed, WordsSafe;
  }

  /** The oldest message of a full store is no word while fewer than a storeful came. */
  lemma FrontIsNoWord(x: Line)
    requires Backed(x) && (x.box.replaying ==> x.backlog < STORE)
    ensures |x.box.store| == STORE ==> !x.box.store[0].retain
  {}

  lemma KeepBacked(x: Line, m: Message)
    requires Backed(x) && |x.box.store| <= STORE && (!x.box.replaying ==> !m.retain)
    ensures Backed(Keep(x, m))
  {
    var y := Keep(x, m);
    var cut := if |x.box.store| == STORE then 1 else 0;
    forall j | 0 <= j < |y.box.store| && y.box.store[j].retain
      ensures y.box.replaying && |y.box.store| - j <= y.backlog
    {
      if j < |y.box.store| - 1 { assert y.box.store[j] == x.box.store[j + cut]; }
    }
  }

  lemma KeepSafe(x: Line, m: Message)
    requires WordsSafe(x.log) && (|x.box.store| == STORE ==> !x.box.store[0].retain)
    ensures WordsSafe(Keep(x, m).log)
  {}

  lemma PublishUnhurt(x: Line, m: Message, client: Oracle, refused: Fate)
    requires Unhurt(x) && Obliging(client)
    ensures Unhurt(Publish(x, m, client, refused))
  {}

  lemma PopUnhurt(x: Line)
    requires Unhurt(x) && x.box.store != []
    ensures Unhurt(x.(box := x.box.(store := x.box.store[1..])))
  {
    var s := x.box.store[1..];
    assert forall j :: 0 <= j < |s| ==> s[j] == x.box.store[j + 1];
  }

  lemma {:induction false} DrainUnhurt(x: Line, client: Oracle, n: nat)
    requires Unhurt(x) && Obliging(client)
    ensures Unhurt(Drain(x, client, n))
    decreases n
  {
    hide Unhurt, Obliging;
    if n > 0 {
      if x.box.store == [] {
        EmptyUnhurt(x, Drain(x, client, n));
      } else {
        var m, popped := x.box.store[0], x.(box := x.box.(store := x.box.store[1..]));
        PopUnhurt(x);
        PublishUnhurt(popped, m, client, LostInReplay);
        if client(x.attempts, m) { DrainUnhurt(Publish(popped, m, client, LostInReplay), client, n - 1); }
      }
    }
  }

  lemma EmptyUnhurt(x: Line, y: Line)
    requires Unhurt(x) && y.box.store == [] && y.log == x.log && y.backlog <= x.backlog && y.worst == x.worst
    ensures Unhurt(y)
  {}

  lemma BeginUnhurt(x: Line, k: nat)
    requires Unhurt(x) && BoxOk(x.box) && !x.box.replaying
    ensures Unhurt(Begin(x, k))
  {
    assert forall j :: 0 <= j < |x.box.store| ==> x.box.store[j] in x.box.store;
  }

  lemma BornUnhurt(x: Line, v: View, m: Message)
    requires Unhurt(x)
    ensures Unhurt(Born(x, v, m))
  {
    ObserveUnhurt(x, v);
    hide Observe;
  }

  lemma SendUnhurt(x: Line, v: View, m: Message, client: Oracle)
    requires Unhurt(x) && BoxOk(x.box) && Obliging(client)
    ensures Unhurt(Send(x, v, m, client))
  {
    ObserveFifo(x, v);
    BornUnhurt(x, v, m);
    hide Unhurt, Obliging, BoxOk, Observe, Fifo;
    var y := Born(x, v, m);
    if v.offline {
      KeepUnhurt(y, Dim(m));
    } else if y.box.replaying {
      KeepUnhurt(y, m);
    } else {
      PublishUnhurt(y, m, client, Refused);
    }
  }

  lemma DoUnhurt(x: Line, op: BoxOp, client: Oracle)
    requires Unhurt(x) && BoxOk(x.box) && Obliging(client)
    ensures Unhurt(Do(x, op, client))
  {
    hide Unhurt, Obliging, BoxOk, Observe, Send, Drain, Fifo;
    match op
    case DoReturned(v) =>
      ObserveUnhurt(x, v);
      ElsewhereUnhurt(Observe(x, v), Returned(x, v).0);
    case DoSend(v, m) => SendUnhurt(x, v, m, client);
    case DoBackfill(v) =>
      ObserveUnhurt(x, v);
      ObserveFifo(x, v);
      var y := Observe(x, v);
      var due := FirstNew(v.due, y.box.replayed);
      if due.Some? && !y.box.replaying {
        BeginUnhurt(y, due.value);
        DrainUnhurt(Begin(y, due.value), client, BURST);
      }
      DrainUnhurt(y, client, BURST);
    case DoReconnect(retained) => ElsewhereUnhurt(x, Outboxes.Reconnect(x, retained));
  }

  lemma ElsewhereUnhurt(x: Line, y: Line)
    requires Unhurt(x) && y.log == x.log && y.box.store == x.box.store && y.box.replaying == x.box.replaying
    requires y.backlog == x.backlog && y.worst == x.worst
    ensures Unhurt(y)
  {}

  lemma {:induction false} AllUnhurt(ops: seq<BoxOp>, client: Oracle)
    requires Obliging(client)
    ensures Unhurt(DoAll(FRESH, ops, client))
  {
    hide Do, Obliging;
    if ops != [] {
      var mid := DoAll(FRESH, ops[..|ops| - 1], client);
      AllUnhurt(ops[..|ops| - 1], client);
      NothingLostSilently(ops[..|ops| - 1], client);
      hide Unhurt, BoxOk, Conserved;
      DoUnhurt(mid, ops[|ops| - 1], client);
    }
  }
}
