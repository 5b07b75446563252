/** What a wake of the MQTT publisher does: which messages it makes of a snapshot, and
    what it remembers between wakes. */
module Publishers {
  import opened Wrappers
  import opened State
  import opened Outboxes

  datatype Class = Fast | Medium | Slow | OnChange

  function PeriodS(c: Class): Option<int> {
    match c
    case Fast => Some(1)
    case Medium => Some(10)
    case Slow => Some(60)
    case OnChange => None
  }

  function ClassIndex(c: Class): Option<nat> {
    match c
    case Fast => Some(0)
    case Medium => Some(1)
    case Slow => Some(2)
    case OnChange => None
  }

  const PERIODS := [1, 10, 60]

  /** One snapshot of the plant as the publisher sees it: the tap's view, simulation and
      device time, and what every point reads through the tap. */
  datatype Snap = Snap(view: View, simS: int, deviceS: int, readings: seq<real>)

  /** What the publisher remembers, over its outbox. */
  datatype Desk = Desk(
    line: Line,
    lastPubS: seq<Option<int>>,
    lastWord: seq<Option<real>>,
    publishedOn: nat,
    dropped: nat)

  predicate DeskOk(d: Desk, points: seq<Class>) {
    |d.lastPubS| == 3 && |d.lastWord| == |points|
  }

  predicate DueAt(last: Option<int>, now: int, period: int) {
    last.None? || period <= now - last.value
  }

  // ----- Cadence points --------------------------------------------------------------------

  function CadenceMsg(i: nat, snap: Snap): Message
    requires i < |snap.readings|
  {
    Message(PointTopic(i), PointPayload(snap.deviceS, snap.readings[i]), AtMostOnce, false)
  }

  predicate CadenceDue(last: seq<Option<int>>, c: Class, simS: int)
    requires |last| == 3
  {
    c != OnChange && DueAt(last[ClassIndex(c).value], simS, PeriodS(c).value)
  }

  /** The due cadence points from i on, stopping at the first refusal. */
  function CadenceFrom(x: Line, last: seq<Option<int>>, points: seq<Class>, snap: Snap, client: Oracle, i: nat): Line
    requires |last| == 3 && |snap.readings| == |points| && i <= |points|
    decreases |points| - i
  {
    if i == |points| then x
    else if !CadenceDue(last, points[i], snap.simS) then CadenceFrom(x, last, points, snap, client, i + 1)
    else
      var y := Send(x, snap.view, CadenceMsg(i, snap), client);
      if SendOk(x, snap.view, CadenceMsg(i, snap), client) then CadenceFrom(y, last, points, snap, client, i + 1) else y
  }

  function Stamped(last: Option<int>, now: int, period: int): Option<int> {
    if DueAt(last, now, period) then Some(now) else last
  }

  function PublishCadence(d: Desk, points: seq<Class>, snap: Snap, client: Oracle): Desk
    requires DeskOk(d, points) && |snap.readings| == |points|
  {
    d.(line := CadenceFrom(d.line, d.lastPubS, points, snap, client, 0),
       lastPubS := [Stamped(d.lastPubS[0], snap.simS, 1), Stamped(d.lastPubS[1], snap.simS, 10),
           Stamped(d.lastPubS[2], snap.simS, 60)])
  }

  // ----- Retained words ---------------------------------------------------------------------

  function WordMsg(i: nat, snap: Snap): Message
    requires i < |snap.readings|
  {
    Message(PointTopic(i), PointPayload(snap.deviceS, snap.readings[i]), AtLeastOnce, true)
  }

  /** The changed words from i on; a refused one is left unrecorded for the next wake. */
  function ChangedFrom(x: Line, last: seq<Option<real>>, points: seq<Class>, snap: Snap, client: Oracle, i: nat)
    : (r: (Line, seq<Option<real>>))
    requires |last| == |points| == |snap.readings| && i <= |points|
    ensures |r.1| == |points|
    decreases |points| - i
  {
    if i == |points| then (x, last)
    else if points[i] != OnChange || last[i] == Some(snap.readings[i])
        then ChangedFrom(x, last, points, snap, client, i + 1)
    else
      ChangedFrom(Send(x, snap.view, WordMsg(i, snap), client),
                  if SendOk(x, snap.view, WordMsg(i, snap), client) then last[i := Some(snap.readings[i])] else last,
                  points, snap, client, i + 1)
  }

  /** One point of the change loop. */
  function WordStep(x: Line, last: seq<Option<real>>, points: seq<Class>, snap: Snap, client: Oracle, j: nat)
    : (r: (Line, seq<Option<real>>))
    requires |last| == |points| == |snap.readings| && j < |points|
    ensures |r.1| == |points|
  {
    if points[j] != OnChange || last[j] == Some(snap.readings[j]) then (x, last)
    else (Send(x, snap.view, WordMsg(j, snap), client),
          if SendOk(x, snap.view, WordMsg(j, snap), client) then last[j := Some(snap.readings[j])] else last)
  }

  lemma ChangedByStep(x: Line, last: seq<Option<real>>, points: seq<Class>, snap: Snap, client: Oracle, j: nat)
    requires |last| == |points| == |snap.readings| && j < |points|
    ensures var (y, next) := WordStep(x, last, points, snap, client, j);
      ChangedFrom(x, last, points, snap, client, j) == ChangedFrom(y, next, points, snap, client, j + 1)
  {
    hide Send, SendOk;
  }

  function Forgot(n: nat): seq<Option<real>> {
    seq(n, i => None)
  }

  /** A new connection, or a dropout that ended: forget what was published, so that every
      word goes out again. */
  function PublishChanged(d: Desk, points: seq<Class>, snap: Snap, connection: nat, client: Oracle): Desk
    requires DeskOk(d, points) && |snap.readings| == |points|
  {
    var (x, returned) := Returned(d.line, snap.view);
    var anew := connection != d.publishedOn || returned;
    var last := if anew then Forgot(|points|) else d.lastWord;
    var r := ChangedFrom(x, last, points, snap, client, 0);
    d.(line := r.0, lastWord := r.1, publishedOn := if anew then connection else d.publishedOn)
  }

  // ----- Events -------------------------------------------------------------------------------

  /** One tick's events, numbered from `first`, stamped by the device clock. */
  datatype Batch = Batch(first: nat, stampS: int, events: seq<Event>)

  function EventMsg(batch: Batch, i: nat): Message
    requires i < |batch.events|
  {
    Message(EventTopic(batch.events[i]), EventPayload(batch.stampS, batch.first + i, batch.events[i]), AtLeastOnce,
        false)
  }

  /** A refused event is counted and gone. */
  function EventsFrom(x: Line, dropped: nat, snap: Snap, batch: Batch, client: Oracle, i: nat): (Line, nat)
    requires i <= |batch.events|
    decreases |batch.events| - i
  {
    if i == |batch.events| then (x, dropped)
    else EventsFrom(Send(x, snap.view, EventMsg(batch, i), client),
                    if SendOk(x, snap.view, EventMsg(batch, i), client) then dropped
                        else dropped + 1, snap, batch, client, i + 1)
  }

  function PublishEvents(d: Desk, snap: Snap, batch: Batch, client: Oracle): Desk {
    var r := EventsFrom(d.line, d.dropped, snap, batch, client, 0);
    d.(line := r.0, dropped := r.1)
  }

  // ----- The loops, one turn at a time -----------------------------------------------------------

  lemma CadenceStep(x: Line, last: seq<Option<int>>, points: seq<Class>, snap: Snap, client: Oracle, i: nat)
    requires |last| == 3 && |snap.readings| == |points| && i < |points|
    ensures CadenceFrom(x, last, points, snap, client, i)
         == if !CadenceDue(last, points[i], snap.simS) then CadenceFrom(x, last, points, snap, client, i + 1) else
              var y := Send(x, snap.view, CadenceMsg(i, snap), client);
              if SendOk(x, snap.view, CadenceMsg(i, snap), client)
                  then CadenceFrom(y, last, points, snap, client, i + 1) else y
  {
    hide Send, SendOk;
  }

  lemma CadenceEnd(x: Line, last: seq<Option<int>>, points: seq<Class>, snap: Snap, client: Oracle)
    requires |last| == 3 && |snap.readings| == |points|
    ensures CadenceFrom(x, last, points, snap, client, |points|) == x
  {}

  lemma ChangedEnd(x: Line, last: seq<Option<real>>, points: seq<Class>, snap: Snap, client: Oracle)
    requires |last| == |points| == |snap.readings|
    ensures ChangedFrom(x, last, points, snap, client, |points|) == (x, last)
  {}

  lemma EventsStep(x: Line, dropped: nat, snap: Snap, batch: Batch, client: Oracle, i: nat)
    requires i < |batch.events|
    ensures EventsFrom(x, dropped, snap, batch, client, i)
         == EventsFrom(Send(x, snap.view, EventMsg(batch, i), client),
                       if SendOk(x, snap.view, EventMsg(batch, i), client) then dropped
                           else dropped + 1, snap, batch, client, i + 1)
  {
    hide Send, SendOk;
  }

  lemma EventsEnd(x: Line, dropped: nat, snap: Snap, batch: Batch, client: Oracle)
    ensures EventsFrom(x, dropped, snap, batch, client, |batch.events|) == (x, dropped)
  {}

  // ----- Every interleaving ---------------------------------------------------------------------

  /** A wake of the publisher, or a reconnect to a broker that retains whatever it does. */
  datatype Wake =
    | Backfills(snap: Snap)
    | Cadence(snap: Snap)
    | Changed(snap: Snap)
    | Events(snap: Snap, batch: Batch)
    | Reconnect(retained: map<Topic, Payload>)

  datatype World = World(desk: Desk, connections: nat)

  predicate FitsPoints(points: seq<Class>, w: Wake) {
    (w.Cadence? || w.Changed?) ==> |w.snap.readings| == |points|
  }

  function Step(w: World, points: seq<Class>, op: Wake, client: Oracle): (r: World)
    requires DeskOk(w.desk, points) && FitsPoints(points, op)
    ensures DeskOk(r.desk, points)
  {
    match op
    case Backfills(snap) => w.(desk := w.desk.(line := Backfill(w.desk.line, snap.view, client)))
    case Cadence(snap) => w.(desk := PublishCadence(w.desk, points, snap, client))
    case Changed(snap) => w.(desk := PublishChanged(w.desk, points, snap, w.connections, client))
    case Events(snap, batch) => w.(desk := PublishEvents(w.desk, snap, batch, client))
    case Reconnect(retained) => World(w.desk.(line := Outboxes.Reconnect(w.desk.line, retained)), w.connections + 1)
  }

  function Start(points: seq<Class>): (w: World)
    ensures DeskOk(w.desk, points)
  {
    World(Desk(FRESH, [None, None, None], Forgot(|points|), 0, 0), 0)
  }

  function History(points: seq<Class>, ops: seq<Wake>, client: Oracle): (w: World)
    requires forall op <- ops :: FitsPoints(points, op)
    ensures DeskOk(w.desk, points)
  {
    if ops == [] then Start(points)
    else Step(History(points, ops[..|ops| - 1], client), points, ops[|ops| - 1], client)
  }
}
