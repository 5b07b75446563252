/** The store-and-forward outbox: the publisher's door to the wire. */
module Outboxes {
  import opened Wrappers
  import opened State

  datatype QoS = AtMostOnce | AtLeastOnce

  datatype Topic = PointTopic(point: nat) | EventTopic(event: Event)

  datatype Payload =
    | PointPayload(stampS: int, value: real)
    | EventPayload(stampS: int, number: nat, event: Event)

  datatype Message = Message(topic: Topic, payload: Payload, qos: QoS, retain: bool)

  /** Messages a dropout keeps before the oldest are forgotten. */
  const STORE := 65536

  /** Stored messages a replay hands the client per wake. */
  const BURST := 512

  datatype Box = Box(
    store: seq<Message>,
    offline: bool,
    returned: bool,
    replayed: seq<nat>,
    replaying: bool,
    forgotten: nat)

  /** What the tap says at a tick: whether the device is in a dropout, and the backfill
      bursts whose instant has passed, in order. */
  datatype View = View(offline: bool, due: seq<nat>)

  // ----- The outbox with its history ---------------------------------------------------

  /** How a message left: on the wire, refused by the client to the sender's face, refused
      by the client out of a replay, forgotten by a full store, or cleared by a new
      dropout. */
  datatype Fate = Accepted | Refused | LostInReplay | Forgotten | Cleared

  datatype Left = Left(msg: Message, fate: Fate)

  /** A message handed to `send`, and whether the device was offline then. */
  datatype Birth = Birth(msg: Message, dark: bool)

  /** The outbox with its history: everything that has left it in the order it left,
      everything handed to it, the attempts the client has seen; what the broker retains
      (section 3.3.1.3 of MQTT 3.1.1: the last retained message of a topic replaces the
      one before), what the broker of the current connection brought, and how much had
      left when it connected; the messages kept since the current replay began, and the
      most that any replay kept. */
  datatype Line = Line(
    box: Box,
    log: seq<Left>,
    births: seq<Birth>,
    attempts: nat,
    broker: map<Topic, Payload>,
    brought: map<Topic, Payload>,
    since: nat,
    backlog: nat,
    worst: nat)

  const FRESH := Line(Box([], false, false, [], false, 0), [], [], 0, map[], map[], 0, 0, 0)

  /** The client accepts or refuses the n-th message it is handed as it likes. */
  type Oracle = (nat, Message) -> bool

  function AllLeft(msgs: seq<Message>, fate: Fate): (r: seq<Left>)
    ensures |r| == |msgs| && Msgs(r) == msgs
  {
    if msgs == [] then [] else
      var r := AllLeft(msgs[..|msgs| - 1], fate) + [Left(msgs[|msgs| - 1], fate)];
      assert r[..|r| - 1] == AllLeft(msgs[..|msgs| - 1], fate);
      r
  }

  function Msgs(log: seq<Left>): (r: seq<Message>)
    ensures |r| == |log|
  {
    if log == [] then [] else Msgs(log[..|log| - 1]) + [log[|log| - 1].msg]
  }

  /** Follow the tap: the dropout's edges. */
  function Observe(x: Line, v: View): Line {
    if v.offline == x.box.offline then x
    else if v.offline then
      x.(box := x.box.(offline := true, store := [], forgotten := 0, replaying := false),
         log := x.log + AllLeft(x.box.store, Cleared))
    else x.(box := x.box.(offline := false, returned := true))
  }

  function Keep(x: Line, m: Message): Line {
    var y := if |x.box.store| == STORE
      then x.(box := x.box.(store := x.box.store[1..], forgotten := x.box.forgotten + 1),
              log := x.log + [Left(x.box.store[0], Forgotten)])
      else x;
    var n := if x.box.replaying then x.backlog + 1 else x.backlog;
    y.(box := y.box.(store := y.box.store + [m]), backlog := n, worst := if x.worst < n then n else x.worst)
  }

  /** Hand a message to the client; `refused` names how it is lost if the client will not
      have it. */
  function Publish(x: Line, m: Message, client: Oracle, refused: Fate): Line {
    var ok := client(x.attempts, m);
    x.(log := x.log + [Left(m, if ok then Accepted else refused)], attempts := x.attempts + 1,
       broker := if ok && m.retain then x.broker[m.topic := m.payload] else x.broker)
  }

  /** The message without its retain flag, so that its replay overwrites nothing a broker
      keeps. */
  function Dim(m: Message): Message {
    m.(retain := false)
  }

  function Born(x: Line, v: View, m: Message): Line {
    var y := Observe(x, v);
    y.(births := y.births + [Birth(m, v.offline)])
  }

  function Send(x: Line, v: View, m: Message, client: Oracle): Line {
    var y := Born(x, v, m);
    if v.offline then Keep(y, Dim(m))
    else if y.box.replaying then Keep(y, m)
    else Publish(y, m, client, Refused)
  }

  /** Whether `send` reports success: only a live publish can fail. */
  predicate SendOk(x: Line, v: View, m: Message, client: Oracle) {
    v.offline || Observe(x, v).box.replaying || client(x.attempts, m)
  }

  function FirstNew(due: seq<nat>, replayed: seq<nat>): (r: Option<nat>)
    ensures r.Some? ==> r.value in due && r.value !in replayed
    ensures r.None? ==> forall k <- due :: k in replayed
  {
    if due == [] then None
    else if due[0] !in replayed then Some(due[0])
    else FirstNew(due[1..], replayed)
  }

  /** Hand up to n stored messages to the client, oldest first, stopping when the store is
      empty, which ends the replay, or at the first refusal. */
  function Drain(x: Line, client: Oracle, n: nat): Line
    decreases n
  {
    if n == 0 then x
    else if x.box.store == [] then x.(box := x.box.(replaying := false))
    else
      var m := x.box.store[0];
      var y := Publish(x.(box := x.box.(store := x.box.store[1..])), m, client, LostInReplay);
      if client(x.attempts, m) then Drain(y, client, n - 1) else y
  }

  /** Burst k begins its replay. */
  function Begin(x: Line, k: nat): Line {
    x.(box := x.box.(replayed := x.box.replayed + [k], replaying := true), backlog := 0)
  }

  function Backfill(x: Line, v: View, client: Oracle): Line {
    var y := Observe(x, v);
    if v.offline then y
    else if y.box.replaying then Drain(y, client, BURST)
    else match FirstNew(v.due, y.box.replayed)
      case None => y
      case Some(k) => Drain(Begin(y, k), client, BURST)
  }

  /** Whether a dropout ended since the last call. */
  function Returned(x: Line, v: View): (Line, bool) {
    var y := Observe(x, v);
    (y.(box := y.box.(returned := false)), y.box.returned)
  }

  /** A new connection, to a broker that retains whatever it does. */
  function Reconnect(x: Line, retained: map<Topic, Payload>): Line {
    x.(broker := retained, brought := retained, since := |x.log|)
  }

  datatype BoxOp =
    | DoReturned(view: View)
    | DoSend(view: View, msg: Message)
    | DoBackfill(view: View)
    | DoReconnect(retained: map<Topic, Payload>)

  function Do(x: Line, op: BoxOp, client: Oracle): Line {
    match op
    case DoReturned(v) => Returned(x, v).0
    case DoSend(v, m) => Send(x, v, m, client)
    case DoBackfill(v) => Backfill(x, v, client)
    case DoReconnect(retained) => Reconnect(x, retained)
  }

  function DoAll(x: Line, ops: seq<BoxOp>, client: Oracle): Line {
    if ops == [] then x else Do(DoAll(x, ops[..|ops| - 1], client), ops[|ops| - 1], client)
  }

  // ----- What every step keeps --------------------------------------------------------------

  /** A message as it entered: what a dropout keeps is no longer to be retained. */
  function Entered(births: seq<Birth>): (r: seq<Message>)
    ensures |r| == |births|
  {
    if births == [] then [] else
      var b := births[|births| - 1];
      Entered(births[..|births| - 1]) + [if b.dark then Dim(b.msg) else b.msg]
  }

  /** Everything handed to the outbox has left with one fate or waits in the store. */
  predicate Conserved(x: Line) {
    multiset(Msgs(x.log)) + multiset(x.box.store) == multiset(Entered(x.births))
  }

  predicate Distinct(s: seq<nat>) {
    forall i, j :: 0 <= i < j < |s| ==> s[i] != s[j]
  }

  predicate BoxOk(x: Box) {
    && |x.store| <= STORE && Distinct(x.replayed)
    && (x.offline ==> !x.replaying)
    && (!x.replaying ==> forall m <- x.store :: !m.retain)
  }

  lemma {:induction false} MsgsConcat(a: seq<Left>, b: seq<Left>)
    ensures Msgs(a + b) == Msgs(a) + Msgs(b)
  {
    if b == [] {
      assert a + b == a;
    } else {
      assert (a + b)[..|a + b| - 1] == a + b[..|b| - 1];
      MsgsConcat(a, b[..|b| - 1]);
    }
  }

  lemma {:induction false} EnteredConcat(a: seq<Birth>, b: seq<Birth>)
    ensures Entered(a + b) == Entered(a) + Entered(b)
  {
    if b == [] {
      assert a + b == a;
    } else {
      assert (a + b)[..|a + b| - 1] == a + b[..|b| - 1];
      EnteredConcat(a, b[..|b| - 1]);
    }
  }

  lemma OneLeft(l: Left)
    ensures Msgs([l]) == [l.msg]
  {}

  lemma OneBorn(b: Birth)
    ensures Entered([b]) == [if b.dark then Dim(b.msg) else b.msg]
  {}

  /** What a step adds to the history: `left` leaves, `born` enters. */
  predicate Grows(x: Line, y: Line, left: seq<Left>, born: seq<Birth>) {
    y.log == x.log + left && y.births == x.births + born
  }

  /** First in, first out: what leaves and what then waits are what waited and what came. */
  predicate Fifo(x: Line, y: Line, left: seq<Left>, born: seq<Birth>) {
    Grows(x, y, left, born) && Msgs(left) + y.box.store == x.box.store + Entered(born)
  }

  lemma FifoConserves(x: Line, y: Line, left: seq<Left>, born: seq<Birth>)
    requires Fifo(x, y, left, born) && Conserved(x)
    ensures Conserved(y)
  {
    MsgsConcat(x.log, left);
    EnteredConcat(x.births, born);
    hide Msgs, Entered;
    SameBags(Msgs(left), y.box.store, x.box.store, Entered(born));
    BagsMove(Msgs(x.log), x.box.store, Entered(x.births), Msgs(left), y.box.store, Entered(born));
  }

  lemma SameBags(l: seq<Message>, y: seq<Message>, x: seq<Message>, b: seq<Message>)
    requires l + y == x + b
    ensures multiset(l) + multiset(y) == multiset(x) + multiset(b)
  {
    assert multiset(l + y) == multiset(x + b);
  }

  lemma BagsMove(h: seq<Message>, s: seq<Message>, e: seq<Message>, l: seq<Message>, y: seq<Message>, b: seq<Message>)
    requires multiset(h) + multiset(s) == multiset(e)
    requires multiset(l) + multiset(y) == multiset(s) + multiset(b)
    ensures multiset(h + l) + multiset(y) == multiset(e + b)
  {
    assert multiset(h + l) == multiset(h) + multiset(l);
    assert multiset(e + b) == multiset(e) + multiset(b);
    Regroup(multiset(h), multiset(l), multiset(y), multiset(s), multiset(b));
  }

  lemma Regroup(h: multiset<Message>, l: multiset<Message>, y: multiset<Message>, s: multiset<Message>,
      b: multiset<Message>)
    requires l + y == s + b
    ensures (h + l) + y == (h + s) + b
  {
    assert (h + l) + y == h + (l + y);
    assert (h + s) + b == h + (s + b);
  }

  lemma FifoTrans(x: Line, y: Line, z: Line, left: seq<Left>, born: seq<Birth>, left': seq<Left>, born': seq<Birth>)
    requires Fifo(x, y, left, born) && Fifo(y, z, left', born')
    ensures Fifo(x, z, left + left', born + born')
  {
    MsgsConcat(left, left');
    EnteredConcat(born, born');
    hide Msgs, Entered;
    QueueTrans(x.box.store, y.box.store, z.box.store, Msgs(left), Msgs(left'), Entered(born), Entered(born'));
    assert x.log + (left + left') == (x.log + left) + left' == z.log;
    assert x.births + (born + born') == (x.births + born) + born' == z.births;
    assert Msgs(left + left') + z.box.store == x.box.store + Entered(born + born');
  }

  lemma QueueTrans(x: seq<Message>, y: seq<Message>, z: seq<Message>, l: seq<Message>, l': seq<Message>,
      b: seq<Message>, b': seq<Message>)
    requires l + y == x + b && l' + z == y + b'
    ensures (l + l') + z == x + (b + b')
  {
    assert (l + l') + z == l + (l' + z);
    assert l + (y + b') == (l + y) + b';
    assert (x + b) + b' == x + (b + b');
  }

  lemma ObserveFifo(x: Line, v: View)
    requires BoxOk(x.box)
    ensures var y := Observe(x, v);
      && BoxOk(y.box) && y.attempts == x.attempts && y.box.offline == v.offline
      && Fifo(x, y, if v.offline && !x.box.offline then AllLeft(x.box.store, Cleared) else [], [])
  {
    assert x.births + [] == x.births;
    assert x.log + [] == x.log;
    assert x.box.store + Entered([]) == x.box.store;
    assert Msgs([]) + x.box.store == x.box.store;
    var all := AllLeft(x.box.store, Cleared);
    assert Msgs(all) + [] == Msgs(all);
  }

  /** One message leaves the front of the store. */
  lemma PopFifo(x: Line, y: Line, fate: Fate)
    requires x.box.store != [] && y.box.store == x.box.store[1..]
    requires y.log == x.log + [Left(x.box.store[0], fate)] && y.births == x.births
    ensures Fifo(x, y, [Left(x.box.store[0], fate)], [])
  {
    OneLeft(Left(x.box.store[0], fate));
    assert x.births + [] == x.births;
    assert [x.box.store[0]] + x.box.store[1..] == x.box.store == x.box.store + Entered([]);
  }

  lemma KeepFifo(x: Line, y: Line, v: View, m: Message)
    requires |x.box.store| <= STORE && y == x.(births := x.births + [Birth(m, v.offline)])
    ensures var kept := if v.offline then Dim(m) else m;
      && |Keep(y, kept).box.store| <= STORE
      && Fifo(x, Keep(y, kept), if |x.box.store| == STORE then [Left(x.box.store[0], Forgotten)] else [],
              [Birth(m, v.offline)])
  {
    OneBorn(Birth(m, v.offline));
    if |x.box.store| == STORE {
      OneLeft(Left(x.box.store[0], Forgotten));
    } else {
      assert x.log + [] == x.log;
    }
  }

  lemma {:induction false} DrainFifo(x: Line, client: Oracle, n: nat) returns (left: seq<Left>)
    requires BoxOk(x.box) && x.box.replaying
    ensures var y := Drain(x, client, n);
      && BoxOk(y.box) && Fifo(x, y, left, []) && y.box.replayed == x.box.replayed && y.box.offline == x.box.offline
      && (forall l <- left :: l.fate == Accepted || l.fate == LostInReplay)
    decreases n
  {
    left := [];
    assert x.births + [] == x.births;
    assert x.log + [] == x.log;
    assert Msgs([]) + x.box.store == x.box.store + Entered([]);
    if n > 0 && x.box.store != [] {
      var m := x.box.store[0];
      var y := Publish(x.(box := x.box.(store := x.box.store[1..])), m, client, LostInReplay);
      var fate := if client(x.attempts, m) then Accepted else LostInReplay;
      PopFifo(x, y, fate);
      left := [Left(m, fate)];
      if client(x.attempts, m) {
        var rest := DrainFifo(y, client, n - 1);
        FifoTrans(x, y, Drain(y, client, n - 1), left, [], rest, []);
        var none: seq<Birth> := [];
        assert none + none == none;
        left := left + rest;
      }
    }
  }

  /** A message sent while nothing queues ahead of it and the device is online goes to the
      client at once, past whatever a finished dropout left in the store. */
  predicate Queued(x: Line, op: BoxOp) {
    op.DoSend? ==> op.view.offline || Observe(x, op.view).box.replaying
  }

  lemma LiveConserves(x: Line, v: View, m: Message, client: Oracle)
    requires BoxOk(x.box) && Conserved(x) && !Queued(x, DoSend(v, m))
    ensures var y := Send(x, v, m, client);
      && Conserved(y) && BoxOk(y.box) && y.box.store == x.box.store
      && y.log == x.log + [Left(m, if SendOk(x, v, m, client) then Accepted else Refused)]
  {
    hide Conserved, Msgs, Entered;
    var mid, y := Observe(x, v), Send(x, v, m, client);
    ObserveFifo(x, v);
    FifoConserves(x, mid, [], []);
    PassesBy(mid, y, m, if SendOk(x, v, m, client) then Accepted else Refused);
  }

  /** A message that goes straight through leaves the store as it was. */
  lemma PassesBy(x: Line, y: Line, m: Message, fate: Fate)
    requires Conserved(x) && y.box.store == x.box.store
    requires y.log == x.log + [Left(m, fate)] && y.births == x.births + [Birth(m, false)]
    ensures Conserved(y)
  {
    MsgsConcat(x.log, [Left(m, fate)]);
    OneLeft(Left(m, fate));
    EnteredConcat(x.births, [Birth(m, false)]);
    OneBorn(Birth(m, false));
    hide Msgs, Entered;
    assert multiset([m]) + multiset(x.box.store) == multiset(x.box.store) + multiset([m]);
    BagsMove(Msgs(x.log), x.box.store, Entered(x.births), [m], x.box.store, [m]);
  }

  lemma SendFifo(x: Line, v: View, m: Message, client: Oracle) returns (left: seq<Left>)
    requires BoxOk(x.box) && Queued(x, DoSend(v, m))
    ensures Fifo(x, Send(x, v, m, client), left, [Birth(m, v.offline)]) && BoxOk(Send(x, v, m, client).box)
  {
    var mid := Observe(x, v);
    ObserveFifo(x, v);
    var edge := if v.offline && !x.box.offline then AllLeft(x.box.store, Cleared) else [];
    hide Observe, Fifo, Msgs, Entered;
    KeepFifo(mid, Born(x, v, m), v, m);
    KeepKeeps(Born(x, v, m), if v.offline then Dim(m) else m);
    var out := if |mid.box.store| == STORE then [Left(mid.box.store[0], Forgotten)] else [];
    var none: seq<Birth> := [];
    FifoTrans(x, mid, Send(x, v, m, client), edge, none, out, [Birth(m, v.offline)]);
    assert none + [Birth(m, v.offline)] == [Birth(m, v.offline)];
    left := edge + out;
  }

  lemma KeepKeeps(x: Line, m: Message)
    requires BoxOk(x.box) && (!x.box.replaying ==> !m.retain)
    ensures BoxOk(Keep(x, m).box)
  {}

  lemma BackfillFifo(x: Line, v: View, client: Oracle) returns (left: seq<Left>)
    requires BoxOk(x.box)
    ensures var y := Backfill(x, v, client);
      && Fifo(x, y, left, []) && BoxOk(y.box)
      && (y.box.replayed == x.box.replayed
          || exists k <- v.due :: k !in x.box.replayed && !v.offline && y.box.replayed == x.box.replayed + [k])
  {
    var mid := Observe(x, v);
    ObserveFifo(x, v);
    var edge := if v.offline && !x.box.offline then AllLeft(x.box.store, Cleared) else [];
    var none: seq<Birth> := [];
    left := edge;
    if !v.offline {
      var begun := mid;
      if !mid.box.replaying && FirstNew(v.due, mid.box.replayed).Some? {
        begun := Begin(mid, FirstNew(v.due, mid.box.replayed).value);
      }
      assert Fifo(x, begun, edge, []);
      if begun.box.replaying {
        var rest := DrainFifo(begun, client, BURST);
        FifoTrans(x, begun, Drain(begun, client, BURST), edge, none, rest, none);
        assert none + none == none;
        left := edge + rest;
      }
    }
  }

  lemma DoKeeps(x: Line, op: BoxOp, client: Oracle)
    requires BoxOk(x.box) && Conserved(x)
    ensures BoxOk(Do(x, op, client).box) && Conserved(Do(x, op, client))
  {
    hide BoxOk, Conserved, Observe, Send, Backfill;
    match op
    case DoReturned(v) =>
      ReturnedFifo(x, v);
      FifoConserves(x, Returned(x, v).0, if v.offline && !x.box.offline then AllLeft(x.box.store, Cleared) else [], []);
    case DoSend(v, m) =>
      if Queued(x, op) {
        var left := SendFifo(x, v, m, client);
        FifoConserves(x, Send(x, v, m, client), left, [Birth(m, v.offline)]);
      } else {
        LiveConserves(x, v, m, client);
      }
    case DoBackfill(v) =>
      var left := BackfillFifo(x, v, client);
      FifoConserves(x, Backfill(x, v, client), left, []);
    case DoReconnect(retained) => ReconnectKeeps(x, retained);
  }

  lemma ReconnectKeeps(x: Line, retained: map<Topic, Payload>)
    requires BoxOk(x.box) && Conserved(x)
    ensures BoxOk(Reconnect(x, retained).box) && Conserved(Reconnect(x, retained))
  {
    hide Msgs, Entered;
  }

  lemma ReturnedFifo(x: Line, v: View)
    requires BoxOk(x.box)
    ensures var y := Returned(x, v).0;
      BoxOk(y.box) && Fifo(x, y, if v.offline && !x.box.offline then AllLeft(x.box.store, Cleared) else [], [])
  {
    ObserveFifo(x, v);
    hide Observe;
  }

  // ----- Whole histories ---------------------------------------------------------------------

  /** Conservation: after any sequence of sends, replays, dropouts and returns, with any
      client, everything handed to the outbox is exactly once among what left it and what
      it stores; the store is bounded, and holds nothing to be retained unless a replay is
      draining it. */
  lemma {:induction false} NothingLostSilently(ops: seq<BoxOp>, client: Oracle)
    ensures Conserved(DoAll(FRESH, ops, client)) && BoxOk(DoAll(FRESH, ops, client).box)
  {
    hide Do, Conserved, BoxOk;
    if ops == [] {
      FreshKeeps();
    } else {
      NothingLostSilently(ops[..|ops| - 1], client);
      DoKeeps(DoAll(FRESH, ops[..|ops| - 1], client), ops[|ops| - 1], client);
    }
  }

  lemma FreshKeeps()
    ensures Conserved(FRESH) && BoxOk(FRESH.box)
  {}

  /** Messages that left with one fate, in order. */
  function Of(log: seq<Left>, fate: Fate): seq<Message> {
    if log == [] then [] else
      var l := log[|log| - 1];
      Of(log[..|log| - 1], fate) + (if l.fate == fate then [l.msg] else [])
  }

  /** The wire: what the client accepted, in order. */
  function Wire(x: Line): seq<Message> {
    Of(x.log, Accepted)
  }

  /** Each departure has one of the five fates. */
  lemma {:induction false} FatesPartition(log: seq<Left>)
    ensures multiset(Msgs(log))
         == multiset(Of(log, Accepted)) + multiset(Of(log, Refused)) + multiset(Of(log, LostInReplay))
            + multiset(Of(log, Forgotten)) + multiset(Of(log, Cleared))
  {
    if log != [] { FatesPartition(log[..|log| - 1]); }
  }

  /** Every message sent is exactly once on the wire, in the store, or in a named loss. */
  lemma EveryMessageAccounted(ops: seq<BoxOp>, client: Oracle)
    ensures var x := DoAll(FRESH, ops, client);
      multiset(Wire(x)) + multiset(x.box.store)
        + multiset(Of(x.log, Refused)) + multiset(Of(x.log, LostInReplay))
        + multiset(Of(x.log, Forgotten)) + multiset(Of(x.log, Cleared))
      == multiset(Entered(x.births))
  {
    hide Of, Msgs, Entered, DoAll;
    NothingLostSilently(ops, client);
    FatesPartition(DoAll(FRESH, ops, client).log);
  }

  /** The messages sent while the device was online. */
  function LiveBirths(births: seq<Birth>): seq<Message> {
    if births == [] then [] else
      var b := births[|births| - 1];
      LiveBirths(births[..|births| - 1]) + (if b.dark then [] else [b.msg])
  }

  lemma {:induction false} RetainedIsLive(births: seq<Birth>, m: Message)
    requires m.retain
    ensures multiset(Entered(births))[m] == multiset(LiveBirths(births))[m]
  {
    if births != [] { RetainedIsLive(births[..|births| - 1], m); }
  }

  /** Nothing born in a dropout goes out retained: a retained message is on the wire at
      most as often as it was sent live. */
  lemma NothingDarkRetained(ops: seq<BoxOp>, client: Oracle, m: Message)
    requires m.retain
    ensures var x := DoAll(FRESH, ops, client); multiset(Wire(x))[m] <= multiset(LiveBirths(x.births))[m]
  {
    hide Of, Msgs, Entered, DoAll, LiveBirths, Wire;
    var x := DoAll(FRESH, ops, client);
    EveryMessageAccounted(ops, client);
    RetainedIsLive(x.births, m);
    assert multiset(Wire(x))[m] <= multiset(Entered(x.births))[m];
  }

  predicate AllQueued(x: Line, ops: seq<BoxOp>, client: Oracle) {
    ops == []
    || (AllQueued(x, ops[..|ops| - 1], client) && Queued(DoAll(x, ops[..|ops| - 1], client), ops[|ops| - 1]))
  }

  /** Order: as long as no message is sent past the store (every send finds a dropout or a
      draining replay), what leaves is the store in birth order with the newer messages
      behind it, and what still waits comes after both. */
  lemma {:induction false} ReplayInOrder(x: Line, ops: seq<BoxOp>, client: Oracle)
    returns (left: seq<Left>, born: seq<Birth>)
    requires BoxOk(x.box) && AllQueued(x, ops, client)
    ensures var y := DoAll(x, ops, client);
      && BoxOk(y.box) && y.log == x.log + left && y.births == x.births + born
      && Msgs(left) + y.box.store == x.box.store + Entered(born)
  {
    hide Do, BoxOk, Queued, Msgs, Entered;
    if ops == [] {
      StaysFifo(x);
      left, born := [], [];
    } else {
      var mid, op := DoAll(x, ops[..|ops| - 1], client), ops[|ops| - 1];
      left, born := ReplayInOrder(x, ops[..|ops| - 1], client);
      var left', born' := DoFifo(mid, op, client);
      FifoTrans(x, mid, Do(mid, op, client), left, born, left', born');
      left, born := left + left', born + born';
    }
  }

  lemma StaysFifo(x: Line)
    ensures Fifo(x, x, [], [])
  {
    assert x.births + [] == x.births;
    assert x.log + [] == x.log;
    assert Msgs([]) + x.box.store == x.box.store + Entered([]);
  }

  lemma DoFifo(x: Line, op: BoxOp, client: Oracle) returns (left: seq<Left>, born: seq<Birth>)
    requires BoxOk(x.box) && Queued(x, op)
    ensures Fifo(x, Do(x, op, client), left, born) && BoxOk(Do(x, op, client).box)
  {
    hide BoxOk, Observe, Send, Backfill, Fifo;
    match op
    case DoReturned(v) =>
      ReturnedFifo(x, v);
      left, born := if v.offline && !x.box.offline then AllLeft(x.box.store, Cleared) else [], [];
    case DoSend(v, m) =>
      left := SendFifo(x, v, m, client);
      born := [Birth(m, v.offline)];
    case DoBackfill(v) =>
      left := BackfillFifo(x, v, client);
      born := [];
    case DoReconnect(retained) =>
      StaysFifo(x);
      FifoElsewhere(x, Reconnect(x, retained));
      left, born := [], [];
  }

  lemma FifoElsewhere(x: Line, y: Line)
    requires y.box == x.box && y.log == x.log && y.births == x.births && Fifo(x, x, [], [])
    ensures Fifo(x, y, [], [])
  {}

  /** Each burst starts at most one replay, online and once due: the row of replays begun
      never repeats an index and only `backfill` adds to it, one due burst at a time. */
  lemma BurstsReplayOnce(ops: seq<BoxOp>, op: BoxOp, client: Oracle)
    ensures var x := DoAll(FRESH, ops, client);
      var y := Do(x, op, client);
      && Distinct(y.box.replayed)
      && (y.box.replayed == x.box.replayed
          || (op.DoBackfill? && !op.view.offline
              && exists k <- op.view.due :: k !in x.box.replayed && y.box.replayed == x.box.replayed + [k]))
  {
    hide DoAll, Conserved;
    NothingLostSilently(ops, client);
    var x := DoAll(FRESH, ops, client);
    DoKeeps(x, op, client);
    if op.DoBackfill? {
      var left := BackfillFifo(x, op.view, client);
    }
    hide Backfill;
  }
}
