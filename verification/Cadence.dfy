/** The cadence: which points one wake attempts, and how far apart in plant time the
    attempts of a class are. */
module CadenceLaws {
  import opened Wrappers
  import opened Outboxes
  import opened Publishers
  import opened DeliveryLaws

  /** The messages of the due cadence points from i on, in index order. */
  function DueMsgs(last: seq<Option<int>>, points: seq<Class>, snap: Snap, i: nat): seq<Message>
    requires |last| == 3 && |snap.readings| == |points| && i <= |points|
    decreases |points| - i
  {
    if i == |points| then [] else
      (if CadenceDue(last, points[i], snap.simS) then [CadenceMsg(i, snap)] else [])
      + DueMsgs(last, points, snap, i + 1)
  }

  function BirthsOf(msgs: seq<Message>, dark: bool): (r: seq<Birth>)
    ensures |r| == |msgs| && forall k :: 0 <= k < |msgs| ==> r[k] == Birth(msgs[k], dark)
  {
    if msgs == [] then [] else BirthsOf(msgs[..|msgs| - 1], dark) + [Birth(msgs[|msgs| - 1], dark)]
  }

  /** n of the due messages were handed over, in order; the client had refused none before
      the last, and if the loop stopped short it refused that one. */
  predicate HandsOver(x: Line, y: Line, due: seq<Message>, dark: bool, n: nat) {
    && n <= |due| && y.births == x.births + BirthsOf(due[..n], dark)
    && |x.log| <= |y.log| && y.log[..|x.log|] == x.log
    && (forall k :: |x.log| <= k < |y.log| - 1 ==> y.log[k].fate != Refused)
    && (n < |due| ==> n > 0 && |x.log| < |y.log| && y.log[|y.log| - 1] == Left(due[n - 1], Refused))
  }

  lemma SendAppends(x: Line, v: View, m: Message, client: Oracle)
    ensures var y := Send(x, v, m, client);
      && y.births == x.births + [Birth(m, v.offline)]
      && (SendOk(x, v, m, client) ==> NoRefusal(x, y))
      && (!SendOk(x, v, m, client) ==> y.log == x.log + [Left(m, Refused)])
  {
    SendBirths(x, v, m, client);
    hide NoRefusal, Observe;
    ObserveRefuses(x, v);
    OnlineObserve(x, v);
    var z := Born(x, v, m);
    if v.offline || z.box.replaying {
      KeepRefuses(z, if v.offline then Dim(m) else m);
      Unmoved(Observe(x, v), z);
      NoRefusalTrans(x, Observe(x, v), z);
      NoRefusalTrans(x, z, Send(x, v, m, client));
    } else if SendOk(x, v, m, client) {
      OneMore(x, Send(x, v, m, client));
    }
  }

  lemma OnlineObserve(x: Line, v: View)
    ensures !v.offline ==> Observe(x, v).log == x.log && Observe(x, v).box.replaying == x.box.replaying
    ensures Observe(x, v).attempts == x.attempts && Observe(x, v).births == x.births
  {}

  lemma {:induction false} CadenceHands(x: Line, last: seq<Option<int>>, points: seq<Class>, snap: Snap,
      client: Oracle, i: nat)
    returns (n: nat)
    requires |last| == 3 && |snap.readings| == |points| && i <= |points|
    ensures HandsOver(x, CadenceFrom(x, last, points, snap, client, i), DueMsgs(last, points, snap, i),
        snap.view.offline, n)
    decreases |points| - i
  {
    hide Send, SendOk, HandsOver;
    n := 0;
    if i == |points| {
      NothingHanded(x, snap.view.offline);
    } else if CadenceDue(last, points[i], snap.simS) {
      var m, rest := CadenceMsg(i, snap), DueMsgs(last, points, snap, i + 1);
      var y := Send(x, snap.view, m, client);
      SendAppends(x, snap.view, m, client);
      if SendOk(x, snap.view, m, client) {
        var k := CadenceHands(y, last, points, snap, client, i + 1);
        OneHanded(x, y, CadenceFrom(y, last, points, snap, client, i + 1), m, rest, snap.view.offline, k);
        n := k + 1;
      } else {
        LastHanded(x, y, m, rest, snap.view.offline);
        n := 1;
      }
    } else {
      n := CadenceHands(x, last, points, snap, client, i + 1);
      assert [] + DueMsgs(last, points, snap, i + 1) == DueMsgs(last, points, snap, i + 1);
    }
  }

  lemma NothingHanded(x: Line, dark: bool)
    ensures HandsOver(x, x, [], dark, 0)
  {
    assert BirthsOf([][..0], dark) == [];
    assert x.births + [] == x.births;
  }

  lemma OneHanded(x: Line, y: Line, z: Line, m: Message, rest: seq<Message>, dark: bool, k: nat)
    requires y.births == x.births + [Birth(m, dark)] && NoRefusal(x, y) && HandsOver(y, z, rest, dark, k)
    ensures HandsOver(x, z, [m] + rest, dark, k + 1)
  {
    assert ([m] + rest)[..k + 1] == [m] + rest[..k];
    FirstBirth(m, rest[..k], dark);
    forall j | |x.log| <= j < |z.log| - 1
      ensures z.log[j].fate != Refused
    {
      if j < |y.log| { assert z.log[..|y.log|][j] == y.log[j]; }
    }
    assert z.log[..|x.log|] == z.log[..|y.log|][..|x.log|];
  }

  lemma FirstBirth(m: Message, rest: seq<Message>, dark: bool)
    ensures BirthsOf([m] + rest, dark) == [Birth(m, dark)] + BirthsOf(rest, dark)
  {}

  lemma LastHanded(x: Line, y: Line, m: Message, rest: seq<Message>, dark: bool)
    requires y.births == x.births + [Birth(m, dark)] && y.log == x.log + [Left(m, Refused)]
    ensures HandsOver(x, y, [m] + rest, dark, 1)
  {
    assert ([m] + rest)[..1] == [m];
    FirstBirth(m, [], dark);
    assert [m] + [] == [m] && BirthsOf([], dark) == [];
  }

  /** One cadence wake hands over the points whose class is due, in index order, each once,
      stopping at the first the client refuses; and a class that was due is stamped with
      the wake's time whether or not its points went out. */
  lemma CadenceMeans(d: Desk, points: seq<Class>, snap: Snap, client: Oracle) returns (n: nat)
    requires DeskOk(d, points) && |snap.readings| == |points|
    ensures var next := PublishCadence(d, points, snap, client);
      && HandsOver(d.line, next.line, DueMsgs(d.lastPubS, points, snap, 0), snap.view.offline, n)
      && forall c: Class :: c != OnChange ==>
           next.lastPubS[ClassIndex(c).value]
           == (if CadenceDue(d.lastPubS, c, snap.simS) then Some(snap.simS) else d.lastPubS[ClassIndex(c).value])
  {
    hide HandsOver, CadenceFrom, DueMsgs;
    n := CadenceHands(d.line, d.lastPubS, points, snap, client, 0);
  }

  /** What the due messages are: the point's reading, for exactly the points of due classes,
      once each. */
  lemma {:induction false} DueAre(last: seq<Option<int>>, points: seq<Class>, snap: Snap, i: nat, m: Message)
    requires |last| == 3 && |snap.readings| == |points| && i <= |points|
    ensures multiset(DueMsgs(last, points, snap, i))[m]
         == if m.topic.PointTopic? && i <= m.topic.point < |points|
             && CadenceDue(last, points[m.topic.point], snap.simS)
               && m == CadenceMsg(m.topic.point, snap) then 1 else 0
    decreases |points| - i
  {
    if i < |points| {
      var first := if CadenceDue(last, points[i], snap.simS) then [CadenceMsg(i, snap)] else [];
      var rest := DueMsgs(last, points, snap, i + 1);
      assert DueMsgs(last, points, snap, i) == first + rest;
      hide CadenceDue, DueMsgs;
      DueAre(last, points, snap, i + 1, m);
      Counts(first, rest, m);
      OneOrNone(first, m);
    }
  }

  lemma OneOrNone(a: seq<Message>, m: Message)
    requires |a| <= 1
    ensures multiset(a)[m] == if |a| == 1 && a[0] == m then 1 else 0
  {
    if |a| == 1 { assert a == [a[0]]; }
  }

  lemma Counts(a: seq<Message>, b: seq<Message>, m: Message)
    ensures multiset(a + b)[m] == multiset(a)[m] + multiset(b)[m]
  {
    assert multiset(a + b) == multiset(a) + multiset(b);
  }

  // ----- Periods -----------------------------------------------------------------------------------

  predicate DueNow(w: World, op: Wake, c: Class)
    requires |w.desk.lastPubS| == 3
  {
    op.Cadence? && CadenceDue(w.desk.lastPubS, c, op.snap.simS)
  }

  /** When class c was last published, after a wake. */
  lemma StampStep(w: World, points: seq<Class>, op: Wake, client: Oracle, c: Class)
    requires DeskOk(w.desk, points) && FitsPoints(points, op) && c != OnChange
    ensures var k := ClassIndex(c).value;
      Step(w, points, op, client).desk.lastPubS[k]
          == (if DueNow(w, op, c) then Some(op.snap.simS) else w.desk.lastPubS[k])
  {
    hide CadenceFrom, ChangedFrom, EventsFrom, Returned, Backfill;
  }

  predicate StampedSince(w: World, c: Class, from: int)
    requires |w.desk.lastPubS| == 3 && c != OnChange
  {
    w.desk.lastPubS[ClassIndex(c).value].Some? && from <= w.desk.lastPubS[ClassIndex(c).value].value
  }

  lemma StampHolds(w: World, points: seq<Class>, op: Wake, client: Oracle, c: Class, from: int)
    requires DeskOk(w.desk, points) && FitsPoints(points, op) && c != OnChange
    requires StampedSince(w, c, from) || (DueNow(w, op, c) && op.snap.simS == from)
    ensures StampedSince(Step(w, points, op, client), c, from)
  {
    hide Step;
    StampStep(w, points, op, client, c);
  }

  /** From a wake at which class c was due, its stamp never falls behind that wake. */
  lemma {:induction false} StampStays(points: seq<Class>, ops: seq<Wake>, client: Oracle, a: nat, c: Class)
    requires (forall op <- ops :: FitsPoints(points, op)) && a < |ops| && c != OnChange
    requires DueNow(History(points, ops[..a], client), ops[a], c)
    ensures StampedSince(History(points, ops, client), c, ops[a].snap.simS)
  {
    hide Step, StampedSince, CadenceDue;
    var init := ops[..|ops| - 1];
    if a < |ops| - 1 {
      assert init[..a] == ops[..a];
      StampStays(points, init, client, a, c);
    }
    StampHolds(History(points, init, client), points, ops[|ops| - 1], client, c, ops[a].snap.simS);
  }

  /** Each cadence class is attempted at most once per period: any two wakes of a history at
      which it was due are a period of plant time apart. */
  lemma ClassOncePerPeriod(points: seq<Class>, ops: seq<Wake>, client: Oracle, a: nat, b: nat, c: Class)
    requires (forall op <- ops :: FitsPoints(points, op)) && a < b < |ops| && c != OnChange
    requires DueNow(History(points, ops[..a], client), ops[a], c)
    requires DueNow(History(points, ops[..b], client), ops[b], c)
    ensures PeriodS(c).value <= ops[b].snap.simS - ops[a].snap.simS
  {
    hide History;
    assert ops[..b][..a] == ops[..a];
    StampStays(points, ops[..b], client, a, c);
  }

  /** Seconds of plant time between two publications of a class. */
  function SecondsOf(c: Class): int
    requires c != OnChange
  {
    match c
    case Fast => 1
    case Medium => 10
    case Slow => 60
  }

  /** When class c was last due over a history: at its first cadence wake, and then at each
      that comes its seconds or more after the one before. */
  function LastDue(ops: seq<Wake>, c: Class): Option<int>
    requires c != OnChange
  {
    if ops == [] then None else
      var before, last := LastDue(ops[..|ops| - 1], c), ops[|ops| - 1];
      if last.Cadence? && (before.None? || SecondsOf(c) <= last.snap.simS - before.value)
      then Some(last.snap.simS) else before
  }

  /** After any history a class is due at a cadence wake exactly when it never was before or
      its seconds have passed since it last was. */
  lemma {:induction false} DueExactly(points: seq<Class>, ops: seq<Wake>, client: Oracle, c: Class, op: Wake)
    requires (forall x <- ops :: FitsPoints(points, x)) && c != OnChange
    ensures History(points, ops, client).desk.lastPubS[ClassIndex(c).value] == LastDue(ops, c)
    ensures DueNow(History(points, ops, client), op, c) <==>
      op.Cadence? && (LastDue(ops, c).None? || SecondsOf(c) <= op.snap.simS - LastDue(ops, c).value)
  {
    hide Step;
    if ops != [] {
      var init, last := ops[..|ops| - 1], ops[|ops| - 1];
      DueExactly(points, init, client, c, last);
      StampStep(History(points, init, client), points, last, client, c);
    }
  }
}
