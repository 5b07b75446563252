/** What the publisher's messages say and which words it publishes, off the history of its
    outbox. */
module MessageLaws {
  import opened Wrappers
  import opened Outboxes
  import opened Publishers
  import opened DeliveryLaws
  import opened CadenceLaws

  /** What entered the outbox since x. */
  function Since(x: Line, y: Line): seq<Birth>
    requires |x.births| <= |y.births|
  {
    y.births[|x.births|..]
  }

  /** A message that gives a point's reading, by the device's clock. */
  predicate SaysReading(m: Message, snap: Snap) {
    && m.topic.PointTopic? && m.topic.point < |snap.readings|
    && m.payload.PointPayload? && m.payload.value == snap.readings[m.topic.point]
    && m.payload.stampS == snap.deviceS
  }

  // ----- Cadence points -----------------------------------------------------------------------

  /** A cadence message: the reading of a point of a due class, at most once and not to be
      retained. */
  predicate SaysCadence(m: Message, last: seq<Option<int>>, points: seq<Class>, snap: Snap)
    requires |last| == 3 && |snap.readings| == |points|
  {
    SaysReading(m, snap) && m.qos == AtMostOnce && !m.retain && CadenceDue(last, points[m.topic.point], snap.simS)
  }

  lemma {:induction false} DueSay(last: seq<Option<int>>, points: seq<Class>, snap: Snap, i: nat)
    requires |last| == 3 && |snap.readings| == |points| && i <= |points|
    ensures forall m <- DueMsgs(last, points, snap, i) :: SaysCadence(m, last, points, snap)
    decreases |points| - i
  {
    if i < |points| { DueSay(last, points, snap, i + 1); }
  }

  /** Every message of a cadence wake is such a reading. */
  lemma CadenceSays(d: Desk, points: seq<Class>, snap: Snap, client: Oracle)
    requires DeskOk(d, points) && |snap.readings| == |points|
    ensures var next := PublishCadence(d, points, snap, client);
      |d.line.births| <= |next.line.births|
      && forall birth <- Since(d.line, next.line) :: SaysCadence(birth.msg, d.lastPubS, points, snap)
  {
    hide PublishCadence, DueMsgs, SaysCadence;
    var n := CadenceMeans(d, points, snap, client);
    var due, next := DueMsgs(d.lastPubS, points, snap, 0), PublishCadence(d, points, snap, client);
    DueSay(d.lastPubS, points, snap, 0);
    assert Since(d.line, next.line) == BirthsOf(due[..n], snap.view.offline);
    forall birth <- Since(d.line, next.line)
      ensures SaysCadence(birth.msg, d.lastPubS, points, snap)
    {
      var k :| 0 <= k < n && Since(d.line, next.line)[k] == birth;
      assert birth.msg == due[..n][k] == due[k];
    }
  }

  // ----- Words ---------------------------------------------------------------------------------

  /** The words to publish from i on, in index order: those whose reading is not the one
      published last. */
  function NewWords(last: seq<Option<real>>, points: seq<Class>, snap: Snap, i: nat): seq<Message>
    requires |last| == |points| == |snap.readings| && i <= |points|
    decreases |points| - i
  {
    if i == |points| then [] else
      (if points[i] == OnChange && last[i] != Some(snap.readings[i]) then [WordMsg(i, snap)] else [])
      + NewWords(last, points, snap, i + 1)
  }

  lemma {:induction false} SameWords(a: seq<Option<real>>, b: seq<Option<real>>, points: seq<Class>, snap: Snap, i: nat)
    requires |a| == |b| == |points| == |snap.readings| && i <= |points| && a[i..] == b[i..]
    ensures NewWords(a, points, snap, i) == NewWords(b, points, snap, i)
    decreases |points| - i
  {
    if i < |points| {
      assert a[i] == a[i..][0] == b[i..][0] == b[i];
      assert a[i + 1..] == a[i..][1..] == b[i..][1..] == b[i + 1..];
      SameWords(a, b, points, snap, i + 1);
    }
  }

  /** What a change loop from i on leaves of the cache: the reading where the word was to be
      published and its send succeeded, and elsewhere what was there. */
  predicate Recorded(last: seq<Option<real>>, next: seq<Option<real>>, points: seq<Class>, snap: Snap, i: nat)
    requires |last| == |next| == |points| == |snap.readings|
  {
    forall k :: 0 <= k < |points| ==>
      next[k] == last[k] || (i <= k && points[k] == OnChange && next[k] == Some(snap.readings[k]))
  }

  /** The word of one point, if it is to be published. */
  function NewWord(last: seq<Option<real>>, points: seq<Class>, snap: Snap, i: nat): seq<Message>
    requires |last| == |points| == |snap.readings| && i < |points|
  {
    if points[i] == OnChange && last[i] != Some(snap.readings[i]) then [WordMsg(i, snap)] else []
  }

  lemma WordBorn(x: Line, last: seq<Option<real>>, points: seq<Class>, snap: Snap, client: Oracle, i: nat)
    requires |last| == |points| == |snap.readings| && i < |points|
    ensures var (y, next) := WordStep(x, last, points, snap, client, i);
      && y.births == x.births + BirthsOf(NewWord(last, points, snap, i), snap.view.offline)
      && next[i + 1..] == last[i + 1..] && Recorded(last, next, points, snap, i)
      && forall k :: 0 <= k < i ==> next[k] == last[k]
  {
    hide Send, SendOk;
    SendBirths(x, snap.view, WordMsg(i, snap), client);
    assert x.births + [] == x.births;
  }

  lemma BirthsConcat(a: seq<Message>, b: seq<Message>, dark: bool)
    ensures BirthsOf(a + b, dark) == BirthsOf(a, dark) + BirthsOf(b, dark)
  {}

  lemma {:induction false} ChangedBorn(x: Line, last: seq<Option<real>>, points: seq<Class>, snap: Snap,
      client: Oracle, i: nat)
    requires |last| == |points| == |snap.readings| && i <= |points|
    ensures var r := ChangedFrom(x, last, points, snap, client, i);
      && r.0.births == x.births + BirthsOf(NewWords(last, points, snap, i), snap.view.offline)
      && Recorded(last, r.1, points, snap, i)
    decreases |points| - i
  {
    hide ChangedFrom, WordStep, Recorded, BirthsOf, NewWords, NewWord;
    NewWordsStep(last, points, snap, i);
    if i == |points| {
      ChangedEnd(x, last, points, snap, client);
      NothingBorn(x, last, points, snap);
    } else {
      var (y, next) := WordStep(x, last, points, snap, client, i);
      ChangedByStep(x, last, points, snap, client, i);
      WordBorn(x, last, points, snap, client, i);
      ChangedBorn(y, next, points, snap, client, i + 1);
      SameWords(last, next, points, snap, i + 1);
      BirthsJoin(x.births, NewWord(last, points, snap, i), NewWords(last, points, snap, i + 1), snap.view.offline);
      RecordedOn(last, next, ChangedFrom(y, next, points, snap, client, i + 1).1, points, snap, i);
    }
  }

  lemma NewWordsStep(last: seq<Option<real>>, points: seq<Class>, snap: Snap, i: nat)
    requires |last| == |points| == |snap.readings| && i <= |points|
    ensures NewWords(last, points, snap, i)
      == if i == |points| then [] else NewWord(last, points, snap, i) + NewWords(last, points, snap, i + 1)
  {}

  lemma NothingBorn(x: Line, last: seq<Option<real>>, points: seq<Class>, snap: Snap)
    requires |last| == |points| == |snap.readings|
    ensures x.births + BirthsOf([], snap.view.offline) == x.births && Recorded(last, last, points, snap, |points|)
  {}

  lemma BirthsJoin(births: seq<Birth>, one: seq<Message>, rest: seq<Message>, dark: bool)
    ensures (births + BirthsOf(one, dark)) + BirthsOf(rest, dark) == births + BirthsOf(one + rest, dark)
  {
    BirthsConcat(one, rest, dark);
  }

  lemma RecordedOn(last: seq<Option<real>>, mid: seq<Option<real>>, next: seq<Option<real>>, points: seq<Class>,
      snap: Snap, i: nat)
    requires |last| == |mid| == |next| == |points| == |snap.readings|
    requires Recorded(last, mid, points, snap, i) && Recorded(mid, next, points, snap, i + 1)
    ensures Recorded(last, next, points, snap, i)
  {}

  /** A wake of the change loop hands over, once each and in index order, the words that
      differ from the last published, and every word after a new connection or a dropout
      that ended. */
  lemma ChangedMeans(d: Desk, points: seq<Class>, snap: Snap, connection: nat, client: Oracle)
    requires DeskOk(d, points) && |snap.readings| == |points|
    ensures var next := PublishChanged(d, points, snap, connection, client);
      var anew := connection != d.publishedOn || Returned(d.line, snap.view).1;
      && next.line.births
         == d.line.births
            + BirthsOf(NewWords(if anew then Forgot(|points|) else d.lastWord, points, snap, 0), snap.view.offline)
      && next.publishedOn == connection
      && Recorded(if anew then Forgot(|points|) else d.lastWord, next.lastWord, points, snap, 0)
  {
    hide ChangedFrom, NewWords, Observe;
    ObserveBirths(d.line, snap.view);
    ChangedBorn(Returned(d.line, snap.view).0,
        if connection != d.publishedOn || Returned(d.line, snap.view).1 then Forgot(|points|) else d.lastWord,
        points, snap, client, 0);
  }

  /** Point messages in index order. */
  predicate Rising(msgs: seq<Message>) {
    forall a, b :: 0 <= a < b < |msgs| ==>
      msgs[a].topic.PointTopic? && msgs[b].topic.PointTopic? && msgs[a].topic.point < msgs[b].topic.point
  }

  /** Which words those are: the reading of an on-change point whose last differs, at least
      once and to be retained, in index order. */
  lemma {:induction false} NewWordsSay(last: seq<Option<real>>, points: seq<Class>, snap: Snap, i: nat)
    requires |last| == |points| == |snap.readings| && i <= |points|
    ensures Rising(NewWords(last, points, snap, i))
    ensures forall m <- NewWords(last, points, snap, i) :: SaysWord(m, last, points, snap) && i <= m.topic.point
    decreases |points| - i
  {
    if i < |points| { NewWordsSay(last, points, snap, i + 1); }
  }

  predicate SaysWord(m: Message, last: seq<Option<real>>, points: seq<Class>, snap: Snap)
    requires |last| == |points| == |snap.readings|
  {
    && SaysReading(m, snap) && m.qos == AtLeastOnce && m.retain
    && points[m.topic.point] == OnChange && last[m.topic.point] != Some(snap.readings[m.topic.point])
  }

  /** And none of them is left out. */
  lemma {:induction false} NewWordsAll(last: seq<Option<real>>, points: seq<Class>, snap: Snap, i: nat, k: nat)
    requires |last| == |points| == |snap.readings| && i <= k < |points|
    requires points[k] == OnChange && last[k] != Some(snap.readings[k])
    ensures WordMsg(k, snap) in NewWords(last, points, snap, i)
    decreases |points| - i
  {
    if i < k { NewWordsAll(last, points, snap, i + 1, k); }
  }

  // ----- Events ---------------------------------------------------------------------------------

  /** Every message of a batch names its event and its number in the log, by the batch's
      stamp, at least once and not to be retained. */
  lemma EventsSay(d: Desk, snap: Snap, batch: Batch, client: Oracle, k: nat)
    requires k < |batch.events|
    ensures var next := PublishEvents(d, snap, batch, client);
      |next.line.births| == |d.line.births| + |batch.events|
      && var m := next.line.births[|d.line.births| + k].msg;
         && m.topic == EventTopic(batch.events[k]) && m.qos == AtLeastOnce && !m.retain
         && m.payload == EventPayload(batch.stampS, batch.first + k, batch.events[k])
  {
    hide PublishEvents;
    EventsOnceInOrder(d, snap, batch, client);
  }
}
