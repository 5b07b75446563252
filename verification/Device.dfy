/** The outbox and the publisher as they run: fields updated in place, loops over the
    points and the store, each proved to be the functions of `Outboxes` and `Publishers`. */
module Devices {
  import opened Wrappers
  import opened Outboxes
  import opened Publishers

  /** The client as an oracle: it takes or refuses each message as it likes. */
  class Client {
    const accepts: Oracle
    var attempts: nat

    constructor (accepts: Oracle)
      ensures this.accepts == accepts && attempts == 0
    {
      this.accepts := accepts;
      attempts := 0;
    }

    method TryPublish(m: Message) returns (ok: bool)
      modifies this
      ensures ok == accepts(old(attempts), m) && attempts == old(attempts) + 1
    {
      ok := accepts(attempts, m);
      attempts := attempts + 1;
    }
  }

  class Outbox {
    const client: Client
    var store: seq<Message>
    var offline: bool
    var returned: bool
    var replayed: seq<nat>
    var replaying: bool
    var forgotten: nat

    /** The history these fields are the end of. */
    ghost var line: Line

    ghost predicate Valid()
      reads this, client
    {
      line.box == Box(store, offline, returned, replayed, replaying, forgotten) && line.attempts == client.attempts
    }

    constructor (client: Client)
      requires client.attempts == 0
      ensures Valid() && this.client == client && line == FRESH
    {
      this.client := client;
      store, offline, returned, replayed, replaying, forgotten := [], false, false, [], false, 0;
      line := FRESH;
    }

    /** Follow the tap: the dropout's edges. */
    method Observe(v: View) returns (now: bool)
      requires Valid()
      modifies this
      ensures Valid() && line == Outboxes.Observe(old(line), v) && now == v.offline
    {
      if v.offline != offline {
        line := Outboxes.Observe(line, v);
        offline := v.offline;
        if offline {
          store := [];
          forgotten := 0;
          replaying := false;
        } else {
          returned := true;
        }
      }
      now := v.offline;
    }

    /** Whether a dropout ended since the last call. */
    method Returned(v: View) returns (was: bool)
      requires Valid()
      modifies this
      ensures Valid() && line == Outboxes.Returned(old(line), v).0 && was == Outboxes.Returned(old(line), v).1
    {
      var _ := Observe(v);
      was := returned;
      returned := false;
      line := line.(box := line.box.(returned := false));
    }

    method Keep(m: Message)
      requires Valid()
      modifies this
      ensures Valid() && line == Outboxes.Keep(old(line), m)
    {
      line := Outboxes.Keep(line, m);
      if |store| == STORE {
        store := store[1..];
        forgotten := forgotten + 1;
      }
      store := store + [m];
    }

    /** Publish `m`, or keep it in a dropout or behind a draining replay. */
    method Send(v: View, m: Message) returns (ok: bool)
      requires Valid()
      modifies this, client
      ensures Valid() && line == Outboxes.Send(old(line), v, m, client.accepts)
          && ok == SendOk(old(line), v, m, client.accepts)
    {
      hide Outboxes.Keep, Outboxes.Observe;
      AttemptsKept(line, v);
      var off := Observe(v);
      line := line.(births := line.births + [Birth(m, v.offline)]);
      if off {
        Keep(m.(retain := false));
        return true;
      }
      if replaying {
        Keep(m);
        return true;
      }
      line := Publish(line, m, client.accepts, Refused);
      ok := client.TryPublish(m);
    }

    /** Replay the store when a burst's instant has passed, a slice of it per call. */
    method Backfill(v: View)
      requires Valid()
      modifies this, client
      ensures Valid() && line == Outboxes.Backfill(old(line), v, client.accepts)
    {
      hide Outboxes.Observe, Drain;
      AttemptsKept(line, v);
      var off := Observe(v);
      if off { return; }
      if !replaying {
        var due := FirstNew(v.due, replayed);
        if due.None? { return; }
        replayed := replayed + [due.value];
        replaying := true;
        line := Begin(line, due.value);
      }
      ReplaySlice();
    }

    /** Hand up to a burst's worth of stored messages to the client, oldest first. */
    method ReplaySlice()
      requires Valid()
      modifies this, client
      ensures Valid() && line == Drain(old(line), client.accepts, BURST)
    {
      hide Drain;
      ghost var goal := Drain(line, client.accepts, BURST);
      for k := 0 to BURST
        invariant Valid() && Drain(line, client.accepts, BURST - k) == goal
      {
        DrainStep(line, client.accepts, BURST - k);
        if store == [] {
          replaying := false;
          line := line.(box := line.box.(replaying := false));
          return;
        }
        var m := store[0];
        store := store[1..];
        line := Publish(line.(box := line.box.(store := store)), m, client.accepts, LostInReplay);
        var ok := client.TryPublish(m);
        if !ok { return; }
      }
      DrainNone(line, client.accepts);
    }
  }

  lemma AttemptsKept(x: Line, v: View)
    ensures Outboxes.Observe(x, v).attempts == x.attempts
  {}

  lemma DrainNone(x: Line, client: Oracle)
    ensures Drain(x, client, 0) == x
  {}

  lemma DrainStep(x: Line, client: Oracle, n: nat)
    requires n > 0
    ensures Drain(x, client, n)
         == if x.box.store == [] then x.(box := x.box.(replaying := false)) else
              var m := x.box.store[0];
              var y := Publish(x.(box := x.box.(store := x.box.store[1..])), m, client, LostInReplay);
              if client(x.attempts, m) then Drain(y, client, n - 1) else y
  {}

  class Publisher {
    const points: seq<Class>
    const outbox: Outbox
    var lastPubS: seq<Option<int>>
    var lastWord: seq<Option<real>>
    var publishedOn: nat
    var dropped: nat

    ghost function Value(): Desk
      reads this, outbox
    {
      Desk(outbox.line, lastPubS, lastWord, publishedOn, dropped)
    }

    ghost predicate Valid()
      reads this, outbox, outbox.client
    {
      outbox.Valid() && DeskOk(Value(), points)
    }

    constructor (points: seq<Class>, outbox: Outbox)
      requires outbox.Valid() && outbox.line == FRESH
      ensures Valid() && this.points == points && this.outbox == outbox && Value() == Start(points).desk
    {
      this.points := points;
      this.outbox := outbox;
      lastPubS := [None, None, None];
      lastWord := Forgot(|points|);
      publishedOn, dropped := 0, 0;
    }

    /** Replay what a burst owes, ahead of anything live. */
    method Backfill(snap: Snap)
      requires Valid()
      modifies outbox, outbox.client
      ensures Valid() && Value() == old(Value()).(line := Outboxes.Backfill(old(outbox.line), snap.view,
          outbox.client.accepts))
    {
      hide Outboxes.Backfill;
      outbox.Backfill(snap.view);
    }

    /** The cadence points whose class period has elapsed; a refusal drops the batch. */
    method PublishCadence(snap: Snap)
      requires Valid() && |snap.readings| == |points|
      modifies this, outbox, outbox.client
      ensures Valid() && Value() == Publishers.PublishCadence(old(Value()), points, snap, outbox.client.accepts)
    {
      hide Outboxes.Send, SendOk, CadenceFrom;
      ghost var goal := CadenceFrom(outbox.line, lastPubS, points, snap, outbox.client.accepts, 0);
      var i, ok := 0, true;
      while i < |points| && ok
        invariant i <= |points| && outbox.Valid() && lastPubS == old(lastPubS) && |lastPubS| == 3
        invariant lastWord == old(lastWord) && publishedOn == old(publishedOn) && dropped == old(dropped)
        invariant goal == if ok then CadenceFrom(outbox.line, lastPubS, points, snap, outbox.client.accepts, i)
            else outbox.line
        decreases |points| - i
      {
        CadenceStep(outbox.line, lastPubS, points, snap, outbox.client.accepts, i);
        if CadenceDue(lastPubS, points[i], snap.simS) {
          ok := outbox.Send(snap.view, CadenceMsg(i, snap));
        }
        i := i + 1;
      }
      CadenceEnd(outbox.line, lastPubS, points, snap, outbox.client.accepts);
      for k := 0 to 3
        invariant |lastPubS| == 3 && outbox.line == goal && outbox.Valid()
        invariant lastWord == old(lastWord) && publishedOn == old(publishedOn) && dropped == old(dropped)
        invariant forall j :: 0 <= j < 3 ==>
          lastPubS[j] == (if j < k then Stamped(old(lastPubS)[j], snap.simS, PERIODS[j]) else old(lastPubS)[j])
      {
        if DueAt(lastPubS[k], snap.simS, PERIODS[k]) {
          lastPubS := lastPubS[k := Some(snap.simS)];
        }
      }
    }

    /** The event-class points whose value differs from what was last published. */
    method PublishChanged(snap: Snap, connection: nat)
      requires Valid() && |snap.readings| == |points|
      modifies this, outbox, outbox.client
      ensures Valid() && Value() == Publishers.PublishChanged(old(Value()), points, snap, connection,
          outbox.client.accepts)
    {
      hide Outboxes.Send, SendOk, ChangedFrom, Outboxes.Returned;
      var returned := outbox.Returned(snap.view);
      if connection != publishedOn || returned {
        lastWord := Forgot(|points|);
        publishedOn := connection;
      }
      ghost var on := publishedOn;
      ghost var goal := ChangedFrom(outbox.line, lastWord, points, snap, outbox.client.accepts, 0);
      for i := 0 to |points|
        invariant outbox.Valid() && |lastWord| == |points| && lastPubS == old(lastPubS) && publishedOn == on
            && dropped == old(dropped)
        invariant goal == ChangedFrom(outbox.line, lastWord, points, snap, outbox.client.accepts, i)
      {
        ChangedByStep(outbox.line, lastWord, points, snap, outbox.client.accepts, i);
        if points[i] == OnChange && lastWord[i] != Some(snap.readings[i]) {
          var ok := outbox.Send(snap.view, WordMsg(i, snap));
          if ok { lastWord := lastWord[i := Some(snap.readings[i])]; }
        }
      }
      ChangedEnd(outbox.line, lastWord, points, snap, outbox.client.accepts);
    }

    /** Every event of one tick, in log order; a refused one is counted. */
    method PublishEvents(snap: Snap, batch: Batch)
      requires Valid()
      modifies this, outbox, outbox.client
      ensures Valid() && Value() == Publishers.PublishEvents(old(Value()), snap, batch, outbox.client.accepts)
    {
      hide Outboxes.Send, SendOk, EventsFrom;
      ghost var goal := EventsFrom(outbox.line, dropped, snap, batch, outbox.client.accepts, 0);
      for i := 0 to |batch.events|
        invariant outbox.Valid() && lastPubS == old(lastPubS) && lastWord == old(lastWord)
            && publishedOn == old(publishedOn)
        invariant goal == EventsFrom(outbox.line, dropped, snap, batch, outbox.client.accepts, i)
      {
        EventsStep(outbox.line, dropped, snap, batch, outbox.client.accepts, i);
        var ok := outbox.Send(snap.view, EventMsg(batch, i));
        if !ok { dropped := dropped + 1; }
      }
      EventsEnd(outbox.line, dropped, snap, batch, outbox.client.accepts);
    }
  }
}
