/** What a dropout stores and what a replay delivers, message by message, and what the
    publisher's messages say. */
module ReplayLaws {
  import opened Wrappers
  import opened Outboxes
  import opened DeliveryLaws

  // ----- The store --------------------------------------------------------------------------

  /** The last n of some messages, or all of them. */
  function Tail(msgs: seq<Message>, n: nat): seq<Message> {
    if |msgs| <= n then msgs else msgs[|msgs| - n..]
  }

  lemma OneForgotten(x: Line, y: Line, l: Left)
    requires y.log == x.log + [l] && l.fate == Forgotten
    ensures Wire(y) == Wire(x)
  {
    assert (x.log + [l])[..|x.log|] == x.log;
  }

  /** The store keeps the newest messages it has room for, and counts the ones it forgets:
      none while there is room. */
  lemma KeepIs(x: Line, m: Message)
    requires |x.box.store| <= STORE
    ensures var y := Keep(x, m);
      && y.box == x.box.(store := Tail(x.box.store + [m], STORE),
                         forgotten := x.box.forgotten + (|x.box.store| + 1 - |y.box.store|))
      && y.attempts == x.attempts && Wire(y) == Wire(x)
  {
    var y := Keep(x, m);
    if |x.box.store| == STORE {
      OneForgotten(x, y, Left(x.box.store[0], Forgotten));
      assert x.box.store[1..] + [m] == (x.box.store + [m])[1..];
    }
    hide Of;
  }

  function Dimmed(msgs: seq<Message>): (r: seq<Message>)
    ensures |r| == |msgs| && forall i :: 0 <= i < |msgs| ==> r[i] == Dim(msgs[i])
  {
    if msgs == [] then [] else Dimmed(msgs[..|msgs| - 1]) + [Dim(msgs[|msgs| - 1])]
  }

  function Sends(v: View, msgs: seq<Message>): seq<BoxOp> {
    if msgs == [] then [] else Sends(v, msgs[..|msgs| - 1]) + [DoSend(v, msgs[|msgs| - 1])]
  }

  lemma {:induction false} NoneAccepted(msgs: seq<Message>, fate: Fate)
    requires fate != Accepted
    ensures Of(AllLeft(msgs, fate), Accepted) == []
  {
    AllLeftFate(msgs, fate);
    NoneOf(AllLeft(msgs, fate), Accepted);
  }

  /** The edge into a dropout empties the box; nothing goes out. */
  lemma GoesDark(x: Line, v: View)
    requires v.offline && !x.box.offline
    ensures var y := Observe(x, v);
      && y.box == x.box.(offline := true, store := [], forgotten := 0, replaying := false)
      && y.attempts == x.attempts && Wire(y) == Wire(x)
  {
    NoneAccepted(x.box.store, Cleared);
    OfConcat(x.log, AllLeft(x.box.store, Cleared), Accepted);
    hide Of, AllLeft;
  }

  /** A dropout keeps the last of what is sent during it that fit the store, in the order
      sent and none of it to be retained, counts the others, and lets nothing out. */
  lemma {:induction false} DropoutKeeps(x: Line, v: View, msgs: seq<Message>, client: Oracle)
    requires v.offline && !x.box.offline && msgs != []
    ensures var y := DoAll(x, Sends(v, msgs), client);
      && y.box == x.box.(offline := true, store := Tail(Dimmed(msgs), STORE),
                         forgotten := |msgs| - |Tail(Dimmed(msgs), STORE)|, replaying := false)
      && y.attempts == x.attempts && Wire(y) == Wire(x)
  {
    hide Send, Wire, Observe, Tail, DoAll, Sends, Dimmed;
    var init, last := msgs[..|msgs| - 1], msgs[|msgs| - 1];
    OneMoreSend(x, v, msgs, client);
    OneMoreDim(msgs);
    if init == [] {
      NoSends(x, v, client);
      GoesDark(x, v);
      DarkSend(x, v, last, client);
      OneKept(Dim(last));
    } else {
      DropoutKeeps(x, v, init, client);
      var mid := DoAll(x, Sends(v, init), client);
      StaysDark(mid, v);
      TailBound(Dimmed(init), STORE);
      DarkSend(mid, v, last, client);
      TailGrows(Dimmed(init), Dim(last), STORE);
    }
  }

  lemma OneMoreSend(x: Line, v: View, msgs: seq<Message>, client: Oracle)
    requires msgs != []
    ensures DoAll(x, Sends(v, msgs), client)
         == Send(DoAll(x, Sends(v, msgs[..|msgs| - 1]), client), v, msgs[|msgs| - 1], client)
  {
    hide Send;
    var init := Sends(v, msgs[..|msgs| - 1]);
    assert (init + [DoSend(v, msgs[|msgs| - 1])])[..|init|] == init;
  }

  lemma NoSends(x: Line, v: View, client: Oracle)
    ensures DoAll(x, Sends(v, []), client) == x
  {}

  lemma OneMoreDim(msgs: seq<Message>)
    requires msgs != []
    ensures Dimmed(msgs) == Dimmed(msgs[..|msgs| - 1]) + [Dim(msgs[|msgs| - 1])]
    ensures |msgs| == 1 ==> Dimmed(msgs) == [Dim(msgs[0])]
  {}

  lemma OneKept(m: Message)
    ensures Tail([] + [m], STORE) == [m] == Tail([m], STORE)
  {
    assert [] + [m] == [m];
  }

  lemma TailBound(msgs: seq<Message>, n: nat)
    ensures |Tail(msgs, n)| <= n
  {}

  lemma StaysDark(x: Line, v: View)
    requires v.offline == x.box.offline
    ensures Observe(x, v) == x
  {}

  lemma DarkSend(x: Line, v: View, m: Message, client: Oracle)
    requires v.offline && |Observe(x, v).box.store| <= STORE
    ensures var mid, y := Observe(x, v), Send(x, v, m, client);
      && y.box == mid.box.(store := Tail(mid.box.store + [Dim(m)], STORE),
                           forgotten := mid.box.forgotten + (|mid.box.store| + 1 - |y.box.store|))
      && y.attempts == mid.attempts && Wire(y) == Wire(mid)
  {
    hide Keep, Observe;
    KeepIs(Born(x, v, m), Dim(m));
  }

  lemma TailGrows(msgs: seq<Message>, m: Message, n: nat)
    requires n > 0
    ensures Tail(Tail(msgs, n) + [m], n) == Tail(msgs + [m], n)
  {}

  // ----- A replay ---------------------------------------------------------------------------

  /** The client refused the last of what left. */
  predicate Refuses(left: seq<Left>) {
    left != [] && left[|left| - 1].fate != Accepted
  }

  /** `left` are messages from the front of the store, in order: all of them taken by the
      client but perhaps the last, which is then lost. */
  predicate Slice(x: Line, y: Line, left: seq<Left>) {
    && y.log == x.log + left && y.attempts == x.attempts + |left|
    && Msgs(left) + y.box.store == x.box.store
    && (forall i :: 0 <= i < |left| - 1 ==> left[i].fate == Accepted)
    && (Refuses(left) ==> left[|left| - 1].fate == LostInReplay)
  }

  /** How far a drain went, and why it stopped. */
  predicate Stopped(x: Line, y: Line, left: seq<Left>, client: Oracle, most: nat) {
    && |left| <= most
    && (|left| < most && !Refuses(left) ==> y.box.store == [])
    && y.box == x.box.(store := y.box.store,
                       replaying := if |left| < most && !Refuses(left) then false else x.box.replaying)
    && (Refuses(left) <==> left != [] && !client(x.attempts + |left| - 1, left[|left| - 1].msg))
  }

  lemma {:induction false} DrainSlice(x: Line, client: Oracle, most: nat) returns (left: seq<Left>)
    ensures Slice(x, Drain(x, client, most), left) && Stopped(x, Drain(x, client, most), left, client, most)
    decreases most
  {
    left := [];
    if most == 0 || x.box.store == [] {
      assert x.log + [] == x.log && [] + x.box.store == x.box.store;
    } else {
      var m := x.box.store[0];
      var y := Publish(x.(box := x.box.(store := x.box.store[1..])), m, client, LostInReplay);
      var taken := client(x.attempts, m);
      var first := Left(m, if taken then Accepted else LostInReplay);
      assert y.box == x.box.(store := x.box.store[1..]) && y.attempts == x.attempts + 1 && y.log == x.log + [first];
      var z := if taken then Drain(y, client, most - 1) else y;
      assert Drain(x, client, most) == z;
      hide Drain, Slice, Refuses, Publish, Stopped;
      var rest: seq<Left> := [];
      if taken {
        rest := DrainSlice(y, client, most - 1);
      } else {
        NothingMore(y);
      }
      left := [first] + rest;
      OneAhead(x, y, z, first, rest);
      StoppedAhead(x, y, z, first, rest, client, most);
    }
  }

  lemma NothingMore(x: Line)
    ensures Slice(x, x, [])
  {
    assert x.log + [] == x.log && [] + x.box.store == x.box.store;
  }

  lemma StoppedAhead(x: Line, y: Line, z: Line, first: Left, rest: seq<Left>, client: Oracle, most: nat)
    requires most > 0 && x.box.store != []
    requires y.box == x.box.(store := x.box.store[1..]) && y.attempts == x.attempts + 1
    requires first.fate == if client(x.attempts, first.msg) then Accepted else LostInReplay
    requires if first.fate == Accepted then Stopped(y, z, rest, client, most - 1) else z == y && rest == []
    requires Refuses([first] + rest) <==> if rest == [] then first.fate != Accepted else Refuses(rest)
    ensures Stopped(x, z, [first] + rest, client, most)
  {
    NoneRefused();
    hide Refuses;
    if rest != [] { assert ([first] + rest)[|rest|] == rest[|rest| - 1]; }
  }

  lemma NoneRefused()
    ensures !Refuses([])
  {}

  lemma OneAhead(x: Line, y: Line, z: Line, first: Left, rest: seq<Left>)
    requires x.box.store != [] && first.msg == x.box.store[0] && y.box.store == x.box.store[1..]
    requires y.log == x.log + [first] && y.attempts == x.attempts + 1 && Slice(y, z, rest)
    requires first.fate == Accepted || (first.fate == LostInReplay && rest == [])
    ensures Slice(x, z, [first] + rest)
    ensures Refuses([first] + rest) <==> if rest == [] then first.fate != Accepted else Refuses(rest)
  {
    var left := [first] + rest;
    MsgsConcat([first], rest);
    OneLeft(first);
    hide Msgs;
    assert x.log + left == (x.log + [first]) + rest;
    assert Msgs(left) + z.box.store == [first.msg] + (Msgs(rest) + z.box.store) == x.box.store;
    forall i | 0 <= i < |left| - 1
      ensures left[i].fate == Accepted
    {
      if i > 0 { assert left[i] == rest[i - 1]; }
    }
    if rest != [] { assert left[|left| - 1] == rest[|rest| - 1]; }
  }

  /** The burst a wake begins: the first due that has not been replayed. */
  lemma {:induction false} FirstNewIs(due: seq<nat>, replayed: seq<nat>) returns (i: nat)
    ensures FirstNew(due, replayed).None? <==> forall k <- due :: k in replayed
    ensures FirstNew(due, replayed).Some? ==>
      && i < |due| && FirstNew(due, replayed).value == due[i] && due[i] !in replayed
      && forall j :: 0 <= j < i ==> due[j] in replayed
  {
    i := 0;
    if due != [] && due[0] in replayed {
      i := FirstNewIs(due[1..], replayed);
      assert forall j :: 0 < j < |due| ==> due[j] == due[1..][j - 1];
      i := i + 1;
    }
  }

  /** The replay a wake finds running or begins. */
  function Running(x: Line, v: View): Option<Line> {
    var mid := Observe(x, v);
    if v.offline then None
    else if mid.box.replaying then Some(mid)
    else match FirstNew(v.due, x.box.replayed)
      case None => None
      case Some(k) =>
        Some(mid.(box := mid.box.(replayed := mid.box.replayed + [k], replaying := true), backlog := 0))
  }

  /** What a wake of the replay does. Offline, or with no replay running and no new burst
      due, nothing. Otherwise, in the replay that runs or that the first new burst begins,
      it hands the client the store from the front: `BURST` messages, or up to a refusal, or
      all there are, and only the last ends the replay. */
  lemma BackfillDoes(x: Line, v: View, client: Oracle) returns (left: seq<Left>)
    ensures var run, y := Running(x, v), Backfill(x, v, client);
      && (run.None? ==> y == Observe(x, v))
      && (run.Some? ==>
            && Slice(run.value, y, left) && |left| <= BURST
            && (|left| < BURST && !Refuses(left) ==> y.box.store == [])
            && y.box == run.value.box.(store := y.box.store, replaying := |left| == BURST || Refuses(left))
            && (Refuses(left) <==> left != [] && !client(x.attempts + |left| - 1, left[|left| - 1].msg)))
  {
    hide Drain, Slice;
    left := [];
    ObserveBox(x, v);
    if Running(x, v).Some? {
      left := DrainSlice(Running(x, v).value, client, BURST);
    }
    hide Observe;
  }

  lemma ObserveBox(x: Line, v: View)
    ensures Observe(x, v).box.replayed == x.box.replayed && Observe(x, v).attempts == x.attempts
  {}

  // ----- A dropout and its replay, end to end -------------------------------------------------

  /** A client that takes everything. */
  ghost predicate Obliges(client: Oracle) {
    forall n: nat, m: Message :: client(n, m)
  }

  function Wakes(v: View, n: nat): seq<BoxOp> {
    if n == 0 then [] else Wakes(v, n - 1) + [DoBackfill(v)]
  }

  lemma {:induction false} AllTaken(left: seq<Left>)
    requires forall i :: 0 <= i < |left| ==> left[i].fate == Accepted
    ensures Of(left, Accepted) == Msgs(left)
  {
    if left != [] { AllTaken(left[..|left| - 1]); }
  }

  lemma SliceOut(x: Line, y: Line, left: seq<Left>)
    requires Slice(x, y, left) && !Refuses(left)
    ensures Wire(y) == Wire(x) + Msgs(left)
  {
    assert forall i :: 0 <= i < |left| ==> left[i].fate == Accepted;
    AllTaken(left);
    OfConcat(x.log, left, Accepted);
    hide Of, Msgs;
  }

  /** One wake of a replay the client takes: how many messages leave. */
  function Sliced(store: seq<Message>, n: nat): nat {
    if n <= |store| then n else |store|
  }

  lemma ObligingDrain(x: Line, client: Oracle)
    requires Obliges(client) && x.box.replaying
    ensures var y, n := Drain(x, client, BURST), Sliced(x.box.store, BURST);
      && y.box == x.box.(store := x.box.store[n..], replaying := BURST <= |x.box.store|)
      && Wire(y) == Wire(x) + x.box.store[..n]
  {
    hide Drain, Of;
    var left := DrainSlice(x, client, BURST);
    var y := Drain(x, client, BURST);
    assert !Refuses(left);
    SliceOut(x, y, left);
    Split(Msgs(left), y.box.store, x.box.store);
    hide Msgs, Wire;
    assert |left| == Sliced(x.box.store, BURST);
  }

  lemma Split(a: seq<Message>, b: seq<Message>, whole: seq<Message>)
    requires a + b == whole
    ensures a == whole[..|a|] && b == whole[|a|..]
  {}

  lemma ObligingWake(x: Line, v: View, client: Oracle)
    requires Obliges(client) && !v.offline && !x.box.offline && x.box.replaying
    ensures var y, n := Backfill(x, v, client), Sliced(x.box.store, BURST);
      && y.box == x.box.(store := x.box.store[n..], replaying := BURST <= |x.box.store|)
      && Wire(y) == Wire(x) + x.box.store[..n]
  {
    hide Drain, Wire, Obliges;
    StaysDark(x, v);
    ObligingDrain(x, client);
  }

  lemma WakeAdds(x: Line, mid: Line, y: Line, k: nat)
    requires k <= |x.box.store| && x.box.replaying
    requires mid.box == x.box.(store := x.box.store[k..]) && Wire(mid) == Wire(x) + x.box.store[..k]
    requires var n := Sliced(mid.box.store, BURST);
      && y.box == mid.box.(store := mid.box.store[n..], replaying := BURST <= |mid.box.store|)
      && Wire(y) == Wire(mid) + mid.box.store[..n]
    ensures var n := Sliced(x.box.store, k + BURST);
      && y.box == x.box.(store := x.box.store[n..], replaying := k + BURST <= |x.box.store|)
      && Wire(y) == Wire(x) + x.box.store[..n]
  {
    hide Wire;
    var n := Sliced(mid.box.store, BURST);
    Slices(x.box.store, k, BURST);
    hide Sliced;
    assert (Wire(x) + x.box.store[..k]) + mid.box.store[..n] == Wire(x) + (x.box.store[..k] + mid.box.store[..n]);
  }

  /** A replay to an obliging client, in closed form: `BURST` messages a wake, in the order
      stored, until the store is empty. */
  lemma {:induction false} ReplayDelivers(x: Line, v: View, client: Oracle, w: nat)
    requires Obliges(client) && !v.offline && !x.box.offline && x.box.replaying
    requires w > 0 ==> (w - 1) * BURST <= |x.box.store|
    ensures var y, n := DoAll(x, Wakes(v, w), client), Sliced(x.box.store, w * BURST);
      && y.box == x.box.(store := x.box.store[n..], replaying := w * BURST <= |x.box.store|)
      && Wire(y) == Wire(x) + x.box.store[..n]
  {
    hide Backfill, Wire, Obliges;
    if w == 0 {
      assert Wire(x) + [] == Wire(x);
    } else {
      ReplayDelivers(x, v, client, w - 1);
      OneMoreWake(x, v, client, w);
      hide DoAll, Wakes;
      var mid := DoAll(x, Wakes(v, w - 1), client);
      ObligingWake(mid, v, client);
      WakeAdds(x, mid, DoAll(x, Wakes(v, w), client), (w - 1) * BURST);
    }
  }

  lemma OneMoreWake(x: Line, v: View, client: Oracle, w: nat)
    requires w > 0
    ensures DoAll(x, Wakes(v, w), client) == Backfill(DoAll(x, Wakes(v, w - 1), client), v, client)
  {
    hide Backfill;
    assert (Wakes(v, w - 1) + [DoBackfill(v)])[..|Wakes(v, w - 1)|] == Wakes(v, w - 1);
  }

  lemma Slices(store: seq<Message>, k: nat, n: nat)
    requires k <= |store|
    ensures var rest := store[k..];
      && rest[Sliced(rest, n)..] == store[Sliced(store, k + n)..]
      && store[..k] + rest[..Sliced(rest, n)] == store[..Sliced(store, k + n)]
  {}

  /** From a dropout to the wire: everything sent during it, up to the last `STORE`, reaches
      a client that takes it after the burst comes due, each once, in the order sent, none
      of it retained, in as many wakes as slices of `BURST` leave one short. */
  lemma DropoutReplayed(x: Line, dark: View, msgs: seq<Message>, v: View, client: Oracle, w: nat)
    requires Obliges(client) && !x.box.offline && dark.offline && msgs != []
    requires !v.offline && exists k <- v.due :: k !in x.box.replayed
    requires var kept := Tail(Dimmed(msgs), STORE); w > 0 && (w - 1) * BURST <= |kept| < w * BURST
    ensures var y := DoAll(x, Sends(dark, msgs) + Wakes(v, w), client);
      && y.box.store == [] && !y.box.replaying && !y.box.offline
      && Wire(y) == Wire(x) + Tail(Dimmed(msgs), STORE)
  {
    hide Backfill, Wire, Obliges, Sends, Tail, Dimmed, DoAll, Observe;
    var mid := DoAll(x, Sends(dark, msgs), client);
    DoAllConcat(x, Sends(dark, msgs), Wakes(v, w), client);
    DropoutKeeps(x, dark, msgs, client);
    Lights(mid, v);
    var run := Running(mid, v).value;
    FirstWake(mid, run, v, client, w);
    ReplayDelivers(run, v, client, w);
    Whole(run.box.store);
    hide Wakes;
  }

  lemma Whole(s: seq<Message>)
    ensures s[|s|..] == [] && s[..|s|] == s
  {}

  /** The edge out of a dropout, with a new burst due: a replay of what was stored. */
  lemma Lights(x: Line, v: View)
    requires x.box.offline && !x.box.replaying && !v.offline && exists k <- v.due :: k !in x.box.replayed
    ensures Running(x, v).Some?
    ensures var run := Running(x, v).value;
      && run.box.store == x.box.store && run.box.replaying && !run.box.offline && Wire(run) == Wire(x)
  {}

  /** The wake that begins a burst is the first of its replay. */
  lemma {:induction false} FirstWake(x: Line, run: Line, v: View, client: Oracle, w: nat)
    requires Running(x, v) == Some(run) && w > 0
    ensures DoAll(x, Wakes(v, w), client) == DoAll(run, Wakes(v, w), client)
  {
    hide Backfill, DoAll, Running;
    OneMoreWake(x, v, client, w);
    OneMoreWake(run, v, client, w);
    if w == 1 {
      NoWakes(x, v, client);
      NoWakes(run, v, client);
      SameWake(x, run, v, client);
    } else {
      FirstWake(x, run, v, client, w - 1);
    }
  }

  lemma NoWakes(x: Line, v: View, client: Oracle)
    ensures DoAll(x, Wakes(v, 0), client) == x
  {}

  lemma SameWake(x: Line, run: Line, v: View, client: Oracle)
    requires Running(x, v) == Some(run)
    ensures Backfill(x, v, client) == Backfill(run, v, client)
  {
    hide Drain;
    ObserveBox(x, v);
    assert Observe(run, v) == run;
  }

  // ----- The return flag -------------------------------------------------------------------------

  /** Whether the tap was last seen in a dropout. */
  function DarkAfter(ops: seq<BoxOp>): bool {
    if ops == [] then false else
      var last := ops[|ops| - 1];
      if last.DoReconnect? then DarkAfter(ops[..|ops| - 1]) else last.view.offline
  }

  /** Operation j sees a dropout end. */
  predicate SeesEnd(ops: seq<BoxOp>, j: nat)
    requires j < |ops|
  {
    DarkAfter(ops[..j]) && !ops[j].DoReconnect? && !ops[j].view.offline
  }

  /** A dropout ended and no `returned` has reported it since. */
  predicate Unreported(ops: seq<BoxOp>) {
    exists j :: 0 <= j < |ops| && SeesEnd(ops, j) && forall i :: j <= i < |ops| ==> !ops[i].DoReturned?
  }

  lemma OneMoreOp(ops: seq<BoxOp>)
    requires ops != []
    ensures var init, last := ops[..|ops| - 1], ops[|ops| - 1];
      Unreported(ops) <==> !last.DoReturned? && (Unreported(init) || SeesEnd(ops, |ops| - 1))
  {
    var init := ops[..|ops| - 1];
    assert forall j :: 0 <= j < |init| ==> init[..j] == ops[..j];
    hide DarkAfter;
    if Unreported(init) && !ops[|ops| - 1].DoReturned? {
      var j :| 0 <= j < |init| && SeesEnd(init, j) && forall i :: j <= i < |init| ==> !init[i].DoReturned?;
      assert SeesEnd(ops, j);
    }
    if Unreported(ops) && !SeesEnd(ops, |ops| - 1) {
      var j :| 0 <= j < |ops| && SeesEnd(ops, j) && forall i :: j <= i < |ops| ==> !ops[i].DoReturned?;
      assert SeesEnd(init, j) && forall i :: j <= i < |init| ==> init[i] == ops[i];
    }
  }

  lemma FlagStep(x: Line, op: BoxOp, client: Oracle)
    ensures var y := Do(x, op, client).box;
      if op.DoReconnect? then y == x.box else
        && y.offline == op.view.offline
        && (y.returned <==> !op.DoReturned? && (x.box.returned || (x.box.offline && !op.view.offline)))
  {
    match op
    case DoReturned(_) =>
    case DoReconnect(_) =>
    case DoSend(_, _) =>
    case DoBackfill(v) =>
      hide Drain;
      var left := BackfillDoes(x, v, client);
      hide Backfill;
  }

  /** The return flag over every history: `returned` reports a dropout that ended exactly
      when one ended, at this call or before, and no call since has reported it. */
  lemma {:induction false} ReturnedOnce(ops: seq<BoxOp>, client: Oracle, v: View)
    ensures var x := DoAll(FRESH, ops, client);
      && x.box.offline == DarkAfter(ops) && (x.box.returned <==> Unreported(ops))
      && (Returned(x, v).1 <==> Unreported(ops) || (DarkAfter(ops) && !v.offline))
  {
    hide Do, Unreported;
    if ops == [] {
      assert !Unreported(ops) by { NothingUnreported(); }
    } else {
      ReturnedOnce(ops[..|ops| - 1], client, v);
      FlagStep(DoAll(FRESH, ops[..|ops| - 1], client), ops[|ops| - 1], client);
      OneMoreOp(ops);
    }
  }

  lemma NothingUnreported()
    ensures !Unreported([])
  {}
}
