/** The day-ahead ranking of a day's price slots, and the two sets of slots it buys and
    sells in. */
module Plans {
  import opened State
  import opened Words
  import opened Orders

  // ----- Ranking ---------------------------------------------------------------------------

  /** Slot a ranks ahead of slot b: by price, dearest first when `dear`, then the earlier. */
  predicate Ahead(prices: seq<real>, dear: bool, a: int, b: int) {
    && 0 <= a < |prices| && 0 <= b < |prices|
    && ((if dear then prices[b] < prices[a] else prices[a] < prices[b]) || (prices[a] == prices[b] && a < b))
  }

  /** A slot put in its place in a ranked row. */
  function Placed(prices: seq<real>, dear: bool, row: seq<int>, slot: int): seq<int> {
    if row == [] then [slot]
    else if Ahead(prices, dear, slot, row[|row| - 1])
    then Placed(prices, dear, row[..|row| - 1], slot) + [row[|row| - 1]]
    else row + [slot]
  }

  /** The first n slots in rank order (any sort of them gives this row: `AnySortRanks`). */
  function Ranked(prices: seq<real>, dear: bool, n: nat): seq<int> {
    if n == 0 then [] else Placed(prices, dear, Ranked(prices, dear, n - 1), n - 1)
  }

  predicate InOrder(prices: seq<real>, dear: bool, row: seq<int>) {
    forall i, j :: 0 <= i < j < |row| ==> Ahead(prices, dear, row[i], row[j])
  }

  lemma {:induction false} PlacedKeeps(prices: seq<real>, dear: bool, row: seq<int>, slot: int)
    requires InOrder(prices, dear, row) && 0 <= slot < |prices| && slot !in row
    requires forall s <- row :: 0 <= s < |prices|
    ensures var next := Placed(prices, dear, row, slot);
      && |next| == |row| + 1 && InOrder(prices, dear, next)
      && (forall s :: s in next <==> s in row || s == slot)
  {
    if row != [] {
      var init, last := row[..|row| - 1], row[|row| - 1];
      assert row == init + [last];
      if Ahead(prices, dear, slot, last) {
        PlacedKeeps(prices, dear, init, slot);
        var head := Placed(prices, dear, init, slot);
        forall i | 0 <= i < |head|
          ensures Ahead(prices, dear, head[i], last)
        {
          assert head[i] in head;
          if head[i] != slot {
            var k :| 0 <= k < |init| && init[k] == head[i];
            assert row[k] == init[k] && Ahead(prices, dear, row[k], row[|row| - 1]);
          }
        }
      } else {
        forall i | 0 <= i < |row|
          ensures Ahead(prices, dear, row[i], slot)
        {
          assert last in row && row[i] in row;
          if i < |row| - 1 { assert Ahead(prices, dear, row[i], last); }
        }
      }
    }
  }

  lemma {:induction false} RankedIs(prices: seq<real>, dear: bool, n: nat)
    requires n <= |prices|
    ensures var row := Ranked(prices, dear, n);
      |row| == n && InOrder(prices, dear, row) && forall s :: s in row <==> 0 <= s < n
  {
    hide InOrder, Placed;
    if n == 0 {
      NothingRanked(prices, dear);
    } else {
      RankedIs(prices, dear, n - 1);
      PlacedKeeps(prices, dear, Ranked(prices, dear, n - 1), n - 1);
    }
  }

  lemma NothingRanked(prices: seq<real>, dear: bool)
    ensures Ranked(prices, dear, 0) == [] && InOrder(prices, dear, [])
  {}

  /** Whatever sorts the slots of a day into rank order finds this row: the order is strict
      and total. */
  lemma AnySortRanks(prices: seq<real>, dear: bool, row: seq<int>)
    requires InOrder(prices, dear, row) && |row| == |prices|
    requires forall i :: 0 <= i < |row| ==> 0 <= row[i] < |prices|
    ensures row == Ranked(prices, dear, |prices|)
  {
    var ranked := Ranked(prices, dear, |prices|);
    RankedIs(prices, dear, |prices|);
    assert forall i :: 0 <= i < |ranked| ==> ranked[i] in ranked;
    hide Ranked, Ahead;
    AllSlots(prices, dear, row);
    AllSlots(prices, dear, ranked);
    SameElements(row, ranked);
    SameElements(ranked, row);
    AheadIsStrict(prices, dear);
    SortedIsUnique((x: int, y: int) => Ahead(prices, dear, x, y), row, ranked);
  }

  lemma AheadIsStrict(prices: seq<real>, dear: bool)
    ensures Strict((x: int, y: int) => Ahead(prices, dear, x, y))
  {}

  /** As many distinct slots as there are is all of them. */
  lemma AllSlots(prices: seq<real>, dear: bool, row: seq<int>)
    requires InOrder(prices, dear, row) && |row| == |prices|
    requires forall i :: 0 <= i < |row| ==> 0 <= row[i] < |prices|
    ensures Elements(row) == Below(|prices|)
  {
    DistinctCount(prices, dear, row, |row|);
    assert row[..|row|] == row;
    WholeSubset(Elements(row), Below(|prices|));
  }

  function Below(n: nat): (r: set<int>)
    ensures |r| == n && forall s :: s in r <==> 0 <= s < n
  {
    if n == 0 then {} else Below(n - 1) + {n - 1}
  }

  lemma WholeSubset(a: set<int>, b: set<int>)
    requires a <= b && |a| == |b|
    ensures a == b
  {
    assert b == a + (b - a);
  }

  lemma SameElements(a: seq<int>, b: seq<int>)
    requires Elements(a) == Elements(b)
    ensures Within(a, b)
  {
    forall i | 0 <= i < |a|
      ensures a[i] in b
    {
      assert a[i] in Elements(a);
    }
  }

  /** The slots that rank ahead of one. */
  function RankAhead(prices: seq<real>, dear: bool, slot: int): set<int> {
    set a | 0 <= a < |prices| && Ahead(prices, dear, a, slot)
  }

  function Elements(row: seq<int>): set<int> {
    set s | s in row
  }

  lemma {:induction false} DistinctCount(prices: seq<real>, dear: bool, row: seq<int>, k: nat)
    requires k <= |row| && InOrder(prices, dear, row)
    ensures |Elements(row[..k])| == k
  {
    hide Ahead, InOrder;
    if k > 0 {
      DistinctCount(prices, dear, row, k - 1);
      assert row[..k] == row[..k - 1] + [row[k - 1]];
      assert Elements(row[..k]) == Elements(row[..k - 1]) + {row[k - 1]};
      NotBefore(prices, dear, row, k - 1);
    }
  }

  lemma NotBefore(prices: seq<real>, dear: bool, row: seq<int>, k: nat)
    requires k < |row| && InOrder(prices, dear, row)
    ensures row[k] !in row[..k]
  {
    forall i | 0 <= i < k
      ensures row[i] != row[k]
    {
      assert Ahead(prices, dear, row[i], row[k]);
    }
  }

  lemma AheadIsEarlier(prices: seq<real>, dear: bool, row: seq<int>, i: nat, k: nat)
    requires i < |row| && k < |row| && InOrder(prices, dear, row)
    ensures Ahead(prices, dear, row[i], row[k]) <==> i < k
  {
    assert k < i ==> Ahead(prices, dear, row[k], row[i]);
  }

  /** The place of a slot in the ranking is the number of slots ahead of it. */
  lemma PlaceIsCount(prices: seq<real>, dear: bool, k: nat)
    requires k < |prices|
    ensures var row := Ranked(prices, dear, |prices|); |row| == |prices| && |RankAhead(prices, dear, row[k])| == k
  {
    var row := Ranked(prices, dear, |prices|);
    RankedIs(prices, dear, |prices|);
    DistinctCount(prices, dear, row, k);
    forall a
      ensures a in RankAhead(prices, dear, row[k]) <==> a in Elements(row[..k])
    {
      if a in RankAhead(prices, dear, row[k]) {
        assert a in row;
        var i :| 0 <= i < |row| && row[i] == a;
        AheadIsEarlier(prices, dear, row, i, k);
        assert row[..k][i] == a;
      }
      if a in Elements(row[..k]) {
        var i :| 0 <= i < k && row[..k][i] == a;
        assert Ahead(prices, dear, row[i], row[k]);
      }
    }
    assert RankAhead(prices, dear, row[k]) == Elements(row[..k]);
  }

  /** A slot is among the first `hours` of the ranking exactly when fewer than `hours` rank
      ahead of it. */
  lemma TakenMeans(prices: seq<real>, dear: bool, hours: nat, slot: nat)
    requires slot < |prices|
    ensures |Ranked(prices, dear, |prices|)| == |prices|
    ensures slot in Taken(prices, dear, hours) <==> |RankAhead(prices, dear, slot)| < hours
  {
    var row := Ranked(prices, dear, |prices|);
    RankedIs(prices, dear, |prices|);
    assert slot in row;
    var k :| 0 <= k < |row| && row[k] == slot;
    PlaceIsCount(prices, dear, k);
    var taken := Taken(prices, dear, hours);
    if k < |taken| { assert taken[k] == slot; }
    if slot in taken {
      var i :| 0 <= i < |taken| && taken[i] == slot;
      PlaceIsCount(prices, dear, i);
    }
  }

  /** The first `hours` slots of the ranking, or all of a shorter day. */
  function Taken(prices: seq<real>, dear: bool, hours: nat): seq<int> {
    var row := Ranked(prices, dear, |prices|);
    row[..if hours <= |row| then hours else |row|]
  }

  lemma TakenIs(prices: seq<real>, dear: bool, hours: nat)
    ensures var taken := Taken(prices, dear, hours);
      && |taken| == (if hours <= |prices| then hours else |prices|)
      && |Elements(taken)| == |taken|
      && forall i :: 0 <= i < |taken| ==> 0 <= taken[i] < |prices|
  {
    RankedIs(prices, dear, |prices|);
    var row := Ranked(prices, dear, |prices|);
    DistinctCount(prices, dear, row, if hours <= |row| then hours else |row|);
    var taken := Taken(prices, dear, hours);
    forall i | 0 <= i < |taken|
      ensures 0 <= taken[i] < |prices|
    {
      assert taken[i] == row[i] && row[i] in row;
    }
  }

  // ----- The plan as bits --------------------------------------------------------------------

  datatype DayPlan = DayPlan(charge: bv32, discharge: bv32)

  /** A slot as a bit position. */
  function Place32(slot: int): (b: Position)
    requires 0 <= slot < 32
    ensures b as int == slot
  {
    (slot as bv5) as bv32
  }

  function Bits(slots: seq<int>): bv32
    requires forall i :: 0 <= i < |slots| ==> 0 <= slots[i] < 32
  {
    if slots == [] then 0 else
      var last := slots[|slots| - 1];
      Masked(Bits(slots[..|slots| - 1]), Mask(Place32(last)), true)
  }

  function Bit(w: bv32, slot: Position): bool {
    (w >> slot) & 1 == 1
  }

  lemma BitIsMasked(w: bv32, slot: Position)
    ensures Bit(w, slot) <==> HasBit32(w, slot)
  {}

  lemma EmptyWord()
    ensures Represents(0, {})
  {
    forall b: Position
      ensures !HasBit32(0, b)
    {
      NoBits(b);
    }
  }

  lemma NoBits(b: Position)
    ensures !HasBit32(0, b)
  {}

  lemma {:induction false} BitsRepresent(slots: seq<int>)
    requires forall i :: 0 <= i < |slots| ==> 0 <= slots[i] < 32
    ensures Represents(Bits(slots), Elements(slots))
  {
    hide Mask, Masked, Meets, HasBit32, Represents, Place32, Bits, WithBit32;
    BitsUnfold(slots);
    if slots == [] {
      EmptyWord();
      assert Elements(slots) == {};
    } else {
      var init, last := slots[..|slots| - 1], slots[|slots| - 1];
      BitsRepresent(init);
      AddBit(Bits(init), Elements(init), last);
      assert slots == init + [last];
      assert Elements(slots) == Elements(init) + {last};
    }
  }

  lemma BitsUnfold(slots: seq<int>)
    requires forall i :: 0 <= i < |slots| ==> 0 <= slots[i] < 32
    ensures Bits(slots)
      == if slots == [] then 0 else Masked(Bits(slots[..|slots| - 1]), Mask(Place32(slots[|slots| - 1])), true)
  {
    hide Mask, Masked, Place32;
  }

  lemma AddBit(w: bv32, s: Word, slot: int)
    requires Represents(w, s) && 0 <= slot < 32
    ensures Represents(Masked(w, Mask(Place32(slot)), true), s + {slot})
  {
    hide Mask, Masked, Meets, HasBit32, Represents, Place32, WithBit32;
    WithBitRefines(w, s, Place32(slot), true);
    WithIsMasked(w, Place32(slot));
  }

  lemma WithIsMasked(w: bv32, b: Position)
    ensures WithBit32(w, b, true) == Masked(w, Mask(b), true)
  {}

  lemma RepresentsBit(w: bv32, s: Word, b: Position)
    requires Represents(w, s)
    ensures HasBit32(w, b) <==> b as int in s
  {}

  /** Rank one day's prices; a day of more than 32 slots has no word to hold it. */
  function Rank(prices: seq<real>, chargeHours: nat, dischargeHours: nat): DayPlan
    requires |prices| <= 32
  {
    TakenIs(prices, false, chargeHours);
    TakenIs(prices, true, dischargeHours);
    DayPlan(Bits(Taken(prices, false, chargeHours)), Bits(Taken(prices, true, dischargeHours)))
  }

  predicate Charges(plan: DayPlan, slot: nat)
    requires slot < 32
  {
    Bit(plan.charge, Place32(slot))
  }

  predicate Discharges(plan: DayPlan, slot: nat)
    requires slot < 32
  {
    Bit(plan.discharge, Place32(slot))
  }

  /** The plan means what it says: a slot charges exactly when fewer than `chargeHours`
      slots of the day rank ahead of it from the cheapest, and discharges exactly when
      fewer than `dischargeHours` do from the dearest, ties going to the earlier slot. */
  lemma RankMeans(prices: seq<real>, chargeHours: nat, dischargeHours: nat, slot: nat)
    requires |prices| <= 32 && slot < |prices|
    ensures var plan := Rank(prices, chargeHours, dischargeHours);
      && (Charges(plan, slot) <==> |RankAhead(prices, false, slot)| < chargeHours)
      && (Discharges(plan, slot) <==> |RankAhead(prices, true, slot)| < dischargeHours)
  {
    hide Mask, Masked, Meets, HasBit32, Represents, Bit, Place32, Bits, Taken, Ranked, RankAhead;
    TakenBit(prices, false, chargeHours, slot);
    TakenBit(prices, true, dischargeHours, slot);
  }

  lemma TakenBit(prices: seq<real>, dear: bool, hours: nat, slot: nat)
    requires |prices| <= 32 && slot < |prices|
    ensures var taken := Taken(prices, dear, hours); forall i :: 0 <= i < |taken| ==> 0 <= taken[i] < 32
    ensures Bit(Bits(Taken(prices, dear, hours)), Place32(slot)) <==> |RankAhead(prices, dear, slot)| < hours
  {
    hide Mask, Masked, Meets, HasBit32, Represents, Bit, Place32, Bits, Taken, Ranked, RankAhead;
    var taken := Taken(prices, dear, hours);
    TakenIs(prices, dear, hours);
    TakenMeans(prices, dear, hours, slot);
    BitsRepresent(taken);
    BitIsMasked(Bits(taken), Place32(slot));
    RepresentsBit(Bits(taken), Elements(taken), Place32(slot));
  }

  /** The slots of a day that charge. */
  ghost function ChargeSlots(prices: seq<real>, chargeHours: nat, dischargeHours: nat): set<int>
    requires |prices| <= 32
  {
    set s | 0 <= s < |prices| && Charges(Rank(prices, chargeHours, dischargeHours), s)
  }

  /** As many slots charge as asked for, or the whole of a shorter day. */
  lemma ChargeCount(prices: seq<real>, chargeHours: nat, dischargeHours: nat)
    requires |prices| <= 32
    ensures |ChargeSlots(prices, chargeHours, dischargeHours)| == if chargeHours <= |prices| then chargeHours
        else |prices|
  {
    hide Mask, Masked, Meets, HasBit32, Represents, Bit, Place32, Bits, Taken, Ranked, RankAhead, Charges,
      Discharges, Rank;
    TakenIs(prices, false, chargeHours);
    forall s | 0 <= s < |prices|
      ensures Charges(Rank(prices, chargeHours, dischargeHours), s)
          <==> s in Elements(Taken(prices, false, chargeHours))
    {
      RankMeans(prices, chargeHours, dischargeHours, s);
      TakenMeans(prices, false, chargeHours, s);
    }
    assert ChargeSlots(prices, chargeHours, dischargeHours) == Elements(Taken(prices, false, chargeHours));
  }

  // ----- What actually discharges ------------------------------------------------------------

  /** The slots of a day that discharge: dear, and not already charging. */
  ghost function DischargeSlots(prices: seq<real>, chargeHours: nat, dischargeHours: nat): set<int>
    requires |prices| <= 32
  {
    set s | 0 <= s < |prices| && Discharges(Rank(prices, chargeHours, dischargeHours), s)
            && !Charges(Rank(prices, chargeHours, dischargeHours), s)
  }

  /** The first slots of a ranking, as a set. */
  ghost function First(prices: seq<real>, dear: bool, hours: nat): set<int> {
    set s | 0 <= s < |prices| && |RankAhead(prices, dear, s)| < hours
  }

  function Least(hours: nat, slots: nat): nat {
    if hours <= slots then hours else slots
  }

  lemma FirstCount(prices: seq<real>, dear: bool, hours: nat)
    ensures |First(prices, dear, hours)| == Least(hours, |prices|)
  {
    hide Taken, Ranked, RankAhead;
    TakenIs(prices, dear, hours);
    forall s | 0 <= s < |prices|
      ensures s in First(prices, dear, hours) <==> s in Elements(Taken(prices, dear, hours))
    {
      TakenMeans(prices, dear, hours, s);
    }
    assert First(prices, dear, hours) == Elements(Taken(prices, dear, hours));
  }

  lemma DischargeIsFirst(prices: seq<real>, chargeHours: nat, dischargeHours: nat)
    requires |prices| <= 32
    ensures DischargeSlots(prices, chargeHours, dischargeHours)
         == First(prices, true, dischargeHours) - First(prices, false, chargeHours)
  {
    hide RankAhead, Charges, Discharges, Rank;
    forall s | 0 <= s < |prices|
      ensures s in DischargeSlots(prices, chargeHours, dischargeHours)
         <==> s in First(prices, true, dischargeHours) && s !in First(prices, false, chargeHours)
    {
      RankMeans(prices, chargeHours, dischargeHours, s);
    }
  }

  /** A day discharges in as many slots as asked for, or the whole of a shorter day, less
      those that are also among the cheapest. */
  lemma DischargeCount(prices: seq<real>, chargeHours: nat, dischargeHours: nat)
    requires |prices| <= 32
    ensures |DischargeSlots(prices, chargeHours, dischargeHours)|
         == Least(dischargeHours, |prices|) - |First(prices, true, dischargeHours) * First(prices, false, chargeHours)|
  {
    hide First, DischargeSlots;
    FirstCount(prices, true, dischargeHours);
    DischargeIsFirst(prices, chargeHours, dischargeHours);
    var dear, cheap := First(prices, true, dischargeHours), First(prices, false, chargeHours);
    assert dear == (dear - cheap) + dear * cheap;
  }

  /** Every slot bought is strictly cheaper than every slot sold. */
  ghost predicate Spread(prices: seq<real>, chargeHours: nat, dischargeHours: nat) {
    forall c, d :: c in First(prices, false, chargeHours) && d in First(prices, true, dischargeHours) ==>
        prices[c] < prices[d]
  }

  /** The first slot at a price. */
  lemma {:induction false} EarliestAt(prices: seq<real>, slot: nat) returns (first: nat)
    requires slot < |prices|
    ensures first <= slot && prices[first] == prices[slot] && forall s :: 0 <= s < first ==> prices[s] != prices[slot]
  {
    first := slot;
    if s :| 0 <= s < slot && prices[s] == prices[slot] {
      first := EarliestAt(prices, s);
    }
  }

  lemma SubsetCount(a: set<int>, b: set<int>)
    requires a <= b
    ensures |a| <= |b|
  {
    assert b == a + (b - a);
  }

  /** Where something bought is no cheaper than something sold, the first slot at its price
      is both bought and sold. */
  lemma ClashMeets(prices: seq<real>, chargeHours: nat, dischargeHours: nat, c: nat, d: nat) returns (s: nat)
    requires c in First(prices, false, chargeHours) && d in First(prices, true, dischargeHours)
        && prices[d] <= prices[c]
    ensures s in First(prices, true, dischargeHours) * First(prices, false, chargeHours)
  {
    s := EarliestAt(prices, c);
    SubsetCount(RankAhead(prices, false, s), RankAhead(prices, false, c));
    SubsetCount(RankAhead(prices, true, s), RankAhead(prices, true, d));
  }

  /** A day discharges in every hour asked for (or all it has) exactly when every slot
      bought is strictly cheaper than every slot sold. */
  lemma DischargesInFull(prices: seq<real>, chargeHours: nat, dischargeHours: nat)
    requires |prices| <= 32
    ensures |DischargeSlots(prices, chargeHours, dischargeHours)| == Least(dischargeHours, |prices|)
       <==> Spread(prices, chargeHours, dischargeHours)
  {
    DischargeCount(prices, chargeHours, dischargeHours);
    var both := First(prices, true, dischargeHours) * First(prices, false, chargeHours);
    hide First, DischargeSlots;
    if both == {} {
      forall c, d | c in First(prices, false, chargeHours) && d in First(prices, true, dischargeHours)
        ensures 0 <= c < |prices| && 0 <= d < |prices| && prices[c] < prices[d]
      {
        FirstIsSlot(prices, false, chargeHours, c);
        FirstIsSlot(prices, true, dischargeHours, d);
        if prices[d] <= prices[c] {
          var s := ClashMeets(prices, chargeHours, dischargeHours, c, d);
        }
      }
    } else {
      var s :| s in both;
      FirstIsSlot(prices, true, dischargeHours, s);
      assert s in First(prices, false, chargeHours) && s in First(prices, true, dischargeHours);
    }
  }

  lemma FirstIsSlot(prices: seq<real>, dear: bool, hours: nat, s: int)
    requires s in First(prices, dear, hours)
    ensures 0 <= s < |prices|
  {}

  /** On a day of one price the two rankings are the same, so a day asked to charge at
      least as long as it discharges never discharges. */
  lemma FlatDayNeverDischarges(prices: seq<real>, chargeHours: nat, dischargeHours: nat)
    requires |prices| <= 32 && dischargeHours <= chargeHours
    requires forall i, j :: 0 <= i < j < |prices| ==> prices[i] == prices[j]
    ensures DischargeSlots(prices, chargeHours, dischargeHours) == {}
  {
    DischargeIsFirst(prices, chargeHours, dischargeHours);
    hide DischargeSlots;
    forall s | 0 <= s < |prices|
      ensures s in First(prices, true, dischargeHours) ==> s in First(prices, false, chargeHours)
    {
      assert RankAhead(prices, true, s) == RankAhead(prices, false, s);
    }
  }
}
