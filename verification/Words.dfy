/** The alarm words. The models work with the set of raised bit positions; this
    module proves that the source's bit operations on a `u32` are those set
    operations. */
module Words {
  import opened State

  /** Low byte warnings, high byte trips. */
  function SeverityOf(bit: int): Severity {
    if bit < 8 then Warning else Trip
  }

  function WithBit(w: Word, bit: int, on: bool): Word {
    if on then w + {bit} else w - {bit}
  }

  /** A row of bits set or cleared, in order. */
  function WithBits(w: Word, settings: seq<(int, bool)>): Word {
    if settings == [] then w
    else WithBit(WithBits(w, settings[..|settings| - 1]), settings[|settings| - 1].0, settings[|settings| - 1].1)
  }

  /** A bit no setting clears stays raised, one no setting raises stays clear, and a row
      of laid-out bits keeps a word laid out. */
  lemma {:induction false} WithBitsKeeps(w: Word, settings: seq<(int, bool)>, bit: int)
    ensures bit in w && (forall s <- settings :: s.0 == bit ==> s.1) ==> bit in WithBits(w, settings)
    ensures bit !in w && (forall s <- settings :: s.0 == bit ==> !s.1) ==> bit !in WithBits(w, settings)
    ensures WordOk(w) && (forall s <- settings :: 0 <= s.0 < 16) ==> WordOk(WithBits(w, settings))
  {
    if settings != [] {
      var init := settings[..|settings| - 1];
      assert forall s <- init :: s in settings;
      WithBitsKeeps(w, init, bit);
      assert settings[|settings| - 1] in settings;
    }
  }

  /** A row that names each position once. */
  predicate Distinct(settings: seq<(int, bool)>) {
    forall i, j :: 0 <= i < j < |settings| ==> settings[i].0 != settings[j].0
  }

  /** Each position a row of distinct bits names reads as the row says. */
  lemma {:induction false} WithBitsSets(w: Word, settings: seq<(int, bool)>, k: nat)
    requires k < |settings| && Distinct(settings)
    ensures settings[k].0 in WithBits(w, settings) <==> settings[k].1
  {
    var init := settings[..|settings| - 1];
    if k < |init| {
      WithBitsSets(w, init, k);
    }
  }

  /** The word with its latched half cleared. */
  function ClearTrips(w: Word): Word {
    set b | b in w && !(8 <= b < 16)
  }

  /** Only the low sixteen positions are laid out, and the log looks at no others. */
  predicate WordOk(w: Word) {
    forall b <- w :: 0 <= b < 16
  }

  // ----- The machine words ---------------------------------------------------------

  type Position = b: bv32 | b < 32

  function Mask(bit: Position): bv32 {
    1 << bit
  }

  predicate Meets(w: bv32, m: bv32) {
    w & m != 0
  }

  predicate Apart(m: bv32, c: bv32) {
    m & c == 0
  }

  function Masked(w: bv32, m: bv32, on: bool): bv32 {
    if on then w | m else w & !m
  }

  function Xor(w: bv32, v: bv32): bv32 {
    w ^ v
  }

  function WithoutTrips(w: bv32): bv32 {
    w & !0xff00
  }

  predicate HasBit32(w: bv32, bit: Position) {
    Meets(w, Mask(bit))
  }

  function WithBit32(w: bv32, bit: Position, on: bool): bv32 {
    Masked(w, Mask(bit), on)
  }

  /** `w` is the machine word of the bit set `s`. */
  ghost predicate Represents(w: bv32, s: Word) {
    && (forall b: Position :: HasBit32(w, b) <==> b as int in s)
    && (forall b <- s :: 0 <= b < 32)
  }

  lemma MasksDiffer(a: Position, b: Position)
    ensures Mask(a) != 0 && (a != b ==> Apart(Mask(a), Mask(b)))
  {}

  lemma ApartUntouched(w: bv32, m: bv32, c: bv32, on: bool)
    requires Apart(m, c)
    ensures Meets(Masked(w, m, on), c) == Meets(w, c)
  {
    if on { OrApart(w, m, c); } else { ClearApart(w, m, c); }
    hide Apart;
  }

  lemma OrApart(w: bv32, m: bv32, c: bv32)
    requires Apart(m, c)
    ensures Meets(Masked(w, m, true), c) == Meets(w, c)
  {}

  lemma ClearApart(w: bv32, m: bv32, c: bv32)
    requires Apart(m, c)
    ensures Meets(Masked(w, m, false), c) == Meets(w, c)
  {}

  lemma MaskTaken(w: bv32, m: bv32, on: bool)
    requires m != 0
    ensures Meets(Masked(w, m, on), m) == on
  {}

  lemma WithBitRefines(w: bv32, s: Word, bit: Position, on: bool)
    requires Represents(w, s)
    ensures Represents(WithBit32(w, bit, on), WithBit(s, bit as int, on))
  {
    hide HasBit32, WithBit32;
    forall b: Position
      ensures HasBit32(WithBit32(w, bit, on), b) <==> b as int in WithBit(s, bit as int, on)
    {
      HasAfterWith(w, bit, on, b);
    }
  }

  lemma HasAfterWith(w: bv32, bit: Position, on: bool, b: Position)
    ensures HasBit32(WithBit32(w, bit, on), b) == if b == bit then on else HasBit32(w, b)
  {
    hide Mask, Meets, Masked, Apart;
    MasksDiffer(bit, b);
    if b == bit {
      MaskTaken(w, Mask(b), on);
    } else {
      ApartUntouched(w, Mask(bit), Mask(b), on);
    }
  }

  function And(w: bv32, m: bv32): bv32 {
    w & m
  }

  lemma XorDistributes(w: bv32, v: bv32, m: bv32)
    ensures And(Xor(w, v), m) == Xor(And(w, m), And(v, m))
  {}

  lemma AllOrNothing(w: bv32, b: Position)
    ensures And(w, Mask(b)) == 0 || And(w, Mask(b)) == Mask(b)
  {}

  lemma XorCases(m: bv32)
    ensures Xor(m, m) == 0 && Xor(m, 0) == m && Xor(0, m) == m && Xor(0, 0) == 0
  {}

  lemma HasAfterXor(w: bv32, v: bv32, b: Position)
    ensures HasBit32(Xor(w, v), b) <==> HasBit32(w, b) != HasBit32(v, b)
  {
    hide Mask, Xor, And, Apart, Meets;
    AllOrNothing(w, b);
    AllOrNothing(v, b);
    XorDistributes(w, v, Mask(b));
    NotZero(b);
    XorCases(Mask(b));
    MeetsAnd(w, Mask(b));
    MeetsAnd(v, Mask(b));
    MeetsAnd(Xor(w, v), Mask(b));
  }

  lemma MeetsAnd(w: bv32, m: bv32)
    ensures Meets(w, m) == (And(w, m) != 0)
  {}

  lemma NotZero(b: Position)
    ensures Mask(b) != 0
  {}

  lemma XorIsDifference(w: bv32, v: bv32, s: Word, t: Word)
    requires Represents(w, s) && Represents(v, t)
    ensures Represents(Xor(w, v), (s - t) + (t - s))
  {
    hide Mask, Meets, Xor, Apart;
    forall b: Position
      ensures HasBit32(Xor(w, v), b) <==> b as int in (s - t) + (t - s)
    {
      HasAfterXor(w, v, b);
      assert HasBit32(w, b) <==> b as int in s;
      assert HasBit32(v, b) <==> b as int in t;
    }
  }

  lemma TripMask(b: Position)
    ensures if 8 <= b as int < 16 then 0xff00 & Mask(b) == Mask(b) else 0xff00 & Mask(b) == 0
  {}

  lemma InsideTrips(w: bv32, m: bv32)
    requires 0xff00 & m == m
    ensures !Meets(WithoutTrips(w), m)
  {}

  lemma OutsideTrips(w: bv32, m: bv32)
    requires 0xff00 & m == 0
    ensures Meets(WithoutTrips(w), m) == Meets(w, m)
  {}

  lemma MaskCleared(w: bv32, b: Position)
    ensures Meets(WithoutTrips(w), Mask(b)) <==> Meets(w, Mask(b)) && !(8 <= b as int < 16)
  {
    hide Mask, Meets, WithoutTrips;
    TripMask(b);
    if 8 <= b as int < 16 {
      InsideTrips(w, Mask(b));
    } else {
      OutsideTrips(w, Mask(b));
    }
  }

  /** The operator reset's mask clears exactly the latched half. */
  lemma MaskIsClearTrips(w: bv32, s: Word)
    requires Represents(w, s)
    ensures Represents(WithoutTrips(w), ClearTrips(s))
  {
    hide Mask, Meets, WithoutTrips;
    forall b: Position
      ensures HasBit32(WithoutTrips(w), b) <==> b as int in ClearTrips(s)
    {
      MaskCleared(w, b);
      assert HasBit32(w, b) <==> b as int in s;
    }
  }
}
