/** Numbers as text: fixed-width and plain decimals, and paths of dotted parts. */
module Decimals {

  predicate IsDigit(c: char) {
    '0' <= c <= '9'
  }

  predicate AllDigits(s: string) {
    forall c <- s :: IsDigit(c)
  }

  type Digit = n: int | 0 <= n < 10

  function DigitChar(n: Digit): (c: char)
    ensures IsDigit(c)
  {
    (n + 48) as char
  }

  function DigitOf(c: char): Digit
    requires IsDigit(c)
  {
    c as int - 48
  }

  function Value(s: string): nat
    requires AllDigits(s)
  {
    if s == "" then 0 else Value(s[..|s| - 1]) * 10 + DigitOf(s[|s| - 1])
  }

  // ----- Fixed width ----------------------------------------------------------------------

  function Pow10(w: nat): nat {
    if w == 0 then 1 else 10 * Pow10(w - 1)
  }

  /** The last w digits of a number, zero padded. */
  function Padded(n: nat, w: nat): (s: string)
    ensures |s| == w && AllDigits(s)
  {
    if w == 0 then "" else Padded(n / 10, w - 1) + [DigitChar(n % 10)]
  }

  lemma {:induction false} PaddedReads(n: nat, w: nat)
    requires n < Pow10(w)
    ensures Value(Padded(n, w)) == n
  {
    if w > 0 {
      PaddedReads(n / 10, w - 1);
      assert Padded(n, w)[..w - 1] == Padded(n / 10, w - 1);
    }
  }

  lemma {:induction false} ReadsPadded(s: string)
    requires AllDigits(s)
    ensures Value(s) < Pow10(|s|) && Padded(Value(s), |s|) == s
  {
    if s != "" {
      var init := s[..|s| - 1];
      ReadsPadded(init);
      assert Value(s) / 10 == Value(init) && Value(s) % 10 == DigitOf(s[|s| - 1]);
      assert s == init + [s[|s| - 1]];
    }
  }

  // ----- Plain -------------------------------------------------------------------------------

  /** Unpadded decimal digits: what an index looks like. */
  predicate IsPlain(s: string) {
    s != "" && AllDigits(s) && (s == "0" || s[0] != '0')
  }

  function Plain(n: nat): (s: string)
    ensures IsPlain(s) && (s == "0" <==> n == 0)
  {
    if n < 10 then [DigitChar(n)] else Plain(n / 10) + [DigitChar(n % 10)]
  }

  lemma {:induction false} PlainReads(n: nat)
    ensures Value(Plain(n)) == n
  {
    if n < 10 {
      assert Plain(n)[..0] == "";
    } else {
      PlainReads(n / 10);
      assert Plain(n)[..|Plain(n)| - 1] == Plain(n / 10);
    }
  }

  lemma {:induction false} ReadsPlain(s: string)
    requires IsPlain(s)
    ensures Plain(Value(s)) == s
  {
    if |s| == 1 {
      assert s[..0] == "";
      assert s == [s[0]];
    } else {
      var init := s[..|s| - 1];
      ReadsPlain(init);
      assert init[0] == s[0];
      assert Value(s) / 10 == Value(init) && Value(s) % 10 == DigitOf(s[|s| - 1]);
      assert s == init + [s[|s| - 1]];
    }
  }

  // ----- Dotted parts ----------------------------------------------------------------------------

  function Split(s: string): (parts: seq<string>)
    ensures parts != []
  {
    if s == "" then [""] else
      var rest := Split(s[1..]);
      if s[0] == '.' then [""] + rest else [[s[0]] + rest[0]] + rest[1..]
  }

  function Join(parts: seq<string>): string
    requires parts != []
  {
    if |parts| == 1 then parts[0] else parts[0] + "." + Join(parts[1..])
  }

  predicate Dotless(s: string) {
    '.' !in s
  }

  lemma {:induction false} JoinSplit(s: string)
    ensures Join(Split(s)) == s
  {
    if s != "" {
      JoinSplit(s[1..]);
      SplitStep(s);
      hide Split;
      var rest := Split(s[1..]);
      if s[0] == '.' {
        JoinStep("", rest);
        assert s == "" + "." + s[1..];
      } else {
        JoinHead(s[0], rest);
        assert s == [s[0]] + s[1..];
      }
    }
  }

  lemma SplitStep(s: string)
    requires s != ""
    ensures var rest := Split(s[1..]);
      Split(s) == if s[0] == '.' then [""] + rest else [[s[0]] + rest[0]] + rest[1..]
  {}

  lemma JoinStep(p: string, rest: seq<string>)
    requires rest != []
    ensures Join([p] + rest) == p + "." + Join(rest)
  {
    assert ([p] + rest)[1..] == rest;
  }

  lemma JoinHead(c: char, parts: seq<string>)
    requires parts != []
    ensures Join([[c] + parts[0]] + parts[1..]) == [c] + Join(parts)
  {
    var next := [[c] + parts[0]] + parts[1..];
    assert next[1..] == parts[1..];
    if |parts| > 1 {
      assert ([c] + parts[0]) + "." + Join(parts[1..]) == [c] + (parts[0] + "." + Join(parts[1..]));
    }
  }

  lemma {:induction false} SplitOne(p: string)
    requires Dotless(p)
    ensures Split(p) == [p]
  {
    if p != "" {
      SplitOne(p[1..]);
      assert p == [p[0]] + p[1..];
      assert [p[1..]][1..] == [];
    }
  }

  lemma {:induction false} SplitPast(p: string, rest: string)
    requires Dotless(p)
    ensures Split(p + "." + rest) == [p] + Split(rest)
  {
    var s := p + "." + rest;
    if p == "" {
      assert s[1..] == rest;
    } else {
      SplitPast(p[1..], rest);
      assert s[1..] == p[1..] + "." + rest;
      assert p == [p[0]] + p[1..];
    }
  }

  lemma {:induction false} SplitJoin(parts: seq<string>)
    requires parts != [] && forall p <- parts :: Dotless(p)
    ensures Split(Join(parts)) == parts
  {
    if |parts| == 1 {
      SplitOne(parts[0]);
    } else {
      assert forall p <- parts[1..] :: p in parts;
      SplitJoin(parts[1..]);
      SplitPast(parts[0], Join(parts[1..]));
    }
  }

  /** The first k parts, joined, begin the path. */
  lemma {:induction false} JoinPrefix(parts: seq<string>, k: nat)
    requires 1 <= k <= |parts|
    ensures Join(parts[..k]) <= Join(parts)
  {
    if k == 1 {
      assert parts[..1] == [parts[0]];
    } else {
      assert parts[..k][1..] == parts[1..][..k - 1];
      JoinPrefix(parts[1..], k - 1);
      var head := parts[0] + ".";
      assert Join(parts[..k]) == head + Join(parts[1..][..k - 1]);
    }
  }
}
