/** A scenario's start: the one spelling of an instant a file may use. Text here is the
    bytes of its UTF-8. */
module Starts {
  import opened Wrappers
  import opened Decimals
  import opened Calendars

  datatype StartError = Fraction | NotUtc | BadForm | NotReal

  /** The form YYYY-MM-DDThh:mm:ssZ of RFC 3339, sections 5.6 and 5.7. */
  predicate HasForm(text: string) {
    |text| == 20 && forall i :: 0 <= i < 20 ==> Fits(i, text[i])
  }

  predicate Fits(i: int, c: char) {
    if IsDigitPlace(i) then IsDigit(c)
    else if i == 4 || i == 7 then c == '-'
    else if i == 10 then c == 'T'
    else if i == 19 then c == 'Z'
    else c == ':'
  }

  predicate IsDigitPlace(i: int) {
    i != 4 && i != 7 && i != 10 && i != 13 && i != 16 && i != 19
  }

  function Number(text: string, lo: nat, hi: nat): nat
    requires HasForm(text) && lo <= hi <= 20
    requires forall i :: lo <= i < hi ==> IsDigitPlace(i)
  {
    DigitsThere(text, lo, hi);
    Value(text[lo..hi])
  }

  lemma DigitsThere(text: string, lo: nat, hi: nat)
    requires HasForm(text) && lo <= hi <= 20
    requires forall i :: lo <= i < hi ==> IsDigitPlace(i)
    ensures AllDigits(text[lo..hi])
  {
    forall i | lo <= i < hi
      ensures IsDigit(text[i])
    {
      assert IsDigitPlace(i) && Fits(i, text[i]);
    }
  }

  function ParseStart(text: string): Result<int, StartError> {
    if '.' in text || ',' in text then Err(Fraction)
    else if text == "" || text[|text| - 1] != 'Z' then Err(NotUtc)
    else if !HasForm(text) then Err(BadForm)
    else
      Judge(Number(text, 0, 4), Number(text, 5, 7), Number(text, 8, 10),
            Number(text, 11, 13), Number(text, 14, 16), Number(text, 17, 19))
  }

  /** The six numbers as a timestamp, if they are a date and a time of day. */
  function Judge(year: nat, month: nat, day: nat, hour: nat, minute: nat, second: nat): Result<int, StartError> {
    var days := DaysFromCivil(year, month, day);
    var realDate := 1 <= month <= 12 && CivilFromDays(days) == Date(year, month, day);
    if !realDate || hour > 23 || minute > 59 || second > 59 then Err(NotReal)
    else Ok(days * 86400 + hour * 3600 + minute * 60 + second)
  }

  /** The numbers of a timestamp: accepted exactly when they are its instant. */
  lemma JudgesInstants(i: Instant, unix: int)
    requires 0 <= i.date.year && 0 <= i.date.month && 0 <= i.date.day && 0 <= i.hour && 0 <= i.minute && 0 <= i.second
    ensures Judge(i.date.year, i.date.month, i.date.day, i.hour, i.minute, i.second) == Ok(unix)
       <==> IsInstant(i) && InstantOf(unix) == i
  {
    hide DaysFromCivil, CivilFromDays, IsDate, InstantOf, ClockDays;
    RealDatesSurvive(i.date.year, i.date.month, i.date.day);
    MonthIsNat(i.date);
    InstantRoundTrips(unix, i);
    ClockAgrees(i.date.year, i.date.month, i.date.day);
    if IsInstant(i) {
      SecondsJoin(DaysFromCivil(i.date.year, i.date.month, i.date.day), i.hour, i.minute, i.second);
    }
  }

  /** The text of an instant. */
  function Stamp(i: Instant): (s: string)
    requires IsInstant(i) && 0 <= i.date.year <= 9999
  {
    InstantIsShort(i);
    Spelled(i)
  }

  function Spelled(i: Instant): (s: string)
    requires 0 <= i.date.year && 0 <= i.date.month && 0 <= i.date.day && 0 <= i.hour && 0 <= i.minute && 0 <= i.second
  {
    Padded(i.date.year, 4) + "-" + Padded(i.date.month, 2) + "-" + Padded(i.date.day, 2) + "T"
    + Padded(i.hour, 2) + ":" + Padded(i.minute, 2) + ":" + Padded(i.second, 2) + "Z"
  }

  lemma StampForm(y: string, mo: string, d: string, h: string, mi: string, s: string)
    requires |y| == 4 && |mo| == |d| == |h| == |mi| == |s| == 2
    requires AllDigits(y) && AllDigits(mo) && AllDigits(d) && AllDigits(h) && AllDigits(mi) && AllDigits(s)
    ensures var text := y + "-" + mo + "-" + d + "T" + h + ":" + mi + ":" + s + "Z";
      && HasForm(text) && text[0..4] == y && text[5..7] == mo && text[8..10] == d
      && text[11..13] == h && text[14..16] == mi && text[17..19] == s
  {
    var text := y + "-" + mo + "-" + d + "T" + h + ":" + mi + ":" + s + "Z";
    forall i | 0 <= i < 20
      ensures Fits(i, text[i])
    {
      assert i < 4 ==> text[i] == y[i];
      assert 5 <= i < 7 ==> text[i] == mo[i - 5];
      assert 8 <= i < 10 ==> text[i] == d[i - 8];
      assert 11 <= i < 13 ==> text[i] == h[i - 11];
      assert 14 <= i < 16 ==> text[i] == mi[i - 14];
      assert 17 <= i < 19 ==> text[i] == s[i - 17];
    }
  }

  lemma FormCut(text: string)
    requires HasForm(text)
    ensures text == text[0..4] + "-" + text[5..7] + "-" + text[8..10] + "T"
                    + text[11..13] + ":" + text[14..16] + ":" + text[17..19] + "Z"
  {
    assert Fits(4, text[4]) && Fits(7, text[7]) && Fits(10, text[10]) && Fits(13, text[13]) && Fits(16, text[16])
        && Fits(19, text[19]);
  }

  lemma FormClean(text: string)
    requires HasForm(text)
    ensures '.' !in text && ',' !in text && text[|text| - 1] == 'Z'
  {
    assert forall i :: 0 <= i < 20 ==> Fits(i, text[i]);
  }

  lemma Widths()
    ensures Pow10(2) == 100 && Pow10(4) == 10000
  {
    assert Pow10(1) == 10;
    assert Pow10(3) == 1000;
  }

  lemma ReadsNumber(text: string, lo: nat, hi: nat)
    requires HasForm(text) && lo <= hi <= 20
    requires forall i :: lo <= i < hi ==> IsDigitPlace(i)
    ensures Number(text, lo, hi) < Pow10(hi - lo) && Padded(Number(text, lo, hi), hi - lo) == text[lo..hi]
  {
    DigitsThere(text, lo, hi);
    ReadsPadded(text[lo..hi]);
  }

  function Numbers(text: string): Instant
    requires HasForm(text)
  {
    Instant(Date(Number(text, 0, 4), Number(text, 5, 7), Number(text, 8, 10)),
            Number(text, 11, 13), Number(text, 14, 16), Number(text, 17, 19))
  }

  /** A text of the form holds six numbers of two and four digits, and nothing else. */
  lemma FormIsNumbers(text: string)
    requires HasForm(text)
    ensures var i := Numbers(text);
      && 0 <= i.date.year < 10000 && 0 <= i.date.month < 100 && 0 <= i.date.day < 100
      && 0 <= i.hour < 100 && 0 <= i.minute < 100 && 0 <= i.second < 100
      && text == Spelled(i)
  {
    hide HasForm, Number, Padded, Pow10, Fits;
    Widths();
    ReadsNumber(text, 0, 4);
    ReadsNumber(text, 5, 7);
    ReadsNumber(text, 8, 10);
    ReadsNumber(text, 11, 13);
    ReadsNumber(text, 14, 16);
    ReadsNumber(text, 17, 19);
    FormCut(text);
  }

  lemma NumberReads(text: string, lo: nat, hi: nat, n: nat)
    requires HasForm(text) && lo <= hi <= 20
    requires forall i :: lo <= i < hi ==> IsDigitPlace(i)
    requires n < Pow10(hi - lo) && text[lo..hi] == Padded(n, hi - lo)
    ensures Number(text, lo, hi) == n
  {
    PaddedReads(n, hi - lo);
    hide Padded, Value, HasForm;
  }

  /** Spelling six numbers and reading them back. */
  lemma SpelledIsForm(i: Instant)
    requires 0 <= i.date.year < 10000 && 0 <= i.date.month < 100 && 0 <= i.date.day < 100
    requires 0 <= i.hour < 100 && 0 <= i.minute < 100 && 0 <= i.second < 100
    ensures HasForm(Spelled(i)) && Numbers(Spelled(i)) == i
  {
    var text := Spelled(i);
    StampForm(Padded(i.date.year, 4), Padded(i.date.month, 2), Padded(i.date.day, 2),
              Padded(i.hour, 2), Padded(i.minute, 2), Padded(i.second, 2));
    Widths();
    hide HasForm, Padded, Pow10, Number, Spelled;
    SpelledFields(text, i);
  }

  lemma SpelledFields(text: string, i: Instant)
    requires HasForm(text)
    requires 0 <= i.date.year < Pow10(4) && 0 <= i.date.month < Pow10(2) && 0 <= i.date.day < Pow10(2)
    requires 0 <= i.hour < Pow10(2) && 0 <= i.minute < Pow10(2) && 0 <= i.second < Pow10(2)
    requires text[0..4] == Padded(i.date.year, 4) && text[5..7] == Padded(i.date.month, 2)
        && text[8..10] == Padded(i.date.day, 2)
    requires text[11..13] == Padded(i.hour, 2) && text[14..16] == Padded(i.minute, 2)
        && text[17..19] == Padded(i.second, 2)
    ensures Numbers(text) == i
  {
    hide HasForm, Padded, Pow10, Number;
    NumberReads(text, 0, 4, i.date.year);
    NumberReads(text, 5, 7, i.date.month);
    NumberReads(text, 8, 10, i.date.day);
    NumberReads(text, 11, 13, i.hour);
    NumberReads(text, 14, 16, i.minute);
    NumberReads(text, 17, 19, i.second);
  }

  lemma ParsesForm(text: string)
    requires HasForm(text)
    ensures var i := Numbers(text);
      ParseStart(text) == Judge(i.date.year, i.date.month, i.date.day, i.hour, i.minute, i.second)
  {
    FormClean(text);
    hide HasForm, Judge, Number;
  }

  lemma OnlyFormsParse(text: string)
    requires ParseStart(text).Ok?
    ensures HasForm(text)
  {
    hide HasForm, Judge, Number;
  }

  lemma InstantIsShort(i: Instant)
    requires IsInstant(i)
    ensures 1 <= i.date.month <= 12 && 1 <= i.date.day <= 31
  {
    hide IsLeap;
  }

  /** `parse_start` accepts exactly the real instants of the years 0 to 9999, each in its
      one spelling: whole seconds, UTC, no leap second. */
  lemma AcceptsExactlyRealInstants(text: string, unix: int)
    ensures ParseStart(text) == Ok(unix)
       <==> (var i := InstantOf(unix); IsInstant(i) && 0 <= i.date.year <= 9999 && text == Stamp(i))
  {
    var i := InstantOf(unix);
    InstantRoundTrips(unix, i);
    InstantIsShort(i);
    hide HasForm, Judge, Number, InstantOf, IsInstant, Numbers, ParseStart, Spelled;
    if 0 <= i.date.year <= 9999 && text == Stamp(i) {
      InTime(i);
      SpelledIsForm(i);
      ParsesForm(text);
      JudgesInstants(i, unix);
    }
    if ParseStart(text) == Ok(unix) {
      OnlyFormsParse(text);
      FormIsNumbers(text);
      ParsesForm(text);
      JudgesInstants(Numbers(text), unix);
    }
  }

  lemma InTime(i: Instant)
    requires IsInstant(i)
    ensures 0 <= i.hour < 24 && 0 <= i.minute < 60 && 0 <= i.second < 60
  {}
}
