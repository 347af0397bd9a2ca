/** The text form of a time (src/exclusive.rs lines 688-764, src/engine.rs lines 1282-1339),
    section 5.6 of RFC 3339 in whole seconds. */
module Timestamps {
  import opened Calendar
  import opened Decimal
  import opened Text
  import opened Wrappers

  /** `{:04}-{:02}-{:02}T{:02}:{:02}:{:02}Z` */
  function Show(f: Fields): string {
    Padded(f.date.y, 4) + ("-" + (Padded(f.date.m, 2) + ("-" + (Padded(f.date.d, 2) + ("T" + ShowTime(f))))))
  }

  function ShowTime(f: Fields): string {
    Padded(f.h, 2) + (":" + (Padded(f.mi, 2) + (":" + (Padded(f.s, 2) + "Z"))))
  }

  function Format(secs: nat): string { Show(FieldsOf(secs)) }

  method SecondsToIso8601(secs: nat) returns (text: string)
    ensures text == Format(secs)
  {
    var f := SecondsToFields(secs);
    text := Show(f);
  }

  /** The second copy of the loops, on signed integers. */
  method ChronoFields(secs: nat) returns (f: Fields)
    ensures f == FieldsOf(secs)
  {
    var days, remaining := secs / SECONDS_PER_DAY, secs % SECONDS_PER_DAY;
    var y: int, d: int := 1970, days;
    while true
      invariant d >= 0 && y >= 1970 && YearSplit(d, y) == YearSplit(days, 1970)
      decreases d
    {
      var yearDays: int := if (y % 4 == 0 && y % 100 != 0) || y % 400 == 0 then 366 else 365;
      if d < yearDays { break; }
      d := d - yearDays;
      y := y + 1;
    }
    var monthDays := MonthDays(y);
    var m: nat := 1;
    ghost var dayOfYear: nat := d;
    for k := 0 to 12
      invariant m == k + 1 && d >= 0
      invariant MonthSplit(d, monthDays, k) == MonthSplit(dayOfYear, monthDays, 0)
    {
      if d < monthDays[k] { break; }
      d := d - monthDays[k];
      m := m + 1;
    }
    f := Fields(Date(y, m, d + 1), remaining / 3600, remaining % 3600 / 60, remaining % 60);
  }

  method ChronoNow(secs: nat) returns (text: string)
    ensures text == Format(secs)
  {
    var f := ChronoFields(secs);
    text := Show(f);
  }

  // ----- reading -----

  predicate Punctuated(s: string) {
    |s| == 20 && s[4] == '-' && s[7] == '-' && s[10] == 'T' && s[13] == ':' && s[16] == ':' && s[19] == 'Z'
  }

  function Read(s: string): Option<Fields> {
    if !Punctuated(s) then None
    else
      var y, m, d := Parse(s[0..4], U64_VALUES), Parse(s[5..7], U64_VALUES), Parse(s[8..10], U64_VALUES);
      var h, mi, se := Parse(s[11..13], U64_VALUES), Parse(s[14..16], U64_VALUES), Parse(s[17..19], U64_VALUES);
      if y.None? || m.None? || d.None? || h.None? || mi.None? || se.None? then None
      else Some(Fields(Date(y.value, m.value, d.value), h.value, mi.value, se.value))
  }

  function ParseIso(s: string): Option<nat> {
    match Read(s)
    case None => None
    case Some(f) => if InRange(f) then Some(SecondNumber(f)) else None
  }

  /** `t` spells `n`: at least one digit, perhaps after a plus sign. */
  predicate Spells(t: string, n: nat) { IsNumeral(t, n) || (t != [] && t[0] == '+' && IsNumeral(t[1..], n)) }

  predicate IsNumeral(digits: string, n: nat) { digits != [] && AllDigits(digits) && Value(digits) == n }

  /** `s` is punctuated as a time and spells the fields `f` in their places. */
  predicate Spelled(s: string, f: Fields) {
    && Punctuated(s)
    && Spells(s[0..4], f.date.y) && Spells(s[5..7], f.date.m) && Spells(s[8..10], f.date.d)
    && Spells(s[11..13], f.h) && Spells(s[14..16], f.mi) && Spells(s[17..19], f.s)
  }

  lemma {:induction false} ValueBelowPower(s: string)
    requires AllDigits(s)
    ensures Value(s) < Power(|s|)
    decreases |s|
  {
    if s != [] { ValueBelowPower(s[..|s| - 1]); }
  }

  lemma Powers()
    ensures Power(2) == 100 && Power(4) == 10000
  {
    assert Power(1) == 10;
    assert Power(3) == 1000;
  }

  lemma PowersGrow(k: nat)
    requires k <= 4
    ensures Power(k) <= 10000
  {
    Powers();
    assert Power(1) == 10 && Power(3) == 1000;
  }

  lemma SpellsExactlyWhen(t: string, n: nat)
    requires |t| <= 4
    ensures Spells(t, n) <==> Parse(t, U64_VALUES) == Some(n)
  {
    var digits := if t != [] && t[0] == '+' then t[1..] else t;
    if digits != [] && AllDigits(digits) {
      ValueBelowPower(digits);
      PowersGrow(|digits|);
    }
    if t != [] && t[0] == '+' { assert !IsDigit(t[0]); }
  }

  /** What is read is what is spelled, in short numerals without any overflow. */
  lemma ReadsExactlySpelled(s: string, f: Fields)
    ensures Read(s) == Some(f) <==> Spelled(s, f)
  {
    if Punctuated(s) {
      SpellsExactlyWhen(s[0..4], f.date.y);
      SpellsExactlyWhen(s[5..7], f.date.m);
      SpellsExactlyWhen(s[8..10], f.date.d);
      SpellsExactlyWhen(s[11..13], f.h);
      SpellsExactlyWhen(s[14..16], f.mi);
      SpellsExactlyWhen(s[17..19], f.s);
    }
  }

  /** Accepts exactly the texts that spell fields in range, and returns the second they name. */
  method ParseIso8601(s: string) returns (r: Option<nat>)
    ensures forall f :: Spelled(s, f) && InRange(f) ==> r == Some(SecondNumber(f))
    ensures r.Some? ==> exists f :: Spelled(s, f) && InRange(f) && r.value == SecondNumber(f)
    ensures r == ParseIso(s)
  {
    forall f ensures Read(s) == Some(f) <==> Spelled(s, f) { ReadsExactlySpelled(s, f); }
    var f := Read(s);
    if f.None? { return None; }
    r := IsoToSecs(f.value);
  }

  // ----- round trip -----

  /** Every field fits its width. */
  predicate Narrow(f: Fields) {
    f.date.y <= 9999 && f.date.m <= 99 && f.date.d <= 99 && f.h <= 99 && f.mi <= 99 && f.s <= 99
  }

  lemma TimeLayout(h: string, mi: string, se: string)
    requires |h| == |mi| == |se| == 2
    ensures var t := h + (":" + (mi + (":" + (se + "Z"))));
      && |t| == 9 && t[2] == ':' && t[5] == ':' && t[8] == 'Z' && t[0..2] == h && t[3..5] == mi && t[6..8] == se
  {
  }

  lemma DateLayout(y: string, m: string, d: string, t: string)
    requires |y| == 4 && |m| == |d| == 2
    ensures var s := y + ("-" + (m + ("-" + (d + ("T" + t)))));
      && |s| == 11 + |t| && s[4] == '-' && s[7] == '-' && s[10] == 'T' && s[11..] == t
      && s[0..4] == y && s[5..7] == m && s[8..10] == d
  {
  }

  lemma ShownTime(f: Fields)
    requires f.h <= 99 && f.mi <= 99 && f.s <= 99
    ensures var t := ShowTime(f);
      && |t| == 9 && t[2] == ':' && t[5] == ':' && t[8] == 'Z'
      && t[0..2] == Padded(f.h, 2) && t[3..5] == Padded(f.mi, 2) && t[6..8] == Padded(f.s, 2)
  {
    Powers();
    TimeLayout(Padded(f.h, 2), Padded(f.mi, 2), Padded(f.s, 2));
  }

  lemma ShownParts(f: Fields)
    requires Narrow(f)
    ensures var s := Show(f);
      && |s| == 20 && s[4] == '-' && s[7] == '-' && s[10] == 'T' && s[11..] == ShowTime(f)
      && s[0..4] == Padded(f.date.y, 4) && s[5..7] == Padded(f.date.m, 2) && s[8..10] == Padded(f.date.d, 2)
  {
    Powers();
    ShownTime(f);
    DateLayout(Padded(f.date.y, 4), Padded(f.date.m, 2), Padded(f.date.d, 2), ShowTime(f));
  }

  lemma ShownClock(f: Fields)
    requires Narrow(f)
    ensures Punctuated(Show(f))
    ensures Show(f)[11..13] == Padded(f.h, 2) && Show(f)[14..16] == Padded(f.mi, 2) && Show(f)[17..19] == Padded(f.s, 2)
  {
    var s, t := Show(f), ShowTime(f);
    ShownParts(f);
    ShownTime(f);
    TailSlices(s, t);
  }

  lemma TailSlices(s: string, t: string)
    requires |s| == 20 && |t| == 9 && s[11..] == t
    ensures s[13] == t[2] && s[16] == t[5] && s[19] == t[8]
    ensures s[11..13] == t[0..2] && s[14..16] == t[3..5] && s[17..19] == t[6..8]
  {
    assert forall k :: 0 <= k < 9 ==> s[11 + k] == t[k];
  }

  lemma ReadsParts(s: string, f: Fields)
    requires Punctuated(s)
    requires Parse(s[0..4], U64_VALUES) == Some(f.date.y) && Parse(s[5..7], U64_VALUES) == Some(f.date.m)
    requires Parse(s[8..10], U64_VALUES) == Some(f.date.d) && Parse(s[11..13], U64_VALUES) == Some(f.h)
    requires Parse(s[14..16], U64_VALUES) == Some(f.mi) && Parse(s[17..19], U64_VALUES) == Some(f.s)
    ensures Read(s) == Some(f)
  {
  }

  lemma ShownReads(f: Fields)
    requires Narrow(f)
    ensures Read(Show(f)) == Some(f)
  {
    ShownParts(f);
    ShownClock(f);
    PaddedParses(f.date.y, 4, U64_VALUES);
    PaddedParses(f.date.m, 2, U64_VALUES);
    PaddedParses(f.date.d, 2, U64_VALUES);
    PaddedParses(f.h, 2, U64_VALUES);
    PaddedParses(f.mi, 2, U64_VALUES);
    PaddedParses(f.s, 2, U64_VALUES);
    ReadsParts(Show(f), f);
  }

  lemma LongYearIsLonger(f: Fields)
    requires ValidFields(f) && f.date.y > 9999
    ensures |Show(f)| > 20
  {
    Powers();
    PaddedOverflows(f.date.y, 4);
    ShownTime(f);
  }

  lemma LeapsBefore(y: nat)
    requires y >= 1970
    ensures DaysBefore(y) == 365 * (y - 1970) + ((y - 1) / 4 - (y - 1) / 100 + (y - 1) / 400) - 477
  {
    if y > 1970 {
      LeapsBefore(y - 1);
      LeapCount(y - 1);
    }
  }

  lemma LeapCount(y: nat)
    requires y >= 1
    ensures var leaps := (n: nat) => n / 4 - n / 100 + n / 400; leaps(y) - leaps(y - 1) == if IsLeap(y) then 1 else 0
  {
    Carry(y, 4);
    Carry(y, 100);
    Carry(y, 400);
    CenturiesNest(y);
  }

  lemma CenturiesNest(y: nat)
    ensures y % 400 == 0 ==> y % 100 == 0
    ensures y % 100 == 0 ==> y % 4 == 0
  {
    if y % 400 == 0 {
      var q := y / 400;
      assert y == q * 400;
      DivMod(y, 100, 4 * q, 0);
    }
    if y % 100 == 0 {
      var q := y / 100;
      assert y == q * 100;
      DivMod(y, 4, 25 * q, 0);
    }
  }

  lemma Carry(y: nat, k: nat)
    requires y >= 1 && k >= 2
    ensures y / k - (y - 1) / k == if y % k == 0 then 1 else 0
  {
    var q, r := (y - 1) / k, (y - 1) % k;
    assert y - 1 == q * k + r;
    if r == k - 1 {
      assert y == (q + 1) * k;
      DivMod(y, k, q + 1, 0);
    } else {
      DivMod(y, k, q, r + 1);
    }
  }

  lemma DivMod(n: nat, k: nat, q: nat, r: nat)
    requires k > 0 && n == q * k + r && r < k
    ensures n / k == q && n % k == r
  {
    var d := n / k - q;
    assert n == n / k * k + n % k;
    assert d * k == r - n % k;
    assert d >= 1 ==> d * k >= 1 * k;
    assert d <= -1 ==> d * k <= -1 * k;
  }

  /** The first second of year 10000. */
  const YEAR_10000 := 253402300800

  lemma YearStarts(t: Date, y: nat)
    requires ValidDate(t) && y > 1970
    ensures t.y < y <==> DayNumber(t) < DaysBefore(y)
  {
    var start := Date(y, 1, 1);
    assert DayNumber(start) == DaysBefore(y);
    if t.y < y { DayNumbersGrow(t, start); } else if t != start { DayNumbersGrow(start, t); }
  }

  lemma DaysBefore10000()
    ensures DaysBefore(10000) * SECONDS_PER_DAY == YEAR_10000
  {
    LeapsBefore(10000);
  }

  lemma YearsBelow10000(secs: nat)
    ensures FieldsOf(secs).date.y <= 9999 <==> secs < YEAR_10000
  {
    DaysBefore10000();
    FieldsOfIsExact(secs);
    YearStarts(FieldsOf(secs).date, 10000);
  }

  lemma DayWithinMonth(t: Date)
    requires ValidDate(t)
    ensures t.d <= 31
  {
  }

  lemma ShownParses(f: Fields)
    requires InRange(f) && f.date.y <= 9999
    ensures ParseIso(Show(f)) == Some(SecondNumber(f))
  {
    ShownReads(f);
  }

  /** Reading the text of a second count gives the count back exactly up to the end of year 9999;
      later texts are refused. */
  lemma ParseInvertsFormat(secs: nat)
    ensures ParseIso(Format(secs)) == if secs < YEAR_10000 then Some(secs) else None
  {
    FieldsOfIsExact(secs);
    YearsBelow10000(secs);
    DayWithinMonth(FieldsOf(secs).date);
    if secs < YEAR_10000 { ShownParses(FieldsOf(secs)); } else { LongYearIsLonger(FieldsOf(secs)); }
  }

  // ----- what else is read -----

  /** The parts between the punctuation are digits only. */
  predicate Plain(s: string)
    requires |s| == 20
  {
    && AllDigits(s[0..4]) && AllDigits(s[5..7]) && AllDigits(s[8..10])
    && AllDigits(s[11..13]) && AllDigits(s[14..16]) && AllDigits(s[17..19])
  }

  lemma DigitsParse(digits: string)
    requires AllDigits(digits) && Parse(digits, U64_VALUES).Some?
    ensures Padded(Parse(digits, U64_VALUES).value, |digits|) == digits
  {
    assert IsDigit(digits[0]);
    PaddedOfValue(digits);
  }

  lemma Cut(s: string, i: nat, j: nat)
    requires i <= j < |s|
    ensures s[i..j] + ([s[j]] + s[j + 1..]) == s[i..]
  {
  }

  lemma TimeFromParts(t: string, h: string, mi: string, se: string)
    requires |t| == 9 && t[2] == ':' && t[5] == ':' && t[8] == 'Z' && h == t[0..2] && mi == t[3..5] && se == t[6..8]
    ensures h + (":" + (mi + (":" + (se + "Z")))) == t
  {
    Cut(t, 3, 5);
    Cut(t, 0, 2);
    assert se + "Z" == t[6..];
  }

  lemma DateFromParts(s: string, y: string, m: string, d: string, t: string)
    requires Punctuated(s) && y == s[0..4] && m == s[5..7] && d == s[8..10] && t == s[11..]
    ensures y + ("-" + (m + ("-" + (d + ("T" + t))))) == s
  {
    Cut(s, 8, 10);
    Cut(s, 5, 7);
    Cut(s, 0, 4);
  }

  lemma TimeSlices(s: string)
    requires Punctuated(s)
    ensures var t := s[11..];
      && |t| == 9 && t[2] == ':' && t[5] == ':' && t[8] == 'Z'
      && t[0..2] == s[11..13] && t[3..5] == s[14..16] && t[6..8] == s[17..19]
  {
  }

  lemma PlainTimeIsShown(s: string, f: Fields)
    requires Read(s) == Some(f) && Plain(s)
    ensures ShowTime(f) == s[11..]
  {
    DigitsParse(s[11..13]);
    DigitsParse(s[14..16]);
    DigitsParse(s[17..19]);
    TimeSlices(s);
    TimeFromParts(s[11..], Padded(f.h, 2), Padded(f.mi, 2), Padded(f.s, 2));
  }

  lemma PlainIsShown(s: string, f: Fields)
    requires Read(s) == Some(f) && Plain(s)
    ensures Show(f) == s
  {
    DigitsParse(s[0..4]);
    DigitsParse(s[5..7]);
    DigitsParse(s[8..10]);
    PlainTimeIsShown(s, f);
    DateFromParts(s, Padded(f.date.y, 4), Padded(f.date.m, 2), Padded(f.date.d, 2), ShowTime(f));
  }

  lemma ShownIsPlain(f: Fields)
    requires Narrow(f)
    ensures |Show(f)| == 20 && Plain(Show(f))
  {
    var s, t := Show(f), ShowTime(f);
    ShownParts(f);
    ShownTime(f);
    assert forall k :: 0 <= k < 9 ==> s[11 + k] == t[k];
    assert s[11..13] == t[0..2] && s[14..16] == t[3..5] && s[17..19] == t[6..8];
  }

  /** The parser accepts more than the writer writes: an accepted text is the text of its time
      exactly when it has no plus signs, a year from 1970 on and a day its month has. */
  lemma AcceptedIsCanonicalExactlyWhen(s: string)
    requires ParseIso(s).Some?
    ensures Format(ParseIso(s).value) == s <==> Plain(s) && ValidDate(Read(s).value.date)
  {
    var f := Read(s).value;
    var secs := SecondNumber(f);
    FieldsOfIsExact(secs);
    YearsBelow10000(secs);
    if Plain(s) && ValidDate(f.date) {
      FieldsAreUnique(f);
      PlainIsShown(s, f);
    }
    if Format(secs) == s {
      if secs >= YEAR_10000 {
        LongYearIsLonger(FieldsOf(secs));
      } else {
        DayWithinMonth(FieldsOf(secs).date);
        ShownReads(FieldsOf(secs));
        ShownIsPlain(FieldsOf(secs));
      }
    }
  }

  /** A day beyond the end of its month is read as one of the next month, February 31 as
      March 3 or 2. */
  lemma ImpossibleDaysAreRead(f: Fields, g: Fields)
    requires InRange(f) && 1970 <= f.date.y <= 9999 && f.date.m < 12 && f.date.d > MonthDays(f.date.y)[f.date.m - 1]
    requires g == f.(date := Date(f.date.y, f.date.m + 1, f.date.d - MonthDays(f.date.y)[f.date.m - 1]))
    ensures !ValidDate(f.date) && ValidDate(g.date) && ParseIso(Show(f)) == Some(SecondNumber(g))
  {
    RunsOver(f.date, g.date);
    assert SecondNumber(f) == SecondNumber(g);
    ShownParses(f);
  }

  lemma {:induction false} SameMonthLengths(y: nat, k: nat)
    requires k <= 12
    ensures MonthsBefore(MonthDays(y), k) == MonthsBefore(MonthDays(1970), k) + if IsLeap(y) && k >= 2 then 1 else 0
  {
    if k > 0 { SameMonthLengths(y, k - 1); }
  }

  /** The same fields in 1970, a day later after February of a leap year. */
  function In1970(f: Fields): nat
    requires InRange(f)
  {
    SecondNumber(f.(date := Date(1970, f.date.m, f.date.d)))
    + if IsLeap(f.date.y) && f.date.m > 2 then SECONDS_PER_DAY else 0
  }

  lemma ShownParsesTo(f: Fields, n: nat)
    requires InRange(f) && f.date.y <= 9999 && SecondNumber(f) == n
    ensures ParseIso(Show(f)) == Some(n)
  {
    ShownParses(f);
  }

  lemma EarlyYearsCount(f: Fields)
    requires InRange(f) && f.date.y < 1970
    ensures SecondNumber(f) == In1970(f)
  {
    SameMonthLengths(f.date.y, f.date.m - 1);
    assert DaysBefore(f.date.y) == 0 && DaysBefore(1970) == 0;
  }

  /** A year before 1970 is read as 1970, except that the days after February of its leap years
      come out one later. */
  lemma EarlyYearsAreRead(f: Fields)
    requires InRange(f) && f.date.y < 1970
    ensures ParseIso(Show(f)) == Some(In1970(f))
  {
    EarlyYearsCount(f);
    ShownParsesTo(f, In1970(f));
  }

  // ----- order -----

  lemma TenthsFit(a: nat, w: nat)
    requires w > 0 && a < Power(w)
    ensures a / 10 < Power(w - 1)
  {
  }

  lemma LastDigitDecides(a: nat, b: nat)
    requires a < b && a / 10 >= b / 10
    ensures a / 10 == b / 10 && a % 10 < b % 10
  {
  }

  lemma DigitsCompare(a: nat, b: nat)
    requires a < b < 10
    ensures Less([CharOf(a)], [CharOf(b)])
  {
  }

  lemma PaddedLast(n: nat, w: nat)
    requires w > 0
    ensures Padded(n, w) == Padded(n / 10, w - 1) + [CharOf(n % 10)]
  {
    if n < 10 { assert n / 10 == 0 && n % 10 == n; }
  }

  /** Equally wide numerals compare like their numbers; after equal ones the rest decides. */
  lemma {:induction false} PaddedOrder(a: nat, b: nat, w: nat)
    requires a < b < Power(w)
    ensures |Padded(a, w)| == |Padded(b, w)| && Less(Padded(a, w), Padded(b, w))
    decreases w
  {
    if w > 0 {
      var pa, pb := Padded(a / 10, w - 1), Padded(b / 10, w - 1);
      var da, db := [CharOf(a % 10)], [CharOf(b % 10)];
      PaddedLast(a, w);
      PaddedLast(b, w);
      if a / 10 < b / 10 {
        TenthsFit(b, w);
        PaddedOrder(a / 10, b / 10, w - 1);
        LessDecides(pa, pb, da, db);
      } else {
        LastDigitDecides(a, b);
        LessAfter(pa, da, db);
        DigitsCompare(a % 10, b % 10);
      }
    }
  }

  lemma FieldDecides(a: nat, b: nat, w: nat, x: string, y: string)
    requires a < b < Power(w)
    ensures Less(Padded(a, w) + x, Padded(b, w) + y)
  {
    PaddedOrder(a, b, w);
    LessDecides(Padded(a, w), Padded(b, w), x, y);
  }

  lemma RestDecides(a: nat, w: nat, c: string, x: string, y: string)
    ensures Less(Padded(a, w) + (c + x), Padded(a, w) + (c + y)) == Less(x, y)
  {
    LessAfter(Padded(a, w), c + x, c + y);
    LessAfter(c, x, y);
  }

  predicate EarlierTime(f: Fields, g: Fields) {
    f.h < g.h || (f.h == g.h && (f.mi < g.mi || (f.mi == g.mi && f.s < g.s)))
  }

  lemma MinuteTextOrder(f: Fields, g: Fields)
    requires ValidFields(f) && ValidFields(g) && (f.mi < g.mi || (f.mi == g.mi && f.s < g.s))
    ensures Less(Padded(f.mi, 2) + (":" + (Padded(f.s, 2) + "Z")), Padded(g.mi, 2) + (":" + (Padded(g.s, 2) + "Z")))
  {
    Powers();
    var x, y := Padded(f.s, 2) + "Z", Padded(g.s, 2) + "Z";
    if f.mi < g.mi {
      FieldDecides(f.mi, g.mi, 2, ":" + x, ":" + y);
    } else {
      RestDecides(f.mi, 2, ":", x, y);
      FieldDecides(f.s, g.s, 2, "Z", "Z");
    }
  }

  lemma TimeTextOrder(f: Fields, g: Fields)
    requires ValidFields(f) && ValidFields(g) && EarlierTime(f, g)
    ensures Less(ShowTime(f), ShowTime(g))
  {
    Powers();
    var x, y := Padded(f.s, 2) + "Z", Padded(g.s, 2) + "Z";
    if f.h < g.h {
      FieldDecides(f.h, g.h, 2, ":" + (Padded(f.mi, 2) + (":" + x)), ":" + (Padded(g.mi, 2) + (":" + y)));
    } else {
      MinuteTextOrder(f, g);
      RestDecides(f.h, 2, ":", Padded(f.mi, 2) + (":" + x), Padded(g.mi, 2) + (":" + y));
    }
  }

  lemma DateTextOrder(f: Fields, g: Fields)
    requires ValidFields(f) && ValidFields(g) && f.date.y <= 9999 && g.date.y <= 9999
    requires Earlier(f.date, g.date) || (f.date == g.date && Less(ShowTime(f), ShowTime(g)))
    ensures Less(Show(f), Show(g))
  {
    Powers();
    var x, y := Padded(f.date.d, 2) + ("T" + ShowTime(f)), Padded(g.date.d, 2) + ("T" + ShowTime(g));
    if f.date.y < g.date.y {
      FieldDecides(f.date.y, g.date.y, 4, "-" + (Padded(f.date.m, 2) + ("-" + x)), "-" + (Padded(g.date.m, 2) + ("-" + y)));
    } else {
      RestDecides(f.date.y, 4, "-", Padded(f.date.m, 2) + ("-" + x), Padded(g.date.m, 2) + ("-" + y));
      if f.date.m < g.date.m {
        FieldDecides(f.date.m, g.date.m, 2, "-" + x, "-" + y);
      } else {
        RestDecides(f.date.m, 2, "-", x, y);
        if f.date.d < g.date.d {
          FieldDecides(f.date.d, g.date.d, 2, "T" + ShowTime(f), "T" + ShowTime(g));
        } else {
          RestDecides(f.date.d, 2, "T", ShowTime(f), ShowTime(g));
        }
      }
    }
  }

  lemma LaterIsGreater(a: nat, b: nat)
    requires a < b < YEAR_10000
    ensures Less(Format(a), Format(b))
  {
    var f, g := FieldsOf(a), FieldsOf(b);
    FieldsOfIsExact(a);
    FieldsOfIsExact(b);
    YearsBelow10000(a);
    YearsBelow10000(b);
    if Earlier(g.date, f.date) { DayNumbersGrow(g.date, f.date); }
    if f.date == g.date { TimeTextOrder(f, g); }
    DateTextOrder(f, g);
  }

  /** Where earlier times have smaller texts, the order of the texts is that of the times. */
  lemma OrderedAlike(x: string, y: string, a: nat, b: nat)
    requires a < b ==> Less(x, y)
    requires b < a ==> Less(y, x)
    requires a == b ==> x == y
    ensures Less(x, y) <==> a < b
  {
    LessIsTotal(x, y);
  }

  /** Up to the end of year 9999 texts are ordered like the times they show. */
  lemma TextOrderIsTimeOrder(a: nat, b: nat)
    requires a < YEAR_10000 && b < YEAR_10000
    ensures Less(Format(a), Format(b)) <==> a < b
  {
    if a < b { LaterIsGreater(a, b); }
    if b < a { LaterIsGreater(b, a); }
    OrderedAlike(Format(a), Format(b), a, b);
  }
}
