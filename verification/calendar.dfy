/** Calendar conversion (src/exclusive.rs lines 725-788, src/engine.rs lines 1282-1339). */
module Calendar {
  import opened Wrappers

  const SECONDS_PER_DAY := 86400

  predicate IsLeap(y: nat) { (y % 4 == 0 && y % 100 != 0) || y % 400 == 0 }

  function YearDays(y: nat): nat { if IsLeap(y) then 366 else 365 }

  function MonthDays(y: nat): (lengths: seq<nat>)
    ensures |lengths| == 12 && forall k :: 0 <= k < 12 ==> 28 <= lengths[k] <= 31
  {
    if IsLeap(y) then [31, 29, 31, 30, 31, 30, 31, 31, 30, 31, 30, 31]
    else [31, 28, 31, 30, 31, 30, 31, 31, 30, 31, 30, 31]
  }

  datatype Date = Date(y: nat, m: nat, d: nat)
  datatype Fields = Fields(date: Date, h: nat, mi: nat, s: nat)

  /** A Gregorian date from 1970 on. */
  predicate ValidDate(t: Date) { t.y >= 1970 && 1 <= t.m <= 12 && 1 <= t.d <= MonthDays(t.y)[t.m - 1] }

  predicate ValidFields(f: Fields) { ValidDate(f.date) && f.h < 24 && f.mi < 60 && f.s < 60 }

  // ----- day numbers -----

  /** Days from 1970-01-01 to the first day of year `y`. */
  function DaysBefore(y: nat): nat {
    if y <= 1970 then 0 else DaysBefore(y - 1) + YearDays(y - 1)
  }

  /** Days of the first `k` months. */
  function MonthsBefore(lengths: seq<nat>, k: nat): nat
    requires k <= |lengths|
  {
    if k == 0 then 0 else MonthsBefore(lengths, k - 1) + lengths[k - 1]
  }

  function DayNumber(t: Date): nat
    requires 1 <= t.m <= 12 && t.d >= 1
  {
    DaysBefore(t.y) + MonthsBefore(MonthDays(t.y), t.m - 1) + (t.d - 1)
  }

  function SecondNumber(f: Fields): nat
    requires 1 <= f.date.m <= 12 && f.date.d >= 1
  {
    DayNumber(f.date) * SECONDS_PER_DAY + f.h * 3600 + f.mi * 60 + f.s
  }

  lemma MonthsFillYear(y: nat)
    ensures MonthsBefore(MonthDays(y), 12) == YearDays(y)
  {
    var l, f := MonthDays(y), YearDays(y) - 365;
    assert MonthsBefore(l, 1) == 31;
    assert MonthsBefore(l, 2) == 59 + f;
    assert MonthsBefore(l, 3) == 90 + f;
    assert MonthsBefore(l, 4) == 120 + f;
    assert MonthsBefore(l, 5) == 151 + f;
    assert MonthsBefore(l, 6) == 181 + f;
    assert MonthsBefore(l, 7) == 212 + f;
    assert MonthsBefore(l, 8) == 243 + f;
    assert MonthsBefore(l, 9) == 273 + f;
    assert MonthsBefore(l, 10) == 304 + f;
    assert MonthsBefore(l, 11) == 334 + f;
    assert MonthsBefore(l, 12) == 365 + f;
  }

  lemma {:induction false} MonthsGrow(lengths: seq<nat>, j: nat, k: nat)
    requires j < k <= |lengths|
    ensures MonthsBefore(lengths, j) + lengths[j] <= MonthsBefore(lengths, k)
  {
    if j + 1 < k { MonthsGrow(lengths, j, k - 1); }
  }

  lemma {:induction false} YearsGrow(y: nat, z: nat)
    requires 1970 <= y < z
    ensures DaysBefore(y) + YearDays(y) <= DaysBefore(z)
  {
    if y + 1 < z { YearsGrow(y, z - 1); }
  }

  /** Calendar order. */
  predicate Earlier(a: Date, b: Date) {
    a.y < b.y || (a.y == b.y && (a.m < b.m || (a.m == b.m && a.d < b.d)))
  }

  /** Day numbers grow with the calendar, so no two dates share one. */
  lemma DayNumbersGrow(a: Date, b: Date)
    requires ValidDate(a) && ValidDate(b) && Earlier(a, b)
    ensures DayNumber(a) < DayNumber(b)
  {
    if a.y < b.y {
      YearsGrow(a.y, b.y);
      MonthsFillYear(a.y);
      if a.m < 12 { MonthsGrow(MonthDays(a.y), a.m - 1, 12); }
    } else if a.m < b.m {
      MonthsGrow(MonthDays(a.y), a.m - 1, b.m - 1);
    }
  }

  lemma SameDayNumber(a: Date, b: Date)
    requires ValidDate(a) && ValidDate(b) && DayNumber(a) == DayNumber(b)
    ensures a == b
  {
    if Earlier(a, b) { DayNumbersGrow(a, b); }
    if Earlier(b, a) { DayNumbersGrow(b, a); }
  }

  // ----- from seconds to fields -----

  /** The year that contains day `d` counted from the start of year `y`, and the day in it. */
  function YearSplit(d: nat, y: nat): (nat, nat)
    decreases d
  {
    if d < YearDays(y) then (y, d) else YearSplit(d - YearDays(y), y + 1)
  }

  function MonthSplit(d: nat, lengths: seq<nat>, k: nat): (nat, nat)
    requires k <= |lengths|
    decreases |lengths| - k
  {
    if k == |lengths| || d < lengths[k] then (k + 1, d) else MonthSplit(d - lengths[k], lengths, k + 1)
  }

  function DateOf(days: nat): Date {
    var (y, rest) := YearSplit(days, 1970);
    var (m, d) := MonthSplit(rest, MonthDays(y), 0);
    Date(y, m, d + 1)
  }

  function FieldsOf(secs: nat): Fields {
    var rem := secs % SECONDS_PER_DAY;
    Fields(DateOf(secs / SECONDS_PER_DAY), rem / 3600, rem % 3600 / 60, rem % 60)
  }

  /** The two loops and the arithmetic of `seconds_to_iso8601`. */
  method SecondsToFields(secs: nat) returns (f: Fields)
    ensures f == FieldsOf(secs)
  {
    var days, rem := secs / SECONDS_PER_DAY, secs % SECONDS_PER_DAY;
    var y: nat, d: nat := 1970, days;
    while true
      invariant YearSplit(d, y) == YearSplit(days, 1970)
      decreases d
    {
      var yd := YearDays(y);
      if d < yd { break; }
      d := d - yd;
      y := y + 1;
    }
    var monthDays := MonthDays(y);
    var m := 1;
    ghost var dayOfYear := d;
    for k := 0 to 12
      invariant m == k + 1
      invariant MonthSplit(d, monthDays, k) == MonthSplit(dayOfYear, monthDays, 0)
    {
      if d < monthDays[k] { break; }
      d := d - monthDays[k];
      m := m + 1;
    }
    f := Fields(Date(y, m, d + 1), rem / 3600, rem % 3600 / 60, rem % 60);
  }

  lemma {:induction false} YearSplitIsExact(d: nat, y: nat)
    requires y >= 1970
    ensures var (z, rest) := YearSplit(d, y); z >= y && rest < YearDays(z) && DaysBefore(z) + rest == DaysBefore(y) + d
    decreases d
  {
    if d >= YearDays(y) { YearSplitIsExact(d - YearDays(y), y + 1); }
  }

  lemma {:induction false} MonthSplitIsExact(d: nat, lengths: seq<nat>, k: nat)
    requires k <= |lengths| && MonthsBefore(lengths, k) + d < MonthsBefore(lengths, |lengths|)
    ensures var (m, rest) := MonthSplit(d, lengths, k);
      k < m <= |lengths| && rest < lengths[m - 1] && MonthsBefore(lengths, m - 1) + rest == MonthsBefore(lengths, k) + d
    decreases |lengths| - k
  {
    if d >= lengths[k] { MonthSplitIsExact(d - lengths[k], lengths, k + 1); }
  }

  lemma DateOfIsExact(days: nat)
    ensures ValidDate(DateOf(days)) && DayNumber(DateOf(days)) == days
  {
    YearSplitIsExact(days, 1970);
    var (y, rest) := YearSplit(days, 1970);
    MonthsFillYear(y);
    MonthSplitIsExact(rest, MonthDays(y), 0);
    var (m, d) := MonthSplit(rest, MonthDays(y), 0);
    assert DateOf(days) == Date(y, m, d + 1);
  }

  /** For every second count the fields form a valid Gregorian date and time of exactly that
      count, and no other valid fields do. */
  lemma FieldsOfIsExact(secs: nat)
    ensures ValidFields(FieldsOf(secs)) && SecondNumber(FieldsOf(secs)) == secs
  {
    DateOfIsExact(secs / SECONDS_PER_DAY);
  }

  lemma FieldsAreUnique(f: Fields)
    requires ValidFields(f)
    ensures FieldsOf(SecondNumber(f)) == f
  {
    var secs := SecondNumber(f);
    var day := DayNumber(f.date);
    DividesBack(day, f.h, f.mi, f.s);
    DateOfIsExact(day);
    SameDayNumber(DateOf(day), f.date);
  }

  lemma DividesBack(day: nat, h: nat, mi: nat, s: nat)
    requires h < 24 && mi < 60 && s < 60
    ensures var secs := day * SECONDS_PER_DAY + h * 3600 + mi * 60 + s;
      var rem := secs % SECONDS_PER_DAY;
      secs / SECONDS_PER_DAY == day && rem / 3600 == h && rem % 3600 / 60 == mi && rem % 60 == s
  {
    var rem := h * 3600 + mi * 60 + s;
    var secs := day * SECONDS_PER_DAY + rem;
    assert rem < SECONDS_PER_DAY;
    assert secs / SECONDS_PER_DAY == day;
    assert secs % SECONDS_PER_DAY == rem;
  }

  // ----- the calendar as a succession of days -----

  function NextDay(t: Date): Date
    requires 1 <= t.m <= 12
  {
    if t.d < MonthDays(t.y)[t.m - 1] then Date(t.y, t.m, t.d + 1)
    else if t.m < 12 then Date(t.y, t.m + 1, 1)
    else Date(t.y + 1, 1, 1)
  }

  lemma NextDayCounts(t: Date)
    requires ValidDate(t)
    ensures ValidDate(NextDay(t)) && DayNumber(NextDay(t)) == DayNumber(t) + 1
  {
    if t.d == MonthDays(t.y)[t.m - 1] && t.m == 12 { MonthsFillYear(t.y); }
  }

  lemma FirstDay()
    ensures DateOf(0) == Date(1970, 1, 1)
  {
    assert YearSplit(0, 1970) == (1970, 0);
    assert MonthSplit(0, MonthDays(1970), 0) == (1, 0);
  }

  /** The conversion counts days from 1970-01-01 one after the other. */
  lemma DatesFollowEachOther(days: nat)
    ensures DateOf(0) == Date(1970, 1, 1)
    ensures ValidDate(DateOf(days)) && DateOf(days + 1) == NextDay(DateOf(days))
  {
    FirstDay();
    DateOfIsExact(days);
    DateOfIsExact(days + 1);
    NextDayCounts(DateOf(days));
    SameDayNumber(DateOf(days + 1), NextDay(DateOf(days)));
  }

  // ----- from fields to seconds -----

  /** `None` for a month, day, hour, minute or second out of its widest range. */
  predicate InRange(f: Fields) { 1 <= f.date.m <= 12 && 1 <= f.date.d <= 31 && f.h < 24 && f.mi < 60 && f.s < 60 }

  lemma RunsOver(t: Date, u: Date)
    requires t.y >= 1970 && 1 <= t.m < 12 && MonthDays(t.y)[t.m - 1] < t.d <= 31
    requires u == Date(t.y, t.m + 1, t.d - MonthDays(t.y)[t.m - 1])
    ensures !ValidDate(t) && ValidDate(u) && DayNumber(t) == DayNumber(u)
  {
  }

  method IsoToSecs(f: Fields) returns (r: Option<nat>)
    ensures r == if InRange(f) then Some(SecondNumber(f)) else None
  {
    if !InRange(f) { return None; }
    var days := 0;
    var yy := 1970;
    while yy < f.date.y
      invariant 1970 <= yy && (yy <= f.date.y || yy == 1970)
      invariant days == DaysBefore(yy)
    {
      days := days + YearDays(yy);
      yy := yy + 1;
    }
    var monthDays := MonthDays(f.date.y);
    ghost var start := days;
    for k := 0 to f.date.m - 1
      invariant days == start + MonthsBefore(monthDays, k)
    {
      days := days + monthDays[k];
    }
    days := days + (f.date.d - 1);
    assert days == DayNumber(f.date);
    return Some(days * SECONDS_PER_DAY + f.h * 3600 + f.mi * 60 + f.s);
  }
}
