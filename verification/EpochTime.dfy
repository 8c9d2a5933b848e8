/**
 * Epoch identifiers and their start times: ISO 8601 weeks for seven-day epochs, plain division otherwise.
 * Times are milliseconds since 1970-01-01 UTC, days are whole days since then, Sunday is day 0 of the week.
 */
module EpochTime {
  import opened Arith

  const DAY_MS := 86_400_000
  const WEEK_MS := 604_800_000

  // ----- the calendar behind Date -----

  /** The day number of 1 January of year `y` in the proleptic Gregorian calendar. */
  function DayFromYear(y: int): int {
    365 * (y - 1970) + (y - 1969) / 4 - (y - 1901) / 100 + (y - 1601) / 400
  }

  function WeekDay(day: int): int {
    (day + 4) % 7
  }

  lemma Divides(q: int, d: int)
    requires d > 0
    ensures q * d % d == 0
  {
    DivideBack(q, 0, d);
    assert q * d == q * d / d * d + q * d % d;
  }

  lemma LeapFour(y: int)
    ensures (y - 1968) / 4 - (y - 1969) / 4 == if y % 4 == 0 then 1 else 0
  {
  }

  lemma LeapHundred(y: int)
    ensures (y - 1900) / 100 - (y - 1901) / 100 == if y % 100 == 0 then 1 else 0
  {
  }

  lemma LeapFourHundred(y: int)
    ensures (y - 1600) / 400 - (y - 1601) / 400 == if y % 400 == 0 then 1 else 0
  {
  }

  /** Day 0 is 1 January 1970, a Thursday, and the days of the week follow one another. */
  lemma DayZero(day: int)
    ensures DayFromYear(1970) == 0 && WeekDay(0) == 4
    ensures WeekDay(day + 1) == if WeekDay(day) == 6 then 0 else WeekDay(day) + 1
  {
    NextRemainder(day + 4, 7);
  }

  /** Leap years are those divisible by 4, but centuries only if divisible by 400. */
  lemma YearLength(y: int)
    ensures DayFromYear(y + 1) - DayFromYear(y) == if (y % 4 == 0 && y % 100 != 0) || y % 400 == 0 then 366 else 365
  {
    LeapFour(y);
    LeapHundred(y);
    LeapFourHundred(y);
    if y % 100 == 0 {
      Divides(y / 100 * 25, 4);
    }
    if y % 400 == 0 {
      Divides(y / 400 * 4, 100);
    }
  }

  /** A year that starts on or before `day`, close to it. */
  function EarlyYear(day: int): int {
    if day >= 0 then 1970 + day / 366 else 1970 + day / 365
  }

  lemma EarlyYearIsEarly(day: int)
    ensures DayFromYear(EarlyYear(day)) <= day
  {
    var m := EarlyYear(day) - 1970;
    if day >= 0 {
      assert (m + 1) / 4 - (m + 69) / 100 + (m + 369) / 400 <= m;
    } else {
      assert (m + 1) / 4 - (m + 69) / 100 + (m + 369) / 400 <= 0;
    }
  }

  function YearFrom(day: int, y: int): (r: int)
    requires DayFromYear(y) <= day
    ensures DayFromYear(r) <= day < DayFromYear(r + 1)
    decreases day - DayFromYear(y)
  {
    YearLength(y);
    if DayFromYear(y + 1) <= day then YearFrom(day, y + 1) else y
  }

  /** getUTCFullYear. */
  function YearOf(day: int): (y: int)
    ensures DayFromYear(y) <= day < DayFromYear(y + 1)
  {
    EarlyYearIsEarly(day);
    YearFrom(day, EarlyYear(day))
  }

  lemma {:induction false} YearsAscend(y: int, z: int)
    requires y < z
    ensures DayFromYear(y + 1) <= DayFromYear(z)
    decreases z - y
  {
    if y + 1 < z {
      YearLength(y + 1);
      YearsAscend(y + 1, z);
    }
  }

  lemma YearUnique(day: int, y: int)
    requires DayFromYear(y) <= day < DayFromYear(y + 1)
    ensures YearOf(day) == y
  {
    var z := YearOf(day);
    if y < z { YearsAscend(y, z); }
    if z < y { YearsAscend(z, y); }
  }

  // ----- ISO 8601 weeks, as section 4.1.4 of ISO 8601:2004 defines them -----

  /** The Monday of the week of `day`, and its Thursday. */
  function Monday(day: int): int {
    day - (day + 3) % 7
  }

  function Thursday(day: int): int {
    Monday(day) + 3
  }

  /** The first Thursday on or after a day. */
  function NextThursday(day: int): int {
    day + (4 - WeekDay(day)) % 7
  }

  /** The first Thursday of a year lies in its week 1. */
  function FirstThursday(y: int): int {
    NextThursday(DayFromYear(y))
  }

  function IsoYear(day: int): int {
    YearOf(Thursday(day))
  }

  function IsoWeek(day: int): int {
    (Thursday(day) - FirstThursday(IsoYear(day))) / 7 + 1
  }

  function WeeksIn(y: int): int {
    (DayFromYear(y + 1) - 1 - FirstThursday(y)) / 7 + 1
  }

  function StartOfWeek(y: int, w: int): int {
    FirstThursday(y) - 3 + 7 * (w - 1)
  }

  lemma ThursdaysAfter(jan1: int, th: int)
    requires jan1 <= th && WeekDay(th) == 4
    ensures jan1 <= NextThursday(jan1) < jan1 + 7 && NextThursday(jan1) <= th
    ensures (th - NextThursday(jan1)) % 7 == 0 && WeekDay(NextThursday(jan1)) == 4
  {
  }

  lemma WeekBounds(jan1: int, next: int, th: int)
    requires jan1 <= th < next <= jan1 + 366 && WeekDay(th) == 4
    ensures 1 <= (th - NextThursday(jan1)) / 7 + 1 <= (next - 1 - NextThursday(jan1)) / 7 + 1 <= 53
  {
    ThursdaysAfter(jan1, th);
  }

  lemma ThursdayIsThursday(day: int)
    ensures WeekDay(Thursday(day)) == 4
  {
  }

  lemma ThursdayOfYear(day: int)
    ensures FirstThursday(IsoYear(day)) <= Thursday(day)
    ensures (Thursday(day) - FirstThursday(IsoYear(day))) % 7 == 0
    ensures 1 <= IsoWeek(day) <= WeeksIn(IsoYear(day)) <= 53
  {
    hide DayFromYear;
    var y, th := IsoYear(day), Thursday(day);
    YearLength(y);
    ThursdayIsThursday(day);
    var jan1, next := DayFromYear(y), DayFromYear(y + 1);
    ThursdaysAfter(jan1, th);
    WeekBounds(jan1, next, th);
  }

  lemma MondayOfThursday(first: int, w: int)
    requires WeekDay(first) == 4
    ensures Monday(first - 3 + 7 * (w - 1)) == first - 3 + 7 * (w - 1)
  {
  }

  lemma WeekOfStart(y: int, w: int)
    requires 1 <= w <= WeeksIn(y)
    ensures Monday(StartOfWeek(y, w)) == StartOfWeek(y, w) && IsoYear(StartOfWeek(y, w)) == y && IsoWeek(StartOfWeek(y, w)) == w
  {
    hide DayFromYear, YearOf;
    var d, first, next := StartOfWeek(y, w), FirstThursday(y), DayFromYear(y + 1);
    assert WeekDay(first) == 4 && DayFromYear(y) <= first by {
      FirstThursdayIs(DayFromYear(y));
    }
    MondayOfThursday(first, w);
    LastWeekFits(first, next, w);
    YearUnique(d + 3, y);
  }

  lemma FirstThursdayIs(jan1: int)
    ensures WeekDay(NextThursday(jan1)) == 4 && jan1 <= NextThursday(jan1) < jan1 + 7
  {
  }

  lemma LastWeekFits(first: int, next: int, w: int)
    requires 1 <= w <= (next - 1 - first) / 7 + 1
    ensures first + 7 * (w - 1) < next
  {
  }

  lemma StartOfIsoWeek(day: int)
    ensures StartOfWeek(IsoYear(day), IsoWeek(day)) == Monday(day)
  {
    ThursdayOfYear(day);
  }

  // ----- decimal text -----

  function Digit(d: nat): char
    requires d < 10
  {
    '0' + d as char
  }

  function Decimal(n: nat): string {
    if n < 10 then [Digit(n)] else Decimal(n / 10) + [Digit(n % 10)]
  }

  predicate IsDigit(c: char) {
    '0' <= c <= '9'
  }

  predicate AllDigits(s: string) {
    forall c :: c in s ==> IsDigit(c)
  }

  /** parseInt of a string of digits. */
  function Parse(s: string): nat
    requires AllDigits(s)
  {
    if s == "" then 0
    else
      assert IsDigit(s[|s| - 1]);
      Parse(s[..|s| - 1]) * 10 + (s[|s| - 1] as int - '0' as int)
  }

  lemma {:induction false} ParseDecimal(n: nat)
    ensures AllDigits(Decimal(n)) && |Decimal(n)| >= 1 && Parse(Decimal(n)) == n
  {
    if n >= 10 {
      ParseDecimal(n / 10);
      var s := Decimal(n / 10);
      assert (s + [Digit(n % 10)])[..|s|] == s;
    } else {
      assert [Digit(n)][..0] == "";
    }
  }

  function Show(n: int): string {
    if n < 0 then "-" + Decimal(-n) else Decimal(n)
  }

  function PadTwo(s: string): string {
    if |s| == 0 then "00" else if |s| == 1 then "0" + s else s
  }

  // ----- computeEpochId and epochStartMs -----

  /** Date.UTC reads the years 0 to 99 as 1900 to 1999. */
  function UtcYear(y: int): int {
    if 0 <= y <= 99 then 1900 + y else y
  }

  function CeilDiv(a: int, b: int): int
    requires b > 0
  {
    -((-a) / b)
  }

  function DayOfWeekFromMonday(day: int): int {
    if WeekDay(day) == 0 then 7 else WeekDay(day)
  }

  function WeekId(year: int, week: int): string {
    Show(year) + "-W" + PadTwo(Show(week))
  }

  /** The week number the code computes: the time of day is still part of the difference it rounds up. */
  function CodeWeek(nowMs: int): int {
    var day := nowMs / DAY_MS;
    var thursdayMs := nowMs + (4 - DayOfWeekFromMonday(day)) * DAY_MS;
    var yearStartMs := DayFromYear(UtcYear(YearOf(thursdayMs / DAY_MS))) * DAY_MS;
    CeilDiv(thursdayMs - yearStartMs + DAY_MS, 7 * DAY_MS)
  }

  function ComputeEpochId(nowMs: int, durationMs: int): string
    requires durationMs > 0
  {
    if durationMs == WEEK_MS then
      var day := nowMs / DAY_MS;
      var thursdayMs := nowMs + (4 - DayOfWeekFromMonday(day)) * DAY_MS;
      WeekId(YearOf(thursdayMs / DAY_MS), CodeWeek(nowMs))
    else
      "epoch-" + Show(nowMs / durationMs)
  }

  predicate IsWeekId(id: string) {
    |id| == 8 && AllDigits(id[..4]) && id[4..6] == "-W" && AllDigits(id[6..])
  }

  predicate IsIndexId(id: string) {
    |id| > 6 && id[..6] == "epoch-" && AllDigits(id[6..])
  }

  function EpochStartMs(id: string, durationMs: int): int {
    if IsWeekId(id) then
      var year, week := Parse(id[..4]), Parse(id[6..]);
      var jan4 := DayFromYear(UtcYear(year)) + 3;
      (jan4 - DayOfWeekFromMonday(jan4) + 1 + (week - 1) * 7) * DAY_MS
    else if IsIndexId(id) then
      Parse(id[6..]) * durationMs
    else 0
  }

  // ----- what they promise -----

  lemma FourDigits(y: int)
    requires 1000 <= y <= 9999
    ensures |Decimal(y)| == 4
  {
    LongerByOne(y);
    LongerByOne(y / 10);
    LongerByOne(y / 10 / 10);
    assert y / 10 / 10 / 10 < 10;
  }

  lemma LongerByOne(n: nat)
    requires n >= 10
    ensures |Decimal(n)| == |Decimal(n / 10)| + 1
  {
  }

  lemma ParsePadTwo(w: int)
    requires 0 <= w <= 99
    ensures |PadTwo(Show(w))| == 2 && AllDigits(PadTwo(Show(w))) && Parse(PadTwo(Show(w))) == w
  {
    ParseDecimal(w);
    if w < 10 {
      var s := "0" + Decimal(w);
      assert s[..1] == "0" && "0"[..0] == "" && Parse("0") == 0;
    } else {
      assert |Decimal(w / 10)| == 1;
    }
  }

  /** Reading back a week id gives the Monday of that week. */
  lemma StartOfWeekId(y: int, w: int)
    requires 1000 <= y <= 9999 && 0 <= w <= 99
    ensures EpochStartMs(WeekId(y, w), WEEK_MS) == StartOfWeek(y, w) * DAY_MS
  {
    var id := WeekId(y, w);
    FourDigits(y);
    ParseDecimal(y);
    ParsePadTwo(w);
    assert id[..4] == Decimal(y) && id[4..6] == "-W" && id[6..] == PadTwo(Show(w));
    MondayOfJanuary4(DayFromYear(y));
  }

  lemma MondayOfJanuary4(jan1: int)
    ensures jan1 + 3 - DayOfWeekFromMonday(jan1 + 3) + 1 == NextThursday(jan1) - 3
  {
  }

  /** The year of the Thursday in the week of a time. */
  function WeekYear(t: int): int {
    IsoYear(t / DAY_MS)
  }

  /** The guard: the time of day is lost, or the year does not begin on a Friday. */
  predicate WeekIsSafe(t: int) {
    t % DAY_MS == 0 || WeekDay(DayFromYear(WeekYear(t))) != 5
  }

  lemma ThursdayMs(t: int)
    ensures (t + (4 - DayOfWeekFromMonday(t / DAY_MS)) * DAY_MS) / DAY_MS == Thursday(t / DAY_MS)
    ensures (t + (4 - DayOfWeekFromMonday(t / DAY_MS)) * DAY_MS) % DAY_MS == t % DAY_MS
  {
    var day := t / DAY_MS;
    assert day + 4 - DayOfWeekFromMonday(day) == Thursday(day);
    var k := 4 - DayOfWeekFromMonday(day);
    assert t + k * DAY_MS == (day + k) * DAY_MS + t % DAY_MS;
  }

  lemma RoundUp(days: int, rest: int)
    requires 0 <= rest < DAY_MS
    ensures CeilDiv(days * DAY_MS + rest + DAY_MS, 7 * DAY_MS) == if rest == 0 then (days + 7) / 7 else (days + 1) / 7 + 1
  {
  }

  /** The code's week number against the standard's: one too high exactly in the unsafe case. */
  lemma CodeWeekIs(t: int)
    requires 1000 <= WeekYear(t)
    ensures CodeWeek(t) == IsoWeek(t / DAY_MS) + if WeekIsSafe(t) then 0 else 1
    ensures !WeekIsSafe(t) ==> IsoWeek(t / DAY_MS) <= 52
  {
    hide DayFromYear, YearOf, CeilDiv;
    var day, y := t / DAY_MS, WeekYear(t);
    var th, yearStart := Thursday(day), DayFromYear(UtcYear(y));
    ThursdayMs(t);
    assert WeekDay(th) == 4;
    RoundUp(th - DayFromYear(y), t % DAY_MS);
    YearLength(y);
    assert yearStart == DayFromYear(y);
    WeekCases(yearStart, th, t % DAY_MS);
  }

  lemma WeekCases(jan1: int, th: int, rest: int)
    requires jan1 <= th < jan1 + 366 && WeekDay(th) == 4 && 0 <= rest
    ensures
      var w, safe := (th - NextThursday(jan1)) / 7 + 1, rest == 0 || WeekDay(jan1) != 5;
      && (if rest == 0 then (th - jan1 + 7) / 7 else (th - jan1 + 1) / 7 + 1) == w + (if safe then 0 else 1)
      && (!safe ==> w <= 52)
  {
    ThursdaysAfter(jan1, th);
    var offset, k := NextThursday(jan1) - jan1, (th - NextThursday(jan1)) / 7;
    assert th == jan1 + offset + 7 * k;
    assert offset == 6 <==> WeekDay(jan1) == 5;
  }

  /** The year part of the id is the standard's in every case. */
  lemma IdOfTime(t: int)
    requires 1000 <= WeekYear(t)
    ensures ComputeEpochId(t, WEEK_MS) == WeekId(WeekYear(t), CodeWeek(t))
  {
    ThursdayMs(t);
  }

  /**
   * A weekly epoch starts on the Monday of the time it was computed for exactly when the guard holds;
   * otherwise, after midnight in a year that begins on a Friday, it starts one week later, after that time.
   */
  lemma WeeklyEpochContainsIff(t: int)
    requires 1000 <= WeekYear(t) <= 9999
    ensures
      var start := EpochStartMs(ComputeEpochId(t, WEEK_MS), WEEK_MS);
      && start == Monday(t / DAY_MS) * DAY_MS + (if WeekIsSafe(t) then 0 else WEEK_MS)
      && (start <= t < start + WEEK_MS <==> WeekIsSafe(t))
      && (ComputeEpochId(t, WEEK_MS) == WeekId(WeekYear(t), IsoWeek(t / DAY_MS)) <==> WeekIsSafe(t))
  {
    hide ComputeEpochId, EpochStartMs, WeekId, CodeWeek, IsoYear, IsoWeek, WeekIsSafe, WeeksIn, FirstThursday;
    var day, y := t / DAY_MS, WeekYear(t);
    assert y == IsoYear(day);
    CodeWeekIs(t);
    IdOfTime(t);
    ThursdayOfYear(day);
    StartOfWeekId(y, CodeWeek(t));
    StartOfWeekId(y, IsoWeek(day));
    StartOfIsoWeek(day);
    assert Monday(day) <= day < Monday(day) + 7;
    assert t == day * DAY_MS + t % DAY_MS;
  }

  /** Every valid week id is the id of its own start. */
  lemma WeekIdRoundTrip(y: int, w: int)
    requires 1000 <= y <= 9999 && 1 <= w <= WeeksIn(y)
    ensures ComputeEpochId(EpochStartMs(WeekId(y, w), WEEK_MS), WEEK_MS) == WeekId(y, w)
  {
    hide ComputeEpochId, EpochStartMs, WeekId, CodeWeek, StartOfWeek, IsoYear, IsoWeek, WeeksIn, FirstThursday;
    var d := StartOfWeek(y, w);
    WeekOfStart(y, w);
    ThursdayOfYear(d);
    StartOfWeekId(y, w);
    assert d * DAY_MS / DAY_MS == d && d * DAY_MS % DAY_MS == 0;
    CodeWeekIs(d * DAY_MS);
    IdOfTime(d * DAY_MS);
  }

  /** The guard fails in practice: 2021 began on a Friday, so noon of 13 January 2021 falls in week 3, not week 2. */
  lemma WeekOffByOne()
    ensures
      var noon := 1_610_539_200_000;
      && ComputeEpochId(noon, 604_800_000) == "2021-W03" == WeekId(2021, 3) && IsoWeek(noon / 86_400_000) == 2
      && EpochStartMs("2021-W03", 604_800_000) == 1_610_928_000_000
  {
    var noon := 1_610_539_200_000;
    var day := noon / DAY_MS;
    assert day == 18_640 && noon % DAY_MS != 0 && Thursday(day) == 18_641;
    assert DayFromYear(2021) == 18_628 && DayFromYear(2022) == 18_993;
    YearUnique(18_641, 2021);
    assert IsoYear(day) == 2021 && WeekYear(noon) == 2021;
    assert FirstThursday(2021) == 18_634 && IsoWeek(day) == 2;
    assert !WeekIsSafe(noon);
    CodeWeekIs(noon);
    IdOfTime(noon);
    StartOfWeekId(2021, 3);
    ThirdWeekOf2021();
  }

  lemma ThirdWeekOf2021()
    ensures WeekId(2021, 3) == "2021-W03" && StartOfWeek(2021, 3) == 18_645
  {
    assert Decimal(2) == "2" && Decimal(20) == "20" && Decimal(202) == "202" && Decimal(2021) == "2021" && Decimal(3) == "3";
    assert DayFromYear(2021) == 18_628;
  }

  /** Date.UTC takes the years 0 to 99 for 1900 to 1999, and no others. */
  lemma EarlyYears(y: int, w: int)
    requires 0 <= y < 1000 && 0 <= w <= 99
    ensures
      var id := PadTwo(Show(y / 100)) + PadTwo(Show(y % 100)) + "-W" + PadTwo(Show(w));
      EpochStartMs(id, WEEK_MS) == StartOfWeek(if y <= 99 then 1900 + y else y, w) * DAY_MS
  {
    var high, low := PadTwo(Show(y / 100)), PadTwo(Show(y % 100));
    var id := high + low + "-W" + PadTwo(Show(w));
    ParsePadTwo(y / 100);
    ParsePadTwo(y % 100);
    ParsePadTwo(w);
    ParseJoins(high, low);
    assert id[..4] == high + low && id[4..6] == "-W" && id[6..] == PadTwo(Show(w));
    MondayOfJanuary4(DayFromYear(UtcYear(y)));
  }

  lemma ParseJoins(a: string, b: string)
    requires AllDigits(a) && AllDigits(b) && |b| == 2
    ensures AllDigits(a + b) && Parse(a + b) == Parse(a) * 100 + Parse(b)
  {
    ParseOneMore(a, b[0]);
    ParseOneMore(a + [b[0]], b[1]);
    ParseOneMore("", b[0]);
    ParseOneMore([b[0]], b[1]);
    assert a + [b[0]] + [b[1]] == a + b && "" + [b[0]] == [b[0]] && [b[0]] + [b[1]] == b;
  }

  lemma ParseOneMore(s: string, c: char)
    requires AllDigits(s) && IsDigit(c)
    ensures AllDigits(s + [c]) && Parse(s + [c]) == Parse(s) * 10 + (c as int - '0' as int)
  {
    assert (s + [c])[..|s|] == s;
  }

  lemma StartOfIndexId(k: nat, durationMs: int)
    ensures EpochStartMs("epoch-" + Decimal(k), durationMs) == k * durationMs
  {
    var id := "epoch-" + Decimal(k);
    ParseDecimal(k);
    assert id[..6] == "epoch-" && id[6..] == Decimal(k);
    assert !IsWeekId(id) by {
      assert 'e' == id[0] && (|id| >= 4 ==> id[0] in id[..4]);
    }
  }

  /** Fixed-length epochs tile the time from 1970 on. */
  lemma FixedEpochContains(t: int, durationMs: int)
    requires durationMs > 0 && durationMs != WEEK_MS && t >= 0
    ensures
      var start := EpochStartMs(ComputeEpochId(t, durationMs), durationMs);
      start <= t < start + durationMs && ComputeEpochId(start, durationMs) == ComputeEpochId(t, durationMs)
  {
    var k := t / durationMs;
    Quotient(t, durationMs);
    StartOfIndexId(k, durationMs);
    DivideBack(k, 0, durationMs);
    assert k * durationMs + 0 == k * durationMs;
  }
}
