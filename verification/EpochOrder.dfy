/** Whether the ids of later times can be ids of earlier times again, while the clock only goes forward. */
module EpochOrder {
  import opened Arith
  import opened EpochTime

  // ----- ids determine what they are made of -----

  lemma WeekIdInjective(y: int, w: int, y': int, w': int)
    requires 1000 <= y <= 9999 && 0 <= w <= 99 && 1000 <= y' <= 9999 && 0 <= w' <= 99
    requires WeekId(y, w) == WeekId(y', w')
    ensures y == y' && w == w'
  {
    WeekIdParts(y, w);
    WeekIdParts(y', w');
  }

  lemma WeekIdParts(y: int, w: int)
    requires 1000 <= y <= 9999 && 0 <= w <= 99
    ensures
      var id := WeekId(y, w);
      |id| == 8 && AllDigits(id[..4]) && AllDigits(id[6..]) && Parse(id[..4]) == y && Parse(id[6..]) == w
  {
    FourDigits(y);
    ParseDecimal(y);
    ParsePadTwo(w);
    var id := WeekId(y, w);
    assert id[..4] == Decimal(y) && id[6..] == PadTwo(Show(w));
  }

  lemma ShowInjective(m: int, n: int)
    requires Show(m) == Show(n)
    ensures m == n
  {
    ShowParts(m);
    ShowParts(n);
  }

  lemma ShowParts(n: int)
    ensures Show(n) != ""
    ensures n >= 0 <==> IsDigit(Show(n)[0])
    ensures n >= 0 ==> AllDigits(Show(n)) && Parse(Show(n)) == n
    ensures n < 0 ==> AllDigits(Show(n)[1..]) && Parse(Show(n)[1..]) == -n
  {
    if n >= 0 {
      ParseDecimal(n);
      assert Show(n)[0] in Show(n);
    } else {
      ParseDecimal(-n);
      assert Show(n)[1..] == Decimal(-n);
    }
  }

  // ----- the order of weekly ids -----

  predicate InRange(t: int) {
    1000 <= WeekYear(t) <= 9999
  }

  /** By year and week number, as the code computes them. */
  predicate NotAfter(t: int, u: int) {
    WeekYear(t) < WeekYear(u) || (WeekYear(t) == WeekYear(u) && CodeWeek(t) <= CodeWeek(u))
  }

  /** The guard: from after midnight to a later midnight of one week, in a year that begins on a Friday. */
  predicate Slips(t: int, u: int) {
    Monday(t / DAY_MS) == Monday(u / DAY_MS) && WeekDay(DayFromYear(WeekYear(t))) == 5 && t % DAY_MS != 0 && u % DAY_MS == 0
  }

  lemma DaysAscend(t: int, u: int)
    requires t <= u
    ensures t / DAY_MS <= u / DAY_MS && Monday(t / DAY_MS) <= Monday(u / DAY_MS)
  {
    MondaysAscend(t / DAY_MS, u / DAY_MS);
  }

  lemma MondaysAscend(a: int, b: int)
    ensures a <= b ==> Monday(a) <= Monday(b)
    ensures (Monday(b) - Monday(a)) % 7 == 0
  {
    var x, y := (a + 3) / 7, (b + 3) / 7;
    assert Monday(a) == 7 * x - 3 && Monday(b) == 7 * y - 3;
  }

  lemma YearsOfAscend(a: int, b: int)
    requires a <= b
    ensures YearOf(a) <= YearOf(b)
  {
    hide DayFromYear;
    if YearOf(b) < YearOf(a) {
      YearsAscend(YearOf(b), YearOf(a));
    }
  }

  /** Weekly ids go forward with the clock unless the guard holds. */
  lemma ForwardIff(t: int, u: int)
    requires t <= u && InRange(t) && InRange(u)
    ensures NotAfter(t, u) <==> !Slips(t, u)
  {
    hide CodeWeek, IsoWeek, YearOf, DayFromYear, FirstThursday;
    var a, b := t / DAY_MS, u / DAY_MS;
    DaysAscend(t, u);
    YearsOfAscend(Thursday(a), Thursday(b));
    CodeWeekIs(t);
    CodeWeekIs(u);
    StartOfIsoWeek(a);
    StartOfIsoWeek(b);
    if WeekYear(t) == WeekYear(u) {
      var y := WeekYear(t);
      assert Monday(b) - Monday(a) == 7 * (IsoWeek(b) - IsoWeek(a));
    }
  }

  lemma SameIdIff(t: int, u: int)
    requires InRange(t) && InRange(u)
    ensures ComputeEpochId(t, WEEK_MS) == ComputeEpochId(u, WEEK_MS) <==> WeekYear(t) == WeekYear(u) && CodeWeek(t) == CodeWeek(u)
  {
    hide CodeWeek, WeekId, ComputeEpochId, WeekYear, IsoWeek;
    IdOfTime(t);
    IdOfTime(u);
    CodeWeekRange(t);
    CodeWeekRange(u);
    if WeekId(WeekYear(t), CodeWeek(t)) == WeekId(WeekYear(u), CodeWeek(u)) {
      WeekIdInjective(WeekYear(t), CodeWeek(t), WeekYear(u), CodeWeek(u));
    }
  }

  lemma CodeWeekRange(t: int)
    requires InRange(t)
    ensures 1 <= CodeWeek(t) <= 53
  {
    hide CodeWeek, WeekIsSafe, IsoWeek, WeeksIn;
    CodeWeekIs(t);
    ThursdayOfYear(t / DAY_MS);
  }

  /** An id that was left comes back only where the clock slipped. */
  lemma NoReturn(t: int, u: int, v: int)
    requires t <= u <= v && InRange(t) && InRange(u) && InRange(v)
    requires !Slips(t, u) && !Slips(u, v) && ComputeEpochId(t, WEEK_MS) == ComputeEpochId(v, WEEK_MS)
    ensures ComputeEpochId(u, WEEK_MS) == ComputeEpochId(t, WEEK_MS)
  {
    hide CodeWeek, ComputeEpochId, WeekYear;
    ForwardIff(t, u);
    ForwardIff(u, v);
    SameIdIff(t, v);
    SameIdIff(t, u);
  }

  // ----- when weekly ids never come back -----

  ghost predicate Returns(t: int, u: int, v: int) {
    t <= u <= v && ComputeEpochId(t, WEEK_MS) == ComputeEpochId(v, WEEK_MS) != ComputeEpochId(u, WEEK_MS)
  }

  ghost predicate NeverReturns(from: int, to: int) {
    forall t, u, v :: from <= t && v <= to ==> !Returns(t, u, v)
  }

  /** A midnight, but not of a Monday, in a year that begins on a Friday. */
  predicate BadMidnight(m: int) {
    m % DAY_MS == 0 && WeekDay(m / DAY_MS) != 1 && WeekDay(DayFromYear(WeekYear(m))) == 5
  }

  lemma DayBefore(day: int)
    ensures WeekDay(day) != 1 <==> Monday(day - 1) == Monday(day)
  {
    NextRemainder(day + 2, 7);
    NextRemainder(day + 3, 7);
  }

  lemma MomentBefore(m: int, s: int)
    requires m % DAY_MS == 0 && m - DAY_MS < s < m
    ensures s / DAY_MS == m / DAY_MS - 1 && s % DAY_MS != 0
  {
  }

  lemma MomentAfter(m: int)
    requires m % DAY_MS == 0
    ensures (m + 1) / DAY_MS == m / DAY_MS && (m + 1) % DAY_MS != 0
    ensures (m - DAY_MS) / DAY_MS == m / DAY_MS - 1 && (m - DAY_MS) % DAY_MS == 0
  {
  }

  /** Within one week of such a year the number is the standard's at midnight and one more at any other time. */
  lemma SameWeekCodes(t: int, u: int)
    requires InRange(t) && Monday(t / DAY_MS) == Monday(u / DAY_MS) && WeekDay(DayFromYear(WeekYear(t))) == 5
    ensures InRange(u) && WeekYear(u) == WeekYear(t)
    ensures CodeWeek(t) == CodeWeek(u) <==> (t % DAY_MS == 0 <==> u % DAY_MS == 0)
  {
    hide CodeWeek, IsoWeek, YearOf, DayFromYear;
    assert IsoWeek(t / DAY_MS) == IsoWeek(u / DAY_MS) by {
      StartOfIsoWeek(t / DAY_MS);
      StartOfIsoWeek(u / DAY_MS);
    }
    CodeWeekIs(t);
    CodeWeekIs(u);
  }

  /** Around such a midnight the id before it comes back after it, and so does the id of the midnight before. */
  lemma BadMidnightReturns(m: int)
    requires BadMidnight(m) && InRange(m)
    ensures Returns(m - 1, m, m + 1) && Returns(m - DAY_MS, m - 1, m)
  {
    hide CodeWeek, ComputeEpochId, YearOf, DayFromYear;
    DayBefore(m / DAY_MS);
    MomentBefore(m, m - 1);
    MomentAfter(m);
    SameWeekCodes(m, m - 1);
    SameWeekCodes(m - 1, m + 1);
    SameWeekCodes(m, m - DAY_MS);
    SameIdIff(m - 1, m);
    SameIdIff(m - 1, m + 1);
    SameIdIff(m - DAY_MS, m);
  }

  lemma SlipIsBad(t: int, u: int)
    requires t <= u && Slips(t, u) && InRange(t)
    ensures t < u && BadMidnight(u)
  {
    hide YearOf, DayFromYear;
    var a, b := t / DAY_MS, u / DAY_MS;
    DaysAscend(t, u);
    assert t == a * DAY_MS + t % DAY_MS && u == b * DAY_MS;
    assert a < b;
    MondaysAscend(a, b - 1);
    DayBefore(b);
    MondaysAscend(b - 1, b);
    assert Thursday(a) == Thursday(b) && WeekYear(u) == WeekYear(t);
  }

  lemma Between(a: int, t: int, b: int)
    requires a <= t <= b && InRange(a) && InRange(b)
    ensures InRange(t)
  {
    hide YearOf;
    DaysAscend(a, t);
    DaysAscend(t, b);
    YearsOfAscend(Thursday(a / DAY_MS), Thursday(t / DAY_MS));
    YearsOfAscend(Thursday(t / DAY_MS), Thursday(b / DAY_MS));
  }

  /**
   * In a stretch of time no weekly id comes back after another was current if and only if the only midnight of the bad
   * kind in it, if any, is its very end, with less than a day before it.
   */
  lemma NeverReturnsIff(from: int, to: int)
    requires from <= to && InRange(from) && InRange(to)
    ensures NeverReturns(from, to) <==> forall m :: from < m <= to && BadMidnight(m) ==> m == to && m - DAY_MS < from
  {
    hide BadMidnight, Returns, InRange;
    forall m | from < m <= to && BadMidnight(m) && (m < to || m - DAY_MS >= from)
      ensures Returns(m - 1, m, m + 1) && Returns(m - DAY_MS, m - 1, m)
    {
      Between(from, m, to);
      BadMidnightReturns(m);
    }
    forall t, u, v | from <= t && v <= to && Returns(t, u, v)
      ensures exists m :: from < m <= to && BadMidnight(m) && (m < to || m - DAY_MS >= from)
    {
      var m := ReturnIsBad(from, to, t, u, v);
    }
  }

  lemma ReturnIsBad(from: int, to: int, t: int, u: int, v: int) returns (m: int)
    requires InRange(from) && InRange(to) && from <= t && v <= to && Returns(t, u, v)
    ensures from < m <= to && BadMidnight(m) && (m < to || m - DAY_MS >= from)
  {
    hide BadMidnight, ComputeEpochId, InRange, Slips;
    Between(from, t, to);
    Between(from, u, to);
    Between(from, v, to);
    if Slips(t, u) {
      SlipIsBad(t, u);
      m := u;
    } else {
      assert Slips(u, v) by {
        if !Slips(u, v) {
          NoReturn(t, u, v);
        }
      }
      SlipIsBad(u, v);
      m := v;
      LongBefore(t, u, v);
    }
  }

  /** To come back at a midnight, the id must have been current at least a day before. */
  lemma LongBefore(t: int, u: int, v: int)
    requires InRange(t) && InRange(v) && t <= u && Slips(u, v) && BadMidnight(v) && u < v
    requires ComputeEpochId(t, WEEK_MS) == ComputeEpochId(v, WEEK_MS)
    ensures t <= v - DAY_MS
  {
    hide CodeWeek, ComputeEpochId, YearOf, DayFromYear;
    SameIdIff(t, v);
    if v - DAY_MS < t {
      MomentBefore(v, t);
      DayBefore(v / DAY_MS);
      SameWeekCodes(v, t);
      assert false;
    }
  }

  /** It happens: the id of Tuesday 12 January 2021, 00:00, is that of the next midnight, but not that of the time between. */
  lemma WeekTwoReturns()
    ensures
      var tuesday, wednesday := 1_610_409_600_000, 1_610_496_000_000;
      Returns(tuesday, tuesday + 1, wednesday) && Returns(wednesday - 1, wednesday, wednesday + 1)
  {
    hide CodeWeek, ComputeEpochId, YearOf;
    var tuesday, wednesday := 1_610_409_600_000, 1_610_496_000_000;
    assert wednesday / DAY_MS == 18_640 && tuesday == wednesday - DAY_MS && Thursday(18_640) == 18_641;
    assert DayFromYear(2021) == 18_628 && DayFromYear(2022) == 18_993;
    YearUnique(18_641, 2021);
    assert WeekYear(wednesday) == 2021 && BadMidnight(wednesday);
    BadMidnightReturns(wednesday);
    DayBefore(18_640);
    MomentAfter(wednesday);
    MomentBefore(wednesday, tuesday + 1);
    SameWeekCodes(wednesday, tuesday + 1);
    SameWeekCodes(wednesday, tuesday);
    SameIdIff(tuesday, tuesday + 1);
    SameIdIff(tuesday, wednesday);
  }

  // ----- fixed lengths -----

  /** Epochs of any other length never come back. */
  lemma FixedNeverReturns(t: int, u: int, v: int, durationMs: int)
    requires t <= u <= v && durationMs > 0 && durationMs != WEEK_MS
    requires ComputeEpochId(t, durationMs) == ComputeEpochId(v, durationMs)
    ensures ComputeEpochId(u, durationMs) == ComputeEpochId(t, durationMs)
  {
    var prefix := "epoch-";
    var a, b := Show(t / durationMs), Show(v / durationMs);
    assert (prefix + a)[6..] == a && (prefix + b)[6..] == b;
    ShowInjective(t / durationMs, v / durationMs);
    QuotientsAscend(t, u, durationMs);
    QuotientsAscend(u, v, durationMs);
  }

  // ----- a sequence of ticks -----

  predicate Ascending(times: seq<int>) {
    forall i, j :: 0 <= i < j < |times| ==> times[i] <= times[j]
  }

  /** Nothing to fear for fixed lengths; for weeks no later tick is at a midnight that an earlier tick of that week passed. */
  predicate SlipFree(times: seq<int>, durationMs: int) {
    durationMs == WEEK_MS ==>
      && (forall i :: 0 <= i < |times| ==> InRange(times[i]))
      && forall i, j :: 0 <= i < j < |times| ==> !Slips(times[i], times[j])
  }

  /** At a tick of such a sequence the id is that of the tick before, or it is new. */
  lemma TickIsFresh(times: seq<int>, durationMs: int, k: nat)
    requires Ascending(times) && durationMs > 0 && SlipFree(times, durationMs) && 0 < k < |times|
    ensures ComputeEpochId(times[k], durationMs) == ComputeEpochId(times[k - 1], durationMs)
            || forall i :: 0 <= i < k ==> ComputeEpochId(times[i], durationMs) != ComputeEpochId(times[k], durationMs)
  {
    hide ComputeEpochId, InRange, Slips;
    forall i | 0 <= i < k - 1 && ComputeEpochId(times[i], durationMs) == ComputeEpochId(times[k], durationMs)
      ensures ComputeEpochId(times[k - 1], durationMs) == ComputeEpochId(times[k], durationMs)
    {
      if durationMs == WEEK_MS {
        NoReturn(times[i], times[k - 1], times[k]);
      } else {
        FixedNeverReturns(times[i], times[k - 1], times[k], durationMs);
      }
    }
  }
}
