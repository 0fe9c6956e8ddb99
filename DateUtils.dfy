/** Calendar arithmetic of the EMI schedule (src/Services/EMI-DateUtils.js).
    A JavaScript `Date` is modelled by its local calendar fields: a proleptic
    Gregorian date with a 0-based month, as `getMonth()` returns it, plus the
    milliseconds elapsed since midnight. The constructor `new Date(y, m, d)`
    and `setMonth` normalise out-of-range months and days the way ECMA-262's
    MakeDay (section 21.4.1) does; `MakeDate` below is that normalisation. */
module DateUtils {
  import opened Common

  datatype CivilDate = CivilDate(year: int, month: int, day: int)

  datatype DateTime = DateTime(date: CivilDate, msOfDay: int)

  predicate IsLeapYear(y: int)
  {
    y % 4 == 0 && (y % 100 != 0 || y % 400 == 0)
  }

  function DaysInMonth(y: int, m: int): (n: int)
    requires 0 <= m < 12
    ensures 28 <= n <= 31
    ensures n == 29 <==> m == 1 && IsLeapYear(y)
  {
    if m == 1 then (if IsLeapYear(y) then 29 else 28)
    else if m == 3 || m == 5 || m == 8 || m == 10 then 30
    else 31
  }

  predicate ValidDate(d: CivilDate)
  {
    0 <= d.month < 12 && 1 <= d.day <= DaysInMonth(d.year, d.month)
  }

  predicate ValidDateTime(t: DateTime)
  {
    ValidDate(t.date) && 0 <= t.msOfDay < MsPerDay
  }

  /** Months counted from January of year 0; consecutive months differ by one. */
  function MonthIndex(d: CivilDate): int
  {
    12 * d.year + d.month
  }

  /** Day overflow and underflow: a day beyond the month's length continues
      into the following months, a day below 1 goes back into the previous ones. */
  function Normalize(y: int, m: int, d: int): (r: CivilDate)
    requires 0 <= m < 12
    ensures ValidDate(r)
    decreases if d < 1 then 1 else 0, if d < 1 then -d else d
  {
    if d < 1 then
      var py := if m == 0 then y - 1 else y;
      var pm := if m == 0 then 11 else m - 1;
      Normalize(py, pm, d + DaysInMonth(py, pm))
    else if d > DaysInMonth(y, m) then
      var ny := if m == 11 then y + 1 else y;
      var nm := if m == 11 then 0 else m + 1;
      Normalize(ny, nm, d - DaysInMonth(y, m))
    else
      CivilDate(y, m, d)
  }

  /** The date part of `new Date(y, m, d)`: the month is first carried into the
      year, then the day is normalised within the calendar. */
  function MakeDate(y: int, m: int, d: int): (r: CivilDate)
    ensures ValidDate(r)
  {
    Normalize(y + m / 12, m % 12, d)
  }

  /** `getLastDayOfMonth(date)` (EMI-DateUtils.js:3-8): `new Date(y, m + 1, 0)`. */
  function GetLastDayOfMonth(date: CivilDate): (r: CivilDate)
    requires 0 <= date.month < 12
    ensures r == CivilDate(date.year, date.month, DaysInMonth(date.year, date.month))
  {
    LastDayIsMonthLength(date.year, date.month);
    MakeDate(date.year, date.month + 1, 0)
  }

  /** `date.setMonth(m)`: the year, day and time of day are kept and the result
      is normalised. */
  function SetMonth(t: DateTime, m: int): DateTime
  {
    DateTime(MakeDate(t.date.year, m, t.date.day), t.msOfDay)
  }

  const MonthNames: seq<string> := ["January", "February", "March", "April", "May", "June",
    "July", "August", "September", "October", "November", "December"]

  /** `getMonthName(date)` (EMI-DateUtils.js:10-20). */
  function GetMonthName(date: CivilDate): (name: string)
    requires 0 <= date.month < 12
    ensures name == MonthNames[date.month]
  {
    MonthNames[date.month]
  }

  /** `getMonthNameFromDate(date)` (EMI-DateUtils.js:42-47) delegates to `getMonthName`. */
  function GetMonthNameFromDate(date: CivilDate): (name: string)
    requires 0 <= date.month < 12
    ensures name == GetMonthName(date)
  {
    GetMonthName(date)
  }

  /** `getNextDueDate(startDate, dueDay, monthsOffset)` (EMI-DateUtils.js:22-40):
      move `monthsOffset` months on with `setMonth`, which may carry a day that
      the target month lacks into the month after it, then clamp `dueDay` to the
      length of the month reached. The result is at local midnight. */
  function GetNextDueDate(start: DateTime, dueDay: int, monthsOffset: int): CivilDate
  {
    ClampToMonth(SetMonth(start, start.date.month + monthsOffset).date, dueDay)
  }

  /** The clamp of `getNextDueDate` (EMI-DateUtils.js:30-36): the last day of
      the month reached is `new Date(y, m + 1, 0)`, and the due day is cut down
      to it. On a valid date and a due day of at least 1 the result is that
      day of the same month. */
  function ClampToMonth(next: CivilDate, dueDay: int): (r: CivilDate)
    ensures ValidDate(next) && 1 <= dueDay ==>
      r == CivilDate(next.year, next.month, Min(dueDay, DaysInMonth(next.year, next.month)))
  {
    ClampWithinMonth(next, dueDay);
    var lastDay := MakeDate(next.year, next.month + 1, 0).day;
    var adjustedDay := Min(dueDay, lastDay);
    MakeDate(next.year, next.month, adjustedDay)
  }

  // ---------------------------------------------------------------------
  // Day numbers and instants (`Date.prototype.getTime`)
  // ---------------------------------------------------------------------

  /** Leap years in [0, y), extended to all integers by floor division. */
  function LeapsBefore(y: int): int
  {
    (y + 3) / 4 - (y + 99) / 100 + (y + 399) / 400
  }

  function DaysBeforeYear(y: int): int
  {
    365 * (y - 1970) + LeapsBefore(y) - LeapsBefore(1970)
  }

  function DaysBeforeMonth(y: int, m: int): int
    requires 0 <= m <= 12
  {
    var leap := if IsLeapYear(y) then 1 else 0;
    if m == 0 then 0 else if m == 1 then 31
    else if m == 2 then 59 + leap else if m == 3 then 90 + leap
    else if m == 4 then 120 + leap else if m == 5 then 151 + leap
    else if m == 6 then 181 + leap else if m == 7 then 212 + leap
    else if m == 8 then 243 + leap else if m == 9 then 273 + leap
    else if m == 10 then 304 + leap else if m == 11 then 334 + leap
    else 365 + leap
  }

  /** Days since 1 January 1970 (negative before it). */
  function DayNumber(d: CivilDate): int
    requires 0 <= d.month < 12
  {
    DaysBeforeYear(d.year) + DaysBeforeMonth(d.year, d.month) + d.day - 1
  }

  /** `getTime()` of a local date and time. */
  function ToMillis(t: DateTime): Instant
    requires 0 <= t.date.month < 12
  {
    DayNumber(t.date) * MsPerDay + t.msOfDay
  }

  /** `getTime()` of a date at local midnight. */
  function MidnightMillis(d: CivilDate): Instant
    requires 0 <= d.month < 12
  {
    DayNumber(d) * MsPerDay
  }

  // ---------------------------------------------------------------------
  // Lemmas
  // ---------------------------------------------------------------------

  lemma DayNumberAtEpoch()
    ensures DayNumber(CivilDate(1970, 0, 1)) == 0
    ensures DayNumber(CivilDate(2000, 0, 1)) == 10957
  {
  }

  lemma LeapStep(y: int)
    ensures LeapsBefore(y + 1) - LeapsBefore(y) == if IsLeapYear(y) then 1 else 0
  {
    DivStep4(y);
    DivStep100(y);
    DivStep400(y);
    DivisibilityChain(y);
    assert LeapsBefore(y + 1) - LeapsBefore(y) ==
      ((y + 4) / 4 - (y + 3) / 4) - ((y + 100) / 100 - (y + 99) / 100) + ((y + 400) / 400 - (y + 399) / 400);
  }

  lemma DivisibilityChain(y: int)
    ensures y % 400 == 0 ==> y % 100 == 0
    ensures y % 100 == 0 ==> y % 4 == 0
  {
    if y % 400 == 0 {
      Mod400Mod100(y);
    }
    if y % 100 == 0 {
      Mod100Mod4(y);
    }
  }

  lemma Mod400Mod100(y: int)
    requires y % 400 == 0
    ensures y % 100 == 0
  {
    assert y == 100 * (4 * (y / 400));
  }

  lemma Mod100Mod4(y: int)
    requires y % 100 == 0
    ensures y % 4 == 0
  {
    assert y == 4 * (25 * (y / 100));
  }

  // (y + n) / n - (y + n - 1) / n is 1 exactly when n divides y, for n = 4, 100, 400.

  lemma DivStep4(y: int)
    ensures (y + 4) / 4 - (y + 3) / 4 == if y % 4 == 0 then 1 else 0
  {
    var q, r := y / 4, y % 4;
    assert (y + 4) / 4 == q + 1;
    assert (y + 3) / 4 == if r == 0 then q else q + 1;
  }

  lemma DivStep100(y: int)
    ensures (y + 100) / 100 - (y + 99) / 100 == if y % 100 == 0 then 1 else 0
  {
    var q, r := y / 100, y % 100;
    assert (y + 100) / 100 == q + 1;
    assert (y + 99) / 100 == if r == 0 then q else q + 1;
  }

  lemma DivStep400(y: int)
    ensures (y + 400) / 400 - (y + 399) / 400 == if y % 400 == 0 then 1 else 0
  {
    var q, r := y / 400, y % 400;
    assert (y + 400) / 400 == q + 1;
    assert (y + 399) / 400 == if r == 0 then q else q + 1;
  }

  /** The first day of the month after (y, m) is DaysInMonth(y, m) days after
      the first day of (y, m). */
  lemma NextFirstDay(y: int, m: int)
    requires 0 <= m < 12
    ensures var ny := if m == 11 then y + 1 else y;
            var nm := if m == 11 then 0 else m + 1;
            DayNumber(CivilDate(ny, nm, 1)) == DayNumber(CivilDate(y, m, 1)) + DaysInMonth(y, m)
  {
    if m == 11 {
      LeapStep(y);
    }
  }

  /** What `Normalize` computes is MakeDay's arithmetic: day `d` of (y, m) is
      the first of the month plus d - 1 days, whatever the sign or size of d. */
  lemma {:induction false} NormalizeIsDayArithmetic(y: int, m: int, d: int)
    requires 0 <= m < 12
    ensures DayNumber(Normalize(y, m, d)) == DayNumber(CivilDate(y, m, 1)) + d - 1
    decreases if d < 1 then 1 else 0, if d < 1 then -d else d
  {
    if d < 1 {
      var py := if m == 0 then y - 1 else y;
      var pm := if m == 0 then 11 else m - 1;
      NormalizeIsDayArithmetic(py, pm, d + DaysInMonth(py, pm));
      NextFirstDay(py, pm);
    } else if d > DaysInMonth(y, m) {
      var ny := if m == 11 then y + 1 else y;
      var nm := if m == 11 then 0 else m + 1;
      NormalizeIsDayArithmetic(ny, nm, d - DaysInMonth(y, m));
      NextFirstDay(y, m);
    }
  }

  /** A valid date is left as it is. */
  lemma NormalizeValid(d: CivilDate)
    requires ValidDate(d)
    ensures Normalize(d.year, d.month, d.day) == d
    ensures MakeDate(d.year, d.month, d.day) == d
  {
    assert d.month / 12 == 0 && d.month % 12 == d.month;
  }

  /** `new Date(y, m + 1, 0)` is the last day of month (y, m). */
  lemma LastDayIsMonthLength(y: int, m: int)
    requires 0 <= m < 12
    ensures MakeDate(y, m + 1, 0) == CivilDate(y, m, DaysInMonth(y, m))
  {
    if m == 11 {
      assert (m + 1) / 12 == 1 && (m + 1) % 12 == 0;
      assert Normalize(y + 1, 0, 0) == Normalize(y, 11, DaysInMonth(y, 11));
    } else {
      assert (m + 1) / 12 == 0 && (m + 1) % 12 == m + 1;
      assert Normalize(y, m + 1, 0) == Normalize(y, m, DaysInMonth(y, m));
    }
  }

  lemma MonthNamesInOrder()
    ensures |MonthNames| == 12
    ensures forall i, j :: 0 <= i < j < 12 ==> MonthNames[i] != MonthNames[j]
    ensures MonthNames[0] == "January" && MonthNames[1] == "February" && MonthNames[11] == "December"
  {
  }

  /** Where `setMonth(start.month + k)` lands: exactly k months on with the same
      day, or, when that month is too short for the start day, in the month after
      it on day (start day - length); the overflow is at most three days. */
  lemma AddMonthsShape(start: DateTime, k: int)
    requires ValidDateTime(start)
    ensures var target := start.date.month + k;
            var ty := start.date.year + target / 12;
            var tm := target % 12;
            var next := SetMonth(start, target).date;
            MonthIndex(CivilDate(ty, tm, 1)) == MonthIndex(start.date) + k &&
            if start.date.day <= DaysInMonth(ty, tm) then
              next == CivilDate(ty, tm, start.date.day)
            else
              MonthIndex(next) == MonthIndex(start.date) + k + 1 &&
              next.day == start.date.day - DaysInMonth(ty, tm) && next.day <= 3
  {
    var target := start.date.month + k;
    var ty := start.date.year + target / 12;
    var tm := target % 12;
    var d := start.date.day;
    assert 12 * (target / 12) + tm == target;
    if d > DaysInMonth(ty, tm) {
      var ny := if tm == 11 then ty + 1 else ty;
      var nm := if tm == 11 then 0 else tm + 1;
      assert d - DaysInMonth(ty, tm) <= 3;
      assert Normalize(ty, tm, d) == Normalize(ny, nm, d - DaysInMonth(ty, tm));
      assert Normalize(ny, nm, d - DaysInMonth(ty, tm)) == CivilDate(ny, nm, d - DaysInMonth(ty, tm));
    }
  }

  /** The due date is clamped to the length of the month it falls in, and for a
      due day of at least 1 it is a valid date of that month. */
  lemma NextDueDateIsClamped(start: DateTime, dueDay: int, k: int)
    requires ValidDateTime(start) && 1 <= dueDay
    ensures var r := GetNextDueDate(start, dueDay, k);
            var next := SetMonth(start, start.date.month + k).date;
            r.year == next.year && r.month == next.month &&
            r.day == Min(dueDay, DaysInMonth(r.year, r.month)) && ValidDate(r)
  {
  }

  /** The clamp of `getNextDueDate` applied to a valid date of the month reached. */
  lemma ClampWithinMonth(next: CivilDate, dueDay: int)
    ensures ValidDate(next) && 1 <= dueDay ==>
      MakeDate(next.year, next.month, Min(dueDay, MakeDate(next.year, next.month + 1, 0).day)) ==
      CivilDate(next.year, next.month, Min(dueDay, DaysInMonth(next.year, next.month)))
  {
    if ValidDate(next) && 1 <= dueDay {
      LastDayIsMonthLength(next.year, next.month);
      NormalizeValid(CivilDate(next.year, next.month, Min(dueDay, DaysInMonth(next.year, next.month))));
    }
  }

  /** A due day of at most 28 is never clamped. */
  lemma DueDayKeptUpTo28(start: DateTime, dueDay: int, k: int)
    requires ValidDateTime(start) && 1 <= dueDay <= 28
    ensures GetNextDueDate(start, dueDay, k).day == dueDay
  {
    NextDueDateIsClamped(start, dueDay, k);
  }

  /** From a start day of at most 28 the due date is in exactly the month k
      months on, the year carrying. */
  lemma NextDueMonthExact(start: DateTime, dueDay: int, k: int)
    requires ValidDateTime(start) && 1 <= dueDay && start.date.day <= 28
    ensures var r := GetNextDueDate(start, dueDay, k);
            r.year == start.date.year + (start.date.month + k) / 12 &&
            r.month == (start.date.month + k) % 12 &&
            MonthIndex(r) == MonthIndex(start.date) + k
  {
    AddMonthsShape(start, k);
    NextDueDateIsClamped(start, dueDay, k);
  }

  /** When the start day is past the end of the target month, `setMonth` has
      already rolled into the following month and the due date is in that one. */
  lemma NextDueMonthOverflow(start: DateTime, dueDay: int, k: int)
    requires ValidDateTime(start) && 1 <= dueDay
    requires var target := start.date.month + k;
             start.date.day > DaysInMonth(start.date.year + target / 12, target % 12)
    ensures MonthIndex(GetNextDueDate(start, dueDay, k)) == MonthIndex(start.date) + k + 1
  {
    AddMonthsShape(start, k);
    NextDueDateIsClamped(start, dueDay, k);
  }

  /** A 31 January start skips February: offset 1 lands in March, and so does
      offset 2, so the two instalments fall due on the same day. */
  lemma JanuaryThirtyFirstSkipsFebruary(ms: int)
    requires 0 <= ms < MsPerDay
    ensures GetNextDueDate(DateTime(CivilDate(2025, 0, 31), ms), 31, 1) == CivilDate(2025, 2, 31)
    ensures GetNextDueDate(DateTime(CivilDate(2025, 0, 31), ms), 15, 1) == CivilDate(2025, 2, 15)
    ensures GetNextDueDate(DateTime(CivilDate(2025, 0, 31), ms), 15, 2) == CivilDate(2025, 2, 15)
  {
    var start := DateTime(CivilDate(2025, 0, 31), ms);
    JanuaryThirtyFirstSetMonth(ms);
    assert DaysInMonth(2025, 2) == 31;
    NextDueDateIsClamped(start, 31, 1);
    NextDueDateIsClamped(start, 15, 1);
    NextDueDateIsClamped(start, 15, 2);
  }

  /** `setMonth` from 31 January 2025: one month on overflows February into
      3 March, two months on is 31 March. */
  lemma JanuaryThirtyFirstSetMonth(ms: int)
    ensures SetMonth(DateTime(CivilDate(2025, 0, 31), ms), 1).date == CivilDate(2025, 2, 3)
    ensures SetMonth(DateTime(CivilDate(2025, 0, 31), ms), 2).date == CivilDate(2025, 2, 31)
  {
    assert DaysInMonth(2025, 1) == 28;
    assert MakeDate(2025, 1, 31) == Normalize(2025, 1, 31) == Normalize(2025, 2, 3) == CivilDate(2025, 2, 3);
    assert MakeDate(2025, 2, 31) == Normalize(2025, 2, 31) == CivilDate(2025, 2, 31);
  }

  /** Day numbers of first days grow with the month index. */
  lemma {:induction false} FirstDaysIncrease(a: CivilDate, b: CivilDate)
    requires 0 <= a.month < 12 && 0 <= b.month < 12 && a.day == 1 && b.day == 1
    requires MonthIndex(a) < MonthIndex(b)
    ensures DayNumber(a) + DaysInMonth(a.year, a.month) <= DayNumber(b)
    decreases MonthIndex(b) - MonthIndex(a)
  {
    var ny := if a.month == 11 then a.year + 1 else a.year;
    var nm := if a.month == 11 then 0 else a.month + 1;
    var n := CivilDate(ny, nm, 1);
    NextFirstDay(a.year, a.month);
    assert MonthIndex(n) == MonthIndex(a) + 1;
    if MonthIndex(n) < MonthIndex(b) {
      FirstDaysIncrease(n, b);
    } else {
      MonthIndexInjective(n, b);
    }
  }

  /** The month index determines the year and the month. */
  lemma MonthIndexInjective(a: CivilDate, b: CivilDate)
    requires 0 <= a.month < 12 && 0 <= b.month < 12 && MonthIndex(a) == MonthIndex(b)
    ensures a.year == b.year && a.month == b.month
  {
  }

  /** Valid dates in a later month have a larger day number. */
  lemma DayNumberMonotone(a: CivilDate, b: CivilDate)
    requires ValidDate(a) && ValidDate(b) && MonthIndex(a) < MonthIndex(b)
    ensures DayNumber(a) < DayNumber(b)
  {
    FirstDaysIncrease(CivilDate(a.year, a.month, 1), CivilDate(b.year, b.month, 1));
  }

  /** From a start day of at most 28, due dates strictly increase with the offset. */
  lemma NextDueDatesIncrease(start: DateTime, dueDay: int, k1: int, k2: int)
    requires ValidDateTime(start) && 1 <= dueDay && start.date.day <= 28 && k1 < k2
    ensures DayNumber(GetNextDueDate(start, dueDay, k1)) < DayNumber(GetNextDueDate(start, dueDay, k2))
  {
    NextDueMonthExact(start, dueDay, k1);
    NextDueMonthExact(start, dueDay, k2);
    NextDueDateIsClamped(start, dueDay, k1);
    NextDueDateIsClamped(start, dueDay, k2);
    DayNumberMonotone(GetNextDueDate(start, dueDay, k1), GetNextDueDate(start, dueDay, k2));
  }

  /** From any start day, due dates never go backwards as the offset grows. */
  lemma NextDueDatesNonDecreasing(start: DateTime, dueDay: int, k1: int, k2: int)
    requires ValidDateTime(start) && 1 <= dueDay && k1 <= k2
    ensures DayNumber(GetNextDueDate(start, dueDay, k1)) <= DayNumber(GetNextDueDate(start, dueDay, k2))
  {
    if k1 < k2 {
      var r1, r2 := GetNextDueDate(start, dueDay, k1), GetNextDueDate(start, dueDay, k2);
      AddMonthsShape(start, k1);
      AddMonthsShape(start, k2);
      NextDueDateIsClamped(start, dueDay, k1);
      NextDueDateIsClamped(start, dueDay, k2);
      if MonthIndex(r1) < MonthIndex(r2) {
        DayNumberMonotone(r1, r2);
      } else {
        assert MonthIndex(r1) == MonthIndex(r2);
        MonthIndexInjective(r1, r2);
      }
    }
  }

  /** A due date k >= 1 months on is on a later day than the start. */
  lemma NextDueDateAfterStart(start: DateTime, dueDay: int, k: int)
    requires ValidDateTime(start) && 1 <= dueDay && 1 <= k
    ensures ToMillis(start) < MidnightMillis(GetNextDueDate(start, dueDay, k))
  {
    var r := GetNextDueDate(start, dueDay, k);
    AddMonthsShape(start, k);
    NextDueDateIsClamped(start, dueDay, k);
    DayNumberMonotone(start.date, r);
  }
}
