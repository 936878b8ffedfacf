/** Unix times and civil dates (src/format.rs, `civil_date`,
    `days_from_civil`), against the Gregorian calendar counted day by day. */
module Calendar {
  import opened Wrappers

  datatype Date = Date(year: int, month: int, day: int)

  // ----- the calendar ----------------------------------------------------

  predicate IsLeap(year: int) { year % 4 == 0 && (year % 100 != 0 || year % 400 == 0) }

  function DaysIn(year: int, month: int): int {
    if month == 2 then if IsLeap(year) then 29 else 28
    else if month in {4, 6, 9, 11} then 30 else 31
  }

  predicate Exists(date: Date) { 1 <= date.month <= 12 && 1 <= date.day <= DaysIn(date.year, date.month) }

  function NextDay(date: Date): Date {
    if date.day < DaysIn(date.year, date.month) then date.(day := date.day + 1)
    else if date.month < 12 then Date(date.year, date.month + 1, 1)
    else Date(date.year + 1, 1, 1)
  }

  /** The day `n` days after the first of January 1970. */
  function DayAfter(n: nat): Date { if n == 0 then Date(1970, 1, 1) else NextDay(DayAfter(n - 1)) }

  // ----- the two functions -----------------------------------------------

  function YearOfEra(dayOfEra: nat): int {
    (dayOfEra - dayOfEra / 1460 + dayOfEra / 36524 - dayOfEra / 146096) / 365
  }

  /** The days before a year of an era, whose years begin in March. */
  function YearStart(yearOfEra: nat): int { 365 * yearOfEra + yearOfEra / 4 - yearOfEra / 100 }

  /** `civil_date`. */
  function CivilDate(unix: u64): Date {
    var z := unix / 86400 + 719468;
    var era := z / 146097;
    var dayOfEra := z % 146097;
    var yearOfEra := YearOfEra(dayOfEra);
    var dayOfYear := dayOfEra - (365 * yearOfEra + yearOfEra / 4 - yearOfEra / 100);
    var monthIndex := (5 * dayOfYear + 2) / 153;
    var day := dayOfYear - (153 * monthIndex + 2) / 5 + 1;
    var month := if monthIndex < 10 then monthIndex + 3 else monthIndex - 9;
    Date(yearOfEra + era * 400 + (if month <= 2 then 1 else 0), month, day)
  }

  /** `days_from_civil`. */
  function DaysFromCivil(date: Date): int {
    var year := date.year - (if date.month <= 2 then 1 else 0);
    var era := year / 400;
    var yearOfEra := year % 400;
    var dayOfYear := (153 * (if date.month > 2 then date.month - 3 else date.month + 9) + 2) / 5 + date.day - 1;
    var dayOfEra := yearOfEra * 365 + yearOfEra / 4 - yearOfEra / 100 + dayOfYear;
    era * 146097 + dayOfEra - 719468
  }

  // ----- a day more ------------------------------------------------------

  /** One more day is one more, at the end of a month and of a year too. */
  lemma {:induction false} NextDayCounts(date: Date)
    requires Exists(date)
    ensures Exists(NextDay(date)) && DaysFromCivil(NextDay(date)) == DaysFromCivil(date) + 1
  {
    hide IsLeap;
    if date.month == 2 && date.day == DaysIn(date.year, 2) {
      MarchNext(date.year);
    }
  }

  /** The years of a Gregorian cycle of 400, by century, cycle of four and the
      year of that. */
  lemma {:induction false} YearParts(year: int) returns (era: int, c: nat, q: nat, r: nat)
    ensures c <= 3 && q <= 24 && r <= 3 && year == 400 * era + 100 * c + 4 * q + r
    ensures year / 400 == era && year % 400 == 100 * c + 4 * q + r
  {
    era, c := year / 400, year % 400 / 100;
    var y := year % 400 - 100 * c;
    q, r := y / 4, y % 4;
  }

  lemma {:induction false} By4(k: int, r: nat)
    requires r < 4
    ensures (4 * k + r) / 4 == k && (4 * k + r) % 4 == r
  {
  }

  lemma {:induction false} By100(k: int, r: nat)
    requires r < 100
    ensures (100 * k + r) / 100 == k && (100 * k + r) % 100 == r
  {
  }

  lemma {:induction false} By400(k: int, r: nat)
    requires r < 400
    ensures (400 * k + r) / 400 == k && (400 * k + r) % 400 == r
  {
  }

  /** The year after one whose parts are these: its first two months end the
      year of the era that began in March. */
  lemma {:induction false} LeapIs(era: int, c: nat, q: nat, r: nat)
    requires c <= 3 && q <= 24 && r <= 3
    ensures IsLeap(400 * era + 100 * c + 4 * q + r + 1) <==> r == 3 && (q < 24 || c == 3)
  {
    var next := 400 * era + 100 * c + 4 * q + r + 1;
    if r < 3 {
      By4(100 * era + 25 * c + q, r + 1);
    } else {
      By4(100 * era + 25 * c + q + 1, 0);
      if q < 24 {
        By100(4 * era + c, 4 * q + 4);
      } else if c < 3 {
        By100(4 * era + c + 1, 0);
        By400(era, 100 * (c + 1));
      } else {
        By400(era + 1, 0);
      }
    }
  }

  /** The days before a year of an era. */
  lemma {:induction false} YearStartIs(c: nat, q: nat, r: nat)
    requires c <= 3 && q <= 24 && r <= 3
    ensures YearStart(100 * c + 4 * q + r) == 36524 * c + 1461 * q + 365 * r
  {
    By4(25 * c + q, r);
    By100(c, 4 * q + r);
  }

  lemma {:induction false} StartIs(date: Date)
    ensures var year := date.year - (if date.month <= 2 then 1 else 0);
            var index := if date.month > 2 then date.month - 3 else date.month + 9;
            DaysFromCivil(date) ==
            year / 400 * 146097 + YearStart(year % 400) + ((153 * index + 2) / 5 + date.day - 1) - 719468
  {
  }

  lemma {:induction false} MarchNext(year: int)
    ensures DaysFromCivil(Date(year, 3, 1)) == DaysFromCivil(Date(year, 2, DaysIn(year, 2))) + 1
  {
    hide DaysFromCivil, YearStart, IsLeap;
    StartIs(Date(year, 3, 1));
    StartIs(Date(year, 2, DaysIn(year, 2)));
    var era, c, q, r := YearParts(year - 1);
    LeapIs(era, c, q, r);
    YearStartIs(c, q, r);
    if r < 3 {
      By400(era, 100 * c + 4 * q + r + 1);
      YearStartIs(c, q, r + 1);
    } else if q < 24 {
      By400(era, 100 * c + 4 * (q + 1));
      YearStartIs(c, q + 1, 0);
    } else if c < 3 {
      By400(era, 100 * (c + 1));
      YearStartIs(c + 1, 0, 0);
    } else {
      By400(era + 1, 0);
      YearStartIs(0, 0, 0);
    }
  }

  // ----- from days to a date ---------------------------------------------

  /** A year of an era by its century, its cycle of four, and the year of
      that; the last day of a leap year is its 366th. */
  lemma {:induction false} YearIs(c: nat, q: nat, r: nat, day: nat)
    requires c <= 3 && q <= 24 && r <= 3
    requires day <= 364 || (day == 365 && r == 3 && (q < 24 || c == 3))
    ensures YearOfEra(36524 * c + 1461 * q + 365 * r + day) == 100 * c + 4 * q + r
  {
    var e := 1461 * q + 365 * r + day;
    var d := 36524 * c + e;
    CenturyIs(c, e);
    CycleIs(c, q, r, day);
    var carry := (q + 24 * c + 365 * r + day) / 1460;
    assert d - d / 1460 + d / 36524 - d / 146096 == 365 * (100 * c + 4 * q + r) + (day - carry);
  }

  lemma {:induction false} CenturyIs(c: nat, e: nat)
    requires c <= 3 && (e <= 36523 || (c == 3 && e == 36524))
    ensures (36524 * c + e) / 36524 - (36524 * c + e) / 146096 == c
  {
  }

  lemma {:induction false} CycleIs(c: nat, q: nat, r: nat, day: nat)
    requires c <= 3 && q <= 24 && r <= 3
    requires day <= 364 || (day == 365 && r == 3)
    ensures (36524 * c + 1461 * q + 365 * r + day) / 1460 == 25 * c + q + (q + 24 * c + 365 * r + day) / 1460
    ensures 0 <= day - (q + 24 * c + 365 * r + day) / 1460 < 365
  {
    assert 36524 * c + 1461 * q + 365 * r + day == 1460 * (25 * c + q) + (q + 24 * c + 365 * r + day);
  }

  /** `civil_date` reads back what `days_from_civil` counts. */
  lemma {:induction false} CivilDateReads(date: Date, unix: u64)
    requires Exists(date) && unix / 86400 == DaysFromCivil(date)
    ensures CivilDate(unix) == date
  {
    hide IsLeap, YearOfEra, YearStart, DaysFromCivil, CivilDate;
    var year := date.year - (if date.month <= 2 then 1 else 0);
    var index := if date.month > 2 then date.month - 3 else date.month + 9;
    var dayOfYear := (153 * index + 2) / 5 + date.day - 1;
    var era, c, q, r := YearParts(year);
    LeapIs(era, c, q, r);
    assert dayOfYear <= 364 || (dayOfYear == 365 && date.month == 2 && IsLeap(date.year));
    YearIs(c, q, r, dayOfYear);
    YearStartIs(c, q, r);
    StartIs(date);
    EraIs(era, YearStart(100 * c + 4 * q + r) + dayOfYear, unix / 86400 + 719468);
    MonthIs(index, date.day, dayOfYear);
    CivilParts(unix, era, 100 * c + 4 * q + r, dayOfYear, index);
  }

  lemma {:induction false} CivilParts(unix: u64, era: int, yearOfEra: nat, dayOfYear: int, index: nat)
    requires var z := unix / 86400 + 719468; z / 146097 == era && z % 146097 == YearStart(yearOfEra) + dayOfYear
    requires YearStart(yearOfEra) + dayOfYear >= 0 && YearOfEra(YearStart(yearOfEra) + dayOfYear) == yearOfEra
    requires (5 * dayOfYear + 2) / 153 == index
    ensures var month := if index < 10 then index + 3 else index - 9;
            CivilDate(unix) ==
            Date(yearOfEra + era * 400 + (if month <= 2 then 1 else 0), month, dayOfYear - (153 * index + 2) / 5 + 1)
  {
  }

  lemma {:induction false} EraIs(era: int, dayOfEra: nat, z: int)
    requires z == era * 146097 + dayOfEra && dayOfEra < 146097
    ensures z / 146097 == era && z % 146097 == dayOfEra
  {
  }

  lemma {:induction false} MonthIs(index: nat, day: int, dayOfYear: int)
    requires index <= 11 && dayOfYear == (153 * index + 2) / 5 + day - 1
    requires 1 <= day <= [31, 30, 31, 30, 31, 31, 30, 31, 30, 31, 31, 29][index]
    ensures (5 * dayOfYear + 2) / 153 == index && dayOfYear - (153 * index + 2) / 5 + 1 == day
  {
  }

  // ----- the whole -------------------------------------------------------

  lemma {:induction false} FirstDay()
    ensures DaysFromCivil(Date(1970, 1, 1)) == 0
  {
  }

  lemma {:induction false} DayAfterCounts(n: nat)
    ensures Exists(DayAfter(n)) && DaysFromCivil(DayAfter(n)) == n
  {
    hide DaysFromCivil, NextDay, IsLeap;
    if n == 0 {
      assert DaysFromCivil(Date(1970, 1, 1)) == 0 by {
        FirstDay();
      }
    } else {
      DayAfterCounts(n - 1);
      NextDayCounts(DayAfter(n - 1));
    }
  }

  /** Every unix time falls on the day the calendar reaches by counting. */
  lemma {:induction false} CivilDateIs(unix: u64)
    ensures CivilDate(unix) == DayAfter(unix / 86400) && Exists(CivilDate(unix))
  {
    DayAfterCounts(unix / 86400);
    CivilDateReads(DayAfter(unix / 86400), unix);
  }

  /** The two functions undo each other on every day from 1970 on. */
  lemma {:induction false} Inverses(date: Date, unix: u64)
    ensures DaysFromCivil(CivilDate(unix)) == unix / 86400
    ensures Exists(date) ==> (CivilDate(unix) == date <==> DaysFromCivil(date) == unix / 86400)
  {
    CivilDateIs(unix);
    DayAfterCounts(unix / 86400);
    if Exists(date) && DaysFromCivil(date) == unix / 86400 {
      CivilDateReads(date, unix);
    }
  }
}
