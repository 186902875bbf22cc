/** The calendar conversion in the payload builder (contracts/scripts/build_governance_payload.rs). */
module Timestamps {
  import opened Wrappers
  import opened ProtocolTypes

  /** A date and time of day as the builder prints it. */
  datatype Parts = Parts(year: nat, month: nat, day: nat, hour: nat, minute: nat, second: nat)

  const EPOCH_YEAR: nat := 1970
  const DAY: nat := 86400

  // ---------------------------------------------------------------------------
  // The Gregorian calendar
  // ---------------------------------------------------------------------------

  predicate IsLeap(year: nat) {
    year % 4 == 0 && (year % 100 != 0 || year % 400 == 0)
  }

  function DaysInYear(year: nat): nat {
    if IsLeap(year) then 366 else 365
  }

  function DaysInMonth(year: nat, month: nat): nat {
    if month == 2 then (if IsLeap(year) then 29 else 28)
    else if month in {4, 6, 9, 11} then 30
    else 31
  }

  /** Multiples of 4, of 100 and of 400 among the years before a given one. */
  function Fours(year: nat): int { (year + 3) / 4 }

  function Hundreds(year: nat): int { (year + 99) / 100 }

  function FourHundreds(year: nat): int { (year + 399) / 400 }

  /** Days from the start of year 0 to the start of a year. */
  function DaysBeforeYear(year: nat): int {
    365 * year + Fours(year) - Hundreds(year) + FourHundreds(year)
  }

  /** Days from the start of a year to the start of a month of it. */
  function DaysBeforeMonth(year: nat, month: nat): nat
    requires 1 <= month
  {
    if month == 1 then 0 else DaysBeforeMonth(year, month - 1) + DaysInMonth(year, month - 1)
  }

  lemma OneMore(year: nat)
    ensures Fours(year + 1) == Fours(year) + (if year % 4 == 0 then 1 else 0)
    ensures Hundreds(year + 1) == Hundreds(year) + (if year % 100 == 0 then 1 else 0)
    ensures FourHundreds(year + 1) == FourHundreds(year) + (if year % 400 == 0 then 1 else 0)
  {
  }

  lemma LeapRule(n: nat)
    ensures n % 400 == 0 ==> n % 100 == 0
    ensures n % 100 == 0 ==> n % 4 == 0
  {
    assert n == 400 * (n / 400) + n % 400;
    assert n == 100 * (n / 100) + n % 100;
    if n % 400 == 0 {
      assert n == 100 * (4 * (n / 400));
    }
    if n % 100 == 0 {
      assert n == 4 * (25 * (n / 100));
    }
  }

  lemma YearZero()
    ensures DaysBeforeYear(0) == 0
  {
  }

  /** The closed form is the sum of the years' lengths. */
  lemma NextYear(year: nat)
    ensures DaysBeforeYear(year + 1) == DaysBeforeYear(year) + DaysInYear(year)
  {
    hide Fours;
    hide Hundreds;
    hide FourHundreds;
    OneMore(year);
    LeapRule(year);
  }

  predicate ValidParts(p: Parts) {
    && p.year < U32_RANGE
    && 1 <= p.month <= 12
    && 1 <= p.day <= DaysInMonth(p.year, p.month)
    && p.hour < 24 && p.minute < 60 && p.second < 60
  }

  /** Days from the start of year 0. */
  function DayNumber(p: Parts): int
    requires ValidParts(p)
  {
    DaysBeforeYear(p.year) + DaysBeforeMonth(p.year, p.month) + p.day - 1
  }

  function SecondOfDay(p: Parts): nat {
    p.hour * 3600 + p.minute * 60 + p.second
  }

  /** Converting back: seconds since the epoch, negative before it. */
  function ToSeconds(p: Parts): int
    requires ValidParts(p)
  {
    (DayNumber(p) - DaysBeforeYear(EPOCH_YEAR)) * DAY + SecondOfDay(p)
  }

  /** The days from the epoch to the first year that does not fit in 32 bits. */
  ghost function HorizonDays(): int {
    DaysBeforeYear(U32_RANGE) - DaysBeforeYear(EPOCH_YEAR)
  }

  /** The first second whose year does not fit in 32 bits. */
  ghost function Horizon(): int {
    HorizonDays() * DAY
  }

  /** That second has a number, and it is one of the 64-bit seconds. */
  lemma HorizonIsReached()
    ensures Horizon() == 135536014634284800 < U64_RANGE
  {
  }

  // ---------------------------------------------------------------------------
  // Bounds
  // ---------------------------------------------------------------------------

  lemma {:induction false} YearsAddUp(a: nat, b: nat)
    requires a <= b
    ensures DaysBeforeYear(a) <= DaysBeforeYear(b)
    ensures a < b ==> DaysBeforeYear(a) + DaysInYear(a) <= DaysBeforeYear(b)
    decreases b
  {
    hide DaysBeforeYear;
    if a < b {
      YearsAddUp(a, b - 1);
      NextYear(b - 1);
    }
  }

  lemma {:induction false} MonthsAddUp(year: nat, a: nat, b: nat)
    requires 1 <= a <= b
    ensures DaysBeforeMonth(year, a) <= DaysBeforeMonth(year, b)
    ensures a < b ==> DaysBeforeMonth(year, a) + DaysInMonth(year, a) <= DaysBeforeMonth(year, b)
    decreases b
  {
    if a < b {
      MonthsAddUp(year, a, b - 1);
    }
  }

  lemma MonthsFillTheYear(year: nat)
    ensures DaysBeforeMonth(year, 12) + 31 == DaysInYear(year)
  {
    assert DaysBeforeMonth(year, 2) == 31;
    assert DaysBeforeMonth(year, 3) == DaysInYear(year) - 306;
    assert DaysBeforeMonth(year, 5) == DaysBeforeMonth(year, 4) + 30 == DaysInYear(year) - 245;
    assert DaysBeforeMonth(year, 7) == DaysBeforeMonth(year, 6) + 30 == DaysInYear(year) - 184;
    assert DaysBeforeMonth(year, 9) == DaysBeforeMonth(year, 8) + 31 == DaysInYear(year) - 122;
    assert DaysBeforeMonth(year, 11) == DaysBeforeMonth(year, 10) + 31 == DaysInYear(year) - 61;
  }

  /** A day lies within its year. */
  lemma DayWithinYear(p: Parts)
    requires ValidParts(p)
    ensures DaysBeforeYear(p.year) <= DayNumber(p) < DaysBeforeYear(p.year) + DaysInYear(p.year)
  {
    hide DaysBeforeYear;
    MonthsAddUp(p.year, p.month, 12);
    MonthsFillTheYear(p.year);
  }

  // ---------------------------------------------------------------------------
  // The loops
  // ---------------------------------------------------------------------------

  datatype YearDay = YearDay(year: nat, days: nat)

  /**
   * The year count is a 32-bit word. A build with overflow checks, which `cargo run` makes unless
   * told otherwise, aborts when it runs over; a build without them wraps, and whatever the count
   * ends on, the rest is a day of that year.
   */
  method FindYear(total: nat, overflowChecks: bool) returns (r: Result<YearDay, Error>)
    ensures total < HorizonDays() || !overflowChecks ==>
              r.Success? && r.value.year < U32_RANGE && r.value.days < DaysInYear(r.value.year)
    ensures total < HorizonDays() ==>
              DaysBeforeYear(r.value.year) + r.value.days == DaysBeforeYear(EPOCH_YEAR) + total
    ensures total >= HorizonDays() && overflowChecks ==> r == Failure(Panic)
  {
    hide DaysBeforeYear;
    var year: nat, days: nat := EPOCH_YEAR, total;
    while true
      invariant year < U32_RANGE
      invariant total < HorizonDays() || overflowChecks ==>
                  DaysBeforeYear(year) + days == DaysBeforeYear(EPOCH_YEAR) + total
      decreases days
    {
      var daysInYear := if year % 4 == 0 && (year % 100 != 0 || year % 400 == 0) then 366 else 365;
      if days < daysInYear {
        YearsAddUp(year, U32_RANGE);
        return Success(YearDay(year, days));
      }
      NextYear(year);
      days := days - daysInYear;
      if overflowChecks && year + 1 == U32_RANGE {
        return Failure(Panic);
      }
      year := (year + 1) % U32_RANGE;
    }
  }

  method FindMonth(year: nat, dayOfYear: nat) returns (month: nat, days: nat)
    requires dayOfYear < DaysInYear(year)
    ensures 1 <= month <= 12 && days < DaysInMonth(year, month)
    ensures DaysBeforeMonth(year, month) + days == dayOfYear
  {
    var leap := year % 4 == 0 && (year % 100 != 0 || year % 400 == 0);
    var monthDays := [31, if leap then 29 else 28, 31, 30, 31, 30, 31, 31, 30, 31, 30, 31];
    MonthsFillTheYear(year);
    month, days := 1, dayOfYear;
    for i := 0 to |monthDays|
      invariant month == i + 1
      invariant DaysBeforeMonth(year, month) + days == dayOfYear
      invariant i == 12 ==> dayOfYear >= DaysInYear(year)
    {
      var md := monthDays[i];
      assert md == DaysInMonth(year, i + 1);
      if days < md {
        return;
      }
      days := days - md;
      month := month + 1;
    }
  }

  /**
   * Before the year 2^32 the conversion gives a valid date that converts back to the same second.
   * From there on it aborts, or, without overflow checks, gives a valid date of another second.
   */
  method EpochToParts(secs: nat, overflowChecks: bool) returns (r: Result<Parts, Error>)
    requires secs < U64_RANGE
    ensures r.Success? <==> secs < Horizon() || !overflowChecks
    ensures r.Failure? ==> r == Failure(Panic)
    ensures r.Success? ==> ValidParts(r.value)
    ensures r.Success? ==> (ToSeconds(r.value) == secs <==> secs < Horizon())
  {
    hide DaysBeforeYear;
    var sec := secs % 60;
    var min := (secs / 60) % 60;
    var hour := (secs / 3600) % 24;
    var total := secs / DAY;
    TimeOfDay(secs);
    var found := FindYear(total, overflowChecks);
    if found.Failure? {
      return Failure(found.error);
    }
    var year := found.value.year;
    var month, days := FindMonth(year, found.value.days);
    var p := Parts(year, month, days + 1, hour, min, sec);
    BeforeHorizon(p);
    return Success(p);
  }

  lemma TimeOfDay(secs: nat)
    ensures secs == (secs / DAY) * DAY + ((secs / 3600) % 24) * 3600 + ((secs / 60) % 60) * 60 + secs % 60
  {
  }

  /** A valid date with a 32-bit year lies before the horizon. */
  lemma BeforeHorizon(p: Parts)
    requires ValidParts(p)
    ensures ToSeconds(p) < Horizon()
  {
    hide DaysBeforeYear;
    DayWithinYear(p);
    YearsAddUp(p.year, U32_RANGE);
  }

  // ---------------------------------------------------------------------------
  // Order
  // ---------------------------------------------------------------------------

  /** Calendar order, field by field. */
  predicate Earlier(a: Parts, b: Parts) {
    || a.year < b.year
    || (a.year == b.year && (
        || a.month < b.month
        || (a.month == b.month && (
            || a.day < b.day
            || (a.day == b.day && SecondOfDay(a) < SecondOfDay(b))))))
  }

  lemma EarlierIsLess(a: Parts, b: Parts)
    requires ValidParts(a) && ValidParts(b) && Earlier(a, b)
    ensures ToSeconds(a) < ToSeconds(b)
  {
    hide DaysBeforeYear;
    DayWithinYear(a);
    DayWithinYear(b);
    if a.year < b.year {
      YearsAddUp(a.year, b.year);
    } else if a.month < b.month {
      MonthsAddUp(a.year, a.month, b.month);
    }
  }

  /** The conversion keeps the order strictly, so different seconds have different dates. */
  lemma OrderPreserved(a: Parts, b: Parts)
    requires ValidParts(a) && ValidParts(b)
    ensures Earlier(a, b) <==> ToSeconds(a) < ToSeconds(b)
    ensures ToSeconds(a) == ToSeconds(b) ==> a == b
  {
    if Earlier(a, b) {
      EarlierIsLess(a, b);
    } else if Earlier(b, a) {
      EarlierIsLess(b, a);
    } else {
      assert a.year == b.year && a.month == b.month && a.day == b.day;
    }
  }
}
