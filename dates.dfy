/** Calendar dates and the integer birthday rule of `calculate_age`. */
module Dates {

  /** A calendar date as (year, month, day); validity is a separate predicate. */
  datatype Date = Date(year: int, month: int, day: int)

  /** Gregorian leap-year rule (proleptic, as Python's `datetime.date`). */
  predicate IsLeapYear(y: int) {
    y % 4 == 0 && (y % 100 != 0 || y % 400 == 0)
  }

  function DaysInMonth(y: int, m: int): (n: int)
    requires 1 <= m <= 12
    ensures 28 <= n <= 31
    ensures n == 29 <==> m == 2 && IsLeapYear(y)
  {
    if m == 2 then (if IsLeapYear(y) then 29 else 28)
    else if m == 4 || m == 6 || m == 9 || m == 11 then 30
    else 31
  }

  /** A date that exists on the calendar. */
  predicate IsValid(d: Date) {
    1 <= d.month <= 12 && 1 <= d.day <= DaysInMonth(d.year, d.month)
  }

  /** `(a.month, a.day) < (b.month, b.day)`, compared as Python compares tuples. */
  predicate MonthDayBefore(a: Date, b: Date) {
    a.month < b.month || (a.month == b.month && a.day < b.day)
  }

  /** Lexicographic order on (year, month, day): `a` is on or before `b`. */
  predicate OnOrBefore(a: Date, b: Date) {
    a.year < b.year || (a.year == b.year && !MonthDayBefore(b, a))
  }

  /** The date on which someone born on `born` completes `n` years. */
  function Anniversary(born: Date, n: int): Date {
    Date(born.year + n, born.month, born.day)
  }

  /**
   * Age on `today` of someone born on `born`: the year difference, less one
   * while this year's birthday has not come yet. The reference date is a
   * parameter where the source reads the wall clock. The result is the
   * number of completed years: the anniversary for `a` years has been reached
   * on `today`, the next one has not.
   */
  function Age(today: Date, born: Date): (a: int)
    ensures OnOrBefore(Anniversary(born, a), today)
    ensures !OnOrBefore(Anniversary(born, a + 1), today)
  {
    today.year - born.year - (if MonthDayBefore(today, born) then 1 else 0)
  }

  /** The completed-years description determines the age uniquely. */
  lemma CompletedYearsIsAge(today: Date, born: Date, n: int)
    requires OnOrBefore(Anniversary(born, n), today)
    requires !OnOrBefore(Anniversary(born, n + 1), today)
    ensures n == Age(today, born)
  {
  }

  /** On the birthday itself the age is exactly the year difference. */
  lemma AgeOnBirthday(born: Date, year: int)
    ensures Age(Date(year, born.month, born.day), born) == year - born.year
  {
  }

  /** The calendar day before a valid date, across month and year ends. */
  function PrevDay(d: Date): (p: Date)
    requires IsValid(d)
    ensures IsValid(p) && OnOrBefore(p, d) && p != d
  {
    if d.day > 1 then Date(d.year, d.month, d.day - 1)
    else if d.month > 1 then Date(d.year, d.month - 1, DaysInMonth(d.year, d.month - 1))
    else Date(d.year - 1, 12, 31)
  }

  /**
   * The day before the birthday the age is one less than on the birthday,
   * also when the birthday is the first of a month or 1 January.
   */
  lemma AgeDayBeforeBirthday(today: Date, born: Date)
    requires IsValid(today) && today.month == born.month && today.day == born.day
    ensures Age(today, born) == today.year - born.year
    ensures Age(PrevDay(today), born) == today.year - born.year - 1
  {
  }

  /** Ages never decrease as the reference date moves forward. */
  lemma AgeMonotone(earlier: Date, later: Date, born: Date)
    requires OnOrBefore(earlier, later)
    ensures Age(earlier, born) <= Age(later, born)
  {
  }

  /** No clamping: the age is negative exactly when the birth date lies after the reference date. */
  lemma AgeNegativeIffFutureBirth(today: Date, born: Date)
    ensures Age(today, born) < 0 <==> !OnOrBefore(born, today)
  {
  }

  /**
   * A 29 February birth date needs no leap-year branch: in a non-leap year the
   * birthday counts as reached on 1 March, not on 28 February.
   */
  lemma LeapDayBirth(born: Date, year: int)
    requires born.month == 2 && born.day == 29
    ensures Age(Date(year, 2, 28), born) == year - born.year - 1
    ensures Age(Date(year, 3, 1), born) == year - born.year
  {
  }
}
