/** Calendar dates without a time component, as `java.time.LocalDate`
    represents them in the expense records. */
module Dates {

  datatype Date = Date(year: int, month: int, day: int)

  /** The proleptic Gregorian leap-year rule. Whether a remainder is zero does
      not depend on how the division rounds, so negative years agree with
      Java's truncating `%`. */
  predicate IsLeapYear(year: int) {
    year % 4 == 0 && (year % 100 != 0 || year % 400 == 0)
  }

  function DaysInMonth(year: int, month: int): (n: int)
    requires 1 <= month <= 12
    ensures 28 <= n <= 31
    ensures month == 2 ==> (n == 29 <==> IsLeapYear(year))
  {
    if month == 2 then (if IsLeapYear(year) then 29 else 28)
    else if month == 4 || month == 6 || month == 9 || month == 11 then 30
    else 31
  }

  /** A year, month and day that name an existing calendar day. */
  predicate IsValidDate(d: Date) {
    1 <= d.month <= 12 && 1 <= d.day <= DaysInMonth(d.year, d.month)
  }

  /** The values a `LocalDate` can hold. */
  type LocalDate = d: Date | IsValidDate(d) witness Date(1970, 1, 1)

  /** A number that grows with the date. Within a year the month and day
      contribute between 33 and 415, less than 384 + 33, so the weight 384
      keeps the years apart. */
  function DateKey(d: Date): int {
    d.year * 384 + d.month * 32 + d.day
  }

  /** Chronological order, `a` on or before `b`. */
  predicate NotAfter(a: LocalDate, b: LocalDate) {
    DateKey(a) <= DateKey(b)
  }

  /** The order is the lexicographic order on (year, month, day), which is
      how `LocalDate` compares. */
  lemma NotAfterIsLexicographic(a: LocalDate, b: LocalDate)
    ensures NotAfter(a, b) <==>
      a.year < b.year ||
      (a.year == b.year && (a.month < b.month || (a.month == b.month && a.day <= b.day)))
  {
    if a.year < b.year {
      assert DateKey(a) <= a.year * 384 + 415 < (a.year + 1) * 384 + 33 <= DateKey(b);
    } else if a.year > b.year {
      assert DateKey(b) <= b.year * 384 + 415 < (b.year + 1) * 384 + 33 <= DateKey(a);
    }
  }

  /** `NotAfter` is a total order on valid dates. */
  lemma NotAfterIsTotalOrder(a: LocalDate, b: LocalDate, c: LocalDate)
    ensures NotAfter(a, a)
    ensures NotAfter(a, b) && NotAfter(b, a) ==> a == b
    ensures NotAfter(a, b) && NotAfter(b, c) ==> NotAfter(a, c)
    ensures NotAfter(a, b) || NotAfter(b, a)
  {
    NotAfterIsLexicographic(a, b);
    NotAfterIsLexicographic(b, a);
  }

  /** Every valid date has a day of month between 1 and 31. */
  lemma DayOfMonthRange(d: LocalDate)
    ensures 1 <= d.day <= 31
  {
  }
}
