/** Calendar dates as Python's `datetime.date` holds them. */
module Dates {

  datatype Date = Date(year: int, month: int, day: int) {
    /** The dates `datetime.date` can represent: years 1 to 9999 and real days. */
    predicate Valid() {
      1 <= year <= 9999 && 1 <= month <= 12 && 1 <= day <= DaysInMonth(year, month)
    }
  }

  type CalendarDate = d: Date | d.Valid() witness Date(1, 1, 1)

  predicate IsLeapYear(year: int) {
    year % 4 == 0 && (year % 100 != 0 || year % 400 == 0)
  }

  function DaysInMonth(year: int, month: int): int
    requires 1 <= month <= 12
  {
    if month == 2 then (if IsLeapYear(year) then 29 else 28)
    else if month == 4 || month == 6 || month == 9 || month == 11 then 30
    else 31
  }

  /** The full month names `%B` produces in the C locale, January first. */
  const MonthNames: seq<string> := [
    "January", "February", "March", "April", "May", "June",
    "July", "August", "September", "October", "November", "December"
  ]
}
