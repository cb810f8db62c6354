/** Age arithmetic of the contact book: dates are (year, month, day) triples and
    "today" is passed in rather than read from a clock. */
module Calendar {

  /** A calendar date. Month and day use whatever numbering the caller uses for
      both dates (the comparison below only needs the two to agree). */
  datatype Date = Date(year: int, month: int, day: int)

  /** (a.month, a.day) comes strictly before (b.month, b.day) in lexicographic order. */
  predicate MonthDayBefore(a: Date, b: Date) {
    a.month < b.month || (a.month == b.month && a.day < b.day)
  }

  /** a comes strictly before b in (year, month, day) order. */
  predicate Before(a: Date, b: Date) {
    a.year < b.year || (a.year == b.year && MonthDayBefore(a, b))
  }

  /** Whole years of age on `today` for someone born on `birth`: the year
      difference, one less while this year's birthday is still to come. */
  function CalculateAge(birth: Date, today: Date): (age: int)
    ensures age == today.year - birth.year || age == today.year - birth.year - 1
    ensures age == today.year - birth.year - 1 <==> MonthDayBefore(today, birth)
    ensures today.month == birth.month && today.day == birth.day ==> age == today.year - birth.year
    ensures !Before(today, birth) ==> age >= 0
  {
    var age := today.year - birth.year;
    var monthDifference := today.month - birth.month;
    if monthDifference < 0 || (monthDifference == 0 && today.day < birth.day) then age - 1 else age
  }

  /** The k-th birthday after birth. */
  function Anniversary(birth: Date, k: nat): Date {
    Date(birth.year + k, birth.month, birth.day)
  }

  /** How many of the birthdays 1..n have been reached by `today`: an independent
      "completed birthdays" reference for CalculateAge. */
  function BirthdaysPassed(birth: Date, today: Date, n: nat): (count: nat)
    ensures count <= n
  {
    if n == 0 then 0
    else BirthdaysPassed(birth, today, n - 1) + (if Before(today, Anniversary(birth, n)) then 0 else 1)
  }

  /** Every birthday falling in a year before today's year has been reached. */
  lemma {:induction false} EarlierBirthdaysPassed(birth: Date, today: Date, m: nat)
    requires birth.year + m < today.year
    ensures BirthdaysPassed(birth, today, m) == m
  {
    if m > 0 {
      EarlierBirthdaysPassed(birth, today, m - 1);
    }
  }

  /** Once born, the age equals the number of birthdays reached, counted over
      any horizon that reaches today's year. */
  lemma {:induction false} AgeCountsCompletedBirthdays(birth: Date, today: Date, n: nat)
    requires !Before(today, birth)
    requires n >= today.year - birth.year
    ensures CalculateAge(birth, today) == BirthdaysPassed(birth, today, n)
  {
    var years := today.year - birth.year;
    if n > years {
      assert Before(today, Anniversary(birth, n));
      AgeCountsCompletedBirthdays(birth, today, n - 1);
    } else if n > 0 {
      EarlierBirthdaysPassed(birth, today, n - 1);
      assert Before(today, Anniversary(birth, n)) <==> MonthDayBefore(today, birth);
    }
  }

  /** Growing older: a later reference date never gives a smaller age. */
  lemma AgeMonotone(birth: Date, today1: Date, today2: Date)
    requires !Before(today2, today1)
    ensures CalculateAge(birth, today1) <= CalculateAge(birth, today2)
  {
  }

  /** A worked example: born 2000-06-15, 23 the day before the 24th birthday
      and 24 on it. */
  lemma AgeExample()
    ensures CalculateAge(Date(2000, 6, 15), Date(2024, 6, 14)) == 23
    ensures CalculateAge(Date(2000, 6, 15), Date(2024, 6, 15)) == 24
  {
  }
}
