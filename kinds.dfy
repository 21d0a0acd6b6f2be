/**
 * The enumerations of the recurrence engine and the characters that stand
 * for them in a series-info token: a digit for the numeric code of an enum
 * value, and a letter ('A' + code, 'Z' for NotSet) for the parts of a
 * custom date.
 */
module Kinds {
  import opened Results

  /** How a series ends. Codes: NotDefined = -1, NoEndDate = 0, SpecificDate = 1, NumberOfOccurrences = 2. */
  datatype EndDateType = NotDefined | NoEndDate | SpecificDate | NumberOfOccurrences
  {
    function Code(): int {
      match this
      case NotDefined => -1
      case NoEndDate => 0
      case SpecificDate => 1
      case NumberOfOccurrences => 2
    }
  }

  /** The end type a token digit names (the cast `(EndDateType)code`). */
  function EndDateTypeOfCode(c: int): (r: Option<EndDateType>)
    ensures r.Some? <==> 0 <= c <= 2
    ensures r.Some? ==> r.value.Code() == c
  {
    if c == 0 then Some(NoEndDate)
    else if c == 1 then Some(SpecificDate)
    else if c == 2 then Some(NumberOfOccurrences)
    else None
  }

  datatype RecurrenceType = NotSet | Daily | Weekly | Monthly | Yearly

  datatype DailyRegenType = NotSet | OnEveryXDays | OnEveryWeekday
  {
    function Code(): int {
      match this
      case NotSet => -1
      case OnEveryXDays => 0
      case OnEveryWeekday => 1
    }
  }

  function DailyRegenTypeOfCode(c: int): (r: Option<DailyRegenType>)
    ensures r.Some? <==> 0 <= c <= 1
    ensures r.Some? ==> r.value.Code() == c
  {
    if c == 0 then Some(DailyRegenType.OnEveryXDays)
    else if c == 1 then Some(DailyRegenType.OnEveryWeekday)
    else None
  }

  datatype WeeklyRegenType = NotSet | OnEveryXWeeks
  {
    function Code(): int {
      match this
      case NotSet => -1
      case OnEveryXWeeks => 0
    }
  }

  function WeeklyRegenTypeOfCode(c: int): (r: Option<WeeklyRegenType>)
    ensures r.Some? <==> c == 0
    ensures r.Some? ==> r.value.Code() == c
  {
    if c == 0 then Some(WeeklyRegenType.OnEveryXWeeks) else None
  }

  /** SelectedDayOfWeekValues: one flag per day of the week. */
  datatype SelectedDays = SelectedDays(
    sunday: bool, monday: bool, tuesday: bool, wednesday: bool,
    thursday: bool, friday: bool, saturday: bool)
  {
    /** Whether the day with System.DayOfWeek number w is selected. */
    predicate IsSelected(w: int) {
      if w == 0 then sunday
      else if w == 1 then monday
      else if w == 2 then tuesday
      else if w == 3 then wednesday
      else if w == 4 then thursday
      else if w == 5 then friday
      else if w == 6 then saturday
      else false
    }

    predicate Any() {
      sunday || monday || tuesday || wednesday || thursday || friday || saturday
    }
  }

  datatype MonthlyRegenType = NotSet | OnSpecificDayOfMonth | OnCustomDateFormat | AfterOccurrenceCompleted
  {
    function Code(): int {
      match this
      case NotSet => -1
      case OnSpecificDayOfMonth => 0
      case OnCustomDateFormat => 1
      case AfterOccurrenceCompleted => 2
    }
  }

  function MonthlyRegenTypeOfCode(c: int): (r: Option<MonthlyRegenType>)
    ensures r.Some? <==> 0 <= c <= 2
    ensures r.Some? ==> r.value.Code() == c
  {
    if c == 0 then Some(MonthlyRegenType.OnSpecificDayOfMonth)
    else if c == 1 then Some(MonthlyRegenType.OnCustomDateFormat)
    else if c == 2 then Some(MonthlyRegenType.AfterOccurrenceCompleted)
    else None
  }

  datatype YearlyRegenType = NotSet | OnSpecificDayOfYear | OnCustomDateFormat | AfterOccurrenceCompleted
  {
    function Code(): int {
      match this
      case NotSet => -1
      case OnSpecificDayOfYear => 0
      case OnCustomDateFormat => 1
      case AfterOccurrenceCompleted => 2
    }
  }

  function YearlyRegenTypeOfCode(c: int): (r: Option<YearlyRegenType>)
    ensures r.Some? <==> 0 <= c <= 2
    ensures r.Some? ==> r.value.Code() == c
  {
    if c == 0 then Some(YearlyRegenType.OnSpecificDayOfYear)
    else if c == 1 then Some(YearlyRegenType.OnCustomDateFormat)
    else if c == 2 then Some(YearlyRegenType.AfterOccurrenceCompleted)
    else None
  }

  /**
   * The ordinal of a custom date (MonthlySpecificDatePartOne and
   * YearlySpecificDatePartOne, which are the same enumeration).
   */
  datatype DatePartOne = NotSet | First | Second | Third | Fourth | Last
  {
    function Code(): int {
      match this
      case NotSet => -1
      case First => 0
      case Second => 1
      case Third => 2
      case Fourth => 3
      case Last => 4
    }

    /** The token letter: 'Z' for NotSet, otherwise 'A' + code. */
    function Letter(): char {
      if this.NotSet? then 'Z' else (65 + Code()) as char
    }
  }

  function DatePartOneOfLetter(c: char): (r: Option<DatePartOne>)
    ensures r.Some? ==> r.value.Letter() == c
    ensures r.Some? <==> c == 'Z' || 'A' <= c <= 'E'
  {
    if c == 'Z' then Some(DatePartOne.NotSet)
    else if c == 'A' then Some(First)
    else if c == 'B' then Some(Second)
    else if c == 'C' then Some(Third)
    else if c == 'D' then Some(Fourth)
    else if c == 'E' then Some(Last)
    else None
  }

  /**
   * The kind of day a custom date counts (MonthlySpecificDatePartTwo and
   * YearlySpecificDatePartTwo): any day, a weekday, a weekend day, or one
   * named day of the week.
   */
  datatype DatePartTwo = NotSet | Day | Weekday | WeekendDay
                       | Sunday | Monday | Tuesday | Wednesday | Thursday | Friday | Saturday
  {
    function Code(): int {
      match this
      case NotSet => -1
      case Day => 0
      case Weekday => 1
      case WeekendDay => 2
      case Sunday => 3
      case Monday => 4
      case Tuesday => 5
      case Wednesday => 6
      case Thursday => 7
      case Friday => 8
      case Saturday => 9
    }

    function Letter(): char {
      if this.NotSet? then 'Z' else (65 + Code()) as char
    }
  }

  function DatePartTwoOfLetter(c: char): (r: Option<DatePartTwo>)
    ensures r.Some? ==> r.value.Letter() == c
    ensures r.Some? <==> c == 'Z' || 'A' <= c <= 'J'
  {
    if c == 'Z' then Some(DatePartTwo.NotSet)
    else if c == 'A' then Some(Day)
    else if c == 'B' then Some(Weekday)
    else if c == 'C' then Some(WeekendDay)
    else if c == 'D' then Some(DatePartTwo.Sunday)
    else if c == 'E' then Some(DatePartTwo.Monday)
    else if c == 'F' then Some(DatePartTwo.Tuesday)
    else if c == 'G' then Some(DatePartTwo.Wednesday)
    else if c == 'H' then Some(DatePartTwo.Thursday)
    else if c == 'I' then Some(DatePartTwo.Friday)
    else if c == 'J' then Some(DatePartTwo.Saturday)
    else None
  }

  type MonthNumber = m: int | 1 <= m <= 12 witness 1

  /**
   * YearlySpecificDatePartThree: the month a yearly custom date falls in,
   * whose enum value is the month number; its letter is '@' + number.
   */
  datatype MonthOfYear = NotSet | Month(number: MonthNumber)
  {
    function Letter(): char {
      match this
      case NotSet => 'Z'
      case Month(m) => (64 + m) as char
    }
  }

  function MonthOfYearOfLetter(c: char): (r: Option<MonthOfYear>)
    ensures r.Some? ==> r.value.Letter() == c
    ensures r.Some? <==> c == 'Z' || 'A' <= c <= 'L'
  {
    if c == 'Z' then Some(MonthOfYear.NotSet)
    else if 'A' <= c <= 'L' then Some(Month(c as int - 64))
    else None
  }

  // ---------------------------------------------------------------------
  // Every value's letter reads back as that value.

  lemma DatePartOneLetterRoundTrip(p: DatePartOne)
    ensures DatePartOneOfLetter(p.Letter()) == Some(p)
  {
  }

  lemma DatePartTwoLetterRoundTrip(p: DatePartTwo)
    ensures DatePartTwoOfLetter(p.Letter()) == Some(p)
  {
  }

  lemma MonthOfYearLetterRoundTrip(p: MonthOfYear)
    ensures MonthOfYearOfLetter(p.Letter()) == Some(p)
  {
  }
}
