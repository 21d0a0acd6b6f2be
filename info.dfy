/**
 * RecurrenceInfo: the decoded form of a series-info token. The decoders
 * fill in a fresh record through its internal setters and hand it out; no
 * one changes it afterwards, so the model holds it as a value and each
 * setter as a function returning the updated record.
 */
module Info {
  import opened Results
  import opened Dates
  import opened Kinds

  datatype RecurrenceInfo = RecurrenceInfo(
    endDateType: EndDateType,
    numberOfOccurrences: int,
    adjustmentValue: int,
    seriesInfo: Option<string>,
    startDate: DateTime,
    endDate: Option<DateTime>,
    recurrenceType: RecurrenceType,
    dailyRegenType: DailyRegenType,
    dailyRegenEveryXDays: int,
    weeklySelectedDays: SelectedDays,
    weeklyRegenType: WeeklyRegenType,
    weeklyRegenEveryXWeeks: int,
    monthlyRegenType: MonthlyRegenType,
    monthlySpecificDatePartOne: DatePartOne,
    monthlySpecificDatePartTwo: DatePartTwo,
    monthlyRegenerateOnSpecificDateDayValue: int,
    monthlyRegenEveryXMonths: int,
    specificDateDayValue: int,
    specificDateMonthValue: int,
    yearlyRegenType: YearlyRegenType,
    yearlySpecificDatePartOne: DatePartOne,
    yearlySpecificDatePartTwo: DatePartTwo,
    yearlySpecificDatePartThree: MonthOfYear)
  {
    predicate HasEndDate() {
      endDate.Some?
    }

    function SetEndDateType(v: EndDateType): (r: RecurrenceInfo)
      ensures r.endDateType == v && r.(endDateType := endDateType) == this
    {
      this.(endDateType := v)
    }

    function SetNumberOfOccurrences(v: int): (r: RecurrenceInfo)
      ensures r.numberOfOccurrences == v && r.(numberOfOccurrences := numberOfOccurrences) == this
    {
      this.(numberOfOccurrences := v)
    }

    function SetAdjustmentValue(v: int): (r: RecurrenceInfo)
      ensures r.adjustmentValue == v && r.(adjustmentValue := adjustmentValue) == this
    {
      this.(adjustmentValue := v)
    }

    function SetSeriesInfo(v: Option<string>): (r: RecurrenceInfo)
      ensures r.seriesInfo == v && r.(seriesInfo := seriesInfo) == this
    {
      this.(seriesInfo := v)
    }

    function SetStartDate(v: DateTime): (r: RecurrenceInfo)
      ensures r.startDate == v && r.(startDate := startDate) == this
    {
      this.(startDate := v)
    }

    function SetEndDate(v: Option<DateTime>): (r: RecurrenceInfo)
      ensures r.endDate == v && r.(endDate := endDate) == this
    {
      this.(endDate := v)
    }

    function SetRecurrenceType(v: RecurrenceType): (r: RecurrenceInfo)
      ensures r.recurrenceType == v && r.(recurrenceType := recurrenceType) == this
    {
      this.(recurrenceType := v)
    }

    function SetDailyRegenType(v: DailyRegenType): (r: RecurrenceInfo)
      ensures r.dailyRegenType == v && r.(dailyRegenType := dailyRegenType) == this
    {
      this.(dailyRegenType := v)
    }

    function SetDailyRegenEveryXDays(v: int): (r: RecurrenceInfo)
      ensures r.dailyRegenEveryXDays == v && r.(dailyRegenEveryXDays := dailyRegenEveryXDays) == this
    {
      this.(dailyRegenEveryXDays := v)
    }

    function SetSelectedDayOfWeekValues(v: SelectedDays): (r: RecurrenceInfo)
      ensures r.weeklySelectedDays == v && r.(weeklySelectedDays := weeklySelectedDays) == this
    {
      this.(weeklySelectedDays := v)
    }

    function SetWeeklyRegenType(v: WeeklyRegenType): (r: RecurrenceInfo)
      ensures r.weeklyRegenType == v && r.(weeklyRegenType := weeklyRegenType) == this
    {
      this.(weeklyRegenType := v)
    }

    function SetRegenEveryXWeeks(v: int): (r: RecurrenceInfo)
      ensures r.weeklyRegenEveryXWeeks == v && r.(weeklyRegenEveryXWeeks := weeklyRegenEveryXWeeks) == this
    {
      this.(weeklyRegenEveryXWeeks := v)
    }

    function SetMonthlyRegenType(v: MonthlyRegenType): (r: RecurrenceInfo)
      ensures r.monthlyRegenType == v && r.(monthlyRegenType := monthlyRegenType) == this
    {
      this.(monthlyRegenType := v)
    }

    function SetMonthlySpecificDatePartOne(v: DatePartOne): (r: RecurrenceInfo)
      ensures r.monthlySpecificDatePartOne == v && r.(monthlySpecificDatePartOne := monthlySpecificDatePartOne) == this
    {
      this.(monthlySpecificDatePartOne := v)
    }

    function SetMonthlySpecificDatePartTwo(v: DatePartTwo): (r: RecurrenceInfo)
      ensures r.monthlySpecificDatePartTwo == v && r.(monthlySpecificDatePartTwo := monthlySpecificDatePartTwo) == this
    {
      this.(monthlySpecificDatePartTwo := v)
    }

    function SetMonthlyRegenerateOnSpecificDateDayValue(v: int): (r: RecurrenceInfo)
      ensures r.monthlyRegenerateOnSpecificDateDayValue == v && r.(monthlyRegenerateOnSpecificDateDayValue := monthlyRegenerateOnSpecificDateDayValue) == this
    {
      this.(monthlyRegenerateOnSpecificDateDayValue := v)
    }

    function SetRegenEveryXMonths(v: int): (r: RecurrenceInfo)
      ensures r.monthlyRegenEveryXMonths == v && r.(monthlyRegenEveryXMonths := monthlyRegenEveryXMonths) == this
    {
      this.(monthlyRegenEveryXMonths := v)
    }

    function SetSpecificDateDayValue(v: int): (r: RecurrenceInfo)
      ensures r.specificDateDayValue == v && r.(specificDateDayValue := specificDateDayValue) == this
    {
      this.(specificDateDayValue := v)
    }

    function SetSpecificDateMonthValue(v: int): (r: RecurrenceInfo)
      ensures r.specificDateMonthValue == v && r.(specificDateMonthValue := specificDateMonthValue) == this
    {
      this.(specificDateMonthValue := v)
    }

    function SetYearlyRegenType(v: YearlyRegenType): (r: RecurrenceInfo)
      ensures r.yearlyRegenType == v && r.(yearlyRegenType := yearlyRegenType) == this
    {
      this.(yearlyRegenType := v)
    }

    function SetYearlySpecificDatePartOne(v: DatePartOne): (r: RecurrenceInfo)
      ensures r.yearlySpecificDatePartOne == v && r.(yearlySpecificDatePartOne := yearlySpecificDatePartOne) == this
    {
      this.(yearlySpecificDatePartOne := v)
    }

    function SetYearlySpecificDatePartTwo(v: DatePartTwo): (r: RecurrenceInfo)
      ensures r.yearlySpecificDatePartTwo == v && r.(yearlySpecificDatePartTwo := yearlySpecificDatePartTwo) == this
    {
      this.(yearlySpecificDatePartTwo := v)
    }

    function SetYearlySpecificDatePartThree(v: MonthOfYear): (r: RecurrenceInfo)
      ensures r.yearlySpecificDatePartThree == v && r.(yearlySpecificDatePartThree := yearlySpecificDatePartThree) == this
    {
      this.(yearlySpecificDatePartThree := v)
    }
  }

  /**
   * A new record: end type NotDefined, recurrence type NotSet, no end date,
   * every yearly part NotSet; fields without an initializer hold the default
   * of their type (0, or the enum value numbered 0).
   */
  function NewRecurrenceInfo(): (r: RecurrenceInfo)
    ensures r.endDateType == NotDefined && r.recurrenceType == RecurrenceType.NotSet
    ensures !r.HasEndDate() && r.numberOfOccurrences == 0
    ensures r.yearlyRegenType == YearlyRegenType.NotSet
    ensures r.yearlySpecificDatePartOne.NotSet? && r.yearlySpecificDatePartTwo.NotSet?
    ensures r.yearlySpecificDatePartThree.NotSet?
  {
    RecurrenceInfo(
      NotDefined,
      0,
      0,
      None,
      MinValue,
      None,
      RecurrenceType.NotSet,
      DailyRegenType.OnEveryXDays,
      0,
      SelectedDays(false, false, false, false, false, false, false),
      WeeklyRegenType.OnEveryXWeeks,
      0,
      MonthlyRegenType.OnSpecificDayOfMonth,
      DatePartOne.First,
      DatePartTwo.Day,
      0,
      0,
      0,
      0,
      YearlyRegenType.NotSet,
      DatePartOne.NotSet,
      DatePartTwo.NotSet,
      MonthOfYear.NotSet)
  }

  /**
   * The overrides every GetRecurrenceSettings applies to a decoded token: a
   * count other than -1 switches the rule to NumberOfOccurrences, an end
   * date other than DateTime.MinValue switches it to SpecificDate, and the
   * end date wins when both are given.
   */
  function ApplyOverrides(info: RecurrenceInfo, modifiedOccurrences: int, modifiedEnd: DateTime): (r: RecurrenceInfo)
    ensures modifiedEnd != MinValue ==> r.endDateType == SpecificDate && r.endDate == Some(modifiedEnd)
    ensures modifiedEnd == MinValue && modifiedOccurrences != -1 ==>
      r.endDateType == NumberOfOccurrences && r.numberOfOccurrences == modifiedOccurrences && r.endDate == info.endDate
    ensures modifiedEnd == MinValue && modifiedOccurrences == -1 ==> r == info
    ensures r.startDate == info.startDate && r.recurrenceType == info.recurrenceType
    ensures r.(endDateType := info.endDateType, numberOfOccurrences := info.numberOfOccurrences, endDate := info.endDate) == info
  {
    var info := if modifiedOccurrences != -1 then info.SetEndDateType(NumberOfOccurrences).SetNumberOfOccurrences(modifiedOccurrences) else info;
    if modifiedEnd != MinValue then info.SetEndDateType(SpecificDate).SetEndDate(Some(modifiedEnd)) else info
  }
}
