# Express.Recurrence in Dafny

A model of the recurrence engine of Express.Recurrence (`Express.Recurrence/Lib`). The engine turns a
recurrence rule into concrete calendar dates, writes the rule as a fixed-width "series info" token, and
reads the token back to rebuild the rule, continue a series or find its next date.

The model has one module per source file, plus a small kernel for what the source borrows from .NET:

- `Dates`: a proleptic Gregorian date kernel standing in for `System.DateTime`. It covers day numbers,
  the leap rule, day of week (1 January of year 1 is a Monday), `AddDays`, `AddMonths` with its day
  clamping, `AddYears` (29 February becomes 28 February), `MinValue` and `MaxValue`.
- `Text`: zero-padded decimal formatting, `yyyyMMdd` dates and their readers. `Text.ParseInt` reads a field as `Int32.Parse` does with `NumberStyles.Integer`: white space around an optional '+' or '-' sign and at least one digit.
- `Walks` and `Cycles`: the shapes shared by the generator loops. `Walks.Nth` is the i-th step of a walk.
  `Cycles.Emit`, `Cycles.EmitUntil` and `Cycles.EmitProbe` are the dates a count loop, an end-date loop
  and a next-date loop collect.
- `Results` and `Kinds`: error outcomes in place of exceptions, and the source's enums with their token
  digits and letters.
- `Settings` (`RecurrenceSettings`) and `Values` (`RecurrenceValues`): classes whose fields the methods
  update, as in the source.
- `Info` (`RecurrenceInfo`): the decoded-token record. It is a datatype, and each setter is a function
  returning the updated record.
- `DayRules`: the "logical" dates that the monthly and yearly generators share, such as the second
  Tuesday or the last weekend day of a month.
- `DailyRecurrence`, `WeeklyRecurrence`, `MonthlyRecurrence`, `YearlyRecurrence`: each generator has two
  layers.
  - A specification on values: the rule as a datatype, its walk (`Step`, `Origin`, `Value`), the dates
    it generates (`Generate`, `NextRun`, `NextDate`), the token codec (`Encode`, `Decode`) and the
    rebuilding from a token (`Rebuild`).
  - A class with the source's fields. Its methods run the source's loops with invariants and are proved
    to deliver exactly what the specification says.
- `RecurrenceHelper`: the static entry points. They dispatch on the token's first letter, regenerate a
  series with overrides, find its next date, and continue it after its last date
  (`GetPostRecurrenceValues`).

The generator methods return `Result` values. An `Err` stands for the exception the source would throw:
a null reference, a date out of range, a malformed token, or a custom date part left unset.

## Model

| member | source | states |
|---|---|---|
| Settings.RecurrenceSettings.FromStart | Express.Recurrence/Lib/RecurrenceSettings.cs:8-12 | a series built from a start date alone has end type NoEndDate, no end date and count 0, so HasEndDate is false |
| Settings.RecurrenceSettings.FromStartAndEnd | Express.Recurrence/Lib/RecurrenceSettings.cs:13-18 | start and end date are stored, the end type is SpecificDate and HasEndDate holds |
| Settings.RecurrenceSettings.FromStartAndCount | Express.Recurrence/Lib/RecurrenceSettings.cs:19-24 | start date and count are stored, the end type is NumberOfOccurrences and there is no end date |
| Settings.RecurrenceSettings.SetTypeOfEndDate | Express.Recurrence/Lib/RecurrenceSettings.cs:49-59 | the end type takes the new value; start, end date and count are unchanged |
| Settings.RecurrenceSettings.SetNumberOfOccurrences | Express.Recurrence/Lib/RecurrenceSettings.cs:77-87 | the count takes the new value; nothing else changes |
| Settings.RecurrenceSettings.SetEndDate | Express.Recurrence/Lib/RecurrenceSettings.cs:115-128 | the end date (possibly null) takes the new value, nothing else changes, and HasEndDate holds exactly when a date was given |
| Settings.RecurrenceSettings.SetStartDate | Express.Recurrence/Lib/RecurrenceSettings.cs:141-151 | the start date takes the new value; nothing else changes |
| Values.RecurrenceValues.constructor | Express.Recurrence/Lib/RecurrenceValues.cs:13 | a new result holds no dates, DateTime.MinValue as first and last date, and a null token |
| Values.RecurrenceValues.LastDate | Express.Recurrence/Lib/RecurrenceValues.cs:26-35 | the last generated date, or DateTime.MaxValue when no date was generated |
| Values.RecurrenceValues.AddDateValue | Express.Recurrence/Lib/RecurrenceValues.cs:41-44 | the date is appended after the existing dates, which stay as they were, and becomes LastDate |
| Values.RecurrenceValues.AddAdjustedDateValue | Express.Recurrence/Lib/RecurrenceValues.cs:51-54 | the date moved by the adjustment (which may be negative) is appended; LastDate lies exactly that many days from the given date |
| Values.RecurrenceValues.SetStartDate | Express.Recurrence/Lib/RecurrenceValues.cs:66-69 | only the first date changes |
| Values.RecurrenceValues.SetEndDate | Express.Recurrence/Lib/RecurrenceValues.cs:96-99 | only the last date changes |
| Values.RecurrenceValues.SetSeriesInfo | Express.Recurrence/Lib/RecurrenceValues.cs:81-84 | GetSeriesInfo (lines 142-145) then returns the token that was set |
| Info.RecurrenceInfo.SetDailyRegenEveryXDays | Express.Recurrence/Lib/RecurrenceInfo.cs:24-27 | the record's dailyRegenEveryXDays takes the given value and every other field keeps its value |
| Info.RecurrenceInfo.SetDailyRegenType | Express.Recurrence/Lib/RecurrenceInfo.cs:29-32 | the record's dailyRegenType takes the given value and every other field keeps its value |
| Info.RecurrenceInfo.SetRegenEveryXWeeks | Express.Recurrence/Lib/RecurrenceInfo.cs:58-61 | the record's weeklyRegenEveryXWeeks takes the given value and every other field keeps its value |
| Info.RecurrenceInfo.SetWeeklyRegenType | Express.Recurrence/Lib/RecurrenceInfo.cs:63-66 | the record's weeklyRegenType takes the given value and every other field keeps its value |
| Info.RecurrenceInfo.SetSelectedDayOfWeekValues | Express.Recurrence/Lib/RecurrenceInfo.cs:68-71 | the record's weeklySelectedDays takes the given value and every other field keeps its value |
| Info.RecurrenceInfo.SetRegenEveryXMonths | Express.Recurrence/Lib/RecurrenceInfo.cs:110-113 | the record's monthlyRegenEveryXMonths takes the given value and every other field keeps its value |
| Info.RecurrenceInfo.SetMonthlyRegenerateOnSpecificDateDayValue | Express.Recurrence/Lib/RecurrenceInfo.cs:115-118 | the record's monthlyRegenerateOnSpecificDateDayValue takes the given value and every other field keeps its value |
| Info.RecurrenceInfo.SetMonthlySpecificDatePartTwo | Express.Recurrence/Lib/RecurrenceInfo.cs:120-123 | the record's monthlySpecificDatePartTwo takes the given value and every other field keeps its value |
| Info.RecurrenceInfo.SetMonthlySpecificDatePartOne | Express.Recurrence/Lib/RecurrenceInfo.cs:125-128 | the record's monthlySpecificDatePartOne takes the given value and every other field keeps its value |
| Info.RecurrenceInfo.SetMonthlyRegenType | Express.Recurrence/Lib/RecurrenceInfo.cs:130-133 | the record's monthlyRegenType takes the given value and every other field keeps its value |
| Info.RecurrenceInfo.SetSpecificDateDayValue | Express.Recurrence/Lib/RecurrenceInfo.cs:295-298 | the record's specificDateDayValue takes the given value and every other field keeps its value |
| Info.RecurrenceInfo.SetSpecificDateMonthValue | Express.Recurrence/Lib/RecurrenceInfo.cs:300-303 | the record's specificDateMonthValue takes the given value and every other field keeps its value |
| Info.RecurrenceInfo.SetYearlyRegenType | Express.Recurrence/Lib/RecurrenceInfo.cs:305-308 | the record's yearlyRegenType takes the given value and every other field keeps its value |
| Info.RecurrenceInfo.SetYearlySpecificDatePartOne | Express.Recurrence/Lib/RecurrenceInfo.cs:310-313 | the record's yearlySpecificDatePartOne takes the given value and every other field keeps its value |
| Info.RecurrenceInfo.SetYearlySpecificDatePartTwo | Express.Recurrence/Lib/RecurrenceInfo.cs:315-318 | the record's yearlySpecificDatePartTwo takes the given value and every other field keeps its value |
| Info.RecurrenceInfo.SetYearlySpecificDatePartThree | Express.Recurrence/Lib/RecurrenceInfo.cs:320-323 | the record's yearlySpecificDatePartThree takes the given value and every other field keeps its value |
| Info.RecurrenceInfo.SetSeriesInfo | Express.Recurrence/Lib/RecurrenceInfo.cs:329-332 | the record's seriesInfo takes the given value and every other field keeps its value |
| Info.RecurrenceInfo.SetAdjustmentValue | Express.Recurrence/Lib/RecurrenceInfo.cs:334-337 | the record's adjustmentValue takes the given value and every other field keeps its value |
| Info.RecurrenceInfo.SetEndDateType | Express.Recurrence/Lib/RecurrenceInfo.cs:339-342 | the record's endDateType takes the given value and every other field keeps its value |
| Info.RecurrenceInfo.SetNumberOfOccurrences | Express.Recurrence/Lib/RecurrenceInfo.cs:344-347 | the record's numberOfOccurrences takes the given value and every other field keeps its value |
| Info.RecurrenceInfo.SetStartDate | Express.Recurrence/Lib/RecurrenceInfo.cs:349-352 | the record's startDate takes the given value and every other field keeps its value |
| Info.RecurrenceInfo.SetEndDate | Express.Recurrence/Lib/RecurrenceInfo.cs:354-357 | the record's endDate takes the given value and every other field keeps its value |
| Info.RecurrenceInfo.SetRecurrenceType | Express.Recurrence/Lib/RecurrenceInfo.cs:359-362 | the record's recurrenceType takes the given value and every other field keeps its value |
| Info.NewRecurrenceInfo | Express.Recurrence/Lib/RecurrenceInfo.cs:11-18 | a fresh record has end type NotDefined, recurrence type NotSet, no end date and count 0, and all three yearly parts NotSet |
| Info.ApplyOverrides | Express.Recurrence/Lib/DailyRecurrenceSettings.cs:301-311 | a count other than -1 switches the rule to that many occurrences, an end date other than MinValue switches it to that end date and wins over the count, neither leaves the record as it was, and no field besides the three end fields ever changes |
| Text.ParseIntAccepts | Express.Recurrence/Lib/YearlyRecurrenceSettings.cs:159-160 | a field padded with white space or signed with '+' or '-' reads as its number |
| Text.ParseIntRejects | Express.Recurrence/Lib/YearlyRecurrenceSettings.cs:159-160 | a bare sign, white space alone, white space between digits and two signs do not read |
| Text.ParseFormatInt | Express.Recurrence/Lib/YearlyRecurrenceSettings.cs:464-468 | every number written with a zero-padded format reads back as the same number, whatever its size or sign |
| Kinds.EndDateTypeOfCode | Express.Recurrence/Lib/RecurrenceSettings.cs:5 | the end-type digit of a token names a value exactly for 0, 1 and 2, and that value's number is the digit |
| Kinds.DailyRegenTypeOfCode | Express.Recurrence/Lib/DailyRecurrenceSettings.cs:9 | the daily pattern digit names a value exactly for 0 and 1, and that value's number is the digit |
| Kinds.WeeklyRegenTypeOfCode | Express.Recurrence/Lib/WeeklyRecurrenceSettings.cs:9 | the weekly pattern digit names a value exactly for 0, and that value's number is the digit |
| Kinds.MonthlyRegenTypeOfCode | Express.Recurrence/Lib/MonthlyRecurrenceSettings.cs:9 | the monthly pattern digit names a value exactly for 0, 1 and 2, and that value's number is the digit |
| Kinds.YearlyRegenTypeOfCode | Express.Recurrence/Lib/YearlyRecurrenceSettings.cs:9 | the yearly pattern digit names a value exactly for 0, 1 and 2, and that value's number is the digit |
| Kinds.DatePartOneOfLetter | Express.Recurrence/Lib/YearlyRecurrenceSettings.cs:165-168 | 'Z' reads as NotSet and 'A'..'E' as First..Last; every other letter is rejected, and a value read back writes the same letter |
| Kinds.DatePartTwoOfLetter | Express.Recurrence/Lib/YearlyRecurrenceSettings.cs:170-173 | 'Z' reads as NotSet and 'A'..'J' as Day..Saturday; every other letter is rejected, and a value read back writes the same letter |
| Kinds.MonthOfYearOfLetter | Express.Recurrence/Lib/YearlyRecurrenceSettings.cs:175-178 | 'Z' reads as NotSet and 'A'..'L' as January..December (letter minus 64); every other letter is rejected, and a value read back writes the same letter |
| Kinds.DatePartOneLetterRoundTrip | Express.Recurrence/Lib/YearlyRecurrenceSettings.cs:451-456 | the letter written for an ordinal part (position plus 65, or 'Z') reads back as the same part |
| Kinds.DatePartTwoLetterRoundTrip | Express.Recurrence/Lib/YearlyRecurrenceSettings.cs:452-459 | the letter written for a day kind reads back as the same day kind |
| Kinds.MonthOfYearLetterRoundTrip | Express.Recurrence/Lib/YearlyRecurrenceSettings.cs:453-462 | the letter written for a month (month number plus 64, or 'Z') reads back as the same month |
| DailyRecurrence.NextWeekday | Express.Recurrence/Lib/DailyRecurrenceSettings.cs:462-470 | the next weekday lies strictly after the input |
| DailyRecurrence.NextWeekdaySkipsWeekend | Express.Recurrence/Lib/DailyRecurrenceSettings.cs:462-470 | the date reached is not a Saturday or Sunday, lies at most three days on, and every day skipped on the way is a weekend day |
| DailyRecurrence.Step | Express.Recurrence/Lib/DailyRecurrenceSettings.cs:488 | for a rule that advances (every weekday, or every X days with X at least 1) the next date of the series lies strictly after the current one |
| DailyRecurrence.FirstDate | Express.Recurrence/Lib/DailyRecurrenceSettings.cs:409-412 | the series starts on the start date, or on the next weekday after it for the weekday rule; either way never before the start date and, for the weekday rule, never on a weekend |
| DailyRecurrence.Take | Express.Recurrence/Lib/DailyRecurrenceSettings.cs:502-506 | the NumberOfOccurrences loop yields exactly n dates, the i-th being the date i steps after the first |
| DailyRecurrence.NextAfter | Express.Recurrence/Lib/DailyRecurrenceSettings.cs:481-490 | the next-date search ends on a date of the series strictly after the reference date and not before the first date |
| DailyRecurrence.NextAfterInSeries | Express.Recurrence/Lib/DailyRecurrenceSettings.cs:481-490 | the date the next-date search returns is the first date of the series after the reference: every earlier date of the series lies on or before it |
| DailyRecurrence.TakeIncreasing | Express.Recurrence/Lib/DailyRecurrenceSettings.cs:502-506 | for a rule that advances, the dates counted out are strictly increasing |
| DailyRecurrence.NthIncreasing | Express.Recurrence/Lib/DailyRecurrenceSettings.cs:488 | for a rule that advances, a later step of the series always gives a later date |
| DailyRecurrence.EveryXDaysNth | Express.Recurrence/Lib/DailyRecurrenceSettings.cs:505 | under the every-X-days rule the i-th date lies exactly i times X days after the first |
| DailyRecurrence.UntilShape | Express.Recurrence/Lib/DailyRecurrenceSettings.cs:509-514 | the SpecificDate loop yields at least the first date, is a prefix of the series, keeps every later date on or before the end date and stops exactly when the next date would pass it |
| DailyRecurrence.WeekdayExample | Express.Recurrence/Lib/DailyRecurrenceSettings.cs:409-412 | three weekday occurrences from Saturday 2 March 2024 are Monday 4, Tuesday 5 and Wednesday 6 March |
| DailyRecurrence.EveryXDaysNextExample | Express.Recurrence/Lib/DailyRecurrenceSettings.cs:481-490 | every three days from 1 January 2024, the next date after 7 January is 10 January |
| DailyRecurrence.Encode | Express.Recurrence/Lib/DailyRecurrenceSettings.cs:366-399 | a daily token starts with 'D' and, for a rule whose fields fit their widths, is 26 characters long |
| DailyRecurrence.EncodeFields | Express.Recurrence/Lib/DailyRecurrenceSettings.cs:395-397 | the token carries the start date at 1-8, the end date at 9-16, the count at 17-20, the pattern digit at 21, the end-type digit at 22 and X at 23-25 |
| DailyRecurrence.Decode | Express.Recurrence/Lib/DailyRecurrenceSettings.cs:80-163 | a token that decodes to a record gives a record of recurrence type Daily that keeps the token itself |
| DailyRecurrence.DecodeFields | Express.Recurrence/Lib/DailyRecurrenceSettings.cs:105-160 | a token whose fields parse to a rule's values decodes to a record holding exactly that rule |
| DailyRecurrence.DecodeEncode | Express.Recurrence/Lib/DailyRecurrenceSettings.cs:80-163 | decoding the token of any encodable rule gives back that rule's start date, end condition, pattern and interval |
| DailyRecurrence.Rebuild | Express.Recurrence/Lib/DailyRecurrenceSettings.cs:295-347 | the rule rebuilt from a token is the decoded record with the overrides applied, or the decoding error; it always has a pattern set (every weekday unless the token asks for every X days) |
| DailyRecurrence.RebuildInfo | Express.Recurrence/Lib/DailyRecurrenceSettings.cs:295-347 | rebuilding from a decoded record applies the overrides: the given start date or the token's own, the overriding end date, else the overriding count, else the original end condition, and the same stepping |
| DailyRecurrence.RebuildEncode | Express.Recurrence/Lib/DailyRecurrenceSettings.cs:295-355 | rebuilding from any encodable rule's token succeeds and restores the rule, with the overrides applied |
| DailyRecurrence.TokenReproduces | Express.Recurrence/Lib/DailyRecurrenceSettings.cs:295-355 | the settings rebuilt from a rule's token, without overrides, generate the same dates and find the same next date as the rule itself |
| DailyRecurrence.DailyRecurrenceSettings.FromStart | Express.Recurrence/Lib/DailyRecurrenceSettings.cs:19 | a new daily generator without an end date; every weekday, X = 1, in bulk mode |
| DailyRecurrence.DailyRecurrenceSettings.FromStartAndEnd | Express.Recurrence/Lib/DailyRecurrenceSettings.cs:25 | a new daily generator ending on the given date |
| DailyRecurrence.DailyRecurrenceSettings.FromStartAndCount | Express.Recurrence/Lib/DailyRecurrenceSettings.cs:31 | a new daily generator for the given number of occurrences |
| DailyRecurrence.DailyRecurrenceSettings.GetNextWeekday | Express.Recurrence/Lib/DailyRecurrenceSettings.cs:462-470 | the do-while loop returns NextWeekday of its input |
| DailyRecurrence.DailyRecurrenceSettings.SetValues | Express.Recurrence/Lib/DailyRecurrenceSettings.cs:251-255 | the generator switches to every X days with the given X |
| DailyRecurrence.DailyRecurrenceSettings.FindNextDate | Express.Recurrence/Lib/DailyRecurrenceSettings.cs:414-423 | the probing loop leaves in finalNextDateValue the first date of the series after the reference date |
| DailyRecurrence.DailyRecurrenceSettings.CollectCount | Express.Recurrence/Lib/DailyRecurrenceSettings.cs:500-507 | the count loop fills a fresh container with exactly the first n dates of the series (none for a count of 0 or less) |
| DailyRecurrence.DailyRecurrenceSettings.CollectUntil | Express.Recurrence/Lib/DailyRecurrenceSettings.cs:509-515 | the end-date loop fills a fresh container with the first date and every later date of the series on or before the end date |
| DailyRecurrence.DailyRecurrenceSettings.Collect | Express.Recurrence/Lib/DailyRecurrenceSettings.cs:494-520 | bulk generation yields the dates Generate specifies, or throws for NoEndDate and for an unset end type |
| DailyRecurrence.DailyRecurrenceSettings.GetEveryXDaysValues | Express.Recurrence/Lib/DailyRecurrenceSettings.cs:476-522 | in next-date mode it returns null and records the next date after the reference; otherwise it returns the generated dates or the exception, leaving the next date untouched |
| DailyRecurrence.DailyRecurrenceSettings.GetEveryWeekday | Express.Recurrence/Lib/DailyRecurrenceSettings.cs:406-455 | as GetEveryXDaysValues, for the every-weekday rule |
| DailyRecurrence.DailyRecurrenceSettings.RunGenerator | Express.Recurrence/Lib/DailyRecurrenceSettings.cs:199-209 | dispatches on the pattern; no pattern gives null and changes nothing |
| DailyRecurrence.DailyRecurrenceSettings.SetSummary | Express.Recurrence/Lib/DailyRecurrenceSettings.cs:212-225 | the first date becomes the start date, the last the end date unless the rule is open-ended, and the token is the rule's encoding |
| DailyRecurrence.DailyRecurrenceSettings.GetRecurrenceValues | Express.Recurrence/Lib/DailyRecurrenceSettings.cs:196-229 | the result is the generated dates with the first as start date, the last as end date unless open-ended, and the token; or the exception; in next-date mode null and the next date |
| DailyRecurrence.DailyRecurrenceSettings.GetValues | Express.Recurrence/Lib/DailyRecurrenceSettings.cs:171-174 | same as GetRecurrenceValues |
| DailyRecurrence.DailyRecurrenceSettings.GetValuesEvery | Express.Recurrence/Lib/DailyRecurrenceSettings.cs:48-53 | sets every X days with the given X, then delivers that rule's dates |
| DailyRecurrence.DailyRecurrenceSettings.GetValuesOfType | Express.Recurrence/Lib/DailyRecurrenceSettings.cs:71-76 | sets the given pattern and X, then delivers that rule's dates |
| DailyRecurrence.DailyRecurrenceSettings.GetValuesBetween | Express.Recurrence/Lib/DailyRecurrenceSettings.cs:175-183 | the start date, end date and end type SpecificDate are stored, then that rule's dates are delivered |
| DailyRecurrence.DailyRecurrenceSettings.GetValuesFrom | Express.Recurrence/Lib/DailyRecurrenceSettings.cs:184-194 | the start date, count and end type NumberOfOccurrences are stored, then that rule's dates are delivered |
| DailyRecurrence.DailyRecurrenceSettings.GetNextDate | Express.Recurrence/Lib/DailyRecurrenceSettings.cs:257-264 | switches to next-date mode and returns the first date of the series after the given date |
| DailyRecurrence.DailyRecurrenceSettings.FromInfo | Express.Recurrence/Lib/DailyRecurrenceSettings.cs:313-346 | builds the generator the record's end type calls for and sets its pattern, a missing end date or an every-X-days rule on a null object fails with a null reference, and an unset end type otherwise gives null |
| DailyRecurrence.DailyRecurrenceSettings.GetRecurrenceSettings | Express.Recurrence/Lib/DailyRecurrenceSettings.cs:295-347 | returns a fresh generator whose rule is what Rebuild says the token and overrides give, or the same error |
| DayRules.CorrectedDate | Express.Recurrence/Lib/MonthlyRecurrenceSettings.cs:186-202 | GetCorrectedDate keeps the year and month and moves the day up to the target day, or to the month's last day when the month is shorter; a day already past the target stays |
| DayRules.CorrectedDateClamps | Express.Recurrence/Lib/MonthlyRecurrenceSettings.cs:186-202 | from a day on or before the target, the corrected day is the target or the last day of the month, whichever comes first |
| DayRules.CustomDate | Express.Recurrence/Lib/MonthlyRecurrenceSettings.cs:291-408 | the custom date of a month lies in that month |
| DayRules.CustomDateMatches | Express.Recurrence/Lib/MonthlyRecurrenceSettings.cs:291-408 | the custom date is a day of the requested kind; for First..Fourth exactly that many such days precede it, one fewer than its position, and for Last no later day of the month is of that kind |
| DayRules.CustomDateFlags | Express.Recurrence/Lib/MonthlyRecurrenceSettings.cs:291-408 | the custom date is a day of the requested kind that is the n-th such day for First..Fourth, or the last one for Last |
| DayRules.CustomDayOfDay | Express.Recurrence/Lib/MonthlyRecurrenceSettings.cs:301-309 | for the part 'Day' the custom date is day n of the month for the n-th, or the month's last day for Last |
| DayRules.AtLeastFourMatches | Express.Recurrence/Lib/MonthlyRecurrenceSettings.cs:311-405 | every month has at least four days of each kind (day, weekday, weekend day, each day of the week), so First..Fourth always exist |
| DayRules.CustomDateIsScan | Express.Recurrence/Lib/MonthlyRecurrenceSettings.cs:311-405 | the custom date is the day the day-by-day scan of the month stops on |
| DayRules.IsCountedDay | Express.Recurrence/Lib/MonthlyRecurrenceSettings.cs:317 | the day test of the scanning loops says whether the date is of the requested kind |
| DayRules.CustomDayOfMonth | Express.Recurrence/Lib/MonthlyRecurrenceSettings.cs:291-408 | GetCustomDate's loops return exactly the custom date of the month |
| DayRules.CustomWeekday | Express.Recurrence/Lib/MonthlyRecurrenceSettings.cs:410-448 | the scanning loop returns the n-th day of the requested kind, or the last one for Last |
| WeeklyRecurrence.GapSpec | Express.Recurrence/Lib/WeeklyRecurrenceSettings.cs:484-527 | the number of days GetNextDay advances before the interval jump lands on a selected day, and every day it passes before that is unselected |
| WeeklyRecurrence.NextSelectedDay | Express.Recurrence/Lib/WeeklyRecurrenceSettings.cs:477-529 | the next day GetNextDay returns lies strictly after its input |
| WeeklyRecurrence.NextSelectedDaySpec | Express.Recurrence/Lib/WeeklyRecurrenceSettings.cs:477-529 | GetNextDay returns a selected day, reached by advancing to the next selected weekday plus X - 1 weeks whenever it passes an unselected Saturday; the days passed over are unselected |
| WeeklyRecurrence.NextSelectedDayDistance | Express.Recurrence/Lib/WeeklyRecurrenceSettings.cs:484-527 | the distance GetNextDay covers is the gap to the next selected weekday plus 7(X - 1) days when an unselected Saturday lies in between |
| WeeklyRecurrence.SkippedUnselected | Express.Recurrence/Lib/WeeklyRecurrenceSettings.cs:484-527 | no day strictly between the input and the next selected weekday is selected |
| WeeklyRecurrence.SaturdaySelectedIgnoresInterval | Express.Recurrence/Lib/WeeklyRecurrenceSettings.cs:513-524 | when Saturday is selected, GetNextDay never skips weeks, so every X weeks behaves as every week |
| WeeklyRecurrence.SingleDayEveryXWeeks | Express.Recurrence/Lib/WeeklyRecurrenceSettings.cs:477-529 | with a single selected day other than Saturday, the next occurrence is exactly X weeks later |
| WeeklyRecurrence.StepAdvances | Express.Recurrence/Lib/WeeklyRecurrenceSettings.cs:477-529 | with at least one selected day, each step of the walk moves strictly forward |
| WeeklyRecurrence.GenerateShape | Express.Recurrence/Lib/WeeklyRecurrenceSettings.cs:426-475 | bulk generation succeeds exactly for the count and end-date rules; the dates are strictly increasing, on or after the start date and on selected days; a count rule gives that many, an end-date rule none past the end date |
| WeeklyRecurrence.WalkShape | Express.Recurrence/Lib/WeeklyRecurrenceSettings.cs:426-475 | the dates the walk visits from any date are strictly increasing, after that date, and on selected days |
| WeeklyRecurrence.StepOnSelectedDay | Express.Recurrence/Lib/WeeklyRecurrenceSettings.cs:477-529 | every date GetNextDay returns is on a selected day |
| WeeklyRecurrence.NextDateFinds | Express.Recurrence/Lib/WeeklyRecurrenceSettings.cs:280-287 | for an interval X of at least -1, GetNextDate returns the first date of the walk after the reference date; for a rule without an end date it returns DateTime.MinValue, because the end date of the run is never set |
| WeeklyRecurrence.NextDateBelowLimit | Express.Recurrence/Lib/WeeklyRecurrenceSettings.cs:432-439 | for an interval X below -1 the limit X + 1 weeks past the reference date lies before it, and GetNextDate returns the first date of the walk past that limit, not the first past the reference date |
| WeeklyRecurrence.EveryOtherWeekExample | Express.Recurrence/Lib/WeeklyRecurrenceSettings.cs:426-475 | Tuesdays and Thursdays every 2 weeks from 1 January 2024, four occurrences: 2, 4, 16 and 18 January |
| WeeklyRecurrence.DayFlags | Express.Recurrence/Lib/WeeklyRecurrenceSettings.cs:392-398 | the selected-day flags take seven characters, Sunday first |
| WeeklyRecurrence.FlagsOf | Express.Recurrence/Lib/WeeklyRecurrenceSettings.cs:116-122 | a day is selected when its character is 'Y'; writing the flags read back reproduces the seven characters exactly when each is 'Y' or 'N' |
| WeeklyRecurrence.Encode | Express.Recurrence/Lib/WeeklyRecurrenceSettings.cs:384-424 | a weekly token starts with 'W' and, for a rule whose fields fit their widths, is 33 characters long |
| WeeklyRecurrence.EncodeFields | Express.Recurrence/Lib/WeeklyRecurrenceSettings.cs:420-422 | the token carries start date, end date, count, pattern digit, end-type digit, the seven day flags at 23-29 and X at 30-32 |
| WeeklyRecurrence.Decode | Express.Recurrence/Lib/WeeklyRecurrenceSettings.cs:71-170 | a token that decodes to a record gives a record of recurrence type Weekly that keeps the token itself |
| WeeklyRecurrence.DecodeFields | Express.Recurrence/Lib/WeeklyRecurrenceSettings.cs:103-165 | a token whose fields parse to a rule's values decodes to a record holding exactly that rule |
| WeeklyRecurrence.DecodeEncode | Express.Recurrence/Lib/WeeklyRecurrenceSettings.cs:71-170 | decoding the token of any encodable rule gives back its start date, end condition, selected days and interval |
| WeeklyRecurrence.RebuildInfo | Express.Recurrence/Lib/WeeklyRecurrenceSettings.cs:316-366 | rebuilding from a decoded record applies the overrides: the given start date or the token's own, the overriding end date, else the overriding count, else the original end condition |
| WeeklyRecurrence.RebuildEncode | Express.Recurrence/Lib/WeeklyRecurrenceSettings.cs:316-373 | rebuilding from any encodable rule's token succeeds and restores the rule with the overrides applied |
| WeeklyRecurrence.TokenReproduces | Express.Recurrence/Lib/WeeklyRecurrenceSettings.cs:289-292 | without overrides, the generator rebuilt from a rule's token has exactly that rule |
| WeeklyRecurrence.WeeklyRecurrenceSettings.FromStart | Express.Recurrence/Lib/WeeklyRecurrenceSettings.cs:32 | a new weekly generator without an end date, in bulk mode |
| WeeklyRecurrence.WeeklyRecurrenceSettings.FromStartAndEnd | Express.Recurrence/Lib/WeeklyRecurrenceSettings.cs:38 | a new weekly generator ending on the given date |
| WeeklyRecurrence.WeeklyRecurrenceSettings.FromStartAndCount | Express.Recurrence/Lib/WeeklyRecurrenceSettings.cs:44 | a new weekly generator for the given number of occurrences |
| WeeklyRecurrence.WeeklyRecurrenceSettings.SetValues | Express.Recurrence/Lib/WeeklyRecurrenceSettings.cs:262-267 | the generator switches to every X weeks on the given days |
| WeeklyRecurrence.WeeklyRecurrenceSettings.GetNextDay | Express.Recurrence/Lib/WeeklyRecurrenceSettings.cs:477-529 | the do-while loop returns the next selected day as NextSelectedDay defines it |
| WeeklyRecurrence.WeeklyRecurrenceSettings.CollectNext | Express.Recurrence/Lib/WeeklyRecurrenceSettings.cs:431-440 | the next-date loop collects the walk up to the first date past the reference, or past X + 1 weeks after it |
| WeeklyRecurrence.WeeklyRecurrenceSettings.ProbeLoop | Express.Recurrence/Lib/WeeklyRecurrenceSettings.cs:433-439 | the probing loop collects exactly the walk Walks.Probe describes |
| WeeklyRecurrence.WeeklyRecurrenceSettings.CollectCount | Express.Recurrence/Lib/WeeklyRecurrenceSettings.cs:448-455 | the count loop collects the first n dates of the walk from the day before the start date (none for a count of 0 or less) |
| WeeklyRecurrence.WeeklyRecurrenceSettings.CollectUntil | Express.Recurrence/Lib/WeeklyRecurrenceSettings.cs:457-467 | the end-date loop collects the dates of the walk up to and including the end date |
| WeeklyRecurrence.WeeklyRecurrenceSettings.GetEveryXWeeksValues | Express.Recurrence/Lib/WeeklyRecurrenceSettings.cs:426-475 | returns the next-date run or the bulk dates as Outcome specifies, or the exception for NoEndDate and an unset end type |
| WeeklyRecurrence.WeeklyRecurrenceSettings.RunGenerator | Express.Recurrence/Lib/WeeklyRecurrenceSettings.cs:207-214 | dispatches on the pattern; an unset pattern is a null reference |
| WeeklyRecurrence.WeeklyRecurrenceSettings.SetSummary | Express.Recurrence/Lib/WeeklyRecurrenceSettings.cs:215-225 | the first date becomes the start date, the last the end date unless open-ended, and the token is the rule's encoding |
| WeeklyRecurrence.WeeklyRecurrenceSettings.GetRecurrenceValues | Express.Recurrence/Lib/WeeklyRecurrenceSettings.cs:205-228 | the run's dates with the first as start date, the last as end date unless open-ended, and the token; or the exception |
| WeeklyRecurrence.WeeklyRecurrenceSettings.GetValues | Express.Recurrence/Lib/WeeklyRecurrenceSettings.cs:181-184 | same as GetRecurrenceValues |
| WeeklyRecurrence.WeeklyRecurrenceSettings.GetValuesEvery | Express.Recurrence/Lib/WeeklyRecurrenceSettings.cs:62-68 | sets every X weeks on the given days, then delivers that rule's dates |
| WeeklyRecurrence.WeeklyRecurrenceSettings.GetValuesBetween | Express.Recurrence/Lib/WeeklyRecurrenceSettings.cs:185-193 | the start date, end date and end type SpecificDate are stored, then that rule's dates are delivered |
| WeeklyRecurrence.WeeklyRecurrenceSettings.GetValuesFrom | Express.Recurrence/Lib/WeeklyRecurrenceSettings.cs:195-204 | the start date, count and end type NumberOfOccurrences are stored, then that rule's dates are delivered |
| WeeklyRecurrence.WeeklyRecurrenceSettings.GetNextDate | Express.Recurrence/Lib/WeeklyRecurrenceSettings.cs:280-287 | switches to next-date mode and returns NextDate: the last date of the probing run, or DateTime.MinValue when open-ended |
| WeeklyRecurrence.WeeklyRecurrenceSettings.FromInfo | Express.Recurrence/Lib/WeeklyRecurrenceSettings.cs:336-364 | builds the generator the record's end type calls for and sets its days and interval; a missing end date or an every-X-weeks rule on a null object fails with a null reference |
| WeeklyRecurrence.WeeklyRecurrenceSettings.GetRecurrenceSettings | Express.Recurrence/Lib/WeeklyRecurrenceSettings.cs:316-366 | returns a fresh generator whose rule is what Rebuild says the token and overrides give, or the same error |
| MonthlyRecurrence.FirstAnchor | Express.Recurrence/Lib/MonthlyRecurrenceSettings.cs:116-132 | the first fixed-day date exists exactly for a target day of 1 or more (new DateTime throws otherwise) |
| MonthlyRecurrence.FirstAnchorSpec | Express.Recurrence/Lib/MonthlyRecurrenceSettings.cs:116-132 | the first fixed-day date is on or after the start date, falls on the target day clamped to the month's length, and lies in the start month or, when that day has passed, the next month |
| MonthlyRecurrence.CustomOf | Express.Recurrence/Lib/MonthlyRecurrenceSettings.cs:291-408 | the custom date of a date's month lies in that month |
| MonthlyRecurrence.Resolve | Express.Recurrence/Lib/MonthlyRecurrenceSettings.cs:223-230 | the custom date the loop settles on lies in the anchor's month or the next, and is the custom date of its own month |
| MonthlyRecurrence.FirstCustomDate | Express.Recurrence/Lib/MonthlyRecurrenceSettings.cs:223-230 | the first custom date is on or after the start date, in the start month unless that month's custom date has already passed |
| MonthlyRecurrence.StepMonth | Express.Recurrence/Lib/MonthlyRecurrenceSettings.cs:143-144 | a fixed-day step moves X months on; a custom-date step moves X months on from the month the anchor resolved to |
| MonthlyRecurrence.StepAdvances | Express.Recurrence/Lib/MonthlyRecurrenceSettings.cs:143-144 | for a runnable rule with X at least 1, each step moves strictly forward |
| MonthlyRecurrence.FixedAnchors | Express.Recurrence/Lib/MonthlyRecurrenceSettings.cs:156-161 | the i-th fixed-day anchor lies i times X months after the first and always on the target day clamped to its month |
| MonthlyRecurrence.FixedSeriesIncreasing | Express.Recurrence/Lib/MonthlyRecurrenceSettings.cs:156-161 | the fixed-day dates, adjustment applied, are strictly increasing and none of the anchors is before the start date |
| MonthlyRecurrence.CustomAnchors | Express.Recurrence/Lib/MonthlyRecurrenceSettings.cs:247-259 | the i-th custom date lies i times X months after the first |
| MonthlyRecurrence.CustomSeriesIncreasing | Express.Recurrence/Lib/MonthlyRecurrenceSettings.cs:247-259 | with both parts set and X at least 1 the custom dates, adjustment applied, are strictly increasing |
| MonthlyRecurrence.GenerateShape | Express.Recurrence/Lib/MonthlyRecurrenceSettings.cs:113-179 | bulk generation succeeds exactly for the count and end-date rules; a count rule gives that many dates, an end-date rule stops at the first anchor past the end date, and every date is an anchor moved by the adjustment |
| MonthlyRecurrence.NextDateFinds | Express.Recurrence/Lib/MonthlyRecurrenceSettings.cs:783-790 | with a non-negative adjustment GetNextDate returns the first adjusted date after the reference, every earlier one being on or before it; for a rule without an end date it returns DateTime.MinValue |
| MonthlyRecurrence.NoCutAll | Express.Recurrence/Lib/MonthlyRecurrenceSettings.cs:145 | with a non-negative adjustment, the probing loop's limit of X + 1 months never cuts the walk before a date past the reference |
| MonthlyRecurrence.Encode | Express.Recurrence/Lib/MonthlyRecurrenceSettings.cs:61-106 | a monthly token starts with 'M' and, for a rule whose fields fit their widths, is 33 characters long |
| MonthlyRecurrence.EncodeFields | Express.Recurrence/Lib/MonthlyRecurrenceSettings.cs:61-104 | the token carries start date, end date, count, pattern digit, end-type digit, the day at 23-24, the two part letters at 25 and 26, the signed adjustment at 27-29 and X at 30-32 |
| MonthlyRecurrence.Decode | Express.Recurrence/Lib/MonthlyRecurrenceSettings.cs:462-570 | a token that decodes to a record gives a record of recurrence type Monthly that keeps the token itself |
| MonthlyRecurrence.DecodeFields | Express.Recurrence/Lib/MonthlyRecurrenceSettings.cs:488-566 | a token whose fields parse to a rule's values decodes to a record holding exactly that rule |
| MonthlyRecurrence.DecodeEncode | Express.Recurrence/Lib/MonthlyRecurrenceSettings.cs:462-570 | decoding the token of any encodable rule gives back its start date, end condition, day, parts, adjustment and interval |
| MonthlyRecurrence.RebuildInfo | Express.Recurrence/Lib/MonthlyRecurrenceSettings.cs:820-875 | rebuilding from a decoded record applies the overrides and the adjustment: the given start date or the token's own, the overriding end date, else the overriding count, else the original end condition |
| MonthlyRecurrence.RebuildEncode | Express.Recurrence/Lib/MonthlyRecurrenceSettings.cs:820-888 | rebuilding from any encodable rule's token succeeds and restores the rule with the overrides applied |
| MonthlyRecurrence.TokenReproduces | Express.Recurrence/Lib/MonthlyRecurrenceSettings.cs:792-795 | without overrides, the generator rebuilt from a rule's token has exactly that rule |
| MonthlyRecurrence.OutcomeOfRun | Express.Recurrence/Lib/MonthlyRecurrenceSettings.cs:708-725 | a runnable rule's dates are the next-date run in next-date mode and the bulk dates otherwise |
| MonthlyRecurrence.MonthlyRecurrenceSettings.FromStart | Express.Recurrence/Lib/MonthlyRecurrenceSettings.cs:28 | a new monthly generator without an end date, in bulk mode |
| MonthlyRecurrence.MonthlyRecurrenceSettings.FromStartAndEnd | Express.Recurrence/Lib/MonthlyRecurrenceSettings.cs:34 | a new monthly generator ending on the given date |
| MonthlyRecurrence.MonthlyRecurrenceSettings.FromStartAndCount | Express.Recurrence/Lib/MonthlyRecurrenceSettings.cs:40 | a new monthly generator for the given number of occurrences |
| MonthlyRecurrence.MonthlyRecurrenceSettings.SetValuesCustom | Express.Recurrence/Lib/MonthlyRecurrenceSettings.cs:767-773 | the generator switches to the custom date with the given parts every X months |
| MonthlyRecurrence.MonthlyRecurrenceSettings.SetValuesDay | Express.Recurrence/Lib/MonthlyRecurrenceSettings.cs:775-780 | the generator switches to the given day every X months |
| MonthlyRecurrence.MonthlyRecurrenceSettings.SetAdjustmentValue | Express.Recurrence/Lib/MonthlyRecurrenceSettings.cs:658-661 | the adjustment takes the given value |
| MonthlyRecurrence.MonthlyRecurrenceSettings.GetCorrectedDate | Express.Recurrence/Lib/MonthlyRecurrenceSettings.cs:186-202 | returns CorrectedDate of its input for the generator's target day |
| MonthlyRecurrence.MonthlyRecurrenceSettings.GetCustomDate | Express.Recurrence/Lib/MonthlyRecurrenceSettings.cs:291-408 | returns the custom date of the input's month |
| MonthlyRecurrence.MonthlyRecurrenceSettings.ResolveCustomDate | Express.Recurrence/Lib/MonthlyRecurrenceSettings.cs:223-230 | returns the custom date the loops settle on from an anchor |
| MonthlyRecurrence.MonthlyRecurrenceSettings.FirstSpecificDate | Express.Recurrence/Lib/MonthlyRecurrenceSettings.cs:116-132 | returns the first fixed-day anchor, or the error new DateTime throws for a day below 1 |
| MonthlyRecurrence.MonthlyRecurrenceSettings.NextLoop | Express.Recurrence/Lib/MonthlyRecurrenceSettings.cs:137-145 | the next-date loop collects the adjusted dates up to the first past the reference, or until the anchor passes X + 1 months after it |
| MonthlyRecurrence.MonthlyRecurrenceSettings.CountLoop | Express.Recurrence/Lib/MonthlyRecurrenceSettings.cs:154-162 | the count loop collects the first n adjusted dates (none for a count of 0 or less) |
| MonthlyRecurrence.MonthlyRecurrenceSettings.UntilLoop | Express.Recurrence/Lib/MonthlyRecurrenceSettings.cs:164-171 | the end-date loop collects adjusted dates while the next anchor stays on or before the end date |
| MonthlyRecurrence.MonthlyRecurrenceSettings.GetSpecificDayOfMonthDates | Express.Recurrence/Lib/MonthlyRecurrenceSettings.cs:113-179 | returns the fixed-day dates as Outcome specifies, or the exception |
| MonthlyRecurrence.MonthlyRecurrenceSettings.GetCustomDayOfMonthDates | Express.Recurrence/Lib/MonthlyRecurrenceSettings.cs:208-284 | returns the custom dates as Outcome specifies; an unset part throws before any date is made |
| MonthlyRecurrence.MonthlyRecurrenceSettings.RunGenerator | Express.Recurrence/Lib/MonthlyRecurrenceSettings.cs:710-725 | dispatches on the pattern; AfterOccurrenceCompleted and NotSet leave the list null, a null reference once it is read |
| MonthlyRecurrence.MonthlyRecurrenceSettings.SetSummary | Express.Recurrence/Lib/MonthlyRecurrenceSettings.cs:726-737 | the first date becomes the start date, the last the end date unless open-ended, and the token is the rule's encoding |
| MonthlyRecurrence.MonthlyRecurrenceSettings.GetRecurrenceValues | Express.Recurrence/Lib/MonthlyRecurrenceSettings.cs:708-740 | the run's dates with the first as start date, the last as end date unless open-ended, and the token; or the exception |
| MonthlyRecurrence.MonthlyRecurrenceSettings.GetValues | Express.Recurrence/Lib/MonthlyRecurrenceSettings.cs:683-686 | same as GetRecurrenceValues |
| MonthlyRecurrence.MonthlyRecurrenceSettings.GetValuesCustom | Express.Recurrence/Lib/MonthlyRecurrenceSettings.cs:580-587 | sets the custom date with the given parts every X months, then delivers that rule's dates |
| MonthlyRecurrence.MonthlyRecurrenceSettings.GetValuesDay | Express.Recurrence/Lib/MonthlyRecurrenceSettings.cs:595-601 | sets the given day every X months, then delivers that rule's dates |
| MonthlyRecurrence.MonthlyRecurrenceSettings.GetValuesBetween | Express.Recurrence/Lib/MonthlyRecurrenceSettings.cs:687-696 | the start date, end date and end type SpecificDate are stored, then that rule's dates are delivered |
| MonthlyRecurrence.MonthlyRecurrenceSettings.GetValuesFrom | Express.Recurrence/Lib/MonthlyRecurrenceSettings.cs:697-707 | the start date, count and end type NumberOfOccurrences are stored, then that rule's dates are delivered |
| MonthlyRecurrence.MonthlyRecurrenceSettings.GetNextDate | Express.Recurrence/Lib/MonthlyRecurrenceSettings.cs:783-790 | switches to next-date mode and returns NextDate: the last date of the probing run, or DateTime.MinValue when open-ended |
| MonthlyRecurrence.MonthlyRecurrenceSettings.FromInfo | Express.Recurrence/Lib/MonthlyRecurrenceSettings.cs:841-874 | builds the generator the record's end type calls for, sets the adjustment and the pattern; an unset end type or a missing end date fails with a null reference |
| MonthlyRecurrence.MonthlyRecurrenceSettings.GetRecurrenceSettings | Express.Recurrence/Lib/MonthlyRecurrenceSettings.cs:820-875 | returns a fresh generator whose rule is what Rebuild says the token and overrides give, or the same error |
| YearlyRecurrence.FirstAnchor | Express.Recurrence/Lib/YearlyRecurrenceSettings.cs:501-517 | the first fixed date exists exactly for a month from 1 to 12 and a day of 1 or more (new DateTime throws otherwise) |
| YearlyRecurrence.FirstAnchorSpec | Express.Recurrence/Lib/YearlyRecurrenceSettings.cs:501-517 | the first fixed date is on or after the start date, in the target month, on the target day clamped to the month's length in the start year, in the start year or, when that date has passed, the next |
| YearlyRecurrence.FixedCount | Express.Recurrence/Lib/YearlyRecurrenceSettings.cs:538-541 | the count loop yields exactly n dates |
| YearlyRecurrence.FixedCountAt | Express.Recurrence/Lib/YearlyRecurrenceSettings.cs:538-541 | the i-th date of the count loop is the first date i years on, corrected to the target day, moved by the adjustment |
| YearlyRecurrence.FixedCountDates | Express.Recurrence/Lib/YearlyRecurrenceSettings.cs:537-542 | a count rule yields as many dates as its count, the i-th on the target day (clamped to its month) i years after the first year, moved by the adjustment |
| YearlyRecurrence.FixedCountIncreasing | Express.Recurrence/Lib/YearlyRecurrenceSettings.cs:538-541 | the count loop's dates are strictly increasing |
| YearlyRecurrence.ResolveYear | Express.Recurrence/Lib/YearlyRecurrenceSettings.cs:605-612 | the custom date the loop settles on for a year is in the target month, in that year or the next, and is that month's custom date |
| YearlyRecurrence.StepYear | Express.Recurrence/Lib/YearlyRecurrenceSettings.cs:526-527 | a fixed-day step moves one year on in the same month; a custom-date step lands in the target month one or two years on |
| YearlyRecurrence.StepAdvances | Express.Recurrence/Lib/YearlyRecurrenceSettings.cs:526-527 | for a runnable rule each step moves strictly forward |
| YearlyRecurrence.FixedAnchors | Express.Recurrence/Lib/YearlyRecurrenceSettings.cs:544-550 | the i-th fixed anchor lies i years after the first, in the target month, never past the target day, and on the clamped target day from the second on |
| YearlyRecurrence.FixedSeriesIncreasing | Express.Recurrence/Lib/YearlyRecurrenceSettings.cs:544-550 | the fixed-day dates, adjustment applied, are strictly increasing and none of the anchors is before the start date |
| YearlyRecurrence.YearDate | Express.Recurrence/Lib/YearlyRecurrenceSettings.cs:671-680 | the k-th custom date lies k years after the first custom year, in the target month |
| YearlyRecurrence.CustomAnchors | Express.Recurrence/Lib/YearlyRecurrenceSettings.cs:643-655 | the walk of the custom-date loops visits exactly the custom date of each year in turn, never before the start date |
| YearlyRecurrence.CustomDates | Express.Recurrence/Lib/YearlyRecurrenceSettings.cs:626-639 | the k-th custom date collected is the k-th year's custom date moved by the adjustment |
| YearlyRecurrence.CustomUntilDates | Express.Recurrence/Lib/YearlyRecurrenceSettings.cs:642-656 | the end-date loop adds custom dates up to and including the first one past the end date, since it tests the end date after adding |
| YearlyRecurrence.SeriesIncreasing | Express.Recurrence/Lib/YearlyRecurrenceSettings.cs:498-664 | the generated dates of a runnable rule are strictly increasing |
| YearlyRecurrence.GenerateShape | Express.Recurrence/Lib/YearlyRecurrenceSettings.cs:498-664 | bulk generation succeeds exactly for the count and end-date rules; a count rule gives that many dates, an end-date rule stops after the first anchor past the end date |
| YearlyRecurrence.NextDateFinds | Express.Recurrence/Lib/YearlyRecurrenceSettings.cs:332-339 | with a non-negative adjustment and no 29 February target, GetNextDate returns the first adjusted date after the reference, every earlier one being on or before it; for a rule without an end date it returns DateTime.MinValue |
| YearlyRecurrence.AnchorOnTarget | Express.Recurrence/Lib/YearlyRecurrenceSettings.cs:544-550 | unless the target is 29, 30 or 31 February, every fixed anchor, the first included, falls on the clamped target day in the target month |
| YearlyRecurrence.ValueAdvances | Express.Recurrence/Lib/YearlyRecurrenceSettings.cs:526-527 | for a runnable rule, the adjusted date of each step is strictly after the adjusted date before it |
| YearlyRecurrence.NoCutAll | Express.Recurrence/Lib/YearlyRecurrenceSettings.cs:528 | under the same conditions, the limit of one year after the reference never cuts the walk before a date past the reference |
| YearlyRecurrence.FixedFirstDates | Express.Recurrence/Lib/YearlyRecurrenceSettings.cs:537-550 | the count loop starts from the first anchor corrected to the target day, the end-date loop from the anchor itself |
| YearlyRecurrence.FirstDateDependsOnEndType | Express.Recurrence/Lib/YearlyRecurrenceSettings.cs:537-550 | from 1 March of a year before a leap year, 29 February as target: the count rule starts on 29 February, the end-date rule on 28 February |
| YearlyRecurrence.NextDateBeforeReference | Express.Recurrence/Lib/YearlyRecurrenceSettings.cs:519-528 | with a negative adjustment of -30, 15 January as target and 1 January as start and reference, GetNextDate answers the first date moved back 30 days, which is before the reference |
| YearlyRecurrence.IntendedOriginOnTarget | Express.Recurrence/Lib/YearlyRecurrenceSettings.cs:537-542 | the corrected first anchor is on the clamped target day |
| YearlyRecurrence.IntendedOnTarget | Express.Recurrence/Lib/YearlyRecurrenceSettings.cs:537-550 | from the corrected first anchor, the i-th anchor is i years after the first year, in the target month, on the clamped target day |
| YearlyRecurrence.IntendedAnchorAt | Express.Recurrence/Lib/YearlyRecurrenceSettings.cs:537-550 | with the corrected first anchor, the i-th anchor is the clamped target day i years after the first year |
| YearlyRecurrence.IntendedCountAgrees | Express.Recurrence/Lib/YearlyRecurrenceSettings.cs:537-542 | for count rules the corrected generation is the generation as written |
| YearlyRecurrence.IntendedUntilDates | Express.Recurrence/Lib/YearlyRecurrenceSettings.cs:544-551 | with the corrected first anchor, the end-date loop yields the same dates as the count loop: the clamped target day of each year, moved by the adjustment |
| YearlyRecurrence.NextDateStopsEarly | Express.Recurrence/Lib/YearlyRecurrenceSettings.cs:519-528 | from 1 January of a year before a leap year, 29 February as target, the next date after 28 February is 28 February itself, not after the reference |
| YearlyRecurrence.IntendedNextDateFinds | Express.Recurrence/Lib/YearlyRecurrenceSettings.cs:519-528 | with the limit corrected to the target day, GetNextDate finds the first adjusted date after the reference for every runnable rule with a non-negative adjustment |
| YearlyRecurrence.IntendedNoCutAll | Express.Recurrence/Lib/YearlyRecurrenceSettings.cs:528 | with the limit corrected to the target day, no anchor on or before the reference is followed by a step past the limit, whatever the target |
| YearlyRecurrence.IntendedNextDateLeap | Express.Recurrence/Lib/YearlyRecurrenceSettings.cs:519-528 | with the corrected limit, the next date after 28 February in the same example is 29 February of the following year |
| YearlyRecurrence.Encode | Express.Recurrence/Lib/YearlyRecurrenceSettings.cs:442-492 | a yearly token starts with 'Y' and, for a rule whose fields fit their widths, is 33 characters long |
| YearlyRecurrence.EncodeFields | Express.Recurrence/Lib/YearlyRecurrenceSettings.cs:442-490 | the token carries start date, end date, count, pattern digit, end-type digit, day at 23-24, month at 25-26, the three part letters at 27-29 and the signed adjustment at 30-32 |
| YearlyRecurrence.Decode | Express.Recurrence/Lib/YearlyRecurrenceSettings.cs:116-228 | a token that decodes to a record gives a record of recurrence type Yearly that keeps the token itself |
| YearlyRecurrence.DecodeFields | Express.Recurrence/Lib/YearlyRecurrenceSettings.cs:145-225 | a token whose fields parse to a rule's values decodes to a record holding exactly that rule |
| YearlyRecurrence.DecodeEncode | Express.Recurrence/Lib/YearlyRecurrenceSettings.cs:116-228 | decoding the token of any encodable rule gives back its start date, end condition, day, month, parts and adjustment |
| YearlyRecurrence.RebuildInfo | Express.Recurrence/Lib/YearlyRecurrenceSettings.cs:371-426 | rebuilding from a decoded record applies the overrides and the adjustment: the given start date or the token's own, the overriding end date, else the overriding count, else the original end condition |
| YearlyRecurrence.RebuildEncode | Express.Recurrence/Lib/YearlyRecurrenceSettings.cs:371-438 | rebuilding from any encodable rule's token succeeds and restores the rule with the overrides applied |
| YearlyRecurrence.TokenReproduces | Express.Recurrence/Lib/YearlyRecurrenceSettings.cs:341-344 | without overrides, the generator rebuilt from a rule's token has exactly that rule |
| YearlyRecurrence.OutcomeOfRun | Express.Recurrence/Lib/YearlyRecurrenceSettings.cs:250-267 | a runnable rule's dates are the next-date run in next-date mode and the bulk dates otherwise |
| YearlyRecurrence.YearlyRecurrenceSettings.FromStart | Express.Recurrence/Lib/YearlyRecurrenceSettings.cs:32 | a new yearly generator without an end date, in bulk mode |
| YearlyRecurrence.YearlyRecurrenceSettings.FromStartAndEnd | Express.Recurrence/Lib/YearlyRecurrenceSettings.cs:38 | a new yearly generator ending on the given date |
| YearlyRecurrence.YearlyRecurrenceSettings.FromStartAndCount | Express.Recurrence/Lib/YearlyRecurrenceSettings.cs:44 | a new yearly generator for the given number of occurrences |
| YearlyRecurrence.YearlyRecurrenceSettings.SetValuesDay | Express.Recurrence/Lib/YearlyRecurrenceSettings.cs:317-322 | the generator switches to the given day and month |
| YearlyRecurrence.YearlyRecurrenceSettings.SetValuesCustom | Express.Recurrence/Lib/YearlyRecurrenceSettings.cs:324-330 | the generator switches to the custom date with the three given parts |
| YearlyRecurrence.YearlyRecurrenceSettings.SetAdjustmentValue | Express.Recurrence/Lib/YearlyRecurrenceSettings.cs:920-930 | the adjustment takes the given value |
| YearlyRecurrence.YearlyRecurrenceSettings.GetCorrectedDate | Express.Recurrence/Lib/YearlyRecurrenceSettings.cs:566-582 | returns CorrectedDate of its input for the generator's target day |
| YearlyRecurrence.YearlyRecurrenceSettings.GetCustomDate | Express.Recurrence/Lib/YearlyRecurrenceSettings.cs:671-788 | returns the custom date of the target month in the given year |
| YearlyRecurrence.YearlyRecurrenceSettings.FirstSpecificDate | Express.Recurrence/Lib/YearlyRecurrenceSettings.cs:501-517 | returns the first fixed date, or the error new DateTime throws |
| YearlyRecurrence.YearlyRecurrenceSettings.SpecificNextLoop | Express.Recurrence/Lib/YearlyRecurrenceSettings.cs:519-529 | the next-date loop collects adjusted dates up to the first past the reference, or until the anchor passes one year after it |
| YearlyRecurrence.YearlyRecurrenceSettings.SpecificCountLoop | Express.Recurrence/Lib/YearlyRecurrenceSettings.cs:537-542 | the count loop collects FixedCount: n corrected dates, none for a count of 0 or less |
| YearlyRecurrence.YearlyRecurrenceSettings.SpecificUntilLoop | Express.Recurrence/Lib/YearlyRecurrenceSettings.cs:544-551 | the end-date loop collects adjusted dates while the next anchor stays on or before the end date |
| YearlyRecurrence.YearlyRecurrenceSettings.CustomNextLoop | Express.Recurrence/Lib/YearlyRecurrenceSettings.cs:601-618 | the next-date loop collects adjusted custom dates up to the first past the reference, or until one passes one year after it |
| YearlyRecurrence.YearlyRecurrenceSettings.CustomCountLoop | Express.Recurrence/Lib/YearlyRecurrenceSettings.cs:626-640 | the count loop collects the first n adjusted custom dates |
| YearlyRecurrence.YearlyRecurrenceSettings.CustomUntilLoop | Express.Recurrence/Lib/YearlyRecurrenceSettings.cs:642-656 | the end-date loop collects adjusted custom dates up to the first past the end date |
| YearlyRecurrence.YearlyRecurrenceSettings.GetSpecificDayOfYearDates | Express.Recurrence/Lib/YearlyRecurrenceSettings.cs:498-559 | returns the fixed-day dates as Outcome specifies, or the exception |
| YearlyRecurrence.YearlyRecurrenceSettings.GetCustomDayOfYearDates | Express.Recurrence/Lib/YearlyRecurrenceSettings.cs:588-664 | returns the custom dates as Outcome specifies; an unset part throws before any date is made |
| YearlyRecurrence.YearlyRecurrenceSettings.RunGenerator | Express.Recurrence/Lib/YearlyRecurrenceSettings.cs:252-267 | dispatches on the pattern; AfterOccurrenceCompleted and NotSet leave the list null, a null reference once it is read |
| YearlyRecurrence.YearlyRecurrenceSettings.SetSummary | Express.Recurrence/Lib/YearlyRecurrenceSettings.cs:268-278 | the first date becomes the start date, the last the end date unless open-ended, and the token is the rule's encoding |
| YearlyRecurrence.YearlyRecurrenceSettings.GetRecurrenceValues | Express.Recurrence/Lib/YearlyRecurrenceSettings.cs:250-281 | the run's dates with the first as start date, the last as end date unless open-ended, and the token; or the exception |
| YearlyRecurrence.YearlyRecurrenceSettings.GetValues | Express.Recurrence/Lib/YearlyRecurrenceSettings.cs:99-102 | same as GetRecurrenceValues |
| YearlyRecurrence.YearlyRecurrenceSettings.GetValuesDay | Express.Recurrence/Lib/YearlyRecurrenceSettings.cs:66-72 | sets the given day and month, then delivers that rule's dates |
| YearlyRecurrence.YearlyRecurrenceSettings.GetValuesCustom | Express.Recurrence/Lib/YearlyRecurrenceSettings.cs:81-88 | sets the three custom parts, then delivers that rule's dates |
| YearlyRecurrence.YearlyRecurrenceSettings.GetValuesBetween | Express.Recurrence/Lib/YearlyRecurrenceSettings.cs:230-238 | the start date, end date and end type SpecificDate are stored, then that rule's dates are delivered |
| YearlyRecurrence.YearlyRecurrenceSettings.GetValuesFrom | Express.Recurrence/Lib/YearlyRecurrenceSettings.cs:239-248 | the start date, count and end type NumberOfOccurrences are stored, then that rule's dates are delivered |
| YearlyRecurrence.YearlyRecurrenceSettings.GetNextDate | Express.Recurrence/Lib/YearlyRecurrenceSettings.cs:332-339 | switches to next-date mode and returns NextDate: the last date of the probing run, or DateTime.MinValue when open-ended |
| YearlyRecurrence.YearlyRecurrenceSettings.FromInfo | Express.Recurrence/Lib/YearlyRecurrenceSettings.cs:392-424 | builds the generator the record's end type calls for, sets the adjustment and the pattern; an unset end type or a missing end date fails with a null reference |
| YearlyRecurrence.YearlyRecurrenceSettings.GetRecurrenceSettings | Express.Recurrence/Lib/YearlyRecurrenceSettings.cs:371-426 | returns a fresh generator whose rule is what Rebuild says the token and overrides give, or the same error |
| RecurrenceHelper.GetFriendlySeriesInfo | Express.Recurrence/Lib/RecurrenceHelper.cs:29-53 | a record comes back only for a non-empty token whose first letter names the record's kind, and it keeps the token; a letter no generator owns gives null and an empty token the Substring exception |
| RecurrenceHelper.FriendlyYearlyToken | Express.Recurrence/Lib/RecurrenceHelper.cs:35-37 | a token starting with 'Y' reads back exactly as the yearly generator decodes it |
| RecurrenceHelper.FriendlyYearly | Express.Recurrence/Lib/RecurrenceHelper.cs:35-37 | the token of any encodable yearly rule reads back as a Yearly record holding that rule |
| RecurrenceHelper.YearlyLetter | Express.Recurrence/Lib/RecurrenceHelper.cs:35-37 | the token of any encodable yearly rule is dispatched to the yearly generator |
| RecurrenceHelper.DispatchYearly | Express.Recurrence/Lib/RecurrenceHelper.cs:120-123 | a token starting with 'Y' is regenerated by the yearly generator, whatever the overrides |
| RecurrenceHelper.FriendlyMonthlyToken | Express.Recurrence/Lib/RecurrenceHelper.cs:39-41 | a token starting with 'M' reads back exactly as the monthly generator decodes it |
| RecurrenceHelper.FriendlyMonthly | Express.Recurrence/Lib/RecurrenceHelper.cs:39-41 | the token of any encodable monthly rule reads back as a Monthly record holding that rule |
| RecurrenceHelper.MonthlyLetter | Express.Recurrence/Lib/RecurrenceHelper.cs:39-41 | the token of any encodable monthly rule is dispatched to the monthly generator |
| RecurrenceHelper.DispatchMonthly | Express.Recurrence/Lib/RecurrenceHelper.cs:124-127 | a token starting with 'M' is regenerated by the monthly generator, whatever the overrides |
| RecurrenceHelper.FriendlyWeeklyToken | Express.Recurrence/Lib/RecurrenceHelper.cs:43-45 | a token starting with 'W' reads back exactly as the weekly generator decodes it |
| RecurrenceHelper.FriendlyWeekly | Express.Recurrence/Lib/RecurrenceHelper.cs:43-45 | the token of any encodable weekly rule reads back as a Weekly record holding that rule |
| RecurrenceHelper.WeeklyLetter | Express.Recurrence/Lib/RecurrenceHelper.cs:43-45 | the token of any encodable weekly rule is dispatched to the weekly generator |
| RecurrenceHelper.DispatchWeekly | Express.Recurrence/Lib/RecurrenceHelper.cs:128-131 | a token starting with 'W' is regenerated by the weekly generator, whatever the overrides |
| RecurrenceHelper.FriendlyDailyToken | Express.Recurrence/Lib/RecurrenceHelper.cs:47-49 | a token starting with 'D' reads back exactly as the daily generator decodes it |
| RecurrenceHelper.FriendlyDaily | Express.Recurrence/Lib/RecurrenceHelper.cs:47-49 | the token of any encodable daily rule reads back as a Daily record holding that rule |
| RecurrenceHelper.DailyLetter | Express.Recurrence/Lib/RecurrenceHelper.cs:47-49 | the token of any encodable daily rule is dispatched to the daily generator |
| RecurrenceHelper.DispatchDaily | Express.Recurrence/Lib/RecurrenceHelper.cs:132-135 | a token starting with 'D' is regenerated by the daily generator, whatever the overrides |
| RecurrenceHelper.YearlyTokenValues | Express.Recurrence/Lib/RecurrenceHelper.cs:120-123 | the token of any encodable yearly rule, with any overrides, rebuilds a rule with those overrides applied and delivers that rule's dates, first date, last date and token |
| RecurrenceHelper.YearlyTokenReproduces | Express.Recurrence/Lib/RecurrenceHelper.cs:120-123 | without overrides, the token of a canonical yearly rule delivers exactly that rule's run |
| RecurrenceHelper.RegenerateYearly | Express.Recurrence/Lib/RecurrenceHelper.cs:114-139 | GetRecurrenceValues on the token of any encodable yearly rule, with any overrides, gives the run of the rule with those overrides applied |
| RecurrenceHelper.ReproduceYearly | Express.Recurrence/Lib/RecurrenceHelper.cs:114-139 | GetRecurrenceValues on the token of a canonical yearly rule, without overrides, gives that rule's run |
| RecurrenceHelper.YearlyRegenerated | Express.Recurrence/Lib/RecurrenceHelper.cs:120-123 | the yearly generator rebuilt from the token with the overrides is run, and its values show that run or its exception |
| RecurrenceHelper.MonthlyTokenValues | Express.Recurrence/Lib/RecurrenceHelper.cs:124-127 | the token of any encodable monthly rule with a pattern and an interval of at least one month, with any overrides, rebuilds a rule with those overrides applied and delivers that rule's dates, first date, last date and token |
| RecurrenceHelper.MonthlyTokenReproduces | Express.Recurrence/Lib/RecurrenceHelper.cs:124-127 | without overrides, the token of a canonical monthly rule delivers exactly that rule's run |
| RecurrenceHelper.RegenerateMonthly | Express.Recurrence/Lib/RecurrenceHelper.cs:114-139 | GetRecurrenceValues on the token of any encodable monthly rule with a pattern and an interval of at least one month, with any overrides, gives the run of the rule with those overrides applied |
| RecurrenceHelper.ReproduceMonthly | Express.Recurrence/Lib/RecurrenceHelper.cs:114-139 | GetRecurrenceValues on the token of a canonical monthly rule, without overrides, gives that rule's run |
| RecurrenceHelper.MonthlyRegenerated | Express.Recurrence/Lib/RecurrenceHelper.cs:124-127 | the monthly generator rebuilt from the token with the overrides is run, and its values show that run or its exception |
| RecurrenceHelper.WeeklyTokenValues | Express.Recurrence/Lib/RecurrenceHelper.cs:128-131 | the token of any weekly rule with a selected day, with any overrides, rebuilds a rule with those overrides applied and delivers that rule's dates, first date, last date and token |
| RecurrenceHelper.WeeklyTokenReproduces | Express.Recurrence/Lib/RecurrenceHelper.cs:128-131 | without overrides, the token of a canonical weekly rule delivers exactly that rule's run |
| RecurrenceHelper.RegenerateWeekly | Express.Recurrence/Lib/RecurrenceHelper.cs:114-139 | GetRecurrenceValues on the token of any weekly rule with a selected day, with any overrides, gives the run of the rule with those overrides applied |
| RecurrenceHelper.ReproduceWeekly | Express.Recurrence/Lib/RecurrenceHelper.cs:114-139 | GetRecurrenceValues on the token of a canonical weekly rule, without overrides, gives that rule's run |
| RecurrenceHelper.WeeklyRegenerated | Express.Recurrence/Lib/RecurrenceHelper.cs:128-131 | the weekly generator rebuilt from the token with the overrides is run, and its values show that run or its exception |
| RecurrenceHelper.DailyTokenValues | Express.Recurrence/Lib/RecurrenceHelper.cs:132-138 | the token of any daily rule that advances, with any overrides, rebuilds a rule with those overrides applied and delivers that rule's dates, first date, last date and token |
| RecurrenceHelper.DailyTokenReproduces | Express.Recurrence/Lib/RecurrenceHelper.cs:132-138 | without overrides, the rule rebuilt from a daily rule's token generates the same dates as the rule itself |
| RecurrenceHelper.RegenerateDaily | Express.Recurrence/Lib/RecurrenceHelper.cs:114-139 | GetRecurrenceValues on the token of any daily rule that advances, with any overrides, gives the run of the rule with those overrides applied |
| RecurrenceHelper.ReproduceDaily | Express.Recurrence/Lib/RecurrenceHelper.cs:114-139 | GetRecurrenceValues on the token of a daily rule that advances, without overrides, fails exactly when the rule's generation fails and otherwise gives back its dates |
| RecurrenceHelper.DailyRegenerated | Express.Recurrence/Lib/RecurrenceHelper.cs:132-135 | the daily generator rebuilt from the token with the overrides is run, and its values show that run or its exception |
| RecurrenceHelper.Regenerated | Express.Recurrence/Lib/RecurrenceHelper.cs:114-325 | the values show what Regenerate says the token and overrides give: the named generator's run, the exception rebuilding throws, or a null reference for an unknown letter |
| RecurrenceHelper.GetRecurrenceValues | Express.Recurrence/Lib/RecurrenceHelper.cs:114-139 | the token's own generator runs as encoded; the values show the rebuilt run or its exception |
| RecurrenceHelper.GetRecurrenceValuesFrom | Express.Recurrence/Lib/RecurrenceHelper.cs:147-172 | the run starts from the given start date instead of the token's; the values show the rebuilt run or its exception |
| RecurrenceHelper.GetRecurrenceValuesCount | Express.Recurrence/Lib/RecurrenceHelper.cs:191-217 | the run ends after the given number of dates; the values show the rebuilt run or its exception |
| RecurrenceHelper.GetRecurrenceValuesFromCount | Express.Recurrence/Lib/RecurrenceHelper.cs:226-252 | the run starts from the given date and ends after the given number of dates; the values show the rebuilt run or its exception |
| RecurrenceHelper.GetRecurrenceValuesUntil | Express.Recurrence/Lib/RecurrenceHelper.cs:272-298 | the run ends on the given end date; the values show the rebuilt run or its exception |
| RecurrenceHelper.GetRecurrenceValuesBetween | Express.Recurrence/Lib/RecurrenceHelper.cs:300-326 | the run starts from the given start date and ends on the given end date; the values show the rebuilt run or its exception |
| RecurrenceHelper.NextDispatchYearly | Express.Recurrence/Lib/RecurrenceHelper.cs:80-82 | GetNextDate on a token starting with 'Y' is the yearly generator's next date |
| RecurrenceHelper.YearlyNextDate | Express.Recurrence/Lib/RecurrenceHelper.cs:80-99 | the yearly generator rebuilt from the token switches to next-date mode and returns its next date, or the exception rebuilding throws |
| RecurrenceHelper.YearlyTokenNext | Express.Recurrence/Lib/RecurrenceHelper.cs:80-99 | the next date read through a canonical yearly rule's token is that rule's own NextDate |
| RecurrenceHelper.NextDateYearly | Express.Recurrence/Lib/RecurrenceHelper.cs:74-100 | GetNextDate on a canonical yearly rule's token is that rule's own NextDate |
| RecurrenceHelper.NextDispatchMonthly | Express.Recurrence/Lib/RecurrenceHelper.cs:84-86 | GetNextDate on a token starting with 'M' is the monthly generator's next date |
| RecurrenceHelper.MonthlyNextDate | Express.Recurrence/Lib/RecurrenceHelper.cs:84-99 | the monthly generator rebuilt from the token switches to next-date mode and returns its next date, or the exception rebuilding throws |
| RecurrenceHelper.MonthlyTokenNext | Express.Recurrence/Lib/RecurrenceHelper.cs:84-99 | the next date read through a canonical monthly rule's token is that rule's own NextDate |
| RecurrenceHelper.NextDateMonthly | Express.Recurrence/Lib/RecurrenceHelper.cs:74-100 | GetNextDate on a canonical monthly rule's token is that rule's own NextDate |
| RecurrenceHelper.NextDispatchWeekly | Express.Recurrence/Lib/RecurrenceHelper.cs:88-90 | GetNextDate on a token starting with 'W' is the weekly generator's next date |
| RecurrenceHelper.WeeklyNextDate | Express.Recurrence/Lib/RecurrenceHelper.cs:88-99 | the weekly generator rebuilt from the token switches to next-date mode and returns its next date, or the exception rebuilding throws |
| RecurrenceHelper.WeeklyTokenNext | Express.Recurrence/Lib/RecurrenceHelper.cs:88-99 | the next date read through a canonical weekly rule's token is that rule's own NextDate |
| RecurrenceHelper.NextDateWeekly | Express.Recurrence/Lib/RecurrenceHelper.cs:74-100 | GetNextDate on a canonical weekly rule's token is that rule's own NextDate |
| RecurrenceHelper.NextDispatchDaily | Express.Recurrence/Lib/RecurrenceHelper.cs:92-94 | GetNextDate on a token starting with 'D' is the daily generator's next date |
| RecurrenceHelper.DailyNextDate | Express.Recurrence/Lib/RecurrenceHelper.cs:92-99 | the daily generator rebuilt from the token switches to next-date mode and returns its next date, or the exception rebuilding throws |
| RecurrenceHelper.DailyTokenNext | Express.Recurrence/Lib/RecurrenceHelper.cs:92-99 | for a daily rule that advances, the next date read through its token is the first date of the rule after the reference |
| RecurrenceHelper.NextDateDaily | Express.Recurrence/Lib/RecurrenceHelper.cs:74-100 | GetNextDate on a daily rule's token is the first date of the rule after the reference |
| RecurrenceHelper.GetNextDate | Express.Recurrence/Lib/RecurrenceHelper.cs:74-100 | the next date the token's generator gives, as NextDateOf specifies; an unknown letter is a null reference |
| RecurrenceHelper.DayAfter | Express.Recurrence/Lib/RecurrenceHelper.cs:376 | the day after the run's last date, one day number later; an empty run (last date DateTime.MaxValue) or a run ending on DateTime.MaxValue throws |
| RecurrenceHelper.YearlyPostFails | Express.Recurrence/Lib/RecurrenceHelper.cs:373 | when the first yearly run throws, the continuation throws the same |
| RecurrenceHelper.YearlyPostEnds | Express.Recurrence/Lib/RecurrenceHelper.cs:373-376 | when the day after the first yearly run cannot be formed, the continuation throws an out-of-range error |
| RecurrenceHelper.YearlyPostNext | Express.Recurrence/Lib/RecurrenceHelper.cs:373-378 | otherwise the continuation is the yearly run with the start date moved to the day after the last date and the extension's end condition |
| RecurrenceHelper.YearlyExtend | Express.Recurrence/Lib/RecurrenceHelper.cs:378 | GetValues with a new start date and end condition on the yearly generator gives the run of the rule with those bounds |
| RecurrenceHelper.YearlyContinue | Express.Recurrence/Lib/RecurrenceHelper.cs:373-378 | running the yearly generator, then running it again from the day after its last date, shows the continuation |
| RecurrenceHelper.YearlyPostRegenerated | Express.Recurrence/Lib/RecurrenceHelper.cs:354-378 | the yearly generator rebuilt from the token is continued, or the rebuilding exception comes back |
| RecurrenceHelper.YearlyTokenPost | Express.Recurrence/Lib/RecurrenceHelper.cs:354-378 | continuing a canonical yearly rule's token continues that rule |
| RecurrenceHelper.ContinueYearly | Express.Recurrence/Lib/RecurrenceHelper.cs:347-380 | GetPostRecurrenceValues on a canonical yearly rule's token continues that rule |
| RecurrenceHelper.MonthlyPostFails | Express.Recurrence/Lib/RecurrenceHelper.cs:373 | when the first monthly run throws, the continuation throws the same |
| RecurrenceHelper.MonthlyPostEnds | Express.Recurrence/Lib/RecurrenceHelper.cs:373-376 | when the day after the first monthly run cannot be formed, the continuation throws an out-of-range error |
| RecurrenceHelper.MonthlyPostNext | Express.Recurrence/Lib/RecurrenceHelper.cs:373-378 | otherwise the continuation is the monthly run with the start date moved to the day after the last date and the extension's end condition |
| RecurrenceHelper.MonthlyExtend | Express.Recurrence/Lib/RecurrenceHelper.cs:378 | GetValues with a new start date and end condition on the monthly generator gives the run of the rule with those bounds |
| RecurrenceHelper.MonthlyContinue | Express.Recurrence/Lib/RecurrenceHelper.cs:373-378 | running the monthly generator, then running it again from the day after its last date, shows the continuation |
| RecurrenceHelper.MonthlyPostRegenerated | Express.Recurrence/Lib/RecurrenceHelper.cs:358-378 | the monthly generator rebuilt from the token is continued, or the rebuilding exception comes back |
| RecurrenceHelper.MonthlyTokenPost | Express.Recurrence/Lib/RecurrenceHelper.cs:358-378 | continuing a canonical monthly rule's token continues that rule |
| RecurrenceHelper.ContinueMonthly | Express.Recurrence/Lib/RecurrenceHelper.cs:347-380 | GetPostRecurrenceValues on a canonical monthly rule's token continues that rule |
| RecurrenceHelper.WeeklyPostFails | Express.Recurrence/Lib/RecurrenceHelper.cs:373 | when the first weekly run throws, the continuation throws the same |
| RecurrenceHelper.WeeklyPostEnds | Express.Recurrence/Lib/RecurrenceHelper.cs:373-376 | when the day after the first weekly run cannot be formed, the continuation throws an out-of-range error |
| RecurrenceHelper.WeeklyPostNext | Express.Recurrence/Lib/RecurrenceHelper.cs:373-378 | otherwise the continuation is the weekly run with the start date moved to the day after the last date and the extension's end condition |
| RecurrenceHelper.WeeklyExtend | Express.Recurrence/Lib/RecurrenceHelper.cs:378 | GetValues with a new start date and end condition on the weekly generator gives the run of the rule with those bounds |
| RecurrenceHelper.WeeklyContinue | Express.Recurrence/Lib/RecurrenceHelper.cs:373-378 | running the weekly generator, then running it again from the day after its last date, shows the continuation |
| RecurrenceHelper.WeeklyPostRegenerated | Express.Recurrence/Lib/RecurrenceHelper.cs:362-378 | the weekly generator rebuilt from the token is continued, or the rebuilding exception comes back |
| RecurrenceHelper.WeeklyTokenPost | Express.Recurrence/Lib/RecurrenceHelper.cs:362-378 | continuing a canonical weekly rule's token continues that rule |
| RecurrenceHelper.ContinueWeekly | Express.Recurrence/Lib/RecurrenceHelper.cs:347-380 | GetPostRecurrenceValues on a canonical weekly rule's token continues that rule |
| RecurrenceHelper.DailyPostFails | Express.Recurrence/Lib/RecurrenceHelper.cs:373 | when the first daily run throws, the continuation throws the same |
| RecurrenceHelper.DailyPostEnds | Express.Recurrence/Lib/RecurrenceHelper.cs:373-376 | when the day after the first daily run cannot be formed, the continuation throws an out-of-range error |
| RecurrenceHelper.DailyPostNext | Express.Recurrence/Lib/RecurrenceHelper.cs:373-378 | otherwise the continuation is the daily run with the start date moved to the day after the last date and the extension's end condition |
| RecurrenceHelper.DailyExtend | Express.Recurrence/Lib/RecurrenceHelper.cs:378 | GetValues with a new start date and end condition on the daily generator gives the run of the rule with those bounds |
| RecurrenceHelper.DailyContinue | Express.Recurrence/Lib/RecurrenceHelper.cs:373-378 | running the daily generator, then running it again from the day after its last date, shows the continuation |
| RecurrenceHelper.DailyPostRegenerated | Express.Recurrence/Lib/RecurrenceHelper.cs:366-378 | the daily generator rebuilt from the token is continued, or the rebuilding exception comes back |
| RecurrenceHelper.DailyTokenPost | Express.Recurrence/Lib/RecurrenceHelper.cs:366-378 | continuing a daily rule's token continues the rule rebuilt from it, which keeps the rule's bounds |
| RecurrenceHelper.ContinueDaily | Express.Recurrence/Lib/RecurrenceHelper.cs:347-380 | GetPostRecurrenceValues on a daily rule's token continues the rule rebuilt from it |
| RecurrenceHelper.PostRegenerated | Express.Recurrence/Lib/RecurrenceHelper.cs:347-415 | the values show PostValues: the token's generator run, then run again from the day after its last date with the new end condition |
| RecurrenceHelper.GetPostRecurrenceValuesUntil | Express.Recurrence/Lib/RecurrenceHelper.cs:347-380 | the continuation runs from the day after the series' last date up to the given end date |
| RecurrenceHelper.GetPostRecurrenceValuesCount | Express.Recurrence/Lib/RecurrenceHelper.cs:382-415 | the continuation runs from the day after the series' last date for the given number of dates |

## Left out

- `GetPatternDefinition` in the four generators and `RecurrenceHelper.GetPatternDefinitioin`: they only lay out human-readable text and change nothing.
- `Express.Recurrence/Engine.cs`, `Express.Recurrence/ReccurancePattern.cs` and `Express.Recurrence/Lib/RecurrenceMananger.cs` are not part of this model. They are a thin wrapper, configuration data and a one-line delegation.
- `RecurrenceInterval`, `RegenerationAfterCompletedInterval` and `YearlyRecurrenceSettings.GetDatePartOneValue`: nothing in the core reads them.
- The `AfterOccurrenceCompleted` pattern is modelled only as its outcome. It collects nothing and leaves the result list null, so it is a null-reference error.
- Property getters are not separate members. Each is a field of a class or of the `RecurrenceInfo` datatype, so a getter returns what its setter stored by construction.
- Exceptions are `Err` values. Their .NET types and message texts are not modelled.
- Culture-dependent formatting, the time of day and the `DateTime` year range are not modelled. The token codec keeps years to four digits (`Encodable`), and `DayAfter` models the exception one day past `DateTime.MaxValue`.
- `Text.ParseInt`: reads the white space and signs of the invariant culture only. It does not model another culture's sign symbols, the trailing NUL characters some .NET versions also skip, or the overflow exception past `Int32` (no token field is wide enough to reach it).
- Token digits outside an enum's range, and letters outside the decoders' tables, are a malformed token (`Kinds`). In the source, the integer cast to an enum and the letter arithmetic go on with a value outside the enum.
- An empty token is a malformed token: the `Substring(0, 1)` dispatch throws on it.
- `DailyRecurrence.CanRun` and `MonthlyRecurrence.CanRun`, and through them `Runnable` and `Continuable`, require an interval X of at least 1 wherever the end-date or next-date loop depends on it. That excludes more than the runs that never end. With X of 0 or below, the source answers at once in two cases. The end-date do-while returns the first date alone when the next step already lies past the end date. The next-date loop stops at its first date when that date (for a monthly rule, that date after adjustment) is past the reference date. Otherwise, with X = 0, the date stops moving after at most one step; a monthly anchor can move once, to its corrected day. The loop then ends only if that step took the date past the end date or the reference date, and otherwise never ends. With X below 0 it walks backwards, and the model does not describe where such a walk stops; past `DateTime.MinValue` the step throws. The model states none of these answers, the ones that end included.
- `WeeklyRecurrence.CanRun` requires a selected day. With none selected, GetNextDay steps forward a day at a time until `AddDays` passes `DateTime.MaxValue` and throws. The date kernel has no year bound, so the model cannot reach that exception.
- `YearlyRecurrence.NextDateFinds`: assumes a non-negative adjustment and no 29 February target. With a 29 February target the probe stops early; that is the second Findings row, and `YearlyRecurrence.IntendedNextDateFinds` drops the target restriction for the corrected bound. With a negative adjustment GetNextDate can answer a date before the reference: `YearlyRecurrence.NextDateBeforeReference` shows it for 15 January, an adjustment of -30, a start and reference on 1 January. The model keeps that behaviour and gives no corrected bound for negative adjustments.
- `WeeklyRecurrence.NextDateFinds`, `MonthlyRecurrence.NextDateFinds` and `YearlyRecurrence.NextDateFinds` state the source's answer for a rule without an end date, `DateTime.MinValue`: GetNextDate returns the result's end date, which such a rule never sets. The daily generator returns the date it found instead. The model keeps the weekly, monthly and yearly answer as written and gives no corrected definition.
- `WeeklyRecurrence.NextDateFinds`: assumes an interval X of at least -1. Below that, the next-date loop's limit, X + 1 weeks past the reference date (WeeklyRecurrenceSettings.cs:439), lies before the reference date. GetNextDate then answers the first date of the walk past the limit, which can be on or before the reference date. `WeeklyRecurrence.NextDateBelowLimit` states that answer; the model keeps it and gives no corrected bound.
- `MonthlyRecurrence.NextDateFinds`: assumes a non-negative adjustment. The model does not prove that the probe bound, X + 1 months past the reference on unadjusted anchors, reaches the first adjusted date past the reference when adjustments are negative.
- `RecurrenceHelper.ReproduceDaily`: states that the dates of a daily rule's token equal the rule's own dates, not that the whole result is equal. A daily token does not keep the interval of an every-weekday rule, which is rebuilt with X = 1. So the re-encoded token can differ from the original.
- `RecurrenceHelper.DailyTokenReproduces`, `RecurrenceHelper.DailyTokenPost` and `RecurrenceHelper.ContinueDaily`: relate the token to the rule rebuilt from it (`Restored`), for the same reason.
- `RecurrenceHelper.PostRegenerated`: not stated equal to `GetRecurrenceValues` with overrides. The continuation keeps the end field the new end type does not read; a rebuilt rule clears it.
- `YearlyRecurrence.YearlyRecurrenceSettings.GetSpecificDayOfYearDates` and `GetNextDate` keep the source's behaviour as written. The corrected behaviour is stated on the `Intended*` definitions beside them, not on the class.

## Findings

| source | as written | input that shows it | evidently intended | confidence | as-written member | corrected member |
|---|---|---|---|---|---|---|
| Express.Recurrence/Lib/YearlyRecurrenceSettings.cs:537-550 | the count loop adds the first anchor after correcting its day to the target; the end-date loop adds the first anchor uncorrected | start 1 March of a year before a leap year, day 29, month 2: the count rule starts on 29 February of the leap year, the end-date rule on 28 February | both end types start from the same corrected date, the target day clamped to the month | not executed | YearlyRecurrence.FirstDateDependsOnEndType | YearlyRecurrence.IntendedUntilDates |
| Express.Recurrence/Lib/YearlyRecurrenceSettings.cs:519-528 | the next-date loop stops once the anchor passes the reference plus one year, and `AddYears` turns 29 February into 28 February | start 1 January of a year before a leap year, 29 February rule, 10 occurrences, reference 28 February of that year: it returns 28 February, which is not after the reference | the bound keeps the target day, so the loop reaches 29 February of the leap year | not executed | YearlyRecurrence.NextDateStopsEarly | YearlyRecurrence.IntendedNextDateFinds |
