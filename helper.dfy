/**
 * RecurrenceHelper: the static entry points that take a series-info token,
 * pick the generator its first letter names (Y, M, W or D), rebuild that
 * generator from the token and run it.
 */
module RecurrenceHelper {
  import opened Results
  import opened Dates
  import opened Kinds
  import opened Settings
  import opened Values
  import opened Info
  import DailyRecurrence
  import WeeklyRecurrence
  import MonthlyRecurrence
  import YearlyRecurrence

  // ---------------------------------------------------------------------
  // Dispatch on the first letter

  /**
   * The generator a token's first letter names; NotSet for any other
   * letter, where the switch leaves its settings variable null.
   * Substring(0, 1) throws on an empty token.
   */
  function KindOf(seriesInfo: string): Result<RecurrenceType> {
    if |seriesInfo| == 0 then Err(MalformedSeriesInfo)
    else if seriesInfo[0] == 'Y' then Ok(RecurrenceType.Yearly)
    else if seriesInfo[0] == 'M' then Ok(RecurrenceType.Monthly)
    else if seriesInfo[0] == 'W' then Ok(RecurrenceType.Weekly)
    else if seriesInfo[0] == 'D' then Ok(RecurrenceType.Daily)
    else Ok(RecurrenceType.NotSet)
  }

  /** The letter a kind's tokens start with. */
  function Letter(t: RecurrenceType): char {
    match t
    case Yearly => 'Y'
    case Monthly => 'M'
    case Weekly => 'W'
    case Daily => 'D'
    case NotSet => ' '
  }

  /**
   * GetFriendlySeriesInfo: the record the named generator decodes from
   * the token; None (null) for a letter no generator owns.
   */
  function GetFriendlySeriesInfo(seriesInfo: string): (r: Result<Option<RecurrenceInfo>>)
    ensures r == Ok(None) <==> |seriesInfo| > 0 && seriesInfo[0] !in "YMWD"
    ensures r.Ok? && r.value.Some? ==>
      |seriesInfo| > 0 && r.value.value.seriesInfo == Some(seriesInfo) && seriesInfo[0] == Letter(r.value.value.recurrenceType)
  {
    match KindOf(seriesInfo)
    case Err(e) => Err(e)
    case Ok(kind) =>
      if kind == RecurrenceType.NotSet then Ok(None)
      else
        var r := match kind
          case Yearly => YearlyRecurrence.Decode(seriesInfo)
          case Monthly => MonthlyRecurrence.Decode(seriesInfo)
          case Weekly => WeeklyRecurrence.Decode(seriesInfo)
          case Daily => DailyRecurrence.Decode(seriesInfo);
        assert seriesInfo[0] == Letter(kind);
        r
  }

  /** On a token starting with Y, GetFriendlySeriesInfo is the yearly generator's decoding. */
  lemma FriendlyYearlyToken(seriesInfo: string)
    requires |seriesInfo| > 0 && seriesInfo[0] == 'Y'
    ensures GetFriendlySeriesInfo(seriesInfo) == YearlyRecurrence.Decode(seriesInfo)
  {
  }

  /** On a token starting with M, GetFriendlySeriesInfo is the monthly generator's decoding. */
  lemma FriendlyMonthlyToken(seriesInfo: string)
    requires |seriesInfo| > 0 && seriesInfo[0] == 'M'
    ensures GetFriendlySeriesInfo(seriesInfo) == MonthlyRecurrence.Decode(seriesInfo)
  {
  }

  /** On a token starting with W, GetFriendlySeriesInfo is the weekly generator's decoding. */
  lemma FriendlyWeeklyToken(seriesInfo: string)
    requires |seriesInfo| > 0 && seriesInfo[0] == 'W'
    ensures GetFriendlySeriesInfo(seriesInfo) == WeeklyRecurrence.Decode(seriesInfo)
  {
  }

  /** On a token starting with D, GetFriendlySeriesInfo is the daily generator's decoding. */
  lemma FriendlyDailyToken(seriesInfo: string)
    requires |seriesInfo| > 0 && seriesInfo[0] == 'D'
    ensures GetFriendlySeriesInfo(seriesInfo) == DailyRecurrence.Decode(seriesInfo)
  {
  }

  /** A daily rule's token reads back, through the dispatch, to that rule. */
  lemma FriendlyDaily(rule: DailyRecurrence.DailyRule) returns (info: RecurrenceInfo)
    requires DailyRecurrence.Encodable(rule) && rule.bounds.Complete()
    ensures GetFriendlySeriesInfo(DailyRecurrence.Encode(rule)) == Ok(Some(info))
    ensures DailyRecurrence.Recovered(info, rule) && info.recurrenceType == RecurrenceType.Daily
  {
    info := DailyRecurrence.DecodeEncode(rule);
    FriendlyDailyToken(DailyRecurrence.Encode(rule));
  }

  /** A weekly rule's token reads back, through the dispatch, to that rule. */
  lemma FriendlyWeekly(rule: WeeklyRecurrence.WeeklyRule) returns (info: RecurrenceInfo)
    requires WeeklyRecurrence.Encodable(rule) && rule.bounds.Complete()
    ensures GetFriendlySeriesInfo(WeeklyRecurrence.Encode(rule)) == Ok(Some(info))
    ensures WeeklyRecurrence.Recovered(info, rule) && info.recurrenceType == RecurrenceType.Weekly
  {
    info := WeeklyRecurrence.DecodeEncode(rule);
    FriendlyWeeklyToken(WeeklyRecurrence.Encode(rule));
  }

  /** A monthly rule's token reads back, through the dispatch, to that rule. */
  lemma FriendlyMonthly(rule: MonthlyRecurrence.MonthlyRule) returns (info: RecurrenceInfo)
    requires MonthlyRecurrence.Encodable(rule) && rule.bounds.Complete()
    ensures GetFriendlySeriesInfo(MonthlyRecurrence.Encode(rule)) == Ok(Some(info))
    ensures MonthlyRecurrence.Recovered(info, rule) && info.recurrenceType == RecurrenceType.Monthly
  {
    info := MonthlyRecurrence.DecodeEncode(rule);
    FriendlyMonthlyToken(MonthlyRecurrence.Encode(rule));
  }

  /** A yearly rule's token reads back, through the dispatch, to that rule. */
  lemma FriendlyYearly(rule: YearlyRecurrence.YearlyRule) returns (info: RecurrenceInfo)
    requires YearlyRecurrence.Encodable(rule) && rule.bounds.Complete()
    ensures GetFriendlySeriesInfo(YearlyRecurrence.Encode(rule)) == Ok(Some(info))
    ensures YearlyRecurrence.Recovered(info, rule) && info.recurrenceType == RecurrenceType.Yearly
  {
    info := YearlyRecurrence.DecodeEncode(rule);
    FriendlyYearlyToken(YearlyRecurrence.Encode(rule));
  }

  // ---------------------------------------------------------------------
  // What a run hands back

  /** The fields of a RecurrenceValues object once GetValues returns. */
  datatype Summary = Summary(values: seq<DateTime>, startDate: DateTime, endDate: DateTime, seriesInfo: string)

  /**
   * The summary a generator sets on its dates: the first as start date,
   * the last as end date unless the rule has no end date, and the token.
   */
  function Summarise(run: Result<seq<DateTime>>, endless: bool, token: string): Result<Summary> {
    match run
    case Err(e) => Err(e)
    case Ok(s) =>
      Ok(Summary(s, if |s| > 0 then s[0] else MinValue, if |s| > 0 && !endless then s[|s| - 1] else MinValue, token))
  }

  /** A RecurrenceValues result shows the expected summary, or is the expected exception. */
  predicate Shows(r: Result<RecurrenceValues?>, expected: Result<Summary>)
    reads if r.Ok? && r.value != null then {r.value} else {}
  {
    match expected
    case Err(e) => r == Err(e)
    case Ok(s) =>
      r.Ok? && r.value != null && r.value.values == s.values && r.value.startDate == s.startDate &&
      r.value.endDate == s.endDate && r.value.seriesInfo == Some(s.seriesInfo)
  }

  function DailyRun(rule: DailyRecurrence.DailyRule): Result<Summary>
    requires rule.bounds.endDateType == SpecificDate ==> rule.Advances()
  {
    Summarise(DailyRecurrence.Generate(rule), rule.bounds.endDateType == NoEndDate, DailyRecurrence.Encode(rule))
  }

  function WeeklyRun(rule: WeeklyRecurrence.WeeklyRule): Result<Summary>
    requires WeeklyRecurrence.CanRun(rule, false)
  {
    Summarise(WeeklyRecurrence.Outcome(rule, false, MinValue), rule.bounds.endDateType == NoEndDate, WeeklyRecurrence.Encode(rule))
  }

  function MonthlyRun(rule: MonthlyRecurrence.MonthlyRule): Result<Summary>
    requires MonthlyRecurrence.CanRun(rule, false)
  {
    Summarise(MonthlyRecurrence.Outcome(rule, false, MinValue), rule.bounds.endDateType == NoEndDate, MonthlyRecurrence.Encode(rule))
  }

  function YearlyRun(rule: YearlyRecurrence.YearlyRule): Result<Summary> {
    Summarise(YearlyRecurrence.Outcome(rule, false, MinValue), rule.bounds.endDateType == NoEndDate, YearlyRecurrence.Encode(rule))
  }

  /** What the daily generator's GetValues delivers shows the daily run. */
  lemma DailyShows(r: Result<RecurrenceValues?>, rule: DailyRecurrence.DailyRule)
    requires rule.bounds.endDateType == SpecificDate ==> rule.Advances()
    requires DailyRecurrence.Delivered(r, rule)
    ensures Shows(r, DailyRun(rule))
  {
  }

  /** What the weekly generator's GetValues delivers shows the weekly run. */
  lemma WeeklyShows(r: Result<RecurrenceValues>, rule: WeeklyRecurrence.WeeklyRule)
    requires WeeklyRecurrence.CanRun(rule, false)
    requires WeeklyRecurrence.Delivered(r, rule, false, MinValue)
    ensures Shows(if r.Ok? then Ok(r.value) else Err(r.error), WeeklyRun(rule))
  {
  }

  /** What the monthly generator's GetValues delivers shows the monthly run. */
  lemma MonthlyShows(r: Result<RecurrenceValues>, rule: MonthlyRecurrence.MonthlyRule)
    requires MonthlyRecurrence.CanRun(rule, false)
    requires MonthlyRecurrence.Delivered(r, rule, false, MinValue)
    ensures Shows(if r.Ok? then Ok(r.value) else Err(r.error), MonthlyRun(rule))
  {
  }

  /** What the yearly generator's GetValues delivers shows the yearly run. */
  lemma YearlyShows(r: Result<RecurrenceValues>, rule: YearlyRecurrence.YearlyRule)
    requires YearlyRecurrence.Delivered(r, rule, false, MinValue)
    ensures Shows(if r.Ok? then Ok(r.value) else Err(r.error), YearlyRun(rule))
  {
  }

  // ---------------------------------------------------------------------
  // Rebuilding and running a token

  /**
   * The daily generator a token rebuilds to can run to completion: an
   * every-X-days loop with X below 1 does not end, and the source gives no
   * answer there. Likewise for the weekly (no selected day) and monthly
   * (an interval below 1) generators.
   */
  predicate DailyRunnable(seriesInfo: string, modifiedOccurrences: int, modifiedStart: Option<DateTime>, modifiedEnd: DateTime, nextDateMode: bool) {
    var rebuilt := DailyRecurrence.Rebuild(seriesInfo, modifiedOccurrences, modifiedStart, modifiedEnd);
    rebuilt.Ok? && rebuilt.value.Some? ==> DailyRecurrence.CanRun(rebuilt.value.value, nextDateMode)
  }

  predicate WeeklyRunnable(seriesInfo: string, modifiedOccurrences: int, modifiedStart: Option<DateTime>, modifiedEnd: DateTime, nextDateMode: bool) {
    var rebuilt := WeeklyRecurrence.Rebuild(seriesInfo, modifiedOccurrences, modifiedStart, modifiedEnd);
    rebuilt.Ok? && rebuilt.value.Some? ==> WeeklyRecurrence.CanRun(rebuilt.value.value, nextDateMode)
  }

  predicate MonthlyRunnable(seriesInfo: string, modifiedOccurrences: int, modifiedStart: Option<DateTime>, modifiedEnd: DateTime, nextDateMode: bool) {
    var rebuilt := MonthlyRecurrence.Rebuild(seriesInfo, modifiedOccurrences, modifiedStart, modifiedEnd);
    rebuilt.Ok? ==> MonthlyRecurrence.CanRun(rebuilt.value, nextDateMode)
  }

  /** The generator the token's letter names can run to completion. */
  predicate Runnable(seriesInfo: string, modifiedOccurrences: int, modifiedStart: Option<DateTime>, modifiedEnd: DateTime, nextDateMode: bool) {
    var kind := KindOf(seriesInfo);
    (kind == Ok(RecurrenceType.Daily) ==> DailyRunnable(seriesInfo, modifiedOccurrences, modifiedStart, modifiedEnd, nextDateMode)) &&
    (kind == Ok(RecurrenceType.Weekly) ==> WeeklyRunnable(seriesInfo, modifiedOccurrences, modifiedStart, modifiedEnd, nextDateMode)) &&
    (kind == Ok(RecurrenceType.Monthly) ==> MonthlyRunnable(seriesInfo, modifiedOccurrences, modifiedStart, modifiedEnd, nextDateMode))
  }

  /** A rule the monthly generator rebuilds from a runnable token can run. */
  lemma MonthlyCanRunAt(seriesInfo: string, modifiedOccurrences: int, modifiedStart: Option<DateTime>, modifiedEnd: DateTime, nextDateMode: bool, rebuilt: MonthlyRecurrence.MonthlyRule)
    requires MonthlyRecurrence.Rebuild(seriesInfo, modifiedOccurrences, modifiedStart, modifiedEnd) == Ok(rebuilt)
    requires MonthlyRunnable(seriesInfo, modifiedOccurrences, modifiedStart, modifiedEnd, nextDateMode)
    ensures MonthlyRecurrence.CanRun(rebuilt, nextDateMode)
  {
  }

  /** A rule the weekly generator rebuilds from a runnable token can run. */
  lemma WeeklyCanRunAt(seriesInfo: string, modifiedOccurrences: int, modifiedStart: Option<DateTime>, modifiedEnd: DateTime, nextDateMode: bool, rebuilt: WeeklyRecurrence.WeeklyRule)
    requires WeeklyRecurrence.Rebuild(seriesInfo, modifiedOccurrences, modifiedStart, modifiedEnd) == Ok(Some(rebuilt))
    requires WeeklyRunnable(seriesInfo, modifiedOccurrences, modifiedStart, modifiedEnd, nextDateMode)
    ensures WeeklyRecurrence.CanRun(rebuilt, nextDateMode)
  {
  }

  /** A rule the daily generator rebuilds from a runnable token can run. */
  lemma DailyCanRunAt(seriesInfo: string, modifiedOccurrences: int, modifiedStart: Option<DateTime>, modifiedEnd: DateTime, nextDateMode: bool, rebuilt: DailyRecurrence.DailyRule)
    requires DailyRecurrence.Rebuild(seriesInfo, modifiedOccurrences, modifiedStart, modifiedEnd) == Ok(Some(rebuilt))
    requires DailyRunnable(seriesInfo, modifiedOccurrences, modifiedStart, modifiedEnd, nextDateMode)
    ensures DailyRecurrence.CanRun(rebuilt, nextDateMode)
  {
  }

  /** The yearly generator rebuilt from a token, run in bulk. */
  function YearlyValues(seriesInfo: string, modifiedOccurrences: int, modifiedStart: Option<DateTime>, modifiedEnd: DateTime): Result<Summary> {
    match YearlyRecurrence.Rebuild(seriesInfo, modifiedOccurrences, modifiedStart, modifiedEnd)
    case Err(e) => Err(e)
    case Ok(rule) => YearlyRun(rule)
  }

  /** The monthly generator rebuilt from a token, run in bulk. */
  function MonthlyValues(seriesInfo: string, modifiedOccurrences: int, modifiedStart: Option<DateTime>, modifiedEnd: DateTime): Result<Summary>
    requires MonthlyRunnable(seriesInfo, modifiedOccurrences, modifiedStart, modifiedEnd, false)
  {
    match MonthlyRecurrence.Rebuild(seriesInfo, modifiedOccurrences, modifiedStart, modifiedEnd)
    case Err(e) => Err(e)
    case Ok(rule) => MonthlyRun(rule)
  }

  /** The weekly generator rebuilt from a token, run in bulk; a NullReference where none is built. */
  function WeeklyValues(seriesInfo: string, modifiedOccurrences: int, modifiedStart: Option<DateTime>, modifiedEnd: DateTime): Result<Summary>
    requires WeeklyRunnable(seriesInfo, modifiedOccurrences, modifiedStart, modifiedEnd, false)
  {
    match WeeklyRecurrence.Rebuild(seriesInfo, modifiedOccurrences, modifiedStart, modifiedEnd)
    case Err(e) => Err(e)
    case Ok(None) => Err(NullReference)
    case Ok(Some(rule)) => WeeklyRun(rule)
  }

  /** The daily generator rebuilt from a token, run in bulk; a NullReference where none is built. */
  function DailyValues(seriesInfo: string, modifiedOccurrences: int, modifiedStart: Option<DateTime>, modifiedEnd: DateTime): Result<Summary>
    requires DailyRunnable(seriesInfo, modifiedOccurrences, modifiedStart, modifiedEnd, false)
  {
    match DailyRecurrence.Rebuild(seriesInfo, modifiedOccurrences, modifiedStart, modifiedEnd)
    case Err(e) => Err(e)
    case Ok(None) => Err(NullReference)
    case Ok(Some(rule)) => DailyRun(rule)
  }

  /**
   * What GetRecurrenceValues hands back for a token with the count
   * override (-1 for none), the start override (None: the token's own)
   * and the end-date override (DateTime.MinValue for none): the named
   * generator rebuilt with the overrides and run in bulk, a NullReference
   * where no generator is built, or the exception rebuilding throws.
   */
  function Regenerate(seriesInfo: string, modifiedOccurrences: int, modifiedStart: Option<DateTime>, modifiedEnd: DateTime): Result<Summary>
    requires Runnable(seriesInfo, modifiedOccurrences, modifiedStart, modifiedEnd, false)
  {
    match KindOf(seriesInfo)
    case Err(e) => Err(e)
    case Ok(kind) =>
      if kind == RecurrenceType.Yearly then YearlyValues(seriesInfo, modifiedOccurrences, modifiedStart, modifiedEnd)
      else if kind == RecurrenceType.Monthly then MonthlyValues(seriesInfo, modifiedOccurrences, modifiedStart, modifiedEnd)
      else if kind == RecurrenceType.Weekly then WeeklyValues(seriesInfo, modifiedOccurrences, modifiedStart, modifiedEnd)
      else if kind == RecurrenceType.Daily then DailyValues(seriesInfo, modifiedOccurrences, modifiedStart, modifiedEnd)
      else Err(NullReference)
  }

  /** A token the yearly generator rebuilds to a rule runs that rule. */
  lemma YearlyValuesAt(seriesInfo: string, modifiedOccurrences: int, modifiedStart: Option<DateTime>, modifiedEnd: DateTime, rebuilt: YearlyRecurrence.YearlyRule)
    requires YearlyRecurrence.Rebuild(seriesInfo, modifiedOccurrences, modifiedStart, modifiedEnd) == Ok(rebuilt)
    ensures YearlyValues(seriesInfo, modifiedOccurrences, modifiedStart, modifiedEnd) == YearlyRun(rebuilt)
  {
  }

  /** A token the monthly generator rebuilds to a rule runs that rule. */
  lemma MonthlyValuesAt(seriesInfo: string, modifiedOccurrences: int, modifiedStart: Option<DateTime>, modifiedEnd: DateTime, rebuilt: MonthlyRecurrence.MonthlyRule)
    requires MonthlyRecurrence.Rebuild(seriesInfo, modifiedOccurrences, modifiedStart, modifiedEnd) == Ok(rebuilt)
    requires MonthlyRecurrence.CanRun(rebuilt, false)
    ensures MonthlyRunnable(seriesInfo, modifiedOccurrences, modifiedStart, modifiedEnd, false)
    ensures MonthlyValues(seriesInfo, modifiedOccurrences, modifiedStart, modifiedEnd) == MonthlyRun(rebuilt)
  {
  }

  /** A token the weekly generator rebuilds to a rule runs that rule. */
  lemma WeeklyValuesAt(seriesInfo: string, modifiedOccurrences: int, modifiedStart: Option<DateTime>, modifiedEnd: DateTime, rebuilt: WeeklyRecurrence.WeeklyRule)
    requires WeeklyRecurrence.Rebuild(seriesInfo, modifiedOccurrences, modifiedStart, modifiedEnd) == Ok(Some(rebuilt))
    requires WeeklyRecurrence.CanRun(rebuilt, false)
    ensures WeeklyRunnable(seriesInfo, modifiedOccurrences, modifiedStart, modifiedEnd, false)
    ensures WeeklyValues(seriesInfo, modifiedOccurrences, modifiedStart, modifiedEnd) == WeeklyRun(rebuilt)
  {
  }

  /** A token the daily generator rebuilds to a rule runs that rule. */
  lemma DailyValuesAt(seriesInfo: string, modifiedOccurrences: int, modifiedStart: Option<DateTime>, modifiedEnd: DateTime, rebuilt: DailyRecurrence.DailyRule)
    requires DailyRecurrence.Rebuild(seriesInfo, modifiedOccurrences, modifiedStart, modifiedEnd) == Ok(Some(rebuilt))
    requires DailyRecurrence.CanRun(rebuilt, false)
    ensures DailyRunnable(seriesInfo, modifiedOccurrences, modifiedStart, modifiedEnd, false)
    ensures DailyValues(seriesInfo, modifiedOccurrences, modifiedStart, modifiedEnd) == DailyRun(rebuilt)
  {
  }

  /** On a token starting with Y, Regenerate is the yearly generator's run. */
  lemma DispatchYearly(seriesInfo: string, modifiedOccurrences: int, modifiedStart: Option<DateTime>, modifiedEnd: DateTime)
    requires KindOf(seriesInfo) == Ok(RecurrenceType.Yearly)
    ensures Runnable(seriesInfo, modifiedOccurrences, modifiedStart, modifiedEnd, false)
    ensures Regenerate(seriesInfo, modifiedOccurrences, modifiedStart, modifiedEnd) == YearlyValues(seriesInfo, modifiedOccurrences, modifiedStart, modifiedEnd)
  {
  }

  /** On a token starting with M, Regenerate is the monthly generator's run. */
  lemma DispatchMonthly(seriesInfo: string, modifiedOccurrences: int, modifiedStart: Option<DateTime>, modifiedEnd: DateTime)
    requires KindOf(seriesInfo) == Ok(RecurrenceType.Monthly)
    requires MonthlyRunnable(seriesInfo, modifiedOccurrences, modifiedStart, modifiedEnd, false)
    ensures Runnable(seriesInfo, modifiedOccurrences, modifiedStart, modifiedEnd, false)
    ensures Regenerate(seriesInfo, modifiedOccurrences, modifiedStart, modifiedEnd) == MonthlyValues(seriesInfo, modifiedOccurrences, modifiedStart, modifiedEnd)
  {
  }

  /** On a token starting with W, Regenerate is the weekly generator's run. */
  lemma DispatchWeekly(seriesInfo: string, modifiedOccurrences: int, modifiedStart: Option<DateTime>, modifiedEnd: DateTime)
    requires KindOf(seriesInfo) == Ok(RecurrenceType.Weekly)
    requires WeeklyRunnable(seriesInfo, modifiedOccurrences, modifiedStart, modifiedEnd, false)
    ensures Runnable(seriesInfo, modifiedOccurrences, modifiedStart, modifiedEnd, false)
    ensures Regenerate(seriesInfo, modifiedOccurrences, modifiedStart, modifiedEnd) == WeeklyValues(seriesInfo, modifiedOccurrences, modifiedStart, modifiedEnd)
  {
  }

  /** On a token starting with D, Regenerate is the daily generator's run. */
  lemma DispatchDaily(seriesInfo: string, modifiedOccurrences: int, modifiedStart: Option<DateTime>, modifiedEnd: DateTime)
    requires KindOf(seriesInfo) == Ok(RecurrenceType.Daily)
    requires DailyRunnable(seriesInfo, modifiedOccurrences, modifiedStart, modifiedEnd, false)
    ensures Runnable(seriesInfo, modifiedOccurrences, modifiedStart, modifiedEnd, false)
    ensures Regenerate(seriesInfo, modifiedOccurrences, modifiedStart, modifiedEnd) == DailyValues(seriesInfo, modifiedOccurrences, modifiedStart, modifiedEnd)
  {
  }

  /** A yearly rule's token names the yearly generator. */
  lemma YearlyLetter(rule: YearlyRecurrence.YearlyRule)
    requires YearlyRecurrence.Encodable(rule) && rule.bounds.Complete()
    ensures KindOf(YearlyRecurrence.Encode(rule)) == Ok(RecurrenceType.Yearly)
  {
  }

  /** A monthly rule's token names the monthly generator. */
  lemma MonthlyLetter(rule: MonthlyRecurrence.MonthlyRule)
    requires MonthlyRecurrence.Encodable(rule) && rule.bounds.Complete()
    ensures KindOf(MonthlyRecurrence.Encode(rule)) == Ok(RecurrenceType.Monthly)
  {
  }

  /** A weekly rule's token names the weekly generator. */
  lemma WeeklyLetter(rule: WeeklyRecurrence.WeeklyRule)
    requires WeeklyRecurrence.Encodable(rule) && rule.bounds.Complete()
    ensures KindOf(WeeklyRecurrence.Encode(rule)) == Ok(RecurrenceType.Weekly)
  {
  }

  /** A daily rule's token names the daily generator. */
  lemma DailyLetter(rule: DailyRecurrence.DailyRule)
    requires DailyRecurrence.Encodable(rule) && rule.bounds.Complete()
    ensures KindOf(DailyRecurrence.Encode(rule)) == Ok(RecurrenceType.Daily)
  {
  }

  /** A yearly rule's token, rebuilt with the overrides, runs the rule they restore. */
  lemma YearlyTokenValues(rule: YearlyRecurrence.YearlyRule, modifiedOccurrences: int, modifiedStart: Option<DateTime>, modifiedEnd: DateTime)
    returns (rebuilt: YearlyRecurrence.YearlyRule)
    requires YearlyRecurrence.Encodable(rule) && rule.bounds.Complete()
    requires rule.regenType.OnSpecificDayOfYear? || rule.regenType.OnCustomDateFormat?
    ensures YearlyRecurrence.Restored(rebuilt, rule, modifiedOccurrences, modifiedStart, modifiedEnd)
    ensures YearlyValues(YearlyRecurrence.Encode(rule), modifiedOccurrences, modifiedStart, modifiedEnd) == YearlyRun(rebuilt)
  {
    rebuilt := YearlyRecurrence.RebuildEncode(rule, modifiedOccurrences, modifiedStart, modifiedEnd);
    YearlyValuesAt(YearlyRecurrence.Encode(rule), modifiedOccurrences, modifiedStart, modifiedEnd, rebuilt);
  }

  /** A yearly rule's token, rebuilt without overrides, runs the rule itself. */
  lemma YearlyTokenReproduces(rule: YearlyRecurrence.YearlyRule)
    requires YearlyRecurrence.Encodable(rule) && rule.bounds.Complete() && rule.bounds.Canonical()
    requires rule.regenType.OnSpecificDayOfYear? ==>
      rule.specificDatePartOne.NotSet? && rule.specificDatePartTwo.NotSet? && rule.specificDatePartThree.NotSet?
    requires rule.regenType.OnCustomDateFormat? ==>
      rule.regenerateOnSpecificDateDayValue == 0 && rule.regenerateOnSpecificDateMonthValue == 0
    requires rule.regenType.OnSpecificDayOfYear? || rule.regenType.OnCustomDateFormat?
    ensures YearlyValues(YearlyRecurrence.Encode(rule), -1, None, MinValue) == YearlyRun(rule)
  {
    YearlyRecurrence.TokenReproduces(rule);
    YearlyValuesAt(YearlyRecurrence.Encode(rule), -1, None, MinValue, rule);
  }

  /** A monthly rule's token, rebuilt with the overrides, runs the rule they restore. */
  lemma MonthlyTokenValues(rule: MonthlyRecurrence.MonthlyRule, modifiedOccurrences: int, modifiedStart: Option<DateTime>, modifiedEnd: DateTime)
    returns (rebuilt: MonthlyRecurrence.MonthlyRule)
    requires MonthlyRecurrence.Encodable(rule) && rule.bounds.Complete()
    requires rule.regenType.OnSpecificDayOfMonth? || rule.regenType.OnCustomDateFormat?
    requires rule.regenEveryXMonths >= 1
    ensures MonthlyRecurrence.Restored(rebuilt, rule, modifiedOccurrences, modifiedStart, modifiedEnd)
    ensures MonthlyRecurrence.CanRun(rebuilt, false)
    ensures MonthlyRunnable(MonthlyRecurrence.Encode(rule), modifiedOccurrences, modifiedStart, modifiedEnd, false)
    ensures MonthlyValues(MonthlyRecurrence.Encode(rule), modifiedOccurrences, modifiedStart, modifiedEnd) == MonthlyRun(rebuilt)
  {
    rebuilt := MonthlyRecurrence.RebuildEncode(rule, modifiedOccurrences, modifiedStart, modifiedEnd);
    MonthlyValuesAt(MonthlyRecurrence.Encode(rule), modifiedOccurrences, modifiedStart, modifiedEnd, rebuilt);
  }

  /** A monthly rule's token, rebuilt without overrides, runs the rule itself. */
  lemma MonthlyTokenReproduces(rule: MonthlyRecurrence.MonthlyRule)
    requires MonthlyRecurrence.Encodable(rule) && rule.bounds.Complete() && rule.bounds.Canonical()
    requires rule.regenType.OnSpecificDayOfMonth? ==> rule.specificDatePartOne.NotSet? && rule.specificDatePartTwo.NotSet?
    requires rule.regenType.OnCustomDateFormat? ==> rule.regenerateOnSpecificDateDayValue == 0
    requires rule.regenType.OnSpecificDayOfMonth? || rule.regenType.OnCustomDateFormat?
    requires MonthlyRecurrence.CanRun(rule, false)
    ensures MonthlyRunnable(MonthlyRecurrence.Encode(rule), -1, None, MinValue, false)
    ensures MonthlyValues(MonthlyRecurrence.Encode(rule), -1, None, MinValue) == MonthlyRun(rule)
  {
    MonthlyRecurrence.TokenReproduces(rule);
    MonthlyValuesAt(MonthlyRecurrence.Encode(rule), -1, None, MinValue, rule);
  }

  /** A weekly rule's token, rebuilt with the overrides, runs the rule they restore. */
  lemma WeeklyTokenValues(rule: WeeklyRecurrence.WeeklyRule, modifiedOccurrences: int, modifiedStart: Option<DateTime>, modifiedEnd: DateTime)
    returns (rebuilt: WeeklyRecurrence.WeeklyRule)
    requires WeeklyRecurrence.Encodable(rule) && rule.bounds.Complete()
    requires rule.selectedDays.Any()
    ensures WeeklyRecurrence.Restored(rebuilt, rule, modifiedOccurrences, modifiedStart, modifiedEnd)
    ensures WeeklyRecurrence.CanRun(rebuilt, false)
    ensures WeeklyRunnable(WeeklyRecurrence.Encode(rule), modifiedOccurrences, modifiedStart, modifiedEnd, false)
    ensures WeeklyValues(WeeklyRecurrence.Encode(rule), modifiedOccurrences, modifiedStart, modifiedEnd) == WeeklyRun(rebuilt)
  {
    rebuilt := WeeklyRecurrence.RebuildEncode(rule, modifiedOccurrences, modifiedStart, modifiedEnd);
    WeeklyValuesAt(WeeklyRecurrence.Encode(rule), modifiedOccurrences, modifiedStart, modifiedEnd, rebuilt);
  }

  /** A weekly rule's token, rebuilt without overrides, runs the rule itself. */
  lemma WeeklyTokenReproduces(rule: WeeklyRecurrence.WeeklyRule)
    requires WeeklyRecurrence.Encodable(rule) && rule.bounds.Complete() && rule.bounds.Canonical()
    requires WeeklyRecurrence.CanRun(rule, false)
    ensures WeeklyRunnable(WeeklyRecurrence.Encode(rule), -1, None, MinValue, false)
    ensures WeeklyValues(WeeklyRecurrence.Encode(rule), -1, None, MinValue) == WeeklyRun(rule)
  {
    WeeklyRecurrence.TokenReproduces(rule);
    WeeklyValuesAt(WeeklyRecurrence.Encode(rule), -1, None, MinValue, rule);
  }

  /** A daily rule's token, rebuilt with the overrides, runs the rule they restore. */
  lemma DailyTokenValues(rule: DailyRecurrence.DailyRule, modifiedOccurrences: int, modifiedStart: Option<DateTime>, modifiedEnd: DateTime)
    returns (rebuilt: DailyRecurrence.DailyRule)
    requires DailyRecurrence.Encodable(rule) && rule.bounds.Complete()
    requires rule.Advances()
    ensures DailyRecurrence.Restored(rebuilt, rule, modifiedOccurrences, modifiedStart, modifiedEnd)
    ensures rebuilt.Advances()
    ensures DailyRunnable(DailyRecurrence.Encode(rule), modifiedOccurrences, modifiedStart, modifiedEnd, false)
    ensures DailyValues(DailyRecurrence.Encode(rule), modifiedOccurrences, modifiedStart, modifiedEnd) == DailyRun(rebuilt)
  {
    rebuilt := DailyRecurrence.RebuildEncode(rule, modifiedOccurrences, modifiedStart, modifiedEnd);
    DailyValuesAt(DailyRecurrence.Encode(rule), modifiedOccurrences, modifiedStart, modifiedEnd, rebuilt);
  }

  /** A daily rule's token, rebuilt without overrides, generates the rule's dates. */
  lemma DailyTokenReproduces(rule: DailyRecurrence.DailyRule) returns (rebuilt: DailyRecurrence.DailyRule)
    requires DailyRecurrence.Encodable(rule) && rule.bounds.Complete()
    requires rule.Advances()
    ensures rebuilt.Advances()
    ensures DailyRunnable(DailyRecurrence.Encode(rule), -1, None, MinValue, false)
    ensures DailyRecurrence.Generate(rebuilt) == DailyRecurrence.Generate(rule)
    ensures DailyValues(DailyRecurrence.Encode(rule), -1, None, MinValue) == DailyRun(rebuilt)
  {
    rebuilt := DailyRecurrence.TokenReproduces(rule, MinValue);
    DailyValuesAt(DailyRecurrence.Encode(rule), -1, None, MinValue, rebuilt);
  }

  /**
   * Re-running a yearly rule's token, with or without overrides, runs the
   * rule the overrides restore.
   */
  lemma RegenerateYearly(rule: YearlyRecurrence.YearlyRule, modifiedOccurrences: int, modifiedStart: Option<DateTime>, modifiedEnd: DateTime)
    returns (rebuilt: YearlyRecurrence.YearlyRule)
    requires YearlyRecurrence.Encodable(rule) && rule.bounds.Complete()
    requires rule.regenType.OnSpecificDayOfYear? || rule.regenType.OnCustomDateFormat?
    ensures Runnable(YearlyRecurrence.Encode(rule), modifiedOccurrences, modifiedStart, modifiedEnd, false)
    ensures YearlyRecurrence.Restored(rebuilt, rule, modifiedOccurrences, modifiedStart, modifiedEnd)
    ensures Regenerate(YearlyRecurrence.Encode(rule), modifiedOccurrences, modifiedStart, modifiedEnd) == YearlyRun(rebuilt)
  {
    YearlyLetter(rule);
    rebuilt := YearlyTokenValues(rule, modifiedOccurrences, modifiedStart, modifiedEnd);
    DispatchYearly(YearlyRecurrence.Encode(rule), modifiedOccurrences, modifiedStart, modifiedEnd);
  }

  /**
   * Re-running a monthly rule's token, with or without overrides, runs the
   * rule the overrides restore.
   */
  lemma RegenerateMonthly(rule: MonthlyRecurrence.MonthlyRule, modifiedOccurrences: int, modifiedStart: Option<DateTime>, modifiedEnd: DateTime)
    returns (rebuilt: MonthlyRecurrence.MonthlyRule)
    requires MonthlyRecurrence.Encodable(rule) && rule.bounds.Complete()
    requires rule.regenType.OnSpecificDayOfMonth? || rule.regenType.OnCustomDateFormat?
    requires rule.regenEveryXMonths >= 1
    ensures Runnable(MonthlyRecurrence.Encode(rule), modifiedOccurrences, modifiedStart, modifiedEnd, false)
    ensures MonthlyRecurrence.Restored(rebuilt, rule, modifiedOccurrences, modifiedStart, modifiedEnd)
    ensures MonthlyRecurrence.CanRun(rebuilt, false)
    ensures Regenerate(MonthlyRecurrence.Encode(rule), modifiedOccurrences, modifiedStart, modifiedEnd) == MonthlyRun(rebuilt)
  {
    MonthlyLetter(rule);
    rebuilt := MonthlyTokenValues(rule, modifiedOccurrences, modifiedStart, modifiedEnd);
    DispatchMonthly(MonthlyRecurrence.Encode(rule), modifiedOccurrences, modifiedStart, modifiedEnd);
  }

  /**
   * Re-running a weekly rule's token, with or without overrides, runs the
   * rule the overrides restore.
   */
  lemma RegenerateWeekly(rule: WeeklyRecurrence.WeeklyRule, modifiedOccurrences: int, modifiedStart: Option<DateTime>, modifiedEnd: DateTime)
    returns (rebuilt: WeeklyRecurrence.WeeklyRule)
    requires WeeklyRecurrence.Encodable(rule) && rule.bounds.Complete()
    requires rule.selectedDays.Any()
    ensures Runnable(WeeklyRecurrence.Encode(rule), modifiedOccurrences, modifiedStart, modifiedEnd, false)
    ensures WeeklyRecurrence.Restored(rebuilt, rule, modifiedOccurrences, modifiedStart, modifiedEnd)
    ensures WeeklyRecurrence.CanRun(rebuilt, false)
    ensures Regenerate(WeeklyRecurrence.Encode(rule), modifiedOccurrences, modifiedStart, modifiedEnd) == WeeklyRun(rebuilt)
  {
    WeeklyLetter(rule);
    rebuilt := WeeklyTokenValues(rule, modifiedOccurrences, modifiedStart, modifiedEnd);
    DispatchWeekly(WeeklyRecurrence.Encode(rule), modifiedOccurrences, modifiedStart, modifiedEnd);
  }

  /**
   * Re-running a daily rule's token, with or without overrides, runs the
   * rule the overrides restore.
   */
  lemma RegenerateDaily(rule: DailyRecurrence.DailyRule, modifiedOccurrences: int, modifiedStart: Option<DateTime>, modifiedEnd: DateTime)
    returns (rebuilt: DailyRecurrence.DailyRule)
    requires DailyRecurrence.Encodable(rule) && rule.bounds.Complete()
    requires rule.Advances()
    ensures Runnable(DailyRecurrence.Encode(rule), modifiedOccurrences, modifiedStart, modifiedEnd, false)
    ensures DailyRecurrence.Restored(rebuilt, rule, modifiedOccurrences, modifiedStart, modifiedEnd)
    ensures rebuilt.Advances()
    ensures Regenerate(DailyRecurrence.Encode(rule), modifiedOccurrences, modifiedStart, modifiedEnd) == DailyRun(rebuilt)
  {
    DailyLetter(rule);
    rebuilt := DailyTokenValues(rule, modifiedOccurrences, modifiedStart, modifiedEnd);
    DispatchDaily(DailyRecurrence.Encode(rule), modifiedOccurrences, modifiedStart, modifiedEnd);
  }

  /**
   * A yearly series' token reproduces the series: its dates, first and
   * last date and the token itself.
   */
  lemma ReproduceYearly(rule: YearlyRecurrence.YearlyRule)
    requires YearlyRecurrence.Encodable(rule) && rule.bounds.Complete() && rule.bounds.Canonical()
    requires rule.regenType.OnSpecificDayOfYear? ==>
      rule.specificDatePartOne.NotSet? && rule.specificDatePartTwo.NotSet? && rule.specificDatePartThree.NotSet?
    requires rule.regenType.OnCustomDateFormat? ==>
      rule.regenerateOnSpecificDateDayValue == 0 && rule.regenerateOnSpecificDateMonthValue == 0
    requires rule.regenType.OnSpecificDayOfYear? || rule.regenType.OnCustomDateFormat?
    ensures Runnable(YearlyRecurrence.Encode(rule), -1, None, MinValue, false)
    ensures Regenerate(YearlyRecurrence.Encode(rule), -1, None, MinValue) == YearlyRun(rule)
  {
    YearlyLetter(rule);
    YearlyTokenReproduces(rule);
    DispatchYearly(YearlyRecurrence.Encode(rule), -1, None, MinValue);
  }

  /**
   * A monthly series' token reproduces the series: its dates, first and
   * last date and the token itself.
   */
  lemma ReproduceMonthly(rule: MonthlyRecurrence.MonthlyRule)
    requires MonthlyRecurrence.Encodable(rule) && rule.bounds.Complete() && rule.bounds.Canonical()
    requires rule.regenType.OnSpecificDayOfMonth? ==> rule.specificDatePartOne.NotSet? && rule.specificDatePartTwo.NotSet?
    requires rule.regenType.OnCustomDateFormat? ==> rule.regenerateOnSpecificDateDayValue == 0
    requires rule.regenType.OnSpecificDayOfMonth? || rule.regenType.OnCustomDateFormat?
    requires MonthlyRecurrence.CanRun(rule, false)
    ensures Runnable(MonthlyRecurrence.Encode(rule), -1, None, MinValue, false)
    ensures Regenerate(MonthlyRecurrence.Encode(rule), -1, None, MinValue) == MonthlyRun(rule)
  {
    MonthlyLetter(rule);
    MonthlyTokenReproduces(rule);
    DispatchMonthly(MonthlyRecurrence.Encode(rule), -1, None, MinValue);
  }

  /**
   * A weekly series' token reproduces the series: its dates, first and
   * last date and the token itself.
   */
  lemma ReproduceWeekly(rule: WeeklyRecurrence.WeeklyRule)
    requires WeeklyRecurrence.Encodable(rule) && rule.bounds.Complete() && rule.bounds.Canonical()
    requires WeeklyRecurrence.CanRun(rule, false)
    ensures Runnable(WeeklyRecurrence.Encode(rule), -1, None, MinValue, false)
    ensures Regenerate(WeeklyRecurrence.Encode(rule), -1, None, MinValue) == WeeklyRun(rule)
  {
    WeeklyLetter(rule);
    WeeklyTokenReproduces(rule);
    DispatchWeekly(WeeklyRecurrence.Encode(rule), -1, None, MinValue);
  }

  /**
   * A daily series' token reproduces the series' dates (a weekday rule's
   * interval is not read back, so the token can differ in that field).
   */
  lemma ReproduceDaily(rule: DailyRecurrence.DailyRule)
    requires DailyRecurrence.Encodable(rule) && rule.bounds.Complete()
    requires rule.Advances()
    ensures Runnable(DailyRecurrence.Encode(rule), -1, None, MinValue, false)
    ensures var again := Regenerate(DailyRecurrence.Encode(rule), -1, None, MinValue);
      again.Ok? == DailyRecurrence.Generate(rule).Ok? &&
      (again.Ok? ==> again.value.values == DailyRecurrence.Generate(rule).value)
  {
    DailyLetter(rule);
    var rebuilt := DailyTokenReproduces(rule);
    DispatchDaily(DailyRecurrence.Encode(rule), -1, None, MinValue);
  }

  // ---------------------------------------------------------------------
  // GetRecurrenceValues

  /** The yearly branch: GetRecurrenceSettings, then GetValues on the object it builds. */
  method YearlyRegenerated(seriesInfo: string, modifiedOccurrences: int, modifiedStart: Option<DateTime>, modifiedEnd: DateTime)
    returns (r: Result<RecurrenceValues?>)
    ensures Shows(r, YearlyValues(seriesInfo, modifiedOccurrences, modifiedStart, modifiedEnd))
  {
    var settings := YearlyRecurrence.YearlyRecurrenceSettings.GetRecurrenceSettings(seriesInfo, modifiedOccurrences, modifiedStart, modifiedEnd);
    if settings.Err? {
      return Err(settings.error);
    }
    var values := settings.value.GetValues();
    YearlyShows(values, settings.value.Rule());
    YearlyValuesAt(seriesInfo, modifiedOccurrences, modifiedStart, modifiedEnd, settings.value.Rule());
    r := if values.Ok? then Ok(values.value) else Err(values.error);
  }

  /** The monthly branch: GetRecurrenceSettings, then GetValues on the object it builds. */
  method MonthlyRegenerated(seriesInfo: string, modifiedOccurrences: int, modifiedStart: Option<DateTime>, modifiedEnd: DateTime)
    returns (r: Result<RecurrenceValues?>)
    requires MonthlyRunnable(seriesInfo, modifiedOccurrences, modifiedStart, modifiedEnd, false)
    ensures Shows(r, MonthlyValues(seriesInfo, modifiedOccurrences, modifiedStart, modifiedEnd))
  {
    var settings := MonthlyRecurrence.MonthlyRecurrenceSettings.GetRecurrenceSettings(seriesInfo, modifiedOccurrences, modifiedStart, modifiedEnd);
    if settings.Err? {
      return Err(settings.error);
    }
    MonthlyCanRunAt(seriesInfo, modifiedOccurrences, modifiedStart, modifiedEnd, false, settings.value.Rule());
    var values := settings.value.GetValues();
    MonthlyShows(values, settings.value.Rule());
    MonthlyValuesAt(seriesInfo, modifiedOccurrences, modifiedStart, modifiedEnd, settings.value.Rule());
    r := if values.Ok? then Ok(values.value) else Err(values.error);
  }

  /** The weekly branch: GetRecurrenceSettings, then GetValues on the object it builds, if any. */
  method WeeklyRegenerated(seriesInfo: string, modifiedOccurrences: int, modifiedStart: Option<DateTime>, modifiedEnd: DateTime)
    returns (r: Result<RecurrenceValues?>)
    requires WeeklyRunnable(seriesInfo, modifiedOccurrences, modifiedStart, modifiedEnd, false)
    ensures Shows(r, WeeklyValues(seriesInfo, modifiedOccurrences, modifiedStart, modifiedEnd))
  {
    var settings := WeeklyRecurrence.WeeklyRecurrenceSettings.GetRecurrenceSettings(seriesInfo, modifiedOccurrences, modifiedStart, modifiedEnd);
    if settings.Err? {
      return Err(settings.error);
    }
    if settings.value == null {
      return Err(NullReference);
    }
    WeeklyCanRunAt(seriesInfo, modifiedOccurrences, modifiedStart, modifiedEnd, false, settings.value.Rule());
    var values := settings.value.GetValues();
    WeeklyShows(values, settings.value.Rule());
    WeeklyValuesAt(seriesInfo, modifiedOccurrences, modifiedStart, modifiedEnd, settings.value.Rule());
    r := if values.Ok? then Ok(values.value) else Err(values.error);
  }

  /** The daily branch: GetRecurrenceSettings, then GetValues on the object it builds, if any. */
  method DailyRegenerated(seriesInfo: string, modifiedOccurrences: int, modifiedStart: Option<DateTime>, modifiedEnd: DateTime)
    returns (r: Result<RecurrenceValues?>)
    requires DailyRunnable(seriesInfo, modifiedOccurrences, modifiedStart, modifiedEnd, false)
    ensures Shows(r, DailyValues(seriesInfo, modifiedOccurrences, modifiedStart, modifiedEnd))
  {
    var settings := DailyRecurrence.DailyRecurrenceSettings.GetRecurrenceSettings(seriesInfo, modifiedOccurrences, modifiedStart, modifiedEnd);
    if settings.Err? {
      return Err(settings.error);
    }
    if settings.value == null {
      return Err(NullReference);
    }
    DailyCanRunAt(seriesInfo, modifiedOccurrences, modifiedStart, modifiedEnd, false, settings.value.Rule());
    r := settings.value.GetValues();
    DailyShows(r, settings.value.Rule());
    DailyValuesAt(seriesInfo, modifiedOccurrences, modifiedStart, modifiedEnd, settings.value.Rule());
  }

  /**
   * The shared body of the GetRecurrenceValues overloads: rebuild the
   * generator the first letter names with the overrides, then GetValues;
   * a letter no generator owns leaves the settings null.
   */
  method Regenerated(seriesInfo: string, modifiedOccurrences: int, modifiedStart: Option<DateTime>, modifiedEnd: DateTime)
    returns (r: Result<RecurrenceValues?>)
    requires Runnable(seriesInfo, modifiedOccurrences, modifiedStart, modifiedEnd, false)
    ensures Shows(r, Regenerate(seriesInfo, modifiedOccurrences, modifiedStart, modifiedEnd))
  {
    var kind := KindOf(seriesInfo);
    if kind.Err? {
      return Err(kind.error);
    }
    if kind.value == RecurrenceType.Yearly {
      r := YearlyRegenerated(seriesInfo, modifiedOccurrences, modifiedStart, modifiedEnd);
    } else if kind.value == RecurrenceType.Monthly {
      r := MonthlyRegenerated(seriesInfo, modifiedOccurrences, modifiedStart, modifiedEnd);
    } else if kind.value == RecurrenceType.Weekly {
      r := WeeklyRegenerated(seriesInfo, modifiedOccurrences, modifiedStart, modifiedEnd);
    } else if kind.value == RecurrenceType.Daily {
      r := DailyRegenerated(seriesInfo, modifiedOccurrences, modifiedStart, modifiedEnd);
    } else {
      r := Err(NullReference);
    }
  }

  /** GetRecurrenceValues(seriesInfo): the series as the token defines it. */
  method GetRecurrenceValues(seriesInfo: string) returns (r: Result<RecurrenceValues?>)
    requires Runnable(seriesInfo, -1, None, MinValue, false)
    ensures Shows(r, Regenerate(seriesInfo, -1, None, MinValue))
  {
    r := Regenerated(seriesInfo, -1, None, MinValue);
  }

  /** GetRecurrenceValues(modifiedStartDateValue, seriesInfo): the series from another start date. */
  method GetRecurrenceValuesFrom(modifiedStartDateValue: DateTime, seriesInfo: string) returns (r: Result<RecurrenceValues?>)
    requires Runnable(seriesInfo, -1, Some(modifiedStartDateValue), MinValue, false)
    ensures Shows(r, Regenerate(seriesInfo, -1, Some(modifiedStartDateValue), MinValue))
  {
    r := Regenerated(seriesInfo, -1, Some(modifiedStartDateValue), MinValue);
  }

  /** GetRecurrenceValues(seriesInfo, modifiedOccurrencesValue): the series cut to a number of dates. */
  method GetRecurrenceValuesCount(seriesInfo: string, modifiedOccurrencesValue: int) returns (r: Result<RecurrenceValues?>)
    requires Runnable(seriesInfo, modifiedOccurrencesValue, None, MinValue, false)
    ensures Shows(r, Regenerate(seriesInfo, modifiedOccurrencesValue, None, MinValue))
  {
    r := Regenerated(seriesInfo, modifiedOccurrencesValue, None, MinValue);
  }

  /** GetRecurrenceValues(seriesInfo, modifiedStartDateValue, modifiedOccurrencesValue). */
  method GetRecurrenceValuesFromCount(seriesInfo: string, modifiedStartDateValue: DateTime, modifiedOccurrencesValue: int)
    returns (r: Result<RecurrenceValues?>)
    requires Runnable(seriesInfo, modifiedOccurrencesValue, Some(modifiedStartDateValue), MinValue, false)
    ensures Shows(r, Regenerate(seriesInfo, modifiedOccurrencesValue, Some(modifiedStartDateValue), MinValue))
  {
    r := Regenerated(seriesInfo, modifiedOccurrencesValue, Some(modifiedStartDateValue), MinValue);
  }

  /** GetRecurrenceValues(seriesInfo, modifiedEndDateValue): the series up to another end date. */
  method GetRecurrenceValuesUntil(seriesInfo: string, modifiedEndDateValue: DateTime) returns (r: Result<RecurrenceValues?>)
    requires Runnable(seriesInfo, -1, None, modifiedEndDateValue, false)
    ensures Shows(r, Regenerate(seriesInfo, -1, None, modifiedEndDateValue))
  {
    r := Regenerated(seriesInfo, -1, None, modifiedEndDateValue);
  }

  /** GetRecurrenceValues(seriesInfo, modifiedStartDateValue, modifiedEndDateValue). */
  method GetRecurrenceValuesBetween(seriesInfo: string, modifiedStartDateValue: DateTime, modifiedEndDateValue: DateTime)
    returns (r: Result<RecurrenceValues?>)
    requires Runnable(seriesInfo, -1, Some(modifiedStartDateValue), modifiedEndDateValue, false)
    ensures Shows(r, Regenerate(seriesInfo, -1, Some(modifiedStartDateValue), modifiedEndDateValue))
  {
    r := Regenerated(seriesInfo, -1, Some(modifiedStartDateValue), modifiedEndDateValue);
  }

  // ---------------------------------------------------------------------
  // GetNextDate

  /** The yearly generator rebuilt from a token: its next date after the current date. */
  function YearlyNext(seriesInfo: string, currentDate: DateTime): Result<DateTime> {
    match YearlyRecurrence.Rebuild(seriesInfo, -1, None, MinValue)
    case Err(e) => Err(e)
    case Ok(rule) => YearlyRecurrence.NextDate(rule, currentDate)
  }

  /** The monthly generator rebuilt from a token: its next date after the current date. */
  function MonthlyNext(seriesInfo: string, currentDate: DateTime): Result<DateTime>
    requires MonthlyRunnable(seriesInfo, -1, None, MinValue, true)
  {
    match MonthlyRecurrence.Rebuild(seriesInfo, -1, None, MinValue)
    case Err(e) => Err(e)
    case Ok(rule) => MonthlyRecurrence.NextDate(rule, currentDate)
  }

  /** The weekly generator rebuilt from a token: its next date after the current date. */
  function WeeklyNext(seriesInfo: string, currentDate: DateTime): Result<DateTime>
    requires WeeklyRunnable(seriesInfo, -1, None, MinValue, true)
  {
    match WeeklyRecurrence.Rebuild(seriesInfo, -1, None, MinValue)
    case Err(e) => Err(e)
    case Ok(None) => Err(NullReference)
    case Ok(Some(rule)) => WeeklyRecurrence.NextDate(rule, currentDate)
  }

  /** The daily generator rebuilt from a token: the first date of its series after the current date. */
  function DailyNext(seriesInfo: string, currentDate: DateTime): Result<DateTime>
    requires DailyRunnable(seriesInfo, -1, None, MinValue, true)
  {
    match DailyRecurrence.Rebuild(seriesInfo, -1, None, MinValue)
    case Err(e) => Err(e)
    case Ok(None) => Err(NullReference)
    case Ok(Some(rule)) => Ok(DailyRecurrence.NextAfter(rule, DailyRecurrence.FirstDate(rule), currentDate))
  }

  /**
   * What GetNextDate returns: the next date the named generator's
   * next-date run finds after the current date, or the exception.
   */
  function NextDateOf(seriesInfo: string, currentDate: DateTime): Result<DateTime>
    requires Runnable(seriesInfo, -1, None, MinValue, true)
  {
    match KindOf(seriesInfo)
    case Err(e) => Err(e)
    case Ok(kind) =>
      if kind == RecurrenceType.Yearly then YearlyNext(seriesInfo, currentDate)
      else if kind == RecurrenceType.Monthly then MonthlyNext(seriesInfo, currentDate)
      else if kind == RecurrenceType.Weekly then WeeklyNext(seriesInfo, currentDate)
      else if kind == RecurrenceType.Daily then DailyNext(seriesInfo, currentDate)
      else Err(NullReference)
  }

  /** A token the yearly generator rebuilds to a rule has that rule's next date. */
  lemma YearlyNextAt(seriesInfo: string, currentDate: DateTime, rebuilt: YearlyRecurrence.YearlyRule)
    requires YearlyRecurrence.Rebuild(seriesInfo, -1, None, MinValue) == Ok(rebuilt)
    ensures YearlyNext(seriesInfo, currentDate) == YearlyRecurrence.NextDate(rebuilt, currentDate)
  {
  }

  /** A token the monthly generator rebuilds to a rule has that rule's next date. */
  lemma MonthlyNextAt(seriesInfo: string, currentDate: DateTime, rebuilt: MonthlyRecurrence.MonthlyRule)
    requires MonthlyRecurrence.Rebuild(seriesInfo, -1, None, MinValue) == Ok(rebuilt)
    requires MonthlyRecurrence.CanRun(rebuilt, true)
    ensures MonthlyRunnable(seriesInfo, -1, None, MinValue, true)
    ensures MonthlyNext(seriesInfo, currentDate) == MonthlyRecurrence.NextDate(rebuilt, currentDate)
  {
  }

  /** A token the weekly generator rebuilds to a rule has that rule's next date. */
  lemma WeeklyNextAt(seriesInfo: string, currentDate: DateTime, rebuilt: WeeklyRecurrence.WeeklyRule)
    requires WeeklyRecurrence.Rebuild(seriesInfo, -1, None, MinValue) == Ok(Some(rebuilt))
    requires WeeklyRecurrence.CanRun(rebuilt, true)
    ensures WeeklyRunnable(seriesInfo, -1, None, MinValue, true)
    ensures WeeklyNext(seriesInfo, currentDate) == WeeklyRecurrence.NextDate(rebuilt, currentDate)
  {
  }

  /** A token the daily generator rebuilds to a rule has that rule's next date. */
  lemma DailyNextAt(seriesInfo: string, currentDate: DateTime, rebuilt: DailyRecurrence.DailyRule)
    requires DailyRecurrence.Rebuild(seriesInfo, -1, None, MinValue) == Ok(Some(rebuilt))
    requires DailyRecurrence.CanRun(rebuilt, true)
    ensures DailyRunnable(seriesInfo, -1, None, MinValue, true)
    ensures DailyNext(seriesInfo, currentDate) == Ok(DailyRecurrence.NextAfter(rebuilt, DailyRecurrence.FirstDate(rebuilt), currentDate))
  {
  }

  /** On a token starting with Y, NextDateOf is the yearly generator's next date. */
  lemma NextDispatchYearly(seriesInfo: string, currentDate: DateTime)
    requires KindOf(seriesInfo) == Ok(RecurrenceType.Yearly)
    ensures Runnable(seriesInfo, -1, None, MinValue, true)
    ensures NextDateOf(seriesInfo, currentDate) == YearlyNext(seriesInfo, currentDate)
  {
  }

  /** On a token starting with M, NextDateOf is the monthly generator's next date. */
  lemma NextDispatchMonthly(seriesInfo: string, currentDate: DateTime)
    requires KindOf(seriesInfo) == Ok(RecurrenceType.Monthly)
    requires MonthlyRunnable(seriesInfo, -1, None, MinValue, true)
    ensures Runnable(seriesInfo, -1, None, MinValue, true)
    ensures NextDateOf(seriesInfo, currentDate) == MonthlyNext(seriesInfo, currentDate)
  {
  }

  /** On a token starting with W, NextDateOf is the weekly generator's next date. */
  lemma NextDispatchWeekly(seriesInfo: string, currentDate: DateTime)
    requires KindOf(seriesInfo) == Ok(RecurrenceType.Weekly)
    requires WeeklyRunnable(seriesInfo, -1, None, MinValue, true)
    ensures Runnable(seriesInfo, -1, None, MinValue, true)
    ensures NextDateOf(seriesInfo, currentDate) == WeeklyNext(seriesInfo, currentDate)
  {
  }

  /** On a token starting with D, NextDateOf is the daily generator's next date. */
  lemma NextDispatchDaily(seriesInfo: string, currentDate: DateTime)
    requires KindOf(seriesInfo) == Ok(RecurrenceType.Daily)
    requires DailyRunnable(seriesInfo, -1, None, MinValue, true)
    ensures Runnable(seriesInfo, -1, None, MinValue, true)
    ensures NextDateOf(seriesInfo, currentDate) == DailyNext(seriesInfo, currentDate)
  {
  }

  /** The yearly branch of GetNextDate. */
  method YearlyNextDate(currentDate: DateTime, seriesInfo: string) returns (r: Result<DateTime>)
    ensures r == YearlyNext(seriesInfo, currentDate)
  {
    var settings := YearlyRecurrence.YearlyRecurrenceSettings.GetRecurrenceSettings(seriesInfo, -1, None, MinValue);
    if settings.Err? {
      return Err(settings.error);
    }
    r := settings.value.GetNextDate(currentDate);
    YearlyNextAt(seriesInfo, currentDate, settings.value.Rule());
  }

  /** The monthly branch of GetNextDate. */
  method MonthlyNextDate(currentDate: DateTime, seriesInfo: string) returns (r: Result<DateTime>)
    requires MonthlyRunnable(seriesInfo, -1, None, MinValue, true)
    ensures r == MonthlyNext(seriesInfo, currentDate)
  {
    var settings := MonthlyRecurrence.MonthlyRecurrenceSettings.GetRecurrenceSettings(seriesInfo, -1, None, MinValue);
    if settings.Err? {
      return Err(settings.error);
    }
    MonthlyCanRunAt(seriesInfo, -1, None, MinValue, true, settings.value.Rule());
    r := settings.value.GetNextDate(currentDate);
    MonthlyNextAt(seriesInfo, currentDate, settings.value.Rule());
  }

  /** The weekly branch of GetNextDate; a null settings object is dereferenced. */
  method WeeklyNextDate(currentDate: DateTime, seriesInfo: string) returns (r: Result<DateTime>)
    requires WeeklyRunnable(seriesInfo, -1, None, MinValue, true)
    ensures r == WeeklyNext(seriesInfo, currentDate)
  {
    var settings := WeeklyRecurrence.WeeklyRecurrenceSettings.GetRecurrenceSettings(seriesInfo, -1, None, MinValue);
    if settings.Err? {
      return Err(settings.error);
    }
    if settings.value == null {
      return Err(NullReference);
    }
    WeeklyCanRunAt(seriesInfo, -1, None, MinValue, true, settings.value.Rule());
    r := settings.value.GetNextDate(currentDate);
    WeeklyNextAt(seriesInfo, currentDate, settings.value.Rule());
  }

  /** The daily branch of GetNextDate; a null settings object is dereferenced. */
  method DailyNextDate(currentDate: DateTime, seriesInfo: string) returns (r: Result<DateTime>)
    requires DailyRunnable(seriesInfo, -1, None, MinValue, true)
    ensures r == DailyNext(seriesInfo, currentDate)
  {
    var settings := DailyRecurrence.DailyRecurrenceSettings.GetRecurrenceSettings(seriesInfo, -1, None, MinValue);
    if settings.Err? {
      return Err(settings.error);
    }
    if settings.value == null {
      return Err(NullReference);
    }
    DailyCanRunAt(seriesInfo, -1, None, MinValue, true, settings.value.Rule());
    var next := settings.value.GetNextDate(currentDate);
    r := Ok(next);
    DailyNextAt(seriesInfo, currentDate, settings.value.Rule());
  }

  /** GetNextDate(currentDate, seriesInfo). */
  method GetNextDate(currentDate: DateTime, seriesInfo: string) returns (r: Result<DateTime>)
    requires Runnable(seriesInfo, -1, None, MinValue, true)
    ensures r == NextDateOf(seriesInfo, currentDate)
  {
    var kind := KindOf(seriesInfo);
    if kind.Err? {
      return Err(kind.error);
    }
    if kind.value == RecurrenceType.Yearly {
      r := YearlyNextDate(currentDate, seriesInfo);
    } else if kind.value == RecurrenceType.Monthly {
      r := MonthlyNextDate(currentDate, seriesInfo);
    } else if kind.value == RecurrenceType.Weekly {
      r := WeeklyNextDate(currentDate, seriesInfo);
    } else if kind.value == RecurrenceType.Daily {
      r := DailyNextDate(currentDate, seriesInfo);
    } else {
      r := Err(NullReference);
    }
  }

  /** A yearly rule's token, rebuilt, finds the rule's next date. */
  lemma YearlyTokenNext(rule: YearlyRecurrence.YearlyRule, currentDate: DateTime)
    requires YearlyRecurrence.Encodable(rule) && rule.bounds.Complete() && rule.bounds.Canonical()
    requires rule.regenType.OnSpecificDayOfYear? ==>
      rule.specificDatePartOne.NotSet? && rule.specificDatePartTwo.NotSet? && rule.specificDatePartThree.NotSet?
    requires rule.regenType.OnCustomDateFormat? ==>
      rule.regenerateOnSpecificDateDayValue == 0 && rule.regenerateOnSpecificDateMonthValue == 0
    requires rule.regenType.OnSpecificDayOfYear? || rule.regenType.OnCustomDateFormat?
    ensures YearlyNext(YearlyRecurrence.Encode(rule), currentDate) == YearlyRecurrence.NextDate(rule, currentDate)
  {
    YearlyRecurrence.TokenReproduces(rule);
    YearlyNextAt(YearlyRecurrence.Encode(rule), currentDate, rule);
  }

  /** A monthly rule's token, rebuilt, finds the rule's next date. */
  lemma MonthlyTokenNext(rule: MonthlyRecurrence.MonthlyRule, currentDate: DateTime)
    requires MonthlyRecurrence.Encodable(rule) && rule.bounds.Complete() && rule.bounds.Canonical()
    requires rule.regenType.OnSpecificDayOfMonth? ==> rule.specificDatePartOne.NotSet? && rule.specificDatePartTwo.NotSet?
    requires rule.regenType.OnCustomDateFormat? ==> rule.regenerateOnSpecificDateDayValue == 0
    requires rule.regenType.OnSpecificDayOfMonth? || rule.regenType.OnCustomDateFormat?
    requires MonthlyRecurrence.CanRun(rule, true)
    ensures MonthlyRunnable(MonthlyRecurrence.Encode(rule), -1, None, MinValue, true)
    ensures MonthlyNext(MonthlyRecurrence.Encode(rule), currentDate) == MonthlyRecurrence.NextDate(rule, currentDate)
  {
    MonthlyRecurrence.TokenReproduces(rule);
    MonthlyNextAt(MonthlyRecurrence.Encode(rule), currentDate, rule);
  }

  /** A weekly rule's token, rebuilt, finds the rule's next date. */
  lemma WeeklyTokenNext(rule: WeeklyRecurrence.WeeklyRule, currentDate: DateTime)
    requires WeeklyRecurrence.Encodable(rule) && rule.bounds.Complete() && rule.bounds.Canonical()
    requires WeeklyRecurrence.CanRun(rule, true)
    ensures WeeklyRunnable(WeeklyRecurrence.Encode(rule), -1, None, MinValue, true)
    ensures WeeklyNext(WeeklyRecurrence.Encode(rule), currentDate) == WeeklyRecurrence.NextDate(rule, currentDate)
  {
    WeeklyRecurrence.TokenReproduces(rule);
    WeeklyNextAt(WeeklyRecurrence.Encode(rule), currentDate, rule);
  }

  /** A daily rule's token, rebuilt, finds the rule's next date. */
  lemma DailyTokenNext(rule: DailyRecurrence.DailyRule, currentDate: DateTime)
    requires DailyRecurrence.Encodable(rule) && rule.bounds.Complete()
    requires rule.Advances()
    ensures DailyRunnable(DailyRecurrence.Encode(rule), -1, None, MinValue, true)
    ensures DailyNext(DailyRecurrence.Encode(rule), currentDate) ==
      Ok(DailyRecurrence.NextAfter(rule, DailyRecurrence.FirstDate(rule), currentDate))
  {
    var rebuilt := DailyRecurrence.TokenReproduces(rule, currentDate);
    DailyNextAt(DailyRecurrence.Encode(rule), currentDate, rebuilt);
  }

  /** A yearly token's next date is its rule's next date. */
  lemma NextDateYearly(rule: YearlyRecurrence.YearlyRule, currentDate: DateTime)
    requires YearlyRecurrence.Encodable(rule) && rule.bounds.Complete() && rule.bounds.Canonical()
    requires rule.regenType.OnSpecificDayOfYear? ==>
      rule.specificDatePartOne.NotSet? && rule.specificDatePartTwo.NotSet? && rule.specificDatePartThree.NotSet?
    requires rule.regenType.OnCustomDateFormat? ==>
      rule.regenerateOnSpecificDateDayValue == 0 && rule.regenerateOnSpecificDateMonthValue == 0
    requires rule.regenType.OnSpecificDayOfYear? || rule.regenType.OnCustomDateFormat?
    ensures Runnable(YearlyRecurrence.Encode(rule), -1, None, MinValue, true)
    ensures NextDateOf(YearlyRecurrence.Encode(rule), currentDate) == YearlyRecurrence.NextDate(rule, currentDate)
  {
    YearlyLetter(rule);
    YearlyTokenNext(rule, currentDate);
    NextDispatchYearly(YearlyRecurrence.Encode(rule), currentDate);
  }

  /** A monthly token's next date is its rule's next date. */
  lemma NextDateMonthly(rule: MonthlyRecurrence.MonthlyRule, currentDate: DateTime)
    requires MonthlyRecurrence.Encodable(rule) && rule.bounds.Complete() && rule.bounds.Canonical()
    requires rule.regenType.OnSpecificDayOfMonth? ==> rule.specificDatePartOne.NotSet? && rule.specificDatePartTwo.NotSet?
    requires rule.regenType.OnCustomDateFormat? ==> rule.regenerateOnSpecificDateDayValue == 0
    requires rule.regenType.OnSpecificDayOfMonth? || rule.regenType.OnCustomDateFormat?
    requires MonthlyRecurrence.CanRun(rule, true)
    ensures Runnable(MonthlyRecurrence.Encode(rule), -1, None, MinValue, true)
    ensures NextDateOf(MonthlyRecurrence.Encode(rule), currentDate) == MonthlyRecurrence.NextDate(rule, currentDate)
  {
    MonthlyLetter(rule);
    MonthlyTokenNext(rule, currentDate);
    NextDispatchMonthly(MonthlyRecurrence.Encode(rule), currentDate);
  }

  /** A weekly token's next date is its rule's next date. */
  lemma NextDateWeekly(rule: WeeklyRecurrence.WeeklyRule, currentDate: DateTime)
    requires WeeklyRecurrence.Encodable(rule) && rule.bounds.Complete() && rule.bounds.Canonical()
    requires WeeklyRecurrence.CanRun(rule, true)
    ensures Runnable(WeeklyRecurrence.Encode(rule), -1, None, MinValue, true)
    ensures NextDateOf(WeeklyRecurrence.Encode(rule), currentDate) == WeeklyRecurrence.NextDate(rule, currentDate)
  {
    WeeklyLetter(rule);
    WeeklyTokenNext(rule, currentDate);
    NextDispatchWeekly(WeeklyRecurrence.Encode(rule), currentDate);
  }

  /** A daily token's next date is the first date of the rule's series after the current date. */
  lemma NextDateDaily(rule: DailyRecurrence.DailyRule, currentDate: DateTime)
    requires DailyRecurrence.Encodable(rule) && rule.bounds.Complete()
    requires rule.Advances()
    ensures Runnable(DailyRecurrence.Encode(rule), -1, None, MinValue, true)
    ensures NextDateOf(DailyRecurrence.Encode(rule), currentDate) ==
      Ok(DailyRecurrence.NextAfter(rule, DailyRecurrence.FirstDate(rule), currentDate))
  {
    DailyLetter(rule);
    DailyTokenNext(rule, currentDate);
    NextDispatchDaily(DailyRecurrence.Encode(rule), currentDate);
  }

  // ---------------------------------------------------------------------
  // GetPostRecurrenceValues

  /** How a continuation ends: on an end date, or after a number of dates. */
  datatype Extension = UntilDate(endDate: DateTime) | ForOccurrences(count: int)

  /**
   * The end condition GetValues(startDate, endDate) or GetValues(startDate,
   * numberOfOccurrences) leaves on the settings object; the field the new
   * end type does not read keeps its value.
   */
  function Extend(b: Bounds, start: DateTime, ext: Extension): Bounds {
    match ext
    case UntilDate(end) => b.(startDate := start, endDate := Some(end), endDateType := SpecificDate)
    case ForOccurrences(n) => b.(startDate := start, numberOfOccurrences := n, endDateType := NumberOfOccurrences)
  }

  /**
   * LastDate.AddDays(1) on a run: the day after its last date. The last
   * date of an empty run is DateTime.MaxValue, and a day past
   * DateTime.MaxValue throws.
   */
  function DayAfter(s: Summary): (r: Result<DateTime>)
    ensures r.Err? <==> |s.values| == 0 || !Before(s.values[|s.values| - 1], MaxValue)
    ensures r.Err? ==> r.error == DateOutOfRange
    ensures r.Ok? ==>
      Before(s.values[|s.values| - 1], r.value) && DayNumber(r.value) == DayNumber(s.values[|s.values| - 1]) + 1
  {
    var last := if |s.values| > 0 then s.values[|s.values| - 1] else MaxValue;
    if Before(last, MaxValue) then Ok(AddDays(last, 1)) else Err(DateOutOfRange)
  }

  /** The continuation of a series ends where a second run can end. */
  predicate MonthlyContinuable(rule: MonthlyRecurrence.MonthlyRule, ext: Extension) {
    MonthlyRecurrence.CanRun(rule, false) &&
    MonthlyRecurrence.CanRun(rule.(bounds := Extend(rule.bounds, rule.bounds.startDate, ext)), false)
  }

  predicate WeeklyContinuable(rule: WeeklyRecurrence.WeeklyRule, ext: Extension) {
    WeeklyRecurrence.CanRun(rule, false) &&
    WeeklyRecurrence.CanRun(rule.(bounds := Extend(rule.bounds, rule.bounds.startDate, ext)), false)
  }

  predicate DailyContinuable(rule: DailyRecurrence.DailyRule, ext: Extension) {
    (rule.bounds.endDateType == SpecificDate ==> rule.Advances()) && (ext.UntilDate? ==> rule.Advances())
  }

  /**
   * GetPostRecurrenceValues on a yearly rule: run it, then run it again
   * from the day after its last date with the extension's end condition.
   */
  function YearlyPost(rule: YearlyRecurrence.YearlyRule, ext: Extension): Result<Summary> {
    match YearlyRun(rule)
    case Err(e) => Err(e)
    case Ok(first) =>
      match DayAfter(first)
      case Err(e) => Err(e)
      case Ok(start) => YearlyRun(rule.(bounds := Extend(rule.bounds, start, ext)))
  }

  function MonthlyPost(rule: MonthlyRecurrence.MonthlyRule, ext: Extension): Result<Summary>
    requires MonthlyContinuable(rule, ext)
  {
    match MonthlyRun(rule)
    case Err(e) => Err(e)
    case Ok(first) =>
      match DayAfter(first)
      case Err(e) => Err(e)
      case Ok(start) => MonthlyRun(rule.(bounds := Extend(rule.bounds, start, ext)))
  }

  function WeeklyPost(rule: WeeklyRecurrence.WeeklyRule, ext: Extension): Result<Summary>
    requires WeeklyContinuable(rule, ext)
  {
    match WeeklyRun(rule)
    case Err(e) => Err(e)
    case Ok(first) =>
      match DayAfter(first)
      case Err(e) => Err(e)
      case Ok(start) => WeeklyRun(rule.(bounds := Extend(rule.bounds, start, ext)))
  }

  function DailyPost(rule: DailyRecurrence.DailyRule, ext: Extension): Result<Summary>
    requires DailyContinuable(rule, ext)
  {
    match DailyRun(rule)
    case Err(e) => Err(e)
    case Ok(first) =>
      match DayAfter(first)
      case Err(e) => Err(e)
      case Ok(start) => DailyRun(rule.(bounds := Extend(rule.bounds, start, ext)))
  }

  /** The yearly rule a token rebuilds to, continued. */
  function YearlyPostValues(seriesInfo: string, ext: Extension): Result<Summary>
  {
    match YearlyRecurrence.Rebuild(seriesInfo, -1, None, MinValue)
    case Err(e) => Err(e)
    case Ok(rule) => YearlyPost(rule, ext)
  }

  /** The monthly rule a token rebuilds to can be continued. */
  predicate MonthlyPostRunnable(seriesInfo: string, ext: Extension) {
    var rebuilt := MonthlyRecurrence.Rebuild(seriesInfo, -1, None, MinValue);
    rebuilt.Ok? ==> MonthlyContinuable(rebuilt.value, ext)
  }

  /** The monthly rule a token rebuilds to, continued. */
  function MonthlyPostValues(seriesInfo: string, ext: Extension): Result<Summary>
    requires MonthlyPostRunnable(seriesInfo, ext)
  {
    match MonthlyRecurrence.Rebuild(seriesInfo, -1, None, MinValue)
    case Err(e) => Err(e)
    case Ok(rule) => MonthlyPost(rule, ext)
  }

  /** The weekly rule a token rebuilds to can be continued. */
  predicate WeeklyPostRunnable(seriesInfo: string, ext: Extension) {
    var rebuilt := WeeklyRecurrence.Rebuild(seriesInfo, -1, None, MinValue);
    rebuilt.Ok? && rebuilt.value.Some? ==> WeeklyContinuable(rebuilt.value.value, ext)
  }

  /** The weekly rule a token rebuilds to, continued; a NullReference where none is built. */
  function WeeklyPostValues(seriesInfo: string, ext: Extension): Result<Summary>
    requires WeeklyPostRunnable(seriesInfo, ext)
  {
    match WeeklyRecurrence.Rebuild(seriesInfo, -1, None, MinValue)
    case Err(e) => Err(e)
    case Ok(None) => Err(NullReference)
    case Ok(Some(rule)) => WeeklyPost(rule, ext)
  }

  /** The daily rule a token rebuilds to can be continued. */
  predicate DailyPostRunnable(seriesInfo: string, ext: Extension) {
    var rebuilt := DailyRecurrence.Rebuild(seriesInfo, -1, None, MinValue);
    rebuilt.Ok? && rebuilt.value.Some? ==> DailyContinuable(rebuilt.value.value, ext)
  }

  /** The daily rule a token rebuilds to, continued; a NullReference where none is built. */
  function DailyPostValues(seriesInfo: string, ext: Extension): Result<Summary>
    requires DailyPostRunnable(seriesInfo, ext)
  {
    match DailyRecurrence.Rebuild(seriesInfo, -1, None, MinValue)
    case Err(e) => Err(e)
    case Ok(None) => Err(NullReference)
    case Ok(Some(rule)) => DailyPost(rule, ext)
  }

  /** The generator the token's letter names can be continued. */
  predicate Continuable(seriesInfo: string, ext: Extension) {
    var kind := KindOf(seriesInfo);
    (kind == Ok(RecurrenceType.Daily) ==> DailyPostRunnable(seriesInfo, ext)) &&
    (kind == Ok(RecurrenceType.Weekly) ==> WeeklyPostRunnable(seriesInfo, ext)) &&
    (kind == Ok(RecurrenceType.Monthly) ==> MonthlyPostRunnable(seriesInfo, ext))
  }

  /**
   * What GetPostRecurrenceValues hands back: the named generator rebuilt
   * from the token as it stands, run, and run again on the same object
   * from the day after the run's last date with the extension's end
   * condition; a NullReference where no generator is built.
   */
  function PostValues(seriesInfo: string, ext: Extension): Result<Summary>
    requires Continuable(seriesInfo, ext)
  {
    match KindOf(seriesInfo)
    case Err(e) => Err(e)
    case Ok(kind) =>
      if kind == RecurrenceType.Yearly then YearlyPostValues(seriesInfo, ext)
      else if kind == RecurrenceType.Monthly then MonthlyPostValues(seriesInfo, ext)
      else if kind == RecurrenceType.Weekly then WeeklyPostValues(seriesInfo, ext)
      else if kind == RecurrenceType.Daily then DailyPostValues(seriesInfo, ext)
      else Err(NullReference)
  }

  /** A token the yearly generator rebuilds to a rule continues that rule. */
  lemma YearlyPostAt(seriesInfo: string, ext: Extension, rebuilt: YearlyRecurrence.YearlyRule)
    requires YearlyRecurrence.Rebuild(seriesInfo, -1, None, MinValue) == Ok(rebuilt)
    ensures YearlyPostValues(seriesInfo, ext) == YearlyPost(rebuilt, ext)
  {
  }

  /** A token the monthly generator rebuilds to a rule continues that rule. */
  lemma MonthlyPostAt(seriesInfo: string, ext: Extension, rebuilt: MonthlyRecurrence.MonthlyRule)
    requires MonthlyRecurrence.Rebuild(seriesInfo, -1, None, MinValue) == Ok(rebuilt)
    requires MonthlyContinuable(rebuilt, ext)
    ensures MonthlyPostRunnable(seriesInfo, ext)
    ensures MonthlyPostValues(seriesInfo, ext) == MonthlyPost(rebuilt, ext)
  {
  }

  /** A token the weekly generator rebuilds to a rule continues that rule. */
  lemma WeeklyPostAt(seriesInfo: string, ext: Extension, rebuilt: WeeklyRecurrence.WeeklyRule)
    requires WeeklyRecurrence.Rebuild(seriesInfo, -1, None, MinValue) == Ok(Some(rebuilt))
    requires WeeklyContinuable(rebuilt, ext)
    ensures WeeklyPostRunnable(seriesInfo, ext)
    ensures WeeklyPostValues(seriesInfo, ext) == WeeklyPost(rebuilt, ext)
  {
  }

  /** A token the daily generator rebuilds to a rule continues that rule. */
  lemma DailyPostAt(seriesInfo: string, ext: Extension, rebuilt: DailyRecurrence.DailyRule)
    requires DailyRecurrence.Rebuild(seriesInfo, -1, None, MinValue) == Ok(Some(rebuilt))
    requires DailyContinuable(rebuilt, ext)
    ensures DailyPostRunnable(seriesInfo, ext)
    ensures DailyPostValues(seriesInfo, ext) == DailyPost(rebuilt, ext)
  {
  }

  /** On a token starting with Y, PostValues is the yearly generator's continuation. */
  lemma PostDispatchYearly(seriesInfo: string, ext: Extension)
    requires KindOf(seriesInfo) == Ok(RecurrenceType.Yearly)
    ensures Continuable(seriesInfo, ext)
    ensures PostValues(seriesInfo, ext) == YearlyPostValues(seriesInfo, ext)
  {
  }

  /** On a token starting with M, PostValues is the monthly generator's continuation. */
  lemma PostDispatchMonthly(seriesInfo: string, ext: Extension)
    requires KindOf(seriesInfo) == Ok(RecurrenceType.Monthly)
    requires MonthlyPostRunnable(seriesInfo, ext)
    ensures Continuable(seriesInfo, ext)
    ensures PostValues(seriesInfo, ext) == MonthlyPostValues(seriesInfo, ext)
  {
  }

  /** On a token starting with W, PostValues is the weekly generator's continuation. */
  lemma PostDispatchWeekly(seriesInfo: string, ext: Extension)
    requires KindOf(seriesInfo) == Ok(RecurrenceType.Weekly)
    requires WeeklyPostRunnable(seriesInfo, ext)
    ensures Continuable(seriesInfo, ext)
    ensures PostValues(seriesInfo, ext) == WeeklyPostValues(seriesInfo, ext)
  {
  }

  /** On a token starting with D, PostValues is the daily generator's continuation. */
  lemma PostDispatchDaily(seriesInfo: string, ext: Extension)
    requires KindOf(seriesInfo) == Ok(RecurrenceType.Daily)
    requires DailyPostRunnable(seriesInfo, ext)
    ensures Continuable(seriesInfo, ext)
    ensures PostValues(seriesInfo, ext) == DailyPostValues(seriesInfo, ext)
  {
  }

  /** The monthly rule a continuable token rebuilds to can be continued. */
  lemma MonthlyContinuableAt(seriesInfo: string, ext: Extension, rebuilt: MonthlyRecurrence.MonthlyRule)
    requires MonthlyRecurrence.Rebuild(seriesInfo, -1, None, MinValue) == Ok(rebuilt)
    requires MonthlyPostRunnable(seriesInfo, ext)
    ensures MonthlyContinuable(rebuilt, ext)
  {
  }

  /** The weekly rule a continuable token rebuilds to can be continued. */
  lemma WeeklyContinuableAt(seriesInfo: string, ext: Extension, rebuilt: WeeklyRecurrence.WeeklyRule)
    requires WeeklyRecurrence.Rebuild(seriesInfo, -1, None, MinValue) == Ok(Some(rebuilt))
    requires WeeklyPostRunnable(seriesInfo, ext)
    ensures WeeklyContinuable(rebuilt, ext)
  {
  }

  /** The daily rule a continuable token rebuilds to can be continued. */
  lemma DailyContinuableAt(seriesInfo: string, ext: Extension, rebuilt: DailyRecurrence.DailyRule)
    requires DailyRecurrence.Rebuild(seriesInfo, -1, None, MinValue) == Ok(Some(rebuilt))
    requires DailyPostRunnable(seriesInfo, ext)
    ensures DailyContinuable(rebuilt, ext)
  {
  }

  /** A yearly continuation whose first run fails fails the same way. */
  lemma YearlyPostFails(rule: YearlyRecurrence.YearlyRule, ext: Extension)
    requires YearlyRun(rule).Err?
    ensures YearlyPost(rule, ext) == Err(YearlyRun(rule).error)
  {
  }

  /** A yearly continuation whose first run leaves no day after it is out of range. */
  lemma YearlyPostEnds(rule: YearlyRecurrence.YearlyRule, ext: Extension)
    requires YearlyRun(rule).Ok? && DayAfter(YearlyRun(rule).value).Err?
    ensures YearlyPost(rule, ext) == Err(DateOutOfRange)
  {
  }

  /** Otherwise a yearly continuation is the run extended from the day after. */
  lemma YearlyPostNext(rule: YearlyRecurrence.YearlyRule, ext: Extension, start: DateTime)
    requires YearlyRun(rule).Ok? && DayAfter(YearlyRun(rule).value) == Ok(start)
    ensures YearlyPost(rule, ext) == YearlyRun(rule.(bounds := Extend(rule.bounds, start, ext)))
  {
  }

  /** GetValues again on a yearly settings object, from start on, with the extended end condition. */
  method YearlyExtend(s: YearlyRecurrence.YearlyRecurrenceSettings, ext: Extension, start: DateTime, ghost rule: YearlyRecurrence.YearlyRule)
    returns (r: Result<RecurrenceValues?>)
    requires s.Rule() == rule
    requires !s.getNextDateValue && s.nextDateValue == MinValue
    modifies s.base
    ensures Shows(r, YearlyRun(rule.(bounds := Extend(rule.bounds, start, ext))))
  {
    var next: Result<RecurrenceValues>;
    if ext.UntilDate? {
      next := s.GetValuesBetween(start, ext.endDate);
    } else {
      next := s.GetValuesFrom(start, ext.count);
    }
    assert s.Rule() == rule.(bounds := Extend(rule.bounds, start, ext));
    YearlyShows(next, s.Rule());
    r := if next.Ok? then Ok(next.value) else Err(next.error);
  }

  /**
   * GetValues on a yearly settings object, then GetValues again on the
   * same object from the day after the last date it produced.
   */
  method YearlyContinue(s: YearlyRecurrence.YearlyRecurrenceSettings, ext: Extension, ghost rule: YearlyRecurrence.YearlyRule) returns (r: Result<RecurrenceValues?>)
    requires s.Rule() == rule
    requires !s.getNextDateValue && s.nextDateValue == MinValue
    modifies s.base
    ensures Shows(r, YearlyPost(rule, ext))
  {
    var first := s.GetValues();
    YearlyShows(first, rule);
    if first.Err? {
      YearlyPostFails(rule, ext);
      return Err(first.error);
    }
    var last := first.value.LastDate();
    if !Before(last, MaxValue) {
      YearlyPostEnds(rule, ext);
      return Err(DateOutOfRange);
    }
    var start := AddDays(last, 1);
    YearlyPostNext(rule, ext, start);
    r := YearlyExtend(s, ext, start, rule);
  }

  /**
   * The yearly branch of GetPostRecurrenceValues: the settings object
   * GetRecurrenceSettings builds from the token continued.
   */
  method YearlyPostRegenerated(seriesInfo: string, ext: Extension) returns (r: Result<RecurrenceValues?>)
    ensures Shows(r, YearlyPostValues(seriesInfo, ext))
  {
    var settings := YearlyRecurrence.YearlyRecurrenceSettings.GetRecurrenceSettings(seriesInfo, -1, None, MinValue);
    if settings.Err? {
      return Err(settings.error);
    }
    YearlyPostAt(seriesInfo, ext, settings.value.Rule());
    r := YearlyContinue(settings.value, ext, settings.value.Rule());
  }

  /** A monthly continuation whose first run fails fails the same way. */
  lemma MonthlyPostFails(rule: MonthlyRecurrence.MonthlyRule, ext: Extension)
    requires MonthlyContinuable(rule, ext)
    requires MonthlyRun(rule).Err?
    ensures MonthlyPost(rule, ext) == Err(MonthlyRun(rule).error)
  {
  }

  /** A monthly continuation whose first run leaves no day after it is out of range. */
  lemma MonthlyPostEnds(rule: MonthlyRecurrence.MonthlyRule, ext: Extension)
    requires MonthlyContinuable(rule, ext)
    requires MonthlyRun(rule).Ok? && DayAfter(MonthlyRun(rule).value).Err?
    ensures MonthlyPost(rule, ext) == Err(DateOutOfRange)
  {
  }

  /** Otherwise a monthly continuation is the run extended from the day after. */
  lemma MonthlyPostNext(rule: MonthlyRecurrence.MonthlyRule, ext: Extension, start: DateTime)
    requires MonthlyContinuable(rule, ext)
    requires MonthlyRun(rule).Ok? && DayAfter(MonthlyRun(rule).value) == Ok(start)
    ensures MonthlyPost(rule, ext) == MonthlyRun(rule.(bounds := Extend(rule.bounds, start, ext)))
  {
  }

  /** GetValues again on a monthly settings object, from start on, with the extended end condition. */
  method MonthlyExtend(s: MonthlyRecurrence.MonthlyRecurrenceSettings, ext: Extension, start: DateTime, ghost rule: MonthlyRecurrence.MonthlyRule)
    returns (r: Result<RecurrenceValues?>)
    requires s.Rule() == rule
    requires !s.getNextDateValue && s.nextDateValue == MinValue
    requires MonthlyContinuable(rule, ext)
    modifies s.base
    ensures Shows(r, MonthlyRun(rule.(bounds := Extend(rule.bounds, start, ext))))
  {
    var next: Result<RecurrenceValues>;
    if ext.UntilDate? {
      next := s.GetValuesBetween(start, ext.endDate);
    } else {
      next := s.GetValuesFrom(start, ext.count);
    }
    assert s.Rule() == rule.(bounds := Extend(rule.bounds, start, ext));
    MonthlyShows(next, s.Rule());
    r := if next.Ok? then Ok(next.value) else Err(next.error);
  }

  /**
   * GetValues on a monthly settings object, then GetValues again on the
   * same object from the day after the last date it produced.
   */
  method MonthlyContinue(s: MonthlyRecurrence.MonthlyRecurrenceSettings, ext: Extension, ghost rule: MonthlyRecurrence.MonthlyRule) returns (r: Result<RecurrenceValues?>)
    requires s.Rule() == rule
    requires !s.getNextDateValue && s.nextDateValue == MinValue
    requires MonthlyContinuable(rule, ext)
    modifies s.base
    ensures Shows(r, MonthlyPost(rule, ext))
  {
    var first := s.GetValues();
    MonthlyShows(first, rule);
    if first.Err? {
      MonthlyPostFails(rule, ext);
      return Err(first.error);
    }
    var last := first.value.LastDate();
    if !Before(last, MaxValue) {
      MonthlyPostEnds(rule, ext);
      return Err(DateOutOfRange);
    }
    var start := AddDays(last, 1);
    MonthlyPostNext(rule, ext, start);
    r := MonthlyExtend(s, ext, start, rule);
  }

  /**
   * The monthly branch of GetPostRecurrenceValues: the settings object
   * GetRecurrenceSettings builds from the token continued.
   */
  method MonthlyPostRegenerated(seriesInfo: string, ext: Extension) returns (r: Result<RecurrenceValues?>)
    requires MonthlyPostRunnable(seriesInfo, ext)
    ensures Shows(r, MonthlyPostValues(seriesInfo, ext))
  {
    var settings := MonthlyRecurrence.MonthlyRecurrenceSettings.GetRecurrenceSettings(seriesInfo, -1, None, MinValue);
    if settings.Err? {
      return Err(settings.error);
    }
    MonthlyContinuableAt(seriesInfo, ext, settings.value.Rule());
    MonthlyPostAt(seriesInfo, ext, settings.value.Rule());
    r := MonthlyContinue(settings.value, ext, settings.value.Rule());
  }

  /** A weekly continuation whose first run fails fails the same way. */
  lemma WeeklyPostFails(rule: WeeklyRecurrence.WeeklyRule, ext: Extension)
    requires WeeklyContinuable(rule, ext)
    requires WeeklyRun(rule).Err?
    ensures WeeklyPost(rule, ext) == Err(WeeklyRun(rule).error)
  {
  }

  /** A weekly continuation whose first run leaves no day after it is out of range. */
  lemma WeeklyPostEnds(rule: WeeklyRecurrence.WeeklyRule, ext: Extension)
    requires WeeklyContinuable(rule, ext)
    requires WeeklyRun(rule).Ok? && DayAfter(WeeklyRun(rule).value).Err?
    ensures WeeklyPost(rule, ext) == Err(DateOutOfRange)
  {
  }

  /** Otherwise a weekly continuation is the run extended from the day after. */
  lemma WeeklyPostNext(rule: WeeklyRecurrence.WeeklyRule, ext: Extension, start: DateTime)
    requires WeeklyContinuable(rule, ext)
    requires WeeklyRun(rule).Ok? && DayAfter(WeeklyRun(rule).value) == Ok(start)
    ensures WeeklyPost(rule, ext) == WeeklyRun(rule.(bounds := Extend(rule.bounds, start, ext)))
  {
  }

  /** GetValues again on a weekly settings object, from start on, with the extended end condition. */
  method WeeklyExtend(s: WeeklyRecurrence.WeeklyRecurrenceSettings, ext: Extension, start: DateTime, ghost rule: WeeklyRecurrence.WeeklyRule)
    returns (r: Result<RecurrenceValues?>)
    requires s.Rule() == rule
    requires !s.getNextDateValue && s.nextDateValue == MinValue
    requires WeeklyContinuable(rule, ext)
    modifies s.base
    ensures Shows(r, WeeklyRun(rule.(bounds := Extend(rule.bounds, start, ext))))
  {
    var next: Result<RecurrenceValues>;
    if ext.UntilDate? {
      next := s.GetValuesBetween(start, ext.endDate);
    } else {
      next := s.GetValuesFrom(start, ext.count);
    }
    assert s.Rule() == rule.(bounds := Extend(rule.bounds, start, ext));
    WeeklyShows(next, s.Rule());
    r := if next.Ok? then Ok(next.value) else Err(next.error);
  }

  /**
   * GetValues on a weekly settings object, then GetValues again on the
   * same object from the day after the last date it produced.
   */
  method WeeklyContinue(s: WeeklyRecurrence.WeeklyRecurrenceSettings, ext: Extension, ghost rule: WeeklyRecurrence.WeeklyRule) returns (r: Result<RecurrenceValues?>)
    requires s.Rule() == rule
    requires !s.getNextDateValue && s.nextDateValue == MinValue
    requires WeeklyContinuable(rule, ext)
    modifies s.base
    ensures Shows(r, WeeklyPost(rule, ext))
  {
    var first := s.GetValues();
    WeeklyShows(first, rule);
    if first.Err? {
      WeeklyPostFails(rule, ext);
      return Err(first.error);
    }
    var last := first.value.LastDate();
    if !Before(last, MaxValue) {
      WeeklyPostEnds(rule, ext);
      return Err(DateOutOfRange);
    }
    var start := AddDays(last, 1);
    WeeklyPostNext(rule, ext, start);
    r := WeeklyExtend(s, ext, start, rule);
  }

  /**
   * The weekly branch of GetPostRecurrenceValues: the settings object
   * GetRecurrenceSettings builds from the token, when it is not null, continued.
   */
  method WeeklyPostRegenerated(seriesInfo: string, ext: Extension) returns (r: Result<RecurrenceValues?>)
    requires WeeklyPostRunnable(seriesInfo, ext)
    ensures Shows(r, WeeklyPostValues(seriesInfo, ext))
  {
    var settings := WeeklyRecurrence.WeeklyRecurrenceSettings.GetRecurrenceSettings(seriesInfo, -1, None, MinValue);
    if settings.Err? {
      return Err(settings.error);
    }
    if settings.value == null {
      return Err(NullReference);
    }
    WeeklyContinuableAt(seriesInfo, ext, settings.value.Rule());
    WeeklyPostAt(seriesInfo, ext, settings.value.Rule());
    r := WeeklyContinue(settings.value, ext, settings.value.Rule());
  }

  /** A daily continuation whose first run fails fails the same way. */
  lemma DailyPostFails(rule: DailyRecurrence.DailyRule, ext: Extension)
    requires DailyContinuable(rule, ext)
    requires DailyRun(rule).Err?
    ensures DailyPost(rule, ext) == Err(DailyRun(rule).error)
  {
  }

  /** A daily continuation whose first run leaves no day after it is out of range. */
  lemma DailyPostEnds(rule: DailyRecurrence.DailyRule, ext: Extension)
    requires DailyContinuable(rule, ext)
    requires DailyRun(rule).Ok? && DayAfter(DailyRun(rule).value).Err?
    ensures DailyPost(rule, ext) == Err(DateOutOfRange)
  {
  }

  /** Otherwise a daily continuation is the run extended from the day after. */
  lemma DailyPostNext(rule: DailyRecurrence.DailyRule, ext: Extension, start: DateTime)
    requires DailyContinuable(rule, ext)
    requires DailyRun(rule).Ok? && DayAfter(DailyRun(rule).value) == Ok(start)
    ensures DailyPost(rule, ext) == DailyRun(rule.(bounds := Extend(rule.bounds, start, ext)))
  {
  }

  /** GetValues again on a daily settings object, from start on, with the extended end condition. */
  method DailyExtend(s: DailyRecurrence.DailyRecurrenceSettings, ext: Extension, start: DateTime, ghost rule: DailyRecurrence.DailyRule)
    returns (r: Result<RecurrenceValues?>)
    requires s.Rule() == rule
    requires !s.getNextDateValue && s.finalNextDateValue == MinValue
    requires !s.regenType.NotSet?
    requires DailyContinuable(rule, ext)
    modifies s.base, s`finalNextDateValue
    ensures Shows(r, DailyRun(rule.(bounds := Extend(rule.bounds, start, ext))))
  {
    var next: Result<RecurrenceValues?>;
    if ext.UntilDate? {
      next := s.GetValuesBetween(start, ext.endDate);
    } else {
      next := s.GetValuesFrom(start, ext.count);
    }
    assert s.Rule() == rule.(bounds := Extend(rule.bounds, start, ext));
    DailyShows(next, s.Rule());
    r := next;
  }

  /**
   * GetValues on a daily settings object, then GetValues again on the
   * same object from the day after the last date it produced.
   */
  method DailyContinue(s: DailyRecurrence.DailyRecurrenceSettings, ext: Extension, ghost rule: DailyRecurrence.DailyRule) returns (r: Result<RecurrenceValues?>)
    requires s.Rule() == rule
    requires !s.getNextDateValue && s.finalNextDateValue == MinValue
    requires !s.regenType.NotSet?
    requires DailyContinuable(rule, ext)
    modifies s.base, s`finalNextDateValue
    ensures Shows(r, DailyPost(rule, ext))
  {
    var first := s.GetValues();
    DailyShows(first, rule);
    if first.Err? {
      DailyPostFails(rule, ext);
      return Err(first.error);
    }
    var last := first.value.LastDate();
    if !Before(last, MaxValue) {
      DailyPostEnds(rule, ext);
      return Err(DateOutOfRange);
    }
    var start := AddDays(last, 1);
    DailyPostNext(rule, ext, start);
    r := DailyExtend(s, ext, start, rule);
  }

  /**
   * The daily branch of GetPostRecurrenceValues: the settings object
   * GetRecurrenceSettings builds from the token, when it is not null, continued.
   */
  method DailyPostRegenerated(seriesInfo: string, ext: Extension) returns (r: Result<RecurrenceValues?>)
    requires DailyPostRunnable(seriesInfo, ext)
    ensures Shows(r, DailyPostValues(seriesInfo, ext))
  {
    var settings := DailyRecurrence.DailyRecurrenceSettings.GetRecurrenceSettings(seriesInfo, -1, None, MinValue);
    if settings.Err? {
      return Err(settings.error);
    }
    if settings.value == null {
      return Err(NullReference);
    }
    DailyContinuableAt(seriesInfo, ext, settings.value.Rule());
    DailyPostAt(seriesInfo, ext, settings.value.Rule());
    r := DailyContinue(settings.value, ext, settings.value.Rule());
  }

  /** The shared body of the GetPostRecurrenceValues overloads. */
  method PostRegenerated(seriesInfo: string, ext: Extension) returns (r: Result<RecurrenceValues?>)
    requires Continuable(seriesInfo, ext)
    ensures Shows(r, PostValues(seriesInfo, ext))
  {
    var kind := KindOf(seriesInfo);
    if kind.Err? {
      return Err(kind.error);
    }
    if kind.value == RecurrenceType.Yearly {
      PostDispatchYearly(seriesInfo, ext);
      r := YearlyPostRegenerated(seriesInfo, ext);
    } else if kind.value == RecurrenceType.Monthly {
      PostDispatchMonthly(seriesInfo, ext);
      r := MonthlyPostRegenerated(seriesInfo, ext);
    } else if kind.value == RecurrenceType.Weekly {
      PostDispatchWeekly(seriesInfo, ext);
      r := WeeklyPostRegenerated(seriesInfo, ext);
    } else if kind.value == RecurrenceType.Daily {
      PostDispatchDaily(seriesInfo, ext);
      r := DailyPostRegenerated(seriesInfo, ext);
    } else {
      r := Err(NullReference);
    }
  }

  /** GetPostRecurrenceValues(seriesInfo, endDate): the series continued up to endDate. */
  method GetPostRecurrenceValuesUntil(seriesInfo: string, endDate: DateTime) returns (r: Result<RecurrenceValues?>)
    requires Continuable(seriesInfo, UntilDate(endDate))
    ensures Shows(r, PostValues(seriesInfo, UntilDate(endDate)))
  {
    r := PostRegenerated(seriesInfo, UntilDate(endDate));
  }

  /** GetPostRecurrenceValues(seriesInfo, modifiedOccurrencesValue): the series continued for a number of dates. */
  method GetPostRecurrenceValuesCount(seriesInfo: string, modifiedOccurrencesValue: int) returns (r: Result<RecurrenceValues?>)
    requires Continuable(seriesInfo, ForOccurrences(modifiedOccurrencesValue))
    ensures Shows(r, PostValues(seriesInfo, ForOccurrences(modifiedOccurrencesValue)))
  {
    r := PostRegenerated(seriesInfo, ForOccurrences(modifiedOccurrencesValue));
  }

  /** A yearly rule's token, continued, continues the rule. */
  lemma YearlyTokenPost(rule: YearlyRecurrence.YearlyRule, ext: Extension)
    requires YearlyRecurrence.Encodable(rule) && rule.bounds.Complete() && rule.bounds.Canonical()
    requires rule.regenType.OnSpecificDayOfYear? ==>
      rule.specificDatePartOne.NotSet? && rule.specificDatePartTwo.NotSet? && rule.specificDatePartThree.NotSet?
    requires rule.regenType.OnCustomDateFormat? ==>
      rule.regenerateOnSpecificDateDayValue == 0 && rule.regenerateOnSpecificDateMonthValue == 0
    requires rule.regenType.OnSpecificDayOfYear? || rule.regenType.OnCustomDateFormat?
    ensures YearlyPostValues(YearlyRecurrence.Encode(rule), ext) == YearlyPost(rule, ext)
  {
    YearlyRecurrence.TokenReproduces(rule);
    YearlyPostAt(YearlyRecurrence.Encode(rule), ext, rule);
  }

  /** GetPostRecurrenceValues on a yearly series' token continues that series. */
  lemma ContinueYearly(rule: YearlyRecurrence.YearlyRule, ext: Extension)
    requires YearlyRecurrence.Encodable(rule) && rule.bounds.Complete() && rule.bounds.Canonical()
    requires rule.regenType.OnSpecificDayOfYear? ==>
      rule.specificDatePartOne.NotSet? && rule.specificDatePartTwo.NotSet? && rule.specificDatePartThree.NotSet?
    requires rule.regenType.OnCustomDateFormat? ==>
      rule.regenerateOnSpecificDateDayValue == 0 && rule.regenerateOnSpecificDateMonthValue == 0
    requires rule.regenType.OnSpecificDayOfYear? || rule.regenType.OnCustomDateFormat?
    ensures Continuable(YearlyRecurrence.Encode(rule), ext)
    ensures PostValues(YearlyRecurrence.Encode(rule), ext) == YearlyPost(rule, ext)
  {
    YearlyLetter(rule);
    YearlyTokenPost(rule, ext);
    PostDispatchYearly(YearlyRecurrence.Encode(rule), ext);
  }

  /** A monthly rule's token, continued, continues the rule. */
  lemma MonthlyTokenPost(rule: MonthlyRecurrence.MonthlyRule, ext: Extension)
    requires MonthlyRecurrence.Encodable(rule) && rule.bounds.Complete() && rule.bounds.Canonical()
    requires rule.regenType.OnSpecificDayOfMonth? ==> rule.specificDatePartOne.NotSet? && rule.specificDatePartTwo.NotSet?
    requires rule.regenType.OnCustomDateFormat? ==> rule.regenerateOnSpecificDateDayValue == 0
    requires rule.regenType.OnSpecificDayOfMonth? || rule.regenType.OnCustomDateFormat?
    requires MonthlyContinuable(rule, ext)
    ensures MonthlyPostRunnable(MonthlyRecurrence.Encode(rule), ext)
    ensures MonthlyPostValues(MonthlyRecurrence.Encode(rule), ext) == MonthlyPost(rule, ext)
  {
    MonthlyRecurrence.TokenReproduces(rule);
    MonthlyPostAt(MonthlyRecurrence.Encode(rule), ext, rule);
  }

  /** GetPostRecurrenceValues on a monthly series' token continues that series. */
  lemma ContinueMonthly(rule: MonthlyRecurrence.MonthlyRule, ext: Extension)
    requires MonthlyRecurrence.Encodable(rule) && rule.bounds.Complete() && rule.bounds.Canonical()
    requires rule.regenType.OnSpecificDayOfMonth? ==> rule.specificDatePartOne.NotSet? && rule.specificDatePartTwo.NotSet?
    requires rule.regenType.OnCustomDateFormat? ==> rule.regenerateOnSpecificDateDayValue == 0
    requires rule.regenType.OnSpecificDayOfMonth? || rule.regenType.OnCustomDateFormat?
    requires MonthlyContinuable(rule, ext)
    ensures Continuable(MonthlyRecurrence.Encode(rule), ext)
    ensures PostValues(MonthlyRecurrence.Encode(rule), ext) == MonthlyPost(rule, ext)
  {
    MonthlyLetter(rule);
    MonthlyTokenPost(rule, ext);
    PostDispatchMonthly(MonthlyRecurrence.Encode(rule), ext);
  }

  /** A weekly rule's token, continued, continues the rule. */
  lemma WeeklyTokenPost(rule: WeeklyRecurrence.WeeklyRule, ext: Extension)
    requires WeeklyRecurrence.Encodable(rule) && rule.bounds.Complete() && rule.bounds.Canonical()
    requires WeeklyContinuable(rule, ext)
    ensures WeeklyPostRunnable(WeeklyRecurrence.Encode(rule), ext)
    ensures WeeklyPostValues(WeeklyRecurrence.Encode(rule), ext) == WeeklyPost(rule, ext)
  {
    WeeklyRecurrence.TokenReproduces(rule);
    WeeklyPostAt(WeeklyRecurrence.Encode(rule), ext, rule);
  }

  /** GetPostRecurrenceValues on a weekly series' token continues that series. */
  lemma ContinueWeekly(rule: WeeklyRecurrence.WeeklyRule, ext: Extension)
    requires WeeklyRecurrence.Encodable(rule) && rule.bounds.Complete() && rule.bounds.Canonical()
    requires WeeklyContinuable(rule, ext)
    ensures Continuable(WeeklyRecurrence.Encode(rule), ext)
    ensures PostValues(WeeklyRecurrence.Encode(rule), ext) == WeeklyPost(rule, ext)
  {
    WeeklyLetter(rule);
    WeeklyTokenPost(rule, ext);
    PostDispatchWeekly(WeeklyRecurrence.Encode(rule), ext);
  }

  /** A daily rule's token, continued, continues the rule it rebuilds to. */
  lemma DailyTokenPost(rule: DailyRecurrence.DailyRule, ext: Extension) returns (rebuilt: DailyRecurrence.DailyRule)
    requires DailyRecurrence.Encodable(rule) && rule.bounds.Complete()
    requires DailyContinuable(rule, ext)
    ensures DailyRecurrence.Restored(rebuilt, rule, -1, None, MinValue)
    ensures DailyContinuable(rebuilt, ext)
    ensures DailyPostRunnable(DailyRecurrence.Encode(rule), ext)
    ensures DailyPostValues(DailyRecurrence.Encode(rule), ext) == DailyPost(rebuilt, ext)
  {
    rebuilt := DailyRecurrence.RebuildEncode(rule, -1, None, MinValue);
    DailyPostAt(DailyRecurrence.Encode(rule), ext, rebuilt);
  }

  /**
   * GetPostRecurrenceValues on a daily series' token continues the rule the
   * token rebuilds to: the same steps, start and end condition.
   */
  lemma ContinueDaily(rule: DailyRecurrence.DailyRule, ext: Extension) returns (rebuilt: DailyRecurrence.DailyRule)
    requires DailyRecurrence.Encodable(rule) && rule.bounds.Complete()
    requires DailyContinuable(rule, ext)
    ensures DailyRecurrence.Restored(rebuilt, rule, -1, None, MinValue)
    ensures Continuable(DailyRecurrence.Encode(rule), ext)
    ensures DailyContinuable(rebuilt, ext)
    ensures PostValues(DailyRecurrence.Encode(rule), ext) == DailyPost(rebuilt, ext)
  {
    DailyLetter(rule);
    rebuilt := DailyTokenPost(rule, ext);
    PostDispatchDaily(DailyRecurrence.Encode(rule), ext);
  }
}
