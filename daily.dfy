/**
 * DailyRecurrenceSettings: every X days, or every weekday (Monday to
 * Friday), from the start date; the "D" series-info token.
 */
module DailyRecurrence {
  import opened Results
  import opened Dates
  import opened Kinds
  import opened Text
  import opened Settings
  import opened Values
  import opened Info

  // ---------------------------------------------------------------------
  // The series

  /** How many days on the next weekday is, by day of the week (Sunday = 0). */
  function WeekdayGap(w: int): int {
    if w == Dates.Friday then 3 else if w == Dates.Saturday then 2 else 1
  }

  lemma GapSkipsWeekend(w: int)
    requires 0 <= w < 7
    ensures var g := WeekdayGap(w);
      (w + g) % 7 != Dates.Saturday && (w + g) % 7 != Dates.Sunday &&
      (g >= 2 ==> (w + 1) % 7 == Dates.Saturday || (w + 1) % 7 == Dates.Sunday) &&
      (g >= 3 ==> (w + 2) % 7 == Dates.Saturday || (w + 2) % 7 == Dates.Sunday)
  {
  }

  /** GetNextWeekday: the first day after d that is neither a Saturday nor a Sunday. */
  function NextWeekday(d: DateTime): (r: DateTime)
    ensures Before(d, r)
  {
    AddDays(d, WeekdayGap(DayOfWeek(d)))
  }

  /**
   * The next weekday is a weekday at most three days on, and every day it
   * passes over is a Saturday or a Sunday.
   */
  lemma NextWeekdaySkipsWeekend(d: DateTime)
    ensures var r := NextWeekday(d);
      !IsWeekend(r) && DayNumber(r) - DayNumber(d) <= 3 &&
      (DayNumber(r) - DayNumber(d) >= 2 ==> IsWeekend(AddDays(d, 1))) &&
      (DayNumber(r) - DayNumber(d) >= 3 ==> IsWeekend(AddDays(d, 2)))
  {
    var w := DayOfWeek(d);
    var g := WeekdayGap(w);
    GapSkipsWeekend(w);
    DayOfWeekAfter(d, g);
    DayOfWeekAfter(d, 1);
    DayOfWeekAfter(d, 2);
  }

  /** The daily rule a generator holds: its end condition, its kind and its interval. */
  datatype DailyRule = DailyRule(bounds: Bounds, regenType: DailyRegenType, regenEveryXDays: int)
  {
    /** The rule moves forward: every weekday, or every X days with X at least 1. */
    predicate Advances() {
      regenType.OnEveryWeekday? || (regenType.OnEveryXDays? && regenEveryXDays >= 1)
    }
  }

  /** From one date of the series to the next: X days on, or the next weekday. */
  function Step(rule: DailyRule, d: DateTime): (r: DateTime)
    ensures rule.Advances() ==> Before(d, r)
  {
    match rule.regenType
    case OnEveryXDays => AddDays(d, rule.regenEveryXDays)
    case OnEveryWeekday => NextWeekday(d)
    case NotSet => d
  }

  /** The first date: the start date, moved to the next weekday for the weekday rule. */
  function FirstDate(rule: DailyRule): (r: DateTime)
    ensures rule.regenType.OnEveryWeekday? ==> !IsWeekend(r)
    ensures AtMost(rule.bounds.startDate, r)
  {
    var start := rule.bounds.startDate;
    if rule.regenType.OnEveryWeekday? && IsWeekend(start) then
      NextWeekdaySkipsWeekend(start);
      NextWeekday(start)
    else start
  }

  /** The date i steps after d. */
  function Nth(rule: DailyRule, d: DateTime, i: nat): DateTime {
    if i == 0 then d else Step(rule, Nth(rule, d, i - 1))
  }

  /** The first n dates of the series from d (the NumberOfOccurrences loop). */
  function Take(rule: DailyRule, d: DateTime, n: nat): (s: seq<DateTime>)
    ensures |s| == n
    ensures forall i :: 0 <= i < n ==> s[i] == Nth(rule, d, i)
  {
    if n == 0 then [] else Take(rule, d, n - 1) + [Nth(rule, d, n - 1)]
  }

  /** The SpecificDate loop: d, then each next date while it is on or before the end date. */
  function Until(rule: DailyRule, d: DateTime, end: Option<DateTime>): seq<DateTime>
    requires rule.Advances()
    decreases DaysLeft(d, end)
  {
    var next := Step(rule, d);
    [d] + if OnOrBefore(next, end) then Until(rule, next, end) else []
  }

  /** What GetValues produces for a rule, or the exception it throws. */
  function Generate(rule: DailyRule): Result<seq<DateTime>>
    requires rule.bounds.endDateType == SpecificDate ==> rule.Advances()
  {
    var first := FirstDate(rule);
    match rule.bounds.endDateType
    case NoEndDate => Err(NoEndDateUnsupported)
    case NumberOfOccurrences =>
      Ok(Take(rule, first, if rule.bounds.numberOfOccurrences > 0 then rule.bounds.numberOfOccurrences else 0))
    case SpecificDate => Ok(Until(rule, first, rule.bounds.endDate))
    case NotDefined => Err(EndDateTypeNotSet)
  }

  /** One turn of the SpecificDate loop: d joins the dates done, and the rest starts from the next date. */
  lemma UntilAppend(rule: DailyRule, done: seq<DateTime>, d: DateTime, end: Option<DateTime>, whole: seq<DateTime>)
    requires rule.Advances()
    requires done + Until(rule, d, end) == whole
    ensures OnOrBefore(Step(rule, d), end) ==> (done + [d]) + Until(rule, Step(rule, d), end) == whole
    ensures !OnOrBefore(Step(rule, d), end) ==> done + [d] == whole
  {
    var next := Step(rule, d);
    var tail := if OnOrBefore(next, end) then Until(rule, next, end) else [];
    assert Until(rule, d, end) == [d] + tail;
    assert (done + [d]) + tail == done + ([d] + tail);
  }

  /** GetNextDate: the first date of the series after the reference date. */
  function NextAfter(rule: DailyRule, d: DateTime, reference: DateTime): (r: DateTime)
    requires rule.Advances()
    ensures Before(reference, r) && AtMost(d, r)
    decreases DayNumber(reference) - DayNumber(d)
  {
    if Before(reference, d) then d else NextAfter(rule, Step(rule, d), reference)
  }

  // ---------------------------------------------------------------------
  // Properties of the series

  /** Each step of an advancing rule moves forward, so the series is strictly increasing. */
  lemma {:induction false} TakeIncreasing(rule: DailyRule, d: DateTime, n: nat)
    requires rule.Advances()
    ensures StrictlyIncreasing(Take(rule, d, n))
  {
    if n > 1 {
      TakeIncreasing(rule, d, n - 1);
      var s := Take(rule, d, n);
      forall i, j | 0 <= i < j < n
        ensures Before(s[i], s[j])
      {
        NthIncreasing(rule, d, i, j);
      }
    }
  }

  lemma {:induction false} NthIncreasing(rule: DailyRule, d: DateTime, i: nat, j: nat)
    requires rule.Advances() && i < j
    ensures Before(Nth(rule, d, i), Nth(rule, d, j))
    decreases j
  {
    var a := Nth(rule, d, j - 1);
    assert Nth(rule, d, j) == Step(rule, a);
    if i < j - 1 {
      NthIncreasing(rule, d, i, j - 1);
    }
  }

  /** Every X days: the i-th date is i·X days after the first. */
  lemma {:induction false} EveryXDaysNth(rule: DailyRule, d: DateTime, i: nat)
    requires rule.regenType.OnEveryXDays?
    ensures Nth(rule, d, i) == AddDays(d, i * rule.regenEveryXDays)
  {
    if i > 0 {
      EveryXDaysNth(rule, d, i - 1);
      assert Nth(rule, d, i) == AddDays(Nth(rule, d, i - 1), rule.regenEveryXDays);
      assert (i - 1) * rule.regenEveryXDays + rule.regenEveryXDays == i * rule.regenEveryXDays;
      AddDaysCompose(d, (i - 1) * rule.regenEveryXDays, rule.regenEveryXDays);
    } else {
      DayNumberInjective(AddDays(d, 0), d);
    }
  }

  /**
   * The SpecificDate series: it starts with d, every later date is on or
   * before the end date, the step after its last date is not, and it is the
   * beginning of the series from d.
   */
  lemma {:induction false} UntilShape(rule: DailyRule, d: DateTime, end: Option<DateTime>)
    requires rule.Advances()
    ensures var s := Until(rule, d, end);
      |s| >= 1 && s[0] == d && s == Take(rule, d, |s|) &&
      (forall i :: 1 <= i < |s| ==> OnOrBefore(s[i], end)) &&
      !OnOrBefore(Step(rule, s[|s| - 1]), end)
    decreases DaysLeft(d, end)
  {
    var s := Until(rule, d, end);
    var next := Step(rule, d);
    if OnOrBefore(next, end) {
      UntilShape(rule, next, end);
      var t := Until(rule, next, end);
      assert s == [d] + t;
      TakeShift(rule, d, |t|);
    }
  }

  /** The series from d is d followed by the series from the next date. */
  lemma {:induction false} TakeShift(rule: DailyRule, d: DateTime, n: nat)
    ensures Take(rule, d, n + 1) == [d] + Take(rule, Step(rule, d), n)
  {
    var a := Take(rule, d, n + 1);
    var b := [d] + Take(rule, Step(rule, d), n);
    forall i | 0 <= i < n + 1
      ensures a[i] == b[i]
    {
      if i > 0 {
        NthShift(rule, d, i - 1);
      }
    }
  }

  lemma {:induction false} NthShift(rule: DailyRule, d: DateTime, i: nat)
    ensures Nth(rule, d, i + 1) == Nth(rule, Step(rule, d), i)
  {
    if i > 0 {
      NthShift(rule, d, i - 1);
    }
  }

  /**
   * The next date is a date of the series: the i-th for some i, with every
   * earlier date on or before the reference date.
   */
  lemma {:induction false} NextAfterInSeries(rule: DailyRule, d: DateTime, reference: DateTime) returns (i: nat)
    requires rule.Advances()
    ensures NextAfter(rule, d, reference) == Nth(rule, d, i)
    ensures forall j :: 0 <= j < i ==> AtMost(Nth(rule, d, j), reference)
    decreases DayNumber(reference) - DayNumber(d)
  {
    if Before(reference, d) {
      i := 0;
    } else {
      var k := NextAfterInSeries(rule, Step(rule, d), reference);
      i := k + 1;
      NthShift(rule, d, k);
      EarlierShift(rule, d, k, reference);
    }
  }

  lemma EarlierShift(rule: DailyRule, d: DateTime, k: nat, reference: DateTime)
    requires AtMost(d, reference)
    requires forall j :: 0 <= j < k ==> AtMost(Nth(rule, Step(rule, d), j), reference)
    ensures forall j :: 0 <= j < k + 1 ==> AtMost(Nth(rule, d, j), reference)
  {
    forall j | 0 < j < k + 1
      ensures AtMost(Nth(rule, d, j), reference)
    {
      NthShift(rule, d, j - 1);
    }
  }

  /** Every weekday from Saturday 2024-03-02, three times: Monday 4th to Wednesday 6th of March. */
  lemma WeekdayExample()
    ensures Generate(DailyRule(Bounds(Date(2024, 3, 2), None, 3, NumberOfOccurrences), OnEveryWeekday, 1))
      == Ok([Date(2024, 3, 4), Date(2024, 3, 5), Date(2024, 3, 6)])
  {
    var rule := DailyRule(Bounds(Date(2024, 3, 2), None, 3, NumberOfOccurrences), OnEveryWeekday, 1);
    DaysBeforeYearClosedForm(2024);
    var d, m4, m5, m6 := Date(2024, 3, 2), Date(2024, 3, 4), Date(2024, 3, 5), Date(2024, 3, 6);
    assert DayNumber(d) == 738946;
    WeekdayOfNumber(d, 105563, Dates.Saturday);
    DayNumberInjective(AddDays(d, 2), m4);
    assert FirstDate(rule) == m4;
    WeekdayOfNumber(m4, 105564, Dates.Monday);
    DayNumberInjective(AddDays(m4, 1), m5);
    assert Nth(rule, m4, 1) == m5;
    WeekdayOfNumber(m5, 105564, Dates.Tuesday);
    DayNumberInjective(AddDays(m5, 1), m6);
    assert Nth(rule, m4, 2) == m6;
    var s := Take(rule, m4, 3);
    assert s[0] == m4 && s[1] == m5 && s[2] == m6;
    assert s == [m4, m5, m6];
  }

  /** Every 3 days from 2024-01-01: the next date after 2024-01-07 is 2024-01-10. */
  lemma EveryXDaysNextExample()
    ensures var rule := DailyRule(Bounds(Date(2024, 1, 1), None, 0, NoEndDate), OnEveryXDays, 3);
      NextAfter(rule, FirstDate(rule), Date(2024, 1, 7)) == Date(2024, 1, 10)
  {
    var rule := DailyRule(Bounds(Date(2024, 1, 1), None, 0, NoEndDate), OnEveryXDays, 3);
    var d1, d4, d7, d10 := Date(2024, 1, 1), Date(2024, 1, 4), Date(2024, 1, 7), Date(2024, 1, 10);
    DaysBeforeYearClosedForm(2024);
    assert DayNumber(d1) == 738885;
    DayNumberInjective(AddDays(d1, 3), d4);
    DayNumberInjective(AddDays(d4, 3), d7);
    DayNumberInjective(AddDays(d7, 3), d10);
    assert NextAfter(rule, d10, d7) == d10;
    assert NextAfter(rule, d7, d7) == d10;
    assert NextAfter(rule, d4, d7) == d10;
  }

  // ---------------------------------------------------------------------
  // The series-info token

  /** The widths the token's fields hold. */
  predicate Encodable(rule: DailyRule) {
    InYearRange(rule.bounds.startDate) &&
    (rule.bounds.endDate.Some? ==> InYearRange(rule.bounds.endDate.value)) &&
    0 <= rule.bounds.numberOfOccurrences <= 9999 &&
    !rule.regenType.NotSet? && !rule.bounds.endDateType.NotDefined? &&
    0 <= rule.regenEveryXDays <= 999
  }

  /**
   * GetSeriesInfo: 'D', start yyyyMMdd, end yyyyMMdd or "ZZZZZZZZ", count
   * (4), regeneration type (1), end type (1), X (3).
   */
  function Encode(rule: DailyRule): (s: string)
    ensures |s| >= 1 && s[0] == 'D'
    ensures Encodable(rule) ==> |s| == 26
  {
    var b := rule.bounds;
    "D" + (FormatDate(b.startDate)
    + ((if b.endDate.Some? then FormatDate(b.endDate.value) else "ZZZZZZZZ")
    + CountOnwards(rule)))
  }

  /** The token from the count on: count (4), regeneration type (1), end type (1), X (3). */
  function CountOnwards(rule: DailyRule): (s: string)
    ensures Encodable(rule) ==> |s| == 9
  {
    FormatInt(rule.bounds.numberOfOccurrences, 4)
    + (FormatInt(rule.regenType.Code(), 1)
    + (FormatInt(rule.bounds.endDateType.Code(), 1)
    + FormatInt(rule.regenEveryXDays, 3)))
  }

  /**
   * GetFriendlyRecurrenceInfo: None (null) unless the token starts with 'D';
   * MalformedSeriesInfo where Substring, int.Parse or the DateTime
   * constructor would throw.
   */
  function Decode(s: string): (r: Result<Option<RecurrenceInfo>>)
    ensures r == Ok(None) <==> |s| == 0 || s[0] != 'D'
    ensures r.Ok? && r.value.Some? ==> r.value.value.recurrenceType == Daily && r.value.value.seriesInfo == Some(s)
  {
    if |s| == 0 || s[0] != 'D' then Ok(None)
    else if |s| < 26 then Err(MalformedSeriesInfo)
    else
      match (ParseDate(s[1..9]), ParseInt(s[17..21]), ParseInt(s[21..22]), ParseInt(s[22..23]), ParseInt(s[23..26]))
      case (Some(start), Some(count), Some(regenCode), Some(endCode), Some(x)) =>
        (match (EndDateTypeOfCode(endCode), DailyRegenTypeOfCode(regenCode))
        case (Some(endType), Some(regenType)) =>
          var end := if endType == SpecificDate then ParseDate(s[9..17]) else Some(MinValue);
          if end.None? then Err(MalformedSeriesInfo)
          else
            var info := NewRecurrenceInfo().SetRecurrenceType(Daily).SetSeriesInfo(Some(s)).SetEndDateType(endType);
            var info := match endType
              case NumberOfOccurrences => info.SetStartDate(start).SetNumberOfOccurrences(count)
              case SpecificDate => info.SetStartDate(start).SetEndDate(Some(end.value))
              case _ => info.SetStartDate(start);
            var info := info.SetDailyRegenType(regenType);
            Ok(Some(if regenType.OnEveryXDays? then info.SetDailyRegenEveryXDays(x) else info))
        case _ => Err(MalformedSeriesInfo))
      case _ => Err(MalformedSeriesInfo)
  }

  /** The layout of a token made of the given fields, each at its fixed offset. */
  lemma TokenLayout(s: string, start: string, end: string, count: string, regen: string, endType: string, x: string)
    requires |start| == 8 && |end| == 8 && |count| == 4 && |regen| == 1 && |endType| == 1 && |x| == 3
    requires s == "D" + (start + (end + (count + (regen + (endType + x)))))
    ensures s[1..9] == start && s[9..17] == end && s[17..21] == count && s[21..22] == regen &&
      s[22..23] == endType && s[23..26] == x
  {
    var tail := count + (regen + (endType + x));
    Pieces(count, regen, endType, x);
    Pieces("D", start, end, tail);
    SliceOfSlice(s, 17, 26, 0, 4);
    SliceOfSlice(s, 17, 26, 4, 5);
    SliceOfSlice(s, 17, 26, 5, 6);
    SliceOfSlice(s, 17, 26, 6, 9);
  }

  /** Each field of the token sits at its fixed offset. */
  lemma EncodeFields(rule: DailyRule)
    requires Encodable(rule)
    ensures var s := Encode(rule); var b := rule.bounds;
      s[1..9] == FormatDate(b.startDate) &&
      (b.endDate.Some? ==> s[9..17] == FormatDate(b.endDate.value)) &&
      s[17..21] == FormatInt(b.numberOfOccurrences, 4) &&
      s[21..22] == FormatInt(rule.regenType.Code(), 1) &&
      s[22..23] == FormatInt(b.endDateType.Code(), 1) &&
      s[23..26] == FormatInt(rule.regenEveryXDays, 3)
  {
    var b := rule.bounds;
    TokenLayout(Encode(rule), FormatDate(b.startDate),
      if b.endDate.Some? then FormatDate(b.endDate.value) else "ZZZZZZZZ",
      FormatInt(b.numberOfOccurrences, 4), FormatInt(rule.regenType.Code(), 1),
      FormatInt(b.endDateType.Code(), 1), FormatInt(rule.regenEveryXDays, 3));
  }

  /** The date fields of the token parse back to the dates they were written from. */
  lemma EncodeParsesDates(rule: DailyRule)
    requires Encodable(rule)
    ensures var s := Encode(rule); var b := rule.bounds;
      ParseDate(s[1..9]) == Some(b.startDate) &&
      (b.endDate.Some? ==> ParseDate(s[9..17]) == Some(b.endDate.value))
  {
    var b := rule.bounds;
    EncodeFields(rule);
    ParseFormatDate(b.startDate);
    if b.endDate.Some? {
      ParseFormatDate(b.endDate.value);
    }
  }

  /** The number fields of the token parse back to the numbers they were written from. */
  lemma EncodeParsesNumbers(rule: DailyRule)
    requires Encodable(rule)
    ensures var s := Encode(rule); var b := rule.bounds;
      ParseInt(s[17..21]) == Some(b.numberOfOccurrences) &&
      ParseInt(s[21..22]) == Some(rule.regenType.Code()) &&
      ParseInt(s[22..23]) == Some(b.endDateType.Code()) &&
      ParseInt(s[23..26]) == Some(rule.regenEveryXDays)
  {
    var b := rule.bounds;
    EncodeFields(rule);
    ParseFormatInt(b.numberOfOccurrences, 4);
    ParseFormatInt(rule.regenType.Code(), 1);
    ParseFormatInt(b.endDateType.Code(), 1);
    ParseFormatInt(rule.regenEveryXDays, 3);
  }

  /**
   * What decoding a rule's token gives back: its start date, end type and
   * kind, the count for a count rule, the end date for an end-date rule and
   * X for an every-X-days rule.
   */
  predicate Recovered(info: RecurrenceInfo, rule: DailyRule) {
    info.startDate == rule.bounds.startDate &&
    info.endDateType == rule.bounds.endDateType &&
    info.dailyRegenType == rule.regenType &&
    (rule.bounds.endDateType == NumberOfOccurrences ==> info.numberOfOccurrences == rule.bounds.numberOfOccurrences) &&
    (rule.bounds.endDateType == SpecificDate ==> info.endDate == rule.bounds.endDate) &&
    (rule.regenType.OnEveryXDays? ==> info.dailyRegenEveryXDays == rule.regenEveryXDays)
  }

  /** A token whose fields parse to a rule's values decodes to that rule. */
  lemma DecodeFields(s: string, rule: DailyRule) returns (info: RecurrenceInfo)
    requires |s| >= 26 && s[0] == 'D'
    requires !rule.regenType.NotSet? && !rule.bounds.endDateType.NotDefined?
    requires rule.bounds.endDateType == SpecificDate ==> rule.bounds.endDate.Some?
    requires ParseDate(s[1..9]) == Some(rule.bounds.startDate)
    requires rule.bounds.endDate.Some? ==> ParseDate(s[9..17]) == Some(rule.bounds.endDate.value)
    requires ParseInt(s[17..21]) == Some(rule.bounds.numberOfOccurrences)
    requires ParseInt(s[21..22]) == Some(rule.regenType.Code())
    requires ParseInt(s[22..23]) == Some(rule.bounds.endDateType.Code())
    requires ParseInt(s[23..26]) == Some(rule.regenEveryXDays)
    ensures Decode(s) == Ok(Some(info)) && Recovered(info, rule)
  {
    info := Decode(s).value.value;
  }

  /** Decoding a rule's token gives back the rule. */
  lemma DecodeEncode(rule: DailyRule) returns (info: RecurrenceInfo)
    requires Encodable(rule)
    requires rule.bounds.endDateType == SpecificDate ==> rule.bounds.endDate.Some?
    ensures Decode(Encode(rule)) == Ok(Some(info)) && Recovered(info, rule)
  {
    EncodeParsesDates(rule);
    EncodeParsesNumbers(rule);
    info := DecodeFields(Encode(rule), rule);
  }

  // ---------------------------------------------------------------------
  // Rebuilding a rule from a token

  /**
   * The rule of the settings object GetRecurrenceSettings builds from a
   * decoded (and overridden) token: the constructor its end type picks and
   * SetValues for an every-X-days rule; None where it is left null.
   */
  function RuleOfInfo(info: RecurrenceInfo, start: DateTime): Result<Option<DailyRule>> {
    if info.endDateType == SpecificDate && info.endDate.None? then Err(NullReference)
    else if info.endDateType == NotDefined then
      (if info.dailyRegenType.OnEveryXDays? then Err(NullReference) else Ok(None))
    else
      var bounds := match info.endDateType
        case NumberOfOccurrences => Bounds(start, None, info.numberOfOccurrences, NumberOfOccurrences)
        case SpecificDate => Bounds(start, info.endDate, 0, SpecificDate)
        case _ => Bounds(start, None, 0, NoEndDate);
      Ok(Some(
        if info.dailyRegenType.OnEveryXDays? then DailyRule(bounds, OnEveryXDays, info.dailyRegenEveryXDays)
        else DailyRule(bounds, OnEveryWeekday, 1)))
  }

  /**
   * GetRecurrenceSettings: the rule rebuilt from a token with the count
   * override (-1 for none) and the end-date override (DateTime.MinValue for
   * none). `modifiedStart` None takes the token's own start date (the
   * overloads without a start date).
   */
  function Rebuild(seriesInfo: string, modifiedOccurrences: int, modifiedStart: Option<DateTime>, modifiedEnd: DateTime): (r: Result<Option<DailyRule>>)
    ensures r.Ok? && r.value.Some? ==> !r.value.value.regenType.NotSet?
  {
    match Decode(seriesInfo)
    case Err(e) => Err(e)
    case Ok(None) => Err(NullReference)
    case Ok(Some(decoded)) =>
      RuleOfInfo(ApplyOverrides(decoded, modifiedOccurrences, modifiedEnd),
        if modifiedStart.Some? then modifiedStart.value else decoded.startDate)
  }

  /** Two rules step alike: the same kind and, for every X days, the same X. */
  predicate SameSteps(a: DailyRule, b: DailyRule) {
    a.regenType == b.regenType && (a.regenType.OnEveryXDays? ==> a.regenEveryXDays == b.regenEveryXDays)
  }

  /**
   * What rebuilding from a rule's token gives: a rule that steps alike,
   * from the given or the original start date, with the end condition the
   * overrides ask for or else the original one.
   */
  predicate Restored(rebuilt: DailyRule, rule: DailyRule, modifiedOccurrences: int, modifiedStart: Option<DateTime>, modifiedEnd: DateTime) {
    SameSteps(rebuilt, rule) &&
    rebuilt.bounds.startDate == (if modifiedStart.Some? then modifiedStart.value else rule.bounds.startDate) &&
    (modifiedEnd != MinValue ==>
      rebuilt.bounds.endDateType == SpecificDate && rebuilt.bounds.endDate == Some(modifiedEnd)) &&
    (modifiedEnd == MinValue && modifiedOccurrences != -1 ==>
      rebuilt.bounds.endDateType == NumberOfOccurrences && rebuilt.bounds.numberOfOccurrences == modifiedOccurrences) &&
    (modifiedEnd == MinValue && modifiedOccurrences == -1 ==>
      rebuilt.bounds.endDateType == rule.bounds.endDateType &&
      (rebuilt.bounds.endDateType == NumberOfOccurrences ==> rebuilt.bounds.numberOfOccurrences == rule.bounds.numberOfOccurrences) &&
      (rebuilt.bounds.endDateType == SpecificDate ==> rebuilt.bounds.endDate == rule.bounds.endDate))
  }

  /** The rule built from a decoded token with the overrides applied is restored. */
  lemma RebuildInfo(info: RecurrenceInfo, rule: DailyRule, modifiedOccurrences: int, modifiedStart: Option<DateTime>, modifiedEnd: DateTime)
    returns (rebuilt: DailyRule)
    requires Recovered(info, rule) && rule.bounds.Complete() && !rule.bounds.endDateType.NotDefined?
    requires !rule.regenType.NotSet?
    ensures RuleOfInfo(ApplyOverrides(info, modifiedOccurrences, modifiedEnd),
      if modifiedStart.Some? then modifiedStart.value else info.startDate) == Ok(Some(rebuilt))
    ensures Restored(rebuilt, rule, modifiedOccurrences, modifiedStart, modifiedEnd)
  {
    var overridden := ApplyOverrides(info, modifiedOccurrences, modifiedEnd);
    rebuilt := RuleOfInfo(overridden, if modifiedStart.Some? then modifiedStart.value else info.startDate).value.value;
  }

  /**
   * Rebuilding from a rule's own token, with or without overrides, gives
   * the restored rule.
   */
  lemma RebuildEncode(rule: DailyRule, modifiedOccurrences: int, modifiedStart: Option<DateTime>, modifiedEnd: DateTime)
    returns (rebuilt: DailyRule)
    requires Encodable(rule) && rule.bounds.Complete()
    ensures Rebuild(Encode(rule), modifiedOccurrences, modifiedStart, modifiedEnd) == Ok(Some(rebuilt))
    ensures Restored(rebuilt, rule, modifiedOccurrences, modifiedStart, modifiedEnd)
  {
    var info := DecodeEncode(rule);
    rebuilt := RebuildInfo(info, rule, modifiedOccurrences, modifiedStart, modifiedEnd);
  }

  lemma {:induction false} NthAgrees(a: DailyRule, b: DailyRule, d: DateTime, i: nat)
    requires SameSteps(a, b)
    ensures Nth(a, d, i) == Nth(b, d, i)
  {
    if i > 0 {
      NthAgrees(a, b, d, i - 1);
    }
  }

  lemma {:induction false} TakeAgrees(a: DailyRule, b: DailyRule, d: DateTime, n: nat)
    requires SameSteps(a, b)
    ensures Take(a, d, n) == Take(b, d, n)
  {
    if n > 0 {
      TakeAgrees(a, b, d, n - 1);
      NthAgrees(a, b, d, n - 1);
    }
  }

  lemma {:induction false} UntilAgrees(a: DailyRule, b: DailyRule, d: DateTime, end: Option<DateTime>)
    requires SameSteps(a, b) && a.Advances()
    ensures Until(a, d, end) == Until(b, d, end)
    decreases DaysLeft(d, end)
  {
    if OnOrBefore(Step(a, d), end) {
      UntilAgrees(a, b, Step(a, d), end);
    }
  }

  lemma {:induction false} NextAfterAgrees(a: DailyRule, b: DailyRule, d: DateTime, reference: DateTime)
    requires SameSteps(a, b) && a.Advances()
    ensures NextAfter(a, d, reference) == NextAfter(b, d, reference)
    decreases DayNumber(reference) - DayNumber(d)
  {
    if !Before(reference, d) {
      NextAfterAgrees(a, b, Step(a, d), reference);
    }
  }

  /** Two rules that step alike from the same start date, with the same end condition, generate the same dates. */
  lemma GenerateAgrees(a: DailyRule, b: DailyRule)
    requires SameSteps(a, b) && a.bounds.startDate == b.bounds.startDate
    requires a.bounds.endDateType == b.bounds.endDateType
    requires a.bounds.endDateType == NumberOfOccurrences ==> a.bounds.numberOfOccurrences == b.bounds.numberOfOccurrences
    requires a.bounds.endDateType == SpecificDate ==> a.bounds.endDate == b.bounds.endDate && a.Advances()
    ensures Generate(a) == Generate(b)
  {
    var first := FirstDate(a);
    assert FirstDate(b) == first;
    if a.bounds.endDateType == NumberOfOccurrences {
      TakeAgrees(a, b, first, if a.bounds.numberOfOccurrences > 0 then a.bounds.numberOfOccurrences else 0);
    } else if a.bounds.endDateType == SpecificDate {
      UntilAgrees(a, b, first, a.bounds.endDate);
    }
  }

  /**
   * The series-info token reproduces its series: the rule rebuilt from a
   * rule's token without overrides generates the same dates and gives the
   * same next date after any reference date.
   */
  lemma TokenReproduces(rule: DailyRule, reference: DateTime) returns (rebuilt: DailyRule)
    requires Encodable(rule) && rule.bounds.Complete()
    requires rule.bounds.endDateType == SpecificDate ==> rule.Advances()
    ensures Rebuild(Encode(rule), -1, None, MinValue) == Ok(Some(rebuilt))
    ensures SameSteps(rebuilt, rule) && rebuilt.bounds.endDateType == rule.bounds.endDateType
    ensures Generate(rebuilt) == Generate(rule)
    ensures rule.Advances() ==> NextAfter(rebuilt, FirstDate(rebuilt), reference) == NextAfter(rule, FirstDate(rule), reference)
  {
    rebuilt := RebuildEncode(rule, -1, None, MinValue);
    GenerateAgrees(rule, rebuilt);
    if rule.Advances() {
      assert FirstDate(rebuilt) == FirstDate(rule);
      NextAfterAgrees(rule, rebuilt, FirstDate(rule), reference);
    }
  }

  // ---------------------------------------------------------------------
  // The generator object

  /**
   * What GetEveryXDaysValues and GetEveryWeekday hand back: the generated
   * dates in a fresh container whose start date, end date and token are
   * not yet set, or the exception the rule throws.
   */
  predicate Collected(r: Result<RecurrenceValues?>, rule: DailyRule)
    requires rule.bounds.endDateType == SpecificDate ==> rule.Advances()
    reads if r.Ok? && r.value != null then {r.value} else {}
  {
    match Generate(rule)
    case Err(e) => r == Err(e)
    case Ok(s) =>
      r.Ok? && r.value != null && r.value.values == s &&
      r.value.startDate == MinValue && r.value.endDate == MinValue && r.value.seriesInfo == None
  }

  /**
   * What GetRecurrenceValues hands back: the generated dates, the first as
   * start date, the last as end date unless the rule has no end date, and
   * the rule's token; or the exception the rule throws.
   */
  predicate Delivered(r: Result<RecurrenceValues?>, rule: DailyRule)
    requires rule.bounds.endDateType == SpecificDate ==> rule.Advances()
    reads if r.Ok? && r.value != null then {r.value} else {}
  {
    match Generate(rule)
    case Err(e) => r == Err(e)
    case Ok(s) =>
      r.Ok? && r.value != null && r.value.values == s &&
      r.value.startDate == (if |s| > 0 then s[0] else MinValue) &&
      r.value.endDate == (if |s| > 0 && rule.bounds.endDateType != NoEndDate then s[|s| - 1] else MinValue) &&
      r.value.seriesInfo == Some(Encode(rule))
  }

  /** What generation demands of a rule: an interval of at least one day where the loop would not end otherwise. */
  predicate CanRun(rule: DailyRule, nextDateMode: bool) {
    rule.regenType.OnEveryXDays? && (nextDateMode || rule.bounds.endDateType == SpecificDate) ==> rule.regenEveryXDays >= 1
  }

  class DailyRecurrenceSettings {
    /** The end condition (the RecurrenceSettings base object). */
    const base: RecurrenceSettings
    var regenType: DailyRegenType
    var regenEveryXDays: int
    var getNextDateValue: bool
    var nextDateValue: DateTime
    var finalNextDateValue: DateTime

    /** The state a constructor leaves: every weekday, X = 1, bulk mode. */
    predicate Initial()
      reads this
    {
      regenType == OnEveryWeekday && regenEveryXDays == 1 &&
      !getNextDateValue && nextDateValue == MinValue && finalNextDateValue == MinValue
    }

    constructor FromStart(start: DateTime)
      ensures fresh(base) && base.Value() == Bounds(start, None, 0, NoEndDate) && Initial()
    {
      base := new RecurrenceSettings.FromStart(start);
      regenType := OnEveryWeekday;
      regenEveryXDays := 1;
      getNextDateValue := false;
      nextDateValue := MinValue;
      finalNextDateValue := MinValue;
    }

    constructor FromStartAndEnd(start: DateTime, end: DateTime)
      ensures fresh(base) && base.Value() == Bounds(start, Some(end), 0, SpecificDate) && Initial()
    {
      base := new RecurrenceSettings.FromStartAndEnd(start, end);
      regenType := OnEveryWeekday;
      regenEveryXDays := 1;
      getNextDateValue := false;
      nextDateValue := MinValue;
      finalNextDateValue := MinValue;
    }

    constructor FromStartAndCount(start: DateTime, count: int)
      ensures fresh(base) && base.Value() == Bounds(start, None, count, NumberOfOccurrences) && Initial()
    {
      base := new RecurrenceSettings.FromStartAndCount(start, count);
      regenType := OnEveryWeekday;
      regenEveryXDays := 1;
      getNextDateValue := false;
      nextDateValue := MinValue;
      finalNextDateValue := MinValue;
    }

    /** The rule the object holds. */
    function Rule(): DailyRule
      reads this`regenType, this`regenEveryXDays, base
    {
      DailyRule(base.Value(), regenType, regenEveryXDays)
    }

    /** GetNextWeekday: step a day at a time until the day is not a Saturday or a Sunday. */
    method GetNextWeekday(input: DateTime) returns (r: DateTime)
      ensures r == NextWeekday(input)
    {
      var gap := WeekdayGap(DayOfWeek(input));
      NextWeekdaySkipsWeekend(input);
      r := input;
      while true
        invariant 0 <= DayNumber(r) - DayNumber(input) < gap
        decreases gap - (DayNumber(r) - DayNumber(input))
      {
        var k := DayNumber(r) - DayNumber(input);
        DayNumberInjective(r, AddDays(input, k));
        r := AddDays(r, 1);
        AddDaysCompose(input, k, 1);
        DayNumberInjective(r, AddDays(input, k + 1));
        if !IsWeekend(r) {
          break;
        }
      }
      DayNumberInjective(r, NextWeekday(input));
    }

    /** SetValues: switch to every X days. */
    method SetValues(x: int)
      modifies this`regenEveryXDays, this`regenType
      ensures regenEveryXDays == x && regenType == OnEveryXDays
    {
      regenEveryXDays := x;
      regenType := OnEveryXDays;
    }

    /** One step of the series: `dt.AddDays(RegenEveryXDays)`, or GetNextWeekday. */
    method NextInSeries(dt: DateTime) returns (r: DateTime)
      requires !regenType.NotSet?
      ensures r == Step(Rule(), dt)
    {
      if regenType.OnEveryXDays? {
        r := AddDays(dt, regenEveryXDays);
      } else {
        r := GetNextWeekday(dt);
      }
    }

    /**
     * The next-date do-while loop of both generators: record the candidate,
     * stop once it is after the reference date, else step, while the new
     * candidate is at most `slack` days past the reference date.
     */
    method FindNextDate(first: DateTime, slack: int)
      requires Rule().Advances()
      requires slack == if regenType.OnEveryXDays? then regenEveryXDays + 3 else 3
      modifies this`finalNextDateValue
      ensures finalNextDateValue == NextAfter(Rule(), first, nextDateValue)
    {
      var rule := Rule();
      var dt := first;
      var bound := AddDays(nextDateValue, slack);
      while true
        invariant NextAfter(rule, dt, nextDateValue) == NextAfter(rule, first, nextDateValue)
        decreases DayNumber(nextDateValue) - DayNumber(dt)
      {
        finalNextDateValue := dt;
        if Before(nextDateValue, finalNextDateValue) {
          break;
        }
        if regenType.OnEveryWeekday? {
          NextWeekdaySkipsWeekend(dt);
        }
        dt := NextInSeries(dt);
        if !AtMost(dt, bound) {
          break;
        }
      }
    }

    /** The NumberOfOccurrences loop: NumberOfOccurrences dates from `first`, none when it is not positive. */
    method CollectCount(first: DateTime) returns (values: RecurrenceValues)
      requires !regenType.NotSet?
      ensures fresh(values)
      ensures values.values == Take(Rule(), first, if base.numberOfOccurrences > 0 then base.numberOfOccurrences else 0)
      ensures values.startDate == MinValue && values.endDate == MinValue && values.seriesInfo == None
    {
      var rule := Rule();
      values := new RecurrenceValues();
      var dt := first;
      var i := 0;
      while i < base.numberOfOccurrences
        invariant 0 <= i && (i <= base.numberOfOccurrences || i == 0)
        invariant values.values == Take(rule, first, i) && dt == Nth(rule, first, i)
        invariant values.startDate == MinValue && values.endDate == MinValue && values.seriesInfo == None
      {
        values.AddDateValue(dt);
        dt := NextInSeries(dt);
        i := i + 1;
      }
    }

    /** The SpecificDate do-while loop: add, step, and go on while the new date is on or before EndDate. */
    method CollectUntil(first: DateTime) returns (values: RecurrenceValues)
      requires Rule().Advances()
      ensures fresh(values)
      ensures values.values == Until(Rule(), first, base.endDate)
      ensures values.startDate == MinValue && values.endDate == MinValue && values.seriesInfo == None
    {
      var rule := Rule();
      values := new RecurrenceValues();
      var dt := first;
      while true
        invariant values.values + Until(rule, dt, base.endDate) == Until(rule, first, base.endDate)
        invariant values.startDate == MinValue && values.endDate == MinValue && values.seriesInfo == None
        decreases DaysLeft(dt, base.endDate)
      {
        UntilAppend(rule, values.values, dt, base.endDate, Until(rule, first, base.endDate));
        values.AddDateValue(dt);
        dt := NextInSeries(dt);
        if !OnOrBefore(dt, base.endDate) {
          break;
        }
      }
    }

    /** The end-type switch both generators share, from the first date on. */
    method Collect(first: DateTime) returns (r: Result<RecurrenceValues?>)
      requires !regenType.NotSet? && CanRun(Rule(), false) && first == FirstDate(Rule())
      ensures Collected(r, Rule())
      ensures r.Ok? && r.value != null ==> fresh(r.value)
    {
      match base.endDateType {
        case NoEndDate =>
          r := Err(NoEndDateUnsupported);
        case NumberOfOccurrences =>
          var values := CollectCount(first);
          r := Ok(values);
        case SpecificDate =>
          var values := CollectUntil(first);
          r := Ok(values);
        case NotDefined =>
          r := Err(EndDateTypeNotSet);
      }
    }

    /** GetEveryXDaysValues: every X days from the start date, as a list or as the next date. */
    method GetEveryXDaysValues() returns (r: Result<RecurrenceValues?>)
      requires regenType.OnEveryXDays? && CanRun(Rule(), getNextDateValue)
      modifies this`finalNextDateValue
      ensures getNextDateValue ==> r == Ok(null) && finalNextDateValue == NextAfter(Rule(), FirstDate(Rule()), nextDateValue)
      ensures !getNextDateValue ==> finalNextDateValue == old(finalNextDateValue) && Collected(r, Rule())
      ensures r.Ok? && r.value != null ==> fresh(r.value)
    {
      var dt := base.startDate;
      if getNextDateValue {
        FindNextDate(dt, regenEveryXDays + 3);
        r := Ok(null);
      } else {
        r := Collect(dt);
      }
    }

    /** GetEveryWeekday: every weekday from the first weekday on or after the start date. */
    method GetEveryWeekday() returns (r: Result<RecurrenceValues?>)
      requires regenType.OnEveryWeekday?
      modifies this`finalNextDateValue
      ensures getNextDateValue ==> r == Ok(null) && finalNextDateValue == NextAfter(Rule(), FirstDate(Rule()), nextDateValue)
      ensures !getNextDateValue ==> finalNextDateValue == old(finalNextDateValue) && Collected(r, Rule())
      ensures r.Ok? && r.value != null ==> fresh(r.value)
    {
      var dt := base.startDate;
      if IsWeekend(dt) {
        dt := GetNextWeekday(dt);
      }
      if getNextDateValue {
        FindNextDate(dt, 3);
        r := Ok(null);
      } else {
        r := Collect(dt);
      }
    }

    /**
     * GetRecurrenceValues: run the generator of the rule's kind; a list gets
     * its start date, its end date (unless there is no end date) and the
     * token. Null in next-date mode and for an unset kind.
     */
    method GetRecurrenceValues() returns (r: Result<RecurrenceValues?>)
      requires CanRun(Rule(), getNextDateValue)
      modifies this`finalNextDateValue
      ensures getNextDateValue || regenType.NotSet? ==> r == Ok(null)
      ensures getNextDateValue && !regenType.NotSet? ==> finalNextDateValue == NextAfter(Rule(), FirstDate(Rule()), nextDateValue)
      ensures !getNextDateValue || regenType.NotSet? ==> finalNextDateValue == old(finalNextDateValue)
      ensures !getNextDateValue && !regenType.NotSet? ==> Delivered(r, Rule())
      ensures r.Ok? && r.value != null ==> fresh(r.value)
    {
      r := RunGenerator();
      if r.Ok? && r.value != null {
        SetSummary(r.value);
      }
    }

    /** The switch on the regeneration type at the head of GetRecurrenceValues. */
    method RunGenerator() returns (r: Result<RecurrenceValues?>)
      requires CanRun(Rule(), getNextDateValue)
      modifies this`finalNextDateValue
      ensures getNextDateValue || regenType.NotSet? ==> r == Ok(null)
      ensures getNextDateValue && !regenType.NotSet? ==> finalNextDateValue == NextAfter(Rule(), FirstDate(Rule()), nextDateValue)
      ensures !getNextDateValue || regenType.NotSet? ==> finalNextDateValue == old(finalNextDateValue)
      ensures !getNextDateValue && !regenType.NotSet? ==> Collected(r, Rule())
      ensures r.Ok? && r.value != null ==> fresh(r.value)
    {
      match regenType {
        case OnEveryXDays =>
          r := GetEveryXDaysValues();
        case OnEveryWeekday =>
          r := GetEveryWeekday();
        case NotSet =>
          r := Ok(null);
      }
    }

    /** The tail of GetRecurrenceValues: the first and last dates and the token. */
    method SetSummary(values: RecurrenceValues)
      modifies values`startDate, values`endDate, values`seriesInfo
      ensures |values.values| > 0 ==> values.startDate == values.values[0]
      ensures |values.values| == 0 ==> values.startDate == old(values.startDate)
      ensures |values.values| > 0 && base.endDateType != NoEndDate ==> values.endDate == values.values[|values.values| - 1]
      ensures |values.values| == 0 || base.endDateType == NoEndDate ==> values.endDate == old(values.endDate)
      ensures values.seriesInfo == Some(Encode(Rule()))
    {
      var token := Encode(Rule());
      if |values.values| > 0 {
        values.SetStartDate(values.values[0]);
        if base.endDateType != NoEndDate {
          values.SetEndDate(values.values[|values.values| - 1]);
        }
      }
      assert Rule() == old(Rule());
      values.SetSeriesInfo(token);
    }

    /** GetValues(): the list (or, in next-date mode, nothing) for the rule as it stands. */
    method GetValues() returns (r: Result<RecurrenceValues?>)
      requires CanRun(Rule(), getNextDateValue)
      modifies this`finalNextDateValue
      ensures getNextDateValue || regenType.NotSet? ==> r == Ok(null)
      ensures getNextDateValue && !regenType.NotSet? ==> finalNextDateValue == NextAfter(Rule(), FirstDate(Rule()), nextDateValue)
      ensures !getNextDateValue || regenType.NotSet? ==> finalNextDateValue == old(finalNextDateValue)
      ensures !getNextDateValue && !regenType.NotSet? ==> Delivered(r, Rule())
      ensures r.Ok? && r.value != null ==> fresh(r.value)
    {
      r := GetRecurrenceValues();
    }

    /** GetValues(regenEveryXDays): every X days. */
    method GetValuesEvery(x: int) returns (r: Result<RecurrenceValues?>)
      requires CanRun(Rule().(regenType := OnEveryXDays, regenEveryXDays := x), getNextDateValue)
      modifies this`regenEveryXDays, this`regenType, this`finalNextDateValue
      ensures regenType == OnEveryXDays && regenEveryXDays == x
      ensures getNextDateValue ==> r == Ok(null) && finalNextDateValue == NextAfter(Rule(), FirstDate(Rule()), nextDateValue)
      ensures !getNextDateValue ==> Delivered(r, Rule()) && finalNextDateValue == old(finalNextDateValue)
      ensures r.Ok? && r.value != null ==> fresh(r.value)
    {
      SetValues(x);
      r := GetValues();
    }

    /** GetValues(regenEveryXDays, regenType): every X days or every weekday. */
    method GetValuesOfType(x: int, t: DailyRegenType) returns (r: Result<RecurrenceValues?>)
      requires CanRun(Rule().(regenType := t, regenEveryXDays := x), getNextDateValue)
      modifies this`regenEveryXDays, this`regenType, this`finalNextDateValue
      ensures regenType == t && regenEveryXDays == x
      ensures getNextDateValue || t.NotSet? ==> r == Ok(null)
      ensures getNextDateValue && !t.NotSet? ==> finalNextDateValue == NextAfter(Rule(), FirstDate(Rule()), nextDateValue)
      ensures !getNextDateValue && !t.NotSet? ==> Delivered(r, Rule())
      ensures r.Ok? && r.value != null ==> fresh(r.value)
    {
      regenEveryXDays := x;
      regenType := t;
      r := GetValues();
    }

    /** GetValues(startDate, endDate): the same rule, run from startDate up to endDate. */
    method GetValuesBetween(start: DateTime, end: DateTime) returns (r: Result<RecurrenceValues?>)
      requires CanRun(Rule().(bounds := base.Value().(startDate := start, endDate := Some(end), endDateType := SpecificDate)), getNextDateValue)
      modifies base, this`finalNextDateValue
      ensures base.Value() == old(base.Value()).(startDate := start, endDate := Some(end), endDateType := SpecificDate)
      ensures getNextDateValue || regenType.NotSet? ==> r == Ok(null)
      ensures getNextDateValue && !regenType.NotSet? ==> finalNextDateValue == NextAfter(Rule(), FirstDate(Rule()), nextDateValue)
      ensures !getNextDateValue && !regenType.NotSet? ==> Delivered(r, Rule())
      ensures r.Ok? && r.value != null ==> fresh(r.value)
    {
      base.SetStartDate(start);
      base.SetEndDate(Some(end));
      base.SetTypeOfEndDate(SpecificDate);
      r := GetRecurrenceValues();
    }

    /** GetValues(startDate, numberOfOccurrences): the same rule, run from startDate for a number of dates. */
    method GetValuesFrom(start: DateTime, count: int) returns (r: Result<RecurrenceValues?>)
      requires CanRun(Rule().(bounds := base.Value().(startDate := start, numberOfOccurrences := count, endDateType := NumberOfOccurrences)), getNextDateValue)
      modifies base, this`finalNextDateValue
      ensures base.Value() == old(base.Value()).(startDate := start, numberOfOccurrences := count, endDateType := NumberOfOccurrences)
      ensures getNextDateValue || regenType.NotSet? ==> r == Ok(null)
      ensures getNextDateValue && !regenType.NotSet? ==> finalNextDateValue == NextAfter(Rule(), FirstDate(Rule()), nextDateValue)
      ensures !getNextDateValue && !regenType.NotSet? ==> Delivered(r, Rule())
      ensures r.Ok? && r.value != null ==> fresh(r.value)
    {
      base.SetNumberOfOccurrences(count);
      base.SetStartDate(start);
      base.SetTypeOfEndDate(NumberOfOccurrences);
      r := GetRecurrenceValues();
    }

    /**
     * GetNextDate: switch to next-date mode and run the generator; the
     * first date of the series after currentDate (the last one found before
     * for an unset kind).
     */
    method GetNextDate(currentDate: DateTime) returns (r: DateTime)
      requires CanRun(Rule(), true)
      modifies this`getNextDateValue, this`nextDateValue, this`finalNextDateValue
      ensures getNextDateValue && nextDateValue == currentDate && r == finalNextDateValue
      ensures !regenType.NotSet? ==> r == NextAfter(Rule(), FirstDate(Rule()), currentDate)
      ensures regenType.NotSet? ==> r == old(finalNextDateValue)
    {
      getNextDateValue := true;
      nextDateValue := currentDate;
      var _ := GetValues();
      r := finalNextDateValue;
    }

    /**
     * The tail of GetRecurrenceSettings: the constructor the end type picks
     * (none for an unset end type), then SetValues for an every-X-days
     * kind, which dereferences the object the constructor left null.
     */
    static method FromInfo(info: RecurrenceInfo, start: DateTime) returns (r: Result<DailyRecurrenceSettings?>)
      ensures RuleOfInfo(info, start).Err? ==> r == Err(RuleOfInfo(info, start).error)
      ensures RuleOfInfo(info, start).Ok? ==> r.Ok? && (r.value == null <==> RuleOfInfo(info, start).value.None?)
      ensures r.Ok? && r.value != null ==>
        fresh(r.value) && fresh(r.value.base) && RuleOfInfo(info, start) == Ok(Some(r.value.Rule())) &&
        !r.value.getNextDateValue && r.value.finalNextDateValue == MinValue
    {
      var settings: DailyRecurrenceSettings? := null;
      if info.endDateType == NumberOfOccurrences {
        settings := new DailyRecurrenceSettings.FromStartAndCount(start, info.numberOfOccurrences);
      } else if info.endDateType == SpecificDate {
        if info.endDate.None? {
          return Err(NullReference);
        }
        settings := new DailyRecurrenceSettings.FromStartAndEnd(start, info.endDate.value);
      } else if info.endDateType == NoEndDate {
        settings := new DailyRecurrenceSettings.FromStart(start);
      }
      if info.dailyRegenType.OnEveryXDays? {
        if settings == null {
          return Err(NullReference);
        }
        settings.SetValues(info.dailyRegenEveryXDays);
      }
      r := Ok(settings);
    }

    /**
     * GetRecurrenceSettings: a generator rebuilt from a token, with the
     * overrides of the public overloads (count -1 and end date
     * DateTime.MinValue for none; start None for the token's own).
     */
    static method GetRecurrenceSettings(seriesInfo: string, modifiedOccurrences: int, modifiedStart: Option<DateTime>, modifiedEnd: DateTime)
      returns (r: Result<DailyRecurrenceSettings?>)
      ensures var expected := Rebuild(seriesInfo, modifiedOccurrences, modifiedStart, modifiedEnd);
        (expected.Err? ==> r == Err(expected.error)) &&
        (expected.Ok? ==> r.Ok? && (r.value == null <==> expected.value.None?))
      ensures r.Ok? && r.value != null ==>
        fresh(r.value) && fresh(r.value.base) &&
        Rebuild(seriesInfo, modifiedOccurrences, modifiedStart, modifiedEnd) == Ok(Some(r.value.Rule())) &&
        !r.value.getNextDateValue && r.value.finalNextDateValue == MinValue
    {
      var decoded := Decode(seriesInfo);
      if decoded.Err? {
        return Err(decoded.error);
      }
      if decoded.value.None? {
        return Err(NullReference);
      }
      var info := ApplyOverrides(decoded.value.value, modifiedOccurrences, modifiedEnd);
      var start := if modifiedStart.Some? then modifiedStart.value else decoded.value.value.startDate;
      assert Rebuild(seriesInfo, modifiedOccurrences, modifiedStart, modifiedEnd) == RuleOfInfo(info, start);
      r := FromInfo(info, start);
    }
  }
}
