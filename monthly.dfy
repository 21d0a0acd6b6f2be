/**
 * MonthlyRecurrenceSettings: every X months, either on a fixed day of the
 * month (clipped to shorter months) or on a custom ("logical") date such as
 * the second Tuesday or the last weekend day, each date moved by a signed
 * adjustment in days.
 */
module MonthlyRecurrence {
  import opened Results
  import opened Dates
  import opened Kinds
  import opened Text
  import opened Settings
  import opened Values
  import opened Info
  import opened DayRules
  import Walks
  import Cycles

  /**
   * The monthly rule a generator holds: its end condition, its kind, the
   * fixed day, the two parts of a custom date, the adjustment in days and
   * the interval in months.
   */
  datatype MonthlyRule = MonthlyRule(
    bounds: Bounds,
    regenType: MonthlyRegenType,
    regenerateOnSpecificDateDayValue: int,
    specificDatePartOne: DatePartOne,
    specificDatePartTwo: DatePartTwo,
    adjustmentValue: int,
    regenEveryXMonths: int)
  {
    /** Both parts of the custom date are set. */
    predicate PartsSet() {
      !specificDatePartOne.NotSet? && !specificDatePartTwo.NotSet?
    }
  }

  // ---------------------------------------------------------------------
  // Anchors and steps

  /**
   * The first fixed-day anchor of GetSpecificDayOfMonthDates: the target
   * day of the start month (the month's last day when the month is
   * shorter), moved a month on when it is before the start date. A target
   * below 1 makes no date: new DateTime throws.
   */
  function FirstAnchor(start: DateTime, target: int): (r: Result<DateTime>)
    ensures r.Ok? <==> target >= 1
  {
    var daysOfMonth := DaysInMonth(start.year, start.month);
    var dayValue := if daysOfMonth < target then daysOfMonth else target;
    if dayValue < 1 then Err(DateOutOfRange)
    else
      var newDate := Date(start.year, start.month, dayValue);
      Ok(if Before(newDate, start) then AddMonths(newDate, 1) else newDate)
  }

  /** One fixed-day step: X months on, then GetCorrectedDate back up to the target day. */
  function FixedNext(a: DateTime, x: int, target: int): DateTime {
    CorrectedDate(AddMonths(a, x), target)
  }

  function FixedStep(x: int, target: int): DateTime -> DateTime {
    (a: DateTime) => FixedNext(a, x, target)
  }

  /** GetCustomDate: the custom date of d's month. */
  function CustomOf(d: DateTime, one: DatePartOne, two: DatePartTwo): (r: DateTime)
    requires !one.NotSet? && !two.NotSet?
    ensures MonthIndex(r) == MonthIndex(d)
  {
    CustomDate(d.year, d.month, one, two)
  }

  /**
   * The custom date an anchor resolves to: its month's, or the next
   * month's when that one is before the start date.
   */
  function Resolve(start: DateTime, one: DatePartOne, two: DatePartTwo, a: DateTime): (r: DateTime)
    requires !one.NotSet? && !two.NotSet?
    ensures MonthIndex(a) <= MonthIndex(r) <= MonthIndex(a) + 1
    ensures r == CustomOf(r, one, two)
  {
    var c := CustomOf(a, one, two);
    if Before(c, start) then CustomOf(AddMonths(c, 1), one, two) else c
  }

  /** One custom-date step: X months on from the date the anchor resolved to. */
  function CustomNext(start: DateTime, one: DatePartOne, two: DatePartTwo, x: int, a: DateTime): DateTime {
    if one.NotSet? || two.NotSet? then a else AddMonths(Resolve(start, one, two, a), x)
  }

  function CustomStep(start: DateTime, one: DatePartOne, two: DatePartTwo, x: int): DateTime -> DateTime {
    (a: DateTime) => CustomNext(start, one, two, x, a)
  }

  /** What the custom-date loops add: the resolved date moved by the adjustment. */
  function CustomAdjusted(start: DateTime, one: DatePartOne, two: DatePartTwo, adjustment: int, a: DateTime): DateTime {
    if one.NotSet? || two.NotSet? then a else AddDays(Resolve(start, one, two, a), adjustment)
  }

  function CustomValue(start: DateTime, one: DatePartOne, two: DatePartTwo, adjustment: int): DateTime -> DateTime {
    (a: DateTime) => CustomAdjusted(start, one, two, adjustment, a)
  }

  /** The step of a rule's loops. */
  function Step(rule: MonthlyRule): DateTime -> DateTime {
    if rule.regenType.OnCustomDateFormat? then
      CustomStep(rule.bounds.startDate, rule.specificDatePartOne, rule.specificDatePartTwo, rule.regenEveryXMonths)
    else FixedStep(rule.regenEveryXMonths, rule.regenerateOnSpecificDateDayValue)
  }

  /** The value a rule's loops add for an anchor. */
  function Value(rule: MonthlyRule): DateTime -> DateTime {
    if rule.regenType.OnCustomDateFormat? then
      CustomValue(rule.bounds.startDate, rule.specificDatePartOne, rule.specificDatePartTwo, rule.adjustmentValue)
    else Cycles.Shift(rule.adjustmentValue)
  }

  /** The anchor the loops start from: the first fixed-day anchor, or the start date for a custom date. */
  function Origin(rule: MonthlyRule): DateTime {
    if rule.regenType.OnCustomDateFormat? then rule.bounds.startDate
    else match FirstAnchor(rule.bounds.startDate, rule.regenerateOnSpecificDateDayValue)
      case Ok(a) => a
      case Err(_) => rule.bounds.startDate
  }

  /** The next-date loop's limit: X + 1 months after the reference date. */
  function ProbeBound(rule: MonthlyRule, reference: DateTime): DateTime {
    AddMonths(reference, rule.regenEveryXMonths + 1)
  }

  /**
   * The kinds that reach the loops: a fixed day from 1 on, or a custom
   * date with both parts set.
   */
  predicate Runs(rule: MonthlyRule) {
    (rule.regenType.OnSpecificDayOfMonth? && rule.regenerateOnSpecificDateDayValue >= 1) ||
    (rule.regenType.OnCustomDateFormat? && rule.PartsSet())
  }

  /**
   * What a run demands: the end-date and next-date loops only end when the
   * anchor moves forward, so they need X of at least 1; the count loop
   * runs its count whatever X is.
   */
  predicate CanRun(rule: MonthlyRule, nextDateMode: bool) {
    !Runs(rule) || rule.regenEveryXMonths >= 1 || (!nextDateMode && rule.bounds.endDateType != SpecificDate)
  }

  lemma StepAdvances(rule: MonthlyRule)
    requires Runs(rule) && rule.regenEveryXMonths >= 1
    ensures Walks.Advancing(Step(rule))
  {
    forall a
      ensures Before(a, Step(rule)(a))
    {
      StepMonth(rule, a);
      MonthOrder(a, Step(rule)(a));
    }
  }

  /**
   * A step lands X months after the date the anchor stands for: the anchor
   * itself for a fixed day, its resolved custom date (in its month or the
   * next) otherwise.
   */
  lemma StepMonth(rule: MonthlyRule, a: DateTime)
    requires Runs(rule)
    ensures !rule.regenType.OnCustomDateFormat? ==> MonthIndex(Step(rule)(a)) == MonthIndex(a) + rule.regenEveryXMonths
    ensures rule.regenType.OnCustomDateFormat? ==>
      MonthIndex(Step(rule)(a)) == MonthIndex(Resolve(rule.bounds.startDate, rule.specificDatePartOne, rule.specificDatePartTwo, a)) + rule.regenEveryXMonths
  {
    if rule.regenType.OnCustomDateFormat? {
      assert Step(rule)(a) == CustomNext(rule.bounds.startDate, rule.specificDatePartOne, rule.specificDatePartTwo, rule.regenEveryXMonths, a);
    } else {
      assert Step(rule)(a) == FixedNext(a, rule.regenEveryXMonths, rule.regenerateOnSpecificDateDayValue);
    }
  }

  // ---------------------------------------------------------------------
  // The series

  /** What GetValues produces in bulk mode for a rule that reaches the loops, or the exception it throws. */
  function Generate(rule: MonthlyRule): Result<seq<DateTime>>
    requires Runs(rule) && CanRun(rule, false)
  {
    match rule.bounds.endDateType
    case NoEndDate => Err(NoEndDateUnsupported)
    case NumberOfOccurrences =>
      Ok(Cycles.Emit(Value(rule), Step(rule), Origin(rule), if rule.bounds.numberOfOccurrences > 0 then rule.bounds.numberOfOccurrences else 0))
    case SpecificDate =>
      StepAdvances(rule);
      Ok(Cycles.EmitUntil(Value(rule), Step(rule), Origin(rule), rule.bounds.endDate))
    case NotDefined => Err(EndDateTypeNotSet)
  }

  /**
   * The next-date loop's dates: add, stop past the reference date, step,
   * and go on while the anchor is within X + 1 months of the reference date.
   */
  function NextRun(rule: MonthlyRule, reference: DateTime): seq<DateTime>
    requires Runs(rule) && rule.regenEveryXMonths >= 1
  {
    StepAdvances(rule);
    Cycles.EmitProbe(Value(rule), Step(rule), Origin(rule), reference, ProbeBound(rule, reference))
  }

  /**
   * The dates GetRecurrenceValues collects, or the exception: a fixed day
   * below 1 fails on new DateTime and a custom date with an unset part
   * throws, in either mode; an unset or after-completion kind leaves the
   * list null.
   */
  function Outcome(rule: MonthlyRule, nextDateMode: bool, reference: DateTime): Result<seq<DateTime>>
    requires CanRun(rule, nextDateMode)
  {
    if rule.regenType.OnSpecificDayOfMonth? && rule.regenerateOnSpecificDateDayValue < 1 then Err(DateOutOfRange)
    else if rule.regenType.OnCustomDateFormat? && !rule.PartsSet() then Err(CustomDatePartNotSet)
    else if !Runs(rule) then Err(NullReference)
    else if nextDateMode then Ok(NextRun(rule, reference))
    else Generate(rule)
  }

  /**
   * GetNextDate: the end date of the next-date run, which is its last date
   * unless the rule has no end date, where it stays DateTime.MinValue.
   */
  function NextDate(rule: MonthlyRule, reference: DateTime): Result<DateTime>
    requires CanRun(rule, true)
  {
    match Outcome(rule, true, reference)
    case Err(e) => Err(e)
    case Ok(s) => Ok(if |s| > 0 && rule.bounds.endDateType != NoEndDate then s[|s| - 1] else MinValue)
  }

  // ---------------------------------------------------------------------
  // Properties of the series

  /**
   * A count rule gives its count of dates and an end-date rule at least
   * one; each is the value of an anchor of the walk; in the end-date case
   * every anchor after the first is on or before the end date and the
   * anchor after the last is past it.
   */
  lemma GenerateShape(rule: MonthlyRule)
    requires Runs(rule) && CanRun(rule, false)
    ensures Generate(rule).Ok? <==> rule.bounds.endDateType in {NumberOfOccurrences, SpecificDate}
    ensures Generate(rule).Ok? ==> var s := Generate(rule).value;
      s == Cycles.Emit(Value(rule), Step(rule), Origin(rule), |s|) &&
      (rule.bounds.endDateType == NumberOfOccurrences ==> |s| == if rule.bounds.numberOfOccurrences > 0 then rule.bounds.numberOfOccurrences else 0) &&
      (rule.bounds.endDateType == SpecificDate ==>
        |s| >= 1 &&
        (forall i :: 1 <= i < |s| ==> OnOrBefore(Walks.Nth(Step(rule), Origin(rule), i), rule.bounds.endDate)) &&
        !OnOrBefore(Walks.Nth(Step(rule), Origin(rule), |s|), rule.bounds.endDate))
  {
    if rule.bounds.endDateType == SpecificDate {
      StepAdvances(rule);
      Cycles.EmitUntilShape(Value(rule), Step(rule), Origin(rule), rule.bounds.endDate);
    }
  }

  /**
   * The first fixed-day anchor is on or after the start date, on the
   * target day clipped to its month, in the start month or, when the
   * clipped target day is before the start day, the month after.
   */
  lemma FirstAnchorSpec(start: DateTime, target: int)
    requires target >= 1
    ensures var a := FirstAnchor(start, target).value;
      AtMost(start, a) && a.day == Min(target, DaysInMonth(a.year, a.month)) &&
      MonthIndex(a) == MonthIndex(start) + (if Min(target, DaysInMonth(start.year, start.month)) < start.day then 1 else 0)
  {
    var a := FirstAnchor(start, target).value;
    if Min(target, DaysInMonth(start.year, start.month)) < start.day {
      MonthOrder(start, a);
    }
  }

  /**
   * The i-th fixed-day anchor is i * X months after the first, on the
   * target day or the last day of a shorter month: GetCorrectedDate puts
   * back the day AddMonths clipped.
   */
  lemma FixedAnchors(rule: MonthlyRule, i: nat)
    requires rule.regenType.OnSpecificDayOfMonth? && rule.regenerateOnSpecificDateDayValue >= 1
    ensures var a := Walks.Nth(Step(rule), Origin(rule), i);
      MonthIndex(a) == MonthIndex(Origin(rule)) + i * rule.regenEveryXMonths &&
      a.day == Min(rule.regenerateOnSpecificDateDayValue, DaysInMonth(a.year, a.month))
  {
    FirstAnchorSpec(rule.bounds.startDate, rule.regenerateOnSpecificDateDayValue);
    FixedWalk(Origin(rule), rule.regenEveryXMonths, rule.regenerateOnSpecificDateDayValue, i);
  }

  /** From an anchor on its target day (clipped), every fixed-day step keeps it there, X months on. */
  lemma {:induction false} FixedWalk(o: DateTime, x: int, target: int, i: nat)
    requires o.day == Min(target, DaysInMonth(o.year, o.month))
    ensures var a := Walks.Nth(FixedStep(x, target), o, i);
      MonthIndex(a) == MonthIndex(o) + i * x && a.day == Min(target, DaysInMonth(a.year, a.month))
  {
    if i > 0 {
      FixedWalk(o, x, target, i - 1);
      var p := Walks.Nth(FixedStep(x, target), o, i - 1);
      var q := AddMonths(p, x);
      CorrectedDateClamps(q, target);
      assert Walks.Nth(FixedStep(x, target), o, i) == FixedNext(p, x, target);
      assert (i - 1) * x + x == i * x;
    }
  }

  /**
   * Fixed-day values with X of at least 1 are strictly increasing, and
   * their anchors are on or after the start date.
   */
  lemma FixedSeriesIncreasing(rule: MonthlyRule, n: nat)
    requires rule.regenType.OnSpecificDayOfMonth? && rule.regenerateOnSpecificDateDayValue >= 1
    requires rule.regenEveryXMonths >= 1
    ensures StrictlyIncreasing(Cycles.Emit(Value(rule), Step(rule), Origin(rule), n))
    ensures forall i :: 0 <= i < n ==> AtMost(rule.bounds.startDate, Walks.Nth(Step(rule), Origin(rule), i))
  {
    var f, h := Step(rule), Value(rule);
    StepAdvances(rule);
    forall x
      ensures Before(h(x), h(f(x)))
    {
      assert Before(x, f(x));
    }
    Cycles.EmitIncreasing(h, f, Origin(rule), n);
    FirstAnchorSpec(rule.bounds.startDate, rule.regenerateOnSpecificDateDayValue);
    forall i | 0 < i < n
      ensures AtMost(rule.bounds.startDate, Walks.Nth(f, Origin(rule), i))
    {
      Walks.NthIncreasing(f, Origin(rule), 0, i);
    }
  }

  /**
   * The first custom date is on or after the start date, in the start
   * month when that month's custom date is not before the start date and
   * in the month after otherwise.
   */
  lemma FirstCustomDate(start: DateTime, one: DatePartOne, two: DatePartTwo)
    requires !one.NotSet? && !two.NotSet?
    ensures var r := Resolve(start, one, two, start);
      AtMost(start, r) &&
      MonthIndex(r) == MonthIndex(start) + (if Before(CustomOf(start, one, two), start) then 1 else 0)
  {
    var c := CustomOf(start, one, two);
    if Before(c, start) {
      MonthOrder(start, CustomOf(AddMonths(c, 1), one, two));
    }
  }

  /**
   * With X of at least 1, the i-th custom-date anchor is on or after the
   * start month and resolves to the custom date i * X months after the
   * first one's month.
   */
  lemma {:induction false} CustomAnchors(start: DateTime, one: DatePartOne, two: DatePartTwo, x: int, i: nat)
    requires !one.NotSet? && !two.NotSet? && x >= 1
    ensures var a := Walks.Nth(CustomStep(start, one, two, x), start, i);
      MonthIndex(Resolve(start, one, two, a)) == MonthIndex(Resolve(start, one, two, start)) + i * x &&
      MonthIndex(start) <= MonthIndex(a)
  {
    var g := (a: DateTime) => Resolve(start, one, two, a);
    forall a: DateTime | MonthIndex(start) <= MonthIndex(a)
      ensures MonthIndex(start) <= MonthIndex(CustomStep(start, one, two, x)(a))
      ensures MonthIndex(g(CustomStep(start, one, two, x)(a))) == MonthIndex(g(a)) + x
    {
      CustomStepFrom(start, one, two, x, a);
    }
    MonthsAlongWalk(CustomStep(start, one, two, x), g, start, x, i);
  }

  /**
   * When every step from a date on or after the start month stays on or
   * after it and moves what g gives by x months, the i-th anchor's g is
   * i * x months after the start's.
   */
  lemma {:induction false} MonthsAlongWalk(f: DateTime -> DateTime, g: DateTime -> DateTime, start: DateTime, x: int, i: nat)
    requires forall a: DateTime :: MonthIndex(start) <= MonthIndex(a) ==>
      MonthIndex(start) <= MonthIndex(f(a)) && MonthIndex(g(f(a))) == MonthIndex(g(a)) + x
    ensures MonthIndex(start) <= MonthIndex(Walks.Nth(f, start, i))
    ensures MonthIndex(g(Walks.Nth(f, start, i))) == MonthIndex(g(start)) + i * x
  {
    if i > 0 {
      MonthsAlongWalk(f, g, start, x, i - 1);
      assert Walks.Nth(f, start, i) == f(Walks.Nth(f, start, i - 1));
      assert (i - 1) * x + x == i * x;
    }
  }

  /**
   * A step from an anchor on or after the start month lands after it, on
   * an anchor that resolves to the custom date X months after the one the
   * first anchor resolved to.
   */
  lemma CustomStepFrom(start: DateTime, one: DatePartOne, two: DatePartTwo, x: int, p: DateTime)
    requires !one.NotSet? && !two.NotSet? && x >= 1
    requires MonthIndex(start) <= MonthIndex(p)
    ensures var a := CustomNext(start, one, two, x, p);
      MonthIndex(start) < MonthIndex(a) &&
      MonthIndex(Resolve(start, one, two, a)) == MonthIndex(Resolve(start, one, two, p)) + x
  {
    var a := CustomNext(start, one, two, x, p);
    ResolveLater(start, one, two, a);
  }

  /** An anchor in a month after the start month resolves to its own month's custom date. */
  lemma ResolveLater(start: DateTime, one: DatePartOne, two: DatePartTwo, a: DateTime)
    requires !one.NotSet? && !two.NotSet?
    requires MonthIndex(start) < MonthIndex(a)
    ensures Resolve(start, one, two, a) == CustomOf(a, one, two)
  {
    MonthOrder(start, CustomOf(a, one, two));
  }

  /**
   * Custom-date values with X of at least 1 are strictly increasing, each
   * a month or more after the one before.
   */
  lemma CustomSeriesIncreasing(rule: MonthlyRule, n: nat)
    requires rule.regenType.OnCustomDateFormat? && rule.PartsSet() && rule.regenEveryXMonths >= 1
    ensures StrictlyIncreasing(Cycles.Emit(Value(rule), Step(rule), Origin(rule), n))
  {
    var f, h := Step(rule), Value(rule);
    var start := rule.bounds.startDate;
    var one, two := rule.specificDatePartOne, rule.specificDatePartTwo;
    forall a
      ensures Before(h(a), h(f(a)))
    {
      StepMonth(rule, a);
      StepMonth(rule, f(a));
      var r := Resolve(start, one, two, a);
      var r' := Resolve(start, one, two, f(a));
      MonthOrder(r, r');
      assert h(a) == AddDays(r, rule.adjustmentValue) && h(f(a)) == AddDays(r', rule.adjustmentValue);
    }
    Cycles.EmitIncreasing(h, f, Origin(rule), n);
  }

  /**
   * With X of at least 1 and no negative adjustment, a value on or before
   * the reference date is always followed by an anchor within the
   * next-date loop's limit, so that limit never stops the loop early.
   */
  lemma NoCut(rule: MonthlyRule, reference: DateTime, a: DateTime)
    requires Runs(rule) && rule.regenEveryXMonths >= 1 && rule.adjustmentValue >= 0
    requires AtMost(Value(rule)(a), reference)
    ensures AtMost(Step(rule)(a), ProbeBound(rule, reference))
  {
    StepMonth(rule, a);
    var b := if rule.regenType.OnCustomDateFormat? then
      Resolve(rule.bounds.startDate, rule.specificDatePartOne, rule.specificDatePartTwo, a) else a;
    assert Value(rule)(a) == AddDays(b, rule.adjustmentValue);
    if MonthIndex(reference) < MonthIndex(b) {
      MonthOrder(reference, b);
    }
    MonthOrder(Step(rule)(a), ProbeBound(rule, reference));
  }

  /** NoCut for every anchor. */
  lemma NoCutAll(rule: MonthlyRule, reference: DateTime)
    requires Runs(rule) && rule.regenEveryXMonths >= 1 && rule.adjustmentValue >= 0
    ensures forall x :: AtMost(Value(rule)(x), reference) ==> AtMost(Step(rule)(x), ProbeBound(rule, reference))
  {
    forall x | AtMost(Value(rule)(x), reference)
      ensures AtMost(Step(rule)(x), ProbeBound(rule, reference))
    {
      NoCut(rule, reference, x);
    }
  }

  /**
   * GetNextDate, with X of at least 1 and no negative adjustment, answers
   * the first value of the series after the reference date when the rule
   * has an end condition, and DateTime.MinValue when it has none.
   */
  lemma NextDateFinds(rule: MonthlyRule, reference: DateTime) returns (k: nat)
    requires Runs(rule) && rule.regenEveryXMonths >= 1 && rule.adjustmentValue >= 0
    ensures var v := Value(rule)(Walks.Nth(Step(rule), Origin(rule), k));
      Before(reference, v) &&
      (forall j :: 0 <= j < k ==> AtMost(Value(rule)(Walks.Nth(Step(rule), Origin(rule), j)), reference)) &&
      NextDate(rule, reference) == Ok(if rule.bounds.endDateType != NoEndDate then v else MinValue)
  {
    StepAdvances(rule);
    var f, h := Step(rule), Value(rule);
    var bound := ProbeBound(rule, reference);
    NoCutAll(rule, reference);
    k := Cycles.ProbeReaches(h, f, Origin(rule), reference, bound);
  }

  // ---------------------------------------------------------------------
  // The series-info token

  /** The widths the token's fields hold. */
  predicate Encodable(rule: MonthlyRule) {
    InYearRange(rule.bounds.startDate) &&
    (rule.bounds.endDate.Some? ==> InYearRange(rule.bounds.endDate.value)) &&
    0 <= rule.bounds.numberOfOccurrences <= 9999 &&
    !rule.regenType.NotSet? && !rule.bounds.endDateType.NotDefined? &&
    0 <= rule.regenerateOnSpecificDateDayValue <= 99 &&
    -99 <= rule.adjustmentValue <= 999 &&
    0 <= rule.regenEveryXMonths <= 999
  }

  /**
   * GetSeriesInfo: 'M', start yyyyMMdd, end yyyyMMdd or "ZZZZZZZZ", count
   * (4), regeneration type (1), end type (1), day (2), the letters of the
   * two custom-date parts ('Z' when unset), adjustment (3), X (3).
   */
  function Encode(rule: MonthlyRule): (s: string)
    ensures |s| >= 1 && s[0] == 'M'
    ensures Encodable(rule) ==> |s| == 33
  {
    var b := rule.bounds;
    "M" + (FormatDate(b.startDate)
    + ((if b.endDate.Some? then FormatDate(b.endDate.value) else "ZZZZZZZZ")
    + CountOnwards(rule)))
  }

  /** The token from the count on. */
  function CountOnwards(rule: MonthlyRule): (s: string)
    ensures Encodable(rule) ==> |s| == 16
  {
    FormatInt(rule.bounds.numberOfOccurrences, 4)
    + (FormatInt(rule.regenType.Code(), 1)
    + (FormatInt(rule.bounds.endDateType.Code(), 1)
    + (FormatInt(rule.regenerateOnSpecificDateDayValue, 2)
    + ([rule.specificDatePartOne.Letter()]
    + ([rule.specificDatePartTwo.Letter()]
    + (SignedDigits(rule.adjustmentValue, 3)
    + FormatInt(rule.regenEveryXMonths, 3)))))))
  }

  /**
   * GetFriendlyRecurrenceInfo: None (null) unless the token starts with 'M';
   * MalformedSeriesInfo where Substring, int.Parse, Convert.ToInt32 or the
   * DateTime constructor would throw. The day and X are kept for a fixed
   * day, the two parts and X for a custom date, neither otherwise.
   */
  function Decode(s: string): (r: Result<Option<RecurrenceInfo>>)
    ensures r == Ok(None) <==> |s| == 0 || s[0] != 'M'
    ensures r.Ok? && r.value.Some? ==> r.value.value.recurrenceType == RecurrenceType.Monthly && r.value.value.seriesInfo == Some(s)
  {
    if |s| == 0 || s[0] != 'M' then Ok(None)
    else if |s| < 33 then Err(MalformedSeriesInfo)
    else
      match (ParseDate(s[1..9]), ParseInt(s[30..33]), ParseInt(s[22..23]), ParseInt(s[17..21]), ParseInt(s[27..30]), ParseInt(s[21..22]))
      case (Some(start), Some(x), Some(endCode), Some(count), Some(adjustment), Some(regenCode)) =>
        (match (EndDateTypeOfCode(endCode), MonthlyRegenTypeOfCode(regenCode))
        case (Some(endType), Some(regenType)) =>
          var end := if endType == SpecificDate then ParseDate(s[9..17]) else Some(MinValue);
          if end.None? then Err(MalformedSeriesInfo)
          else
            var info := NewRecurrenceInfo().SetSeriesInfo(Some(s)).SetRecurrenceType(RecurrenceType.Monthly).SetEndDateType(endType);
            var info := match endType
              case NumberOfOccurrences => info.SetStartDate(start).SetNumberOfOccurrences(count)
              case SpecificDate => info.SetStartDate(start).SetEndDate(Some(end.value))
              case _ => info.SetStartDate(start);
            var info := info.SetAdjustmentValue(adjustment).SetMonthlyRegenType(regenType);
            (match regenType
            case OnSpecificDayOfMonth =>
              (match ParseInt(s[23..25])
              case Some(day) => Ok(Some(info.SetMonthlyRegenerateOnSpecificDateDayValue(day).SetRegenEveryXMonths(x)))
              case None => Err(MalformedSeriesInfo))
            case OnCustomDateFormat =>
              (match (DatePartOneOfLetter(s[25]), DatePartTwoOfLetter(s[26]))
              case (Some(one), Some(two)) =>
                Ok(Some(info.SetMonthlySpecificDatePartOne(one).SetMonthlySpecificDatePartTwo(two).SetRegenEveryXMonths(x)))
              case _ => Err(MalformedSeriesInfo))
            case _ => Ok(Some(info)))
        case _ => Err(MalformedSeriesInfo))
      case _ => Err(MalformedSeriesInfo)
  }

  /** The layout of the token from the day field on. */
  lemma RestLayout(r: string, day: string, one: char, two: char, adjustment: string, x: string)
    requires |day| == 2 && |adjustment| == 3 && |x| == 3
    requires r == day + ([one] + ([two] + (adjustment + x)))
    ensures |r| == 10 && r[0..2] == day && r[2] == one && r[3] == two && r[4..7] == adjustment && r[7..10] == x
  {
    Pieces(day, [one], [two], adjustment + x);
    assert (adjustment + x)[0..3] == adjustment && (adjustment + x)[3..6] == x;
    SliceOfSlice(r, 4, 10, 0, 3);
    SliceOfSlice(r, 4, 10, 3, 6);
  }

  /** The layout of the token from the count on. */
  lemma TailLayout(t: string, count: string, regen: string, endType: string, r: string)
    requires |count| == 4 && |regen| == 1 && |endType| == 1 && |r| == 10
    requires t == count + (regen + (endType + r))
    ensures |t| == 16 && t[0..4] == count && t[4..5] == regen && t[5..6] == endType && t[6..16] == r
  {
    Pieces(count, regen, endType, r);
  }

  /** The layout of a token made of the given fields, each at its fixed offset. */
  lemma TokenLayout(s: string, start: string, end: string, count: string, regen: string, endType: string,
                    day: string, one: char, two: char, adjustment: string, x: string)
    requires |start| == 8 && |end| == 8 && |count| == 4 && |regen| == 1 && |endType| == 1 && |day| == 2
    requires |adjustment| == 3 && |x| == 3
    requires s == "M" + (start + (end + (count + (regen + (endType + (day + ([one] + ([two] + (adjustment + x)))))))))
    ensures s[1..9] == start && s[9..17] == end && s[17..21] == count && s[21..22] == regen &&
      s[22..23] == endType && s[23..25] == day && s[25] == one && s[26] == two &&
      s[27..30] == adjustment && s[30..33] == x
  {
    var r := day + ([one] + ([two] + (adjustment + x)));
    RestLayout(r, day, one, two, adjustment, x);
    var tail := count + (regen + (endType + r));
    TailLayout(tail, count, regen, endType, r);
    Pieces("M", start, end, tail);
    SliceOfSlice(s, 17, 33, 0, 4);
    SliceOfSlice(s, 17, 33, 4, 5);
    SliceOfSlice(s, 17, 33, 5, 6);
    SliceOfSlice(s, 17, 33, 6, 16);
    SliceOfSlice(s, 23, 33, 0, 2);
    SliceOfSlice(s, 23, 33, 4, 7);
    SliceOfSlice(s, 23, 33, 7, 10);
    assert s[25] == r[2] && s[26] == r[3];
  }

  /** Each field of the token sits at its fixed offset. */
  lemma EncodeFields(rule: MonthlyRule)
    requires Encodable(rule)
    ensures var s := Encode(rule); var b := rule.bounds;
      s[1..9] == FormatDate(b.startDate) &&
      (b.endDate.Some? ==> s[9..17] == FormatDate(b.endDate.value)) &&
      s[17..21] == FormatInt(b.numberOfOccurrences, 4) &&
      s[21..22] == FormatInt(rule.regenType.Code(), 1) &&
      s[22..23] == FormatInt(b.endDateType.Code(), 1) &&
      s[23..25] == FormatInt(rule.regenerateOnSpecificDateDayValue, 2) &&
      s[25] == rule.specificDatePartOne.Letter() &&
      s[26] == rule.specificDatePartTwo.Letter() &&
      s[27..30] == SignedDigits(rule.adjustmentValue, 3) &&
      s[30..33] == FormatInt(rule.regenEveryXMonths, 3)
  {
    var b := rule.bounds;
    TokenLayout(Encode(rule), FormatDate(b.startDate),
      if b.endDate.Some? then FormatDate(b.endDate.value) else "ZZZZZZZZ",
      FormatInt(b.numberOfOccurrences, 4), FormatInt(rule.regenType.Code(), 1),
      FormatInt(b.endDateType.Code(), 1), FormatInt(rule.regenerateOnSpecificDateDayValue, 2),
      rule.specificDatePartOne.Letter(), rule.specificDatePartTwo.Letter(),
      SignedDigits(rule.adjustmentValue, 3), FormatInt(rule.regenEveryXMonths, 3));
  }

  /** The date fields of the token parse back to the dates they were written from. */
  lemma EncodeParsesDates(rule: MonthlyRule)
    requires Encodable(rule)
    ensures var s := Encode(rule); var b := rule.bounds;
      ParseDate(s[1..9]) == Some(b.startDate) &&
      (b.endDate.Some? ==> ParseDate(s[9..17]) == Some(b.endDate.value))
  {
    var b := rule.bounds;
    EncodeFields(rule);
    ParseFormatDate(b.startDate);
    if b.endDate.Some? {
      ParseFormatDate(b.endDate.value);
    }
  }

  /** The number and letter fields of the token read back to the values they were written from. */
  lemma EncodeParsesNumbers(rule: MonthlyRule)
    requires Encodable(rule)
    ensures var s := Encode(rule); var b := rule.bounds;
      ParseInt(s[17..21]) == Some(b.numberOfOccurrences) &&
      ParseInt(s[21..22]) == Some(rule.regenType.Code()) &&
      ParseInt(s[22..23]) == Some(b.endDateType.Code()) &&
      ParseInt(s[23..25]) == Some(rule.regenerateOnSpecificDateDayValue) &&
      DatePartOneOfLetter(s[25]) == Some(rule.specificDatePartOne) &&
      DatePartTwoOfLetter(s[26]) == Some(rule.specificDatePartTwo) &&
      ParseInt(s[27..30]) == Some(rule.adjustmentValue) &&
      ParseInt(s[30..33]) == Some(rule.regenEveryXMonths)
  {
    var b := rule.bounds;
    EncodeFields(rule);
    ParseFormatInt(b.numberOfOccurrences, 4);
    ParseFormatInt(rule.regenType.Code(), 1);
    ParseFormatInt(b.endDateType.Code(), 1);
    ParseFormatInt(rule.regenerateOnSpecificDateDayValue, 2);
    DatePartOneLetterRoundTrip(rule.specificDatePartOne);
    DatePartTwoLetterRoundTrip(rule.specificDatePartTwo);
    ParseSignedDigits(rule.adjustmentValue, 3);
    ParseFormatInt(rule.regenEveryXMonths, 3);
  }

  /**
   * What decoding a rule's token gives back: its start date, end type,
   * kind and adjustment; the day and interval of a fixed-day rule; the
   * parts and interval of a custom-date rule; the count for a count rule
   * and the end date for an end-date rule.
   */
  predicate Recovered(info: RecurrenceInfo, rule: MonthlyRule) {
    info.startDate == rule.bounds.startDate &&
    info.endDateType == rule.bounds.endDateType &&
    info.monthlyRegenType == rule.regenType &&
    info.adjustmentValue == rule.adjustmentValue &&
    (rule.regenType.OnSpecificDayOfMonth? ==>
      info.monthlyRegenerateOnSpecificDateDayValue == rule.regenerateOnSpecificDateDayValue &&
      info.monthlyRegenEveryXMonths == rule.regenEveryXMonths) &&
    (rule.regenType.OnCustomDateFormat? ==>
      info.monthlySpecificDatePartOne == rule.specificDatePartOne &&
      info.monthlySpecificDatePartTwo == rule.specificDatePartTwo &&
      info.monthlyRegenEveryXMonths == rule.regenEveryXMonths) &&
    (rule.bounds.endDateType == NumberOfOccurrences ==> info.numberOfOccurrences == rule.bounds.numberOfOccurrences) &&
    (rule.bounds.endDateType == SpecificDate ==> info.endDate == rule.bounds.endDate)
  }

  /** DecodeFields for a fixed-day rule, which reads the day field. */
  lemma DecodeDayFields(s: string, rule: MonthlyRule) returns (info: RecurrenceInfo)
    requires rule.regenType.OnSpecificDayOfMonth?
    requires |s| >= 33 && s[0] == 'M'
    requires !rule.bounds.endDateType.NotDefined?
    requires rule.bounds.endDateType == SpecificDate ==> rule.bounds.endDate.Some?
    requires ParseDate(s[1..9]) == Some(rule.bounds.startDate)
    requires rule.bounds.endDate.Some? ==> ParseDate(s[9..17]) == Some(rule.bounds.endDate.value)
    requires ParseInt(s[17..21]) == Some(rule.bounds.numberOfOccurrences)
    requires ParseInt(s[21..22]) == Some(rule.regenType.Code())
    requires ParseInt(s[22..23]) == Some(rule.bounds.endDateType.Code())
    requires ParseInt(s[23..25]) == Some(rule.regenerateOnSpecificDateDayValue)
    requires ParseInt(s[27..30]) == Some(rule.adjustmentValue)
    requires ParseInt(s[30..33]) == Some(rule.regenEveryXMonths)
    ensures Decode(s) == Ok(Some(info)) && Recovered(info, rule)
  {
    info := Decode(s).value.value;
  }

  /** DecodeFields for a custom-date rule, which reads the two part letters. */
  lemma DecodeCustomFields(s: string, rule: MonthlyRule) returns (info: RecurrenceInfo)
    requires rule.regenType.OnCustomDateFormat?
    requires |s| >= 33 && s[0] == 'M'
    requires !rule.bounds.endDateType.NotDefined?
    requires rule.bounds.endDateType == SpecificDate ==> rule.bounds.endDate.Some?
    requires ParseDate(s[1..9]) == Some(rule.bounds.startDate)
    requires rule.bounds.endDate.Some? ==> ParseDate(s[9..17]) == Some(rule.bounds.endDate.value)
    requires ParseInt(s[17..21]) == Some(rule.bounds.numberOfOccurrences)
    requires ParseInt(s[21..22]) == Some(rule.regenType.Code())
    requires ParseInt(s[22..23]) == Some(rule.bounds.endDateType.Code())
    requires DatePartOneOfLetter(s[25]) == Some(rule.specificDatePartOne)
    requires DatePartTwoOfLetter(s[26]) == Some(rule.specificDatePartTwo)
    requires ParseInt(s[27..30]) == Some(rule.adjustmentValue)
    requires ParseInt(s[30..33]) == Some(rule.regenEveryXMonths)
    ensures Decode(s) == Ok(Some(info)) && Recovered(info, rule)
  {
    info := Decode(s).value.value;
  }

  /** DecodeFields for a rule repeating after each completed occurrence, which reads neither. */
  lemma DecodeAfterFields(s: string, rule: MonthlyRule) returns (info: RecurrenceInfo)
    requires rule.regenType.AfterOccurrenceCompleted?
    requires |s| >= 33 && s[0] == 'M'
    requires !rule.bounds.endDateType.NotDefined?
    requires rule.bounds.endDateType == SpecificDate ==> rule.bounds.endDate.Some?
    requires ParseDate(s[1..9]) == Some(rule.bounds.startDate)
    requires rule.bounds.endDate.Some? ==> ParseDate(s[9..17]) == Some(rule.bounds.endDate.value)
    requires ParseInt(s[17..21]) == Some(rule.bounds.numberOfOccurrences)
    requires ParseInt(s[21..22]) == Some(rule.regenType.Code())
    requires ParseInt(s[22..23]) == Some(rule.bounds.endDateType.Code())
    requires ParseInt(s[27..30]) == Some(rule.adjustmentValue)
    requires ParseInt(s[30..33]) == Some(rule.regenEveryXMonths)
    ensures Decode(s) == Ok(Some(info)) && Recovered(info, rule)
  {
    info := Decode(s).value.value;
  }

  /** A token whose fields parse to a rule's values decodes to that rule. */
  lemma DecodeFields(s: string, rule: MonthlyRule) returns (info: RecurrenceInfo)
    requires |s| >= 33 && s[0] == 'M'
    requires !rule.regenType.NotSet? && !rule.bounds.endDateType.NotDefined?
    requires rule.bounds.endDateType == SpecificDate ==> rule.bounds.endDate.Some?
    requires ParseDate(s[1..9]) == Some(rule.bounds.startDate)
    requires rule.bounds.endDate.Some? ==> ParseDate(s[9..17]) == Some(rule.bounds.endDate.value)
    requires ParseInt(s[17..21]) == Some(rule.bounds.numberOfOccurrences)
    requires ParseInt(s[21..22]) == Some(rule.regenType.Code())
    requires ParseInt(s[22..23]) == Some(rule.bounds.endDateType.Code())
    requires ParseInt(s[23..25]) == Some(rule.regenerateOnSpecificDateDayValue)
    requires DatePartOneOfLetter(s[25]) == Some(rule.specificDatePartOne)
    requires DatePartTwoOfLetter(s[26]) == Some(rule.specificDatePartTwo)
    requires ParseInt(s[27..30]) == Some(rule.adjustmentValue)
    requires ParseInt(s[30..33]) == Some(rule.regenEveryXMonths)
    ensures Decode(s) == Ok(Some(info)) && Recovered(info, rule)
  {
    match rule.regenType
    case OnSpecificDayOfMonth => info := DecodeDayFields(s, rule);
    case OnCustomDateFormat => info := DecodeCustomFields(s, rule);
    case AfterOccurrenceCompleted => info := DecodeAfterFields(s, rule);
  }

  /** Decoding a rule's token gives back the rule. */
  lemma DecodeEncode(rule: MonthlyRule) returns (info: RecurrenceInfo)
    requires Encodable(rule)
    requires rule.bounds.endDateType == SpecificDate ==> rule.bounds.endDate.Some?
    ensures Decode(Encode(rule)) == Ok(Some(info)) && Recovered(info, rule)
  {
    EncodeParsesDates(rule);
    EncodeParsesNumbers(rule);
    info := DecodeFields(Encode(rule), rule);
  }

  // ---------------------------------------------------------------------
  // Rebuilding a rule from a token

  /**
   * The rule of the settings object GetRecurrenceSettings builds from a
   * decoded (and overridden) token: the constructor its end type picks, the
   * adjustment, and SetValues for a fixed-day or custom-date rule. An end
   * type it has no constructor for leaves the object null, which setting
   * the adjustment then dereferences.
   */
  function RuleOfInfo(info: RecurrenceInfo, start: DateTime): Result<MonthlyRule> {
    if info.endDateType == NotDefined then Err(NullReference)
    else if info.endDateType == SpecificDate && info.endDate.None? then Err(NullReference)
    else
      var bounds := match info.endDateType
        case NumberOfOccurrences => Bounds(start, None, info.numberOfOccurrences, NumberOfOccurrences)
        case SpecificDate => Bounds(start, info.endDate, 0, SpecificDate)
        case _ => Bounds(start, None, 0, NoEndDate);
      var rule := MonthlyRule(bounds, MonthlyRegenType.NotSet, 0, DatePartOne.NotSet, DatePartTwo.NotSet, info.adjustmentValue, 1);
      Ok(match info.monthlyRegenType
        case OnSpecificDayOfMonth =>
          rule.(regenType := MonthlyRegenType.OnSpecificDayOfMonth, regenerateOnSpecificDateDayValue := info.monthlyRegenerateOnSpecificDateDayValue,
                regenEveryXMonths := info.monthlyRegenEveryXMonths)
        case OnCustomDateFormat =>
          rule.(regenType := MonthlyRegenType.OnCustomDateFormat, specificDatePartOne := info.monthlySpecificDatePartOne,
                specificDatePartTwo := info.monthlySpecificDatePartTwo, regenEveryXMonths := info.monthlyRegenEveryXMonths)
        case _ => rule)
  }

  /**
   * GetRecurrenceSettings: the rule rebuilt from a token with the count
   * override (-1 for none) and the end-date override (DateTime.MinValue for
   * none). `modifiedStart` None takes the token's own start date.
   */
  function Rebuild(seriesInfo: string, modifiedOccurrences: int, modifiedStart: Option<DateTime>, modifiedEnd: DateTime): Result<MonthlyRule>
  {
    match Decode(seriesInfo)
    case Err(e) => Err(e)
    case Ok(None) => Err(NullReference)
    case Ok(Some(decoded)) =>
      RuleOfInfo(ApplyOverrides(decoded, modifiedOccurrences, modifiedEnd),
        if modifiedStart.Some? then modifiedStart.value else decoded.startDate)
  }

  /**
   * What rebuilding from a rule's token gives: a rule of the same kind
   * with the same adjustment, day or custom parts and interval, from the
   * given or the original start date, with the end condition the overrides
   * ask for or else the original one.
   */
  predicate Restored(rebuilt: MonthlyRule, rule: MonthlyRule, modifiedOccurrences: int, modifiedStart: Option<DateTime>, modifiedEnd: DateTime) {
    rebuilt.bounds.Canonical() && rebuilt.bounds.Complete() &&
    rebuilt.regenType == rule.regenType && rebuilt.adjustmentValue == rule.adjustmentValue &&
    rebuilt.regenEveryXMonths == rule.regenEveryXMonths &&
    (rule.regenType.OnSpecificDayOfMonth? ==>
      rebuilt.regenerateOnSpecificDateDayValue == rule.regenerateOnSpecificDateDayValue &&
      rebuilt.specificDatePartOne.NotSet? && rebuilt.specificDatePartTwo.NotSet?) &&
    (rule.regenType.OnCustomDateFormat? ==>
      rebuilt.specificDatePartOne == rule.specificDatePartOne && rebuilt.specificDatePartTwo == rule.specificDatePartTwo &&
      rebuilt.regenerateOnSpecificDateDayValue == 0) &&
    rebuilt.bounds.startDate == (if modifiedStart.Some? then modifiedStart.value else rule.bounds.startDate) &&
    (modifiedEnd != MinValue ==>
      rebuilt.bounds.endDateType == SpecificDate && rebuilt.bounds.endDate == Some(modifiedEnd)) &&
    (modifiedEnd == MinValue && modifiedOccurrences != -1 ==>
      rebuilt.bounds.endDateType == NumberOfOccurrences && rebuilt.bounds.numberOfOccurrences == modifiedOccurrences) &&
    (modifiedEnd == MinValue && modifiedOccurrences == -1 ==>
      rebuilt.bounds.endDateType == rule.bounds.endDateType &&
      (rebuilt.bounds.endDateType == NumberOfOccurrences ==> rebuilt.bounds.numberOfOccurrences == rule.bounds.numberOfOccurrences) &&
      (rebuilt.bounds.endDateType == SpecificDate ==> rebuilt.bounds.endDate == rule.bounds.endDate))
  }

  /** The rule built from a decoded token with the overrides applied is restored. */
  lemma RebuildInfo(info: RecurrenceInfo, rule: MonthlyRule, modifiedOccurrences: int, modifiedStart: Option<DateTime>, modifiedEnd: DateTime)
    returns (rebuilt: MonthlyRule)
    requires Recovered(info, rule) && rule.bounds.Complete() && !rule.bounds.endDateType.NotDefined?
    requires rule.regenType.OnSpecificDayOfMonth? || rule.regenType.OnCustomDateFormat?
    ensures RuleOfInfo(ApplyOverrides(info, modifiedOccurrences, modifiedEnd),
      if modifiedStart.Some? then modifiedStart.value else info.startDate) == Ok(rebuilt)
    ensures Restored(rebuilt, rule, modifiedOccurrences, modifiedStart, modifiedEnd)
  {
    var overridden := ApplyOverrides(info, modifiedOccurrences, modifiedEnd);
    rebuilt := RuleOfInfo(overridden, if modifiedStart.Some? then modifiedStart.value else info.startDate).value;
  }

  /**
   * Rebuilding from a rule's own token, with or without overrides, gives
   * the restored rule.
   */
  lemma RebuildEncode(rule: MonthlyRule, modifiedOccurrences: int, modifiedStart: Option<DateTime>, modifiedEnd: DateTime)
    returns (rebuilt: MonthlyRule)
    requires Encodable(rule) && rule.bounds.Complete()
    requires rule.regenType.OnSpecificDayOfMonth? || rule.regenType.OnCustomDateFormat?
    ensures Rebuild(Encode(rule), modifiedOccurrences, modifiedStart, modifiedEnd) == Ok(rebuilt)
    ensures Restored(rebuilt, rule, modifiedOccurrences, modifiedStart, modifiedEnd)
  {
    var info := DecodeEncode(rule);
    rebuilt := RebuildInfo(info, rule, modifiedOccurrences, modifiedStart, modifiedEnd);
  }

  /**
   * The series-info token reproduces its series: the rule rebuilt from a
   * fixed-day or custom-date rule's token without overrides is the rule
   * itself, so it generates the same dates and finds the same next dates.
   * A fixed-day rule's custom parts and a custom rule's day are not read
   * back, so they must be the values a rebuilt rule starts with.
   */
  lemma TokenReproduces(rule: MonthlyRule)
    requires Encodable(rule) && rule.bounds.Complete()
    requires rule.regenType.OnSpecificDayOfMonth? ==> rule.specificDatePartOne.NotSet? && rule.specificDatePartTwo.NotSet?
    requires rule.regenType.OnCustomDateFormat? ==> rule.regenerateOnSpecificDateDayValue == 0
    requires rule.regenType.OnSpecificDayOfMonth? || rule.regenType.OnCustomDateFormat?
    requires rule.bounds.Canonical()
    ensures Rebuild(Encode(rule), -1, None, MinValue) == Ok(rule)
  {
    var rebuilt := RebuildEncode(rule, -1, None, MinValue);
    assert rebuilt.bounds == rule.bounds;
    assert rebuilt == rule;
  }

  // ---------------------------------------------------------------------
  // The generator

  /**
   * What GetRecurrenceValues hands back: the dates of the run, the first as
   * start date, the last as end date unless the rule has no end date, and
   * the rule's token; or the exception the run throws.
   */
  predicate Delivered(r: Result<RecurrenceValues>, rule: MonthlyRule, nextDateMode: bool, reference: DateTime)
    requires CanRun(rule, nextDateMode)
    reads if r.Ok? then {r.value} else {}
  {
    match Outcome(rule, nextDateMode, reference)
    case Err(e) => r == Err(e)
    case Ok(s) =>
      r.Ok? && r.value.values == s &&
      r.value.startDate == (if |s| > 0 then s[0] else MinValue) &&
      r.value.endDate == (if |s| > 0 && rule.bounds.endDateType != NoEndDate then s[|s| - 1] else MinValue) &&
      r.value.seriesInfo == Some(Encode(rule))
  }

  /** The dates of a run before the summary is set: a fresh list, or the exception. */
  predicate Collected(r: Result<RecurrenceValues>, rule: MonthlyRule, nextDateMode: bool, reference: DateTime)
    requires CanRun(rule, nextDateMode)
    reads if r.Ok? then {r.value} else {}
  {
    Cycles.Gathered(r, Outcome(rule, nextDateMode, reference))
  }

  /** For a rule that reaches the loops, the outcome is the next-date run or the bulk run. */
  lemma OutcomeOfRun(rule: MonthlyRule, nextDateMode: bool, reference: DateTime)
    requires Runs(rule) && CanRun(rule, nextDateMode)
    ensures Outcome(rule, nextDateMode, reference) == if nextDateMode then Ok(NextRun(rule, reference)) else Generate(rule)
  {
  }

  class MonthlyRecurrenceSettings {
    /** The end condition (the RecurrenceSettings base object). */
    const base: RecurrenceSettings
    var regenerateOnSpecificDateDayValue: int
    var regenEveryXMonths: int
    var adjustmentValue: int
    var getNextDateValue: bool
    var nextDateValue: DateTime
    var regenType: MonthlyRegenType
    var specificDatePartOne: DatePartOne
    var specificDatePartTwo: DatePartTwo

    /** The state a constructor leaves: no kind, day 0, every month, no adjustment, no parts, bulk mode. */
    predicate Initial()
      reads this
    {
      regenType.NotSet? && regenerateOnSpecificDateDayValue == 0 && regenEveryXMonths == 1 &&
      adjustmentValue == 0 && specificDatePartOne.NotSet? && specificDatePartTwo.NotSet? &&
      !getNextDateValue && nextDateValue == MinValue
    }

    constructor FromStart(start: DateTime)
      ensures fresh(base) && base.Value() == Bounds(start, None, 0, NoEndDate) && Initial()
    {
      base := new RecurrenceSettings.FromStart(start);
      regenerateOnSpecificDateDayValue := 0;
      regenEveryXMonths := 1;
      adjustmentValue := 0;
      getNextDateValue := false;
      nextDateValue := MinValue;
      regenType := MonthlyRegenType.NotSet;
      specificDatePartOne := DatePartOne.NotSet;
      specificDatePartTwo := DatePartTwo.NotSet;
    }

    constructor FromStartAndEnd(start: DateTime, end: DateTime)
      ensures fresh(base) && base.Value() == Bounds(start, Some(end), 0, SpecificDate) && Initial()
    {
      base := new RecurrenceSettings.FromStartAndEnd(start, end);
      regenerateOnSpecificDateDayValue := 0;
      regenEveryXMonths := 1;
      adjustmentValue := 0;
      getNextDateValue := false;
      nextDateValue := MinValue;
      regenType := MonthlyRegenType.NotSet;
      specificDatePartOne := DatePartOne.NotSet;
      specificDatePartTwo := DatePartTwo.NotSet;
    }

    constructor FromStartAndCount(start: DateTime, count: int)
      ensures fresh(base) && base.Value() == Bounds(start, None, count, NumberOfOccurrences) && Initial()
    {
      base := new RecurrenceSettings.FromStartAndCount(start, count);
      regenerateOnSpecificDateDayValue := 0;
      regenEveryXMonths := 1;
      adjustmentValue := 0;
      getNextDateValue := false;
      nextDateValue := MinValue;
      regenType := MonthlyRegenType.NotSet;
      specificDatePartOne := DatePartOne.NotSet;
      specificDatePartTwo := DatePartTwo.NotSet;
    }

    /** The rule the object holds. */
    function Rule(): MonthlyRule
      reads this`regenType, this`regenerateOnSpecificDateDayValue, this`specificDatePartOne,
        this`specificDatePartTwo, this`adjustmentValue, this`regenEveryXMonths, base
    {
      MonthlyRule(base.Value(), regenType, regenerateOnSpecificDateDayValue, specificDatePartOne,
        specificDatePartTwo, adjustmentValue, regenEveryXMonths)
    }

    /** SetValues(customDatePartOne, customDatePartTwo, regenEveryXMonths): a custom date every X months. */
    method SetValuesCustom(one: DatePartOne, two: DatePartTwo, x: int)
      modifies this`regenEveryXMonths, this`specificDatePartOne, this`specificDatePartTwo, this`regenType
      ensures regenEveryXMonths == x && specificDatePartOne == one && specificDatePartTwo == two
      ensures regenType == MonthlyRegenType.OnCustomDateFormat
    {
      regenEveryXMonths := x;
      specificDatePartOne := one;
      specificDatePartTwo := two;
      regenType := MonthlyRegenType.OnCustomDateFormat;
    }

    /** SetValues(dayOfMonthToRegen, regenEveryXMonths): a fixed day every X months. */
    method SetValuesDay(day: int, x: int)
      modifies this`regenEveryXMonths, this`regenerateOnSpecificDateDayValue, this`regenType
      ensures regenEveryXMonths == x && regenerateOnSpecificDateDayValue == day
      ensures regenType == MonthlyRegenType.OnSpecificDayOfMonth
    {
      regenEveryXMonths := x;
      regenerateOnSpecificDateDayValue := day;
      regenType := MonthlyRegenType.OnSpecificDayOfMonth;
    }

    /** The AdjustmentValue setter. */
    method SetAdjustmentValue(v: int)
      modifies this`adjustmentValue
      ensures adjustmentValue == v
    {
      adjustmentValue := v;
    }

    /** GetCorrectedDate: back up to the target day, or the month's last day, within the same month. */
    method GetCorrectedDate(input: DateTime) returns (r: DateTime)
      ensures r == CorrectedDate(input, regenerateOnSpecificDateDayValue)
    {
      var dt := input;
      var daysOfMonth := DaysInMonth(dt.year, dt.month);
      if dt.day < regenerateOnSpecificDateDayValue && daysOfMonth > dt.day {
        if regenerateOnSpecificDateDayValue > daysOfMonth {
          dt := Date(dt.year, dt.month, daysOfMonth);
        } else {
          dt := Date(dt.year, dt.month, regenerateOnSpecificDateDayValue);
        }
      }
      r := dt;
    }

    /** GetCustomDate: the custom date of the month currentDate is in, found from the month's first day. */
    method GetCustomDate(currentDate: DateTime) returns (r: DateTime)
      requires !specificDatePartOne.NotSet? && !specificDatePartTwo.NotSet?
      ensures r == CustomOf(currentDate, specificDatePartOne, specificDatePartTwo)
    {
      r := CustomDayOfMonth(Date(currentDate.year, currentDate.month, 1), specificDatePartOne, specificDatePartTwo);
    }

    /** The head of each custom-date loop: the anchor's custom date, or the next month's when it is before the start date. */
    method ResolveCustomDate(dt: DateTime) returns (r: DateTime)
      requires !specificDatePartOne.NotSet? && !specificDatePartTwo.NotSet?
      ensures r == Resolve(base.startDate, specificDatePartOne, specificDatePartTwo, dt)
    {
      r := GetCustomDate(dt);
      if Before(r, base.startDate) {
        r := AddMonths(r, 1);
        r := GetCustomDate(r);
      }
    }

    /**
     * The fixed-day loops add the anchor moved by the adjustment and step
     * with AddMonths and GetCorrectedDate. Stated at marked anchors only, so
     * a loop's proof meets the step where a turn takes it and nowhere else.
     */
    ghost predicate FixedTurns(f: DateTime -> DateTime, h: DateTime -> DateTime)
      reads this`regenEveryXMonths, this`regenerateOnSpecificDateDayValue, this`adjustmentValue
    {
      forall a {:trigger Cycles.Anchor(a)} :: Cycles.Anchor(a) ==>
        f(a) == FixedNext(a, regenEveryXMonths, regenerateOnSpecificDateDayValue) && h(a) == AddDays(a, adjustmentValue)
    }

    /** The custom-date loops add the resolved date moved by the adjustment and step X months from it. */
    ghost predicate CustomTurns(f: DateTime -> DateTime, h: DateTime -> DateTime)
      reads this`specificDatePartOne, this`specificDatePartTwo, this`regenEveryXMonths, this`adjustmentValue, base
    {
      forall a {:trigger Cycles.Anchor(a)} :: Cycles.Anchor(a) ==>
        f(a) == CustomNext(base.startDate, specificDatePartOne, specificDatePartTwo, regenEveryXMonths, a) &&
        h(a) == CustomAdjusted(base.startDate, specificDatePartOne, specificDatePartTwo, adjustmentValue, a)
    }

    /** One turn of a fixed-day loop: add the anchor moved by the adjustment; the next anchor. */
    method AddSpecificDate(values: RecurrenceValues, dt: DateTime, ghost f: DateTime -> DateTime, ghost h: DateTime -> DateTime)
      returns (next: DateTime)
      requires FixedTurns(f, h)
      modifies values`values
      ensures values.values == old(values.values) + [h(dt)]
      ensures next == f(dt)
    {
      assert Cycles.Anchor(dt);
      values.AddAdjustedDateValue(dt, adjustmentValue);
      next := AddMonths(dt, regenEveryXMonths);
      next := GetCorrectedDate(next);
    }

    /** One turn of a custom-date loop: add the anchor's resolved date moved by the adjustment; X months on from it. */
    method AddCustomDate(values: RecurrenceValues, dt: DateTime, ghost f: DateTime -> DateTime, ghost h: DateTime -> DateTime)
      returns (next: DateTime)
      requires !specificDatePartOne.NotSet? && !specificDatePartTwo.NotSet? && CustomTurns(f, h)
      modifies values`values
      ensures values.values == old(values.values) + [h(dt)]
      ensures next == f(dt)
    {
      assert Cycles.Anchor(dt);
      var resolved := ResolveCustomDate(dt);
      values.AddAdjustedDateValue(resolved, adjustmentValue);
      next := AddMonths(resolved, regenEveryXMonths);
    }

    /** One turn of a loop of either kind, as the rule's kind picks. */
    method Turn(values: RecurrenceValues, dt: DateTime, ghost f: DateTime -> DateTime, ghost h: DateTime -> DateTime)
      returns (next: DateTime)
      requires regenType.OnCustomDateFormat? ==> !specificDatePartOne.NotSet? && !specificDatePartTwo.NotSet? && CustomTurns(f, h)
      requires !regenType.OnCustomDateFormat? ==> FixedTurns(f, h)
      modifies values`values
      ensures values.values == old(values.values) + [h(dt)]
      ensures next == f(dt)
    {
      if regenType.OnCustomDateFormat? {
        next := AddCustomDate(values, dt, f, h);
      } else {
        next := AddSpecificDate(values, dt, f, h);
      }
    }

    /**
     * The head of GetSpecificDayOfMonthDates: the target day in the start
     * month (clipped to it), a month on when that is before the start date.
     */
    method FirstSpecificDate() returns (r: Result<DateTime>)
      ensures r == FirstAnchor(base.startDate, regenerateOnSpecificDateDayValue)
    {
      var dt := base.startDate;
      var dayValue := regenerateOnSpecificDateDayValue;
      var daysOfMonth := DaysInMonth(dt.year, dt.month);
      if daysOfMonth < regenerateOnSpecificDateDayValue {
        dayValue := daysOfMonth;
      }
      if dayValue < 1 {
        return Err(DateOutOfRange);
      }
      var newDate := Date(dt.year, dt.month, dayValue);
      if Before(newDate, dt) {
        dt := AddMonths(newDate, 1);
      } else {
        dt := newDate;
      }
      r := Ok(dt);
    }

    /**
     * The next-date loop of either kind: add, stop once the added date is
     * after the reference date, step, and go on while within the limit.
     */
    method NextLoop(ghost f: DateTime -> DateTime, ghost h: DateTime -> DateTime, first: DateTime, reference: DateTime, bound: DateTime)
      returns (values: RecurrenceValues)
      requires regenType.OnCustomDateFormat? ==> !specificDatePartOne.NotSet? && !specificDatePartTwo.NotSet? && CustomTurns(f, h)
      requires !regenType.OnCustomDateFormat? ==> FixedTurns(f, h)
      requires Walks.Advancing(f)
      ensures fresh(values)
      ensures values.values == Cycles.EmitProbe(h, f, first, reference, bound)
      ensures values.startDate == MinValue && values.endDate == MinValue && values.seriesInfo == None
    {
      values := new RecurrenceValues();
      var dt := first;
      ghost var whole := Cycles.EmitProbe(h, f, first, reference, bound);
      while true
        invariant values.values + Cycles.EmitProbe(h, f, dt, reference, bound) == whole
        modifies values`values
        decreases DayNumber(bound) - DayNumber(dt)
      {
        Cycles.ProbeAppend(h, f, values.values, dt, reference, bound, whole);
        var next := Turn(values, dt, f, h);
        if Before(reference, values.values[|values.values| - 1]) {
          break;
        }
        dt := next;
        if !AtMost(dt, bound) {
          break;
        }
      }
    }

    /** The NumberOfOccurrences loop of either kind: add, step, NumberOfOccurrences times. */
    method CountLoop(ghost f: DateTime -> DateTime, ghost h: DateTime -> DateTime, first: DateTime)
      returns (values: RecurrenceValues)
      requires regenType.OnCustomDateFormat? ==> !specificDatePartOne.NotSet? && !specificDatePartTwo.NotSet? && CustomTurns(f, h)
      requires !regenType.OnCustomDateFormat? ==> FixedTurns(f, h)
      ensures fresh(values)
      ensures values.values == Cycles.Emit(h, f, first, if base.numberOfOccurrences > 0 then base.numberOfOccurrences else 0)
      ensures values.startDate == MinValue && values.endDate == MinValue && values.seriesInfo == None
    {
      values := new RecurrenceValues();
      var dt := first;
      var count := base.numberOfOccurrences;
      ghost var n := if count > 0 then count else 0;
      ghost var whole := Cycles.Emit(h, f, first, n);
      ghost var left: nat := n;
      var i := 0;
      while i < count
        invariant 0 <= i <= n && left == n - i
        invariant values.values + Cycles.Emit(h, f, dt, left) == whole
        modifies values`values
      {
        Cycles.CountAppend(h, f, values.values, dt, left, whole);
        left := left - 1;
        dt := Turn(values, dt, f, h);
        i := i + 1;
      }
    }

    /** The SpecificDate do-while loop of either kind: add, step, go on while on or before EndDate. */
    method UntilLoop(ghost f: DateTime -> DateTime, ghost h: DateTime -> DateTime, first: DateTime)
      returns (values: RecurrenceValues)
      requires regenType.OnCustomDateFormat? ==> !specificDatePartOne.NotSet? && !specificDatePartTwo.NotSet? && CustomTurns(f, h)
      requires !regenType.OnCustomDateFormat? ==> FixedTurns(f, h)
      requires Walks.Advancing(f)
      ensures fresh(values)
      ensures values.values == Cycles.EmitUntil(h, f, first, base.endDate)
      ensures values.startDate == MinValue && values.endDate == MinValue && values.seriesInfo == None
    {
      values := new RecurrenceValues();
      var dt := first;
      ghost var whole := Cycles.EmitUntil(h, f, first, base.endDate);
      while true
        invariant values.values + Cycles.EmitUntil(h, f, dt, base.endDate) == whole
        modifies values`values
        decreases DaysLeft(dt, base.endDate)
      {
        Cycles.UntilAppend(h, f, values.values, dt, base.endDate, whole);
        dt := Turn(values, dt, f, h);
        if !OnOrBefore(dt, base.endDate) {
          break;
        }
      }
    }
  
    /**
     * The loops both generators share once the first anchor is known: the
     * next-date run, or the bulk run of the end type.
     */
    method RunLoops(ghost f: DateTime -> DateTime, ghost h: DateTime -> DateTime, first: DateTime) returns (r: Result<RecurrenceValues>)
      requires Runs(Rule()) && CanRun(Rule(), getNextDateValue)
      requires f == Step(Rule()) && h == Value(Rule()) && first == Origin(Rule())
      requires regenType.OnCustomDateFormat? ==> !specificDatePartOne.NotSet? && !specificDatePartTwo.NotSet? && CustomTurns(f, h)
      requires !regenType.OnCustomDateFormat? ==> FixedTurns(f, h)
      ensures Cycles.Gathered(r, if getNextDateValue then Ok(NextRun(Rule(), nextDateValue)) else Generate(Rule()))
      ensures r.Ok? ==> fresh(r.value)
    {
      ghost var rule := Rule();
      if getNextDateValue {
        StepAdvances(rule);
        var bound := AddMonths(nextDateValue, regenEveryXMonths + 1);
        assert bound == ProbeBound(rule, nextDateValue);
        var values := NextLoop(f, h, first, nextDateValue, bound);
        assert values.values == NextRun(rule, nextDateValue);
        r := Ok(values);
      } else {
        r := BulkLoops(f, h, first);
      }
      assert Rule() == rule;
    }

    /** The switch on the end type: no end date and an unset end type throw. */
    method BulkLoops(ghost f: DateTime -> DateTime, ghost h: DateTime -> DateTime, first: DateTime) returns (r: Result<RecurrenceValues>)
      requires Runs(Rule()) && CanRun(Rule(), false)
      requires f == Step(Rule()) && h == Value(Rule()) && first == Origin(Rule())
      requires regenType.OnCustomDateFormat? ==> !specificDatePartOne.NotSet? && !specificDatePartTwo.NotSet? && CustomTurns(f, h)
      requires !regenType.OnCustomDateFormat? ==> FixedTurns(f, h)
      ensures Cycles.Gathered(r, Generate(Rule()))
      ensures r.Ok? ==> fresh(r.value)
    {
      if base.endDateType == NoEndDate {
        r := Err(NoEndDateUnsupported);
      } else if base.endDateType == NumberOfOccurrences {
        var values := CountLoop(f, h, first);
        r := Ok(values);
      } else if base.endDateType == SpecificDate {
        StepAdvances(Rule());
        var values := UntilLoop(f, h, first);
        r := Ok(values);
      } else {
        r := Err(EndDateTypeNotSet);
      }
    }

    /**
     * GetSpecificDayOfMonthDates: the first anchor (new DateTime throws for
     * a day below 1), then the loops.
     */
    method GetSpecificDayOfMonthDates() returns (r: Result<RecurrenceValues>)
      requires regenType.OnSpecificDayOfMonth? && CanRun(Rule(), getNextDateValue)
      ensures Collected(r, Rule(), getNextDateValue, nextDateValue)
      ensures r.Ok? ==> fresh(r.value)
    {
      var first := FirstSpecificDate();
      if first.Err? {
        return Err(first.error);
      }
      ghost var rule := Rule();
      ghost var f, h := Step(rule), Value(rule);
      forall a | Cycles.Anchor(a)
        ensures f(a) == FixedNext(a, regenEveryXMonths, regenerateOnSpecificDateDayValue) && h(a) == AddDays(a, adjustmentValue)
      {
      }
      OutcomeOfRun(rule, getNextDateValue, nextDateValue);
      r := RunLoops(f, h, first.value);
    }

    /**
     * GetCustomDayOfMonthDates: an unset part throws; otherwise the loops
     * from the start date.
     */
    method GetCustomDayOfMonthDates() returns (r: Result<RecurrenceValues>)
      requires regenType.OnCustomDateFormat? && CanRun(Rule(), getNextDateValue)
      ensures Collected(r, Rule(), getNextDateValue, nextDateValue)
      ensures r.Ok? ==> fresh(r.value)
    {
      if specificDatePartOne.NotSet? || specificDatePartTwo.NotSet? {
        return Err(CustomDatePartNotSet);
      }
      ghost var rule := Rule();
      ghost var f, h := Step(rule), Value(rule);
      forall a | Cycles.Anchor(a)
        ensures f(a) == CustomNext(base.startDate, specificDatePartOne, specificDatePartTwo, regenEveryXMonths, a)
        ensures h(a) == CustomAdjusted(base.startDate, specificDatePartOne, specificDatePartTwo, adjustmentValue, a)
      {
      }
      OutcomeOfRun(rule, getNextDateValue, nextDateValue);
      r := RunLoops(f, h, base.startDate);
    }

    /**
     * The switch on the regeneration type at the head of
     * GetRecurrenceValues; an unset or after-completion kind leaves the
     * list null.
     */
    method RunGenerator() returns (r: Result<RecurrenceValues>)
      requires CanRun(Rule(), getNextDateValue)
      ensures Collected(r, Rule(), getNextDateValue, nextDateValue)
      ensures r.Ok? ==> fresh(r.value)
    {
      if regenType.OnSpecificDayOfMonth? {
        r := GetSpecificDayOfMonthDates();
      } else if regenType.OnCustomDateFormat? {
        r := GetCustomDayOfMonthDates();
      } else {
        r := Err(NullReference);
      }
    }

    /**
     * GetRecurrenceValues: run the generator; a list gets its start date,
     * its end date (unless there is no end date) and the token.
     */
    method GetRecurrenceValues() returns (r: Result<RecurrenceValues>)
      requires CanRun(Rule(), getNextDateValue)
      ensures Delivered(r, Rule(), getNextDateValue, nextDateValue)
      ensures r.Ok? ==> fresh(r.value)
    {
      r := RunGenerator();
      if r.Ok? {
        SetSummary(r.value);
      }
    }

    /** The tail of GetRecurrenceValues: the first and last dates and the token. */
    method SetSummary(values: RecurrenceValues)
      modifies values`startDate, values`endDate, values`seriesInfo
      ensures |values.values| > 0 ==> values.startDate == values.values[0]
      ensures |values.values| == 0 ==> values.startDate == old(values.startDate)
      ensures |values.values| > 0 && base.endDateType != NoEndDate ==> values.endDate == values.values[|values.values| - 1]
      ensures |values.values| == 0 || base.endDateType == NoEndDate ==> values.endDate == old(values.endDate)
      ensures values.seriesInfo == Some(Encode(Rule()))
    {
      var token := Encode(Rule());
      if |values.values| > 0 {
        values.SetStartDate(values.values[0]);
        if base.endDateType != NoEndDate {
          values.SetEndDate(values.values[|values.values| - 1]);
        }
      }
      assert Rule() == old(Rule());
      values.SetSeriesInfo(token);
    }

    /** GetValues(): the run for the rule as it stands. */
    method GetValues() returns (r: Result<RecurrenceValues>)
      requires CanRun(Rule(), getNextDateValue)
      ensures Delivered(r, Rule(), getNextDateValue, nextDateValue)
      ensures r.Ok? ==> fresh(r.value)
    {
      r := GetRecurrenceValues();
    }

    /** GetValues(customDatePartOne, customDatePartTwo, regenEveryXMonths): a custom date every X months. */
    method GetValuesCustom(one: DatePartOne, two: DatePartTwo, x: int) returns (r: Result<RecurrenceValues>)
      requires CanRun(Rule().(regenType := MonthlyRegenType.OnCustomDateFormat, specificDatePartOne := one,
        specificDatePartTwo := two, regenEveryXMonths := x), getNextDateValue)
      modifies this`regenEveryXMonths, this`specificDatePartOne, this`specificDatePartTwo, this`regenType
      ensures regenType == MonthlyRegenType.OnCustomDateFormat && specificDatePartOne == one && specificDatePartTwo == two
      ensures regenEveryXMonths == x
      ensures Delivered(r, Rule(), getNextDateValue, nextDateValue)
      ensures r.Ok? ==> fresh(r.value)
    {
      SetValuesCustom(one, two, x);
      r := GetValues();
    }

    /** GetValues(dayOfMonthToRegen, regenEveryXMonths): a fixed day every X months. */
    method GetValuesDay(day: int, x: int) returns (r: Result<RecurrenceValues>)
      requires CanRun(Rule().(regenType := MonthlyRegenType.OnSpecificDayOfMonth, regenerateOnSpecificDateDayValue := day,
        regenEveryXMonths := x), getNextDateValue)
      modifies this`regenEveryXMonths, this`regenerateOnSpecificDateDayValue, this`regenType
      ensures regenType == MonthlyRegenType.OnSpecificDayOfMonth && regenerateOnSpecificDateDayValue == day
      ensures regenEveryXMonths == x
      ensures Delivered(r, Rule(), getNextDateValue, nextDateValue)
      ensures r.Ok? ==> fresh(r.value)
    {
      SetValuesDay(day, x);
      r := GetValues();
    }

    /** GetValues(startDate, endDate): the same rule, run from startDate up to endDate. */
    method GetValuesBetween(start: DateTime, end: DateTime) returns (r: Result<RecurrenceValues>)
      requires CanRun(Rule().(bounds := base.Value().(startDate := start, endDate := Some(end), endDateType := SpecificDate)), getNextDateValue)
      modifies base
      ensures base.Value() == old(base.Value()).(startDate := start, endDate := Some(end), endDateType := SpecificDate)
      ensures Delivered(r, Rule(), getNextDateValue, nextDateValue)
      ensures r.Ok? ==> fresh(r.value)
    {
      base.SetStartDate(start);
      base.SetEndDate(Some(end));
      base.SetTypeOfEndDate(SpecificDate);
      r := GetRecurrenceValues();
    }

    /** GetValues(startDate, numberOfOccurrences): the same rule, run from startDate for a number of dates. */
    method GetValuesFrom(start: DateTime, count: int) returns (r: Result<RecurrenceValues>)
      requires CanRun(Rule().(bounds := base.Value().(startDate := start, numberOfOccurrences := count, endDateType := NumberOfOccurrences)), getNextDateValue)
      modifies base
      ensures base.Value() == old(base.Value()).(startDate := start, numberOfOccurrences := count, endDateType := NumberOfOccurrences)
      ensures Delivered(r, Rule(), getNextDateValue, nextDateValue)
      ensures r.Ok? ==> fresh(r.value)
    {
      base.SetNumberOfOccurrences(count);
      base.SetStartDate(start);
      base.SetTypeOfEndDate(NumberOfOccurrences);
      r := GetRecurrenceValues();
    }

    /**
     * GetNextDate: switch to next-date mode, run, and answer the run's end
     * date (DateTime.MinValue for a rule with no end date).
     */
    method GetNextDate(currentDate: DateTime) returns (r: Result<DateTime>)
      requires CanRun(Rule(), true)
      modifies this`getNextDateValue, this`nextDateValue
      ensures getNextDateValue && nextDateValue == currentDate
      ensures r == NextDate(Rule(), currentDate)
    {
      getNextDateValue := true;
      nextDateValue := currentDate;
      var values := GetValues();
      if values.Err? {
        return Err(values.error);
      }
      r := Ok(values.value.endDate);
    }

    /**
     * The tail of GetRecurrenceSettings: the constructor the end type picks
     * (none for an unset end type, which the adjustment setter then
     * dereferences), the adjustment, then SetValues for a fixed-day or
     * custom-date kind.
     */
    static method FromInfo(info: RecurrenceInfo, start: DateTime) returns (r: Result<MonthlyRecurrenceSettings>)
      ensures RuleOfInfo(info, start).Err? ==> r == Err(RuleOfInfo(info, start).error)
      ensures RuleOfInfo(info, start).Ok? ==> r.Ok?
      ensures r.Ok? ==>
        fresh(r.value) && fresh(r.value.base) && RuleOfInfo(info, start) == Ok(r.value.Rule()) &&
        !r.value.getNextDateValue && r.value.nextDateValue == MinValue
    {
      var settings: MonthlyRecurrenceSettings;
      if info.endDateType == NumberOfOccurrences {
        settings := new MonthlyRecurrenceSettings.FromStartAndCount(start, info.numberOfOccurrences);
      } else if info.endDateType == SpecificDate {
        if info.endDate.None? {
          return Err(NullReference);
        }
        settings := new MonthlyRecurrenceSettings.FromStartAndEnd(start, info.endDate.value);
      } else if info.endDateType == NoEndDate {
        settings := new MonthlyRecurrenceSettings.FromStart(start);
      } else {
        return Err(NullReference);
      }
      settings.SetAdjustmentValue(info.adjustmentValue);
      if info.monthlyRegenType.OnSpecificDayOfMonth? {
        settings.SetValuesDay(info.monthlyRegenerateOnSpecificDateDayValue, info.monthlyRegenEveryXMonths);
      } else if info.monthlyRegenType.OnCustomDateFormat? {
        settings.SetValuesCustom(info.monthlySpecificDatePartOne, info.monthlySpecificDatePartTwo, info.monthlyRegenEveryXMonths);
      }
      r := Ok(settings);
    }

    /**
     * GetRecurrenceSettings: a generator rebuilt from a token, with the
     * overrides of the internal overloads (count -1 and end date
     * DateTime.MinValue for none; start None for the token's own). A token
     * of another kind decodes to null, which the overrides or the end-type
     * switch dereference.
     */
    static method GetRecurrenceSettings(seriesInfo: string, modifiedOccurrences: int, modifiedStart: Option<DateTime>, modifiedEnd: DateTime)
      returns (r: Result<MonthlyRecurrenceSettings>)
      ensures var expected := Rebuild(seriesInfo, modifiedOccurrences, modifiedStart, modifiedEnd);
        (expected.Err? ==> r == Err(expected.error)) && (expected.Ok? ==> r.Ok?)
      ensures r.Ok? ==>
        fresh(r.value) && fresh(r.value.base) &&
        Rebuild(seriesInfo, modifiedOccurrences, modifiedStart, modifiedEnd) == Ok(r.value.Rule()) &&
        !r.value.getNextDateValue && r.value.nextDateValue == MinValue
    {
      var decoded := Decode(seriesInfo);
      if decoded.Err? {
        return Err(decoded.error);
      }
      if decoded.value.None? {
        return Err(NullReference);
      }
      var info := ApplyOverrides(decoded.value.value, modifiedOccurrences, modifiedEnd);
      var start := if modifiedStart.Some? then modifiedStart.value else decoded.value.value.startDate;
      assert Rebuild(seriesInfo, modifiedOccurrences, modifiedStart, modifiedEnd) == RuleOfInfo(info, start);
      r := FromInfo(info, start);
    }
  }
}
