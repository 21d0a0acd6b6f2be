/**
 * YearlyRecurrenceSettings: once a year, either on a fixed day of one month
 * (clipped to a shorter February) or on a custom ("logical") date of one
 * month such as the first Monday of September, each date moved by a signed
 * adjustment in days.
 */
module YearlyRecurrence {
  import opened Results
  import opened Dates
  import opened Kinds
  import opened Text
  import opened Settings
  import opened Values
  import opened Info
  import opened DayRules
  import Walks
  import Cycles

  /**
   * The yearly rule a generator holds: its end condition, its kind, the
   * fixed day and month, the three parts of a custom date and the
   * adjustment in days.
   */
  datatype YearlyRule = YearlyRule(
    bounds: Bounds,
    regenType: YearlyRegenType,
    regenerateOnSpecificDateDayValue: int,
    regenerateOnSpecificDateMonthValue: int,
    specificDatePartOne: DatePartOne,
    specificDatePartTwo: DatePartTwo,
    specificDatePartThree: MonthOfYear,
    adjustmentValue: int)
  {
    /** All three parts of the custom date are set. */
    predicate PartsSet() {
      !specificDatePartOne.NotSet? && !specificDatePartTwo.NotSet? && specificDatePartThree.Month?
    }

    /** The fixed day and month name a day of the calendar. */
    predicate DayOfYearValid() {
      1 <= regenerateOnSpecificDateMonthValue <= 12 && regenerateOnSpecificDateDayValue >= 1
    }
  }

  // ---------------------------------------------------------------------
  // Anchors and steps

  /**
   * The first fixed-day anchor of GetSpecificDayOfYearDates: the target
   * day of the target month in the start year (the month's last day when
   * the month is shorter), a year on when it is before the start date.
   * DateTime.DaysInMonth throws for a month outside 1..12 and new DateTime
   * for a day below 1.
   */
  function FirstAnchor(start: DateTime, target: int, month: int): (r: Result<DateTime>)
    ensures r.Ok? <==> 1 <= month <= 12 && target >= 1
  {
    if !(1 <= month <= 12) then Err(DateOutOfRange)
    else
      var daysOfMonth := DaysInMonth(start.year, month);
      var dayValue := if daysOfMonth < target then daysOfMonth else target;
      if dayValue < 1 then Err(DateOutOfRange)
      else
        var newDate := Date(start.year, month, dayValue);
        Ok(if Before(newDate, start) then AddYears(newDate, 1) else newDate)
  }

  /** One fixed-day step: a year on, then GetCorrectedDate back up to the target day. */
  function FixedNext(a: DateTime, target: int): DateTime {
    CorrectedDate(AddYears(a, 1), target)
  }

  function FixedStep(target: int): DateTime -> DateTime {
    (a: DateTime) => FixedNext(a, target)
  }

  /**
   * The NumberOfOccurrences loop of GetSpecificDayOfYearDates: value i is
   * the first anchor i years on, corrected to the target day, moved by the
   * adjustment.
   */
  function FixedCount(a: DateTime, target: int, adjustment: int, n: nat): (s: seq<DateTime>)
    ensures |s| == n
  {
    if n == 0 then []
    else FixedCount(a, target, adjustment, n - 1) + [AddDays(CorrectedDate(AddYears(a, n - 1), target), adjustment)]
  }

  /**
   * The head of each custom-date loop turn: GetCustomDate(year), or
   * GetCustomDate(year + 1) when that one is before the start date.
   */
  function ResolveYear(start: DateTime, one: DatePartOne, two: DatePartTwo, month: MonthNumber, year: int): (r: DateTime)
    requires !one.NotSet? && !two.NotSet?
    ensures r.month == month && year <= r.year <= year + 1
    ensures r == CustomDate(r.year, month, one, two)
  {
    var c := CustomDate(year, month, one, two);
    if Before(c, start) then CustomDate(year + 1, month, one, two) else c
  }

  /**
   * One custom-date step. The loops keep a year counter, one past the year
   * of the date they last resolved; an anchor stands for the counter one
   * past its year, and a step resolves that counter's custom date.
   */
  function CustomNext(start: DateTime, one: DatePartOne, two: DatePartTwo, three: MonthOfYear, a: DateTime): DateTime {
    if one.NotSet? || two.NotSet? || three.NotSet? then a
    else ResolveYear(start, one, two, three.number, a.year + 1)
  }

  function CustomStep(start: DateTime, one: DatePartOne, two: DatePartTwo, three: MonthOfYear): DateTime -> DateTime {
    (a: DateTime) => CustomNext(start, one, two, three, a)
  }

  /** What a custom-date turn adds: the date it resolves, moved by the adjustment. */
  function CustomAdjusted(start: DateTime, one: DatePartOne, two: DatePartTwo, three: MonthOfYear, adjustment: int, a: DateTime): DateTime {
    AddDays(CustomNext(start, one, two, three, a), adjustment)
  }

  function CustomValue(start: DateTime, one: DatePartOne, two: DatePartTwo, three: MonthOfYear, adjustment: int): DateTime -> DateTime {
    (a: DateTime) => CustomAdjusted(start, one, two, three, adjustment, a)
  }

  /** The step of a rule's end-date and next-date loops. */
  function Step(rule: YearlyRule): DateTime -> DateTime {
    if rule.regenType.OnCustomDateFormat? then
      CustomStep(rule.bounds.startDate, rule.specificDatePartOne, rule.specificDatePartTwo, rule.specificDatePartThree)
    else FixedStep(rule.regenerateOnSpecificDateDayValue)
  }

  /** The value a rule's loops add for an anchor. */
  function Value(rule: YearlyRule): DateTime -> DateTime {
    if rule.regenType.OnCustomDateFormat? then
      CustomValue(rule.bounds.startDate, rule.specificDatePartOne, rule.specificDatePartTwo,
        rule.specificDatePartThree, rule.adjustmentValue)
    else Cycles.Shift(rule.adjustmentValue)
  }

  /**
   * The anchor the loops start from: the first fixed-day anchor, or for a
   * custom date a day of the year before the start year, standing for the
   * counter's first value, the start year.
   */
  function Origin(rule: YearlyRule): DateTime {
    if rule.regenType.OnCustomDateFormat? then Date(rule.bounds.startDate.year - 1, 1, 1)
    else match FirstAnchor(rule.bounds.startDate, rule.regenerateOnSpecificDateDayValue, rule.regenerateOnSpecificDateMonthValue)
      case Ok(a) => a
      case Err(_) => rule.bounds.startDate
  }

  /** The next-date loop's limit: a year after the reference date. */
  function ProbeBound(reference: DateTime): DateTime {
    AddYears(reference, 1)
  }

  /**
   * The kinds that reach the loops: a fixed day and month that name a
   * calendar day, or a custom date with all three parts set.
   */
  predicate Runs(rule: YearlyRule) {
    (rule.regenType.OnSpecificDayOfYear? && rule.DayOfYearValid()) ||
    (rule.regenType.OnCustomDateFormat? && rule.PartsSet())
  }

  /**
   * A step lands in a later year: the next year, same month, for a fixed
   * day; the counter's year or the one after, in the custom month, for a
   * custom date.
   */
  lemma StepYear(rule: YearlyRule, a: DateTime)
    requires Runs(rule)
    ensures !rule.regenType.OnCustomDateFormat? ==>
      Step(rule)(a).year == a.year + 1 && Step(rule)(a).month == a.month
    ensures rule.regenType.OnCustomDateFormat? ==>
      a.year + 1 <= Step(rule)(a).year <= a.year + 2 && Step(rule)(a).month == rule.specificDatePartThree.number
  {
    if rule.regenType.OnCustomDateFormat? {
      assert Step(rule)(a) == CustomNext(rule.bounds.startDate, rule.specificDatePartOne, rule.specificDatePartTwo, rule.specificDatePartThree, a);
    } else {
      assert Step(rule)(a) == FixedNext(a, rule.regenerateOnSpecificDateDayValue);
    }
  }

  lemma StepAdvances(rule: YearlyRule)
    requires Runs(rule)
    ensures Walks.Advancing(Step(rule))
  {
    forall a
      ensures Before(a, Step(rule)(a))
    {
      StepYear(rule, a);
      MonthOrder(a, Step(rule)(a));
    }
  }

  /** Each fixed-day step lands a year later. */
  lemma FixedStepAdvances(target: int)
    ensures Walks.Advancing(FixedStep(target))
  {
    forall a
      ensures Before(a, FixedStep(target)(a))
    {
      assert FixedStep(target)(a) == FixedNext(a, target);
      MonthOrder(a, FixedNext(a, target));
    }
  }

  // ---------------------------------------------------------------------
  // The series

  /** What GetValues produces in bulk mode for a rule that reaches the loops, or the exception it throws. */
  function Generate(rule: YearlyRule): Result<seq<DateTime>>
    requires Runs(rule)
  {
    match rule.bounds.endDateType
    case NoEndDate => Err(NoEndDateUnsupported)
    case NumberOfOccurrences =>
      var n := if rule.bounds.numberOfOccurrences > 0 then rule.bounds.numberOfOccurrences else 0;
      if rule.regenType.OnCustomDateFormat? then Ok(Cycles.Emit(Value(rule), Step(rule), Origin(rule), n))
      else Ok(FixedCount(Origin(rule), rule.regenerateOnSpecificDateDayValue, rule.adjustmentValue, n))
    case SpecificDate =>
      StepAdvances(rule);
      Ok(Cycles.EmitUntil(Value(rule), Step(rule), Origin(rule), rule.bounds.endDate))
    case NotDefined => Err(EndDateTypeNotSet)
  }

  /**
   * The next-date loop's dates: add, stop past the reference date, step,
   * and go on while the anchor is within a year of the reference date.
   */
  function NextRun(rule: YearlyRule, reference: DateTime): seq<DateTime>
    requires Runs(rule)
  {
    StepAdvances(rule);
    Cycles.EmitProbe(Value(rule), Step(rule), Origin(rule), reference, ProbeBound(reference))
  }

  /**
   * The dates GetRecurrenceValues collects, or the exception: a fixed day
   * or month that names no day fails in DaysInMonth or new DateTime, and a
   * custom date with an unset part throws, in either mode; an unset or
   * after-completion kind leaves the list null.
   */
  function Outcome(rule: YearlyRule, nextDateMode: bool, reference: DateTime): Result<seq<DateTime>> {
    if rule.regenType.OnSpecificDayOfYear? && !rule.DayOfYearValid() then Err(DateOutOfRange)
    else if rule.regenType.OnCustomDateFormat? && !rule.PartsSet() then Err(CustomDatePartNotSet)
    else if !Runs(rule) then Err(NullReference)
    else if nextDateMode then Ok(NextRun(rule, reference))
    else Generate(rule)
  }

  /**
   * GetNextDate: the end date of the next-date run, which is its last date
   * unless the rule has no end date, where it stays DateTime.MinValue.
   */
  function NextDate(rule: YearlyRule, reference: DateTime): Result<DateTime> {
    match Outcome(rule, true, reference)
    case Err(e) => Err(e)
    case Ok(s) => Ok(if |s| > 0 && rule.bounds.endDateType != NoEndDate then s[|s| - 1] else MinValue)
  }

  // ---------------------------------------------------------------------
  // Properties of the fixed-day series

  /**
   * The first fixed-day anchor is on or after the start date, in the
   * target month, on the target day clipped to that month in the start
   * year (and clipped again by AddYears); it is in the start year, or the
   * next one when the clipped day is before the start date.
   */
  lemma FirstAnchorSpec(start: DateTime, target: int, month: int)
    requires 1 <= month <= 12 && target >= 1
    ensures var a := FirstAnchor(start, target, month).value;
      var clipped := Min(target, DaysInMonth(start.year, month));
      AtMost(start, a) && a.month == month && a.day <= target &&
      a.day == Min(clipped, DaysInMonth(a.year, month)) &&
      a.year == start.year + (if Before(Date(start.year, month, clipped), start) then 1 else 0)
  {
    var clipped := Min(target, DaysInMonth(start.year, month));
    var newDate: DateTime := Date(start.year, month, clipped);
    if Before(newDate, start) {
      MonthOrder(start, AddYears(newDate, 1));
    }
  }

  /**
   * Walking fixed-day steps from an anchor at or below its target day: the
   * i-th anchor is i years on, in the same month, at or below the target
   * day, and after the first step exactly on the target day clipped to its
   * month.
   */
  lemma {:induction false} FixedWalk(a: DateTime, target: int, i: nat)
    requires a.day <= target
    ensures var x := Walks.Nth(FixedStep(target), a, i);
      x.year == a.year + i && x.month == a.month && x.day <= target &&
      (i >= 1 ==> x.day == Min(target, DaysInMonth(x.year, x.month)))
  {
    if i > 0 {
      FixedWalk(a, target, i - 1);
      var p := Walks.Nth(FixedStep(target), a, i - 1);
      assert Walks.Nth(FixedStep(target), a, i) == FixedNext(p, target);
      CorrectedDateClamps(AddYears(p, 1), target);
    }
  }

  /**
   * The anchors of a fixed-day rule's end-date and next-date loops: the
   * i-th is i years after the first, in the target month, and from the
   * second on exactly on the target day clipped to its month.
   */
  lemma FixedAnchors(rule: YearlyRule, i: nat)
    requires rule.regenType.OnSpecificDayOfYear? && rule.DayOfYearValid()
    ensures var x := Walks.Nth(Step(rule), Origin(rule), i);
      x.year == Origin(rule).year + i && x.month == rule.regenerateOnSpecificDateMonthValue &&
      x.day <= rule.regenerateOnSpecificDateDayValue &&
      (i >= 1 ==> x.day == Min(rule.regenerateOnSpecificDateDayValue, DaysInMonth(x.year, x.month)))
  {
    FirstAnchorSpec(rule.bounds.startDate, rule.regenerateOnSpecificDateDayValue, rule.regenerateOnSpecificDateMonthValue);
    FixedWalk(Origin(rule), rule.regenerateOnSpecificDateDayValue, i);
  }

  /** The i-th value of the count loop. */
  lemma {:induction false} FixedCountAt(a: DateTime, target: int, adjustment: int, n: nat, i: nat)
    requires i < n
    ensures FixedCount(a, target, adjustment, n)[i] == AddDays(CorrectedDate(AddYears(a, i), target), adjustment)
  {
    if i < n - 1 {
      FixedCountAt(a, target, adjustment, n - 1, i);
    }
  }

  /** The target day of a month in a year, clipped to the month's last day. */
  function TargetDate(year: int, month: int, target: int): (r: DateTime)
    requires 1 <= month <= 12 && target >= 1
    ensures r.year == year && r.month == month
  {
    Date(year, month, Min(target, DaysInMonth(year, month)))
  }

  /** The count loop's anchor i: the target day, clipped, i years after an anchor at or below it. */
  lemma CountAnchorAt(a: DateTime, target: int, i: nat)
    requires a.day <= target
    ensures CorrectedDate(AddYears(a, i), target) == TargetDate(a.year + i, a.month, target)
  {
    CorrectedDateClamps(AddYears(a, i), target);
  }

  /** From the first step on, a fixed-day walk is on the target day, clipped, one year after another. */
  lemma WalkOnTarget(a: DateTime, target: int, i: nat)
    requires a.day <= target && i >= 1
    ensures Walks.Nth(FixedStep(target), a, i) == TargetDate(a.year + i, a.month, target)
  {
    FixedWalk(a, target, i);
  }

  /**
   * A fixed-day count rule gives exactly its count of dates (none for a
   * count below 1); date i is the target day, clipped to the target month,
   * i years after the first anchor, moved by the adjustment.
   */
  lemma FixedCountDates(rule: YearlyRule)
    requires rule.regenType.OnSpecificDayOfYear? && rule.DayOfYearValid()
    requires rule.bounds.endDateType == NumberOfOccurrences
    ensures var s := Generate(rule).value; var a := Origin(rule);
      var day, month := rule.regenerateOnSpecificDateDayValue, rule.regenerateOnSpecificDateMonthValue;
      |s| == (if rule.bounds.numberOfOccurrences > 0 then rule.bounds.numberOfOccurrences else 0) &&
      forall i :: 0 <= i < |s| ==> s[i] == AddDays(TargetDate(a.year + i, month, day), rule.adjustmentValue)
  {
    var a := Origin(rule);
    var day, adjustment := rule.regenerateOnSpecificDateDayValue, rule.adjustmentValue;
    FirstAnchorSpec(rule.bounds.startDate, day, rule.regenerateOnSpecificDateMonthValue);
    var s := Generate(rule).value;
    assert s == FixedCount(a, day, adjustment, |s|);
    forall i | 0 <= i < |s|
      ensures s[i] == AddDays(TargetDate(a.year + i, a.month, day), adjustment)
    {
      FixedCountAt(a, day, adjustment, |s|, i);
      CountAnchorAt(a, day, i);
    }
  }

  /**
   * The count loop's dates are the values of the fixed-day walk from the
   * first anchor corrected to its target day.
   */
  lemma FixedCountIsWalk(a: DateTime, target: int, adjustment: int, n: nat)
    requires a.day <= target
    ensures FixedCount(a, target, adjustment, n) == Cycles.Emit(Cycles.Shift(adjustment), FixedStep(target), CorrectedDate(a, target), n)
  {
    var c := CorrectedDate(a, target);
    var h := Cycles.Shift(adjustment);
    var s, t := FixedCount(a, target, adjustment, n), Cycles.Emit(h, FixedStep(target), c, n);
    Cycles.EmitAt(h, FixedStep(target), c, n);
    forall i | 0 <= i < n
      ensures s[i] == t[i]
    {
      var x := Walks.Nth(FixedStep(target), c, i);
      FixedCountWalkAt(a, target, adjustment, n, i);
      assert t[i] == h(x) == AddDays(x, adjustment);
    }
  }

  /** Value i of the count loop is anchor i of the walk from the corrected first anchor, moved by the adjustment. */
  lemma FixedCountWalkAt(a: DateTime, target: int, adjustment: int, n: nat, i: nat)
    requires a.day <= target && i < n
    ensures FixedCount(a, target, adjustment, n)[i] == AddDays(Walks.Nth(FixedStep(target), CorrectedDate(a, target), i), adjustment)
  {
    var c := CorrectedDate(a, target);
    FixedCountAt(a, target, adjustment, n, i);
    CountAnchorAt(a, target, i);
    if i >= 1 {
      WalkOnTarget(c, target, i);
    } else {
      assert AddYears(a, 0) == a;
    }
  }

  /** Fixed-day values along the walk are strictly increasing, and their anchors are on or after the start date. */
  lemma FixedSeriesIncreasing(rule: YearlyRule, n: nat)
    requires rule.regenType.OnSpecificDayOfYear? && rule.DayOfYearValid()
    ensures StrictlyIncreasing(Cycles.Emit(Value(rule), Step(rule), Origin(rule), n))
    ensures forall i :: 0 <= i < n ==> AtMost(rule.bounds.startDate, Walks.Nth(Step(rule), Origin(rule), i))
  {
    var f, h := Step(rule), Value(rule);
    StepAdvances(rule);
    forall x
      ensures Before(h(x), h(f(x)))
    {
      assert Before(x, f(x));
    }
    Cycles.EmitIncreasing(h, f, Origin(rule), n);
    FirstAnchorSpec(rule.bounds.startDate, rule.regenerateOnSpecificDateDayValue, rule.regenerateOnSpecificDateMonthValue);
    forall i | 0 < i < n
      ensures AtMost(rule.bounds.startDate, Walks.Nth(f, Origin(rule), i))
    {
      Walks.NthIncreasing(f, Origin(rule), 0, i);
    }
  }

  /** The count loop's dates are strictly increasing. */
  lemma FixedCountIncreasing(a: DateTime, target: int, adjustment: int, n: nat)
    requires a.day <= target
    ensures StrictlyIncreasing(FixedCount(a, target, adjustment, n))
  {
    var f, h := FixedStep(target), Cycles.Shift(adjustment);
    FixedCountIsWalk(a, target, adjustment, n);
    FixedStepAdvances(target);
    forall x
      ensures Before(h(x), h(f(x)))
    {
      assert Before(x, f(x));
    }
    Cycles.EmitIncreasing(h, f, CorrectedDate(a, target), n);
  }

  // ---------------------------------------------------------------------
  // Properties of the custom-date series

  /** The year of the first custom date: the start year, or the next when the start year's custom date is before the start date. */
  function FirstCustomYear(rule: YearlyRule): int
    requires rule.PartsSet()
  {
    var start := rule.bounds.startDate;
    var c := CustomDate(start.year, rule.specificDatePartThree.number, rule.specificDatePartOne, rule.specificDatePartTwo);
    start.year + (if Before(c, start) then 1 else 0)
  }

  /** A counter past the start year resolves to its own year's custom date, which is after the start date. */
  lemma ResolveLater(start: DateTime, one: DatePartOne, two: DatePartTwo, month: MonthNumber, year: int)
    requires !one.NotSet? && !two.NotSet? && year > start.year
    ensures ResolveYear(start, one, two, month, year) == CustomDate(year, month, one, two)
    ensures Before(start, CustomDate(year, month, one, two))
  {
    MonthOrder(start, CustomDate(year, month, one, two));
  }

  /** The custom date of the k-th year of the series, counting from the first custom year. */
  function YearDate(rule: YearlyRule, k: int): (r: DateTime)
    requires rule.PartsSet()
    ensures r.year == FirstCustomYear(rule) + k && r.month == rule.specificDatePartThree.number
  {
    CustomDate(FirstCustomYear(rule) + k, rule.specificDatePartThree.number, rule.specificDatePartOne, rule.specificDatePartTwo)
  }

  /** A custom step resolves the custom date of the year after the anchor's. */
  lemma CustomStepAt(rule: YearlyRule, a: DateTime)
    requires rule.regenType.OnCustomDateFormat? && rule.PartsSet()
    ensures Step(rule)(a) == ResolveYear(rule.bounds.startDate, rule.specificDatePartOne, rule.specificDatePartTwo,
      rule.specificDatePartThree.number, a.year + 1)
  {
    assert Step(rule)(a) == CustomNext(rule.bounds.startDate, rule.specificDatePartOne, rule.specificDatePartTwo, rule.specificDatePartThree, a);
  }

  /** The first custom step, from the origin, resolves the first custom year's date. */
  lemma CustomFirst(rule: YearlyRule)
    requires rule.regenType.OnCustomDateFormat? && rule.PartsSet()
    ensures Step(rule)(Origin(rule)) == YearDate(rule, 0)
    ensures Walks.Nth(Step(rule), Origin(rule), 1) == YearDate(rule, 0)
    ensures AtMost(rule.bounds.startDate, YearDate(rule, 0))
  {
    assert Walks.Nth(Step(rule), Origin(rule), 1) == Step(rule)(Origin(rule));
    var start, one, two, m := rule.bounds.startDate, rule.specificDatePartOne, rule.specificDatePartTwo, rule.specificDatePartThree.number;
    CustomStepAt(rule, Origin(rule));
    var c := CustomDate(start.year, m, one, two);
    if Before(c, start) {
      MonthOrder(start, CustomDate(start.year + 1, m, one, two));
    }
  }

  /** A custom step from one year's date resolves the next year's date. */
  lemma CustomLater(rule: YearlyRule, k: nat)
    requires rule.regenType.OnCustomDateFormat? && rule.PartsSet() && k >= 1
    ensures Step(rule)(YearDate(rule, k - 1)) == YearDate(rule, k)
    ensures AtMost(rule.bounds.startDate, YearDate(rule, k))
  {
    var p := YearDate(rule, k - 1);
    CustomStepAt(rule, p);
    ResolveLater(rule.bounds.startDate, rule.specificDatePartOne, rule.specificDatePartTwo, rule.specificDatePartThree.number, p.year + 1);
  }

  /** The k-th custom step from the origin lands on the custom date of year FirstCustomYear + k. */
  lemma CustomWalk(rule: YearlyRule, k: nat)
    requires rule.regenType.OnCustomDateFormat? && rule.PartsSet()
    ensures Walks.Nth(Step(rule), Origin(rule), k + 1) == YearDate(rule, k)
  {
    var d := (j: nat) => YearDate(rule, j);
    CustomFirst(rule);
    forall j: nat
      ensures Step(rule)(d(j)) == d(j + 1)
    {
      CustomLater(rule, j + 1);
    }
    Walks.NthFollows(Step(rule), Origin(rule), d, k);
  }

  /**
   * The custom-date loops resolve the custom date of one year after
   * another: the k-th resolved date is the custom date of year
   * FirstCustomYear + k, on or after the start date.
   */
  lemma CustomAnchors(rule: YearlyRule, k: nat)
    requires rule.regenType.OnCustomDateFormat? && rule.PartsSet()
    ensures Walks.Nth(Step(rule), Origin(rule), k + 1) == YearDate(rule, k)
    ensures AtMost(rule.bounds.startDate, YearDate(rule, k))
  {
    CustomWalk(rule, k);
    if k == 0 {
      CustomFirst(rule);
    } else {
      CustomLater(rule, k);
    }
  }

  /**
   * Custom-date values: the k-th is the custom date of year
   * FirstCustomYear + k moved by the adjustment.
   */
  lemma CustomDates(rule: YearlyRule, n: nat)
    requires rule.regenType.OnCustomDateFormat? && rule.PartsSet()
    ensures var s := Cycles.Emit(Value(rule), Step(rule), Origin(rule), n);
      forall k :: 0 <= k < n ==> s[k] == AddDays(YearDate(rule, k), rule.adjustmentValue)
  {
    var f, h, o := Step(rule), Value(rule), Origin(rule);
    Cycles.EmitAt(h, f, o, n);
    forall k | 0 <= k < n
      ensures h(Walks.Nth(f, o, k)) == AddDays(YearDate(rule, k), rule.adjustmentValue)
    {
      var p := Walks.Nth(f, o, k);
      assert h(p) == AddDays(f(p), rule.adjustmentValue);
      assert Walks.Nth(f, o, k + 1) == f(p);
      CustomAnchors(rule, k);
    }
  }

  /**
   * The SpecificDate run of a custom date adds first and tests after: its
   * dates are the custom dates of consecutive years from FirstCustomYear,
   * every resolved date but the last is on or before the end date, and the
   * last resolved date is the first one past it.
   */
  lemma CustomUntilDates(rule: YearlyRule)
    requires rule.regenType.OnCustomDateFormat? && rule.PartsSet()
    requires rule.bounds.endDateType == SpecificDate
    ensures var s := Generate(rule).value;
      |s| >= 1 &&
      (forall k :: 0 <= k < |s| ==> s[k] == AddDays(YearDate(rule, k), rule.adjustmentValue)) &&
      (forall k :: 0 <= k < |s| - 1 ==> OnOrBefore(YearDate(rule, k), rule.bounds.endDate)) &&
      !OnOrBefore(YearDate(rule, |s| - 1), rule.bounds.endDate)
  {
    GenerateShape(rule);
    var s := Generate(rule).value;
    var f, o := Step(rule), Origin(rule);
    CustomDates(rule, |s|);
    forall k | 0 <= k < |s| - 1
      ensures OnOrBefore(YearDate(rule, k), rule.bounds.endDate)
    {
      CustomAnchors(rule, k);
      assert OnOrBefore(Walks.Nth(f, o, k + 1), rule.bounds.endDate);
    }
    CustomAnchors(rule, |s| - 1);
  }

  /** Every step raises the value a rule's loops add. */
  lemma ValueAdvances(rule: YearlyRule)
    requires Runs(rule)
    ensures forall x :: Before(Value(rule)(x), Value(rule)(Step(rule)(x)))
  {
    var f, h := Step(rule), Value(rule);
    StepAdvances(rule);
    forall x
      ensures Before(h(x), h(f(x)))
    {
      assert Before(x, f(x)) && Before(f(x), f(f(x)));
      if rule.regenType.OnCustomDateFormat? {
        assert h(x) == AddDays(f(x), rule.adjustmentValue) && h(f(x)) == AddDays(f(f(x)), rule.adjustmentValue);
      }
    }
  }

  /** The dates a rule generates in bulk are strictly increasing, whatever its kind and end condition. */
  lemma SeriesIncreasing(rule: YearlyRule)
    requires Runs(rule)
    ensures Generate(rule).Ok? ==> StrictlyIncreasing(Generate(rule).value)
  {
    GenerateShape(rule);
    if Generate(rule).Ok? {
      var s := Generate(rule).value;
      if rule.bounds.endDateType == NumberOfOccurrences && !rule.regenType.OnCustomDateFormat? {
        FirstAnchorSpec(rule.bounds.startDate, rule.regenerateOnSpecificDateDayValue, rule.regenerateOnSpecificDateMonthValue);
        FixedCountIncreasing(Origin(rule), rule.regenerateOnSpecificDateDayValue, rule.adjustmentValue, |s|);
      } else {
        ValueAdvances(rule);
        Cycles.EmitIncreasing(Value(rule), Step(rule), Origin(rule), |s|);
      }
    }
  }

  /**
   * A count rule gives its count of dates and an end-date rule at least
   * one; the end-date run emits the values of the walk's anchors, every
   * anchor after the first on or before the end date and the anchor after
   * the last past it.
   */
  lemma GenerateShape(rule: YearlyRule)
    requires Runs(rule)
    ensures Generate(rule).Ok? <==> rule.bounds.endDateType in {NumberOfOccurrences, SpecificDate}
    ensures Generate(rule).Ok? ==> var s := Generate(rule).value;
      (rule.bounds.endDateType == NumberOfOccurrences ==>
        |s| == (if rule.bounds.numberOfOccurrences > 0 then rule.bounds.numberOfOccurrences else 0) &&
        (rule.regenType.OnCustomDateFormat? ==> s == Cycles.Emit(Value(rule), Step(rule), Origin(rule), |s|))) &&
      (rule.bounds.endDateType == SpecificDate ==>
        |s| >= 1 && s == Cycles.Emit(Value(rule), Step(rule), Origin(rule), |s|) &&
        (forall i :: 1 <= i < |s| ==> OnOrBefore(Walks.Nth(Step(rule), Origin(rule), i), rule.bounds.endDate)) &&
        !OnOrBefore(Walks.Nth(Step(rule), Origin(rule), |s|), rule.bounds.endDate))
  {
    if rule.bounds.endDateType == SpecificDate {
      StepAdvances(rule);
      Cycles.EmitUntilShape(Value(rule), Step(rule), Origin(rule), rule.bounds.endDate);
    }
  }

  // ---------------------------------------------------------------------
  // The next date

  /**
   * An anchor exactly on its target day (clipped) whose value is on or
   * before the reference date is followed by one within a year of the
   * reference date, when the adjustment is not negative and the target day
   * is one every year has in that month.
   */
  lemma FixedNoCut(x: DateTime, reference: DateTime, target: int, adjustment: int)
    requires x.day == Min(target, DaysInMonth(x.year, x.month))
    requires x.month != 2 || target <= 28
    requires adjustment >= 0 && AtMost(AddDays(x, adjustment), reference)
    ensures AtMost(FixedNext(x, target), AddYears(reference, 1))
  {
    var n, b := FixedNext(x, target), AddYears(reference, 1);
    if MonthIndex(x) < MonthIndex(reference) {
      MonthOrder(n, b);
    } else if MonthIndex(x) == MonthIndex(reference) {
      SameMonthOrder(x, reference);
      SameMonthOrder(n, b);
    } else {
      MonthOrder(reference, x);
    }
  }

  /** A custom-date anchor whose value is on or before the reference date resolves on or before it too. */
  lemma CustomNoCut(rule: YearlyRule, reference: DateTime, x: DateTime)
    requires rule.regenType.OnCustomDateFormat? && rule.PartsSet() && rule.adjustmentValue >= 0
    requires AtMost(Value(rule)(x), reference)
    ensures AtMost(Step(rule)(x), ProbeBound(reference))
  {
    assert Value(rule)(x) == AddDays(Step(rule)(x), rule.adjustmentValue);
    MonthOrder(reference, ProbeBound(reference));
  }

  /**
   * Without a target day past the 28th of February, every fixed-day anchor
   * is exactly on its target day clipped to its month.
   */
  lemma AnchorOnTarget(rule: YearlyRule, i: nat)
    requires rule.regenType.OnSpecificDayOfYear? && rule.DayOfYearValid()
    requires rule.regenerateOnSpecificDateMonthValue != 2 || rule.regenerateOnSpecificDateDayValue <= 28
    ensures var x := Walks.Nth(Step(rule), Origin(rule), i);
      x.month == rule.regenerateOnSpecificDateMonthValue &&
      x.day == Min(rule.regenerateOnSpecificDateDayValue, DaysInMonth(x.year, x.month))
  {
    FixedAnchors(rule, i);
  }

  /**
   * GetNextDate, with no negative adjustment and (for a fixed day) a day
   * every year has in its month, answers the first value of the series
   * after the reference date when the rule has an end condition, and
   * DateTime.MinValue when it has none.
   */
  lemma NextDateFinds(rule: YearlyRule, reference: DateTime) returns (k: nat)
    requires Runs(rule) && rule.adjustmentValue >= 0
    requires rule.regenType.OnSpecificDayOfYear? ==>
      rule.regenerateOnSpecificDateMonthValue != 2 || rule.regenerateOnSpecificDateDayValue <= 28
    ensures var v := Value(rule)(Walks.Nth(Step(rule), Origin(rule), k));
      Before(reference, v) &&
      (forall j :: 0 <= j < k ==> AtMost(Value(rule)(Walks.Nth(Step(rule), Origin(rule), j)), reference)) &&
      NextDate(rule, reference) == Ok(if rule.bounds.endDateType != NoEndDate then v else MinValue)
  {
    StepAdvances(rule);
    NoCutAll(rule, reference);
    var s := NextRun(rule, reference);
    assert s == Cycles.EmitProbe(Value(rule), Step(rule), Origin(rule), reference, ProbeBound(reference));
    k := Cycles.ProbeReaches(Value(rule), Step(rule), Origin(rule), reference, ProbeBound(reference));
    assert NextDate(rule, reference) == Ok(if rule.bounds.endDateType != NoEndDate then s[k] else MinValue);
  }

  /**
   * Under the same conditions, no anchor whose value is on or before the
   * reference date steps past the next-date limit.
   */
  lemma NoCutAll(rule: YearlyRule, reference: DateTime)
    requires Runs(rule) && rule.adjustmentValue >= 0
    requires rule.regenType.OnSpecificDayOfYear? ==>
      rule.regenerateOnSpecificDateMonthValue != 2 || rule.regenerateOnSpecificDateDayValue <= 28
    ensures forall i: nat :: AtMost(Value(rule)(Walks.Nth(Step(rule), Origin(rule), i)), reference) ==>
      AtMost(Step(rule)(Walks.Nth(Step(rule), Origin(rule), i)), ProbeBound(reference))
  {
    var f, h, o := Step(rule), Value(rule), Origin(rule);
    forall i: nat | AtMost(h(Walks.Nth(f, o, i)), reference)
      ensures AtMost(f(Walks.Nth(f, o, i)), ProbeBound(reference))
    {
      var x := Walks.Nth(f, o, i);
      if rule.regenType.OnCustomDateFormat? {
        CustomNoCut(rule, reference, x);
      } else {
        AnchorOnTarget(rule, i);
        assert h(x) == AddDays(x, rule.adjustmentValue) && f(x) == FixedNext(x, rule.regenerateOnSpecificDateDayValue);
        FixedNoCut(x, reference, rule.regenerateOnSpecificDateDayValue, rule.adjustmentValue);
      }
    }
  }

  // ---------------------------------------------------------------------
  // Where the source and its evident intent part

  /** A date moved by no days is itself. */
  lemma AddNoDays(d: DateTime)
    ensures AddDays(d, 0) == d
  {
    DayNumberInjective(AddDays(d, 0), d);
  }

  /**
   * The first date of a fixed-day series: the count loop adds the first
   * anchor corrected to the target day, the end-date loop adds it as it is.
   */
  lemma FixedFirstDates(rule: YearlyRule)
    requires rule.regenType.OnSpecificDayOfYear? && rule.DayOfYearValid()
    requires rule.bounds.endDateType == NumberOfOccurrences ==> rule.bounds.numberOfOccurrences >= 1
    ensures Generate(rule).Ok? ==> |Generate(rule).value| >= 1
    ensures rule.bounds.endDateType == NumberOfOccurrences ==>
      Generate(rule).value[0] == AddDays(CorrectedDate(Origin(rule), rule.regenerateOnSpecificDateDayValue), rule.adjustmentValue)
    ensures rule.bounds.endDateType == SpecificDate ==>
      Generate(rule).value[0] == AddDays(Origin(rule), rule.adjustmentValue)
  {
    GenerateShape(rule);
    if rule.bounds.endDateType == NumberOfOccurrences {
      var o := Origin(rule);
      FixedCountAt(o, rule.regenerateOnSpecificDateDayValue, rule.adjustmentValue, rule.bounds.numberOfOccurrences, 0);
      assert AddYears(o, 0) == o;
    } else if rule.bounds.endDateType == SpecificDate {
      var s := Generate(rule).value;
      Cycles.EmitAt(Value(rule), Step(rule), Origin(rule), |s|);
      assert s[0] == Value(rule)(Origin(rule));
    }
  }

  /**
   * As written, the first date of a fixed-day series depends on its end
   * type: the count loop corrects the first anchor to the target day, the
   * end-date and next-date loops add it as AddYears left it. For 29
   * February from 1 March of a year before a leap year, the count rule
   * starts on 29 February and the end-date rule on 28 February.
   */
  lemma FirstDateDependsOnEndType(y: int, count: int, end: DateTime)
    requires !IsLeapYear(y) && IsLeapYear(y + 1) && count >= 1
    ensures var countRule := YearlyRule(Bounds(Date(y, 3, 1), None, count, NumberOfOccurrences),
        YearlyRegenType.OnSpecificDayOfYear, 29, 2, DatePartOne.NotSet, DatePartTwo.NotSet, MonthOfYear.NotSet, 0);
      var endRule := countRule.(bounds := Bounds(Date(y, 3, 1), Some(end), 0, SpecificDate));
      var c, e := Generate(countRule).value, Generate(endRule).value;
      |c| >= 1 && |e| >= 1 && c[0] == Date(y + 1, 2, 29) && e[0] == Date(y + 1, 2, 28)
  {
    var start: DateTime := Date(y, 3, 1);
    var countRule := YearlyRule(Bounds(start, None, count, NumberOfOccurrences),
        YearlyRegenType.OnSpecificDayOfYear, 29, 2, DatePartOne.NotSet, DatePartTwo.NotSet, MonthOfYear.NotSet, 0);
    var endRule := countRule.(bounds := Bounds(start, Some(end), 0, SpecificDate));
    assert DaysInMonth(y, 2) == 28 && DaysInMonth(y + 1, 2) == 29;
    var clipped: DateTime := Date(y, 2, 28);
    MonthOrder(clipped, start);
    var o: DateTime := Date(y + 1, 2, 28);
    assert AddYears(clipped, 1) == o;
    assert Origin(countRule) == o && Origin(endRule) == o;
    FixedFirstDates(countRule);
    FixedFirstDates(endRule);
    assert CorrectedDate(o, 29) == Date(y + 1, 2, 29);
    AddNoDays(CorrectedDate(o, 29));
    AddNoDays(o);
  }

  /**
   * The first anchor as every loop evidently means it: corrected to the
   * target day, as the count loop does, so that a series starts on the
   * same day whatever its end type.
   */
  function IntendedOrigin(rule: YearlyRule): DateTime {
    if rule.regenType.OnCustomDateFormat? then Origin(rule)
    else CorrectedDate(Origin(rule), rule.regenerateOnSpecificDateDayValue)
  }

  /** The bulk series with every loop starting from the corrected first anchor. */
  function IntendedGenerate(rule: YearlyRule): Result<seq<DateTime>>
    requires Runs(rule)
  {
    match rule.bounds.endDateType
    case NoEndDate => Err(NoEndDateUnsupported)
    case NumberOfOccurrences =>
      var n := if rule.bounds.numberOfOccurrences > 0 then rule.bounds.numberOfOccurrences else 0;
      Ok(Cycles.Emit(Value(rule), Step(rule), IntendedOrigin(rule), n))
    case SpecificDate =>
      StepAdvances(rule);
      Ok(Cycles.EmitUntil(Value(rule), Step(rule), IntendedOrigin(rule), rule.bounds.endDate))
    case NotDefined => Err(EndDateTypeNotSet)
  }

  /**
   * With the corrected first anchor every anchor of a fixed-day rule, the
   * first one included, is on the target day clipped to its month, i years
   * after the first.
   */
  lemma IntendedOnTarget(rule: YearlyRule, i: nat)
    requires rule.regenType.OnSpecificDayOfYear? && rule.DayOfYearValid()
    ensures var x := Walks.Nth(Step(rule), IntendedOrigin(rule), i);
      x.year == Origin(rule).year + i && x.month == rule.regenerateOnSpecificDateMonthValue &&
      x.day == Min(rule.regenerateOnSpecificDateDayValue, DaysInMonth(x.year, x.month))
  {
    var target := rule.regenerateOnSpecificDateDayValue;
    FirstAnchorSpec(rule.bounds.startDate, target, rule.regenerateOnSpecificDateMonthValue);
    CorrectedDateClamps(Origin(rule), target);
    FixedWalk(IntendedOrigin(rule), target, i);
  }

  /** The count loop as written already starts from the corrected anchor: its series is the intended one. */
  lemma IntendedCountAgrees(rule: YearlyRule)
    requires Runs(rule) && rule.bounds.endDateType == NumberOfOccurrences
    ensures IntendedGenerate(rule) == Generate(rule)
  {
    if !rule.regenType.OnCustomDateFormat? {
      FirstAnchorSpec(rule.bounds.startDate, rule.regenerateOnSpecificDateDayValue, rule.regenerateOnSpecificDateMonthValue);
      var n := if rule.bounds.numberOfOccurrences > 0 then rule.bounds.numberOfOccurrences else 0;
      FixedCountIsWalk(Origin(rule), rule.regenerateOnSpecificDateDayValue, rule.adjustmentValue, n);
    }
  }

  /** The corrected first anchor is the target day, clipped, of the first anchor's month and year. */
  lemma IntendedOriginOnTarget(rule: YearlyRule)
    requires rule.regenType.OnSpecificDayOfYear? && rule.DayOfYearValid()
    ensures IntendedOrigin(rule) == TargetDate(Origin(rule).year, rule.regenerateOnSpecificDateMonthValue, rule.regenerateOnSpecificDateDayValue)
  {
    FirstAnchorSpec(rule.bounds.startDate, rule.regenerateOnSpecificDateDayValue, rule.regenerateOnSpecificDateMonthValue);
    CorrectedDateClamps(Origin(rule), rule.regenerateOnSpecificDateDayValue);
  }

  /** Anchor i of the intended walk is the target day, clipped, i years after the first anchor. */
  lemma IntendedAnchorAt(rule: YearlyRule, i: nat)
    requires rule.regenType.OnSpecificDayOfYear? && rule.DayOfYearValid()
    ensures Walks.Nth(Step(rule), IntendedOrigin(rule), i) ==
      TargetDate(Origin(rule).year + i, rule.regenerateOnSpecificDateMonthValue, rule.regenerateOnSpecificDateDayValue)
  {
    IntendedOriginOnTarget(rule);
    if i >= 1 {
      WalkOnTarget(IntendedOrigin(rule), rule.regenerateOnSpecificDateDayValue, i);
    }
  }

  /**
   * With the corrected first anchor, a fixed-day end-date series has the
   * dates of a count series: date i is the target day, clipped to the
   * target month, i years after the first anchor, moved by the adjustment.
   */
  lemma IntendedUntilDates(rule: YearlyRule)
    requires rule.regenType.OnSpecificDayOfYear? && rule.DayOfYearValid()
    requires rule.bounds.endDateType == SpecificDate
    ensures var s := IntendedGenerate(rule).value; var a := Origin(rule);
      var day, month := rule.regenerateOnSpecificDateDayValue, rule.regenerateOnSpecificDateMonthValue;
      |s| >= 1 && forall i :: 0 <= i < |s| ==> s[i] == AddDays(TargetDate(a.year + i, month, day), rule.adjustmentValue)
  {
    var f, h, o := Step(rule), Value(rule), IntendedOrigin(rule);
    StepAdvances(rule);
    var s := IntendedGenerate(rule).value;
    assert s == Cycles.EmitUntil(h, f, o, rule.bounds.endDate);
    Cycles.EmitUntilShape(h, f, o, rule.bounds.endDate);
    Cycles.EmitAt(h, f, o, |s|);
    forall i | 0 <= i < |s|
      ensures s[i] == AddDays(TargetDate(Origin(rule).year + i, rule.regenerateOnSpecificDateMonthValue,
        rule.regenerateOnSpecificDateDayValue), rule.adjustmentValue)
    {
      var x := Walks.Nth(f, o, i);
      assert s[i] == h(x) == AddDays(x, rule.adjustmentValue);
      IntendedAnchorAt(rule, i);
    }
  }

  /**
   * As written, the next-date loop can stop before reaching a date after
   * the reference date: its limit is the reference date a year on, and
   * AddYears clips 28 February to 28 February while GetCorrectedDate moves
   * the next anchor to 29 February of a leap year. For 29 February from 1
   * January of the year before a leap year and the reference date 28
   * February, GetNextDate answers the reference date itself.
   */
  lemma NextDateStopsEarly(y: int)
    requires !IsLeapYear(y) && IsLeapYear(y + 1)
    ensures var rule := YearlyRule(Bounds(Date(y, 1, 1), None, 10, NumberOfOccurrences),
        YearlyRegenType.OnSpecificDayOfYear, 29, 2, DatePartOne.NotSet, DatePartTwo.NotSet, MonthOfYear.NotSet, 0);
      NextDate(rule, Date(y, 2, 28)) == Ok(Date(y, 2, 28))
  {
    var start: DateTime := Date(y, 1, 1);
    var rule := YearlyRule(Bounds(start, None, 10, NumberOfOccurrences),
        YearlyRegenType.OnSpecificDayOfYear, 29, 2, DatePartOne.NotSet, DatePartTwo.NotSet, MonthOfYear.NotSet, 0);
    var reference: DateTime := Date(y, 2, 28);
    assert DaysInMonth(y, 2) == 28 && DaysInMonth(y + 1, 2) == 29;
    MonthOrder(start, reference);
    var o := Origin(rule);
    assert o == reference;
    var f, h := Step(rule), Value(rule);
    var next: DateTime := Date(y + 1, 2, 29);
    assert f(o) == FixedNext(o, 29) == next;
    assert h(o) == AddDays(o, 0);
    AddNoDays(o);
    SameMonthOrder(next, ProbeBound(reference));
    assert NextRun(rule, reference) == [o];
  }

  /**
   * With a negative adjustment the next-date loop can answer a date before
   * the reference: for 15 January with an adjustment of -30 from 1 January,
   * the first date is 16 December of the year before, and the next anchor
   * is already past the limit a year on, so GetNextDate answers that date.
   */
  lemma NextDateBeforeReference(y: int)
    ensures var rule := YearlyRule(Bounds(Date(y, 1, 1), None, 10, NumberOfOccurrences),
        YearlyRegenType.OnSpecificDayOfYear, 15, 1, DatePartOne.NotSet, DatePartTwo.NotSet, MonthOfYear.NotSet, -30);
      var v := AddDays(Date(y, 1, 15), -30);
      NextDate(rule, Date(y, 1, 1)) == Ok(v) && Before(v, Date(y, 1, 1))
  {
    var start: DateTime := Date(y, 1, 1);
    var rule := YearlyRule(Bounds(start, None, 10, NumberOfOccurrences),
        YearlyRegenType.OnSpecificDayOfYear, 15, 1, DatePartOne.NotSet, DatePartTwo.NotSet, MonthOfYear.NotSet, -30);
    var o := Origin(rule);
    var first: DateTime := Date(y, 1, 15);
    SameMonthOrder(first, start);
    assert o == first;
    var f, h := Step(rule), Value(rule);
    assert f(o) == FixedNext(o, 15) == Date(y + 1, 1, 15);
    assert h(o) == AddDays(o, -30);
    SameMonthOrder(Date(y + 1, 1, 15), ProbeBound(start));
    assert NextRun(rule, start) == [h(o)];
  }

  /**
   * The next-date limit as evidently intended: the reference date a year
   * on, corrected to the target day the way the next anchor is.
   */
  function IntendedProbeBound(rule: YearlyRule, reference: DateTime): DateTime {
    if rule.regenType.OnCustomDateFormat? then ProbeBound(reference)
    else CorrectedDate(ProbeBound(reference), rule.regenerateOnSpecificDateDayValue)
  }

  /** The next-date loop with the intended limit. */
  function IntendedNextRun(rule: YearlyRule, reference: DateTime): seq<DateTime>
    requires Runs(rule)
  {
    StepAdvances(rule);
    Cycles.EmitProbe(Value(rule), Step(rule), Origin(rule), reference, IntendedProbeBound(rule, reference))
  }

  /** GetNextDate with the intended limit; a rule that does not reach the loops fails as before. */
  function IntendedNextDate(rule: YearlyRule, reference: DateTime): Result<DateTime> {
    if !Runs(rule) then NextDate(rule, reference)
    else
      var s := IntendedNextRun(rule, reference);
      Ok(if |s| > 0 && rule.bounds.endDateType != NoEndDate then s[|s| - 1] else MinValue)
  }

  /**
   * An anchor at or below its target day and on or before the reference
   * date steps to one on or before the intended limit.
   */
  lemma IntendedNoCut(x: DateTime, reference: DateTime, target: int)
    requires x.day <= target && AtMost(x, reference)
    ensures AtMost(FixedNext(x, target), CorrectedDate(AddYears(reference, 1), target))
  {
    var n, b := FixedNext(x, target), CorrectedDate(AddYears(reference, 1), target);
    if MonthIndex(x) < MonthIndex(reference) {
      MonthOrder(n, b);
    } else if MonthIndex(x) == MonthIndex(reference) {
      SameMonthOrder(x, reference);
      SameMonthOrder(n, b);
    } else {
      MonthOrder(reference, x);
    }
  }

  /**
   * With the intended limit, GetNextDate answers the first value of the
   * series after the reference date for every rule that reaches the loops
   * and has no negative adjustment, 29 February included.
   */
  lemma IntendedNextDateFinds(rule: YearlyRule, reference: DateTime) returns (k: nat)
    requires Runs(rule) && rule.adjustmentValue >= 0
    ensures var v := Value(rule)(Walks.Nth(Step(rule), Origin(rule), k));
      Before(reference, v) &&
      (forall j :: 0 <= j < k ==> AtMost(Value(rule)(Walks.Nth(Step(rule), Origin(rule), j)), reference)) &&
      IntendedNextDate(rule, reference) == Ok(if rule.bounds.endDateType != NoEndDate then v else MinValue)
  {
    StepAdvances(rule);
    IntendedNoCutAll(rule, reference);
    var s := IntendedNextRun(rule, reference);
    assert s == Cycles.EmitProbe(Value(rule), Step(rule), Origin(rule), reference, IntendedProbeBound(rule, reference));
    k := Cycles.ProbeReaches(Value(rule), Step(rule), Origin(rule), reference, IntendedProbeBound(rule, reference));
    assert IntendedNextDate(rule, reference) == Ok(if rule.bounds.endDateType != NoEndDate then s[k] else MinValue);
  }

  /** No anchor whose value is on or before the reference date steps past the intended limit. */
  lemma IntendedNoCutAll(rule: YearlyRule, reference: DateTime)
    requires Runs(rule) && rule.adjustmentValue >= 0
    ensures forall i: nat :: AtMost(Value(rule)(Walks.Nth(Step(rule), Origin(rule), i)), reference) ==>
      AtMost(Step(rule)(Walks.Nth(Step(rule), Origin(rule), i)), IntendedProbeBound(rule, reference))
  {
    var f, h, o := Step(rule), Value(rule), Origin(rule);
    forall i: nat | AtMost(h(Walks.Nth(f, o, i)), reference)
      ensures AtMost(f(Walks.Nth(f, o, i)), IntendedProbeBound(rule, reference))
    {
      var x := Walks.Nth(f, o, i);
      if rule.regenType.OnCustomDateFormat? {
        CustomNoCut(rule, reference, x);
      } else {
        FixedAnchors(rule, i);
        assert h(x) == AddDays(x, rule.adjustmentValue) && f(x) == FixedNext(x, rule.regenerateOnSpecificDateDayValue);
        IntendedNoCut(x, reference, rule.regenerateOnSpecificDateDayValue);
      }
    }
  }

  /** On the input that shows the early stop, the intended limit reaches 29 February of the leap year. */
  lemma IntendedNextDateLeap(y: int)
    requires !IsLeapYear(y) && IsLeapYear(y + 1)
    ensures var rule := YearlyRule(Bounds(Date(y, 1, 1), None, 10, NumberOfOccurrences),
        YearlyRegenType.OnSpecificDayOfYear, 29, 2, DatePartOne.NotSet, DatePartTwo.NotSet, MonthOfYear.NotSet, 0);
      IntendedNextDate(rule, Date(y, 2, 28)) == Ok(Date(y + 1, 2, 29))
  {
    var start: DateTime := Date(y, 1, 1);
    var rule := YearlyRule(Bounds(start, None, 10, NumberOfOccurrences),
        YearlyRegenType.OnSpecificDayOfYear, 29, 2, DatePartOne.NotSet, DatePartTwo.NotSet, MonthOfYear.NotSet, 0);
    var reference: DateTime := Date(y, 2, 28);
    assert DaysInMonth(y, 2) == 28 && DaysInMonth(y + 1, 2) == 29;
    MonthOrder(start, reference);
    var o := Origin(rule);
    assert o == reference;
    var f, h := Step(rule), Value(rule);
    var next: DateTime := Date(y + 1, 2, 29);
    var bound := IntendedProbeBound(rule, reference);
    assert f(o) == FixedNext(o, 29) == next;
    assert bound == next;
    assert h(o) == AddDays(o, 0) && h(next) == AddDays(next, 0);
    AddNoDays(o);
    AddNoDays(next);
    MonthOrder(reference, next);
    StepAdvances(rule);
    assert Cycles.EmitProbe(h, f, next, reference, bound) == [next];
    assert IntendedNextRun(rule, reference) == [o, next];
  }

  // ---------------------------------------------------------------------
  // The series-info token

  /** The widths the token's fields hold. */
  predicate Encodable(rule: YearlyRule) {
    InYearRange(rule.bounds.startDate) &&
    (rule.bounds.endDate.Some? ==> InYearRange(rule.bounds.endDate.value)) &&
    0 <= rule.bounds.numberOfOccurrences <= 9999 &&
    !rule.regenType.NotSet? && !rule.bounds.endDateType.NotDefined? &&
    0 <= rule.regenerateOnSpecificDateDayValue <= 99 &&
    0 <= rule.regenerateOnSpecificDateMonthValue <= 99 &&
    -99 <= rule.adjustmentValue <= 999
  }

  /**
   * GetSeriesInfo: 'Y', start yyyyMMdd, end yyyyMMdd or "ZZZZZZZZ", count
   * (4), regeneration type (1), end type (1), day (2), month (2), the
   * letters of the three custom-date parts ('Z' when unset), adjustment (3).
   */
  function Encode(rule: YearlyRule): (s: string)
    ensures |s| >= 1 && s[0] == 'Y'
    ensures Encodable(rule) ==> |s| == 33
  {
    var b := rule.bounds;
    "Y" + (FormatDate(b.startDate)
    + ((if b.endDate.Some? then FormatDate(b.endDate.value) else "ZZZZZZZZ")
    + CountOnwards(rule)))
  }

  /** The token from the count on. */
  function CountOnwards(rule: YearlyRule): (s: string)
    ensures Encodable(rule) ==> |s| == 16
  {
    FormatInt(rule.bounds.numberOfOccurrences, 4)
    + (FormatInt(rule.regenType.Code(), 1)
    + (FormatInt(rule.bounds.endDateType.Code(), 1)
    + (FormatInt(rule.regenerateOnSpecificDateDayValue, 2)
    + (FormatInt(rule.regenerateOnSpecificDateMonthValue, 2)
    + ([rule.specificDatePartOne.Letter()]
    + ([rule.specificDatePartTwo.Letter()]
    + ([rule.specificDatePartThree.Letter()]
    + SignedDigits(rule.adjustmentValue, 3))))))))
  }

  /**
   * GetFriendlyRecurrenceInfo: None (null) unless the token starts with 'Y';
   * MalformedSeriesInfo where Substring, int.Parse, Convert.ToInt32 or the
   * DateTime constructor would throw. The day and month are kept for a
   * fixed day, the three parts for a custom date, neither otherwise; the
   * adjustment is read from offsets 30-32.
   */
  function Decode(s: string): (r: Result<Option<RecurrenceInfo>>)
    ensures r == Ok(None) <==> |s| == 0 || s[0] != 'Y'
    ensures r.Ok? && r.value.Some? ==> r.value.value.recurrenceType == RecurrenceType.Yearly && r.value.value.seriesInfo == Some(s)
  {
    if |s| == 0 || s[0] != 'Y' then Ok(None)
    else if |s| < 33 then Err(MalformedSeriesInfo)
    else
      match (ParseDate(s[1..9]), ParseInt(s[22..23]), ParseInt(s[17..21]), ParseInt(s[30..33]), ParseInt(s[21..22]))
      case (Some(start), Some(endCode), Some(count), Some(adjustment), Some(regenCode)) =>
        (match (EndDateTypeOfCode(endCode), YearlyRegenTypeOfCode(regenCode))
        case (Some(endType), Some(regenType)) =>
          var end := if endType == SpecificDate then ParseDate(s[9..17]) else Some(MinValue);
          if end.None? then Err(MalformedSeriesInfo)
          else
            var info := NewRecurrenceInfo().SetSeriesInfo(Some(s)).SetRecurrenceType(RecurrenceType.Yearly).SetEndDateType(endType);
            var info := match endType
              case NumberOfOccurrences => info.SetStartDate(start).SetNumberOfOccurrences(count)
              case SpecificDate => info.SetStartDate(start).SetEndDate(Some(end.value))
              case _ => info.SetStartDate(start);
            var info := info.SetAdjustmentValue(adjustment).SetYearlyRegenType(regenType);
            (match regenType
            case OnSpecificDayOfYear =>
              (match (ParseInt(s[23..25]), ParseInt(s[25..27]))
              case (Some(day), Some(month)) => Ok(Some(info.SetSpecificDateDayValue(day).SetSpecificDateMonthValue(month)))
              case _ => Err(MalformedSeriesInfo))
            case OnCustomDateFormat =>
              (match (DatePartOneOfLetter(s[27]), DatePartTwoOfLetter(s[28]), MonthOfYearOfLetter(s[29]))
              case (Some(one), Some(two), Some(three)) =>
                Ok(Some(info.SetYearlySpecificDatePartOne(one).SetYearlySpecificDatePartTwo(two).SetYearlySpecificDatePartThree(three)))
              case _ => Err(MalformedSeriesInfo))
            case _ => Ok(Some(info)))
        case _ => Err(MalformedSeriesInfo))
      case _ => Err(MalformedSeriesInfo)
  }

  /** The layout of the token from the day field on. */
  lemma RestLayout(r: string, day: string, month: string, one: char, two: char, three: char, adjustment: string)
    requires |day| == 2 && |month| == 2 && |adjustment| == 3
    requires r == day + (month + ([one] + ([two] + ([three] + adjustment))))
    ensures |r| == 10 && r[0..2] == day && r[2..4] == month && r[4] == one && r[5] == two && r[6] == three &&
      r[7..10] == adjustment
  {
    var t := [two] + ([three] + adjustment);
    Pieces(day, month, [one], t);
    assert r[4] == r[4..5][0];
    assert r[5..10] == t;
    assert r[5] == t[0] && r[6] == t[1];
    assert t[2..5] == adjustment;
    SliceOfSlice(r, 5, 10, 2, 5);
  }

  /** The layout of the token from the count on. */
  lemma TailLayout(t: string, count: string, regen: string, endType: string, r: string)
    requires |count| == 4 && |regen| == 1 && |endType| == 1 && |r| == 10
    requires t == count + (regen + (endType + r))
    ensures |t| == 16 && t[0..4] == count && t[4..5] == regen && t[5..6] == endType && t[6..16] == r
  {
    Pieces(count, regen, endType, r);
  }

  /** The layout of a token made of the given fields, each at its fixed offset. */
  lemma TokenLayout(s: string, start: string, end: string, count: string, regen: string, endType: string,
                    day: string, month: string, one: char, two: char, three: char, adjustment: string)
    requires |start| == 8 && |end| == 8 && |count| == 4 && |regen| == 1 && |endType| == 1
    requires |day| == 2 && |month| == 2 && |adjustment| == 3
    requires s == "Y" + (start + (end + (count + (regen + (endType + (day + (month + ([one] + ([two] + ([three] + adjustment))))))))))
    ensures s[1..9] == start && s[9..17] == end && s[17..21] == count && s[21..22] == regen &&
      s[22..23] == endType && s[23..25] == day && s[25..27] == month && s[27] == one && s[28] == two &&
      s[29] == three && s[30..33] == adjustment
  {
    var r := day + (month + ([one] + ([two] + ([three] + adjustment))));
    RestLayout(r, day, month, one, two, three, adjustment);
    var tail := count + (regen + (endType + r));
    TailLayout(tail, count, regen, endType, r);
    Pieces("Y", start, end, tail);
    SliceOfSlice(s, 17, 33, 0, 4);
    SliceOfSlice(s, 17, 33, 4, 5);
    SliceOfSlice(s, 17, 33, 5, 6);
    SliceOfSlice(s, 17, 33, 6, 16);
    SliceOfSlice(s, 23, 33, 0, 2);
    SliceOfSlice(s, 23, 33, 2, 4);
    SliceOfSlice(s, 23, 33, 7, 10);
    assert s[27] == r[4] && s[28] == r[5] && s[29] == r[6];
  }

  /** Each field of the token sits at its fixed offset. */
  lemma EncodeFields(rule: YearlyRule)
    requires Encodable(rule)
    ensures var s := Encode(rule); var b := rule.bounds;
      s[1..9] == FormatDate(b.startDate) &&
      (b.endDate.Some? ==> s[9..17] == FormatDate(b.endDate.value)) &&
      s[17..21] == FormatInt(b.numberOfOccurrences, 4) &&
      s[21..22] == FormatInt(rule.regenType.Code(), 1) &&
      s[22..23] == FormatInt(b.endDateType.Code(), 1) &&
      s[23..25] == FormatInt(rule.regenerateOnSpecificDateDayValue, 2) &&
      s[25..27] == FormatInt(rule.regenerateOnSpecificDateMonthValue, 2) &&
      s[27] == rule.specificDatePartOne.Letter() &&
      s[28] == rule.specificDatePartTwo.Letter() &&
      s[29] == rule.specificDatePartThree.Letter() &&
      s[30..33] == SignedDigits(rule.adjustmentValue, 3)
  {
    var b := rule.bounds;
    TokenLayout(Encode(rule), FormatDate(b.startDate),
      if b.endDate.Some? then FormatDate(b.endDate.value) else "ZZZZZZZZ",
      FormatInt(b.numberOfOccurrences, 4), FormatInt(rule.regenType.Code(), 1),
      FormatInt(b.endDateType.Code(), 1), FormatInt(rule.regenerateOnSpecificDateDayValue, 2),
      FormatInt(rule.regenerateOnSpecificDateMonthValue, 2),
      rule.specificDatePartOne.Letter(), rule.specificDatePartTwo.Letter(), rule.specificDatePartThree.Letter(),
      SignedDigits(rule.adjustmentValue, 3));
  }

  /** The date fields of the token parse back to the dates they were written from. */
  lemma EncodeParsesDates(rule: YearlyRule)
    requires Encodable(rule)
    ensures var s := Encode(rule); var b := rule.bounds;
      ParseDate(s[1..9]) == Some(b.startDate) &&
      (b.endDate.Some? ==> ParseDate(s[9..17]) == Some(b.endDate.value))
  {
    var b := rule.bounds;
    EncodeFields(rule);
    ParseFormatDate(b.startDate);
    if b.endDate.Some? {
      ParseFormatDate(b.endDate.value);
    }
  }

  /** The number and letter fields of the token read back to the values they were written from. */
  lemma EncodeParsesNumbers(rule: YearlyRule)
    requires Encodable(rule)
    ensures var s := Encode(rule); var b := rule.bounds;
      ParseInt(s[17..21]) == Some(b.numberOfOccurrences) &&
      ParseInt(s[21..22]) == Some(rule.regenType.Code()) &&
      ParseInt(s[22..23]) == Some(b.endDateType.Code()) &&
      ParseInt(s[23..25]) == Some(rule.regenerateOnSpecificDateDayValue) &&
      ParseInt(s[25..27]) == Some(rule.regenerateOnSpecificDateMonthValue) &&
      DatePartOneOfLetter(s[27]) == Some(rule.specificDatePartOne) &&
      DatePartTwoOfLetter(s[28]) == Some(rule.specificDatePartTwo) &&
      MonthOfYearOfLetter(s[29]) == Some(rule.specificDatePartThree) &&
      ParseInt(s[30..33]) == Some(rule.adjustmentValue)
  {
    var b := rule.bounds;
    EncodeFields(rule);
    ParseFormatInt(b.numberOfOccurrences, 4);
    ParseFormatInt(rule.regenType.Code(), 1);
    ParseFormatInt(b.endDateType.Code(), 1);
    ParseFormatInt(rule.regenerateOnSpecificDateDayValue, 2);
    ParseFormatInt(rule.regenerateOnSpecificDateMonthValue, 2);
    DatePartOneLetterRoundTrip(rule.specificDatePartOne);
    DatePartTwoLetterRoundTrip(rule.specificDatePartTwo);
    MonthOfYearLetterRoundTrip(rule.specificDatePartThree);
    ParseSignedDigits(rule.adjustmentValue, 3);
  }

  /**
   * What decoding a rule's token gives back: its start date, end type,
   * kind and adjustment; the day and month of a fixed-day rule; the three
   * parts of a custom-date rule; the count for a count rule and the end
   * date for an end-date rule.
   */
  predicate Recovered(info: RecurrenceInfo, rule: YearlyRule) {
    info.startDate == rule.bounds.startDate &&
    info.endDateType == rule.bounds.endDateType &&
    info.yearlyRegenType == rule.regenType &&
    info.adjustmentValue == rule.adjustmentValue &&
    (rule.regenType.OnSpecificDayOfYear? ==>
      info.specificDateDayValue == rule.regenerateOnSpecificDateDayValue &&
      info.specificDateMonthValue == rule.regenerateOnSpecificDateMonthValue) &&
    (rule.regenType.OnCustomDateFormat? ==>
      info.yearlySpecificDatePartOne == rule.specificDatePartOne &&
      info.yearlySpecificDatePartTwo == rule.specificDatePartTwo &&
      info.yearlySpecificDatePartThree == rule.specificDatePartThree) &&
    (rule.bounds.endDateType == NumberOfOccurrences ==> info.numberOfOccurrences == rule.bounds.numberOfOccurrences) &&
    (rule.bounds.endDateType == SpecificDate ==> info.endDate == rule.bounds.endDate)
  }

  /** DecodeFields for a fixed-day rule, which reads the day and month fields. */
  lemma DecodeDayFields(s: string, rule: YearlyRule) returns (info: RecurrenceInfo)
    requires rule.regenType.OnSpecificDayOfYear?
    requires |s| >= 33 && s[0] == 'Y'
    requires !rule.bounds.endDateType.NotDefined?
    requires rule.bounds.endDateType == SpecificDate ==> rule.bounds.endDate.Some?
    requires ParseDate(s[1..9]) == Some(rule.bounds.startDate)
    requires rule.bounds.endDate.Some? ==> ParseDate(s[9..17]) == Some(rule.bounds.endDate.value)
    requires ParseInt(s[17..21]) == Some(rule.bounds.numberOfOccurrences)
    requires ParseInt(s[21..22]) == Some(rule.regenType.Code())
    requires ParseInt(s[22..23]) == Some(rule.bounds.endDateType.Code())
    requires ParseInt(s[23..25]) == Some(rule.regenerateOnSpecificDateDayValue)
    requires ParseInt(s[25..27]) == Some(rule.regenerateOnSpecificDateMonthValue)
    requires ParseInt(s[30..33]) == Some(rule.adjustmentValue)
    ensures Decode(s) == Ok(Some(info)) && Recovered(info, rule)
  {
    info := Decode(s).value.value;
  }

  /** DecodeFields for a custom-date rule, which reads the three part letters. */
  lemma DecodeCustomFields(s: string, rule: YearlyRule) returns (info: RecurrenceInfo)
    requires rule.regenType.OnCustomDateFormat?
    requires |s| >= 33 && s[0] == 'Y'
    requires !rule.bounds.endDateType.NotDefined?
    requires rule.bounds.endDateType == SpecificDate ==> rule.bounds.endDate.Some?
    requires ParseDate(s[1..9]) == Some(rule.bounds.startDate)
    requires rule.bounds.endDate.Some? ==> ParseDate(s[9..17]) == Some(rule.bounds.endDate.value)
    requires ParseInt(s[17..21]) == Some(rule.bounds.numberOfOccurrences)
    requires ParseInt(s[21..22]) == Some(rule.regenType.Code())
    requires ParseInt(s[22..23]) == Some(rule.bounds.endDateType.Code())
    requires DatePartOneOfLetter(s[27]) == Some(rule.specificDatePartOne)
    requires DatePartTwoOfLetter(s[28]) == Some(rule.specificDatePartTwo)
    requires MonthOfYearOfLetter(s[29]) == Some(rule.specificDatePartThree)
    requires ParseInt(s[30..33]) == Some(rule.adjustmentValue)
    ensures Decode(s) == Ok(Some(info)) && Recovered(info, rule)
  {
    info := Decode(s).value.value;
  }

  /** DecodeFields for a rule repeating after each completed occurrence, which reads neither. */
  lemma DecodeAfterFields(s: string, rule: YearlyRule) returns (info: RecurrenceInfo)
    requires rule.regenType.AfterOccurrenceCompleted?
    requires |s| >= 33 && s[0] == 'Y'
    requires !rule.bounds.endDateType.NotDefined?
    requires rule.bounds.endDateType == SpecificDate ==> rule.bounds.endDate.Some?
    requires ParseDate(s[1..9]) == Some(rule.bounds.startDate)
    requires rule.bounds.endDate.Some? ==> ParseDate(s[9..17]) == Some(rule.bounds.endDate.value)
    requires ParseInt(s[17..21]) == Some(rule.bounds.numberOfOccurrences)
    requires ParseInt(s[21..22]) == Some(rule.regenType.Code())
    requires ParseInt(s[22..23]) == Some(rule.bounds.endDateType.Code())
    requires ParseInt(s[30..33]) == Some(rule.adjustmentValue)
    ensures Decode(s) == Ok(Some(info)) && Recovered(info, rule)
  {
    info := Decode(s).value.value;
  }

  /** A token whose fields parse to a rule's values decodes to that rule. */
  lemma DecodeFields(s: string, rule: YearlyRule) returns (info: RecurrenceInfo)
    requires |s| >= 33 && s[0] == 'Y'
    requires !rule.regenType.NotSet? && !rule.bounds.endDateType.NotDefined?
    requires rule.bounds.endDateType == SpecificDate ==> rule.bounds.endDate.Some?
    requires ParseDate(s[1..9]) == Some(rule.bounds.startDate)
    requires rule.bounds.endDate.Some? ==> ParseDate(s[9..17]) == Some(rule.bounds.endDate.value)
    requires ParseInt(s[17..21]) == Some(rule.bounds.numberOfOccurrences)
    requires ParseInt(s[21..22]) == Some(rule.regenType.Code())
    requires ParseInt(s[22..23]) == Some(rule.bounds.endDateType.Code())
    requires ParseInt(s[23..25]) == Some(rule.regenerateOnSpecificDateDayValue)
    requires ParseInt(s[25..27]) == Some(rule.regenerateOnSpecificDateMonthValue)
    requires DatePartOneOfLetter(s[27]) == Some(rule.specificDatePartOne)
    requires DatePartTwoOfLetter(s[28]) == Some(rule.specificDatePartTwo)
    requires MonthOfYearOfLetter(s[29]) == Some(rule.specificDatePartThree)
    requires ParseInt(s[30..33]) == Some(rule.adjustmentValue)
    ensures Decode(s) == Ok(Some(info)) && Recovered(info, rule)
  {
    match rule.regenType
    case OnSpecificDayOfYear => info := DecodeDayFields(s, rule);
    case OnCustomDateFormat => info := DecodeCustomFields(s, rule);
    case AfterOccurrenceCompleted => info := DecodeAfterFields(s, rule);
  }

  /** Decoding a rule's token gives back the rule. */
  lemma DecodeEncode(rule: YearlyRule) returns (info: RecurrenceInfo)
    requires Encodable(rule)
    requires rule.bounds.endDateType == SpecificDate ==> rule.bounds.endDate.Some?
    ensures Decode(Encode(rule)) == Ok(Some(info)) && Recovered(info, rule)
  {
    EncodeParsesDates(rule);
    EncodeParsesNumbers(rule);
    info := DecodeFields(Encode(rule), rule);
  }

  // ---------------------------------------------------------------------
  // Rebuilding a rule from a token

  /**
   * The rule of the settings object GetRecurrenceSettings builds from a
   * decoded (and overridden) token: the constructor its end type picks, the
   * adjustment, and SetValues for a fixed-day or custom-date rule. An end
   * type it has no constructor for leaves the object null, which setting
   * the adjustment then dereferences.
   */
  function RuleOfInfo(info: RecurrenceInfo, start: DateTime): Result<YearlyRule> {
    if info.endDateType == NotDefined then Err(NullReference)
    else if info.endDateType == SpecificDate && info.endDate.None? then Err(NullReference)
    else
      var bounds := match info.endDateType
        case NumberOfOccurrences => Bounds(start, None, info.numberOfOccurrences, NumberOfOccurrences)
        case SpecificDate => Bounds(start, info.endDate, 0, SpecificDate)
        case _ => Bounds(start, None, 0, NoEndDate);
      var rule := YearlyRule(bounds, YearlyRegenType.NotSet, 0, 0, DatePartOne.NotSet, DatePartTwo.NotSet,
        MonthOfYear.NotSet, info.adjustmentValue);
      Ok(match info.yearlyRegenType
        case OnSpecificDayOfYear =>
          rule.(regenType := YearlyRegenType.OnSpecificDayOfYear, regenerateOnSpecificDateDayValue := info.specificDateDayValue,
                regenerateOnSpecificDateMonthValue := info.specificDateMonthValue)
        case OnCustomDateFormat =>
          rule.(regenType := YearlyRegenType.OnCustomDateFormat, specificDatePartOne := info.yearlySpecificDatePartOne,
                specificDatePartTwo := info.yearlySpecificDatePartTwo, specificDatePartThree := info.yearlySpecificDatePartThree)
        case _ => rule)
  }

  /**
   * GetRecurrenceSettings: the rule rebuilt from a token with the count
   * override (-1 for none) and the end-date override (DateTime.MinValue for
   * none). `modifiedStart` None takes the token's own start date.
   */
  function Rebuild(seriesInfo: string, modifiedOccurrences: int, modifiedStart: Option<DateTime>, modifiedEnd: DateTime): Result<YearlyRule>
  {
    match Decode(seriesInfo)
    case Err(e) => Err(e)
    case Ok(None) => Err(NullReference)
    case Ok(Some(decoded)) =>
      RuleOfInfo(ApplyOverrides(decoded, modifiedOccurrences, modifiedEnd),
        if modifiedStart.Some? then modifiedStart.value else decoded.startDate)
  }

  /**
   * What rebuilding from a rule's token gives: a rule of the same kind
   * with the same adjustment, day and month or custom parts, from the
   * given or the original start date, with the end condition the overrides
   * ask for or else the original one.
   */
  predicate Restored(rebuilt: YearlyRule, rule: YearlyRule, modifiedOccurrences: int, modifiedStart: Option<DateTime>, modifiedEnd: DateTime) {
    rebuilt.bounds.Canonical() && rebuilt.bounds.Complete() &&
    rebuilt.regenType == rule.regenType && rebuilt.adjustmentValue == rule.adjustmentValue &&
    (rule.regenType.OnSpecificDayOfYear? ==>
      rebuilt.regenerateOnSpecificDateDayValue == rule.regenerateOnSpecificDateDayValue &&
      rebuilt.regenerateOnSpecificDateMonthValue == rule.regenerateOnSpecificDateMonthValue &&
      rebuilt.specificDatePartOne.NotSet? && rebuilt.specificDatePartTwo.NotSet? && rebuilt.specificDatePartThree.NotSet?) &&
    (rule.regenType.OnCustomDateFormat? ==>
      rebuilt.specificDatePartOne == rule.specificDatePartOne && rebuilt.specificDatePartTwo == rule.specificDatePartTwo &&
      rebuilt.specificDatePartThree == rule.specificDatePartThree &&
      rebuilt.regenerateOnSpecificDateDayValue == 0 && rebuilt.regenerateOnSpecificDateMonthValue == 0) &&
    rebuilt.bounds.startDate == (if modifiedStart.Some? then modifiedStart.value else rule.bounds.startDate) &&
    (modifiedEnd != MinValue ==>
      rebuilt.bounds.endDateType == SpecificDate && rebuilt.bounds.endDate == Some(modifiedEnd)) &&
    (modifiedEnd == MinValue && modifiedOccurrences != -1 ==>
      rebuilt.bounds.endDateType == NumberOfOccurrences && rebuilt.bounds.numberOfOccurrences == modifiedOccurrences) &&
    (modifiedEnd == MinValue && modifiedOccurrences == -1 ==>
      rebuilt.bounds.endDateType == rule.bounds.endDateType &&
      (rebuilt.bounds.endDateType == NumberOfOccurrences ==> rebuilt.bounds.numberOfOccurrences == rule.bounds.numberOfOccurrences) &&
      (rebuilt.bounds.endDateType == SpecificDate ==> rebuilt.bounds.endDate == rule.bounds.endDate))
  }

  /** The rule built from a decoded token with the overrides applied is restored. */
  lemma RebuildInfo(info: RecurrenceInfo, rule: YearlyRule, modifiedOccurrences: int, modifiedStart: Option<DateTime>, modifiedEnd: DateTime)
    returns (rebuilt: YearlyRule)
    requires Recovered(info, rule) && rule.bounds.Complete() && !rule.bounds.endDateType.NotDefined?
    requires rule.regenType.OnSpecificDayOfYear? || rule.regenType.OnCustomDateFormat?
    ensures RuleOfInfo(ApplyOverrides(info, modifiedOccurrences, modifiedEnd),
      if modifiedStart.Some? then modifiedStart.value else info.startDate) == Ok(rebuilt)
    ensures Restored(rebuilt, rule, modifiedOccurrences, modifiedStart, modifiedEnd)
  {
    var overridden := ApplyOverrides(info, modifiedOccurrences, modifiedEnd);
    rebuilt := RuleOfInfo(overridden, if modifiedStart.Some? then modifiedStart.value else info.startDate).value;
  }

  /**
   * Rebuilding from a rule's own token, with or without overrides, gives
   * the restored rule.
   */
  lemma RebuildEncode(rule: YearlyRule, modifiedOccurrences: int, modifiedStart: Option<DateTime>, modifiedEnd: DateTime)
    returns (rebuilt: YearlyRule)
    requires Encodable(rule) && rule.bounds.Complete()
    requires rule.regenType.OnSpecificDayOfYear? || rule.regenType.OnCustomDateFormat?
    ensures Rebuild(Encode(rule), modifiedOccurrences, modifiedStart, modifiedEnd) == Ok(rebuilt)
    ensures Restored(rebuilt, rule, modifiedOccurrences, modifiedStart, modifiedEnd)
  {
    var info := DecodeEncode(rule);
    rebuilt := RebuildInfo(info, rule, modifiedOccurrences, modifiedStart, modifiedEnd);
  }

  /**
   * The series-info token reproduces its series: the rule rebuilt from a
   * fixed-day or custom-date rule's token without overrides is the rule
   * itself, so it generates the same dates and finds the same next dates.
   * A fixed-day rule's custom parts and a custom rule's day and month are
   * not read back, so they must be the values a rebuilt rule starts with.
   */
  lemma TokenReproduces(rule: YearlyRule)
    requires Encodable(rule) && rule.bounds.Complete()
    requires rule.regenType.OnSpecificDayOfYear? ==>
      rule.specificDatePartOne.NotSet? && rule.specificDatePartTwo.NotSet? && rule.specificDatePartThree.NotSet?
    requires rule.regenType.OnCustomDateFormat? ==>
      rule.regenerateOnSpecificDateDayValue == 0 && rule.regenerateOnSpecificDateMonthValue == 0
    requires rule.regenType.OnSpecificDayOfYear? || rule.regenType.OnCustomDateFormat?
    requires rule.bounds.Canonical()
    ensures Rebuild(Encode(rule), -1, None, MinValue) == Ok(rule)
  {
    var rebuilt := RebuildEncode(rule, -1, None, MinValue);
    assert rebuilt.bounds == rule.bounds;
    assert rebuilt == rule;
  }

  // ---------------------------------------------------------------------
  // The generator

  /**
   * What GetRecurrenceValues hands back: the dates of the run, the first as
   * start date, the last as end date unless the rule has no end date, and
   * the rule's token; or the exception the run throws.
   */
  predicate Delivered(r: Result<RecurrenceValues>, rule: YearlyRule, nextDateMode: bool, reference: DateTime)
    reads if r.Ok? then {r.value} else {}
  {
    match Outcome(rule, nextDateMode, reference)
    case Err(e) => r == Err(e)
    case Ok(s) =>
      r.Ok? && r.value.values == s &&
      r.value.startDate == (if |s| > 0 then s[0] else MinValue) &&
      r.value.endDate == (if |s| > 0 && rule.bounds.endDateType != NoEndDate then s[|s| - 1] else MinValue) &&
      r.value.seriesInfo == Some(Encode(rule))
  }

  /** The dates of a run before the summary is set: a fresh list, or the exception. */
  predicate Collected(r: Result<RecurrenceValues>, rule: YearlyRule, nextDateMode: bool, reference: DateTime)
    reads if r.Ok? then {r.value} else {}
  {
    Cycles.Gathered(r, Outcome(rule, nextDateMode, reference))
  }

  /** For a rule that reaches the loops, the outcome is the next-date run or the bulk run. */
  lemma OutcomeOfRun(rule: YearlyRule, nextDateMode: bool, reference: DateTime)
    requires Runs(rule)
    ensures Outcome(rule, nextDateMode, reference) == if nextDateMode then Ok(NextRun(rule, reference)) else Generate(rule)
  {
  }

  class YearlyRecurrenceSettings {
    /** The end condition (the RecurrenceSettings base object). */
    const base: RecurrenceSettings
    var regenerateOnSpecificDateDayValue: int
    var regenerateOnSpecificDateMonthValue: int
    var adjustmentValue: int
    var getNextDateValue: bool
    var nextDateValue: DateTime
    var regenType: YearlyRegenType
    var specificDatePartOne: DatePartOne
    var specificDatePartTwo: DatePartTwo
    var specificDatePartThree: MonthOfYear

    /** The state a constructor leaves: no kind, day and month 0, no adjustment, no parts, bulk mode. */
    predicate Initial()
      reads this
    {
      regenType.NotSet? && regenerateOnSpecificDateDayValue == 0 && regenerateOnSpecificDateMonthValue == 0 &&
      adjustmentValue == 0 && specificDatePartOne.NotSet? && specificDatePartTwo.NotSet? &&
      specificDatePartThree.NotSet? && !getNextDateValue && nextDateValue == MinValue
    }

    constructor FromStart(start: DateTime)
      ensures fresh(base) && base.Value() == Bounds(start, None, 0, NoEndDate) && Initial()
    {
      base := new RecurrenceSettings.FromStart(start);
      regenerateOnSpecificDateDayValue := 0;
      regenerateOnSpecificDateMonthValue := 0;
      adjustmentValue := 0;
      getNextDateValue := false;
      nextDateValue := MinValue;
      regenType := YearlyRegenType.NotSet;
      specificDatePartOne := DatePartOne.NotSet;
      specificDatePartTwo := DatePartTwo.NotSet;
      specificDatePartThree := MonthOfYear.NotSet;
    }

    constructor FromStartAndEnd(start: DateTime, end: DateTime)
      ensures fresh(base) && base.Value() == Bounds(start, Some(end), 0, SpecificDate) && Initial()
    {
      base := new RecurrenceSettings.FromStartAndEnd(start, end);
      regenerateOnSpecificDateDayValue := 0;
      regenerateOnSpecificDateMonthValue := 0;
      adjustmentValue := 0;
      getNextDateValue := false;
      nextDateValue := MinValue;
      regenType := YearlyRegenType.NotSet;
      specificDatePartOne := DatePartOne.NotSet;
      specificDatePartTwo := DatePartTwo.NotSet;
      specificDatePartThree := MonthOfYear.NotSet;
    }

    constructor FromStartAndCount(start: DateTime, count: int)
      ensures fresh(base) && base.Value() == Bounds(start, None, count, NumberOfOccurrences) && Initial()
    {
      base := new RecurrenceSettings.FromStartAndCount(start, count);
      regenerateOnSpecificDateDayValue := 0;
      regenerateOnSpecificDateMonthValue := 0;
      adjustmentValue := 0;
      getNextDateValue := false;
      nextDateValue := MinValue;
      regenType := YearlyRegenType.NotSet;
      specificDatePartOne := DatePartOne.NotSet;
      specificDatePartTwo := DatePartTwo.NotSet;
      specificDatePartThree := MonthOfYear.NotSet;
    }

    /** The rule the object holds. */
    function Rule(): YearlyRule
      reads this`regenType, this`regenerateOnSpecificDateDayValue, this`regenerateOnSpecificDateMonthValue,
        this`specificDatePartOne, this`specificDatePartTwo, this`specificDatePartThree, this`adjustmentValue, base
    {
      YearlyRule(base.Value(), regenType, regenerateOnSpecificDateDayValue, regenerateOnSpecificDateMonthValue,
        specificDatePartOne, specificDatePartTwo, specificDatePartThree, adjustmentValue)
    }

    /** SetValues(specificDateDayValue, specificDateMonthValue): a fixed day of a month. */
    method SetValuesDay(day: int, month: int)
      modifies this`regenerateOnSpecificDateDayValue, this`regenerateOnSpecificDateMonthValue, this`regenType
      ensures regenerateOnSpecificDateDayValue == day && regenerateOnSpecificDateMonthValue == month
      ensures regenType == YearlyRegenType.OnSpecificDayOfYear
    {
      regenerateOnSpecificDateDayValue := day;
      regenerateOnSpecificDateMonthValue := month;
      regenType := YearlyRegenType.OnSpecificDayOfYear;
    }

    /** SetValues(customDateFirstPart, customDateSecondPart, customDateThirdPart): a custom date of a month. */
    method SetValuesCustom(one: DatePartOne, two: DatePartTwo, three: MonthOfYear)
      modifies this`specificDatePartOne, this`specificDatePartTwo, this`specificDatePartThree, this`regenType
      ensures specificDatePartOne == one && specificDatePartTwo == two && specificDatePartThree == three
      ensures regenType == YearlyRegenType.OnCustomDateFormat
    {
      specificDatePartOne := one;
      specificDatePartTwo := two;
      specificDatePartThree := three;
      regenType := YearlyRegenType.OnCustomDateFormat;
    }

    /** The AdjustmentValue setter. */
    method SetAdjustmentValue(v: int)
      modifies this`adjustmentValue
      ensures adjustmentValue == v
    {
      adjustmentValue := v;
    }

    /** GetCorrectedDate: back up to the target day, or the month's last day, within the same month. */
    method GetCorrectedDate(input: DateTime) returns (r: DateTime)
      ensures r == CorrectedDate(input, regenerateOnSpecificDateDayValue)
    {
      var dt := input;
      var daysOfMonth := DaysInMonth(dt.year, dt.month);
      if dt.day < regenerateOnSpecificDateDayValue && daysOfMonth > dt.day {
        if regenerateOnSpecificDateDayValue > daysOfMonth {
          dt := Date(dt.year, dt.month, daysOfMonth);
        } else {
          dt := Date(dt.year, dt.month, regenerateOnSpecificDateDayValue);
        }
      }
      r := dt;
    }

    /** GetCustomDate(year): the custom date of the month part three names, in the given year. */
    method GetCustomDate(year: int) returns (r: DateTime)
      requires !specificDatePartOne.NotSet? && !specificDatePartTwo.NotSet? && specificDatePartThree.Month?
      ensures r == CustomDate(year, specificDatePartThree.number, specificDatePartOne, specificDatePartTwo)
    {
      r := CustomDayOfMonth(Date(year, specificDatePartThree.number, 1), specificDatePartOne, specificDatePartTwo);
    }

    /**
     * The fixed-day loops add the anchor moved by the adjustment and step
     * with AddYears and GetCorrectedDate. Stated at marked anchors only, so
     * a loop's proof meets the step where a turn takes it and nowhere else.
     */
    ghost predicate FixedTurns(f: DateTime -> DateTime, h: DateTime -> DateTime)
      reads this`regenerateOnSpecificDateDayValue, this`adjustmentValue
    {
      forall a {:trigger Cycles.Anchor(a)} :: Cycles.Anchor(a) ==>
        f(a) == FixedNext(a, regenerateOnSpecificDateDayValue) && h(a) == AddDays(a, adjustmentValue)
    }

    /** The custom-date loops resolve the counter's custom date and add it moved by the adjustment. */
    ghost predicate CustomTurns(f: DateTime -> DateTime, h: DateTime -> DateTime)
      reads this`specificDatePartOne, this`specificDatePartTwo, this`specificDatePartThree, this`adjustmentValue, base
    {
      forall a {:trigger Cycles.Anchor(a)} :: Cycles.Anchor(a) ==>
        f(a) == CustomNext(base.startDate, specificDatePartOne, specificDatePartTwo, specificDatePartThree, a) &&
        h(a) == CustomAdjusted(base.startDate, specificDatePartOne, specificDatePartTwo, specificDatePartThree, adjustmentValue, a)
    }

    /** One turn of a fixed-day end-date or next-date loop: add the anchor moved by the adjustment; the next anchor. */
    method AddSpecificDate(values: RecurrenceValues, dt: DateTime, ghost f: DateTime -> DateTime, ghost h: DateTime -> DateTime)
      returns (next: DateTime)
      requires FixedTurns(f, h)
      modifies values`values
      ensures values.values == old(values.values) + [h(dt)]
      ensures next == f(dt)
    {
      assert Cycles.Anchor(dt);
      values.AddAdjustedDateValue(dt, adjustmentValue);
      next := AddYears(dt, 1);
      next := GetCorrectedDate(next);
    }

    /**
     * One turn of a custom-date loop: resolve the counter's custom date (the
     * next year's when it is before the start date), count on past its year,
     * and add it moved by the adjustment. The counter is one past the year of
     * the anchor p the turn is at.
     */
    method CustomTurn(values: RecurrenceValues, year: int, ghost p: DateTime, ghost f: DateTime -> DateTime, ghost h: DateTime -> DateTime)
      returns (dt: DateTime, nextYear: int)
      requires !specificDatePartOne.NotSet? && !specificDatePartTwo.NotSet? && specificDatePartThree.Month?
      requires CustomTurns(f, h) && year == p.year + 1
      modifies values`values
      ensures values.values == old(values.values) + [h(p)]
      ensures dt == f(p) && nextYear == dt.year + 1
    {
      assert Cycles.Anchor(p);
      var y := year;
      dt := GetCustomDate(y);
      if Before(dt, base.startDate) {
        y := y + 1;
        dt := GetCustomDate(y);
      }
      y := y + 1;
      values.AddAdjustedDateValue(dt, adjustmentValue);
      nextYear := y;
    }

    /**
     * The head of GetSpecificDayOfYearDates: the target day of the target
     * month in the start year (clipped to it), a year on when that is
     * before the start date.
     */
    method FirstSpecificDate() returns (r: Result<DateTime>)
      ensures r == FirstAnchor(base.startDate, regenerateOnSpecificDateDayValue, regenerateOnSpecificDateMonthValue)
    {
      var dt := base.startDate;
      var dayValue := regenerateOnSpecificDateDayValue;
      if !(1 <= regenerateOnSpecificDateMonthValue <= 12) {
        return Err(DateOutOfRange);
      }
      var daysOfMonth := DaysInMonth(dt.year, regenerateOnSpecificDateMonthValue);
      if daysOfMonth < regenerateOnSpecificDateDayValue {
        dayValue := daysOfMonth;
      }
      if dayValue < 1 {
        return Err(DateOutOfRange);
      }
      var newDate := Date(dt.year, regenerateOnSpecificDateMonthValue, dayValue);
      if Before(newDate, dt) {
        dt := AddYears(newDate, 1);
      } else {
        dt := newDate;
      }
      r := Ok(dt);
    }

    /**
     * The fixed-day next-date loop: add, stop once the added date is after
     * the reference date, step, and go on while within the limit.
     */
    method SpecificNextLoop(ghost f: DateTime -> DateTime, ghost h: DateTime -> DateTime, first: DateTime, reference: DateTime, bound: DateTime)
      returns (values: RecurrenceValues)
      requires FixedTurns(f, h) && Walks.Advancing(f)
      ensures fresh(values)
      ensures values.values == Cycles.EmitProbe(h, f, first, reference, bound)
      ensures values.startDate == MinValue && values.endDate == MinValue && values.seriesInfo == None
    {
      values := new RecurrenceValues();
      var dt := first;
      ghost var whole := Cycles.EmitProbe(h, f, first, reference, bound);
      while true
        invariant values.values + Cycles.EmitProbe(h, f, dt, reference, bound) == whole
        modifies values`values
        decreases DayNumber(bound) - DayNumber(dt)
      {
        Cycles.ProbeAppend(h, f, values.values, dt, reference, bound, whole);
        var next := AddSpecificDate(values, dt, f, h);
        if Before(reference, values.values[|values.values| - 1]) {
          break;
        }
        dt := next;
        if !AtMost(dt, bound) {
          break;
        }
      }
    }

    /** The fixed-day NumberOfOccurrences loop: date i is the first anchor i years on, corrected, moved by the adjustment. */
    method SpecificCountLoop(first: DateTime) returns (values: RecurrenceValues)
      ensures fresh(values)
      ensures values.values == FixedCount(first, regenerateOnSpecificDateDayValue, adjustmentValue,
        if base.numberOfOccurrences > 0 then base.numberOfOccurrences else 0)
      ensures values.startDate == MinValue && values.endDate == MinValue && values.seriesInfo == None
    {
      values := new RecurrenceValues();
      var count := base.numberOfOccurrences;
      ghost var n := if count > 0 then count else 0;
      var i := 0;
      while i < count
        invariant 0 <= i <= n
        invariant values.values == FixedCount(first, regenerateOnSpecificDateDayValue, adjustmentValue, i)
        modifies values`values
      {
        var d := AddYears(first, i);
        d := GetCorrectedDate(d);
        values.AddAdjustedDateValue(d, adjustmentValue);
        i := i + 1;
      }
    }

    /** The fixed-day SpecificDate do-while loop: add, step, go on while on or before EndDate. */
    method SpecificUntilLoop(ghost f: DateTime -> DateTime, ghost h: DateTime -> DateTime, first: DateTime)
      returns (values: RecurrenceValues)
      requires FixedTurns(f, h) && Walks.Advancing(f)
      ensures fresh(values)
      ensures values.values == Cycles.EmitUntil(h, f, first, base.endDate)
      ensures values.startDate == MinValue && values.endDate == MinValue && values.seriesInfo == None
    {
      values := new RecurrenceValues();
      var dt := first;
      ghost var whole := Cycles.EmitUntil(h, f, first, base.endDate);
      while true
        invariant values.values + Cycles.EmitUntil(h, f, dt, base.endDate) == whole
        modifies values`values
        decreases DaysLeft(dt, base.endDate)
      {
        Cycles.UntilAppend(h, f, values.values, dt, base.endDate, whole);
        dt := AddSpecificDate(values, dt, f, h);
        if !OnOrBefore(dt, base.endDate) {
          break;
        }
      }
    }

    /**
     * The custom-date next-date loop: resolve, count on, add, stop once the
     * added date is after the reference date, and go on while the resolved
     * date is within the limit.
     */
    method CustomNextLoop(ghost f: DateTime -> DateTime, ghost h: DateTime -> DateTime, ghost origin: DateTime, reference: DateTime, bound: DateTime)
      returns (values: RecurrenceValues)
      requires !specificDatePartOne.NotSet? && !specificDatePartTwo.NotSet? && specificDatePartThree.Month?
      requires CustomTurns(f, h) && Walks.Advancing(f) && origin.year + 1 == base.startDate.year
      ensures fresh(values)
      ensures values.values == Cycles.EmitProbe(h, f, origin, reference, bound)
      ensures values.startDate == MinValue && values.endDate == MinValue && values.seriesInfo == None
    {
      values := new RecurrenceValues();
      var year := base.startDate.year;
      ghost var p := origin;
      ghost var whole := Cycles.EmitProbe(h, f, origin, reference, bound);
      while true
        invariant year == p.year + 1
        invariant values.values + Cycles.EmitProbe(h, f, p, reference, bound) == whole
        modifies values`values
        decreases DayNumber(bound) - DayNumber(p)
      {
        Cycles.ProbeAppend(h, f, values.values, p, reference, bound, whole);
        var dt;
        dt, year := CustomTurn(values, year, p, f, h);
        if Before(reference, values.values[|values.values| - 1]) {
          break;
        }
        p := dt;
        if !AtMost(dt, bound) {
          break;
        }
      }
    }

    /** The custom-date NumberOfOccurrences loop: resolve, count on, add, NumberOfOccurrences times. */
    method CustomCountLoop(ghost f: DateTime -> DateTime, ghost h: DateTime -> DateTime, ghost origin: DateTime)
      returns (values: RecurrenceValues)
      requires !specificDatePartOne.NotSet? && !specificDatePartTwo.NotSet? && specificDatePartThree.Month?
      requires CustomTurns(f, h) && origin.year + 1 == base.startDate.year
      ensures fresh(values)
      ensures values.values == Cycles.Emit(h, f, origin, if base.numberOfOccurrences > 0 then base.numberOfOccurrences else 0)
      ensures values.startDate == MinValue && values.endDate == MinValue && values.seriesInfo == None
    {
      values := new RecurrenceValues();
      var year := base.startDate.year;
      ghost var p := origin;
      var count := base.numberOfOccurrences;
      ghost var n := if count > 0 then count else 0;
      ghost var whole := Cycles.Emit(h, f, origin, n);
      ghost var left: nat := n;
      var i := 0;
      while i < count
        invariant 0 <= i <= n && left == n - i
        invariant year == p.year + 1
        invariant values.values + Cycles.Emit(h, f, p, left) == whole
        modifies values`values
      {
        Cycles.CountAppend(h, f, values.values, p, left, whole);
        left := left - 1;
        var dt;
        dt, year := CustomTurn(values, year, p, f, h);
        p := dt;
        i := i + 1;
      }
    }

    /** The custom-date SpecificDate do-while loop: resolve, count on, add, go on while the resolved date is on or before EndDate. */
    method CustomUntilLoop(ghost f: DateTime -> DateTime, ghost h: DateTime -> DateTime, ghost origin: DateTime)
      returns (values: RecurrenceValues)
      requires !specificDatePartOne.NotSet? && !specificDatePartTwo.NotSet? && specificDatePartThree.Month?
      requires CustomTurns(f, h) && Walks.Advancing(f) && origin.year + 1 == base.startDate.year
      ensures fresh(values)
      ensures values.values == Cycles.EmitUntil(h, f, origin, base.endDate)
      ensures values.startDate == MinValue && values.endDate == MinValue && values.seriesInfo == None
    {
      values := new RecurrenceValues();
      var year := base.startDate.year;
      ghost var p := origin;
      ghost var whole := Cycles.EmitUntil(h, f, origin, base.endDate);
      while true
        invariant year == p.year + 1
        invariant values.values + Cycles.EmitUntil(h, f, p, base.endDate) == whole
        modifies values`values
        decreases DaysLeft(p, base.endDate)
      {
        Cycles.UntilAppend(h, f, values.values, p, base.endDate, whole);
        var dt;
        dt, year := CustomTurn(values, year, p, f, h);
        p := dt;
        if !OnOrBefore(dt, base.endDate) {
          break;
        }
      }
    }

    /**
     * The loops of GetSpecificDayOfYearDates once the first anchor is
     * known: the next-date run, or the bulk run of the end type.
     */
    method SpecificLoops(ghost f: DateTime -> DateTime, ghost h: DateTime -> DateTime, first: DateTime) returns (r: Result<RecurrenceValues>)
      requires regenType.OnSpecificDayOfYear? && Rule().DayOfYearValid()
      requires f == Step(Rule()) && h == Value(Rule()) && first == Origin(Rule()) && FixedTurns(f, h)
      ensures Cycles.Gathered(r, if getNextDateValue then Ok(NextRun(Rule(), nextDateValue)) else Generate(Rule()))
      ensures r.Ok? ==> fresh(r.value)
    {
      ghost var rule := Rule();
      StepAdvances(rule);
      if getNextDateValue {
        var bound := AddYears(nextDateValue, 1);
        var values := SpecificNextLoop(f, h, first, nextDateValue, bound);
        assert values.values == NextRun(rule, nextDateValue);
        r := Ok(values);
      } else if base.endDateType == NoEndDate {
        r := Err(NoEndDateUnsupported);
      } else if base.endDateType == NumberOfOccurrences {
        var values := SpecificCountLoop(first);
        r := Ok(values);
      } else if base.endDateType == SpecificDate {
        var values := SpecificUntilLoop(f, h, first);
        r := Ok(values);
      } else {
        r := Err(EndDateTypeNotSet);
      }
      assert Rule() == rule;
    }

    /**
     * The loops of GetCustomDayOfYearDates, with the year counter starting
     * at the start year: the next-date run, or the bulk run of the end type.
     */
    method CustomLoops(ghost f: DateTime -> DateTime, ghost h: DateTime -> DateTime, ghost origin: DateTime) returns (r: Result<RecurrenceValues>)
      requires regenType.OnCustomDateFormat? && Rule().PartsSet()
      requires f == Step(Rule()) && h == Value(Rule()) && origin == Origin(Rule()) && CustomTurns(f, h)
      ensures Cycles.Gathered(r, if getNextDateValue then Ok(NextRun(Rule(), nextDateValue)) else Generate(Rule()))
      ensures r.Ok? ==> fresh(r.value)
    {
      ghost var rule := Rule();
      StepAdvances(rule);
      if getNextDateValue {
        var bound := AddYears(nextDateValue, 1);
        var values := CustomNextLoop(f, h, origin, nextDateValue, bound);
        assert values.values == NextRun(rule, nextDateValue);
        r := Ok(values);
      } else if base.endDateType == NoEndDate {
        r := Err(NoEndDateUnsupported);
      } else if base.endDateType == NumberOfOccurrences {
        var values := CustomCountLoop(f, h, origin);
        r := Ok(values);
      } else if base.endDateType == SpecificDate {
        var values := CustomUntilLoop(f, h, origin);
        r := Ok(values);
      } else {
        r := Err(EndDateTypeNotSet);
      }
      assert Rule() == rule;
    }

    /**
     * GetSpecificDayOfYearDates: the first anchor (DaysInMonth or new
     * DateTime throws for a month or day that names no day), then the loops.
     */
    method GetSpecificDayOfYearDates() returns (r: Result<RecurrenceValues>)
      requires regenType.OnSpecificDayOfYear?
      ensures Collected(r, Rule(), getNextDateValue, nextDateValue)
      ensures r.Ok? ==> fresh(r.value)
    {
      var first := FirstSpecificDate();
      if first.Err? {
        return Err(first.error);
      }
      ghost var rule := Rule();
      ghost var f, h := Step(rule), Value(rule);
      forall a | Cycles.Anchor(a)
        ensures f(a) == FixedNext(a, regenerateOnSpecificDateDayValue) && h(a) == AddDays(a, adjustmentValue)
      {
      }
      OutcomeOfRun(rule, getNextDateValue, nextDateValue);
      r := SpecificLoops(f, h, first.value);
    }

    /**
     * GetCustomDayOfYearDates: an unset part throws; otherwise the loops
     * with the year counter at the start year.
     */
    method GetCustomDayOfYearDates() returns (r: Result<RecurrenceValues>)
      requires regenType.OnCustomDateFormat?
      ensures Collected(r, Rule(), getNextDateValue, nextDateValue)
      ensures r.Ok? ==> fresh(r.value)
    {
      if specificDatePartOne.NotSet? || specificDatePartTwo.NotSet? || specificDatePartThree.NotSet? {
        return Err(CustomDatePartNotSet);
      }
      ghost var rule := Rule();
      ghost var f, h := Step(rule), Value(rule);
      forall a | Cycles.Anchor(a)
        ensures f(a) == CustomNext(base.startDate, specificDatePartOne, specificDatePartTwo, specificDatePartThree, a)
        ensures h(a) == CustomAdjusted(base.startDate, specificDatePartOne, specificDatePartTwo, specificDatePartThree, adjustmentValue, a)
      {
      }
      OutcomeOfRun(rule, getNextDateValue, nextDateValue);
      r := CustomLoops(f, h, Origin(rule));
    }

    /**
     * The switch on the regeneration type at the head of
     * GetRecurrenceValues; an unset or after-completion kind leaves the
     * list null.
     */
    method RunGenerator() returns (r: Result<RecurrenceValues>)
      ensures Collected(r, Rule(), getNextDateValue, nextDateValue)
      ensures r.Ok? ==> fresh(r.value)
    {
      if regenType.OnSpecificDayOfYear? {
        r := GetSpecificDayOfYearDates();
      } else if regenType.OnCustomDateFormat? {
        r := GetCustomDayOfYearDates();
      } else {
        r := Err(NullReference);
      }
    }

    /**
     * GetRecurrenceValues: run the generator; a list gets its start date,
     * its end date (unless there is no end date) and the token.
     */
    method GetRecurrenceValues() returns (r: Result<RecurrenceValues>)
      ensures Delivered(r, Rule(), getNextDateValue, nextDateValue)
      ensures r.Ok? ==> fresh(r.value)
    {
      ghost var outcome := Outcome(Rule(), getNextDateValue, nextDateValue);
      r := RunGenerator();
      if r.Ok? {
        assert outcome.Ok? && r.value.values == outcome.value;
        SetSummary(r.value);
      } else {
        assert outcome == Err(r.error);
      }
    }

    /** The tail of GetRecurrenceValues: the first and last dates and the token. */
    method SetSummary(values: RecurrenceValues)
      modifies values`startDate, values`endDate, values`seriesInfo
      ensures |values.values| > 0 ==> values.startDate == values.values[0]
      ensures |values.values| == 0 ==> values.startDate == old(values.startDate)
      ensures |values.values| > 0 && base.endDateType != NoEndDate ==> values.endDate == values.values[|values.values| - 1]
      ensures |values.values| == 0 || base.endDateType == NoEndDate ==> values.endDate == old(values.endDate)
      ensures values.seriesInfo == Some(Encode(Rule()))
    {
      var token := Encode(Rule());
      if |values.values| > 0 {
        values.SetStartDate(values.values[0]);
        if base.endDateType != NoEndDate {
          values.SetEndDate(values.values[|values.values| - 1]);
        }
      }
      assert Rule() == old(Rule());
      values.SetSeriesInfo(token);
    }

    /** GetValues(): the run for the rule as it stands. */
    method GetValues() returns (r: Result<RecurrenceValues>)
      ensures Delivered(r, Rule(), getNextDateValue, nextDateValue)
      ensures r.Ok? ==> fresh(r.value)
    {
      r := GetRecurrenceValues();
    }

    /** GetValues(specificDateDayValue, specificDateMonthValue): a fixed day of a month. */
    method GetValuesDay(day: int, month: int) returns (r: Result<RecurrenceValues>)
      modifies this`regenerateOnSpecificDateDayValue, this`regenerateOnSpecificDateMonthValue, this`regenType
      ensures regenType == YearlyRegenType.OnSpecificDayOfYear
      ensures regenerateOnSpecificDateDayValue == day && regenerateOnSpecificDateMonthValue == month
      ensures Delivered(r, Rule(), getNextDateValue, nextDateValue)
      ensures r.Ok? ==> fresh(r.value)
    {
      SetValuesDay(day, month);
      r := GetValues();
    }

    /** GetValues(customDateFirstPart, customDateSecondPart, customDateThirdPart): a custom date of a month. */
    method GetValuesCustom(one: DatePartOne, two: DatePartTwo, three: MonthOfYear) returns (r: Result<RecurrenceValues>)
      modifies this`specificDatePartOne, this`specificDatePartTwo, this`specificDatePartThree, this`regenType
      ensures regenType == YearlyRegenType.OnCustomDateFormat
      ensures specificDatePartOne == one && specificDatePartTwo == two && specificDatePartThree == three
      ensures Delivered(r, Rule(), getNextDateValue, nextDateValue)
      ensures r.Ok? ==> fresh(r.value)
    {
      SetValuesCustom(one, two, three);
      r := GetValues();
    }

    /** GetValues(startDate, endDate): the same rule, run from startDate up to endDate. */
    method GetValuesBetween(start: DateTime, end: DateTime) returns (r: Result<RecurrenceValues>)
      modifies base
      ensures base.Value() == old(base.Value()).(startDate := start, endDate := Some(end), endDateType := SpecificDate)
      ensures Delivered(r, Rule(), getNextDateValue, nextDateValue)
      ensures r.Ok? ==> fresh(r.value)
    {
      base.SetStartDate(start);
      base.SetEndDate(Some(end));
      base.SetTypeOfEndDate(SpecificDate);
      r := GetRecurrenceValues();
    }

    /** GetValues(startDate, numberOfOccurrences): the same rule, run from startDate for a number of dates. */
    method GetValuesFrom(start: DateTime, count: int) returns (r: Result<RecurrenceValues>)
      modifies base
      ensures base.Value() == old(base.Value()).(startDate := start, numberOfOccurrences := count, endDateType := NumberOfOccurrences)
      ensures Delivered(r, Rule(), getNextDateValue, nextDateValue)
      ensures r.Ok? ==> fresh(r.value)
    {
      base.SetNumberOfOccurrences(count);
      base.SetStartDate(start);
      base.SetTypeOfEndDate(NumberOfOccurrences);
      r := GetRecurrenceValues();
    }

    /**
     * GetNextDate: switch to next-date mode, run, and answer the run's end
     * date (DateTime.MinValue for a rule with no end date).
     */
    method GetNextDate(currentDate: DateTime) returns (r: Result<DateTime>)
      modifies this`getNextDateValue, this`nextDateValue
      ensures getNextDateValue && nextDateValue == currentDate
      ensures r == NextDate(Rule(), currentDate)
    {
      getNextDateValue := true;
      nextDateValue := currentDate;
      var values := GetValues();
      if values.Err? {
        return Err(values.error);
      }
      r := Ok(values.value.endDate);
    }

    /**
     * The tail of GetRecurrenceSettings: the constructor the end type picks
     * (none for an unset end type, which the adjustment setter then
     * dereferences), the adjustment, then SetValues for a fixed-day or
     * custom-date kind.
     */
    static method FromInfo(info: RecurrenceInfo, start: DateTime) returns (r: Result<YearlyRecurrenceSettings>)
      ensures RuleOfInfo(info, start).Err? ==> r == Err(RuleOfInfo(info, start).error)
      ensures RuleOfInfo(info, start).Ok? ==> r.Ok?
      ensures r.Ok? ==>
        fresh(r.value) && fresh(r.value.base) && RuleOfInfo(info, start) == Ok(r.value.Rule()) &&
        !r.value.getNextDateValue && r.value.nextDateValue == MinValue
    {
      var settings: YearlyRecurrenceSettings;
      if info.endDateType == NumberOfOccurrences {
        settings := new YearlyRecurrenceSettings.FromStartAndCount(start, info.numberOfOccurrences);
      } else if info.endDateType == SpecificDate {
        if info.endDate.None? {
          return Err(NullReference);
        }
        settings := new YearlyRecurrenceSettings.FromStartAndEnd(start, info.endDate.value);
      } else if info.endDateType == NoEndDate {
        settings := new YearlyRecurrenceSettings.FromStart(start);
      } else {
        return Err(NullReference);
      }
      settings.SetAdjustmentValue(info.adjustmentValue);
      if info.yearlyRegenType.OnSpecificDayOfYear? {
        settings.SetValuesDay(info.specificDateDayValue, info.specificDateMonthValue);
      } else if info.yearlyRegenType.OnCustomDateFormat? {
        settings.SetValuesCustom(info.yearlySpecificDatePartOne, info.yearlySpecificDatePartTwo, info.yearlySpecificDatePartThree);
      }
      r := Ok(settings);
    }

    /**
     * GetRecurrenceSettings: a generator rebuilt from a token, with the
     * overrides of the internal overloads (count -1 and end date
     * DateTime.MinValue for none; start None for the token's own). A token
     * of another kind decodes to null, which the overrides or the end-type
     * switch dereference.
     */
    static method GetRecurrenceSettings(seriesInfo: string, modifiedOccurrences: int, modifiedStart: Option<DateTime>, modifiedEnd: DateTime)
      returns (r: Result<YearlyRecurrenceSettings>)
      ensures var expected := Rebuild(seriesInfo, modifiedOccurrences, modifiedStart, modifiedEnd);
        (expected.Err? ==> r == Err(expected.error)) && (expected.Ok? ==> r.Ok?)
      ensures r.Ok? ==>
        fresh(r.value) && fresh(r.value.base) &&
        Rebuild(seriesInfo, modifiedOccurrences, modifiedStart, modifiedEnd) == Ok(r.value.Rule()) &&
        !r.value.getNextDateValue && r.value.nextDateValue == MinValue
    {
      var decoded := Decode(seriesInfo);
      if decoded.Err? {
        return Err(decoded.error);
      }
      if decoded.value.None? {
        return Err(NullReference);
      }
      var info := ApplyOverrides(decoded.value.value, modifiedOccurrences, modifiedEnd);
      var start := if modifiedStart.Some? then modifiedStart.value else decoded.value.value.startDate;
      assert Rebuild(seriesInfo, modifiedOccurrences, modifiedStart, modifiedEnd) == RuleOfInfo(info, start);
      r := FromInfo(info, start);
    }
  }
}
