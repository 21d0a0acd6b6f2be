/**
 * WeeklyRecurrenceSettings: the selected days of the week, every X weeks,
 * from the start date; the "W" series-info token.
 */
module WeeklyRecurrence {
  import opened Results
  import opened Dates
  import opened Kinds
  import opened Text
  import opened Settings
  import opened Values
  import opened Info
  import Walks

  // ---------------------------------------------------------------------
  // The week

  /** The day of the week k days after the day of the week w (Sunday = 0). */
  function DayAfter(w: int, k: int): (r: int)
    requires 0 <= w < 7 && 0 <= k <= 7
    ensures 0 <= r < 7 && r == (w + k) % 7
  {
    if w + k >= 7 then w + k - 7 else w + k
  }

  /** Whether the day k days after the day of the week w is selected. */
  predicate SelectedAt(sel: SelectedDays, w: int, k: int)
    requires 0 <= w < 7 && 0 <= k <= 7
  {
    sel.IsSelected(DayAfter(w, k))
  }

  /** The first offset from k to 6 at which a day after w is selected, or 7. */
  function GapFrom(sel: SelectedDays, w: int, k: int): (r: int)
    requires 0 <= w < 7 && 1 <= k <= 7
    ensures k <= r <= 7
    decreases 7 - k
  {
    if k == 7 || SelectedAt(sel, w, k) then k else GapFrom(sel, w, k + 1)
  }

  /** How many days after a day of the week w the next selected day of the week is. */
  function SelGap(sel: SelectedDays, w: int): (r: int)
    requires 0 <= w < 7
    ensures 1 <= r <= 7
  {
    GapFrom(sel, w, 1)
  }

  lemma {:induction false} GapFromSpec(sel: SelectedDays, w: int, k: int)
    requires 0 <= w < 7 && 1 <= k <= 7
    ensures forall j :: k <= j < GapFrom(sel, w, k) ==> !SelectedAt(sel, w, j)
    ensures GapFrom(sel, w, k) < 7 ==> SelectedAt(sel, w, GapFrom(sel, w, k))
    decreases 7 - k
  {
    if k < 7 && !SelectedAt(sel, w, k) {
      GapFromSpec(sel, w, k + 1);
    }
  }

  /** Some selected day of the week is among the seven days after w. */
  lemma SomeOffsetSelected(sel: SelectedDays, w: int) returns (k: int)
    requires 0 <= w < 7 && sel.Any()
    ensures 1 <= k <= 7 && SelectedAt(sel, w, k)
  {
    var v := if sel.sunday then 0 else if sel.monday then 1 else if sel.tuesday then 2
      else if sel.wednesday then 3 else if sel.thursday then 4 else if sel.friday then 5 else 6;
    k := if v > w then v - w else v - w + 7;
    assert DayAfter(w, k) == v;
  }

  /**
   * When some day is selected, the day SelGap days after w is selected and
   * none of the days before it is.
   */
  lemma GapSpec(sel: SelectedDays, w: int)
    requires 0 <= w < 7 && sel.Any()
    ensures SelectedAt(sel, w, SelGap(sel, w))
    ensures forall j :: 1 <= j < SelGap(sel, w) ==> !SelectedAt(sel, w, j)
  {
    GapFromSpec(sel, w, 1);
    var k := SomeOffsetSelected(sel, w);
  }

  /** A day on, past an unselected day, the next selected day is a day nearer. */
  lemma GapShift(sel: SelectedDays, w: int)
    requires 0 <= w < 7 && sel.Any() && !SelectedAt(sel, w, 1)
    ensures SelGap(sel, DayAfter(w, 1)) == SelGap(sel, w) - 1
  {
    var w1 := DayAfter(w, 1);
    var g := SelGap(sel, w);
    var g1 := SelGap(sel, w1);
    GapSpec(sel, w);
    GapSpec(sel, w1);
    assert SelectedAt(sel, w1, g - 1) by {
      assert DayAfter(w1, g - 1) == DayAfter(w, g);
    }
    if g1 < g - 1 {
      assert DayAfter(w1, g1) == DayAfter(w, g1 + 1);
      assert SelectedAt(sel, w, g1 + 1);
    }
  }

  // ---------------------------------------------------------------------
  // GetNextDay

  /**
   * GetNextDay for the selected days `sel` every x weeks: step a day at a
   * time to the next selected day of the week; on reaching an unselected
   * Saturday with x above 1, jump x - 1 weeks.
   */
  function NextSelectedDay(sel: SelectedDays, x: int, d: DateTime): (r: DateTime)
    requires sel.Any()
    ensures Before(d, r)
    decreases SelGap(sel, DayOfWeek(d))
  {
    var next := AddDays(d, 1);
    if sel.IsSelected(DayOfWeek(next)) then next
    else
      SkipFromSpec(sel, x, d);
      NextSelectedDay(sel, x, SkipFrom(x, d))
  }

  /**
   * Where the walk goes on from after an unselected day: the day after d,
   * x - 1 weeks later when that day is a Saturday and x is above 1.
   */
  function SkipFrom(x: int, d: DateTime): DateTime {
    var next := AddDays(d, 1);
    if DayOfWeek(next) == Dates.Saturday && x > 1 then AddDays(next, (x - 1) * 7) else next
  }

  /** Past an unselected day the walk goes on from a day of the week nearer the next selected one. */
  lemma SkipFromSpec(sel: SelectedDays, x: int, d: DateTime)
    requires sel.Any() && !sel.IsSelected(DayOfWeek(AddDays(d, 1)))
    ensures var r := SkipFrom(x, d);
      DayOfWeek(r) == DayAfter(DayOfWeek(d), 1) &&
      SelGap(sel, DayOfWeek(r)) == SelGap(sel, DayOfWeek(d)) - 1 &&
      DayNumber(r) - DayNumber(d) == 1 + (if DayOfWeek(r) == Dates.Saturday && x > 1 then 7 * (x - 1) else 0)
  {
    var next := AddDays(d, 1);
    DayOfWeekAfter(d, 1);
    GapShift(sel, DayOfWeek(d));
    WeekLater(next, x - 1);
  }

  /** How many days after a day of the week w the next Saturday is (a Saturday counts as 7). */
  function SaturdayGap(w: int): int {
    if w == Dates.Saturday then 7 else Dates.Saturday - w
  }

  /** Whether the walk from a day of the week w passes an unselected Saturday and jumps x - 1 weeks. */
  predicate Jumps(sel: SelectedDays, x: int, w: int)
    requires 0 <= w < 7
  {
    x > 1 && !sel.saturday && SaturdayGap(w) < SelGap(sel, w)
  }

  /** The jumps the walk makes from w are the one it may make a day on plus the ones from there. */
  lemma JumpStep(sel: SelectedDays, x: int, w: int)
    requires 0 <= w < 7 && sel.Any() && !SelectedAt(sel, w, 1)
    ensures var w1 := DayAfter(w, 1); var weeks := 7 * (x - 1);
      (if Jumps(sel, x, w) then weeks else 0) ==
      (if w1 == Dates.Saturday && x > 1 then weeks else 0) + (if Jumps(sel, x, w1) then weeks else 0)
  {
    GapShift(sel, w);
  }

  /**
   * The distance and day of the week of the next selected day, put
   * together from one unselected day and the walk on from there.
   */
  lemma StepCombines(sel: SelectedDays, x: int, w: int, ws: int, wr: int, dd: int, ds: int, dr: int)
    requires 0 <= w < 7 && sel.Any() && !SelectedAt(sel, w, 1)
    requires ws == DayAfter(w, 1) && SelGap(sel, ws) == SelGap(sel, w) - 1
    requires ds - dd == 1 + (if ws == Dates.Saturday && x > 1 then 7 * (x - 1) else 0)
    requires dr - ds == SelGap(sel, ws) + (if Jumps(sel, x, ws) then 7 * (x - 1) else 0)
    requires wr == DayAfter(ws, SelGap(sel, ws))
    ensures dr - dd == SelGap(sel, w) + (if Jumps(sel, x, w) then 7 * (x - 1) else 0)
    ensures wr == DayAfter(w, SelGap(sel, w))
  {
    JumpStep(sel, x, w);
  }

  lemma {:induction false} NextSelectedDayDistance(sel: SelectedDays, x: int, d: DateTime)
    requires sel.Any()
    ensures var w := DayOfWeek(d); var g := SelGap(sel, w);
      var r := NextSelectedDay(sel, x, d);
      DayNumber(r) - DayNumber(d) == g + (if Jumps(sel, x, w) then 7 * (x - 1) else 0) &&
      DayOfWeek(r) == DayAfter(w, g)
    decreases SelGap(sel, DayOfWeek(d))
  {
    var w := DayOfWeek(d);
    DayOfWeekAfter(d, 1);
    if !sel.IsSelected(DayOfWeek(AddDays(d, 1))) {
      var skipped := SkipFrom(x, d);
      SkipFromSpec(sel, x, d);
      NextSelectedDayDistance(sel, x, skipped);
      var r := NextSelectedDay(sel, x, d);
      assert r == NextSelectedDay(sel, x, skipped);
      StepCombines(sel, x, w, DayOfWeek(skipped), DayOfWeek(r), DayNumber(d), DayNumber(skipped), DayNumber(r));
    }
  }

  /**
   * The next date is on a selected day: the first selected day after d,
   * or exactly x - 1 weeks after it when an unselected Saturday comes
   * first and x is above 1; every day before that first selected day is
   * unselected.
   */
  lemma NextSelectedDaySpec(sel: SelectedDays, x: int, d: DateTime)
    requires sel.Any()
    ensures var w := DayOfWeek(d); var g := SelGap(sel, w);
      var r := NextSelectedDay(sel, x, d);
      sel.IsSelected(DayOfWeek(r)) &&
      r == AddDays(d, g + if Jumps(sel, x, w) then 7 * (x - 1) else 0) &&
      (forall k :: 0 < k < g ==> !sel.IsSelected(DayOfWeek(AddDays(d, k))))
  {
    var w := DayOfWeek(d);
    var n := SelGap(sel, w) + if Jumps(sel, x, w) then 7 * (x - 1) else 0;
    NextSelectedDayDistance(sel, x, d);
    GapSpec(sel, w);
    DayNumberInjective(NextSelectedDay(sel, x, d), AddDays(d, n));
    SkippedUnselected(sel, d);
  }

  /** The days before the next selected day of the week are unselected. */
  lemma SkippedUnselected(sel: SelectedDays, d: DateTime)
    requires sel.Any()
    ensures forall k :: 0 < k < SelGap(sel, DayOfWeek(d)) ==> !sel.IsSelected(DayOfWeek(AddDays(d, k)))
  {
    var w := DayOfWeek(d);
    GapSpec(sel, w);
    forall k | 0 < k < SelGap(sel, w)
      ensures !sel.IsSelected(DayOfWeek(AddDays(d, k)))
    {
      DayOfWeekAfter(d, k);
      assert DayOfWeek(AddDays(d, k)) == DayAfter(w, k);
      assert !SelectedAt(sel, w, k);
    }
  }

  /**
   * With Saturday selected the walk never jumps, so the interval in weeks
   * makes no difference: the series is the weekly one whatever x is.
   */
  lemma SaturdaySelectedIgnoresInterval(sel: SelectedDays, x: int, d: DateTime)
    requires sel.Any() && sel.saturday
    ensures NextSelectedDay(sel, x, d) == NextSelectedDay(sel, 1, d)
  {
    NextSelectedDaySpec(sel, x, d);
    NextSelectedDaySpec(sel, 1, d);
  }

  /** Exactly one day of the week, v, is selected. */
  predicate OnlySelected(sel: SelectedDays, v: int) {
    0 <= v < 7 && forall u :: 0 <= u < 7 ==> (sel.IsSelected(u) <==> u == v)
  }

  /**
   * One selected day other than Saturday, every x weeks: from one date of
   * the series the next is exactly x weeks later.
   */
  lemma SingleDayEveryXWeeks(sel: SelectedDays, x: int, d: DateTime, v: int)
    requires OnlySelected(sel, v) && v != Dates.Saturday
    requires DayOfWeek(d) == v && x >= 1
    ensures sel.Any()
    ensures DayNumber(NextSelectedDay(sel, x, d)) == DayNumber(d) + 7 * x
  {
    assert sel.IsSelected(v);
    GapSpec(sel, v);
    assert DayAfter(v, SelGap(sel, v)) == v;
    NextSelectedDayDistance(sel, x, d);
  }

  /** The weekly rule a generator holds: its end condition, its kind, its days and its interval in weeks. */
  datatype WeeklyRule = WeeklyRule(bounds: Bounds, regenType: WeeklyRegenType, selectedDays: SelectedDays, regenEveryXWeeks: int)

  // ---------------------------------------------------------------------
  // The series

  /** GetNextDay as a step (the identity when no day is selected, where GetNextDay never returns). */
  function Step(rule: WeeklyRule): DateTime -> DateTime {
    StepOf(rule.selectedDays, rule.regenEveryXWeeks)
  }

  function StepOf(sel: SelectedDays, x: int): DateTime -> DateTime {
    d => if sel.Any() then NextSelectedDay(sel, x, d) else d
  }

  lemma StepAdvances(rule: WeeklyRule)
    requires rule.selectedDays.Any()
    ensures Walks.Advancing(Step(rule))
  {
    forall x
      ensures Before(x, Step(rule)(x))
    {
      assert Step(rule)(x) == NextSelectedDay(rule.selectedDays, rule.regenEveryXWeeks, x);
    }
  }

  /** The day before the start date, where the walk of GetEveryXWeeksValues begins. */
  function Origin(rule: WeeklyRule): DateTime {
    AddDays(rule.bounds.startDate, -1)
  }

  /** The next-date loop's limit: X + 1 weeks after the reference date. */
  function ProbeBound(rule: WeeklyRule, reference: DateTime): DateTime {
    AddDays(reference, (rule.regenEveryXWeeks * 7) + 7)
  }

  /**
   * The end conditions under which the bulk loops never call GetNextDay:
   * no end date or an unset end type (both throw first), or a count of
   * zero or less.
   */
  predicate Stepless(b: Bounds) {
    b.endDateType in {NoEndDate, NotDefined} || (b.endDateType == NumberOfOccurrences && b.numberOfOccurrences <= 0)
  }

  /**
   * What a run demands, since GetNextDay never returns when no day is
   * selected: a selected day wherever the loops call it.
   */
  predicate CanRun(rule: WeeklyRule, nextDateMode: bool) {
    rule.regenType.NotSet? || rule.selectedDays.Any() || (!nextDateMode && Stepless(rule.bounds))
  }

  /**
   * The next-date loop's dates: the walk up to the first date past the
   * reference date, or to the first past the limit X + 1 weeks on.
   */
  function NextRun(rule: WeeklyRule, reference: DateTime): seq<DateTime>
    requires rule.selectedDays.Any()
  {
    StepAdvances(rule);
    Walks.Probe(Step(rule), Origin(rule), reference, ProbeBound(rule, reference))
  }

  /** What GetValues produces in bulk mode, or the exception it throws. */
  function Generate(rule: WeeklyRule): Result<seq<DateTime>>
    requires rule.selectedDays.Any() || Stepless(rule.bounds)
  {
    match rule.bounds.endDateType
    case NoEndDate => Err(NoEndDateUnsupported)
    case NumberOfOccurrences =>
      Ok(Walks.Take(Step(rule), Origin(rule), if rule.bounds.numberOfOccurrences > 0 then rule.bounds.numberOfOccurrences else 0))
    case SpecificDate =>
      StepAdvances(rule);
      Ok(Walks.Until(Step(rule), Origin(rule), rule.bounds.endDate))
    case NotDefined => Err(EndDateTypeNotSet)
  }

  /**
   * The dates GetRecurrenceValues collects: the next-date loop's in
   * next-date mode, the bulk ones otherwise; a NullReference for an unset
   * kind, which leaves the list null.
   */
  function Outcome(rule: WeeklyRule, nextDateMode: bool, reference: DateTime): Result<seq<DateTime>>
    requires CanRun(rule, nextDateMode)
  {
    if rule.regenType.NotSet? then Err(NullReference)
    else if nextDateMode then Ok(NextRun(rule, reference))
    else Generate(rule)
  }

  /**
   * GetNextDate: the end date of the next-date run, which is its last date
   * unless the rule has no end date, where it stays DateTime.MinValue.
   */
  function NextDate(rule: WeeklyRule, reference: DateTime): Result<DateTime>
    requires CanRun(rule, true)
  {
    match Outcome(rule, true, reference)
    case Err(e) => Err(e)
    case Ok(s) => Ok(if |s| > 0 && rule.bounds.endDateType != NoEndDate then s[|s| - 1] else MinValue)
  }

  // ---------------------------------------------------------------------
  // Properties of the series

  /**
   * The generated dates are strictly increasing, on or after the start
   * date and on selected days of the week; a count rule gives as many as
   * its count, an end-date rule none past its end date.
   */
  lemma GenerateShape(rule: WeeklyRule)
    requires rule.selectedDays.Any() || Stepless(rule.bounds)
    ensures Generate(rule).Ok? <==> rule.bounds.endDateType in {NumberOfOccurrences, SpecificDate}
    ensures Generate(rule).Ok? ==> var s := Generate(rule).value;
      StrictlyIncreasing(s) &&
      (forall i :: 0 <= i < |s| ==> AtMost(rule.bounds.startDate, s[i]) && rule.selectedDays.IsSelected(DayOfWeek(s[i]))) &&
      (rule.bounds.endDateType == NumberOfOccurrences ==> |s| == if rule.bounds.numberOfOccurrences > 0 then rule.bounds.numberOfOccurrences else 0) &&
      (rule.bounds.endDateType == SpecificDate && rule.bounds.endDate.Some? ==> forall i :: 0 <= i < |s| ==> AtMost(s[i], rule.bounds.endDate.value))
  {
    if Generate(rule).Ok? && rule.selectedDays.Any() {
      var s := Generate(rule).value;
      if rule.bounds.endDateType == SpecificDate {
        StepAdvances(rule);
        Walks.UntilIsWalk(Step(rule), Origin(rule), rule.bounds.endDate);
      }
      FromOriginShape(rule, s);
    }
  }

  /** The first dates of the walk from the day before the start: increasing, from the start on, on selected days. */
  lemma FromOriginShape(rule: WeeklyRule, s: seq<DateTime>)
    requires rule.selectedDays.Any()
    requires s == Walks.Take(Step(rule), Origin(rule), |s|)
    ensures StrictlyIncreasing(s)
    ensures forall i :: 0 <= i < |s| ==> AtMost(rule.bounds.startDate, s[i]) && rule.selectedDays.IsSelected(DayOfWeek(s[i]))
  {
    WalkShape(rule, Origin(rule), |s|);
  }

  /**
   * The walk from d is strictly increasing and after d, and every date of
   * it falls on a selected day of the week.
   */
  lemma WalkShape(rule: WeeklyRule, d: DateTime, n: nat)
    requires rule.selectedDays.Any()
    ensures var s := Walks.Take(Step(rule), d, n);
      StrictlyIncreasing(s) &&
      forall i :: 0 <= i < n ==> Before(d, s[i]) && rule.selectedDays.IsSelected(DayOfWeek(s[i]))
  {
    StepAdvances(rule);
    Walks.TakeIncreasing(Step(rule), d, n);
    WalkOnSelectedDays(rule, d, n);
  }

  /** Every date of the walk falls on a selected day of the week. */
  lemma WalkOnSelectedDays(rule: WeeklyRule, d: DateTime, n: nat)
    requires rule.selectedDays.Any()
    ensures forall i :: 0 <= i < n ==> rule.selectedDays.IsSelected(DayOfWeek(Walks.Take(Step(rule), d, n)[i]))
  {
    var p := (x: DateTime) => rule.selectedDays.IsSelected(DayOfWeek(x));
    StepOnSelectedDay(rule);
    Walks.TakeAll(Step(rule), d, n, p);
  }

  /** Every step of the walk lands on a selected day of the week. */
  lemma StepOnSelectedDay(rule: WeeklyRule)
    requires rule.selectedDays.Any()
    ensures forall x :: rule.selectedDays.IsSelected(DayOfWeek(Step(rule)(x)))
  {
    forall x
      ensures rule.selectedDays.IsSelected(DayOfWeek(Step(rule)(x)))
    {
      NextSelectedDaySpec(rule.selectedDays, rule.regenEveryXWeeks, x);
    }
  }

  /**
   * GetNextDate finds the first date of the series after the reference
   * date when the rule has an end condition and X is at least -1, so that
   * the loop's limit never cuts the search short; with no end date it
   * answers DateTime.MinValue.
   */
  lemma NextDateFinds(rule: WeeklyRule, reference: DateTime)
    requires rule.selectedDays.Any() && rule.regenEveryXWeeks >= -1 && !rule.regenType.NotSet?
    ensures rule.bounds.endDateType != NoEndDate ==>
      NextDate(rule, reference) == (StepAdvances(rule); Ok(Walks.NextAfter(Step(rule), Origin(rule), reference)))
    ensures rule.bounds.endDateType == NoEndDate ==> NextDate(rule, reference) == Ok(MinValue)
  {
    StepAdvances(rule);
    Walks.ProbeShape(Step(rule), Origin(rule), reference, ProbeBound(rule, reference));
  }

  /**
   * Below X = -1 the limit of X + 1 weeks past the reference date lies
   * before it, so GetNextDate answers the first date of the walk past that
   * limit, which can be on or before the reference date.
   */
  lemma NextDateBelowLimit(rule: WeeklyRule, reference: DateTime)
    requires rule.selectedDays.Any() && rule.regenEveryXWeeks < -1 && !rule.regenType.NotSet?
    requires rule.bounds.endDateType != NoEndDate
    ensures Before(ProbeBound(rule, reference), reference)
    ensures NextDate(rule, reference) ==
      (StepAdvances(rule); Ok(Walks.NextAfter(Step(rule), Origin(rule), ProbeBound(rule, reference))))
  {
    StepAdvances(rule);
    Walks.ProbeBelowReference(Step(rule), Origin(rule), reference, ProbeBound(rule, reference));
  }

  /** Tuesdays and Thursdays every other week, counted four times from Monday 2024-01-01. */
  function ExampleRule(): WeeklyRule {
    WeeklyRule(Bounds(Date(2024, 1, 1), None, 4, NumberOfOccurrences), OnEveryXWeeks,
      SelectedDays(false, false, true, false, true, false, false), 2)
  }

  /** The gaps the example's walk makes from Sunday, Tuesday and Thursday. */
  lemma ExampleGaps()
    ensures var sel := ExampleRule().selectedDays;
      SelGap(sel, 0) == 2 && SelGap(sel, 2) == 2 && SelGap(sel, 4) == 5 &&
      !Jumps(sel, 2, 0) && !Jumps(sel, 2, 2) && Jumps(sel, 2, 4)
  {
  }

  /**
   * The example's walk, on dates given by their day numbers: Sunday
   * 2023-12-31 to Tuesday 01-02, Thursday 01-04, then (a week skipped at the
   * Saturday) Tuesday 01-16 and Thursday 01-18.
   */
  lemma ExampleSteps(o: DateTime, d2: DateTime, d4: DateTime, d16: DateTime, d18: DateTime)
    requires DayOfWeek(o) == Dates.Sunday && DayOfWeek(d2) == Dates.Tuesday
    requires DayOfWeek(d4) == Dates.Thursday && DayOfWeek(d16) == Dates.Tuesday
    requires DayNumber(d2) == DayNumber(o) + 2 && DayNumber(d4) == DayNumber(d2) + 2
    requires DayNumber(d16) == DayNumber(d4) + 12 && DayNumber(d18) == DayNumber(d16) + 2
    ensures var sel := ExampleRule().selectedDays;
      NextSelectedDay(sel, 2, o) == d2 && NextSelectedDay(sel, 2, d2) == d4 &&
      NextSelectedDay(sel, 2, d4) == d16 && NextSelectedDay(sel, 2, d16) == d18
  {
    ExampleStep(o, d2, 0, 2);
    ExampleStep(d2, d4, 2, 2);
    ExampleStep(d4, d16, 4, 12);
    ExampleStep(d16, d18, 2, 2);
  }

  /** One step of the example's walk: from a Sunday or Tuesday two days on, from a Thursday twelve. */
  lemma ExampleStep(d: DateTime, target: DateTime, w: int, n: int)
    requires DayOfWeek(d) == w && (w, n) in {(0, 2), (2, 2), (4, 12)}
    requires DayNumber(target) == DayNumber(d) + n
    ensures NextSelectedDay(ExampleRule().selectedDays, 2, d) == target
  {
    ExampleGaps();
    NextStepIs(ExampleRule().selectedDays, 2, d, n, target);
  }

  lemma ExampleDayNumbers()
    ensures DayNumber(Date(2024, 1, 1)) == 738885
    ensures DayNumber(Date(2024, 1, 2)) == 738886 && DayNumber(Date(2024, 1, 4)) == 738888
    ensures DayNumber(Date(2024, 1, 16)) == 738900 && DayNumber(Date(2024, 1, 18)) == 738902
  {
    DaysBeforeYearClosedForm(2024);
  }

  /**
   * Tuesdays and Thursdays every other week from Monday 2024-01-01, four
   * times: the 2nd and 4th, then (the walk jumping a week at Saturday the
   * 6th) the 16th and 18th of January.
   */
  lemma EveryOtherWeekExample(rule: WeeklyRule, d2: DateTime, d4: DateTime, d16: DateTime, d18: DateTime)
    requires rule == ExampleRule()
    requires d2 == Date(2024, 1, 2) && d4 == Date(2024, 1, 4) && d16 == Date(2024, 1, 16) && d18 == Date(2024, 1, 18)
    ensures Generate(rule) == Ok([d2, d4, d16, d18])
  {
    ExampleGenerate(rule);
    ExampleWalk(rule, d2, d4, d16, d18);
  }

  /** The example counts four dates of its walk. */
  lemma ExampleGenerate(rule: WeeklyRule)
    requires rule == ExampleRule()
    ensures Generate(rule) == Ok(Walks.Take(Step(rule), Origin(rule), 4))
  {
  }

  /** The example's walk from the day before its start. */
  lemma ExampleWalk(rule: WeeklyRule, d2: DateTime, d4: DateTime, d16: DateTime, d18: DateTime)
    requires rule == ExampleRule()
    requires d2 == Date(2024, 1, 2) && d4 == Date(2024, 1, 4) && d16 == Date(2024, 1, 16) && d18 == Date(2024, 1, 18)
    ensures Walks.Take(Step(rule), Origin(rule), 4) == [d2, d4, d16, d18]
  {
    var f := Step(rule);
    var o := Origin(rule);
    ExampleNextDates(rule, d2, d4, d16, d18);
    ExampleStepIsNext(rule, o);
    ExampleStepIsNext(rule, d2);
    ExampleStepIsNext(rule, d4);
    ExampleStepIsNext(rule, d16);
    Walks.TakeOfChain(f, o, [d2, d4, d16, d18]);
  }

  lemma ExampleStepIsNext(rule: WeeklyRule, d: DateTime)
    requires rule == ExampleRule()
    ensures Step(rule)(d) == NextSelectedDay(ExampleRule().selectedDays, 2, d)
  {
  }

  lemma ExampleNextDates(rule: WeeklyRule, d2: DateTime, d4: DateTime, d16: DateTime, d18: DateTime)
    requires rule == ExampleRule()
    requires d2 == Date(2024, 1, 2) && d4 == Date(2024, 1, 4) && d16 == Date(2024, 1, 16) && d18 == Date(2024, 1, 18)
    ensures var sel := ExampleRule().selectedDays; var o := Origin(rule);
      NextSelectedDay(sel, 2, o) == d2 && NextSelectedDay(sel, 2, d2) == d4 &&
      NextSelectedDay(sel, 2, d4) == d16 && NextSelectedDay(sel, 2, d16) == d18
  {
    ExampleFacts(rule, d2, d4, d16, d18);
    ExampleWeekdays(Origin(rule), d2, d4, d16);
    ExampleSteps(Origin(rule), d2, d4, d16, d18);
  }

  /** The day numbers of the example's dates. */
  lemma ExampleFacts(rule: WeeklyRule, d2: DateTime, d4: DateTime, d16: DateTime, d18: DateTime)
    requires rule == ExampleRule()
    requires d2 == Date(2024, 1, 2) && d4 == Date(2024, 1, 4) && d16 == Date(2024, 1, 16) && d18 == Date(2024, 1, 18)
    ensures DayNumber(Origin(rule)) == 738884 && DayNumber(d2) == 738886 && DayNumber(d4) == 738888
    ensures DayNumber(d16) == 738900 && DayNumber(d18) == 738902
  {
    ExampleDayNumbers();
  }

  /** Their days of the week: Sunday, Tuesday, Thursday, Tuesday. */
  lemma ExampleWeekdays(o: DateTime, d2: DateTime, d4: DateTime, d16: DateTime)
    requires DayNumber(o) == 738884 && DayNumber(d2) == 738886 && DayNumber(d4) == 738888
    requires DayNumber(d16) == 738900
    ensures DayOfWeek(o) == Dates.Sunday && DayOfWeek(d2) == Dates.Tuesday
    ensures DayOfWeek(d4) == Dates.Thursday && DayOfWeek(d16) == Dates.Tuesday
  {
    WeekdayOfNumber(o, 105555, Dates.Sunday);
    WeekdayOfNumber(d2, 105555, Dates.Tuesday);
    WeekdayOfNumber(d4, 105555, Dates.Thursday);
    WeekdayOfNumber(d16, 105557, Dates.Tuesday);
  }

  /** One step of the walk: from d the next selected day is n days on, at target. */
  lemma NextStepIs(sel: SelectedDays, x: int, d: DateTime, n: int, target: DateTime)
    requires sel.Any()
    requires n == SelGap(sel, DayOfWeek(d)) + if Jumps(sel, x, DayOfWeek(d)) then 7 * (x - 1) else 0
    requires DayNumber(target) == DayNumber(d) + n
    ensures NextSelectedDay(sel, x, d) == target
    ensures StepOf(sel, x)(d) == target
  {
    NextSelectedDayDistance(sel, x, d);
    DayNumberInjective(NextSelectedDay(sel, x, d), target);
  }

  // ---------------------------------------------------------------------
  // The series-info token

  /** The widths the token's fields hold. */
  predicate Encodable(rule: WeeklyRule) {
    InYearRange(rule.bounds.startDate) &&
    (rule.bounds.endDate.Some? ==> InYearRange(rule.bounds.endDate.value)) &&
    0 <= rule.bounds.numberOfOccurrences <= 9999 &&
    !rule.regenType.NotSet? && !rule.bounds.endDateType.NotDefined? &&
    0 <= rule.regenEveryXWeeks <= 999
  }

  function YesNo(b: bool): char {
    if b then 'Y' else 'N'
  }

  /** The seven day flags, Sunday first, 'Y' for a selected day and 'N' for the others. */
  function DayFlags(sel: SelectedDays): (s: string)
    ensures |s| == 7
  {
    [YesNo(sel.sunday), YesNo(sel.monday), YesNo(sel.tuesday), YesNo(sel.wednesday),
     YesNo(sel.thursday), YesNo(sel.friday), YesNo(sel.saturday)]
  }

  /**
   * The day flags read back: a day is selected when its character is 'Y'.
   * Writing the flags again gives the same seven characters exactly when
   * each of them is 'Y' or 'N'.
   */
  function FlagsOf(s: string): (sel: SelectedDays)
    requires |s| == 7
    ensures DayFlags(sel) == s <==> forall i :: 0 <= i < 7 ==> s[i] == 'Y' || s[i] == 'N'
  {
    SelectedDays(s[0] == 'Y', s[1] == 'Y', s[2] == 'Y', s[3] == 'Y', s[4] == 'Y', s[5] == 'Y', s[6] == 'Y')
  }

  /**
   * GetSeriesInfo: 'W', start yyyyMMdd, end yyyyMMdd or "ZZZZZZZZ", count
   * (4), regeneration type (1), end type (1), the seven day flags, X (3).
   */
  function Encode(rule: WeeklyRule): (s: string)
    ensures |s| >= 1 && s[0] == 'W'
    ensures Encodable(rule) ==> |s| == 33
  {
    var b := rule.bounds;
    "W" + (FormatDate(b.startDate)
    + ((if b.endDate.Some? then FormatDate(b.endDate.value) else "ZZZZZZZZ")
    + CountOnwards(rule)))
  }

  /** The token from the count on: count (4), regeneration type (1), end type (1), day flags (7), X (3). */
  function CountOnwards(rule: WeeklyRule): (s: string)
    ensures Encodable(rule) ==> |s| == 16
  {
    FormatInt(rule.bounds.numberOfOccurrences, 4)
    + (FormatInt(rule.regenType.Code(), 1)
    + (FormatInt(rule.bounds.endDateType.Code(), 1)
    + (DayFlags(rule.selectedDays)
    + FormatInt(rule.regenEveryXWeeks, 3))))
  }

  /**
   * GetFriendlyRecurrenceInfo: None (null) unless the token starts with 'W';
   * MalformedSeriesInfo where Substring, int.Parse or the DateTime
   * constructor would throw. The day flags and X are kept for the
   * every-X-weeks kind only.
   */
  function Decode(s: string): (r: Result<Option<RecurrenceInfo>>)
    ensures r == Ok(None) <==> |s| == 0 || s[0] != 'W'
    ensures r.Ok? && r.value.Some? ==> r.value.value.recurrenceType == Weekly && r.value.value.seriesInfo == Some(s)
  {
    if |s| == 0 || s[0] != 'W' then Ok(None)
    else if |s| < 33 then Err(MalformedSeriesInfo)
    else
      match (ParseDate(s[1..9]), ParseInt(s[30..33]), ParseInt(s[22..23]), ParseInt(s[17..21]), ParseInt(s[21..22]))
      case (Some(start), Some(x), Some(endCode), Some(count), Some(regenCode)) =>
        (match (EndDateTypeOfCode(endCode), WeeklyRegenTypeOfCode(regenCode))
        case (Some(endType), Some(regenType)) =>
          var end := if endType == SpecificDate then ParseDate(s[9..17]) else Some(MinValue);
          if end.None? then Err(MalformedSeriesInfo)
          else
            var info := NewRecurrenceInfo().SetSeriesInfo(Some(s)).SetRecurrenceType(Weekly).SetEndDateType(endType);
            var info := match endType
              case NumberOfOccurrences => info.SetStartDate(start).SetNumberOfOccurrences(count)
              case SpecificDate => info.SetStartDate(start).SetEndDate(Some(end.value))
              case _ => info.SetStartDate(start);
            var info := info.SetWeeklyRegenType(regenType);
            Ok(Some(if regenType.OnEveryXWeeks? then info.SetSelectedDayOfWeekValues(FlagsOf(s[23..30])).SetRegenEveryXWeeks(x) else info))
        case _ => Err(MalformedSeriesInfo))
      case _ => Err(MalformedSeriesInfo)
  }

  /** The layout of a token made of the given fields, each at its fixed offset. */
  lemma TokenLayout(s: string, start: string, end: string, count: string, regen: string, endType: string,
                    flags: string, x: string)
    requires |start| == 8 && |end| == 8 && |count| == 4 && |regen| == 1 && |endType| == 1
    requires |flags| == 7 && |x| == 3
    requires s == "W" + (start + (end + (count + (regen + (endType + (flags + x))))))
    ensures s[1..9] == start && s[9..17] == end && s[17..21] == count && s[21..22] == regen &&
      s[22..23] == endType && s[23..30] == flags && s[30..33] == x
  {
    var r := flags + x;
    assert r[0..7] == flags && r[7..10] == x;
    var tail := count + (regen + (endType + r));
    Pieces(count, regen, endType, r);
    Pieces("W", start, end, tail);
    SliceOfSlice(s, 17, 33, 0, 4);
    SliceOfSlice(s, 17, 33, 4, 5);
    SliceOfSlice(s, 17, 33, 5, 6);
    SliceOfSlice(s, 17, 33, 6, 16);
    SliceOfSlice(s, 23, 33, 0, 7);
    SliceOfSlice(s, 23, 33, 7, 10);
  }

  /** Each field of the token sits at its fixed offset. */
  lemma EncodeFields(rule: WeeklyRule)
    requires Encodable(rule)
    ensures var s := Encode(rule); var b := rule.bounds;
      s[1..9] == FormatDate(b.startDate) &&
      (b.endDate.Some? ==> s[9..17] == FormatDate(b.endDate.value)) &&
      s[17..21] == FormatInt(b.numberOfOccurrences, 4) &&
      s[21..22] == FormatInt(rule.regenType.Code(), 1) &&
      s[22..23] == FormatInt(b.endDateType.Code(), 1) &&
      s[23..30] == DayFlags(rule.selectedDays) &&
      s[30..33] == FormatInt(rule.regenEveryXWeeks, 3)
  {
    var b := rule.bounds;
    assert |CountOnwards(rule)| == 16;
    TokenLayout(Encode(rule), FormatDate(b.startDate),
      if b.endDate.Some? then FormatDate(b.endDate.value) else "ZZZZZZZZ",
      FormatInt(b.numberOfOccurrences, 4), FormatInt(rule.regenType.Code(), 1),
      FormatInt(b.endDateType.Code(), 1), DayFlags(rule.selectedDays), FormatInt(rule.regenEveryXWeeks, 3));
  }

  /** The date fields of the token parse back to the dates they were written from. */
  lemma EncodeParsesDates(rule: WeeklyRule)
    requires Encodable(rule)
    ensures var s := Encode(rule); var b := rule.bounds;
      ParseDate(s[1..9]) == Some(b.startDate) &&
      (b.endDate.Some? ==> ParseDate(s[9..17]) == Some(b.endDate.value))
  {
    var b := rule.bounds;
    EncodeFields(rule);
    ParseFormatDate(b.startDate);
    if b.endDate.Some? {
      ParseFormatDate(b.endDate.value);
    }
  }

  /** The number and flag fields of the token read back to the values they were written from. */
  lemma EncodeParsesNumbers(rule: WeeklyRule)
    requires Encodable(rule)
    ensures var s := Encode(rule); var b := rule.bounds;
      ParseInt(s[17..21]) == Some(b.numberOfOccurrences) &&
      ParseInt(s[21..22]) == Some(rule.regenType.Code()) &&
      ParseInt(s[22..23]) == Some(b.endDateType.Code()) &&
      FlagsOf(s[23..30]) == rule.selectedDays &&
      ParseInt(s[30..33]) == Some(rule.regenEveryXWeeks)
  {
    var b := rule.bounds;
    EncodeFields(rule);
    ParseFormatInt(b.numberOfOccurrences, 4);
    ParseFormatInt(rule.regenType.Code(), 1);
    ParseFormatInt(b.endDateType.Code(), 1);
    ParseFormatInt(rule.regenEveryXWeeks, 3);
  }

  /**
   * What decoding a rule's token gives back: its start date, end type,
   * kind, days and interval, the count for a count rule and the end date
   * for an end-date rule.
   */
  predicate Recovered(info: RecurrenceInfo, rule: WeeklyRule) {
    info.startDate == rule.bounds.startDate &&
    info.endDateType == rule.bounds.endDateType &&
    info.weeklyRegenType == rule.regenType &&
    info.weeklySelectedDays == rule.selectedDays &&
    info.weeklyRegenEveryXWeeks == rule.regenEveryXWeeks &&
    (rule.bounds.endDateType == NumberOfOccurrences ==> info.numberOfOccurrences == rule.bounds.numberOfOccurrences) &&
    (rule.bounds.endDateType == SpecificDate ==> info.endDate == rule.bounds.endDate)
  }

  /** A token whose fields read back to a rule's values decodes to that rule. */
  lemma DecodeFields(s: string, rule: WeeklyRule) returns (info: RecurrenceInfo)
    requires |s| >= 33 && s[0] == 'W'
    requires rule.regenType.OnEveryXWeeks? && !rule.bounds.endDateType.NotDefined?
    requires rule.bounds.endDateType == SpecificDate ==> rule.bounds.endDate.Some?
    requires ParseDate(s[1..9]) == Some(rule.bounds.startDate)
    requires rule.bounds.endDate.Some? ==> ParseDate(s[9..17]) == Some(rule.bounds.endDate.value)
    requires ParseInt(s[17..21]) == Some(rule.bounds.numberOfOccurrences)
    requires ParseInt(s[21..22]) == Some(rule.regenType.Code())
    requires ParseInt(s[22..23]) == Some(rule.bounds.endDateType.Code())
    requires FlagsOf(s[23..30]) == rule.selectedDays
    requires ParseInt(s[30..33]) == Some(rule.regenEveryXWeeks)
    ensures Decode(s) == Ok(Some(info)) && Recovered(info, rule)
  {
    info := Decode(s).value.value;
  }

  /** Decoding a rule's token gives back the rule. */
  lemma DecodeEncode(rule: WeeklyRule) returns (info: RecurrenceInfo)
    requires Encodable(rule)
    requires rule.bounds.endDateType == SpecificDate ==> rule.bounds.endDate.Some?
    ensures Decode(Encode(rule)) == Ok(Some(info)) && Recovered(info, rule)
  {
    EncodeParsesDates(rule);
    EncodeParsesNumbers(rule);
    info := DecodeFields(Encode(rule), rule);
  }

  // ---------------------------------------------------------------------
  // Rebuilding a rule from a token

  /** No day selected: the days a generator starts with. */
  const NoDays := SelectedDays(false, false, false, false, false, false, false)

  /**
   * The rule of the settings object GetRecurrenceSettings builds from a
   * decoded (and overridden) token: the constructor its end type picks and
   * SetValues for an every-X-weeks rule; None where it is left null.
   */
  function RuleOfInfo(info: RecurrenceInfo, start: DateTime): Result<Option<WeeklyRule>> {
    if info.endDateType == SpecificDate && info.endDate.None? then Err(NullReference)
    else if info.endDateType == NotDefined then
      (if info.weeklyRegenType.OnEveryXWeeks? then Err(NullReference) else Ok(None))
    else
      var bounds := match info.endDateType
        case NumberOfOccurrences => Bounds(start, None, info.numberOfOccurrences, NumberOfOccurrences)
        case SpecificDate => Bounds(start, info.endDate, 0, SpecificDate)
        case _ => Bounds(start, None, 0, NoEndDate);
      Ok(Some(
        if info.weeklyRegenType.OnEveryXWeeks? then
          WeeklyRule(bounds, OnEveryXWeeks, info.weeklySelectedDays, info.weeklyRegenEveryXWeeks)
        else WeeklyRule(bounds, OnEveryXWeeks, NoDays, 0)))
  }

  /**
   * GetRecurrenceSettings: the rule rebuilt from a token with the count
   * override (-1 for none) and the end-date override (DateTime.MinValue for
   * none). `modifiedStart` None takes the token's own start date.
   */
  function Rebuild(seriesInfo: string, modifiedOccurrences: int, modifiedStart: Option<DateTime>, modifiedEnd: DateTime): Result<Option<WeeklyRule>>
  {
    match Decode(seriesInfo)
    case Err(e) => Err(e)
    case Ok(None) => Err(NullReference)
    case Ok(Some(decoded)) =>
      RuleOfInfo(ApplyOverrides(decoded, modifiedOccurrences, modifiedEnd),
        if modifiedStart.Some? then modifiedStart.value else decoded.startDate)
  }

  /**
   * What rebuilding from a rule's token gives: a rule of the same kind with
   * the same days and interval, from the given or the original start date,
   * with the end condition the overrides ask for or else the original one.
   */
  predicate Restored(rebuilt: WeeklyRule, rule: WeeklyRule, modifiedOccurrences: int, modifiedStart: Option<DateTime>, modifiedEnd: DateTime) {
    rebuilt.regenType == rule.regenType && rebuilt.selectedDays == rule.selectedDays &&
    rebuilt.regenEveryXWeeks == rule.regenEveryXWeeks &&
    rebuilt.bounds.startDate == (if modifiedStart.Some? then modifiedStart.value else rule.bounds.startDate) &&
    (modifiedEnd != MinValue ==>
      rebuilt.bounds.endDateType == SpecificDate && rebuilt.bounds.endDate == Some(modifiedEnd)) &&
    (modifiedEnd == MinValue && modifiedOccurrences != -1 ==>
      rebuilt.bounds.endDateType == NumberOfOccurrences && rebuilt.bounds.numberOfOccurrences == modifiedOccurrences) &&
    (modifiedEnd == MinValue && modifiedOccurrences == -1 ==>
      rebuilt.bounds.endDateType == rule.bounds.endDateType &&
      (rebuilt.bounds.endDateType == NumberOfOccurrences ==> rebuilt.bounds.numberOfOccurrences == rule.bounds.numberOfOccurrences) &&
      (rebuilt.bounds.endDateType == SpecificDate ==> rebuilt.bounds.endDate == rule.bounds.endDate))
  }

  /** The rule built from a decoded token with the overrides applied is restored. */
  lemma RebuildInfo(info: RecurrenceInfo, rule: WeeklyRule, modifiedOccurrences: int, modifiedStart: Option<DateTime>, modifiedEnd: DateTime)
    returns (rebuilt: WeeklyRule)
    requires Recovered(info, rule) && rule.bounds.Complete() && !rule.bounds.endDateType.NotDefined?
    requires rule.regenType.OnEveryXWeeks?
    ensures RuleOfInfo(ApplyOverrides(info, modifiedOccurrences, modifiedEnd),
      if modifiedStart.Some? then modifiedStart.value else info.startDate) == Ok(Some(rebuilt))
    ensures Restored(rebuilt, rule, modifiedOccurrences, modifiedStart, modifiedEnd)
  {
    var overridden := ApplyOverrides(info, modifiedOccurrences, modifiedEnd);
    rebuilt := RuleOfInfo(overridden, if modifiedStart.Some? then modifiedStart.value else info.startDate).value.value;
  }

  /**
   * Rebuilding from a rule's own token, with or without overrides, gives
   * the restored rule.
   */
  lemma RebuildEncode(rule: WeeklyRule, modifiedOccurrences: int, modifiedStart: Option<DateTime>, modifiedEnd: DateTime)
    returns (rebuilt: WeeklyRule)
    requires Encodable(rule) && rule.bounds.Complete()
    ensures Rebuild(Encode(rule), modifiedOccurrences, modifiedStart, modifiedEnd) == Ok(Some(rebuilt))
    ensures Restored(rebuilt, rule, modifiedOccurrences, modifiedStart, modifiedEnd)
  {
    var info := DecodeEncode(rule);
    rebuilt := RebuildInfo(info, rule, modifiedOccurrences, modifiedStart, modifiedEnd);
  }

  /**
   * The series-info token reproduces its series: the rule rebuilt from a
   * rule's token without overrides is the rule itself, so it generates the
   * same dates and finds the same next dates.
   */
  lemma TokenReproduces(rule: WeeklyRule)
    requires Encodable(rule) && rule.bounds.Complete()
    requires rule.bounds.Canonical()
    ensures Rebuild(Encode(rule), -1, None, MinValue) == Ok(Some(rule))
  {
    var rebuilt := RebuildEncode(rule, -1, None, MinValue);
  }

  // ---------------------------------------------------------------------
  // The generator

  /**
   * What GetRecurrenceValues hands back: the dates of the run, the first as
   * start date, the last as end date unless the rule has no end date, and
   * the rule's token; or the exception the run throws.
   */
  predicate Delivered(r: Result<RecurrenceValues>, rule: WeeklyRule, nextDateMode: bool, reference: DateTime)
    requires CanRun(rule, nextDateMode)
    reads if r.Ok? then {r.value} else {}
  {
    match Outcome(rule, nextDateMode, reference)
    case Err(e) => r == Err(e)
    case Ok(s) =>
      r.Ok? && r.value.values == s &&
      r.value.startDate == (if |s| > 0 then s[0] else MinValue) &&
      r.value.endDate == (if |s| > 0 && rule.bounds.endDateType != NoEndDate then s[|s| - 1] else MinValue) &&
      r.value.seriesInfo == Some(Encode(rule))
  }

  /** The dates of a run before the summary is set: a fresh list, or the exception. */
  predicate Collected(r: Result<RecurrenceValues>, rule: WeeklyRule, nextDateMode: bool, reference: DateTime)
    requires CanRun(rule, nextDateMode)
    reads if r.Ok? then {r.value} else {}
  {
    match Outcome(rule, nextDateMode, reference)
    case Err(e) => r == Err(e)
    case Ok(s) =>
      r.Ok? && r.value.values == s &&
      r.value.startDate == MinValue && r.value.endDate == MinValue && r.value.seriesInfo == None
  }

  class WeeklyRecurrenceSettings {
    /** The end condition (the RecurrenceSettings base object). */
    const base: RecurrenceSettings
    var regenType: WeeklyRegenType
    var selectedDays: SelectedDays
    var regenEveryXWeeks: int
    var getNextDateValue: bool
    var nextDateValue: DateTime

    /** The state a constructor leaves: every X weeks, no day selected, X = 0, bulk mode. */
    predicate Initial()
      reads this
    {
      regenType == OnEveryXWeeks && selectedDays == NoDays && regenEveryXWeeks == 0 &&
      !getNextDateValue && nextDateValue == MinValue
    }

    constructor FromStart(start: DateTime)
      ensures fresh(base) && base.Value() == Bounds(start, None, 0, NoEndDate) && Initial()
    {
      base := new RecurrenceSettings.FromStart(start);
      regenType := OnEveryXWeeks;
      selectedDays := NoDays;
      regenEveryXWeeks := 0;
      getNextDateValue := false;
      nextDateValue := MinValue;
    }

    constructor FromStartAndEnd(start: DateTime, end: DateTime)
      ensures fresh(base) && base.Value() == Bounds(start, Some(end), 0, SpecificDate) && Initial()
    {
      base := new RecurrenceSettings.FromStartAndEnd(start, end);
      regenType := OnEveryXWeeks;
      selectedDays := NoDays;
      regenEveryXWeeks := 0;
      getNextDateValue := false;
      nextDateValue := MinValue;
    }

    constructor FromStartAndCount(start: DateTime, count: int)
      ensures fresh(base) && base.Value() == Bounds(start, None, count, NumberOfOccurrences) && Initial()
    {
      base := new RecurrenceSettings.FromStartAndCount(start, count);
      regenType := OnEveryXWeeks;
      selectedDays := NoDays;
      regenEveryXWeeks := 0;
      getNextDateValue := false;
      nextDateValue := MinValue;
    }

    /** The rule the object holds. */
    function Rule(): WeeklyRule
      reads this`regenType, this`selectedDays, this`regenEveryXWeeks, base
    {
      WeeklyRule(base.Value(), regenType, selectedDays, regenEveryXWeeks)
    }

    /** SetValues: every X weeks on the given days. */
    method SetValues(x: int, days: SelectedDays)
      modifies this`regenEveryXWeeks, this`regenType, this`selectedDays
      ensures regenEveryXWeeks == x && regenType == OnEveryXWeeks && selectedDays == days
    {
      regenEveryXWeeks := x;
      regenType := OnEveryXWeeks;
      selectedDays := days;
    }

    /**
     * GetNextDay: step a day at a time until the day's weekday is selected;
     * at an unselected Saturday with X above 1, jump X - 1 weeks.
     */
    method GetNextDay(input: DateTime) returns (r: DateTime)
      requires selectedDays.Any()
      ensures r == StepOf(selectedDays, regenEveryXWeeks)(input)
    {
      var sel, x := selectedDays, regenEveryXWeeks;
      var d := input;
      while true
        invariant NextSelectedDay(sel, x, d) == NextSelectedDay(sel, x, input)
        decreases SelGap(sel, DayOfWeek(d))
      {
        var next := AddDays(d, 1);
        if sel.IsSelected(DayOfWeek(next)) {
          r := next;
          break;
        }
        if DayOfWeek(next) == Dates.Saturday && x > 1 {
          next := AddDays(next, (x - 1) * 7);
        }
        assert next == SkipFrom(x, d);
        SkipFromSpec(sel, x, d);
        d := next;
      }
      assert StepOf(sel, x)(input) == NextSelectedDay(sel, x, input);
    }

    /**
     * The next-date do-while loop: step, add, stop once the date is after
     * the reference date, and go on while it is within X + 1 weeks of it.
     */
    method CollectNext() returns (values: RecurrenceValues)
      requires selectedDays.Any()
      ensures fresh(values)
      ensures values.values == NextRun(Rule(), nextDateValue)
      ensures values.startDate == MinValue && values.endDate == MinValue && values.seriesInfo == None
    {
      var rule := Rule();
      StepAdvances(rule);
      values := ProbeLoop(Step(rule), AddDays(base.startDate, -1), nextDateValue, AddDays(nextDateValue, (regenEveryXWeeks * 7) + 7));
    }

    /** The loop of CollectNext from `first`, with its limit `bound`, stepping with GetNextDay. */
    method ProbeLoop(ghost f: DateTime -> DateTime, first: DateTime, reference: DateTime, bound: DateTime) returns (values: RecurrenceValues)
      requires selectedDays.Any() && f == StepOf(selectedDays, regenEveryXWeeks) && Walks.Advancing(f)
      ensures fresh(values)
      ensures values.values == Walks.Probe(f, first, reference, bound)
      ensures values.startDate == MinValue && values.endDate == MinValue && values.seriesInfo == None
    {
      values := new RecurrenceValues();
      var dt := first;
      while true
        invariant values.values + Walks.Probe(f, dt, reference, bound) == Walks.Probe(f, first, reference, bound)
        invariant values.startDate == MinValue && values.endDate == MinValue && values.seriesInfo == None
        decreases DayNumber(reference) - DayNumber(dt)
      {
        Walks.ProbeAppend(f, values.values, dt, reference, bound, Walks.Probe(f, first, reference, bound));
        dt := GetNextDay(dt);
        values.AddDateValue(dt);
        if Before(reference, values.values[|values.values| - 1]) {
          break;
        }
        if !AtMost(dt, bound) {
          break;
        }
      }
    }

    /** The NumberOfOccurrences loop: NumberOfOccurrences steps, each date added. */
    method CollectCount() returns (values: RecurrenceValues)
      requires selectedDays.Any() || base.numberOfOccurrences <= 0
      ensures fresh(values)
      ensures values.values == Walks.Take(Step(Rule()), Origin(Rule()), if base.numberOfOccurrences > 0 then base.numberOfOccurrences else 0)
      ensures values.startDate == MinValue && values.endDate == MinValue && values.seriesInfo == None
    {
      var f, first := Step(Rule()), Origin(Rule());
      values := new RecurrenceValues();
      var dt := AddDays(base.startDate, -1);
      var i := 0;
      while i < base.numberOfOccurrences
        invariant 0 <= i && (i <= base.numberOfOccurrences || i == 0)
        invariant values.values == Walks.Take(f, first, i) && dt == Walks.Nth(f, first, i)
        invariant values.startDate == MinValue && values.endDate == MinValue && values.seriesInfo == None
      {
        dt := GetNextDay(dt);
        values.AddDateValue(dt);
        i := i + 1;
      }
    }

    /** The SpecificDate do-while loop: step, stop past EndDate, add, go on while on or before EndDate. */
    method CollectUntil() returns (values: RecurrenceValues)
      requires selectedDays.Any()
      ensures fresh(values)
      ensures values.values == (StepAdvances(Rule()); Walks.Until(Step(Rule()), Origin(Rule()), base.endDate))
      ensures values.startDate == MinValue && values.endDate == MinValue && values.seriesInfo == None
    {
      var rule := Rule();
      StepAdvances(rule);
      var f, first := Step(rule), Origin(rule);
      values := new RecurrenceValues();
      var dt := AddDays(base.startDate, -1);
      while true
        invariant values.values + Walks.Until(f, dt, base.endDate) == Walks.Until(f, first, base.endDate)
        invariant values.startDate == MinValue && values.endDate == MinValue && values.seriesInfo == None
        decreases DaysLeft(dt, base.endDate)
      {
        Walks.UntilAppend(f, values.values, dt, base.endDate, Walks.Until(f, first, base.endDate));
        dt := GetNextDay(dt);
        if base.endDate.Some? && Before(base.endDate.value, dt) {
          break;
        }
        values.AddDateValue(dt);
        if !OnOrBefore(dt, base.endDate) {
          break;
        }
      }
    }

    /** GetEveryXWeeksValues: the next-date run, or the bulk run of the end type. */
    method GetEveryXWeeksValues() returns (r: Result<RecurrenceValues>)
      requires regenType.OnEveryXWeeks? && CanRun(Rule(), getNextDateValue)
      ensures Collected(r, Rule(), getNextDateValue, nextDateValue)
      ensures r.Ok? ==> fresh(r.value)
    {
      if getNextDateValue {
        var values := CollectNext();
        r := Ok(values);
      } else if base.endDateType == NoEndDate {
        r := Err(NoEndDateUnsupported);
      } else if base.endDateType == NumberOfOccurrences {
        var values := CollectCount();
        r := Ok(values);
      } else if base.endDateType == SpecificDate {
        var values := CollectUntil();
        r := Ok(values);
      } else {
        r := Err(EndDateTypeNotSet);
      }
    }

    /**
     * GetRecurrenceValues: run the generator; a list gets its start date,
     * its end date (unless there is no end date) and the token. An unset
     * kind leaves the list null, which the summary then dereferences.
     */
    method GetRecurrenceValues() returns (r: Result<RecurrenceValues>)
      requires CanRun(Rule(), getNextDateValue)
      ensures Delivered(r, Rule(), getNextDateValue, nextDateValue)
      ensures r.Ok? ==> fresh(r.value)
    {
      r := RunGenerator();
      if r.Ok? {
        SetSummary(r.value);
      }
    }

    /** The switch on the regeneration type at the head of GetRecurrenceValues. */
    method RunGenerator() returns (r: Result<RecurrenceValues>)
      requires CanRun(Rule(), getNextDateValue)
      ensures Collected(r, Rule(), getNextDateValue, nextDateValue)
      ensures r.Ok? ==> fresh(r.value)
    {
      if regenType.OnEveryXWeeks? {
        r := GetEveryXWeeksValues();
      } else {
        r := Err(NullReference);
      }
    }

    /** The tail of GetRecurrenceValues: the first and last dates and the token. */
    method SetSummary(values: RecurrenceValues)
      modifies values`startDate, values`endDate, values`seriesInfo
      ensures |values.values| > 0 ==> values.startDate == values.values[0]
      ensures |values.values| == 0 ==> values.startDate == old(values.startDate)
      ensures |values.values| > 0 && base.endDateType != NoEndDate ==> values.endDate == values.values[|values.values| - 1]
      ensures |values.values| == 0 || base.endDateType == NoEndDate ==> values.endDate == old(values.endDate)
      ensures values.seriesInfo == Some(Encode(Rule()))
    {
      var token := Encode(Rule());
      if |values.values| > 0 {
        values.SetStartDate(values.values[0]);
        if base.endDateType != NoEndDate {
          values.SetEndDate(values.values[|values.values| - 1]);
        }
      }
      assert Rule() == old(Rule());
      values.SetSeriesInfo(token);
    }

    /** GetValues(): the run for the rule as it stands. */
    method GetValues() returns (r: Result<RecurrenceValues>)
      requires CanRun(Rule(), getNextDateValue)
      ensures Delivered(r, Rule(), getNextDateValue, nextDateValue)
      ensures r.Ok? ==> fresh(r.value)
    {
      r := GetRecurrenceValues();
    }

    /** GetValues(regenEveryXWeeks, selectedDays): every X weeks on the given days. */
    method GetValuesEvery(x: int, days: SelectedDays) returns (r: Result<RecurrenceValues>)
      requires CanRun(Rule().(regenType := OnEveryXWeeks, selectedDays := days, regenEveryXWeeks := x), getNextDateValue)
      modifies this`regenEveryXWeeks, this`regenType, this`selectedDays
      ensures regenType == OnEveryXWeeks && selectedDays == days && regenEveryXWeeks == x
      ensures Delivered(r, Rule(), getNextDateValue, nextDateValue)
      ensures r.Ok? ==> fresh(r.value)
    {
      SetValues(x, days);
      r := GetValues();
    }

    /** GetValues(startDate, endDate): the same rule, run from startDate up to endDate. */
    method GetValuesBetween(start: DateTime, end: DateTime) returns (r: Result<RecurrenceValues>)
      requires CanRun(Rule().(bounds := base.Value().(startDate := start, endDate := Some(end), endDateType := SpecificDate)), getNextDateValue)
      modifies base
      ensures base.Value() == old(base.Value()).(startDate := start, endDate := Some(end), endDateType := SpecificDate)
      ensures Delivered(r, Rule(), getNextDateValue, nextDateValue)
      ensures r.Ok? ==> fresh(r.value)
    {
      base.SetStartDate(start);
      base.SetEndDate(Some(end));
      base.SetTypeOfEndDate(SpecificDate);
      r := GetRecurrenceValues();
    }

    /** GetValues(startDate, numberOfOccurrences): the same rule, run from startDate for a number of dates. */
    method GetValuesFrom(start: DateTime, count: int) returns (r: Result<RecurrenceValues>)
      requires CanRun(Rule().(bounds := base.Value().(startDate := start, numberOfOccurrences := count, endDateType := NumberOfOccurrences)), getNextDateValue)
      modifies base
      ensures base.Value() == old(base.Value()).(startDate := start, numberOfOccurrences := count, endDateType := NumberOfOccurrences)
      ensures Delivered(r, Rule(), getNextDateValue, nextDateValue)
      ensures r.Ok? ==> fresh(r.value)
    {
      base.SetNumberOfOccurrences(count);
      base.SetStartDate(start);
      base.SetTypeOfEndDate(NumberOfOccurrences);
      r := GetRecurrenceValues();
    }

    /**
     * GetNextDate: switch to next-date mode, run, and answer the run's end
     * date (DateTime.MinValue for a rule with no end date).
     */
    method GetNextDate(currentDate: DateTime) returns (r: Result<DateTime>)
      requires CanRun(Rule(), true)
      modifies this`getNextDateValue, this`nextDateValue
      ensures getNextDateValue && nextDateValue == currentDate
      ensures r == NextDate(Rule(), currentDate)
    {
      getNextDateValue := true;
      nextDateValue := currentDate;
      var values := GetValues();
      if values.Err? {
        return Err(values.error);
      }
      r := Ok(values.value.endDate);
    }

    /**
     * The tail of GetRecurrenceSettings: the constructor the end type picks
     * (none for an unset end type), then SetValues for an every-X-weeks
     * kind, which dereferences the object the constructor left null.
     */
    static method FromInfo(info: RecurrenceInfo, start: DateTime) returns (r: Result<WeeklyRecurrenceSettings?>)
      ensures RuleOfInfo(info, start).Err? ==> r == Err(RuleOfInfo(info, start).error)
      ensures RuleOfInfo(info, start).Ok? ==> r.Ok? && (r.value == null <==> RuleOfInfo(info, start).value.None?)
      ensures r.Ok? && r.value != null ==>
        fresh(r.value) && fresh(r.value.base) && RuleOfInfo(info, start) == Ok(Some(r.value.Rule())) &&
        !r.value.getNextDateValue && r.value.nextDateValue == MinValue
    {
      var settings: WeeklyRecurrenceSettings? := null;
      if info.endDateType == NumberOfOccurrences {
        settings := new WeeklyRecurrenceSettings.FromStartAndCount(start, info.numberOfOccurrences);
      } else if info.endDateType == SpecificDate {
        if info.endDate.None? {
          return Err(NullReference);
        }
        settings := new WeeklyRecurrenceSettings.FromStartAndEnd(start, info.endDate.value);
      } else if info.endDateType == NoEndDate {
        settings := new WeeklyRecurrenceSettings.FromStart(start);
      }
      if info.weeklyRegenType.OnEveryXWeeks? {
        if settings == null {
          return Err(NullReference);
        }
        settings.SetValues(info.weeklyRegenEveryXWeeks, info.weeklySelectedDays);
      }
      r := Ok(settings);
    }

    /**
     * GetRecurrenceSettings: a generator rebuilt from a token, with the
     * overrides of the public overloads (count -1 and end date
     * DateTime.MinValue for none; start None for the token's own).
     */
    static method GetRecurrenceSettings(seriesInfo: string, modifiedOccurrences: int, modifiedStart: Option<DateTime>, modifiedEnd: DateTime)
      returns (r: Result<WeeklyRecurrenceSettings?>)
      ensures var expected := Rebuild(seriesInfo, modifiedOccurrences, modifiedStart, modifiedEnd);
        (expected.Err? ==> r == Err(expected.error)) &&
        (expected.Ok? ==> r.Ok? && (r.value == null <==> expected.value.None?))
      ensures r.Ok? && r.value != null ==>
        fresh(r.value) && fresh(r.value.base) &&
        Rebuild(seriesInfo, modifiedOccurrences, modifiedStart, modifiedEnd) == Ok(Some(r.value.Rule())) &&
        !r.value.getNextDateValue && r.value.nextDateValue == MinValue
    {
      var decoded := Decode(seriesInfo);
      if decoded.Err? {
        return Err(decoded.error);
      }
      if decoded.value.None? {
        return Err(NullReference);
      }
      var info := ApplyOverrides(decoded.value.value, modifiedOccurrences, modifiedEnd);
      var start := if modifiedStart.Some? then modifiedStart.value else decoded.value.value.startDate;
      assert Rebuild(seriesInfo, modifiedOccurrences, modifiedStart, modifiedEnd) == RuleOfInfo(info, start);
      r := FromInfo(info, start);
    }
  }
}
