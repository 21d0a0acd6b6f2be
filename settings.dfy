/**
 * RecurrenceSettings: the end condition every generator shares — a start
 * date, an optional end date, an occurrence count and the EndDateType tag
 * that says which of them ends the series.
 */
module Settings {
  import opened Results
  import opened Dates
  import opened Kinds

  /** The value held by a RecurrenceSettings object. */
  datatype Bounds = Bounds(
    startDate: DateTime,
    endDate: Option<DateTime>,
    numberOfOccurrences: int,
    endDateType: EndDateType)
  {
    /** The state the generators can run in: an end-date rule has its end date. */
    predicate Complete() {
      endDateType == SpecificDate ==> endDate.Some?
    }

    /**
     * The form a constructor leaves: only the field its end type reads is
     * set, the others hold null and 0.
     */
    predicate Canonical() {
      (endDateType == NumberOfOccurrences ==> endDate.None?) &&
      (endDateType == SpecificDate ==> numberOfOccurrences == 0) &&
      (endDateType == NoEndDate ==> endDate.None? && numberOfOccurrences == 0)
    }
  }

  /** `dt <= EndDate` on a nullable end date: false when there is none. */
  predicate OnOrBefore(d: DateTime, end: Option<DateTime>) {
    end.Some? && AtMost(d, end.value)
  }

  /** How far d is from the end date, the measure of the SpecificDate loop. */
  function DaysLeft(d: DateTime, end: Option<DateTime>): int {
    if end.Some? then DayNumber(end.value) - DayNumber(d) else 0
  }

  class RecurrenceSettings {
    var startDate: DateTime
    var endDate: Option<DateTime>
    var numberOfOccurrences: int
    var endDateType: EndDateType

    /** A series with no end date. */
    constructor FromStart(start: DateTime)
      ensures Value() == Bounds(start, None, 0, NoEndDate)
      ensures !HasEndDate()
    {
      startDate := start;
      endDate := None;
      numberOfOccurrences := 0;
      endDateType := NoEndDate;
    }

    /** A series that ends on an end date. */
    constructor FromStartAndEnd(start: DateTime, end: DateTime)
      ensures Value() == Bounds(start, Some(end), 0, SpecificDate)
      ensures HasEndDate()
    {
      startDate := start;
      endDate := Some(end);
      numberOfOccurrences := 0;
      endDateType := SpecificDate;
    }

    /** A series that ends after a number of occurrences. */
    constructor FromStartAndCount(start: DateTime, count: int)
      ensures Value() == Bounds(start, None, count, NumberOfOccurrences)
      ensures !HasEndDate()
    {
      startDate := start;
      endDate := None;
      numberOfOccurrences := count;
      endDateType := NumberOfOccurrences;
    }

    function Value(): Bounds
      reads this
    {
      Bounds(startDate, endDate, numberOfOccurrences, endDateType)
    }

    predicate HasEndDate()
      reads this
    {
      endDate.Some?
    }

    method SetTypeOfEndDate(t: EndDateType)
      modifies this
      ensures Value() == old(Value()).(endDateType := t)
    {
      endDateType := t;
    }

    method SetNumberOfOccurrences(n: int)
      modifies this
      ensures Value() == old(Value()).(numberOfOccurrences := n)
    {
      numberOfOccurrences := n;
    }

    /** The EndDate setter; None is the source's null. */
    method SetEndDate(d: Option<DateTime>)
      modifies this
      ensures Value() == old(Value()).(endDate := d)
      ensures HasEndDate() <==> d.Some?
    {
      endDate := d;
    }

    method SetStartDate(d: DateTime)
      modifies this
      ensures Value() == old(Value()).(startDate := d)
    {
      startDate := d;
    }
  }
}
