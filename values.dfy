/**
 * RecurrenceValues: the generated dates, in order of generation, with the
 * series' first and last date and its series-info token.
 */
module Values {
  import opened Results
  import opened Dates

  class RecurrenceValues {
    var values: seq<DateTime>
    var startDate: DateTime
    var endDate: DateTime
    /** The token; None until SetSeriesInfo is called (the source's null). */
    var seriesInfo: Option<string>

    constructor()
      ensures values == []
      ensures startDate == MinValue && endDate == MinValue && seriesInfo == None
    {
      values := [];
      startDate := MinValue;
      endDate := MinValue;
      seriesInfo := None;
    }

    /** The final date, or DateTime.MaxValue when nothing was generated. */
    function LastDate(): (d: DateTime)
      reads this
      ensures |values| > 0 ==> d == values[|values| - 1]
      ensures |values| == 0 ==> d == MaxValue
    {
      if |values| > 0 then values[|values| - 1] else MaxValue
    }

    method AddDateValue(d: DateTime)
      modifies this`values
      ensures values == old(values) + [d]
      ensures LastDate() == d
    {
      values := values + [d];
    }

    /** Appends the date moved by `adjustment` days (which may be negative). */
    method AddAdjustedDateValue(d: DateTime, adjustment: int)
      modifies this`values
      ensures values == old(values) + [AddDays(d, adjustment)]
      ensures DayNumber(LastDate()) == DayNumber(d) + adjustment
    {
      values := values + [AddDays(d, adjustment)];
    }

    method SetStartDate(d: DateTime)
      modifies this`startDate
      ensures startDate == d
    {
      startDate := d;
    }

    method SetEndDate(d: DateTime)
      modifies this`endDate
      ensures endDate == d
    {
      endDate := d;
    }

    method SetSeriesInfo(s: string)
      modifies this`seriesInfo
      ensures GetSeriesInfo() == Some(s)
    {
      seriesInfo := Some(s);
    }

    function GetSeriesInfo(): Option<string>
      reads this
    {
      seriesInfo
    }
  }
}
