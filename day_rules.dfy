/**
 * Day rules shared by the monthly and yearly generators, which each carry
 * an identical copy of them:
 *   - GetCorrectedDate, which puts a fixed-day anchor back on its target
 *     day after AddMonths/AddYears clipped it to a shorter month;
 *   - the custom ("logical") date of a month, such as the second Tuesday or
 *     the last weekend day, found by walking the month's days
 *     (GetCustomDate and GetCustomWeekday).
 */
module DayRules {
  import opened Dates
  import opened Kinds

  function Max(a: int, b: int): int {
    if a >= b then a else b
  }

  /**
   * GetCorrectedDate: within the same month, the day moves up to the target
   * day, or to the month's last day when the month is shorter; a day already
   * at or past the target is left alone.
   */
  function CorrectedDate(d: DateTime, target: int): (r: DateTime)
    ensures r.year == d.year && r.month == d.month
    ensures r.day == Max(d.day, Min(target, DaysInMonth(d.year, d.month)))
  {
    var dim := DaysInMonth(d.year, d.month);
    if d.day < target && dim > d.day then
      if target > dim then Date(d.year, d.month, dim) else Date(d.year, d.month, target)
    else d
  }

  /**
   * An anchor that AddMonths/AddYears clipped (its day is at most the target
   * and the month's length) is corrected to exactly min(target, month length).
   */
  lemma CorrectedDateClamps(d: DateTime, target: int)
    requires d.day <= target
    ensures CorrectedDate(d, target).day == Min(target, DaysInMonth(d.year, d.month))
  {
  }

  // ---------------------------------------------------------------------
  // Custom dates

  /** The days a DatePartTwo value counts; Day counts every day. */
  predicate Matches(two: DatePartTwo, d: DateTime) {
    match two
    case NotSet => false
    case Day => true
    case Weekday => !IsWeekend(d)
    case WeekendDay => IsWeekend(d)
    case _ => DayOfWeek(d) == two.Code() - 3   // Sunday (3) .. Saturday (9)
  }

  /** The month as flags: entry i says whether day i + 1 matches (HitsAt). */
  function Hits(y: int, m: int, two: DatePartTwo): (h: seq<bool>)
    requires 1 <= m <= 12
    ensures |h| == DaysInMonth(y, m)
  {
    HitsUpTo(y, m, two, DaysInMonth(y, m))
  }

  /** The flags of days 1..n. */
  function HitsUpTo(y: int, m: int, two: DatePartTwo, n: int): (h: seq<bool>)
    requires 1 <= m <= 12 && 0 <= n <= DaysInMonth(y, m)
    ensures |h| == n
  {
    if n == 0 then [] else HitsUpTo(y, m, two, n - 1) + [Matches(two, Date(y, m, n))]
  }

  lemma {:induction false} HitsUpToAt(y: int, m: int, two: DatePartTwo, n: int, i: int)
    requires 1 <= m <= 12 && 0 <= i < n <= DaysInMonth(y, m)
    ensures HitsUpTo(y, m, two, n)[i] == Matches(two, Date(y, m, i + 1))
  {
    if i < n - 1 {
      HitsUpToAt(y, m, two, n - 1, i);
    }
  }

  lemma HitsAt(y: int, m: int, two: DatePartTwo, i: int)
    requires 1 <= m <= 12 && 0 <= i < DaysInMonth(y, m)
    ensures Hits(y, m, two)[i] == Matches(two, Date(y, m, i + 1))
  {
    HitsUpToAt(y, m, two, DaysInMonth(y, m), i);
  }

  /** The number of set flags among the first n. */
  function Count(h: seq<bool>, n: int): (c: int)
    requires 0 <= n <= |h|
    ensures 0 <= c <= n
  {
    if n == 0 then 0 else Count(h, n - 1) + if h[n - 1] then 1 else 0
  }

  /** The number of matching days among days 1..n of the month. */
  function CountMatches(y: int, m: int, two: DatePartTwo, n: int): int
    requires 1 <= m <= 12 && 0 <= n <= DaysInMonth(y, m)
  {
    Count(Hits(y, m, two), n)
  }

  /**
   * The walk over a month's flags from index i, as GetCustomWeekday takes
   * it, with `count` set flags met so far and `last` the latest one (0 at the
   * start). Looking for the k-th set flag it stops on it, and gives |h| when
   * there is none; looking for the last one it runs to the end and gives
   * `last`.
   */
  function Scan(h: seq<bool>, findLast: bool, k: int, i: int, count: int, last: int): int
    requires 0 <= i <= |h|
    decreases |h| - i
  {
    if i == |h| then (if findLast then last else |h|)
    else if h[i] && !findLast && count + 1 == k then i
    else Scan(h, findLast, k, i + 1,
              if h[i] && !findLast then count + 1 else count,
              if h[i] && findLast then i else last)
  }

  /**
   * The custom date of a month: for First..Fourth the k-th matching day
   * (k = ordinal + 1), for Last the last matching day (CustomDateMatches
   * restates this day by day). Day counts every day, so Day+k is day k and
   * Day+Last the month's last day (CustomDayOfDay).
   */
  function CustomDate(y: int, m: int, one: DatePartOne, two: DatePartTwo): (r: DateTime)
    requires 1 <= m <= 12 && !one.NotSet? && !two.NotSet?
    ensures r.year == y && r.month == m
  {
    var h := Hits(y, m, two);
    var k := one.Code() + 1;
    AtLeastFourMatches(y, m, two);
    if one.Last? then
      LastFromSpec(h, k, 0, 0, 0);
      LastExists(h, k);
      Date(y, m, Scan(h, true, k, 0, 0, 0) + 1)
    else
      NthExists(h, k, 0, 0, 0);
      NthFound(h, k, 0, 0, 0);
      Date(y, m, Scan(h, false, k, 0, 0, 0) + 1)
  }

  /**
   * The custom date is a flagged day; for an ordinal it is the
   * (ordinal + 1)-th flagged day, for Last no later day is flagged.
   */
  lemma CustomDateFlags(y: int, m: int, one: DatePartOne, two: DatePartTwo)
    requires 1 <= m <= 12 && !one.NotSet? && !two.NotSet?
    ensures var r := CustomDate(y, m, one, two);
      Hits(y, m, two)[r.day - 1] &&
      (!one.Last? ==> CountMatches(y, m, two, r.day) == one.Code() + 1) &&
      (one.Last? ==> forall i :: r.day <= i < DaysInMonth(y, m) ==> !Hits(y, m, two)[i])
  {
    var h := Hits(y, m, two);
    var k := one.Code() + 1;
    AtLeastFourMatches(y, m, two);
    if one.Last? {
      LastFromSpec(h, k, 0, 0, 0);
      LastExists(h, k);
    } else {
      NthExists(h, k, 0, 0, 0);
      NthFound(h, k, 0, 0, 0);
    }
  }

  /** The walk finds a day of the month: the k-th matching day, or the last one. */
  lemma ScanFinds(y: int, m: int, one: DatePartOne, two: DatePartTwo)
    requires 1 <= m <= 12 && !one.NotSet? && !two.NotSet?
    ensures 0 <= Scan(Hits(y, m, two), one.Last?, one.Code() + 1, 0, 0, 0) < DaysInMonth(y, m)
  {
    var h := Hits(y, m, two);
    var k := one.Code() + 1;
    AtLeastFourMatches(y, m, two);
    if one.Last? {
      LastExists(h, k);
    } else {
      NthExists(h, k, 0, 0, 0);
      NthFound(h, k, 0, 0, 0);
    }
  }

  /** The custom date is the day after the index the scan of the month's flags stops at. */
  lemma CustomDateIsScan(y: int, m: int, one: DatePartOne, two: DatePartTwo)
    requires 1 <= m <= 12 && !one.NotSet? && !two.NotSet?
    ensures var i := Scan(Hits(y, m, two), one.Last?, one.Code() + 1, 0, 0, 0);
      0 <= i < DaysInMonth(y, m) && CustomDate(y, m, one, two) == Date(y, m, i + 1)
  {
    var h := Hits(y, m, two);
    var k := one.Code() + 1;
    AtLeastFourMatches(y, m, two);
    if one.Last? {
      LastExists(h, k);
    } else {
      NthExists(h, k, 0, 0, 0);
      NthFound(h, k, 0, 0, 0);
    }
  }

  /**
   * The custom date is a matching day; for an ordinal it is preceded by
   * exactly ordinal matches, for Last no later day of the month matches.
   */
  lemma CustomDateMatches(y: int, m: int, one: DatePartOne, two: DatePartTwo)
    requires 1 <= m <= 12 && !one.NotSet? && !two.NotSet?
    ensures var r := CustomDate(y, m, one, two);
      Matches(two, r) &&
      (!one.Last? ==> CountMatches(y, m, two, r.day - 1) == one.Code()) &&
      (one.Last? ==> forall d :: r.day < d <= DaysInMonth(y, m) ==> !Matches(two, Date(y, m, d)))
  {
    var r := CustomDate(y, m, one, two);
    CustomDateFlags(y, m, one, two);
    assert r == Date(y, m, r.day);
    HitsAt(y, m, two, r.day - 1);
    if one.Last? {
      forall d | r.day < d <= DaysInMonth(y, m)
        ensures !Matches(two, Date(y, m, d))
      {
        HitsAt(y, m, two, d - 1);
      }
    }
  }

  // ---------------------------------------------------------------------
  // Lemmas about the scans

  lemma {:induction false} CountMonotone(h: seq<bool>, a: int, b: int)
    requires 0 <= a <= b <= |h|
    ensures Count(h, a) <= Count(h, b)
    decreases b - a
  {
    if a < b {
      CountMonotone(h, a, b - 1);
    }
  }

  /** A set flag at index i in a..b-1 adds one to the count. */
  lemma CountGrows(h: seq<bool>, a: int, i: int, b: int)
    requires 0 <= a <= i < b <= |h| && h[i]
    ensures Count(h, b) >= Count(h, a) + 1
  {
    CountMonotone(h, a, i);
    CountMonotone(h, i + 1, b);
  }

  /** Every flag set: the count is the length. */
  lemma {:induction false} CountAll(h: seq<bool>, n: int)
    requires 0 <= n <= |h| && forall i :: 0 <= i < |h| ==> h[i]
    ensures Count(h, n) == n
  {
    if n > 0 {
      CountAll(h, n - 1);
    }
  }

  /** The scan for the k-th set flag stops on a set flag with exactly k up to it. */
  lemma {:induction false} NthFound(h: seq<bool>, k: int, i: int, count: int, last: int)
    requires 0 <= i <= |h| && count == Count(h, i) && count < k
    requires Scan(h, false, k, i, count, last) < |h|
    ensures var r := Scan(h, false, k, i, count, last); 0 <= r < |h| && h[r] && Count(h, r + 1) == k
    decreases |h| - i
  {
    if h[i] && count + 1 == k {
    } else {
      NthFound(h, k, i + 1, if h[i] then count + 1 else count, last);
    }
  }

  /** The k-th set flag exists when there are at least k. */
  lemma {:induction false} NthExists(h: seq<bool>, k: int, i: int, count: int, last: int)
    requires 0 <= i <= |h| && count == Count(h, i) && count < k <= Count(h, |h|)
    ensures Scan(h, false, k, i, count, last) < |h|
    decreases |h| - i
  {
    if i == |h| {
      assert false;
    } else if h[i] && count + 1 == k {
    } else {
      NthExists(h, k, i + 1, if h[i] then count + 1 else count, last);
    }
  }

  /** The scan for the last set flag gives `last` or a later set flag, with none after it. */
  lemma {:induction false} LastFromSpec(h: seq<bool>, k: int, count: int, i: int, last: int)
    requires 0 <= i <= |h| && 0 <= last < |h|
    ensures var r := Scan(h, true, k, i, count, last);
      0 <= r < |h| && (r == last || (i <= r && h[r])) &&
      (forall j :: i <= j < |h| && r < j ==> !h[j]) &&
      (!h[r] ==> forall j :: i <= j < |h| ==> !h[j])
    decreases |h| - i
  {
    if i < |h| {
      LastFromSpec(h, k, count, i + 1, if h[i] then i else last);
    }
  }

  /** With one set flag at least, the last one is found. */
  lemma LastExists(h: seq<bool>, k: int)
    requires 0 < |h| && 1 <= Count(h, |h|)
    ensures 0 <= Scan(h, true, k, 0, 0, 0) < |h| && h[Scan(h, true, k, 0, 0, 0)]
  {
    LastFromSpec(h, k, 0, 0, 0);
    if !h[Scan(h, true, k, 0, 0, 0)] {
      NoneSet(h, |h|);
      assert false;
    }
  }

  lemma {:induction false} NoneSet(h: seq<bool>, n: int)
    requires 0 <= n <= |h| && forall j :: 0 <= j < n ==> !h[j]
    ensures Count(h, n) == 0
  {
    if n > 0 {
      NoneSet(h, n - 1);
    }
  }

  /** Every flag set: the last set flag is the last flag. */
  lemma {:induction false} LastOfAll(h: seq<bool>, k: int, count: int, i: int, last: int)
    requires 0 <= i < |h| && forall j :: 0 <= j < |h| ==> h[j]
    ensures Scan(h, true, k, i, count, last) == |h| - 1
    decreases |h| - i
  {
    if i < |h| - 1 {
      LastOfAll(h, k, count, i + 1, i);
    }
  }

  lemma CustomDayOfDay(y: int, m: int, one: DatePartOne)
    requires 1 <= m <= 12 && !one.NotSet?
    ensures CustomDate(y, m, one, Day).day == if one.Last? then DaysInMonth(y, m) else one.Code() + 1
  {
    CustomDateFlags(y, m, one, Day);
    var h := Hits(y, m, Day);
    forall j | 0 <= j < |h|
      ensures h[j]
    {
      HitsAt(y, m, Day, j);
    }
    if one.Last? {
      LastOfAll(h, one.Code() + 1, 0, 0, 0);
    } else {
      CountAll(h, CustomDate(y, m, one, Day).day);
    }
  }

  lemma DayOfWeekInMonth(y: int, m: int, d: int)
    requires 1 <= m <= 12 && 1 <= d <= DaysInMonth(y, m)
    ensures DayOfWeek(Date(y, m, d)) == (DayOfWeek(Date(y, m, 1)) + d - 1) % 7
  {
    var x := DayNumber(Date(y, m, 1)) + 1;
    assert DayNumber(Date(y, m, d)) + 1 == x + (d - 1);
    ModShift(x, d - 1);
    assert DayOfWeek(Date(y, m, d)) == (x + (d - 1)) % 7 && DayOfWeek(Date(y, m, 1)) == x % 7;
  }

  /** Moving forward (t - a) mod 7 days from weekday a mod 7 reaches weekday t. */
  lemma ReachWeekday(a: int, t: int)
    requires 0 <= t < 7
    ensures 0 <= (t - a % 7 + 7) % 7 < 7
    ensures (a + (t - a % 7 + 7) % 7) % 7 == t
  {
    var r := a % 7;
    var j := (t - r + 7) % 7;
    ModShift(a, j);
    if t >= r {
      assert j == t - r;
    } else {
      assert j == t - r + 7;
      assert (t + 7) % 7 == t;
    }
  }

  /** Any seven consecutive days of a month hold each day of the week once. */
  lemma DayWithWeekday(y: int, m: int, s: int, t: int) returns (d: int)
    requires 1 <= m <= 12 && 1 <= s && s + 6 <= DaysInMonth(y, m) && 0 <= t <= 6
    ensures s <= d <= s + 6 && DayOfWeek(Date(y, m, d)) == t
  {
    var w1 := DayOfWeek(Date(y, m, 1));
    var a := w1 + s - 1;
    DayOfWeekInMonth(y, m, s);
    var w0 := DayOfWeek(Date(y, m, s));
    assert w0 == a % 7;
    ReachWeekday(a, t);
    d := s + (t - w0 + 7) % 7;
    DayOfWeekInMonth(y, m, d);
    assert w1 + d - 1 == a + (t - a % 7 + 7) % 7;
  }

  /** Any seven consecutive days of a month hold a match of every kind. */
  lemma MatchInWeek(y: int, m: int, two: DatePartTwo, s: int) returns (d: int)
    requires 1 <= m <= 12 && 1 <= s && s + 6 <= DaysInMonth(y, m) && !two.NotSet?
    ensures s <= d <= s + 6 && Matches(two, Date(y, m, d))
  {
    if two.Day? {
      d := s;
    } else if two.Weekday? {
      d := DayWithWeekday(y, m, s, Dates.Monday);
    } else if two.WeekendDay? {
      d := DayWithWeekday(y, m, s, Dates.Saturday);
    } else {
      d := DayWithWeekday(y, m, s, two.Code() - 3);
    }
  }

  /** Seven consecutive days of a month add at least one to the count of matches. */
  lemma WeekCounts(y: int, m: int, two: DatePartTwo, s: int)
    requires 1 <= m <= 12 && 1 <= s && s + 6 <= DaysInMonth(y, m) && !two.NotSet?
    ensures Count(Hits(y, m, two), s + 6) >= Count(Hits(y, m, two), s - 1) + 1
  {
    var d := MatchInWeek(y, m, two, s);
    HitsAt(y, m, two, d - 1);
    CountGrows(Hits(y, m, two), s - 1, d - 1, s + 6);
  }

  /** Every month has at least four days of each kind (in its first 28 days). */
  lemma AtLeastFourMatches(y: int, m: int, two: DatePartTwo)
    requires 1 <= m <= 12 && !two.NotSet?
    ensures Count(Hits(y, m, two), DaysInMonth(y, m)) >= 4
  {
    WeekCounts(y, m, two, 1);
    WeekCounts(y, m, two, 8);
    WeekCounts(y, m, two, 15);
    WeekCounts(y, m, two, 22);
    CountMonotone(Hits(y, m, two), 28, DaysInMonth(y, m));
  }

  /** The walk stops on a set flag that is the k-th one it meets. */
  lemma ScanStops(h: seq<bool>, findLast: bool, k: int, i: int, count: int, last: int)
    requires 0 <= i < |h| && h[i] && !findLast && count + 1 == k
    ensures Scan(h, findLast, k, i, count, last) == i
  {
  }

  /** Any other flag moves the walk on, counting it or remembering it. */
  lemma ScanOn(h: seq<bool>, findLast: bool, k: int, i: int, count: int, last: int, count': int, last': int)
    requires 0 <= i < |h| && !(h[i] && !findLast && count + 1 == k)
    requires count' == (if h[i] && !findLast then count + 1 else count)
    requires last' == (if h[i] && findLast then i else last)
    ensures Scan(h, findLast, k, i, count, last) == Scan(h, findLast, k, i + 1, count', last')
  {
  }

  /** The next day of the month, while it stays in the month. */
  lemma NextDayInMonth(y: int, m: int, d: int)
    requires 1 <= m <= 12 && 1 <= d <= DaysInMonth(y, m)
    ensures d < DaysInMonth(y, m) ==> AddDays(Date(y, m, d), 1) == Date(y, m, d + 1)
  {
    if d < DaysInMonth(y, m) {
      DayNumberInjective(AddDays(Date(y, m, d), 1), Date(y, m, d + 1));
    }
  }

  /**
   * The test the walk makes on each day: any day of the week other than
   * Saturday and Sunday for Weekday, Saturday or Sunday for WeekendDay, the
   * named day otherwise.
   */
  method IsCountedDay(two: DatePartTwo, dt: DateTime) returns (b: bool)
    requires !two.NotSet? && !two.Day?
    ensures b == Hits(dt.year, dt.month, two)[dt.day - 1]
  {
    HitsAt(dt.year, dt.month, two, dt.day - 1);
    assert dt == Date(dt.year, dt.month, dt.day);
    var w := DayOfWeek(dt);
    if two.Weekday? {
      b := w != Dates.Saturday && w != Dates.Sunday;
    } else if two.WeekendDay? {
      b := w == Dates.Saturday || w == Dates.Sunday;
    } else {
      b := w == two.Code() - 3;
    }
  }

  /**
   * GetCustomDate for the month that `first` (its 1st day) opens: Day is
   * read off directly, every other kind is found by walking the month.
   */
  method CustomDayOfMonth(first: DateTime, one: DatePartOne, two: DatePartTwo) returns (r: DateTime)
    requires first.day == 1 && !one.NotSet? && !two.NotSet?
    ensures r == CustomDate(first.year, first.month, one, two)
  {
    var y, m := first.year, first.month;
    if two.Day? {
      CustomDayOfDay(y, m, one);
      if one.Last? {
        r := Date(y, m, DaysInMonth(y, m));
      } else {
        r := Date(y, m, one.Code() + 1);
      }
    } else {
      r := CustomWeekday(first, one, two);
      CustomDateIsScan(y, m, one, two);
    }
  }

  /**
   * GetCustomWeekday (and the identical weekday and weekend-day walks inlined
   * in GetCustomDate): counts the matching days of the month, stopping at
   * the (ordinal + 1)-th, or remembers the latest match for Last. The
   * source's do-while runs its body at least once, as this while loop does,
   * since every month has a first day.
   */
  method CustomWeekday(first: DateTime, one: DatePartOne, two: DatePartTwo) returns (r: DateTime)
    requires first.day == 1 && !one.NotSet? && !two.NotSet? && !two.Day?
    ensures r == Date(first.year, first.month, Scan(Hits(first.year, first.month, two), one.Last?, one.Code() + 1, 0, 0, 0) + 1)
  {
    var y, m := first.year, first.month;
    var daysOfMonth := DaysInMonth(y, m);
    var firstPart := one.Code() + 1;
    ghost var h := Hits(y, m, two);
    ghost var findLast := one.Last?;
    var dt := first;
    var day := 1;
    var count := 0;
    var last := first;
    ghost var lastIdx := 0;
    ghost var target := Scan(h, findLast, firstPart, 0, 0, 0);
    while day <= daysOfMonth
      invariant 1 <= day <= daysOfMonth + 1
      invariant day <= daysOfMonth ==> dt == Date(y, m, day)
      invariant 0 <= lastIdx < daysOfMonth && last == Date(y, m, lastIdx + 1)
      invariant Scan(h, findLast, firstPart, day - 1, count, lastIdx) == target
      decreases daysOfMonth - day
    {
      ghost var i, c0, l0 := day - 1, count, lastIdx;
      var counted := IsCountedDay(two, dt);
      assert counted == h[i];
      if counted {
        if !one.Last? {
          count := count + 1;
          if count == firstPart {
            ScanStops(h, findLast, firstPart, i, c0, l0);
            break;
          }
        } else {
          last := dt;
          lastIdx := day - 1;
        }
      }
      ScanOn(h, findLast, firstPart, i, c0, l0, count, lastIdx);
      NextDayInMonth(y, m, day);
      dt := AddDays(dt, 1);
      day := day + 1;
    }
    ScanFinds(y, m, one, two);
    if one.Last? {
      dt := last;
    }
    r := dt;
  }
}
