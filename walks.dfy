/**
 * Walks: the series a generator collects by stepping from one date to the
 * next with a fixed step, as the Weekly generator's loops do with
 * GetNextDay — the first n steps, the steps up to an end date, the steps up
 * to the first one past a reference date.
 */
module Walks {
  import opened Results
  import opened Dates
  import opened Settings

  /** Every step moves forward. */
  ghost predicate Advancing(f: DateTime -> DateTime) {
    forall x :: Before(x, f(x))
  }

  /** The date i steps after d. */
  function Nth(f: DateTime -> DateTime, d: DateTime, i: nat): DateTime {
    if i == 0 then d else f(Nth(f, d, i - 1))
  }

  /** The first n dates after d: step, add, n times. */
  function Take(f: DateTime -> DateTime, d: DateTime, n: nat): (s: seq<DateTime>)
    ensures |s| == n
    ensures forall i :: 0 <= i < n ==> s[i] == Nth(f, d, i + 1)
  {
    if n == 0 then [] else Take(f, d, n - 1) + [Nth(f, d, n)]
  }

  /**
   * Step, stop if past the end date, add, while the date is on or before
   * the end date; with no end date (null) the comparisons fail and the
   * walk keeps the one date it found.
   */
  function Until(f: DateTime -> DateTime, d: DateTime, end: Option<DateTime>): seq<DateTime>
    requires Advancing(f)
    decreases DaysLeft(d, end)
  {
    var next := f(d);
    if end.None? then [next]
    else if Before(end.value, next) then []
    else [next] + Until(f, next, end)
  }

  /**
   * Step and add until a date is after the reference date, or until one is
   * after `bound`.
   */
  function Probe(f: DateTime -> DateTime, d: DateTime, reference: DateTime, bound: DateTime): (s: seq<DateTime>)
    requires Advancing(f)
    ensures |s| >= 1
    decreases DayNumber(reference) - DayNumber(d)
  {
    var next := f(d);
    if Before(reference, next) || !AtMost(next, bound) then [next]
    else [next] + Probe(f, next, reference, bound)
  }

  /** The first date of the walk from d that is after the reference date. */
  function NextAfter(f: DateTime -> DateTime, d: DateTime, reference: DateTime): (r: DateTime)
    requires Advancing(f)
    ensures Before(reference, r) && Before(d, r)
    decreases DayNumber(reference) - DayNumber(d)
  {
    var next := f(d);
    if Before(reference, next) then next else NextAfter(f, next, reference)
  }

  // ---------------------------------------------------------------------
  // Properties

  lemma {:induction false} NthShift(f: DateTime -> DateTime, d: DateTime, i: nat)
    ensures Nth(f, d, i + 1) == Nth(f, f(d), i)
  {
    if i > 0 {
      NthShift(f, d, i - 1);
    }
  }

  /** The date i steps after d is the date i - 1 steps after d's first step. */
  lemma NthAfterFirst(f: DateTime -> DateTime, d: DateTime, i: nat)
    requires i >= 1
    ensures Nth(f, d, i) == Nth(f, f(d), i - 1)
  {
    NthShift(f, d, i - 1);
  }

  /** The dates after d are the first step followed by the dates after it. */
  lemma {:induction false} TakeShift(f: DateTime -> DateTime, d: DateTime, n: nat)
    ensures Take(f, d, n + 1) == [f(d)] + Take(f, f(d), n)
  {
    var a := Take(f, d, n + 1);
    var b := [f(d)] + Take(f, f(d), n);
    forall i | 0 <= i < n + 1
      ensures a[i] == b[i]
    {
      NthShift(f, d, i);
    }
  }

  lemma {:induction false} NthIncreasing(f: DateTime -> DateTime, d: DateTime, i: nat, j: nat)
    requires Advancing(f) && i < j
    ensures Before(Nth(f, d, i), Nth(f, d, j))
    decreases j
  {
    if i < j - 1 {
      NthIncreasing(f, d, i, j - 1);
    }
  }

  /** A forward walk is strictly increasing and stays after where it began. */
  lemma TakeIncreasing(f: DateTime -> DateTime, d: DateTime, n: nat)
    requires Advancing(f)
    ensures var s := Take(f, d, n);
      StrictlyIncreasing(s) && forall i :: 0 <= i < n ==> Before(d, s[i])
  {
    var s := Take(f, d, n);
    forall i, j | 0 <= i < j < n
      ensures Before(s[i], s[j])
    {
      NthIncreasing(f, d, i + 1, j + 1);
    }
    forall i | 0 <= i < n
      ensures Before(d, s[i])
    {
      NthIncreasing(f, d, 0, i + 1);
    }
  }

  /**
   * Up to an end date: the dates of the walk after d that are on or before
   * it, and the one after them is past it.
   */
  lemma {:induction false} UntilShape(f: DateTime -> DateTime, d: DateTime, end: DateTime)
    requires Advancing(f)
    ensures var s := Until(f, d, Some(end));
      s == Take(f, d, |s|) &&
      (forall i :: 0 <= i < |s| ==> AtMost(s[i], end)) &&
      Before(end, Nth(f, d, |s| + 1))
    decreases DaysLeft(d, Some(end))
  {
    var next := f(d);
    if !Before(end, next) {
      UntilShape(f, next, end);
      var t := Until(f, next, Some(end));
      TakeShift(f, d, |t|);
      NthShift(f, d, |t| + 1);
    }
  }

  /** Up to an end date or none: the walk's first dates, none past the end date. */
  lemma UntilIsWalk(f: DateTime -> DateTime, d: DateTime, end: Option<DateTime>)
    requires Advancing(f)
    ensures var s := Until(f, d, end);
      s == Take(f, d, |s|) &&
      (end.Some? ==> forall i :: 0 <= i < |s| ==> AtMost(s[i], end.value))
  {
    if end.Some? {
      UntilShape(f, d, end.value);
    } else {
      assert Nth(f, d, 1) == f(d);
    }
  }

  /**
   * While no date on or before the reference date passes the bound, the
   * probe is the walk after d up to the first date past the reference date,
   * which it ends with.
   */
  lemma {:induction false} ProbeShape(f: DateTime -> DateTime, d: DateTime, reference: DateTime, bound: DateTime)
    requires Advancing(f) && AtMost(reference, bound)
    ensures var s := Probe(f, d, reference, bound);
      s == Take(f, d, |s|) && s[|s| - 1] == NextAfter(f, d, reference) &&
      (forall i :: 0 <= i < |s| - 1 ==> AtMost(s[i], reference))
    decreases DayNumber(reference) - DayNumber(d)
  {
    var next := f(d);
    var s := Probe(f, d, reference, bound);
    if Before(reference, next) || !AtMost(next, bound) {
      assert s == [next];
      assert Take(f, d, 1) == [Nth(f, d, 1)];
    } else {
      ProbeShape(f, next, reference, bound);
      var t := Probe(f, next, reference, bound);
      assert s == [next] + t;
      TakeShift(f, d, |t|);
      assert s[|s| - 1] == t[|t| - 1];
    }
  }

  /**
   * With the bound before the reference date, the probe ends with the first
   * date of the walk past the bound, whether or not that date is past the
   * reference date.
   */
  lemma {:induction false} ProbeBelowReference(f: DateTime -> DateTime, d: DateTime, reference: DateTime, bound: DateTime)
    requires Advancing(f) && Before(bound, reference)
    ensures var s := Probe(f, d, reference, bound); s[|s| - 1] == NextAfter(f, d, bound)
    decreases DayNumber(reference) - DayNumber(d)
  {
    var next := f(d);
    if !(Before(reference, next) || !AtMost(next, bound)) {
      ProbeBelowReference(f, next, reference, bound);
      var t := Probe(f, next, reference, bound);
      assert Probe(f, d, reference, bound) == [next] + t;
    }
  }

  /**
   * The next date after the reference date is a date of the walk: the i-th
   * for some i of at least 1, with every earlier one on or before the
   * reference date.
   */
  lemma {:induction false} NextAfterInSeries(f: DateTime -> DateTime, d: DateTime, reference: DateTime) returns (i: nat)
    requires Advancing(f)
    ensures i >= 1 && NextAfter(f, d, reference) == Nth(f, d, i)
    ensures forall j :: 1 <= j < i ==> AtMost(Nth(f, d, j), reference)
    decreases DayNumber(reference) - DayNumber(d)
  {
    var next := f(d);
    if Before(reference, next) {
      i := 1;
    } else {
      var k := NextAfterInSeries(f, next, reference);
      i := k + 1;
      NthShift(f, d, k);
      EarlierShift(f, d, k, reference);
    }
  }

  lemma EarlierShift(f: DateTime -> DateTime, d: DateTime, k: nat, reference: DateTime)
    requires AtMost(f(d), reference)
    requires forall j :: 1 <= j < k ==> AtMost(Nth(f, f(d), j), reference)
    ensures forall j :: 1 <= j < k + 1 ==> AtMost(Nth(f, d, j), reference)
  {
    forall j | 1 < j < k + 1
      ensures AtMost(Nth(f, d, j), reference)
    {
      NthShift(f, d, j - 1);
    }
  }

  /** A sequence whose every date is the step of the one before it (the first, of d) is the walk's first dates. */
  lemma {:induction false} TakeOfChain(f: DateTime -> DateTime, d: DateTime, s: seq<DateTime>)
    requires |s| > 0 ==> f(d) == s[0]
    requires forall i :: 0 < i < |s| ==> f(s[i - 1]) == s[i]
    ensures Take(f, d, |s|) == s
  {
    if |s| > 0 {
      var n := |s| - 1;
      TakeOfChain(f, d, s[..n]);
      assert Nth(f, d, n + 1) == s[n] by {
        if n > 0 {
          assert Take(f, d, n)[n - 1] == s[n - 1];
        }
      }
      assert s == s[..n] + [s[n]];
    }
  }

  /** One turn of the end-date loop: step, stop past the end date, add, go on while on or before it. */
  lemma UntilAppend(f: DateTime -> DateTime, done: seq<DateTime>, d: DateTime, end: Option<DateTime>, whole: seq<DateTime>)
    requires Advancing(f)
    requires done + Until(f, d, end) == whole
    ensures var next := f(d);
      (end.None? ==> done + [next] == whole) &&
      (end.Some? && Before(end.value, next) ==> done == whole) &&
      (end.Some? && !Before(end.value, next) ==> (done + [next]) + Until(f, next, end) == whole)
  {
    var next := f(d);
    if end.Some? && !Before(end.value, next) {
      var rest := Until(f, next, end);
      assert Until(f, d, end) == [next] + rest;
      assert (done + [next]) + rest == done + ([next] + rest);
    }
  }

  /** One turn of the next-date loop: step, add, stop past the reference date or the bound. */
  lemma ProbeAppend(f: DateTime -> DateTime, done: seq<DateTime>, d: DateTime, reference: DateTime, bound: DateTime, whole: seq<DateTime>)
    requires Advancing(f)
    requires done + Probe(f, d, reference, bound) == whole
    ensures var next := f(d);
      (Before(reference, next) || !AtMost(next, bound) ==> done + [next] == whole) &&
      (!Before(reference, next) && AtMost(next, bound) ==> (done + [next]) + Probe(f, next, reference, bound) == whole)
  {
    var next := f(d);
    if !Before(reference, next) && AtMost(next, bound) {
      var rest := Probe(f, next, reference, bound);
      assert Probe(f, d, reference, bound) == [next] + rest;
      assert (done + [next]) + rest == done + ([next] + rest);
    }
  }

  /** When every step lands on a date that has a property, so does every date of the walk. */
  lemma TakeAll(f: DateTime -> DateTime, d: DateTime, n: nat, p: DateTime -> bool)
    requires forall x :: p(f(x))
    ensures forall i :: 0 <= i < n ==> p(Take(f, d, n)[i])
  {
    forall i | 0 <= i < n
      ensures p(Take(f, d, n)[i])
    {
      assert Take(f, d, n)[i] == f(Nth(f, d, i));
    }
  }

  /**
   * A walk whose first step lands on d(0) and whose step takes each d(j)
   * to d(j + 1) lands on d(k) after k + 1 steps.
   */
  lemma {:induction false} NthFollows(f: DateTime -> DateTime, o: DateTime, d: nat -> DateTime, k: nat)
    requires f(o) == d(0)
    requires forall j: nat :: f(d(j)) == d(j + 1)
    ensures Nth(f, o, k + 1) == d(k)
  {
    if k > 0 {
      NthFollows(f, o, d, k - 1);
      assert Nth(f, o, k + 1) == f(Nth(f, o, k));
    }
  }
}
