/**
 * Cycles: the series the monthly and yearly generators collect. They hold
 * an anchor date, add the value the anchor gives (the anchor itself or the
 * custom date it resolves to, moved by the adjustment), and then step the
 * anchor some months or years on. A value function `h` and a step `f`
 * describe one generator; the anchors are `Walks.Nth(f, a, i)`.
 */
module Cycles {
  import opened Results
  import opened Dates
  import opened Settings
  import opened Values
  import Walks

  /** What AddDateValue(dt, AdjustmentValue) adds: the date moved by the adjustment. */
  function Shift(adjustment: int): DateTime -> DateTime {
    (a: DateTime) => AddDays(a, adjustment)
  }

  /** Marks a date as the anchor a loop turn is at: the trigger of a generator's turn facts. */
  ghost predicate Anchor(d: DateTime) {
    true
  }

  /** A fresh list holding the expected dates with no summary yet, or the expected exception. */
  predicate Gathered(r: Result<RecurrenceValues>, expected: Result<seq<DateTime>>)
    reads if r.Ok? then {r.value} else {}
  {
    match expected
    case Err(e) => r == Err(e)
    case Ok(s) =>
      r.Ok? && r.value.values == s &&
      r.value.startDate == MinValue && r.value.endDate == MinValue && r.value.seriesInfo == None
  }

  /** The counting loop: add, step, n times. */
  function Emit(h: DateTime -> DateTime, f: DateTime -> DateTime, a: DateTime, n: nat): (s: seq<DateTime>)
    ensures |s| == n
    decreases n
  {
    if n == 0 then [] else [h(a)] + Emit(h, f, f(a), n - 1)
  }

  /**
   * The end-date do-while loop: add, step, and go on while the new anchor
   * is on or before the end date (never, with no end date).
   */
  function EmitUntil(h: DateTime -> DateTime, f: DateTime -> DateTime, a: DateTime, end: Option<DateTime>): seq<DateTime>
    requires Walks.Advancing(f)
    decreases DaysLeft(a, end)
  {
    var next := f(a);
    if OnOrBefore(next, end) then [h(a)] + EmitUntil(h, f, next, end) else [h(a)]
  }

  /**
   * The next-date do-while loop: add, stop once the value is after the
   * reference date, step, and go on while the anchor is on or before
   * `bound`.
   */
  function EmitProbe(h: DateTime -> DateTime, f: DateTime -> DateTime, a: DateTime, reference: DateTime, bound: DateTime): seq<DateTime>
    requires Walks.Advancing(f)
    decreases DayNumber(bound) - DayNumber(a)
  {
    var v := h(a);
    var next := f(a);
    if Before(reference, v) || !AtMost(next, bound) then [v]
    else [v] + EmitProbe(h, f, next, reference, bound)
  }

  // ---------------------------------------------------------------------
  // Properties

  /** The i-th value the counting loop adds is the value of the i-th anchor. */
  lemma {:induction false} EmitAt(h: DateTime -> DateTime, f: DateTime -> DateTime, a: DateTime, n: nat)
    ensures forall i :: 0 <= i < n ==> Emit(h, f, a, n)[i] == h(Walks.Nth(f, a, i))
    decreases n
  {
    if n > 0 {
      EmitAt(h, f, f(a), n - 1);
      forall i | 1 <= i < n
        ensures Emit(h, f, a, n)[i] == h(Walks.Nth(f, a, i))
      {
        Walks.NthShift(f, a, i - 1);
      }
    }
  }

  /** The end-date loop emits the values of the first anchors, at least one. */
  lemma {:induction false} UntilIsEmit(h: DateTime -> DateTime, f: DateTime -> DateTime, a: DateTime, end: Option<DateTime>)
    requires Walks.Advancing(f)
    ensures var s := EmitUntil(h, f, a, end);
      |s| >= 1 && s == Emit(h, f, a, |s|)
    decreases DaysLeft(a, end)
  {
    var next := f(a);
    if OnOrBefore(next, end) {
      var t := EmitUntil(h, f, next, end);
      assert EmitUntil(h, f, a, end) == [h(a)] + t;
      UntilIsEmit(h, f, next, end);
      assert Emit(h, f, a, |t| + 1) == [h(a)] + Emit(h, f, next, |t|);
    } else {
      assert Emit(h, f, a, 1) == [h(a)] + Emit(h, f, next, 0);
    }
  }

  /** Every anchor after the first whose value the end-date loop emits is on or before the end date. */
  lemma {:induction false} UntilEarly(h: DateTime -> DateTime, f: DateTime -> DateTime, a: DateTime, end: Option<DateTime>, i: nat)
    requires Walks.Advancing(f)
    requires 1 <= i < |EmitUntil(h, f, a, end)|
    ensures OnOrBefore(Walks.Nth(f, a, i), end)
    decreases i
  {
    var next := f(a);
    assert OnOrBefore(next, end);
    assert |EmitUntil(h, f, a, end)| == |EmitUntil(h, f, next, end)| + 1;
    if i == 1 {
      assert Walks.Nth(f, a, 1) == next;
    } else {
      UntilEarly(h, f, next, end, i - 1);
      Walks.NthAfterFirst(f, a, i);
    }
  }

  /** The anchor after the last one whose value the end-date loop emits is past the end date. */
  lemma {:induction false} UntilLast(h: DateTime -> DateTime, f: DateTime -> DateTime, a: DateTime, end: Option<DateTime>)
    requires Walks.Advancing(f)
    ensures !OnOrBefore(Walks.Nth(f, a, |EmitUntil(h, f, a, end)|), end)
    decreases DaysLeft(a, end)
  {
    var next := f(a);
    if OnOrBefore(next, end) {
      UntilLast(h, f, next, end);
      var m := |EmitUntil(h, f, next, end)|;
      assert |EmitUntil(h, f, a, end)| == m + 1;
      Walks.NthShift(f, a, m);
    } else {
      assert |EmitUntil(h, f, a, end)| == 1;
      assert Walks.Nth(f, a, 1) == next;
    }
  }

  /**
   * The end-date loop emits the first anchor's value always and then the
   * values of the anchors on or before the end date; the anchor after the
   * last one it emits is past the end date (or there is no end date).
   */
  lemma EmitUntilShape(h: DateTime -> DateTime, f: DateTime -> DateTime, a: DateTime, end: Option<DateTime>)
    requires Walks.Advancing(f)
    ensures var s := EmitUntil(h, f, a, end);
      |s| >= 1 && s == Emit(h, f, a, |s|) &&
      (forall i :: 1 <= i < |s| ==> OnOrBefore(Walks.Nth(f, a, i), end)) &&
      !OnOrBefore(Walks.Nth(f, a, |s|), end)
  {
    UntilIsEmit(h, f, a, end);
    UntilLast(h, f, a, end);
    forall i | 1 <= i < |EmitUntil(h, f, a, end)|
      ensures OnOrBefore(Walks.Nth(f, a, i), end)
    {
      UntilEarly(h, f, a, end, i);
    }
  }

  /** The next-date loop emits the values of the first anchors. */
  lemma {:induction false} ProbeIsEmit(h: DateTime -> DateTime, f: DateTime -> DateTime, a: DateTime, reference: DateTime, bound: DateTime)
    requires Walks.Advancing(f)
    ensures var s := EmitProbe(h, f, a, reference, bound);
      |s| >= 1 && s == Emit(h, f, a, |s|)
    decreases DayNumber(bound) - DayNumber(a)
  {
    var next := f(a);
    if Before(reference, h(a)) || !AtMost(next, bound) {
      assert Emit(h, f, a, 1) == [h(a)] + Emit(h, f, next, 0);
    } else {
      var t := EmitProbe(h, f, next, reference, bound);
      assert EmitProbe(h, f, a, reference, bound) == [h(a)] + t;
      ProbeIsEmit(h, f, next, reference, bound);
      assert Emit(h, f, a, |t| + 1) == [h(a)] + Emit(h, f, next, |t|);
    }
  }

  /** The anchor the next-date loop stops on. */
  function ProbeEnd(h: DateTime -> DateTime, f: DateTime -> DateTime, a: DateTime, reference: DateTime, bound: DateTime): DateTime
    requires Walks.Advancing(f)
    decreases DayNumber(bound) - DayNumber(a)
  {
    var next := f(a);
    if Before(reference, h(a)) || !AtMost(next, bound) then a
    else ProbeEnd(h, f, next, reference, bound)
  }

  /** Every value the next-date loop emits but the last is on or before the reference date. */
  lemma {:induction false} ProbeEarly(h: DateTime -> DateTime, f: DateTime -> DateTime, a: DateTime, reference: DateTime, bound: DateTime, i: nat)
    requires Walks.Advancing(f)
    requires i + 1 < |EmitProbe(h, f, a, reference, bound)|
    ensures AtMost(EmitProbe(h, f, a, reference, bound)[i], reference)
    decreases i
  {
    var next := f(a);
    var t := EmitProbe(h, f, next, reference, bound);
    assert EmitProbe(h, f, a, reference, bound) == [h(a)] + t;
    if i > 0 {
      ProbeEarly(h, f, next, reference, bound, i - 1);
    }
  }

  /** The value of the anchor the next-date loop stops on is after the reference date, or the next anchor is past `bound`. */
  lemma {:induction false} ProbeEndStops(h: DateTime -> DateTime, f: DateTime -> DateTime, a: DateTime, reference: DateTime, bound: DateTime)
    requires Walks.Advancing(f)
    ensures var e := ProbeEnd(h, f, a, reference, bound);
      Before(reference, h(e)) || !AtMost(f(e), bound)
    decreases DayNumber(bound) - DayNumber(a)
  {
    var next := f(a);
    if !Before(reference, h(a)) && AtMost(next, bound) {
      ProbeEndStops(h, f, next, reference, bound);
    }
  }

  /** The anchor the next-date loop stops on is the one of its last value. */
  lemma {:induction false} ProbeEndAt(h: DateTime -> DateTime, f: DateTime -> DateTime, a: DateTime, reference: DateTime, bound: DateTime)
    requires Walks.Advancing(f)
    ensures ProbeEnd(h, f, a, reference, bound) == Walks.Nth(f, a, |EmitProbe(h, f, a, reference, bound)| - 1)
    decreases DayNumber(bound) - DayNumber(a)
  {
    var next := f(a);
    if !Before(reference, h(a)) && AtMost(next, bound) {
      ProbeEndAt(h, f, next, reference, bound);
      var m := |EmitProbe(h, f, next, reference, bound)|;
      assert |EmitProbe(h, f, a, reference, bound)| == m + 1;
      Walks.NthShift(f, a, m - 1);
    }
  }

  /**
   * When no anchor whose value is on or before the reference date is
   * followed by an anchor past `bound`, the next-date loop stops on the
   * first value after the reference date: the one of anchor k, every
   * earlier value being on or before the reference date.
   */
  lemma ProbeReaches(h: DateTime -> DateTime, f: DateTime -> DateTime, a: DateTime, reference: DateTime, bound: DateTime)
    returns (k: nat)
    requires Walks.Advancing(f)
    requires forall i: nat :: AtMost(h(Walks.Nth(f, a, i)), reference) ==> AtMost(f(Walks.Nth(f, a, i)), bound)
    ensures var s := EmitProbe(h, f, a, reference, bound);
      |s| == k + 1 && s[k] == h(Walks.Nth(f, a, k)) && Before(reference, s[k]) &&
      forall j :: 0 <= j < k ==> AtMost(h(Walks.Nth(f, a, j)), reference)
  {
    var s := EmitProbe(h, f, a, reference, bound);
    ProbeIsEmit(h, f, a, reference, bound);
    EmitAt(h, f, a, |s|);
    k := |s| - 1;
    var last := ProbeEnd(h, f, a, reference, bound);
    ProbeEndAt(h, f, a, reference, bound);
    ProbeEndStops(h, f, a, reference, bound);
    assert s[k] == h(last) && Walks.Nth(f, a, |s|) == f(last);
    assert last == Walks.Nth(f, a, k);
    forall j | 0 <= j < k
      ensures AtMost(h(Walks.Nth(f, a, j)), reference)
    {
      ProbeEarly(h, f, a, reference, bound, j);
    }
  }

  /** When every step raises the value, the values of later anchors are later. */
  lemma {:induction false} ValuesRise(h: DateTime -> DateTime, f: DateTime -> DateTime, a: DateTime, i: nat, j: nat)
    requires forall x :: Before(h(x), h(f(x)))
    requires i < j
    ensures Before(h(Walks.Nth(f, a, i)), h(Walks.Nth(f, a, j)))
    decreases j
  {
    var p := Walks.Nth(f, a, j - 1);
    assert Walks.Nth(f, a, j) == f(p);
    assert Before(h(p), h(f(p)));
    if i < j - 1 {
      ValuesRise(h, f, a, i, j - 1);
      BeforeTrans(h(Walks.Nth(f, a, i)), h(p), h(f(p)));
    }
  }

  /** When every step raises the value, the emitted values are strictly increasing. */
  lemma EmitIncreasing(h: DateTime -> DateTime, f: DateTime -> DateTime, a: DateTime, n: nat)
    requires forall x :: Before(h(x), h(f(x)))
    ensures StrictlyIncreasing(Emit(h, f, a, n))
  {
    var s := Emit(h, f, a, n);
    EmitAt(h, f, a, n);
    forall i, j | 0 <= i < j < n
      ensures Before(s[i], s[j])
    {
      ValuesRise(h, f, a, i, j);
    }
  }

  /** One turn of the counting loop: add the anchor's value, step, one fewer to go. */
  lemma CountAppend(h: DateTime -> DateTime, f: DateTime -> DateTime, done: seq<DateTime>, a: DateTime, k: nat, whole: seq<DateTime>)
    requires k > 0 && done + Emit(h, f, a, k) == whole
    ensures (done + [h(a)]) + Emit(h, f, f(a), k - 1) == whole
  {
    assert (done + [h(a)]) + Emit(h, f, f(a), k - 1) == done + ([h(a)] + Emit(h, f, f(a), k - 1));
  }

  /** One turn of the end-date loop: add, step, go on while on or before the end date. */
  lemma UntilAppend(h: DateTime -> DateTime, f: DateTime -> DateTime, done: seq<DateTime>, a: DateTime, end: Option<DateTime>, whole: seq<DateTime>)
    requires Walks.Advancing(f)
    requires done + EmitUntil(h, f, a, end) == whole
    ensures OnOrBefore(f(a), end) ==> (done + [h(a)]) + EmitUntil(h, f, f(a), end) == whole
    ensures !OnOrBefore(f(a), end) ==> done + [h(a)] == whole
  {
    var next := f(a);
    if OnOrBefore(next, end) {
      var rest := EmitUntil(h, f, next, end);
      assert EmitUntil(h, f, a, end) == [h(a)] + rest;
      assert (done + [h(a)]) + rest == done + ([h(a)] + rest);
    }
  }

  /** One turn of the next-date loop: add, stop past the reference date, step, stop past the bound. */
  lemma ProbeAppend(h: DateTime -> DateTime, f: DateTime -> DateTime, done: seq<DateTime>, a: DateTime, reference: DateTime, bound: DateTime, whole: seq<DateTime>)
    requires Walks.Advancing(f)
    requires done + EmitProbe(h, f, a, reference, bound) == whole
    ensures Before(reference, h(a)) || !AtMost(f(a), bound) ==> done + [h(a)] == whole
    ensures !Before(reference, h(a)) && AtMost(f(a), bound) ==>
      (done + [h(a)]) + EmitProbe(h, f, f(a), reference, bound) == whole
  {
    var next := f(a);
    if !Before(reference, h(a)) && AtMost(next, bound) {
      var rest := EmitProbe(h, f, next, reference, bound);
      assert EmitProbe(h, f, a, reference, bound) == [h(a)] + rest;
      assert (done + [h(a)]) + rest == done + ([h(a)] + rest);
    }
  }
}
