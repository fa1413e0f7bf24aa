/**
 * The specification of the month-by-month walk over a rate table: which calendar
 * months a range covers, which of them carry a rate, how their rates compound,
 * and the chart points the walk records.
 */
module Compounding {
  import opened Wrappers
  import opened Calendar
  import opened RateTable
  import opened Growth

  /** The `n` calendar months starting at `from`, oldest first: the half-open range [from, from + n). */
  function Walk(from: YearMonth, n: nat): (w: seq<YearMonth>)
    ensures |w| == n
    ensures forall k :: 0 <= k < n ==> Index(w[k]) == Index(from) + k
  {
    if n == 0 then [] else Walk(from, n - 1) + [Advance(from, n - 1)]
  }

  /** The walk visits exactly the months from `from` up to, and not including, the month `n` later. */
  lemma WalkCovers(from: YearMonth, n: nat, c: YearMonth)
    ensures c in Walk(from, n) <==> Index(from) <= Index(c) < Index(from) + n
  {
    var w := Walk(from, n);
    if Index(from) <= Index(c) < Index(from) + n {
      var k := Index(c) - Index(from);
      IndexInjective(w[k], c);
    }
  }

  /** The rate a month contributes: one rate when the table has it, nothing when it does not. */
  function RateEntry(table: Table, c: YearMonth): seq<real>
  {
    match Lookup(table, c)
    case Some(r) => [r]
    case None => []
  }

  /** The rates of the months of `ms` that have a table entry, in order; months without one are skipped. */
  function AppliedRates(table: Table, ms: seq<YearMonth>): (rs: seq<real>)
    ensures |rs| <= |ms|
  {
    if ms == [] then [] else AppliedRates(table, ms[..|ms| - 1]) + RateEntry(table, ms[|ms| - 1])
  }

  /** The months of `ms` that have a table entry, in order. */
  function RecordedMonths(table: Table, ms: seq<YearMonth>): (ps: seq<YearMonth>)
    ensures forall c :: c in ps <==> c in ms && Lookup(table, c).Some?
  {
    if ms == [] then []
    else
      var last := ms[|ms| - 1];
      RecordedMonths(table, ms[..|ms| - 1]) + (if Lookup(table, last).Some? then [last] else [])
  }

  /** The months of `ms` come in strictly increasing calendar order. */
  predicate Chronological(ms: seq<YearMonth>)
  {
    forall i, j :: 0 <= i < j < |ms| ==> Before(ms[i], ms[j])
  }

  /** The walk visits its months in calendar order. */
  lemma WalkChronological(from: YearMonth, n: nat)
    ensures Chronological(Walk(from, n))
  {
    var w := Walk(from, n);
    forall i, j | 0 <= i < j < |w|
      ensures Before(w[i], w[j])
    {
      assert Index(w[i]) == Index(from) + i;
    }
  }

  /**
   * Keeping only the recorded months keeps calendar order: each recorded month
   * appears once, in the order the walk visits it.
   */
  lemma {:induction false} RecordedMonthsChronological(table: Table, ms: seq<YearMonth>)
    requires Chronological(ms)
    ensures Chronological(RecordedMonths(table, ms))
  {
    if ms != [] {
      var init := ms[..|ms| - 1];
      var last := ms[|ms| - 1];
      assert Chronological(init) by {
        forall i, j | 0 <= i < j < |init|
          ensures Before(init[i], init[j])
        {
          assert init[i] == ms[i] && init[j] == ms[j];
        }
      }
      RecordedMonthsChronological(table, init);
      var prev := RecordedMonths(table, init);
      var ps := RecordedMonths(table, ms);
      if Lookup(table, last).Some? {
        assert ps == prev + [last];
        forall i, j | 0 <= i < j < |ps|
          ensures Before(ps[i], ps[j])
        {
          if j == |prev| {
            assert ps[i] == prev[i] && prev[i] in init;
            var k :| 0 <= k < |init| && init[k] == prev[i];
            assert ms[k] == init[k];
          } else {
            assert ps[i] == prev[i] && ps[j] == prev[j];
          }
        }
      } else {
        assert ps == prev + [];
      }
    }
  }

  /**
   * Skip policy: the applied rates are exactly the rates of the recorded months,
   * one for one; a month without data adds neither a rate nor a count.
   */
  lemma {:induction false} AppliedRatesAreRecorded(table: Table, ms: seq<YearMonth>)
    ensures |AppliedRates(table, ms)| == |RecordedMonths(table, ms)|
    ensures forall i :: 0 <= i < |AppliedRates(table, ms)| ==>
      Lookup(table, RecordedMonths(table, ms)[i]) == Some(AppliedRates(table, ms)[i])
  {
    if ms != [] {
      AppliedRatesAreRecorded(table, ms[..|ms| - 1]);
    }
  }

  /** When every month has data, every month is applied. */
  lemma {:induction false} AppliedRatesFull(table: Table, ms: seq<YearMonth>)
    requires forall i :: 0 <= i < |ms| ==> Lookup(table, ms[i]).Some?
    ensures |AppliedRates(table, ms)| == |ms|
  {
    if ms != [] {
      AppliedRatesFull(table, ms[..|ms| - 1]);
    }
  }

  /** The rates applied over the `n` months from `from`, one per month that has a rate, oldest first. */
  function RangeRates(table: Table, from: YearMonth, n: nat): (rs: seq<real>)
  {
    if n == 0 then [] else RangeRates(table, from, n - 1) + RateEntry(table, Advance(from, n - 1))
  }

  /** A month adds one rate or none, so `n` months apply at most `n` rates. */
  lemma {:induction false} RangeRatesBound(table: Table, from: YearMonth, n: nat)
    ensures |RangeRates(table, from, n)| <= n
  {
    if n > 0 {
      RangeRatesBound(table, from, n - 1);
    }
  }

  /** The range's rates are the applied rates of its walk. */
  lemma {:induction false} RangeRatesOfWalk(table: Table, from: YearMonth, n: nat)
    ensures RangeRates(table, from, n) == AppliedRates(table, Walk(from, n))
  {
    if n > 0 {
      RangeRatesOfWalk(table, from, n - 1);
      assert Walk(from, n)[..n - 1] == Walk(from, n - 1);
    }
  }

  /**
   * Walking `n + m` months applies the rates of the first `n` months followed by
   * the rates of the `m` months after them.
   */
  lemma {:induction false} RangeRatesSplit(table: Table, from: YearMonth, n: nat, m: nat)
    ensures RangeRates(table, from, n + m) == RangeRates(table, from, n) + RangeRates(table, Advance(from, n), m)
    decreases m
  {
    var mid := Advance(from, n);
    if m == 0 {
      assert RangeRates(table, from, n) + [] == RangeRates(table, from, n);
    } else {
      var first := RangeRates(table, from, n);
      var rest := RangeRates(table, mid, m - 1);
      var e := RateEntry(table, Advance(from, n + m - 1));
      RangeRatesSplit(table, from, n, m - 1);
      IndexInjective(Advance(mid, m - 1), Advance(from, n + m - 1));
      RangeRatesNext(table, from, n + m - 1);
      RangeRatesNext(table, mid, m - 1);
      SplitStep(first, rest, e, RangeRates(table, from, n + m), RangeRates(table, mid, m));
    }
  }

  /** One more month appends that month's entry. */
  lemma RangeRatesNext(table: Table, from: YearMonth, k: nat)
    ensures RangeRates(table, from, k + 1) == RangeRates(table, from, k) + RateEntry(table, Advance(from, k))
  {
  }

  /** Appending `e` to both sides of a split keeps it a split. */
  lemma SplitStep(first: seq<real>, rest: seq<real>, e: seq<real>, whole: seq<real>, right: seq<real>)
    requires whole == (first + rest) + e
    requires right == rest + e
    ensures whole == first + right
  {
    AppendAssociates(first, rest, e);
  }

  lemma AppendAssociates(a: seq<real>, b: seq<real>, c: seq<real>)
    ensures (a + b) + c == a + (b + c)
  {
  }

  /** When every rate of the table is positive, so is every rate a range applies. */
  lemma RangeRatesPositive(table: Table, from: YearMonth, n: nat)
    requires AllRatesPositive(table)
    ensures forall i :: 0 <= i < |RangeRates(table, from, n)| ==> RangeRates(table, from, n)[i] > 0.0
  {
    RangeRatesOfWalk(table, from, n);
    AppliedRatesAreRecorded(table, Walk(from, n));
  }

  /** A month without a rate leaves the applied rates as they were. */
  lemma RangeRatesGap(table: Table, from: YearMonth, n: nat)
    requires n > 0 && Lookup(table, Advance(from, n - 1)).None?
    ensures RangeRates(table, from, n) == RangeRates(table, from, n - 1)
  {
    assert RangeRates(table, from, n - 1) + [] == RangeRates(table, from, n - 1);
  }

  /** A month with rate `r` appends `r` to the applied rates. */
  lemma RangeRatesRated(table: Table, from: YearMonth, n: nat, r: real)
    requires n > 0 && Lookup(table, Advance(from, n - 1)) == Some(r)
    ensures RangeRates(table, from, n) == RangeRates(table, from, n - 1) + [r]
  {
  }

  /** A month with rate `r` grows what the walk so far applied to `amount` by (1 + r/100). */
  lemma GrownStep(table: Table, amount: real, from: YearMonth, k: nat, r: real)
    requires Lookup(table, Advance(from, k)) == Some(r)
    ensures Grown(amount, RangeRates(table, from, k + 1)) == Grow(Grown(amount, RangeRates(table, from, k)), r)
    ensures |RangeRates(table, from, k + 1)| == |RangeRates(table, from, k)| + 1
  {
    RangeRatesRated(table, from, k + 1, r);
    GrownSnoc(amount, RangeRates(table, from, k), r);
  }

  /** A month with rate `r` grows the factor of the walk so far by (1 + r/100). */
  lemma CompoundStep(table: Table, from: YearMonth, k: nat, r: real)
    requires Lookup(table, Advance(from, k)) == Some(r)
    ensures Compound(RangeRates(table, from, k + 1)) == Grow(Compound(RangeRates(table, from, k)), r)
    ensures |RangeRates(table, from, k + 1)| == |RangeRates(table, from, k)| + 1
  {
    GrownStep(table, 1.0, from, k, r);
  }

  /** A point of the chart's timeline. */
  datatype ChartPoint = ChartPoint(cursor: YearMonth, amount: real, monthlyInflation: real, cumulativeInflation: real)

  /** The last point of a non-empty timeline. */
  function Last(t: seq<ChartPoint>): ChartPoint
    requires t != []
  {
    t[|t| - 1]
  }

  /** The change from `start` to `amount`, in percent. */
  function PercentChange(start: real, amount: real): real
    requires start > 0.0
  {
    (amount / start - 1.0) * 100.0
  }

  /**
   * The point recorded when the `n`-th month of the walk from `from` has rate `r`:
   * labelled with the month after it, carrying the running amount, the rate just
   * applied and the change measured against `start`.
   */
  function RatedPoint(table: Table, start: real, from: YearMonth, n: nat, r: real): ChartPoint
    requires start > 0.0
  {
    var amount := Grown(start, RangeRates(table, from, n));
    ChartPoint(Advance(from, n), amount, r, PercentChange(start, amount))
  }

  /** The point, if any, that the `n`-th month of the walk adds to the timeline. */
  function StepPoint(table: Table, start: real, from: YearMonth, n: nat): seq<ChartPoint>
    requires start > 0.0 && n > 0
  {
    match Lookup(table, Advance(from, n - 1))
    case None => []
    case Some(r) => [RatedPoint(table, start, from, n, r)]
  }

  /**
   * The points recorded after walking `n` months from `from` with `start`: the
   * starting point, then one point per month that has a rate. Months without a
   * rate record nothing.
   */
  function Trace(table: Table, start: real, from: YearMonth, n: nat): (t: seq<ChartPoint>)
    requires start > 0.0
    ensures |t| >= 1 && t[0] == ChartPoint(from, start, 0.0, 0.0)
  {
    if n == 0 then [ChartPoint(from, start, 0.0, 0.0)]
    else Trace(table, start, from, n - 1) + StepPoint(table, start, from, n)
  }

  /** A month without a rate records no point and applies no rate. */
  lemma TraceGap(table: Table, start: real, from: YearMonth, n: nat)
    requires start > 0.0 && n > 0
    requires Lookup(table, Advance(from, n - 1)).None?
    ensures Trace(table, start, from, n) == Trace(table, start, from, n - 1)
    ensures RangeRates(table, from, n) == RangeRates(table, from, n - 1)
  {
    assert StepPoint(table, start, from, n) == [];
    assert Trace(table, start, from, n - 1) + [] == Trace(table, start, from, n - 1);
    RangeRatesGap(table, from, n);
  }

  /**
   * A month with rate `r` records one point: labelled with the following month,
   * carrying the previous running amount grown by `r`, the rate `r`, and the
   * change of that amount against `start`.
   */
  lemma TraceRated(table: Table, start: real, from: YearMonth, n: nat, r: real)
    requires start > 0.0 && n > 0
    requires Lookup(table, Advance(from, n - 1)) == Some(r)
    ensures var amount := Grow(Grown(start, RangeRates(table, from, n - 1)), r);
      Trace(table, start, from, n) ==
      Trace(table, start, from, n - 1) + [ChartPoint(Succ(Advance(from, n - 1)), amount, r, PercentChange(start, amount))]
  {
    RatedPointAmount(table, start, from, n, r);
    var p := RatedPoint(table, start, from, n, r);
    var s := StepPoint(table, start, from, n);
    assert |s| == 1 && s[0] == p;
  }

  /** The timeline has one point more than the months the walk applies. */
  lemma {:induction false} TraceLength(table: Table, start: real, from: YearMonth, n: nat)
    requires start > 0.0
    ensures |Trace(table, start, from, n)| == |RangeRates(table, from, n)| + 1
  {
    if n > 0 {
      TraceLength(table, start, from, n - 1);
    }
  }

  /** The timeline ends with the start amount grown by every rate the walk applies. */
  lemma {:induction false} TraceLast(table: Table, start: real, from: YearMonth, n: nat)
    requires start > 0.0
    ensures Last(Trace(table, start, from, n)).amount == Grown(start, RangeRates(table, from, n))
  {
    if n > 0 {
      TraceLast(table, start, from, n - 1);
      match Lookup(table, Advance(from, n - 1))
      case None => RangeRatesGap(table, from, n);
      case Some(r) =>
    }
  }

  /**
   * The timeline's last point, found without building the timeline: the point of
   * the latest month that has a rate, or the starting point when none has.
   */
  function LastPoint(table: Table, start: real, from: YearMonth, n: nat): ChartPoint
    requires start > 0.0
  {
    if n == 0 then ChartPoint(from, start, 0.0, 0.0)
    else match Lookup(table, Advance(from, n - 1))
      case None => LastPoint(table, start, from, n - 1)
      case Some(r) => RatedPoint(table, start, from, n, r)
  }

  /** The timeline ends with `LastPoint`. */
  lemma {:induction false} TraceEndsWith(table: Table, start: real, from: YearMonth, n: nat)
    requires start > 0.0
    ensures Last(Trace(table, start, from, n)) == LastPoint(table, start, from, n)
  {
    if n > 0 {
      TraceEndsWith(table, start, from, n - 1);
      match Lookup(table, Advance(from, n - 1))
      case None => TraceGap(table, start, from, n);
      case Some(r) =>
    }
  }

  /**
   * The last point carries the start amount grown by every rate of the walk and
   * that amount's change against `start`, and is labelled no later than `n` months
   * after `from`.
   */
  lemma {:induction false} LastPointCarries(table: Table, start: real, from: YearMonth, n: nat)
    requires start > 0.0
    ensures LastPoint(table, start, from, n).amount == Grown(start, RangeRates(table, from, n))
    ensures LastPoint(table, start, from, n).cumulativeInflation == PercentChange(start, LastPoint(table, start, from, n).amount)
    ensures Index(LastPoint(table, start, from, n).cursor) <= Index(from) + n
  {
    if n == 0 {
      assert start / start == 1.0;
    } else {
      LastPointCarries(table, start, from, n - 1);
      match Lookup(table, Advance(from, n - 1))
      case None => RangeRatesGap(table, from, n);
      case Some(r) =>
    }
  }

  /** Every label of the walk's timeline lies within [from, from + n]. */
  lemma {:induction false} TraceCursorBound(table: Table, start: real, from: YearMonth, n: nat)
    requires start > 0.0
    ensures forall i :: 0 <= i < |Trace(table, start, from, n)| ==>
      Index(from) <= Index(Trace(table, start, from, n)[i].cursor) <= Index(from) + n
  {
    if n > 0 {
      TraceCursorBound(table, start, from, n - 1);
    }
  }

  /**
   * `q` follows `p` on a timeline started with `start`: its amount is `p`'s grown
   * by the rate `q` shows, that rate is the one recorded for the month before
   * `q`'s label, its cumulative change is measured against `start` (not against
   * `p`), and its label is later than `p`'s.
   */
  predicate StepFollows(table: Table, start: real, p: ChartPoint, q: ChartPoint)
    requires start > 0.0
  {
    && q.amount == Grow(p.amount, q.monthlyInflation)
    && Lookup(table, Pred(q.cursor)) == Some(q.monthlyInflation)
    && q.cumulativeInflation == PercentChange(start, q.amount)
    && Index(p.cursor) < Index(q.cursor)
  }

  /** The point a rated month adds follows the last point recorded before it. */
  lemma RatedPointFollows(table: Table, start: real, from: YearMonth, n: nat, r: real)
    requires start > 0.0 && n > 0
    requires Lookup(table, Advance(from, n - 1)) == Some(r)
    ensures StepFollows(table, start, LastPoint(table, start, from, n - 1), RatedPoint(table, start, from, n, r))
  {
    LastPointCarries(table, start, from, n - 1);
    PointFollows(table, start, from, n, r, LastPoint(table, start, from, n - 1));
  }

  /** The point a rated month adds follows the timeline's previous last point. */
  lemma LastStepFollows(table: Table, start: real, from: YearMonth, n: nat, r: real)
    requires start > 0.0 && n > 0
    requires Lookup(table, Advance(from, n - 1)) == Some(r)
    ensures StepFollows(table, start, Last(Trace(table, start, from, n - 1)), RatedPoint(table, start, from, n, r))
  {
    TraceEndsWith(table, start, from, n - 1);
    RatedPointFollows(table, start, from, n, r);
  }

  /**
   * The point a rated month adds follows any point that carries the running
   * amount of the months before it and is labelled no later than its month.
   */
  lemma PointFollows(table: Table, start: real, from: YearMonth, n: nat, r: real, p: ChartPoint)
    requires start > 0.0 && n > 0
    requires Lookup(table, Advance(from, n - 1)) == Some(r)
    requires p.amount == Grown(start, RangeRates(table, from, n - 1))
    requires Index(p.cursor) <= Index(from) + n - 1
    ensures StepFollows(table, start, p, RatedPoint(table, start, from, n, r))
  {
    RatedPointAmount(table, start, from, n, r);
    RatedPointLabel(table, start, from, n, r);
  }

  /** A rated month grows the amount of the walk so far by its rate. */
  lemma RatedPointAmount(table: Table, start: real, from: YearMonth, n: nat, r: real)
    requires start > 0.0 && n > 0
    requires Lookup(table, Advance(from, n - 1)) == Some(r)
    ensures RatedPoint(table, start, from, n, r).amount == Grow(Grown(start, RangeRates(table, from, n - 1)), r)
  {
    RangeRatesRated(table, from, n, r);
    GrownSnoc(start, RangeRates(table, from, n - 1), r);
  }

  /** A rated month's point is labelled with the month after it. */
  lemma RatedPointLabel(table: Table, start: real, from: YearMonth, n: nat, r: real)
    requires start > 0.0 && n > 0
    ensures Pred(RatedPoint(table, start, from, n, r).cursor) == Advance(from, n - 1)
    ensures Index(RatedPoint(table, start, from, n, r).cursor) == Index(from) + n
  {
    IndexInjective(Pred(Advance(from, n)), Advance(from, n - 1));
  }

  /** Every point of the timeline, the first included, measures its change against `start`. */
  lemma {:induction false} TracePercent(table: Table, start: real, from: YearMonth, n: nat)
    requires start > 0.0
    ensures forall i :: 0 <= i < |Trace(table, start, from, n)| ==>
      Trace(table, start, from, n)[i].cumulativeInflation == PercentChange(start, Trace(table, start, from, n)[i].amount)
  {
    if n == 0 {
      assert start / start == 1.0;
    } else {
      TracePercent(table, start, from, n - 1);
    }
  }

  /** Each point of the timeline after the first follows the one before it. */
  lemma {:induction false} TraceSteps(table: Table, start: real, from: YearMonth, n: nat)
    requires start > 0.0
    ensures forall i :: 1 <= i < |Trace(table, start, from, n)| ==>
      StepFollows(table, start, Trace(table, start, from, n)[i - 1], Trace(table, start, from, n)[i])
  {
    if n > 0 {
      TraceSteps(table, start, from, n - 1);
      match Lookup(table, Advance(from, n - 1))
      case None =>
      case Some(r) =>
        LastStepFollows(table, start, from, n, r);
        var prev := Trace(table, start, from, n - 1);
        var t := Trace(table, start, from, n);
        assert t == prev + [RatedPoint(table, start, from, n, r)];
        forall i | 1 <= i < |t|
          ensures StepFollows(table, start, t[i - 1], t[i])
        {
          assert t[i - 1] == prev[i - 1];
          if i < |prev| {
            assert t[i] == prev[i];
          }
        }
    }
  }
}
