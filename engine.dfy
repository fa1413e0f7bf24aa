/**
 * The calculator: a request made of the form's five fields, its validation, the
 * figures the calculator shows (final amount, total inflation, months counted)
 * and the chart's timeline, each first as a specification and then as the
 * month-by-month loop that computes it.
 */
module Engine {
  import opened Wrappers
  import opened Calendar
  import opened RateTable
  import opened Growth
  import opened Compounding

  /** The amount field: left empty, not a number, or a parsed number. */
  datatype AmountInput = Blank | NotANumber | Number(value: real)

  /** The form's fields; `None` is a selector left empty. */
  datatype Request = Request(
    amount: AmountInput,
    fromYear: Option<int>, fromMonth: Option<int>,
    toYear: Option<int>, toMonth: Option<int>)

  /** A validated request: a positive start amount and the two cursors. */
  datatype Range = Range(start: real, from: YearMonth, to: YearMonth)

  /** The three figures the calculator shows. */
  datatype Calculation = Calculation(finalAmount: real, totalInflation: real, monthsCalculated: nat)

  /** Every field of the form has something in it. */
  predicate Filled(req: Request)
  {
    req.amount != Blank && req.fromYear.Some? && req.fromMonth.Some? && req.toYear.Some? && req.toMonth.Some?
  }

  /**
   * The range a request asks for: none when a field is empty or the amount is
   * not a positive number; otherwise the amount and the first-of-month dates
   * the `Date` constructor makes of the selected years and months.
   */
  function Validate(req: Request): (r: Option<Range>)
    ensures r.Some? <==> Filled(req) && req.amount.Number? && req.amount.value > 0.0
    ensures r.Some? ==>
      && r.value.start == req.amount.value
      && Index(r.value.from) == FullYear(req.fromYear.value) * 12 + req.fromMonth.value - 1
      && Index(r.value.to) == FullYear(req.toYear.value) * 12 + req.toMonth.value - 1
  {
    if !Filled(req) then None
    else if req.amount.NotANumber? || req.amount.value <= 0.0 then None
    else Some(Range(
      req.amount.value,
      MakeCursor(req.fromYear.value, req.fromMonth.value),
      MakeCursor(req.toYear.value, req.toMonth.value)))
  }

  /**
   * A form filled with a positive amount, months in 1..12 and years the `Date`
   * constructor takes as they are asks for exactly those two months.
   */
  lemma FilledForm(amount: real, fromYear: int, fromMonth: int, toYear: int, toMonth: int)
    requires amount > 0.0
    requires 1 <= fromMonth <= 12 && 1 <= toMonth <= 12
    requires !(0 <= fromYear <= 99) && !(0 <= toYear <= 99)
    ensures Validate(Request(Number(amount), Some(fromYear), Some(fromMonth), Some(toYear), Some(toMonth))) ==
      Some(Range(amount, YearMonth(fromYear, fromMonth), YearMonth(toYear, toMonth)))
  {
  }

  /** The number of months the walk visits: from `from` up to, not including, `to`; none when `to` is not later. */
  function Span(from: YearMonth, to: YearMonth): nat
  {
    if Before(from, to) then Index(to) - Index(from) else 0
  }

  /**
   * The figures a request gives against `table`: none for an invalid request
   * (the calculator keeps showing the previous ones); otherwise the amount grown by every recorded rate of the
   * months from `from` (included) to `to` (excluded), the total change in
   * percent, and the number of those months.
   */
  function Outcome(table: Table, req: Request): (r: Option<Calculation>)
    ensures r.Some? <==> Validate(req).Some?
    ensures r.Some? ==> r.value.monthsCalculated <= Span(Validate(req).value.from, Validate(req).value.to)
  {
    match Validate(req)
    case None => None
    case Some(Range(start, from, to)) =>
      RangeRatesBound(table, from, Span(from, to));
      Some(Figures(start, RangeRates(table, from, Span(from, to))))
  }

  /**
   * The figures for `start` over a stretch whose applied rates are `rs`: the
   * start amount times the growth factor, the factor's change in percent, and
   * the number of rates applied.
   */
  function Figures(start: real, rs: seq<real>): Calculation
  {
    Calculation(start * Compound(rs), (Compound(rs) - 1.0) * 100.0, |rs|)
  }

  /**
   * The chart's timeline for a request against `table`: empty for an invalid
   * request or a range that is not forward; otherwise the starting point and one
   * point per month of the range that has a rate.
   */
  function Timeline(table: Table, req: Request): (t: seq<ChartPoint>)
    ensures t != [] <==> Validate(req).Some? && Before(Validate(req).value.from, Validate(req).value.to)
    ensures t != [] ==> t[0] == ChartPoint(Validate(req).value.from, Validate(req).value.start, 0.0, 0.0)
  {
    match Validate(req)
    case None => []
    case Some(Range(start, from, to)) =>
      if Before(from, to) then Trace(table, start, from, Span(from, to)) else []
  }

  /** The figures in terms of an already computed growth factor. */
  lemma FiguresOfFactor(start: real, rs: seq<real>, factor: real)
    requires factor == Compound(rs)
    ensures Figures(start, rs) == Calculation(start * factor, (factor - 1.0) * 100.0, |rs|)
  {
  }

  /** The figures of a valid request, spelled out over its range. */
  lemma ValidOutcome(table: Table, req: Request)
    requires Validate(req).Some?
    ensures Outcome(table, req) == Some(Figures(Validate(req).value.start, RangeRates(table, Validate(req).value.from, Span(Validate(req).value.from, Validate(req).value.to))))
  {
  }

  /**
   * A valid request whose end is not after its start shows the amount itself,
   * 0% and no months, and draws no chart.
   */
  lemma NotForwardRange(table: Table, req: Request)
    requires Validate(req).Some? && !Before(Validate(req).value.from, Validate(req).value.to)
    ensures Outcome(table, req) == Some(Calculation(Validate(req).value.start, 0.0, 0))
    ensures Timeline(table, req) == []
  {
    var v := Validate(req).value;
    assert RangeRates(table, v.from, 0) == [];
    assert Compound([]) == 1.0;
  }

  /**
   * A request gives no new figures (the calculator keeps the previous ones)
   * exactly when a field is empty or the amount is not a positive number; such
   * a request draws no chart either.
   */
  lemma NoOutcomeIffInvalid(table: Table, req: Request)
    ensures Outcome(table, req).None? <==>
      !Filled(req) || req.amount.NotANumber? || (req.amount.Number? && req.amount.value <= 0.0)
    ensures Outcome(table, req).None? ==> Timeline(table, req) == []
  {
  }

  /** The walk of a range visits exactly the months from `from` (included) to `to` (excluded). */
  lemma SpanCovers(from: YearMonth, to: YearMonth, c: YearMonth)
    ensures c in Walk(from, Span(from, to)) <==> !Before(c, from) && Before(c, to)
  {
    WalkCovers(from, Span(from, to), c);
  }

  /**
   * The months counted are the months of the range that have a rate, one for
   * one: a month without data is skipped, not counted as 0%, and the rates that
   * compound are those months' rates in order.
   */
  lemma MonthsCounted(table: Table, req: Request)
    requires Validate(req).Some?
    ensures var v := Validate(req).value;
      var recorded := RecordedMonths(table, Walk(v.from, Span(v.from, v.to)));
      && Outcome(table, req).Some?
      && Outcome(table, req).value.monthsCalculated == |recorded|
      && (forall c :: c in recorded <==> !Before(c, v.from) && Before(c, v.to) && Lookup(table, c).Some?)
      && (forall i, j :: 0 <= i < j < |recorded| ==> Before(recorded[i], recorded[j]))
      && (forall i :: 0 <= i < |recorded| ==>
            Lookup(table, recorded[i]) == Some(RangeRates(table, v.from, Span(v.from, v.to))[i]))
  {
    var v := Validate(req).value;
    var n := Span(v.from, v.to);
    ValidOutcome(table, req);
    RangeRatesOfWalk(table, v.from, n);
    AppliedRatesAreRecorded(table, Walk(v.from, n));
    WalkChronological(v.from, n);
    RecordedMonthsChronological(table, Walk(v.from, n));
    forall c
      ensures c in Walk(v.from, n) <==> !Before(c, v.from) && Before(c, v.to)
    {
      SpanCovers(v.from, v.to, c);
    }
  }

  /** The final amount is the start amount grown by the total inflation. */
  lemma FinalAmountMatchesTotal(table: Table, req: Request)
    requires Outcome(table, req).Some?
    ensures Outcome(table, req).value.finalAmount ==
      Validate(req).value.start * (1.0 + Outcome(table, req).value.totalInflation / 100.0)
  {
    var v := Validate(req).value;
    ValidOutcome(table, req);
    FactorOfPercent(v.start, Compound(RangeRates(table, v.from, Span(v.from, v.to))));
  }

  /**
   * Consecutive ranges chain: growing an amount from `a` to `c` is growing it
   * from `a` to `b` and then growing the result from `b` to `c`.
   */
  lemma ConsecutiveRanges(table: Table, amount: real, a: YearMonth, b: YearMonth, c: YearMonth)
    requires !Before(b, a) && !Before(c, b)
    ensures Grown(amount, RangeRates(table, a, Span(a, c))) ==
      Grown(Grown(amount, RangeRates(table, a, Span(a, b))), RangeRates(table, b, Span(b, c)))
  {
    SpansAdd(a, b, c);
    RangeRatesSplit(table, a, Span(a, b), Span(b, c));
    GrownConcat(amount, RangeRates(table, a, Span(a, b)), RangeRates(table, b, Span(b, c)));
  }

  /** The months from `a` to `c` are those from `a` to `b` followed by those from `b` to `c`. */
  lemma SpansAdd(a: YearMonth, b: YearMonth, c: YearMonth)
    requires !Before(b, a) && !Before(c, b)
    ensures Span(a, c) == Span(a, b) + Span(b, c)
    ensures Advance(a, Span(a, b)) == b
  {
    IndexInjective(Advance(a, Span(a, b)), b);
  }

  /**
   * With the app's table, a range within January 2017 to April 2025 counts every
   * month it spans: no month inside the table lacks a rate.
   */
  lemma FullRangeCountsEveryMonth(req: Request)
    requires Validate(req).Some?
    requires !Before(Validate(req).value.from, YearMonth(2017, 1))
    requires !Before(YearMonth(2025, 5), Validate(req).value.to)
    ensures Outcome(InflationData, req).value.monthsCalculated == Span(Validate(req).value.from, Validate(req).value.to)
  {
    var v := Validate(req).value;
    var n := Span(v.from, v.to);
    var w := Walk(v.from, n);
    ValidOutcome(InflationData, req);
    RangeRatesOfWalk(InflationData, v.from, n);
    forall i | 0 <= i < |w|
      ensures Lookup(InflationData, w[i]).Some?
    {
      RateDomain(w[i]);
    }
    AppliedRatesFull(InflationData, w);
  }

  /** A factor is recovered from its change in percent. */
  lemma FactorOfPercent(start: real, factor: real)
    ensures start * factor == start * (1.0 + (factor - 1.0) * 100.0 / 100.0)
  {
    assert (factor - 1.0) * 100.0 / 100.0 == factor - 1.0;
  }

  /** The change in percent of `start` grown by a factor is the factor's change in percent. */
  lemma PercentOfScaled(start: real, factor: real)
    requires start > 0.0
    ensures PercentChange(start, start * factor) == (factor - 1.0) * 100.0
  {
    assert (start * factor) / start == factor;
  }

  /**
   * For a forward range the chart agrees with the figures: one point more than
   * the months counted, starting at the start month with the amount and 0%, and
   * ending at the final amount and the total inflation.
   */
  lemma TimelineMatchesOutcome(table: Table, req: Request)
    requires Validate(req).Some? && Before(Validate(req).value.from, Validate(req).value.to)
    ensures var v := Validate(req).value;
      var t := Timeline(table, req);
      var c := Outcome(table, req).value;
      && Outcome(table, req).Some?
      && |t| == c.monthsCalculated + 1
      && t[0] == ChartPoint(v.from, v.start, 0.0, 0.0)
      && Last(t).amount == c.finalAmount
      && Last(t).cumulativeInflation == c.totalInflation
  {
    var v := Validate(req).value;
    var n := Span(v.from, v.to);
    ValidOutcome(table, req);
    TraceLength(table, v.start, v.from, n);
    TraceEndsWith(table, v.start, v.from, n);
    LastPointFigures(table, v.start, v.from, n);
  }

  /** The last point of a walk shows the walk's figures: its final amount and its total inflation. */
  lemma LastPointFigures(table: Table, start: real, from: YearMonth, n: nat)
    requires start > 0.0
    ensures var p := LastPoint(table, start, from, n);
      var c := Figures(start, RangeRates(table, from, n));
      p.amount == c.finalAmount && p.cumulativeInflation == c.totalInflation
  {
    var p := LastPoint(table, start, from, n);
    LastPointCarries(table, start, from, n);
    FiguresOfGrown(start, RangeRates(table, from, n), p.amount, p.cumulativeInflation);
  }

  /** An amount grown by `rs`, and its change in percent, are the figures for `rs`. */
  lemma FiguresOfGrown(start: real, rs: seq<real>, amount: real, change: real)
    requires start > 0.0
    requires amount == Grown(start, rs) && change == PercentChange(start, amount)
    ensures amount == Figures(start, rs).finalAmount && change == Figures(start, rs).totalInflation
  {
    GrownIsScaled(start, rs);
    PercentOfScaled(start, Compound(rs));
  }

  /**
   * Every later point of a chart follows the one before it: its amount is the
   * previous amount grown by the rate it shows, that rate is the one recorded for
   * the month before its label, its cumulative change is measured against the
   * start amount, and its label is later and no later than the end month.
   */
  lemma TimelineSteps(table: Table, req: Request)
    requires Validate(req).Some?
    ensures var t := Timeline(table, req);
      var v := Validate(req).value;
      && (forall i :: 1 <= i < |t| ==> StepFollows(table, v.start, t[i - 1], t[i]))
      && (forall i :: 0 <= i < |t| ==> !Before(t[i].cursor, v.from) && !Before(v.to, t[i].cursor))
  {
    var v := Validate(req).value;
    if Before(v.from, v.to) {
      TraceSteps(table, v.start, v.from, Span(v.from, v.to));
      TraceCursorBound(table, v.start, v.from, Span(v.from, v.to));
    }
  }

  /**
   * When every rate of the table is a price increase, money never loses nominal
   * value: the final amount is at least the start amount and the total inflation
   * is not negative; once a month is counted both are strictly greater.
   */
  lemma NeverShrinks(table: Table, req: Request)
    requires AllRatesPositive(table)
    requires Outcome(table, req).Some?
    ensures var c := Outcome(table, req).value;
      && c.finalAmount >= Validate(req).value.start
      && c.totalInflation >= 0.0
      && (c.monthsCalculated > 0 ==> c.finalAmount > Validate(req).value.start && c.totalInflation > 0.0)
  {
    var v := Validate(req).value;
    ValidOutcome(table, req);
    RangeRatesPositive(table, v.from, Span(v.from, v.to));
    FiguresGrow(v.start, RangeRates(table, v.from, Span(v.from, v.to)));
  }

  /** Figures over price increases only: the amount and the change never fall, and rise once a rate applies. */
  lemma FiguresGrow(start: real, rs: seq<real>)
    requires start > 0.0
    requires forall i :: 0 <= i < |rs| ==> rs[i] > 0.0
    ensures var c := Figures(start, rs);
      && c.finalAmount >= start
      && c.totalInflation >= 0.0
      && (c.monthsCalculated > 0 ==> c.finalAmount > start && c.totalInflation > 0.0)
  {
    GrownGrows(1.0, rs);
    ScaleByFactor(start, Compound(rs));
  }

  /** A positive amount times a factor of at least one is at least the amount. */
  lemma ScaleByFactor(start: real, factor: real)
    requires start > 0.0 && factor >= 1.0
    ensures start * factor >= start
    ensures factor > 1.0 ==> start * factor > start
  {
  }

  /** With the inflation table, money never loses nominal value. */
  lemma AmountNeverShrinks(req: Request)
    requires Outcome(InflationData, req).Some?
    ensures var c := Outcome(InflationData, req).value;
      && c.finalAmount >= Validate(req).value.start
      && c.totalInflation >= 0.0
      && (c.monthsCalculated > 0 ==> c.finalAmount > Validate(req).value.start && c.totalInflation > 0.0)
  {
    RatesPositive();
    NeverShrinks(InflationData, req);
  }

  /** A month of the calculator's walk with rate `r`: the factor grows by `r` and the count by one. */
  lemma FactorRatedStep(table: Table, from: YearMonth, k: nat, r: real, factor: real, count: nat)
    requires Lookup(table, Advance(from, k)) == Some(r)
    requires factor == Compound(RangeRates(table, from, k))
    requires count == |RangeRates(table, from, k)|
    ensures Grow(factor, r) == Compound(RangeRates(table, from, k + 1))
    ensures count + 1 == |RangeRates(table, from, k + 1)|
  {
    CompoundStep(table, from, k, r);
  }

  /** A month of the calculator's walk without a rate changes neither the factor nor the count. */
  lemma FactorGapStep(table: Table, from: YearMonth, k: nat, factor: real, count: nat)
    requires Lookup(table, Advance(from, k)).None?
    requires factor == Compound(RangeRates(table, from, k))
    requires count == |RangeRates(table, from, k)|
    ensures factor == Compound(RangeRates(table, from, k + 1))
    ensures count == |RangeRates(table, from, k + 1)|
  {
    RangeRatesGap(table, from, k + 1);
  }

  /**
   * The month-by-month walk of the calculator from `startDate` up to, not
   * including, `endDate`: every month with a rate multiplies the factor by
   * (1 + rate/100) and is counted; a month without one is skipped.
   */
  method AccumulateRates(table: Table, startDate: YearMonth, endDate: YearMonth)
    returns (cumulativeInflation: real, monthCount: nat)
    ensures cumulativeInflation == Compound(RangeRates(table, startDate, Span(startDate, endDate)))
    ensures monthCount == |RangeRates(table, startDate, Span(startDate, endDate))|
  {
    cumulativeInflation := 1.0;
    monthCount := 0;
    var currentDate := startDate;
    ghost var k := 0;
    while Before(currentDate, endDate)
      invariant 0 <= k <= Span(startDate, endDate)
      invariant currentDate == Advance(startDate, k)
      invariant cumulativeInflation == Compound(RangeRates(table, startDate, k))
      invariant monthCount == |RangeRates(table, startDate, k)|
      decreases Index(endDate) - Index(currentDate)
    {
      match Lookup(table, currentDate) {
        case Some(rate) =>
          FactorRatedStep(table, startDate, k, rate, cumulativeInflation, monthCount);
          cumulativeInflation := Grow(cumulativeInflation, rate);
          monthCount := monthCount + 1;
        case None =>
          FactorGapStep(table, startDate, k, cumulativeInflation, monthCount);
      }
      currentDate := Succ(currentDate);
      k := k + 1;
    }
  }

  /**
   * The chart's walk from `startDate` up to, not including, `endDate`: the
   * starting point, then, for every month with a rate, the running amount grown
   * by that rate, labelled with the month after it; a month without a rate adds nothing.
   */
  method ChartWalk(table: Table, startAmount: real, startDate: YearMonth, endDate: YearMonth)
    returns (chartData: seq<ChartPoint>)
    requires startAmount > 0.0
    ensures chartData == Trace(table, startAmount, startDate, Span(startDate, endDate))
  {
    chartData := [];
    var currentAmount := startAmount;
    var currentDate := startDate;
    chartData := chartData + [ChartPoint(currentDate, currentAmount, 0.0, 0.0)];
    ghost var k := 0;
    while Before(currentDate, endDate)
      invariant 0 <= k <= Span(startDate, endDate)
      invariant currentDate == Advance(startDate, k)
      invariant currentAmount == Grown(startAmount, RangeRates(table, startDate, k))
      invariant chartData == Trace(table, startAmount, startDate, k)
      decreases Index(endDate) - Index(currentDate)
    {
      match Lookup(table, currentDate) {
        case Some(monthlyRate) =>
          ChartRatedStep(table, startAmount, startDate, k, monthlyRate, currentAmount, chartData);
          currentAmount := Grow(currentAmount, monthlyRate);
          currentDate := Succ(currentDate);
          chartData := chartData + [ChartPoint(currentDate, currentAmount, monthlyRate, PercentChange(startAmount, currentAmount))];
        case None =>
          ChartGapStep(table, startAmount, startDate, k, currentAmount, chartData);
          currentDate := Succ(currentDate);
      }
      k := k + 1;
    }
  }

  /** A month of the chart walk with rate `r`: the running amount grows by `r` and the timeline gains that month's point. */
  lemma ChartRatedStep(table: Table, start: real, from: YearMonth, k: nat, r: real, amount: real, chart: seq<ChartPoint>)
    requires start > 0.0
    requires Lookup(table, Advance(from, k)) == Some(r)
    requires amount == Grown(start, RangeRates(table, from, k))
    requires chart == Trace(table, start, from, k)
    ensures Grow(amount, r) == Grown(start, RangeRates(table, from, k + 1))
    ensures chart + [ChartPoint(Succ(Advance(from, k)), Grow(amount, r), r, PercentChange(start, Grow(amount, r)))] ==
      Trace(table, start, from, k + 1)
  {
    TraceRated(table, start, from, k + 1, r);
    GrownStep(table, start, from, k, r);
  }

  /** A month of the chart walk without a rate changes neither the running amount nor the timeline. */
  lemma ChartGapStep(table: Table, start: real, from: YearMonth, k: nat, amount: real, chart: seq<ChartPoint>)
    requires start > 0.0
    requires Lookup(table, Advance(from, k)).None?
    requires amount == Grown(start, RangeRates(table, from, k))
    requires chart == Trace(table, start, from, k)
    ensures amount == Grown(start, RangeRates(table, from, k + 1))
    ensures chart == Trace(table, start, from, k + 1)
  {
    TraceGap(table, start, from, k + 1);
  }

  /**
   * The calculator's state: the form's fields and the three figures it shows,
   * each updated in place. The rate table is fixed at construction.
   */
  class Calculator {
    const table: Table
    var amount: AmountInput
    var fromMonth: Option<int>
    var fromYear: Option<int>
    var toMonth: Option<int>
    var toYear: Option<int>
    var result: Option<real>
    var totalInflation: Option<real>
    var monthsCalculated: nat

    /** An empty form and nothing shown yet. */
    constructor(table: Table)
      ensures this.table == table
      ensures Form() == Request(Blank, None, None, None, None)
      ensures result == None && totalInflation == None && monthsCalculated == 0
    {
      this.table := table;
      amount := Blank;
      fromMonth, fromYear, toMonth, toYear := None, None, None, None;
      result, totalInflation, monthsCalculated := None, None, 0;
    }

    /** The request the form's fields make up. */
    function Form(): Request
      reads this`amount, this`fromYear, this`fromMonth, this`toYear, this`toMonth
    {
      Request(amount, fromYear, fromMonth, toYear, toMonth)
    }

    /**
     * Recomputes the shown figures from the form. An invalid form leaves the
     * figures as they were; a valid one shows exactly the `Outcome` of the form.
     */
    method CalculateInflation()
      modifies this`result, this`totalInflation, this`monthsCalculated
      ensures match Outcome(table, Form())
        case None =>
          result == old(result) && totalInflation == old(totalInflation) && monthsCalculated == old(monthsCalculated)
        case Some(c) =>
          result == Some(c.finalAmount) && totalInflation == Some(c.totalInflation) && monthsCalculated == c.monthsCalculated
    {
      if amount == Blank || fromMonth.None? || fromYear.None? || toMonth.None? || toYear.None? {
        assert Outcome(table, Form()) == None;
        return;
      }
      if amount.NotANumber? || amount.value <= 0.0 {
        assert Outcome(table, Form()) == None;
        return;
      }
      var startAmount := amount.value;
      var startDate := MakeCursor(fromYear.value, fromMonth.value);
      var endDate := MakeCursor(toYear.value, toMonth.value);
      if !Before(startDate, endDate) {
        NotForwardRange(table, Form());
        result, totalInflation, monthsCalculated := Some(startAmount), Some(0.0), 0;
        return;
      }
      var cumulativeInflation, monthCount := AccumulateRates(table, startDate, endDate);
      ValidOutcome(table, Form());
      FiguresOfFactor(startAmount, RangeRates(table, startDate, Span(startDate, endDate)), cumulativeInflation);
      var finalAmount := startAmount * cumulativeInflation;
      var totalInflationPercentage := (cumulativeInflation - 1.0) * 100.0;
      result, totalInflation, monthsCalculated := Some(finalAmount), Some(totalInflationPercentage), monthCount;
    }

    /**
     * The chart's points for the form: the starting point, then, for each month
     * of the range with a rate, a point labelled with the month after it.
     */
    method GenerateChartData() returns (chartData: seq<ChartPoint>)
      ensures chartData == Timeline(table, Form())
    {
      if amount == Blank || fromMonth.None? || fromYear.None? || toMonth.None? || toYear.None? {
        assert Validate(Form()) == None;
        return [];
      }
      if amount.NotANumber? || amount.value <= 0.0 {
        assert Validate(Form()) == None;
        return [];
      }
      var startAmount := amount.value;
      var startDate := MakeCursor(fromYear.value, fromMonth.value);
      var endDate := MakeCursor(toYear.value, toMonth.value);
      if !Before(startDate, endDate) {
        NotForwardRange(table, Form());
        return [];
      }
      chartData := ChartWalk(table, startAmount, startDate, endDate);
    }
  }
}
