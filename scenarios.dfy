/** Worked requests against the inflation table. */
module Scenarios {
  import opened Wrappers
  import opened Calendar
  import opened RateTable
  import opened Growth
  import opened Compounding
  import opened Engine

  /** 100 pesos from January 2017 to April 2017: January, February and March compound. */
  lemma FirstQuarter2017()
    ensures Outcome(InflationData, FirstQuarterRequest()) ==
      Some(Calculation(100.0 * (1.013 * 1.025 * 1.024), (1.013 * 1.025 * 1.024 - 1.0) * 100.0, 3))
  {
    SampleRates();
    FirstQuarterOf(InflationData);
  }

  /** The form filled with 100, January 2017 and April 2017. */
  function FirstQuarterRequest(): Request
  {
    Request(Number(100.0), Some(2017), Some(1), Some(2017), Some(4))
  }

  lemma FirstQuarterOf(table: Table)
    requires Lookup(table, YearMonth(2017, 1)) == Some(1.3)
    requires Lookup(table, YearMonth(2017, 2)) == Some(2.5)
    requires Lookup(table, YearMonth(2017, 3)) == Some(2.4)
    ensures Outcome(table, FirstQuarterRequest()) ==
      Some(Calculation(100.0 * (1.013 * 1.025 * 1.024), (1.013 * 1.025 * 1.024 - 1.0) * 100.0, 3))
  {
    FirstQuarterRange();
    FirstQuarterRates(table);
    FirstQuarterFactor();
    FiguresOfFactor(100.0, [1.3, 2.5, 2.4], 1.013 * 1.025 * 1.024);
    ValidOutcome(table, FirstQuarterRequest());
  }

  lemma FirstQuarterRates(table: Table)
    requires Lookup(table, YearMonth(2017, 1)) == Some(1.3)
    requires Lookup(table, YearMonth(2017, 2)) == Some(2.5)
    requires Lookup(table, YearMonth(2017, 3)) == Some(2.4)
    ensures RangeRates(table, YearMonth(2017, 1), 3) == [1.3, 2.5, 2.4]
  {
    FirstQuarterCursors();
    RangeRatesRated(table, YearMonth(2017, 1), 1, 1.3);
    RangeRatesRated(table, YearMonth(2017, 1), 2, 2.5);
    RangeRatesRated(table, YearMonth(2017, 1), 3, 2.4);
  }

  lemma FirstQuarterCursors()
    ensures Advance(YearMonth(2017, 1), 0) == YearMonth(2017, 1)
    ensures Advance(YearMonth(2017, 1), 1) == YearMonth(2017, 2)
    ensures Advance(YearMonth(2017, 1), 2) == YearMonth(2017, 3)
  {
  }

  lemma FirstQuarterRange()
    ensures Validate(FirstQuarterRequest()) == Some(Range(100.0, YearMonth(2017, 1), YearMonth(2017, 4)))
    ensures Span(YearMonth(2017, 1), YearMonth(2017, 4)) == 3
  {
    FilledForm(100.0, 2017, 1, 2017, 4);
  }

  lemma FirstQuarterFactor()
    ensures Compound([1.3, 2.5, 2.4]) == 1.013 * 1.025 * 1.024
  {
    GrownSnoc(1.0, [], 1.3);
    assert [] + [1.3] == [1.3];
    GrownSnoc(1.0, [1.3], 2.5);
    assert [1.3] + [2.5] == [1.3, 2.5];
    GrownSnoc(1.0, [1.3, 2.5], 2.4);
    assert [1.3, 2.5] + [2.4] == [1.3, 2.5, 2.4];
  }

  /**
   * 100 pesos from March 2025 to July 2025, past the table's last month: March
   * and April compound, May and June have no rate and are skipped. The chart
   * holds the start and one point per rated month, each labelled with the
   * month after it.
   */
  lemma PastTheTable()
    ensures Outcome(InflationData, PastTheTableRequest()) ==
      Some(Calculation(100.0 * (1.023 * 1.02718), (1.023 * 1.02718 - 1.0) * 100.0, 2))
    ensures Timeline(InflationData, PastTheTableRequest()) == [
      ChartPoint(YearMonth(2025, 3), 100.0, 0.0, 0.0),
      ChartPoint(YearMonth(2025, 4), 102.3, 2.3, PercentChange(100.0, 102.3)),
      ChartPoint(YearMonth(2025, 5), 102.3 * 1.02718, 2.718, PercentChange(100.0, 102.3 * 1.02718))]
  {
    LastRates();
    PastTheTableOf(InflationData);
  }

  /** The form filled with 100, March 2025 and July 2025. */
  function PastTheTableRequest(): Request
  {
    Request(Number(100.0), Some(2025), Some(3), Some(2025), Some(7))
  }

  lemma PastTheTableOf(table: Table)
    requires Lookup(table, YearMonth(2025, 3)) == Some(2.3)
    requires Lookup(table, YearMonth(2025, 4)) == Some(2.718)
    requires Lookup(table, YearMonth(2025, 5)).None? && Lookup(table, YearMonth(2025, 6)).None?
    ensures Outcome(table, PastTheTableRequest()) ==
      Some(Calculation(100.0 * (1.023 * 1.02718), (1.023 * 1.02718 - 1.0) * 100.0, 2))
    ensures Timeline(table, PastTheTableRequest()) == [
      ChartPoint(YearMonth(2025, 3), 100.0, 0.0, 0.0),
      ChartPoint(YearMonth(2025, 4), 102.3, 2.3, PercentChange(100.0, 102.3)),
      ChartPoint(YearMonth(2025, 5), 102.3 * 1.02718, 2.718, PercentChange(100.0, 102.3 * 1.02718))]
  {
    FilledForm(100.0, 2025, 3, 2025, 7);
    assert Span(YearMonth(2025, 3), YearMonth(2025, 7)) == 4;
    PastTheTableRates(table);
    PastTheTableFactor();
    FiguresOfFactor(100.0, [2.3, 2.718], 1.023 * 1.02718);
    ValidOutcome(table, PastTheTableRequest());
    PastTheTableTrace(table);
  }

  lemma PastTheTableCursors()
    ensures Advance(YearMonth(2025, 3), 0) == YearMonth(2025, 3)
    ensures Advance(YearMonth(2025, 3), 1) == YearMonth(2025, 4)
    ensures Advance(YearMonth(2025, 3), 2) == YearMonth(2025, 5)
    ensures Advance(YearMonth(2025, 3), 3) == YearMonth(2025, 6)
    ensures Succ(YearMonth(2025, 3)) == YearMonth(2025, 4)
    ensures Succ(YearMonth(2025, 4)) == YearMonth(2025, 5)
  {
  }

  lemma PastTheTableRates(table: Table)
    requires Lookup(table, YearMonth(2025, 3)) == Some(2.3)
    requires Lookup(table, YearMonth(2025, 4)) == Some(2.718)
    requires Lookup(table, YearMonth(2025, 5)).None? && Lookup(table, YearMonth(2025, 6)).None?
    ensures RangeRates(table, YearMonth(2025, 3), 1) == [2.3]
    ensures RangeRates(table, YearMonth(2025, 3), 4) == [2.3, 2.718]
  {
    var from := YearMonth(2025, 3);
    PastTheTableCursors();
    RangeRatesRated(table, from, 1, 2.3);
    RangeRatesRated(table, from, 2, 2.718);
    RangeRatesGap(table, from, 3);
    RangeRatesGap(table, from, 4);
  }

  lemma PastTheTableFactor()
    ensures Compound([2.3, 2.718]) == 1.023 * 1.02718
    ensures Grown(100.0, []) == 100.0 && Grown(100.0, [2.3]) == 102.3
    ensures Grow(100.0, 2.3) == 102.3 && Grow(102.3, 2.718) == 102.3 * 1.02718
  {
    GrownSnoc(1.0, [], 2.3);
    assert [] + [2.3] == [2.3];
    GrownSnoc(1.0, [2.3], 2.718);
    assert [2.3] + [2.718] == [2.3, 2.718];
    GrownSnoc(100.0, [], 2.3);
  }

  lemma PastTheTableTrace(table: Table)
    requires Lookup(table, YearMonth(2025, 3)) == Some(2.3)
    requires Lookup(table, YearMonth(2025, 4)) == Some(2.718)
    requires Lookup(table, YearMonth(2025, 5)).None? && Lookup(table, YearMonth(2025, 6)).None?
    ensures Trace(table, 100.0, YearMonth(2025, 3), 4) == [
      ChartPoint(YearMonth(2025, 3), 100.0, 0.0, 0.0),
      ChartPoint(YearMonth(2025, 4), 102.3, 2.3, PercentChange(100.0, 102.3)),
      ChartPoint(YearMonth(2025, 5), 102.3 * 1.02718, 2.718, PercentChange(100.0, 102.3 * 1.02718))]
  {
    var from := YearMonth(2025, 3);
    PastTheTableCursors();
    PastTheTableRatedMonths(table);
    TraceGap(table, 100.0, from, 3);
    TraceGap(table, 100.0, from, 4);
  }

  lemma PastTheTableRatedMonths(table: Table)
    requires Lookup(table, YearMonth(2025, 3)) == Some(2.3)
    requires Lookup(table, YearMonth(2025, 4)) == Some(2.718)
    ensures Trace(table, 100.0, YearMonth(2025, 3), 2) == [
      ChartPoint(YearMonth(2025, 3), 100.0, 0.0, 0.0),
      ChartPoint(YearMonth(2025, 4), 102.3, 2.3, PercentChange(100.0, 102.3)),
      ChartPoint(YearMonth(2025, 5), 102.3 * 1.02718, 2.718, PercentChange(100.0, 102.3 * 1.02718))]
  {
    var from := YearMonth(2025, 3);
    PastTheTableCursors();
    PastTheTableFactor();
    assert RangeRates(table, from, 0) == [];
    RangeRatesRated(table, from, 1, 2.3);
    assert RangeRates(table, from, 1) == [2.3];
    assert Trace(table, 100.0, from, 0) == [ChartPoint(from, 100.0, 0.0, 0.0)];
    TraceRated(table, 100.0, from, 1, 2.3);
    TraceRated(table, 100.0, from, 2, 2.718);
  }

  /** A range whose end comes before its start shows the amount unchanged and draws no chart. */
  lemma BackwardRange()
    ensures Outcome(InflationData, BackwardRequest()) == Some(Calculation(50.0, 0.0, 0))
    ensures Timeline(InflationData, BackwardRequest()) == []
  {
    FilledForm(50.0, 2020, 6, 2019, 1);
    NotForwardRange(InflationData, BackwardRequest());
  }

  /** The form filled with 50, June 2020 and January 2019. */
  function BackwardRequest(): Request
  {
    Request(Number(50.0), Some(2020), Some(6), Some(2019), Some(1))
  }
}
