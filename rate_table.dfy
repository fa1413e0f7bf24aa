/**
 * The monthly inflation table: a constant, sparse two-level map from year to month
 * to a percentage rate (`6.5` is +6.5% over the month). A missing year or month
 * means "no data", which is not the same as a 0% month.
 */
module RateTable {
  import opened Wrappers
  import opened Calendar
  import opened Ordering

  /** The table: every month of 2017 to 2024, and January to April of 2025. */
  const InflationData: Table := map[
    2017 := map[1 := 1.3, 2 := 2.5, 3 := 2.4, 4 := 2.6, 5 := 1.3, 6 := 1.2,
                7 := 1.7, 8 := 1.4, 9 := 1.9, 10 := 1.5, 11 := 1.4, 12 := 3.1],
    2018 := map[1 := 1.8, 2 := 2.4, 3 := 2.3, 4 := 2.7, 5 := 2.1, 6 := 3.7,
                7 := 3.1, 8 := 3.9, 9 := 6.5, 10 := 5.4, 11 := 3.2, 12 := 3.7],
    2019 := map[1 := 2.9, 2 := 3.8, 3 := 4.7, 4 := 3.4, 5 := 3.1, 6 := 2.7,
                7 := 2.2, 8 := 4.0, 9 := 5.9, 10 := 3.3, 11 := 4.3, 12 := 3.7],
    2020 := map[1 := 2.3, 2 := 2.0, 3 := 3.3, 4 := 1.5, 5 := 1.5, 6 := 2.2,
                7 := 1.9, 8 := 2.7, 9 := 2.8, 10 := 3.8, 11 := 3.2, 12 := 4.0],
    2021 := map[1 := 4.0, 2 := 3.6, 3 := 4.8, 4 := 4.1, 5 := 3.3, 6 := 3.2,
                7 := 3.0, 8 := 2.5, 9 := 3.5, 10 := 3.5, 11 := 2.5, 12 := 3.8],
    2022 := map[1 := 3.9, 2 := 4.7, 3 := 6.7, 4 := 5.1, 5 := 5.1, 6 := 5.3,
                7 := 7.4, 8 := 7.0, 9 := 6.2, 10 := 6.3, 11 := 4.9, 12 := 5.1],
    2023 := map[1 := 6.0, 2 := 6.6, 3 := 7.7, 4 := 8.4, 5 := 7.8, 6 := 6.0,
                7 := 6.3, 8 := 12.4, 9 := 12.7, 10 := 8.3, 11 := 12.8, 12 := 25.5],
    2024 := map[1 := 20.6, 2 := 13.2, 3 := 11.0, 4 := 8.8, 5 := 4.2, 6 := 4.6,
                7 := 4.0, 8 := 4.2, 9 := 3.5, 10 := 2.7, 11 := 2.4, 12 := 2.4],
    2025 := map[1 := 2.781, 2 := 2.5, 3 := 2.3, 4 := 2.718]
  ]

  /** A rate table: year to month to percentage rate. */
  type Table = map<int, map<int, real> >

  /**
   * The rate `table` records for a month, or None when the year or the month has
   * no entry: a missing year and a missing month are reported alike.
   */
  function Lookup(table: Table, c: YearMonth): Option<real>
  {
    if c.year in table && c.month in table[c.year]
    then Some(table[c.year][c.month])
    else None
  }

  /** A month has a rate exactly when its year's row holds it, and the rate is that entry. */
  lemma LookupRecorded(table: Table, c: YearMonth)
    ensures Lookup(table, c).Some? <==> c.year in table && c.month in table[c.year]
    ensures Lookup(table, c).Some? ==> Lookup(table, c).value == table[c.year][c.month]
  {
  }

  /** The rate the inflation table records for a month. */
  function Rate(c: YearMonth): Option<real>
  {
    Lookup(InflationData, c)
  }

  /** The table's extent: 2017-01 through 2025-04, with no gap inside. */
  lemma RateDomain(c: YearMonth)
    ensures Rate(c).Some? <==> 2017 <= c.year <= 2024 || (c.year == 2025 && c.month <= 4)
  {
    TableYears();
    if c.year in InflationData {
      RowFacts(c.year);
    }
  }

  /** Every rate of `table` is a price increase. */
  ghost predicate AllRatesPositive(table: Table)
  {
    forall c: YearMonth :: Lookup(table, c).Some? ==> Lookup(table, c).value > 0.0
  }

  /** Every rate of the inflation table is a price increase. */
  lemma RatesPositive()
    ensures AllRatesPositive(InflationData)
  {
    forall c: YearMonth
      ensures Lookup(InflationData, c).Some? ==> Lookup(InflationData, c).value > 0.0
    {
      RatePositive(c);
    }
  }

  /** The rate recorded for any one month is positive. */
  lemma RatePositive(c: YearMonth)
    ensures Rate(c).Some? ==> Rate(c).value > 0.0
  {
    if c.year in InflationData {
      RowFacts(c.year);
    }
  }

  /** Every rate a row of the table holds is positive. */
  predicate PositiveRow(row: map<int, real>)
  {
    forall m :: m in row ==> row[m] > 0.0
  }

  /** The table has a row for each year from 2017 to 2025 and for no other year. */
  lemma TableYears()
    ensures forall y :: y in InflationData <==> 2017 <= y <= 2025
  {
  }

  /** A row holds exactly the months 1 to `last`. */
  ghost predicate HoldsMonthsTo(row: map<int, real>, last: int)
  {
    forall m :: m in row <==> 1 <= m <= last
  }

  /**
   * Each row of the table holds positive rates only, for every month of its year,
   * except 2025, which stops after April; checked row by row.
   */
  lemma RowFacts(y: int)
    requires y in InflationData
    ensures PositiveRow(InflationData[y])
    ensures HoldsMonthsTo(InflationData[y], if y == 2025 then 4 else 12)
  {
    if y == 2017 {
      Row2017Positive();
      Row2017Months();
    } else if y == 2018 {
      Row2018Positive();
      Row2018Months();
    } else if y == 2019 {
      Row2019Positive();
      Row2019Months();
    } else if y == 2020 {
      Row2020Positive();
      Row2020Months();
    } else if y == 2021 {
      Row2021Positive();
      Row2021Months();
    } else if y == 2022 {
      Row2022Positive();
      Row2022Months();
    } else if y == 2023 {
      Row2023Positive();
      Row2023Months();
    } else if y == 2024 {
      Row2024Positive();
      Row2024Months();
    } else {
      Row2025Positive();
      Row2025Months();
    }
  }

  // Two lemmas per row (its rates, its months), so that each proof reads one year of the table only.
  lemma Row2017Positive()
    ensures PositiveRow(InflationData[2017])
  {
  }

  lemma Row2017Months()
    ensures HoldsMonthsTo(InflationData[2017], 12)
  {
  }

  lemma Row2018Positive()
    ensures PositiveRow(InflationData[2018])
  {
  }

  lemma Row2018Months()
    ensures HoldsMonthsTo(InflationData[2018], 12)
  {
  }

  lemma Row2019Positive()
    ensures PositiveRow(InflationData[2019])
  {
  }

  lemma Row2019Months()
    ensures HoldsMonthsTo(InflationData[2019], 12)
  {
  }

  lemma Row2020Positive()
    ensures PositiveRow(InflationData[2020])
  {
  }

  lemma Row2020Months()
    ensures HoldsMonthsTo(InflationData[2020], 12)
  {
  }

  lemma Row2021Positive()
    ensures PositiveRow(InflationData[2021])
  {
  }

  lemma Row2021Months()
    ensures HoldsMonthsTo(InflationData[2021], 12)
  {
  }

  lemma Row2022Positive()
    ensures PositiveRow(InflationData[2022])
  {
  }

  lemma Row2022Months()
    ensures HoldsMonthsTo(InflationData[2022], 12)
  {
  }

  lemma Row2023Positive()
    ensures PositiveRow(InflationData[2023])
  {
  }

  lemma Row2023Months()
    ensures HoldsMonthsTo(InflationData[2023], 12)
  {
  }

  lemma Row2024Positive()
    ensures PositiveRow(InflationData[2024])
  {
  }

  lemma Row2024Months()
    ensures HoldsMonthsTo(InflationData[2024], 12)
  {
  }

  lemma Row2025Positive()
    ensures PositiveRow(InflationData[2025])
  {
  }

  lemma Row2025Months()
    ensures HoldsMonthsTo(InflationData[2025], 4)
  {
  }

  /** Sample entries: the three months of the January-to-April 2017 example. */
  lemma SampleRates()
    ensures Rate(YearMonth(2017, 1)) == Some(1.3)
    ensures Rate(YearMonth(2017, 2)) == Some(2.5)
    ensures Rate(YearMonth(2017, 3)) == Some(2.4)
    ensures Rate(YearMonth(2025, 5)) == None && Rate(YearMonth(2016, 12)) == None
  {
    January2017();
    February2017();
    March2017();
    OutsideTheTable();
  }

  // One lookup per lemma, so that each proof reads a single entry of the table.
  lemma January2017()
    ensures Rate(YearMonth(2017, 1)) == Some(1.3)
  {
  }

  lemma February2017()
    ensures Rate(YearMonth(2017, 2)) == Some(2.5)
  {
  }

  lemma March2017()
    ensures Rate(YearMonth(2017, 3)) == Some(2.4)
  {
  }

  /** May 2025 and December 2016 lie outside the table. */
  lemma OutsideTheTable()
    ensures Rate(YearMonth(2025, 5)) == None && Rate(YearMonth(2016, 12)) == None
  {
  }

  /** The last recorded months, and the first months past them. */
  lemma LastRates()
    ensures Rate(YearMonth(2025, 3)) == Some(2.3)
    ensures Rate(YearMonth(2025, 4)) == Some(2.718)
    ensures Rate(YearMonth(2025, 5)) == None && Rate(YearMonth(2025, 6)) == None
  {
  }

  /** The twelve month numbers, in order. */
  function AllMonths(): (ms: seq<int>)
    ensures StrictlyIncreasing(ms)
    ensures forall m :: m in ms <==> 1 <= m <= 12
  {
    var ms := seq(12, i => i + 1);
    assert forall m :: 1 <= m <= 12 ==> m in ms by {
      forall m | 1 <= m <= 12
        ensures m in ms
      {
        assert ms[m - 1] == m;
      }
    }
    ms
  }

  /** The months of `ms` that have an entry in `row`, in their order in `ms`. */
  function KeepRecorded(row: map<int, real>, ms: seq<int>): (r: seq<int>)
    ensures forall m :: m in r <==> m in ms && m in row
    ensures StrictlyIncreasing(ms) ==> StrictlyIncreasing(r)
  {
    if ms == [] then []
    else
      var rest := KeepRecorded(row, ms[1..]);
      var r := (if ms[0] in row then [ms[0]] else []) + rest;
      assert StrictlyIncreasing(ms) ==> StrictlyIncreasing(r) by {
        if StrictlyIncreasing(ms) {
          assert StrictlyIncreasing(ms[1..]);
          forall i, j | 0 <= i < j < |r|
            ensures r[i] < r[j]
          {
            if ms[0] in row && i == 0 {
              assert r[j] == rest[j - 1] && rest[j - 1] in rest;
              var k :| 1 <= k < |ms| && ms[k] == r[j];
            }
          }
        }
      }
      r
  }

  /**
   * The months offered for a selected year of `table`: all twelve when no year is
   * selected or the year has no data, otherwise exactly the recorded months in
   * ascending order.
   */
  function MonthsOffered(table: Table, selectedYear: Option<int>): (ms: seq<int>)
    ensures StrictlyIncreasing(ms)
    ensures selectedYear.None? || selectedYear.value !in table ==> ms == AllMonths()
    ensures selectedYear.Some? && selectedYear.value in table ==>
      forall m :: m in ms <==> 1 <= m <= 12 && m in table[selectedYear.value]
  {
    if selectedYear.None? || selectedYear.value !in table then AllMonths()
    else KeepRecorded(table[selectedYear.value], AllMonths())
  }

  /** The months the month pickers offer for a selected year of the inflation table. */
  function AvailableMonths(selectedYear: Option<int>): (ms: seq<int>)
    ensures StrictlyIncreasing(ms)
    ensures selectedYear.None? ==> ms == AllMonths()
    ensures selectedYear.Some? && selectedYear.value in InflationData ==>
      forall m :: m in ms <==> 1 <= m <= 12 && Rate(YearMonth(selectedYear.value, m)).Some?
  {
    MonthsOffered(InflationData, selectedYear)
  }

  /** 2025 offers only January to April. */
  lemma AvailableMonths2025()
    ensures AvailableMonths(Some(2025)) == [1, 2, 3, 4]
  {
    var firstFour := [1, 2, 3, 4];
    assert forall i :: 0 <= i < 4 ==> firstFour[i] == i + 1;
    assert InflationData[2025] == map[1 := 2.781, 2 := 2.5, 3 := 2.3, 4 := 2.718];
    AscendingUnique(AvailableMonths(Some(2025)), firstFour);
  }

  /** Every year from 2017 to 2024 offers all twelve months. */
  lemma AvailableMonthsFullYears(y: int)
    requires 2017 <= y <= 2024
    ensures AvailableMonths(Some(y)) == AllMonths()
  {
    forall m | 1 <= m <= 12
      ensures m in InflationData[y]
    {
      RateDomain(YearMonth(y, m));
    }
    AscendingUnique(AvailableMonths(Some(y)), AllMonths());
  }

  /** The years a user may pick: the table's years, in ascending order. */
  function Years(): (ys: seq<int>)
    ensures StrictlyIncreasing(ys)
    ensures forall y :: y in ys <==> y in InflationData
  {
    Sorted(InflationData.Keys)
  }

  /** The year list is 2017 to 2025. */
  lemma YearsOfTable()
    ensures Years() == [2017, 2018, 2019, 2020, 2021, 2022, 2023, 2024, 2025]
  {
    var ys := [2017, 2018, 2019, 2020, 2021, 2022, 2023, 2024, 2025];
    assert InflationData.Keys == Elements(ys);
    SortedOfAscending(ys);
  }
}
