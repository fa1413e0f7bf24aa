# Argentina inflation calculator — a verified model

The calculator takes an amount of pesos and two calendar months. It walks
month by month from the start month up to the end month, leaving the end month
out. Every month with a rate in the monthly inflation table grows the amount by
(1 + rate/100). The calculator shows three figures: the final amount, the total
inflation in percent, and how many months had a rate. A chart shows the running
amount after each month that had a rate.

The model has these modules:

- `Calendar`: the first-of-month cursor that `new Date(year, month - 1, 1)`
  produces. Years 0 to 99 are taken as 1900 to 1999, and a month outside 1..12
  carries into the year. `Succ` is one `setMonth(getMonth() + 1)` step and
  rolls December over to January. Dates are compared by month index.
- `RateTable`: the monthly rate table, January 2017 to April 2025, as a map
  from year to a map from month to a percentage. It also holds the sorted year
  list and the months the month pickers offer for a selected year
  (`MonthsOffered`, `AvailableMonths`).
- `Growth`: what a series of rates does to an amount (`Grow`, `Grown`,
  `Compound`), and the algebra of that.
- `Compounding`: the specification of the walk.
  - `RangeRates` is the rates the walk applies, one per month that has a rate.
  - `Walk` and `RecordedMonths` are the months it visits and the months that
    count.
  - `Trace` is the chart's points.
- `Engine`: the form (`Request`), its validation, and the figures (`Outcome`)
  and chart (`Timeline`) a form should give. It also holds the imperative code
  proved against them:
  - `AccumulateRates` is the loop of `calculateInflation`;
  - `Calculator` holds the form fields and the shown figures as mutable fields;
  - `Calculator.CalculateInflation` updates the figures in place;
  - `ChartWalk` is the loop of `generateChartData`;
  - `Calculator.GenerateChartData` checks the form and builds the chart month by month.
- `Scenarios`: worked requests against the real table.

The engine takes the rate table as a parameter. The calculator in the app uses
`RateTable.InflationData`. Amounts and rates are exact `real` numbers.

The chart code has two behaviours worth stating plainly:

- A month without a rate records no chart point at all. It does not record a
  flat step. Such a month is also not counted and does not change the amount.
  It is skipped, not treated as 0%.
- A month with a rate records its point after the cursor has already moved on.
  So the point that applies March's rate is labelled April.

`Scenarios.PastTheTable` shows both behaviours on a range that runs past the
table's last month.

## Model

| member | source | states |
|---|---|---|
| Calendar.Succ | app/page.tsx:242 | advancing the cursor moves exactly one month later (December rolls over to January of the next year) |
| Calendar.Advance | app/page.tsx:232-242 | `k` single-month advances land exactly `k` months later |
| Calendar.MakeCursor | app/page.tsx:211-220 | the date built from a year and month has month index FullYear(year)·12 + month − 1, and is that very year and month for months 1..12 and years outside 0..99 |
| Calendar.BeforeIsLexicographic | app/page.tsx:222 | `Before`, the comparison of two first-of-month dates (at :222, :232, :308 and :328), is the lexicographic order of (year, month) |
| Calendar.IndexInjective | app/page.tsx:232 | two cursors with the same month index are the same month, so the date comparison orders the cursors strictly |
| RateTable.InflationData | app/page.tsx:47-166 | the table of monthly rates, year by year; its content is stated by the rows below |
| RateTable.LookupRecorded | app/page.tsx:236 | a month has a rate exactly when its year has a row holding that month, and the rate is that entry (the same test as :332) |
| RateTable.RateDomain | app/page.tsx:47-166 | the table has a rate exactly for the months 2017-01 through 2025-04, with no gap inside |
| RateTable.TableYears | app/page.tsx:47-166 | the table has a row for each year from 2017 to 2025 and no other |
| RateTable.RowFacts | app/page.tsx:47-166 | every row holds only positive rates and exactly the months 1 to 12, except 2025, which holds 1 to 4 |
| RateTable.RatesPositive | app/page.tsx:47-166 | every rate the table records is positive |
| RateTable.RatePositive | app/page.tsx:47-166 | the rate recorded for any single month is positive |
| RateTable.SampleRates | app/page.tsx:48-51 | January to March 2017 are 1.3, 2.5 and 2.4; December 2016 and May 2025 have no rate |
| RateTable.LastRates | app/page.tsx:160-165 | March and April 2025 are 2.3 and 2.718; May and June 2025 have no rate |
| RateTable.AllMonths | app/page.tsx:168-181 | the month list is 1 to 12, ascending |
| RateTable.KeepRecorded | app/page.tsx:278-280 | filtering keeps exactly the months that have an entry, in their original (ascending) order |
| RateTable.MonthsOffered | app/page.tsx:273-281 | no year selected or a year without data offers all twelve months; otherwise exactly the recorded months, ascending |
| RateTable.AvailableMonths | app/page.tsx:273-281 | the month picker's list is ascending; with no year it is all twelve months; for a year of the table it is exactly the months with a rate |
| RateTable.AvailableMonths2025 | app/page.tsx:273-281 | 2025 offers January to April |
| RateTable.AvailableMonthsFullYears | app/page.tsx:273-281 | 2017 to 2024 offer all twelve months |
| RateTable.Years | app/page.tsx:183-185 | the year list is strictly ascending and holds exactly the table's years |
| RateTable.YearsOfTable | app/page.tsx:183-185 | the year list is 2017, 2018, …, 2025 |
| Growth.GrownSnoc | app/page.tsx:238 | unfolds the definition of `Grown` for a series with one more rate: the running result is multiplied by (1 + rate/100) |
| Growth.GrownConcat | app/page.tsx:236-240 | applying two consecutive stretches of rates is applying the second to the result of the first |
| Growth.GrownIsScaled | app/page.tsx:245 | an amount grown by a series of rates is the amount times the series' growth factor |
| Growth.CompoundConcat | app/page.tsx:238 | the factor of two consecutive stretches is the product of their factors |
| Growth.GrownGrows | app/page.tsx:238 | with positive rates, a positive amount never shrinks, and grows strictly once any rate applies |
| Compounding.Walk | app/page.tsx:232-242 | the walk has `n` months, the k-th being `k` months after the start |
| Compounding.WalkCovers | app/page.tsx:232-242 | the walk visits exactly the months in [from, from + n) |
| Compounding.RecordedMonths | app/page.tsx:236 | the recorded months are exactly the walked months that have a rate |
| Compounding.WalkChronological | app/page.tsx:232-242 | the walk visits its months in strictly increasing calendar order |
| Compounding.RecordedMonthsChronological | app/page.tsx:236-240 | keeping only the months with a rate keeps calendar order, so each recorded month appears once |
| Compounding.RangeRatesBound | app/page.tsx:232-243 | `RangeRates`, the rates the walk of `n` months applies, number at most `n` (a month adds one rate or none) |
| Compounding.RangeRatesSplit | app/page.tsx:232-243 | walking `n + m` months applies the first `n` months' rates followed by those of the next `m` |
| Compounding.AppliedRatesAreRecorded | app/page.tsx:236-240 | one applied rate per recorded month, and the i-th applied rate is the i-th recorded month's rate |
| Compounding.AppliedRatesFull | app/page.tsx:236-240 | when every walked month has a rate, every month is applied |
| Compounding.RangeRatesOfWalk | app/page.tsx:232-243 | the recursively defined range rates are the applied rates of the walk |
| Compounding.RangeRatesPositive | app/page.tsx:236-238 | with a table of positive rates, every applied rate is positive |
| Compounding.RangeRatesGap | app/page.tsx:236-242 | a month without a rate adds no rate (skipped, not 0%) |
| Compounding.RangeRatesRated | app/page.tsx:236-239 | a month with rate `r` appends exactly `r` |
| Compounding.GrownStep | app/page.tsx:332-334 | a rated month grows the running amount by (1 + r/100) and adds one applied month |
| Compounding.CompoundStep | app/page.tsx:236-239 | a rated month multiplies the running factor by (1 + r/100) and counts one month |
| Compounding.Trace | app/page.tsx:315-325 | every timeline starts with the start month, the start amount, 0% and 0% |
| Compounding.TraceGap | app/page.tsx:350-352 | a month without a rate adds no chart point and no rate |
| Compounding.TraceRated | app/page.tsx:332-349 | a rated month adds one point: labelled with the following month, the previous amount grown by the rate, that rate, and the change against the start amount |
| Compounding.TraceLength | app/page.tsx:315-353 | the timeline has one point more than the rates applied |
| Compounding.TraceLast | app/page.tsx:328-353 | the last point's amount is the start amount grown by every applied rate |
| Compounding.TraceCursorBound | app/page.tsx:328-353 | every label lies between the start month and the month `n` later |
| Compounding.RatedPointFollows | app/page.tsx:332-349 | the point a rated month adds follows the last point recorded before it |
| Compounding.TraceEndsWith | app/page.tsx:328-353 | the chart's last point is the point of the latest month with a rate, or the starting point when no month had one |
| Compounding.LastPointCarries | app/page.tsx:332-349 | that last point carries the start amount grown by every applied rate, its change against the start amount, and a label at most `n` months after the start |
| Compounding.RatedPointAmount | app/page.tsx:334 | a rated point's amount is the previous running amount grown by its rate |
| Compounding.RatedPointLabel | app/page.tsx:337-345 | a rated point is labelled with the month after the month whose rate it applies |
| Compounding.TracePercent | app/page.tsx:348 | every point's cumulative inflation is its amount's change against the start amount, in percent |
| Compounding.TraceSteps | app/page.tsx:328-353 | each point after the first follows its predecessor: amount grown by its rate, rate recorded for the month before its label, label later |
| Engine.Validate | app/page.tsx:198-220 | a form is accepted exactly when every field is filled and the amount is a positive number; its dates are the months the `Date` constructor builds from the selected years and months |
| Engine.Outcome | app/page.tsx:229-250 | a form gives figures exactly when it is valid, and counts at most one month per month of its range |
| Engine.Timeline | app/page.tsx:283-356 | the chart is non-empty exactly for a valid form whose end month is after its start month, and then starts with the start month, the amount and 0% |
| Engine.FilledForm | app/page.tsx:198-220 | a form with a positive amount, months 1..12 and years outside 0..99 asks for exactly those two months |
| Engine.ValidOutcome | app/page.tsx:229-246 | unfolds the definition of `Outcome` for a valid form: the figures are the start amount times the range's factor, the factor's change in percent, and the number of rates applied |
| Engine.NoOutcomeIffInvalid | app/page.tsx:198-205 | a form gives no new figures (the calculator keeps the previous ones) exactly when a field is empty or the amount is not a positive number, and then draws no chart |
| Engine.NotForwardRange | app/page.tsx:222-227 | an end month not after the start month shows the amount itself, 0% and 0 months, and draws no chart |
| Engine.SpanCovers | app/page.tsx:232 | the walk of a range visits exactly the months from the start month (included) to the end month (excluded) |
| Engine.MonthsCounted | app/page.tsx:232-244 | the months counted are exactly the months of [from, to) that have a rate, each once and in calendar order, and the rates applied are theirs in that order |
| Engine.ConsecutiveRanges | app/page.tsx:232-245 | growing an amount from `a` to `c` is growing it from `a` to `b` and then the result from `b` to `c` |
| Engine.FullRangeCountsEveryMonth | app/page.tsx:232-244 | with the app's table, a range within January 2017 to April 2025 counts every month it spans |
| Engine.FinalAmountMatchesTotal | app/page.tsx:245-246 | final amount = start amount × (1 + total inflation / 100) |
| Engine.PercentOfScaled | app/page.tsx:348 | the change in percent of an amount grown by a factor is the factor's change in percent |
| Engine.TimelineMatchesOutcome | app/page.tsx:283-356 | for a forward range the chart has months counted + 1 points, starts at the start month with the amount and 0%, and ends at the final amount and the total inflation |
| Engine.TimelineSteps | app/page.tsx:328-353 | every later chart point follows its predecessor, and every label lies within [from, to] |
| Engine.NeverShrinks | app/page.tsx:236-246 | with positive rates the final amount is at least the start amount and the total inflation is not negative; both grow strictly once a month is counted |
| Engine.AmountNeverShrinks | app/page.tsx:236-246 | with the app's table, money never loses nominal value |
| Engine.FiguresGrow | app/page.tsx:236-246 | with positive rates the final amount is at least the start amount and the change is not negative; both rise strictly once a rate applies |
| Engine.LastPointFigures | app/page.tsx:245-246 | the chart's last point shows the final amount and the total inflation of the same walk |
| Engine.ChartWalk | app/page.tsx:313-353 | the chart loop returns exactly the timeline of the range: the starting point, then one point per month with a rate |
| Engine.AccumulateRates | app/page.tsx:229-243 | the loop returns the growth factor and the count of exactly the range's applied rates |
| Engine.Calculator.constructor | app/page.tsx:188-195 | a fresh calculator has an empty form, no result, no total and 0 months |
| Engine.Calculator.CalculateInflation | app/page.tsx:197-251 | an invalid form leaves the shown figures unchanged; a valid one shows exactly the form's outcome |
| Engine.Calculator.GenerateChartData | app/page.tsx:283-356 | the points built month by month are exactly the form's timeline |
| Scenarios.FirstQuarter2017 | app/page.tsx:48-51 | 100 from January to April 2017 gives 100 × 1.013 × 1.025 × 1.024, its change in percent, and 3 months |
| Scenarios.FirstQuarterFactor | app/page.tsx:48-51 | the factor of 1.3%, 2.5% and 2.4% is 1.013 × 1.025 × 1.024 |
| Scenarios.PastTheTable | app/page.tsx:328-353 | 100 from March to July 2025 counts 2 months; the chart has 3 points, labelled March, April and May 2025 |
| Scenarios.BackwardRange | app/page.tsx:222-227 | 50 from June 2020 to January 2019 shows 50, 0% and 0 months and draws no chart |

## Left out

- The JSX layout, the chart drawing, the result cards and the explanatory text are not modelled. They only display the figures and points modelled here.
- `formatCurrency` and `formatPercentage` are not modelled. They turn numbers into display strings.
- React plumbing is not modelled: the state setters and the effect that calls `calculateInflation` once all five fields are filled. The form fields are plain fields of `Engine.Calculator`, set directly.
- Parsing of the form's strings is not modelled. `AmountInput` stands for the amount field: `Blank` is the empty string, `NotANumber` is a string `parseFloat` rejects, and `Number` is the parsed value. The selectors are `Option<int>`, with `None` for an empty selection.
- JavaScript `Date` internals are not modelled: time zones, time of day and the valid date range. A cursor is only a year and a month.
- IEEE-754 rounding is not modelled. Amounts and rates are exact reals, so the figures are the exact products the code approximates.
- The chart's `date` and `monthYear` label strings are not modelled. A point carries the cursor they are formatted from.
- The running sum `cumulativeInflation += monthlyRate` in the chart loop is not modelled. It is never read.
- next.config.ts is not part of this model. It is build configuration.
- Engine.AccumulateRates, Engine.ChartWalk, Engine.Calculator.CalculateInflation, Engine.Calculator.GenerateChartData: the rate table is a parameter (a `const` of the calculator) rather than the module-level constant. `Scenarios` and `Engine.AmountNeverShrinks` instantiate it with `RateTable.InflationData`.
