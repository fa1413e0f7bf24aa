/**
 * Calendar months as the inflation walk sees them: a cursor that sits on the first
 * day of a month (what `new Date(year, month - 1, 1)` produces), advanced one
 * calendar month at a time and compared by date.
 */
module Calendar {

  /** A calendar month number, January = 1. */
  type Month = m: int | 1 <= m <= 12 witness 1

  /** A cursor on the first day of a calendar month. */
  datatype YearMonth = YearMonth(year: int, month: Month)

  /** Months elapsed since January of year 0; the order of the underlying dates. */
  function Index(c: YearMonth): int
  {
    c.year * 12 + c.month - 1
  }

  /** The cursor with a given month index. */
  function FromIndex(i: int): (c: YearMonth)
    ensures Index(c) == i
  {
    YearMonth(i / 12, i % 12 + 1)
  }

  /** Two cursors with the same month index are the same month. */
  lemma IndexInjective(a: YearMonth, b: YearMonth)
    requires Index(a) == Index(b)
    ensures a == b
  {
  }

  /** `a` is strictly earlier than `b`: the comparison of the two first-of-month dates. */
  predicate Before(a: YearMonth, b: YearMonth)
  {
    Index(a) < Index(b)
  }

  /** Comparing dates is comparing (year, month) lexicographically. */
  lemma BeforeIsLexicographic(a: YearMonth, b: YearMonth)
    ensures Before(a, b) <==> a.year < b.year || (a.year == b.year && a.month < b.month)
  {
  }

  /**
   * The month after `c`, as `setMonth(getMonth() + 1)` on the first of a month
   * leaves it: December rolls over to January of the next year.
   */
  function Succ(c: YearMonth): (r: YearMonth)
    ensures Index(r) == Index(c) + 1
  {
    if c.month == 12 then YearMonth(c.year + 1, 1) else YearMonth(c.year, c.month + 1)
  }

  /** The month before `c`: January goes back to December of the previous year. */
  function Pred(c: YearMonth): (r: YearMonth)
    ensures Index(r) == Index(c) - 1
    ensures Succ(r) == c
  {
    if c.month == 1 then YearMonth(c.year - 1, 12) else YearMonth(c.year, c.month - 1)
  }

  /** The cursor `k` months after `c`, reached by `k` single-month advances. */
  function Advance(c: YearMonth, k: nat): (r: YearMonth)
    ensures Index(r) == Index(c) + k
  {
    if k == 0 then c else Succ(Advance(c, k - 1))
  }

  /**
   * The year the `Date` constructor uses for a year argument: 0 to 99 are taken
   * as 1900 to 1999.
   */
  function FullYear(y: int): int
  {
    if 0 <= y <= 99 then 1900 + y else y
  }

  /**
   * The cursor of `new Date(year, month - 1, 1)`: a month outside 1..12 carries
   * into the year, as the `Date` constructor normalises it.
   */
  function MakeCursor(year: int, month: int): (c: YearMonth)
    ensures Index(c) == FullYear(year) * 12 + month - 1
    ensures 1 <= month <= 12 && !(0 <= year <= 99) ==> c == YearMonth(year, month)
  {
    FromIndex(FullYear(year) * 12 + month - 1)
  }
}
