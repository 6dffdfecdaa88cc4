/// Proleptic Gregorian calendar: dates are day numbers (day 1 is 1 January of
/// year 1), with the civil form (year, month, day) as a proved bijection.
module Calendar {

  datatype Civil = Civil(year: int, month: int, day: int)

  predicate IsLeap(year: int) {
    year % 4 == 0 && (year % 100 != 0 || year % 400 == 0)
  }

  function DaysInMonth(year: int, month: int): int {
    if month == 2 then (if IsLeap(year) then 29 else 28)
    else if month in {4, 6, 9, 11} then 30
    else 31
  }

  /** Days from 31 December of year 0 to 31 December of the year before `year`. */
  function DaysBeforeYear(year: int): int {
    var y := year - 1;
    365 * y + y / 4 - y / 100 + y / 400
  }

  /** Days of `year` that precede the first of `month`. */
  function DaysBeforeMonth(year: int, month: int): int
    requires 1 <= month <= 12
    decreases month
  {
    if month == 1 then 0 else DaysBeforeMonth(year, month - 1) + DaysInMonth(year, month - 1)
  }

  /** Months are numbered consecutively: index 12 * year + (month - 1). */
  function MonthStart(index: int): int {
    DaysBeforeYear(index / 12) + DaysBeforeMonth(index / 12, index % 12 + 1) + 1
  }

  function MonthLength(index: int): int {
    DaysInMonth(index / 12, index % 12 + 1)
  }

  lemma YearStep(year: int)
    ensures DaysBeforeYear(year + 1) == DaysBeforeYear(year) + (if IsLeap(year) then 366 else 365)
  {
    QuotientStep(year, 4);
    QuotientStep(year, 100);
    QuotientStep(year, 400);
    LeapCenturies(year);
  }

  /** Every fourth century year is a century year, and every century year a fourth year. */
  lemma LeapCenturies(year: int)
    ensures year % 400 == 0 ==> year % 100 == 0
    ensures year % 100 == 0 ==> year % 4 == 0
  {
    if year % 400 == 0 {
      DivisorOfMultiple(year / 400, 100, 4);
    }
    if year % 100 == 0 {
      DivisorOfMultiple(year / 100, 4, 25);
    }
  }

  lemma DivisorOfMultiple(q: int, m: int, factor: int)
    requires (m == 100 && factor == 4) || (m == 4 && factor == 25)
    ensures (m * factor * q) % m == 0
  {
    var r := factor * q;
    if m == 100 {
      assert (100 * r) % 100 == 0;
    } else {
      assert (4 * r) % 4 == 0;
    }
  }

  lemma QuotientStep(n: int, m: int)
    requires m in {4, 100, 400}
    ensures n / m == (n - 1) / m + (if n % m == 0 then 1 else 0)
  {}

  lemma YearLength(year: int)
    ensures DaysBeforeMonth(year, 12) + 31 == (if IsLeap(year) then 366 else 365)
  {
    assert DaysBeforeMonth(year, 3) == 31 + DaysInMonth(year, 2);
    assert DaysBeforeMonth(year, 6) == DaysBeforeMonth(year, 3) + 92;
    assert DaysBeforeMonth(year, 9) == DaysBeforeMonth(year, 6) + 92;
    assert DaysBeforeMonth(year, 12) == DaysBeforeMonth(year, 9) + 91;
  }

  lemma MultipleMonotone(a: int, b: int, span: int)
    requires span >= 1
    ensures a <= b ==> a * span <= b * span
  {
    if a <= b {
      assert (b - a) * span >= 0;
    }
  }

  lemma QuotientUnique(n: int, span: int, k: int)
    requires span >= 1 && k * span <= n < k * span + span
    ensures n / span == k
  {
    var q := n / span;
    MultipleMonotone(q + 1, k, span);
    MultipleMonotone(k + 1, q, span);
  }

  /** Consecutive months tile the day line, across year ends and leap years. */
  lemma MonthsTile(index: int)
    ensures MonthStart(index + 1) == MonthStart(index) + MonthLength(index)
    ensures 28 <= MonthLength(index) <= 31
  {
    var year, month := index / 12, index % 12 + 1;
    if month == 12 {
      assert (index + 1) / 12 == year + 1 && (index + 1) % 12 == 0;
      YearStep(year);
      YearLength(year);
    } else {
      assert (index + 1) / 12 == year && (index + 1) % 12 == month;
    }
  }

  lemma {:induction false} MonthStartIncreases(a: int, b: int)
    requires a < b
    ensures MonthStart(a) + MonthLength(a) <= MonthStart(b)
    decreases b - a
  {
    MonthsTile(b - 1);
    MonthsTile(a);
    if a < b - 1 {
      MonthStartIncreases(a, b - 1);
    }
  }

  /** The index of the month that contains day `n`, searched from `guess`. */
  function SeekMonth(n: int, guess: int): (index: int)
    ensures MonthStart(index) <= n < MonthStart(index) + MonthLength(index)
    decreases if n < MonthStart(guess) then MonthStart(guess) - n else n - MonthStart(guess),
              if n < MonthStart(guess) then 1 else 0
  {
    MonthsTile(guess - 1);
    MonthsTile(guess);
    if n < MonthStart(guess) then
      if MonthStart(guess - 1) <= n then guess - 1 else SeekMonth(n, guess - 1)
    else if MonthStart(guess) + MonthLength(guess) <= n then SeekMonth(n, guess + 1)
    else guess
  }

  function MonthOf(n: int): (index: int)
    ensures MonthStart(index) <= n < MonthStart(index) + MonthLength(index)
  {
    SeekMonth(n, 0)
  }

  function DayOf(n: int): (day: int)
    ensures 1 <= day <= MonthLength(MonthOf(n))
  {
    n - MonthStart(MonthOf(n)) + 1
  }

  predicate IsCivil(c: Civil) {
    1 <= c.month <= 12 && 1 <= c.day <= DaysInMonth(c.year, c.month)
  }

  function ToOrdinal(c: Civil): int
    requires IsCivil(c)
  {
    DaysBeforeYear(c.year) + DaysBeforeMonth(c.year, c.month) + c.day
  }

  function FromOrdinal(n: int): (c: Civil)
    ensures IsCivil(c)
  {
    Civil(MonthOf(n) / 12, MonthOf(n) % 12 + 1, DayOf(n))
  }

  lemma MonthOfUnique(n: int, index: int)
    requires MonthStart(index) <= n < MonthStart(index) + MonthLength(index)
    ensures MonthOf(n) == index
  {
    if MonthOf(n) < index {
      MonthStartIncreases(MonthOf(n), index);
    } else if index < MonthOf(n) {
      MonthStartIncreases(index, MonthOf(n));
    }
  }

  lemma OrdinalRoundTrip(n: int)
    ensures ToOrdinal(FromOrdinal(n)) == n
  {}

  function IndexOf(c: Civil): int {
    12 * c.year + (c.month - 1)
  }

  /** A civil date seen as a month index and a day of that month. */
  lemma ByMonth(c: Civil)
    requires IsCivil(c)
    ensures IndexOf(c) / 12 == c.year && IndexOf(c) % 12 == c.month - 1
    ensures ToOrdinal(c) == MonthStart(IndexOf(c)) + c.day - 1
    ensures MonthLength(IndexOf(c)) == DaysInMonth(c.year, c.month)
  {
    assert IndexOf(c) / 12 == c.year && IndexOf(c) % 12 == c.month - 1;
  }

  lemma CivilRoundTrip(c: Civil)
    requires IsCivil(c)
    ensures FromOrdinal(ToOrdinal(c)) == c
  {
    ByMonth(c);
    MonthOfUnique(ToOrdinal(c), IndexOf(c));
  }

  /** Day-number order is the calendar's lexicographic order. */
  lemma OrdinalOrder(a: Civil, b: Civil)
    requires IsCivil(a) && IsCivil(b)
    ensures ToOrdinal(a) < ToOrdinal(b) <==>
            a.year < b.year
            || (a.year == b.year && (a.month < b.month || (a.month == b.month && a.day < b.day)))
  {
    ByMonth(a);
    ByMonth(b);
    hide ToOrdinal, MonthStart, MonthLength;
    var i, j := IndexOf(a), IndexOf(b);
    if i < j {
      MonthStartIncreases(i, j);
    } else if j < i {
      MonthStartIncreases(j, i);
    }
  }

  // ---- the calendar without its month table ----

  /** The day number with years counted from March: leap days come last and months repeat 31, 30, 31, 30, 31 days. */
  function MarchOrdinal(year: int, month: int, day: int): int {
    var y, m := if month <= 2 then year - 1 else year, if month <= 2 then month + 9 else month - 3;
    365 * y + y / 4 - y / 100 + y / 400 + (153 * m + 2) / 5 + day - 306
  }

  lemma {:induction false} MonthTable(year: int, month: int)
    requires 1 <= month <= 12
    ensures month <= 2 ==> DaysBeforeMonth(year, month) == 31 * (month - 1)
    ensures month >= 3 ==>
              DaysBeforeMonth(year, month) == 59 + (if IsLeap(year) then 1 else 0) + (153 * (month - 3) + 2) / 5
  {
    if month > 1 {
      MonthTable(year, month - 1);
    }
  }

  /** The table of month lengths and the leap rule are the Gregorian calendar's. */
  lemma OrdinalIsGregorian(c: Civil)
    requires IsCivil(c)
    ensures ToOrdinal(c) == MarchOrdinal(c.year, c.month, c.day)
  {
    MonthTable(c.year, c.month);
    YearStep(c.year);
  }

  lemma EpochOrdinal()
    ensures ToOrdinal(Civil(1970, 1, 1)) == 719163
  {}

  /** A month is as long as the calendar says. */
  lemma LengthIsGregorian(year: int, month: int)
    requires 1 <= month <= 12
    ensures DaysInMonth(year, month)
         == (if month == 12 then MarchOrdinal(year + 1, 1, 1) else MarchOrdinal(year, month + 1, 1))
            - MarchOrdinal(year, month, 1)
  {
    MonthTable(year, month);
    YearStep(year);
    if month < 12 {
      MonthTable(year, month + 1);
    }
  }

  /** Day `day` of a month, or the month's last day when the month is shorter. */
  function ClampedDay(index: int, day: int): int {
    MonthStart(index) + (if day <= MonthLength(index) then day else MonthLength(index)) - 1
  }

  lemma ClampedDayIncreases(i: int, j: int, day: int)
    requires i < j && 1 <= day
    ensures ClampedDay(i, day) < ClampedDay(j, day)
  {
    MonthsTile(i);
    MonthsTile(j);
    MonthStartIncreases(i, j);
    hide MonthStart, MonthLength;
  }

  lemma ClampedDayMonth(index: int, day: int)
    requires 1 <= day
    ensures MonthOf(ClampedDay(index, day)) == index
  {
    MonthsTile(index);
    hide MonthStart, MonthLength;
    MonthOfUnique(ClampedDay(index, day), index);
  }
}
