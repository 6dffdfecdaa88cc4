/// The recurrence grammar of a recurring rule: every `count` days, weeks or
/// months from `start`, with the day of month clamped in short months.
module Schedule {
  import opened Calendar

  datatype Interval = Daily | Weekly | Monthly

  datatype Grammar = Grammar(interval: Interval, count: int, start: int) {
    predicate Valid() { count >= 1 }
  }

  /** The occurrence that follows `occurrence`. A monthly step takes the day from the start date. */
  function Step(g: Grammar, occurrence: int): int {
    match g.interval
    case Daily => occurrence + g.count
    case Weekly => occurrence + 7 * g.count
    case Monthly =>
      var from := FromOrdinal(occurrence);
      var total := from.year * 12 + (from.month - 1) + g.count;
      var year, month := total / 12, total % 12 + 1;
      ToOrdinal(Civil(year, month, Min(FromOrdinal(g.start).day, DaysInMonth(year, month))))
  }

  function Min(a: int, b: int): int { if a <= b then a else b }

  function Max(a: int, b: int): int { if a <= b then b else a }

  function Iterate(g: Grammar, k: nat): int {
    if k == 0 then g.start else Step(g, Iterate(g, k - 1))
  }

  /** The k-th occurrence, computed from the start date alone. */
  function Nth(g: Grammar, k: nat): int {
    match g.interval
    case Daily => g.start + k * g.count
    case Weekly => g.start + 7 * (k * g.count)
    case Monthly => ClampedDay(MonthOf(g.start) + k * g.count, DayOf(g.start))
  }

  /** The first occurrence falls on the start date. */
  lemma NthZero(g: Grammar)
    ensures Nth(g, 0) == g.start
  {}

  /** Stepping is stateless: no drift accumulates after a short month. */
  lemma {:induction false} IterateIsDirect(g: Grammar, k: nat)
    ensures Iterate(g, k) == Nth(g, k)
  {
    if k != 0 {
      IterateIsDirect(g, k - 1);
      StepIsNext(g, k - 1);
    }
  }

  /** A monthly step moves the month index and re-reads the day from the start date. */
  lemma MonthlyStep(g: Grammar, occurrence: int)
    requires g.interval.Monthly?
    ensures Step(g, occurrence) == ClampedDay(MonthOf(occurrence) + g.count, DayOf(g.start))
  {
    hide MonthStart, MonthLength, MonthOf, DayOf, ToOrdinal, DaysInMonth, ClampedDay;
    var index := MonthOf(occurrence) + g.count;
    var year, month := MonthOf(occurrence) / 12, MonthOf(occurrence) % 12 + 1;
    assert FromOrdinal(occurrence).year == year && FromOrdinal(occurrence).month == month;
    assert year * 12 + (month - 1) + g.count == index;
    ClampedCivil(index, DayOf(g.start));
  }

  lemma ClampedCivil(index: int, day: int)
    requires 1 <= day
    ensures var c := Civil(index / 12, index % 12 + 1, Min(day, DaysInMonth(index / 12, index % 12 + 1)));
            IsCivil(c) && ToOrdinal(c) == ClampedDay(index, day)
  {
    MonthsTile(index);
  }

  lemma StepIsNext(g: Grammar, k: nat)
    ensures Step(g, Nth(g, k)) == Nth(g, k + 1)
  {
    hide Step, ClampedDay, MonthOf, DayOf;
    assert (k + 1) * g.count == k * g.count + g.count;
    if g.interval.Monthly? {
      MonthlyStep(g, Nth(g, k));
      ClampedDayMonth(MonthOf(g.start) + k * g.count, DayOf(g.start));
    } else {
      FixedStep(g, Nth(g, k));
    }
  }

  lemma FixedStep(g: Grammar, occurrence: int)
    requires !g.interval.Monthly?
    ensures Step(g, occurrence) == occurrence + (if g.interval.Daily? then 1 else 7) * g.count
  {}

  lemma NthStepIncreases(g: Grammar, k: nat)
    requires g.Valid()
    ensures Nth(g, k) < Nth(g, k + 1)
  {
    hide ClampedDay;
    assert (k + 1) * g.count == k * g.count + g.count;
    var index := MonthOf(g.start) + k * g.count;
    ClampedDayIncreases(index, index + g.count, DayOf(g.start));
  }

  lemma {:induction false} NthIncreases(g: Grammar, j: nat, k: nat)
    requires g.Valid() && j < k
    ensures Nth(g, j) + (k - j) <= Nth(g, k)
    decreases k - j
  {
    hide Nth;
    NthStepIncreases(g, k - 1);
    if j < k - 1 {
      NthIncreases(g, j, k - 1);
    }
  }

  /** The number of occurrences before `day`, which is the index of the first one on or after it. */
  function FirstIndex(g: Grammar, day: int): nat
    requires g.Valid()
  {
    Seek(g, day, 0)
  }

  function Seek(g: Grammar, day: int, k: nat): nat
    requires g.Valid()
    decreases day - Nth(g, k)
  {
    hide Nth;
    NthStepIncreases(g, k);
    if day <= Nth(g, k) then k else Seek(g, day, k + 1)
  }

  lemma {:induction false} SeekIsLeast(g: Grammar, day: int, k: nat)
    requires g.Valid()
    ensures day <= Nth(g, Seek(g, day, k))
    ensures k <= Seek(g, day, k)
    ensures k < Seek(g, day, k) ==> Nth(g, Seek(g, day, k) - 1) < day
    decreases day - Nth(g, k)
  {
    hide Nth;
    NthStepIncreases(g, k);
    if Nth(g, k) < day {
      SeekIsLeast(g, day, k + 1);
    }
  }

  /** FirstIndex is a Galois connection: occurrence k is on or after `day` iff k >= FirstIndex(day). */
  lemma FirstIndexSplits(g: Grammar, day: int, k: nat)
    requires g.Valid()
    ensures day <= Nth(g, k) <==> FirstIndex(g, day) <= k
  {
    hide Nth;
    SeekIsLeast(g, day, 0);
    var first := FirstIndex(g, day);
    if first < k {
      NthIncreases(g, first, k);
    } else if k + 1 < first {
      NthIncreases(g, k, first - 1);
    }
  }

  lemma FirstIndexMonotone(g: Grammar, a: int, b: int)
    requires g.Valid() && a <= b
    ensures FirstIndex(g, a) <= FirstIndex(g, b)
  {
    hide Nth;
    FirstIndexSplits(g, b, FirstIndex(g, b));
    FirstIndexSplits(g, a, FirstIndex(g, b));
  }

  lemma FirstIndexOfNth(g: Grammar, k: nat)
    requires g.Valid()
    ensures FirstIndex(g, Nth(g, k)) == k
    ensures FirstIndex(g, Nth(g, k) + 1) == k + 1
  {
    hide Nth;
    FirstIndexSplits(g, Nth(g, k), k);
    FirstIndexSplits(g, Nth(g, k) + 1, k);
    FirstIndexSplits(g, Nth(g, k) + 1, k + 1);
    NthStepIncreases(g, k);
    if k != 0 {
      NthStepIncreases(g, k - 1);
      FirstIndexSplits(g, Nth(g, k), k - 1);
    }
  }

  predicate IsOccurrence(g: Grammar, day: int)
    requires g.Valid()
  {
    Nth(g, FirstIndex(g, day)) == day
  }

  /** Occurrences of the grammar in the half-open day range [low, high). */
  function Occurrences(g: Grammar, low: int, high: int): set<int>
    requires g.Valid()
  {
    set day | low <= day < high && IsOccurrence(g, day)
  }

  lemma {:induction false} OccurrenceCount(g: Grammar, low: int, high: int)
    requires g.Valid() && low <= high
    ensures |Occurrences(g, low, high)| == FirstIndex(g, high) - FirstIndex(g, low)
    decreases high - low
  {
    hide Nth, FirstIndex, IsOccurrence;
    if low == high {
      assert Occurrences(g, low, high) == {};
      return;
    }
    var last := high - 1;
    OccurrenceCount(g, low, last);
    FirstIndexOfNext(g, last);
    if IsOccurrence(g, last) {
      assert Occurrences(g, low, high) == Occurrences(g, low, last) + {last};
    } else {
      assert Occurrences(g, low, high) == Occurrences(g, low, last);
    }
  }

  /** Passing one day passes an occurrence exactly when that day is one. */
  lemma FirstIndexOfNext(g: Grammar, day: int)
    requires g.Valid()
    ensures FirstIndex(g, day + 1) == FirstIndex(g, day) + (if IsOccurrence(g, day) then 1 else 0)
  {
    hide Nth, FirstIndex;
    var k := FirstIndex(g, day);
    FirstIndexSplits(g, day, k);
    if IsOccurrence(g, day) {
      FirstIndexOfNth(g, k);
    } else {
      FirstIndexSplits(g, day + 1, k);
      FirstIndexMonotone(g, day, day + 1);
    }
  }

  lemma FirstIsLeastOccurrence(g: Grammar, target: int)
    requires g.Valid()
    ensures target <= Nth(g, FirstIndex(g, target)) && IsOccurrence(g, Nth(g, FirstIndex(g, target)))
    ensures forall day :: target <= day < Nth(g, FirstIndex(g, target)) ==> !IsOccurrence(g, day)
  {
    hide Nth, FirstIndex;
    var k := FirstIndex(g, target);
    FirstIndexSplits(g, target, k);
    FirstIndexOfNth(g, k);
    forall day | target <= day < Nth(g, k) ensures !IsOccurrence(g, day) {
      FirstIndexSplits(g, day, k);
      FirstIndexMonotone(g, target, day);
    }
  }

  /** A monthly occurrence: `day` keeps the day of month of `start`, or ends a month too short for it. */
  predicate SameDayOfMonth(start: int, day: int) {
    var s, d := FromOrdinal(start), FromOrdinal(day);
    d.day == s.day || (d.day < s.day && FromOrdinal(day + 1).month != d.month)
  }

  function MonthsBetween(start: int, day: int): int {
    var s, d := FromOrdinal(start), FromOrdinal(day);
    12 * (d.year - s.year) + (d.month - s.month)
  }

  /** The grammar's days, without counting occurrences. */
  predicate FallsOn(g: Grammar, day: int)
    requires g.Valid()
  {
    g.start <= day &&
    match g.interval
    case Daily => (day - g.start) % g.count == 0
    case Weekly => (day - g.start) % (7 * g.count) == 0
    case Monthly => MonthsBetween(g.start, day) % g.count == 0 && SameDayOfMonth(g.start, day)
  }

  lemma OccurrenceAt(g: Grammar, day: int)
    requires g.Valid()
    ensures IsOccurrence(g, day) <==> exists k: nat :: Nth(g, k) == day
  {
    hide Nth, FirstIndex;
    if k: nat :| Nth(g, k) == day {
      FirstIndexOfNth(g, k);
    }
  }

  lemma Multiple(k: nat, unit: int)
    requires unit >= 1
    ensures k * unit >= 0 && (k * unit) % unit == 0
  {
    MultipleMonotone(0, k, unit);
    QuotientUnique(k * unit, unit, k);
  }

  lemma Divided(n: int, unit: int) returns (k: nat)
    requires unit >= 1 && n >= 0 && n % unit == 0
    ensures n == k * unit
  {
    k := n / unit;
  }

  lemma NthFixed(g: Grammar, k: nat)
    requires !g.interval.Monthly?
    ensures Nth(g, k) == g.start + k * (if g.interval.Daily? then g.count else 7 * g.count)
  {
    assert 7 * (k * g.count) == k * (7 * g.count);
  }

  lemma NthDays(g: Grammar, k: nat)
    requires g.Valid() && !g.interval.Monthly?
    ensures FallsOn(g, Nth(g, k))
  {
    var unit := if g.interval.Daily? then g.count else 7 * g.count;
    NthFixed(g, k);
    hide Nth;
    Multiple(k, unit);
  }

  lemma DaysNth(g: Grammar, day: int)
    requires g.Valid() && !g.interval.Monthly? && FallsOn(g, day)
    ensures exists k: nat :: Nth(g, k) == day
  {
    var unit := if g.interval.Daily? then g.count else 7 * g.count;
    var k := Divided(day - g.start, unit);
    NthFixed(g, k);
  }

  lemma MonthsBetweenIndices(start: int, day: int)
    ensures MonthsBetween(start, day) == MonthOf(day) - MonthOf(start)
  {
    hide MonthOf, DayOf;
  }

  lemma ClampedDayOfMonth(start: int, index: int)
    ensures SameDayOfMonth(start, ClampedDay(index, DayOf(start)))
  {
    var day := ClampedDay(index, DayOf(start));
    hide MonthStart, MonthLength, MonthOf;
    ClampedDayMonth(index, DayOf(start));
    if DayOf(day) < DayOf(start) {
      MonthsTile(index);
      MonthsTile(index + 1);
      MonthOfUnique(day + 1, index + 1);
      NextMonthDiffers(index);
    }
  }

  lemma NextMonthDiffers(index: int)
    ensures (index + 1) % 12 != index % 12
  {}

  /** Within one month there is one such day. */
  lemma ClampedDayOnly(start: int, day: int)
    requires SameDayOfMonth(start, day)
    ensures day == ClampedDay(MonthOf(day), DayOf(start))
  {
    MonthsTile(MonthOf(day));
    hide MonthStart, MonthLength, MonthOf;
    if DayOf(day) < DayOf(start) && day + 1 < MonthStart(MonthOf(day)) + MonthLength(MonthOf(day)) {
      MonthOfUnique(day + 1, MonthOf(day));
    }
  }

  lemma ClampedFrom(start: int, index: int)
    requires start <= ClampedDay(index, DayOf(start))
    ensures MonthOf(start) <= index
  {
    if index < MonthOf(start) {
      ClampedDayIncreases(index, MonthOf(start), DayOf(start));
    }
  }

  lemma MonthlyNth(g: Grammar, k: nat)
    requires g.Valid() && g.interval.Monthly?
    ensures FallsOn(g, Nth(g, k))
  {
    hide MonthOf, DayOf, ClampedDay, SameDayOfMonth, MonthsBetween;
    var index := MonthOf(g.start) + k * g.count;
    MonthsBetweenIndices(g.start, Nth(g, k));
    ClampedDayMonth(index, DayOf(g.start));
    ClampedDayOfMonth(g.start, index);
    Multiple(k, g.count);
    NthFrom(g, k);
  }

  lemma NthFrom(g: Grammar, k: nat)
    requires g.Valid()
    ensures g.start <= Nth(g, k)
  {
    NthZero(g);
    hide Nth;
    if k > 0 {
      NthIncreases(g, 0, k);
    }
  }

  lemma MonthlyFallsOn(g: Grammar, day: int)
    requires g.Valid() && g.interval.Monthly?
    ensures FallsOn(g, day) <==> exists k: nat :: Nth(g, k) == day
  {
    MonthsBetweenIndices(g.start, day);
    hide MonthOf, DayOf, ClampedDay, SameDayOfMonth, MonthsBetween;
    var first := MonthOf(g.start);
    if FallsOn(g, day) {
      ClampedDayOnly(g.start, day);
      ClampedFrom(g.start, MonthOf(day));
      var k := Divided(MonthOf(day) - first, g.count);
      assert Nth(g, k) == day;
    } else if k: nat :| Nth(g, k) == day {
      MonthlyNth(g, k);
    }
  }

  /** The occurrences are exactly the days the grammar names, month ends and leap years included. */
  lemma OccursExactly(g: Grammar, day: int)
    requires g.Valid()
    ensures IsOccurrence(g, day) <==> FallsOn(g, day)
  {
    OccurrenceAt(g, day);
    if g.interval.Monthly? {
      MonthlyFallsOn(g, day);
    } else {
      hide FallsOn, Nth;
      if FallsOn(g, day) {
        DaysNth(g, day);
      }
      if k: nat :| Nth(g, k) == day {
        NthDays(g, k);
      }
    }
  }

  /** The stepping loop returns the least occurrence on or after `target`. */
  method NextOccurrenceOnOrAfter(g: Grammar, target: int) returns (occurrence: int)
    requires g.Valid()
    ensures occurrence == Nth(g, FirstIndex(g, target))
    ensures target <= occurrence && FallsOn(g, occurrence)
    ensures forall day :: target <= day < occurrence ==> !FallsOn(g, day)
  {
    occurrence := g.start;
    ghost var k := 0;
    NthZero(g);
    FirstIsLeastOccurrence(g, target);
    forall day ensures IsOccurrence(g, day) <==> FallsOn(g, day) { OccursExactly(g, day); }
    hide *;
    while occurrence < target
      invariant occurrence == Nth(g, k)
      invariant k <= FirstIndex(g, target)
      decreases target - occurrence
    {
      StepIsNext(g, k);
      NthStepIncreases(g, k);
      FirstIndexSplits(g, target, k);
      occurrence := Step(g, occurrence);
      k := k + 1;
    }
    FirstIndexSplits(g, target, k);
  }
}
