/// Periods of one budget never overlap, whatever the order of lookups, cadence
/// changes and custom edits; a lookup yields the largest free range around its day.
module PeriodLaws {
  import opened Wrappers
  import opened Calendar
  import opened PeriodModel

  /** The windows of one cadence tile the day line. */
  lemma WindowsTile(c: Cadence, day: int, other: int)
    requires c.Valid() && !c.kind.Custom?
    ensures ComputeRange(c, day).Has(day)
    ensures ComputeRange(c, day).Has(other) ==> ComputeRange(c, other) == ComputeRange(c, day)
  {
    if c.kind.Monthly? {
      MonthWindowsTile(day, other);
    } else {
      var span := c.weeks.value * 7;
      var k := (day - c.anchor.value) / span;
      assert k * span <= day - c.anchor.value < k * span + span;
      if ComputeRange(c, day).Has(other) {
        QuotientUnique(other - c.anchor.value, span, k);
      }
    }
  }

  lemma MonthWindowsTile(day: int, other: int)
    ensures MonthStart(MonthOf(day)) <= day <= MonthStart(MonthOf(day)) + MonthLength(MonthOf(day)) - 1
    ensures MonthStart(MonthOf(day)) <= other <= MonthStart(MonthOf(day)) + MonthLength(MonthOf(day)) - 1
            ==> MonthOf(other) == MonthOf(day)
  {
    hide MonthStart, MonthLength, MonthOf;
    if MonthStart(MonthOf(day)) <= other <= MonthStart(MonthOf(day)) + MonthLength(MonthOf(day)) - 1 {
      MonthOfUnique(other, MonthOf(day));
    }
  }

  /** The window of a cadence: a civil month, or a stretch of whole weeks counted from the anchor. */
  ghost predicate SameWindow(c: Cadence, day: int, other: int)
    requires c.Valid() && !c.kind.Custom?
  {
    if c.kind.Monthly? then
      FromOrdinal(other).year == FromOrdinal(day).year && FromOrdinal(other).month == FromOrdinal(day).month
    else
      exists k ::
        && WeeksStart(c, k) <= day < WeeksStart(c, k) + 7 * c.weeks.value
        && WeeksStart(c, k) <= other < WeeksStart(c, k) + 7 * c.weeks.value
  }

  function WeeksStart(c: Cadence, k: int): int
    requires c.Valid() && c.kind.Weeks?
  {
    c.anchor.value + k * (7 * c.weeks.value)
  }

  lemma MonthWindow(day: int, other: int)
    ensures MonthStart(MonthOf(day)) <= other <= MonthStart(MonthOf(day)) + MonthLength(MonthOf(day)) - 1
       <==> FromOrdinal(other).year == FromOrdinal(day).year && FromOrdinal(other).month == FromOrdinal(day).month
  {
    MonthWindowsTile(day, other);
    hide MonthStart, MonthLength, MonthOf, DayOf;
    assert MonthOf(other) == 12 * (MonthOf(other) / 12) + MonthOf(other) % 12;
    assert MonthOf(day) == 12 * (MonthOf(day) / 12) + MonthOf(day) % 12;
    MonthWindowsTile(other, day);
  }

  lemma WeeksWindow(c: Cadence, day: int, other: int)
    requires c.Valid() && c.kind.Weeks?
    ensures ComputeRange(c, day).Has(other) <==> SameWindow(c, day, other)
  {
    var span := 7 * c.weeks.value;
    var q := (day - c.anchor.value) / span;
    assert ComputeRange(c, day) == Range(WeeksStart(c, q), WeeksStart(c, q) + span - 1);
    assert q * span <= day - c.anchor.value < q * span + span;
    forall k | WeeksStart(c, k) <= day < WeeksStart(c, k) + span ensures k == q {
      QuotientUnique(day - c.anchor.value, span, k);
    }
  }

  /** The computed window holds exactly the days of the cadence's window around `day`. */
  lemma WindowExact(c: Cadence, day: int, other: int)
    requires c.Valid() && !c.kind.Custom?
    ensures ComputeRange(c, day).Has(other) <==> SameWindow(c, day, other)
  {
    if c.kind.Monthly? {
      MonthWindow(day, other);
    } else {
      WeeksWindow(c, day, other);
    }
  }

  // ---- clamping ----

  predicate Ordered(periods: seq<Period>) {
    forall p <- periods :: p.first <= p.last
  }

  /** No period meets the days from `day` to `other`, in either direction. */
  predicate FreeBetween(periods: seq<Period>, day: int, other: int) {
    forall p <- periods :: !p.Meets(if day <= other then day else other, if day <= other then other else day)
  }

  /** The clamped range is the largest part of the window that is free around `day`. */
  lemma ClampExact(periods: seq<Period>, window: Range, day: int, other: int)
    requires Ordered(periods) && window.Has(day)
    requires forall p <- periods :: !p.Covers(day)
    ensures Clamp(periods, window, day).Has(other) <==> window.Has(other) && FreeBetween(periods, day, other)
  {
    var previousEnd, nextStart := PreviousEnd(periods, day, window.last), NextStart(periods, day, window.last);
    if other <= day {
      if previousEnd.Some? && FreeBetween(periods, day, other) {
        var p :| p in periods && p.last < day && p.last == previousEnd.value;
        assert !p.Meets(other, day);
      }
    } else if nextStart.Some? && FreeBetween(periods, day, other) {
      var p :| p in periods && day < p.first <= window.last && p.first == nextStart.value;
      assert !p.Meets(day, other);
    }
  }

  // ---- the table ----

  predicate Disjoint(periods: seq<Period>) {
    forall i, j :: 0 <= i < j < |periods| ==> !periods[i].Meets(periods[j].first, periods[j].last)
  }

  predicate Inv(b: Budget) {
    b.cadence.Valid() && Ordered(b.periods) && Disjoint(b.periods)
  }

  lemma AddDisjoint(periods: seq<Period>, p: Period)
    requires Ordered(periods) && Disjoint(periods) && p.first <= p.last
    requires forall q <- periods :: !q.Meets(p.first, p.last)
    ensures Ordered(periods + [p]) && Disjoint(periods + [p])
  {}

  /**
   A lookup returns a period that covers its day, never touches an existing one,
   and never falls back on the unique constraint when calls do not interleave.
   */
  lemma LookupCovers(b: Budget, day: int)
    requires Inv(b)
    ensures match GetOrCreate(b, day)
            case Err(e) => e == NoPeriodForDate && b.cadence.kind.Custom? && forall p <- b.periods :: !p.Covers(day)
            case Ok((after, i)) =>
              && Inv(after) && b.periods <= after.periods
              && i < |after.periods| && after.periods[i].Covers(day)
              && (if (exists p <- b.periods :: p.Covers(day)) then after == b
                  else |after.periods| == |b.periods| + 1 && i == |b.periods|)
  {
    hide ComputeRange, Clamp, CopiedPlan, Covering, StartingOn;
    if Covering(b.periods, day).None? && !b.cadence.kind.Custom? {
      var window := ComputeRange(b.cadence, day);
      var r := Clamp(b.periods, window, day);
      WindowsTile(b.cadence, day, day);
      ClampExact(b.periods, window, day, day);
      forall p <- b.periods ensures !p.Meets(r.first, r.last) {
        ClampFreeOf(b.periods, window, day, p);
      }
      assert r.first <= r.last by { ClampExact(b.periods, window, day, day); }
      StartTakenMeets(b.periods, r);
      AddDisjoint(b.periods, NewPeriod(b, r));
    }
  }

  lemma StartTakenMeets(periods: seq<Period>, r: Range)
    requires Ordered(periods) && r.first <= r.last
    ensures StartingOn(periods, r.first).Some? ==> exists p <- periods :: p.Meets(r.first, r.last)
  {
    var taken := StartingOn(periods, r.first);
    if taken.Some? {
      assert periods[taken.value] in periods && periods[taken.value].Meets(r.first, r.last);
    }
  }

  lemma ClampFreeOf(periods: seq<Period>, window: Range, day: int, p: Period)
    requires Ordered(periods) && window.Has(day) && p in periods
    requires forall q <- periods :: !q.Covers(day)
    ensures var r := Clamp(periods, window, day); r.Has(day) && !p.Meets(r.first, r.last)
  {
    var r := Clamp(periods, window, day);
    ClampExact(periods, window, day, day);
    ClampExact(periods, window, day, r.first);
    ClampExact(periods, window, day, r.last);
  }

  /** The most recent earlier plan is carried over, minus rows of archived categories. */
  lemma {:induction false} CopiesUnarchived(plan: seq<Amount>, archived: set<nat>, a: Amount)
    ensures multiset(Unarchived(plan, archived))[a] == if a.category in archived then 0 else multiset(plan)[a]
  {
    if plan != [] {
      CopiesUnarchived(plan[..|plan| - 1], archived, a);
      assert plan == plan[..|plan| - 1] + [plan[|plan| - 1]];
    }
  }

  lemma PlanCarriedForward(b: Budget, first: int, a: Amount)
    ensures var count := multiset(CopiedPlan(b, first))[a];
            if a.category in b.archived || (forall p <- b.periods :: first <= p.first) then count == 0
            else exists p <- b.periods ::
                   && p.first < first
                   && (forall q <- b.periods :: q.first < first ==> q.first <= p.first)
                   && count == multiset(p.plan)[a]
  {
    hide Unarchived;
    var previous := PreviousPeriod(b.periods, first);
    if previous.Some? {
      assert b.periods[previous.value] in b.periods;
      CopiesUnarchived(b.periods[previous.value].plan, b.archived, a);
    }
  }

  lemma LookupAppends(b: Budget, day: int)
    requires Inv(b) && GetOrCreate(b, day).Ok?
    requires forall p <- b.periods :: !p.Covers(day)
    ensures !b.cadence.kind.Custom?
    ensures GetOrCreate(b, day).value.0.periods
         == b.periods + [NewPeriod(b, Clamp(b.periods, ComputeRange(b.cadence, day), day))]
  {
    hide ComputeRange, Clamp, CopiedPlan;
    LookupCovers(b, day);
  }

  /**
   The period a lookup creates covers exactly the days of its cadence's window that no
   period separates from the day; nothing else of the budget changes.
   */
  lemma LookupExact(b: Budget, day: int, other: int)
    requires Inv(b) && !b.cadence.kind.Custom? && forall p <- b.periods :: !p.Covers(day)
    ensures GetOrCreate(b, day).Ok?
    ensures var (after, i) := GetOrCreate(b, day).value;
            && i == |b.periods| && |after.periods| == |b.periods| + 1 && after.periods[..i] == b.periods
            && after.cadence == b.cadence && after.archived == b.archived && !after.periods[i].custom
            && (after.periods[i].Covers(other) <==>
                  SameWindow(b.cadence, day, other) && FreeBetween(b.periods, day, other))
  {
    hide ComputeRange, Clamp, CopiedPlan, SameWindow, FreeBetween;
    LookupCovers(b, day);
    LookupAppends(b, day);
    WindowsTile(b.cadence, day, day);
    ClampExact(b.periods, ComputeRange(b.cadence, day), day, other);
    WindowExact(b.cadence, day, other);
  }

  /** The created period's plan is the latest earlier plan without archived categories. */
  lemma LookupCopiesPlan(b: Budget, day: int, a: Amount)
    requires Inv(b) && !b.cadence.kind.Custom? && forall p <- b.periods :: !p.Covers(day)
    ensures GetOrCreate(b, day).Ok? && GetOrCreate(b, day).value.1 < |GetOrCreate(b, day).value.0.periods|
    ensures var (after, i) := GetOrCreate(b, day).value;
            var count := multiset(after.periods[i].plan)[a];
            if a.category in b.archived || (forall p <- b.periods :: after.periods[i].first <= p.first) then count == 0
            else exists p <- b.periods ::
                   && p.first < after.periods[i].first
                   && (forall q <- b.periods :: q.first < after.periods[i].first ==> q.first <= p.first)
                   && count == multiset(p.plan)[a]
  {
    hide ComputeRange, Clamp, CopiedPlan;
    LookupCovers(b, day);
    LookupAppends(b, day);
    PlanCarriedForward(b, GetOrCreate(b, day).value.0.periods[|b.periods|].first, a);
  }

  // ---- custom periods and cadences ----

  /** No day from `first` to `last` lies in a period other than the `i`-th. */
  predicate FreeDays(periods: seq<Period>, first: int, last: int, i: Option<nat>) {
    forall k, day :: 0 <= k < |periods| && Some(k) != i && first <= day <= last ==> !periods[k].Covers(day)
  }

  lemma OverlappingDays(periods: seq<Period>, first: int, last: int, i: Option<nat>)
    requires Ordered(periods) && first <= last
    ensures Overlapping(periods, first, last, i) <==> !FreeDays(periods, first, last, i)
  {
    if Overlapping(periods, first, last, i) {
      var k :| 0 <= k < |periods| && i != Some(k) && periods[k].Meets(first, last);
      assert periods[k] in periods;
      assert periods[k].Covers(if first <= periods[k].first then periods[k].first else first);
    }
  }

  /** A custom period is created exactly on free days, and holds those days and no plan. */
  lemma CustomCreated(b: Budget, first: int, last: int)
    requires Inv(b) && first <= last
    ensures CreateCustom(b, first, last).Err? ==> CreateCustom(b, first, last).error == PeriodOverlap
    ensures CreateCustom(b, first, last).Ok? <==> FreeDays(b.periods, first, last, None)
    ensures CreateCustom(b, first, last).Ok? ==>
              var after := CreateCustom(b, first, last).value;
              && after == b.(periods := after.periods) && |after.periods| == |b.periods| + 1
              && after.periods[..|b.periods|] == b.periods
              && var p := after.periods[|b.periods|];
                 p.custom && p.plan == [] && forall day :: p.Covers(day) <==> first <= day <= last
  {
    OverlappingDays(b.periods, first, last, None);
  }

  /** A given end replaces the stored one, a missing one keeps it. */
  predicate Ends(p: Period, first: Option<int>, last: Option<int>, newFirst: int, newLast: int) {
    && (first.Some? ==> newFirst == first.value) && (first.None? ==> newFirst == p.first)
    && (last.Some? ==> newLast == last.value) && (last.None? ==> newLast == p.last)
  }

  /** An edit moves only a custom period, only to free days, and only its ends. */
  lemma CustomEdited(b: Budget, i: nat, first: Option<int>, last: Option<int>, newFirst: int, newLast: int)
    requires Inv(b) && i < |b.periods| && Ends(b.periods[i], first, last, newFirst, newLast)
    ensures UpdateCustom(b, i, first, last).Ok? <==>
              b.periods[i].custom && newFirst <= newLast && FreeDays(b.periods, newFirst, newLast, Some(i))
    ensures UpdateCustom(b, i, first, last).Ok? ==>
              var after := UpdateCustom(b, i, first, last).value;
              && after == b.(periods := after.periods) && |after.periods| == |b.periods|
              && (forall k :: 0 <= k < |b.periods| && k != i ==> after.periods[k] == b.periods[k])
              && after.periods[i].custom && after.periods[i].plan == b.periods[i].plan
              && after.periods[i].first == newFirst && after.periods[i].last == newLast
    ensures UpdateCustom(b, i, first, last).Err? ==>
              UpdateCustom(b, i, first, last).error
                == if !b.periods[i].custom then PeriodNotEditable
                   else if newLast < newFirst then PeriodInvalidRange
                   else PeriodOverlap
  {
    if newFirst <= newLast {
      OverlappingDays(b.periods, newFirst, newLast, Some(i));
    }
  }

  /** Only a custom period is deleted, and every other one stays. */
  lemma CustomDeleted(b: Budget, i: nat)
    ensures DeletePeriod(b, i).Ok? <==> i < |b.periods| && b.periods[i].custom
    ensures DeletePeriod(b, i).Ok? ==>
              var after := DeletePeriod(b, i).value;
              && after == b.(periods := after.periods)
              && multiset(after.periods) + multiset{b.periods[i]} == multiset(b.periods)
  {
    if DeletePeriod(b, i).Ok? {
      assert b.periods == b.periods[..i] + [b.periods[i]] + b.periods[i + 1..];
    }
  }

  /** A cadence change stores what it was given, keeps the rest, and drops what the new kind has no use for. */
  lemma CadenceStored(b: Budget, kind: Option<CadenceKind>, weeks: Option<Option<int>>, anchor: Option<Option<int>>)
    requires b.cadence.Valid()
    ensures var newKind := if kind.Some? then kind.value else b.cadence.kind;
            var newWeeks := if weeks.Some? then weeks.value else b.cadence.weeks;
            var newAnchor := if anchor.Some? then anchor.value else b.cadence.anchor;
            && (SetCadence(b, kind, weeks, anchor).Ok? <==>
                  (newKind.Weeks? ==> newWeeks.Some? && newWeeks.value >= 1 && newAnchor.Some?))
            && (SetCadence(b, kind, weeks, anchor).Ok? ==>
                  var after := SetCadence(b, kind, weeks, anchor).value;
                  && after == b.(cadence := after.cadence) && after.cadence.kind == newKind
                  && (newKind.Weeks? ==> after.cadence.weeks == newWeeks && after.cadence.anchor == newAnchor)
                  && (!newKind.Weeks? ==> after.cadence.weeks.None? && after.cadence.anchor.None?))
  {}

  // ---- whole runs ----

  datatype Op =
    | Lookup(day: int)
    | Create(first: int, last: int)
    | Update(period: nat, newFirst: Option<int>, newLast: Option<int>)
    | Delete(period: nat)
    | ChangeCadence(kind: Option<CadenceKind>, weeks: Option<Option<int>>, anchor: Option<Option<int>>)
    | Archive(categories: set<nat>)
    | Allocate(period: nat, plan: seq<Amount>)
  {
    predicate Valid() { Create? ==> first <= last }
  }

  function OrKeep(result: Result<Budget, Error>, b: Budget): Budget {
    match result
    case Ok(after) => after
    case Err(_) => b
  }

  function After(b: Budget, op: Op): Budget
    requires Inv(b) && op.Valid()
  {
    match op
    case Lookup(day) =>
      (match GetOrCreate(b, day)
       case Ok(found) => found.0
       case Err(_) => b)
    case Create(first, last) => OrKeep(CreateCustom(b, first, last), b)
    case Update(i, first, last) => OrKeep(UpdateCustom(b, i, first, last), b)
    case Delete(i) => OrKeep(DeletePeriod(b, i), b)
    case ChangeCadence(kind, weeks, anchor) => OrKeep(SetCadence(b, kind, weeks, anchor), b)
    case Archive(categories) => b.(archived := categories)
    case Allocate(i, plan) => if i < |b.periods| then b.(periods := b.periods[i := b.periods[i].(plan := plan)]) else b
  }

  lemma StepKeeps(b: Budget, op: Op)
    requires Inv(b) && op.Valid()
    ensures Inv(After(b, op))
  {
    match op
    case Lookup(day) => LookupCovers(b, day);
    case Create(first, last) =>
      if !Overlapping(b.periods, first, last, None) {
        AddDisjoint(b.periods, Period(first, last, true, []));
      }
    case Update(i, first, last) =>
    case Delete(i) => DeleteDisjoint(b, i);
    case _ =>
  }

  lemma DeleteDisjoint(b: Budget, i: nat)
    requires Inv(b)
    ensures Inv(OrKeep(DeletePeriod(b, i), b))
  {
    var after := OrKeep(DeletePeriod(b, i), b);
    forall j, k | 0 <= j < k < |after.periods|
      ensures !after.periods[j].Meets(after.periods[k].first, after.periods[k].last)
    {
      if after != b {
        var j', k' := if j < i then j else j + 1, if k < i then k else k + 1;
        assert after.periods[j] == b.periods[j'] && after.periods[k] == b.periods[k'];
      }
    }
  }

  function AfterAll(b: Budget, ops: seq<Op>): Budget
    requires Inv(b) && forall op <- ops :: op.Valid()
    decreases |ops|
  {
    if ops == [] then b
    else
      StepKeeps(b, ops[0]);
      AfterAll(After(b, ops[0]), ops[1..])
  }

  /** At every point of every run, each day lies in at most one period. */
  lemma {:induction false} DisjointForever(b: Budget, ops: seq<Op>, day: int)
    requires Inv(b) && forall op <- ops :: op.Valid()
    ensures Inv(AfterAll(b, ops))
    ensures forall i, j :: 0 <= i < j < |AfterAll(b, ops).periods| ==>
              !(AfterAll(b, ops).periods[i].Covers(day) && AfterAll(b, ops).periods[j].Covers(day))
    decreases |ops|
  {
    hide After;
    if ops != [] {
      StepKeeps(b, ops[0]);
      DisjointForever(After(b, ops[0]), ops[1..], day);
    }
  }
}
