/// Racing calls on the periods of one budget. A lazy lookup is four separate database
/// steps: the covering check, two neighbour reads and the insert, and any number of
/// requests interleave them freely under one cadence. Across a cadence change, and for
/// custom periods, whose overlap check and write are unlocked, the exact conditions.
module PeriodRace {
  import opened Wrappers
  import opened PeriodModel
  import opened PeriodLaws

  datatype Phase =
    | Begin
    | Uncovered
    | ReadPrevious(previousEnd: Option<int>)
    | ReadBoth(previousEnd: Option<int>, nextStart: Option<int>)
    | Done(period: nat)

  datatype Request = Request(day: int, phase: Phase)

  datatype Race = Race(budget: Budget, requests: seq<Request>)

  function Window(b: Budget, day: int): Range
    requires b.cadence.Valid() && !b.cadence.kind.Custom?
  {
    ComputeRange(b.cadence, day)
  }

  /** The next database step of one request. */
  function Advance(b: Budget, q: Request): (Budget, Request)
    requires b.cadence.Valid() && !b.cadence.kind.Custom?
  {
    match q.phase
    case Begin =>
      var found := Covering(b.periods, q.day);
      (b, q.(phase := if found.Some? then Done(found.value) else Uncovered))
    case Uncovered =>
      (b, q.(phase := ReadPrevious(PreviousEnd(b.periods, q.day, Window(b, q.day).last))))
    case ReadPrevious(previousEnd) =>
      (b, q.(phase := ReadBoth(previousEnd, NextStart(b.periods, q.day, Window(b, q.day).last))))
    case ReadBoth(previousEnd, nextStart) =>
      var r := Range(ClampFirst(Window(b, q.day), previousEnd), ClampLast(Window(b, q.day), nextStart));
      var (after, i) := InsertOrFind(b, r);
      (after, q.(phase := Done(i)))
    case Done(_) => (b, q)
  }

  function Step(s: Race, i: nat): Race
    requires s.budget.cadence.Valid() && !s.budget.cadence.kind.Custom? && i < |s.requests|
  {
    var (b, q) := Advance(s.budget, s.requests[i]);
    Race(b, s.requests[i := q])
  }

  // ---- the gaps of the starting table ----

  /** The range a lone lookup of `day` would create. */
  function Gap(base: Budget, day: int): Range
    requires base.cadence.Valid() && !base.cadence.kind.Custom?
  {
    Clamp(base.periods, Window(base, day), day)
  }

  ghost predicate Base(base: Budget) {
    Inv(base) && !base.cadence.kind.Custom?
  }

  predicate Open(base: Budget, day: int) {
    forall p <- base.periods :: !p.Covers(day)
  }

  lemma GapMembers(base: Budget, day: int, other: int)
    requires Base(base) && Open(base, day)
    ensures Gap(base, day).Has(day)
    ensures Gap(base, day).Has(other) <==> Window(base, day).Has(other) && FreeBetween(base.periods, day, other)
  {
    hide ComputeRange, Clamp, Disjoint;
    WindowsTile(base.cadence, day, day);
    ClampExact(base.periods, Window(base, day), day, day);
    ClampExact(base.periods, Window(base, day), day, other);
  }

  lemma FreeJoins(periods: seq<Period>, a: int, b: int, c: int)
    requires Ordered(periods) && FreeBetween(periods, a, b) && FreeBetween(periods, b, c)
    ensures FreeBetween(periods, a, c) && FreeBetween(periods, b, a)
  {}

  lemma SharedDayJoins(base: Budget, day: int, other: int, shared: int, x: int)
    requires Base(base) && Open(base, day) && Open(base, other)
    requires Gap(base, day).Has(shared) && Gap(base, other).Has(shared)
    ensures Gap(base, day).Has(x) ==> Gap(base, other).Has(x)
  {
    hide ComputeRange, Clamp, FreeBetween, Ordered, Disjoint;
    GapMembers(base, day, shared);
    GapMembers(base, other, shared);
    GapMembers(base, day, x);
    GapMembers(base, other, x);
    WindowsTile(base.cadence, day, shared);
    WindowsTile(base.cadence, other, shared);
    if Gap(base, day).Has(x) {
      FreeJoins(base.periods, day, shared, shared) by { FreeAtDay(base, day, shared); }
      FreeJoins(base.periods, shared, day, x);
      FreeJoins(base.periods, other, shared, x);
    }
  }

  lemma FreeAtDay(base: Budget, day: int, other: int)
    requires FreeBetween(base.periods, day, other)
    ensures FreeBetween(base.periods, other, other)
  {}

  /** The clamped ranges of two uncovered days are equal or share no day. */
  lemma GapsEqualOrDisjoint(base: Budget, day: int, other: int, shared: int)
    requires Base(base) && Open(base, day) && Open(base, other)
    requires Gap(base, day).Has(shared) && Gap(base, other).Has(shared)
    ensures Gap(base, day) == Gap(base, other)
  {
    var a, b := Gap(base, day), Gap(base, other);
    hide *;
    SharedDayJoins(base, day, other, shared, a.first);
    SharedDayJoins(base, day, other, shared, a.last);
    SharedDayJoins(base, other, day, shared, b.first);
    SharedDayJoins(base, other, day, shared, b.last);
    RangesEqual(a, b, shared);
  }

  lemma RangesEqual(a: Range, b: Range, shared: int)
    requires a.Has(shared) && b.Has(shared)
    requires a.Has(a.first) ==> b.Has(a.first)
    requires a.Has(a.last) ==> b.Has(a.last)
    requires b.Has(b.first) ==> a.Has(b.first)
    requires b.Has(b.last) ==> a.Has(b.last)
    ensures a == b
  {}

  // ---- the invariant ----

  /** `p` is the gap of some day that the starting table leaves open. */
  ghost predicate IsGap(base: Budget, p: Period)
    requires Base(base)
  {
    exists day :: Open(base, day) && Gap(base, day) == Range(p.first, p.last)
  }

  ghost predicate TableSound(base: Budget, b: Budget)
    requires Base(base)
  {
    && b.cadence == base.cadence
    && base.periods <= b.periods
    && Ordered(b.periods) && Disjoint(b.periods)
    && forall i :: |base.periods| <= i < |b.periods| ==> IsGap(base, b.periods[i])
  }

  /** What a request knows is what it would know running alone. */
  ghost predicate RequestSound(base: Budget, b: Budget, q: Request)
    requires Base(base)
  {
    var window := Window(base, q.day);
    match q.phase
    case Begin => true
    case Uncovered => Open(base, q.day)
    case ReadPrevious(previousEnd) =>
      Open(base, q.day) && ClampFirst(window, previousEnd) == Gap(base, q.day).first
    case ReadBoth(previousEnd, nextStart) =>
      && Open(base, q.day)
      && ClampFirst(window, previousEnd) == Gap(base, q.day).first
      && ClampLast(window, nextStart) == Gap(base, q.day).last
    case Done(i) => i < |b.periods| && b.periods[i].Covers(q.day)
  }

  ghost predicate Sound(base: Budget, s: Race)
    requires Base(base)
  {
    && TableSound(base, s.budget)
    && forall i :: 0 <= i < |s.requests| ==> RequestSound(base, s.budget, s.requests[i])
  }

  /** A gap that ends before an open day, or starts after it, stays clear of that day's own gap. */
  lemma ForeignGap(base: Budget, p: Period, day: int)
    requires Base(base) && IsGap(base, p) && Open(base, day)
    ensures p.first <= p.last
    ensures p.last < day ==> p.last < Gap(base, day).first
    ensures day < p.first ==> Gap(base, day).last < p.first
  {
    hide ComputeRange, Clamp, Open, Ordered, Disjoint;
    var owner :| Open(base, owner) && Gap(base, owner) == Range(p.first, p.last);
    GapMembers(base, owner, owner);
    GapMembers(base, day, day);
    if p.last < day && Gap(base, day).Has(p.last) {
      GapsEqualOrDisjoint(base, day, owner, p.last);
    }
    if day < p.first && Gap(base, day).Has(p.first) {
      GapsEqualOrDisjoint(base, day, owner, p.first);
    }
  }

  /** Reading the neighbours late, past other inserts, still clamps to the same gap. */
  lemma LateReads(base: Budget, b: Budget, day: int)
    requires Base(base) && TableSound(base, b) && Open(base, day)
    ensures ClampFirst(Window(base, day), PreviousEnd(b.periods, day, Window(base, day).last)) == Gap(base, day).first
    ensures ClampLast(Window(base, day), NextStart(b.periods, day, Window(base, day).last)) == Gap(base, day).last
  {
    hide ComputeRange, IsGap, Disjoint, PreviousEnd, NextStart;
    var window := Window(base, day);
    var now, atBase := PreviousEnd(b.periods, day, window.last), PreviousEnd(base.periods, day, window.last);
    var nowNext, baseNext := NextStart(b.periods, day, window.last), NextStart(base.periods, day, window.last);
    forall p <- b.periods ensures p in base.periods || (p.last < day ==> p.last < Gap(base, day).first)
      ensures p in base.periods || (day < p.first ==> Gap(base, day).last < p.first)
    {
      var i :| 0 <= i < |b.periods| && b.periods[i] == p;
      if i >= |base.periods| {
        ForeignGap(base, p, day);
      }
    }
    assert forall p <- base.periods :: p in b.periods;
  }

  /** The insert adds the request's gap, or finds the row of a racer that already did. */
  lemma InsertSound(base: Budget, b: Budget, day: int)
    requires Base(base) && TableSound(base, b) && Open(base, day)
    ensures var (after, i) := InsertOrFind(b, Gap(base, day));
            TableSound(base, after) && b.periods <= after.periods
            && i < |after.periods| && Range(after.periods[i].first, after.periods[i].last) == Gap(base, day)
  {
    hide ComputeRange, Clamp, CopiedPlan, Disjoint, Ordered;
    var r := Gap(base, day);
    GapMembers(base, day, day);
    var taken := StartingOn(b.periods, r.first);
    if taken.Some? {
      MeetsOnlyItself(base, b, day, taken.value);
    } else {
      forall q <- b.periods ensures !q.Meets(r.first, r.last) {
        var i :| 0 <= i < |b.periods| && b.periods[i] == q;
        MeetsOnlyItself(base, b, day, i);
      }
      AddDisjoint(b.periods, NewPeriod(b, r));
      assert IsGap(base, NewPeriod(b, r));
    }
  }

  lemma MeetsOnlyItself(base: Budget, b: Budget, day: int, i: nat)
    requires Base(base) && TableSound(base, b) && Open(base, day) && i < |b.periods|
    ensures b.periods[i].first <= b.periods[i].last
    ensures b.periods[i].Meets(Gap(base, day).first, Gap(base, day).last)
            ==> Range(b.periods[i].first, b.periods[i].last) == Gap(base, day)
  {
    hide ComputeRange, Clamp, Disjoint;
    var p, r := b.periods[i], Gap(base, day);
    assert p in b.periods;
    GapMembers(base, day, day);
    if i < |base.periods| {
      assert p in base.periods;
      WindowsTile(base.cadence, day, day);
      ClampFreeOf(base.periods, Window(base, day), day, p);
    } else if p.Meets(r.first, r.last) {
      var owner :| Open(base, owner) && Gap(base, owner) == Range(p.first, p.last);
      GapsEqualOrDisjoint(base, day, owner, if p.first <= r.first then r.first else p.first);
    }
  }

  lemma StepKeepsSound(base: Budget, s: Race, i: nat)
    requires Base(base) && Sound(base, s) && i < |s.requests|
    ensures Sound(base, Step(s, i)) && s.budget.periods <= Step(s, i).budget.periods
    ensures |Step(s, i).requests| == |s.requests|
    ensures forall j :: 0 <= j < |s.requests| ==> Step(s, i).requests[j].day == s.requests[j].day
  {
    hide ComputeRange, Clamp, Covering, PreviousEnd, NextStart, InsertOrFind, ClampFirst, ClampLast, Disjoint,
         Ordered, IsGap;
    var q, after := s.requests[i], Step(s, i);
    assert RequestSound(base, s.budget, q);
    assert forall p <- base.periods :: p in s.budget.periods;
    if q.phase.Uncovered? || q.phase.ReadPrevious? {
      LateReads(base, s.budget, q.day);
    } else if q.phase.ReadBoth? {
      InsertSound(base, s.budget, q.day);
      GapMembers(base, q.day, q.day);
    }
    forall j | 0 <= j < |after.requests| ensures RequestSound(base, after.budget, after.requests[j]) {
      assert RequestSound(base, s.budget, s.requests[j]);
    }
  }

  predicate Names(s: Race, schedule: seq<nat>) {
    forall j :: 0 <= j < |schedule| ==> schedule[j] < |s.requests|
  }

  function Run(base: Budget, s: Race, schedule: seq<nat>): Race
    requires Base(base) && Sound(base, s)
    requires Names(s, schedule)
    decreases |schedule|
  {
    if schedule == [] then s
    else
      StepKeepsSound(base, s, schedule[0]);
      Run(base, Step(s, schedule[0]), schedule[1..])
  }

  /**
   For any number of racing lookups and any interleaving of their steps, periods
   stay pairwise disjoint, no existing one changes, and every request that has
   finished holds a period covering its day.
   */
  lemma {:induction false} RacingLookupsSafe(base: Budget, s: Race, schedule: seq<nat>)
    requires Base(base) && Sound(base, s)
    requires Names(s, schedule)
    ensures var end := Run(base, s, schedule);
            && Sound(base, end) && Disjoint(end.budget.periods)
            && s.budget.periods <= end.budget.periods && |end.requests| == |s.requests|
            && forall i :: 0 <= i < |end.requests| && end.requests[i].phase.Done? ==>
                 && end.requests[i].phase.period < |end.budget.periods|
                 && end.budget.periods[end.requests[i].phase.period].Covers(s.requests[i].day)
    decreases |schedule|
  {
    hide Step, RequestSound, IsGap, Ordered, Disjoint;
    if schedule != [] {
      StepKeepsSound(base, s, schedule[0]);
      RacingLookupsSafe(base, Step(s, schedule[0]), schedule[1..]);
    } else {
      SoundMeans(base, s);
    }
  }

  lemma SoundMeans(base: Budget, s: Race)
    requires Base(base) && Sound(base, s)
    ensures Disjoint(s.budget.periods)
    ensures forall i :: 0 <= i < |s.requests| && s.requests[i].phase.Done? ==>
              && s.requests[i].phase.period < |s.budget.periods|
              && s.budget.periods[s.requests[i].phase.period].Covers(s.requests[i].day)
  {
    hide Disjoint;
    forall i | 0 <= i < |s.requests| && s.requests[i].phase.Done?
      ensures s.requests[i].phase.period < |s.budget.periods|
      ensures s.budget.periods[s.requests[i].phase.period].Covers(s.requests[i].day)
    {
      assert RequestSound(base, s.budget, s.requests[i]);
    }
  }

  /** One lookup per day, none of which has read anything yet. */
  function FreshRace(base: Budget, days: seq<int>): Race {
    Race(base, seq(|days|, i requires 0 <= i < |days| => Request(days[i], Begin)))
  }

  /** The same from the start: any days, looked up at once on a sound table. */
  lemma FreshLookupsSafe(base: Budget, days: seq<int>, schedule: seq<nat>)
    requires Base(base) && forall j :: 0 <= j < |schedule| ==> schedule[j] < |days|
    ensures Names(FreshRace(base, days), schedule) && Sound(base, FreshRace(base, days))
    ensures var end := Run(base, FreshRace(base, days), schedule);
            && Disjoint(end.budget.periods) && base.periods <= end.budget.periods && |end.requests| == |days|
            && forall i :: 0 <= i < |days| && end.requests[i].phase.Done? ==>
                 && end.requests[i].phase.period < |end.budget.periods|
                 && end.budget.periods[end.requests[i].phase.period].Covers(days[i])
  {
    RacingLookupsSafe(base, FreshRace(base, days), schedule);
  }

  // ---- stale lookups under different cadences ----

  /** The range a lookup of `day` inserts when it read the table `b` under cadence `c`. */
  function StaleGap(b: Budget, c: Cadence, day: int): Range
    requires c.Valid() && !c.kind.Custom?
  {
    Clamp(b.periods, ComputeRange(c, day), day)
  }

  predicate Meet(r: Range, q: Range) { r.first <= q.last && q.first <= r.last }

  /**
   Two lookups that read one table, each under its own cadence, and then insert. The
   table stays disjoint exactly when the clamped ranges start on the same day, where the
   unique start stops the second insert, or share no day. The first lookup's period
   covers its day; the second's does exactly when the starts differ, or the range it
   found under its own start reaches its day.
   */
  lemma RaceAcrossCadences(b: Budget, c: Cadence, d: Cadence, day: int, other: int)
    requires Inv(b) && Open(b, day) && Open(b, other)
    requires c.Valid() && d.Valid() && !c.kind.Custom? && !d.kind.Custom?
    ensures var r, q := StaleGap(b, c, day), StaleGap(b, d, other);
            var (mid, k) := InsertOrFind(b, r);
            var (after, i) := InsertOrFind(mid, q);
            && b.periods <= mid.periods <= after.periods && Inv(mid)
            && k < |mid.periods| && mid.periods[k].Covers(day)
            && (Disjoint(after.periods) <==> r.first == q.first || !Meet(r, q))
            && i < |after.periods|
            && (after.periods[i].Covers(other) <==> r.first != q.first || other <= r.last)
  {
    hide ComputeRange, Clamp, CopiedPlan;
    var r, q := StaleGap(b, c, day), StaleGap(b, d, other);
    StaleInsert(b, c, day);
    StaleInsert(b, d, other);
    SecondInsert(InsertOrFind(b, r).0, b, r, q);
  }

  /** An unhindered insert of a stale gap appends a period that covers the day and meets nothing it read. */
  lemma StaleInsert(b: Budget, c: Cadence, day: int)
    requires Inv(b) && Open(b, day) && c.Valid() && !c.kind.Custom?
    ensures var r := StaleGap(b, c, day);
            && r.Has(day) && (forall p <- b.periods :: !p.Meets(r.first, r.last))
            && InsertOrFind(b, r) == (b.(periods := b.periods + [NewPeriod(b, r)]), |b.periods|)
            && Inv(b.(periods := b.periods + [NewPeriod(b, r)]))
  {
    hide ComputeRange, Clamp, CopiedPlan;
    var window, r := ComputeRange(c, day), StaleGap(b, c, day);
    WindowsTile(c, day, day);
    ClampExact(b.periods, window, day, day);
    forall p <- b.periods ensures !p.Meets(r.first, r.last) {
      ClampFreeOf(b.periods, window, day, p);
    }
    StartTakenMeets(b.periods, r);
    AddDisjoint(b.periods, NewPeriod(b, r));
  }

  lemma SecondInsert(mid: Budget, b: Budget, r: Range, q: Range)
    requires Ordered(b.periods) && Disjoint(b.periods) && r.first <= r.last && q.first <= q.last
    requires forall p <- b.periods :: !p.Meets(r.first, r.last) && !p.Meets(q.first, q.last)
    requires mid.periods == b.periods + [NewPeriod(b, r)]
    ensures var (after, i) := InsertOrFind(mid, q);
            && mid.periods <= after.periods
            && (Disjoint(after.periods) <==> r.first == q.first || !Meet(r, q))
            && i < |after.periods|
            && Range(after.periods[i].first, after.periods[i].last) == if r.first == q.first then r else q
  {
    hide CopiedPlan;
    var n := |b.periods|;
    assert forall i :: 0 <= i < n ==> mid.periods[i] in b.periods && mid.periods[i] in mid.periods;
    assert mid.periods[n] == NewPeriod(b, r) && mid.periods[n] in mid.periods;
    AddDisjoint(b.periods, NewPeriod(b, r));
    var taken := StartingOn(mid.periods, q.first);
    if taken.None? {
      var after := mid.periods + [NewPeriod(mid, q)];
      if Meet(r, q) {
        assert after[n].Meets(after[n + 1].first, after[n + 1].last);
      } else {
        AddDisjoint(mid.periods, NewPeriod(mid, q));
      }
    }
  }

  /** Whatever it read, a lookup's period covers its day unless its start was taken by one too short. */
  lemma AnswerExact(b: Budget, r: Range, day: int)
    requires r.Has(day)
    ensures var (after, i) := InsertOrFind(b, r);
            && i < |after.periods| && b.periods <= after.periods
            && (after.periods[i].Covers(day) <==> i == |b.periods| || day <= b.periods[i].last)
  {
    hide CopiedPlan;
  }

  /** A weekly lookup and a biweekly one, either side of a cadence change, leave day 10 in two periods. */
  lemma CadenceChangeRaceOverlaps(archived: set<nat>)
    ensures var weekly, biweekly := Cadence(Weeks, Some(1), Some(10)), Cadence(Weeks, Some(2), Some(5));
            var b := Budget(biweekly, [], archived);
            var after := InsertOrFind(InsertOrFind(b, StaleGap(b, weekly, 10)).0, StaleGap(b, biweekly, 10)).0;
            && |after.periods| == 2 && after.periods[0].Covers(10) && after.periods[1].Covers(10)
            && !Disjoint(after.periods)
  {
    var b := Budget(Cadence(Weeks, Some(2), Some(5)), [], archived);
    var r, q := StaleGap(b, Cadence(Weeks, Some(1), Some(10)), 10), StaleGap(b, b.cadence, 10);
    assert 0 / 7 == 0 && 5 / 14 == 0;
    assert r == Range(10, 16) && q == Range(5, 18);
    var mid := InsertOrFind(b, r).0;
    assert mid.periods == [NewPeriod(b, r)];
    assert InsertOrFind(mid, q).0.periods == [NewPeriod(b, r), NewPeriod(mid, q)];
    var after := [NewPeriod(b, r), NewPeriod(mid, q)];
    assert after[0].Meets(after[1].first, after[1].last);
  }

  /** With equal starts the second lookup is answered with the first one's shorter period, which misses its day. */
  lemma CadenceChangeRaceMisses(archived: set<nat>)
    ensures var weekly, biweekly := Cadence(Weeks, Some(1), Some(10)), Cadence(Weeks, Some(2), Some(10));
            var b := Budget(biweekly, [], archived);
            var (after, i) := InsertOrFind(InsertOrFind(b, StaleGap(b, weekly, 12)).0, StaleGap(b, biweekly, 20));
            i < |after.periods| && !after.periods[i].Covers(20)
  {
    var b := Budget(Cadence(Weeks, Some(2), Some(10)), [], archived);
    var weekly := Cadence(Weeks, Some(1), Some(10));
    assert 2 / 7 == 0 && 10 / 14 == 0;
    assert StaleGap(b, weekly, 12) == Range(10, 16) && StaleGap(b, b.cadence, 20) == Range(10, 23);
    RaceAcrossCadences(b, weekly, b.cadence, 12, 20);
  }

  // ---- unlocked checks of custom periods ----

  /** The write that follows an overlap check or a clamp: a new row, or new dates for row `i`. */
  datatype Write =
    | Append(range: Range, custom: bool)
    | Move(i: nat, range: Range)
  {
    predicate On(b: Budget) { range.first <= range.last && (Move? ==> i < |b.periods|) }

    predicate Own(k: nat) { Move? && k == i }
  }

  /** What the overlap check, or the clamp, establishes about the table it read. */
  predicate Free(periods: seq<Period>, w: Write) {
    forall k :: 0 <= k < |periods| && !w.Own(k) ==> !periods[k].Meets(w.range.first, w.range.last)
  }

  /** A passed overlap check, and the clamp of a lookup, are exactly such reads. */
  lemma ChecksAreFree(b: Budget, r: Range, i: nat, c: Cadence, day: int)
    ensures Free(b.periods, Append(r, true)) <==> !Overlapping(b.periods, r.first, r.last, None)
    ensures Free(b.periods, Move(i, r)) <==> !Overlapping(b.periods, r.first, r.last, Some(i))
    ensures Inv(b) && Open(b, day) && c.Valid() && !c.kind.Custom? ==>
            Free(b.periods, Append(StaleGap(b, c, day), false))
  {
    hide ComputeRange, Clamp, Disjoint;
    if Inv(b) && Open(b, day) && c.Valid() && !c.kind.Custom? {
      StaleInsert(b, c, day);
      assert forall k :: 0 <= k < |b.periods| ==> b.periods[k] in b.periods;
    }
  }

  /** Another row holds the start date, so the unique constraint refuses the write. */
  predicate Refused(periods: seq<Period>, w: Write) {
    exists k :: 0 <= k < |periods| && !w.Own(k) && periods[k].first == w.range.first
  }

  function Store(b: Budget, w: Write): Budget
    requires w.On(b)
  {
    if Refused(b.periods, w) then b
    else
      match w
      case Append(r, custom) =>
        b.(periods := b.periods + [Period(r.first, r.last, custom, if custom then [] else CopiedPlan(b, r.first))])
      case Move(i, r) => b.(periods := b.periods[i := b.periods[i].(first := r.first, last := r.last)])
  }

  /** On a sound table a write keeps periods disjoint exactly when it is refused or still free when it happens. */
  lemma WriteExact(b: Budget, w: Write)
    requires Inv(b) && w.On(b)
    ensures Inv(Store(b, w)) <==> Refused(b.periods, w) || Free(b.periods, w)
    ensures Disjoint(Store(b, w).periods) <==> Inv(Store(b, w))
  {
    hide CopiedPlan;
    var after := Store(b, w);
    if !Refused(b.periods, w) {
      assert Ordered(after.periods);
      var own := if w.Move? then w.i else |b.periods|;
      assert forall k :: 0 <= k < |after.periods| && k != own ==> after.periods[k] == b.periods[k];
      if Disjoint(after.periods) {
        forall k | 0 <= k < |b.periods| && !w.Own(k) ensures !b.periods[k].Meets(w.range.first, w.range.last) {
          var low, high := if k < own then k else own, if k < own then own else k;
          assert !after.periods[low].Meets(after.periods[high].first, after.periods[high].last);
        }
      }
    }
  }

  ghost predicate AllOn(b: Budget, ws: seq<Write>)
    decreases |ws|
  {
    ws != [] ==> ws[0].On(b) && AllOn(Store(b, ws[0]), ws[1..])
  }

  ghost predicate AllFreeInTime(b: Budget, ws: seq<Write>)
    requires AllOn(b, ws)
    decreases |ws|
  {
    ws != [] ==> (Refused(b.periods, ws[0]) || Free(b.periods, ws[0])) && AllFreeInTime(Store(b, ws[0]), ws[1..])
  }

  ghost predicate AlwaysDisjoint(b: Budget, ws: seq<Write>)
    requires AllOn(b, ws)
    decreases |ws|
  {
    Disjoint(b.periods) && (ws != [] ==> AlwaysDisjoint(Store(b, ws[0]), ws[1..]))
  }

  /**
   Whatever the calls checked and whenever, a run of writes by lookups, custom creates
   and custom edits is disjoint throughout exactly when each write, at its own moment,
   is refused by the unique start or meets no other period.
   */
  lemma {:induction false} WritesExact(b: Budget, ws: seq<Write>)
    requires Inv(b) && AllOn(b, ws)
    ensures AlwaysDisjoint(b, ws) <==> AllFreeInTime(b, ws)
    decreases |ws|
  {
    hide Store, Refused, Free, Disjoint, Ordered;
    if ws != [] {
      WriteExact(b, ws[0]);
      if Inv(Store(b, ws[0])) {
        WritesExact(Store(b, ws[0]), ws[1..]);
      }
    }
  }

  /**
   Two calls that check one table and then both write: the table stays disjoint exactly
   when they write the same row, or their ranges start on the same day, or share no day.
   */
  lemma RacingWrites(b: Budget, v: Write, w: Write)
    requires Inv(b) && v.On(b) && w.On(b) && Free(b.periods, v) && Free(b.periods, w)
    ensures Inv(Store(b, v)) && w.On(Store(b, v))
    ensures Disjoint(Store(Store(b, v), w).periods)
       <==> (v.Move? && w.Move? && v.i == w.i) || v.range.first == w.range.first || !Meet(v.range, w.range)
  {
    hide CopiedPlan, Disjoint;
    WriteExact(b, v);
    NotRefused(b, v);
    var mid := Store(b, v);
    WriteExact(mid, w);
    var own := if v.Move? then v.i else |b.periods|;
    assert mid.periods[own].first == v.range.first && mid.periods[own].last == v.range.last;
    assert forall k :: 0 <= k < |mid.periods| && k != own ==> mid.periods[k] == b.periods[k];
    NotRefused(b, w);
  }

  lemma NotRefused(b: Budget, w: Write)
    requires Ordered(b.periods) && w.On(b) && Free(b.periods, w)
    ensures !Refused(b.periods, w)
  {
    forall k | 0 <= k < |b.periods| && !w.Own(k) ensures b.periods[k].first != w.range.first {
      assert b.periods[k] in b.periods;
    }
  }
}
