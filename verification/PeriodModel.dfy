/// A budget's cadence and its periods, and what each period call does to them.
/// Periods are rows of a table in insertion order, addressed by position.
module PeriodModel {
  import opened Wrappers
  import opened Calendar

  datatype CadenceKind = Monthly | Weeks | Custom

  datatype Cadence = Cadence(kind: CadenceKind, weeks: Option<int>, anchor: Option<int>) {
    /** What cadence validation leaves in the table. */
    predicate Valid() {
      if kind.Weeks? then weeks.Some? && weeks.value >= 1 && anchor.Some? else weeks.None? && anchor.None?
    }
  }

  datatype Amount = Amount(category: nat, currency: string, amount: int)

  datatype Period = Period(first: int, last: int, custom: bool, plan: seq<Amount>) {
    predicate Covers(day: int) { first <= day <= last }

    predicate Meets(low: int, high: int) { first <= high && low <= last }
  }

  datatype Budget = Budget(cadence: Cadence, periods: seq<Period>, archived: set<nat>)

  datatype Error =
    | NoPeriodForDate
    | PeriodNotFound
    | PeriodNotEditable
    | PeriodOverlap
    | PeriodInvalidRange
    | BudgetCadenceConfig

  datatype Range = Range(first: int, last: int) {
    predicate Has(day: int) { first <= day <= last }
  }

  // ---- the cadence ----

  function ValidatedCadence(kind: CadenceKind, weeks: Option<int>, anchor: Option<int>): (r: Result<Cadence, Error>)
    ensures r.Ok? ==> r.value.Valid()
  {
    if kind.Weeks? then
      if weeks.None? || weeks.value < 1 || anchor.None? then Err(BudgetCadenceConfig)
      else Ok(Cadence(kind, weeks, anchor))
    else Ok(Cadence(kind, None, None))
  }

  /** The cadence window around `day`. */
  function ComputeRange(c: Cadence, day: int): Range
    requires c.Valid() && !c.kind.Custom?
  {
    if c.kind.Monthly? then
      var month := MonthOf(day);
      Range(MonthStart(month), MonthStart(month) + MonthLength(month) - 1)
    else
      var span := c.weeks.value * 7;
      var k := (day - c.anchor.value) / span;
      var first := c.anchor.value + k * span;
      Range(first, first + span - 1)
  }

  // ---- lookups ----

  /** Position of the first period that covers `day`. */
  function Covering(periods: seq<Period>, day: int): (i: Option<nat>)
    ensures i.Some? ==> i.value < |periods| && periods[i.value].Covers(day)
    ensures i.None? ==> forall p <- periods :: !p.Covers(day)
  {
    if periods == [] then None
    else
      var init := Covering(periods[..|periods| - 1], day);
      if init.Some? then init
      else if periods[|periods| - 1].Covers(day) then Some(|periods| - 1) else None
  }

  /** The latest end before `day`, among periods that start within the window. */
  function PreviousEnd(periods: seq<Period>, day: int, windowLast: int): (end: Option<int>)
    ensures end.None? ==> forall p <- periods :: !(p.first <= windowLast && p.last < day)
    ensures end.Some? ==> exists p <- periods :: p.first <= windowLast && p.last < day && p.last == end.value
    ensures end.Some? ==> forall p <- periods :: p.first <= windowLast && p.last < day ==> p.last <= end.value
  {
    if periods == [] then None
    else
      var init, p := PreviousEnd(periods[..|periods| - 1], day, windowLast), periods[|periods| - 1];
      assert p in periods && forall q <- periods[..|periods| - 1] :: q in periods;
      if p.first <= windowLast && p.last < day && (init.None? || init.value < p.last) then Some(p.last) else init
  }

  /** The earliest start after `day` within the window. */
  function NextStart(periods: seq<Period>, day: int, windowLast: int): (start: Option<int>)
    ensures start.None? ==> forall p <- periods :: !(day < p.first <= windowLast)
    ensures start.Some? ==> exists p <- periods :: day < p.first <= windowLast && p.first == start.value
    ensures start.Some? ==> forall p <- periods :: day < p.first <= windowLast ==> start.value <= p.first
  {
    if periods == [] then None
    else
      var init, p := NextStart(periods[..|periods| - 1], day, windowLast), periods[|periods| - 1];
      assert p in periods && forall q <- periods[..|periods| - 1] :: q in periods;
      if day < p.first <= windowLast && (init.None? || p.first < init.value) then Some(p.first) else init
  }

  function ClampFirst(window: Range, previousEnd: Option<int>): int {
    if previousEnd.Some? && previousEnd.value >= window.first then previousEnd.value + 1 else window.first
  }

  function ClampLast(window: Range, nextStart: Option<int>): int {
    if nextStart.Some? then nextStart.value - 1 else window.last
  }

  function Clamp(periods: seq<Period>, window: Range, day: int): Range {
    Range(ClampFirst(window, PreviousEnd(periods, day, window.last)),
          ClampLast(window, NextStart(periods, day, window.last)))
  }

  // ---- copying the plan forward ----

  /** The plan of the latest period that starts before `first`; empty when there is none. */
  function PreviousPeriod(periods: seq<Period>, first: int): (i: Option<nat>)
    ensures i.None? ==> forall p <- periods :: first <= p.first
    ensures i.Some? ==> i.value < |periods| && periods[i.value].first < first
    ensures i.Some? ==> forall p <- periods :: p.first < first ==> p.first <= periods[i.value].first
  {
    if periods == [] then None
    else
      var init, p := PreviousPeriod(periods[..|periods| - 1], first), periods[|periods| - 1];
      if p.first < first && (init.None? || periods[init.value].first < p.first) then Some(|periods| - 1) else init
  }

  function Unarchived(plan: seq<Amount>, archived: set<nat>): seq<Amount> {
    if plan == [] then []
    else
      Unarchived(plan[..|plan| - 1], archived)
      + (if plan[|plan| - 1].category in archived then [] else [plan[|plan| - 1]])
  }

  function CopiedPlan(b: Budget, first: int): seq<Amount> {
    var previous := PreviousPeriod(b.periods, first);
    if previous.None? then [] else Unarchived(b.periods[previous.value].plan, b.archived)
  }

  // ---- calls ----

  function NewPeriod(b: Budget, r: Range): Period {
    Period(r.first, r.last, false, CopiedPlan(b, r.first))
  }

  /** Position of the period that starts on `first`. */
  function StartingOn(periods: seq<Period>, first: int): (i: Option<nat>)
    ensures i.Some? ==> i.value < |periods| && periods[i.value].first == first
    ensures i.None? ==> forall p <- periods :: p.first != first
  {
    if periods == [] then None
    else
      var init := StartingOn(periods[..|periods| - 1], first);
      if init.Some? then init
      else if periods[|periods| - 1].first == first then Some(|periods| - 1) else None
  }

  /** Inserts under the unique (budget, start) constraint, or falls back to the row that holds the start. */
  function InsertOrFind(b: Budget, r: Range): (Budget, nat) {
    var taken := StartingOn(b.periods, r.first);
    if taken.Some? then (b, taken.value)
    else (b.(periods := b.periods + [NewPeriod(b, r)]), |b.periods|)
  }

  /** The lazy lookup: the covering period, or a freshly clamped one. */
  function GetOrCreate(b: Budget, day: int): Result<(Budget, nat), Error>
    requires b.cadence.Valid()
  {
    var found := Covering(b.periods, day);
    if found.Some? then Ok((b, found.value))
    else if b.cadence.kind.Custom? then Err(NoPeriodForDate)
    else Ok(InsertOrFind(b, Clamp(b.periods, ComputeRange(b.cadence, day), day)))
  }

  predicate Overlapping(periods: seq<Period>, first: int, last: int, exclude: Option<nat>) {
    exists i :: 0 <= i < |periods| && exclude != Some(i) && periods[i].Meets(first, last)
  }

  function CreateCustom(b: Budget, first: int, last: int): Result<Budget, Error>
    requires first <= last
  {
    if Overlapping(b.periods, first, last, None) then Err(PeriodOverlap)
    else Ok(b.(periods := b.periods + [Period(first, last, true, [])]))
  }

  function UpdateCustom(b: Budget, i: nat, first: Option<int>, last: Option<int>): Result<Budget, Error> {
    if i >= |b.periods| then Err(PeriodNotFound)
    else if !b.periods[i].custom then Err(PeriodNotEditable)
    else
      var newFirst := if first.Some? then first.value else b.periods[i].first;
      var newLast := if last.Some? then last.value else b.periods[i].last;
      if newLast < newFirst then Err(PeriodInvalidRange)
      else if Overlapping(b.periods, newFirst, newLast, Some(i)) then Err(PeriodOverlap)
      else Ok(b.(periods := b.periods[i := b.periods[i].(first := newFirst, last := newLast)]))
  }

  function DeletePeriod(b: Budget, i: nat): Result<Budget, Error> {
    if i >= |b.periods| then Err(PeriodNotFound)
    else if !b.periods[i].custom then Err(PeriodNotEditable)
    else Ok(b.(periods := b.periods[..i] + b.periods[i + 1..]))
  }

  /** Fields left out of the payload keep their stored value; the rest is validated together. */
  function SetCadence(b: Budget, kind: Option<CadenceKind>, weeks: Option<Option<int>>, anchor: Option<Option<int>>)
    : Result<Budget, Error>
  {
    if kind.None? && weeks.None? && anchor.None? then Ok(b)
    else
      var c := ValidatedCadence(
        if kind.Some? then kind.value else b.cadence.kind,
        if weeks.Some? then weeks.value else b.cadence.weeks,
        if anchor.Some? then anchor.value else b.cadence.anchor);
      match c
      case Ok(cadence) => Ok(b.(cadence := cadence))
      case Err(e) => Err(e)
  }
}
