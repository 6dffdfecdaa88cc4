/// The budget's period table, updated in place; every method is proved against
/// the state functions of PeriodModel.
module PeriodService {
  import opened Wrappers
  import opened PeriodModel

  /** A call either fails and changes nothing, or reaches the modelled state. */
  predicate Outcome(result: Result<Budget, Error>, before: Budget, error: Option<Error>, after: Budget) {
    match result
    case Ok(b) => error.None? && after == b
    case Err(e) => error == Some(e) && after == before
  }

  class BudgetPeriods {
    var cadence: Cadence
    var periods: seq<Period>
    var archived: set<nat>

    function State(): Budget
      reads this
    {
      Budget(cadence, periods, archived)
    }

    constructor (cadence: Cadence)
      requires cadence.Valid()
      ensures State() == Budget(cadence, [], {})
    {
      this.cadence, periods, archived := cadence, [], {};
    }

    /** Returns the position of the period that covers `day`, creating it if need be. */
    method GetOrCreateForDate(day: int) returns (result: Result<nat, Error>)
      requires cadence.Valid()
      modifies this`periods
      ensures match GetOrCreate(old(State()), day)
              case Ok((after, i)) => result == Ok(i) && State() == after
              case Err(e) => result == Err(e) && State() == old(State())
    {
      hide ComputeRange, PreviousEnd, NextStart, Covering, StartingOn, CopiedPlan;
      var found := Covering(periods, day);
      if found.Some? {
        return Ok(found.value);
      }
      if cadence.kind.Custom? {
        return Err(NoPeriodForDate);
      }
      var window := ComputeRange(cadence, day);
      var first, last := window.first, window.last;
      var previousEnd := PreviousEnd(periods, day, last);
      if previousEnd.Some? && previousEnd.value >= first {
        first := previousEnd.value + 1;
      }
      var nextStart := NextStart(periods, day, last);
      if nextStart.Some? {
        last := nextStart.value - 1;
      }
      var taken := StartingOn(periods, first);
      if taken.Some? {
        return Ok(taken.value);
      }
      var plan := CopyForward(first);
      periods := periods + [Period(first, last, false, plan)];
      return Ok(|periods| - 1);
    }

    /** The plan a fresh period starting on `first` is pre-filled with. */
    method CopyForward(first: int) returns (plan: seq<Amount>)
      ensures plan == CopiedPlan(State(), first)
    {
      plan := [];
      var previous := PreviousPeriod(periods, first);
      if previous.Some? {
        var source := periods[previous.value].plan;
        for i := 0 to |source|
          invariant plan == Unarchived(source[..i], archived)
        {
          assert source[..i + 1][..i] == source[..i];
          if source[i].category !in archived {
            plan := plan + [source[i]];
          }
        }
        assert source[..|source|] == source;
      }
    }

    method CreateCustom(first: int, last: int) returns (error: Option<Error>)
      requires first <= last
      modifies this`periods
      ensures Outcome(PeriodModel.CreateCustom(old(State()), first, last), old(State()), error, State())
    {
      if Overlapping(periods, first, last, None) {
        return Some(PeriodOverlap);
      }
      periods := periods + [Period(first, last, true, [])];
      error := None;
    }

    method UpdateCustom(i: nat, first: Option<int>, last: Option<int>) returns (error: Option<Error>)
      modifies this`periods
      ensures Outcome(PeriodModel.UpdateCustom(old(State()), i, first, last), old(State()), error, State())
    {
      if i >= |periods| {
        return Some(PeriodNotFound);
      }
      var period := periods[i];
      if !period.custom {
        return Some(PeriodNotEditable);
      }
      var newFirst := if first.Some? then first.value else period.first;
      var newLast := if last.Some? then last.value else period.last;
      if newLast < newFirst {
        return Some(PeriodInvalidRange);
      }
      if Overlapping(periods, newFirst, newLast, Some(i)) {
        return Some(PeriodOverlap);
      }
      periods := periods[i := period.(first := newFirst, last := newLast)];
      error := None;
    }

    method Delete(i: nat) returns (error: Option<Error>)
      modifies this`periods
      ensures Outcome(DeletePeriod(old(State()), i), old(State()), error, State())
    {
      if i >= |periods| {
        return Some(PeriodNotFound);
      }
      if !periods[i].custom {
        return Some(PeriodNotEditable);
      }
      periods := periods[..i] + periods[i + 1..];
      error := None;
    }

    method UpdateCadence(kind: Option<CadenceKind>, weeks: Option<Option<int>>, anchor: Option<Option<int>>)
      returns (error: Option<Error>)
      modifies this`cadence
      ensures Outcome(SetCadence(old(State()), kind, weeks, anchor), old(State()), error, State())
    {
      if kind.None? && weeks.None? && anchor.None? {
        return None;
      }
      var validated := ValidatedCadence(
        if kind.Some? then kind.value else cadence.kind,
        if weeks.Some? then weeks.value else cadence.weeks,
        if anchor.Some? then anchor.value else cadence.anchor);
      if validated.Err? {
        return Some(validated.error);
      }
      cadence := validated.value;
      error := None;
    }
  }
}
