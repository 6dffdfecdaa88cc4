/// What the calls on rules and planned rows write, in terms of the payload and the
/// tables before: which rows appear, change or go, and with which fields.
module RecurringCalls {
  import opened Wrappers
  import opened Schedule
  import opened RecurringModel
  import opened RecurringLaws

  // ---- one run ----

  /** The pending rows of a rule dated after `today`, by position. */
  function PendingAt(plans: seq<Plan>, r: nat, today: int): set<nat> {
    set i: nat | i < |plans| && plans[i].rule == Some(r) && plans[i].status.Pending? && today < plans[i].date
  }

  lemma {:induction false} PendingAfterCounts(plans: seq<Plan>, r: nat, today: int)
    ensures PendingAfter(plans, r, today) == |PendingAt(plans, r, today)|
  {
    if plans != [] {
      var n := |plans| - 1;
      PendingAfterCounts(plans[..n], r, today);
      assert PendingAt(plans, r, today)
          == PendingAt(plans[..n], r, today) + if HoldsSlot(plans[n], r, today) then {n} else {};
    } else {
      assert PendingAt(plans, r, today) == {};
    }
  }

  /** A day the rule may still generate: past the pointer, not before its creation, not past its end. */
  predicate Due(rule: Rule, day: int)
    requires rule.Valid()
  {
    && FallsOn(rule.grammar, day)
    && (rule.last.Some? ==> rule.last.value < day)
    && rule.createdOn <= day
    && (rule.endDate.Some? ==> day <= rule.endDate.value)
  }

  /** The days the rule may still generate after `today` and before `day`. */
  function DueBetween(rule: Rule, today: int, day: int): set<int>
    requires rule.Valid()
  {
    set d | today < d < day && Due(rule, d)
  }

  lemma DueAhead(rule: Rule, today: int, day: int)
    requires rule.Valid() && (rule.endDate.Some? ==> day <= rule.endDate.value)
    ensures DueBetween(rule, today, day) == Occurrences(rule.grammar, Max(rule.Floor(), today + 1), day)
  {
    hide FallsOn, IsOccurrence;
    forall d ensures d in DueBetween(rule, today, day)
                <==> d in Occurrences(rule.grammar, Max(rule.Floor(), today + 1), day)
    {
      OccursExactly(rule.grammar, d);
      if FallsOn(rule.grammar, d) {
        FallsFrom(rule.grammar, d);
      }
    }
  }

  lemma FallsFrom(g: Grammar, day: int)
    requires g.Valid() && FallsOn(g, day)
    ensures g.start <= day
  {}

  /**
   A run handles exactly the due days that have come, all of them in materialize-all
   mode, and otherwise as many later ones as the window has room for besides the pending
   rows dated after today. A paused rule has none.
   */
  lemma RunHandles(desk: Desk, r: nat, today: int, day: int)
    requires RulesValid(desk) && r in desk.rules
    ensures var rule := desk.rules[r];
            day in HandledIn(desk, r, today) <==>
              && rule.active && Due(rule, day)
              && (day <= today || rule.materializeAll
                  || |DueBetween(rule, today, day)| + |PendingAt(desk.plans, r, today)| < rule.upfront)
  {
    hide Handled, FallsOn, IsOccurrence, Occurrences;
    var rule, pending := desk.rules[r], PendingAfter(desk.plans, r, today);
    PendingAfterCounts(desk.plans, r, today);
    HandledExactly(rule, today, pending, day);
    OccursExactly(rule.grammar, day);
    if FallsOn(rule.grammar, day) {
      FallsFrom(rule.grammar, day);
      if rule.endDate.Some? ==> day <= rule.endDate.value {
        DueAhead(rule, today, day);
      }
    }
  }

  /** A generated row: pending, on its day, with the rule's template. */
  predicate Generated(p: Plan, r: nat, template: Template) {
    p.rule == Some(r) && p.status.Pending? && p.template == template
  }

  lemma {:induction false} InsertedRows(plans: seq<Plan>, r: nat, template: Template, dates: seq<int>)
    ensures var after := Insert(plans, r, template, dates);
            plans <= after && forall i :: |plans| <= i < |after| ==> Generated(after[i], r, template)
    decreases |dates|
  {
    if dates != [] {
      InsertedRows(plans, r, template, dates[..|dates| - 1]);
    }
  }

  /** A run appends generated rows and moves its rule's pointer to the last day handled; nothing else changes. */
  lemma RunWrites(desk: Desk, r: nat, today: int)
    requires RulesValid(desk)
    ensures var dates, after := HandledIn(desk, r, today), GenerateFor(desk, r, today);
            && after.nextRule == desk.nextRule && desk.plans <= after.plans
            && after.rules.Keys == desk.rules.Keys
            && (forall q <- desk.rules :: q != r ==> after.rules[q] == desk.rules[q])
            && (r in desk.rules ==>
                  && after.rules[r] == desk.rules[r].(last := after.rules[r].last)
                  && (dates == [] ==> after == desk)
                  && (dates != [] ==> after.rules[r].last == Some(dates[|dates| - 1]))
                  && forall i :: |desk.plans| <= i < |after.plans| ==>
                       Generated(after.plans[i], r, desk.rules[r].template))
  {
    hide Handled;
    if HandledIn(desk, r, today) != [] {
      InsertedRows(desk.plans, r, desk.rules[r].template, HandledIn(desk, r, today));
    }
  }

  // ---- rules ----

  /** The stored rule carries the payload. */
  predicate Carries(rule: Rule, data: RuleData) {
    && rule.template == data.template && rule.grammar == data.grammar && rule.upfront == data.upfront
    && rule.materializeAll == data.materializeAll && rule.endDate == data.endDate && rule.active == data.active
  }

  /** The days a materialize-all payload asks for. */
  function Asked(data: RuleData, last: Option<int>, createdOn: int): set<int>
    requires data.Valid() && data.endDate.Some?
  {
    set day | data.grammar.start <= day <= data.endDate.value
              && FallsOn(data.grammar, day) && (last.Some? ==> last.value < day) && createdOn <= day
  }

  /** An end date after the start, and at most 500 rows to materialise at once. */
  predicate Feasible(data: RuleData, last: Option<int>, createdOn: int)
    requires data.Valid()
  {
    && (data.endDate.Some? ==> data.grammar.start <= data.endDate.value)
    && (data.materializeAll ==> data.endDate.Some? && |Asked(data, last, createdOn)| <= 500)
  }

  lemma AskedInRange(data: RuleData, last: Option<int>, createdOn: int)
    requires data.Valid() && data.endDate.Some?
    ensures var low := ToRule(data, last, createdOn).Floor();
            Asked(data, last, createdOn) == Occurrences(data.grammar, low, Max(low, data.endDate.value + 1))
  {
    var g, low := data.grammar, ToRule(data, last, createdOn).Floor();
    var high := Max(low, data.endDate.value + 1);
    hide FallsOn, IsOccurrence;
    forall d ensures d in Asked(data, last, createdOn) <==> d in Occurrences(g, low, high) {
      OccursExactly(g, d);
      if FallsOn(g, d) {
        FallsFrom(g, d);
      }
    }
  }

  lemma RemainingIsAsked(data: RuleData, last: Option<int>, createdOn: int)
    requires data.Valid() && data.endDate.Some? && data.grammar.start <= data.endDate.value
    ensures Remaining(ToRule(data, last, createdOn)) == |Asked(data, last, createdOn)|
  {
    var g, low, end := data.grammar, ToRule(data, last, createdOn).Floor(), data.endDate.value + 1;
    hide FirstIndex, Occurrences, Asked;
    AskedInRange(data, last, createdOn);
    OccurrenceCount(g, low, Max(low, end));
    FirstIndexMonotone(g, Min(low, end), Max(low, end));
  }

  lemma ProblemIsInfeasible(data: RuleData, last: Option<int>, createdOn: int)
    requires data.Valid()
    ensures Problem(data, last, createdOn).None? <==> Feasible(data, last, createdOn)
  {
    hide Remaining, Asked;
    if data.endDate.Some? && data.grammar.start <= data.endDate.value {
      RemainingIsAsked(data, last, createdOn);
    }
  }

  /** A pending row that no rule has claimed. */
  predicate Adoptable(desk: Desk, i: nat) {
    i < |desk.plans| && desk.plans[i].status.Pending? && desk.plans[i].rule.None?
  }

  /**
   A create succeeds exactly for a feasible payload whose adopted row, if any, is pending
   and unclaimed. It stores the payload, created today, links the adopted row and changes
   nothing else in it, and appends rows with the payload's template.
   */
  lemma RuleCreated(desk: Desk, data: RuleData, today: int)
    requires Tables(desk) && data.Valid()
    ensures CreateRule(desk, data, today).Ok? <==>
              && (data.adopt.Some? ==> Adoptable(desk, data.adopt.value))
              && Feasible(data, if data.adopt.Some? then Some(desk.plans[data.adopt.value].date) else None, today)
    ensures CreateRule(desk, data, today).Ok? ==>
              var after, r := CreateRule(desk, data, today).value, desk.nextRule;
              && after.nextRule == r + 1 && r !in desk.rules && after.rules.Keys == desk.rules.Keys + {r}
              && (forall q <- desk.rules :: after.rules[q] == desk.rules[q])
              && Carries(after.rules[r], data) && after.rules[r].createdOn == today
              && |desk.plans| <= |after.plans|
              && (forall i :: 0 <= i < |desk.plans| ==>
                    after.plans[i] == if data.adopt == Some(i) then desk.plans[i].(rule := Some(r)) else desk.plans[i])
              && forall i :: |desk.plans| <= i < |after.plans| ==> Generated(after.plans[i], r, data.template)
  {
    hide Problem, Feasible, GenerateFor, HandledIn;
    if data.adopt.Some? ==> Adoptable(desk, data.adopt.value) {
      var last := if data.adopt.Some? then Some(desk.plans[data.adopt.value].date) else None;
      ProblemIsInfeasible(data, last, today);
      assert AdoptedPointer(desk, data.adopt) == last;
      EndAfterStart(data, last, today);
      if Problem(data, last, today).None? {
        RunWrites(Opened(desk, data, today), desk.nextRule, today);
      }
    }
  }

  lemma EndAfterStart(data: RuleData, last: Option<int>, createdOn: int)
    requires data.Valid()
    ensures Feasible(data, last, createdOn) ==> (data.endDate.Some? ==> data.grammar.start <= data.endDate.value)
  {}

  /**
   An edit succeeds exactly on an existing rule, for a feasible payload that adopts
   nothing. It stores the payload and keeps the creation day; old rows stay as they are
   and new ones carry the new template.
   */
  lemma RuleEdited(desk: Desk, r: nat, data: RuleData, today: int)
    requires Tables(desk) && data.Valid()
    ensures UpdateRule(desk, r, data, today).Ok? <==>
              r in desk.rules && data.adopt.None? && Feasible(data, desk.rules[r].last, desk.rules[r].createdOn)
    ensures UpdateRule(desk, r, data, today).Ok? ==>
              var after := UpdateRule(desk, r, data, today).value;
              && after.nextRule == desk.nextRule && after.rules.Keys == desk.rules.Keys
              && (forall q <- desk.rules :: q != r ==> after.rules[q] == desk.rules[q])
              && Carries(after.rules[r], data) && after.rules[r].createdOn == desk.rules[r].createdOn
              && desk.plans <= after.plans
              && (after.plans == desk.plans ==> NotBefore(after.rules[r].last, desk.rules[r].last))
              && forall i :: |desk.plans| <= i < |after.plans| ==> Generated(after.plans[i], r, data.template)
  {
    hide Problem, Feasible, GenerateFor, HandledIn;
    if r in desk.rules && data.adopt.None? {
      ProblemIsInfeasible(data, desk.rules[r].last, desk.rules[r].createdOn);
      if Problem(data, desk.rules[r].last, desk.rules[r].createdOn).None? {
        EditStepSound(desk, r, data, today, r);
        RunWrites(Edited(desk, r, data), r, today);
      }
    }
  }

  /** The fault that an error reports of a rule's payload. */
  predicate RuleFault(data: RuleData, last: Option<int>, createdOn: int, e: Error)
    requires data.Valid()
  {
    match e
    case EndDateBeforeStart => data.endDate.Some? && data.endDate.value < data.grammar.start
    case MaterializeAllWithoutEndDate => data.materializeAll && data.endDate.None?
    case MaterializeAllLimit => data.materializeAll && data.endDate.Some? && |Asked(data, last, createdOn)| > 500
    case _ => false
  }

  lemma ProblemIsFault(data: RuleData, last: Option<int>, createdOn: int)
    requires data.Valid() && Problem(data, last, createdOn).Some?
    ensures RuleFault(data, last, createdOn, Problem(data, last, createdOn).value)
  {
    hide Remaining, Asked;
    if data.endDate.Some? && data.grammar.start <= data.endDate.value {
      RemainingIsAsked(data, last, createdOn);
    }
  }

  /** Every refusal of a create or an edit names a fault that the payload or the adopted row has. */
  lemma RuleErrorsAreFaults(desk: Desk, r: nat, data: RuleData, today: int)
    requires RulesValid(desk) && data.Valid()
    ensures CreateRule(desk, data, today).Err? ==>
              match CreateRule(desk, data, today).error
              case EndDateBeforeStart => data.endDate.Some? && data.endDate.value < data.grammar.start
              case PlannedNotFound => data.adopt.Some? && data.adopt.value >= |desk.plans|
              case AdoptNotPending =>
                data.adopt.Some? && data.adopt.value < |desk.plans| && !desk.plans[data.adopt.value].status.Pending?
              case AdoptAlreadyLinked =>
                data.adopt.Some? && data.adopt.value < |desk.plans| && desk.plans[data.adopt.value].rule.Some?
              case e =>
                && (data.adopt.Some? ==> data.adopt.value < |desk.plans|)
                && RuleFault(data, if data.adopt.Some? then Some(desk.plans[data.adopt.value].date) else None, today, e)
    ensures UpdateRule(desk, r, data, today).Err? ==>
              match UpdateRule(desk, r, data, today).error
              case RuleNotFound => r !in desk.rules
              case AdoptNotAllowed => data.adopt.Some?
              case e => r in desk.rules && RuleFault(data, desk.rules[r].last, desk.rules[r].createdOn, e)
  {
    hide Problem, GenerateFor, Asked;
    var adopt := data.adopt;
    if adopt.Some? ==> adopt.value < |desk.plans| {
      var last := if adopt.Some? then Some(desk.plans[adopt.value].date) else None;
      if Problem(data, last, today).Some? {
        ProblemIsFault(data, last, today);
      }
    }
    if r in desk.rules && Problem(data, desk.rules[r].last, desk.rules[r].createdOn).Some? {
      ProblemIsFault(data, desk.rules[r].last, desk.rules[r].createdOn);
    }
  }

  /** How often a row is left: other rules' rows as before, and the rule's own without its link unless they go. */
  lemma {:induction false} UnlinkCounts(plans: seq<Plan>, r: nat, deletePending: bool, p: Plan)
    ensures multiset(Unlink(plans, r, deletePending))[p]
         == (if p.rule == Some(r) then 0 else multiset(plans)[p])
            + (if p.rule.None? && !(deletePending && p.status.Pending?)
               then multiset(plans)[p.(rule := Some(r))] else 0)
  {
    if plans != [] {
      var init, last := plans[..|plans| - 1], plans[|plans| - 1];
      UnlinkCounts(init, r, deletePending, p);
      assert plans == init + [last];
      OneMoreRow(init, last, p);
      OneMoreRow(init, last, p.(rule := Some(r)));
      if last.rule != Some(r) {
        OneMoreRow(Unlink(init, r, deletePending), last, p);
      } else if !(deletePending && last.status.Pending?) {
        OneMoreRow(Unlink(init, r, deletePending), last.(rule := None), p);
      } else {
        assert Unlink(plans, r, deletePending) == Unlink(init, r, deletePending);
      }
    }
  }

  lemma OneMoreRow(rows: seq<Plan>, last: Plan, p: Plan)
    ensures multiset(rows + [last])[p] == multiset(rows)[p] + if p == last then 1 else 0
  {}

  /**
   Deleting a rule leaves every other rule and its rows; the rule's own rows lose their
   link and nothing else, except that pending ones go when that is asked.
   */
  lemma RuleDeleted(desk: Desk, r: nat, deletePending: bool, p: Plan)
    ensures DeleteRule(desk, r, deletePending).Ok? <==> r in desk.rules
    ensures DeleteRule(desk, r, deletePending).Ok? ==>
              var after := DeleteRule(desk, r, deletePending).value;
              && after.rules == desk.rules - {r} && after.nextRule == desk.nextRule
              && multiset(after.plans)[p]
                 == (if p.rule == Some(r) then 0 else multiset(desk.plans)[p])
                    + (if p.rule.None? && !(deletePending && p.status.Pending?)
                       then multiset(desk.plans)[p.(rule := Some(r))] else 0)
  {
    UnlinkCounts(desk.plans, r, deletePending, p);
  }

  // ---- planned rows ----

  /** The rows before and after differ at position `i` only. */
  predicate OnlyRow(desk: Desk, after: Desk, i: nat) {
    && after == desk.(plans := after.plans) && |after.plans| == |desk.plans|
    && forall k :: 0 <= k < |desk.plans| && k != i ==> after.plans[k] == desk.plans[k]
  }

  /**
   Executing, editing, deleting and adding a row: when each succeeds, and the one row it
   touches. A done row stays done, an edit keeps the link, and no two rows of a rule may
   share a date.
   */
  lemma RowsWritten(desk: Desk, i: nat, template: Template, date: int, status: Status)
    ensures ExecutePlan(desk, i).Ok? <==> i < |desk.plans| && !desk.plans[i].status.Done?
    ensures ExecutePlan(desk, i).Err? ==>
              ExecutePlan(desk, i).error == if i < |desk.plans| then AlreadyExecuted else PlannedNotFound
    ensures EditPlan(desk, i, template, date, status).Err? ==>
              EditPlan(desk, i, template, date, status).error
                == if i >= |desk.plans| then PlannedNotFound
                   else if desk.plans[i].status.Done? && !status.Done? then CannotRevert
                   else SlotTaken
    ensures ExecutePlan(desk, i).Ok? ==>
              var after := ExecutePlan(desk, i).value;
              OnlyRow(desk, after, i) && after.plans[i] == desk.plans[i].(status := after.plans[i].status)
              && after.plans[i].status.Done?
    ensures EditPlan(desk, i, template, date, status).Ok? <==>
              && i < |desk.plans| && (desk.plans[i].status.Done? ==> status.Done?)
              && forall k :: 0 <= k < |desk.plans| && k != i ==>
                   !SameSlot(desk.plans[k], desk.plans[i].(date := date))
    ensures EditPlan(desk, i, template, date, status).Ok? ==>
              var after := EditPlan(desk, i, template, date, status).value;
              && OnlyRow(desk, after, i) && after.plans[i].rule == desk.plans[i].rule
              && after.plans[i].template == template && after.plans[i].date == date && after.plans[i].status == status
    ensures DeletePlan(desk, i).Ok? <==> i < |desk.plans|
    ensures DeletePlan(desk, i).Ok? ==>
              var after := DeletePlan(desk, i).value;
              after == desk.(plans := after.plans)
              && multiset(after.plans) + multiset{desk.plans[i]} == multiset(desk.plans)
    ensures var after := CreatePlan(desk, template, date, status);
            after == desk.(plans := after.plans) && desk.plans <= after.plans && |after.plans| == |desk.plans| + 1
            && after.plans[|desk.plans|] == Plan(None, template, date, status)
  {
    if i < |desk.plans| {
      assert desk.plans == desk.plans[..i] + [desk.plans[i]] + desk.plans[i + 1..];
    }
  }

  // ---- the reported date ----

  /**
   A rule reports the first day of its grammar past the pointer, or from the start, and
   reports none exactly when it is paused or that day is past its end.
   */
  lemma ReportsNext(rule: Rule, day: int)
    requires rule.Valid()
    ensures NextOccurrenceDate(rule) == Some(day) <==>
              && rule.active && FallsOn(rule.grammar, day) && (rule.last.Some? ==> rule.last.value < day)
              && (rule.endDate.Some? ==> day <= rule.endDate.value)
              && forall d :: d < day && FallsOn(rule.grammar, d) ==> rule.last.Some? && d <= rule.last.value
  {
    hide Nth, FirstIndex, FallsOn, IsOccurrence;
    var g := rule.grammar;
    var seed := if rule.last.Some? then rule.last.value + 1 else g.start;
    forall d ensures FallsOn(g, d) <==> IsOccurrence(g, d) { OccursExactly(g, d); }
    forall d | FallsOn(g, d) ensures g.start <= d { FallsFrom(g, d); }
    FirstIsLeastOccurrence(g, seed);
  }
}
