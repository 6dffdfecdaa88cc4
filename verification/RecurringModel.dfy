/// Recurring rules, the planned rows they materialise, and what each service
/// call does to the two tables, as functions from state to state.
module RecurringModel {
  import opened Wrappers
  import opened Schedule

  datatype Status = Pending | Done | Cancelled

  /** What a materialised row copies from its rule. */
  datatype Template = Template(name: string, amount: int, account: Option<nat>, currency: string, category: Option<nat>)

  datatype Plan = Plan(rule: Option<nat>, template: Template, date: int, status: Status)

  datatype Rule = Rule(
    template: Template,
    grammar: Grammar,
    upfront: int,
    materializeAll: bool,
    endDate: Option<int>,
    active: bool,
    last: Option<int>,
    createdOn: int)
  {
    /** The table's check constraints. */
    predicate Valid() {
      && grammar.Valid()
      && 1 <= upfront <= 24
      && (endDate.Some? ==> grammar.start <= endDate.value)
      && (materializeAll ==> endDate.Some?)
    }

    /** Where the generator starts looking: past the pointer, or at the first eligible day. */
    function Seed(): int {
      if last.Some? then last.value + 1 else Max(grammar.start, createdOn)
    }

    /** No occurrence before this day is ever generated. */
    function Floor(): int { Max(Seed(), createdOn) }
  }

  /** The rule table by id, the planned rows in insertion order, and the next rule id. */
  datatype Desk = Desk(rules: map<nat, Rule>, plans: seq<Plan>, nextRule: nat)

  const MAX_MATERIALIZE_OCCURRENCES := 500

  // ---- one generator run ----

  function First(rule: Rule): nat
    requires rule.Valid()
  {
    FirstIndex(rule.grammar, rule.Floor())
  }

  /** Index of the first candidate that falls after `today`. */
  function FirstFuture(rule: Rule, today: int): (k: nat)
    requires rule.Valid()
    ensures First(rule) <= k
  {
    Max(First(rule), FirstIndex(rule.grammar, today + 1))
  }

  /** Index of the first occurrence after the end date. */
  function PastEnd(rule: Rule): nat
    requires rule.Valid() && rule.endDate.Some?
  {
    FirstIndex(rule.grammar, rule.endDate.value + 1)
  }

  /** Free slots in the window of pending future rows. */
  function Room(rule: Rule, pending: nat): nat {
    if pending < rule.upfront then rule.upfront - pending else 0
  }

  /** One past the index of the last occurrence a run handles. */
  function Stop(rule: Rule, today: int, pending: nat): (k: nat)
    requires rule.Valid()
    ensures First(rule) <= k
  {
    if rule.materializeAll then Max(First(rule), PastEnd(rule))
    else
      var window := FirstFuture(rule, today) + Room(rule, pending);
      if rule.endDate.Some? then Max(First(rule), Min(window, PastEnd(rule))) else window
  }

  /** Occurrences from index `low` up to but excluding `high`. */
  function Slice(g: Grammar, low: nat, high: nat): (dates: seq<int>)
    requires low <= high
    ensures |dates| == high - low
  {
    seq(high - low, i requires 0 <= i < high - low => Nth(g, low + i))
  }

  /** The occurrences one run of an active rule handles, in order. */
  function Handled(rule: Rule, today: int, pending: nat): seq<int>
    requires rule.Valid()
  {
    Slice(rule.grammar, First(rule), Stop(rule, today, pending))
  }

  predicate HoldsSlot(p: Plan, r: nat, today: int) {
    p.rule == Some(r) && p.status.Pending? && today < p.date
  }

  /** Pending rows of rule `r` dated after `today`. */
  function PendingAfter(plans: seq<Plan>, r: nat, today: int): nat {
    if plans == [] then 0
    else PendingAfter(plans[..|plans| - 1], r, today) + (if HoldsSlot(plans[|plans| - 1], r, today) then 1 else 0)
  }

  predicate HasRow(plans: seq<Plan>, r: nat, date: int) {
    exists i :: 0 <= i < |plans| && plans[i].rule == Some(r) && plans[i].date == date
  }

  function NewRow(r: nat, template: Template, date: int): Plan {
    Plan(Some(r), template, date, Pending)
  }

  /** Inserts one row per date, except where (rule, date) is already taken. */
  function Insert(plans: seq<Plan>, r: nat, template: Template, dates: seq<int>): seq<Plan>
    decreases |dates|
  {
    if dates == [] then plans
    else
      var before := Insert(plans, r, template, dates[..|dates| - 1]);
      var date := dates[|dates| - 1];
      if HasRow(before, r, date) then before else before + [NewRow(r, template, date)]
  }

  function Advance(rule: Rule, dates: seq<int>): Rule {
    if dates == [] then rule else rule.(last := Some(dates[|dates| - 1]))
  }

  function HandledIn(desk: Desk, r: nat, today: int): seq<int>
    requires RulesValid(desk)
  {
    if r in desk.rules && desk.rules[r].active
    then Handled(desk.rules[r], today, PendingAfter(desk.plans, r, today))
    else []
  }

  predicate RulesValid(desk: Desk) {
    forall r <- desk.rules :: desk.rules[r].Valid()
  }

  function GenerateFor(desk: Desk, r: nat, today: int): (after: Desk)
    requires RulesValid(desk)
    ensures RulesValid(after)
  {
    var dates := HandledIn(desk, r, today);
    if dates == [] then desk
    else
      var rule := desk.rules[r];
      desk.(rules := desk.rules[r := Advance(rule, dates)], plans := Insert(desk.plans, r, rule.template, dates))
  }

  /** The nightly pass, over the rules with an id below `n`. */
  function GenerateBelow(desk: Desk, n: nat, today: int): (after: Desk)
    requires RulesValid(desk)
    ensures RulesValid(after)
  {
    if n == 0 then desk else GenerateFor(GenerateBelow(desk, n - 1, today), n - 1, today)
  }

  function GenerateDue(desk: Desk, today: int): (after: Desk)
    requires RulesValid(desk)
    ensures RulesValid(after)
  {
    GenerateBelow(desk, desk.nextRule, today)
  }

  /** The "next occurrence" a rule reports to its reader. */
  function NextOccurrenceDate(rule: Rule): Option<int>
    requires rule.Valid()
  {
    if !rule.active then None
    else
      var candidate := Nth(rule.grammar,
                           FirstIndex(rule.grammar,
                                      if rule.last.Some? then rule.last.value + 1 else rule.grammar.start));
      if rule.endDate.Some? && candidate > rule.endDate.value then None else Some(candidate)
  }

  // ---- validation ----

  datatype Error =
    | EndDateBeforeStart
    | MaterializeAllWithoutEndDate
    | MaterializeAllLimit
    | RuleNotFound
    | PlannedNotFound
    | AdoptNotAllowed
    | AdoptNotPending
    | AdoptAlreadyLinked
    | AlreadyExecuted
    | CannotRevert
    | SlotTaken

  /** The payload of a rule create or full-replace update; schema bounds are its Valid predicate. */
  datatype RuleData = RuleData(
    template: Template,
    grammar: Grammar,
    upfront: int,
    materializeAll: bool,
    endDate: Option<int>,
    active: bool,
    adopt: Option<nat>)
  {
    predicate Valid() { grammar.Valid() && 1 <= upfront <= 24 }
  }

  function ToRule(data: RuleData, last: Option<int>, createdOn: int): Rule {
    Rule(data.template, data.grammar, data.upfront, data.materializeAll, data.endDate, data.active, last, createdOn)
  }

  /** Occurrences that remain between the generation seed and the end date. */
  function Remaining(rule: Rule): nat
    requires rule.Valid() && rule.endDate.Some?
  {
    Max(First(rule), PastEnd(rule)) - First(rule)
  }

  /** The end-date and materialize-all guards, in the order they run. */
  function Problem(data: RuleData, last: Option<int>, createdOn: int): Option<Error>
    requires data.Valid()
  {
    if data.endDate.Some? && data.endDate.value < data.grammar.start then Some(EndDateBeforeStart)
    else if data.materializeAll && data.endDate.None? then Some(MaterializeAllWithoutEndDate)
    else if data.materializeAll && Remaining(ToRule(data, last, createdOn)) > MAX_MATERIALIZE_OCCURRENCES
    then Some(MaterializeAllLimit)
    else None
  }

  function AdoptProblem(desk: Desk, adopt: Option<nat>): Option<Error> {
    if adopt.None? then None
    else if adopt.value >= |desk.plans| then Some(PlannedNotFound)
    else if !desk.plans[adopt.value].status.Pending? then Some(AdoptNotPending)
    else if desk.plans[adopt.value].rule.Some? then Some(AdoptAlreadyLinked)
    else None
  }

  // ---- service calls ----

  function AdoptedPointer(desk: Desk, adopt: Option<nat>): Option<int>
    requires AdoptProblem(desk, adopt).None?
  {
    if adopt.None? then None else Some(desk.plans[adopt.value].date)
  }

  function LinkAdopted(plans: seq<Plan>, adopt: Option<nat>, r: nat): seq<Plan>
    requires adopt.Some? ==> adopt.value < |plans|
  {
    if adopt.None? then plans else plans[adopt.value := plans[adopt.value].(rule := Some(r))]
  }

  /** The rule row and the adopted link, before generation. */
  function Opened(desk: Desk, data: RuleData, today: int): (after: Desk)
    requires RulesValid(desk) && data.Valid()
    requires AdoptProblem(desk, data.adopt).None?
    requires Problem(data, AdoptedPointer(desk, data.adopt), today).None?
    ensures RulesValid(after)
  {
    var rule := ToRule(data, AdoptedPointer(desk, data.adopt), today);
    Desk(desk.rules[desk.nextRule := rule], LinkAdopted(desk.plans, data.adopt, desk.nextRule), desk.nextRule + 1)
  }

  function CreateRule(desk: Desk, data: RuleData, today: int): Result<Desk, Error>
    requires RulesValid(desk) && data.Valid()
  {
    if data.endDate.Some? && data.endDate.value < data.grammar.start then Err(EndDateBeforeStart)
    else if AdoptProblem(desk, data.adopt).Some? then Err(AdoptProblem(desk, data.adopt).value)
    else
      var problem := Problem(data, AdoptedPointer(desk, data.adopt), today);
      if problem.Some? then Err(problem.value)
      else Ok(GenerateFor(Opened(desk, data, today), desk.nextRule, today))
  }

  /** The edited rule keeps its pointer and creation day. */
  function Edited(desk: Desk, r: nat, data: RuleData): (after: Desk)
    requires RulesValid(desk) && data.Valid() && r in desk.rules
    requires Problem(data, desk.rules[r].last, desk.rules[r].createdOn).None?
    ensures RulesValid(after)
  {
    desk.(rules := desk.rules[r := ToRule(data, desk.rules[r].last, desk.rules[r].createdOn)])
  }

  function UpdateRule(desk: Desk, r: nat, data: RuleData, today: int): Result<Desk, Error>
    requires RulesValid(desk) && data.Valid()
  {
    if r !in desk.rules then Err(RuleNotFound)
    else if data.adopt.Some? then Err(AdoptNotAllowed)
    else
      var problem := Problem(data, desk.rules[r].last, desk.rules[r].createdOn);
      if problem.Some? then Err(problem.value)
      else Ok(GenerateFor(Edited(desk, r, data), r, today))
  }

  /** Rows of a deleted rule lose their link; its pending rows go too when asked. */
  function Unlink(plans: seq<Plan>, r: nat, deletePending: bool): seq<Plan> {
    if plans == [] then []
    else
      var p := plans[|plans| - 1];
      Unlink(plans[..|plans| - 1], r, deletePending)
      + (if p.rule != Some(r) then [p]
         else if deletePending && p.status.Pending? then []
         else [p.(rule := None)])
  }

  function DeleteRule(desk: Desk, r: nat, deletePending: bool): Result<Desk, Error> {
    if r !in desk.rules then Err(RuleNotFound)
    else Ok(desk.(rules := desk.rules - {r}, plans := Unlink(desk.plans, r, deletePending)))
  }

  function ExecutePlan(desk: Desk, i: nat): Result<Desk, Error> {
    if i >= |desk.plans| then Err(PlannedNotFound)
    else if desk.plans[i].status.Done? then Err(AlreadyExecuted)
    else Ok(desk.(plans := desk.plans[i := desk.plans[i].(status := Done)]))
  }

  /** Another row of the same rule is dated `date`, so the unique constraint refuses to move row `i` there. */
  predicate Taken(plans: seq<Plan>, i: nat, date: int)
    requires i < |plans|
  {
    exists k :: 0 <= k < |plans| && k != i &&
      plans[i].rule.Some? && plans[k].rule == plans[i].rule && plans[k].date == date
  }

  /** A full replace of a planned row; the link to a rule is not part of the payload. */
  function EditPlan(desk: Desk, i: nat, template: Template, date: int, status: Status): Result<Desk, Error> {
    if i >= |desk.plans| then Err(PlannedNotFound)
    else if desk.plans[i].status.Done? && !status.Done? then Err(CannotRevert)
    else if Taken(desk.plans, i, date) then Err(SlotTaken)
    else Ok(desk.(plans := desk.plans[i := Plan(desk.plans[i].rule, template, date, status)]))
  }

  function DeletePlan(desk: Desk, i: nat): Result<Desk, Error> {
    if i >= |desk.plans| then Err(PlannedNotFound)
    else Ok(desk.(plans := desk.plans[..i] + desk.plans[i + 1..]))
  }

  function CreatePlan(desk: Desk, template: Template, date: int, status: Status): Desk {
    desk.(plans := desk.plans + [Plan(None, template, date, status)])
  }
}
