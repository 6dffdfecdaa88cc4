/// The service that owns the two tables: loops and in-place updates, each
/// method proved against the state function of RecurringModel.
module RecurringService {
  import opened Wrappers
  import opened Schedule
  import opened RecurringModel

  lemma InsertOne(plans: seq<Plan>, r: nat, template: Template, dates: seq<int>, date: int)
    ensures Insert(plans, r, template, dates + [date])
         == Insert(Insert(plans, r, template, dates), r, template, [date])
  {
    assert (dates + [date])[..|dates|] == dates;
    assert [date][..0] == [];
  }

  lemma SliceGrows(g: Grammar, low: nat, high: nat)
    requires low <= high
    ensures Slice(g, low, high + 1) == Slice(g, low, high) + [Nth(g, high)]
  {
    hide Nth;
  }

  /** What the loop's three tests on candidate `k` mean for the closed form. */
  lemma CandidateTests(rule: Rule, today: int, pending: nat, k: nat)
    requires rule.Valid()
    requires FirstIndex(rule.grammar, rule.Seed()) <= k <= Stop(rule, today, pending)
    ensures var day := Nth(rule.grammar, k);
            && (rule.endDate.Some? && day > rule.endDate.value ==> Stop(rule, today, pending) <= Max(k, First(rule)))
            && (rule.endDate.Some? && day <= rule.endDate.value ==> k < PastEnd(rule))
            && (day < rule.createdOn <==> k < First(rule))
            && (First(rule) <= k ==> (day > today <==> FirstFuture(rule, today) <= k))
  {
    hide Nth, FirstIndex;
    var g := rule.grammar;
    if rule.endDate.Some? {
      FirstIndexSplits(g, rule.endDate.value + 1, k);
    }
    FirstIndexSplits(g, rule.createdOn, k);
    FirstIndexSplits(g, rule.Seed(), k);
    FirstIndexSplits(g, rule.Floor(), k);
    FirstIndexSplits(g, today + 1, k);
  }

  /** The loop leaves exactly at the closed form's bound. */
  lemma WindowTest(rule: Rule, today: int, pending: nat, k: nat, futurePending: int)
    requires rule.Valid()
    requires First(rule) <= k <= Stop(rule, today, pending)
    requires rule.endDate.Some? ==> k < PastEnd(rule)
    requires futurePending == pending + Max(0, k - FirstFuture(rule, today))
    ensures FirstFuture(rule, today) <= k && !rule.materializeAll && futurePending >= rule.upfront
            <==> k == Stop(rule, today, pending)
  {
    hide FirstIndex;
  }

  /**
   The state of the catch-up loop for rule `r`: the candidate has index `k`, the
   occurrences from the first eligible one up to it are handled, and `now` holds
   their rows and the moved pointer.
   */
  ghost predicate CatchingUp(before: Desk, r: nat, today: int, k: nat, locked: Rule, searchFrom: int,
                             futurePending: int, now: Desk)
    requires RulesValid(before)
  {
    && r in before.rules && before.rules[r].active
    && var rule, pending := before.rules[r], PendingAfter(before.plans, r, today);
    && FirstIndex(rule.grammar, rule.Seed()) <= k <= Stop(rule, today, pending)
    && k == FirstIndex(rule.grammar, searchFrom)
    && futurePending == pending + Max(0, k - FirstFuture(rule, today))
    && (locked.last.Some? ==> locked.last.value < searchFrom)
    && var dates := Slice(rule.grammar, First(rule), Max(First(rule), k));
    && locked == Advance(rule, dates)
    && now == Desk(
                if dates == [] then before.rules else before.rules[r := locked],
                Insert(before.plans, r, rule.template, dates), before.nextRule)
  }

  lemma CandidateFacts(before: Desk, r: nat, today: int, k: nat, locked: Rule, searchFrom: int, futurePending: int,
                       now: Desk)
    requires RulesValid(before) && CatchingUp(before, r, today, k, locked, searchFrom, futurePending, now)
    ensures r in before.rules && before.rules[r].Valid() && locked.grammar.Valid()
    ensures k == FirstIndex(locked.grammar, searchFrom)
    ensures locked.last.Some? ==> locked.last.value < searchFrom
    ensures k <= Stop(before.rules[r], today, PendingAfter(before.plans, r, today))
  {
    hide Nth, FirstIndex, Slice, Insert;
  }

  lemma CatchUpStarts(before: Desk, r: nat, today: int)
    requires RulesValid(before) && r in before.rules && before.rules[r].active
    ensures var rule := before.rules[r];
            CatchingUp(before, r, today, FirstIndex(rule.grammar, rule.Seed()), rule, rule.Seed(),
                       PendingAfter(before.plans, r, today), before)
  {
    hide Nth, FirstIndex;
    var rule := before.rules[r];
    FirstIndexMonotone(rule.grammar, rule.Seed(), rule.Floor());
    assert Slice(rule.grammar, First(rule), First(rule)) == [];
  }

  /** A candidate that predates the rule is passed over without moving the pointer. */
  lemma CatchUpSkips(before: Desk, r: nat, today: int, k: nat, locked: Rule, searchFrom: int, futurePending: int,
                     now: Desk)
    requires RulesValid(before) && CatchingUp(before, r, today, k, locked, searchFrom, futurePending, now)
    requires Nth(locked.grammar, k) < locked.createdOn
    ensures CatchingUp(before, r, today, k + 1, locked, Nth(locked.grammar, k) + 1, futurePending, now)
    ensures k < Stop(before.rules[r], today, PendingAfter(before.plans, r, today))
  {
    hide Nth, FirstIndex, Insert, Slice;
    var rule := before.rules[r];
    CandidateTests(rule, today, PendingAfter(before.plans, r, today), k);
    FirstIndexOfNth(rule.grammar, k);
    FirstIndexSplits(rule.grammar, searchFrom, k);
  }

  /** A candidate that passes every test gets its row, its slot and the pointer. */
  lemma CatchUpHandles(before: Desk, r: nat, today: int, k: nat, locked: Rule, searchFrom: int, futurePending: int,
                       now: Desk)
    requires RulesValid(before) && CatchingUp(before, r, today, k, locked, searchFrom, futurePending, now)
    requires var day := Nth(locked.grammar, k);
             && (locked.endDate.Some? ==> day <= locked.endDate.value)
             && locked.createdOn <= day
             && (day <= today || locked.materializeAll || futurePending < locked.upfront)
    ensures var day := Nth(locked.grammar, k);
            var moved := locked.(last := Some(day));
            CatchingUp(before, r, today, k + 1, moved, day + 1,
                       futurePending + (if day > today then 1 else 0),
                       now.(rules := now.rules[r := moved], plans := Insert(now.plans, r, locked.template, [day])))
    ensures k < Stop(before.rules[r], today, PendingAfter(before.plans, r, today))
  {
    hide Nth, FirstIndex, Insert, Slice;
    var rule, pending := before.rules[r], PendingAfter(before.plans, r, today);
    CandidateTests(rule, today, pending, k);
    WindowTest(rule, today, pending, k, futurePending);
    FirstIndexOfNth(rule.grammar, k);
    SliceGrows(rule.grammar, First(rule), k);
    InsertOne(before.plans, r, rule.template, Slice(rule.grammar, First(rule), k), Nth(rule.grammar, k));
  }

  /** Either break leaves the closed form of the run. */
  lemma CatchUpEnds(before: Desk, r: nat, today: int, k: nat, locked: Rule, searchFrom: int, futurePending: int,
                    now: Desk)
    requires RulesValid(before) && CatchingUp(before, r, today, k, locked, searchFrom, futurePending, now)
    requires var day := Nth(locked.grammar, k);
             || (locked.endDate.Some? && day > locked.endDate.value)
             || ((locked.endDate.Some? ==> day <= locked.endDate.value)
                 && locked.createdOn <= day
                 && day > today && !locked.materializeAll && futurePending >= locked.upfront)
    ensures now == GenerateFor(before, r, today)
  {
    hide Nth, FirstIndex, Slice;
    var rule, pending := before.rules[r], PendingAfter(before.plans, r, today);
    CandidateTests(rule, today, pending, k);
    if !(rule.endDate.Some? && Nth(rule.grammar, k) > rule.endDate.value) {
      WindowTest(rule, today, pending, k, futurePending);
    }
    assert Max(First(rule), k) == Stop(rule, today, pending);
    hide Stop, First, PendingAfter, FirstFuture;
  }

  class RecurringDesk {
    var rules: map<nat, Rule>
    var plans: seq<Plan>
    var nextRule: nat

    function State(): Desk
      reads this
    {
      Desk(rules, plans, nextRule)
    }

    constructor ()
      ensures State() == Desk(map[], [], 0)
    {
      rules, plans, nextRule := map[], [], 0;
    }

    method CountPendingAfter(r: nat, today: int) returns (count: nat)
      ensures count == PendingAfter(plans, r, today)
    {
      count := 0;
      for i := 0 to |plans|
        invariant count == PendingAfter(plans[..i], r, today)
      {
        assert plans[..i + 1][..i] == plans[..i];
        if HoldsSlot(plans[i], r, today) {
          count := count + 1;
        }
      }
      assert plans[..|plans|] == plans;
    }

    /** Inserts one occurrence; false when (rule, date) is already taken. */
    method CreateFromRecurring(r: nat, template: Template, occurrence: int) returns (created: bool)
      modifies this`plans
      ensures plans == Insert(old(plans), r, template, [occurrence])
      ensures created == !HasRow(old(plans), r, occurrence)
      ensures |plans| == |old(plans)| + (if created then 1 else 0)
    {
      assert [occurrence][..0] == [];
      created := !HasRow(plans, r, occurrence);
      if created {
        plans := plans + [NewRow(r, template, occurrence)];
      }
    }

    /** Materialises one occurrence and saves the pointer, inserted or race-lost alike. */
    method Materialise(r: nat, locked: Rule, occurrence: int) returns (moved: Rule, inserted: bool)
      modifies this`rules, this`plans
      ensures moved == locked.(last := Some(occurrence))
      ensures State() == old(State()).(rules := old(rules)[r := moved],
                                       plans := Insert(old(plans), r, locked.template, [occurrence]))
      ensures |plans| == |old(plans)| + (if inserted then 1 else 0)
    {
      inserted := CreateFromRecurring(r, locked.template, occurrence);
      moved := locked.(last := Some(occurrence));
      rules := rules[r := moved];
    }

    /** The locked catch-up of one rule; returns the number of rows created. */
    method GenerateForRule(r: nat, today: int) returns (created: nat)
      requires RulesValid(State())
      modifies this`rules, this`plans
      ensures State() == GenerateFor(old(State()), r, today)
      ensures |plans| == |old(plans)| + created
    {
      if r !in rules || !rules[r].active {
        return 0;
      }
      var locked := rules[r];
      var futurePending := CountPendingAfter(r, today);
      var searchFrom :=
        if locked.last.Some? then locked.last.value + 1 else Max(locked.grammar.start, locked.createdOn);
      created := CatchUp(r, today, locked, searchFrom, futurePending);
    }

    method CatchUp(r: nat, today: int, rule: Rule, seed: int, pending: nat) returns (created: nat)
      requires RulesValid(State())
      requires r in rules && rule == rules[r] && rule.active
      requires seed == rule.Seed() && pending == PendingAfter(plans, r, today)
      modifies this`rules, this`plans
      ensures State() == GenerateFor(old(State()), r, today)
      ensures |plans| == |old(plans)| + created
    {
      created := 0;
      var locked, searchFrom, futurePending, finished := rule, seed, pending, false;
      ghost var before, k, stop := State(), FirstIndex(rule.grammar, searchFrom), Stop(rule, today, pending);
      CatchUpStarts(before, r, today);
      hide *;
      while !finished
        invariant RulesValid(before) && |plans| == |before.plans| + created
        invariant if finished then State() == GenerateFor(before, r, today)
                  else CatchingUp(before, r, today, k, locked, searchFrom, futurePending, State())
        decreases !finished, stop as int - k
      {
        var inserted;
        finished, locked, searchFrom, futurePending, inserted :=
          Turn(before, k, r, today, locked, searchFrom, futurePending);
        created := created + if inserted then 1 else 0;
        k := k + 1;
      }
    }

    /** One turn of the catch-up loop: finish, skip a candidate before the creation day, or materialise it. */
    method Turn(ghost before: Desk, ghost k: nat, r: nat, today: int, rule: Rule, start: int, pending: nat)
      returns (finished: bool, locked: Rule, searchFrom: int, futurePending: nat, inserted: bool)
      requires RulesValid(before) && CatchingUp(before, r, today, k, rule, start, pending, State())
      modifies this`rules, this`plans
      ensures |plans| == |old(plans)| + if inserted then 1 else 0
      ensures finished ==> State() == GenerateFor(before, r, today)
      ensures !finished ==>
                && CatchingUp(before, r, today, k + 1, locked, searchFrom, futurePending, State())
                && k < Stop(before.rules[r], today, PendingAfter(before.plans, r, today))
    {
      hide GenerateFor, CatchingUp, RulesValid, Stop, PendingAfter, Insert, FirstIndex, Nth;
      CandidateFacts(before, r, today, k, rule, start, pending, State());
      finished, locked, searchFrom, futurePending, inserted := true, rule, start, pending, false;
      var occurrence := NextOccurrenceOnOrAfter(locked.grammar, searchFrom);
      if locked.last.Some? && occurrence <= locked.last.value {
        // Defensive exit: the stepper always advances past the pointer.
        assert false;
      }
      if locked.endDate.Some? && occurrence > locked.endDate.value {
        CatchUpEnds(before, r, today, k, locked, searchFrom, futurePending, State());
        return;
      }
      if occurrence < locked.createdOn {
        CatchUpSkips(before, r, today, k, locked, searchFrom, futurePending, State());
        finished, searchFrom := false, occurrence + 1;
        return;
      }
      if occurrence > today && !locked.materializeAll && futurePending >= locked.upfront {
        CatchUpEnds(before, r, today, k, locked, searchFrom, futurePending, State());
        return;
      }
      CatchUpHandles(before, r, today, k, locked, searchFrom, futurePending, State());
      finished := false;
      locked, inserted := Materialise(r, locked, occurrence);
      if occurrence > today {
        futurePending := futurePending + 1;
      }
      searchFrom := occurrence + 1;
    }

    /** The nightly pass over every active rule. */
    method GenerateDue(today: int) returns (created: nat)
      requires RulesValid(State())
      modifies this`rules, this`plans
      ensures State() == RecurringModel.GenerateDue(old(State()), today)
      ensures |plans| == |old(plans)| + created
    {
      created := 0;
      ghost var before := State();
      var n := nextRule;
      for r := 0 to n
        invariant State() == GenerateBelow(before, r, today)
        invariant |plans| == |before.plans| + created
        invariant nextRule == n
      {
        hide *;
        var more := GenerateForRule(r, today);
        created := created + more;
        GenerateBelowStep(before, r, today);
      }
    }

    /** Creates a rule, links the adopted row, and generates the first window. */
    method CreateRule(data: RuleData, today: int) returns (error: Option<Error>)
      requires RulesValid(State()) && data.Valid()
      modifies this
      ensures Outcome(RecurringModel.CreateRule(old(State()), data, today), old(State()), error, State())
    {
      if data.endDate.Some? && data.endDate.value < data.grammar.start {
        return Some(EndDateBeforeStart);
      }
      if data.adopt.Some? {
        if data.adopt.value >= |plans| {
          return Some(PlannedNotFound);
        }
        if !plans[data.adopt.value].status.Pending? {
          return Some(AdoptNotPending);
        }
        if plans[data.adopt.value].rule.Some? {
          return Some(AdoptAlreadyLinked);
        }
      }
      var pointer := if data.adopt.Some? then Some(plans[data.adopt.value].date) else None;
      error := ValidateMaterializeAll(data, pointer, today);
      if error.Some? {
        return;
      }
      ghost var withRule := Opened(State(), data, today);
      var r := nextRule;
      rules := rules[r := ToRule(data, pointer, today)];
      if data.adopt.Some? {
        plans := plans[data.adopt.value := plans[data.adopt.value].(rule := Some(r))];
      }
      nextRule := nextRule + 1;
      assert State() == withRule;
      var _ := GenerateForRule(r, today);
    }

    method UpdateRule(r: nat, data: RuleData, today: int) returns (error: Option<Error>)
      requires RulesValid(State()) && data.Valid()
      modifies this
      ensures Outcome(RecurringModel.UpdateRule(old(State()), r, data, today), old(State()), error, State())
    {
      if r !in rules {
        return Some(RuleNotFound);
      }
      if data.adopt.Some? {
        return Some(AdoptNotAllowed);
      }
      if data.endDate.Some? && data.endDate.value < data.grammar.start {
        return Some(EndDateBeforeStart);
      }
      error := ValidateMaterializeAll(data, rules[r].last, rules[r].createdOn);
      if error.Some? {
        return;
      }
      ghost var edited := Edited(State(), r, data);
      rules := rules[r := ToRule(data, rules[r].last, rules[r].createdOn)];
      assert State() == edited;
      var _ := GenerateForRule(r, today);
    }

    method DeleteRule(r: nat, deletePending: bool) returns (error: Option<Error>)
      modifies this`rules, this`plans
      ensures Outcome(RecurringModel.DeleteRule(old(State()), r, deletePending), old(State()), error, State())
    {
      if r !in rules {
        return Some(RuleNotFound);
      }
      var kept := [];
      for i := 0 to |plans|
        invariant plans == old(plans) && rules == old(rules)
        invariant kept == Unlink(plans[..i], r, deletePending)
      {
        assert plans[..i + 1][..i] == plans[..i];
        var p := plans[i];
        if p.rule != Some(r) {
          kept := kept + [p];
        } else if !(deletePending && p.status.Pending?) {
          kept := kept + [p.(rule := None)];
        }
      }
      assert plans[..|plans|] == plans;
      plans := kept;
      rules := rules - {r};
      error := None;
    }

    method ExecutePlan(i: nat) returns (error: Option<Error>)
      modifies this`plans
      ensures Outcome(RecurringModel.ExecutePlan(old(State()), i), old(State()), error, State())
    {
      if i >= |plans| {
        return Some(PlannedNotFound);
      }
      if plans[i].status.Done? {
        return Some(AlreadyExecuted);
      }
      plans := plans[i := plans[i].(status := Done)];
      error := None;
    }

    method EditPlan(i: nat, template: Template, date: int, status: Status) returns (error: Option<Error>)
      modifies this`plans
      ensures Outcome(RecurringModel.EditPlan(old(State()), i, template, date, status), old(State()), error, State())
    {
      if i >= |plans| {
        return Some(PlannedNotFound);
      }
      if plans[i].status.Done? && !status.Done? {
        return Some(CannotRevert);
      }
      if Taken(plans, i, date) {
        return Some(SlotTaken);
      }
      plans := plans[i := plans[i].(template := template, date := date, status := status)];
      error := None;
    }

    method DeletePlan(i: nat) returns (error: Option<Error>)
      modifies this`plans
      ensures Outcome(RecurringModel.DeletePlan(old(State()), i), old(State()), error, State())
    {
      if i >= |plans| {
        return Some(PlannedNotFound);
      }
      plans := plans[..i] + plans[i + 1..];
      error := None;
    }
  }

  /** A call either fails and changes nothing, or reaches the modelled state. */
  predicate Outcome(result: Result<Desk, Error>, before: Desk, error: Option<Error>, after: Desk) {
    match result
    case Ok(desk) => error.None? && after == desk
    case Err(e) => error == Some(e) && after == before
  }

  lemma GenerateBelowStep(desk: Desk, n: nat, today: int)
    requires RulesValid(desk)
    ensures GenerateBelow(desk, n + 1, today) == GenerateFor(GenerateBelow(desk, n, today), n, today)
  {}

  /**
   The materialize-all guard walks the schedule by itself, with a counter capped
   past the limit, and rejects exactly the rules with too many occurrences left.
   */
  method ValidateMaterializeAll(data: RuleData, last: Option<int>, createdOn: int) returns (error: Option<Error>)
    requires data.Valid()
    requires data.endDate.Some? ==> data.grammar.start <= data.endDate.value
    ensures error == Problem(data, last, createdOn)
  {
    if !data.materializeAll {
      return None;
    }
    if data.endDate.None? {
      return Some(MaterializeAllWithoutEndDate);
    }
    var g, endDate := data.grammar, data.endDate.value;
    var searchFrom := if last.Some? then last.value + 1 else Max(g.start, createdOn);
    var count := 0;
    ghost var rule := ToRule(data, last, createdOn);
    ghost var k := FirstIndex(g, searchFrom);
    FirstIndexMonotone(g, searchFrom, rule.Floor());
    hide Nth, FirstIndex, Slice;
    while true
      invariant FirstIndex(g, rule.Seed()) <= k <= Max(First(rule), PastEnd(rule))
      invariant k == FirstIndex(g, searchFrom)
      invariant count == Max(0, k - First(rule)) <= MAX_MATERIALIZE_OCCURRENCES
      decreases Max(First(rule), PastEnd(rule)) - k
    {
      CandidateTests(rule, createdOn, 0, k);
      var occurrence := NextOccurrenceOnOrAfter(g, searchFrom);
      FirstIndexOfNth(g, k);
      if occurrence > endDate {
        return None;
      }
      if occurrence >= createdOn {
        count := count + 1;
        if count > MAX_MATERIALIZE_OCCURRENCES {
          return Some(MaterializeAllLimit);
        }
      }
      searchFrom := occurrence + 1;
      k := k + 1;
    }
  }
}
