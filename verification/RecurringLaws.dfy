/// What the materialisation engine promises: the exact set one run handles,
/// independence from missed nights, and no date generated twice over any run.
module RecurringLaws {
  import opened Wrappers
  import opened Schedule
  import opened RecurringModel

  // ---- one run ----

  /** The window rule: due days always, future ones while the window has room. */
  predicate Eligible(rule: Rule, today: int, pending: nat, day: int)
    requires rule.Valid()
  {
    && IsOccurrence(rule.grammar, day)
    && rule.Floor() <= day
    && (rule.endDate.Some? ==> day <= rule.endDate.value)
    && (day <= today
        || rule.materializeAll
        || |Occurrences(rule.grammar, Max(rule.Floor(), today + 1), day)| < Room(rule, pending))
  }

  /** One run handles exactly the eligible days. */
  lemma HandledExactly(rule: Rule, today: int, pending: nat, day: int)
    requires rule.Valid()
    ensures day in Handled(rule, today, pending) <==> Eligible(rule, today, pending, day)
  {
    hide Nth, FirstIndex, Occurrences;
    var g, k := rule.grammar, FirstIndex(rule.grammar, day);
    SliceMembers(g, First(rule), Stop(rule, today, pending), day);
    if IsOccurrence(g, day) {
      FirstIndexSplits(g, rule.Floor(), k);
      FirstIndexSplits(g, today + 1, k);
      if rule.endDate.Some? {
        FirstIndexSplits(g, rule.endDate.value + 1, k);
      }
      if rule.Floor() <= day && today < day {
        OccurrenceCount(g, Max(rule.Floor(), today + 1), day);
        FirstFutureIndex(rule, today);
      }
    }
  }

  lemma FirstFutureIndex(rule: Rule, today: int)
    requires rule.Valid()
    ensures FirstFuture(rule, today) == FirstIndex(rule.grammar, Max(rule.Floor(), today + 1))
  {
    hide FirstIndex;
    if rule.Floor() <= today + 1 {
      FirstIndexMonotone(rule.grammar, rule.Floor(), today + 1);
    } else {
      FirstIndexMonotone(rule.grammar, today + 1, rule.Floor());
    }
  }

  lemma SliceMembers(g: Grammar, low: nat, high: nat, day: int)
    requires g.Valid() && low <= high
    ensures day in Slice(g, low, high) <==> IsOccurrence(g, day) && low <= FirstIndex(g, day) < high
  {
    hide Nth, FirstIndex;
    if day in Slice(g, low, high) {
      var i :| 0 <= i < high - low && Slice(g, low, high)[i] == day;
      FirstIndexOfNth(g, low + i);
    }
    if IsOccurrence(g, day) && low <= FirstIndex(g, day) < high {
      assert Slice(g, low, high)[FirstIndex(g, day) - low] == day;
    }
  }

  lemma SliceIncreases(g: Grammar, low: nat, high: nat)
    requires g.Valid() && low <= high
    ensures Increasing(Slice(g, low, high))
  {
    hide Nth;
    forall i, j | 0 <= i < j < high - low ensures Slice(g, low, high)[i] < Slice(g, low, high)[j] {
      NthIncreases(g, low + i, low + j);
    }
  }

  predicate Increasing(days: seq<int>) {
    forall i, j :: 0 <= i < j < |days| ==> days[i] < days[j]
  }

  /** The guard accepts a materialize-all rule iff an active run of it would handle at most 500 days. */
  lemma GuardMatchesRun(data: RuleData, last: Option<int>, createdOn: int, today: int, pending: nat)
    requires data.Valid() && data.materializeAll
    requires data.endDate.Some? && data.grammar.start <= data.endDate.value
    ensures Problem(data, last, createdOn).None?
       <==> |Handled(ToRule(data, last, createdOn), today, pending)| <= 500
  {
    hide FirstIndex;
  }

  // ---- the reported next occurrence ----

  /** Whether `day` is the next day the generator will handle, whenever it handles one. */
  ghost predicate GeneratesNext(rule: Rule, day: int)
    requires rule.Valid()
  {
    && (exists today: int, pending: nat :: Handled(rule, today, pending) != [])
    && (forall today: int, pending: nat ::
          Handled(rule, today, pending) != [] ==> Handled(rule, today, pending)[0] == day)
  }

  /** A run either handles nothing or starts at the first occurrence past the floor. */
  lemma HandledHead(rule: Rule, today: int, pending: nat)
    requires rule.Valid()
    ensures Handled(rule, today, pending) != [] ==>
              && Handled(rule, today, pending)[0] == Nth(rule.grammar, First(rule))
              && (rule.endDate.Some? ==> Nth(rule.grammar, First(rule)) <= rule.endDate.value)
    ensures today >= Nth(rule.grammar, First(rule))
            && (rule.endDate.Some? ==> Nth(rule.grammar, First(rule)) <= rule.endDate.value)
            ==> Handled(rule, today, pending) != []
  {
    hide Nth, FirstIndex;
    FirstIndexSplits(rule.grammar, today + 1, First(rule));
    if rule.endDate.Some? {
      FirstIndexSplits(rule.grammar, rule.endDate.value + 1, First(rule));
    }
  }

  /**
   The reported date is the one the generator will produce next exactly when it
   does not predate the rule's creation: the report ignores the creation day,
   although it is documented to follow the generator's derivation.
   */
  lemma ReportedDateIsGenerated(rule: Rule, day: int)
    requires rule.Valid() && NextOccurrenceDate(rule) == Some(day)
    ensures GeneratesNext(rule, day) <==> rule.createdOn <= day
  {
    hide Nth, FirstIndex, Handled;
    var g := rule.grammar;
    var from := if rule.last.Some? then rule.last.value + 1 else g.start;
    var k, first := FirstIndex(g, from), First(rule);
    StartIsFirst(g);
    FirstIndexSplits(g, from, k);
    FirstIndexSplits(g, rule.Floor(), k);
    FirstIndexSplits(g, rule.Floor(), first);
    FirstIndexSplits(g, from, first);
    if rule.createdOn <= day {
      HandledHead(rule, day, 0);
      forall today: int, pending: nat
        ensures Handled(rule, today, pending) != [] ==> Handled(rule, today, pending)[0] == day
      {
        HandledHead(rule, today, pending);
      }
    } else if GeneratesNext(rule, day) {
      var today: int, pending: nat :| Handled(rule, today, pending) != [];
      HandledHead(rule, today, pending);
    }
  }

  lemma StartIsFirst(g: Grammar)
    requires g.Valid()
    ensures FirstIndex(g, g.start) == 0 && Nth(g, 0) == g.start
  {
    hide FirstIndex;
    FirstIndexSplits(g, g.start, 0);
  }

  /** Creating a rule whose end date has passed succeeds; it then reports a date that no run ever produces. */
  lemma ReportedDateNeverGenerated(template: Template)
    ensures var data := RuleData(template, Grammar(Daily, 1, 100), 1, false, Some(105), true, None);
            var created := CreateRule(Desk(map[], [], 0), data, 200);
            && created.Ok? && 0 in created.value.rules && created.value.rules[0].Valid()
            && NextOccurrenceDate(created.value.rules[0]) == Some(100)
            && forall today: int, pending: nat :: Handled(created.value.rules[0], today, pending) == []
  {
    hide FirstIndex;
    var desk, data := Desk(map[], [], 0), RuleData(template, Grammar(Daily, 1, 100), 1, false, Some(105), true, None);
    var rule := ToRule(data, None, 200);
    StartIsFirst(rule.grammar);
    FirstIndexSplits(rule.grammar, rule.Floor(), First(rule));
    forall today: int, pending: nat ensures Handled(rule, today, pending) == [] {
      HandledHead(rule, today, pending);
    }
    assert Opened(desk, data, 200).rules[0] == rule;
    assert HandledIn(Opened(desk, data, 200), 0, 200) == [];
  }

  // ---- missed nights ----

  /** The rows linked to rule `r`, in insertion order. */
  function Linked(plans: seq<Plan>, r: nat): seq<Plan> {
    if plans == [] then []
    else Linked(plans[..|plans| - 1], r) + (if plans[|plans| - 1].rule == Some(r) then [plans[|plans| - 1]] else [])
  }

  function Rows(r: nat, template: Template, dates: seq<int>): (rows: seq<Plan>)
    ensures |rows| == |dates|
  {
    seq(|dates|, i requires 0 <= i < |dates| => NewRow(r, template, dates[i]))
  }

  /** Everything that exists of one rule: its row and its linked plans. */
  datatype View = View(rule: Rule, rows: seq<Plan>)

  function Run(v: View, r: nat, today: int): View
    requires v.rule.Valid()
  {
    if !v.rule.active then v
    else
      var dates := Handled(v.rule, today, PendingAfter(v.rows, r, today));
      View(Advance(v.rule, dates), v.rows + Rows(r, v.rule.template, dates))
  }

  lemma {:induction false} PendingAfterAppend(plans: seq<Plan>, more: seq<Plan>, r: nat, today: int)
    ensures PendingAfter(plans + more, r, today) == PendingAfter(plans, r, today) + PendingAfter(more, r, today)
  {
    if more == [] {
      assert plans + more == plans;
    } else {
      var init := more[..|more| - 1];
      PendingAfterAppend(plans, init, r, today);
      assert (plans + more)[..|plans + more| - 1] == plans + init;
    }
  }

  /** New rows hold one slot for each of their days after `today`. */
  lemma {:induction false} PendingAfterRows(r: nat, template: Template, g: Grammar, low: nat, high: nat, today: int)
    requires g.Valid() && low <= high
    ensures PendingAfter(Rows(r, template, Slice(g, low, high)), r, today)
         == Max(0, high - Max(low, FirstIndex(g, today + 1)))
  {
    hide Nth, FirstIndex;
    var rows := Rows(r, template, Slice(g, low, high));
    if low < high {
      PendingAfterRows(r, template, g, low, high - 1, today);
      assert rows[..|rows| - 1] == Rows(r, template, Slice(g, low, high - 1));
      FirstIndexSplits(g, today + 1, high - 1);
    }
  }

  lemma {:induction false} PendingAfterAntitone(plans: seq<Plan>, r: nat, earlier: int, later: int)
    requires earlier <= later
    ensures PendingAfter(plans, r, later) <= PendingAfter(plans, r, earlier)
  {
    if plans != [] {
      PendingAfterAntitone(plans[..|plans| - 1], r, earlier, later);
    }
  }

  /** After a run, the seed sits right past the handled occurrences. */
  lemma FirstAfterRun(rule: Rule, low: nat, high: nat)
    requires rule.Valid() && low == First(rule) && low <= high
    ensures First(Advance(rule, Slice(rule.grammar, low, high))) == high
  {
    hide Nth, FirstIndex;
    if low < high {
      var g, last := rule.grammar, Nth(rule.grammar, high - 1);
      assert Slice(g, low, high)[high - low - 1] == last;
      FirstIndexOfNth(g, high - 1);
      FirstIndexSplits(g, rule.createdOn, high - 1);
      FirstIndexSplits(g, rule.Floor(), high - 1);
      FirstIndexMonotone(g, rule.createdOn, last + 1);
    }
  }

  lemma SliceJoins(g: Grammar, low: nat, mid: nat, high: nat)
    requires low <= mid <= high
    ensures Slice(g, low, mid) + Slice(g, mid, high) == Slice(g, low, high)
  {
    hide Nth;
  }

  /** The closed-form bound, on indices alone. */
  function Bound(first: int, future: int, room: int, pastEnd: Option<int>, all: bool): int
    requires all ==> pastEnd.Some?
  {
    if all then Max(first, pastEnd.value)
    else if pastEnd.Some? then Max(first, Min(Max(first, future) + room, pastEnd.value))
    else Max(first, future) + room
  }

  lemma BoundComposes(first: int, future: int, later: int, pending: int, laterPending: int, upfront: int,
                      pastEnd: Option<int>, all: bool)
    requires all ==> pastEnd.Some?
    requires 0 <= laterPending <= pending && future <= later
    ensures var mid := Bound(first, future, Max(0, upfront - pending), pastEnd, all);
            var high := Bound(first, later, Max(0, upfront - laterPending), pastEnd, all);
            var taken := Max(0, mid - Max(first, later));
            && first <= mid <= high
            && Bound(mid, later, Max(0, upfront - (laterPending + taken)), pastEnd, all) == high
  {}

  lemma StopIsBound(rule: Rule, today: int, pending: nat)
    requires rule.Valid()
    ensures Stop(rule, today, pending)
         == Bound(First(rule), FirstIndex(rule.grammar, today + 1), Max(0, rule.upfront - pending),
                  if rule.endDate.Some? then Some(PastEnd(rule)) else None, rule.materializeAll)
  {
    hide FirstIndex, First, PastEnd;
  }

  /** Running on an earlier day first only does part of the later day's work. */
  lemma StopComposes(v: View, r: nat, earlier: int, later: int)
    requires v.rule.Valid() && v.rule.active && earlier <= later
    ensures var rule, g := v.rule, v.rule.grammar;
            var mid := Stop(rule, earlier, PendingAfter(v.rows, r, earlier));
            var high := Stop(rule, later, PendingAfter(v.rows, r, later));
            var next := Run(v, r, earlier);
            && mid <= high
            && next.rule.Valid() && First(next.rule) == mid
            && Stop(next.rule, later, PendingAfter(next.rows, r, later)) == high
  {
    hide Nth, FirstIndex, Slice, Rows, First, Stop, Bound, PendingAfter;
    var rule, g := v.rule, v.rule.grammar;
    var low, mid := First(rule), Stop(rule, earlier, PendingAfter(v.rows, r, earlier));
    var dates := Slice(g, low, mid);
    FirstAfterRun(rule, low, mid);
    AdvanceKeeps(rule, dates);
    FirstIndexMonotone(g, earlier + 1, later + 1);
    PendingAfterAntitone(v.rows, r, earlier, later);
    PendingAfterAppend(v.rows, Rows(r, rule.template, dates), r, later);
    PendingAfterRows(r, rule.template, g, low, mid, later);
    var next := Run(v, r, earlier);
    StopIsBound(rule, earlier, PendingAfter(v.rows, r, earlier));
    StopIsBound(rule, later, PendingAfter(v.rows, r, later));
    StopIsBound(next.rule, later, PendingAfter(next.rows, r, later));
    BoundComposes(low, FirstIndex(g, earlier + 1), FirstIndex(g, later + 1),
                  PendingAfter(v.rows, r, earlier), PendingAfter(v.rows, r, later), rule.upfront,
                  if rule.endDate.Some? then Some(PastEnd(rule)) else None, rule.materializeAll);
  }

  lemma AdvanceComposes(rule: Rule, a: seq<int>, b: seq<int>)
    ensures Advance(Advance(rule, a), b) == Advance(rule, a + b)
  {}

  lemma RowsCompose(rows: seq<Plan>, r: nat, template: Template, a: seq<int>, b: seq<int>)
    ensures rows + Rows(r, template, a) + Rows(r, template, b) == rows + Rows(r, template, a + b)
  {
    assert Rows(r, template, a) + Rows(r, template, b) == Rows(r, template, a + b);
  }

  /** A missed earlier night is invisible after the later one. */
  lemma MissedNight(v: View, r: nat, earlier: int, later: int)
    requires v.rule.Valid() && earlier <= later
    ensures Run(v, r, earlier).rule.Valid()
    ensures Run(Run(v, r, earlier), r, later) == Run(v, r, later)
  {
    hide Nth, FirstIndex, Slice, Rows, Stop, First, PendingAfter, Advance;
    if v.rule.active {
      StopComposes(v, r, earlier, later);
      var rule, g := v.rule, v.rule.grammar;
      var low := First(rule);
      var mid := Stop(rule, earlier, PendingAfter(v.rows, r, earlier));
      var high := Stop(rule, later, PendingAfter(v.rows, r, later));
      var a, b := Slice(g, low, mid), Slice(g, mid, high);
      AdvanceKeeps(rule, a);
      SliceJoins(g, low, mid, high);
      AdvanceComposes(rule, a, b);
      RowsCompose(v.rows, r, rule.template, a, b);
    }
  }

  lemma AdvanceKeeps(rule: Rule, dates: seq<int>)
    ensures Advance(rule, dates) == rule.(last := Advance(rule, dates).last)
  {}

  // ---- the two tables ----

  predicate LinkSound(rules: map<nat, Rule>, p: Plan) {
    p.rule.Some? ==>
      && p.rule.value in rules
      && rules[p.rule.value].last.Some?
      && p.date <= rules[p.rule.value].last.value
  }

  predicate SameSlot(p: Plan, q: Plan) {
    p.rule.Some? && p.rule == q.rule && p.date == q.date
  }

  /** The unique constraint on rule and date. */
  predicate OneRowPerDate(plans: seq<Plan>) {
    forall i, j :: 0 <= i < j < |plans| ==> !SameSlot(plans[i], plans[j])
  }

  predicate Sound(rules: map<nat, Rule>, plans: seq<Plan>) {
    && (forall i :: 0 <= i < |plans| ==> LinkSound(rules, plans[i]))
    && OneRowPerDate(plans)
  }

  /** A row's link is a foreign key. */
  predicate LinksExist(rules: map<nat, Rule>, plans: seq<Plan>) {
    forall i :: 0 <= i < |plans| && plans[i].rule.Some? ==> plans[i].rule.value in rules
  }

  /** What the tables' own constraints guarantee, wherever users have moved linked rows. */
  ghost predicate Tables(desk: Desk) {
    && RulesValid(desk)
    && (forall r <- desk.rules :: r < desk.nextRule)
    && LinksExist(desk.rules, desk.plans) && OneRowPerDate(desk.plans)
  }

  /** No row was moved past its pointer: linked rows have a live rule, lie behind its pointer, and share no date. */
  ghost predicate Inv(desk: Desk) {
    && RulesValid(desk)
    && (forall r <- desk.rules :: r < desk.nextRule)
    && Sound(desk.rules, desk.plans)
  }

  function ViewOf(desk: Desk, r: nat): View
    requires r in desk.rules
  {
    View(desk.rules[r], Linked(desk.plans, r))
  }

  /** Days a run may handle: increasing, and past the pointer. */
  predicate PastPointer(dates: seq<int>, last: Option<int>) {
    Increasing(dates) && (last.Some? ==> forall d <- dates :: last.value < d)
  }

  lemma HandledPastPointer(rule: Rule, today: int, pending: nat)
    requires rule.Valid()
    ensures PastPointer(Handled(rule, today, pending), rule.last)
  {
    hide Nth, FirstIndex;
    var dates := Handled(rule, today, pending);
    SliceIncreases(rule.grammar, First(rule), Stop(rule, today, pending));
    forall i | 0 <= i < |dates| ensures rule.last.Some? ==> rule.last.value < dates[i] {
      FirstIndexSplits(rule.grammar, rule.Floor(), First(rule) + i);
    }
  }

  /** No row of the rule holds any of these dates, so every insert succeeds. */
  lemma {:induction false} InsertAllFree(plans: seq<Plan>, r: nat, template: Template, dates: seq<int>)
    requires Increasing(dates)
    requires forall d <- dates :: !HasRow(plans, r, d)
    ensures Insert(plans, r, template, dates) == plans + Rows(r, template, dates)
  {
    if dates != [] {
      var init, last := dates[..|dates| - 1], dates[|dates| - 1];
      InsertAllFree(plans, r, template, init);
      assert Rows(r, template, dates) == Rows(r, template, init) + [NewRow(r, template, last)];
      var before := plans + Rows(r, template, init);
      forall i | 0 <= i < |before| ensures !(before[i].rule == Some(r) && before[i].date == last) {
        if i < |plans| {
          assert !HasRow(plans, r, last);
          assert before[i] == plans[i];
        } else {
          assert before[i] == NewRow(r, template, dates[i - |plans|]);
        }
      }
      assert last in dates;
    }
  }

  lemma {:induction false} LinkedAppend(plans: seq<Plan>, more: seq<Plan>, r: nat)
    ensures Linked(plans + more, r) == Linked(plans, r) + Linked(more, r)
  {
    if more == [] {
      assert plans + more == plans;
    } else {
      LinkedAppend(plans, more[..|more| - 1], r);
      assert (plans + more)[..|plans + more| - 1] == plans + more[..|more| - 1];
    }
  }

  lemma {:induction false} LinkedRows(r: nat, template: Template, dates: seq<int>, q: nat)
    ensures Linked(Rows(r, template, dates), q) == if q == r then Rows(r, template, dates) else []
  {
    if dates != [] {
      LinkedRows(r, template, dates[..|dates| - 1], q);
      assert Rows(r, template, dates)[..|dates| - 1] == Rows(r, template, dates[..|dates| - 1]);
    }
  }

  lemma {:induction false} PendingOfLinked(plans: seq<Plan>, r: nat, today: int)
    ensures PendingAfter(Linked(plans, r), r, today) == PendingAfter(plans, r, today)
  {
    if plans != [] {
      var init, last := plans[..|plans| - 1], plans[|plans| - 1];
      PendingOfLinked(init, r, today);
      if last.rule == Some(r) {
        assert (Linked(init, r) + [last])[..|Linked(init, r)|] == Linked(init, r);
      } else {
        assert Linked(plans, r) == Linked(init, r);
      }
    }
  }

  /** Where no linked row lies past its pointer a run appends one row per handled day, and no insert is lost. */
  lemma GenerateAppends(desk: Desk, r: nat, today: int)
    requires Inv(desk)
    ensures var dates := HandledIn(desk, r, today);
            && (r in desk.rules ==> PastPointer(dates, desk.rules[r].last))
            && (dates != [] ==> r in desk.rules && desk.rules[r].active)
            && GenerateFor(desk, r, today) == desk.(
                 rules := if dates == [] then desk.rules else desk.rules[r := Advance(desk.rules[r], dates)],
                 plans := if dates == [] then desk.plans else desk.plans + Rows(r, desk.rules[r].template, dates))
  {
    hide Handled, Rows, Insert;
    var dates := HandledIn(desk, r, today);
    if dates != [] {
      var rule := desk.rules[r];
      HandledPastPointer(rule, today, PendingAfter(desk.plans, r, today));
      assert forall d <- dates :: !HasRow(desk.plans, r, d);
      InsertAllFree(desk.plans, r, rule.template, dates);
    }
  }

  lemma GenerateKeepsInv(desk: Desk, r: nat, today: int)
    requires Inv(desk)
    ensures Inv(GenerateFor(desk, r, today))
  {
    GenerateAppends(desk, r, today);
    var dates := HandledIn(desk, r, today);
    if dates != [] {
      var rule := desk.rules[r];
      AppendKeepsInv(desk, r, dates);
    }
  }

  lemma AppendKeepsInv(desk: Desk, r: nat, dates: seq<int>)
    requires Inv(desk) && r in desk.rules && dates != []
    requires PastPointer(dates, desk.rules[r].last)
    ensures Inv(desk.(rules := desk.rules[r := Advance(desk.rules[r], dates)],
                      plans := desk.plans + Rows(r, desk.rules[r].template, dates)))
  {
    var n, rule := |desk.plans|, desk.rules[r];
    var rules := desk.rules[r := Advance(rule, dates)];
    var plans := desk.plans + Rows(r, rule.template, dates);
    assert forall i :: 0 <= i < n ==> plans[i] == desk.plans[i];
    assert forall i :: n <= i < |plans| ==> plans[i] == NewRow(r, rule.template, dates[i - n]);
    var last := dates[|dates| - 1];
    assert rules[r].last == Some(last) && last in dates;
    forall i | 0 <= i < |plans| ensures LinkSound(rules, plans[i]) {
      assert i < n ==> LinkSound(desk.rules, desk.plans[i]);
    }
    forall i, j | 0 <= i < j < |plans| ensures !SameSlot(plans[i], plans[j]) {
      if i < n <= j {
        assert LinkSound(desk.rules, desk.plans[i]);
        assert dates[j - n] in dates;
      } else if j < n {
        assert !SameSlot(desk.plans[i], desk.plans[j]);
      }
    }
  }

  lemma GenerateViews(desk: Desk, r: nat, today: int, q: nat)
    requires Inv(desk) && q in desk.rules
    ensures q in GenerateFor(desk, r, today).rules
    ensures ViewOf(GenerateFor(desk, r, today), q)
         == if q == r then Run(ViewOf(desk, q), r, today) else ViewOf(desk, q)
  {
    hide Sound, GenerateFor, Handled, PendingAfter, Linked, Rows, Advance;
    GenerateAppends(desk, r, today);
    PendingOfLinked(desk.plans, r, today);
    var dates := HandledIn(desk, r, today);
    if dates != [] {
      LinkedAppend(desk.plans, Rows(r, desk.rules[r].template, dates), q);
      LinkedRows(r, desk.rules[r].template, dates, q);
    } else if q == r && desk.rules[r].active {
      RunOfNothing(ViewOf(desk, r), r, today);
    }
  }

  lemma RunOfNothing(v: View, r: nat, today: int)
    requires v.rule.Valid() && Handled(v.rule, today, PendingAfter(v.rows, r, today)) == []
    ensures Run(v, r, today) == v
  {
    hide Handled, PendingAfter;
  }

  lemma {:induction false} NightViews(desk: Desk, n: nat, today: int, q: nat)
    requires Inv(desk) && q in desk.rules
    ensures Inv(GenerateBelow(desk, n, today))
    ensures GenerateBelow(desk, n, today).nextRule == desk.nextRule
    ensures GenerateBelow(desk, n, today).rules.Keys == desk.rules.Keys
    ensures ViewOf(GenerateBelow(desk, n, today), q)
         == if q < n then Run(ViewOf(desk, q), q, today) else ViewOf(desk, q)
  {
    hide Run, GenerateFor, ViewOf;
    if n != 0 {
      NightViews(desk, n - 1, today, q);
      var before := GenerateBelow(desk, n - 1, today);
      GenerateKeepsInv(before, n - 1, today);
      GenerateKeys(before, n - 1, today);
      GenerateViews(before, n - 1, today, q);
    }
  }

  lemma GenerateKeys(desk: Desk, r: nat, today: int)
    requires Inv(desk)
    ensures GenerateFor(desk, r, today).rules.Keys == desk.rules.Keys
    ensures GenerateFor(desk, r, today).nextRule == desk.nextRule
  {
    GenerateAppends(desk, r, today);
  }

  /** The nightly passes of a list of days, in order. */
  function Nights(desk: Desk, days: seq<int>): (after: Desk)
    requires RulesValid(desk)
    ensures RulesValid(after)
    decreases |days|
  {
    if days == [] then desk else GenerateDue(Nights(desk, days[..|days| - 1]), days[|days| - 1])
  }

  predicate Chronological(days: seq<int>) {
    forall i, j :: 0 <= i < j < |days| ==> days[i] <= days[j]
  }

  /**
   Any run of nightly passes leaves each rule, its pointer and its rows exactly
   as the last pass alone would have; in particular a repeated pass is a no-op.
   */
  lemma {:induction false} MissedNightsInvisible(desk: Desk, days: seq<int>, q: nat)
    requires Inv(desk) && q in desk.rules && days != [] && Chronological(days)
    ensures Inv(Nights(desk, days)) && q in Nights(desk, days).rules
    ensures Nights(desk, days).nextRule == desk.nextRule
    ensures q in GenerateDue(desk, days[|days| - 1]).rules
    ensures ViewOf(Nights(desk, days), q) == ViewOf(GenerateDue(desk, days[|days| - 1]), q)
    decreases |days|
  {
    hide GenerateBelow, ViewOf, Run;
    var init, last := days[..|days| - 1], days[|days| - 1];
    assert q < desk.nextRule && desk.rules[q].Valid() by { RuleIdBound(desk, q); }
    NightViews(desk, desk.nextRule, last, q);
    if init != [] {
      MissedNightsInvisible(desk, init, q);
      var before := Nights(desk, init);
      NightViews(before, desk.nextRule, last, q);
      NightViews(desk, desk.nextRule, init[|init| - 1], q);
      ViewRule(desk, q);
      MissedNight(ViewOf(desk, q), q, init[|init| - 1], last);
    }
  }

  lemma RuleIdBound(desk: Desk, q: nat)
    requires Inv(desk) && q in desk.rules
    ensures q < desk.nextRule && desk.rules[q].Valid()
  {}

  lemma ViewRule(desk: Desk, q: nat)
    requires q in desk.rules
    ensures ViewOf(desk, q).rule == desk.rules[q]
  {}

  // ---- whole runs ----

  /** One service call. */
  datatype Op =
    | Nightly(today: int)
    | Create(data: RuleData, today: int)
    | Edit(rule: nat, data: RuleData, today: int)
    | Delete(rule: nat, deletePending: bool)
    | Execute(row: nat)
    | EditRow(row: nat, template: Template, date: int, status: Status)
    | DeleteRow(row: nat)
    | NewPlan(template: Template, date: int, status: Status)
  {
    predicate Valid() { (Create? ==> data.Valid()) && (Edit? ==> data.Valid()) }
  }

  function OrKeep(result: Result<Desk, Error>, desk: Desk): Desk {
    match result
    case Ok(after) => after
    case Err(_) => desk
  }

  /** A failed call changes nothing. */
  function After(desk: Desk, op: Op): Desk
    requires RulesValid(desk) && op.Valid()
  {
    match op
    case Nightly(today) => GenerateDue(desk, today)
    case Create(data, today) => OrKeep(CreateRule(desk, data, today), desk)
    case Edit(r, data, today) => OrKeep(UpdateRule(desk, r, data, today), desk)
    case Delete(r, deletePending) => OrKeep(DeleteRule(desk, r, deletePending), desk)
    case Execute(i) => OrKeep(ExecutePlan(desk, i), desk)
    case EditRow(i, template, date, status) => OrKeep(EditPlan(desk, i, template, date, status), desk)
    case DeleteRow(i) => OrKeep(DeletePlan(desk, i), desk)
    case NewPlan(template, date, status) => CreatePlan(desk, template, date, status)
  }

  /** A user edit that moves a linked row past its rule's pointer. */
  predicate MovesPast(desk: Desk, op: Op) {
    && op.EditRow? && EditPlan(desk, op.row, op.template, op.date, op.status).Ok?
    && !LinkSound(desk.rules, Plan(desk.plans[op.row].rule, op.template, op.date, op.status))
  }

  /** The occurrence days of rule `r` that the call handles. */
  function Handles(desk: Desk, op: Op, r: nat): seq<int>
    requires RulesValid(desk) && op.Valid()
  {
    match op
    case Nightly(today) => HandledBelow(desk, desk.nextRule, today, r)
    case Create(data, today) =>
      if r == desk.nextRule && CreateRule(desk, data, today).Ok? then HandledIn(Opened(desk, data, today), r, today)
      else []
    case Edit(q, data, today) =>
      if r == q && UpdateRule(desk, q, data, today).Ok? then HandledIn(Edited(desk, q, data), r, today) else []
    case _ => []
  }

  /**
   How a call, or a run of calls, that handled `dates` treats rule `r`: the days
   increase and lie past the pointer, the pointer ends at or after them and never
   moves back, and the id of a deleted rule stays dead.
   */
  ghost predicate StepSound(before: Desk, after: Desk, r: nat, dates: seq<int>) {
    && before.nextRule <= after.nextRule
    && Increasing(dates)
    && (dates != [] ==> r < after.nextRule)
    && (r in before.rules ==> r < before.nextRule && PastPointer(dates, before.rules[r].last))
    && (r !in before.rules && r < before.nextRule ==> dates == [] && r !in after.rules)
    && (r in after.rules && r !in before.rules ==> before.nextRule <= r)
    && (r in after.rules && r in before.rules ==> NotBefore(after.rules[r].last, before.rules[r].last))
    && (r in after.rules && dates != [] ==> NotBefore(after.rules[r].last, Some(dates[|dates| - 1])))
  }

  predicate NotBefore(pointer: Option<int>, bound: Option<int>) {
    bound.Some? ==> pointer.Some? && bound.value <= pointer.value
  }

  lemma StepsCompose(a: Desk, b: Desk, c: Desk, r: nat, now: seq<int>, later: seq<int>)
    requires StepSound(a, b, r, now) && StepSound(b, c, r, later)
    ensures StepSound(a, c, r, now + later)
  {
    hide Increasing;
    var all := now + later;
    if r !in b.rules && r < b.nextRule {
      assert all == now;
    } else {
      DatesCompose(now, later);
    }
    assert forall d <- all :: d in now || d in later;
  }

  lemma DatesCompose(now: seq<int>, later: seq<int>)
    requires Increasing(now) && Increasing(later) && (now != [] ==> forall d <- later :: now[|now| - 1] < d)
    ensures Increasing(now + later)
  {
    assert forall i :: 0 <= i < |later| ==> later[i] in later;
    if now != [] {
      assert forall i :: 0 <= i < |now| ==> now[i] <= now[|now| - 1];
    }
  }

  lemma GenerateStepSound(desk: Desk, r: nat, today: int, q: nat)
    requires Tables(desk)
    ensures StepSound(desk, GenerateFor(desk, r, today), q, HandledByOne(desk, r, today, q))
  {
    hide Handled, Insert, LinksExist, OneRowPerDate;
    var dates := HandledIn(desk, r, today);
    if dates != [] {
      HandledPastPointer(desk.rules[r], today, PendingAfter(desk.plans, r, today));
      assert dates[|dates| - 1] in dates;
    }
  }

  /** Inserting keeps the old rows, fills every date once, and adds nothing else. */
  lemma {:induction false} InsertFills(plans: seq<Plan>, r: nat, template: Template, dates: seq<int>)
    requires OneRowPerDate(plans)
    ensures var after := Insert(plans, r, template, dates);
            && plans <= after && OneRowPerDate(after) && (forall d <- dates :: HasRow(after, r, d))
            && forall i :: |plans| <= i < |after| ==>
                 after[i].date in dates && after[i] == NewRow(r, template, after[i].date)
    decreases |dates|
  {
    if dates != [] {
      var init, last := dates[..|dates| - 1], dates[|dates| - 1];
      InsertFills(plans, r, template, init);
      var before, after := Insert(plans, r, template, init), Insert(plans, r, template, dates);
      assert dates == init + [last];
      forall d | d in dates ensures HasRow(after, r, d) {
        if d in init {
          var i :| 0 <= i < |before| && before[i].rule == Some(r) && before[i].date == d;
          assert after[i] == before[i];
        } else if !HasRow(before, r, last) {
          assert after[|before|] == NewRow(r, template, last);
        }
      }
    }
  }

  /**
   Wherever users have moved linked rows, a run leaves the old rows alone, ends with
   exactly one row for every day it handled, its own or a moved one, and adds no other.
   */
  lemma GenerateFills(desk: Desk, r: nat, today: int)
    requires Tables(desk)
    ensures var dates, after := HandledIn(desk, r, today), GenerateFor(desk, r, today);
            && desk.plans <= after.plans && OneRowPerDate(after.plans)
            && (forall d <- dates :: HasRow(after.plans, r, d))
            && forall i :: |desk.plans| <= i < |after.plans| ==>
                 after.plans[i].rule == Some(r) && after.plans[i].date in dates
    ensures Tables(GenerateFor(desk, r, today))
    ensures GenerateFor(desk, r, today).rules.Keys == desk.rules.Keys
    ensures GenerateFor(desk, r, today).nextRule == desk.nextRule
  {
    hide Handled, Insert, HasRow, OneRowPerDate;
    var dates := HandledIn(desk, r, today);
    if dates != [] {
      InsertFills(desk.plans, r, desk.rules[r].template, dates);
    }
  }

  function HandledByOne(desk: Desk, q: nat, today: int, r: nat): seq<int>
    requires RulesValid(desk)
  {
    if q == r then HandledIn(desk, r, today) else []
  }

  /** The days of rule `r` handled by the nightly pass over the ids below `n`. */
  function HandledBelow(desk: Desk, n: nat, today: int, r: nat): seq<int>
    requires RulesValid(desk)
  {
    if n == 0 then []
    else HandledBelow(desk, n - 1, today, r) + HandledByOne(GenerateBelow(desk, n - 1, today), n - 1, today, r)
  }

  lemma {:induction false} NightStepSound(desk: Desk, n: nat, today: int, r: nat)
    requires Tables(desk)
    ensures Tables(GenerateBelow(desk, n, today))
    ensures StepSound(desk, GenerateBelow(desk, n, today), r, HandledBelow(desk, n, today, r))
  {
    hide GenerateFor, HandledByOne, HandledIn, Tables, StepSound, RulesValid, OneRowPerDate;
    StepReflexive(desk, r);
    if n != 0 {
      NightStepSound(desk, n - 1, today, r);
      var before := GenerateBelow(desk, n - 1, today);
      GenerateFills(before, n - 1, today);
      GenerateStepSound(before, n - 1, today, r);
      StepsCompose(desk, before, GenerateFor(before, n - 1, today), r,
                   HandledBelow(desk, n - 1, today, r), HandledByOne(before, n - 1, today, r));
    }
  }

  lemma {:induction false} NightKeepsInv(desk: Desk, n: nat, today: int)
    requires Inv(desk)
    ensures Inv(GenerateBelow(desk, n, today))
  {
    hide GenerateFor, Sound;
    if n != 0 {
      NightKeepsInv(desk, n - 1, today);
      GenerateKeepsInv(GenerateBelow(desk, n - 1, today), n - 1, today);
    }
  }

  lemma OpenedKeepsTables(desk: Desk, data: RuleData, today: int)
    requires Tables(desk) && data.Valid()
    requires AdoptProblem(desk, data.adopt).None?
    requires Problem(data, AdoptedPointer(desk, data.adopt), today).None?
    ensures Tables(Opened(desk, data, today))
  {
    hide Problem;
    var after := Opened(desk, data, today);
    forall i, j | 0 <= i < j < |after.plans| ensures !SameSlot(after.plans[i], after.plans[j]) {
      assert !SameSlot(desk.plans[i], desk.plans[j]);
    }
  }

  lemma EditedKeepsTables(desk: Desk, r: nat, data: RuleData)
    requires Tables(desk) && data.Valid() && r in desk.rules
    requires Problem(data, desk.rules[r].last, desk.rules[r].createdOn).None?
    ensures Tables(Edited(desk, r, data))
  {
    hide Problem, OneRowPerDate;
  }

  lemma OpenedKeepsInv(desk: Desk, data: RuleData, today: int)
    requires Inv(desk) && data.Valid()
    requires AdoptProblem(desk, data.adopt).None?
    requires Problem(data, AdoptedPointer(desk, data.adopt), today).None?
    ensures Inv(Opened(desk, data, today))
  {
    hide Problem;
    var after := Opened(desk, data, today);
    forall i | 0 <= i < |after.plans| ensures LinkSound(after.rules, after.plans[i]) {
      assert LinkSound(desk.rules, desk.plans[i]);
      if data.adopt != Some(i) {
        assert after.plans[i] == desk.plans[i];
      }
    }
    forall i, j | 0 <= i < j < |after.plans| ensures !SameSlot(after.plans[i], after.plans[j]) {
      assert LinkSound(desk.rules, desk.plans[i]) && LinkSound(desk.rules, desk.plans[j]);
      assert !SameSlot(desk.plans[i], desk.plans[j]);
    }
  }

  lemma EditedKeepsInv(desk: Desk, r: nat, data: RuleData)
    requires Inv(desk) && data.Valid() && r in desk.rules
    requires Problem(data, desk.rules[r].last, desk.rules[r].createdOn).None?
    ensures Inv(Edited(desk, r, data))
  {
    var after := Edited(desk, r, data);
    hide Problem;
    forall i | 0 <= i < |after.plans| ensures LinkSound(after.rules, after.plans[i]) {
      assert LinkSound(desk.rules, desk.plans[i]);
    }
  }

  /** Every linked row that survives a rule deletion was there before, linked to another rule. */
  lemma {:induction false} UnlinkKeepsLinks(plans: seq<Plan>, r: nat, deletePending: bool, p: Plan)
    requires p in Unlink(plans, r, deletePending) && p.rule.Some?
    ensures p in plans && p.rule != Some(r)
  {
    if plans != [] {
      var init, last := plans[..|plans| - 1], plans[|plans| - 1];
      if p in Unlink(init, r, deletePending) {
        UnlinkKeepsLinks(init, r, deletePending, p);
      }
    }
  }

  lemma {:induction false} UnlinkSound(plans: seq<Plan>, rules: map<nat, Rule>, r: nat, deletePending: bool)
    requires Sound(rules, plans)
    ensures Sound(rules - {r}, Unlink(plans, r, deletePending))
  {
    if plans != [] {
      var init, last := plans[..|plans| - 1], plans[|plans| - 1];
      assert Sound(rules, init) && LinkSound(rules, last);
      UnlinkSound(init, rules, r, deletePending);
      var kept := Unlink(init, r, deletePending);
      forall i | 0 <= i < |kept| ensures !SameSlot(kept[i], last) {
        if kept[i].rule.Some? {
          UnlinkKeepsLinks(init, r, deletePending, kept[i]);
          var j :| 0 <= j < |init| && init[j] == kept[i];
          assert plans[j] == init[j] && !SameSlot(plans[j], last);
        }
      }
      assert last.rule != Some(r) ==> LinkSound(rules - {r}, last);
    }
  }

  lemma {:induction false} UnlinkTables(plans: seq<Plan>, rules: map<nat, Rule>, r: nat, deletePending: bool)
    requires LinksExist(rules, plans) && OneRowPerDate(plans)
    ensures LinksExist(rules - {r}, Unlink(plans, r, deletePending)) && OneRowPerDate(Unlink(plans, r, deletePending))
  {
    if plans != [] {
      var init, last := plans[..|plans| - 1], plans[|plans| - 1];
      UnlinkTables(init, rules, r, deletePending);
      var kept := Unlink(init, r, deletePending);
      forall i | 0 <= i < |kept| ensures !SameSlot(kept[i], last) {
        if kept[i].rule.Some? {
          UnlinkKeepsLinks(init, r, deletePending, kept[i]);
          var j :| 0 <= j < |init| && init[j] == kept[i];
          assert plans[j] == init[j] && !SameSlot(plans[j], last);
        }
      }
    }
  }

  lemma DropTables(desk: Desk, i: nat)
    requires OneRowPerDate(desk.plans) && LinksExist(desk.rules, desk.plans) && i < |desk.plans|
    ensures var after := desk.plans[..i] + desk.plans[i + 1..]; OneRowPerDate(after) && LinksExist(desk.rules, after)
  {
    var after := desk.plans[..i] + desk.plans[i + 1..];
    assert forall k :: 0 <= k < |after| ==> after[k] == desk.plans[if k < i then k else k + 1];
  }

  /** Edits of single rows keep the tables' constraints. */
  lemma RowOpsKeepTables(desk: Desk, op: Op)
    requires Tables(desk) && op.Valid()
    requires op.Execute? || op.EditRow? || op.DeleteRow? || op.NewPlan?
    ensures Tables(After(desk, op))
    ensures After(desk, op).rules == desk.rules && After(desk, op).nextRule == desk.nextRule
  {
    match op
    case DeleteRow(i) =>
      if i < |desk.plans| {
        DropTables(desk, i);
      }
    case EditRow(i, template, date, status) =>
      if EditPlan(desk, i, template, date, status).Ok? {
        EditTables(desk, i, template, date, status);
      }
    case Execute(i) =>
      if ExecutePlan(desk, i).Ok? {
        SameSlots(desk.plans, After(desk, op).plans);
      }
    case NewPlan(template, date, status) =>
      SameSlots(desk.plans, desk.plans);
  }

  lemma SameSlots(plans: seq<Plan>, after: seq<Plan>)
    requires OneRowPerDate(plans) && |plans| == |after|
    requires forall i :: 0 <= i < |plans| ==> after[i].rule == plans[i].rule && after[i].date == plans[i].date
    ensures OneRowPerDate(after)
  {
    forall i, j | 0 <= i < j < |after| ensures !SameSlot(after[i], after[j]) {
      assert !SameSlot(plans[i], plans[j]);
    }
  }

  lemma EditTables(desk: Desk, i: nat, template: Template, date: int, status: Status)
    requires OneRowPerDate(desk.plans) && i < |desk.plans| && !Taken(desk.plans, i, date)
    ensures OneRowPerDate(desk.plans[i := Plan(desk.plans[i].rule, template, date, status)])
  {
    var after := desk.plans[i := Plan(desk.plans[i].rule, template, date, status)];
    forall k, l | 0 <= k < l < |after| ensures !SameSlot(after[k], after[l]) {
      assert !SameSlot(desk.plans[k], desk.plans[l]);
    }
  }

  lemma RowsOnlySound(desk: Desk, after: Desk, r: nat)
    requires Tables(desk) && after.rules == desk.rules && after.nextRule == desk.nextRule
    ensures StepSound(desk, after, r, [])
  {}

  /** Every service call keeps the tables' constraints and treats every rule soundly. */
  lemma StepKeeps(desk: Desk, op: Op, r: nat)
    requires Tables(desk) && op.Valid()
    ensures Tables(After(desk, op))
    ensures StepSound(desk, After(desk, op), r, Handles(desk, op, r))
  {
    match op
    case Nightly(today) =>
      NightStepSound(desk, desk.nextRule, today, r);
    case Create(data, today) =>
      if CreateRule(desk, data, today).Ok? {
        CreateStepSound(desk, data, today, r);
      }
    case Edit(q, data, today) =>
      if UpdateRule(desk, q, data, today).Ok? {
        EditStepSound(desk, q, data, today, r);
      }
    case Delete(q, deletePending) =>
      if q in desk.rules {
        UnlinkTables(desk.plans, desk.rules, q, deletePending);
      }
    case _ =>
      RowOpsKeepTables(desk, op);
      RowsOnlySound(desk, After(desk, op), r);
  }

  lemma CreateStepSound(desk: Desk, data: RuleData, today: int, r: nat)
    requires Tables(desk) && data.Valid() && CreateRule(desk, data, today).Ok?
    ensures Tables(CreateRule(desk, data, today).value)
    ensures StepSound(desk, CreateRule(desk, data, today).value, r, Handles(desk, Create(data, today), r))
  {
    hide Tables, HandledIn, GenerateFor, ToRule, Problem;
    RuleIds(desk);
    OpenedKeepsTables(desk, data, today);
    var withRule := Opened(desk, data, today);
    GenerateStepSound(withRule, desk.nextRule, today, r);
    GenerateFills(withRule, desk.nextRule, today);
  }

  lemma EditStepSound(desk: Desk, q: nat, data: RuleData, today: int, r: nat)
    requires Tables(desk) && data.Valid() && UpdateRule(desk, q, data, today).Ok?
    ensures Tables(UpdateRule(desk, q, data, today).value)
    ensures StepSound(desk, UpdateRule(desk, q, data, today).value, r, Handles(desk, Edit(q, data, today), r))
  {
    hide Tables, HandledIn, GenerateFor, Problem;
    RuleIds(desk);
    EditedKeepsTables(desk, q, data);
    var edited := Edited(desk, q, data);
    GenerateStepSound(edited, q, today, r);
    GenerateFills(edited, q, today);
  }

  lemma StepReflexive(desk: Desk, r: nat)
    requires Tables(desk)
    ensures RulesValid(desk)
    ensures StepSound(desk, desk, r, [])
  {}

  lemma RuleIds(desk: Desk)
    requires Tables(desk)
    ensures RulesValid(desk)
    ensures forall q <- desk.rules :: q < desk.nextRule
  {}

  /** Edits of single rows keep rows behind their pointers unless they move one past it. */
  lemma RowOpsKeepInv(desk: Desk, op: Op)
    requires Inv(desk) && op.Valid()
    requires op.Execute? || op.EditRow? || op.DeleteRow? || op.NewPlan?
    ensures Inv(After(desk, op)) <==> !MovesPast(desk, op)
  {
    InvTables(desk);
    RowOpsKeepTables(desk, op);
    hide RulesValid, Tables, OneRowPerDate;
    var after := After(desk, op);
    TablesMean(after);
    if MovesPast(desk, op) {
      assert !LinkSound(after.rules, after.plans[op.row]);
    } else if after != desk {
      forall i | 0 <= i < |after.plans| ensures LinkSound(after.rules, after.plans[i]) {
        assert i < |desk.plans| ==> LinkSound(desk.rules, desk.plans[i]);
        assert i + 1 < |desk.plans| ==> LinkSound(desk.rules, desk.plans[i + 1]);
      }
    }
  }

  lemma InvTables(desk: Desk)
    requires Inv(desk)
    ensures Tables(desk)
  {
    forall i | 0 <= i < |desk.plans| && desk.plans[i].rule.Some? ensures desk.plans[i].rule.value in desk.rules {
      assert LinkSound(desk.rules, desk.plans[i]);
    }
  }

  lemma TablesMean(desk: Desk)
    requires Tables(desk)
    ensures RulesValid(desk) && OneRowPerDate(desk.plans)
  {}

  /** A call keeps linked rows behind their pointers exactly when it does not move one past its own. */
  lemma StepKeepsInv(desk: Desk, op: Op)
    requires Inv(desk) && op.Valid()
    ensures Inv(After(desk, op)) <==> !MovesPast(desk, op)
  {
    match op
    case Nightly(today) => NightKeepsInv(desk, desk.nextRule, today);
    case Create(data, today) =>
      if CreateRule(desk, data, today).Ok? {
        OpenedKeepsInv(desk, data, today);
        GenerateKeepsInv(Opened(desk, data, today), desk.nextRule, today);
      }
    case Edit(q, data, today) =>
      if UpdateRule(desk, q, data, today).Ok? {
        EditedKeepsInv(desk, q, data);
        GenerateKeepsInv(Edited(desk, q, data), q, today);
      }
    case Delete(q, deletePending) =>
      if q in desk.rules {
        UnlinkSound(desk.plans, desk.rules, q, deletePending);
      }
    case _ => RowOpsKeepInv(desk, op);
  }

  predicate AllValid(ops: seq<Op>) {
    forall op <- ops :: op.Valid()
  }

  function AfterAll(desk: Desk, ops: seq<Op>): Desk
    requires Tables(desk) && AllValid(ops)
    decreases |ops|
  {
    if ops == [] then desk
    else
      StepKeeps(desk, ops[0], 0);
      AfterAll(After(desk, ops[0]), ops[1..])
  }

  /** All days of rule `r` handled over a run, in the order they were handled. */
  function HandledOver(desk: Desk, ops: seq<Op>, r: nat): seq<int>
    requires Tables(desk) && AllValid(ops)
    decreases |ops|
  {
    if ops == [] then []
    else
      StepKeeps(desk, ops[0], r);
      Handles(desk, ops[0], r) + HandledOver(After(desk, ops[0]), ops[1..], r)
  }

  /**
   Over every run of service calls no date of a rule is ever generated twice, not
   even after its row was deleted or moved or the schedule edited; nothing at or before
   the pointer is generated; and the pointer never moves back.
   */
  lemma {:induction false} NeverTwice(desk: Desk, ops: seq<Op>, r: nat)
    requires Tables(desk) && AllValid(ops)
    ensures Tables(AfterAll(desk, ops))
    ensures StepSound(desk, AfterAll(desk, ops), r, HandledOver(desk, ops, r))
    decreases |ops|
  {
    if ops == [] {
      StepReflexive(desk, r);
    } else {
      StepKeeps(desk, ops[0], r);
      NeverTwice(After(desk, ops[0]), ops[1..], r);
      hide After, Handles, Tables, StepSound;
      StepsCompose(desk, After(desk, ops[0]), AfterAll(desk, ops), r,
                   Handles(desk, ops[0], r), HandledOver(After(desk, ops[0]), ops[1..], r));
    }
  }

  /**
   A rule that adopts a row never generates that row's date or an earlier one, neither
   when it is created nor over any later run, whatever became of the row.
   */
  lemma AdoptedNeverRegenerated(desk: Desk, data: RuleData, today: int, ops: seq<Op>)
    requires Tables(desk) && data.Valid() && AllValid(ops)
    requires data.adopt.Some? && CreateRule(desk, data, today).Ok?
    ensures Tables(CreateRule(desk, data, today).value)
    ensures var r := desk.nextRule;
            var days := Handles(desk, Create(data, today), r)
                        + HandledOver(CreateRule(desk, data, today).value, ops, r);
            data.adopt.value < |desk.plans| && Increasing(days)
            && PastPointer(days, Some(desk.plans[data.adopt.value].date))
  {
    var r, after, withRule := desk.nextRule, CreateRule(desk, data, today).value, Opened(desk, data, today);
    CreateStepSound(desk, data, today, r);
    OpenedKeepsTables(desk, data, today);
    GenerateStepSound(withRule, r, today, r);
    NeverTwice(after, ops, r);
    hide AfterAll, HandledOver, HandledIn, Tables, Problem, GenerateFor, Increasing;
    StepsCompose(withRule, after, AfterAll(after, ops), r,
                 Handles(desk, Create(data, today), r), HandledOver(after, ops, r));
  }
}
