/// Executing a planned transaction: the user call marks the plan done, and a queued
/// job books the real transaction. Deliveries of the job are duplicated, retried and
/// interleaved at will, and user calls read the row in one step and save all of it in
/// a later one. The booking happens at most once, exactly as long as no save is stale.
module ExecuteTask {
  import opened Wrappers

  datatype Status = Pending | Done | Cancelled

  /** Where a plan books, and its transaction with it. */
  datatype Terms = Terms(account: Option<nat>, category: Option<nat>, currency: string)

  datatype Plan = Plan(
    name: string,
    amount: int,
    terms: Terms,
    plannedDate: int,
    status: Status,
    paymentDate: Option<int>,
    paymentAmount: Option<int>,
    transaction: Option<nat>)
  {
    /** The recorded payment wins; without one the plan books as planned. */
    function EffectiveAmount(): int {
      if paymentAmount.Some? then paymentAmount.value else amount
    }
  }

  datatype Booked = Booked(description: string, amount: int, terms: Terms, date: int)

  /** One delivery of the job: fetched the plan without a lock, or not yet, or finished. */
  datatype Delivery = Queued | Fetched(paymentDate: int) | Finished

  datatype Request =
    | Execute(paymentDate: Option<int>, payment: Option<int>)
    | Edit(name: string, amount: int, terms: Terms, plannedDate: int, status: Status)

  /** A user call between its read and its save, with the row it read. */
  datatype Call = Call(request: Request, row: Plan)

  /** The plan, the transactions booked for it, the transaction id counter, the deliveries and the open calls. */
  datatype State = State(
    plan: Option<Plan>,
    booked: map<nat, Booked>,
    nextId: nat,
    deliveries: seq<Delivery>,
    calls: seq<Option<Call>>)

  datatype Error = PlanNotFound | AlreadyExecuted | CannotRevert

  // ---- the booking job ----

  /** The unlocked fetch and its guards. */
  function Fetch(plan: Option<Plan>): Delivery {
    if plan.None? || plan.value.transaction.Some? || plan.value.paymentDate.None? then Finished
    else Fetched(plan.value.paymentDate.value)
  }

  function TwinOf(plan: Plan, date: int): Booked {
    Booked(plan.name, plan.EffectiveAmount(), plan.terms, date)
  }

  /** The locked block: re-check, create and link in one transaction. `creates` tells whether the create succeeds. */
  function Book(s: State, paymentDate: int, creates: bool): (State, Delivery) {
    if s.plan.None? then (s, Queued)
    else if s.plan.value.transaction.Some? then (s, Finished)
    else if !creates then (s, Queued)
    else
      (s.(plan := Some(s.plan.value.(transaction := Some(s.nextId))),
          booked := s.booked[s.nextId := TwinOf(s.plan.value, paymentDate)],
          nextId := s.nextId + 1), Finished)
  }

  // ---- the user's calls ----

  /** The status guard, on the row that was read. */
  function Refusal(row: Plan, request: Request): Option<Error> {
    match request
    case Execute(_, _) => if row.status.Done? then Some(AlreadyExecuted) else None
    case Edit(_, _, _, _, status) => if row.status.Done? && !status.Done? then Some(CannotRevert) else None
  }

  /** An execute, or an edit that marks the plan done: both queue a delivery. */
  predicate Executes(row: Plan, request: Request) {
    request.Execute? || (request.status.Done? && !row.status.Done?)
  }

  /** The row as the call will save it, link included. */
  function Edited(row: Plan, request: Request): Plan {
    match request
    case Execute(paymentDate, payment) =>
      row.(status := Done,
           paymentDate := Some(if paymentDate.Some? then paymentDate.value else row.plannedDate),
           paymentAmount := if payment.Some? then payment else row.paymentAmount)
    case Edit(name, amount, terms, plannedDate, status) =>
      row.(name := name, amount := amount, terms := terms, plannedDate := plannedDate, status := status,
           paymentDate := if Executes(row, request) then Some(plannedDate) else row.paymentDate)
  }

  /**
   The save of the whole row: it brings a deleted plan back, and fails on the foreign key
   when the row still links a deleted transaction. An edit also rewrites the linked
   transaction, which keeps its date.
   */
  function Saved(s: State, row: Plan, request: Request): State {
    var after := Edited(row, request);
    var link := after.transaction;
    if link.Some? && link.value !in s.booked then s
    else if Executes(row, request) then s.(plan := Some(after), deliveries := s.deliveries + [Queued])
    else
      s.(plan := Some(after),
         booked := if link.Some? then s.booked[link.value := TwinOf(after, s.booked[link.value].date)] else s.booked)
  }

  /** An uninterrupted call. */
  function Served(s: State, request: Request): Result<State, Error> {
    if s.plan.None? then Err(PlanNotFound)
    else if Refusal(s.plan.value, request).Some? then Err(Refusal(s.plan.value, request).value)
    else Ok(Saved(s, s.plan.value, request))
  }

  // ---- the steps ----

  datatype Step =
    | Redeliver
    | Crash(delivery: nat)
    | FetchPlan(delivery: nat)
    | BookPlan(delivery: nat, creates: bool)
    | Serve(request: Request)
    | Read(request: Request)
    | Save(call: nat)
    | DeleteTransaction(id: nat)
    | DeletePlan

  predicate Open(s: State, i: nat) { i < |s.calls| && s.calls[i].Some? }

  function Apply(s: State, step: Step): State {
    match step
    case Redeliver => s.(deliveries := s.deliveries + [Queued])
    case Crash(i) =>
      if i < |s.deliveries| && s.deliveries[i].Fetched? then s.(deliveries := s.deliveries[i := Queued]) else s
    case FetchPlan(i) =>
      if i < |s.deliveries| && s.deliveries[i].Queued? then s.(deliveries := s.deliveries[i := Fetch(s.plan)]) else s
    case BookPlan(i, creates) =>
      if i < |s.deliveries| && s.deliveries[i].Fetched? then
        var (t, d) := Book(s, s.deliveries[i].paymentDate, creates);
        t.(deliveries := t.deliveries[i := d])
      else s
    case Serve(request) => if Served(s, request).Ok? then Served(s, request).value else s
    case Read(request) =>
      if s.plan.Some? && Refusal(s.plan.value, request).None?
      then s.(calls := s.calls + [Some(Call(request, s.plan.value))]) else s
    case Save(i) =>
      if Open(s, i) then Saved(s, s.calls[i].value.row, s.calls[i].value.request).(calls := s.calls[i := None]) else s
    case DeleteTransaction(id) =>
      if id in s.booked then
        s.(booked := s.booked - {id},
           plan := if s.plan.Some? && s.plan.value.transaction == Some(id)
                   then Some(s.plan.value.(transaction := None)) else s.plan)
      else s
    case DeletePlan => s.(plan := None)
  }

  /** Reading and saving at once is the uninterrupted call. */
  lemma ServedIsReadThenSave(s: State, request: Request)
    ensures var read := Apply(s, Read(request));
            if read == s then Apply(s, Serve(request)) == s
            else Apply(read, Save(|s.calls|)) == Apply(s, Serve(request)).(calls := s.calls + [None])
  {
    if s.plan.Some? && Refusal(s.plan.value, request).None? {
      var call := Call(request, s.plan.value);
      assert (s.calls + [Some(call)])[|s.calls| := None] == s.calls + [None];
      assert |s.calls + [Some(call)]| == |s.calls| + 1;
    }
  }

  // ---- what booking once means ----

  predicate AtMostOne(booked: map<nat, Booked>) {
    booked == map[] || exists id <- booked :: booked.Keys == {id}
  }

  predicate TwinMatches(twin: Booked, plan: Plan) {
    twin == TwinOf(plan, twin.date)
  }

  /** At most one transaction of the plan exists; it is the plan's link and books what the plan says. */
  predicate BookedOnce(s: State) {
    && AtMostOne(s.booked)
    && (s.plan.Some? ==>
          forall id <- s.booked :: s.plan.value.transaction == Some(id) && TwinMatches(s.booked[id], s.plan.value))
  }

  /** Ids are fresh and the link is a foreign key. */
  predicate Structural(s: State) {
    && (forall id <- s.booked :: id < s.nextId)
    && (s.plan.Some? && s.plan.value.transaction.Some? ==> s.plan.value.transaction.value in s.booked)
  }

  /** A delivery is between its fetch and its booking. */
  predicate InFlight(s: State) { exists d <- s.deliveries :: d.Fetched? }

  /** Booked once, and a plan that is booked or about to be is done, so that no call executes it again. */
  predicate Kept(s: State) {
    && BookedOnce(s)
    && (s.plan.Some? && (s.plan.value.transaction.Some? || s.plan.value.paymentDate.Some? || InFlight(s)) ==>
          s.plan.value.status.Done?)
  }

  /** A row as it can be read: booked or paid only if done, and the call passed its guard on it. */
  predicate CallSound(call: Call) {
    && (call.row.transaction.Some? || call.row.paymentDate.Some? ==> call.row.status.Done?)
    && Refusal(call.row, call.request).None?
  }

  predicate Sound(s: State) {
    Structural(s) && Kept(s) && forall i :: 0 <= i < |s.calls| && s.calls[i].Some? ==> CallSound(s.calls[i].value)
  }

  /** A plan with no booking yet: pending or cancelled and unpaid, or created done. */
  predicate Start(s: State) {
    && s.booked == map[] && s.calls == [] && !InFlight(s)
    && s.plan.Some? && s.plan.value.transaction.None? && (s.plan.value.paymentDate.Some? ==> s.plan.value.status.Done?)
  }

  lemma StartSound(s: State)
    requires Start(s)
    ensures Sound(s)
  {}

  lemma Sizes(booked: map<nat, Booked>)
    requires AtMostOne(booked)
    ensures |booked| == if booked == map[] then 0 else 1
  {
    if booked != map[] {
      var id :| id in booked && booked.Keys == {id};
      assert |booked| == |booked.Keys|;
    }
  }

  // ---- one step ----

  /**
   A save is harmless iff its row was read linked, or no transaction of the plan exists
   now and the row it writes is done whenever a delivery is about to book.
   */
  predicate Harmless(s: State, call: Call) {
    || call.row.transaction.Some?
    || (s.booked == map[] && (InFlight(s) ==> Edited(call.row, call.request).status.Done?))
  }

  lemma SameFlight(s: State, d: Delivery)
    requires !d.Fetched?
    ensures (exists e <- s.deliveries + [d] :: e.Fetched?) <==> InFlight(s)
  {}

  /** The guard of a save, both ways. */
  lemma SaveExact(s: State, call: Call)
    requires Structural(s) && Kept(s) && CallSound(call)
    ensures Structural(Saved(s, call.row, call.request))
    ensures Kept(Saved(s, call.row, call.request)) <==> Harmless(s, call)
  {
    var after, link := Saved(s, call.row, call.request), call.row.transaction;
    SameFlight(s, Queued);
    if link.Some? && link.value in s.booked {
      assert s.booked.Keys == {link.value} && after.booked.Keys == s.booked.Keys;
      assert Kept(after);
    } else if link.None? && s.booked != map[] {
      var id :| id in s.booked;
      assert id in after.booked && after.plan.value.transaction.None?;
    }
  }

  /** A call that was not interrupted is harmless. */
  lemma ServeHarmless(s: State, request: Request)
    requires Structural(s) && Kept(s) && s.plan.Some? && Refusal(s.plan.value, request).None?
    ensures CallSound(Call(request, s.plan.value)) && Harmless(s, Call(request, s.plan.value))
  {
    UnlinkedIsUnbooked(s);
  }

  lemma UnlinkedIsUnbooked(s: State)
    requires BookedOnce(s) && s.plan.Some?
    ensures s.plan.value.transaction.None? ==> s.booked == map[]
  {
    assert s.plan.value.transaction.None? ==> forall id :: id !in s.booked;
  }

  lemma DeliveryFlight(s: State, step: Step)
    requires step.FetchPlan? || step.BookPlan? || step.Crash?
    ensures InFlight(Apply(s, step)) ==>
              InFlight(s) || (step.FetchPlan? && s.plan.Some? && s.plan.value.paymentDate.Some?)
  {
    var t := Apply(s, step);
    if InFlight(t) {
      var d :| d in t.deliveries && d.Fetched?;
      var i :| 0 <= i < |t.deliveries| && t.deliveries[i] == d;
      assert i < |s.deliveries| ==> s.deliveries[i] in s.deliveries;
    }
  }

  /** Every step but a delayed save keeps what booking once needs. */
  lemma StepKept(s: State, step: Step)
    requires Structural(s) && Kept(s) && !step.Save?
    ensures Structural(Apply(s, step)) && Kept(Apply(s, step))
  {
    var t := Apply(s, step);
    match step
    case Redeliver => SameFlight(s, Queued);
    case Serve(request) =>
      if Served(s, request).Ok? {
        ServeHarmless(s, request);
        SaveExact(s, Call(request, s.plan.value));
      }
    case BookPlan(i, creates) =>
      DeliveryFlight(s, step);
      BookKept(s, i, creates);
    case FetchPlan(i) => DeliveryFlight(s, step);
    case Crash(i) => DeliveryFlight(s, step);
    case DeleteTransaction(id) =>
      if id in s.booked {
        assert t.booked == map[];
      }
    case _ =>
  }

  lemma BookKept(s: State, i: nat, creates: bool)
    requires Structural(s) && Kept(s)
    ensures Structural(Apply(s, BookPlan(i, creates))) && BookedOnce(Apply(s, BookPlan(i, creates)))
    ensures var t := Apply(s, BookPlan(i, creates));
            t.plan.Some? && (t.plan.value.transaction.Some? || t.plan.value.paymentDate.Some?) ==>
              t.plan.value.status.Done?
  {
    var t := Apply(s, BookPlan(i, creates));
    if i < |s.deliveries| && s.deliveries[i].Fetched? && s.plan.Some? && s.plan.value.transaction.None? && creates {
      assert s.deliveries[i] in s.deliveries;
      UnlinkedIsUnbooked(s);
      assert s.nextId in t.booked && t.booked.Keys == {s.nextId};
    }
  }

  predicate Allowed(s: State, step: Step) {
    step.Save? && Open(s, step.call) ==> Harmless(s, s.calls[step.call].value)
  }

  /** One step keeps soundness exactly when it is not a harmful save. */
  lemma StepSound(s: State, step: Step)
    requires Sound(s)
    ensures Structural(Apply(s, step))
    ensures Sound(Apply(s, step)) <==> Allowed(s, step)
  {
    hide Kept, Harmless, Refusal, Edited;
    CallsSound(s, step);
    if step.Save? && Open(s, step.call) {
      SaveExact(s, s.calls[step.call].value);
      SameBut(Saved(s, s.calls[step.call].value.row, s.calls[step.call].value.request), s.calls[step.call := None]);
    } else if !step.Save? {
      StepKept(s, step);
    }
  }

  lemma SameBut(s: State, calls: seq<Option<Call>>)
    ensures Kept(s.(calls := calls)) <==> Kept(s)
    ensures Structural(s.(calls := calls)) <==> Structural(s)
  {}

  lemma CallsSound(s: State, step: Step)
    requires Sound(s)
    ensures var t := Apply(s, step); forall i :: 0 <= i < |t.calls| && t.calls[i].Some? ==> CallSound(t.calls[i].value)
  {
    hide BookedOnce, Edited;
  }

  /** Number of transactions a step removes. */
  function Removed(s: State, step: Step): nat {
    if step.DeleteTransaction? && step.id in s.booked then 1 else 0
  }

  /** Transactions created are those present plus those deleted; without a deletion none goes. */
  lemma StepCounts(s: State, step: Step)
    requires Sound(s) && Allowed(s, step)
    ensures Apply(s, step).nextId - s.nextId == |Apply(s, step).booked| - |s.booked| + Removed(s, step)
    ensures Removed(s, step) == 0 ==> s.booked.Keys <= Apply(s, step).booked.Keys
  {
    StepSound(s, step);
    Sizes(s.booked);
    Sizes(Apply(s, step).booked);
  }

  // ---- whole runs ----

  function Run(s: State, steps: seq<Step>): State
    decreases |steps|
  {
    if steps == [] then s else Run(Apply(s, steps[0]), steps[1..])
  }

  lemma {:induction false} RunConcat(s: State, first: seq<Step>, rest: seq<Step>)
    ensures Run(s, first + rest) == Run(Run(s, first), rest)
    decreases |first|
  {
    hide Apply;
    if first == [] {
      assert first + rest == rest;
    } else {
      RunConcat(Apply(s, first[0]), first[1..], rest);
      assert (first + rest)[1..] == first[1..] + rest;
    }
  }

  lemma {:induction false} RunOne(s: State, step: Step)
    ensures Run(s, [step]) == Apply(s, step)
  {
    assert [step][1..] == [];
  }

  lemma {:induction false} RunThree(s: State, a: Step, b: Step, c: Step)
    ensures Run(s, [a, b, c]) == Apply(Apply(Apply(s, a), b), c)
  {
    hide Apply;
    assert [a, b, c][1..] == [b, c] && [b, c][1..] == [c] && [c][1..] == [];
    assert Run(Apply(s, a), [b, c]) == Run(Apply(Apply(s, a), b), [c]);
  }

  function RemovedOver(s: State, steps: seq<Step>): nat
    decreases |steps|
  {
    if steps == [] then 0 else Removed(s, steps[0]) + RemovedOver(Apply(s, steps[0]), steps[1..])
  }

  /** Every save of the run is harmless when it happens. */
  predicate AllHarmless(s: State, steps: seq<Step>)
    decreases |steps|
  {
    steps != [] ==> Allowed(s, steps[0]) && AllHarmless(Apply(s, steps[0]), steps[1..])
  }

  /**
   Whatever the duplicate, retried or concurrent deliveries and the interleaved user
   calls, as long as every save is harmless: at most one transaction of the plan exists
   at any time, every further booking is paid for by a deletion, the link is stable
   without one, and the transaction books what the plan says.
   */
  lemma {:induction false} BooksOnce(s: State, steps: seq<Step>)
    requires Sound(s) && AllHarmless(s, steps)
    ensures Sound(Run(s, steps)) && BookedOnce(Run(s, steps))
    ensures Run(s, steps).nextId - s.nextId == |Run(s, steps).booked| - |s.booked| + RemovedOver(s, steps)
    ensures RemovedOver(s, steps) == 0 ==> s.booked.Keys <= Run(s, steps).booked.Keys
    ensures Start(s) && RemovedOver(s, steps) == 0 ==> Run(s, steps).nextId <= s.nextId + 1
    ensures s.plan.Some? && s.plan.value.transaction.Some? && Run(s, steps).plan.Some? && RemovedOver(s, steps) == 0
            ==> Run(s, steps).plan.value.transaction == s.plan.value.transaction
    decreases |steps|
  {
    hide Apply, Sound, Allowed, BookedOnce;
    SoundBounds(s);
    if steps != [] {
      StepSound(s, steps[0]);
      StepCounts(s, steps[0]);
      BooksOnce(Apply(s, steps[0]), steps[1..]);
      SoundBounds(Run(s, steps));
    }
    if RemovedOver(s, steps) == 0 {
      LinkStays(s, Run(s, steps));
    }
  }

  lemma SoundBounds(s: State)
    requires Sound(s)
    ensures BookedOnce(s) && |s.booked| <= 1
    ensures s.booked == map[] ==> |s.booked| == 0
  {
    Sizes(s.booked);
  }

  lemma LinkStays(s: State, t: State)
    requires Sound(s) && Sound(t) && s.booked.Keys <= t.booked.Keys
    ensures s.plan.Some? && s.plan.value.transaction.Some? && t.plan.Some? ==>
              t.plan.value.transaction == s.plan.value.transaction
  {
    if s.plan.Some? && s.plan.value.transaction.Some? && t.plan.Some? {
      assert s.plan.value.transaction.value in t.booked;
    }
  }

  /** Runs whose user calls are all served at once. */
  predicate Serial(steps: seq<Step>) { forall step <- steps :: !step.Save? }

  /** Serial calls never need the condition. */
  lemma {:induction false} SerialIsHarmless(s: State, steps: seq<Step>)
    requires Serial(steps)
    ensures AllHarmless(s, steps)
    decreases |steps|
  {
    hide Apply;
    if steps != [] {
      assert steps[0] in steps && forall step <- steps[1..] :: step in steps;
      SerialIsHarmless(Apply(s, steps[0]), steps[1..]);
    }
  }

  /** The transaction of a plan: its name and terms, and the recorded payment, or the planned amount without one. */
  predicate BooksPlan(twin: Booked, plan: Plan) {
    && twin.description == plan.name && twin.terms == plan.terms
    && twin.amount == if plan.paymentAmount.Some? then plan.paymentAmount.value else plan.amount
  }

  /** After every run of harmless saves an existing transaction books what the plan says. */
  lemma BooksWhatWasPaid(s: State, steps: seq<Step>, id: nat)
    requires Sound(s) && AllHarmless(s, steps)
    requires id in Run(s, steps).booked && Run(s, steps).plan.Some?
    ensures BooksPlan(Run(s, steps).booked[id], Run(s, steps).plan.value)
    ensures Run(s, steps).plan.value.transaction == Some(id)
  {
    hide AllHarmless, Sound;
    BooksOnce(s, steps);
  }

  /** From a plan with no booking yet: one transaction at a time, and a second one only after a deletion. */
  lemma FreshPlanBooksOnce(s: State, steps: seq<Step>)
    requires Start(s) && (Serial(steps) || AllHarmless(s, steps))
    ensures BookedOnce(Run(s, steps)) && |Run(s, steps).booked| <= 1
    ensures Run(s, steps).plan.Some? ==>
              forall id <- Run(s, steps).booked :: BooksPlan(Run(s, steps).booked[id], Run(s, steps).plan.value)
    ensures Run(s, steps).nextId - s.nextId == |Run(s, steps).booked| + RemovedOver(s, steps)
    ensures Run(s, steps).nextId - s.nextId <= 1 + RemovedOver(s, steps)
  {
    hide AllHarmless;
    StartSound(s);
    if Serial(steps) {
      SerialIsHarmless(s, steps);
    }
    BooksOnce(s, steps);
    SoundBounds(Run(s, steps));
  }

  // ---- one execution ----

  /** A call and its first delivery, undisturbed. */
  function Delivered(s: State, request: Request): seq<Step> {
    [Serve(request), FetchPlan(|s.deliveries|), BookPlan(|s.deliveries|, true)]
  }

  /**
   Executing an unbooked plan books the given payment, or else a payment recorded before,
   or else the planned amount, on the given date or the planned one, and links it.
   */
  lemma {:induction false} ExecutionBooks(s: State, date: Option<int>, payment: Option<int>)
    requires s.plan.Some? && s.plan.value.transaction.None? && !s.plan.value.status.Done?
    ensures var end, was := Run(s, Delivered(s, Execute(date, payment))), s.plan.value;
            && end.booked == s.booked[s.nextId := Booked(
                 was.name,
                 if payment.Some? then payment.value
                 else if was.paymentAmount.Some? then was.paymentAmount.value
                 else was.amount,
                 was.terms,
                 if date.Some? then date.value else was.plannedDate)]
            && end.plan.Some? && end.plan.value.status.Done? && end.plan.value.transaction == Some(s.nextId)
            && end.plan.value.paymentDate == Some(if date.Some? then date.value else was.plannedDate)
  {
    DeliveredRun(s, Execute(date, payment));
  }

  /** Marking an unbooked plan done in an edit books the edited plan on the edited date. */
  lemma {:induction false} DoneEditBooks(s: State, name: string, amount: int, terms: Terms, plannedDate: int)
    requires s.plan.Some? && s.plan.value.transaction.None? && !s.plan.value.status.Done?
    ensures var end, was := Run(s, Delivered(s, Edit(name, amount, terms, plannedDate, Done))), s.plan.value;
            && end.booked == s.booked[s.nextId := Booked(
                 name, if was.paymentAmount.Some? then was.paymentAmount.value else amount, terms, plannedDate)]
            && end.plan.Some? && end.plan.value.status.Done? && end.plan.value.transaction == Some(s.nextId)
  {
    DeliveredRun(s, Edit(name, amount, terms, plannedDate, Done));
  }

  lemma {:induction false} DeliveredRun(s: State, request: Request)
    requires s.plan.Some? && s.plan.value.transaction.None? && !s.plan.value.status.Done?
    requires Executes(s.plan.value, request)
    ensures var saved := Edited(s.plan.value, request);
            && saved.paymentDate.Some? && saved.transaction.None?
            && Run(s, Delivered(s, request)).plan == Some(saved.(transaction := Some(s.nextId)))
            && Run(s, Delivered(s, request)).booked == s.booked[s.nextId := TwinOf(saved, saved.paymentDate.value)]
  {
    var n, saved := |s.deliveries|, Edited(s.plan.value, request);
    RunThree(s, Serve(request), FetchPlan(n), BookPlan(n, true));
    var served := s.(plan := Some(saved), deliveries := s.deliveries + [Queued]);
    assert Apply(s, Serve(request)) == served;
    assert served.deliveries[n := Fetched(saved.paymentDate.value)][n] == Fetched(saved.paymentDate.value);
  }

  /** An edit of a booked plan rewrites its transaction to the edited plan, and keeps the day it was booked on. */
  lemma EditMirrors(s: State, request: Request)
    requires Structural(s) && s.plan.Some? && s.plan.value.transaction.Some? && s.plan.value.status.Done?
    requires request.Edit? && request.status.Done?
    ensures var id, was, after := s.plan.value.transaction.value, s.plan.value, Apply(s, Serve(request));
            && id in s.booked && after.booked.Keys == s.booked.Keys
            && after.booked[id] == Booked(
                 request.name, if was.paymentAmount.Some? then was.paymentAmount.value else request.amount,
                 request.terms, s.booked[id].date)
            && (forall k <- s.booked :: k != id ==> after.booked[k] == s.booked[k])
            && after.deliveries == s.deliveries
            && after.plan == Some(was.(name := request.name, amount := request.amount, terms := request.terms,
                                       plannedDate := request.plannedDate))
  {}

  /** A fetched delivery finishes iff it books or finds the plan booked; otherwise it is retried. */
  lemma DeliveryEnds(s: State, i: nat, creates: bool)
    requires i < |s.deliveries| && s.deliveries[i].Fetched?
    ensures var after := Apply(s, BookPlan(i, creates));
            && after.deliveries == s.deliveries[i := after.deliveries[i]]
            && (after.deliveries[i].Finished? <==> s.plan.Some? && (s.plan.value.transaction.Some? || creates))
            && (!after.deliveries[i].Finished? ==> after.deliveries[i].Queued?)
            && (after.booked != s.booked ==> s.plan.Some? && s.plan.value.transaction.None? && creates)
  {}

  // ---- a harmful save ----

  function Linked(s: State, date: int, deliveries: seq<Delivery>): State
    requires s.plan.Some?
  {
    s.(plan := Some(s.plan.value.(transaction := Some(s.nextId))),
       booked := s.booked[s.nextId := TwinOf(s.plan.value, date)], nextId := s.nextId + 1, deliveries := deliveries)
  }

  /** A paid plan without a link, and a delivery in flight on any unlinked plan, lead to a booking. */
  lemma {:induction false} BookAgain(s: State) returns (steps: seq<Step>, date: int, deliveries: seq<Delivery>)
    requires s.plan.Some? && s.plan.value.transaction.None? && (s.plan.value.paymentDate.Some? || InFlight(s))
    ensures Serial(steps) && Run(s, steps) == Linked(s, date, deliveries)
  {
    if s.plan.value.paymentDate.Some? {
      var n := |s.deliveries|;
      date := s.plan.value.paymentDate.value;
      steps := [Redeliver, FetchPlan(n), BookPlan(n, true)];
      deliveries := s.deliveries + [Finished];
      RunThree(s, Redeliver, FetchPlan(n), BookPlan(n, true));
      var s1 := Apply(s, Redeliver);
      var s2 := Apply(s1, FetchPlan(n));
      assert s2.deliveries == s.deliveries + [Fetched(date)];
      assert s2.deliveries[n := Finished] == deliveries;
    } else {
      var d :| d in s.deliveries && d.Fetched?;
      var i: nat :| i < |s.deliveries| && s.deliveries[i] == d;
      date := d.paymentDate;
      steps := [BookPlan(i, true)];
      deliveries := s.deliveries[i := Finished];
      RunOne(s, BookPlan(i, true));
    }
  }

  /** A plan that is linked but not done can be executed with another amount. */
  lemma {:induction false} ExecuteAnew(s: State)
    requires Structural(s) && s.plan.Some? && s.plan.value.transaction.Some? && !s.plan.value.status.Done?
    ensures var step := Serve(Execute(None, Some(s.plan.value.EffectiveAmount() + 1)));
            !BookedOnce(s) || !BookedOnce(Apply(s, step))
  {
    var id := s.plan.value.transaction.value;
    assert id in s.booked;
  }

  /** Nothing weaker would do: a state that is not kept goes wrong by deliveries and serial calls alone. */
  lemma {:induction false} NotKeptBreaks(s: State) returns (steps: seq<Step>)
    requires Structural(s) && !Kept(s)
    ensures Serial(steps) && !BookedOnce(Run(s, steps))
  {
    steps := [];
    if BookedOnce(s) {
      var again := Serve(Execute(None, Some(s.plan.value.EffectiveAmount() + 1)));
      if s.plan.value.transaction.None? {
        var date, deliveries;
        steps, date, deliveries := BookAgain(s);
        assert Structural(Linked(s, date, deliveries));
      }
      var t := Run(s, steps);
      if BookedOnce(t) {
        ExecuteAnew(t);
        RunConcat(s, steps, [again]);
        RunOne(t, again);
        steps := steps + [again];
      }
    }
  }

  /** `Kept` is exactly what every continuation by deliveries and serial calls needs. */
  lemma {:induction false} KeptExact(s: State)
    requires Structural(s)
    ensures Kept(s) <==> forall steps :: Serial(steps) ==> BookedOnce(Run(s, steps))
  {
    if Kept(s) {
      forall steps | Serial(steps) ensures BookedOnce(Run(s, steps)) {
        SerialKept(s, steps);
      }
    } else {
      var steps := NotKeptBreaks(s);
    }
  }

  lemma {:induction false} SerialKept(s: State, steps: seq<Step>)
    requires Structural(s) && Kept(s) && Serial(steps)
    ensures Kept(Run(s, steps))
    decreases |steps|
  {
    hide Apply, Structural, Kept;
    if steps != [] {
      assert steps[0] in steps && forall step <- steps[1..] :: step in steps;
      StepKept(s, steps[0]);
      SerialKept(Apply(s, steps[0]), steps[1..]);
    }
  }

  /** A save that is not harmless has a continuation, by deliveries and serial calls alone, that breaks the booking. */
  lemma {:induction false} HarmfulSaveBreaks(s: State, i: nat) returns (steps: seq<Step>)
    requires Sound(s) && Open(s, i) && !Harmless(s, s.calls[i].value)
    ensures Serial(steps) && !BookedOnce(Run(Apply(s, Save(i)), steps))
  {
    hide Kept, Harmless, BookedOnce;
    var call := s.calls[i].value;
    SaveExact(s, call);
    SameBut(Saved(s, call.row, call.request), s.calls[i := None]);
    steps := NotKeptBreaks(Apply(s, Save(i)));
  }

  /** A save that erases the link of an existing transaction lets an execution book a second one. */
  lemma {:induction false} LostLinkBooksTwice(s: State, i: nat) returns (steps: seq<Step>)
    requires Sound(s) && Open(s, i) && s.booked != map[] && s.calls[i].value.row.transaction.None?
    requires var after := Edited(s.calls[i].value.row, s.calls[i].value.request);
             after.paymentDate.Some? || !after.status.Done? || InFlight(s)
    ensures Serial(steps) && |Run(Apply(s, Save(i)), steps).booked| == |s.booked| + 1
  {
    var call, t := s.calls[i].value, Apply(s, Save(i));
    SameFlight(s, Queued);
    var first: seq<Step> := [];
    if t.plan.value.paymentDate.None? && !InFlight(t) {
      first := [Serve(Execute(None, None))];
      RunOne(t, first[0]);
    }
    var rest, date, deliveries := BookAgain(Run(t, first));
    RunConcat(t, first, rest);
    steps := first + rest;
    assert s.nextId !in s.booked;
  }

  /** Two executes that both read the plan before either saved it: two transactions. */
  lemma {:induction false} RacingExecutesBookTwice(name: string, terms: Terms)
    ensures var s := State(Some(Plan(name, 500, terms, 10, Pending, None, None, None)), map[], 0, [], []);
            var request := Execute(None, None);
            var end := Run(s, [Read(request), Read(request), Save(0)] + [FetchPlan(0), BookPlan(0, true), Save(1)]
                              + [Redeliver, FetchPlan(1), BookPlan(1, true)]);
            Start(s) && 0 in end.booked && 1 in end.booked
  {
    var read := Plan(name, 500, terms, 10, Pending, None, None, None);
    var done := read.(status := Done, paymentDate := Some(10));
    var request, call := Execute(None, None), Some(Call(Execute(None, None), read));
    var s := State(Some(read), map[], 0, [], []);
    var s6 := State(Some(done), map[0 := TwinOf(done, 10)], 1, [Finished, Queued], [None, None]);
    var a, b := [Read(request), Read(request), Save(0)], [FetchPlan(0), BookPlan(0, true), Save(1)];
    var c := [Redeliver, FetchPlan(1), BookPlan(1, true)];
    RunConcat(s, a + b, c);
    RunConcat(s, a, b);
    BothRead(read, done, call);
    SecondSaveUnlinks(read, done, call);
    RedeliveryBooks(s6, done);
  }

  lemma {:induction false} BothRead(read: Plan, done: Plan, call: Option<Call>)
    requires read.status.Pending? && read.plannedDate == 10 && read.transaction.None?
    requires done == read.(status := Done, paymentDate := Some(10)) && call == Some(Call(Execute(None, None), read))
    ensures Run(State(Some(read), map[], 0, [], []), [Read(Execute(None, None)), Read(Execute(None, None)), Save(0)])
         == State(Some(done), map[], 0, [Queued], [None, call])
  {
    var s, request := State(Some(read), map[], 0, [], []), Execute(None, None);
    RunThree(s, Read(request), Read(request), Save(0));
    assert Apply(Apply(s, Read(request)), Read(request)) == s.(calls := [call, call]);
  }

  lemma {:induction false} RedeliveryBooks(s: State, done: Plan)
    requires done.paymentDate == Some(10) && done.transaction.None?
    requires s == State(Some(done), map[0 := TwinOf(done, 10)], 1, [Finished, Queued], [None, None])
    ensures Run(s, [Redeliver, FetchPlan(1), BookPlan(1, true)]).booked == s.booked[1 := TwinOf(done, 10)]
  {
    var t := s.(deliveries := [Finished, Queued, Queued]);
    RunThree(s, Redeliver, FetchPlan(1), BookPlan(1, true));
    assert Apply(s, Redeliver) == t;
    assert Apply(t, FetchPlan(1)) == t.(deliveries := [Finished, Fetched(10), Queued]);
  }

  lemma {:induction false} SecondSaveUnlinks(read: Plan, done: Plan, call: Option<Call>)
    requires read.status.Pending? && read.plannedDate == 10 && read.transaction.None?
    requires done == read.(status := Done, paymentDate := Some(10)) && call == Some(Call(Execute(None, None), read))
    ensures Run(State(Some(done), map[], 0, [Queued], [None, call]), [FetchPlan(0), BookPlan(0, true), Save(1)])
         == State(Some(done), map[0 := TwinOf(done, 10)], 1, [Finished, Queued], [None, None])
  {
    var s3 := State(Some(done), map[], 0, [Queued], [None, call]);
    RunThree(s3, FetchPlan(0), BookPlan(0, true), Save(1));
    assert Apply(s3, FetchPlan(0)) == s3.(deliveries := [Fetched(10)]);
    assert Apply(s3.(deliveries := [Fetched(10)]), BookPlan(0, true))
        == State(Some(done.(transaction := Some(0))), map[0 := TwinOf(done, 10)], 1, [Finished], [None, call]);
  }

  /**
   An edit that read the plan pending and saves it after a delivery fetched the executed
   plan: the booking then links a pending plan, and executing that with another amount
   leaves the transaction behind.
   */
  lemma {:induction false} StaleEditDesyncs(name: string, terms: Terms)
    ensures var s := State(Some(Plan(name, 500, terms, 10, Pending, None, None, None)), map[], 0, [], []);
            var edit := Edit(name, 500, terms, 10, Pending);
            var end := Run(s, [Read(edit), Serve(Execute(None, None)), FetchPlan(0)]
                              + [Save(0), BookPlan(0, true), Serve(Execute(None, Some(900)))]);
            && Start(s) && 0 in end.booked && end.booked[0].amount == 500
            && end.plan.Some? && end.plan.value.transaction == Some(0) && end.plan.value.EffectiveAmount() == 900
  {
    var read := Plan(name, 500, terms, 10, Pending, None, None, None);
    var done := read.(status := Done, paymentDate := Some(10));
    var edit := Edit(name, 500, terms, 10, Pending);
    var s := State(Some(read), map[], 0, [], []);
    RunConcat(s, [Read(edit), Serve(Execute(None, None)), FetchPlan(0)],
              [Save(0), BookPlan(0, true), Serve(Execute(None, Some(900)))]);
    RunThree(s, Read(edit), Serve(Execute(None, None)), FetchPlan(0));
    var s1 := s.(calls := [Some(Call(edit, read))]);
    assert Apply(s, Read(edit)) == s1;
    var s2 := s1.(plan := Some(done), deliveries := [Queued]);
    assert Apply(s1, Serve(Execute(None, None))) == s2;
    var s3 := s2.(deliveries := [Fetched(10)]);
    assert Apply(s2, FetchPlan(0)) == s3;
    RunThree(s3, Save(0), BookPlan(0, true), Serve(Execute(None, Some(900))));
    var s4 := s3.(plan := Some(read), calls := [None]);
    assert Apply(s3, Save(0)) == s4;
    var s5 := s4.(plan := Some(read.(transaction := Some(0))), booked := map[0 := TwinOf(read, 10)],
                  nextId := 1, deliveries := [Finished]);
    assert Apply(s4, BookPlan(0, true)) == s5;
  }

  // ---- the service and the booking job as methods ----

  /** Calls and deliveries that nothing interrupts. */
  class PlanDesk {
    var plan: Option<Plan>
    var booked: map<nat, Booked>
    var nextId: nat
    var deliveries: seq<Delivery>

    function Value(): State
      reads this
    {
      State(plan, booked, nextId, deliveries, [])
    }

    constructor (plan: Plan)
      ensures Value() == State(Some(plan), map[], 0, [], [])
    {
      this.plan, booked, nextId, deliveries := Some(plan), map[], 0, [];
    }

    method Execute(paymentDate: Option<int>, amount: Option<int>) returns (error: Option<Error>)
      requires Structural(Value())
      modifies this
      ensures match Served(old(Value()), Request.Execute(paymentDate, amount))
              case Ok(s) => error.None? && Value() == s
              case Err(e) => error == Some(e) && Value() == old(Value())
    {
      if plan.None? {
        return Some(PlanNotFound);
      }
      var planned := plan.value;
      if planned.status.Done? {
        return Some(AlreadyExecuted);
      }
      planned := planned.(status := Done);
      planned := planned.(paymentDate := Some(if paymentDate.Some? then paymentDate.value else planned.plannedDate));
      if amount.Some? {
        planned := planned.(paymentAmount := amount);
      }
      plan := Some(planned);
      deliveries := deliveries + [Queued];
      error := None;
    }

    method Update(name: string, amount: int, terms: Terms, plannedDate: int, status: Status)
      returns (error: Option<Error>)
      requires Structural(Value())
      modifies this
      ensures match Served(old(Value()), Edit(name, amount, terms, plannedDate, status))
              case Ok(s) => error.None? && Value() == s
              case Err(e) => error == Some(e) && Value() == old(Value())
    {
      if plan.None? {
        return Some(PlanNotFound);
      }
      var planned := plan.value;
      if planned.status.Done? && !status.Done? {
        return Some(CannotRevert);
      }
      planned := planned.(name := name, amount := amount, terms := terms, plannedDate := plannedDate);
      error := None;
      if status.Done? && !planned.status.Done? {
        plan := Some(planned.(status := Done, paymentDate := Some(plannedDate)));
        deliveries := deliveries + [Queued];
        return;
      }
      plan := Some(planned.(status := status));
      if planned.transaction.Some? {
        var id := planned.transaction.value;
        var mirror := booked[id].(description := name, amount := planned.EffectiveAmount(), terms := terms);
        booked := booked[id := mirror];
      }
    }

    /** One uninterrupted delivery: a first run books, and every later one is a no-op. */
    method RunTask(creates: bool) returns (outcome: Delivery)
      modifies this
      ensures match Fetch(old(plan))
              case Fetched(date) => (Value(), outcome) == Book(old(Value()), date, creates)
              case _ => outcome == Finished && Value() == old(Value())
      ensures plan.Some? && plan.value.paymentDate.Some? && outcome.Finished? ==> plan.value.transaction.Some?
    {
      if plan.None? || plan.value.transaction.Some? || plan.value.paymentDate.None? {
        return Finished;
      }
      var paymentDate := plan.value.paymentDate.value;
      var locked := plan.value;
      if !creates {
        return Queued;
      }
      var id := nextId;
      booked := booked[id := Booked(locked.name, locked.EffectiveAmount(), locked.terms, paymentDate)];
      nextId := nextId + 1;
      plan := Some(locked.(transaction := Some(id)));
      outcome := Finished;
    }
  }
}
