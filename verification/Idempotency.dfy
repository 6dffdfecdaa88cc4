/// Create-with-idempotency as a protocol: any number of callers share one
/// (key, user, workspace) and interleave lookup, stale-record delete, sweep,
/// create-with-record insert and winner re-read.
///
/// A caller's deletes are pending until they are flushed: at once when each
/// statement commits by itself, or with the insert when the caller holds one
/// outer transaction. Both kinds of caller may mix.
module Idempotency {
  import opened Wrappers

  /** A dedup record; `target` is None once the object was deleted from under it. */
  datatype Record = Record(target: Option<nat>, createdAt: int)

  datatype Phase =
    | Lookup
    | DropStale(record: nat)
    | Sweep
    | Create
    | Reread
    | Returned(target: nat)
    | Rejected
    | Unresolved

  /** One request: where it is, whether its payload validates, and its uncommitted deletes. */
  datatype Caller = Caller(phase: Phase, acceptable: bool, pending: set<nat>)

  /** The committed dedup rows of the key by id, the committed targets, the id counters, the clock and the callers. */
  datatype State = State(
    records: map<nat, Record>,
    nextRecord: nat,
    targets: set<nat>,
    nextTarget: nat,
    now: int,
    callers: seq<Caller>)

  /** Twenty-four hours, in seconds. */
  const TTL := 86400

  predicate Expired(r: Record, now: int) { r.createdAt <= now - TTL }

  /** Rows visible to a caller: committed, minus its own uncommitted deletes. */
  function Seen(s: State, c: Caller): map<nat, Record> { s.records - c.pending }

  /** A lookup hit: an unexpired visible record. */
  predicate Finds(s: State, c: Caller, id: nat) {
    id in Seen(s, c) && !Expired(s.records[id], s.now)
  }

  predicate FindsNone(s: State, c: Caller) {
    forall id <- Seen(s, c) :: Expired(s.records[id], s.now)
  }

  function ExpiredIds(s: State, c: Caller): set<nat> {
    set id | id in Seen(s, c) && Expired(s.records[id], s.now)
  }

  // ---- the steps ----

  datatype Step =
    | Tick(now: int)
    | Flush(caller: nat)
    | Move(caller: nat, found: Option<nat>)

  function With(s: State, i: nat, c: Caller): State
    requires i < |s.callers|
  {
    s.(callers := s.callers[i := c])
  }

  /** A step that the state allows; `found` is the record a lookup hits, if any. */
  predicate Enabled(s: State, step: Step, deadline: int) {
    match step
    case Tick(now) => s.now <= now <= deadline
    case Flush(i) => i < |s.callers|
    case Move(i, found) =>
      && i < |s.callers|
      && (s.callers[i].phase.Lookup? || s.callers[i].phase.Reread? ==>
            if found.Some? then Finds(s, s.callers[i], found.value) else FindsNone(s, s.callers[i]))
  }

  function Apply(s: State, step: Step, deadline: int): State
    requires Enabled(s, step, deadline)
  {
    match step
    case Tick(now) => s.(now := now)
    case Flush(i) => With(s, i, s.callers[i].(pending := {})).(records := s.records - s.callers[i].pending)
    case Move(i, found) => Advance(s, i, found)
  }

  /** One database step of caller `i`. */
  function Advance(s: State, i: nat, found: Option<nat>): State
    requires i < |s.callers|
    requires (s.callers[i].phase.Lookup? || s.callers[i].phase.Reread?) && found.Some? ==>
             Finds(s, s.callers[i], found.value)
  {
    var c := s.callers[i];
    match c.phase
    case Lookup =>
      if found.None? then With(s, i, c.(phase := Sweep))
      else if s.records[found.value].target.None? then With(s, i, c.(phase := DropStale(found.value)))
      else With(s, i, c.(phase := Returned(s.records[found.value].target.value)))
    case DropStale(record) => With(s, i, c.(phase := Sweep, pending := c.pending + {record}))
    case Sweep => With(s, i, c.(phase := Create, pending := c.pending + ExpiredIds(s, c)))
    case Create =>
      if !c.acceptable then
        // The create raises: the savepoint and any outer transaction roll back.
        With(s, i, c.(phase := Rejected, pending := {}))
      else if Seen(s, c) != map[] then
        // The unique key fires: the savepoint rolls back both the object and the record.
        With(s, i, c.(phase := Reread))
      else
        With(s, i, c.(phase := Returned(s.nextTarget), pending := {})).(
          records := (s.records - c.pending)[s.nextRecord := Record(Some(s.nextTarget), s.now)],
          nextRecord := s.nextRecord + 1,
          targets := s.targets + {s.nextTarget},
          nextTarget := s.nextTarget + 1)
    case Reread =>
      if found.None? || s.records[found.value].target.None? then With(s, i, c.(phase := Unresolved))
      else With(s, i, c.(phase := Returned(s.records[found.value].target.value)))
    case _ => s
  }

  // ---- starting states ----

  /** A record that answers every lookup until the deadline. */
  predicate Live(r: Record, deadline: int) {
    r.target.Some? && !Expired(r, deadline)
  }

  /** A record no lookup ever answers with, now or later. */
  predicate Stale(r: Record, now: int) {
    r.target.None? || Expired(r, now)
  }

  /**
   The key has at most one record, which may have lost its target, and may have expired
   or expire during the run; less than the TTL passes before the deadline.
   */
  predicate Start(s: State, deadline: int) {
    && s.now <= deadline < s.now + TTL
    && |s.records| <= 1
    && (forall id <- s.records :: id < s.nextRecord)
    && (forall t <- s.targets :: t < s.nextTarget)
    && (forall id <- s.records :: s.records[id].target.Some? ==> s.records[id].target.value in s.targets)
    && (forall c <- s.callers :: c.phase == Lookup && c.pending == {})
  }

  // ---- the invariant ----

  /** Some live record answers with `target`. */
  predicate Recorded(s: State, target: nat, deadline: int) {
    exists id <- s.records :: Live(s.records[id], deadline) && s.records[id].target == Some(target)
  }

  /** A starting record answers with `target` until it expires. */
  predicate Replays(s0: State, target: nat) {
    exists id <- s0.records :: !Expired(s0.records[id], s0.now) && s0.records[id].target == Some(target)
  }

  ghost predicate CallerSound(s0: State, s: State, c: Caller, deadline: int) {
    && (forall id <- c.pending :: id < s.nextRecord && (id in s.records ==> Stale(s.records[id], s.now)))
    && (match c.phase
        case Lookup => true
        case DropStale(record) =>
          && record < s.nextRecord
          && (record in s.records ==> Stale(s.records[record], s.now))
          && forall id <- s.records :: id == record || Live(s.records[id], deadline)
        case Sweep => forall id <- Seen(s, c) :: Live(s.records[id], deadline) || Expired(s.records[id], s.now)
        case Create => forall id <- Seen(s, c) :: Live(s.records[id], deadline)
        case Reread => exists id <- s.records :: Live(s.records[id], deadline)
        case Returned(target) => Recorded(s, target, deadline) || Replays(s0, target)
        case Rejected => !c.acceptable
        case Unresolved => false)
  }

  /** The table's row is the starting one, which only goes when stale, or a live new one that records a new target. */
  ghost predicate TableSound(s0: State, s: State, deadline: int) {
    && s0.now <= s.now <= deadline < s0.now + TTL
    && (forall id, id' :: id in s.records && id' in s.records ==> id == id')
    && (forall id <- s.records :: id < s.nextRecord)
    && (forall t <- s.targets :: t < s.nextTarget)
    && (forall id <- s.records :: Starting(s0, s, id) || Created(s0, s.records[id], deadline))
    && (forall id <- s.records :: s.records[id].target.Some? ==> s.records[id].target.value in s.targets)
    && s0.targets <= s.targets
    && (forall t <- s.targets :: t in s0.targets || Recorded(s, t, deadline))
    && (forall id <- s0.records :: Starting(s0, s, id) || Stale(s0.records[id], s.now))
  }

  /** What a caller may return: a persisted object, replayed or created in the run. */
  predicate Answers(s0: State, s: State, target: nat) {
    target in s.targets && (target !in s0.targets || Replays(s0, target))
  }

  predicate Created(s0: State, r: Record, deadline: int) {
    Live(r, deadline) && r.target.value !in s0.targets
  }

  predicate Starting(s0: State, s: State, id: nat) {
    id in s0.records && id in s.records && s.records[id] == s0.records[id]
  }

  ghost predicate Sound(s0: State, s: State, deadline: int) {
    && TableSound(s0, s, deadline)
    && |s.callers| == |s0.callers|
    && forall i :: 0 <= i < |s.callers| ==> CallerSound(s0, s, s.callers[i], deadline)
  }

  lemma StartSound(s0: State, deadline: int)
    requires Start(s0, deadline)
    ensures Sound(s0, s0, deadline)
  {
    forall id, id' | id in s0.records && id' in s0.records ensures id == id' {
      if id != id' {
        assert {id, id'} <= s0.records.Keys;
        SubsetSize({id, id'}, s0.records.Keys);
      }
    }
    forall i | 0 <= i < |s0.callers| ensures CallerSound(s0, s0, s0.callers[i], deadline) {
      assert s0.callers[i] in s0.callers;
    }
  }

  lemma {:induction false} SubsetSize(a: set<nat>, b: set<nat>)
    requires a <= b
    ensures |a| <= |b|
  {
    if a != {} {
      var x :| x in a;
      SubsetSize(a - {x}, b - {x});
    }
  }

  /** How the table may change under a caller's feet: rows only go when stale, rows only come live. */
  ghost predicate Grows(s: State, t: State, deadline: int) {
    && s.now <= t.now <= deadline && s.nextRecord <= t.nextRecord
    && (forall id <- s.records :: id < s.nextRecord)
    && (forall id <- s.records :: id in t.records || Stale(s.records[id], s.now))
    && (forall id <- t.records ::
          || (id in s.records && t.records[id] == s.records[id])
          || (s.nextRecord <= id && Live(t.records[id], deadline)))
  }

  /** A caller that does not move stays sound whatever the others do. */
  lemma BystanderSound(s0: State, s: State, t: State, c: Caller, deadline: int)
    requires CallerSound(s0, s, c, deadline) && Grows(s, t, deadline)
    ensures CallerSound(s0, t, c, deadline)
  {
    if c.phase.Reread? {
      var id :| id in s.records && Live(s.records[id], deadline);
      LiveStays(s, t, id, deadline);
    } else if c.phase.Returned? && !Replays(s0, c.phase.target) {
      RecordedStays(s, t, c.phase.target, deadline);
    }
  }

  lemma LiveStays(s: State, t: State, id: nat, deadline: int)
    requires Grows(s, t, deadline) && id in s.records && Live(s.records[id], deadline)
    ensures id in t.records && t.records[id] == s.records[id]
  {}

  lemma RecordedStays(s: State, t: State, target: nat, deadline: int)
    requires Grows(s, t, deadline) && Recorded(s, target, deadline)
    ensures Recorded(t, target, deadline)
  {
    var id :| id in s.records && Live(s.records[id], deadline) && s.records[id].target == Some(target);
    LiveStays(s, t, id, deadline);
  }

  lemma StepGrows(s0: State, s: State, step: Step, deadline: int)
    requires Sound(s0, s, deadline) && Enabled(s, step, deadline)
    ensures Grows(s, Apply(s, step, deadline), deadline)
    ensures TableSound(s0, Apply(s, step, deadline), deadline)
  {
    var t := Apply(s, step, deadline);
    match step
    case Tick(now) => SameTargets(s0, s, t, deadline);
    case Flush(i) =>
      assert CallerSound(s0, s, s.callers[i], deadline);
      SameTargets(s0, s, t, deadline);
    case Move(i, found) =>
      assert CallerSound(s0, s, s.callers[i], deadline);
      if s.callers[i].phase.Create? && s.callers[i].acceptable && Seen(s, s.callers[i]) == map[] {
        InsertSound(s0, s, i, t, deadline);
      } else {
        SameTargets(s0, s, t, deadline);
      }
  }

  /** Without an insert the table only loses stale rows. */
  lemma SameTargets(s0: State, s: State, t: State, deadline: int)
    requires TableSound(s0, s, deadline) && s.now <= t.now <= deadline
    requires t.targets == s.targets && t.nextRecord == s.nextRecord && t.nextTarget == s.nextTarget
    requires forall id <- t.records :: id in s.records && t.records[id] == s.records[id]
    requires forall id <- s.records :: id in t.records || Stale(s.records[id], s.now)
    ensures Grows(s, t, deadline) && TableSound(s0, t, deadline)
  {
    forall target | target in t.targets ensures target in s0.targets || Recorded(t, target, deadline) {
      if target !in s0.targets {
        RecordedStays(s, t, target, deadline);
      }
    }
  }

  /** The winning insert finds an empty key, so every row it replaces was stale. */
  lemma InsertSound(s0: State, s: State, i: nat, t: State, deadline: int)
    requires Sound(s0, s, deadline) && i < |s.callers| && s.callers[i].phase.Create? && s.callers[i].acceptable
    requires Seen(s, s.callers[i]) == map[] && t == Advance(s, i, None)
    ensures Grows(s, t, deadline) && TableSound(s0, t, deadline)
  {
    var c := s.callers[i];
    assert CallerSound(s0, s, c, deadline);
    forall id <- s.records ensures id in c.pending {
      assert id !in Seen(s, c);
    }
    assert t.records == map[s.nextRecord := Record(Some(s.nextTarget), s.now)];
    forall target | target in t.targets ensures target in s0.targets || Recorded(t, target, deadline) {
      if target in s.targets && target !in s0.targets {
        RecordedStays(s, t, target, deadline);
      } else if target == s.nextTarget {
        assert s.nextRecord in t.records;
      }
    }
  }

  lemma MoverSound(s0: State, s: State, step: Step, deadline: int)
    requires Sound(s0, s, deadline) && Enabled(s, step, deadline) && !step.Tick?
    ensures CallerSound(s0, Apply(s, step, deadline), Apply(s, step, deadline).callers[step.caller], deadline)
  {
    hide TableSound, Grows;
    var c, t := s.callers[step.caller], Apply(s, step, deadline);
    assert CallerSound(s0, s, c, deadline);
    StepGrows(s0, s, step, deadline);
    BystanderSound(s0, s, t, c, deadline);
    if step.Move? {
      OneRow(s0, s, deadline);
      if c.phase.Create? {
        CreateSound(s0, s, step.caller, deadline);
      } else if c.phase.Reread? {
        RereadFinds(s0, s, c, step.found, deadline);
      }
    }
  }

  lemma OneRow(s0: State, s: State, deadline: int)
    requires Sound(s0, s, deadline)
    ensures s.now <= deadline
    ensures forall id, id' :: id in s.records && id' in s.records ==> id == id'
    ensures forall id <- s.records :: id < s.nextRecord
    ensures forall id <- s.records :: Starting(s0, s, id) || Created(s0, s.records[id], deadline)
    ensures s0.now <= s.now
  {}

  lemma CreateSound(s0: State, s: State, i: nat, deadline: int)
    requires Sound(s0, s, deadline) && i < |s.callers| && s.callers[i].phase.Create?
    ensures CallerSound(s0, Advance(s, i, None), Advance(s, i, None).callers[i], deadline)
  {
    var c, t := s.callers[i], Advance(s, i, None);
    assert CallerSound(s0, s, c, deadline);
    if c.acceptable && Seen(s, c) != map[] {
      var id :| id in Seen(s, c);
      assert id in t.records && Live(t.records[id], deadline);
    } else if c.acceptable {
      assert s.nextRecord in t.records;
    }
  }

  /** The re-read after a lost race always finds the winner. */
  lemma RereadFinds(s0: State, s: State, c: Caller, found: Option<nat>, deadline: int)
    requires s.now <= deadline && CallerSound(s0, s, c, deadline) && c.phase.Reread?
    requires if found.Some? then Finds(s, c, found.value) else FindsNone(s, c)
    requires forall id, id' :: id in s.records && id' in s.records ==> id == id'
    ensures found.Some? && Live(s.records[found.value], deadline)
  {
    var id :| id in s.records && Live(s.records[id], deadline);
    assert id in Seen(s, c);
  }

  lemma StepSound(s0: State, s: State, step: Step, deadline: int)
    requires Sound(s0, s, deadline) && Enabled(s, step, deadline)
    ensures Sound(s0, Apply(s, step, deadline), deadline)
  {
    hide CallerSound, TableSound, Grows;
    var t := Apply(s, step, deadline);
    StepGrows(s0, s, step, deadline);
    forall i | 0 <= i < |t.callers| ensures CallerSound(s0, t, t.callers[i], deadline) {
      if !step.Tick? && i == step.caller {
        MoverSound(s0, s, step, deadline);
      } else {
        BystanderSound(s0, s, t, s.callers[i], deadline);
      }
    }
  }

  // ---- whole runs ----

  /** The request has been answered, one way or another. */
  predicate Finished(c: Caller) { c.phase.Returned? || c.phase.Rejected? || c.phase.Unresolved? }

  /** The states of a run: each follows from the one before by an enabled step. */
  ghost predicate IsRun(run: seq<State>, deadline: int) {
    && run != []
    && forall k :: 0 <= k < |run| - 1 ==> Follows(run[k], run[k + 1], deadline)
  }

  ghost predicate Follows(s: State, t: State, deadline: int) {
    exists step :: Enabled(s, step, deadline) && t == Apply(s, step, deadline)
  }

  lemma FollowsSound(s0: State, s: State, t: State, deadline: int)
    requires Sound(s0, s, deadline) && Follows(s, t, deadline)
    ensures Sound(s0, t, deadline)
  {
    hide Sound, Apply, Enabled;
    var step :| Enabled(s, step, deadline) && t == Apply(s, step, deadline);
    StepSound(s0, s, step, deadline);
  }

  lemma {:induction false} RunSound(run: seq<State>, deadline: int)
    requires IsRun(run, deadline) && Start(run[0], deadline)
    ensures Sound(run[0], run[|run| - 1], deadline)
  {
    hide Sound, Start, Apply, Enabled, Follows;
    StartSound(run[0], deadline);
    var n := |run| - 1;
    if n > 0 {
      assert forall k :: 0 <= k < n - 1 ==> Follows(run[k], run[k + 1], deadline);
      RunSound(run[..n], deadline);
      assert Follows(run[n - 1], run[n - 1 + 1], deadline);
      FollowsSound(run[0], run[n - 1], run[n], deadline);
    }
  }

  /** A created object is alone and stands in the table's only row, so the starting record is gone or stale. */
  lemma CreatedAlone(s0: State, s: State, deadline: int)
    requires Start(s0, deadline) && TableSound(s0, s, deadline)
    ensures forall t, u :: t in s.targets - s0.targets && u in s.targets - s0.targets ==> t == u
    ensures s.targets != s0.targets ==> forall id <- s0.records :: Stale(s0.records[id], s.now)
  {
    if s.targets != s0.targets {
      assert exists t :: t in s.targets && t !in s0.targets;
    }
  }

  lemma RecordedIsKnown(s0: State, s: State, target: nat, deadline: int)
    requires Start(s0, deadline) && TableSound(s0, s, deadline) && Recorded(s, target, deadline)
    ensures Answers(s0, s, target)
  {}

  /** What the callers hold at the end of a run. */
  lemma AnswersKnown(s0: State, s: State, deadline: int)
    requires Start(s0, deadline) && Sound(s0, s, deadline)
    ensures forall c <- s.callers :: !c.phase.Unresolved? && (c.phase.Rejected? ==> !c.acceptable)
    ensures forall c <- s.callers :: c.phase.Returned? ==> Answers(s0, s, c.phase.target)
  {
    forall c | c in s.callers
      ensures !c.phase.Unresolved? && (c.phase.Rejected? ==> !c.acceptable)
      ensures c.phase.Returned? ==> Answers(s0, s, c.phase.target)
    {
      var i :| 0 <= i < |s.callers| && s.callers[i] == c;
      assert CallerSound(s0, s, s.callers[i], deadline);
      if c.phase.Returned? && !Replays(s0, c.phase.target) {
        RecordedIsKnown(s0, s, c.phase.target, deadline);
      }
    }
  }

  /** A starting record that outlives the run, or never replays, leaves a single answer. */
  lemma SettledStart(s0: State, s: State, deadline: int)
    requires Start(s0, deadline) && TableSound(s0, s, deadline)
    requires forall id <- s0.records :: Live(s0.records[id], deadline) || Stale(s0.records[id], s0.now)
    ensures forall t, u :: Answers(s0, s, t) && Answers(s0, s, u) ==> t == u
    ensures forall t :: Replays(s0, t) ==> s.targets == s0.targets
    ensures (exists id <- s0.records :: Live(s0.records[id], deadline)) ==> s.targets == s0.targets
  {
    CreatedAlone(s0, s, deadline);
    StartSound(s0, deadline);
  }

  /**
   For any number of callers and any interleaving: nobody ends without an answer and only
   payloads that fail validation are refused; every answer is persisted, and is the
   starting record's object or the one object created in the run; and one is created only
   after the starting record has gone stale. A starting record that does not expire during
   the run therefore leaves one answer for all: once one acceptable caller has finished
   there is exactly one object, and every acceptable caller that finishes holds it.
   */
  lemma AtMostOneTarget(run: seq<State>, deadline: int)
    requires IsRun(run, deadline) && Start(run[0], deadline)
    ensures var s0, s := run[0], run[|run| - 1];
            && (forall c <- s.callers :: !c.phase.Unresolved?)
            && (forall c <- s.callers :: c.acceptable && Finished(c) ==> c.phase.Returned?)
            && (forall c <- s.callers :: c.phase.Returned? ==> Answers(s0, s, c.phase.target))
            && s0.targets <= s.targets
            && (forall t, u :: t in s.targets - s0.targets && u in s.targets - s0.targets ==> t == u)
            && (s.targets != s0.targets ==> forall id <- s0.records :: Stale(s0.records[id], s.now))
    ensures var s0, s := run[0], run[|run| - 1];
            (forall id <- s0.records :: Live(s0.records[id], deadline) || Stale(s0.records[id], s0.now)) ==>
              && (forall c, d :: c in s.callers && d in s.callers && c.phase.Returned? && d.phase.Returned? ==>
                    c.phase.target == d.phase.target)
              && (forall c <- s.callers :: c.phase.Returned? ==> s.targets == s0.targets + {c.phase.target})
              && (forall c <- s.callers :: c.acceptable && Finished(c) ==>
                    forall d <- s.callers :: d.acceptable && Finished(d) ==> d.phase == c.phase)
              && ((exists id <- s0.records :: Live(s0.records[id], deadline)) ==> s.targets == s0.targets)
  {
    var s0, s := run[0], run[|run| - 1];
    RunSound(run, deadline);
    CreatedAlone(s0, s, deadline);
    AnswersKnown(s0, s, deadline);
    if forall id <- s0.records :: Live(s0.records[id], deadline) || Stale(s0.records[id], s0.now) {
      SettledStart(s0, s, deadline);
    }
  }

  /** Object 0 recorded at time 0 or, once it exists, object 1 recorded when that expires. */
  function TwoCallers(targets: set<nat>, now: int, first: Phase, second: Phase, pending: set<nat>): State {
    var next := if 1 in targets then 2 else 1;
    State(if 1 in targets then map[1 := Record(Some(1), TTL)] else map[0 := Record(Some(0), 0)], next,
          targets, next, now, [Caller(first, true, {}), Caller(second, true, pending)])
  }

  lemma FirstReplays()
    ensures var s0, s1 :=
                TwoCallers({0}, TTL - 1, Lookup, Lookup, {}), TwoCallers({0}, TTL - 1, Returned(0), Lookup, {});
            Follows(s0, s1, TTL) && Follows(s1, TwoCallers({0}, TTL, Returned(0), Lookup, {}), TTL)
  {
    var s0, s1 := TwoCallers({0}, TTL - 1, Lookup, Lookup, {}), TwoCallers({0}, TTL - 1, Returned(0), Lookup, {});
    Following(s0, Move(0, Some(0)), s1);
    Following(s1, Tick(TTL), TwoCallers({0}, TTL, Returned(0), Lookup, {}));
  }

  lemma SecondLooksUp()
    ensures var s2, s3 := TwoCallers({0}, TTL, Returned(0), Lookup, {}), TwoCallers({0}, TTL, Returned(0), Sweep, {});
            Follows(s2, s3, TTL) && Follows(s3, TwoCallers({0}, TTL, Returned(0), Create, {0}), TTL)
  {
    var s2, s3 := TwoCallers({0}, TTL, Returned(0), Lookup, {}), TwoCallers({0}, TTL, Returned(0), Sweep, {});
    Following(s2, Move(1, None), s3);
    assert ExpiredIds(s3, s3.callers[1]) == {0};
    assert s3.callers[1].pending + {0} == {0};
    Following(s3, Move(1, None), TwoCallers({0}, TTL, Returned(0), Create, {0}));
  }

  lemma SecondCreates()
    ensures var s4 := TwoCallers({0}, TTL, Returned(0), Create, {0});
            Follows(s4, TwoCallers({0, 1}, TTL, Returned(0), Returned(1), {}), TTL)
  {
    var s4 := TwoCallers({0}, TTL, Returned(0), Create, {0});
    var s5 := TwoCallers({0, 1}, TTL, Returned(0), Returned(1), {});
    assert Seen(s4, s4.callers[1]) == map[];
    assert (s4.records - {0})[1 := Record(Some(1), TTL)] == s5.records;
    Following(s4, Move(1, None), s5);
  }

  lemma Following(s: State, step: Step, t: State)
    requires Enabled(s, step, TTL) && t == Apply(s, step, TTL)
    ensures Follows(s, t, TTL)
  {}

  /** The other case is real: the record expires between two callers, and each gets its own object. */
  lemma ExpiryInBetween() returns (run: seq<State>)
    ensures IsRun(run, TTL) && Start(run[0], TTL)
    ensures run[0].records == map[0 := Record(Some(0), 0)] && run[0].now == 86399 && run[|run| - 1].now == 86400
    ensures var s := run[|run| - 1];
            |s.callers| == 2 && s.callers[0].phase == Returned(0) && s.callers[1].phase == Returned(1)
  {
    hide Enabled, Apply, Advance;
    var s0 := TwoCallers({0}, TTL - 1, Lookup, Lookup, {});
    var s1 := TwoCallers({0}, TTL - 1, Returned(0), Lookup, {});
    var s2 := TwoCallers({0}, TTL, Returned(0), Lookup, {});
    var s3 := TwoCallers({0}, TTL, Returned(0), Sweep, {});
    var s4 := TwoCallers({0}, TTL, Returned(0), Create, {0});
    var s5 := TwoCallers({0, 1}, TTL, Returned(0), Returned(1), {});
    FirstReplays();
    SecondLooksUp();
    SecondCreates();
    run := [s0, s1, s2, s3, s4, s5];
  }

  // ---- the helper run by one caller alone ----

  /** The dedup rows of one key and the objects created under it, updated in place. */
  class DedupTable {
    var records: map<nat, Record>
    var nextRecord: nat
    var targets: set<nat>
    var nextTarget: nat

    /** The unique constraint: at most one row for the key. */
    predicate Valid()
      reads this
    {
      && (forall id, id' :: id in records && id' in records ==> id == id')
      && (forall id <- records :: id < nextRecord)
      && (forall t <- targets :: t < nextTarget)
    }

    predicate Hit(now: int)
      reads this
    {
      exists id <- records :: !Expired(records[id], now) && records[id].target.Some?
    }

    constructor ()
      ensures Valid() && records == map[] && targets == {}
    {
      records, nextRecord, targets, nextTarget := map[], 0, {}, 0;
    }

    method LookUp(now: int) returns (found: Option<nat>)
      requires Valid()
      ensures found.Some? ==> found.value in records && !Expired(records[found.value], now)
      ensures found.None? ==> forall id <- records :: Expired(records[id], now)
    {
      var rest := records.Keys;
      while rest != {}
        invariant rest <= records.Keys
        invariant forall id <- records :: id in rest || Expired(records[id], now)
        decreases rest
      {
        var id :| id in rest;
        if !Expired(records[id], now) {
          return Some(id);
        }
        rest := rest - {id};
      }
      found := None;
    }

    /**
     A replay within the TTL returns the original; otherwise a fresh object and a
     record of it, or nothing when the payload is rejected. Each statement commits
     by itself here, so a rejection keeps the removal of stale rows.
     */
    method CreateWithIdempotency(acceptable: bool, now: int) returns (target: Option<nat>)
      requires Valid()
      modifies this
      ensures Valid()
      ensures old(Hit(now)) ==>
                && records == old(records) && targets == old(targets)
                && exists id <- records :: !Expired(records[id], now) && target.Some? && records[id].target == target
      ensures !old(Hit(now)) ==>
                if acceptable then
                  && target == Some(old(nextTarget)) && targets == old(targets) + {old(nextTarget)}
                  && records == map[old(nextRecord) := Record(target, now)]
                else target.None? && targets == old(targets) && records == map[]
    {
      var existing := LookUp(now);
      if existing.Some? {
        if records[existing.value].target.Some? {
          return records[existing.value].target;
        }
        records := records - {existing.value};
      }
      records := records - (set id | id in records && Expired(records[id], now));
      assert records == map[];
      if !acceptable {
        return None;
      }
      target := Some(nextTarget);
      targets, nextTarget := targets + {nextTarget}, nextTarget + 1;
      records, nextRecord := records[nextRecord := Record(target, now)], nextRecord + 1;
    }
  }
}
