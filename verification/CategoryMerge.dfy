/// Merging one category into another and deleting a category: rows are recategorised
/// in bulk, planned amounts for the same period and currency are summed.
module CategoryMerge {
  import opened Wrappers
  import opened BookModel
  import opened Buckets
  import opened ReportModel

  datatype MergeError = NotFound | MergeSelf

  // ---- planned amounts ----

  /** The source category's rows. */
  function RowsOf(rows: map<nat, PlanRow>, category: nat): set<nat> {
    set id | id in rows && rows[id].planned.category == category
  }

  predicate SameCell(a: PlanRow, b: PlanRow) {
    a.period == b.period && a.planned.currency == b.planned.currency
  }

  /** The target's row for the same period and currency. */
  ghost predicate Twin(rows: map<nat, PlanRow>, target: nat, id: nat, k: nat) {
    id in rows && k in rows && rows[k].planned.category == target && SameCell(rows[id], rows[k])
  }

  ghost predicate HasTwin(rows: map<nat, PlanRow>, target: nat, id: nat) {
    exists k :: Twin(rows, target, id, k)
  }

  /** `d` is a merged source row that was summed into `id`. */
  ghost predicate Absorbed(rows: map<nat, PlanRow>, target: nat, done: set<nat>, id: nat, d: nat) {
    d in done && Twin(rows, target, d, id)
  }

  function Plus(row: PlanRow, amount: int): PlanRow {
    row.(planned := row.planned.(amount := row.planned.amount + amount))
  }

  function MovedTo(row: PlanRow, target: nat): PlanRow { row.(planned := row.planned.(category := target)) }

  ghost function MergedRow(rows: map<nat, PlanRow>, target: nat, done: set<nat>, id: nat): PlanRow
    requires id in rows
  {
    if id in done then MovedTo(rows[id], target)
    else if exists d :: Absorbed(rows, target, done, id, d) then
      var d :| Absorbed(rows, target, done, id, d);
      Plus(rows[id], rows[d].planned.amount)
    else rows[id]
  }

  /** The planned amounts once the source rows in `done` are merged: summed into the twin, or moved if there is none. */
  ghost function Merged(rows: map<nat, PlanRow>, target: nat, done: set<nat>): map<nat, PlanRow> {
    map id | id in rows && !(id in done && HasTwin(rows, target, id)) :: MergedRow(rows, target, done, id)
  }

  lemma MergeStart(rows: map<nat, PlanRow>, target: nat)
    ensures Merged(rows, target, {}) == rows
  {}

  lemma MergeMoves(rows: map<nat, PlanRow>, source: nat, target: nat, done: set<nat>, id: nat)
    requires UniquePlans(rows) && source != target && done <= RowsOf(rows, source) && id in RowsOf(rows, source)
    requires id !in done
    requires !HasTwin(rows, target, id)
    ensures Merged(rows, target, done + {id}) == Merged(rows, target, done)[id := MovedTo(rows[id], target)]
  {
    assert MergedRow(rows, target, done + {id}, id) == MovedTo(rows[id], target);
    hide MergedRow, SameCell;
    forall k | k in rows && k != id
      ensures MergedRow(rows, target, done + {id}, k) == MergedRow(rows, target, done, k)
    {
      assert !Twin(rows, target, id, k);
      SameRow(rows, source, target, done, id, k);
    }
  }

  /** Summing a source row into its twin: nothing was summed into the twin before. */
  lemma MergeSums(rows: map<nat, PlanRow>, source: nat, target: nat, done: set<nat>, id: nat, k: nat)
    requires UniquePlans(rows) && source != target && done <= RowsOf(rows, source) && id in RowsOf(rows, source)
    requires id !in done
    requires Twin(rows, target, id, k)
    ensures k in Merged(rows, target, done) && Merged(rows, target, done)[k] == rows[k]
    ensures id in Merged(rows, target, done) && Merged(rows, target, done)[id] == rows[id]
    ensures Merged(rows, target, done + {id})
         == Merged(rows, target, done)[k := Plus(rows[k], rows[id].planned.amount)] - {id}
  {
    hide MergedRow, SameCell;
    forall l | l in rows && l != k && l != id
      ensures MergedRow(rows, target, done + {id}, l) == MergedRow(rows, target, done, l)
    {
      OtherTwin(rows, target, id, k, l);
      SameRow(rows, source, target, done, id, l);
    }
    NotYet(rows, source, target, done, id, k);
    assert Absorbed(rows, target, done + {id}, k, id);
    OnlyTwin(rows, source, target, done, id, k);
  }

  lemma OtherTwin(rows: map<nat, PlanRow>, target: nat, id: nat, k: nat, l: nat)
    requires UniquePlans(rows) && Twin(rows, target, id, k) && l != k
    ensures !Twin(rows, target, id, l)
  {}

  lemma SameRow(rows: map<nat, PlanRow>, source: nat, target: nat, done: set<nat>, id: nat, l: nat)
    requires UniquePlans(rows) && done <= RowsOf(rows, source)
    requires l in rows && l != id && !Twin(rows, target, id, l)
    ensures MergedRow(rows, target, done + {id}, l) == MergedRow(rows, target, done, l)
  {
    forall d ensures Absorbed(rows, target, done + {id}, l, d) <==> Absorbed(rows, target, done, l, d) {}
    forall d, e | Absorbed(rows, target, done, l, d) && Absorbed(rows, target, done, l, e) ensures d == e {
      assert rows[d].planned.category == source && rows[e].planned.category == source && SameCell(rows[d], rows[e]);
    }
  }

  lemma NotYet(rows: map<nat, PlanRow>, source: nat, target: nat, done: set<nat>, id: nat, k: nat)
    requires UniquePlans(rows) && source != target && done <= RowsOf(rows, source) && id in RowsOf(rows, source)
    requires id !in done
    requires Twin(rows, target, id, k)
    ensures k !in done && MergedRow(rows, target, done, k) == rows[k] && MergedRow(rows, target, done, id) == rows[id]
  {
    forall d | d in done ensures !Twin(rows, target, d, k) && !Twin(rows, target, d, id) {
      assert rows[d].planned.category == source && rows[id].planned.category == source;
    }
  }

  lemma OnlyTwin(rows: map<nat, PlanRow>, source: nat, target: nat, done: set<nat>, id: nat, k: nat)
    requires UniquePlans(rows) && source != target && done <= RowsOf(rows, source) && id in RowsOf(rows, source)
    requires id !in done
    requires Twin(rows, target, id, k)
    ensures MergedRow(rows, target, done + {id}, k) == Plus(rows[k], rows[id].planned.amount)
  {
    assert Absorbed(rows, target, done + {id}, k, id);
    forall d | Absorbed(rows, target, done + {id}, k, d) ensures d == id {
      assert rows[d].planned.category == source && rows[id].planned.category == source && SameCell(rows[d], rows[id]);
    }
  }

  // ---- the services ----

  function MovedPlans(plans: seq<Option<nat>>, source: nat, target: Option<nat>): seq<Option<nat>> {
    seq(|plans|, i requires 0 <= i < |plans| => Recategorise(plans[i], source, target))
  }

  function CheckMerge(categories: map<nat, Category>, budget: nat, target: nat, source: nat): Option<MergeError> {
    if target !in categories || categories[target].budget != budget then Some(NotFound)
    else if source == target then Some(MergeSelf)
    else if source !in categories || categories[source].budget != budget then Some(NotFound)
    else None
  }

  /** Everything a category labels: the book, planned transactions' categories, and planned amounts. */
  class CategoryDesk {
    var categories: map<nat, Category>
    var txs: seq<Tx>
    var plans: seq<Option<nat>>
    var rows: map<nat, PlanRow>

    constructor (categories: map<nat, Category>, txs: seq<Tx>, plans: seq<Option<nat>>, rows: map<nat, PlanRow>)
      ensures this.categories == categories && this.txs == txs && this.plans == plans && this.rows == rows
    {
      this.categories, this.txs, this.plans, this.rows := categories, txs, plans, rows;
    }

    method Merge(budget: nat, target: nat, source: nat) returns (error: Option<MergeError>)
      requires UniquePlans(rows)
      modifies this
      ensures error == CheckMerge(old(categories), budget, target, source)
      ensures error.Some? ==>
              categories == old(categories) && txs == old(txs) && plans == old(plans) && rows == old(rows)
      ensures error.None? ==>
                && categories == old(categories) - {source}
                && txs == RecategoriseAll(old(txs), source, Some(target))
                && plans == MovedPlans(old(plans), source, Some(target))
                && rows == Merged(old(rows), target, RowsOf(old(rows), source))
    {
      hide Merged, UniquePlans;
      error := CheckMerge(categories, budget, target, source);
      if error.Some? {
        return;
      }
      txs := RecategoriseAll(txs, source, Some(target));
      plans := MovedPlans(plans, source, Some(target));
      MergeAmounts(source, target);
      categories := categories - {source};
    }

    /** Sums or moves the source's planned amounts, one row at a time. */
    method MergeAmounts(source: nat, target: nat)
      requires UniquePlans(rows) && source != target
      modifies this`rows
      ensures rows == Merged(old(rows), target, RowsOf(old(rows), source))
    {
      hide Merged, UniquePlans, HasTwin;
      ghost var start := rows;
      var targetAmounts := TargetIds(rows, target);
      var todo := RowsOf(rows, source);
      MergeStart(start, target);
      assert RowsOf(start, source) - todo == {};
      while todo != {}
        invariant todo <= RowsOf(start, source)
        invariant rows == Merged(start, target, RowsOf(start, source) - todo)
        decreases |todo|
      {
        var id :| id in todo;
        ghost var done := RowsOf(start, source) - todo;
        OneMore(RowsOf(start, source), todo, id);
        TwinKnown(start, source, target, done, targetAmounts, id);
        var row := rows[id];
        var cell := (row.period, row.planned.currency);
        if cell in targetAmounts {
          var existing := targetAmounts[cell];
          MergeSums(start, source, target, done, id, existing);
          rows := rows[existing := Plus(rows[existing], row.planned.amount)] - {id};
        } else {
          MergeMoves(start, source, target, done, id);
          rows := rows[id := MovedTo(row, target)];
        }
        todo := todo - {id};
      }
      assert RowsOf(start, source) - todo == RowsOf(start, source);
    }

    /** Deleting a category uncategorises its rows and cascades to its planned amounts. */
    method Delete(budget: nat, category: nat) returns (error: Option<MergeError>)
      modifies this
      ensures error
           == if category !in old(categories) || old(categories)[category].budget != budget
              then Some(NotFound)
              else None
      ensures error.Some? ==>
              categories == old(categories) && txs == old(txs) && plans == old(plans) && rows == old(rows)
      ensures error.None? ==>
                && categories == old(categories) - {category}
                && txs == RecategoriseAll(old(txs), category, None)
                && plans == MovedPlans(old(plans), category, None)
                && rows == old(rows) - RowsOf(old(rows), category)
    {
      if category !in categories || categories[category].budget != budget {
        return Some(NotFound);
      }
      txs := RecategoriseAll(txs, category, None);
      plans := MovedPlans(plans, category, None);
      rows := rows - RowsOf(rows, category);
      categories := categories - {category};
      error := None;
    }
  }

  /** The target's rows by period and currency. */
  function TargetIds(rows: map<nat, PlanRow>, target: nat): map<(nat, string), nat>
    requires UniquePlans(rows)
  {
    map id | id in RowsOf(rows, target) :: (rows[id].period, rows[id].planned.currency) := id
  }

  /** Before its turn a source row is untouched, and the lookup finds exactly its twin. */
  lemma TwinKnown(rows: map<nat, PlanRow>, source: nat, target: nat, done: set<nat>, ids: map<(nat, string), nat>,
                  id: nat)
    requires UniquePlans(rows) && source != target && done <= RowsOf(rows, source) && id in RowsOf(rows, source)
    requires id !in done
    requires ids == TargetIds(rows, target)
    ensures id in Merged(rows, target, done) && Merged(rows, target, done)[id] == rows[id]
    ensures var cell := (rows[id].period, rows[id].planned.currency);
            if cell in ids then Twin(rows, target, id, ids[cell]) else !HasTwin(rows, target, id)
  {
    var cell := (rows[id].period, rows[id].planned.currency);
    forall d | d in done ensures !Twin(rows, target, d, id) {
      assert rows[id].planned.category == source;
    }
    if HasTwin(rows, target, id) {
      var k :| Twin(rows, target, id, k);
      assert k in RowsOf(rows, target);
      assert cell in ids;
    }
  }
}
