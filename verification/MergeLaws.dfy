/// A merge preserves the meaning of reports: every aggregate after it is the same
/// aggregate before it, read with the source category renamed to the target.
module MergeLaws {
  import opened Wrappers
  import opened BookModel
  import opened CoverageLaws
  import opened Buckets
  import opened ReportModel
  import opened ReportLaws
  import opened CategoryMerge

  type Key = (nat, string)

  function Rekey(k: Key, source: nat, target: nat): Key { if k.0 == source then (target, k.1) else k }

  /** The keys that `p` selects after the merge, as they were before it. */
  function Rekeyed(p: Key -> bool, source: nat, target: nat): Key -> bool { (k: Key) => p(Rekey(k, source, target)) }

  lemma RekeyedAt(p: Key -> bool, source: nat, target: nat, k: Key)
    ensures Rekeyed(p, source, target)(k) == p(Rekey(k, source, target))
  {}

  // ---- planned amounts ----

  lemma {:induction false} SameSum<K(!new), V>(m: map<K, V>, f: (K, V) -> int, g: (K, V) -> int)
    requires forall k <- m :: f(k, m[k]) == g(k, m[k])
    ensures MapSum(m, f) == MapSum(m, g)
    decreases |m|
  {
    if m != map[] {
      var k :| k in m;
      MapSumRemove(m, k, f);
      MapSumRemove(m, k, g);
      SameSum(m - {k}, f, g);
    }
  }

  lemma RekeyedRow(period: nat, p: Key -> bool, source: nat, target: nat, id: nat, row: PlanRow)
    ensures PlannedWhere(period, Rekeyed(p, source, target))(id, row)
         == if row.period == period && p(Rekey(row.Key(), source, target)) then row.planned.amount else 0
  {
    RekeyedAt(p, source, target, row.Key());
  }

  lemma TheTwin(rows: map<nat, PlanRow>, target: nat, id: nat) returns (k: nat)
    requires HasTwin(rows, target, id)
    ensures Twin(rows, target, id, k)
  {
    k :| Twin(rows, target, id, k);
  }

  /** One merged row leaves every renamed total alone. */
  lemma StepTotal(rows: map<nat, PlanRow>, source: nat, target: nat, done: set<nat>, id: nat, period: nat,
                  p: Key -> bool)
    requires UniquePlans(rows) && source != target && done <= RowsOf(rows, source) && id in RowsOf(rows, source)
    requires id !in done
    ensures var f := PlannedWhere(period, Rekeyed(p, source, target));
            MapSum(Merged(rows, target, done + {id}), f) == MapSum(Merged(rows, target, done), f)
  {
    hide Merged, MapSum, UniquePlans, HasTwin, PlannedWhere, Rekeyed;
    var f := PlannedWhere(period, Rekeyed(p, source, target));
    var before := Merged(rows, target, done);
    TwinKnown(rows, source, target, done, TargetIds(rows, target), id);
    RekeyedRow(period, p, source, target, id, rows[id]);
    if HasTwin(rows, target, id) {
      var k := TheTwin(rows, target, id);
      MergeSums(rows, source, target, done, id, k);
      var summed := Plus(rows[k], rows[id].planned.amount);
      RekeyedRow(period, p, source, target, k, rows[k]);
      RekeyedRow(period, p, source, target, k, summed);
      MapSumUpdate<nat, PlanRow>(before, k, summed, f);
      MapSumRemove<nat, PlanRow>(before[k := summed], id, f);
    } else {
      MergeMoves(rows, source, target, done, id);
      RekeyedRow(period, p, source, target, id, MovedTo(rows[id], target));
      MapSumUpdate<nat, PlanRow>(before, id, MovedTo(rows[id], target), f);
    }
  }

  lemma {:induction false} RenamedTotal(rows: map<nat, PlanRow>, source: nat, target: nat, done: set<nat>,
                                        period: nat, p: Key -> bool)
    requires UniquePlans(rows) && source != target && done <= RowsOf(rows, source)
    ensures PlannedTotal(Merged(rows, target, done), period, Rekeyed(p, source, target))
         == PlannedTotal(rows, period, Rekeyed(p, source, target))
    decreases |done|
  {
    hide Merged, MapSum, UniquePlans, PlannedWhere, Rekeyed;
    if done == {} {
      MergeStart(rows, target);
    } else {
      var id :| id in done;
      RenamedTotal(rows, source, target, done - {id}, period, p);
      StepTotal(rows, source, target, done - {id}, id, period, p);
      assert done - {id} + {id} == done;
    }
  }

  /** Any planned total after the merge is the renamed total before it. */
  lemma MergePlanned(rows: map<nat, PlanRow>, source: nat, target: nat, period: nat, p: Key -> bool)
    requires UniquePlans(rows) && source != target
    ensures PlannedTotal(Merged(rows, target, RowsOf(rows, source)), period, p)
         == PlannedTotal(rows, period, Rekeyed(p, source, target))
  {
    hide MapSum, UniquePlans;
    var done := RowsOf(rows, source);
    RenamedTotal(rows, source, target, done, period, p);
    forall id | id in Merged(rows, target, done)
      ensures PlannedWhere(period, p)(id, Merged(rows, target, done)[id])
           == PlannedWhere(period, Rekeyed(p, source, target))(id, Merged(rows, target, done)[id])
    {
      RekeyedRow(period, p, source, target, id, Merged(rows, target, done)[id]);
    }
    SameSum<nat, PlanRow>(Merged(rows, target, done), PlannedWhere(period, p),
                          PlannedWhere(period, Rekeyed(p, source, target)));
  }

  /** One planned amount per period, category and currency, still. */
  lemma MergeKeepsUnique(rows: map<nat, PlanRow>, source: nat, target: nat)
    requires UniquePlans(rows) && source != target
    ensures UniquePlans(Merged(rows, target, RowsOf(rows, source)))
  {
    var done := RowsOf(rows, source);
    var after := Merged(rows, target, done);
    forall i, k | i in after && k in after && i != k
      ensures after[i].period != after[k].period || after[i].Key() != after[k].Key()
    {
      assert i in done && k !in done && rows[k].planned.category == target && SameCell(rows[i], rows[k]) ==>
        Twin(rows, target, i, k);
      assert k in done && i !in done && rows[i].planned.category == target && SameCell(rows[k], rows[i]) ==>
        Twin(rows, target, k, i);
    }
  }

  // ---- actuals ----

  lemma EffectiveMoves(tx: Tx, item: Item, source: nat, target: nat)
    ensures EffectiveCategory(RecategoriseTx(tx, source, Some(target)),
                              item.(category := Recategorise(item.category, source, Some(target))))
         == Recategorise(EffectiveCategory(tx, item), source, Some(target))
  {}

  /** What one item adds to a total of actuals. */
  function ActualLeg(categories: map<nat, Category>, budget: nat, tx: Tx, item: Item, p: Key -> bool): int {
    if Attributed(categories, budget, tx, item) && p((EffectiveCategory(tx, item).value, tx.currency))
    then item.Effective() else 0
  }

  lemma ActualRowStep(categories: map<nat, Category>, budget: nat, tx: Tx, items: seq<Item>, p: Key -> bool)
    requires items != []
    ensures var n := |items| - 1;
            RowSum(ActualRowsOf(categories, budget, tx, items), p)
            == RowSum(ActualRowsOf(categories, budget, tx, items[..n]), p)
               + ActualLeg(categories, budget, tx, items[n], p)
  {
    var n := |items| - 1;
    if Attributed(categories, budget, tx, items[n]) {
      var init := ActualRowsOf(categories, budget, tx, items[..n]);
      var row := ((EffectiveCategory(tx, items[n]).value, tx.currency), items[n].Effective());
      assert (init + [row])[..|init|] == init;
    } else {
      assert ActualRowsOf(categories, budget, tx, items[..n]) + [] == ActualRowsOf(categories, budget, tx, items[..n]);
    }
  }

  lemma NoItems(categories: map<nat, Category>, budget: nat, tx: Tx, p: Key -> bool)
    ensures RowSum(ActualRowsOf(categories, budget, tx, []), p) == 0
  {}

  lemma LegMoves(categories: map<nat, Category>, budget: nat, tx: Tx, item: Item, source: nat, target: nat,
                 p: Key -> bool)
    requires source in categories && target in categories && source != target
    requires categories[source].budget == categories[target].budget
    ensures ActualLeg(categories - {source}, budget, RecategoriseTx(tx, source, Some(target)),
                      item.(category := Recategorise(item.category, source, Some(target))), p)
         == ActualLeg(categories, budget, tx, item, Rekeyed(p, source, target))
  {
    hide Rekeyed;
    EffectiveMoves(tx, item, source, target);
    if EffectiveCategory(tx, item).Some? {
      RekeyedAt(p, source, target, (EffectiveCategory(tx, item).value, tx.currency));
    }
  }

  lemma {:induction false} ItemsMove(categories: map<nat, Category>, budget: nat, tx: Tx, items: seq<Item>,
                                     source: nat, target: nat, p: Key -> bool)
    requires source in categories && target in categories && source != target
    requires categories[source].budget == categories[target].budget
    ensures RowSum(ActualRowsOf(categories - {source}, budget, RecategoriseTx(tx, source, Some(target)),
                                RecategoriseItems(items, source, Some(target))), p)
         == RowSum(ActualRowsOf(categories, budget, tx, items), Rekeyed(p, source, target))
  {
    hide ActualRowsOf, RowSum, Rekeyed, ActualLeg, RecategoriseTx;
    if items == [] {
      NoItems(categories, budget, tx, Rekeyed(p, source, target));
      NoItems(categories - {source}, budget, RecategoriseTx(tx, source, Some(target)), p);
    } else {
      var n := |items| - 1;
      var after := RecategoriseItems(items, source, Some(target));
      ItemsMove(categories, budget, tx, items[..n], source, target, p);
      assert after[..n] == RecategoriseItems(items[..n], source, Some(target));
      LegMoves(categories, budget, tx, items[n], source, target, p);
      ActualRowStep(categories, budget, tx, items, Rekeyed(p, source, target));
      ActualRowStep(categories - {source}, budget, RecategoriseTx(tx, source, Some(target)), after, p);
    }
  }

  lemma {:induction false} RowsMove(categories: map<nat, Category>, budget: nat, txs: seq<Tx>, first: int, last: int,
                                    source: nat, target: nat, p: Key -> bool)
    requires source in categories && target in categories && source != target
    requires categories[source].budget == categories[target].budget
    ensures RowSum(ActualRows(categories - {source}, budget, RecategoriseAll(txs, source, Some(target)),
                       first, last), p)
         == RowSum(ActualRows(categories, budget, txs, first, last), Rekeyed(p, source, target))
  {
    hide ActualRowsOf, Rekeyed;
    if txs != [] {
      var n := |txs| - 1;
      var tx, after := txs[n], RecategoriseAll(txs, source, Some(target));
      RowsMove(categories, budget, txs[..n], first, last, source, target, p);
      assert after[..n] == RecategoriseAll(txs[..n], source, Some(target));
      ItemsMove(categories, budget, tx, tx.items, source, target, p);
      if tx.kind.Expense? && first <= tx.date <= last {
        RowSumAppend(ActualRows(categories - {source}, budget, after[..n], first, last),
                     ActualRowsOf(categories - {source}, budget, after[n], after[n].items), p);
        RowSumAppend(ActualRows(categories, budget, txs[..n], first, last),
                     ActualRowsOf(categories, budget, tx, tx.items), Rekeyed(p, source, target));
      } else {
        assert ActualRows(categories - {source}, budget, after, first, last)
             == ActualRows(categories - {source}, budget, after[..n], first, last);
        assert ActualRows(categories, budget, txs, first, last)
             == ActualRows(categories, budget, txs[..n], first, last);
      }
    }
  }

  /** Any total of actuals after the merge is the renamed total before it. */
  lemma MergeActuals(b: Book, budget: nat, first: int, last: int, source: nat, target: nat, p: Key -> bool)
    requires source in b.categories && target in b.categories && source != target
    requires b.categories[source].budget == b.categories[target].budget
    ensures MapSum(Actuals(RemoveCategory(b, source, Some(target)), budget, first, last), Where(p))
         == MapSum(Actuals(b, budget, first, last), Where(Rekeyed(p, source, target)))
  {
    hide MapSum, ActualRows, Bucketed, RowSum, Rekeyed;
    var after := RemoveCategory(b, source, Some(target));
    RowsMove(b.categories, budget, b.txs, first, last, source, target, p);
    BucketsConserve(ActualRows(after.categories, budget, after.txs, first, last), p);
    BucketsConserve(ActualRows(b.categories, budget, b.txs, first, last), Rekeyed(p, source, target));
  }

  // ---- the reports ----

  function At(k: Key): Key -> bool { (l: Key) => l == k }

  lemma SumAt(m: map<Key, int>, k: Key)
    ensures MapSum(m, Where(At(k))) == ValueAt(m, k)
  {
    if k in m {
      MapSumRemove(m, k, Where(At(k)));
      NothingThere(m - {k}, Where(At(k)));
    } else {
      NothingThere(m, Where(At(k)));
    }
  }

  lemma {:induction false} NothingThere(m: map<Key, int>, f: (Key, int) -> int)
    requires forall k <- m :: f(k, m[k]) == 0
    ensures MapSum(m, f) == 0
    decreases |m|
  {
    if m != map[] {
      var k :| k in m;
      MapSumRemove(m, k, f);
      NothingThere(m - {k}, f);
    }
  }

  /**
   Reading a dictionary with the source renamed: the target gains the source's value,
   the source reads zero, others keep theirs.
   */
  lemma RenamedAt(m: map<Key, int>, source: nat, target: nat, k: Key)
    requires source != target
    ensures MapSum(m, Where(Rekeyed(At(k), source, target)))
         == if k.0 == target then ValueAt(m, k) + ValueAt(m, (source, k.1))
            else if k.0 == source then 0
            else ValueAt(m, k)
  {
    hide MapSum;
    var f, old_ := Where(Rekeyed(At(k), source, target)), (source, k.1);
    var rest := m - {k, old_};
    RekeyedAt(At(k), source, target, k);
    RekeyedAt(At(k), source, target, old_);
    forall l | l in rest ensures f(l, rest[l]) == 0 {
      RekeyedAt(At(k), source, target, l);
    }
    NothingThere(rest, f);
    if k in m {
      MapSumRemove(m, k, f);
    }
    if old_ in m && old_ != k {
      MapSumRemove<Key, int>(m - {k}, old_, f);
    }
    assert old_ in m ==> m - {k} - {old_} == rest;
    assert k !in m ==> m - {k} == m;
    assert old_ !in m || old_ == k ==> m - {k} == rest;
  }

  lemma CurrencyRenamed(m: map<Key, int>, source: nat, target: nat, currency: string)
    ensures MapSum(m, Where(Rekeyed(InCurrency(currency), source, target))) == MapSum(m, Where(InCurrency(currency)))
  {
    forall k | k in m
      ensures Where(Rekeyed(InCurrency(currency), source, target))(k, m[k]) == Where<Key>(InCurrency(currency))(k, m[k])
    {
      RekeyedAt(InCurrency(currency), source, target, k);
    }
    SameSum<Key, int>(m, Where(Rekeyed(InCurrency(currency), source, target)), Where(InCurrency(currency)));
  }

  /** How a report dictionary must change when `source` is merged into `target`. */
  ghost predicate MergedInto(before: map<Key, int>, after: map<Key, int>, source: nat, target: nat) {
    && (forall c :: ValueAt(after, (target, c)) == ValueAt(before, (target, c)) + ValueAt(before, (source, c)))
    && (forall k: Key :: k.0 != source && k.0 != target ==> ValueAt(after, k) == ValueAt(before, k))
    && (forall c :: ValueAt(after, (source, c)) == 0)
    && (forall c :: MapSum(after, Where(InCurrency(c))) == MapSum(before, Where(InCurrency(c))))
  }

  /**
   A merge keeps the meaning of every period report: planned and unrounded actual
   amounts of the source move to the target, all other categories and every
   per-currency total stay, and planned amounts stay unique.
   */
  lemma MergeKeepsReports(b: Book, rows: map<nat, PlanRow>, budget: nat, source: nat, target: nat, period: nat,
                          first: int, last: int)
    requires CheckMerge(b.categories, budget, target, source).None? && UniquePlans(rows)
    ensures UniquePlans(Merged(rows, target, RowsOf(rows, source)))
    ensures MergedInto(PlannedOf(rows, period),
                       PlannedOf(Merged(rows, target, RowsOf(rows, source)), period), source, target)
    ensures MergedInto(Actuals(b, budget, first, last),
                       Actuals(RemoveCategory(b, source, Some(target)), budget, first, last), source, target)
  {
    hide MapSum, Merged, UniquePlans, PlannedOf, Actuals, RemoveCategory, PlannedTotal, Where, InCurrency, At, Rekeyed;
    MergeKeepsUnique(rows, source, target);
    var merged := Merged(rows, target, RowsOf(rows, source));
    forall p: Key -> bool
      ensures MapSum(PlannedOf(merged, period), Where(p))
           == MapSum(PlannedOf(rows, period), Where(Rekeyed(p, source, target)))
    {
      MergePlanned(rows, source, target, period, p);
      PlannedSum(merged, period, p);
      PlannedSum(rows, period, Rekeyed(p, source, target));
    }
    Homomorphic(PlannedOf(rows, period), PlannedOf(merged, period), source, target);
    var after := RemoveCategory(b, source, Some(target));
    forall p: Key -> bool
      ensures MapSum(Actuals(after, budget, first, last), Where(p))
           == MapSum(Actuals(b, budget, first, last), Where(Rekeyed(p, source, target)))
    {
      MergeActuals(b, budget, first, last, source, target, p);
    }
    Homomorphic(Actuals(b, budget, first, last), Actuals(after, budget, first, last), source, target);
  }

  lemma Homomorphic(before: map<Key, int>, after: map<Key, int>, source: nat, target: nat)
    requires source != target
    requires forall p: Key -> bool :: MapSum(after, Where(p)) == MapSum(before, Where(Rekeyed(p, source, target)))
    ensures MergedInto(before, after, source, target)
  {
    hide MapSum, Where, InCurrency, At, Rekeyed;
    forall k: Key
      ensures ValueAt(after, k)
           == if k.0 == target then ValueAt(before, k) + ValueAt(before, (source, k.1))
              else if k.0 == source then 0
              else ValueAt(before, k)
    {
      SumAt(after, k);
      RenamedAt(before, source, target, k);
    }
    forall c ensures MapSum(after, Where(InCurrency(c))) == MapSum(before, Where(InCurrency(c))) {
      CurrencyRenamed(before, source, target, c);
    }
  }

  /** Two different categories of the budget merge, and planned transactions of the source move to the target. */
  lemma MergeAccepted(categories: map<nat, Category>, budget: nat, target: nat, source: nat, plans: seq<Option<nat>>,
                      heir: Option<nat>)
    ensures CheckMerge(categories, budget, target, source).None? <==>
              && source != target && {source, target} <= categories.Keys
              && categories[source].budget == budget && categories[target].budget == budget
    ensures CheckMerge(categories, budget, target, source) == Some(MergeSelf) <==>
              source == target && target in categories && categories[target].budget == budget
    ensures var after := MovedPlans(plans, source, heir);
            |after| == |plans|
            && forall i :: 0 <= i < |plans| ==> after[i] == if plans[i] == Some(source) then heir else plans[i]
  {}

  /** A deletion touches no amount, so coverage survives; a deleted item category falls back to its transaction's. */
  lemma DeletionFallsBack(b: Book, category: nat, tx: Tx, item: Item)
    requires AllCovered(b.txs)
    ensures AllCovered(RemoveCategory(b, category, None).txs)
    ensures EffectiveCategory(RecategoriseTx(tx, category, None),
                              item.(category := Recategorise(item.category, category, None)))
         == if EffectiveCategory(tx, item) != Some(category) then EffectiveCategory(tx, item)
            else if item.category == Some(category) && tx.category != Some(category) then tx.category
            else None
  {
    RecategorisedCovered(b, category, None);
  }
}
