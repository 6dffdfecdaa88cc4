/// What the reports agree on: money by type equals money by category, and the two
/// ways of rounding a budget's actuals stay within their rounding error.
module ReportLaws {
  import opened Wrappers
  import opened Money
  import opened BookModel
  import opened CoverageLaws
  import opened BookRuns
  import opened Buckets
  import opened ReportModel
  import opened ReportService

  // ---- conservation ----

  /** Kept non-adjustment transactions of a currency. */
  function CountIn(txs: seq<Tx>, keep: Tx -> bool, currency: string): nat {
    if txs == [] then 0
    else
      CountIn(txs[..|txs| - 1], keep, currency)
      + (if Counts(txs[|txs| - 1], keep) && txs[|txs| - 1].currency == currency then 1 else 0)
  }

  lemma {:induction false} GroupRowsSum(categories: map<nat, Category>, tx: Tx, items: seq<Item>, currency: string)
    ensures RowSum(GroupRowsOf(categories, tx, items), InCurrency(currency))
         == if tx.currency == currency then RawTotal(items) else 0
  {
    hide GroupName;
    if items != [] {
      var n := |items| - 1;
      GroupRowsSum(categories, tx, items[..n], currency);
      var rows := GroupRowsOf(categories, tx, items);
      assert rows[..|rows| - 1] == GroupRowsOf(categories, tx, items[..n]);
    }
  }

  /** Every type row against the item rows of the same transaction. */
  lemma {:induction false} RowsConserve(b: Book, txs: seq<Tx>, keep: Tx -> bool, currency: string)
    requires AllCovered(txs)
    ensures var drift := RowSum(GroupRows(b.categories, txs, keep), InCurrency(currency))
                         - UNIT * RowSum(TypeRows(txs, keep), InCurrency(currency));
            && -500 * CountIn(txs, keep, currency) <= drift <= 500 * CountIn(txs, keep, currency)
            && ((forall tx <- txs :: WholeCents(RawTotal(tx.items))) ==> drift == 0)
  {
    hide Covered, RawTotal, GroupRowsOf;
    if txs != [] {
      var n := |txs| - 1;
      var tx := txs[n];
      RowsConserve(b, txs[..n], keep, currency);
      GroupRowsSum(b.categories, tx, tx.items, currency);
      RowSumAppend(GroupRows(b.categories, txs[..n], keep),
                   if Counts(tx, keep) then GroupRowsOf(b.categories, tx, tx.items) else [], InCurrency(currency));
      RowSumAppend(TypeRows(txs[..n], keep),
                   if Counts(tx, keep) then [((tx.kind, tx.currency), tx.amount)] else [], InCurrency(currency));
      OneTypeRow(tx, currency);
      CoveredWithin(tx);
      assert tx in txs;
    }
  }

  lemma OneTypeRow(tx: Tx, currency: string)
    ensures RowSum([((tx.kind, tx.currency), tx.amount)], InCurrency(currency))
         == if tx.currency == currency then tx.amount else 0
    ensures RowSum<((string, string))>([], InCurrency(currency)) == 0
  {
    assert [((tx.kind, tx.currency), tx.amount)][..0] == [];
  }

  lemma CoveredWithin(tx: Tx)
    requires Covered(tx)
    ensures !tx.kind.Adjustment? ==> -500 <= RawTotal(tx.items) - UNIT * tx.amount <= 500
    ensures !tx.kind.Adjustment? && WholeCents(RawTotal(tx.items)) ==> RawTotal(tx.items) == UNIT * tx.amount
  {}

  /**
   After any run of calls, under any row filter, the combined totals conserve money:
   per currency the category totals sum to the type totals, exactly when items total
   whole cents and within half a cent per transaction otherwise.
   */
  lemma TotalsConserve(start: Book, ops: seq<Op>, keep: Tx -> bool, currency: string)
    requires CategoriesKnown(start) && AllCovered(start.txs) && (forall op <- ops :: op.Valid()) && AllFit(start, ops)
    ensures var b := AfterAll(start, ops);
            var types, groups := Bucketed(TypeRows(b.txs, keep)), Bucketed(GroupRows(b.categories, b.txs, keep));
            var drift := MapSum(groups, Where(InCurrency(currency)))
                         - UNIT * MapSum(types, Where(InCurrency(currency)));
            && -500 * CountIn(b.txs, keep, currency) <= drift <= 500 * CountIn(b.txs, keep, currency)
            && ((forall tx <- b.txs :: WholeCents(RawTotal(tx.items))) ==> drift == 0)
  {
    hide AllCovered, AfterAll, CategoriesKnown, AllFit, RawTotal, TypeRows, GroupRows, Bucketed;
    RunCovered(start, ops);
    var b := AfterAll(start, ops);
    RowsConserve(b, b.txs, keep, currency);
    BucketsConserve(TypeRows(b.txs, keep), InCurrency(currency));
    BucketsConserve(GroupRows(b.categories, b.txs, keep), InCurrency(currency));
  }

  // ---- attribution ----

  /** What the items name the category themselves. */
  function OwnTotal(items: seq<Item>, category: nat): int {
    if items == [] then 0
    else
      var item := items[|items| - 1];
      OwnTotal(items[..|items| - 1], category) + (if item.category == Some(category) then item.Effective() else 0)
  }

  /** What the items leave to their transaction's category. */
  function InheritedTotal(items: seq<Item>): int {
    if items == [] then 0
    else
      var item := items[|items| - 1];
      InheritedTotal(items[..|items| - 1]) + (if item.category.None? then item.Effective() else 0)
  }

  function SpentByTx(tx: Tx, category: nat): int {
    OwnTotal(tx.items, category) + (if tx.category == Some(category) then InheritedTotal(tx.items) else 0)
  }

  /** Expenses of a currency dated within the range: explicit items and inherited ones. */
  function SpentOn(txs: seq<Tx>, first: int, last: int, category: nat, currency: string): int {
    if txs == [] then 0
    else
      var tx := txs[|txs| - 1];
      SpentOn(txs[..|txs| - 1], first, last, category, currency)
      + (if tx.kind.Expense? && first <= tx.date <= last && tx.currency == currency then SpentByTx(tx, category) else 0)
  }

  predicate InBudget(categories: map<nat, Category>, budget: nat, category: nat) {
    category in categories && categories[category].budget == budget
  }

  lemma {:induction false} ItemAttribution(categories: map<nat, Category>, budget: nat, tx: Tx, items: seq<Item>,
                                           category: nat, currency: string)
    ensures RowTotal(ActualRowsOf(categories, budget, tx, items), (category, currency))
         == if !InBudget(categories, budget, category) || tx.currency != currency then 0
            else OwnTotal(items, category) + (if tx.category == Some(category) then InheritedTotal(items) else 0)
  {
    if items != [] {
      var n := |items| - 1;
      ItemAttribution(categories, budget, tx, items[..n], category, currency);
      var rows, init := ActualRowsOf(categories, budget, tx, items), ActualRowsOf(categories, budget, tx, items[..n]);
      if Attributed(categories, budget, tx, items[n]) {
        assert rows[..|rows| - 1] == init;
      } else {
        assert rows == init;
      }
    }
  }

  lemma {:induction false} RowTotalAppend<K>(a: seq<(K, int)>, b: seq<(K, int)>, k: K)
    ensures RowTotal(a + b, k) == RowTotal(a, k) + RowTotal(b, k)
  {
    if b == [] {
      assert a + b == a;
    } else {
      RowTotalAppend(a, b[..|b| - 1], k);
      assert (a + b)[..|a + b| - 1] == a + b[..|b| - 1];
    }
  }

  lemma {:induction false} TxAttribution(b: Book, budget: nat, txs: seq<Tx>, first: int, last: int, category: nat,
                                         currency: string)
    ensures RowTotal(ActualRows(b.categories, budget, txs, first, last), (category, currency))
         == if InBudget(b.categories, budget, category) then SpentOn(txs, first, last, category, currency) else 0
  {
    hide ActualRowsOf, OwnTotal, InheritedTotal, InBudget;
    if txs != [] {
      var n := |txs| - 1;
      var tx := txs[n];
      TxAttribution(b, budget, txs[..n], first, last, category, currency);
      ItemAttribution(b.categories, budget, tx, tx.items, category, currency);
      if tx.kind.Expense? && first <= tx.date <= last {
        RowTotalAppend(ActualRows(b.categories, budget, txs[..n], first, last),
                       ActualRowsOf(b.categories, budget, tx, tx.items), (category, currency));
      } else {
        assert ActualRows(b.categories, budget, txs, first, last)
             == ActualRows(b.categories, budget, txs[..n], first, last);
      }
    }
  }

  /**
   A budget's actual for a category is what expense items name it plus what items of
   its transactions inherit, and a category of another budget never shows.
   */
  lemma ActualsAttribute(b: Book, budget: nat, first: int, last: int, category: nat, currency: string)
    ensures ValueAt(Actuals(b, budget, first, last), (category, currency))
         == if InBudget(b.categories, budget, category) then SpentOn(b.txs, first, last, category, currency) else 0
  {
    hide ActualRows, SpentOn, Bucketed, RowTotal;
    BucketsAreSums(ActualRows(b.categories, budget, b.txs, first, last));
    TxAttribution(b, budget, b.txs, first, last, category, currency);
  }

  /** Coalescing names agrees with coalescing ids: an item is grouped under its effective category's name. */
  lemma NamesFollowCategories(categories: map<nat, Category>, tx: Tx, item: Item)
    requires item.category.Some? ==> item.category.value in categories
    requires tx.category.Some? ==> tx.category.value in categories
    ensures GroupName(categories, tx, item)
         == match EffectiveCategory(tx, item) { case Some(k) => categories[k].name case None => UNCATEGORIZED }
  {}

  // ---- what a total sums ----

  function SumOf<T>(s: seq<T>, f: T -> int): int {
    if s == [] then 0 else SumOf(s[..|s| - 1], f) + f(s[|s| - 1])
  }

  /** The amount of a kept transaction of one type and currency. */
  function TypeAmount(keep: Tx -> bool, kind: TxType, currency: string): Tx -> int {
    (tx: Tx) => if keep(tx) && tx.kind == kind && !kind.Adjustment? && tx.currency == currency then tx.amount else 0
  }

  lemma {:induction false} TypeRowsSum(txs: seq<Tx>, keep: Tx -> bool, kind: TxType, currency: string)
    ensures RowTotal(TypeRows(txs, keep), (kind, currency)) == SumOf(txs, TypeAmount(keep, kind, currency))
  {
    hide RowTotal;
    if txs == [] {
      OneRow((kind, currency), 0, (kind, currency));
    } else {
      var n := |txs| - 1;
      TypeRowsSum(txs[..n], keep, kind, currency);
      var row := ((txs[n].kind, txs[n].currency), txs[n].amount);
      RowTotalAppend(TypeRows(txs[..n], keep), if Counts(txs[n], keep) then [row] else [], (kind, currency));
      OneRow(row.0, row.1, (kind, currency));
    }
  }

  lemma OneRow<K>(key: K, amount: int, k: K)
    ensures RowTotal([(key, amount)], k) == (if key == k then amount else 0) && RowTotal([], k) == 0
  {
    assert [(key, amount)][..0] == [];
  }

  /** A type's total sums exactly the kept transactions of that type and currency; adjustments never count. */
  lemma TypeTotalSums(txs: seq<Tx>, keep: Tx -> bool, kind: TxType, currency: string)
    ensures ValueAt(Bucketed(TypeRows(txs, keep)), (kind, currency)) == SumOf(txs, TypeAmount(keep, kind, currency))
  {
    hide Bucketed, RowTotal, TypeRows;
    BucketsAreSums(TypeRows(txs, keep));
    TypeRowsSum(txs, keep, kind, currency);
  }

  /** Items name existing categories, and so do transactions. */
  predicate Filed(categories: map<nat, Category>, txs: seq<Tx>) {
    forall i :: 0 <= i < |txs| ==>
      && (txs[i].category.Some? ==> txs[i].category.value in categories)
      && forall k :: 0 <= k < |txs[i].items| ==>
           txs[i].items[k].category.Some? ==> txs[i].items[k].category.value in categories
  }

  /** The item's own category's name, else its transaction's, else the label for none. */
  predicate Under(categories: map<nat, Category>, own: Option<nat>, inherited: Option<nat>, name: string) {
    if own.Some? then own.value in categories && categories[own.value].name == name
    else if inherited.Some? then inherited.value in categories && categories[inherited.value].name == name
    else name == "Uncategorized"
  }

  function ItemAmount(categories: map<nat, Category>, tx: Tx, name: string): Item -> int {
    (item: Item) => if Under(categories, item.category, tx.category, name) then item.Effective() else 0
  }

  /** The items of a kept transaction of one currency that come under a name. */
  function GroupAmount(categories: map<nat, Category>, keep: Tx -> bool, name: string, currency: string): Tx -> int {
    (tx: Tx) =>
      if keep(tx) && !tx.kind.Adjustment? && tx.currency == currency
      then SumOf(tx.items, ItemAmount(categories, tx, name)) else 0
  }

  lemma {:induction false} ItemRowsSum(categories: map<nat, Category>, tx: Tx, items: seq<Item>, name: string,
                                       currency: string)
    requires tx.category.Some? ==> tx.category.value in categories
    requires forall k :: 0 <= k < |items| ==> items[k].category.Some? ==> items[k].category.value in categories
    ensures RowTotal(GroupRowsOf(categories, tx, items), (name, currency))
         == if tx.currency == currency then SumOf(items, ItemAmount(categories, tx, name)) else 0
  {
    if items != [] {
      var n := |items| - 1;
      ItemRowsSum(categories, tx, items[..n], name, currency);
      var before, row := GroupRowsOf(categories, tx, items[..n]),
                         ((GroupName(categories, tx, items[n]), tx.currency), items[n].Effective());
      assert (before + [row])[..|before|] == before;
    }
  }

  lemma {:induction false} GroupRowsTotal(categories: map<nat, Category>, txs: seq<Tx>, keep: Tx -> bool, name: string,
                                          currency: string)
    requires Filed(categories, txs)
    ensures RowTotal(GroupRows(categories, txs, keep), (name, currency))
         == SumOf(txs, GroupAmount(categories, keep, name, currency))
  {
    hide GroupRowsOf, Under;
    if txs != [] {
      var n := |txs| - 1;
      var before := GroupRows(categories, txs[..n], keep);
      GroupRowsTotal(categories, txs[..n], keep, name, currency);
      ItemRowsSum(categories, txs[n], txs[n].items, name, currency);
      RowTotalAppend(before, GroupRowsOf(categories, txs[n], txs[n].items), (name, currency));
      assert before + [] == before;
    }
  }

  /** A category name's total sums exactly the kept items that come under the name, in the currency. */
  lemma GroupTotalSums(categories: map<nat, Category>, txs: seq<Tx>, keep: Tx -> bool, name: string, currency: string)
    requires Filed(categories, txs)
    ensures ValueAt(Bucketed(GroupRows(categories, txs, keep)), (name, currency))
         == SumOf(txs, GroupAmount(categories, keep, name, currency))
  {
    hide Bucketed, RowTotal, GroupRows, Filed;
    BucketsAreSums(GroupRows(categories, txs, keep));
    GroupRowsTotal(categories, txs, keep, name, currency);
  }

  // ---- summary against history ----

  /** Categories with actuals in a currency. */
  ghost function SpentIn(actuals: map<(nat, string), int>, currency: string): set<(nat, string)> {
    set k | k in actuals && k.1 == currency
  }

  function Rounded(m: map<(nat, string), int>): map<(nat, string), int> { map k | k in m :: Quantize(m[k]) }

  lemma SumWithout(m: map<(nat, string), int>, k: (nat, string), currency: string)
    requires k in m
    ensures MapSum(m, Where(InCurrency(currency)))
         == (if k.1 == currency then m[k] else 0) + MapSum(m - {k}, Where(InCurrency(currency)))
  {
    MapSumRemove(m, k, Where(InCurrency(currency)));
  }

  lemma NothingSums<K(!new), V>(f: (K, V) -> int)
    ensures MapSum(map[], f) == 0
  {}

  lemma SpentWithout(actuals: map<(nat, string), int>, k: (nat, string), currency: string)
    requires k in actuals
    ensures SpentIn(actuals - {k}, currency) == SpentIn(actuals, currency) - {k}
    ensures |SpentIn(actuals, currency)| == |SpentIn(actuals - {k}, currency)| + if k.1 == currency then 1 else 0
  {
    assert SpentIn(actuals - {k}, currency) == SpentIn(actuals, currency) - {k};
  }

  predicate WholeIn(actuals: map<(nat, string), int>, currency: string) {
    forall k <- actuals :: k.1 == currency ==> WholeCents(actuals[k])
  }

  /** Rounding each category once drifts from the sum by at most half a cent per category. */
  lemma {:induction false} RoundingDrift(actuals: map<(nat, string), int>, currency: string)
    ensures var drift := UNIT * MapSum(Rounded(actuals), Where(InCurrency(currency)))
                         - MapSum(actuals, Where(InCurrency(currency)));
            && -500 * |SpentIn(actuals, currency)| <= drift <= 500 * |SpentIn(actuals, currency)|
            && (WholeIn(actuals, currency) ==> drift == 0)
    decreases |actuals|
  {
    hide Quantize, MapSum, Where, InCurrency, SpentIn;
    if actuals == map[] {
      assert Rounded(actuals) == map[];
      NothingSums<(nat, string), int>(Where(InCurrency(currency)));
    } else {
      var k :| k in actuals;
      RoundingDrift(actuals - {k}, currency);
      SumWithout(actuals, k, currency);
      SumWithout(Rounded(actuals), k, currency);
      assert Rounded(actuals) - {k} == Rounded(actuals - {k});
      SpentWithout(actuals, k, currency);
      QuantizeNearest(actuals[k], 0);
      QuantizeWhole(actuals[k]);
    }
  }

  /** The column of a line list as a dictionary. */
  function Column(items: seq<Keyed>, f: Line -> int): seq<((nat, string), int)> {
    seq(|items|, i requires 0 <= i < |items| => (items[i].0, f(items[i].1)))
  }

  lemma {:induction false} LineTotalColumns(items: seq<Keyed>, currency: string)
    ensures LineTotal(items, currency).planned == RowSum(Column(items, (l: Line) => l.planned), InCurrency(currency))
    ensures LineTotal(items, currency).actual == RowSum(Column(items, (l: Line) => l.actual), InCurrency(currency))
    ensures (forall i :: 0 <= i < |items| ==> items[i].1.remaining == items[i].1.planned - items[i].1.actual) ==>
              LineTotal(items, currency).remaining
                == LineTotal(items, currency).planned - LineTotal(items, currency).actual
  {
    if items != [] {
      var n := |items| - 1;
      LineTotalColumns(items[..n], currency);
      assert Column(items, (l: Line) => l.planned)[..n] == Column(items[..n], (l: Line) => l.planned);
      assert Column(items, (l: Line) => l.actual)[..n] == Column(items[..n], (l: Line) => l.actual);
    }
  }

  lemma ColumnStep(items: seq<Keyed>, f: Line -> int)
    requires items != []
    ensures var n := |items| - 1;
            Bucketed(Column(items, f)) == Add(Bucketed(Column(items[..n], f)), items[n].0, f(items[n].1))
  {
    assert Column(items, f)[..|items| - 1] == Column(items[..|items| - 1], f);
  }

  lemma NoBuckets(f: Line -> int)
    ensures Bucketed(Column([], f)) == map[] && ItemKeys([]) == {}
  {}

  /** A list with distinct keys fills one bucket per element. */
  lemma {:induction false} DistinctBuckets(items: seq<Keyed>, f: Line -> int)
    requires Distinct(items)
    ensures Bucketed(Column(items, f)).Keys == ItemKeys(items)
    ensures forall i :: 0 <= i < |items| ==>
              items[i].0 in Bucketed(Column(items, f)) && Bucketed(Column(items, f))[items[i].0] == f(items[i].1)
  {
    hide Column, CurrenciesOf, ItemKeys, Bucketed;
    if items == [] {
      NoBuckets(f);
    } else {
      var n := |items| - 1;
      DistinctBuckets(items[..n], f);
      ColumnStep(items, f);
      assert items == items[..n] + [items[n]];
      AppendKey(items[..n], items[n]);
      LineKey(items[..n], items[n].0);
    }
  }

  lemma LineKey(items: seq<Keyed>, k: (nat, string))
    ensures k in ItemKeys(items) ==> exists i :: 0 <= i < |items| && items[i].0 == k
  {
    if k in ItemKeys(items) {
      var item :| item in items && item.0 == k;
      var i :| 0 <= i < |items| && items[i] == item;
    }
  }

  /** `m` with zeros for the other keys. */
  function Padded(keys: set<(nat, string)>, m: map<(nat, string), int>): map<(nat, string), int> {
    map k | k in keys :: ValueAt(m, k)
  }

  lemma {:induction false} PaddedSum(keys: set<(nat, string)>, m: map<(nat, string), int>, currency: string)
    requires m.Keys <= keys
    ensures MapSum(Padded(keys, m), Where(InCurrency(currency))) == MapSum(m, Where(InCurrency(currency)))
    decreases |keys|
  {
    hide MapSum, Where, InCurrency;
    if keys == {} {
      assert Padded(keys, m) == m;
    } else {
      var k :| k in keys;
      PaddedSum(keys - {k}, m - {k}, currency);
      SumWithout(Padded(keys, m), k, currency);
      assert Padded(keys, m) - {k} == Padded(keys - {k}, m - {k});
      if k in m {
        SumWithout(m, k, currency);
      } else {
        assert m - {k} == m;
      }
    }
  }

  /** A summary column sums to the dictionary it was read from. */
  lemma ColumnSum(items: seq<Keyed>, f: Line -> int, keys: set<(nat, string)>, m: map<(nat, string), int>,
                  currency: string)
    requires Distinct(items) && m.Keys <= keys && ItemKeys(items) == keys
    requires forall i :: 0 <= i < |items| ==> f(items[i].1) == ValueAt(m, items[i].0)
    ensures RowSum(Column(items, f), InCurrency(currency)) == MapSum(m, Where(InCurrency(currency)))
  {
    hide MapSum, Where, InCurrency, Bucketed, RowSum, ItemKeys;
    DistinctBuckets(items, f);
    BucketsConserve(Column(items, f), InCurrency(currency));
    PaddedSum(keys, m, currency);
    assert Bucketed(Column(items, f)) == Padded(keys, m) by {
      forall k | k in keys ensures k in Bucketed(Column(items, f)) && Bucketed(Column(items, f))[k] == ValueAt(m, k) {
        LineKey(items, k);
        var i :| 0 <= i < |items| && items[i].0 == k;
      }
    }
  }

  /** The planned dictionary by its rows. */
  lemma PlannedAt(rows: map<nat, PlanRow>, period: nat)
    requires UniquePlans(rows)
    ensures forall id <- rows :: rows[id].period == period ==>
              && rows[id].Key() in PlannedOf(rows, period)
              && PlannedOf(rows, period)[rows[id].Key()] == rows[id].planned.amount
    ensures forall k <- PlannedOf(rows, period) ::
              exists id :: id in rows && rows[id].period == period && rows[id].Key() == k
  {
    var planned := PlannedOf(rows, period);
    forall id | id in rows && rows[id].period == period
      ensures rows[id].Key() in planned && planned[rows[id].Key()] == rows[id].planned.amount
    {
    }
  }

  lemma UniqueWithout(rows: map<nat, PlanRow>, id: nat)
    requires UniquePlans(rows) && id in rows
    ensures UniquePlans(rows - {id})
    ensures forall i <- rows - {id} ::
              && (rows - {id})[i] == rows[i]
              && (rows[i].period != rows[id].period || rows[i].Key() != rows[id].Key())
  {}

  lemma PlannedRemove(rows: map<nat, PlanRow>, period: nat, id: nat)
    requires UniquePlans(rows) && id in rows
    ensures UniquePlans(rows - {id})
    ensures PlannedOf(rows - {id}, period)
         == if rows[id].period == period then PlannedOf(rows, period) - {rows[id].Key()} else PlannedOf(rows, period)
  {
    hide PlannedOf, UniquePlans;
    UniqueWithout(rows, id);
    PlannedAt(rows, period);
    PlannedAt(rows - {id}, period);
    var before, after, gone := PlannedOf(rows, period), PlannedOf(rows - {id}, period), rows[id];
    forall k | k in after ensures k in before && before[k] == after[k] && !(gone.period == period && k == gone.Key()) {
      var i :| i in rows - {id} && (rows - {id})[i].period == period && (rows - {id})[i].Key() == k;
      assert i in rows && rows[i] == (rows - {id})[i];
    }
    forall k | k in before && !(gone.period == period && k == gone.Key()) ensures k in after {
      var i :| i in rows && rows[i].period == period && rows[i].Key() == k;
      assert i in rows - {id};
    }
  }

  lemma PlannedWithout(rows: map<nat, PlanRow>, period: nat, id: nat, p: ((nat, string)) -> bool)
    requires UniquePlans(rows) && id in rows
    ensures UniquePlans(rows - {id})
    ensures MapSum(PlannedOf(rows, period), Where(p))
         == MapSum(PlannedOf(rows - {id}, period), Where(p)) + PlannedWhere(period, p)(id, rows[id])
  {
    hide MapSum, UniquePlans, PlannedOf;
    PlannedRemove(rows, period, id);
    PlannedAt(rows, period);
    if rows[id].period == period {
      MapSumRemove(PlannedOf(rows, period), rows[id].Key(), Where(p));
    }
  }

  lemma NothingPlanned(period: nat)
    ensures PlannedOf(map[], period) == map[]
  {}

  /** Any part of a period's planned dictionary sums to the same part of its rows. */
  lemma {:induction false} PlannedSum(rows: map<nat, PlanRow>, period: nat, p: ((nat, string)) -> bool)
    requires UniquePlans(rows)
    ensures MapSum(PlannedOf(rows, period), Where(p)) == PlannedTotal(rows, period, p)
    decreases |rows|
  {
    hide MapSum, Where, UniquePlans, PlannedOf, PlannedWhere;
    if rows == map[] {
      NothingPlanned(period);
      NothingSums<(nat, string), int>(Where(p));
      NothingSums<nat, PlanRow>(PlannedWhere(period, p));
    } else {
      var id :| id in rows;
      PlannedWithout(rows, period, id, p);
      MapSumRemove(rows, id, PlannedWhere(period, p));
      PlannedSum(rows - {id}, period, p);
    }
  }

  lemma PlannedKeys(rows: map<nat, PlanRow>, period: nat)
    requires UniquePlans(rows)
    ensures CurrenciesOf(PlannedOf(rows, period).Keys) == PlannedCurrencies(rows, period)
  {
    hide UniquePlans, PlannedOf;
    PlannedAt(rows, period);
    forall id | id in rows && rows[id].period == period
      ensures rows[id].planned.currency in CurrenciesOf(PlannedOf(rows, period).Keys)
    {
      assert rows[id].Key() in PlannedOf(rows, period);
    }
  }

  /** The lines of a currency sum to the planned dictionary and to the rounded actuals. */
  lemma SummaryColumns(planned: map<(nat, string), int>, actuals: map<(nat, string), int>, items: seq<Keyed>,
                       currency: string)
    requires Listed(planned, actuals, items, planned.Keys + actuals.Keys)
    ensures LineTotal(items, currency).planned == MapSum(planned, Where(InCurrency(currency)))
    ensures LineTotal(items, currency).actual == MapSum(Rounded(actuals), Where(InCurrency(currency)))
    ensures LineTotal(items, currency).remaining
         == LineTotal(items, currency).planned - LineTotal(items, currency).actual
  {
    hide MapSum, Where, InCurrency, LineTotal, RowSum, Column;
    var keys := planned.Keys + actuals.Keys;
    LineTotalColumns(items, currency);
    ColumnSum(items, (l: Line) => l.planned, keys, planned, currency);
    assert Quantize(0) == 0;
    ColumnSum(items, (l: Line) => l.actual, keys, Rounded(actuals), currency);
  }

  /** Every line has its category's planned amount, its actual rounded to the nearest cent, and the difference. */
  lemma LinesAre(rows: map<nat, PlanRow>, period: nat, actuals: map<(nat, string), int>, items: seq<Keyed>, i: nat)
    requires UniquePlans(rows) && i < |items|
    requires Listed(PlannedOf(rows, period), actuals, items, PlannedOf(rows, period).Keys + actuals.Keys)
    ensures var (key, line) := items[i];
            && (forall id <- rows :: rows[id].period == period && rows[id].Key() == key ==>
                  line.planned == rows[id].planned.amount)
            && ((forall id <- rows :: !(rows[id].period == period && rows[id].Key() == key)) ==> line.planned == 0)
            && -500 <= 1000 * line.actual - ValueAt(actuals, key) <= 500
            && line.remaining == line.planned - line.actual
  {
    hide Quantize, UniquePlans, PlannedOf;
    PlannedAt(rows, period);
    QuantizeNearest(ValueAt(actuals, items[i].0), 0);
  }

  /**
   The summary and the history of one period agree on what was planned; the summary's
   remaining is planned minus actual; and their actuals, one rounded per category and
   one rounded once, differ by at most one half cent per spent category and one more,
   and not at all on whole cents.
   */
  lemma SummaryMeetsHistory(rows: map<nat, PlanRow>, period: nat, actuals: map<(nat, string), int>,
                            items: seq<Keyed>, totals: map<string, Line>, history: map<string, (int, int)>,
                            currency: string)
    requires UniquePlans(rows)
    requires IsSummary(PlannedOf(rows, period), actuals, items, totals) && IsHistory(rows, period, actuals, history)
    ensures currency in totals <==> currency in history
    ensures currency in totals ==>
              && totals[currency].planned == history[currency].0
              && totals[currency].remaining == totals[currency].planned - totals[currency].actual
              && -500 * (|SpentIn(actuals, currency)| + 1) <= UNIT * (totals[currency].actual - history[currency].1)
              && UNIT * (totals[currency].actual - history[currency].1) <= 500 * (|SpentIn(actuals, currency)| + 1)
              && (WholeIn(actuals, currency) ==> totals[currency].actual == history[currency].1)
  {
    hide MapSum, Where, InCurrency, LineTotal, Quantize, CurrenciesOf, ItemKeys, Distinct, LineAt, PlannedOf,
         UniquePlans, PlannedTotal, SpentIn, WholeIn, PlannedCurrencies, Rounded;
    CurrenciesUnion(PlannedOf(rows, period).Keys, actuals.Keys);
    PlannedKeys(rows, period);
    SummaryColumns(PlannedOf(rows, period), actuals, items, currency);
    PlannedSum(rows, period, InCurrency(currency));
    RoundingDrift(actuals, currency);
    QuantizeNearest(MapSum(actuals, Where(InCurrency(currency))), 0);
  }
}
