/// Read-side aggregates: totals by type and by category, and planned against actual
/// amounts of a budget period. An item without a category inherits its transaction's.
module ReportModel {
  import opened Wrappers
  import opened Money
  import opened BookModel
  import opened Buckets
  import Periods = PeriodModel

  function EffectiveCategory(tx: Tx, item: Item): Option<nat> {
    if item.category.Some? then item.category else tx.category
  }

  /** Keys are a group and a currency code. */
  function InCurrency<G>(currency: string): ((G, string)) -> bool { (k: (G, string)) => k.1 == currency }

  // ---- totals by type and by category ----

  const UNCATEGORIZED := "Uncategorized"

  /** The item category's name, else the transaction category's, else the label for none. */
  function GroupName(categories: map<nat, Category>, tx: Tx, item: Item): string {
    if item.category.Some? && item.category.value in categories then categories[item.category.value].name
    else if tx.category.Some? && tx.category.value in categories then categories[tx.category.value].name
    else UNCATEGORIZED
  }

  /** Adjustments never count; `keep` stands for the date, account, type, currency, text and amount filters. */
  predicate Counts(tx: Tx, keep: Tx -> bool) { keep(tx) && !tx.kind.Adjustment? }

  function TypeRows(txs: seq<Tx>, keep: Tx -> bool): seq<((TxType, string), int)> {
    if txs == [] then []
    else
      var tx := txs[|txs| - 1];
      TypeRows(txs[..|txs| - 1], keep) + (if Counts(tx, keep) then [((tx.kind, tx.currency), tx.amount)] else [])
  }

  function GroupRowsOf(categories: map<nat, Category>, tx: Tx, items: seq<Item>): seq<((string, string), int)> {
    if items == [] then []
    else
      var item := items[|items| - 1];
      GroupRowsOf(categories, tx, items[..|items| - 1])
      + [((GroupName(categories, tx, item), tx.currency), item.Effective())]
  }

  function GroupRows(categories: map<nat, Category>, txs: seq<Tx>, keep: Tx -> bool): seq<((string, string), int)> {
    if txs == [] then []
    else
      var tx := txs[|txs| - 1];
      GroupRows(categories, txs[..|txs| - 1], keep)
      + (if Counts(tx, keep) then GroupRowsOf(categories, tx, tx.items) else [])
  }

  // ---- budget actuals ----

  /** The item's effective category belongs to the budget. */
  predicate Attributed(categories: map<nat, Category>, budget: nat, tx: Tx, item: Item) {
    var category := EffectiveCategory(tx, item);
    category.Some? && category.value in categories && categories[category.value].budget == budget
  }

  function ActualRowsOf(categories: map<nat, Category>, budget: nat, tx: Tx,
                        items: seq<Item>): seq<((nat, string), int)> {
    if items == [] then []
    else
      var item := items[|items| - 1];
      ActualRowsOf(categories, budget, tx, items[..|items| - 1])
      + (if Attributed(categories, budget, tx, item)
         then [((EffectiveCategory(tx, item).value, tx.currency), item.Effective())] else [])
  }

  /** Expense items dated within the range whose effective category is one of the budget's. */
  function ActualRows(categories: map<nat, Category>, budget: nat, txs: seq<Tx>, first: int,
                      last: int): seq<((nat, string), int)> {
    if txs == [] then []
    else
      var tx := txs[|txs| - 1];
      ActualRows(categories, budget, txs[..|txs| - 1], first, last)
      + (if tx.kind.Expense? && first <= tx.date <= last then ActualRowsOf(categories, budget, tx, tx.items) else [])
  }

  /** The aggregate query: unrounded totals per category and currency. */
  function Actuals(b: Book, budget: nat, first: int, last: int): map<(nat, string), int> {
    Bucketed(ActualRows(b.categories, budget, b.txs, first, last))
  }

  // ---- planned amounts ----

  /** A planned amount of one period. */
  datatype PlanRow = PlanRow(period: nat, planned: Periods.Amount) {
    function Key(): (nat, string) { (planned.category, planned.currency) }
  }

  /** At most one planned amount per period, category and currency. */
  ghost predicate UniquePlans(rows: map<nat, PlanRow>) {
    forall i, k :: i in rows && k in rows && i != k ==>
      rows[i].period != rows[k].period || rows[i].Key() != rows[k].Key()
  }

  /** The planned amounts of a period by category and currency. */
  function PlannedOf(rows: map<nat, PlanRow>, period: nat): map<(nat, string), int>
    requires UniquePlans(rows)
  {
    map id | id in rows && rows[id].period == period :: rows[id].Key() := rows[id].planned.amount
  }

  /** The amount of one row if it is of the period and its key satisfies `p`. */
  function PlannedWhere(period: nat, p: ((nat, string)) -> bool): (nat, PlanRow) -> int {
    (id: nat, row: PlanRow) => if row.period == period && p(row.Key()) then row.planned.amount else 0
  }

  ghost function PlannedTotal(rows: map<nat, PlanRow>, period: nat, p: ((nat, string)) -> bool): int {
    MapSum(rows, PlannedWhere(period, p))
  }

  // ---- report lines ----

  datatype Line = Line(planned: int, actual: int, remaining: int)

  type Keyed = ((nat, string), Line)

  function ItemKeys(items: seq<Keyed>): set<(nat, string)> { set item | item in items :: item.0 }

  function CurrenciesOf(keys: set<(nat, string)>): set<string> { set k | k in keys :: k.1 }

  /** One summary line: the planned amount, the rounded actual, and what remains. */
  function LineAt(planned: map<(nat, string), int>, actuals: map<(nat, string), int>, k: (nat, string)): Line {
    var actual := Quantize(ValueAt(actuals, k));
    Line(ValueAt(planned, k), actual, ValueAt(planned, k) - actual)
  }

  /** Sum of the lines of a currency. */
  function LineTotal(items: seq<Keyed>, currency: string): Line {
    if items == [] then Line(0, 0, 0)
    else
      var before, item := LineTotal(items[..|items| - 1], currency), items[|items| - 1];
      if item.0.1 != currency then before
      else
        Line(before.planned + item.1.planned, before.actual + item.1.actual, before.remaining + item.1.remaining)
  }
}
