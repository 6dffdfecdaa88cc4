/// The report services: dictionaries filled in place over read-only rows.
module ReportService {
  import opened Money
  import opened BookModel
  import opened Buckets
  import opened ReportModel

  /** Sums of amounts per type and of items per category name, each per currency. */
  method TotalsCombined(b: Book, keep: Tx -> bool) returns (types: map<(TxType, string), int>,
                        groups: map<(string, string), int>)
    ensures types == Bucketed(TypeRows(b.txs, keep))
    ensures groups == Bucketed(GroupRows(b.categories, b.txs, keep))
  {
    types := TypeTotals(b, keep);
    groups := GroupTotals(b, keep);
  }

  method TypeTotals(b: Book, keep: Tx -> bool) returns (types: map<(TxType, string), int>)
    ensures types == Bucketed(TypeRows(b.txs, keep))
  {
    types := map[];
    for i := 0 to |b.txs|
      invariant types == Bucketed(TypeRows(b.txs[..i], keep))
    {
      assert b.txs[..i + 1][..i] == b.txs[..i];
      var tx := b.txs[i];
      if Counts(tx, keep) {
        var rows := TypeRows(b.txs[..i], keep);
        assert (rows + [((tx.kind, tx.currency), tx.amount)])[..|rows|] == rows;
        types := Add(types, (tx.kind, tx.currency), tx.amount);
      } else {
        assert TypeRows(b.txs[..i + 1], keep) == TypeRows(b.txs[..i], keep);
      }
    }
    assert b.txs[..|b.txs|] == b.txs;
  }

  /** Every counted item, added to its group. */
  method GroupTotals(b: Book, keep: Tx -> bool) returns (groups: map<(string, string), int>)
    ensures groups == Bucketed(GroupRows(b.categories, b.txs, keep))
  {
    groups := map[];
    for i := 0 to |b.txs|
      invariant groups == Bucketed(GroupRows(b.categories, b.txs[..i], keep))
    {
      assert b.txs[..i + 1][..i] == b.txs[..i];
      var tx := b.txs[i];
      if Counts(tx, keep) {
        groups := AddItems(b.categories, tx, groups, GroupRows(b.categories, b.txs[..i], keep));
      } else {
        assert GroupRows(b.categories, b.txs[..i + 1], keep) == GroupRows(b.categories, b.txs[..i], keep);
      }
    }
    assert b.txs[..|b.txs|] == b.txs;
  }

  method AddItems(categories: map<nat, Category>, tx: Tx, before: map<(string, string), int>,
                  ghost rows: seq<((string, string), int)>)
    returns (groups: map<(string, string), int>)
    requires before == Bucketed(rows)
    ensures groups == Bucketed(rows + GroupRowsOf(categories, tx, tx.items))
  {
    groups := before;
    assert rows + GroupRowsOf(categories, tx, tx.items[..0]) == rows;
    hide Bucketed, GroupRowsOf, GroupName, Add;
    for k := 0 to |tx.items|
      invariant groups == Bucketed(rows + GroupRowsOf(categories, tx, tx.items[..k]))
    {
      ItemStep(categories, tx, rows, k);
      groups := Add(groups, (GroupName(categories, tx, tx.items[k]), tx.currency), tx.items[k].Effective());
    }
    assert tx.items[..|tx.items|] == tx.items;
  }

  lemma ItemStep(categories: map<nat, Category>, tx: Tx, rows: seq<((string, string), int)>, k: nat)
    requires k < |tx.items|
    ensures Bucketed(rows + GroupRowsOf(categories, tx, tx.items[..k + 1]))
         == Add(Bucketed(rows + GroupRowsOf(categories, tx, tx.items[..k])),
                (GroupName(categories, tx, tx.items[k]), tx.currency), tx.items[k].Effective())
  {
    hide GroupName;
    assert tx.items[..k + 1][..k] == tx.items[..k];
    var soFar := rows + GroupRowsOf(categories, tx, tx.items[..k]);
    var row := ((GroupName(categories, tx, tx.items[k]), tx.currency), tx.items[k].Effective());
    assert rows + GroupRowsOf(categories, tx, tx.items[..k + 1]) == soFar + [row];
    assert (soFar + [row])[..|soFar|] == soFar;
  }

  ghost predicate Distinct(items: seq<Keyed>) {
    forall i, k :: 0 <= i < k < |items| ==> items[i].0 != items[k].0
  }

  /** One line per key of `keys`. */
  ghost predicate Listed(planned: map<(nat, string), int>, actuals: map<(nat, string), int>, items: seq<Keyed>,
                         keys: set<(nat, string)>) {
    && Distinct(items)
    && ItemKeys(items) == keys
    && forall i :: 0 <= i < |items| ==> items[i].1 == LineAt(planned, actuals, items[i].0)
  }

  lemma ListedStep(planned: map<(nat, string), int>, actuals: map<(nat, string), int>, items: seq<Keyed>,
                   keys: set<(nat, string)>, k: (nat, string))
    requires Listed(planned, actuals, items, keys) && k !in keys
    ensures Listed(planned, actuals, items + [(k, LineAt(planned, actuals, k))], keys + {k})
  {
    hide LineAt;
    AppendKey(items, (k, LineAt(planned, actuals, k)));
    assert forall i :: 0 <= i < |items| ==> items[i].0 in ItemKeys(items);
  }

  lemma AppendKey(items: seq<Keyed>, item: Keyed)
    ensures ItemKeys(items + [item]) == ItemKeys(items) + {item.0}
    ensures CurrenciesOf(ItemKeys(items + [item])) == CurrenciesOf(ItemKeys(items)) + {item.0.1}
  {
    assert ItemKeys(items + [item]) == ItemKeys(items) + {item.0};
    CurrenciesUnion(ItemKeys(items), {item.0});
    assert CurrenciesOf({item.0}) == {item.0.1} by { assert item.0 in {item.0}; }
  }

  lemma CurrenciesUnion(a: set<(nat, string)>, b: set<(nat, string)>)
    ensures CurrenciesOf(a + b) == CurrenciesOf(a) + CurrenciesOf(b)
  {
    forall c ensures c in CurrenciesOf(a + b) <==> c in CurrenciesOf(a) + CurrenciesOf(b) {
      if c in CurrenciesOf(a + b) {
        var k :| k in a + b && k.1 == c;
        assert k in a || k in b;
      }
      if c in CurrenciesOf(a) {
        var k :| k in a && k.1 == c;
        assert k in a + b;
      }
      if c in CurrenciesOf(b) {
        var k :| k in b && k.1 == c;
        assert k in a + b;
      }
    }
  }

  /** A total per currency that has a line: the sum of its lines. */
  ghost predicate LinesTotalled(items: seq<Keyed>, totals: map<string, Line>) {
    && totals.Keys == CurrenciesOf(ItemKeys(items))
    && forall c :: (if c in totals then totals[c] else Line(0, 0, 0)) == LineTotal(items, c)
  }

  lemma LinesStep(items: seq<Keyed>, totals: map<string, Line>, item: Keyed)
    requires LinesTotalled(items, totals)
    ensures LinesTotalled(items + [item], totals[item.0.1 := LineTotal(items + [item], item.0.1)])
  {
    hide ItemKeys, CurrenciesOf;
    AppendKey(items, item);
    assert (items + [item])[..|items|] == items;
  }

  lemma BucketSoFar(items: seq<Keyed>, totals: map<string, Line>, currency: string)
    requires LinesTotalled(items, totals)
    ensures (if currency in totals then totals[currency] else Line(0, 0, 0)) == LineTotal(items, currency)
  {}

  /** Lines for everything planned or spent, and per-currency sums of those lines. */
  ghost predicate IsSummary(planned: map<(nat, string), int>, actuals: map<(nat, string), int>, items: seq<Keyed>,
                            totals: map<string, Line>) {
    Listed(planned, actuals, items, planned.Keys + actuals.Keys) && LinesTotalled(items, totals)
  }

  /** A budget's planned and actual amounts in one period, line by line and per currency. */
  method Summary(b: Book, budget: nat, rows: map<nat, PlanRow>, period: nat, first: int, last: int)
    returns (items: seq<Keyed>, totals: map<string, Line>)
    requires UniquePlans(rows)
    ensures IsSummary(PlannedOf(rows, period), Actuals(b, budget, first, last), items, totals)
  {
    hide Actuals, UniquePlans, PlannedOf, Listed, LinesTotalled;
    items := SummaryLines(PlannedOf(rows, period), Actuals(b, budget, first, last));
    totals := SummaryTotals(items);
  }

  method SummaryLines(planned: map<(nat, string), int>, actuals: map<(nat, string), int>) returns (items: seq<Keyed>)
    ensures Listed(planned, actuals, items, planned.Keys + actuals.Keys)
  {
    items := [];
    assert Listed(planned, actuals, [], {});
    hide LineAt, Listed;
    var all := planned.Keys + actuals.Keys;
    var todo := all;
    assert all - todo == {};
    while todo != {}
      invariant todo <= all && Listed(planned, actuals, items, all - todo)
      decreases |todo|
    {
      var k :| k in todo;
      OneMore(all, todo, k);
      ListedStep(planned, actuals, items, all - todo, k);
      items := items + [(k, LineAt(planned, actuals, k))];
      todo := todo - {k};
    }
    assert all - todo == all;
  }

  method SummaryTotals(items: seq<Keyed>) returns (totals: map<string, Line>)
    ensures LinesTotalled(items, totals)
  {
    totals := map[];
    assert LinesTotalled([], map[]);
    hide LinesTotalled;
    for i := 0 to |items|
      invariant LinesTotalled(items[..i], totals)
    {
      var item := items[i];
      assert items[..i + 1] == items[..i] + [item] && (items[..i] + [item])[..i] == items[..i];
      LinesStep(items[..i], totals, item);
      var bucket := if item.0.1 in totals then totals[item.0.1] else Line(0, 0, 0);
      BucketSoFar(items[..i], totals, item.0.1);
      bucket := Line(bucket.planned + item.1.planned, bucket.actual + item.1.actual,
                     bucket.remaining + item.1.remaining);
      totals := totals[item.0.1 := bucket];
    }
    assert items[..|items|] == items;
  }

  // ---- history ----

  ghost function PlannedCurrencies(rows: map<nat, PlanRow>, period: nat): set<string> {
    set id | id in rows && rows[id].period == period :: rows[id].planned.currency
  }

  /** The grouped query over a period's planned rows. */
  ghost predicate PlannedSums(rows: map<nat, PlanRow>, period: nat, planned: map<string, int>) {
    && planned.Keys == PlannedCurrencies(rows, period)
    && forall c :: ValueAt(planned, c) == PlannedTotal(rows, period, InCurrency(c))
  }

  lemma PlannedStep(rows: map<nat, PlanRow>, period: nat, planned: map<string, int>, id: nat, row: PlanRow)
    requires PlannedSums(rows, period, planned) && id !in rows
    ensures PlannedSums(rows[id := row], period,
                        if row.period == period then Add(planned, row.planned.currency, row.planned.amount)
                        else planned)
  {
    forall c: string
      ensures PlannedTotal(rows[id := row], period, InCurrency(c)) == PlannedTotal(rows, period, InCurrency(c))
                     + (if row.period == period && row.planned.currency == c then row.planned.amount else 0) {
      MapSumUpdate(rows, id, row, PlannedWhere(period, InCurrency(c)));
      assert InCurrency<nat>(c)(row.Key()) == (row.planned.currency == c);
    }
    var after := rows[id := row];
    assert forall k :: k in after <==> k in rows || k == id;
    assert PlannedCurrencies(after, period)
         == PlannedCurrencies(rows, period) + (if row.period == period then {row.planned.currency} else {}) by {
      forall c | c in PlannedCurrencies(rows, period) ensures c in PlannedCurrencies(after, period) {
        var k :| k in rows && rows[k].period == period && rows[k].planned.currency == c;
        assert after[k] == rows[k];
      }
      assert after[id] == row;
    }
  }

  /** Unrounded actuals per currency. */
  ghost predicate ActualSums(actuals: map<(nat, string), int>, actual: map<string, int>) {
    && actual.Keys == CurrenciesOf(actuals.Keys)
    && forall c :: ValueAt(actual, c) == MapSum(actuals, Where(InCurrency(c)))
  }

  lemma ActualStep(actuals: map<(nat, string), int>, actual: map<string, int>, k: (nat, string), raw: int)
    requires ActualSums(actuals, actual) && k !in actuals
    ensures ActualSums(actuals[k := raw], Add(actual, k.1, raw))
  {
    forall c
      ensures MapSum(actuals[k := raw], Where(InCurrency(c)))
           == MapSum(actuals, Where(InCurrency(c))) + (if k.1 == c then raw else 0)
    {
      MapSumUpdate(actuals, k, raw, Where(InCurrency(c)));
    }
    assert actuals[k := raw].Keys == actuals.Keys + {k};
    CurrenciesUnion(actuals.Keys, {k});
    assert CurrenciesOf({k}) == {k.1} by { assert k in {k}; }
  }

  /** Planned and actual totals of one period per currency, with one rounding per total. */
  method HistoryTotals(b: Book, budget: nat, rows: map<nat, PlanRow>, period: nat, first: int, last: int)
    returns (totals: map<string, (int, int)>)
    ensures IsHistory(rows, period, Actuals(b, budget, first, last), totals)
  {
    hide Actuals, PlannedSums, ActualSums;
    var planned := PlannedByCurrency(rows, period);
    var actual := ActualByCurrency(Actuals(b, budget, first, last));
    totals := map c | c in planned.Keys + actual.Keys :: (ValueAt(planned, c), Quantize(ValueAt(actual, c)));
    HistoryFilled(rows, period, Actuals(b, budget, first, last), planned, actual, totals);
  }

  method PlannedByCurrency(rows: map<nat, PlanRow>, period: nat) returns (planned: map<string, int>)
    ensures PlannedSums(rows, period, planned)
  {
    planned := map[];
    var ids := rows.Keys;
    assert rows - ids == map[] && PlannedSums(map[], period, map[]);
    hide PlannedSums, Add;
    while ids != {}
      invariant ids <= rows.Keys && PlannedSums(rows - ids, period, planned)
      decreases |ids|
    {
      var id :| id in ids;
      assert rows - (ids - {id}) == (rows - ids)[id := rows[id]];
      PlannedStep(rows - ids, period, planned, id, rows[id]);
      if rows[id].period == period {
        planned := Add(planned, rows[id].planned.currency, rows[id].planned.amount);
      }
      ids := ids - {id};
    }
    assert rows - ids == rows;
  }

  method ActualByCurrency(actuals: map<(nat, string), int>) returns (actual: map<string, int>)
    ensures ActualSums(actuals, actual)
  {
    actual := map[];
    var todo := actuals.Keys;
    assert actuals - todo == map[] && ActualSums(map[], map[]);
    hide ActualSums, Add;
    while todo != {}
      invariant todo <= actuals.Keys && ActualSums(actuals - todo, actual)
      decreases |todo|
    {
      var k :| k in todo;
      assert actuals - (todo - {k}) == (actuals - todo)[k := actuals[k]];
      ActualStep(actuals - todo, actual, k, actuals[k]);
      actual := Add(actual, k.1, actuals[k]);
      todo := todo - {k};
    }
    assert actuals - todo == actuals;
  }

  lemma HistoryFilled(rows: map<nat, PlanRow>, period: nat, actuals: map<(nat, string), int>,
                      planned: map<string, int>, actual: map<string, int>, totals: map<string, (int, int)>)
    requires PlannedSums(rows, period, planned) && ActualSums(actuals, actual)
    requires totals == map c | c in planned.Keys + actual.Keys :: (ValueAt(planned, c), Quantize(ValueAt(actual, c)))
    ensures IsHistory(rows, period, actuals, totals)
  {
    hide Quantize, PlannedTotal, MapSum, PlannedCurrencies;
  }

  /** Sums of the planned rows, and rounded sums of the unrounded actuals. */
  ghost predicate IsHistory(rows: map<nat, PlanRow>, period: nat, actuals: map<(nat, string), int>,
                            totals: map<string, (int, int)>) {
    && totals.Keys == PlannedCurrencies(rows, period) + CurrenciesOf(actuals.Keys)
    && forall c <- totals ::
         && totals[c].0 == PlannedTotal(rows, period, InCurrency(c))
         && totals[c].1 == Quantize(MapSum(actuals, Where(InCurrency(c))))
  }

  datatype PeriodRef = PeriodRef(id: nat, first: int, last: int)

  /** The `limit` most recent periods, oldest first; `newestFirst` is the budget's periods by descending start. */
  method History(b: Book, budget: nat, rows: map<nat, PlanRow>, newestFirst: seq<PeriodRef>, limit: nat)
    returns (history: seq<map<string, (int, int)>>)
    ensures |history| == if limit < |newestFirst| then limit else |newestFirst|
    ensures forall i :: 0 <= i < |history| ==>
              var period := newestFirst[|history| - 1 - i];
              IsHistory(rows, period.id, Actuals(b, budget, period.first, period.last), history[i])
  {
    hide IsHistory, Actuals;
    var n := if limit < |newestFirst| then limit else |newestFirst|;
    history := [];
    for i := 0 to n
      invariant |history| == i
      invariant forall k :: 0 <= k < i ==>
                  var period := newestFirst[n - 1 - k];
                  IsHistory(rows, period.id, Actuals(b, budget, period.first, period.last), history[k])
    {
      var period := newestFirst[n - 1 - i];
      var totals := HistoryTotals(b, budget, rows, period.id, period.first, period.last);
      history := history + [totals];
    }
  }
}
