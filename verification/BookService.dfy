/// The services that own the book: transactions, their items and adjustments, and
/// transfers, changed in place. Each method is proved against BookModel.
module BookService {
  import opened Wrappers
  import opened Money
  import opened BookModel
  import opened Buckets

  /** A call either fails and changes nothing, or reaches the modelled book. */
  predicate Outcome(result: Result<Book, Error>, before: Book, error: Option<Error>, after: Book) {
    match result
    case Ok(b) => error.None? && after == b
    case Err(e) => error == Some(e) && after == before
  }

  /** The rounded sum of the rows' line totals, or quantity times unit price. */
  method ItemsTotalOf(items: seq<Item>) returns (total: int)
    ensures total == ItemsTotal(items)
  {
    var raw := 0;
    for i := 0 to |items|
      invariant raw == RawTotal(items[..i])
    {
      assert items[..i + 1][..i] == items[..i];
      var item := items[i];
      if item.lineTotal.Some? {
        raw := raw + UNIT * item.lineTotal.value;
      } else if item.unitPrice.Some? {
        raw := raw + item.quantity * item.unitPrice.value;
      }
    }
    assert items[..|items|] == items;
    total := Quantize(raw);
  }

  method UserRowsOf(items: seq<Item>) returns (rows: seq<Item>)
    ensures rows == UserRows(items)
  {
    rows := [];
    for i := 0 to |items|
      invariant rows == UserRows(items[..i])
    {
      assert items[..i + 1][..i] == items[..i];
      if !items[i].remainder {
        rows := rows + [items[i]];
      }
    }
    assert items[..|items|] == items;
  }

  /** The coverage writer: deletes, shrinks, grows or creates the remainder row. */
  method NormalizeCoverage(tx: Tx, strict: bool) returns (result: Result<Tx, Error>)
    ensures result == Normalized(tx, strict)
  {
    var rows := UserRowsOf(tx.items);
    if tx.kind.Adjustment? {
      return Ok(tx.(items := rows));
    }
    var total := ItemsTotalOf(rows);
    var remainder := tx.amount - total;
    if remainder < 0 && strict {
      return Err(ItemsOverSum);
    }
    var row := FirstRemainder(tx.items);
    if remainder <= 0 {
      if row.Some? {
        return Ok(tx.(items := tx.items[..row.value] + tx.items[row.value + 1..]));
      }
      return Ok(tx);
    }
    if row.None? {
      return Ok(tx.(items := tx.items + [NewRemainder(remainder)]));
    }
    return Ok(tx.(items := tx.items[row.value := tx.items[row.value].(lineTotal := Some(remainder))]));
  }

  class Ledger {
    var accounts: seq<Account>
    var categories: map<nat, Category>
    var enabled: set<string>
    var catalog: set<string>
    var txs: seq<Tx>
    var nextTx: nat
    var transfers: seq<Transfer>
    var nextTransfer: nat

    function State(): Book
      reads this
    {
      Book(accounts, categories, enabled, catalog, txs, nextTx, transfers, nextTransfer)
    }

    constructor (accounts: seq<Account>, categories: map<nat, Category>, enabled: set<string>, catalog: set<string>)
      ensures State() == Book(accounts, categories, enabled, catalog, [], 0, [], 0)
    {
      this.accounts, this.categories, this.enabled, this.catalog := accounts, categories, enabled, catalog;
      txs, nextTx, transfers, nextTransfer := [], 0, [], 0;
    }

    method Create(data: TxData) returns (error: Option<Error>)
      requires data.Valid()
      modifies this`txs, this`nextTx
      ensures Outcome(BookModel.Create(old(State()), data), old(State()), error, State())
    {
      hide CheckCreate, Normalized;
      var currency := CheckCreate(State(), data);
      if currency.Err? {
        return Some(currency.error);
      }
      var normalized := NormalizeCoverage(FromData(nextTx, data, currency.value, data.items), true);
      if normalized.Err? {
        return Some(normalized.error);
      }
      if data.category.Some? && !data.hasPeriod {
        return Some(NoPeriodForDate);
      }
      var tx := normalized.value;
      if data.facetAccount.Some? {
        assert tx.facet.Some? by { NormalizedKeeps(FromData(nextTx, data, currency.value, data.items), true); }
        txs := txs + [tx, GeneratedAdjustment(State(), nextTx + 1, tx, data.facetAccount.value)];
        nextTx := nextTx + 2;
      } else {
        txs := txs + [tx];
        nextTx := nextTx + 1;
      }
      error := None;
    }

    /** Full replace: resizes the remainder, saves the row, then syncs its adjustment. */
    method Update(id: nat, data: TxData) returns (error: Option<Error>)
      requires data.Valid()
      modifies this`txs, this`nextTx
      ensures Outcome(BookModel.Update(old(State()), id, data), old(State()), error, State())
    {
      hide CheckUpdate, Normalized, FindTx, FindLinked;
      var found := FindTx(txs, id);
      if found.None? {
        return Some(TransactionNotFound);
      }
      var i := found.value;
      var currency := CheckUpdate(State(), i, data);
      if currency.Err? {
        return Some(currency.error);
      }
      var draft := FromData(id, data, currency.value, txs[i].items);
      var normalized := NormalizeCoverage(draft, true);
      if normalized.Err? {
        return Some(normalized.error);
      }
      if data.category.Some? && !data.hasPeriod {
        return Some(NoPeriodForDate);
      }
      NormalizedKeeps(draft, true);
      var tx := normalized.value;
      txs := txs[i := tx];
      SyncLinked(tx, data.facetAccount);
      error := None;
    }

    method SyncLinked(tx: Tx, account: Option<nat>)
      requires account.Some? ==> tx.facet.Some? && account.value < |accounts|
      modifies this`txs, this`nextTx
      ensures State() == SyncAdjustment(old(State()), tx, account)
    {
      var linked := FindLinked(txs, tx.id);
      if account.Some? {
        if linked.None? {
          txs := txs + [GeneratedAdjustment(State(), nextTx, tx, account.value)];
          nextTx := nextTx + 1;
        } else {
          var row := GeneratedAdjustment(State(), txs[linked.value].id, tx, account.value);
          txs := txs[linked.value := row.(items := txs[linked.value].items)];
        }
      } else if linked.Some? {
        txs := txs[..linked.value] + txs[linked.value + 1..];
      }
    }

    method Delete(id: nat) returns (error: Option<Error>)
      modifies this`txs
      ensures Outcome(BookModel.Delete(old(State()), id), old(State()), error, State())
    {
      var found := FindTx(txs, id);
      if found.None? {
        return Some(TransactionNotFound);
      }
      if txs[found.value].source.Some? {
        return Some(AutoManaged);
      }
      txs := txs[..found.value] + txs[found.value + 1..];
      var linked := FindLinked(txs, id);
      if linked.Some? {
        txs := txs[..linked.value] + txs[linked.value + 1..];
      }
      error := None;
    }

    method ReplaceItems(id: nat, items: seq<Item>, category: Option<nat>, name: Option<string>)
      returns (error: Option<Error>)
      requires ValidItems(items) && CategoriesKnown(State())
      modifies this`txs
      ensures Outcome(BookModel.ReplaceItems(old(State()), id, items, category, name), old(State()), error, State())
    {
      hide CheckItemCategories, Normalized, LabelRemainder, FindTx;
      var found := FindTx(txs, id);
      if found.None? {
        return Some(TransactionNotFound);
      }
      var i := found.value;
      assert txs[i] in txs;
      var checked := CheckItemCategories(State(), txs[i].category, items);
      if checked.Err? {
        return Some(checked.error);
      }
      NormalizedKeeps(txs[i].(items := items), true);
      var normalized := NormalizeCoverage(txs[i].(items := items), true);
      if normalized.Err? {
        return Some(normalized.error);
      }
      var labelled := LabelRemainder(State(), normalized.value, category, name);
      if labelled.Err? {
        return Some(labelled.error);
      }
      txs := txs[i := labelled.value];
      error := None;
    }

    method AutoFillFromExtraction(id: nat, parsed: seq<Item>) returns (created: bool)
      requires forall item <- parsed :: !item.remainder
      modifies this`txs
      ensures State() == AutoFill(old(State()), id, parsed)
      ensures !created ==> State() == old(State())
    {
      hide Normalized, FindTx;
      var found := FindTx(txs, id);
      if found.None? {
        return false;
      }
      var i := found.value;
      var users := UserRowsOf(txs[i].items);
      if users != [] || parsed == [] {
        return false;
      }
      var normalized := NormalizeCoverage(txs[i].(items := parsed), false);
      if normalized.Err? {
        return false;
      }
      txs := txs[i := normalized.value];
      created := true;
    }

    method ImportData(account: nat, rows: seq<ImportRow>) returns (created: nat, error: Option<Error>)
      requires forall row <- rows :: row.Valid()
      modifies this`txs, this`nextTx
      ensures Outcome(BookModel.ImportData(old(State()), account, rows), old(State()), error, State())
      ensures created == if error.None? then |rows| else 0
    {
      if account >= |accounts| {
        return 0, Some(AccountNotFound);
      }
      if accounts[account].archived {
        return 0, Some(AccountArchived);
      }
      for i := 0 to |rows|
        invariant account < |accounts|
        invariant State() == ImportAll(old(State()), account, rows[..i])
      {
        assert rows[..i + 1][..i] == rows[..i];
        var row := rows[i];
        assert row in rows;
        var category := if row.kind.Income? then None else LiveCategory(State(), row.category);
        var bare := Tx(nextTx, Some(account), accounts[account].currency, row.date, row.kind, row.amount, category,
                       None, None, []);
        ImportedIsNormalized(bare);
        var normalized := NormalizeCoverage(bare, true);
        txs := txs + [normalized.value];
        nextTx := nextTx + 1;
      }
      assert rows[..|rows|] == rows;
      created, error := |rows|, None;
    }

    method BulkSetAccount(ids: seq<nat>, account: nat) returns (error: Option<Error>)
      modifies this`txs
      ensures Outcome(BookModel.BulkSetAccount(old(State()), ids, account), old(State()), error, State())
    {
      if account >= |accounts| {
        return Some(AccountNotFound);
      }
      if accounts[account].archived {
        return Some(AccountArchived);
      }
      if exists id <- ids :: FindTx(txs, id).None? {
        return Some(BulkAccount);
      }
      if exists tx <- txs :: tx.id in ids && tx.source.Some? {
        return Some(BulkManaged);
      }
      if exists tx <- txs :: tx.id in ids && tx.currency != accounts[account].currency {
        return Some(BulkCurrency);
      }
      txs := Moved(txs, ids, account);
      error := None;
    }

    method CreateTransfer(data: TransferData) returns (error: Option<Error>)
      modifies this`transfers, this`nextTransfer
      ensures Outcome(BookModel.CreateTransfer(old(State()), data), old(State()), error, State())
    {
      var amount := CheckTransfer(State(), data, false);
      if amount.Err? {
        return Some(amount.error);
      }
      transfers := transfers + [Transfer(nextTransfer, data.source, data.target, data.sourceAmount, amount.value)];
      nextTransfer := nextTransfer + 1;
      error := None;
    }

    method UpdateTransfer(id: nat, data: TransferData) returns (error: Option<Error>)
      modifies this`transfers
      ensures Outcome(BookModel.UpdateTransfer(old(State()), id, data), old(State()), error, State())
    {
      var found := FindTransfer(transfers, id);
      if found.None? {
        return Some(TransferNotFound);
      }
      var amount := CheckTransfer(State(), data, true);
      if amount.Err? {
        return Some(amount.error);
      }
      var transfer := transfers[found.value];
      if data.source != transfer.source && accounts[data.source].archived {
        return Some(TransferAccountArchived);
      }
      if data.target != transfer.target && accounts[data.target].archived {
        return Some(TransferAccountArchived);
      }
      transfers := transfers[found.value := Transfer(id, data.source, data.target, data.sourceAmount, amount.value)];
      error := None;
    }

    method DeleteTransfer(id: nat) returns (error: Option<Error>)
      modifies this`transfers
      ensures Outcome(BookModel.DeleteTransfer(old(State()), id), old(State()), error, State())
    {
      var found := FindTransfer(transfers, id);
      if found.None? {
        return Some(TransferNotFound);
      }
      transfers := transfers[..found.value] + transfers[found.value + 1..];
      error := None;
    }

    method UpdateAccount(account: nat, opening: int, archived: bool) returns (error: Option<Error>)
      modifies this`accounts
      ensures Outcome(BookModel.UpdateAccount(old(State()), account, opening, archived), old(State()), error, State())
    {
      if account >= |accounts| {
        return Some(AccountNotFound);
      }
      accounts := accounts[account := accounts[account].(opening := opening, archived := archived)];
      error := None;
    }

    /** Computed balance per listed account, and their totals per currency. */
    method CurrentBalances(includeArchived: bool) returns (rows: seq<BalanceRow>, totals: map<string, int>)
      ensures rows == BalanceRows(State(), |accounts|, includeArchived)
      ensures totals.Keys == set row | row in rows :: row.currency
      ensures forall c <- totals :: totals[c] == TotalIn(rows, c)
    {
      hide Balance, RowTotal;
      rows, totals := [], map[];
      ghost var b := State();
      for a := 0 to |accounts|
        invariant rows == BalanceRows(b, a, includeArchived)
        invariant totals == Bucketed(CurrencyAmounts(rows))
      {
        if includeArchived || !accounts[a].archived {
          var currency, balance := accounts[a].currency, Balance(State(), a);
          var row := BalanceRow(a, currency, balance);
          assert CurrencyAmounts(rows + [row])[..|rows|] == CurrencyAmounts(rows);
          rows := rows + [row];
          totals := Add(totals, currency, balance);
        }
      }
      BucketsAreSums(CurrencyAmounts(rows));
      assert (set row | row in CurrencyAmounts(rows) :: row.0)
           == set row | row in rows :: row.currency by { PairsOfRows(rows); }
    }
  }

  datatype BalanceRow = BalanceRow(account: nat, currency: string, balance: int)

  /** The listed accounts among the first `n`, with their computed balances. */
  function BalanceRows(b: Book, n: nat, includeArchived: bool): (rows: seq<BalanceRow>)
    requires n <= |b.accounts|
    ensures includeArchived ==> |rows| == n
  {
    if n == 0 then []
    else
      BalanceRows(b, n - 1, includeArchived)
      + (if includeArchived || !b.accounts[n - 1].archived
         then [BalanceRow(n - 1, b.accounts[n - 1].currency, Balance(b, n - 1))] else [])
  }

  function CurrencyAmounts(rows: seq<BalanceRow>): (pairs: seq<(string, int)>)
    ensures |pairs| == |rows|
  {
    seq(|rows|, i requires 0 <= i < |rows| => (rows[i].currency, rows[i].balance))
  }

  function TotalIn(rows: seq<BalanceRow>, currency: string): int {
    RowTotal(CurrencyAmounts(rows), currency)
  }

  lemma PairsOfRows(rows: seq<BalanceRow>)
    ensures (set row | row in CurrencyAmounts(rows) :: row.0) == set row | row in rows :: row.currency
  {
    forall row | row in rows ensures (row.currency, row.balance) in CurrencyAmounts(rows) {
      var i :| 0 <= i < |rows| && rows[i] == row;
      assert CurrencyAmounts(rows)[i] in CurrencyAmounts(rows);
    }
    forall row | row in CurrencyAmounts(rows) ensures row.0 in set row | row in rows :: row.currency {
      var i :| 0 <= i < |rows| && CurrencyAmounts(rows)[i] == row;
      assert rows[i] in rows;
    }
  }

  /** Normalisation rewrites nothing but the items. */
  lemma NormalizedKeeps(tx: Tx, strict: bool)
    ensures Normalized(tx, strict).Ok? ==>
            Normalized(tx, strict).value == tx.(items := Normalized(tx, strict).value.items)
    ensures !strict ==> Normalized(tx, strict).Ok?
  {}

  lemma ImportedIsNormalized(bare: Tx)
    requires bare.items == [] && bare.amount > 0 && !bare.kind.Adjustment?
    ensures Normalized(bare, true) == Ok(bare.(items := [NewRemainder(bare.amount)]))
  {
    assert ItemsTotal(UserRows(bare.items)) == 0 && FirstRemainder(bare.items).None?;
    assert bare.items + [NewRemainder(bare.amount)] == [NewRemainder(bare.amount)];
  }
}
