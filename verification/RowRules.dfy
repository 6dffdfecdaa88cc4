/// What validation keeps true of every stored transaction: an amount is never read in
/// a currency other than the one it was entered in.
module RowRules {
  import opened Wrappers
  import opened BookModel
  import opened LedgerLaws
  import opened BookRuns

  /**
   A row on an account is in the account's currency, an original amount is in another
   one, amounts are never zero and are positive except on adjustments, which always
   have an account and never a category.
   */
  predicate RowRules(accounts: seq<Account>, tx: Tx) {
    && (tx.account.Some? ==> tx.account.value < |accounts| && tx.currency == accounts[tx.account.value].currency)
    && (tx.facet.Some? ==> tx.facet.value.currency != tx.currency && tx.facet.value.amount > 0)
    && tx.amount != 0
    && (if tx.kind.Adjustment? then tx.category.None? && tx.account.Some? && tx.facet.None?
        else tx.amount > 0 && tx.source.None?)
  }

  predicate Rules(b: Book) {
    forall i :: 0 <= i < |b.txs| ==> RowRules(b.accounts, b.txs[i])
  }

  lemma CreatedRow(b: Book, data: TxData, id: nat, i: nat, items: seq<Item>)
    requires data.Valid()
    ensures CheckCreate(b, data).Ok? ==> RowRules(b.accounts, FromData(id, data, CheckCreate(b, data).value, items))
    ensures i < |b.txs| && CheckUpdate(b, i, data).Ok? ==>
              RowRules(b.accounts, FromData(id, data, CheckUpdate(b, i, data).value, items))
    ensures CheckCreate(b, data).Ok? && data.facetAccount.Some? ==>
              b.accounts[data.facetAccount.value].currency == data.facet.value.currency
    ensures i < |b.txs| && CheckUpdate(b, i, data).Ok? && data.facetAccount.Some? ==>
              b.accounts[data.facetAccount.value].currency == data.facet.value.currency
  {
    hide CheckItemCategories, CheckCategory, FindLinked;
  }

  lemma NormalizedRules(accounts: seq<Account>, tx: Tx)
    requires RowRules(accounts, tx) && Normalized(tx, true).Ok?
    ensures RowRules(accounts, Normalized(tx, true).value)
    ensures var after := Normalized(tx, true).value; after == tx.(items := after.items)
  {
    NormalizedRow(tx);
  }

  lemma CreateRules(b: Book, data: TxData)
    requires Rules(b) && data.Valid() && Create(b, data).Ok?
    ensures Rules(Create(b, data).value)
  {
    hide CheckCreate, Normalized;
    var draft := FromData(b.nextTx, data, CheckCreate(b, data).value, data.items);
    CreatedRow(b, data, b.nextTx, 0, data.items);
    NormalizedRules(b.accounts, draft);
  }

  lemma SyncRules(b: Book, tx: Tx, account: Option<nat>)
    requires Rules(b) && RowRules(b.accounts, tx) && (account.Some? ==> tx.facet.Some? && account.value < |b.accounts|)
    ensures Rules(SyncAdjustment(b, tx, account))
  {
    hide FindLinked;
  }

  lemma UpdateRules(b: Book, id: nat, data: TxData)
    requires Rules(b) && data.Valid() && Update(b, id, data).Ok?
    ensures Rules(Update(b, id, data).value)
  {
    hide CheckUpdate, Normalized, FindTx, SyncAdjustment;
    var i := FindTx(b.txs, id).value;
    var draft := FromData(id, data, CheckUpdate(b, i, data).value, b.txs[i].items);
    CreatedRow(b, data, id, i, b.txs[i].items);
    NormalizedRules(b.accounts, draft);
    var tx := Normalized(draft, true).value;
    SyncRules(b.(txs := b.txs[i := tx]), tx, data.facetAccount);
  }

  lemma DeleteRules(b: Book, id: nat)
    requires Rules(b) && Delete(b, id).Ok?
    ensures Rules(Delete(b, id).value)
  {
    hide FindTx, FindLinked, RowRules;
  }

  lemma ItemRules(b: Book, after: Book)
    requires Rules(b) && after.accounts == b.accounts && |after.txs| == |b.txs|
    requires forall i :: 0 <= i < |b.txs| ==> after.txs[i] == b.txs[i].(items := after.txs[i].items)
    ensures Rules(after)
  {
    forall i | 0 <= i < |after.txs| ensures RowRules(after.accounts, after.txs[i]) {
      assert RowRules(b.accounts, b.txs[i]);
    }
  }

  lemma {:induction false} ImportRules(b: Book, account: nat, rows: seq<ImportRow>)
    requires Rules(b) && account < |b.accounts| && forall row <- rows :: row.Valid()
    ensures Rules(ImportAll(b, account, rows))
  {
    if rows != [] {
      assert rows[|rows| - 1] in rows;
      ImportRules(b, account, rows[..|rows| - 1]);
    }
  }

  lemma BulkRules(b: Book, ids: seq<nat>, account: nat)
    requires Rules(b) && BulkSetAccount(b, ids, account).Ok?
    ensures Rules(BulkSetAccount(b, ids, account).value)
  {
    hide FindTx;
    forall i | 0 <= i < |b.txs| ensures RowRules(b.accounts, Moved(b.txs, ids, account)[i]) {
      assert RowRules(b.accounts, b.txs[i]) && b.txs[i] in b.txs;
    }
  }

  lemma RemoveRules(b: Book, category: nat, heir: Option<nat>)
    requires Rules(b)
    ensures Rules(RemoveCategory(b, category, heir))
  {
    forall i | 0 <= i < |b.txs| ensures RowRules(b.accounts, RecategoriseTx(b.txs[i], category, heir)) {
      assert RowRules(b.accounts, b.txs[i]);
    }
  }

  lemma AccountRules(b: Book, account: nat, opening: int, archived: bool)
    requires Rules(b) && UpdateAccount(b, account, opening, archived).Ok?
    ensures Rules(UpdateAccount(b, account, opening, archived).value)
  {
    forall i | 0 <= i < |b.txs|
      ensures RowRules(UpdateAccount(b, account, opening, archived).value.accounts, b.txs[i])
    {
      assert RowRules(b.accounts, b.txs[i]);
    }
  }

  lemma StepRules(b: Book, op: Op)
    requires CategoriesKnown(b) && op.Valid() && Rules(b)
    ensures Rules(After(b, op))
  {
    hide Rules, CategoriesKnown, Create, Update, Delete, ReplaceItems, AutoFill, BulkSetAccount, RemoveCategory,
         ImportAll, UpdateAccount;
    if Outcome(b, op).Ok? {
      match op
      case CreateOp(data) => CreateRules(b, data);
      case UpdateOp(id, data) => UpdateRules(b, id, data);
      case DeleteOp(id) => DeleteRules(b, id);
      case ReplaceOp(id, items, category, name) =>
        ReplaceKeeps(b, id, items, category, name);
        ItemRules(b, After(b, op));
      case FillOp(id, parsed) => FillKeeps(b, id, parsed); ItemRules(b, After(b, op));
      case ImportOp(account, rows) => ImportRules(b, account, rows);
      case BulkOp(ids, account) => BulkRules(b, ids, account);
      case RemoveCategoryOp(category, heir) => RemoveRules(b, category, heir);
      case UpdateAccountOp(account, opening, archived) => AccountRules(b, account, opening, archived);
      case _ => SameRules(b, After(b, op));
    }
  }

  lemma SameRules(b: Book, after: Book)
    requires Rules(b) && after.accounts == b.accounts && after.txs == b.txs
    ensures Rules(after)
  {}

  /** Over every run, bulk moves and account edits included, rows obey their rules. */
  lemma {:induction false} RunRules(b: Book, ops: seq<Op>)
    requires CategoriesKnown(b) && Rules(b) && forall op <- ops :: op.Valid()
    ensures Rules(AfterAll(b, ops))
  {
    hide Rules, CategoriesKnown, After;
    if ops != [] {
      RunRules(b, ops[..|ops| - 1]);
      StepRules(AfterAll(b, ops[..|ops| - 1]), ops[|ops| - 1]);
    }
  }

  // ---- item categories ----

  /** Explicit item categories pass exactly when each is live and of the transaction category's budget. */
  lemma {:induction false} ItemCategoriesPass(b: Book, category: Option<nat>, items: seq<Item>)
    requires category.Some? ==> category.value in b.categories
    ensures CheckItemCategories(b, category, items).Ok? <==>
              forall i :: 0 <= i < |items| && items[i].category.Some? ==>
                && category.Some? && items[i].category.value in b.categories
                && !b.categories[items[i].category.value].archived
                && b.categories[items[i].category.value].budget == b.categories[category.value].budget
  {
    if items != [] {
      ItemCategoriesPass(b, category, items[..|items| - 1]);
    }
  }

  // ---- the linked adjustment ----

  /** A source's generated row: same date, on the named account and in its currency, signed by the source's type. */
  predicate Mirrors(row: Tx, id: nat, data: TxData)
    requires data.Valid()
  {
    && row.source == Some(id) && row.kind.Adjustment? && row.date == data.date
    && row.account == data.facetAccount && data.facet.Some? && row.currency == data.facet.value.currency
    && row.amount == (if data.kind.Expense? then -data.facet.value.amount else data.facet.value.amount)
  }

  /** After a full replace every linked row mirrors the payload, and none remains without a facet account. */
  lemma UpdateMirrors(b: Book, id: nat, data: TxData)
    requires data.Valid() && Update(b, id, data).Ok?
    requires forall i, k :: 0 <= i < k < |b.txs| && b.txs[i].source.Some? ==> b.txs[i].source != b.txs[k].source
    ensures var txs := Update(b, id, data).value.txs;
            && (data.facetAccount.Some? <==> exists k :: 0 <= k < |txs| && txs[k].source == Some(id))
            && forall k :: 0 <= k < |txs| && txs[k].source == Some(id) ==>
                 data.facetAccount.Some? && Mirrors(txs[k], id, data)
  {
    hide CheckUpdate, Normalized, FindTx, SyncAdjustment;
    var i := FindTx(b.txs, id).value;
    var draft := FromData(id, data, CheckUpdate(b, i, data).value, b.txs[i].items);
    CreatedRow(b, data, id, i, b.txs[i].items);
    UpdateUnmanaged(b, i, data);
    NormalizedRow(draft);
    var tx := Normalized(draft, true).value;
    SyncMirrors(b.(txs := b.txs[i := tx]), tx, data);
  }

  lemma SyncMirrors(b: Book, tx: Tx, data: TxData)
    requires data.Valid() && tx.facet == data.facet && tx.kind == data.kind && tx.date == data.date
    requires data.facetAccount.Some? ==>
               && data.facetAccount.value < |b.accounts|
               && b.accounts[data.facetAccount.value].currency == data.facet.value.currency
    requires forall i, k :: 0 <= i < k < |b.txs| && b.txs[i].source.Some? ==> b.txs[i].source != b.txs[k].source
    ensures var txs := SyncAdjustment(b, tx, data.facetAccount).txs;
            && (data.facetAccount.Some? <==> exists k :: 0 <= k < |txs| && txs[k].source == Some(tx.id))
            && forall k :: 0 <= k < |txs| && txs[k].source == Some(tx.id) ==>
                 data.facetAccount.Some? && Mirrors(txs[k], tx.id, data)
  {
    hide FindLinked;
    var linked, txs := FindLinked(b.txs, tx.id), SyncAdjustment(b, tx, data.facetAccount).txs;
    if linked.None? {
      assert forall k :: 0 <= k < |b.txs| ==> b.txs[k] in b.txs;
      if data.facetAccount.Some? {
        assert txs[|b.txs|].source == Some(tx.id);
      }
    } else if data.facetAccount.Some? {
      assert txs[linked.value].source == Some(tx.id);
    } else {
      assert forall k :: 0 <= k < |txs| ==> txs[k] == b.txs[if k < linked.value then k else k + 1];
    }
  }
}
