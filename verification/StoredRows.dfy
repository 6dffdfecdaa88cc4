/// What each call stores, in terms of its payload and the rows before: which payloads
/// are accepted, which row is written with which fields, and that no other row changes.
module StoredRows {
  import opened Wrappers
  import opened Money
  import opened BookModel
  import opened CoverageLaws
  import opened LedgerModel
  import opened LedgerLaws
  import opened BookRuns
  import opened RowRules

  // ---- line items ----

  /** The sum of the line totals given. */
  function LineTotals(items: seq<Item>): int {
    if items == [] then 0
    else
      var item := items[|items| - 1];
      LineTotals(items[..|items| - 1]) + (if item.lineTotal.Some? then item.lineTotal.value else 0)
  }

  /** Quantity times unit price over the rows without a line total, in 1/100000. */
  function PricedTotal(items: seq<Item>): int {
    if items == [] then 0
    else
      var item := items[|items| - 1];
      PricedTotal(items[..|items| - 1])
      + (if item.lineTotal.None? && item.unitPrice.Some? then item.quantity * item.unitPrice.value else 0)
  }

  /** A row counts its line total when it has one, and its quantity times unit price only otherwise. */
  lemma {:induction false} TotalSplits(items: seq<Item>)
    ensures RawTotal(items) == 1000 * LineTotals(items) + PricedTotal(items)
  {
    if items != [] {
      TotalSplits(items[..|items| - 1]);
    }
  }

  /** The rows of a transaction exceed its amount once rounded to cents. */
  predicate OverSums(kind: TxType, amount: int, items: seq<Item>) {
    !kind.Adjustment? && ItemsTotal(items) > amount
  }

  lemma DraftNormalised(tx: Tx)
    requires Shaped(tx.items)
    ensures Normalized(tx, true).Err? <==> OverSums(tx.kind, tx.amount, UserRows(tx.items))
    ensures Normalized(tx, true).Err? ==> Normalized(tx, true).error == ItemsOverSum
    ensures Normalized(tx, true).Ok? ==>
              var after := Normalized(tx, true).value;
              && after == tx.(items := after.items) && UserRows(after.items) == UserRows(tx.items)
              && Shaped(after.items)
              && (HasRemainder(after.items) <==> !tx.kind.Adjustment? && ItemsTotal(UserRows(tx.items)) < tx.amount)
  {
    hide ItemsTotal, UserRows, FirstRemainder;
    NormalizedRow(tx);
    if tx.kind.Adjustment? {
      RowsOnly(tx);
    } else {
      NormalizedItems(tx, true);
    }
  }

  lemma RowsOnly(tx: Tx)
    requires Shaped(tx.items) && tx.kind.Adjustment?
    ensures Normalized(tx, true) == Ok(tx.(items := UserRows(tx.items)))
    ensures UserRows(UserRows(tx.items)) == UserRows(tx.items)
    ensures Shaped(UserRows(tx.items)) && !HasRemainder(UserRows(tx.items))
  {
    assert forall i :: 0 <= i < |UserRows(tx.items)| ==> UserRows(tx.items)[i] in UserRows(tx.items);
    NoRemainderRows(UserRows(tx.items));
  }

  lemma SubmittedRows(items: seq<Item>)
    requires forall item <- items :: !item.remainder
    ensures UserRows(items) == items && Shaped(items)
  {
    assert forall i :: 0 <= i < |items| ==> items[i] in items;
    NoRemainderRows(items);
  }

  // ---- accepted payloads ----

  predicate LiveAccount(b: Book, account: nat) { account < |b.accounts| && !b.accounts[account].archived }

  predicate LiveCategoryOf(b: Book, category: nat) { category in b.categories && !b.categories[category].archived }

  /** The row is in its account's currency, or in the enabled one it names when it has no account. */
  predicate InCurrencyOf(b: Book, data: TxData, currency: string) {
    if data.account.Some? then
      && data.account.value < |b.accounts| && currency == b.accounts[data.account.value].currency
      && (data.currency.Some? ==> data.currency.value == currency)
    else data.currency == Some(currency) && currency in b.enabled
  }

  /** An explicit item category is live and of the transaction category's budget. */
  predicate ItemsFiled(b: Book, category: Option<nat>, items: seq<Item>) {
    forall i :: 0 <= i < |items| && items[i].category.Some? ==>
      && category.Some? && category.value in b.categories && LiveCategoryOf(b, items[i].category.value)
      && b.categories[items[i].category.value].budget == b.categories[category.value].budget
  }

  /** What every write asks of its payload; `items` are the rows it will have. */
  predicate WellFormed(b: Book, data: TxData, currency: string, items: seq<Item>)
    requires data.Valid()
  {
    && (data.account.Some? ==> data.account.value < |b.accounts|)
    && (if data.kind.Adjustment? then data.amount != 0 && data.category.None? && data.account.Some?
        else data.amount > 0)
    && InCurrencyOf(b, data, currency)
    && (data.category.Some? ==> LiveCategoryOf(b, data.category.value) && data.hasPeriod)
    && ItemsFiled(b, data.category, items)
    && (data.facet.Some? ==> data.facet.value.currency in b.catalog && data.facet.value.currency != currency)
    && (data.facetAccount.Some? ==>
          && data.facetAccount.value < |b.accounts|
          && b.accounts[data.facetAccount.value].currency == data.facet.value.currency)
    && !OverSums(data.kind, data.amount, UserRows(items))
  }

  lemma ItemsPass(b: Book, category: Option<nat>, items: seq<Item>)
    requires category.Some? ==> category.value in b.categories
    ensures CheckItemCategories(b, category, items).Ok? <==> ItemsFiled(b, category, items)
  {
    ItemCategoriesPass(b, category, items);
  }

  // ---- create ----

  lemma CheckedCreate(b: Book, data: TxData, currency: string)
    requires data.Valid()
    ensures CheckCreate(b, data) == Ok(currency) && TouchPeriod(data).Ok?
              && !OverSums(data.kind, data.amount, UserRows(data.items))
       <==> && WellFormed(b, data, currency, data.items)
            && (data.account.Some? ==> LiveAccount(b, data.account.value))
            && (data.facetAccount.Some? ==> LiveAccount(b, data.facetAccount.value))
  {
    hide CheckItemCategories, ItemsFiled, OverSums, UserRows;
    if data.category.Some? ==> data.category.value in b.categories {
      ItemsPass(b, data.category, data.items);
    }
  }

  /** The stored row carries the payload. */
  predicate Stores(tx: Tx, id: nat, data: TxData, currency: string) {
    && tx.id == id && tx.account == data.account && tx.currency == currency && tx.date == data.date
    && tx.kind == data.kind && tx.amount == data.amount && tx.category == data.category && tx.facet == data.facet
    && tx.source.None?
  }

  /** A create is accepted exactly for a well-formed payload on live accounts. */
  lemma CreateAccepted(b: Book, data: TxData)
    requires data.Valid()
    ensures Create(b, data).Ok? <==>
              exists currency ::
                && WellFormed(b, data, currency, data.items)
                && (data.account.Some? ==> LiveAccount(b, data.account.value))
                && (data.facetAccount.Some? ==> LiveAccount(b, data.facetAccount.value))
  {
    hide CheckCreate, Normalized, WellFormed, OverSums, UserRows, InCurrencyOf, FromData;
    SubmittedRows(data.items);
    if currency :| WellFormed(b, data, currency, data.items)
                   && (data.account.Some? ==> LiveAccount(b, data.account.value))
                   && (data.facetAccount.Some? ==> LiveAccount(b, data.facetAccount.value))
    {
      CheckedCreate(b, data, currency);
      CreateDraft(b, data, currency);
    } else if Create(b, data).Ok? {
      var currency := CheckCreate(b, data).value;
      CreateDraft(b, data, currency);
      CheckedCreate(b, data, currency);
    }
  }

  /** The row a create normalises. */
  lemma CreateDraft(b: Book, data: TxData, currency: string)
    requires data.Valid()
    ensures var draft := FromData(b.nextTx, data, currency, data.items);
            && (Normalized(draft, true).Err? <==> OverSums(data.kind, data.amount, UserRows(data.items)))
            && (Normalized(draft, true).Ok? ==>
                  Stores(Normalized(draft, true).value, b.nextTx, data, currency)
                  && UserRows(Normalized(draft, true).value.items) == data.items)
  {
    hide Normalized, OverSums, UserRows;
    SubmittedRows(data.items);
    DraftNormalised(FromData(b.nextTx, data, currency, data.items));
  }

  /**
   It appends the payload's row with the payload's items, and its adjustment when it
   names a facet account; nothing else changes.
   */
  lemma CreateStores(b: Book, data: TxData)
    requires data.Valid() && Create(b, data).Ok?
    ensures var after, n := Create(b, data).value, |b.txs|;
            && b.txs <= after.txs && |after.txs| == n + (if data.facetAccount.Some? then 2 else 1)
            && after == b.(txs := after.txs, nextTx := b.nextTx + |after.txs| - n)
            && UserRows(after.txs[n].items) == data.items
            && (exists currency :: InCurrencyOf(b, data, currency) && Stores(after.txs[n], b.nextTx, data, currency))
            && (data.facetAccount.Some? ==>
                  && after.txs[n + 1].id == b.nextTx + 1 && after.txs[n + 1].items == []
                  && Mirrors(after.txs[n + 1], b.nextTx, data))
  {
    hide CheckCreate, Normalized, WellFormed, OverSums, UserRows, InCurrencyOf, FromData;
    var currency := CheckCreate(b, data).value;
    CreateDraft(b, data, currency);
    CheckedCreate(b, data, currency);
    CurrencyOfPayload(b, data, currency, data.items);
    CreatedRow(b, data, b.nextTx, 0, data.items);
    assert Stores(Create(b, data).value.txs[|b.txs|], b.nextTx, data, currency);
  }

  /** What the submitted items leave open is one blank row of the difference. */
  lemma CreateLeavesRest(b: Book, data: TxData)
    requires data.Valid() && Create(b, data).Ok? && !data.kind.Adjustment?
    ensures var rest := data.amount - ItemsTotal(data.items);
            Create(b, data).value.txs[|b.txs|].items
              == data.items + if rest > 0 then [Item("", 1000, None, Some(rest), None, true)] else []
  {
    hide CheckCreate, RawTotal, UserRows, FirstRemainder, Quantize;
    SubmittedRows(data.items);
    assert forall k :: 0 <= k < |data.items| ==> data.items[k] in data.items;
    NoRemainderRows(data.items);
  }

  lemma CurrencyOfPayload(b: Book, data: TxData, currency: string, items: seq<Item>)
    requires data.Valid() && WellFormed(b, data, currency, items)
    ensures InCurrencyOf(b, data, currency)
  {}

  // ---- full replace ----

  /** The transaction with this id is no generated row; archived accounts may stay and not be chosen. */
  predicate Replaceable(b: Book, i: nat, data: TxData)
    requires i < |b.txs|
  {
    && b.txs[i].source.None?
    && (data.account.Some? && data.account.value < |b.accounts| && data.account != b.txs[i].account ==>
          LiveAccount(b, data.account.value))
    && (data.facetAccount.Some? && data.facetAccount.value < |b.accounts|
        && !LiveAccount(b, data.facetAccount.value) ==>
          exists k :: 0 <= k < |b.txs| && b.txs[k].source == Some(b.txs[i].id) && b.txs[k].account == data.facetAccount)
  }

  ghost predicate OneAdjustment(txs: seq<Tx>) {
    forall i, k :: 0 <= i < k < |txs| && txs[i].source.Some? ==> txs[i].source != txs[k].source
  }

  lemma LinkedAccount(b: Book, id: nat, account: Option<nat>)
    requires OneAdjustment(b.txs)
    ensures FindLinked(b.txs, id).Some? && b.txs[FindLinked(b.txs, id).value].account == account
       <==> exists k :: 0 <= k < |b.txs| && b.txs[k].source == Some(id) && b.txs[k].account == account
  {
    hide FindLinked;
    if FindLinked(b.txs, id).None? {
      assert forall k :: 0 <= k < |b.txs| ==> b.txs[k] in b.txs;
    }
  }

  lemma CheckedUpdate(b: Book, i: nat, data: TxData, currency: string)
    requires data.Valid() && i < |b.txs| && OneAdjustment(b.txs)
    ensures CheckUpdate(b, i, data) == Ok(currency) && TouchPeriod(data).Ok?
              && !OverSums(data.kind, data.amount, UserRows(b.txs[i].items))
       <==> WellFormed(b, data, currency, b.txs[i].items) && Replaceable(b, i, data)
  {
    hide CheckItemCategories, ItemsFiled, OverSums, UserRows, FindLinked, OneAdjustment;
    LinkedAccount(b, b.txs[i].id, data.facetAccount);
    if data.category.Some? ==> data.category.value in b.categories {
      ItemsPass(b, data.category, b.txs[i].items);
    }
  }

  /**
   A full replace is accepted exactly for a well-formed payload that chooses no archived
   account anew. The row carries the payload and keeps its user rows; every row of another
   transaction stays, and none appears but the transaction's own adjustment.
   */
  lemma UpdateStores(b: Book, id: nat, data: TxData)
    requires data.Valid() && OneAdjustment(b.txs) && forall i :: 0 <= i < |b.txs| ==> Shaped(b.txs[i].items)
    ensures Update(b, id, data).Ok? <==>
              && FindTx(b.txs, id).Some? && Replaceable(b, FindTx(b.txs, id).value, data)
              && exists currency :: WellFormed(b, data, currency, b.txs[FindTx(b.txs, id).value].items)
    ensures Update(b, id, data).Ok? ==>
              var after, was := Update(b, id, data).value, b.txs[FindTx(b.txs, id).value];
              && after == b.(txs := after.txs, nextTx := after.nextTx)
              && (exists tx, currency ::
                    && tx in after.txs && InCurrencyOf(b, data, currency) && Stores(tx, id, data, currency)
                    && UserRows(tx.items) == UserRows(was.items))
              && (forall row <- b.txs :: row != was && row.source != Some(id) ==> row in after.txs)
              && (forall row <- after.txs :: row.source != Some(id) && row.id != id ==> row in b.txs)
  {
    hide CheckUpdate, Normalized, WellFormed, OverSums, UserRows, InCurrencyOf, FindTx, Replaceable, OneAdjustment,
         SyncAdjustment;
    if FindTx(b.txs, id).Some? {
      var i := FindTx(b.txs, id).value;
      if currency :| WellFormed(b, data, currency, b.txs[i].items) && Replaceable(b, i, data) {
        CheckedUpdate(b, i, data, currency);
        DraftNormalised(FromData(id, data, currency, b.txs[i].items));
      }
      if Update(b, id, data).Ok? {
        var currency := CheckUpdate(b, i, data).value;
        var draft := FromData(id, data, currency, b.txs[i].items);
        DraftNormalised(draft);
        CheckedUpdate(b, i, data, currency);
        CurrencyOfPayload(b, data, currency, b.txs[i].items);
        UpdateUnmanaged(b, i, data);
        var tx := Normalized(draft, true).value;
        assert Stores(tx, id, data, currency);
        SyncedRows(b, i, tx, data.facetAccount);
      }
    }
  }

  /** Saving a row and syncing its adjustment. */
  lemma SyncedRows(b: Book, i: nat, tx: Tx, account: Option<nat>)
    requires i < |b.txs| && tx.id == b.txs[i].id && tx.source.None? && b.txs[i].source.None?
    requires account.Some? ==> tx.facet.Some? && account.value < |b.accounts|
    ensures var mid := b.(txs := b.txs[i := tx]);
            var after := SyncAdjustment(mid, tx, account);
            && after == b.(txs := after.txs, nextTx := after.nextTx) && tx in after.txs
            && (forall row <- b.txs :: row != b.txs[i] && row.source != Some(tx.id) ==> row in after.txs)
            && (forall row <- after.txs :: row.source != Some(tx.id) && row.id != tx.id ==> row in b.txs)
  {
    hide FindLinked;
    var mid := b.(txs := b.txs[i := tx]);
    var after := SyncAdjustment(mid, tx, account);
    forall k | 0 <= k < |mid.txs| && mid.txs[k].source != Some(tx.id) ensures mid.txs[k] in after.txs {
      SyncKeeps(mid, tx, account, k);
    }
    assert mid.txs[i] == tx;
    forall row | row in b.txs && row != b.txs[i] && row.source != Some(tx.id) ensures row in after.txs {
      var k :| 0 <= k < |b.txs| && b.txs[k] == row;
      assert mid.txs[k] == row;
    }
  }

  lemma SyncKeeps(b: Book, tx: Tx, account: Option<nat>, k: nat)
    requires k < |b.txs| && b.txs[k].source != Some(tx.id)
    requires account.Some? ==> tx.facet.Some? && account.value < |b.accounts|
    ensures b.txs[k] in SyncAdjustment(b, tx, account).txs
  {
    hide FindLinked;
    var linked, after := FindLinked(b.txs, tx.id), SyncAdjustment(b, tx, account);
    if linked.None? || account.Some? {
      assert after.txs[k] == b.txs[k];
    } else {
      assert after.txs[if k < linked.value then k else k - 1] == b.txs[k];
    }
  }

  // ---- what a refusal says ----

  /** A category that is missing or archived. */
  predicate NotLive(b: Book, category: Option<nat>) { category.Some? && !LiveCategoryOf(b, category.value) }

  predicate OtherBudget(b: Book, category: Option<nat>, own: Option<nat>) {
    && category.Some? && own.Some? && category.value in b.categories && own.value in b.categories
    && b.categories[own.value].budget != b.categories[category.value].budget
  }

  /** The fault that an error reports of a set of rows filed under a category. */
  predicate ItemFault(b: Book, category: Option<nat>, items: seq<Item>, e: Error) {
    match e
    case ItemCategoryWithoutTransaction => category.None? && exists item <- items :: item.category.Some?
    case CategoryNotFound => exists item <- items :: NotLive(b, item.category)
    case ItemCategoryBudget => exists item <- items :: OtherBudget(b, category, item.category)
    case _ => false
  }

  /** The fault that an error reports of a transaction's payload. */
  predicate Fault(b: Book, data: TxData, items: seq<Item>, e: Error) {
    var own, code := data.account, data.currency;
    match e
    case AccountNotFound => own.Some? && own.value >= |b.accounts|
    case AccountArchived => own.Some? && own.value < |b.accounts| && b.accounts[own.value].archived
    case AmountInvalid => if data.kind.Adjustment? then data.amount == 0 else data.amount <= 0
    case AdjustmentCategory => data.kind.Adjustment? && data.category.Some?
    case AdjustmentAccount => data.kind.Adjustment? && own.None?
    case CurrencyMismatch =>
      own.Some? && own.value < |b.accounts| && code.Some? && code.value != b.accounts[own.value].currency
    case CurrencyRequired => own.None? && code.None?
    case CurrencyNotEnabled => own.None? && code.Some? && code.value !in b.enabled
    case CategoryNotFound => NotLive(b, data.category) || ItemFault(b, data.category, items, e)
    case OriginalCurrency =>
      && data.facet.Some?
      && (data.facet.value.currency !in b.catalog || InCurrencyOf(b, data, data.facet.value.currency))
    case OriginalAccount => data.facetAccount.Some? && !LiveAccount(b, data.facetAccount.value)
    case OriginalAccountCurrency =>
      && data.facetAccount.Some? && data.facet.Some? && data.facetAccount.value < |b.accounts|
      && b.accounts[data.facetAccount.value].currency != data.facet.value.currency
    case ItemsOverSum => OverSums(data.kind, data.amount, UserRows(items))
    case NoPeriodForDate => data.category.Some? && !data.hasPeriod
    case _ => ItemFault(b, data.category, items, e)
  }

  lemma {:induction false} ItemErrorsAreFaults(b: Book, category: Option<nat>, items: seq<Item>)
    requires category.Some? ==> category.value in b.categories
    ensures CheckItemCategories(b, category, items).Err? ==>
              ItemFault(b, category, items, CheckItemCategories(b, category, items).error)
  {
    if items != [] {
      ItemErrorsAreFaults(b, category, items[..|items| - 1]);
      assert items[|items| - 1] in items && forall item <- items[..|items| - 1] :: item in items;
    }
  }

  lemma CreateErrorIsFault(b: Book, data: TxData)
    requires data.Valid() && CheckCreate(b, data).Err?
    ensures Fault(b, data, data.items, CheckCreate(b, data).error)
  {
    hide CheckItemCategories, ItemFault, OverSums, UserRows;
    if data.category.Some? ==> data.category.value in b.categories {
      ItemErrorsAreFaults(b, data.category, data.items);
    }
    ItemFaultKinds(b, data);
  }

  lemma UpdateErrorIsFault(b: Book, i: nat, data: TxData)
    requires data.Valid() && i < |b.txs| && b.txs[i].source.None? && CheckUpdate(b, i, data).Err?
    ensures Fault(b, data, b.txs[i].items, CheckUpdate(b, i, data).error)
  {
    hide CheckItemCategories, ItemFault, OverSums, UserRows, FindLinked;
    if data.category.Some? ==> data.category.value in b.categories {
      ItemErrorsAreFaults(b, data.category, b.txs[i].items);
    }
    ItemFaultKinds(b, data);
  }

  lemma ItemFaultKinds(b: Book, data: TxData)
    ensures forall items, e :: ItemFault(b, data.category, items, e) ==>
              e.CategoryNotFound? || e.ItemCategoryWithoutTransaction? || e.ItemCategoryBudget?
  {}

  /** Every refusal of a create or a full replace names a fault that the payload has. */
  lemma WriteErrorsAreFaults(b: Book, id: nat, data: TxData)
    requires data.Valid() && forall i :: 0 <= i < |b.txs| ==> Shaped(b.txs[i].items)
    ensures Create(b, data).Err? ==> Fault(b, data, data.items, Create(b, data).error)
    ensures Update(b, id, data).Err? ==>
              var found, e := FindTx(b.txs, id), Update(b, id, data).error;
              if found.None? then e == TransactionNotFound
              else if b.txs[found.value].source.Some? then e == AutoManaged
              else Fault(b, data, b.txs[found.value].items, e)
  {
    hide CheckCreate, CheckUpdate, Normalized, ItemFault, OverSums, UserRows, FindTx;
    SubmittedRows(data.items);
    if CheckCreate(b, data).Err? {
      CreateErrorIsFault(b, data);
    } else {
      DraftNormalised(FromData(b.nextTx, data, CheckCreate(b, data).value, data.items));
    }
    if FindTx(b.txs, id).Some? {
      var i := FindTx(b.txs, id).value;
      if b.txs[i].source.None? {
        if CheckUpdate(b, i, data).Err? {
          UpdateErrorIsFault(b, i, data);
        } else {
          DraftNormalised(FromData(id, data, CheckUpdate(b, i, data).value, b.txs[i].items));
        }
      } else {
        ManagedRefused(b, i, data);
      }
    }
  }

  lemma ManagedRefused(b: Book, i: nat, data: TxData)
    requires data.Valid() && i < |b.txs| && b.txs[i].source.Some?
    ensures CheckUpdate(b, i, data) == Err(AutoManaged)
  {}

  /** The fault that an error reports of a transfer's payload. */
  predicate TransferFault(b: Book, data: TransferData, e: Error) {
    var known := data.source < |b.accounts| && data.target < |b.accounts|;
    match e
    case TransferAccountsEqual => data.source == data.target
    case AccountNotFound => !known
    case TransferAccountArchived => known && (b.accounts[data.source].archived || b.accounts[data.target].archived)
    case TransferAmountsMismatch =>
      && known && b.accounts[data.source].currency == b.accounts[data.target].currency
      && data.targetAmount.Some? && data.targetAmount.value != data.sourceAmount
    case TransferToAmountRequired =>
      known && b.accounts[data.source].currency != b.accounts[data.target].currency && data.targetAmount.None?
    case _ => false
  }

  /** Every refusal of a transfer call names what is wrong. */
  lemma TransferErrorsAreFaults(b: Book, id: nat, data: TransferData)
    ensures CreateTransfer(b, data).Err? ==> TransferFault(b, data, CreateTransfer(b, data).error)
    ensures UpdateTransfer(b, id, data).Err? ==>
              var e := UpdateTransfer(b, id, data).error;
              if FindTransfer(b.transfers, id).None? then e == TransferNotFound else TransferFault(b, data, e)
    ensures DeleteTransfer(b, id).Err? ==>
              DeleteTransfer(b, id).error == TransferNotFound && FindTransfer(b.transfers, id).None?
  {
    hide FindTransfer;
  }

  /** So does every refusal of a deletion or a bulk move. */
  lemma BulkErrorsAreFaults(b: Book, id: nat, ids: seq<nat>, account: nat)
    ensures Delete(b, id).Err? ==>
              Delete(b, id).error == if FindTx(b.txs, id).None? then TransactionNotFound else AutoManaged
    ensures BulkSetAccount(b, ids, account).Err? ==>
              match BulkSetAccount(b, ids, account).error
              case AccountNotFound => account >= |b.accounts|
              case AccountArchived => account < |b.accounts| && b.accounts[account].archived
              case BulkAccount => exists id <- ids :: forall tx <- b.txs :: tx.id != id
              case BulkManaged => exists tx <- b.txs :: tx.id in ids && tx.source.Some?
              case BulkCurrency =>
                && account < |b.accounts|
                && exists tx <- b.txs :: tx.id in ids && tx.currency != b.accounts[account].currency
              case _ => false
  {
    hide FindTx;
  }

  // ---- items ----

  /** The label of a remainder row: its category must be live, and of the transaction's budget. */
  predicate LabelFits(b: Book, tx: Tx, category: Option<nat>) {
    category.Some? ==>
      && tx.category.Some? && tx.category.value in b.categories && LiveCategoryOf(b, category.value)
      && b.categories[category.value].budget == b.categories[tx.category.value].budget
  }

  predicate LabelFault(b: Book, tx: Tx, category: Option<nat>, e: Error) {
    match e
    case ItemCategoryWithoutTransaction => category.Some? && tx.category.None?
    case CategoryNotFound => NotLive(b, category)
    case ItemCategoryBudget => OtherBudget(b, tx.category, category)
    case _ => false
  }

  lemma Labelled(b: Book, tx: Tx, category: Option<nat>, name: Option<string>)
    requires Shaped(tx.items) && (tx.category.Some? ==> tx.category.value in b.categories)
    ensures LabelRemainder(b, tx, category, name).Ok? <==> HasRemainder(tx.items) ==> LabelFits(b, tx, category)
    ensures LabelRemainder(b, tx, category, name).Err? ==>
              LabelFault(b, tx, category, LabelRemainder(b, tx, category, name).error)
    ensures LabelRemainder(b, tx, category, name).Ok? ==>
              var after := LabelRemainder(b, tx, category, name).value;
              after == tx.(items := after.items) && UserRows(after.items) == UserRows(tx.items)
  {
    LabelKeeps(b, tx, category, name);
    ShapedRows(tx.items);
    if LabelRemainder(b, tx, category, name).Ok? && HasRemainder(tx.items) {
      var n, after := |tx.items|, LabelRemainder(b, tx, category, name).value;
      assert after.items[..n - 1] == tx.items[..n - 1];
      ShapedRows(after.items);
    }
  }

  /**
   Replacing items stores exactly the rows sent, and no other row changes. It is accepted
   exactly when the rows are filed correctly and do not exceed the amount, and the label
   fits if a remainder is left; it is the rows sent that over-sum.
   */
  lemma ReplaceStores(b: Book, id: nat, items: seq<Item>, category: Option<nat>, name: Option<string>)
    requires ValidItems(items) && CategoriesKnown(b) && FindTx(b.txs, id).Some?
    ensures var tx, result := b.txs[FindTx(b.txs, id).value], ReplaceItems(b, id, items, category, name);
            && (result == Err(ItemsOverSum) <==>
                  ItemsFiled(b, tx.category, items) && OverSums(tx.kind, tx.amount, items))
            && (result.Ok? <==>
                  && ItemsFiled(b, tx.category, items) && !OverSums(tx.kind, tx.amount, items)
                  && (!tx.kind.Adjustment? && ItemsTotal(items) < tx.amount ==> LabelFits(b, tx, category)))
            && (result.Err? ==>
                  || result.error == ItemsOverSum || ItemFault(b, tx.category, items, result.error)
                  || LabelFault(b, tx, category, result.error))
    ensures ReplaceItems(b, id, items, category, name).Ok? ==>
              var after, i := ReplaceItems(b, id, items, category, name).value, FindTx(b.txs, id).value;
              && |after.txs| == |b.txs| && after == b.(txs := after.txs)
              && (forall k :: 0 <= k < |b.txs| && k != i ==> after.txs[k] == b.txs[k])
              && after.txs[i] == b.txs[i].(items := after.txs[i].items) && UserRows(after.txs[i].items) == items
  {
    hide CheckItemCategories, Normalized, LabelRemainder, FindTx, UserRows, ItemsTotal, ItemsFiled, LabelFits;
    var i := FindTx(b.txs, id).value;
    assert b.txs[i] in b.txs;
    var draft := b.txs[i].(items := items);
    ItemsPass(b, b.txs[i].category, items);
    ItemErrorsAreFaults(b, b.txs[i].category, items);
    SubmittedRows(items);
    DraftNormalised(draft);
    if Normalized(draft, true).Ok? {
      Labelled(b, Normalized(draft, true).value, category, name);
      LabelOf(b, b.txs[i], Normalized(draft, true).value, category);
    }
  }

  lemma LabelOf(b: Book, tx: Tx, other: Tx, category: Option<nat>)
    requires tx.category == other.category
    ensures LabelFits(b, tx, category) <==> LabelFits(b, other, category)
    ensures forall e :: LabelFault(b, tx, category, e) <==> LabelFault(b, other, category, e)
  {}

  /** A receipt fills a transaction without user rows with exactly its parsed rows, and touches nothing else. */
  lemma FillStores(b: Book, id: nat, parsed: seq<Item>)
    requires forall item <- parsed :: !item.remainder
    ensures var after, found := AutoFill(b, id, parsed), FindTx(b.txs, id);
            if found.Some? && UserRows(b.txs[found.value].items) == [] && parsed != [] then
              && |after.txs| == |b.txs| && after == b.(txs := after.txs)
              && (forall k :: 0 <= k < |b.txs| && k != found.value ==> after.txs[k] == b.txs[k])
              && after.txs[found.value] == b.txs[found.value].(items := after.txs[found.value].items)
              && UserRows(after.txs[found.value].items) == parsed
            else after == b
  {
    hide FindTx, UserRows, Normalized, FirstRemainder, RawTotal;
    var found := FindTx(b.txs, id);
    if found.Some? {
      var draft := b.txs[found.value].(items := parsed);
      SubmittedRows(parsed);
      FillNormalised(draft);
    }
  }

  lemma FillNormalised(tx: Tx)
    requires Shaped(tx.items)
    ensures Normalized(tx, false).Ok?
    ensures var after := Normalized(tx, false).value;
            after == tx.(items := after.items) && UserRows(after.items) == UserRows(tx.items)
  {
    hide UserRows, FirstRemainder, RawTotal, Quantize;
    if tx.kind.Adjustment? {
      RowsOnly(tx);
    } else {
      NormalizedItems(tx, false);
    }
  }

  // ---- deletions, imports and bulk moves ----

  /** A deletion is refused for a generated row; otherwise the row and its adjustment go and every other row stays. */
  lemma DeleteStores(b: Book, id: nat)
    requires OneAdjustment(b.txs) && forall i, k :: 0 <= i < k < |b.txs| ==> b.txs[i].id != b.txs[k].id
    ensures Delete(b, id).Ok? <==> FindTx(b.txs, id).Some? && b.txs[FindTx(b.txs, id).value].source.None?
    ensures Delete(b, id).Ok? ==>
              var after := Delete(b, id).value;
              && after == b.(txs := after.txs)
              && forall row :: row in after.txs <==> row in b.txs && row.id != id && row.source != Some(id)
  {
    hide FindTx, FindLinked;
    if Delete(b, id).Ok? {
      var i := FindTx(b.txs, id).value;
      var rest := DropRow(b.txs, i);
      DroppedRows(b.txs, i);
      var linked := FindLinked(rest, id);
      if linked.Some? {
        DroppedRows(rest, linked.value);
      }
    }
  }

  lemma DroppedRows(txs: seq<Tx>, i: nat)
    requires i < |txs| && OneAdjustment(txs) && forall i, k :: 0 <= i < k < |txs| ==> txs[i].id != txs[k].id
    ensures var rest := DropRow(txs, i);
            && OneAdjustment(rest) && (forall i, k :: 0 <= i < k < |rest| ==> rest[i].id != rest[k].id)
            && (forall row <- txs :: row.id != txs[i].id ==> row in rest)
            && (forall row <- rest :: row in txs && row.id != txs[i].id)
            && (txs[i].source.Some? ==> forall row <- rest :: row.source != txs[i].source)
  {
    var rest := DropRow(txs, i);
    assert forall k :: 0 <= k < |rest| ==> rest[k] == txs[if k < i then k else k + 1];
    forall row | row in txs && row.id != txs[i].id ensures row in rest {
      var k :| 0 <= k < |txs| && txs[k] == row;
      assert rest[if k < i then k else k - 1] == row;
    }
  }

  /** An imported row as the request asked for it: incomes have no category, and others only a live one. */
  predicate ImportedAs(b: Book, tx: Tx, id: nat, account: nat, row: ImportRow)
    requires account < |b.accounts|
  {
    && tx.id == id && tx.account == Some(account) && tx.currency == b.accounts[account].currency
    && tx.date == row.date && tx.kind == row.kind && tx.amount == row.amount
    && tx.category == (if row.category.Some? && !row.kind.Income? && LiveCategoryOf(b, row.category.value)
                       then row.category else None)
    && tx.facet.None? && tx.source.None? && UserRows(tx.items) == []
  }

  lemma {:induction false} ImportStores(b: Book, account: nat, rows: seq<ImportRow>)
    requires account < |b.accounts|
    ensures var after := ImportAll(b, account, rows);
            && after == b.(txs := after.txs, nextTx := b.nextTx + |rows|)
            && b.txs <= after.txs && |after.txs| == |b.txs| + |rows|
            && forall k :: 0 <= k < |rows| ==> ImportedAs(b, after.txs[|b.txs| + k], b.nextTx + k, account, rows[k])
  {
    if rows != [] {
      hide ImportedAs, Imported;
      var n := |rows| - 1;
      ImportStores(b, account, rows[..n]);
      var before, after := ImportAll(b, account, rows[..n]), ImportAll(b, account, rows);
      ImportedRow(b, before, account, rows[n]);
      forall k | 0 <= k < |rows| ensures ImportedAs(b, after.txs[|b.txs| + k], b.nextTx + k, account, rows[k]) {
        if k < n {
          assert after.txs[|b.txs| + k] == before.txs[|b.txs| + k] && rows[k] == rows[..n][k];
        }
      }
    }
  }

  lemma ImportedRow(b: Book, before: Book, account: nat, row: ImportRow)
    requires account < |b.accounts| && before.accounts == b.accounts && before.categories == b.categories
    ensures ImportedAs(b, Imported(before, account, row), before.nextTx, account, row)
  {
    OnlyRemainder(row.amount);
  }

  lemma OnlyRemainder(amount: int)
    ensures UserRows([NewRemainder(amount)]) == []
  {
    assert [NewRemainder(amount)][..0] == [];
  }

  /** A bulk move needs a live account and user rows of its currency, moves all or none, and changes nothing else. */
  lemma BulkStores(b: Book, ids: seq<nat>, account: nat)
    ensures BulkSetAccount(b, ids, account).Ok? <==>
              && LiveAccount(b, account)
              && (forall id <- ids :: exists tx <- b.txs :: tx.id == id)
              && (forall tx <- b.txs :: tx.id in ids ==> tx.source.None? && tx.currency == b.accounts[account].currency)
    ensures BulkSetAccount(b, ids, account).Ok? ==>
              var after := BulkSetAccount(b, ids, account).value;
              && after == b.(txs := after.txs) && |after.txs| == |b.txs|
              && forall i :: 0 <= i < |b.txs| ==>
                   && after.txs[i] == b.txs[i].(account := after.txs[i].account)
                   && after.txs[i].account == if b.txs[i].id in ids then Some(account) else b.txs[i].account
  {
    hide FindTx;
    forall id | id in ids
      ensures FindTx(b.txs, id).Some? <==> exists tx <- b.txs :: tx.id == id
    {
      if FindTx(b.txs, id).Some? {
        assert b.txs[FindTx(b.txs, id).value] in b.txs;
      }
    }
  }

  /** Removing a category renames it in transactions and items, and changes nothing else of them. */
  lemma CategoryRemoved(b: Book, category: nat, heir: Option<nat>)
    ensures var after := RemoveCategory(b, category, heir);
            && after == b.(categories := b.categories - {category}, txs := after.txs) && |after.txs| == |b.txs|
            && forall i :: 0 <= i < |b.txs| ==>
                 var was, tx := b.txs[i], after.txs[i];
                 && tx == was.(category := tx.category, items := tx.items) && |tx.items| == |was.items|
                 && tx.category == (if was.category == Some(category) then heir else was.category)
                 && forall k :: 0 <= k < |was.items| ==>
                      && tx.items[k] == was.items[k].(category := tx.items[k].category)
                      && tx.items[k].category
                         == if was.items[k].category == Some(category) then heir else was.items[k].category
  {}

  // ---- transfers and accounts ----

  /** Two different accounts; a cross-currency transfer names both amounts, a same-currency one a single amount. */
  predicate Transferable(b: Book, data: TransferData) {
    && data.source != data.target && data.source < |b.accounts| && data.target < |b.accounts|
    && (if b.accounts[data.source].currency == b.accounts[data.target].currency
        then data.targetAmount.None? || data.targetAmount == Some(data.sourceAmount)
        else data.targetAmount.Some?)
  }

  /** What the target account receives. */
  function Credited(b: Book, data: TransferData): int
    requires Transferable(b, data)
  {
    if b.accounts[data.source].currency == b.accounts[data.target].currency then data.sourceAmount
    else data.targetAmount.value
  }

  /** A new transfer is accepted exactly between two live accounts, and stores the amounts of its payload. */
  lemma TransferCreated(b: Book, data: TransferData)
    ensures CreateTransfer(b, data).Ok? <==>
              Transferable(b, data) && LiveAccount(b, data.source) && LiveAccount(b, data.target)
    ensures CreateTransfer(b, data).Ok? ==>
              CreateTransfer(b, data).value
                == b.(transfers := b.transfers + [Transfer(b.nextTransfer, data.source, data.target, data.sourceAmount,
                                                           Credited(b, data))],
                      nextTransfer := b.nextTransfer + 1)
  {}

  /** An edit rewrites one transfer; an account it did not already use must be live. */
  lemma TransferEdited(b: Book, id: nat, data: TransferData)
    ensures var found := FindTransfer(b.transfers, id);
            UpdateTransfer(b, id, data).Ok? <==>
              && found.Some? && Transferable(b, data)
              && (data.source != b.transfers[found.value].source ==> LiveAccount(b, data.source))
              && (data.target != b.transfers[found.value].target ==> LiveAccount(b, data.target))
    ensures UpdateTransfer(b, id, data).Ok? ==>
              var after, i := UpdateTransfer(b, id, data).value, FindTransfer(b.transfers, id).value;
              && after == b.(transfers := after.transfers) && |after.transfers| == |b.transfers|
              && (forall k :: 0 <= k < |b.transfers| && k != i ==> after.transfers[k] == b.transfers[k])
              && after.transfers[i] == Transfer(id, data.source, data.target, data.sourceAmount, Credited(b, data))
  {
    hide FindTransfer;
  }

  /** A new transfer takes the source amount off its source, credits the payload's amount to its target, and no more. */
  lemma TransferMovesBalances(b: Book, data: TransferData, a: nat)
    requires CreateTransfer(b, data).Ok? && a < |b.accounts|
    ensures Transferable(b, data)
    ensures Balance(CreateTransfer(b, data).value, a) - Balance(b, a)
         == if a == data.source then -data.sourceAmount else if a == data.target then Credited(b, data) else 0
  {
    hide TransactionsDelta, TransfersDelta;
    TransferCreated(b, data);
    var t := Transfer(b.nextTransfer, data.source, data.target, data.sourceAmount, Credited(b, data));
    LegsAppend(b.transfers, t, a);
  }

  /** An account edit sets the opening balance and the archive flag of one account and keeps its currency. */
  lemma AccountEdited(b: Book, account: nat, opening: int, archived: bool)
    ensures UpdateAccount(b, account, opening, archived).Ok? <==> account < |b.accounts|
    ensures UpdateAccount(b, account, opening, archived).Ok? ==>
              var after := UpdateAccount(b, account, opening, archived).value;
              && after == b.(accounts := after.accounts) && |after.accounts| == |b.accounts|
              && (forall a :: 0 <= a < |b.accounts| && a != account ==> after.accounts[a] == b.accounts[a])
              && after.accounts[account] == Account(b.accounts[account].currency, opening, archived)
  {}
}
