/// Whole runs of book calls: coverage, the ledger refinement and the foreign keys
/// survive every sequence of calls, failed ones included.
module BookRuns {
  import opened Wrappers
  import opened Money
  import opened BookModel
  import opened CoverageLaws
  import opened LedgerModel
  import opened LedgerLaws

  datatype Op =
    | CreateOp(data: TxData)
    | UpdateOp(id: nat, data: TxData)
    | DeleteOp(id: nat)
    | ReplaceOp(id: nat, items: seq<Item>, restCategory: Option<nat>, restName: Option<string>)
    | FillOp(id: nat, parsed: seq<Item>)
    | ImportOp(account: nat, rows: seq<ImportRow>)
    | BulkOp(ids: seq<nat>, account: nat)
    // a deletion, or a merge into the heir
    | RemoveCategoryOp(category: nat, heir: Option<nat>)
    // created, renamed, archived or unarchived
    | SaveCategoryOp(category: nat, saved: Category)
    | CreateTransferOp(move: TransferData)
    | UpdateTransferOp(id: nat, move: TransferData)
    | DeleteTransferOp(id: nat)
    | UpdateAccountOp(account: nat, opening: int, archived: bool)
  {
    /** What the request schemas guarantee. */
    predicate Valid() {
      match this
      case CreateOp(data) => data.Valid()
      case UpdateOp(_, data) => data.Valid()
      case ReplaceOp(_, items, _, _) => ValidItems(items)
      case FillOp(_, parsed) => forall item <- parsed :: !item.remainder
      case ImportOp(_, rows) => forall row <- rows :: row.Valid()
      case CreateTransferOp(move) => move.Valid()
      case UpdateTransferOp(_, move) => move.Valid()
      case _ => true
    }
  }

  function Outcome(b: Book, op: Op): Result<Book, Error>
    requires CategoriesKnown(b) && op.Valid()
  {
    match op
    case CreateOp(data) => Create(b, data)
    case UpdateOp(id, data) => Update(b, id, data)
    case DeleteOp(id) => Delete(b, id)
    case ReplaceOp(id, items, category, name) => ReplaceItems(b, id, items, category, name)
    case FillOp(id, parsed) => Ok(AutoFill(b, id, parsed))
    case ImportOp(account, rows) => ImportData(b, account, rows)
    case BulkOp(ids, account) => BulkSetAccount(b, ids, account)
    case RemoveCategoryOp(category, heir) =>
      if heir.Some? && (heir.value !in b.categories || heir.value == category) then Err(CategoryNotFound)
      else Ok(RemoveCategory(b, category, heir))
    case SaveCategoryOp(category, saved) => Ok(b.(categories := b.categories[category := saved]))
    case CreateTransferOp(move) => CreateTransfer(b, move)
    case UpdateTransferOp(id, move) => UpdateTransfer(b, id, move)
    case DeleteTransferOp(id) => DeleteTransfer(b, id)
    case UpdateAccountOp(account, opening, archived) => UpdateAccount(b, account, opening, archived)
  }

  /** A failed call is undone. */
  function After(b: Book, op: Op): (after: Book)
    requires CategoriesKnown(b) && op.Valid()
    ensures CategoriesKnown(after)
  {
    CategoriesKept(b, op);
    if Outcome(b, op).Ok? then Outcome(b, op).value else b
  }

  function AfterAll(b: Book, ops: seq<Op>): (after: Book)
    requires CategoriesKnown(b) && forall op <- ops :: op.Valid()
    ensures CategoriesKnown(after)
  {
    if ops == [] then b else After(AfterAll(b, ops[..|ops| - 1]), ops[|ops| - 1])
  }

  // ---- foreign keys ----

  predicate Known(txs: seq<Tx>, categories: map<nat, Category>) {
    forall i :: 0 <= i < |txs| ==> txs[i].category.Some? ==> txs[i].category.value in categories
  }

  lemma KnownRows(b: Book)
    ensures CategoriesKnown(b) <==> Known(b.txs, b.categories)
  {
    assert forall i :: 0 <= i < |b.txs| ==> b.txs[i] in b.txs;
  }

  /** No call leaves a transaction with a category that is not there. */
  lemma CategoriesKept(b: Book, op: Op)
    requires CategoriesKnown(b) && op.Valid()
    ensures Outcome(b, op).Ok? ==> CategoriesKnown(Outcome(b, op).value)
  {
    hide Create, Update, Delete, ReplaceItems, AutoFill, ImportAll, BulkSetAccount, RemoveCategory, CategoriesKnown,
         CheckTransfer, FindTransfer;
    KnownRows(b);
    if Outcome(b, op).Ok? {
      KnownRows(Outcome(b, op).value);
      match op
      case CreateOp(data) => CreateKnown(b, data);
      case UpdateOp(id, data) => UpdateKnown(b, id, data);
      case DeleteOp(id) => DeleteKnown(b, id);
      case ReplaceOp(id, items, category, name) => ReplaceKeeps(b, id, items, category, name);
      case FillOp(id, parsed) => FillKeeps(b, id, parsed);
      case ImportOp(account, rows) => ImportKnown(b, account, rows);
      case BulkOp(ids, account) => BulkKnown(b, ids, account);
      case RemoveCategoryOp(category, heir) => RemoveKnown(b, category, heir);
      case _ =>
    }
  }

  lemma CreateKnown(b: Book, data: TxData)
    requires Known(b.txs, b.categories) && data.Valid() && Create(b, data).Ok?
    ensures var after := Create(b, data).value; Known(after.txs, after.categories)
  {
    hide CheckCreate, Normalized;
    var currency := CheckCreate(b, data).value;
    NormalizedRow(FromData(b.nextTx, data, currency, data.items));
    CheckedCategory(b, data, 0);
  }

  lemma UpdateKnown(b: Book, id: nat, data: TxData)
    requires Known(b.txs, b.categories) && data.Valid() && Update(b, id, data).Ok?
    ensures var after := Update(b, id, data).value; Known(after.txs, after.categories)
  {
    hide CheckUpdate, Normalized, FindTx, SyncAdjustment;
    var i := FindTx(b.txs, id).value;
    var draft := FromData(id, data, CheckUpdate(b, i, data).value, b.txs[i].items);
    NormalizedRow(draft);
    CheckedCategory(b, data, i);
    var tx := Normalized(draft, true).value;
    KnownSync(b.(txs := b.txs[i := tx]), tx, data.facetAccount);
  }

  lemma DeleteKnown(b: Book, id: nat)
    requires Known(b.txs, b.categories) && Delete(b, id).Ok?
    ensures var after := Delete(b, id).value; Known(after.txs, after.categories)
  {
    hide FindTx, FindLinked;
  }

  lemma BulkKnown(b: Book, ids: seq<nat>, account: nat)
    requires Known(b.txs, b.categories) && BulkSetAccount(b, ids, account).Ok?
    ensures var after := BulkSetAccount(b, ids, account).value; Known(after.txs, after.categories)
  {
    hide FindTx;
  }

  lemma RemoveKnown(b: Book, category: nat, heir: Option<nat>)
    requires Known(b.txs, b.categories) && (heir.Some? ==> heir.value in b.categories && heir.value != category)
    ensures var after := RemoveCategory(b, category, heir); Known(after.txs, after.categories)
  {}

  lemma CheckedCategory(b: Book, data: TxData, i: nat)
    requires data.Valid()
    ensures CheckCreate(b, data).Ok? ==> data.category.Some? ==> data.category.value in b.categories
    ensures i < |b.txs| && CheckUpdate(b, i, data).Ok? ==> data.category.Some? ==> data.category.value in b.categories
  {}

  lemma KnownSync(b: Book, tx: Tx, account: Option<nat>)
    requires Known(b.txs, b.categories) && (account.Some? ==> tx.facet.Some? && account.value < |b.accounts|)
    ensures Known(SyncAdjustment(b, tx, account).txs, b.categories)
    ensures SyncAdjustment(b, tx, account).categories == b.categories
  {
    hide FindLinked;
  }

  lemma {:induction false} ImportKnown(b: Book, account: nat, rows: seq<ImportRow>)
    requires Known(b.txs, b.categories) && account < |b.accounts|
    ensures Known(ImportAll(b, account, rows).txs, b.categories)
  {
    if rows != [] {
      ImportKnown(b, account, rows[..|rows| - 1]);
    }
  }

  /** Item calls rewrite one row's items. */
  lemma LabelKeeps(b: Book, tx: Tx, category: Option<nat>, name: Option<string>)
    requires tx.category.Some? ==> tx.category.value in b.categories
    ensures LabelRemainder(b, tx, category, name).Ok? ==>
              LabelRemainder(b, tx, category, name).value
                 == tx.(items := LabelRemainder(b, tx, category, name).value.items)
  {
    hide CheckCategory, FirstRemainder;
  }

  lemma ReplaceKeeps(b: Book, id: nat, items: seq<Item>, category: Option<nat>, name: Option<string>)
    requires ValidItems(items) && CategoriesKnown(b) && ReplaceItems(b, id, items, category, name).Ok?
    ensures var after := ReplaceItems(b, id, items, category, name).value;
            && |after.txs| == |b.txs| && after == b.(txs := after.txs)
            && forall i :: 0 <= i < |b.txs| ==> after.txs[i] == b.txs[i].(items := after.txs[i].items)
  {
    hide CheckItemCategories, Normalized, LabelRemainder, FindTx;
    var i := FindTx(b.txs, id).value;
    assert b.txs[i] in b.txs;
    NormalizedRow(b.txs[i].(items := items));
    LabelKeeps(b, Normalized(b.txs[i].(items := items), true).value, category, name);
  }

  lemma FillKeeps(b: Book, id: nat, parsed: seq<Item>)
    requires forall item <- parsed :: !item.remainder
    ensures var after := AutoFill(b, id, parsed);
            && |after.txs| == |b.txs| && after == b.(txs := after.txs)
            && forall i :: 0 <= i < |b.txs| ==> after.txs[i] == b.txs[i].(items := after.txs[i].items)
  {
    hide FindTx, FirstRemainder, RawTotal, UserRows, Quantize;
  }

  // ---- coverage over runs ----

  /** A receipt fill whose parsed rows stay within the amount; every other call qualifies. */
  predicate Fits(b: Book, op: Op) {
    op.FillOp? && FindTx(b.txs, op.id).Some? && op.parsed != [] ==>
      var tx := b.txs[FindTx(b.txs, op.id).value];
      UserRows(tx.items) != [] || tx.kind.Adjustment? || RawTotal(op.parsed) <= UNIT * tx.amount + 500
  }

  predicate AllFit(b: Book, ops: seq<Op>)
    requires CategoriesKnown(b) && forall op <- ops :: op.Valid()
  {
    ops != [] ==> AllFit(b, ops[..|ops| - 1]) && Fits(AfterAll(b, ops[..|ops| - 1]), ops[|ops| - 1])
  }

  /** One call keeps every transaction covered exactly unless it is a fill that over-sums. */
  lemma StepCovered(b: Book, op: Op)
    requires CategoriesKnown(b) && op.Valid() && AllCovered(b.txs)
    ensures AllCovered(After(b, op).txs) <==> Fits(b, op)
  {
    hide AllCovered, CategoriesKnown, Create, Update, Delete, ReplaceItems, BulkSetAccount, RemoveCategory,
         ImportAll, FindTx;
    match op
    case CreateOp(data) => CreateCovered(b, data);
    case UpdateOp(id, data) => UpdateCovered(b, id, data);
    case DeleteOp(id) => RemoveCovered(b, id);
    case ReplaceOp(id, items, category, name) => ReplaceCovered(b, id, items, category, name);
    case FillOp(id, parsed) =>
      if FindTx(b.txs, id).Some? && UserRows(b.txs[FindTx(b.txs, id).value].items) == [] && parsed != [] {
        AutoFillCovered(b, id, parsed);
      }
    case ImportOp(account, rows) =>
      if account < |b.accounts| {
        ImportCovered(b, account, rows);
      }
    case BulkOp(ids, account) => MovedCovered(b, ids, account);
    case RemoveCategoryOp(category, heir) => RecategorisedCovered(b, category, heir);
    case _ =>
  }

  /** Over every run, every non-adjustment's items sum to its amount within half a cent. */
  lemma {:induction false} RunCovered(b: Book, ops: seq<Op>)
    requires CategoriesKnown(b) && AllCovered(b.txs) && (forall op <- ops :: op.Valid()) && AllFit(b, ops)
    ensures AllCovered(AfterAll(b, ops).txs)
  {
    hide AllCovered, CategoriesKnown, Fits, After;
    if ops != [] {
      RunCovered(b, ops[..|ops| - 1]);
      StepCovered(AfterAll(b, ops[..|ops| - 1]), ops[|ops| - 1]);
    }
  }

  // ---- the ledger over runs ----

  /** What a successful call books. */
  function Booked(b: Book, j: Journal, op: Op): Journal
    requires CategoriesKnown(b) && op.Valid()
  {
    if Outcome(b, op).Err? then j
    else
      match op
      case CreateOp(data) => Post(j, b.nextTx, Some(EntryOf(data)))
      case UpdateOp(id, data) => Post(j, id, Some(EntryOf(data)))
      case DeleteOp(id) => Post(j, id, None)
      case ImportOp(account, rows) => PostRows(j, b.nextTx, account, rows)
      case BulkOp(ids, account) => PostMoves(j, ids, account)
      case CreateTransferOp(move) => PostTransfer(j, b.nextTransfer, Some(TransferOf(b.nextTransfer, move)))
      case UpdateTransferOp(id, move) => PostTransfer(j, id, Some(TransferOf(id, move)))
      case DeleteTransferOp(id) => PostTransfer(j, id, None)
      case UpdateAccountOp(account, opening, _) => SetOpening(j, account, opening)
      case _ => j
  }

  function BookedAll(b: Book, j: Journal, ops: seq<Op>): Journal
    requires CategoriesKnown(b) && forall op <- ops :: op.Valid()
  {
    if ops == [] then j
    else Booked(AfterAll(b, ops[..|ops| - 1]), BookedAll(b, j, ops[..|ops| - 1]), ops[|ops| - 1])
  }

  lemma StepRefines(b: Book, j: Journal, op: Op)
    requires CategoriesKnown(b) && op.Valid() && Refines(b, j)
    ensures Refines(After(b, op), Booked(b, j, op))
  {
    hide Refines, CategoriesKnown, Create, Update, Delete, ReplaceItems, BulkSetAccount, ImportAll, FindTx, Post,
         PostTransfer, SetOpening, CheckTransfer, AutoFill;
    match op
    case CreateOp(data) => if Outcome(b, op).Ok? { CreateRefines(b, j, data); }
    case UpdateOp(id, data) => if Outcome(b, op).Ok? { UpdateRefines(b, j, id, data); }
    case DeleteOp(id) => if Outcome(b, op).Ok? { DeleteRefines(b, j, id); }
    case ReplaceOp(id, items, category, name) =>
      if Outcome(b, op).Ok? {
        ReplaceKeeps(b, id, items, category, name);
        UnbookedRefines(b, j, After(b, op));
      }
    case FillOp(id, parsed) =>
      FillKeeps(b, id, parsed);
      UnbookedRefines(b, j, After(b, op));
    case ImportOp(account, rows) =>
      if Outcome(b, op).Ok? {
        ImportRefines(b, j, account, rows);
      }
    case BulkOp(ids, account) => if Outcome(b, op).Ok? { BulkRefines(b, j, ids, account); }
    case RemoveCategoryOp(category, heir) =>
      if Outcome(b, op).Ok? {
        UnbookedRefines(b, j, After(b, op));
      }
    case SaveCategoryOp(category, saved) => UnbookedRefines(b, j, After(b, op));
    case CreateTransferOp(move) => if Outcome(b, op).Ok? { CreateTransferRefines(b, j, move); }
    case UpdateTransferOp(id, move) => if Outcome(b, op).Ok? { UpdateTransferRefines(b, j, id, move); }
    case DeleteTransferOp(id) => if Outcome(b, op).Ok? { DeleteTransferRefines(b, j, id); }
    case UpdateAccountOp(account, opening, archived) =>
      if Outcome(b, op).Ok? {
        UpdateAccountRefines(b, j, account, opening, archived);
      }
  }

  /** Over every run the stored rows refine the ledger that only records last writes. */
  lemma {:induction false} RunRefines(b: Book, j: Journal, ops: seq<Op>)
    requires CategoriesKnown(b) && Refines(b, j) && forall op <- ops :: op.Valid()
    ensures Refines(AfterAll(b, ops), BookedAll(b, j, ops))
  {
    hide Refines, CategoriesKnown, After, Booked;
    if ops != [] {
      RunRefines(b, j, ops[..|ops| - 1]);
      StepRefines(AfterAll(b, ops[..|ops| - 1]), BookedAll(b, j, ops[..|ops| - 1]), ops[|ops| - 1]);
    }
  }

  /** A new ledger refines the empty journal, and is covered. */
  lemma FreshBook(accounts: seq<Account>, categories: map<nat, Category>, enabled: set<string>, catalog: set<string>)
    ensures var b := Book(accounts, categories, enabled, catalog, [], 0, [], 0);
            var openings := seq(|accounts|, a requires 0 <= a < |accounts| => accounts[a].opening);
            && CategoriesKnown(b) && AllCovered(b.txs) && Refines(b, Journal(map[], map[], openings, openings))
  {}

  /** What a reader sees: adjustments and balances of any book that refines a journal. */
  lemma LastWriteDecides(b: Book, j: Journal, id: nat, account: nat)
    requires Refines(b, j) && account < |b.accounts|
    ensures HasSource(b.txs, id) <==> id in j.entries
    ensures HasAdjustment(b.txs, id) <==> id in j.entries && j.entries[id].facet.Some?
    ensures Balance(b, account) == j.balances[account]
  {
    hide Balance, TransfersRefine;
    if HasSource(b.txs, id) {
      var i :| 0 <= i < |b.txs| && b.txs[i].id == id && b.txs[i].source.None?;
      assert RowSound(j.entries, b.txs[i]);
    }
    if HasAdjustment(b.txs, id) {
      var i :| 0 <= i < |b.txs| && b.txs[i].source == Some(id);
      assert RowSound(j.entries, b.txs[i]);
    }
  }
}
