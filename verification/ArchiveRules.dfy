/// An archived account keeps what it has and gets nothing new, whichever call is made.
module ArchiveRules {
  import opened Wrappers
  import opened BookModel
  import opened LedgerLaws
  import opened BookRuns

  ghost predicate HasRow(txs: seq<Tx>, id: nat, account: nat) {
    exists i :: 0 <= i < |txs| && txs[i].id == id && txs[i].account == Some(account)
  }

  /** Every row on the account was already on it. */
  ghost predicate NothingNew(before: seq<Tx>, after: seq<Tx>, account: nat) {
    forall i :: 0 <= i < |after| && after[i].account == Some(account) ==> HasRow(before, after[i].id, account)
  }

  ghost predicate HasSide(ts: seq<Transfer>, id: nat, account: nat, source: bool) {
    exists i :: 0 <= i < |ts| && ts[i].id == id && (if source then ts[i].source else ts[i].target) == account
  }

  /** Every transfer side on the account was already on it. */
  ghost predicate NoNewSide(before: seq<Transfer>, after: seq<Transfer>, account: nat) {
    forall i :: 0 <= i < |after| ==>
      && (after[i].source == account ==> HasSide(before, after[i].id, account, true))
      && (after[i].target == account ==> HasSide(before, after[i].id, account, false))
  }

  predicate Archived(b: Book, account: nat) { account < |b.accounts| && b.accounts[account].archived }

  lemma SameAccounts(before: seq<Tx>, after: seq<Tx>, account: nat)
    requires |before| == |after|
    requires forall i :: 0 <= i < |before| ==> after[i].id == before[i].id && after[i].account == before[i].account
    ensures NothingNew(before, after, account)
  {}

  lemma CheckedAccounts(b: Book, data: TxData, i: nat, account: nat)
    requires data.Valid() && Archived(b, account)
    ensures CheckCreate(b, data).Ok? ==> data.account != Some(account) && data.facetAccount != Some(account)
    ensures i < |b.txs| && CheckUpdate(b, i, data).Ok? ==>
              && b.txs[i].source.None?
              && (data.account == Some(account) ==> b.txs[i].account == Some(account))
              && (data.facetAccount == Some(account) ==>
                    var linked := FindLinked(b.txs, b.txs[i].id);
                    linked.Some? && b.txs[linked.value].account == Some(account))
  {
    hide CheckItemCategories, CheckCategory, FindLinked;
  }

  lemma CreateNothingNew(b: Book, data: TxData, account: nat)
    requires data.Valid() && Archived(b, account) && Create(b, data).Ok?
    ensures NothingNew(b.txs, Create(b, data).value.txs, account)
  {
    hide CheckCreate, Normalized;
    CheckedAccounts(b, data, 0, account);
    NormalizedRow(FromData(b.nextTx, data, CheckCreate(b, data).value, data.items));
    SameAccounts(b.txs, b.txs, account);
  }

  /** Overwriting a source row leaves its adjustment where it was. */
  lemma {:induction false} LinkedStays(txs: seq<Tx>, i: nat, tx: Tx, id: nat)
    requires i < |txs| && txs[i].source.None? && tx.source.None?
    ensures FindLinked(txs[i := tx], id) == FindLinked(txs, id)
  {
    var n := |txs| - 1;
    if i < n {
      LinkedStays(txs[..n], i, tx, id);
      assert txs[i := tx][..n] == txs[..n][i := tx];
    } else {
      assert txs[i := tx][..n] == txs[..n];
    }
  }

  lemma UpdateNothingNew(b: Book, id: nat, data: TxData, account: nat)
    requires data.Valid() && Archived(b, account) && Update(b, id, data).Ok?
    ensures NothingNew(b.txs, Update(b, id, data).value.txs, account)
  {
    hide CheckUpdate, Normalized, FindTx, FindLinked, SyncAdjustment, NothingNew;
    var i := FindTx(b.txs, id).value;
    var draft := FromData(id, data, CheckUpdate(b, i, data).value, b.txs[i].items);
    CheckedAccounts(b, data, i, account);
    NormalizedRow(draft);
    var tx := Normalized(draft, true).value;
    LinkedStays(b.txs, i, tx, id);
    SyncNothingNew(b, i, tx, data.facetAccount, account);
  }

  lemma SyncNothingNew(b: Book, i: nat, tx: Tx, facet: Option<nat>, account: nat)
    requires i < |b.txs| && tx.id == b.txs[i].id && (tx.account == Some(account) ==> b.txs[i].account == Some(account))
    requires facet.Some? ==> tx.facet.Some? && facet.value < |b.accounts|
    requires FindLinked(b.txs[i := tx], tx.id) == FindLinked(b.txs, tx.id)
    requires facet == Some(account) ==>
               var linked := FindLinked(b.txs, tx.id); linked.Some? && b.txs[linked.value].account == Some(account)
    ensures NothingNew(b.txs, SyncAdjustment(b.(txs := b.txs[i := tx]), tx, facet).txs, account)
  {
    hide FindLinked;
    var txs := b.txs[i := tx];
    var after := SyncAdjustment(b.(txs := txs), tx, facet).txs;
    var linked := FindLinked(txs, tx.id);
    forall k | 0 <= k < |after| && after[k].account == Some(account) ensures HasRow(b.txs, after[k].id, account) {
      var k' := if facet.None? && linked.Some? && linked.value <= k then k + 1 else k;
      assert k' < |b.txs| && b.txs[k'].id == after[k].id && b.txs[k'].account == Some(account);
    }
  }

  lemma DeleteNothingNew(b: Book, id: nat, account: nat)
    requires Delete(b, id).Ok?
    ensures NothingNew(b.txs, Delete(b, id).value.txs, account)
  {
    hide FindTx, FindLinked, NothingNew, DropRow;
    var i := FindTx(b.txs, id).value;
    var rest := DropRow(b.txs, i);
    DropNothingNew(b.txs, b.txs, i, account);
    SameAccounts(b.txs, b.txs, account);
    if FindLinked(rest, id).Some? {
      DropNothingNew(b.txs, rest, FindLinked(rest, id).value, account);
    }
  }

  lemma DropNothingNew(before: seq<Tx>, txs: seq<Tx>, i: nat, account: nat)
    requires i < |txs|
    ensures NothingNew(before, txs, account) ==> NothingNew(before, DropRow(txs, i), account)
    ensures NothingNew(txs, txs, account)
  {
    SameAccounts(txs, txs, account);
    assert forall k :: 0 <= k < |DropRow(txs, i)| ==> DropRow(txs, i)[k] == txs[if k < i then k else k + 1];
  }

  lemma {:induction false} ImportNothingNew(b: Book, target: nat, rows: seq<ImportRow>, account: nat)
    requires target < |b.accounts| && target != account
    ensures NothingNew(b.txs, ImportAll(b, target, rows).txs, account)
  {
    if rows == [] {
      SameAccounts(b.txs, b.txs, account);
    } else {
      ImportNothingNew(b, target, rows[..|rows| - 1], account);
    }
  }

  lemma MovedNothingNew(b: Book, ids: seq<nat>, target: nat, account: nat)
    requires target != account
    ensures NothingNew(b.txs, Moved(b.txs, ids, target), account)
  {
    forall i | 0 <= i < |b.txs| && Moved(b.txs, ids, target)[i].account == Some(account)
      ensures HasRow(b.txs, Moved(b.txs, ids, target)[i].id, account)
    {
      assert b.txs[i].account == Some(account);
    }
  }

  lemma SameSides(b: Book, account: nat)
    ensures NoNewSide(b.transfers, b.transfers, account)
  {}

  lemma TransferNothingNew(b: Book, op: Op, account: nat)
    requires CategoriesKnown(b) && op.Valid() && Archived(b, account) && Outcome(b, op).Ok?
    requires op.CreateTransferOp? || op.UpdateTransferOp? || op.DeleteTransferOp?
    ensures NoNewSide(b.transfers, Outcome(b, op).value.transfers, account)
  {
    hide FindTransfer;
    SameSides(b, account);
    var after := Outcome(b, op).value.transfers;
    match op
    case CreateTransferOp(move) =>
    case UpdateTransferOp(id, move) =>
      var k := FindTransfer(b.transfers, id).value;
      assert b.transfers[k].id == id;
    case DeleteTransferOp(id) =>
      var k := FindTransfer(b.transfers, id).value;
      assert forall l :: 0 <= l < |after| ==> after[l] == b.transfers[if l < k then l else l + 1];
  }

  /**
   Whatever call is made while an account is archived, no transaction, generated
   adjustment or transfer side is on it afterwards that was not on it before.
   */
  lemma ArchivedGetsNothing(b: Book, op: Op, account: nat)
    requires CategoriesKnown(b) && op.Valid() && Archived(b, account)
    ensures NothingNew(b.txs, After(b, op).txs, account) && NoNewSide(b.transfers, After(b, op).transfers, account)
  {
    hide CategoriesKnown, Create, Update, Delete, ReplaceItems, AutoFill, BulkSetAccount, ImportAll, NothingNew,
         NoNewSide, CheckTransfer, FindTransfer, UpdateAccount;
    SameAccounts(b.txs, b.txs, account);
    SameSides(b, account);
    if Outcome(b, op).Ok? {
      match op
      case CreateOp(data) => CreateNothingNew(b, data, account); SameTransfers(b, op);
      case UpdateOp(id, data) => UpdateNothingNew(b, id, data, account); SameTransfers(b, op);
      case DeleteOp(id) => DeleteNothingNew(b, id, account); SameTransfers(b, op);
      case ReplaceOp(id, items, category, name) =>
        ReplaceKeeps(b, id, items, category, name);
        SameAccounts(b.txs, After(b, op).txs, account);
      case FillOp(id, parsed) =>
        FillKeeps(b, id, parsed);
        SameAccounts(b.txs, After(b, op).txs, account);
      case ImportOp(target, rows) => ImportNothingNew(b, target, rows, account); ImportTransfers(b, target, rows);
      case BulkOp(ids, target) => BulkNothingNew(b, ids, target, account);
      case RemoveCategoryOp(category, heir) => SameAccounts(b.txs, After(b, op).txs, account);
      case SaveCategoryOp(category, saved) =>
      case UpdateAccountOp(target, opening, archived) => AccountNothingNew(b, target, opening, archived);
      case _ => TransferNothingNew(b, op, account); SameTxs(b, op);
    }
  }

  lemma SameTransfers(b: Book, op: Op)
    requires CategoriesKnown(b) && op.Valid() && (op.CreateOp? || op.UpdateOp? || op.DeleteOp?)
    ensures After(b, op).transfers == b.transfers
  {
    hide CheckCreate, CheckUpdate, Normalized, FindTx, FindLinked;
  }

  lemma {:induction false} ImportTransfers(b: Book, target: nat, rows: seq<ImportRow>)
    requires target < |b.accounts|
    ensures ImportAll(b, target, rows).transfers == b.transfers
  {
    if rows != [] {
      ImportTransfers(b, target, rows[..|rows| - 1]);
    }
  }

  lemma BulkNothingNew(b: Book, ids: seq<nat>, target: nat, account: nat)
    requires Archived(b, account) && BulkSetAccount(b, ids, target).Ok?
    ensures var after := BulkSetAccount(b, ids, target).value;
            NothingNew(b.txs, after.txs, account) && after.transfers == b.transfers
  {
    hide FindTx;
    MovedNothingNew(b, ids, target, account);
  }

  lemma AccountNothingNew(b: Book, target: nat, opening: int, archived: bool)
    requires UpdateAccount(b, target, opening, archived).Ok?
    ensures var after := UpdateAccount(b, target, opening, archived).value;
            after.txs == b.txs && after.transfers == b.transfers
  {}

  lemma SameTxs(b: Book, op: Op)
    requires CategoriesKnown(b) && op.Valid() && (op.CreateTransferOp? || op.UpdateTransferOp? || op.DeleteTransferOp?)
    ensures After(b, op).txs == b.txs
  {
    hide FindTransfer, CheckTransfer;
  }
}
