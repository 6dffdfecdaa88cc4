/// The transaction book: accounts, categories, transactions with their line items
/// and linked adjustments, and transfers. Each service call is a function from
/// book to book, or the error it raises.
module BookModel {
  import opened Wrappers
  import opened Money

  datatype TxType = Income | Expense | Adjustment

  /** `quantity` in thousandths, `unitPrice` and `lineTotal` in cents. A None category inherits. */
  datatype Item = Item(
    name: string,
    quantity: int,
    unitPrice: Option<int>,
    lineTotal: Option<int>,
    category: Option<nat>,
    remainder: bool)
  {
    /** Line total, else quantity times unit price, else nothing; in raw units. */
    function Effective(): int {
      if lineTotal.Some? then UNIT * lineTotal.value
      else if unitPrice.Some? then quantity * unitPrice.value
      else 0
    }
  }

  /** What was paid at the point of sale in another currency. */
  datatype Facet = Facet(amount: int, currency: string)

  /** `source` marks a generated adjustment and names the transaction it belongs to. */
  datatype Tx = Tx(
    id: nat,
    account: Option<nat>,
    currency: string,
    date: int,
    kind: TxType,
    amount: int,
    category: Option<nat>,
    facet: Option<Facet>,
    source: Option<nat>,
    items: seq<Item>)

  datatype Account = Account(currency: string, opening: int, archived: bool)

  datatype Category = Category(budget: nat, name: string, archived: bool)

  datatype Transfer = Transfer(id: nat, source: nat, target: nat, sourceAmount: int, targetAmount: int)

  /** Accounts are rows by position; `enabled` and `catalog` hold currency codes. */
  datatype Book = Book(
    accounts: seq<Account>,
    categories: map<nat, Category>,
    enabled: set<string>,
    catalog: set<string>,
    txs: seq<Tx>,
    nextTx: nat,
    transfers: seq<Transfer>,
    nextTransfer: nat)

  datatype Error =
    | AccountNotFound
    | AccountArchived
    | AmountInvalid
    | AdjustmentCategory
    | AdjustmentAccount
    | CurrencyMismatch
    | CurrencyRequired
    | CurrencyNotEnabled
    | CategoryNotFound
    | ItemCategoryWithoutTransaction
    | ItemCategoryBudget
    | OriginalCurrency
    | OriginalAccount
    | OriginalAccountCurrency
    | ItemsOverSum
    | NoPeriodForDate
    | TransactionNotFound
    | AutoManaged
    | BulkAccount
    | BulkManaged
    | BulkCurrency
    | TransferAccountsEqual
    | TransferAccountArchived
    | TransferAmountsMismatch
    | TransferToAmountRequired
    | TransferNotFound

  // ---- line items ----

  function UserRows(items: seq<Item>): (rows: seq<Item>)
    ensures forall row <- rows :: !row.remainder
  {
    if items == [] then []
    else UserRows(items[..|items| - 1]) + (if items[|items| - 1].remainder then [] else [items[|items| - 1]])
  }

  function RawTotal(items: seq<Item>): int {
    if items == [] then 0 else RawTotal(items[..|items| - 1]) + items[|items| - 1].Effective()
  }

  function ItemsTotal(items: seq<Item>): int { Quantize(RawTotal(items)) }

  /** Position of the first remainder row. */
  function FirstRemainder(items: seq<Item>): (i: Option<nat>)
    ensures i.Some? ==> i.value < |items| && items[i.value].remainder
    ensures i.None? ==> forall item <- items :: !item.remainder
  {
    if items == [] then None
    else
      var init := FirstRemainder(items[..|items| - 1]);
      if init.Some? then init
      else if items[|items| - 1].remainder then Some(|items| - 1) else None
  }

  function NewRemainder(amount: int): Item {
    Item("", 1000, None, Some(amount), None, true)
  }

  /** Resizes, creates or deletes the remainder row so that items cover the amount. */
  function Normalized(tx: Tx, strict: bool): Result<Tx, Error> {
    if tx.kind.Adjustment? then Ok(tx.(items := UserRows(tx.items)))
    else
      var remainder := tx.amount - ItemsTotal(UserRows(tx.items));
      var row := FirstRemainder(tx.items);
      if remainder < 0 && strict then Err(ItemsOverSum)
      else if remainder <= 0 then
        Ok(if row.Some? then tx.(items := tx.items[..row.value] + tx.items[row.value + 1..]) else tx)
      else if row.None? then Ok(tx.(items := tx.items + [NewRemainder(remainder)]))
      else Ok(tx.(items := tx.items[row.value := tx.items[row.value].(lineTotal := Some(remainder))]))
  }

  // ---- rows by id ----

  function FindTx(txs: seq<Tx>, id: nat): (i: Option<nat>)
    ensures i.Some? ==> i.value < |txs| && txs[i.value].id == id
    ensures i.None? ==> forall tx <- txs :: tx.id != id
  {
    if txs == [] then None
    else
      var init := FindTx(txs[..|txs| - 1], id);
      if init.Some? then init else if txs[|txs| - 1].id == id then Some(|txs| - 1) else None
  }

  /** The generated adjustment of a source. */
  function FindLinked(txs: seq<Tx>, id: nat): (i: Option<nat>)
    ensures i.Some? ==> i.value < |txs| && txs[i.value].source == Some(id)
    ensures i.None? ==> forall tx <- txs :: tx.source != Some(id)
  {
    if txs == [] then None
    else
      var init := FindLinked(txs[..|txs| - 1], id);
      if init.Some? then init else if txs[|txs| - 1].source == Some(id) then Some(|txs| - 1) else None
  }

  function DropRow<T>(rows: seq<T>, i: nat): seq<T>
    requires i < |rows|
  {
    rows[..i] + rows[i + 1..]
  }

  // ---- validation ----

  /** The payload of a transaction create or full replace; schema rules are its Valid predicate. */
  datatype TxData = TxData(
    date: int,
    kind: TxType,
    amount: int,
    account: Option<nat>,
    currency: Option<string>,
    category: Option<nat>,
    facet: Option<Facet>,
    facetAccount: Option<nat>,
    items: seq<Item>,
    hasPeriod: bool)
  {
    predicate Valid() {
      && (facet.Some? ==> facet.value.amount > 0 && !kind.Adjustment?)
      && (facetAccount.Some? ==> facet.Some?)
      && ValidItems(items)
    }
  }

  predicate ValidItems(items: seq<Item>) {
    forall item <- items ::
      && !item.remainder && item.quantity > 0
      && (item.unitPrice.Some? ==> item.unitPrice.value >= 0)
      && (item.lineTotal.Some? ==> item.lineTotal.value >= 0)
  }

  function ResolveAccount(b: Book, account: Option<nat>): Result<(), Error> {
    if account.Some? && account.value >= |b.accounts| then Err(AccountNotFound) else Ok(())
  }

  function CheckTypeAmount(data: TxData): Result<(), Error> {
    if data.kind.Adjustment? then
      if data.amount == 0 then Err(AmountInvalid)
      else if data.category.Some? then Err(AdjustmentCategory)
      else if data.account.None? then Err(AdjustmentAccount)
      else Ok(())
    else if data.amount <= 0 then Err(AmountInvalid)
    else Ok(())
  }

  /** The account's currency wins; without an account the code is required and must be enabled. */
  function ResolveCurrency(b: Book, account: Option<nat>, code: Option<string>): Result<string, Error>
    requires account.Some? ==> account.value < |b.accounts|
  {
    if account.Some? then
      var own := b.accounts[account.value].currency;
      if code.Some? && code.value != own then Err(CurrencyMismatch) else Ok(own)
    else if code.None? then Err(CurrencyRequired)
    else if code.value !in b.enabled then Err(CurrencyNotEnabled)
    else Ok(code.value)
  }

  function CheckCategory(b: Book, category: Option<nat>): Result<(), Error> {
    if category.None? then Ok(())
    else if category.value !in b.categories || b.categories[category.value].archived then Err(CategoryNotFound)
    else Ok(())
  }

  /** Explicit item categories must be live and of the transaction category's budget; rows are checked in order. */
  function CheckItemCategories(b: Book, category: Option<nat>, items: seq<Item>): Result<(), Error>
    requires category.Some? ==> category.value in b.categories
  {
    if items == [] then Ok(())
    else
      var _ :- CheckItemCategories(b, category, items[..|items| - 1]);
      var own := items[|items| - 1].category;
      if own.None? then Ok(())
      else if category.None? then Err(ItemCategoryWithoutTransaction)
      else if own.value !in b.categories || b.categories[own.value].archived then Err(CategoryNotFound)
      else if b.categories[own.value].budget != b.categories[category.value].budget then Err(ItemCategoryBudget)
      else Ok(())
  }

  function CheckFacet(b: Book, currency: string, facet: Option<Facet>): Result<(), Error> {
    if facet.None? then Ok(())
    else if facet.value.currency !in b.catalog || facet.value.currency == currency then Err(OriginalCurrency)
    else Ok(())
  }

  function CheckFacetAccount(b: Book, facet: Option<Facet>, account: Option<nat>,
                             allowArchived: bool): Result<(), Error>
    requires account.Some? ==> facet.Some?
  {
    if account.None? then Ok(())
    else if account.value >= |b.accounts| || (b.accounts[account.value].archived && !allowArchived)
    then Err(OriginalAccount)
    else if b.accounts[account.value].currency != facet.value.currency then Err(OriginalAccountCurrency)
    else Ok(())
  }

  // ---- create ----

  /** Every check of a create, in order; yields the resolved currency. */
  function CheckCreate(b: Book, data: TxData): (r: Result<string, Error>)
    requires data.Valid()
    ensures r.Ok? ==> data.facetAccount.Some? ==> data.facetAccount.value < |b.accounts|
  {
    var _ :- ResolveAccount(b, data.account);
    if data.account.Some? && b.accounts[data.account.value].archived then Err(AccountArchived)
    else
      var _ :- CheckTypeAmount(data);
      var currency :- ResolveCurrency(b, data.account, data.currency);
      var _ :- CheckCategory(b, data.category);
      var _ :- CheckItemCategories(b, data.category, data.items);
      var _ :- CheckFacet(b, currency, data.facet);
      var _ :- CheckFacetAccount(b, data.facet, data.facetAccount, false);
      Ok(currency)
  }

  function FromData(id: nat, data: TxData, currency: string, items: seq<Item>): Tx {
    Tx(id, data.account, currency, data.date, data.kind, data.amount, data.category, data.facet, None, items)
  }

  /** The facet leg: minus the original amount for an expense, plus for an income. */
  function FacetAmount(kind: TxType, facet: Facet): int {
    if kind.Expense? then -facet.amount else facet.amount
  }

  function GeneratedAdjustment(b: Book, id: nat, tx: Tx, account: nat): Tx
    requires tx.facet.Some? && account < |b.accounts|
  {
    Tx(id, Some(account), b.accounts[account].currency, tx.date, Adjustment,
       FacetAmount(tx.kind, tx.facet.value), None, None, Some(tx.id), [])
  }

  /** The period lookup of a categorised transaction may fail, which undoes the call. */
  function TouchPeriod(data: TxData): Result<(), Error> {
    if data.category.Some? && !data.hasPeriod then Err(NoPeriodForDate) else Ok(())
  }

  function Create(b: Book, data: TxData): Result<Book, Error>
    requires data.Valid()
  {
    var currency :- CheckCreate(b, data);
    var tx :- Normalized(FromData(b.nextTx, data, currency, data.items), true);
    var _ :- TouchPeriod(data);
    if data.facetAccount.None? then Ok(b.(txs := b.txs + [tx], nextTx := b.nextTx + 1))
    else
      Ok(b.(txs := b.txs + [tx, GeneratedAdjustment(b, b.nextTx + 1, tx, data.facetAccount.value)],
            nextTx := b.nextTx + 2))
  }

  // ---- update and delete ----

  /** Every check of a full replace: stored accounts may be archived, a retarget may not. */
  function CheckUpdate(b: Book, i: nat, data: TxData): (r: Result<string, Error>)
    requires data.Valid() && i < |b.txs|
    ensures r.Ok? ==> data.facetAccount.Some? ==> data.facetAccount.value < |b.accounts|
  {
    var tx := b.txs[i];
    if tx.source.Some? then Err(AutoManaged)
    else
      var _ :- ResolveAccount(b, data.account);
      if data.account.Some? && data.account != tx.account && b.accounts[data.account.value].archived
      then Err(AccountArchived)
      else
        var _ :- CheckTypeAmount(data);
        var currency :- ResolveCurrency(b, data.account, data.currency);
        var _ :- CheckCategory(b, data.category);
        var _ :- CheckItemCategories(b, data.category, tx.items);
        var _ :- CheckFacet(b, currency, data.facet);
        var _ :- CheckFacetAccount(b, data.facet, data.facetAccount, true);
        var linked := FindLinked(b.txs, tx.id);
        if data.facetAccount.Some? && b.accounts[data.facetAccount.value].archived
           && (linked.None? || b.txs[linked.value].account != data.facetAccount)
        then Err(OriginalAccount)
        else Ok(currency)
  }

  /** Creates, rewrites or deletes the linked adjustment so that it mirrors the saved source. */
  function SyncAdjustment(b: Book, tx: Tx, account: Option<nat>): Book
    requires account.Some? ==> tx.facet.Some? && account.value < |b.accounts|
  {
    var linked := FindLinked(b.txs, tx.id);
    if account.Some? then
      if linked.None? then
        b.(txs := b.txs + [GeneratedAdjustment(b, b.nextTx, tx, account.value)], nextTx := b.nextTx + 1)
      else
        var row := GeneratedAdjustment(b, b.txs[linked.value].id, tx, account.value);
        b.(txs := b.txs[linked.value := row.(items := b.txs[linked.value].items)])
    else if linked.Some? then b.(txs := DropRow(b.txs, linked.value))
    else b
  }

  function Update(b: Book, id: nat, data: TxData): Result<Book, Error>
    requires data.Valid()
  {
    var found := FindTx(b.txs, id);
    if found.None? then Err(TransactionNotFound)
    else
      var i := found.value;
      var currency :- CheckUpdate(b, i, data);
      var tx :- Normalized(FromData(id, data, currency, b.txs[i].items), true);
      var _ :- TouchPeriod(data);
      Ok(SyncAdjustment(b.(txs := b.txs[i := tx]), tx, data.facetAccount))
  }

  /** Deleting a source takes its generated adjustment with it. */
  function Delete(b: Book, id: nat): Result<Book, Error> {
    var found := FindTx(b.txs, id);
    if found.None? then Err(TransactionNotFound)
    else if b.txs[found.value].source.Some? then Err(AutoManaged)
    else
      var rest := DropRow(b.txs, found.value);
      var linked := FindLinked(rest, id);
      Ok(b.(txs := if linked.Some? then DropRow(rest, linked.value) else rest))
  }

  // ---- items ----

  /** The remainder's optional category and name, applied only when a remainder row results. */
  function LabelRemainder(b: Book, tx: Tx, category: Option<nat>, name: Option<string>): Result<Tx, Error>
    requires tx.category.Some? ==> tx.category.value in b.categories
  {
    var row := FirstRemainder(tx.items);
    if row.None? then Ok(tx)
    else if category.Some? && tx.category.None? then Err(ItemCategoryWithoutTransaction)
    else
      var _ :- CheckCategory(b, category);
      if category.Some? && b.categories[category.value].budget != b.categories[tx.category.value].budget
      then Err(ItemCategoryBudget)
      else
        var item := tx.items[row.value].(
          category := if category.Some? then category else tx.items[row.value].category,
          name := if name.Some? then name.value else tx.items[row.value].name);
        Ok(tx.(items := tx.items[row.value := item]))
  }

  function ReplaceItems(b: Book, id: nat, items: seq<Item>, category: Option<nat>,
                        name: Option<string>): Result<Book, Error>
    requires ValidItems(items) && CategoriesKnown(b)
  {
    var found := FindTx(b.txs, id);
    if found.None? then Err(TransactionNotFound)
    else
      var i := found.value;
      assert b.txs[i] in b.txs;
      var _ :- CheckItemCategories(b, b.txs[i].category, items);
      var tx :- Normalized(b.txs[i].(items := items), true);
      var labelled :- LabelRemainder(b, tx, category, name);
      Ok(b.(txs := b.txs[i := labelled]))
  }

  /** Foreign keys: a transaction's category exists. */
  predicate CategoriesKnown(b: Book) {
    forall tx <- b.txs :: tx.category.Some? ==> tx.category.value in b.categories
  }

  /** Parsed receipt rows fill a transaction that has no user rows; over-sum drops the remainder instead of failing. */
  function AutoFill(b: Book, id: nat, parsed: seq<Item>): Book
    requires forall item <- parsed :: !item.remainder
  {
    var found := FindTx(b.txs, id);
    if found.None? then b
    else
      var i := found.value;
      if UserRows(b.txs[i].items) != [] || parsed == [] then b
      else
        match Normalized(b.txs[i].(items := parsed), false)
        case Ok(tx) => b.(txs := b.txs[i := tx])
        case Err(_) => b
  }

  // ---- bulk calls ----

  datatype ImportRow = ImportRow(date: int, kind: TxType, amount: int, category: Option<nat>) {
    predicate Valid() { amount > 0 && !kind.Adjustment? }
  }

  /** The name lookup of an import finds live categories only. */
  function LiveCategory(b: Book, category: Option<nat>): Option<nat> {
    if category.Some? && category.value in b.categories && !b.categories[category.value].archived
    then category else None
  }

  /** One imported row with its amount-sized remainder; incomes carry no category. */
  function Imported(b: Book, account: nat, row: ImportRow): Tx
    requires account < |b.accounts|
  {
    Tx(b.nextTx, Some(account), b.accounts[account].currency, row.date, row.kind, row.amount,
       if row.kind.Income? then None else LiveCategory(b, row.category), None, None, [NewRemainder(row.amount)])
  }

  function ImportAll(b: Book, account: nat, rows: seq<ImportRow>): (after: Book)
    requires account < |b.accounts|
    ensures after.accounts == b.accounts && after.categories == b.categories
  {
    if rows == [] then b
    else
      var before := ImportAll(b, account, rows[..|rows| - 1]);
      before.(txs := before.txs + [Imported(before, account, rows[|rows| - 1])], nextTx := before.nextTx + 1)
  }

  function ImportData(b: Book, account: nat, rows: seq<ImportRow>): Result<Book, Error> {
    if account >= |b.accounts| then Err(AccountNotFound)
    else if b.accounts[account].archived then Err(AccountArchived)
    else Ok(ImportAll(b, account, rows))
  }

  function Moved(txs: seq<Tx>, ids: seq<nat>, account: nat): (after: seq<Tx>)
    ensures |after| == |txs|
  {
    seq(|txs|, i requires 0 <= i < |txs| => if txs[i].id in ids then txs[i].(account := Some(account)) else txs[i])
  }

  /** Moves user rows of the account's currency to it, all or nothing. */
  function BulkSetAccount(b: Book, ids: seq<nat>, account: nat): Result<Book, Error> {
    if account >= |b.accounts| then Err(AccountNotFound)
    else if b.accounts[account].archived then Err(AccountArchived)
    else if exists id <- ids :: FindTx(b.txs, id).None? then Err(BulkAccount)
    else if exists tx <- b.txs :: tx.id in ids && tx.source.Some? then Err(BulkManaged)
    else if exists tx <- b.txs :: tx.id in ids && tx.currency != b.accounts[account].currency then Err(BulkCurrency)
    else Ok(b.(txs := Moved(b.txs, ids, account)))
  }

  // ---- categories ----

  function Recategorise(category: Option<nat>, from: nat, target: Option<nat>): Option<nat> {
    if category == Some(from) then target else category
  }

  function RecategoriseItems(items: seq<Item>, from: nat, target: Option<nat>): (after: seq<Item>)
    ensures |after| == |items|
  {
    seq(|items|, i requires 0 <= i < |items| => items[i].(category := Recategorise(items[i].category, from, target)))
  }

  function RecategoriseTx(tx: Tx, from: nat, target: Option<nat>): Tx {
    tx.(category := Recategorise(tx.category, from, target), items := RecategoriseItems(tx.items, from, target))
  }

  function RecategoriseAll(txs: seq<Tx>, from: nat, target: Option<nat>): (after: seq<Tx>)
    ensures |after| == |txs|
  {
    seq(|txs|, i requires 0 <= i < |txs| => RecategoriseTx(txs[i], from, target))
  }

  /** A category row goes; its transactions and items move to `target`, or lose the category. */
  function RemoveCategory(b: Book, from: nat, target: Option<nat>): Book {
    b.(categories := b.categories - {from}, txs := RecategoriseAll(b.txs, from, target))
  }

  // ---- transfers ----

  datatype TransferData = TransferData(source: nat, target: nat, sourceAmount: int, targetAmount: Option<int>) {
    predicate Valid() { sourceAmount > 0 && (targetAmount.Some? ==> targetAmount.value > 0) }
  }

  /** Both accounts must exist and differ; a same-currency transfer moves one amount. Yields the target amount. */
  function CheckTransfer(b: Book, data: TransferData, allowArchived: bool): (r: Result<int, Error>)
    ensures r.Ok? ==> data.source != data.target && data.source < |b.accounts| && data.target < |b.accounts|
    ensures r.Ok? && b.accounts[data.source].currency == b.accounts[data.target].currency ==>
            r.value == data.sourceAmount
  {
    if data.source == data.target then Err(TransferAccountsEqual)
    else if data.source >= |b.accounts| || data.target >= |b.accounts| then Err(AccountNotFound)
    else
      var s, t := b.accounts[data.source], b.accounts[data.target];
      if !allowArchived && (s.archived || t.archived) then Err(TransferAccountArchived)
      else if s.currency == t.currency then
        if data.targetAmount.Some? && data.targetAmount.value != data.sourceAmount then Err(TransferAmountsMismatch)
        else Ok(data.sourceAmount)
      else if data.targetAmount.None? then Err(TransferToAmountRequired)
      else Ok(data.targetAmount.value)
  }

  function FindTransfer(transfers: seq<Transfer>, id: nat): (i: Option<nat>)
    ensures i.Some? ==> i.value < |transfers| && transfers[i.value].id == id
    ensures i.None? ==> forall t <- transfers :: t.id != id
  {
    if transfers == [] then None
    else
      var init := FindTransfer(transfers[..|transfers| - 1], id);
      if init.Some? then init else if transfers[|transfers| - 1].id == id then Some(|transfers| - 1) else None
  }

  function CreateTransfer(b: Book, data: TransferData): Result<Book, Error> {
    var amount :- CheckTransfer(b, data, false);
    Ok(b.(transfers := b.transfers + [Transfer(b.nextTransfer, data.source, data.target, data.sourceAmount, amount)],
          nextTransfer := b.nextTransfer + 1))
  }

  function UpdateTransfer(b: Book, id: nat, data: TransferData): Result<Book, Error> {
    var found := FindTransfer(b.transfers, id);
    if found.None? then Err(TransferNotFound)
    else
      var amount :- CheckTransfer(b, data, true);
      var old_ := b.transfers[found.value];
      if (data.source != old_.source && b.accounts[data.source].archived)
         || (data.target != old_.target && b.accounts[data.target].archived)
      then Err(TransferAccountArchived)
      else
        var moved := Transfer(id, data.source, data.target, data.sourceAmount, amount);
        Ok(b.(transfers := b.transfers[found.value := moved]))
  }

  function DeleteTransfer(b: Book, id: nat): Result<Book, Error> {
    var found := FindTransfer(b.transfers, id);
    if found.None? then Err(TransferNotFound)
    else Ok(b.(transfers := DropRow(b.transfers, found.value)))
  }

  // ---- accounts ----

  /** Edits of an account's opening balance and archive flag; its currency never changes. */
  function UpdateAccount(b: Book, account: nat, opening: int, archived: bool): Result<Book, Error> {
    if account >= |b.accounts| then Err(AccountNotFound)
    else Ok(b.(accounts := b.accounts[account := b.accounts[account].(opening := opening, archived := archived)]))
  }

  // ---- balances ----

  function Signed(tx: Tx): int { if tx.kind.Expense? then -tx.amount else tx.amount }

  function TxLeg(tx: Tx, account: nat): int { if tx.account == Some(account) then Signed(tx) else 0 }

  function TransactionsDelta(txs: seq<Tx>, account: nat): int {
    if txs == [] then 0 else TransactionsDelta(txs[..|txs| - 1], account) + TxLeg(txs[|txs| - 1], account)
  }

  function TransferLeg(t: Transfer, account: nat): int {
    (if t.target == account then t.targetAmount else 0) - (if t.source == account then t.sourceAmount else 0)
  }

  function TransfersDelta(transfers: seq<Transfer>, account: nat): int {
    if transfers == [] then 0
    else TransfersDelta(transfers[..|transfers| - 1], account) + TransferLeg(transfers[|transfers| - 1], account)
  }

  function Balance(b: Book, account: nat): int
    requires account < |b.accounts|
  {
    b.accounts[account].opening + TransactionsDelta(b.txs, account) + TransfersDelta(b.transfers, account)
  }
}
