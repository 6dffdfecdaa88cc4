/// Transfers conserve money: between accounts of one currency they leave every
/// per-currency total alone, and across currencies they move exactly their two amounts.
module TransferLaws {
  import opened Wrappers
  import opened BookModel
  import opened BookService
  import opened LedgerModel
  import opened LedgerLaws

  /** What a transfer adds to the total of a currency, counting the first `n` accounts only. */
  function PrefixLeg(accounts: seq<Account>, t: Option<Transfer>, n: nat, currency: string): int
    requires n <= |accounts|
  {
    if t.None? then 0
    else
      (if t.value.target < n && accounts[t.value.target].currency == currency then t.value.targetAmount else 0)
      - (if t.value.source < n && accounts[t.value.source].currency == currency then t.value.sourceAmount else 0)
  }

  /** What a transfer adds to the total of a currency. */
  function CurrencyLeg(accounts: seq<Account>, t: Option<Transfer>, currency: string): int {
    PrefixLeg(accounts, t, |accounts|, currency)
  }

  /** The total of a currency over all accounts, archived ones included. */
  function CurrencyTotal(b: Book, currency: string): int {
    TotalIn(BalanceRows(b, |b.accounts|, true), currency)
  }

  /** The row that the balance list has for an account. */
  predicate IsBalance(b: Book, row: BalanceRow, includeArchived: bool) {
    && row.account < |b.accounts| && (includeArchived || !b.accounts[row.account].archived)
    && row.currency == b.accounts[row.account].currency && row.balance == Balance(b, row.account)
  }

  lemma IsNextBalance(b: Book, n: nat, row: BalanceRow, includeArchived: bool)
    requires 0 < n <= |b.accounts|
    ensures row.account == n - 1 && IsBalance(b, row, includeArchived)
       <==> && row == BalanceRow(n - 1, b.accounts[n - 1].currency, Balance(b, n - 1))
            && (includeArchived || !b.accounts[n - 1].archived)
  {
    hide Balance;
  }

  /** The list has one row per account, archived ones only on request, each with its computed balance. */
  lemma {:induction false} BalancesListed(b: Book, n: nat, includeArchived: bool, row: BalanceRow)
    requires n <= |b.accounts|
    ensures multiset(BalanceRows(b, n, includeArchived))[row]
         == if row.account < n && IsBalance(b, row, includeArchived) then 1 else 0
  {
    hide Balance, IsBalance;
    if n != 0 {
      BalancesListed(b, n - 1, includeArchived, row);
      IsNextBalance(b, n, row, includeArchived);
      var last := BalanceRow(n - 1, b.accounts[n - 1].currency, Balance(b, n - 1));
      var before := BalanceRows(b, n - 1, includeArchived);
      if includeArchived || !b.accounts[n - 1].archived {
        assert BalanceRows(b, n, includeArchived) == before + [last];
        OneMoreListed(before, last, row);
      } else {
        assert BalanceRows(b, n, includeArchived) == before;
      }
    }
  }

  lemma OneMoreListed(rows: seq<BalanceRow>, last: BalanceRow, row: BalanceRow)
    ensures multiset(rows + [last])[row] == multiset(rows)[row] + if row == last then 1 else 0
  {}

  lemma SoundConserves(accounts: seq<Account>, t: Transfer, currency: string)
    requires TransferSound(accounts, t) && accounts[t.source].currency == accounts[t.target].currency
    ensures CurrencyLeg(accounts, Some(t), currency) == 0
  {}

  lemma RowsStep(b: Book, n: nat, currency: string)
    requires 0 < n <= |b.accounts|
    ensures TotalIn(BalanceRows(b, n, true), currency)
         == TotalIn(BalanceRows(b, n - 1, true), currency)
            + (if b.accounts[n - 1].currency == currency then Balance(b, n - 1) else 0)
  {
    hide Balance;
    var rows := BalanceRows(b, n, true);
    assert CurrencyAmounts(rows)[..n - 1] == CurrencyAmounts(BalanceRows(b, n - 1, true));
  }

  lemma NoRowsListed(b: Book, after: Book)
    ensures BalanceRows(after, 0, true) == BalanceRows(b, 0, true)
  {}

  /** Replacing one booked transfer by another moves the totals of a prefix of the accounts by their legs in it. */
  lemma {:induction false} TotalsShift(b: Book, after: Book, old_: Option<Transfer>, t: Option<Transfer>, n: nat,
                                       currency: string)
    requires n <= |b.accounts| && after.accounts == b.accounts
    requires forall o <- [old_, t] :: o.Some? ==> o.value.source < |b.accounts| && o.value.target < |b.accounts|
    requires forall a :: 0 <= a < |b.accounts| ==> Balance(after, a) == Balance(b, a) - MoveLeg(old_, a) + MoveLeg(t, a)
    ensures TotalIn(BalanceRows(after, n, true), currency)
         == TotalIn(BalanceRows(b, n, true), currency) - PrefixLeg(b.accounts, old_, n, currency)
            + PrefixLeg(b.accounts, t, n, currency)
  {
    hide Balance, TotalIn, BalanceRows;
    if n == 0 {
      NoRowsListed(b, after);
    } else {
      TotalsShift(b, after, old_, t, n - 1, currency);
      RowsStep(b, n, currency);
      RowsStep(after, n, currency);
    }
  }

  lemma BalanceShift(b: Book, j: Journal, after: Book, id: nat, t: Option<Transfer>)
    requires Refines(b, j) && Refines(after, PostTransfer(j, id, t))
    ensures forall a :: 0 <= a < |b.accounts| ==>
              Balance(after, a) == Balance(b, a) - MoveLeg(Get(j.transfers, id), a) + MoveLeg(t, a)
  {
    hide RowsRefine, TransfersRefine, Balance, MoveLeg;
  }

  lemma Booked(b: Book, j: Journal, id: nat)
    requires Refines(b, j)
    ensures FindTransfer(b.transfers, id).Some? ==>
            Get(j.transfers, id) == Some(b.transfers[FindTransfer(b.transfers, id).value])
    ensures FindTransfer(b.transfers, id).None? ==> Get(j.transfers, id).None?
    ensures forall i :: 0 <= i < |b.transfers| ==> TransferSound(b.accounts, b.transfers[i])
  {
    hide FindTransfer, RowsRefine, BalancesRefine;
    assert forall i :: 0 <= i < |b.transfers| ==> b.transfers[i] in b.transfers;
  }

  /** A new transfer moves each currency total by exactly its legs in it: not at all when both accounts share it. */
  lemma CreateConserves(b: Book, j: Journal, data: TransferData, currency: string)
    requires Refines(b, j) && CreateTransfer(b, data).Ok?
    ensures var t := TransferOf(b.nextTransfer, data);
            && CurrencyTotal(CreateTransfer(b, data).value, currency)
               == CurrencyTotal(b, currency) + CurrencyLeg(b.accounts, Some(t), currency)
            && (b.accounts[data.source].currency == b.accounts[data.target].currency ==>
                  CurrencyLeg(b.accounts, Some(t), currency) == 0)
  {
    hide Refines, Balance, TotalIn, BalanceRows, PostTransfer;
    var t := TransferOf(b.nextTransfer, data);
    CreateTransferRefines(b, j, data);
    BalanceShift(b, j, CreateTransfer(b, data).value, b.nextTransfer, Some(t));
    Unbooked(b, j);
    TotalsShift(b, CreateTransfer(b, data).value, None, Some(t), |b.accounts|, currency);
  }

  lemma Unbooked(b: Book, j: Journal)
    requires Refines(b, j)
    ensures Get(j.transfers, b.nextTransfer).None?
  {
    hide RowsRefine, BalancesRefine;
  }

  /** An edit undoes the old transfer's effect on the totals and applies the new one's. */
  lemma UpdateConserves(b: Book, j: Journal, id: nat, data: TransferData, currency: string)
    requires Refines(b, j) && UpdateTransfer(b, id, data).Ok?
    ensures var before, t := b.transfers[FindTransfer(b.transfers, id).value], TransferOf(id, data);
            && TransferSound(b.accounts, before) && TransferSound(b.accounts, t)
            && CurrencyTotal(UpdateTransfer(b, id, data).value, currency)
               == CurrencyTotal(b, currency) - CurrencyLeg(b.accounts, Some(before), currency)
                  + CurrencyLeg(b.accounts, Some(t), currency)
  {
    hide Refines, Balance, TotalIn, BalanceRows, PostTransfer, FindTransfer;
    var before, t := b.transfers[FindTransfer(b.transfers, id).value], TransferOf(id, data);
    UpdateTransferRefines(b, j, id, data);
    Booked(b, j, id);
    BalanceShift(b, j, UpdateTransfer(b, id, data).value, id, Some(t));
    TotalsShift(b, UpdateTransfer(b, id, data).value, Some(before), Some(t), |b.accounts|, currency);
  }

  /** Deleting a transfer undoes exactly its effect on the totals. */
  lemma DeleteConserves(b: Book, j: Journal, id: nat, currency: string)
    requires Refines(b, j) && DeleteTransfer(b, id).Ok?
    ensures var before := b.transfers[FindTransfer(b.transfers, id).value];
            && TransferSound(b.accounts, before)
            && CurrencyTotal(DeleteTransfer(b, id).value, currency)
               == CurrencyTotal(b, currency) - CurrencyLeg(b.accounts, Some(before), currency)
  {
    hide Refines, Balance, TotalIn, BalanceRows, PostTransfer, FindTransfer;
    var before := b.transfers[FindTransfer(b.transfers, id).value];
    DeleteTransferRefines(b, j, id);
    Booked(b, j, id);
    BalanceShift(b, j, DeleteTransfer(b, id).value, id, None);
    TotalsShift(b, DeleteTransfer(b, id).value, Some(before), None, |b.accounts|, currency);
  }
}
