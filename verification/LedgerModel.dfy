/// The account ledger that the stored rows stand for: every write reverses the old
/// entry of its transaction or transfer and books the new one.
module LedgerModel {
  import opened Wrappers
  import opened BookModel

  // ---- the abstract ledger ----

  /** The leg a facet account asks for. */
  datatype Leg = Leg(account: nat, amount: int)

  /** What the last write of a transaction asked for: its own leg, and a facet leg when an account was named. */
  datatype Entry = Entry(account: Option<nat>, amount: int, facet: Option<Leg>)

  datatype Journal =
    Journal(entries: map<nat, Entry>, transfers: map<nat, Transfer>, openings: seq<int>, balances: seq<int>)

  function OwnLeg(e: Entry, account: nat): int {
    if e.account == Some(account) then e.amount else 0
  }

  function FacetLeg(e: Entry, account: nat): int {
    if e.facet.Some? && e.facet.value.account == account then e.facet.value.amount else 0
  }

  function EntryLeg(e: Option<Entry>, account: nat): int {
    if e.None? then 0 else OwnLeg(e.value, account) + FacetLeg(e.value, account)
  }

  function Get<V>(m: map<nat, V>, id: nat): Option<V> {
    if id in m then Some(m[id]) else None
  }

  function Set<V>(m: map<nat, V>, id: nat, v: Option<V>): map<nat, V> {
    if v.Some? then m[id := v.value] else m - {id}
  }

  /** Reverses the entry of `id` and books the new one, or none. */
  function Post(j: Journal, id: nat, e: Option<Entry>): Journal {
    j.(entries := Set(j.entries, id, e),
       balances := seq(|j.balances|, a requires 0 <= a < |j.balances| =>
                         j.balances[a] - EntryLeg(Get(j.entries, id), a) + EntryLeg(e, a)))
  }

  function MoveLeg(t: Option<Transfer>, account: nat): int {
    if t.None? then 0 else TransferLeg(t.value, account)
  }

  function PostTransfer(j: Journal, id: nat, t: Option<Transfer>): Journal {
    j.(transfers := Set(j.transfers, id, t),
       balances := seq(|j.balances|, a requires 0 <= a < |j.balances| =>
                         j.balances[a] - MoveLeg(Get(j.transfers, id), a) + MoveLeg(t, a)))
  }

  function SetOpening(j: Journal, account: nat, opening: int): Journal {
    if account >= |j.openings| || account >= |j.balances| then j
    else
      j.(openings := j.openings[account := opening],
         balances := j.balances[account := j.balances[account] - j.openings[account] + opening])
  }

  function SignedAmount(kind: TxType, amount: int): int { if kind.Expense? then -amount else amount }

  function FacetOf(data: TxData): Option<Leg>
    requires data.Valid()
  {
    if data.facetAccount.None? then None
    else Some(Leg(data.facetAccount.value, SignedAmount(data.kind, data.facet.value.amount)))
  }

  /** The entry a payload asks for. */
  function EntryOf(data: TxData): Entry
    requires data.Valid()
  {
    Entry(data.account, SignedAmount(data.kind, data.amount), FacetOf(data))
  }

  /** The transfer a payload asks for: a target amount that is not given is the source amount. */
  function TransferOf(id: nat, data: TransferData): Transfer {
    Transfer(id, data.source, data.target, data.sourceAmount,
             if data.targetAmount.Some? then data.targetAmount.value else data.sourceAmount)
  }

  // ---- refinement ----

  /** A stored row is its entry's own leg, or the facet leg of its source's entry. */
  predicate RowSound(entries: map<nat, Entry>, tx: Tx) {
    if tx.source.None? then
      && tx.id in entries
      && entries[tx.id].account == tx.account && entries[tx.id].amount == Signed(tx)
    else
      && tx.kind.Adjustment? && tx.source.value in entries && tx.account.Some?
      && entries[tx.source.value].facet == Some(Leg(tx.account.value, tx.amount))
  }

  ghost predicate HasSource(txs: seq<Tx>, id: nat) {
    exists i :: 0 <= i < |txs| && txs[i].id == id && txs[i].source.None?
  }

  ghost predicate HasAdjustment(txs: seq<Tx>, id: nat) {
    exists i :: 0 <= i < |txs| && txs[i].source == Some(id)
  }

  /** Primary keys and the one-adjustment-per-source constraint. */
  ghost predicate Keyed(txs: seq<Tx>, nextTx: nat) {
    && (forall i :: 0 <= i < |txs| ==> txs[i].id < nextTx)
    && (forall i, j :: 0 <= i < j < |txs| ==> txs[i].id != txs[j].id)
    && (forall i, j :: 0 <= i < j < |txs| && txs[i].source.Some? ==> txs[i].source != txs[j].source)
  }

  ghost predicate RowsSound(txs: seq<Tx>, entries: map<nat, Entry>) {
    forall i :: 0 <= i < |txs| ==> RowSound(entries, txs[i])
  }

  /** An entry has its source row, and an adjustment row exactly when it names a facet account. */
  ghost predicate Backed(txs: seq<Tx>, id: nat, e: Entry) {
    HasSource(txs, id) && (e.facet.Some? <==> HasAdjustment(txs, id))
  }

  ghost predicate EntriesBacked(txs: seq<Tx>, nextTx: nat, entries: map<nat, Entry>) {
    forall id <- entries :: id < nextTx && Backed(txs, id, entries[id])
  }

  /** Rows against entries, both ways. */
  ghost predicate RowsRefine(txs: seq<Tx>, nextTx: nat, entries: map<nat, Entry>) {
    Keyed(txs, nextTx) && RowsSound(txs, entries) && EntriesBacked(txs, nextTx, entries)
  }

  predicate TransferSound(accounts: seq<Account>, t: Transfer) {
    && t.source != t.target && t.source < |accounts| && t.target < |accounts|
    && (accounts[t.source].currency == accounts[t.target].currency ==> t.sourceAmount == t.targetAmount)
  }

  /** Transfer rows are exactly the booked transfers. */
  ghost predicate TransfersRefine(rows: seq<Transfer>, next: nat, accounts: seq<Account>, booked: map<nat, Transfer>) {
    && (forall i :: 0 <= i < |rows| ==> rows[i].id < next && Get(booked, rows[i].id) == Some(rows[i]))
    && (forall i, k :: 0 <= i < k < |rows| ==> rows[i].id != rows[k].id)
    && (forall id <- booked :: exists i :: 0 <= i < |rows| && rows[i].id == id)
    && (forall i :: 0 <= i < |rows| ==> TransferSound(accounts, rows[i]))
  }

  ghost predicate BalancesRefine(b: Book, j: Journal) {
    && |j.balances| == |j.openings| == |b.accounts|
    && (forall a :: 0 <= a < |b.accounts| ==> j.openings[a] == b.accounts[a].opening)
    && (forall a :: 0 <= a < |b.accounts| ==> j.balances[a] == Balance(b, a))
  }

  ghost predicate Refines(b: Book, j: Journal) {
    && RowsRefine(b.txs, b.nextTx, j.entries)
    && TransfersRefine(b.transfers, b.nextTransfer, b.accounts, j.transfers)
    && BalancesRefine(b, j)
  }

  // ---- sums under table edits ----

  lemma {:induction false} DeltaAppend(txs: seq<Tx>, tx: Tx, a: nat)
    ensures TransactionsDelta(txs + [tx], a) == TransactionsDelta(txs, a) + TxLeg(tx, a)
  {
    assert (txs + [tx])[..|txs|] == txs;
  }

  lemma {:induction false} DeltaUpdate(txs: seq<Tx>, i: nat, tx: Tx, a: nat)
    requires i < |txs|
    ensures TransactionsDelta(txs[i := tx], a) == TransactionsDelta(txs, a) - TxLeg(txs[i], a) + TxLeg(tx, a)
  {
    var n := |txs| - 1;
    if i < n {
      DeltaUpdate(txs[..n], i, tx, a);
      assert txs[i := tx][..n] == txs[..n][i := tx];
    } else {
      assert txs[i := tx][..n] == txs[..n];
    }
  }

  lemma {:induction false} DeltaDrop(txs: seq<Tx>, i: nat, a: nat)
    requires i < |txs|
    ensures TransactionsDelta(DropRow(txs, i), a) == TransactionsDelta(txs, a) - TxLeg(txs[i], a)
  {
    var n := |txs| - 1;
    if i < n {
      DeltaDrop(txs[..n], i, a);
      assert DropRow(txs, i)[..n - 1] == DropRow(txs[..n], i);
      assert DropRow(txs, i)[n - 1] == txs[n];
    } else {
      assert DropRow(txs, i) == txs[..n];
    }
  }

  lemma {:induction false} LegsAppend(ts: seq<Transfer>, t: Transfer, a: nat)
    ensures TransfersDelta(ts + [t], a) == TransfersDelta(ts, a) + TransferLeg(t, a)
  {
    assert (ts + [t])[..|ts|] == ts;
  }

  lemma {:induction false} LegsUpdate(ts: seq<Transfer>, i: nat, t: Transfer, a: nat)
    requires i < |ts|
    ensures TransfersDelta(ts[i := t], a) == TransfersDelta(ts, a) - TransferLeg(ts[i], a) + TransferLeg(t, a)
  {
    var n := |ts| - 1;
    if i < n {
      LegsUpdate(ts[..n], i, t, a);
      assert ts[i := t][..n] == ts[..n][i := t];
    } else {
      assert ts[i := t][..n] == ts[..n];
    }
  }

  lemma {:induction false} LegsDrop(ts: seq<Transfer>, i: nat, a: nat)
    requires i < |ts|
    ensures TransfersDelta(DropRow(ts, i), a) == TransfersDelta(ts, a) - TransferLeg(ts[i], a)
  {
    var n := |ts| - 1;
    if i < n {
      LegsDrop(ts[..n], i, a);
      assert DropRow(ts, i)[..n - 1] == DropRow(ts[..n], i);
      assert DropRow(ts, i)[n - 1] == ts[n];
    } else {
      assert DropRow(ts, i) == ts[..n];
    }
  }
}
