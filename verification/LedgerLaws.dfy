/// Every book call is a posting: the stored rows go on refining the account ledger,
/// and every computed balance follows it.
module LedgerLaws {
  import opened Wrappers
  import opened BookModel
  import opened LedgerModel
  import opened LedgerRows

  // ---- table edits as postings ----

  /** Reposting an entry keeps nothing of the one in between. */
  lemma PostTwice(j: Journal, id: nat, e: Option<Entry>, f: Option<Entry>)
    ensures Post(Post(j, id, e), id, f) == Post(j, id, f)
  {
    hide EntryLeg;
    var twice, once := Post(Post(j, id, e), id, f), Post(j, id, f);
    assert Get(Set(j.entries, id, e), id) == e;
    assert Set(Set(j.entries, id, e), id, f) == Set(j.entries, id, f);
    assert twice.balances == once.balances;
  }

  /** Adding a row that is not linked to anything books its own leg. */
  lemma AppendRefines(b: Book, j: Journal, tx: Tx, e: Entry)
    requires Refines(b, j) && tx.id == b.nextTx && tx.source.None?
    requires e == Entry(tx.account, Signed(tx), None)
    ensures Refines(b.(txs := b.txs + [tx], nextTx := b.nextTx + 1), Post(j, b.nextTx, Some(e)))
  {
    hide RowsRefine, TransactionsDelta, TransfersDelta, TransfersRefine;
    AppendSource(b.txs, b.nextTx, j.entries, tx, e);
    NoEntry(b.txs, b.nextTx, j.entries);
    forall a: nat ensures TransactionsDelta(b.txs + [tx], a) == TransactionsDelta(b.txs, a) + OwnLeg(e, a) {
      DeltaAppend(b.txs, tx, a);
    }
  }

  lemma NoEntry(txs: seq<Tx>, nextTx: nat, entries: map<nat, Entry>)
    requires RowsRefine(txs, nextTx, entries)
    ensures nextTx !in entries
  {}

  lemma SourceEntry(txs: seq<Tx>, nextTx: nat, entries: map<nat, Entry>, i: nat)
    requires RowsRefine(txs, nextTx, entries) && i < |txs| && txs[i].source.None?
    ensures txs[i].id in entries
    ensures entries[txs[i].id].account == txs[i].account && entries[txs[i].id].amount == Signed(txs[i])
  {
    assert RowSound(entries, txs[i]);
  }

  /** Overwriting a source row rebooks its own leg. */
  lemma RewriteRefines(b: Book, j: Journal, i: nat, tx: Tx)
    requires Refines(b, j) && i < |b.txs| && b.txs[i].source.None? && tx.id == b.txs[i].id && tx.source.None?
    ensures tx.id in j.entries
    ensures Refines(b.(txs := b.txs[i := tx]),
                    Post(j, tx.id, Some(j.entries[tx.id].(account := tx.account, amount := Signed(tx)))))
  {
    hide RowsRefine, TransactionsDelta, TransfersDelta, TransfersRefine;
    SourceEntry(b.txs, b.nextTx, j.entries, i);
    var e := j.entries[tx.id].(account := tx.account, amount := Signed(tx));
    RewriteSource(b.txs, b.nextTx, j.entries, i, tx, e);
    forall a: nat
      ensures TransactionsDelta(b.txs[i := tx], a)
           == TransactionsDelta(b.txs, a) - OwnLeg(j.entries[tx.id], a) + OwnLeg(e, a)
    {
      DeltaUpdate(b.txs, i, tx, a);
    }
  }

  function WithFacet(e: Entry, tx: Tx, account: Option<nat>): Entry
    requires account.Some? ==> tx.facet.Some?
  {
    e.(facet := if account.None? then None else Some(Leg(account.value, FacetAmount(tx.kind, tx.facet.value))))
  }

  /** Creating, rewriting or deleting the adjustment rebooks the facet leg. */
  lemma SyncRefines(b: Book, j: Journal, tx: Tx, account: Option<nat>)
    requires Refines(b, j) && tx.id in j.entries
    requires account.Some? ==> tx.facet.Some? && account.value < |b.accounts|
    ensures Refines(SyncAdjustment(b, tx, account), Post(j, tx.id, Some(WithFacet(j.entries[tx.id], tx, account))))
  {
    hide RowsRefine, TransactionsDelta, TransfersDelta, TransfersRefine, FindLinked, SyncAdjustment;
    var before, e := j.entries[tx.id], WithFacet(j.entries[tx.id], tx, account);
    SyncRows(b, j.entries, tx, account);
    var after := SyncAdjustment(b, tx, account);
    forall a: nat
      ensures TransactionsDelta(after.txs, a) == TransactionsDelta(b.txs, a) - FacetLeg(before, a) + FacetLeg(e, a)
    {
      SyncDelta(b, j.entries, tx, account, a);
    }
  }

  lemma LinkedFacet(txs: seq<Tx>, nextTx: nat, entries: map<nat, Entry>, id: nat)
    requires RowsRefine(txs, nextTx, entries) && id in entries
    ensures FindLinked(txs, id).Some? ==>
              var row := txs[FindLinked(txs, id).value];
              row.kind.Adjustment? && row.account.Some? && entries[id].facet == Some(Leg(row.account.value, row.amount))
    ensures FindLinked(txs, id).None? ==> entries[id].facet.None?
  {
    hide FindLinked;
    var linked := FindLinked(txs, id);
    if linked.Some? {
      assert RowSound(entries, txs[linked.value]);
    } else {
      assert Backed(txs, id, entries[id]);
      assert forall i :: 0 <= i < |txs| ==> txs[i] in txs;
    }
  }

  lemma SyncRows(b: Book, entries: map<nat, Entry>, tx: Tx, account: Option<nat>)
    requires RowsRefine(b.txs, b.nextTx, entries) && tx.id in entries
    requires account.Some? ==> tx.facet.Some? && account.value < |b.accounts|
    ensures var after := SyncAdjustment(b, tx, account);
            && RowsRefine(after.txs, after.nextTx, entries[tx.id := WithFacet(entries[tx.id], tx, account)])
            && after == b.(txs := after.txs, nextTx := after.nextTx)
  {
    hide RowsRefine, FindLinked;
    var linked, e := FindLinked(b.txs, tx.id), WithFacet(entries[tx.id], tx, account);
    LinkedFacet(b.txs, b.nextTx, entries, tx.id);
    if account.Some? && linked.None? {
      AppendAdjustment(b.txs, b.nextTx, entries, tx.id, GeneratedAdjustment(b, b.nextTx, tx, account.value), e);
    } else if account.Some? {
      var row := GeneratedAdjustment(b, b.txs[linked.value].id, tx, account.value).(items := b.txs[linked.value].items);
      RewriteAdjustment(b.txs, b.nextTx, entries, linked.value, row, tx.id, e);
    } else if linked.Some? {
      DropAdjustment(b.txs, b.nextTx, entries, linked.value, tx.id, e);
    } else {
      assert entries[tx.id := e] == entries;
    }
  }

  lemma SyncDelta(b: Book, entries: map<nat, Entry>, tx: Tx, account: Option<nat>, a: nat)
    requires RowsRefine(b.txs, b.nextTx, entries) && tx.id in entries
    requires account.Some? ==> tx.facet.Some? && account.value < |b.accounts|
    ensures TransactionsDelta(SyncAdjustment(b, tx, account).txs, a)
         == TransactionsDelta(b.txs, a) - FacetLeg(entries[tx.id], a)
            + FacetLeg(WithFacet(entries[tx.id], tx, account), a)
  {
    hide RowsRefine, TransactionsDelta, FindLinked;
    var linked := FindLinked(b.txs, tx.id);
    LinkedFacet(b.txs, b.nextTx, entries, tx.id);
    if account.Some? && linked.None? {
      DeltaAppend(b.txs, GeneratedAdjustment(b, b.nextTx, tx, account.value), a);
    } else if account.Some? {
      var row := GeneratedAdjustment(b, b.txs[linked.value].id, tx, account.value).(items := b.txs[linked.value].items);
      DeltaUpdate(b.txs, linked.value, row, a);
    } else if linked.Some? {
      DeltaDrop(b.txs, linked.value, a);
    }
  }

  /** Dropping a source that has no adjustment unbooks its entry. */
  lemma DropRefines(b: Book, j: Journal, i: nat)
    requires Refines(b, j) && i < |b.txs| && b.txs[i].source.None?
    requires b.txs[i].id in j.entries && j.entries[b.txs[i].id].facet.None?
    ensures Refines(b.(txs := DropRow(b.txs, i)), Post(j, b.txs[i].id, None))
  {
    hide RowsRefine, TransactionsDelta, TransfersDelta, TransfersRefine;
    var id := b.txs[i].id;
    SourceEntry(b.txs, b.nextTx, j.entries, i);
    DropSource(b.txs, b.nextTx, j.entries, i);
    forall a: nat
      ensures TransactionsDelta(DropRow(b.txs, i), a) == TransactionsDelta(b.txs, a) - OwnLeg(j.entries[id], a)
    {
      DeltaDrop(b.txs, i, a);
    }
  }

  // ---- the transaction calls ----

  lemma NormalizedRow(tx: Tx)
    ensures Normalized(tx, true).Ok? ==> Normalized(tx, true).value == tx.(items := Normalized(tx, true).value.items)
  {}

  /** A create books exactly the entry its payload asks for. */
  lemma CreateRefines(b: Book, j: Journal, data: TxData)
    requires Refines(b, j) && data.Valid() && Create(b, data).Ok?
    ensures Refines(Create(b, data).value, Post(j, b.nextTx, Some(EntryOf(data))))
  {
    hide CheckCreate, Normalized, Refines, FindLinked;
    var currency := CheckCreate(b, data).value;
    var draft := FromData(b.nextTx, data, currency, data.items);
    NormalizedRow(draft);
    var tx := Normalized(draft, true).value;
    var own := Entry(tx.account, Signed(tx), None);
    var mid, mid' := b.(txs := b.txs + [tx], nextTx := b.nextTx + 1), Post(j, b.nextTx, Some(own));
    AppendRefines(b, j, tx, own);
    SyncRefines(mid, mid', tx, data.facetAccount);
    PostTwice(j, b.nextTx, Some(own), Some(EntryOf(data)));
    assert Create(b, data).value == SyncAdjustment(mid, tx, data.facetAccount) by {
      Unlinkable(mid, mid', tx.id);
      if data.facetAccount.Some? {
        var row := GeneratedAdjustment(b, b.nextTx + 1, tx, data.facetAccount.value);
        assert b.txs + [tx, row] == mid.txs + [row];
      }
    }
  }

  lemma Unlinkable(b: Book, j: Journal, id: nat)
    requires Refines(b, j) && id in j.entries && j.entries[id].facet.None?
    ensures FindLinked(b.txs, id).None?
  {
    hide RowsRefine, FindLinked;
    LinkedFacet(b.txs, b.nextTx, j.entries, id);
  }

  /** A full replace rebooks the transaction as its payload asks, whatever it was before. */
  lemma UpdateRefines(b: Book, j: Journal, id: nat, data: TxData)
    requires Refines(b, j) && data.Valid() && Update(b, id, data).Ok?
    ensures Refines(Update(b, id, data).value, Post(j, id, Some(EntryOf(data))))
  {
    hide CheckUpdate, Normalized, Refines, FindTx, SyncAdjustment;
    var i := FindTx(b.txs, id).value;
    var currency := CheckUpdate(b, i, data).value;
    assert b.txs[i].source.None? by { UpdateUnmanaged(b, i, data); }
    var draft := FromData(id, data, currency, b.txs[i].items);
    NormalizedRow(draft);
    var tx := Normalized(draft, true).value;
    RewriteRefines(b, j, i, tx);
    var own := j.entries[id].(account := tx.account, amount := Signed(tx));
    SyncRefines(b.(txs := b.txs[i := tx]), Post(j, id, Some(own)), tx, data.facetAccount);
    PostTwice(j, id, Some(own), Some(EntryOf(data)));
  }

  lemma UpdateUnmanaged(b: Book, i: nat, data: TxData)
    requires data.Valid() && i < |b.txs|
    ensures CheckUpdate(b, i, data).Ok? ==> b.txs[i].source.None?
  {}

  lemma EntryKnown(b: Book, j: Journal, i: nat)
    requires Refines(b, j) && i < |b.txs| && b.txs[i].source.None?
    ensures b.txs[i].id in j.entries && Keyed(b.txs, b.nextTx)
  {
    SourceEntry(b.txs, b.nextTx, j.entries, i);
  }

  /** Deleting a source unbooks both legs. */
  lemma DeleteRefines(b: Book, j: Journal, id: nat)
    requires Refines(b, j) && Delete(b, id).Ok?
    ensures Refines(Delete(b, id).value, Post(j, id, None))
  {
    hide Refines, FindTx, FindLinked, SyncAdjustment, RowsRefine;
    var i := FindTx(b.txs, id).value;
    EntryKnown(b, j, i);
    var e := WithFacet(j.entries[id], b.txs[i], None);
    SyncRefines(b, j, b.txs[i], None);
    var mid := SyncAdjustment(b, b.txs[i], None);
    var k := DeleteOrder(b, id);
    DropRefines(mid, Post(j, id, Some(e)), k);
    PostTwice(j, id, Some(e), None);
  }

  /** Dropping the adjustment before or after its source leaves the same rows. */
  lemma DeleteOrder(b: Book, id: nat) returns (k: nat)
    requires Keyed(b.txs, b.nextTx) && Delete(b, id).Ok?
    ensures var mid := SyncAdjustment(b, b.txs[FindTx(b.txs, id).value], None);
            && k < |mid.txs| && mid.txs[k] == b.txs[FindTx(b.txs, id).value]
            && Delete(b, id).value == mid.(txs := DropRow(mid.txs, k))
  {
    hide FindTx, FindLinked, Keyed, DropRow;
    k := DropBoth(b.txs, b.nextTx, FindTx(b.txs, id).value, id);
  }

  lemma DropBoth(txs: seq<Tx>, nextTx: nat, i: nat, id: nat) returns (k: nat)
    requires Keyed(txs, nextTx) && i < |txs| && txs[i].source.None?
    ensures var linked, rest := FindLinked(txs, id), DropRow(txs, i);
            var mid, after := if linked.Some? then DropRow(txs, linked.value) else txs, FindLinked(rest, id);
            k < |mid| && mid[k] == txs[i] && DropRow(mid, k) == if after.Some? then DropRow(rest, after.value) else rest
  {
    hide FindLinked, Keyed;
    var linked := FindLinked(txs, id);
    k := if linked.Some? && linked.value < i then i - 1 else i;
    LinkedAfterDrop(txs, nextTx, i, id);
    if linked.Some? {
      DropTwice(txs, i, linked.value);
    }
  }

  lemma LinkedAfterDrop(txs: seq<Tx>, nextTx: nat, i: nat, id: nat)
    requires Keyed(txs, nextTx) && i < |txs| && txs[i].source.None?
    ensures FindLinked(DropRow(txs, i), id) ==
            match FindLinked(txs, id) { case None => None case Some(l) => Some(if l < i then l else (l - 1) as nat) }
  {
    hide FindLinked;
    var rest, before := DropRow(txs, i), FindLinked(txs, id);
    var after := FindLinked(rest, id);
    if before.Some? {
      assert rest[if before.value < i then before.value else before.value - 1] in rest;
    }
    if after.Some? {
      assert txs[if after.value < i then after.value else after.value + 1] in txs;
    }
  }

  lemma DropTwice<T>(rows: seq<T>, i: nat, l: nat)
    requires i < |rows| && l < |rows| && i != l
    ensures var i', l' := if l < i then i - 1 else i, if l < i then l else l - 1;
            && DropRow(DropRow(rows, i), l') == DropRow(DropRow(rows, l), i')
            && DropRow(rows, l)[i'] == rows[i]
  {
    var i', l' := if l < i then i - 1 else i, if l < i then l else l - 1;
    var low, high := if l < i then l else i, if l < i then i else l;
    var kept := rows[..low] + rows[low + 1..high] + rows[high + 1..];
    assert DropRow(DropRow(rows, i), l') == kept;
    assert DropRow(DropRow(rows, l), i') == kept;
  }

  // ---- bulk calls ----

  function ImportEntry(account: nat, row: ImportRow): Entry {
    Entry(Some(account), SignedAmount(row.kind, row.amount), None)
  }

  /** The rows of an import, booked in turn under consecutive ids. */
  function PostRows(j: Journal, next: nat, account: nat, rows: seq<ImportRow>): Journal {
    if rows == [] then j
    else
      Post(PostRows(j, next, account, rows[..|rows| - 1]), next + |rows| - 1,
           Some(ImportEntry(account, rows[|rows| - 1])))
  }

  lemma {:induction false} ImportRefines(b: Book, j: Journal, account: nat, rows: seq<ImportRow>)
    requires Refines(b, j) && account < |b.accounts|
    ensures ImportAll(b, account, rows).nextTx == b.nextTx + |rows|
    ensures Refines(ImportAll(b, account, rows), PostRows(j, b.nextTx, account, rows))
  {
    hide Refines, Post;
    if rows != [] {
      var n := |rows| - 1;
      ImportRefines(b, j, account, rows[..n]);
      var before := ImportAll(b, account, rows[..n]);
      AppendRefines(before, PostRows(j, b.nextTx, account, rows[..n]),
                    Imported(before, account, rows[n]), ImportEntry(account, rows[n]));
    }
  }

  /** The listed transactions, moved in turn. */
  function PostMoves(j: Journal, ids: seq<nat>, account: nat): Journal {
    if ids == [] then j
    else
      var before, id := PostMoves(j, ids[..|ids| - 1], account), ids[|ids| - 1];
      if id in before.entries then Post(before, id, Some(before.entries[id].(account := Some(account)))) else before
  }

  lemma {:induction false} MovesRefine(b: Book, j: Journal, ids: seq<nat>, account: nat)
    requires Refines(b, j)
    requires forall id <- ids :: exists tx <- b.txs :: tx.id == id && tx.source.None?
    ensures Refines(b.(txs := Moved(b.txs, ids, account)), PostMoves(j, ids, account))
  {
    hide Refines, Post;
    if ids == [] {
      assert Moved(b.txs, ids, account) == b.txs;
    } else {
      var n := |ids| - 1;
      var id, init := ids[n], ids[..n];
      assert ids[n] in ids;
      assert forall k <- init :: k in ids;
      MovesRefine(b, j, init, account);
      var before := b.(txs := Moved(b.txs, init, account));
      var tx :| tx in b.txs && tx.id == id && tx.source.None?;
      var i :| 0 <= i < |b.txs| && b.txs[i] == tx;
      RewriteRefines(before, PostMoves(j, init, account), i, before.txs[i].(account := Some(account)));
      MovedStep(b, j, ids, account, i);
      MovedEntry(before, PostMoves(j, init, account), i);
    }
  }

  lemma MovedEntry(b: Book, j: Journal, i: nat)
    requires Refines(b, j) && i < |b.txs| && b.txs[i].source.None?
    ensures b.txs[i].id in j.entries && j.entries[b.txs[i].id].amount == Signed(b.txs[i])
  {
    hide RowsRefine;
    SourceEntry(b.txs, b.nextTx, j.entries, i);
  }

  lemma MovedStep(b: Book, j: Journal, ids: seq<nat>, account: nat, i: nat)
    requires Refines(b, j) && ids != [] && i < |b.txs| && b.txs[i].id == ids[|ids| - 1]
    ensures var before := Moved(b.txs, ids[..|ids| - 1], account);
            Moved(b.txs, ids, account) == before[i := before[i].(account := Some(account))]
  {
    hide BalancesRefine, TransfersRefine, RowsSound, EntriesBacked;
    assert ids == ids[..|ids| - 1] + [ids[|ids| - 1]];
    assert Keyed(b.txs, b.nextTx);
  }

  lemma BulkRefines(b: Book, j: Journal, ids: seq<nat>, account: nat)
    requires Refines(b, j) && BulkSetAccount(b, ids, account).Ok?
    ensures Refines(BulkSetAccount(b, ids, account).value, PostMoves(j, ids, account))
  {
    hide Refines, FindTx;
    forall id | id in ids ensures exists tx <- b.txs :: tx.id == id && tx.source.None? {
      var i := FindTx(b.txs, id).value;
      assert b.txs[i] in b.txs;
    }
    MovesRefine(b, j, ids, account);
  }

  // ---- calls that book nothing ----

  predicate SameLegs(tx: Tx, after: Tx) {
    after.id == tx.id && after.account == tx.account && after.kind == tx.kind
    && after.amount == tx.amount && after.source == tx.source
  }

  lemma {:induction false} SameDelta(txs: seq<Tx>, after: seq<Tx>, a: nat)
    requires |txs| == |after| && forall i :: 0 <= i < |txs| ==> SameLegs(txs[i], after[i])
    ensures TransactionsDelta(after, a) == TransactionsDelta(txs, a)
  {
    if txs != [] {
      SameDelta(txs[..|txs| - 1], after[..|after| - 1], a);
      assert SameLegs(txs[|txs| - 1], after[|txs| - 1]);
    }
  }

  /** Edits of items, categories and dates leave the ledger alone. */
  lemma UnbookedRefines(b: Book, j: Journal, after: Book)
    requires Refines(b, j) && |b.txs| == |after.txs| && after == b.(txs := after.txs, categories := after.categories)
    requires forall i :: 0 <= i < |b.txs| ==> SameLegs(b.txs[i], after.txs[i])
    ensures Refines(after, j)
  {
    hide TransactionsDelta, TransfersDelta, TransfersRefine, RowsRefine;
    forall a: nat ensures TransactionsDelta(after.txs, a) == TransactionsDelta(b.txs, a) {
      SameDelta(b.txs, after.txs, a);
    }
    SameRows(b.txs, after.txs, b.nextTx, j.entries);
  }

  lemma SameRows(txs: seq<Tx>, after: seq<Tx>, nextTx: nat, entries: map<nat, Entry>)
    requires RowsRefine(txs, nextTx, entries)
    requires |txs| == |after| && forall i :: 0 <= i < |txs| ==> SameLegs(txs[i], after[i])
    ensures RowsRefine(after, nextTx, entries)
  {
    hide Backed;
    forall i | 0 <= i < |after| ensures RowSound(entries, after[i]) {
      assert RowSound(entries, txs[i]);
    }
    forall id | id in entries ensures Backed(after, id, entries[id]) {
      assert Backed(txs, id, entries[id]);
      SameShape(txs, after);
      BackedElsewhere(txs, after, id, entries[id]);
    }
  }

  // ---- transfers and accounts ----

  lemma CreateTransferRefines(b: Book, j: Journal, data: TransferData)
    requires Refines(b, j) && CreateTransfer(b, data).Ok?
    ensures Refines(CreateTransfer(b, data).value,
                    PostTransfer(j, b.nextTransfer, Some(TransferOf(b.nextTransfer, data))))
  {
    hide RowsRefine, TransactionsDelta, TransfersDelta, TransferLeg, TransfersRefine, CheckTransfer;
    var t := TransferOf(b.nextTransfer, data);
    StoreTransfer(b, data, false);
    AppendTransfer(b.transfers, b.nextTransfer, b.accounts, j.transfers, t);
    forall a: nat ensures TransfersDelta(b.transfers + [t], a) == TransfersDelta(b.transfers, a) + TransferLeg(t, a) {
      LegsAppend(b.transfers, t, a);
    }
  }

  lemma StoreTransfer(b: Book, data: TransferData, allowArchived: bool)
    requires CheckTransfer(b, data, allowArchived).Ok?
    ensures forall id :: TransferSound(b.accounts, TransferOf(id, data))
    ensures forall id :: TransferOf(id, data).targetAmount == CheckTransfer(b, data, allowArchived).value
  {}

  lemma AppendTransfer(rows: seq<Transfer>, next: nat, accounts: seq<Account>, booked: map<nat, Transfer>, t: Transfer)
    requires TransfersRefine(rows, next, accounts, booked) && t.id == next && TransferSound(accounts, t)
    ensures TransfersRefine(rows + [t], next + 1, accounts, booked[next := t]) && next !in booked
  {
    hide TransferSound;
    var after := rows + [t];
    assert after[|rows|] == t;
    forall id | id in booked ensures exists i :: 0 <= i < |after| && after[i].id == id {
      var i :| 0 <= i < |rows| && rows[i].id == id;
      assert after[i].id == id;
    }
  }

  lemma UpdateTransferRefines(b: Book, j: Journal, id: nat, data: TransferData)
    requires Refines(b, j) && UpdateTransfer(b, id, data).Ok?
    ensures Refines(UpdateTransfer(b, id, data).value, PostTransfer(j, id, Some(TransferOf(id, data))))
  {
    hide RowsRefine, TransactionsDelta, TransfersDelta, TransferLeg, TransfersRefine, CheckTransfer, FindTransfer;
    var t, i := TransferOf(id, data), FindTransfer(b.transfers, id).value;
    StoreTransfer(b, data, true);
    RewriteTransfer(b.transfers, b.nextTransfer, b.accounts, j.transfers, i, t);
    forall a: nat
      ensures TransfersDelta(b.transfers[i := t], a)
           == TransfersDelta(b.transfers, a) - TransferLeg(b.transfers[i], a) + TransferLeg(t, a)
    {
      LegsUpdate(b.transfers, i, t, a);
    }
  }

  lemma RewriteTransfer(rows: seq<Transfer>, next: nat, accounts: seq<Account>, booked: map<nat, Transfer>, i: nat,
                        t: Transfer)
    requires TransfersRefine(rows, next, accounts, booked) && i < |rows| && t.id == rows[i].id
    requires TransferSound(accounts, t)
    ensures Get(booked, t.id) == Some(rows[i])
    ensures TransfersRefine(rows[i := t], next, accounts, booked[t.id := t])
  {
    hide TransferSound;
    var after := rows[i := t];
    forall k | k in booked ensures exists l :: 0 <= l < |after| && after[l].id == k {
      var l :| 0 <= l < |rows| && rows[l].id == k;
      assert after[l].id == k;
    }
  }

  lemma DeleteTransferRefines(b: Book, j: Journal, id: nat)
    requires Refines(b, j) && DeleteTransfer(b, id).Ok?
    ensures Refines(DeleteTransfer(b, id).value, PostTransfer(j, id, None))
  {
    hide RowsRefine, TransactionsDelta, TransfersDelta, TransferLeg, TransfersRefine, FindTransfer;
    var i := FindTransfer(b.transfers, id).value;
    DropTransfer(b.transfers, b.nextTransfer, b.accounts, j.transfers, i);
    forall a: nat
      ensures TransfersDelta(DropRow(b.transfers, i), a)
           == TransfersDelta(b.transfers, a) - TransferLeg(b.transfers[i], a)
    {
      LegsDrop(b.transfers, i, a);
    }
  }

  lemma DropTransfer(rows: seq<Transfer>, next: nat, accounts: seq<Account>, booked: map<nat, Transfer>, i: nat)
    requires TransfersRefine(rows, next, accounts, booked) && i < |rows|
    ensures Get(booked, rows[i].id) == Some(rows[i])
    ensures TransfersRefine(DropRow(rows, i), next, accounts, booked - {rows[i].id})
  {
    hide TransferSound, DropRow;
    var after := DropRow(rows, i);
    RowsAfterDrop(rows, i);
    forall k | k in booked && k != rows[i].id ensures exists l :: 0 <= l < |after| && after[l].id == k {
      TransferKept(rows, i, k);
    }
  }

  lemma RowsAfterDrop(rows: seq<Transfer>, i: nat)
    requires i < |rows| && forall l, k :: 0 <= l < k < |rows| ==> rows[l].id != rows[k].id
    ensures forall l :: 0 <= l < |DropRow(rows, i)| ==>
              DropRow(rows, i)[l] in rows && DropRow(rows, i)[l].id != rows[i].id
    ensures forall l, k :: 0 <= l < k < |DropRow(rows, i)| ==> DropRow(rows, i)[l].id != DropRow(rows, i)[k].id
  {
    assert forall l :: 0 <= l < |DropRow(rows, i)| ==> DropRow(rows, i)[l] == rows[if l < i then l else l + 1];
  }

  lemma TransferKept(rows: seq<Transfer>, i: nat, id: nat)
    requires i < |rows| && id != rows[i].id && exists l :: 0 <= l < |rows| && rows[l].id == id
    ensures var after := DropRow(rows, i); exists l :: 0 <= l < |after| && after[l].id == id
  {
    var l :| 0 <= l < |rows| && rows[l].id == id;
    assert DropRow(rows, i)[if l < i then l else l - 1].id == id;
  }

  /** An opening-balance edit moves that account's balance by the difference and no other. */
  lemma UpdateAccountRefines(b: Book, j: Journal, account: nat, opening: int, archived: bool)
    requires Refines(b, j) && UpdateAccount(b, account, opening, archived).Ok?
    ensures Refines(UpdateAccount(b, account, opening, archived).value, SetOpening(j, account, opening))
  {
    hide RowsRefine, TransactionsDelta, TransfersDelta;
    var after := UpdateAccount(b, account, opening, archived).value;
    forall i | 0 <= i < |b.transfers| ensures TransferSound(after.accounts, b.transfers[i]) {
      assert TransferSound(b.accounts, b.transfers[i]);
    }
  }
}
