/// Each edit of the transaction table against the entries it stands for.
module LedgerRows {
  import opened Wrappers
  import opened BookModel
  import opened LedgerModel

  /** Backing only looks at rows with the entry's id or source. */
  lemma BackedElsewhere(txs: seq<Tx>, after: seq<Tx>, id: nat, e: Entry)
    requires Backed(txs, id, e)
    requires forall tx <- txs :: (tx.id == id && tx.source.None?) || tx.source == Some(id) ==>
               exists u <- after :: u.id == tx.id && u.source == tx.source
    requires forall tx <- after :: tx.source == Some(id) ==> exists u <- txs :: u.source == Some(id)
    ensures Backed(after, id, e)
  {
    var i :| 0 <= i < |txs| && txs[i].id == id && txs[i].source.None?;
    assert txs[i] in txs;
    var u :| u in after && u.id == id && u.source.None?;
    var k :| 0 <= k < |after| && after[k] == u;
    if HasAdjustment(txs, id) {
      var a :| 0 <= a < |txs| && txs[a].source == Some(id);
      assert txs[a] in txs;
      var v :| v in after && v.source == Some(id);
      var l :| 0 <= l < |after| && after[l] == v;
    }
    if HasAdjustment(after, id) {
      var a :| 0 <= a < |after| && after[a].source == Some(id);
      assert after[a] in after;
      var v :| v in txs && v.source == Some(id);
      var l :| 0 <= l < |txs| && txs[l] == v;
    }
  }

  /** A fresh source row. */
  lemma AppendSource(txs: seq<Tx>, nextTx: nat, entries: map<nat, Entry>, tx: Tx, e: Entry)
    requires RowsRefine(txs, nextTx, entries)
    requires tx.id == nextTx && tx.source.None? && e.account == tx.account && e.amount == Signed(tx) && e.facet.None?
    ensures RowsRefine(txs + [tx], nextTx + 1, entries[nextTx := e])
  {
    hide Backed;
    var after, entries' := txs + [tx], entries[nextTx := e];
    forall i | 0 <= i < |after| ensures RowSound(entries', after[i]) {
      assert i < |txs| ==> RowSound(entries, txs[i]);
    }
    forall id | id in entries ensures Backed(after, id, entries[id]) {
      assert Backed(txs, id, entries[id]);
      BackedElsewhere(txs, after, id, entries[id]);
    }
    NewSourceBacked(txs, entries, tx, e);
  }

  lemma NewSourceBacked(txs: seq<Tx>, entries: map<nat, Entry>, tx: Tx, e: Entry)
    requires RowsSound(txs, entries) && tx.id !in entries && tx.source.None? && e.facet.None?
    ensures Backed(txs + [tx], tx.id, e)
  {
    var after := txs + [tx];
    assert after[|txs|] == tx;
    forall i | 0 <= i < |after| ensures after[i].source != Some(tx.id) {
      assert i < |txs| ==> RowSound(entries, txs[i]);
    }
  }

  /** A facet leg for a source that has none: a fresh adjustment row and the entry's facet part. */
  lemma AppendAdjustment(txs: seq<Tx>, nextTx: nat, entries: map<nat, Entry>, id: nat, row: Tx, e: Entry)
    requires RowsRefine(txs, nextTx, entries) && id in entries && entries[id].facet.None?
    requires row.id == nextTx && row.source == Some(id) && row.kind.Adjustment? && row.account.Some?
    requires e == entries[id].(facet := Some(Leg(row.account.value, row.amount)))
    ensures RowsRefine(txs + [row], nextTx + 1, entries[id := e])
  {
    hide Backed;
    var after, entries' := txs + [row], entries[id := e];
    assert Backed(txs, id, entries[id]);
    NoAdjustment(txs, id, entries[id]);
    forall i | 0 <= i < |after| ensures RowSound(entries', after[i]) {
      assert i < |txs| ==> RowSound(entries, txs[i]);
    }
    forall k | k in entries' ensures Backed(after, k, entries'[k]) {
      assert Backed(txs, k, entries[k]);
      if k != id {
        BackedElsewhere(txs, after, k, entries[k]);
      } else {
        AdjustmentBacked(txs, row, id, entries[id], e);
      }
    }
  }

  lemma NoAdjustment(txs: seq<Tx>, id: nat, e: Entry)
    requires Backed(txs, id, e) && e.facet.None?
    ensures forall i :: 0 <= i < |txs| ==> txs[i].source != Some(id)
  {}

  lemma AdjustmentBacked(txs: seq<Tx>, row: Tx, id: nat, before: Entry, e: Entry)
    requires Backed(txs, id, before) && row.source == Some(id) && e.facet.Some?
    ensures Backed(txs + [row], id, e)
  {
    var after := txs + [row];
    assert after[|txs|] == row;
    var i :| 0 <= i < |txs| && txs[i].id == id && txs[i].source.None?;
    assert after[i] == txs[i];
  }

  /** Rewriting a source row rewrites its entry's own leg. */
  lemma RewriteSource(txs: seq<Tx>, nextTx: nat, entries: map<nat, Entry>, i: nat, tx: Tx, e: Entry)
    requires RowsRefine(txs, nextTx, entries) && i < |txs| && txs[i].source.None?
    requires tx.id == txs[i].id && tx.source.None? && tx.id in entries
    requires e == entries[tx.id].(account := tx.account, amount := Signed(tx))
    ensures RowsRefine(txs[i := tx], nextTx, entries[tx.id := e])
  {
    hide Backed;
    var after, entries' := txs[i := tx], entries[tx.id := e];
    forall k | 0 <= k < |after| ensures RowSound(entries', after[k]) {
      assert RowSound(entries, txs[k]);
    }
    forall id | id in entries' ensures Backed(after, id, entries'[id]) {
      assert Backed(txs, id, entries[id]);
      SameShape(txs, after);
      BackedElsewhere(txs, after, id, entries'[id]) by { SameFacet(txs, id, entries[id], entries'[id]); }
    }
  }

  lemma SameFacet(txs: seq<Tx>, id: nat, e: Entry, f: Entry)
    requires Backed(txs, id, e) && (e.facet.Some? <==> f.facet.Some?)
    ensures Backed(txs, id, f)
  {}

  lemma SameShape(txs: seq<Tx>, after: seq<Tx>)
    requires |txs| == |after| &&
             forall i :: 0 <= i < |txs| ==> after[i].id == txs[i].id && after[i].source == txs[i].source
    ensures forall tx <- txs :: exists u <- after :: u.id == tx.id && u.source == tx.source
    ensures forall tx <- after :: exists u <- txs :: u.id == tx.id && u.source == tx.source
  {
    forall tx | tx in txs ensures exists u <- after :: u.id == tx.id && u.source == tx.source {
      var i :| 0 <= i < |txs| && txs[i] == tx;
      assert after[i] in after;
    }
    forall tx | tx in after ensures exists u <- txs :: u.id == tx.id && u.source == tx.source {
      var i :| 0 <= i < |after| && after[i] == tx;
      assert txs[i] in txs;
    }
  }

  /** Rewriting the adjustment row rewrites the entry's facet leg. */
  lemma RewriteAdjustment(txs: seq<Tx>, nextTx: nat, entries: map<nat, Entry>, l: nat, row: Tx, id: nat, e: Entry)
    requires RowsRefine(txs, nextTx, entries) && l < |txs| && txs[l].source == Some(id) && id in entries
    requires row.id == txs[l].id && row.source == Some(id) && row.kind.Adjustment? && row.account.Some?
    requires e == entries[id].(facet := Some(Leg(row.account.value, row.amount)))
    ensures RowsRefine(txs[l := row], nextTx, entries[id := e])
  {
    hide Backed;
    var after, entries' := txs[l := row], entries[id := e];
    assert RowSound(entries, txs[l]);
    forall k | 0 <= k < |after| ensures RowSound(entries', after[k]) {
      assert RowSound(entries, txs[k]);
    }
    forall k | k in entries' ensures Backed(after, k, entries'[k]) {
      assert Backed(txs, k, entries[k]);
      SameShape(txs, after);
      BackedElsewhere(txs, after, k, entries'[k]) by { SameFacet(txs, k, entries[k], entries'[k]); }
    }
  }

  /** Dropping the adjustment row drops the entry's facet leg. */
  lemma DropAdjustment(txs: seq<Tx>, nextTx: nat, entries: map<nat, Entry>, l: nat, id: nat, e: Entry)
    requires RowsRefine(txs, nextTx, entries) && l < |txs| && txs[l].source == Some(id) && id in entries
    requires e == entries[id].(facet := None)
    ensures RowsRefine(DropRow(txs, l), nextTx, entries[id := e])
  {
    hide Backed;
    var after, entries' := DropRow(txs, l), entries[id := e];
    DropMembers(txs, l);
    forall k | 0 <= k < |after| ensures RowSound(entries', after[k]) {
      var k' := if k < l then k else k + 1;
      assert after[k] == txs[k'] && RowSound(entries, txs[k']);
    }
    DropKeyed(txs, nextTx, l);
    forall k | k in entries' ensures Backed(after, k, entries'[k]) {
      assert Backed(txs, k, entries[k]);
      if k != id {
        BackedElsewhere(txs, after, k, entries[k]);
      } else {
        AdjustmentGone(txs, nextTx, l, id, entries[id], e);
      }
    }
  }

  lemma DropMembers(txs: seq<Tx>, l: nat)
    requires l < |txs|
    ensures forall tx <- DropRow(txs, l) :: tx in txs
    ensures forall tx <- txs :: tx in DropRow(txs, l) || tx == txs[l]
  {
    forall tx | tx in txs ensures tx in DropRow(txs, l) || tx == txs[l] {
      var i :| 0 <= i < |txs| && txs[i] == tx;
      if i < l {
        assert DropRow(txs, l)[i] == tx;
      } else if i > l {
        assert DropRow(txs, l)[i - 1] == tx;
      }
    }
  }

  lemma DropKeyed(txs: seq<Tx>, nextTx: nat, l: nat)
    requires Keyed(txs, nextTx) && l < |txs|
    ensures Keyed(DropRow(txs, l), nextTx)
  {
    var after := DropRow(txs, l);
    assert forall k :: 0 <= k < |after| ==> after[k] == txs[if k < l then k else k + 1];
  }

  lemma AdjustmentGone(txs: seq<Tx>, nextTx: nat, l: nat, id: nat, before: Entry, e: Entry)
    requires Keyed(txs, nextTx) && l < |txs| && txs[l].source == Some(id)
    requires Backed(txs, id, before) && e.facet.None?
    ensures Backed(DropRow(txs, l), id, e)
  {
    var after := DropRow(txs, l);
    assert forall k :: 0 <= k < |after| ==> after[k] == txs[if k < l then k else k + 1];
    var i :| 0 <= i < |txs| && txs[i].id == id && txs[i].source.None?;
    assert after[if i < l then i else i - 1].id == id;
  }

  /** Dropping a source row without an adjustment drops its entry. */
  lemma DropSource(txs: seq<Tx>, nextTx: nat, entries: map<nat, Entry>, i: nat)
    requires RowsRefine(txs, nextTx, entries) && i < |txs| && txs[i].source.None?
    requires txs[i].id in entries && entries[txs[i].id].facet.None?
    ensures RowsRefine(DropRow(txs, i), nextTx, entries - {txs[i].id})
  {
    hide Backed;
    var id, after, entries' := txs[i].id, DropRow(txs, i), entries - {txs[i].id};
    DropMembers(txs, i);
    DropKeyed(txs, nextTx, i);
    assert Backed(txs, id, entries[id]);
    NoAdjustment(txs, id, entries[id]);
    forall k | 0 <= k < |after| ensures RowSound(entries', after[k]) {
      var k' := if k < i then k else k + 1;
      assert after[k] == txs[k'] && RowSound(entries, txs[k']);
    }
    forall k | k in entries' ensures Backed(after, k, entries'[k]) {
      assert Backed(txs, k, entries[k]);
      BackedElsewhere(txs, after, k, entries[k]);
    }
  }
}
