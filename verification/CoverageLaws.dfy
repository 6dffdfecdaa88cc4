/// Line-item coverage: every non-adjustment transaction's items sum to its amount
/// within half a cent, exactly on whole-cent items, over every run of calls.
module CoverageLaws {
  import opened Wrappers
  import opened Money
  import opened BookModel

  /** At most one remainder row, and it is the last row. */
  predicate Shaped(items: seq<Item>) {
    forall i :: 0 <= i < |items| - 1 ==> !items[i].remainder
  }

  predicate HasRemainder(items: seq<Item>) {
    items != [] && items[|items| - 1].remainder
  }

  /** What the service keeps of every stored transaction. */
  predicate Covered(tx: Tx) {
    && Shaped(tx.items)
    && (tx.source.Some? ==> tx.kind.Adjustment?)
    && (if tx.kind.Adjustment? then !HasRemainder(tx.items)
        else
          && -500 <= RawTotal(tx.items) - UNIT * tx.amount <= 500
          && (HasRemainder(tx.items) ==>
                tx.items[|tx.items| - 1].lineTotal.Some? && tx.items[|tx.items| - 1].lineTotal.value > 0))
  }

  predicate AllCovered(txs: seq<Tx>) {
    forall i :: 0 <= i < |txs| ==> Covered(txs[i])
  }

  // ---- one normalisation ----

  lemma {:induction false} NoRemainderRows(items: seq<Item>)
    requires forall i :: 0 <= i < |items| ==> !items[i].remainder
    ensures UserRows(items) == items && FirstRemainder(items).None?
  {
    if items != [] {
      NoRemainderRows(items[..|items| - 1]);
    }
  }

  lemma {:induction false} ShapedRows(items: seq<Item>)
    requires Shaped(items)
    ensures UserRows(items) == if HasRemainder(items) then items[..|items| - 1] else items
    ensures FirstRemainder(items) == if HasRemainder(items) then Some(|items| - 1) else None
  {
    if items != [] {
      var init := items[..|items| - 1];
      assert items == init + [items[|items| - 1]];
      NoRemainderRows(init);
    }
  }

  lemma RawTotalAppend(items: seq<Item>, item: Item)
    ensures RawTotal(items + [item]) == RawTotal(items) + item.Effective()
  {
    assert (items + [item])[..|items|] == items;
  }

  lemma NormalizedTail(tx: Tx, strict: bool)
    requires Shaped(tx.items) && !tx.kind.Adjustment?
    ensures var users := UserRows(tx.items);
            var rest := tx.amount - ItemsTotal(users);
            && (Normalized(tx, strict).Err? <==> rest < 0 && strict)
            && (Normalized(tx, strict).Ok? ==>
                  var items := Normalized(tx, strict).value.items;
                  if rest <= 0 then items == users
                  else |items| == |users| + 1 && items[..|users|] == users
                       && items[|users|].remainder && items[|users|].lineTotal == Some(rest))
  {
    hide Quantize, RawTotal, UserRows, FirstRemainder;
    ShapedRows(tx.items);
    var n := |tx.items|;
    if HasRemainder(tx.items) {
      assert tx.items[..n - 1] + tx.items[n..] == tx.items[..n - 1];
    }
  }

  lemma RemainderLast(users: seq<Item>, items: seq<Item>)
    requires forall row <- users :: !row.remainder
    requires items == users || (|items| == |users| + 1 && items[..|users|] == users && items[|users|].remainder)
    ensures Shaped(items) && UserRows(items) == users && (HasRemainder(items) <==> items != users)
  {
    assert forall i :: 0 <= i < |users| ==> users[i] in users && items[i] == users[i];
    ShapedRows(items);
  }

  /** The rows after normalisation: the user's rows, then a remainder row if the amount is not reached. */
  lemma NormalizedItems(tx: Tx, strict: bool)
    requires Shaped(tx.items) && !tx.kind.Adjustment?
    ensures var rest := tx.amount - ItemsTotal(UserRows(tx.items));
            && (Normalized(tx, strict).Err? <==> rest < 0 && strict)
            && (Normalized(tx, strict).Ok? ==>
                  var items := Normalized(tx, strict).value.items;
                  && Shaped(items) && UserRows(items) == UserRows(tx.items)
                  && (HasRemainder(items) <==> rest > 0)
                  && (rest <= 0 ==> items == UserRows(tx.items))
                  && (rest > 0 ==>
                        && items == UserRows(tx.items) + [items[|items| - 1]]
                        && items[|items| - 1].remainder && items[|items| - 1].lineTotal == Some(rest)))
  {
    hide Quantize, RawTotal, UserRows, FirstRemainder, Normalized, Shaped, HasRemainder;
    NormalizedTail(tx, strict);
    if Normalized(tx, strict).Ok? {
      RemainderLast(UserRows(tx.items), Normalized(tx, strict).value.items);
    }
  }

  /**
   Strict normalisation fails exactly when the user's rounded rows exceed the
   amount. Otherwise the rows cover the amount within half a cent, exactly when the
   user's rows are whole cents, and the rounded total is off, by one cent, exactly
   when the user's rows end in half a cent and the amount is odd.
   */
  lemma StrictNormalisationCovers(tx: Tx)
    requires Shaped(tx.items) && !tx.kind.Adjustment? && tx.source.None?
    ensures Normalized(tx, true).Err? <==> ItemsTotal(UserRows(tx.items)) > tx.amount
    ensures Normalized(tx, true).Ok? ==>
              var after := Normalized(tx, true).value;
              var raw := RawTotal(UserRows(tx.items));
              && Covered(after) && UserRows(after.items) == UserRows(tx.items)
              && (HasRemainder(after.items) <==> ItemsTotal(UserRows(tx.items)) < tx.amount)
              && (WholeCents(raw) ==> RawTotal(after.items) == UNIT * tx.amount)
              && ItemsTotal(after.items) - tx.amount ==
                 (if IsTie(raw) && tx.amount % 2 != 0 then (if (raw / UNIT) % 2 == 0 then 1 else -1) else 0)
  {
    hide Quantize, RawTotal, UserRows, FirstRemainder;
    NormalizedItems(tx, true);
    if Normalized(tx, true).Ok? {
      var users := UserRows(tx.items);
      var raw := RawTotal(users);
      var rest := tx.amount - ItemsTotal(users);
      var items := Normalized(tx, true).value.items;
      QuantizeNearest(raw, 0);
      QuantizeWhole(raw);
      if rest > 0 {
        RawTotalAppend(users, items[|items| - 1]);
        QuantizeShift(raw, rest);
      }
    }
  }

  /** The lenient writer keeps over-sum rows: coverage survives exactly up to half a cent of excess. */
  lemma LenientNormalisationCovers(tx: Tx)
    requires Shaped(tx.items) && !tx.kind.Adjustment? && tx.source.None?
    ensures Normalized(tx, false).Ok?
    ensures Covered(Normalized(tx, false).value) <==> RawTotal(UserRows(tx.items)) <= UNIT * tx.amount + 500
  {
    hide Quantize, RawTotal, UserRows, FirstRemainder;
    NormalizedItems(tx, false);
    NormalizedItems(tx, true);
    var users := UserRows(tx.items);
    QuantizeNearest(RawTotal(users), 0);
    if tx.amount - ItemsTotal(users) >= 0 {
      StrictNormalisationCovers(tx);
    }
  }

  lemma AdjustmentNormalised(tx: Tx, strict: bool)
    requires Shaped(tx.items) && tx.kind.Adjustment?
    ensures Normalized(tx, strict).Ok? && Covered(Normalized(tx, strict).value)
  {
    ShapedRows(tx.items);
  }

  lemma StrictResultCovered(tx: Tx)
    requires Shaped(tx.items) && tx.source.None?
    ensures Normalized(tx, true).Ok? ==> Covered(Normalized(tx, true).value)
  {
    hide Normalized, Covered;
    if tx.kind.Adjustment? {
      AdjustmentNormalised(tx, true);
    } else {
      StrictNormalisationCovers(tx);
    }
  }

  /**
   Replacing items discards the stored remainder row with the others. The new one is
   labelled by what the call gives, field by field, and blank in what it does not; so a
   field that is not given is left as it was exactly when it was blank.
   */
  lemma ReplaceResetsRemainder(b: Book, id: nat, items: seq<Item>, category: Option<nat>, name: Option<string>)
    requires ValidItems(items) && CategoriesKnown(b)
    ensures ReplaceItems(b, id, items, category, name).Ok? ==>
              var i := FindTx(b.txs, id).value;
              var before, after := b.txs[i].items, ReplaceItems(b, id, items, category, name).value.txs[i].items;
              HasRemainder(after) ==>
                var row := after[|after| - 1];
                && row.category == category && row.name == (if name.Some? then name.value else "")
                && (HasRemainder(before) && name.None? ==>
                      (row.name == before[|before| - 1].name <==> before[|before| - 1].name == ""))
                && (HasRemainder(before) && category.None? ==>
                      (row.category == before[|before| - 1].category <==> before[|before| - 1].category.None?))
  {
    hide CheckItemCategories, Normalized, FindTx, LabelRemainder;
    if ReplaceItems(b, id, items, category, name).Ok? {
      var i := FindTx(b.txs, id).value;
      assert b.txs[i] in b.txs;
      var draft := b.txs[i].(items := items);
      FreshRemainder(draft);
      NormalizedCategory(draft);
      LabelledRow(b, Normalized(draft, true).value, category, name);
    }
  }

  /** A remainder row created for rows that had none is the last row, and blank. */
  lemma FreshRemainder(tx: Tx)
    requires forall item <- tx.items :: !item.remainder
    ensures Normalized(tx, true).Ok? ==>
              var after := Normalized(tx, true).value;
              && Shaped(after.items)
              && (HasRemainder(after.items) ==>
                    after.items[|after.items| - 1].name == "" && after.items[|after.items| - 1].category.None?)
  {
    hide Quantize, RawTotal, UserRows, FirstRemainder;
    assert forall k :: 0 <= k < |tx.items| ==> tx.items[k] in tx.items;
    NoRemainderRows(tx.items);
  }

  lemma LabelledRow(b: Book, tx: Tx, category: Option<nat>, name: Option<string>)
    requires Shaped(tx.items) && (tx.category.Some? ==> tx.category.value in b.categories)
    ensures LabelRemainder(b, tx, category, name).Ok? ==>
              var after := LabelRemainder(b, tx, category, name).value;
              && (HasRemainder(after.items) <==> HasRemainder(tx.items))
              && (HasRemainder(tx.items) ==>
                    var old_, row := tx.items[|tx.items| - 1], after.items[|after.items| - 1];
                    && row.category == (if category.Some? then category else old_.category)
                    && row.name == (if name.Some? then name.value else old_.name))
  {
    hide FirstRemainder, UserRows;
    ShapedRows(tx.items);
  }

  /** A new book's transaction of 5.00, without an account. */
  function Sample(): Book {
    Book([], map[], {"USD"}, {"USD"},
         [Tx(0, None, "USD", 1, Expense, 500, None, None, None, [NewRemainder(500)])], 1, [], 0)
  }

  lemma BlankNormalised(tx: Tx)
    requires !tx.kind.Adjustment? && tx.items == [] && tx.amount > 0
    ensures Normalized(tx, true) == Ok(tx.(items := [NewRemainder(tx.amount)]))
  {
    assert ItemsTotal(UserRows(tx.items)) == 0 && FirstRemainder(tx.items).None?;
    assert tx.items + [NewRemainder(tx.amount)] == [NewRemainder(tx.amount)];
  }

  lemma SampleIsCreated()
    ensures var data := TxData(1, Expense, 500, None, Some("USD"), None, None, None, [], true);
            Create(Book([], map[], {"USD"}, {"USD"}, [], 0, [], 0), data) == Ok(Sample())
    ensures AllCovered(Sample().txs) && CategoriesKnown(Sample()) && FindTx(Sample().txs, 0) == Some(0)
  {
    var tx := Tx(0, None, "USD", 1, Expense, 500, None, None, None, []);
    BlankNormalised(tx);
    assert [] + [tx.(items := [NewRemainder(500)])] == Sample().txs;
    assert [NewRemainder(500)][..0] == [] && Sample().txs[..0] == [];
    assert RawTotal([NewRemainder(500)]) == UNIT * 500;
  }

  /** A remainder renamed by one call loses its name to the next, which gives none. */
  lemma ReplaceForgetsName()
    ensures var named := ReplaceItems(Sample(), 0, [], None, Some("Rest"));
            && named.Ok? && CategoriesKnown(named.value) && |named.value.txs| == 1 && |named.value.txs[0].items| == 1
            && named.value.txs[0].items[0].name == "Rest"
            && ReplaceItems(named.value, 0, [], None, None) == Ok(Sample())
  {
    SampleIsCreated();
    var tx, row := Sample().txs[0], NewRemainder(500).(name := "Rest");
    var named := Sample().(txs := [tx.(items := [row])]);
    BlankNormalised(tx.(items := []));
    OneRemainder(NewRemainder(500));
    assert [tx][0 := tx.(items := [row])] == named.txs && [NewRemainder(500)][0 := row] == [row];
    assert ReplaceItems(Sample(), 0, [], None, Some("Rest")) == Ok(named);
    assert named.txs[..0] == [] && FindTx(named.txs, 0) == Some(0);
    assert [NewRemainder(500)][0 := NewRemainder(500)] == [NewRemainder(500)];
    assert named.txs[0 := tx] == Sample().txs;
  }

  lemma OneRemainder(row: Item)
    requires row.remainder
    ensures FirstRemainder([row]) == Some(0)
  {
    assert [row][..0] == [];
  }

  /** A receipt row of 9.00 on a transaction of 5.00 stays, and the items no longer cover it. */
  lemma OverSumUncovers()
    ensures !AllCovered(AutoFill(Sample(), 0, [Item("till", 1000, None, Some(900), None, false)]).txs)
  {
    var parsed := [Item("till", 1000, None, Some(900), None, false)];
    SampleIsCreated();
    assert [NewRemainder(500)][..0] == [] && parsed[..0] == [];
    assert RawTotal(parsed) == UNIT * 900;
    AutoFillCovered(Sample(), 0, parsed);
  }

  // ---- the book's calls ----

  lemma SubmittedShaped(items: seq<Item>)
    requires forall item <- items :: !item.remainder
    ensures Shaped(items)
  {
    assert forall i :: 0 <= i < |items| ==> items[i] in items;
  }

  lemma CreateCovered(b: Book, data: TxData)
    requires AllCovered(b.txs) && data.Valid()
    ensures Create(b, data).Ok? ==> AllCovered(Create(b, data).value.txs)
  {
    hide CheckCreate, Normalized;
    if Create(b, data).Ok? {
      var currency := CheckCreate(b, data).value;
      var draft := FromData(b.nextTx, data, currency, data.items);
      SubmittedShaped(data.items);
      StrictResultCovered(draft);
    }
  }

  lemma UpdateCovered(b: Book, id: nat, data: TxData)
    requires AllCovered(b.txs) && data.Valid()
    ensures Update(b, id, data).Ok? ==> AllCovered(Update(b, id, data).value.txs)
  {
    hide CheckUpdate, Normalized, FindTx, FindLinked, SyncAdjustment;
    if Update(b, id, data).Ok? {
      var i := FindTx(b.txs, id).value;
      var currency := CheckUpdate(b, i, data).value;
      var draft := FromData(id, data, currency, b.txs[i].items);
      assert Covered(b.txs[i]);
      StrictResultCovered(draft);
      var tx := Normalized(draft, true).value;
      NormalizedFacet(draft);
      SyncCovered(b.(txs := b.txs[i := tx]), tx, data.facetAccount);
    }
  }

  lemma NormalizedFacet(tx: Tx)
    ensures Normalized(tx, true).Ok? ==> Normalized(tx, true).value.facet == tx.facet
  {}

  lemma SyncCovered(b: Book, tx: Tx, account: Option<nat>)
    requires AllCovered(b.txs) && (account.Some? ==> tx.facet.Some? && account.value < |b.accounts|)
    ensures AllCovered(SyncAdjustment(b, tx, account).txs)
  {
    hide FindLinked, RawTotal;
    var linked := FindLinked(b.txs, tx.id);
    if linked.Some? {
      assert Covered(b.txs[linked.value]);
    }
  }

  lemma RemoveCovered(b: Book, id: nat)
    requires AllCovered(b.txs)
    ensures Delete(b, id).Ok? ==> AllCovered(Delete(b, id).value.txs)
  {
    hide FindTx, FindLinked, Covered;
  }

  lemma ReplaceCovered(b: Book, id: nat, items: seq<Item>, category: Option<nat>, name: Option<string>)
    requires AllCovered(b.txs) && ValidItems(items) && CategoriesKnown(b)
    ensures ReplaceItems(b, id, items, category, name).Ok? ==>
            AllCovered(ReplaceItems(b, id, items, category, name).value.txs)
  {
    hide CheckItemCategories, Normalized, LabelRemainder, FindTx, Covered;
    if ReplaceItems(b, id, items, category, name).Ok? {
      var i := FindTx(b.txs, id).value;
      assert b.txs[i] in b.txs;
      var draft := b.txs[i].(items := items);
      SubmittedShaped(items);
      SourcelessOrAdjustment(b.txs[i]);
      if draft.kind.Adjustment? {
        AdjustmentNormalised(draft, true);
      } else {
        StrictResultCovered(draft);
      }
      NormalizedCategory(draft);
      LabelCovered(b, Normalized(draft, true).value, category, name);
    }
  }

  lemma SourcelessOrAdjustment(tx: Tx)
    requires Covered(tx)
    ensures tx.kind.Adjustment? || tx.source.None?
  {}

  lemma NormalizedCategory(tx: Tx)
    ensures Normalized(tx, true).Ok? ==> Normalized(tx, true).value.category == tx.category
  {}

  /** Renaming or recategorising the remainder keeps every total. */
  lemma LabelCovered(b: Book, tx: Tx, category: Option<nat>, name: Option<string>)
    requires Covered(tx) && (tx.category.Some? ==> tx.category.value in b.categories)
    ensures LabelRemainder(b, tx, category, name).Ok? ==> Covered(LabelRemainder(b, tx, category, name).value)
  {
    ShapedRows(tx.items);
    if LabelRemainder(b, tx, category, name).Ok? && HasRemainder(tx.items) {
      var n, after := |tx.items|, LabelRemainder(b, tx, category, name).value;
      assert after.items[..n - 1] == tx.items[..n - 1];
      assert after.items[n - 1].Effective() == tx.items[n - 1].Effective();
    }
  }

  /** Filling from a receipt keeps the book covered iff the parsed rows do not exceed the amount by over half a cent. */
  lemma AutoFillCovered(b: Book, id: nat, parsed: seq<Item>)
    requires AllCovered(b.txs) && forall item <- parsed :: !item.remainder
    requires FindTx(b.txs, id).Some?
    requires var tx := b.txs[FindTx(b.txs, id).value]; UserRows(tx.items) == [] && parsed != []
    ensures var tx := b.txs[FindTx(b.txs, id).value];
            AllCovered(AutoFill(b, id, parsed).txs) <==>
              tx.kind.Adjustment? || RawTotal(parsed) <= UNIT * tx.amount + 500
  {
    hide Normalized, FindTx, Covered, RawTotal, UserRows;
    var i := FindTx(b.txs, id).value;
    var draft := b.txs[i].(items := parsed);
    SubmittedShaped(parsed);
    assert forall k :: 0 <= k < |parsed| ==> parsed[k] in parsed;
    NoRemainderRows(parsed);
    assert Covered(b.txs[i]);
    SourcelessOrAdjustment(b.txs[i]);
    if draft.kind.Adjustment? {
      AdjustmentNormalised(draft, false);
    } else {
      LenientNormalisationCovers(draft);
    }
    OneRewritten(b.txs, i, Normalized(draft, false).value);
  }

  lemma OneRewritten(txs: seq<Tx>, i: nat, tx: Tx)
    requires AllCovered(txs) && i < |txs|
    ensures AllCovered(txs[i := tx]) <==> Covered(tx)
  {
    hide Covered;
    assert txs[i := tx][i] == tx;
  }

  lemma {:induction false} ImportCovered(b: Book, account: nat, rows: seq<ImportRow>)
    requires AllCovered(b.txs) && account < |b.accounts| && forall row <- rows :: row.Valid()
    ensures AllCovered(ImportAll(b, account, rows).txs)
  {
    hide Covered;
    if rows != [] {
      ImportCovered(b, account, rows[..|rows| - 1]);
      var before := ImportAll(b, account, rows[..|rows| - 1]);
      ImportedCovered(before, account, rows[|rows| - 1]);
    }
  }

  lemma ImportedCovered(b: Book, account: nat, row: ImportRow)
    requires account < |b.accounts| && row.Valid()
    ensures Covered(Imported(b, account, row))
  {
    assert [NewRemainder(row.amount)][..0] == [];
  }

  lemma {:induction false} RecategorisedTotal(items: seq<Item>, from: nat, target: Option<nat>)
    ensures RawTotal(RecategoriseItems(items, from, target)) == RawTotal(items)
  {
    if items != [] {
      RecategorisedTotal(items[..|items| - 1], from, target);
      assert RecategoriseItems(items, from, target)[..|items| - 1]
           == RecategoriseItems(items[..|items| - 1], from, target);
    }
  }

  lemma RecategorisedCovered(b: Book, from: nat, target: Option<nat>)
    requires AllCovered(b.txs)
    ensures AllCovered(RemoveCategory(b, from, target).txs)
  {
    forall i | 0 <= i < |b.txs| ensures Covered(RecategoriseTx(b.txs[i], from, target)) {
      assert Covered(b.txs[i]);
      RecategorisedTotal(b.txs[i].items, from, target);
    }
  }

  lemma MovedCovered(b: Book, ids: seq<nat>, account: nat)
    requires AllCovered(b.txs)
    ensures BulkSetAccount(b, ids, account).Ok? ==> AllCovered(BulkSetAccount(b, ids, account).value.txs)
  {
    hide FindTx, RawTotal;
    if BulkSetAccount(b, ids, account).Ok? {
      forall i | 0 <= i < |b.txs| ensures Covered(Moved(b.txs, ids, account)[i]) {
        assert Covered(b.txs[i]);
      }
    }
  }
}
