/// What an import of an old export does to the accounts: the dedup loses nothing and
/// counts nothing twice, and the solve lands every balance on its closing.
module LegacyLaws {
  import opened Wrappers
  import opened BookModel
  import opened CoverageLaws
  import opened LedgerModel
  import opened LegacyModel

  // ---- the dedup ----

  /** Each match is one side of one exchange and one row that looks like it; neither is used twice. */
  ghost predicate SoundMatches(rules: Rules, period: LegacyPeriod, matches: seq<Match>) {
    && (forall m <- matches ::
          && m.tx < |period.txs| && m.exchange < |period.exchanges|
          && (Candidate(rules, period.txs[m.tx], period.exchanges[m.exchange], m.side, true)
              || Candidate(rules, period.txs[m.tx], period.exchanges[m.exchange], m.side, false)))
    && (forall i, k :: 0 <= i < k < |matches| ==>
          && matches[i].tx != matches[k].tx
          && (matches[i].exchange != matches[k].exchange || matches[i].side != matches[k].side))
  }

  /** Exchanges before `e` are done, and of `e` itself at most the paid side when `half` is set. */
  predicate Handled(matches: seq<Match>, e: nat, half: bool) {
    forall m <- matches :: m.exchange < e || (half && m.exchange == e && m.side.Paid?)
  }

  lemma TakeSideSound(rules: Rules, period: LegacyPeriod, before: seq<Match>, e: nat, side: Side)
    requires e < |period.exchanges| && SoundMatches(rules, period, before) && Handled(before, e, side.Received?)
    ensures SoundMatches(rules, period, TakeSide(rules, period, before, e, side))
    ensures Handled(TakeSide(rules, period, before, e, side), if side.Paid? then e else e + 1, side.Paid?)
  {
    hide Candidate, FirstFree;
    var found := Choose(rules, period.txs, Consumed(before), period.exchanges[e], side);
    if found.Some? {
      assert forall i :: 0 <= i < |before| ==> before[i] in before && before[i].tx in Consumed(before);
    }
  }

  lemma NoMatches(rules: Rules, period: LegacyPeriod)
    ensures SoundMatches(rules, period, []) && Handled([], 0, false)
  {}

  /** The dedup consumes each row at most once and each exchange side at most one row, and only rows that match. */
  lemma {:induction false} DedupSound(rules: Rules, period: LegacyPeriod, n: nat)
    requires n <= |period.exchanges|
    ensures SoundMatches(rules, period, Dedup(rules, period, n)) && Handled(Dedup(rules, period, n), n, false)
  {
    hide SoundMatches, TakeSide, Handled;
    if n == 0 {
      NoMatches(rules, period);
    } else {
      DedupSound(rules, period, n - 1);
      TakeSideSound(rules, period, Dedup(rules, period, n - 1), n - 1, Paid);
      TakeSideSound(rules, period, TakeSide(rules, period, Dedup(rules, period, n - 1), n - 1, Paid), n - 1, Received);
    }
  }

  /**
   Every consumed row has the type, amount and date of its exchange side, its currency or
   none, and its description or one that the conventions accept.
   */
  lemma MatchedRowsFit(rules: Rules, period: LegacyPeriod, m: Match)
    requires m in Dedup(rules, period, |period.exchanges|)
    ensures m.tx < |period.txs| && m.exchange < |period.exchanges|
    ensures var tx, ex := period.txs[m.tx], period.exchanges[m.exchange];
            && tx.kind == Some(if m.side.Paid? then Expense else Income)
            && tx.amount == (if m.side.Paid? then ex.paid else ex.received) && tx.date == ex.date
            && (tx.symbol.None? || tx.symbol == if m.side.Paid? then ex.source else ex.target)
            && (tx.description == ex.description != "" || rules.conventional(tx, ex))
  {
    hide Dedup;
    DedupSound(rules, period, |period.exchanges|);
  }

  /** A free row that fits an exchange side and has its description is enough for the side to consume one. */
  lemma FittingRowIsTaken(rules: Rules, txs: seq<LegacyTx>, consumed: set<nat>, ex: Exchange, side: Side, i: nat)
    requires i < |txs| && i !in consumed
    requires txs[i].kind == Some(if side.Paid? then Expense else Income) && txs[i].date == ex.date
    requires txs[i].amount == if side.Paid? then ex.paid else ex.received
    requires txs[i].symbol.None? || txs[i].symbol == if side.Paid? then ex.source else ex.target
    requires (txs[i].description == ex.description != "") || rules.conventional(txs[i], ex)
    ensures Choose(rules, txs, consumed, ex, side).Some?
  {
    ChoicePrefersExact(rules, txs, consumed, ex, side, i);
  }

  /** A side takes the first exactly described free row if there is one, else the first conventional one, else none. */
  lemma ChoicePrefersExact(rules: Rules, txs: seq<LegacyTx>, consumed: set<nat>, ex: Exchange, side: Side, i: nat)
    requires i < |txs| && i !in consumed
    ensures Candidate(rules, txs[i], ex, side, true) ==>
              var r := Choose(rules, txs, consumed, ex, side);
              r.Some? && r.value <= i && Candidate(rules, txs[r.value], ex, side, true)
    ensures Candidate(rules, txs[i], ex, side, false) ==>
              var r := Choose(rules, txs, consumed, ex, side);
              r.Some? && (Candidate(rules, txs[r.value], ex, side, true) || r.value <= i)
  {
    hide Candidate;
  }

  // ---- the net of an export ----

  /** What a legacy row did to a currency's balance in the old system. */
  function Effect(rules: Rules, tx: LegacyTx, code: string): int {
    if tx.symbol.None? || tx.kind.None? || rules.code(tx.symbol.value) != code then 0
    else if tx.kind.value.Expense? then -tx.amount else tx.amount
  }

  function EffectSum(rules: Rules, txs: seq<LegacyTx>, code: string): int {
    if txs == [] then 0 else EffectSum(rules, txs[..|txs| - 1], code) + Effect(rules, txs[|txs| - 1], code)
  }

  function SideEffect(rules: Rules, ex: Exchange, side: Side, code: string): int {
    if ex.source.None? || ex.target.None? || rules.code(SideSymbol(ex, side).value) != code then 0
    else if side.Paid? then -ex.paid else ex.received
  }

  /** Both sides of every exchange that names both currencies. */
  function ExchangeSum(rules: Rules, exchanges: seq<Exchange>, code: string): int {
    if exchanges == [] then 0
    else
      var ex := exchanges[|exchanges| - 1];
      ExchangeSum(rules, exchanges[..|exchanges| - 1], code)
      + SideEffect(rules, ex, Paid, code) + SideEffect(rules, ex, Received, code)
  }

  /** The effect of the rows that the dedup consumed. */
  function ConsumedSum(rules: Rules, txs: seq<LegacyTx>, skip: set<nat>, code: string): int {
    if txs == [] then 0
    else
      ConsumedSum(rules, txs[..|txs| - 1], skip, code)
      + (if |txs| - 1 in skip then Effect(rules, txs[|txs| - 1], code) else 0)
  }

  function PeriodNet(rules: Rules, period: LegacyPeriod, code: string): int {
    EffectSum(rules, period.txs, code) + ExchangeSum(rules, period.exchanges, code)
    - ConsumedSum(rules, period.txs, Skipped(rules, period), code)
  }

  function BudgetNet(rules: Rules, budget: LegacyBudget, code: string): int {
    if budget == [] then 0
    else BudgetNet(rules, budget[..|budget| - 1], code) + PeriodNet(rules, budget[|budget| - 1], code)
  }

  function ExportNet(rules: Rules, budgets: seq<LegacyBudget>, code: string): int {
    if budgets == [] then 0
    else ExportNet(rules, budgets[..|budgets| - 1], code) + BudgetNet(rules, budgets[|budgets| - 1], code)
  }

  // ---- the new accounts ----

  /** The cache names every account once, and rows only use accounts that exist. */
  ghost predicate Wired(v: Vault) {
    && (forall code <- v.cache :: v.cache[code] < |v.accounts| && v.accounts[v.cache[code]] == Account(code, 0, false))
    && (forall i :: 0 <= i < |v.txs| ==>
          v.txs[i].account.Some? && v.txs[i].account.value < |v.accounts| && Covered(v.txs[i]))
    && (forall i :: 0 <= i < |v.transfers| ==>
          v.transfers[i].source < |v.accounts| && v.transfers[i].target < |v.accounts|)
  }

  function Net(v: Vault, code: string): int { if code in v.cache then NetDelta(v, v.cache[code]) else 0 }

  lemma {:induction false} NoRows(txs: seq<Tx>, transfers: seq<Transfer>, a: nat)
    requires forall i :: 0 <= i < |txs| ==> txs[i].account != Some(a)
    requires forall i :: 0 <= i < |transfers| ==> transfers[i].source != a && transfers[i].target != a
    ensures TransactionsDelta(txs, a) == 0 && TransfersDelta(transfers, a) == 0
    decreases |txs| + |transfers|
  {
    if txs != [] {
      NoRows(txs[..|txs| - 1], transfers, a);
    } else if transfers != [] {
      NoRows(txs, transfers[..|transfers| - 1], a);
    }
  }

  lemma ResolveNet(v: Vault, code: string, c: string)
    requires Wired(v)
    ensures Wired(Resolve(v, code)) && Net(Resolve(v, code), c) == Net(v, c)
  {
    hide Covered, TransactionsDelta, TransfersDelta;
    NoRows(v.txs, v.transfers, |v.accounts|);
  }

  lemma {:induction false} ProvisionNet(rules: Rules, v: Vault, symbols: seq<Option<string>>, c: string)
    requires Wired(v)
    ensures Wired(Provision(rules, v, symbols)) && Net(Provision(rules, v, symbols), c) == Net(v, c)
  {
    hide Wired, Net, Resolve;
    if symbols != [] {
      var n := |symbols| - 1;
      ProvisionNet(rules, v, symbols[..n], c);
      if symbols[n].Some? {
        ResolveNet(Provision(rules, v, symbols[..n]), rules.code(symbols[n].value), c);
      }
    }
  }

  lemma StoreNet(v: Vault, code: string, kind: TxType, amount: int, date: int, c: string)
    requires Wired(v) && (kind.Adjustment? || amount >= 0)
    ensures Wired(Store(v, code, kind, amount, date))
    ensures Net(Store(v, code, kind, amount, date), c)
         == Net(v, c) + (if c != code then 0 else if kind.Expense? then -amount else amount)
  {
    hide Covered, TransactionsDelta, TransfersDelta, Resolve;
    ResolveNet(v, code, c);
    var w := Resolve(v, code);
    var row := BookRow(w, code, kind, amount, date);
    RowCovered(w, code, kind, amount, date);
    if c in w.cache {
      DeltaAppend(w.txs, row, w.cache[c]);
    }
  }

  lemma RowCovered(v: Vault, code: string, kind: TxType, amount: int, date: int)
    requires code in v.cache && (kind.Adjustment? || amount >= 0)
    ensures Covered(BookRow(v, code, kind, amount, date))
  {
    assert [NewRemainder(amount)][..0] == [];
  }

  lemma ImportTxNet(rules: Rules, v: Vault, tx: LegacyTx, c: string)
    requires Wired(v)
    ensures Wired(ImportTx(rules, v, tx)) && Net(ImportTx(rules, v, tx), c) == Net(v, c) + Effect(rules, tx, c)
  {
    hide Wired, Net, Store;
    if tx.symbol.Some? && tx.kind.Some? {
      var code := rules.code(tx.symbol.value);
      if tx.amount < 0 && !tx.kind.value.Adjustment? {
        StoreNet(v, code, Adjustment, if tx.kind.value.Income? then tx.amount else -tx.amount, tx.date, c);
      } else {
        StoreNet(v, code, tx.kind.value, tx.amount, tx.date, c);
      }
    }
  }

  /**
   The row stored for an old one: same day and currency, on that currency's account, and
   of the same type and amount unless it is a negative income or expense, which becomes
   the adjustment it amounted to.
   */
  lemma ImportTxStores(rules: Rules, v: Vault, tx: LegacyTx)
    ensures tx.symbol.None? || tx.kind.None? ==> ImportTx(rules, v, tx) == v
    ensures tx.symbol.Some? && tx.kind.Some? ==>
              var after, code := ImportTx(rules, v, tx), rules.code(tx.symbol.value);
              && v.txs <= after.txs && |after.txs| == |v.txs| + 1 && after.transfers == v.transfers
              && code in after.cache && (code in v.cache ==> after.cache == v.cache && after.accounts == v.accounts)
              && var row := after.txs[|v.txs|];
                 && row.account == Some(after.cache[code]) && row.currency == code && row.date == tx.date
                 && row.category.None? && row.facet.None? && row.source.None?
                 && (if tx.kind.value.Adjustment? || tx.amount >= 0
                     then row.kind == tx.kind.value && row.amount == tx.amount
                     else row.kind.Adjustment? && row.amount == if tx.kind.value.Income? then tx.amount else -tx.amount)
  {}

  lemma {:induction false} ImportTxsNet(rules: Rules, v: Vault, txs: seq<LegacyTx>, skip: set<nat>, c: string)
    requires Wired(v)
    ensures Wired(ImportTxs(rules, v, txs, skip))
    ensures Net(ImportTxs(rules, v, txs, skip), c)
         == Net(v, c) + EffectSum(rules, txs, c) - ConsumedSum(rules, txs, skip, c)
  {
    hide Wired, Net, ImportTx, Effect;
    if txs != [] {
      var n := |txs| - 1;
      ImportTxsNet(rules, v, txs[..n], skip, c);
      ImportTxNet(rules, ImportTxs(rules, v, txs[..n], skip), txs[n], c);
    }
  }

  lemma ImportExchangeNet(rules: Rules, v: Vault, ex: Exchange, c: string)
    requires Wired(v)
    ensures Wired(ImportExchange(rules, v, ex))
    ensures Net(ImportExchange(rules, v, ex), c)
         == Net(v, c) + SideEffect(rules, ex, Paid, c) + SideEffect(rules, ex, Received, c)
  {
    hide Covered, TransactionsDelta, TransfersDelta, Store, Resolve;
    if ex.source.Some? && ex.target.Some? {
      var source, target := rules.code(ex.source.value), rules.code(ex.target.value);
      ResolveNet(v, source, c);
      ResolveNet(Resolve(v, source), target, c);
      var w := Resolve(Resolve(v, source), target);
      ResolveKeeps(Resolve(v, source), source, target);
      assert w.cache[source] == w.cache[target] <==> source == target;
      if source == target {
        StoreNet(w, source, Adjustment, ex.received - ex.paid, ex.date, c);
      } else if c in w.cache {
        LegsAppend(w.transfers, Transfer(|w.transfers|, w.cache[source], w.cache[target], ex.paid, ex.received),
                   w.cache[c]);
      }
    }
  }

  lemma ResolveKeeps(v: Vault, code: string, other: string)
    requires code in v.cache
    ensures code in Resolve(v, other).cache
  {}

  /**
   What is stored for an exchange that names both currencies: a transfer of the two
   amounts between their accounts, or on one account an adjustment by the difference.
   */
  lemma ImportExchangeStores(rules: Rules, v: Vault, ex: Exchange)
    ensures ex.source.None? || ex.target.None? ==> ImportExchange(rules, v, ex) == v
    ensures ex.source.Some? && ex.target.Some? ==>
              var after := ImportExchange(rules, v, ex);
              var from_, to_ := rules.code(ex.source.value), rules.code(ex.target.value);
              && from_ in after.cache && to_ in after.cache
              && (if after.cache[from_] != after.cache[to_] then
                    && after.txs == v.txs
                    && after.transfers == v.transfers + [Transfer(|v.transfers|, after.cache[from_], after.cache[to_],
                                                                  ex.paid, ex.received)]
                  else
                    && after.transfers == v.transfers && v.txs <= after.txs
                    && |after.txs| == |v.txs| + (if ex.paid == ex.received then 0 else 1)
                    && (ex.paid != ex.received ==>
                          var row := after.txs[|v.txs|];
                          && row.kind.Adjustment? && row.amount == ex.received - ex.paid && row.date == ex.date
                          && row.account == Some(after.cache[from_]) && row.currency == from_))
  {}

  lemma {:induction false} ImportExchangesNet(rules: Rules, v: Vault, exchanges: seq<Exchange>, c: string)
    requires Wired(v)
    ensures Wired(ImportExchanges(rules, v, exchanges))
    ensures Net(ImportExchanges(rules, v, exchanges), c) == Net(v, c) + ExchangeSum(rules, exchanges, c)
  {
    hide Wired, Net, ImportExchange, SideEffect;
    if exchanges != [] {
      var n := |exchanges| - 1;
      ImportExchangesNet(rules, v, exchanges[..n], c);
      ImportExchangeNet(rules, ImportExchanges(rules, v, exchanges[..n]), exchanges[n], c);
    }
  }

  lemma ImportPeriodNet(rules: Rules, v: Vault, period: LegacyPeriod, c: string)
    requires Wired(v)
    ensures Wired(ImportPeriod(rules, v, period))
    ensures Net(ImportPeriod(rules, v, period), c) == Net(v, c) + PeriodNet(rules, period, c)
  {
    hide Wired, Net, ImportTxs, ImportExchanges, Provision, EffectSum, ExchangeSum, ConsumedSum, Skipped;
    var x := ImportTxs(rules, v, period.txs, Skipped(rules, period));
    ImportTxsNet(rules, v, period.txs, Skipped(rules, period), c);
    ProvisionNet(rules, x, period.planned, c);
    var y := Provision(rules, x, period.planned);
    ImportExchangesNet(rules, y, period.exchanges, c);
    ProvisionNet(rules, ImportExchanges(rules, y, period.exchanges), Symbols(period.closings), c);
  }

  lemma {:induction false} ImportBudgetNet(rules: Rules, v: Vault, budget: LegacyBudget, c: string)
    requires Wired(v)
    ensures Wired(ImportBudget(rules, v, budget))
    ensures Net(ImportBudget(rules, v, budget), c) == Net(v, c) + BudgetNet(rules, budget, c)
  {
    hide Wired, Net, ImportPeriod, PeriodNet;
    if budget != [] {
      var n := |budget| - 1;
      ImportBudgetNet(rules, v, budget[..n], c);
      ImportPeriodNet(rules, ImportBudget(rules, v, budget[..n]), budget[n], c);
    }
  }

  /** Every account's net is the legacy rows plus the imported exchange sides less the consumed rows. */
  lemma {:induction false} ImportNet(rules: Rules, v: Vault, budgets: seq<LegacyBudget>, c: string)
    requires Wired(v)
    ensures Wired(ImportBudgets(rules, v, budgets))
    ensures Net(ImportBudgets(rules, v, budgets), c) == Net(v, c) + ExportNet(rules, budgets, c)
  {
    hide Wired, Net, ImportBudget, BudgetNet;
    if budgets != [] {
      var n := |budgets| - 1;
      ImportNet(rules, v, budgets[..n], c);
      ImportBudgetNet(rules, ImportBudgets(rules, v, budgets[..n]), budgets[n], c);
    }
  }

  // ---- matched and unmatched sides ----

  ghost function Taken(matches: seq<Match>): set<(nat, Side)> { set m | m in matches :: (m.exchange, m.side) }

  /** The sides of imported exchanges that consumed no row. */
  ghost function UnmatchedSum(rules: Rules, exchanges: seq<Exchange>, taken: set<(nat, Side)>, code: string): int {
    if exchanges == [] then 0
    else
      var n := |exchanges| - 1;
      UnmatchedSum(rules, exchanges[..n], taken, code)
      + (if (n, Paid) in taken then 0 else SideEffect(rules, exchanges[n], Paid, code))
      + (if (n, Received) in taken then 0 else SideEffect(rules, exchanges[n], Received, code))
  }

  /** By how much a matched side and the row it consumed disagree. */
  function Mismatch(rules: Rules, period: LegacyPeriod, m: Match, code: string): int
    requires m.tx < |period.txs| && m.exchange < |period.exchanges|
  {
    SideEffect(rules, period.exchanges[m.exchange], m.side, code) - Effect(rules, period.txs[m.tx], code)
  }

  function MismatchSum(rules: Rules, period: LegacyPeriod, matches: seq<Match>, code: string): int
    requires forall m <- matches :: m.tx < |period.txs| && m.exchange < |period.exchanges|
  {
    if matches == [] then 0
    else
      MismatchSum(rules, period, matches[..|matches| - 1], code)
      + Mismatch(rules, period, matches[|matches| - 1], code)
  }

  lemma {:induction false} ConsumedAdd(rules: Rules, txs: seq<LegacyTx>, skip: set<nat>, i: nat, code: string)
    requires i !in skip
    ensures ConsumedSum(rules, txs, skip + {i}, code)
         == ConsumedSum(rules, txs, skip, code) + (if i < |txs| then Effect(rules, txs[i], code) else 0)
  {
    hide Effect;
    if txs != [] {
      ConsumedAdd(rules, txs[..|txs| - 1], skip, i, code);
    }
  }

  lemma {:induction false} UnmatchedAdd(rules: Rules, exchanges: seq<Exchange>, taken: set<(nat, Side)>, e: nat,
                                        side: Side, code: string)
    requires (e, side) !in taken
    ensures UnmatchedSum(rules, exchanges, taken + {(e, side)}, code)
         == UnmatchedSum(rules, exchanges, taken, code)
            - (if e < |exchanges| then SideEffect(rules, exchanges[e], side, code) else 0)
  {
    hide SideEffect;
    if exchanges != [] {
      UnmatchedAdd(rules, exchanges[..|exchanges| - 1], taken, e, side, code);
    }
  }

  lemma {:induction false} NoneTaken(rules: Rules, period: LegacyPeriod, exchanges: seq<Exchange>, txs: seq<LegacyTx>,
                                     code: string)
    ensures UnmatchedSum(rules, exchanges, {}, code) == ExchangeSum(rules, exchanges, code)
    ensures ConsumedSum(rules, txs, {}, code) == 0
    decreases |exchanges| + |txs|
  {
    hide SideEffect, Effect;
    if exchanges != [] {
      NoneTaken(rules, period, exchanges[..|exchanges| - 1], txs, code);
    } else if txs != [] {
      NoneTaken(rules, period, exchanges, txs[..|txs| - 1], code);
    }
  }

  lemma {:induction false} MatchesBalance(rules: Rules, period: LegacyPeriod, matches: seq<Match>, code: string)
    requires SoundMatches(rules, period, matches)
    ensures ExchangeSum(rules, period.exchanges, code) - ConsumedSum(rules, period.txs, Consumed(matches), code)
         == UnmatchedSum(rules, period.exchanges, Taken(matches), code) + MismatchSum(rules, period, matches, code)
  {
    hide ConsumedSum, UnmatchedSum, Effect, SideEffect, Candidate, ExchangeSum;
    if matches == [] {
      assert Consumed(matches) == {} && Taken(matches) == {};
      NoneTaken(rules, period, period.exchanges, period.txs, code);
    } else {
      var init, m := matches[..|matches| - 1], matches[|matches| - 1];
      assert matches == init + [m];
      MatchesBalance(rules, period, init, code);
      LastIsNew(rules, period, matches);
      ConsumedAdd(rules, period.txs, Consumed(init), m.tx, code);
      UnmatchedAdd(rules, period.exchanges, Taken(init), m.exchange, m.side, code);
    }
  }

  lemma LastIsNew(rules: Rules, period: LegacyPeriod, matches: seq<Match>)
    requires SoundMatches(rules, period, matches) && matches != []
    ensures var init, m := matches[..|matches| - 1], matches[|matches| - 1];
            && m in matches && m.tx !in Consumed(init) && (m.exchange, m.side) !in Taken(init)
            && Consumed(matches) == Consumed(init) + {m.tx} && Taken(matches) == Taken(init) + {(m.exchange, m.side)}
  {
    hide Candidate;
    var init, m := matches[..|matches| - 1], matches[|matches| - 1];
    assert matches == init + [m];
    forall k | k in init ensures k.tx != m.tx && (k.exchange != m.exchange || k.side != m.side) {
      var i :| 0 <= i < |init| && init[i] == k;
      assert matches[i] == k;
    }
  }

  /** The exact net of one period: all rows, the unmatched sides, and what matched pairs disagree by. */
  lemma PeriodNetExact(rules: Rules, period: LegacyPeriod, code: string)
    ensures var matches := Dedup(rules, period, |period.exchanges|);
            && SoundMatches(rules, period, matches)
            && PeriodNet(rules, period, code)
               == EffectSum(rules, period.txs, code) + UnmatchedSum(rules, period.exchanges, Taken(matches), code)
                  + MismatchSum(rules, period, matches, code)
  {
    hide Dedup, ConsumedSum, UnmatchedSum, ExchangeSum, EffectSum, MismatchSum, Candidate;
    DedupSound(rules, period, |period.exchanges|);
    MatchesBalance(rules, period, Dedup(rules, period, |period.exchanges|), code);
  }

  /** A match agrees with its exchange exactly when no currency is missing, or nothing of the currency is involved. */
  lemma MatchAgrees(rules: Rules, period: LegacyPeriod, m: Match, code: string)
    requires m.tx < |period.txs| && m.exchange < |period.exchanges|
    requires BaseMatches(period.txs[m.tx], period.exchanges[m.exchange], m.side)
    ensures var tx, ex := period.txs[m.tx], period.exchanges[m.exchange];
            Mismatch(rules, period, m, code) == 0 <==>
              || tx.amount == 0
              || (tx.symbol.Some? && ex.source.Some? && ex.target.Some?)
              || (tx.symbol.None? && (ex.source.None? || ex.target.None?))
              || (SideSymbol(ex, m.side).Some? && rules.code(SideSymbol(ex, m.side).value) != code)
  {}

  /** No row and no exchange of the period misses a currency. */
  predicate Complete(period: LegacyPeriod) {
    && (forall tx <- period.txs :: tx.symbol.Some?)
    && (forall ex <- period.exchanges :: ex.source.Some? && ex.target.Some?)
  }

  lemma {:induction false} CompleteAgrees(rules: Rules, period: LegacyPeriod, matches: seq<Match>, code: string)
    requires Complete(period) && SoundMatches(rules, period, matches)
    ensures MismatchSum(rules, period, matches, code) == 0
  {
    hide Mismatch, BaseMatches;
    if matches != [] {
      var m := matches[|matches| - 1];
      assert m in matches;
      assert forall k <- matches[..|matches| - 1] :: k in matches;
      CompleteAgrees(rules, period, matches[..|matches| - 1], code);
      MatchAgrees(rules, period, m, code);
    }
  }

  /**
   When every record names its currency, a period's net on each account is the signed
   sum of all its rows plus the exchange sides that no row recorded.
   */
  lemma CompleteNet(rules: Rules, period: LegacyPeriod, code: string)
    requires Complete(period)
    ensures PeriodNet(rules, period, code)
         == EffectSum(rules, period.txs, code)
            + UnmatchedSum(rules, period.exchanges, Taken(Dedup(rules, period, |period.exchanges|)), code)
  {
    hide Dedup, ConsumedSum, UnmatchedSum, ExchangeSum, EffectSum, MismatchSum, Complete, SoundMatches;
    PeriodNetExact(rules, period, code);
    CompleteAgrees(rules, period, Dedup(rules, period, |period.exchanges|), code);
  }

  // ---- complete exports ----

  predicate CompleteBudget(budget: LegacyBudget) { forall period <- budget :: Complete(period) }

  predicate AllComplete(budgets: seq<LegacyBudget>) { forall budget <- budgets :: CompleteBudget(budget) }

  /** The signed sum of all rows of an export. */
  function RowsOver(rules: Rules, periods: seq<LegacyPeriod>, code: string): int {
    if periods == [] then 0
    else RowsOver(rules, periods[..|periods| - 1], code) + EffectSum(rules, periods[|periods| - 1].txs, code)
  }

  /** The exchange sides of an export that no row recorded. */
  ghost function UnmatchedOver(rules: Rules, periods: seq<LegacyPeriod>, code: string): int {
    if periods == [] then 0
    else
      var period := periods[|periods| - 1];
      UnmatchedOver(rules, periods[..|periods| - 1], code)
      + UnmatchedSum(rules, period.exchanges, Taken(Dedup(rules, period, |period.exchanges|)), code)
  }

  function AllPeriods(budgets: seq<LegacyBudget>): seq<LegacyPeriod> {
    if budgets == [] then [] else AllPeriods(budgets[..|budgets| - 1]) + budgets[|budgets| - 1]
  }

  lemma {:induction false} OverAppend(rules: Rules, a: seq<LegacyPeriod>, b: seq<LegacyPeriod>, code: string)
    ensures RowsOver(rules, a + b, code) == RowsOver(rules, a, code) + RowsOver(rules, b, code)
    ensures UnmatchedOver(rules, a + b, code) == UnmatchedOver(rules, a, code) + UnmatchedOver(rules, b, code)
  {
    hide EffectSum, UnmatchedSum, Dedup;
    if b == [] {
      assert a + b == a;
    } else {
      OverAppend(rules, a, b[..|b| - 1], code);
      assert (a + b)[..|a + b| - 1] == a + b[..|b| - 1];
    }
  }

  lemma {:induction false} CompleteBudgetNet(rules: Rules, budget: LegacyBudget, code: string)
    requires CompleteBudget(budget)
    ensures BudgetNet(rules, budget, code) == RowsOver(rules, budget, code) + UnmatchedOver(rules, budget, code)
  {
    hide EffectSum, UnmatchedSum, Dedup, PeriodNet, Complete;
    if budget != [] {
      CompleteBudgetNet(rules, budget[..|budget| - 1], code);
      CompleteNet(rules, budget[|budget| - 1], code);
    }
  }

  lemma {:induction false} CompleteExportNet(rules: Rules, budgets: seq<LegacyBudget>, code: string)
    requires AllComplete(budgets)
    ensures ExportNet(rules, budgets, code)
         == RowsOver(rules, AllPeriods(budgets), code) + UnmatchedOver(rules, AllPeriods(budgets), code)
  {
    hide BudgetNet, CompleteBudget;
    if budgets != [] {
      var n := |budgets| - 1;
      CompleteExportNet(rules, budgets[..n], code);
      CompleteBudgetNet(rules, budgets[n], code);
      OverAppend(rules, AllPeriods(budgets[..n]), budgets[n], code);
    }
  }

  /**
   Importing an export in which every record names its currency nets, on each account,
   the signed sum of all its rows plus the exchange sides that no row recorded.
   */
  lemma CompleteImportNet(rules: Rules, v: Vault, budgets: seq<LegacyBudget>, code: string)
    requires Wired(v) && AllComplete(budgets)
    ensures Net(ImportBudgets(rules, v, budgets), code)
         == Net(v, code) + RowsOver(rules, AllPeriods(budgets), code) + UnmatchedOver(rules, AllPeriods(budgets), code)
  {
    hide Wired, Net, ImportBudgets, AllComplete, RowsOver, UnmatchedOver;
    ImportNet(rules, v, budgets, code);
    CompleteExportNet(rules, budgets, code);
  }

  // ---- records without a currency ----

  lemma OnlyMatch(rules: Rules, period: LegacyPeriod, side: Side)
    requires |period.txs| == 1 && |period.exchanges| == 1
    requires Candidate(rules, period.txs[0], period.exchanges[0], side, true)
    ensures Dedup(rules, period, 1) == [Match(0, 0, side)]
  {
    hide Candidate;
    var tx, ex := period.txs[0], period.exchanges[0];
    OneSide(rules, tx, ex, side);
    assert Dedup(rules, period, 0) == [];
    assert Consumed([]) == {} && Consumed([Match(0, 0, side)]) == {0};
  }

  lemma OneSide(rules: Rules, tx: LegacyTx, ex: Exchange, side: Side)
    requires Candidate(rules, tx, ex, side, true)
    ensures var other := if side.Paid? then Received else Paid;
            !Candidate(rules, tx, ex, other, true) && !Candidate(rules, tx, ex, other, false)
  {}

  lemma OneMismatch(rules: Rules, period: LegacyPeriod, side: Side, code: string)
    requires |period.txs| == 1 && |period.exchanges| == 1
    requires Candidate(rules, period.txs[0], period.exchanges[0], side, true)
    ensures PeriodNet(rules, period, code)
         == EffectSum(rules, period.txs, code) + UnmatchedSum(rules, period.exchanges, Taken([Match(0, 0, side)]), code)
            + Mismatch(rules, period, Match(0, 0, side), code)
  {
    hide Dedup, PeriodNet, EffectSum, UnmatchedSum, Mismatch, Candidate;
    PeriodNetExact(rules, period, code);
    OnlyMatch(rules, period, side);
    assert [Match(0, 0, side)][..0] == [];
  }

  /** An income recorded for an exchange that is skipped for its missing source currency is lost. */
  lemma SkippedExchangeLosesRow(rules: Rules)
    ensures var row := LegacyTx(Some(Income), Some("USD"), 5, 1, "swap");
            var period := LegacyPeriod(31, [row], [], [Exchange(None, Some("USD"), 7, 5, 1, "swap")], []);
            var v := ImportPeriod(rules, Vault(map[], [], [], []), period);
            EffectSum(rules, [row], rules.code("USD")) == 5 && Net(v, rules.code("USD")) == 0
  {
    var row := LegacyTx(Some(Income), Some("USD"), 5, 1, "swap");
    var period := LegacyPeriod(31, [row], [], [Exchange(None, Some("USD"), 7, 5, 1, "swap")], []);
    var empty := Vault(map[], [], [], []);
    assert Wired(empty) && Net(empty, rules.code("USD")) == 0;
    assert Candidate(rules, row, period.exchanges[0], Received, true);
    OneMismatch(rules, period, Received, rules.code("USD"));
    ImportPeriodNet(rules, empty, period, rules.code("USD"));
    assert [row][..0] == [] && period.exchanges[..0] == [];
  }

  /** An expense without a currency is consumed by an exchange that is imported, and so counts after all. */
  lemma CurrencylessRowCounts(rules: Rules)
    requires rules.code("USD") != rules.code("EUR")
    ensures var row := LegacyTx(Some(Expense), None, 7, 1, "swap");
            var period := LegacyPeriod(31, [row], [], [Exchange(Some("USD"), Some("EUR"), 7, 5, 1, "swap")], []);
            var v := ImportPeriod(rules, Vault(map[], [], [], []), period);
            && EffectSum(rules, [row], rules.code("USD")) == 0
            && UnmatchedSum(rules, period.exchanges, Taken(Dedup(rules, period, 1)), rules.code("USD")) == 0
            && Net(v, rules.code("USD")) == -7
  {
    var row := LegacyTx(Some(Expense), None, 7, 1, "swap");
    var period := LegacyPeriod(31, [row], [], [Exchange(Some("USD"), Some("EUR"), 7, 5, 1, "swap")], []);
    var empty := Vault(map[], [], [], []);
    assert Wired(empty) && Net(empty, rules.code("USD")) == 0;
    assert Candidate(rules, row, period.exchanges[0], Paid, true);
    OnlyMatch(rules, period, Paid);
    OneMismatch(rules, period, Paid, rules.code("USD"));
    ImportPeriodNet(rules, empty, period, rules.code("USD"));
    assert Match(0, 0, Paid) in [Match(0, 0, Paid)];
    assert [row][..0] == [] && period.exchanges[..0] == [];
  }

  // ---- closings ----

  datatype ClosingRow = ClosingRow(code: string, close: Close)

  function RowsIn(rules: Rules, last: int, closings: seq<Closing>): seq<ClosingRow> {
    if closings == [] then []
    else
      var row := closings[|closings| - 1];
      RowsIn(rules, last, closings[..|closings| - 1])
      + (if row.symbol.None? then [] else [ClosingRow(rules.code(row.symbol.value), Close(last, row.amount))])
  }

  /** Every closing of a budget account that names its currency, in order. */
  function ClosingRows(rules: Rules, budget: LegacyBudget): seq<ClosingRow> {
    if budget == [] then []
    else
      ClosingRows(rules, budget[..|budget| - 1])
      + RowsIn(rules, budget[|budget| - 1].last, budget[|budget| - 1].closings)
  }

  /** The last of the rows of a code that end latest. */
  ghost predicate IsLatest(rows: seq<ClosingRow>, latest: map<string, Close>) {
    && (forall i :: 0 <= i < |rows| ==> rows[i].code in latest && rows[i].close.last <= latest[rows[i].code].last)
    && (forall code <- latest :: exists i :: LastOf(rows, code, latest[code], i))
  }

  ghost predicate LastOf(rows: seq<ClosingRow>, code: string, close: Close, i: nat) {
    && i < |rows| && rows[i] == ClosingRow(code, close)
    && forall k :: i < k < |rows| && rows[k].code == code ==> rows[k].close.last < close.last
  }

  lemma NoClosings()
    ensures IsLatest([], map[])
  {}

  lemma StaysLast(rows: seq<ClosingRow>, row: ClosingRow, code: string, close: Close, i: nat)
    requires LastOf(rows, code, close, i) && (row.code != code || row.close.last < close.last)
    ensures LastOf(rows + [row], code, close, i)
  {}

  lemma BecomesLast(rows: seq<ClosingRow>, row: ClosingRow)
    ensures LastOf(rows + [row], row.code, row.close, |rows|)
  {}

  lemma LatestStep(rows: seq<ClosingRow>, latest: map<string, Close>, row: ClosingRow)
    requires IsLatest(rows, latest)
    ensures IsLatest(rows + [row], Keep(latest, row.code, row.close))
  {
    hide LastOf;
    var after, latest' := rows + [row], Keep(latest, row.code, row.close);
    forall code | code in latest' ensures exists i :: LastOf(after, code, latest'[code], i) {
      if code == row.code && (code !in latest || latest[code].last <= row.close.last) {
        BecomesLast(rows, row);
      } else {
        var i :| LastOf(rows, code, latest[code], i);
        StaysLast(rows, row, code, latest[code], i);
      }
    }
  }

  lemma {:induction false} LatestInIsLast(rules: Rules, rows: seq<ClosingRow>, before: map<string, Close>, last: int,
                                          closings: seq<Closing>)
    requires IsLatest(rows, before)
    ensures IsLatest(rows + RowsIn(rules, last, closings), LatestIn(rules, before, last, closings))
  {
    hide IsLatest;
    if closings == [] {
      assert rows + [] == rows;
    } else {
      var n := |closings| - 1;
      LatestInIsLast(rules, rows, before, last, closings[..n]);
      var init, latest := rows + RowsIn(rules, last, closings[..n]), LatestIn(rules, before, last, closings[..n]);
      if closings[n].symbol.Some? {
        var row := ClosingRow(rules.code(closings[n].symbol.value), Close(last, closings[n].amount));
        LatestStep(init, latest, row);
        assert init + [row] == rows + RowsIn(rules, last, closings);
      } else {
        assert init == rows + RowsIn(rules, last, closings);
      }
    }
  }

  /** The closing taken from a budget account is, per currency, the last among those of its latest-ending periods. */
  lemma {:induction false} LatestIsLast(rules: Rules, budget: LegacyBudget)
    ensures IsLatest(ClosingRows(rules, budget), Latest(rules, budget))
  {
    hide IsLatest;
    if budget == [] {
      NoClosings();
    } else {
      var n := |budget| - 1;
      LatestIsLast(rules, budget[..n]);
      LatestInIsLast(rules, ClosingRows(rules, budget[..n]), Latest(rules, budget[..n]),
                     budget[n].last, budget[n].closings);
    }
  }

  // ---- the solve ----

  /** The solve makes every expected balance equal its closing, and leaves the others at their net. */
  lemma SolveMeets(v: Vault, expected: map<string, int>, code: string)
    requires Wired(v) && code in v.cache
    ensures var solved := Solved(v, expected);
            && v.cache[code] < |solved.accounts|
            && Balance(AsBook(solved), v.cache[code]) == if code in expected then expected[code] else Net(v, code)
  {
    hide TransactionsDelta, TransfersDelta, Covered;
  }

  function Expected(rules: Rules, v: Vault, budgets: seq<LegacyBudget>): map<string, int> {
    map code | code in v.cache && ExpectedOf(rules, budgets, code).Some? :: ExpectedOf(rules, budgets, code).value
  }

  // ---- accounts for every closing ----

  lemma {:induction false} ProvisionNames(rules: Rules, v: Vault, symbols: seq<Option<string>>)
    ensures v.cache.Keys <= Provision(rules, v, symbols).cache.Keys
    ensures forall i :: 0 <= i < |symbols| && symbols[i].Some? ==>
            rules.code(symbols[i].value) in Provision(rules, v, symbols).cache
  {
    if symbols != [] {
      var n := |symbols| - 1;
      ProvisionNames(rules, v, symbols[..n]);
      assert forall i :: 0 <= i < n ==> symbols[i] == symbols[..n][i];
    }
  }

  lemma {:induction false} TxsGrow(rules: Rules, v: Vault, txs: seq<LegacyTx>, skip: set<nat>)
    ensures v.cache.Keys <= ImportTxs(rules, v, txs, skip).cache.Keys
  {
    if txs != [] {
      TxsGrow(rules, v, txs[..|txs| - 1], skip);
    }
  }

  lemma {:induction false} ExchangesGrow(rules: Rules, v: Vault, exchanges: seq<Exchange>)
    ensures v.cache.Keys <= ImportExchanges(rules, v, exchanges).cache.Keys
  {
    if exchanges != [] {
      ExchangesGrow(rules, v, exchanges[..|exchanges| - 1]);
    }
  }

  lemma PeriodNames(rules: Rules, v: Vault, period: LegacyPeriod)
    ensures v.cache.Keys <= ImportPeriod(rules, v, period).cache.Keys
    ensures forall i :: 0 <= i < |period.closings| && period.closings[i].symbol.Some? ==>
              rules.code(period.closings[i].symbol.value) in ImportPeriod(rules, v, period).cache
    ensures forall i :: 0 <= i < |period.planned| && period.planned[i].Some? ==>
              rules.code(period.planned[i].value) in ImportPeriod(rules, v, period).cache
  {
    hide ImportTxs, ImportExchanges, Provision, Skipped;
    var a := ImportTxs(rules, v, period.txs, Skipped(rules, period));
    TxsGrow(rules, v, period.txs, Skipped(rules, period));
    ProvisionNames(rules, a, period.planned);
    var b := Provision(rules, a, period.planned);
    ExchangesGrow(rules, b, period.exchanges);
    ProvisionNames(rules, ImportExchanges(rules, b, period.exchanges), Symbols(period.closings));
    assert forall i :: 0 <= i < |period.closings| ==> Symbols(period.closings)[i] == period.closings[i].symbol;
  }

  lemma {:induction false} LatestNamed(rules: Rules, before: map<string, Close>, last: int, closings: seq<Closing>,
                                       keys: set<string>)
    requires before.Keys <= keys
    requires forall i :: 0 <= i < |closings| && closings[i].symbol.Some? ==>
             rules.code(closings[i].symbol.value) in keys
    ensures LatestIn(rules, before, last, closings).Keys <= keys
  {
    if closings != [] {
      LatestNamed(rules, before, last, closings[..|closings| - 1], keys);
    }
  }

  lemma {:induction false} BudgetNames(rules: Rules, v: Vault, budget: LegacyBudget)
    ensures v.cache.Keys + Latest(rules, budget).Keys <= ImportBudget(rules, v, budget).cache.Keys
  {
    hide ImportPeriod, LatestIn;
    if budget != [] {
      var n := |budget| - 1;
      BudgetNames(rules, v, budget[..n]);
      PeriodNames(rules, ImportBudget(rules, v, budget[..n]), budget[n]);
      LatestNamed(rules, Latest(rules, budget[..n]), budget[n].last, budget[n].closings,
                  ImportBudget(rules, v, budget).cache.Keys);
    }
  }

  /** The currencies of a period's planned transactions and closings are among `codes`. */
  predicate Named(rules: Rules, period: LegacyPeriod, codes: set<string>) {
    && (forall i :: 0 <= i < |period.planned| && period.planned[i].Some? ==>
          rules.code(period.planned[i].value) in codes)
    && (forall i :: 0 <= i < |period.closings| && period.closings[i].symbol.Some? ==>
          rules.code(period.closings[i].symbol.value) in codes)
  }

  lemma {:induction false} BudgetNamesPeriod(rules: Rules, v: Vault, budget: LegacyBudget, k: nat)
    requires k < |budget|
    ensures Named(rules, budget[k], ImportBudget(rules, v, budget).cache.Keys)
  {
    hide ImportPeriod;
    var n := |budget| - 1;
    PeriodNames(rules, ImportBudget(rules, v, budget[..n]), budget[n]);
    if k < n {
      BudgetNamesPeriod(rules, v, budget[..n], k);
    }
  }

  /** Every currency that a planned transaction or a closing names has an account after the import. */
  lemma {:induction false} ImportNames(rules: Rules, v: Vault, budgets: seq<LegacyBudget>, i: nat, k: nat)
    requires i < |budgets| && k < |budgets[i]|
    ensures Named(rules, budgets[i][k], ImportBudgets(rules, v, budgets).cache.Keys)
  {
    hide ImportBudget, Latest;
    var n := |budgets| - 1;
    BudgetNames(rules, ImportBudgets(rules, v, budgets[..n]), budgets[n]);
    if i == n {
      BudgetNamesPeriod(rules, ImportBudgets(rules, v, budgets[..n]), budgets[n], k);
    } else {
      ImportNames(rules, v, budgets[..n], i, k);
    }
  }

  /** The sum of the latest closings of a currency over the budget accounts. */
  function ClosingsTotal(rules: Rules, budgets: seq<LegacyBudget>, code: string): int {
    if budgets == [] then 0
    else
      var latest := Latest(rules, budgets[|budgets| - 1]);
      ClosingsTotal(rules, budgets[..|budgets| - 1], code) + (if code in latest then latest[code].amount else 0)
  }

  lemma {:induction false} ExpectedIsTotal(rules: Rules, budgets: seq<LegacyBudget>, code: string)
    ensures ExpectedOf(rules, budgets, code)
         == if exists budget <- budgets :: code in Latest(rules, budget) then Some(ClosingsTotal(rules, budgets, code))
            else None
    ensures (forall budget <- budgets :: code !in Latest(rules, budget)) ==> ClosingsTotal(rules, budgets, code) == 0
  {
    hide Latest;
    if budgets != [] {
      var init := budgets[..|budgets| - 1];
      ExpectedIsTotal(rules, init, code);
      assert budgets == init + [budgets[|budgets| - 1]];
    }
  }

  lemma {:induction false} ExpectedNamed(rules: Rules, v: Vault, budgets: seq<LegacyBudget>, code: string)
    ensures v.cache.Keys <= ImportBudgets(rules, v, budgets).cache.Keys
    ensures ExpectedOf(rules, budgets, code).Some? ==> code in ImportBudgets(rules, v, budgets).cache
  {
    hide ImportBudget, Latest;
    if budgets != [] {
      var n := |budgets| - 1;
      ExpectedNamed(rules, v, budgets[..n], code);
      BudgetNames(rules, ImportBudgets(rules, v, budgets[..n]), budgets[n]);
    }
  }

  /**
   A whole import into an empty workspace: every currency that any budget account
   closed in gets an account whose balance is the sum of the latest closings, and
   every other account's balance is its exact net.
   */
  lemma ImportMeetsClosings(rules: Rules, declared: seq<Option<string>>, budgets: seq<LegacyBudget>, code: string)
    ensures var v := ImportBudgets(rules, Provision(rules, Vault(map[], [], [], []), declared), budgets);
            var solved, closed := Solved(v, Expected(rules, v, budgets)),
                                  exists budget <- budgets :: code in Latest(rules, budget);
            && (closed ==> code in v.cache)
            && (code in v.cache ==>
                  && v.cache[code] < |solved.accounts|
                  && Balance(AsBook(solved), v.cache[code])
                     == if closed then ClosingsTotal(rules, budgets, code) else ExportNet(rules, budgets, code))
  {
    var empty := Vault(map[], [], [], []);
    assert Wired(empty);
    hide ImportBudgets, Provision, Solved, ExportNet, ExpectedOf, Wired, Balance, NetDelta;
    ExpectedIsTotal(rules, budgets, code);
    ProvisionNet(rules, empty, declared, code);
    var v := ImportBudgets(rules, Provision(rules, empty, declared), budgets);
    ImportNet(rules, Provision(rules, empty, declared), budgets, code);
    ExpectedNamed(rules, Provision(rules, empty, declared), budgets, code);
    if code in v.cache {
      SolveMeets(v, Expected(rules, v, budgets), code);
    }
  }
}
