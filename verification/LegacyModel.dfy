/// The importer of old exports: budget accounts of periods whose currency exchanges
/// were also recorded as ordinary transactions.
module LegacyModel {
  import opened Wrappers
  import opened BookModel
  import opened Buckets

  // ---- the export ----

  /** Missing currencies and unknown types are None; descriptions are stripped. */
  datatype LegacyTx =
    LegacyTx(kind: Option<TxType>, symbol: Option<string>, amount: int, date: int, description: string)

  datatype Exchange = Exchange(
    source: Option<string>,
    target: Option<string>,
    paid: int,
    received: int,
    date: int,
    description: string)

  datatype Closing = Closing(symbol: Option<string>, amount: int)

  /** `planned` lists the currencies of planned transactions, which only need an account. */
  datatype LegacyPeriod = LegacyPeriod(
    last: int,
    txs: seq<LegacyTx>,
    planned: seq<Option<string>>,
    exchanges: seq<Exchange>,
    closings: seq<Closing>)

  type LegacyBudget = seq<LegacyPeriod>

  /** The catalog's code for an exported symbol, and the description conventions of exchange rows. */
  datatype Rules = Rules(code: string -> string, conventional: (LegacyTx, Exchange) -> bool)

  // ---- linked exchange rows ----

  datatype Side = Paid | Received

  function SideAmount(ex: Exchange, side: Side): int { if side.Paid? then ex.paid else ex.received }

  function SideSymbol(ex: Exchange, side: Side): Option<string> { if side.Paid? then ex.source else ex.target }

  /** Type, currency, amount and date of one side; a row without currency matches any. */
  predicate BaseMatches(tx: LegacyTx, ex: Exchange, side: Side) {
    && tx.kind == Some(if side.Paid? then Expense else Income)
    && (tx.symbol.None? || tx.symbol == SideSymbol(ex, side))
    && tx.amount == SideAmount(ex, side)
    && tx.date == ex.date
  }

  /** An empty description never matches. */
  predicate ExactDesc(tx: LegacyTx, ex: Exchange) { ex.description != "" && tx.description == ex.description }

  predicate Candidate(rules: Rules, tx: LegacyTx, ex: Exchange, side: Side, exact: bool) {
    BaseMatches(tx, ex, side) && if exact then ExactDesc(tx, ex) else rules.conventional(tx, ex)
  }

  /** The first row at or after `i` that is still free and matches. */
  function FirstFree(rules: Rules, txs: seq<LegacyTx>, consumed: set<nat>, ex: Exchange, side: Side, exact: bool,
                     i: nat): (r: Option<nat>)
    requires i <= |txs|
    ensures r.Some? ==> i <= r.value < |txs| && r.value !in consumed && Candidate(rules, txs[r.value], ex, side, exact)
    ensures forall k :: i <= k < (if r.Some? then r.value else |txs|) && k !in consumed ==>
              !Candidate(rules, txs[k], ex, side, exact)
    decreases |txs| - i
  {
    if i == |txs| then None
    else if i !in consumed && Candidate(rules, txs[i], ex, side, exact) then Some(i)
    else FirstFree(rules, txs, consumed, ex, side, exact, i + 1)
  }

  /** An exact description anywhere beats a conventional one. */
  function Choose(rules: Rules, txs: seq<LegacyTx>, consumed: set<nat>, ex: Exchange, side: Side): Option<nat> {
    var exact := FirstFree(rules, txs, consumed, ex, side, true, 0);
    if exact.Some? then exact else FirstFree(rules, txs, consumed, ex, side, false, 0)
  }

  datatype Match = Match(tx: nat, exchange: nat, side: Side)

  function Consumed(matches: seq<Match>): set<nat> { set m | m in matches :: m.tx }

  function TakeSide(rules: Rules, period: LegacyPeriod, before: seq<Match>, e: nat, side: Side): seq<Match>
    requires e < |period.exchanges|
  {
    var found := Choose(rules, period.txs, Consumed(before), period.exchanges[e], side);
    if found.None? then before else before + [Match(found.value, e, side)]
  }

  /** The rows consumed by the first `n` exchanges, each side in turn. */
  function Dedup(rules: Rules, period: LegacyPeriod, n: nat): seq<Match>
    requires n <= |period.exchanges|
  {
    if n == 0 then []
    else TakeSide(rules, period, TakeSide(rules, period, Dedup(rules, period, n - 1), n - 1, Paid), n - 1, Received)
  }

  function Skipped(rules: Rules, period: LegacyPeriod): set<nat> {
    Consumed(Dedup(rules, period, |period.exchanges|))
  }

  // ---- the new workspace ----

  /** One account per currency code, found through the cache. */
  datatype Vault = Vault(cache: map<string, nat>, accounts: seq<Account>, txs: seq<Tx>, transfers: seq<Transfer>)

  function Resolve(v: Vault, code: string): (after: Vault)
    ensures code in after.cache && after.txs == v.txs && after.transfers == v.transfers
  {
    if code in v.cache then v
    else v.(cache := v.cache[code := |v.accounts|], accounts := v.accounts + [Account(code, 0, false)])
  }

  function Provision(rules: Rules, v: Vault, symbols: seq<Option<string>>): Vault {
    if symbols == [] then v
    else
      var before, symbol := Provision(rules, v, symbols[..|symbols| - 1]), symbols[|symbols| - 1];
      if symbol.None? then before else Resolve(before, rules.code(symbol.value))
  }

  /** A saved row with the amount-sized remainder that coverage asks for. */
  function BookRow(v: Vault, code: string, kind: TxType, amount: int, date: int): Tx
    requires code in v.cache
  {
    Tx(|v.txs|, Some(v.cache[code]), code, date, kind, amount, None, None, None,
       if kind.Adjustment? || amount <= 0 then [] else [NewRemainder(amount)])
  }

  function Store(v: Vault, code: string, kind: TxType, amount: int, date: int): Vault {
    var w := Resolve(v, code);
    w.(txs := w.txs + [BookRow(w, code, kind, amount, date)])
  }

  /** A negative income or expense is kept as the signed adjustment it amounted to. */
  function ImportTx(rules: Rules, v: Vault, tx: LegacyTx): Vault {
    if tx.symbol.None? || tx.kind.None? then v
    else
      var code := rules.code(tx.symbol.value);
      if tx.amount < 0 && !tx.kind.value.Adjustment? then
        Store(v, code, Adjustment, if tx.kind.value.Income? then tx.amount else -tx.amount, tx.date)
      else Store(v, code, tx.kind.value, tx.amount, tx.date)
  }

  function ImportTxs(rules: Rules, v: Vault, txs: seq<LegacyTx>, skip: set<nat>): Vault {
    if txs == [] then v
    else
      var n := |txs| - 1;
      var before := ImportTxs(rules, v, txs[..n], skip);
      if n in skip then before else ImportTx(rules, before, txs[n])
  }

  /** An exchange becomes a transfer, or an adjustment by the difference when both sides share an account. */
  function ImportExchange(rules: Rules, v: Vault, ex: Exchange): Vault {
    if ex.source.None? || ex.target.None? then v
    else
      var source, target := rules.code(ex.source.value), rules.code(ex.target.value);
      var w := Resolve(Resolve(v, source), target);
      if w.cache[source] == w.cache[target] then
        if ex.received == ex.paid then w else Store(w, source, Adjustment, ex.received - ex.paid, ex.date)
      else
        w.(transfers := w.transfers + [Transfer(|w.transfers|, w.cache[source], w.cache[target], ex.paid, ex.received)])
  }

  function ImportExchanges(rules: Rules, v: Vault, exchanges: seq<Exchange>): Vault {
    if exchanges == [] then v
    else ImportExchange(rules, ImportExchanges(rules, v, exchanges[..|exchanges| - 1]), exchanges[|exchanges| - 1])
  }

  function Symbols(closings: seq<Closing>): (s: seq<Option<string>>)
    ensures |s| == |closings|
  {
    seq(|closings|, i requires 0 <= i < |closings| => closings[i].symbol)
  }

  function ImportPeriod(rules: Rules, v: Vault, period: LegacyPeriod): Vault {
    var a := ImportTxs(rules, v, period.txs, Skipped(rules, period));
    var b := Provision(rules, a, period.planned);
    var c := ImportExchanges(rules, b, period.exchanges);
    Provision(rules, c, Symbols(period.closings))
  }

  function ImportBudget(rules: Rules, v: Vault, budget: LegacyBudget): Vault {
    if budget == [] then v
    else ImportPeriod(rules, ImportBudget(rules, v, budget[..|budget| - 1]), budget[|budget| - 1])
  }

  function ImportBudgets(rules: Rules, v: Vault, budgets: seq<LegacyBudget>): Vault {
    if budgets == [] then v
    else ImportBudget(rules, ImportBudgets(rules, v, budgets[..|budgets| - 1]), budgets[|budgets| - 1])
  }

  // ---- expected closings ----

  datatype Close = Close(last: int, amount: int)

  /** A later or equally late closing replaces what is kept for its code. */
  function Keep(latest: map<string, Close>, code: string, close: Close): map<string, Close> {
    if code !in latest || close.last >= latest[code].last then latest[code := close] else latest
  }

  /** A budget account's latest closing per code, after one more period. */
  function LatestIn(rules: Rules, before: map<string, Close>, last: int, closings: seq<Closing>): map<string, Close> {
    if closings == [] then before
    else
      var latest, row := LatestIn(rules, before, last, closings[..|closings| - 1]), closings[|closings| - 1];
      if row.symbol.None? then latest
      else Keep(latest, rules.code(row.symbol.value), Close(last, row.amount))
  }

  function Latest(rules: Rules, budget: LegacyBudget): map<string, Close> {
    if budget == [] then map[]
    else
      var period := budget[|budget| - 1];
      LatestIn(rules, Latest(rules, budget[..|budget| - 1]), period.last, period.closings)
  }

  /** The expected closings after adding those of `done`. */
  function Closed(expected: map<string, int>, latest: map<string, Close>, done: set<string>): map<string, int>
    requires done <= latest.Keys
  {
    map code | code in expected.Keys + done :: ValueAt(expected, code) + if code in done then latest[code].amount else 0
  }

  /** The sum of the latest closings over all budget accounts that have one. */
  function ExpectedOf(rules: Rules, budgets: seq<LegacyBudget>, code: string): Option<int> {
    if budgets == [] then None
    else
      var before, latest := ExpectedOf(rules, budgets[..|budgets| - 1], code), Latest(rules, budgets[|budgets| - 1]);
      if code !in latest then before
      else Some((if before.Some? then before.value else 0) + latest[code].amount)
  }

  // ---- the opening-balance solve ----

  function NetDelta(v: Vault, account: nat): int {
    TransactionsDelta(v.txs, account) + TransfersDelta(v.transfers, account)
  }

  /** Accounts whose code is in `done` and expected get the opening that makes opening plus net the expected closing. */
  function Openings(v: Vault, expected: map<string, int>, done: set<string>): (accounts: seq<Account>)
    requires done <= v.cache.Keys
    ensures |accounts| == |v.accounts|
  {
    seq(|v.accounts|, a requires 0 <= a < |v.accounts| =>
          var code := v.accounts[a].currency;
          if code in done && v.cache[code] == a && code in expected
          then v.accounts[a].(opening := expected[code] - NetDelta(v, a)) else v.accounts[a])
  }

  function Solved(v: Vault, expected: map<string, int>): Vault {
    v.(accounts := Openings(v, expected, v.cache.Keys))
  }

  /** The vault as a book of accounts. */
  function AsBook(v: Vault): Book {
    Book(v.accounts, map[], {}, {}, v.txs, |v.txs|, v.transfers, |v.transfers|)
  }
}
