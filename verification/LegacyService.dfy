/// The legacy importer, filling its caches and the new workspace in place. Each method
/// is proved against LegacyModel.
module LegacyService {
  import opened Wrappers
  import opened BookModel
  import opened Buckets
  import opened CoverageLaws
  import opened LegacyModel
  import opened LegacyLaws

  // ---- the dedup ----

  method FindMatch(rules: Rules, txs: seq<LegacyTx>, consumed: set<nat>, ex: Exchange, side: Side)
    returns (found: Option<nat>)
    ensures found == Choose(rules, txs, consumed, ex, side)
  {
    found := ScanFor(rules, txs, consumed, ex, side, true);
    if found.None? {
      found := ScanFor(rules, txs, consumed, ex, side, false);
    }
  }

  method ScanFor(rules: Rules, txs: seq<LegacyTx>, consumed: set<nat>, ex: Exchange, side: Side, exact: bool)
    returns (found: Option<nat>)
    ensures found == FirstFree(rules, txs, consumed, ex, side, exact, 0)
  {
    for i := 0 to |txs|
      invariant FirstFree(rules, txs, consumed, ex, side, exact, 0)
         == FirstFree(rules, txs, consumed, ex, side, exact, i)
    {
      if i !in consumed && Candidate(rules, txs[i], ex, side, exact) {
        return Some(i);
      }
    }
    found := None;
  }

  /** The rows to skip, and which exchange side consumed each. */
  method DedupSkip(rules: Rules, period: LegacyPeriod) returns (consumed: set<nat>, matches: seq<Match>)
    ensures matches == Dedup(rules, period, |period.exchanges|) && consumed == Skipped(rules, period)
  {
    hide Choose;
    consumed, matches := {}, [];
    for e := 0 to |period.exchanges|
      invariant matches == Dedup(rules, period, e) && consumed == Consumed(matches)
    {
      var found := FindMatch(rules, period.txs, consumed, period.exchanges[e], Paid);
      if found.Some? {
        ConsumedAppend(matches, Match(found.value, e, Paid));
        matches, consumed := matches + [Match(found.value, e, Paid)], consumed + {found.value};
      }
      found := FindMatch(rules, period.txs, consumed, period.exchanges[e], Received);
      if found.Some? {
        ConsumedAppend(matches, Match(found.value, e, Received));
        matches, consumed := matches + [Match(found.value, e, Received)], consumed + {found.value};
      }
    }
  }

  lemma ConsumedAppend(matches: seq<Match>, m: Match)
    ensures Consumed(matches + [m]) == Consumed(matches) + {m.tx}
  {
    assert forall k :: k in matches + [m] <==> k in matches || k == m;
  }

  class LegacyImporter {
    var cache: map<string, nat>
    var accounts: seq<Account>
    var txs: seq<Tx>
    var transfers: seq<Transfer>
    var expectedClose: map<string, int>

    function State(): Vault
      reads this
    {
      Vault(cache, accounts, txs, transfers)
    }

    constructor ()
      ensures State() == Vault(map[], [], [], []) && expectedClose == map[]
    {
      cache, accounts, txs, transfers, expectedClose := map[], [], [], [], map[];
    }

    method ResolveAccount(code: string)
      modifies this`cache, this`accounts
      ensures State() == Resolve(old(State()), code)
    {
      if code !in cache {
        cache := cache[code := |accounts|];
        accounts := accounts + [Account(code, 0, false)];
      }
    }

    method ProvisionAll(rules: Rules, symbols: seq<Option<string>>)
      modifies this`cache, this`accounts
      ensures State() == Provision(rules, old(State()), symbols)
    {
      for i := 0 to |symbols|
        invariant State() == Provision(rules, old(State()), symbols[..i])
      {
        assert symbols[..i + 1][..i] == symbols[..i];
        if symbols[i].Some? {
          ResolveAccount(rules.code(symbols[i].value));
        }
      }
      assert symbols[..|symbols|] == symbols;
    }

    method StoreRow(code: string, kind: TxType, amount: int, date: int)
      modifies this`cache, this`accounts, this`txs
      ensures State() == Store(old(State()), code, kind, amount, date)
    {
      ResolveAccount(code);
      txs := txs + [BookRow(State(), code, kind, amount, date)];
    }

    method ImportRows(rules: Rules, rows: seq<LegacyTx>, skip: set<nat>)
      modifies this`cache, this`accounts, this`txs
      ensures State() == ImportTxs(rules, old(State()), rows, skip)
    {
      hide Store;
      for i := 0 to |rows|
        invariant State() == ImportTxs(rules, old(State()), rows[..i], skip)
      {
        assert rows[..i + 1][..i] == rows[..i];
        var tx := rows[i];
        if i !in skip && tx.symbol.Some? && tx.kind.Some? {
          var kind, amount := tx.kind.value, tx.amount;
          if !kind.Adjustment? && amount < 0 {
            amount := if kind.Income? then amount else -amount;
            kind := Adjustment;
          }
          StoreRow(rules.code(tx.symbol.value), kind, amount, tx.date);
        }
      }
      assert rows[..|rows|] == rows;
    }

    method ImportExchangeRows(rules: Rules, exchanges: seq<Exchange>)
      modifies this`cache, this`accounts, this`txs, this`transfers
      ensures State() == ImportExchanges(rules, old(State()), exchanges)
    {
      hide ImportExchange;
      for i := 0 to |exchanges|
        invariant State() == ImportExchanges(rules, old(State()), exchanges[..i])
      {
        assert exchanges[..i + 1][..i] == exchanges[..i];
        ImportOneExchange(rules, exchanges[i]);
      }
      assert exchanges[..|exchanges|] == exchanges;
    }

    method ImportOneExchange(rules: Rules, ex: Exchange)
      modifies this`cache, this`accounts, this`txs, this`transfers
      ensures State() == ImportExchange(rules, old(State()), ex)
    {
      hide Store;
      if ex.source.None? || ex.target.None? {
        return;
      }
      var source, target := rules.code(ex.source.value), rules.code(ex.target.value);
      ResolveAccount(source);
      ResolveAccount(target);
      if cache[source] == cache[target] {
        var delta := ex.received - ex.paid;
        if delta != 0 {
          StoreRow(source, Adjustment, delta, ex.date);
        }
      } else {
        transfers := transfers + [Transfer(|transfers|, cache[source], cache[target], ex.paid, ex.received)];
      }
    }

    /** Provisions the closings' accounts and keeps the latest closing per code. */
    method TrackClosings(rules: Rules, before: map<string, Close>, last: int, closings: seq<Closing>)
      returns (latest: map<string, Close>)
      modifies this`cache, this`accounts
      ensures State() == Provision(rules, old(State()), Symbols(closings))
      ensures latest == LatestIn(rules, before, last, closings)
    {
      hide Resolve;
      latest := before;
      for i := 0 to |closings|
        invariant State() == Provision(rules, old(State()), Symbols(closings[..i]))
        invariant latest == LatestIn(rules, before, last, closings[..i])
      {
        assert closings[..i + 1][..i] == closings[..i];
        assert Symbols(closings[..i + 1])[..i] == Symbols(closings[..i]);
        var row := closings[i];
        if row.symbol.Some? {
          var code := rules.code(row.symbol.value);
          ResolveAccount(code);
          if code !in latest || last >= latest[code].last {
            latest := latest[code := Close(last, row.amount)];
          }
        }
      }
      assert closings[..|closings|] == closings;
    }

    method ImportOnePeriod(rules: Rules, period: LegacyPeriod, before: map<string, Close>)
      returns (latest: map<string, Close>)
      modifies this`cache, this`accounts, this`txs, this`transfers
      ensures State() == ImportPeriod(rules, old(State()), period)
      ensures latest == LatestIn(rules, before, period.last, period.closings)
    {
      hide ImportTxs, Provision, ImportExchanges, Dedup, LatestIn, Skipped;
      var skip, matches := DedupSkip(rules, period);
      ImportRows(rules, period.txs, skip);
      ProvisionAll(rules, period.planned);
      ImportExchangeRows(rules, period.exchanges);
      latest := TrackClosings(rules, before, period.last, period.closings);
    }

    /** Imports a budget account and adds its latest closings to what is expected. */
    method ImportOneBudget(rules: Rules, budget: LegacyBudget)
      modifies this
      ensures State() == ImportBudget(rules, old(State()), budget)
      ensures expectedClose == Closed(old(expectedClose), Latest(rules, budget), Latest(rules, budget).Keys)
    {
      hide ImportPeriod, LatestIn;
      var latest: map<string, Close> := map[];
      for i := 0 to |budget|
        invariant expectedClose == old(expectedClose)
        invariant State() == ImportBudget(rules, old(State()), budget[..i])
        invariant latest == Latest(rules, budget[..i])
      {
        assert budget[..i + 1][..i] == budget[..i];
        latest := ImportOnePeriod(rules, budget[i], latest);
      }
      assert budget[..|budget|] == budget;
      expectedClose := SumClosings(expectedClose, latest);
    }

    /** A whole workspace: declared currencies, budget accounts, then the opening-balance solve and its check. */
    method ImportWorkspace(rules: Rules, declared: seq<Option<string>>, budgets: seq<LegacyBudget>)
      returns (mismatches: set<string>)
      requires State() == Vault(map[], [], [], []) && expectedClose == map[]
      modifies this
      ensures var v := ImportBudgets(rules, Provision(rules, Vault(map[], [], [], []), declared), budgets);
              State() == Solved(v, Expected(rules, v, budgets))
      ensures mismatches == {}
    {
      var empty := Vault(map[], [], [], []);
      assert IsExpected(rules, [], map[]) && Wired(empty);
      hide Provision, ImportBudget, Latest, Wired, Expected, Solved, IsExpected, Closed, ExpectedOf;
      ProvisionAll(rules, declared);
      for i := 0 to |budgets|
        invariant State() == ImportBudgets(rules, Provision(rules, empty, declared), budgets[..i])
        invariant IsExpected(rules, budgets[..i], expectedClose)
      {
        assert budgets[..i + 1][..i] == budgets[..i];
        ExpectedStep(rules, budgets, i, expectedClose);
        ImportOneBudget(rules, budgets[i]);
      }
      assert budgets[..|budgets|] == budgets;
      ghost var v := State();
      ProvisionNet(rules, empty, declared, "");
      ImportNet(rules, Provision(rules, empty, declared), budgets, "");
      SolveOpenings();
      SameSolve(rules, v, budgets, expectedClose);
      mismatches := CheckBalances(v);
    }

    method SolveOpenings()
      requires Wired(State())
      modifies this`accounts
      ensures State() == Solved(old(State()), expectedClose)
    {
      accounts := SolvedAccounts(State(), expectedClose);
    }

    /** The import report's own check; it never has anything to report. */
    method CheckBalances(ghost v: Vault) returns (mismatches: set<string>)
      requires Wired(v) && State() == Solved(v, expectedClose)
      ensures mismatches == {}
    {
      hide NetDelta, Balance, Wired;
      mismatches := {};
      var todo := cache.Keys;
      while todo != {}
        invariant todo <= cache.Keys && mismatches == {}
        decreases |todo|
      {
        var code :| code in todo;
        SolveMeets(v, expectedClose, code);
        if code in expectedClose && Balance(AsBook(State()), cache[code]) != expectedClose[code] {
          mismatches := mismatches + {code};
        }
        todo := todo - {code};
      }
    }
  }

  lemma OpeningsStep(v: Vault, expected: map<string, int>, done: set<string>, code: string)
    requires Wired(v) && done <= v.cache.Keys && code in v.cache
    ensures v.cache[code] < |v.accounts|
    ensures Openings(v, expected, done + {code}) ==
            if code in expected
            then
              var a := v.cache[code];
              Openings(v, expected, done)
              [a := Openings(v, expected, done)[a].(opening := expected[code] - NetDelta(v, a))]
            else Openings(v, expected, done)
  {
    hide NetDelta, Covered;
  }

  lemma OpeningsNone(v: Vault, expected: map<string, int>)
    ensures Openings(v, expected, {}) == v.accounts
  {}

  /** One opening per expected account; computed from transactions and transfers only. */
  method SolvedAccounts(v: Vault, expected: map<string, int>) returns (accounts: seq<Account>)
    requires Wired(v)
    ensures accounts == Openings(v, expected, v.cache.Keys)
  {
    hide NetDelta, Wired, Openings;
    accounts := v.accounts;
    var todo := v.cache.Keys;
    assert v.cache.Keys - todo == {};
    OpeningsNone(v, expected);
    while todo != {}
      invariant todo <= v.cache.Keys && accounts == Openings(v, expected, v.cache.Keys - todo)
      decreases |todo|
    {
      var code :| code in todo;
      OneMore(v.cache.Keys, todo, code);
      OpeningsStep(v, expected, v.cache.Keys - todo, code);
      if code in expected {
        var net := NetDelta(v, v.cache[code]);
        accounts := accounts[v.cache[code] := accounts[v.cache[code]].(opening := expected[code] - net)];
      }
      todo := todo - {code};
    }
    assert v.cache.Keys - todo == v.cache.Keys;
  }

  /** `expected_close.get(code, 0) + closing` for every code a budget account closed in. */
  method SumClosings(expected: map<string, int>, latest: map<string, Close>) returns (after: map<string, int>)
    ensures after == Closed(expected, latest, latest.Keys)
  {
    hide Closed, Add;
    after := expected;
    var todo := latest.Keys;
    assert latest.Keys - todo == {};
    CloseNone(expected, latest);
    while todo != {}
      invariant todo <= latest.Keys && after == Closed(expected, latest, latest.Keys - todo)
      decreases |todo|
    {
      var code :| code in todo;
      OneMore(latest.Keys, todo, code);
      CloseStep(expected, latest, latest.Keys - todo, code);
      after := Add(after, code, latest[code].amount);
      todo := todo - {code};
    }
    assert latest.Keys - todo == latest.Keys;
  }

  lemma CloseNone(expected: map<string, int>, latest: map<string, Close>)
    ensures Closed(expected, latest, {}) == expected
  {}

  lemma CloseStep(expected: map<string, int>, latest: map<string, Close>, done: set<string>, code: string)
    requires done <= latest.Keys && code in latest && code !in done
    ensures Closed(expected, latest, done + {code}) == Add(Closed(expected, latest, done), code, latest[code].amount)
  {}

  /** The dictionary of expected closings holds the sums of the latest closings. */
  ghost predicate IsExpected(rules: Rules, budgets: seq<LegacyBudget>, expected: map<string, int>) {
    forall code :: (if code in expected then Some(expected[code]) else None) == ExpectedOf(rules, budgets, code)
  }

  lemma ExpectedStep(rules: Rules, budgets: seq<LegacyBudget>, i: nat, expected: map<string, int>)
    requires i < |budgets| && IsExpected(rules, budgets[..i], expected)
    ensures var latest := Latest(rules, budgets[i]);
                IsExpected(rules, budgets[..i + 1], Closed(expected, latest, latest.Keys))
  {
    hide Latest;
    assert budgets[..i + 1][..i] == budgets[..i];
    var latest := Latest(rules, budgets[i]);
    var after := Closed(expected, latest, latest.Keys);
    forall code
      ensures (if code in after then Some(after[code]) else None) == ExpectedOf(rules, budgets[..i + 1], code)
    {
      assert (if code in expected then Some(expected[code]) else None) == ExpectedOf(rules, budgets[..i], code);
    }
  }

  lemma SameSolve(rules: Rules, v: Vault, budgets: seq<LegacyBudget>, m: map<string, int>)
    requires IsExpected(rules, budgets, m)
    ensures Solved(v, m) == Solved(v, Expected(rules, v, budgets))
  {
    hide NetDelta, ExpectedOf;
    var expected := Expected(rules, v, budgets);
    forall code | code in v.cache
      ensures (code in m <==> code in expected) && (code in m ==> m[code] == expected[code])
    {
      assert (if code in m then Some(m[code]) else None) == ExpectedOf(rules, budgets, code);
    }
  }
}
