// The risk engine's durable store (services/risk-engine/app/store.py): the deduplicated
// event log with its derived projection, the latest prices, and the rolling windows.

module Windows {
  import opened Basics

  // Rows of a history table in id order; ids are never reused.
  datatype Sample = Sample(key: string, value: real)

  function ValuesOf(rows: seq<Sample>, key: string): seq<real> {
    if rows == [] then []
    else ValuesOf(Front(rows), key) + (if Last(rows).key == key then [Last(rows).value] else [])
  }

  function LastN<T>(xs: seq<T>, n: nat): seq<T> {
    if |xs| <= n then xs else xs[|xs| - n..]
  }

  // DELETE rows of the key that are not among its `keep` newest.
  function Evict(rows: seq<Sample>, key: string, keep: nat): seq<Sample> {
    if rows == [] then []
    else if Last(rows).key != key then Evict(Front(rows), key, keep) + [Last(rows)]
    else if keep == 0 then Evict(Front(rows), key, 0)
    else Evict(Front(rows), key, keep - 1) + [Last(rows)]
  }

  function Keep(windowSize: int): nat {
    Max(windowSize, 0) + 1
  }

  function Append(rows: seq<Sample>, s: Sample, windowSize: int): seq<Sample> {
    Evict(rows + [s], s.key, Keep(windowSize))
  }

  function AppendAll(rows: seq<Sample>, samples: seq<Sample>, windowSize: int): seq<Sample> {
    if samples == [] then rows else Append(AppendAll(rows, Front(samples), windowSize), Last(samples), windowSize)
  }

  lemma ValuesAppend(rows: seq<Sample>, s: Sample, k: string)
    ensures ValuesOf(rows + [s], k) == ValuesOf(rows, k) + (if s.key == k then [s.value] else [])
  {
    assert Front(rows + [s]) == rows;
  }

  lemma LastNStep(xs: seq<real>, v: real, n: nat)
    requires n > 0
    ensures LastN(xs, n - 1) + [v] == LastN(xs + [v], n)
  {
  }

  lemma {:induction false} EvictSparesOthers(rows: seq<Sample>, key: string, keep: nat, k: string)
    requires k != key
    ensures ValuesOf(Evict(rows, key, keep), k) == ValuesOf(rows, k)
  {
    if rows != [] {
      var front, last := Front(rows), Last(rows);
      var kept := if last.key != key || keep == 0 then keep else keep - 1;
      EvictSparesOthers(front, key, kept, k);
      ValuesAppend(Evict(front, key, kept), last, k);
    }
  }

  lemma {:induction false} EvictKeepsNewest(rows: seq<Sample>, key: string, keep: nat)
    ensures ValuesOf(Evict(rows, key, keep), key) == LastN(ValuesOf(rows, key), keep)
  {
    if rows != [] {
      var front, last := Front(rows), Last(rows);
      if last.key != key {
        EvictKeepsNewest(front, key, keep);
        ValuesAppend(Evict(front, key, keep), last, key);
      } else if keep == 0 {
        EvictKeepsNewest(front, key, 0);
      } else {
        EvictKeepsNewest(front, key, keep - 1);
        ValuesAppend(Evict(front, key, keep - 1), last, key);
        LastNStep(ValuesOf(front, key), last.value, keep);
      }
    }
  }

  lemma LastNAppend(all: seq<real>, v: real, n: nat)
    requires n > 0
    ensures LastN(LastN(all, n) + [v], n) == LastN(all + [v], n)
  {
  }

  // What one append does: the value goes to the end of its key's window, of which at most the
  // newest window_size + 1 stay; other windows are untouched.
  ghost predicate Sampled(before: seq<Sample>, after: seq<Sample>, s: Sample, windowSize: int) {
    && (forall k :: k != s.key ==> ValuesOf(after, k) == ValuesOf(before, k))
    && var all, kept := ValuesOf(before, s.key) + [s.value], ValuesOf(after, s.key);
       && |kept| == Min(|all|, Max(windowSize, 0) + 1)
       && kept == all[|all| - |kept|..]
  }

  lemma AppendSamples(rows: seq<Sample>, s: Sample, windowSize: int)
    ensures Sampled(rows, Append(rows, s, windowSize), s, windowSize)
  {
    EvictKeepsNewest(rows + [s], s.key, Keep(windowSize));
    forall k
      ensures ValuesOf(rows + [s], k) == ValuesOf(rows, k) + (if s.key == k then [s.value] else [])
      ensures k != s.key ==> ValuesOf(Append(rows, s, windowSize), k) == ValuesOf(rows, k)
    {
      ValuesAppend(rows, s, k);
      if k != s.key {
        EvictSparesOthers(rows + [s], s.key, Keep(windowSize), k);
      }
    }
  }

  /** Under any interleaving of appends across keys, the shared insert-then-evict table holds,
      per key, exactly the last window_size + 1 values, oldest first; so at most window_size
      returns derive from them. */
  lemma RollingWindow(samples: seq<Sample>, windowSize: int, key: string)
    ensures var all, kept := ValuesOf(samples, key), ValuesOf(AppendAll([], samples, windowSize), key);
            && |kept| == Min(|all|, Max(windowSize, 0) + 1)
            && (forall i :: 0 <= i < |kept| ==> kept[i] == all[|all| - |kept| + i])
            && |ReturnsOf(kept)| <= Max(windowSize, 0)
  {
    KeepsLast(samples, windowSize, key);
    AtMostOneLess(ValuesOf(AppendAll([], samples, windowSize), key));
  }

  lemma {:induction false} AtMostOneLess(values: seq<real>)
    ensures values != [] ==> |ReturnsOf(values)| <= |values| - 1
  {
    if |values| > 1 {
      AtMostOneLess(Front(values));
    }
  }

  lemma {:induction false} KeepsLast(samples: seq<Sample>, windowSize: int, key: string)
    ensures ValuesOf(AppendAll([], samples, windowSize), key) == LastN(ValuesOf(samples, key), Keep(windowSize))
  {
    if samples != [] {
      var table, s := AppendAll([], Front(samples), windowSize), Last(samples);
      KeepsLast(Front(samples), windowSize, key);
      ValuesAppend(table, s, key);
      if s.key == key {
        EvictKeepsNewest(table + [s], key, Keep(windowSize));
      } else {
        EvictSparesOthers(table + [s], s.key, Keep(windowSize), key);
      }
      LastNAppend(ValuesOf(Front(samples), key), s.value, Keep(windowSize));
    }
  }

  // --- returns over a window -------------------------------------------

  function ReturnsOf(values: seq<real>): seq<real> {
    if |values| <= 1 then []
    else
      var prev := values[|values| - 2];
      ReturnsOf(Front(values)) + (if prev == 0.0 then [] else [(Last(values) - prev) / prev])
  }

  function Grown(growth: real, r: real): real {
    growth * (1.0 + r)
  }

  // The product of 1 + r over all returns.
  function Growth(rs: seq<real>): real {
    if rs == [] then 1.0 else Grown(Growth(Front(rs)), Last(rs))
  }

  // Compounding takes the first value to the last.
  predicate Leads(growth: real, first: real, last: real) {
    growth * first == last
  }

  lemma GrowthStep(growth: real, first: real, prev: real, cur: real, r: real)
    requires prev != 0.0 && Leads(growth, first, prev) && r == (cur - prev) / prev
    ensures Leads(Grown(growth, r), first, cur)
  {
    var f := 1.0 + r;
    assert prev * r == cur - prev;
    assert prev * f == cur;
    assert (growth * f) * first == (growth * first) * f;
  }

  lemma LastReturn(values: seq<real>) returns (r: real)
    requires |values| > 1 && Last(Front(values)) != 0.0
    ensures r == (Last(values) - Last(Front(values))) / Last(Front(values))
    ensures ReturnsOf(values) == ReturnsOf(Front(values)) + [r]
    ensures Growth(ReturnsOf(values)) == Grown(Growth(ReturnsOf(Front(values))), r)
  {
    hide Grown;
    r := (Last(values) - Last(Front(values))) / Last(Front(values));
    assert Front(ReturnsOf(Front(values)) + [r]) == ReturnsOf(Front(values));
  }

  predicate IsStep(values: seq<real>, i: nat) {
    i + 1 < |values| && values[i] != 0.0
  }

  // `at` lists the steps whose first value is not zero, in order, and each return is the
  // relative change over its step.
  ghost predicate RelativeChanges(values: seq<real>, at: seq<nat>, rs: seq<real>) {
    && |at| == |rs|
    && (forall j, k :: 0 <= j < k < |at| ==> at[j] < at[k])
    && (forall i: nat :: i in at <==> IsStep(values, i))
    && (forall j :: 0 <= j < |at| ==> IsStep(values, at[j]) && ChangesBy(rs[j], values[at[j]], values[at[j] + 1]))
  }

  predicate ChangesBy(r: real, prev: real, cur: real) {
    r * prev == cur - prev
  }

  lemma QuotientChanges(prev: real, cur: real)
    requires prev != 0.0
    ensures ChangesBy((cur - prev) / prev, prev, cur)
  {
  }

  /** The return series has one return for every step from a value that is not zero, in order:
      the relative change over that step. */
  lemma {:induction false} ReturnsAreChanges(values: seq<real>) returns (at: seq<nat>)
    ensures RelativeChanges(values, at, ReturnsOf(values))
  {
    at := [];
    if |values| > 1 {
      var front := Front(values);
      var before := ReturnsAreChanges(front);
      at := before + if Last(front) != 0.0 then [|values| - 2] else [];
      assert values == front + [Last(values)];
      hide ReturnsOf;
      if Last(front) == 0.0 {
        ZeroSkipped(front, Last(values), before, ReturnsOf(front));
        SkipsZero(values);
        assert before + [] == before;
      } else {
        QuotientChanges(Last(front), Last(values));
        var r := LastReturn(values);
        StepAdded(front, Last(values), before, ReturnsOf(front), r);
      }
    }
  }

  lemma SkipsZero(values: seq<real>)
    requires |values| > 1 && Last(Front(values)) == 0.0
    ensures ReturnsOf(values) == ReturnsOf(Front(values))
  {
  }

  lemma StepsBefore(front: seq<real>, v: real, i: nat)
    ensures IsStep(front + [v], i) <==> IsStep(front, i) || (i + 1 == |front| && Last(front) != 0.0)
  {
  }

  lemma ZeroSkipped(front: seq<real>, v: real, at: seq<nat>, rs: seq<real>)
    requires front != [] && Last(front) == 0.0 && RelativeChanges(front, at, rs)
    ensures RelativeChanges(front + [v], at, rs)
  {
    hide ChangesBy;
    forall i: nat
      ensures IsStep(front + [v], i) <==> IsStep(front, i)
    {
      StepsBefore(front, v, i);
    }
  }

  lemma StepAdded(front: seq<real>, v: real, at: seq<nat>, rs: seq<real>, r: real)
    requires front != [] && Last(front) != 0.0 && RelativeChanges(front, at, rs) && ChangesBy(r, Last(front), v)
    ensures RelativeChanges(front + [v], at + [|front| - 1], rs + [r])
  {
    hide ChangesBy;
    assert forall j :: 0 <= j < |at| ==> IsStep(front, at[j]);
    forall i: nat
      ensures IsStep(front + [v], i) <==> IsStep(front, i) || i == |front| - 1
    {
      StepsBefore(front, v, i);
    }
  }

  /** With no zero value there is one return per step, and compounding them all leads from the
      oldest retained value to the newest. */
  lemma {:induction false} ReturnsCompound(values: seq<real>)
    requires values != [] && forall i :: 0 <= i < |values| ==> values[i] != 0.0
    ensures |ReturnsOf(values)| == |values| - 1
    ensures Leads(Growth(ReturnsOf(values)), values[0], Last(values))
  {
    if |values| > 1 {
      hide ReturnsOf, Growth, Grown, Leads;
      var front := Front(values);
      ReturnsCompound(front);
      var r := LastReturn(values);
      GrowthStep(Growth(ReturnsOf(front)), values[0], Last(front), Last(values), r);
    }
  }
}

module RiskStore {
  import opened Basics
  import opened Events
  import opened Windows

  datatype Holding = Holding(symbol: string, quantity: real, price: real)

  datatype Metrics = Metrics(portfolioValue: real, pnl: real, volatility: real, valueAtRisk: real, sharpe: real)

  // Symbols an account has traded, in order of first appearance.
  function Symbols(log: seq<Event>, account: string): seq<string> {
    if log == [] then []
    else
      var symbols := Symbols(Front(log), account);
      if Last(log).account == account && Last(log).symbol !in symbols then symbols + [Last(log).symbol] else symbols
  }

  lemma {:induction false} SymbolsAreTraded(log: seq<Event>, account: string)
    ensures forall s :: s in Symbols(log, account) <==> LastFor(log, account, s).Some?
    ensures forall i, j :: 0 <= i < j < |Symbols(log, account)| ==> Symbols(log, account)[i] != Symbols(log, account)[j]
  {
    if log != [] {
      SymbolsAreTraded(Front(log), account);
      assert forall i :: 0 <= i < |Symbols(Front(log), account)| ==>
          Symbols(Front(log), account)[i] in Symbols(Front(log), account);
    }
  }

  function TradePrice(log: seq<Event>, account: string, symbol: string): real {
    match LastFor(log, account, symbol)
    case Some(e) => (match e.price case Some(p) => p case None => 0.0)
    case None => 0.0
  }

  // The live price when a tick has arrived, else the price of the last trade.
  function Mark(prices: map<string, real>, log: seq<Event>, account: string, symbol: string): real {
    if symbol in prices then prices[symbol] else TradePrice(log, account, symbol)
  }

  /** After an event its symbol is marked at the tick, else at the event's price, else at zero;
      other symbols and accounts keep their marks. */
  lemma MarkAfter(prices: map<string, real>, log: seq<Event>, e: Event, account: string, symbol: string)
    ensures Mark(prices, log + [e], account, symbol)
         == if symbol in prices then prices[symbol]
            else if e.account != account || e.symbol != symbol then Mark(prices, log, account, symbol)
            else if e.price.Some? then e.price.value else 0.0
    ensures Mark(prices, [], account, symbol) == if symbol in prices then prices[symbol] else 0.0
  {
    assert Front(log + [e]) == log;
  }

  function Distinct(log: seq<Event>): seq<string> {
    if log == [] then []
    else
      var accounts := Distinct(Front(log));
      if Last(log).account in accounts then accounts else accounts + [Last(log).account]
  }

  /** The accounts listed are each listed once and are exactly those with an event. */
  lemma {:induction false} DistinctAreAccounts(log: seq<Event>)
    ensures forall a :: a in Distinct(log) <==> exists e :: e in log && e.account == a
    ensures forall i, j :: 0 <= i < j < |Distinct(log)| ==> Distinct(log)[i] != Distinct(log)[j]
  {
    if log != [] {
      DistinctAreAccounts(Front(log));
      assert log == Front(log) + [Last(log)];
      assert Last(log) in log;
    }
  }

  class Store {
    var appliedEvents: seq<Event>
    var priceCache: map<string, real>
    var priceHistory: seq<Sample>
    var pvHistory: seq<Sample>
    var snapshots: map<string, Metrics>

    constructor ()
      ensures appliedEvents == [] && priceCache == map[] && priceHistory == [] && pvHistory == [] && snapshots == map[]
    {
      appliedEvents, priceCache, priceHistory, pvHistory, snapshots := [], map[], [], [], map[];
    }

    method UpsertPrice(symbol: string, price: real)
      modifies this`priceCache
      ensures priceCache == old(priceCache)[symbol := price]
    {
      priceCache := priceCache[symbol := price];
    }

    // Insert, then evict what is older than the newest window_size + 1.
    method AppendPrice(symbol: string, price: real, windowSize: int)
      modifies this`priceHistory
      ensures priceHistory == Append(old(priceHistory), Sample(symbol, price), windowSize)
      ensures Sampled(old(priceHistory), priceHistory, Sample(symbol, price), windowSize)
    {
      AppendSamples(priceHistory, Sample(symbol, price), windowSize);
      var keep := Max(windowSize, 0) + 1;
      priceHistory := priceHistory + [Sample(symbol, price)];
      priceHistory := Evict(priceHistory, symbol, keep);
    }

    method AppendPv(account: string, pv: real, windowSize: int)
      modifies this`pvHistory
      ensures pvHistory == Append(old(pvHistory), Sample(account, pv), windowSize)
      ensures Sampled(old(pvHistory), pvHistory, Sample(account, pv), windowSize)
    {
      AppendSamples(pvHistory, Sample(account, pv), windowSize);
      var keep := Max(windowSize, 0) + 1;
      pvHistory := pvHistory + [Sample(account, pv)];
      pvHistory := Evict(pvHistory, account, keep);
    }

    method PvReturns(account: string) returns (out: seq<real>)
      ensures out == ReturnsOf(ValuesOf(pvHistory, account))
    {
      var pvs := ValuesOf(pvHistory, account);
      out := ConsecutiveReturns(pvs);
    }

    method Returns(symbol: string) returns (out: seq<real>)
      ensures out == ReturnsOf(ValuesOf(priceHistory, symbol))
    {
      var prices := ValuesOf(priceHistory, symbol);
      out := ConsecutiveReturns(prices);
    }

    // A zero previous value is skipped.
    static method ConsecutiveReturns(values: seq<real>) returns (out: seq<real>)
      ensures out == ReturnsOf(values)
    {
      out := [];
      var i := 1;
      while i < |values|
        invariant 1 <= i <= Max(1, |values|)
        invariant out == ReturnsOf(values[..Min(i, |values|)])
      {
        var prev, cur := values[i - 1], values[i];
        assert Front(values[..i + 1]) == values[..i];
        if prev != 0.0 {
          out := out + [(cur - prev) / prev];
        }
        i := i + 1;
      }
      assert values[..|values|] == values;
    }

    // INSERT OR IGNORE: true when newly applied.
    method ApplyLedgerEvent(e: Event) returns (applied: bool)
      modifies this`appliedEvents
      ensures applied <==> !Has(old(appliedEvents), e.eventId)
      ensures appliedEvents == Insert(old(appliedEvents), e)
    {
      applied := !Has(appliedEvents, e.eventId);
      if applied {
        appliedEvents := appliedEvents + [e];
      }
    }

    function AccountCash(account: string, seedCash: real): real
      reads this
    {
      seedCash + CashSum(appliedEvents, account)
    }

    method LatestPositions(account: string) returns (out: seq<Holding>)
      ensures |out| == |Symbols(appliedEvents, account)|
      ensures forall i :: 0 <= i < |out| ==>
                out[i] == Holding(Symbols(appliedEvents, account)[i],
                                  PositionIn(appliedEvents, account, Symbols(appliedEvents, account)[i]),
                                  TradePrice(appliedEvents, account, Symbols(appliedEvents, account)[i]))
    {
      var symbols := Symbols(appliedEvents, account);
      out := seq(|symbols|, i requires 0 <= i < |symbols| reads this =>
        Holding(symbols[i], PositionIn(appliedEvents, account, symbols[i]),
                TradePrice(appliedEvents, account, symbols[i])));
    }

    method ResolvedPositions(account: string) returns (out: seq<Holding>)
      ensures out == Resolved(priceCache, appliedEvents, account)
    {
      var latest := LatestPositions(account);
      out := [];
      for i := 0 to |latest|
        invariant out == Resolved(priceCache, appliedEvents, account)[..i]
      {
        var h := latest[i];
        out := out + [h.(price := if h.symbol in priceCache then priceCache[h.symbol] else h.price)];
      }
    }

    method SaveRiskSnapshot(account: string, m: Metrics)
      modifies this`snapshots
      ensures snapshots == old(snapshots)[account := m]
    {
      snapshots := snapshots[account := m];
    }
  }

  function Resolved(prices: map<string, real>, log: seq<Event>, account: string): seq<Holding> {
    var symbols := Symbols(log, account);
    seq(|symbols|, i requires 0 <= i < |symbols| =>
      Holding(symbols[i], PositionIn(log, account, symbols[i]), Mark(prices, log, account, symbols[i])))
  }

  function MarketValue(holdings: seq<Holding>): real {
    if holdings == [] then 0.0 else MarketValue(Front(holdings)) + Last(holdings).quantity * Last(holdings).price
  }
}

module Attribution {
  import opened Basics
  import opened Events
  import opened RiskStore

  // A quantity of a symbol at its resolved price.
  function AtMarks(prices: map<string, real>, log: seq<Event>, account: string): (string, real) -> real {
    (symbol, quantity) => quantity * Mark(prices, log, account, symbol)
  }

  // What the holdings of the given symbols are worth, for any valuation of a quantity.
  function ValueOver(symbols: seq<string>, log: seq<Event>, account: string, worth: (string, real) -> real): real {
    if symbols == [] then 0.0
    else ValueOver(Front(symbols), log, account, worth) + worth(Last(symbols), PositionIn(log, account, Last(symbols)))
  }

  // Profit over the seed: cash moved plus the holdings at their resolved prices.
  function Pnl(prices: map<string, real>, log: seq<Event>, account: string): real {
    CashSum(log, account) + ValueOver(Symbols(log, account), log, account, AtMarks(prices, log, account))
  }

  // Each event of the account: the cash it moved and the change of worth of its position.
  function Earned(log: seq<Event>, account: string, worth: (string, real) -> real): real {
    if log == [] then 0.0
    else Earned(Front(log), account, worth)
         + (var e := Last(log);
            if e.account != account then 0.0
            else e.cashDelta + worth(e.symbol, e.positionAfter)
                 - worth(e.symbol, PositionIn(Front(log), account, e.symbol)))
  }

  lemma {:induction false} ValueOverAppend(symbols: seq<string>, log: seq<Event>, e: Event, account: string,
                                           worth: (string, real) -> real)
    requires forall i, j :: 0 <= i < j < |symbols| ==> symbols[i] != symbols[j]
    ensures ValueOver(symbols, log + [e], account, worth)
         == ValueOver(symbols, log, account, worth)
            + (if e.account == account && e.symbol in symbols
               then worth(e.symbol, e.positionAfter) - worth(e.symbol, PositionIn(log, account, e.symbol)) else 0.0)
  {
    assert Front(log + [e]) == log;
    if symbols != [] {
      ValueOverAppend(Front(symbols), log, e, account, worth);
      assert symbols == Front(symbols) + [Last(symbols)];
      assert forall i :: 0 <= i < |Front(symbols)| ==> Front(symbols)[i] == symbols[i] != Last(symbols);
    }
  }

  lemma NewSymbolWorthNothing(log: seq<Event>, e: Event, account: string, worth: (string, real) -> real)
    requires forall s :: worth(s, 0.0) == 0.0
    ensures ValueOver(Symbols(log + [e], account), log, account, worth)
            == ValueOver(Symbols(log, account), log, account, worth)
    ensures e.account == account ==> e.symbol in Symbols(log + [e], account)
  {
    assert Front(log + [e]) == log;
    if e.account == account && e.symbol !in Symbols(log, account) {
      SymbolsAreTraded(log, account);
      assert Front(Symbols(log, account) + [e.symbol]) == Symbols(log, account);
    }
  }

  lemma {:induction false} CashPlusWorth(log: seq<Event>, account: string, worth: (string, real) -> real)
    requires forall s :: worth(s, 0.0) == 0.0
    ensures CashSum(log, account) + ValueOver(Symbols(log, account), log, account, worth) == Earned(log, account, worth)
  {
    if log != [] {
      var front, e := Front(log), Last(log);
      assert log == front + [e];
      CashPlusWorth(front, account, worth);
      SymbolsAreTraded(log, account);
      ValueOverAppend(Symbols(log, account), front, e, account, worth);
      NewSymbolWorthNothing(front, e, account, worth);
    }
  }

  // Each event of the account: its change of position, from its own price to the mark.
  function Gains(log: seq<Event>, account: string, marks: string -> real): real {
    if log == [] then 0.0
    else Gains(Front(log), account, marks)
         + (var e := Last(log);
            if e.account != account || e.price.None? then 0.0
            else (e.positionAfter - PositionIn(Front(log), account, e.symbol)) * (marks(e.symbol) - e.price.value))
  }

  lemma Distribute(dq: real, mark: real, price: real, after: real, before: real)
    requires dq == after - before
    ensures -(dq * price) + after * mark - before * mark == dq * (mark - price)
  {
    assert dq * mark == after * mark - before * mark;
    assert dq * (mark - price) == dq * mark - dq * price;
  }

  lemma ConsistentFront(log: seq<Event>)
    requires Consistent(log) && log != []
    ensures Consistent(Front(log)) && ConsistentNext(Front(log), Last(log))
  {
    assert forall i :: 0 <= i < |Front(log)| ==> Front(log)[..i] == log[..i];
    assert log[..|log| - 1] == Front(log);
  }

  lemma {:induction false} EarnedIsGains(log: seq<Event>, account: string, marks: string -> real)
    requires Consistent(log)
    ensures Earned(log, account, (s, q) => q * marks(s)) == Gains(log, account, marks)
  {
    if log != [] {
      var e := Last(log);
      ConsistentFront(log);
      EarnedIsGains(Front(log), account, marks);
      var before := PositionIn(Front(log), account, e.symbol);
      Distribute(e.positionAfter - before, marks(e.symbol), e.price.value, e.positionAfter, before);
    }
  }

  lemma {:induction false} MarketValueIsValueOver(prices: map<string, real>, log: seq<Event>, account: string, n: nat)
    requires n <= |Symbols(log, account)|
    ensures MarketValue(Resolved(prices, log, account)[..n])
         == ValueOver(Symbols(log, account)[..n], log, account, AtMarks(prices, log, account))
  {
    if n > 0 {
      MarketValueIsValueOver(prices, log, account, n - 1);
      var h := Resolved(prices, log, account);
      assert Front(h[..n]) == h[..n - 1];
      assert Front(Symbols(log, account)[..n]) == Symbols(log, account)[..n - 1];
    }
  }

  /** Which is what summing the resolved positions one by one gives. */
  lemma PnlIsCashPlusMarketValue(prices: map<string, real>, log: seq<Event>, account: string)
    ensures Pnl(prices, log, account) == CashSum(log, account) + MarketValue(Resolved(prices, log, account))
  {
    var n := |Symbols(log, account)|;
    MarketValueIsValueOver(prices, log, account, n);
    assert Symbols(log, account)[..n] == Symbols(log, account);
    assert Resolved(prices, log, account)[..n] == Resolved(prices, log, account);
  }

  lemma PnlIsEarned(prices: map<string, real>, log: seq<Event>, account: string)
    ensures Pnl(prices, log, account) == Earned(log, account, AtMarks(prices, log, account))
  {
    CashPlusWorth(log, account, AtMarks(prices, log, account));
  }

  lemma {:induction false} EarnedExtensional(log: seq<Event>, account: string,
                                             f: (string, real) -> real, g: (string, real) -> real)
    requires forall s, q :: f(s, q) == g(s, q)
    ensures Earned(log, account, f) == Earned(log, account, g)
  {
    if log != [] {
      EarnedExtensional(Front(log), account, f, g);
    }
  }

  /** P&L attribution: profit over the seed is the sum over events of the change of position
      times the distance from the event's own price to the current mark. */
  lemma PnlIsAttributed(prices: map<string, real>, log: seq<Event>, account: string)
    requires Consistent(log)
    ensures Pnl(prices, log, account) == Gains(log, account, s => Mark(prices, log, account, s))
  {
    var marks := s => Mark(prices, log, account, s);
    PnlIsEarned(prices, log, account);
    EarnedIsGains(log, account, marks);
    EarnedExtensional(log, account, AtMarks(prices, log, account), (s, q) => q * marks(s));
  }

  lemma {:induction false} OneMarkMoves(symbols: seq<string>, log: seq<Event>, account: string, moved: string,
                                        f: (string, real) -> real, g: (string, real) -> real)
    requires forall i, j :: 0 <= i < j < |symbols| ==> symbols[i] != symbols[j]
    requires forall s, q :: s != moved ==> f(s, q) == g(s, q)
    ensures ValueOver(symbols, log, account, f) - ValueOver(symbols, log, account, g)
         == var q := PositionIn(log, account, moved); if moved in symbols then f(moved, q) - g(moved, q) else 0.0
  {
    if symbols != [] {
      OneMarkMoves(Front(symbols), log, account, moved, f, g);
      assert symbols == Front(symbols) + [Last(symbols)];
      assert forall i :: 0 <= i < |Front(symbols)| ==> Front(symbols)[i] == symbols[i] != Last(symbols);
    }
  }

  lemma TradeMovesWorth(log: seq<Event>, e: Event, f: (string, real) -> real, g: (string, real) -> real)
    requires forall s :: f(s, 0.0) == 0.0 && g(s, 0.0) == 0.0
    requires forall s, q :: s != e.symbol ==> f(s, q) == g(s, q)
    ensures CashSum(log + [e], e.account) + ValueOver(Symbols(log + [e], e.account), log + [e], e.account, f)
            - CashSum(log, e.account) - ValueOver(Symbols(log, e.account), log, e.account, g)
         == e.cashDelta + f(e.symbol, e.positionAfter) - g(e.symbol, PositionIn(log, e.account, e.symbol))
  {
    var a, log' := e.account, log + [e];
    assert Front(log') == log;
    SymbolsAreTraded(log', a);
    ValueOverAppend(Symbols(log', a), log, e, a, f);
    NewSymbolWorthNothing(log, e, a, g);
    OneMarkMoves(Symbols(log', a), log, a, e.symbol, f, g);
  }

  lemma Revalue(cash: real, after: real, before: real, price: real, mark': real, mark: real, worth': real, worth: real)
    returns (gain: real, revalued: real)
    requires cash == -((after - before) * price) && worth' == after * mark' && worth == before * mark
    ensures gain == (after - before) * (mark' - price) && revalued == before * (mark' - mark)
    ensures cash + worth' - worth == gain + revalued
  {
    gain, revalued := (after - before) * (mark' - price), before * (mark' - mark);
    Distribute(after - before, mark', price, after, before);
    assert revalued == before * mark' - before * mark;
  }

  lemma MarksAgree(prices: map<string, real>, log: seq<Event>, e: Event)
    ensures var f, g := AtMarks(prices, log + [e], e.account), AtMarks(prices, log, e.account);
            && (forall s :: f(s, 0.0) == 0.0 && g(s, 0.0) == 0.0)
            && (forall s, q :: s != e.symbol ==> f(s, q) == g(s, q))
  {
    assert Front(log + [e]) == log;
    assert forall s :: s != e.symbol ==> Mark(prices, log + [e], e.account, s) == Mark(prices, log, e.account, s);
  }

  lemma PnlMoves(prices: map<string, real>, log: seq<Event>, e: Event)
    ensures Pnl(prices, log + [e], e.account) - Pnl(prices, log, e.account)
         == e.cashDelta + AtMarks(prices, log + [e], e.account)(e.symbol, e.positionAfter)
            - AtMarks(prices, log, e.account)(e.symbol, PositionIn(log, e.account, e.symbol))
  {
    MarksAgree(prices, log, e);
    TradeMovesWorth(log, e, AtMarks(prices, log + [e], e.account), AtMarks(prices, log, e.account));
  }

  lemma WorthAt(prices: map<string, real>, log: seq<Event>, account: string, symbol: string, quantity: real)
    returns (worth: real)
    ensures worth == AtMarks(prices, log, account)(symbol, quantity)
    ensures worth == quantity * Mark(prices, log, account, symbol)
  {
    worth := AtMarks(prices, log, account)(symbol, quantity);
  }

  lemma PnlMovesBy(prices: map<string, real>, log: seq<Event>, e: Event) returns (worth': real, worth: real)
    requires e.price.Some?
    ensures Pnl(prices, log + [e], e.account) - Pnl(prices, log, e.account) == e.cashDelta + worth' - worth
    ensures worth' == e.positionAfter * (if e.symbol in prices then prices[e.symbol] else e.price.value)
    ensures worth == PositionIn(log, e.account, e.symbol) * Mark(prices, log, e.account, e.symbol)
  {
    hide Pnl;
    PnlMoves(prices, log, e);
    worth' := WorthAt(prices, log + [e], e.account, e.symbol, e.positionAfter);
    worth := WorthAt(prices, log, e.account, e.symbol, PositionIn(log, e.account, e.symbol));
  }

  /** What one trade does to P&L. It gains its quantity times the distance from its price to
      the mark after it; and where no tick has arrived the trade price itself becomes the
      mark, so what was held before is revalued at it. */
  lemma TradeMovesPnl(prices: map<string, real>, log: seq<Event>, e: Event, before: real, mark: real, mark': real)
    returns (gain: real, revalued: real)
    requires ConsistentNext(log, e) && before == PositionIn(log, e.account, e.symbol)
    requires mark == Mark(prices, log, e.account, e.symbol)
    requires mark' == if e.symbol in prices then mark else e.price.value
    ensures gain == (e.positionAfter - before) * (mark' - e.price.value)
    ensures revalued == before * (mark' - mark)
    ensures Pnl(prices, log + [e], e.account) == Pnl(prices, log, e.account) + gain + revalued
  {
    hide Pnl;
    var worth', worth := PnlMovesBy(prices, log, e);
    gain, revalued := Revalue(e.cashDelta, e.positionAfter, before, e.price.value, mark', mark, worth', worth);
  }

  /** So a trade at the current tick leaves portfolio value unchanged, and only such a trade. */
  lemma TradeAtTick(prices: map<string, real>, log: seq<Event>, e: Event)
    requires ConsistentNext(log, e) && e.symbol in prices
    requires e.positionAfter != PositionIn(log, e.account, e.symbol)
    ensures Pnl(prices, log + [e], e.account) == Pnl(prices, log, e.account) <==> e.price.value == prices[e.symbol]
  {
    hide Pnl;
    var before, tick := PositionIn(log, e.account, e.symbol), prices[e.symbol];
    var gain, revalued := TradeMovesPnl(prices, log, e, before, tick, tick);
    ZeroProduct(e.positionAfter - before, tick - e.price.value, gain);
    ZeroRevalued(before, tick, revalued);
  }

  lemma ZeroProduct(x: real, y: real, product: real)
    requires x != 0.0 && product == x * y
    ensures product == 0.0 <==> y == 0.0
  {
  }

  lemma ZeroRevalued(x: real, mark: real, product: real)
    requires product == x * (mark - mark)
    ensures product == 0.0
  {
  }
}
