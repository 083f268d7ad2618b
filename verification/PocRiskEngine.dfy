// The end-to-end POC's risk engine (poc/end-to-end/risk_engine.py): cost basis per symbol,
// valued on AAPL alone, and how its P&L relates to the service's.

module PocRiskEngine {
  import opened Basics
  import opened Events
  import opened RiskStore
  import Windows
  import opened RiskMetrics
  import opened Attribution

  const SYMBOL := "AAPL"
  const SEED_CASH := 10000.0

  // Last position and accumulated outflow of a symbol, whatever the account.
  function Held(log: seq<Event>, symbol: string): real {
    if log == [] then 0.0
    else if Last(log).symbol == symbol then Last(log).positionAfter
    else Held(Front(log), symbol)
  }

  function Cost(log: seq<Event>, symbol: string): real {
    if log == [] then 0.0
    else Cost(Front(log), symbol) + (if Last(log).symbol == symbol then -Last(log).cashDelta else 0.0)
  }

  function Get(m: map<string, real>, key: string): real {
    if key in m then m[key] else 0.0
  }

  // The return from one value to the next, when there is one.
  function Return(prev: Option<real>, cur: real): seq<real> {
    if prev.Some? && prev.value != 0.0 then [(cur - prev.value) / prev.value] else []
  }

  // From `before` to `after` the series gains the relative change from the previous value, if
  // there was one and it was not zero.
  ghost predicate Extended(before: seq<real>, after: seq<real>, prev: Option<real>, cur: real) {
    if prev.Some? && prev.value != 0.0
    then |after| == |before| + 1 && Front(after) == before && Last(after) * prev.value == cur - prev.value
    else after == before
  }

  lemma ReturnExtends(before: seq<real>, prev: Option<real>, cur: real)
    ensures Extended(before, before + Return(prev, cur), prev, cur)
  {
    if prev.Some? && prev.value != 0.0 {
      var r := Return(prev, cur)[0];
      Windows.QuotientChanges(prev.value, cur);
      assert Front(before + [r]) == before;
    } else {
      assert before + [] == before;
    }
  }

  function PocPnl(prices: map<string, real>, log: seq<Event>): real {
    Held(log, SYMBOL) * Get(prices, SYMBOL) - Cost(log, SYMBOL)
  }

  // One published computation: the books' P&L at the tick, statistics over the returns so far.
  ghost predicate Computed(m: Metrics, latest: map<string, real>, log: seq<Event>, returns_: seq<real>) {
    && m.pnl == PocPnl(latest, log)
    && m.portfolioValue == 10000.0 + m.pnl
    && OverReturns(m, returns_) && Figures(m, returns_)
  }

  class RiskEngine {
    const pstdev: seq<real> -> real
    var seen: set<string>
    var pos: map<string, real>
    var cost: map<string, real>
    var returns_: seq<real>
    var lastPv: Option<real>
    var applied: nat
    var skipped: nat
    var published: seq<Metrics>
    ghost var log: seq<Event>

    ghost predicate Valid()
      reads this
    {
      && IsPstdev(pstdev) && applied == |log| == |published|
      && (forall id :: id in seen <==> Has(log, id))
      && (forall s :: Get(pos, s) == Held(log, s) && Get(cost, s) == Cost(log, s))
    }

    constructor (pstdev: seq<real> -> real)
      requires IsPstdev(pstdev)
      ensures Valid() && log == [] && lastPv == None && returns_ == [] && skipped == 0
    {
      this.pstdev := pstdev;
      seen, pos, cost, returns_, lastPv := {}, map[], map[], [], None;
      applied, skipped, published, log := 0, 0, [], [];
    }

    // Dedupe by event id; a new event updates the books and publishes one computation.
    method Apply(e: Event, latest: map<string, real>)
      requires Valid()
      modifies this
      ensures Valid() && log == Insert(old(log), e)
      ensures Has(old(log), e.eventId) ==>
                skipped == old(skipped) + 1 && published == old(published)
                && returns_ == old(returns_) && lastPv == old(lastPv)
      ensures !Has(old(log), e.eventId) ==>
                var pnl := PocPnl(latest, log);
                && skipped == old(skipped)
                && |published| == |old(published)| + 1 && Front(published) == old(published)
                && Computed(Last(published), latest, log, returns_)
                && lastPv == Some(10000.0 + pnl)
                && Extended(old(returns_), returns_, old(lastPv), 10000.0 + pnl)
    {
      hide OverReturns, Figures, PocPnl, Return, Extended;
      if e.eventId in seen {
        skipped := skipped + 1;
        return;
      }
      Record(e);
      Compute(latest);
    }

    method Record(e: Event)
      requires Valid() && !Has(log, e.eventId)
      modifies this`pos, this`cost, this`seen, this`applied, this`log
      ensures log == old(log) + [e] && applied == old(applied) + 1
      ensures forall id :: id in seen <==> Has(log, id)
      ensures forall s :: Get(pos, s) == Held(log, s) && Get(cost, s) == Cost(log, s)
    {
      pos := pos[e.symbol := e.positionAfter];
      cost := cost[e.symbol := Get(cost, e.symbol) + (-e.cashDelta)];
      seen := seen + {e.eventId};
      applied := applied + 1;
      forall id {
        HasAppend(log, e, id);
      }
      assert Front(log + [e]) == log;
      log := log + [e];
    }

    method Compute(latest: map<string, real>)
      requires IsPstdev(pstdev) && applied == |log| == |published| + 1
      requires forall id :: id in seen <==> Has(log, id)
      requires forall s :: Get(pos, s) == Held(log, s) && Get(cost, s) == Cost(log, s)
      modifies this`returns_, this`lastPv, this`published
      ensures Valid()
      ensures var pnl := PocPnl(latest, log);
              && |published| == |old(published)| + 1 && Front(published) == old(published)
              && Computed(Last(published), latest, log, returns_)
              && lastPv == Some(10000.0 + pnl)
              && Extended(old(returns_), returns_, old(lastPv), 10000.0 + pnl)
    {
      hide OverReturns, Figures, PocPnl, Return, Extended;
      var pnl := MarkToMarket(latest);
      var pv := SEED_CASH + pnl;
      AddReturn(pv);
      lastPv := Some(pv);
      var m := Statistics(pv, pnl);
      assert Front(published + [m]) == published;
      published := published + [m];
    }

    method MarkToMarket(latest: map<string, real>) returns (pnl: real)
      requires forall s :: Get(pos, s) == Held(log, s) && Get(cost, s) == Cost(log, s)
      ensures pnl == PocPnl(latest, log)
    {
      assert Get(pos, SYMBOL) == Held(log, SYMBOL) && Get(cost, SYMBOL) == Cost(log, SYMBOL);
      var marketValue := Get(pos, SYMBOL) * Get(latest, SYMBOL);
      pnl := marketValue - Get(cost, SYMBOL);
    }

    method AddReturn(pv: real)
      modifies this`returns_
      ensures Extended(old(returns_), returns_, lastPv, pv)
    {
      hide Extended;
      ReturnExtends(returns_, lastPv, pv);
      if lastPv.Some? && lastPv.value != 0.0 {
        returns_ := returns_ + [(pv - lastPv.value) / lastPv.value];
      }
    }

    method Statistics(pv: real, pnl: real) returns (m: Metrics)
      requires IsPstdev(pstdev)
      ensures m.portfolioValue == pv && m.pnl == pnl && OverReturns(m, returns_) && Figures(m, returns_)
    {
      hide Variance, ValueAtRisk, Figures;
      var volatility := if |returns_| > 1 then pstdev(returns_) else 0.0;
      m := Metrics(pv, pnl, volatility, ValueAtRisk(volatility, pv), Sharpe(volatility, returns_));
      ComputedFigures(m, returns_);
    }
  }

  // --- against the service's P&L ----------------------------------------

  predicate OneAccount(log: seq<Event>, account: string) {
    forall i :: 0 <= i < |log| ==> log[i].account == account
  }

  // The cash moved by, and the change of worth of, every other symbol.
  function OtherEarned(log: seq<Event>, account: string, worth: (string, real) -> real): real {
    if log == [] then 0.0
    else OtherEarned(Front(log), account, worth)
         + (var e := Last(log);
            if e.symbol == SYMBOL then 0.0
            else e.cashDelta + worth(e.symbol, e.positionAfter)
                 - worth(e.symbol, PositionIn(Front(log), account, e.symbol)))
  }

  lemma {:induction false} BooksMatch(log: seq<Event>, account: string)
    requires OneAccount(log, account)
    ensures Held(log, SYMBOL) == PositionIn(log, account, SYMBOL)
  {
    if log != [] {
      BooksMatch(Front(log), account);
    }
  }

  lemma {:induction false} EarnedSplit(log: seq<Event>, account: string, worth: (string, real) -> real)
    requires OneAccount(log, account) && worth(SYMBOL, 0.0) == 0.0
    ensures Earned(log, account, worth)
         == OtherEarned(log, account, worth) + worth(SYMBOL, Held(log, SYMBOL)) - Cost(log, SYMBOL)
  {
    if log != [] {
      EarnedSplit(Front(log), account, worth);
      BooksMatch(Front(log), account);
    }
  }

  /** The cost-basis P&L differs from the service's by exactly what was earned on other symbols,
      plus the value the service gives an AAPL position before any AAPL tick has arrived. */
  lemma CostBasisDifference(prices: map<string, real>, log: seq<Event>, account: string)
    requires OneAccount(log, account)
    ensures Pnl(prices, log, account) - PocPnl(prices, log)
         == OtherEarned(log, account, AtMarks(prices, log, account))
            + Held(log, SYMBOL) * (Mark(prices, log, account, SYMBOL) - Get(prices, SYMBOL))
  {
    var worth := PnlSplit(prices, log, account);
    Minus(Held(log, SYMBOL), Mark(prices, log, account, SYMBOL), Get(prices, SYMBOL));
  }

  lemma PnlSplit(prices: map<string, real>, log: seq<Event>, account: string) returns (worth: real)
    requires OneAccount(log, account)
    ensures worth == Held(log, SYMBOL) * Mark(prices, log, account, SYMBOL)
    ensures Pnl(prices, log, account)
         == OtherEarned(log, account, AtMarks(prices, log, account)) + worth - Cost(log, SYMBOL)
  {
    worth := AtMarks(prices, log, account)(SYMBOL, Held(log, SYMBOL));
    PnlIsEarned(prices, log, account);
    EarnedSplit(log, account, AtMarks(prices, log, account));
  }

  lemma Minus(q: real, x: real, y: real)
    ensures q * (x - y) == q * x - q * y
  {
  }

  /** So the two agree, once AAPL has a tick, exactly when nothing net was earned on other
      symbols; in particular when only AAPL is traded. */
  lemma CostBasisAgreesIff(prices: map<string, real>, log: seq<Event>, account: string)
    requires OneAccount(log, account) && "AAPL" in prices
    ensures Pnl(prices, log, account) == PocPnl(prices, log)
       <==> OtherEarned(log, account, AtMarks(prices, log, account)) == 0.0
    ensures (forall i :: 0 <= i < |log| ==> log[i].symbol == "AAPL") ==>
              Pnl(prices, log, account) == PocPnl(prices, log)
  {
    hide Pnl, PocPnl, OtherEarned;
    CostBasisDifference(prices, log, account);
    AtTheTick(Held(log, SYMBOL), Mark(prices, log, account, SYMBOL), Get(prices, SYMBOL));
    if forall i :: 0 <= i < |log| ==> log[i].symbol == SYMBOL {
      NoOthers(log, account, AtMarks(prices, log, account));
    }
  }

  lemma AtTheTick(q: real, x: real, y: real)
    requires x == y
    ensures q * (x - y) == 0.0
  {
  }

  lemma {:induction false} NoOthers(log: seq<Event>, account: string, worth: (string, real) -> real)
    requires forall i :: 0 <= i < |log| ==> log[i].symbol == SYMBOL
    ensures OtherEarned(log, account, worth) == 0.0
  {
    if log != [] {
      NoOthers(Front(log), account, worth);
    }
  }
}
