// The risk engine's consumer core (services/risk-engine/app/consumer.py) over its store.
// Missing string fields are empty strings.

module RiskEngine {
  import opened Basics
  import opened Events
  import opened Windows
  import opened RiskStore
  import opened RiskMetrics
  import opened Attribution

  datatype Envelope = Envelope(
    eventId: string, account: string, symbol: string,
    price: Option<real>, cashDelta: Option<real>, positionAfter: Option<real>)

  datatype TickEnvelope = TickEnvelope(symbol: string, price: Option<real>)

  datatype Config = Config(seedCash: real, windowSize: int, recomputeIntervalMs: int, batchSize: nat)

  predicate WellFormed(env: Envelope) {
    env.eventId != "" && env.account != "" && env.symbol != "" && env.cashDelta.Some? && env.positionAfter.Some?
  }

  function EventIn(env: Envelope): Event
    requires WellFormed(env)
  {
    Event(env.eventId, env.account, env.symbol, env.price, env.cashDelta.value, env.positionAfter.value)
  }

  // The statistics are those of the account's retained window.
  predicate OverWindow(m: Metrics, rows: seq<Sample>, account: string) {
    OverReturns(m, ReturnsOf(ValuesOf(rows, account)))
  }

  // The row is the envelope's, field by field.
  predicate Carries(e: Event, env: Envelope) {
    && e.eventId == env.eventId && e.account == env.account && e.symbol == env.symbol && e.price == env.price
    && env.cashDelta == Some(e.cashDelta) && env.positionAfter == Some(e.positionAfter)
  }

  lemma AppendedRow(log: seq<Event>, e: Event)
    ensures CashSum(log + [e], e.account) == CashSum(log, e.account) + e.cashDelta
    ensures PositionIn(log + [e], e.account, e.symbol) == e.positionAfter
  {
    assert Front(log + [e]) == log;
  }

  // The envelope the ledger writes for an event (LedgerService.java:151-183).
  function EnvelopeOf(e: Event): Envelope {
    Envelope(e.eventId, e.account, e.symbol, e.price, Some(e.cashDelta), Some(e.positionAfter))
  }

  predicate Named(e: Event) {
    e.eventId != "" && e.account != "" && e.symbol != ""
  }

  /** What the ledger encodes is accepted and parses back to the same event, and nothing else does. */
  lemma EnvelopeRoundTrip(e: Event, env: Envelope)
    ensures Named(e) ==> WellFormed(EnvelopeOf(e)) && EventIn(EnvelopeOf(e)) == e
    ensures WellFormed(env) ==> Named(EventIn(env)) && EnvelopeOf(EventIn(env)) == env
  {
  }

  class Consumer {
    const store: Store
    const config: Config
    const pstdev: seq<real> -> real

    constructor (store: Store, config: Config, pstdev: seq<real> -> real)
      requires IsPstdev(pstdev)
      ensures Valid() && this.store == store && this.config == config && this.pstdev == pstdev
    {
      this.store, this.config, this.pstdev := store, config, pstdev;
    }

    ghost predicate Valid() {
      IsPstdev(pstdev)
    }

    // What the store currently says about an account: its log at the marks, and the
    // statistics of its retained window of portfolio values.
    ghost predicate Describes(m: Metrics, account: string)
      reads store
    {
      && m.pnl == Pnl(store.priceCache, store.appliedEvents, account)
      && m.portfolioValue == config.seedCash + m.pnl
      && OverWindow(m, store.pvHistory, account)
    }

    // False, and no effect, when the symbol or the price is missing.
    method ProcessTick(env: TickEnvelope) returns (recorded: bool)
      modifies store`priceCache, store`priceHistory
      ensures recorded <==> env.symbol != "" && env.price.Some?
      ensures !recorded ==> store.priceCache == old(store.priceCache) && store.priceHistory == old(store.priceHistory)
      ensures recorded ==>
                && store.priceCache == old(store.priceCache)[env.symbol := env.price.value]
                && store.priceHistory == Append(old(store.priceHistory), Sample(env.symbol, env.price.value),
                                                config.windowSize)
    {
      if env.symbol == "" || env.price.None? {
        return false;
      }
      store.UpsertPrice(env.symbol, env.price.value);
      store.AppendPrice(env.symbol, env.price.value, config.windowSize);
      return true;
    }

    // Compute from the store and save the snapshot about to be published.
    method BuildRiskEnvelope(account: string) returns (m: Metrics)
      requires Valid()
      modifies store`snapshots
      ensures Describes(m, account) && Figures(m, ReturnsOf(ValuesOf(store.pvHistory, account)))
      ensures store.snapshots == old(store.snapshots)[account := m]
    {
      hide Pnl, Variance, MarketValue, Resolved, Figures;
      var cash := store.AccountCash(account, config.seedCash);
      var holdings := store.ResolvedPositions(account);
      var returns_ := store.PvReturns(account);
      var v := if |returns_| > 1 then pstdev(returns_) else 0.0;
      m := ComputeMetrics(cash, holdings, config.seedCash, returns_, v);
      PnlIsCashPlusMarketValue(store.priceCache, store.appliedEvents, account);
      assert m.pnl == Pnl(store.priceCache, store.appliedEvents, account);
      ComputedFigures(m, returns_);
      store.SaveRiskSnapshot(account, m);
    }

    // None for a malformed envelope or a duplicate, which change nothing. Otherwise the last row
    // of the log is the envelope's, and moves cash and position by what it carries.
    method ProcessLedger(env: Envelope) returns (built: Option<Metrics>)
      requires Valid()
      modifies store`appliedEvents, store`snapshots
      ensures built.Some? <==> WellFormed(env) && !Has(old(store.appliedEvents), env.eventId)
      ensures WellFormed(env) <==>
                && env.eventId != "" && env.account != "" && env.symbol != ""
                && env.cashDelta.Some? && env.positionAfter.Some?
      ensures built.None? ==>
                store.appliedEvents == old(store.appliedEvents) && store.snapshots == old(store.snapshots)
      ensures built.Some? ==>
                && store.appliedEvents == old(store.appliedEvents) + [EventIn(env)]
                && Describes(built.value, env.account) && Carries(Last(store.appliedEvents), env)
                && CashSum(store.appliedEvents, env.account)
                   == CashSum(old(store.appliedEvents), env.account) + env.cashDelta.value
                && PositionIn(store.appliedEvents, env.account, env.symbol) == env.positionAfter.value
                && store.snapshots == old(store.snapshots)[env.account := built.value]
    {
      if !WellFormed(env) {
        return None;
      }
      var applied := store.ApplyLedgerEvent(EventIn(env));
      if !applied {
        return None;
      }
      AppendedRow(old(store.appliedEvents), EventIn(env));
      var m := BuildRiskEnvelope(env.account);
      return Some(m);
    }

    // Sample portfolio value, then build; None when there is no position to value.
    method RecomputeAccount(account: string) returns (built: Option<Metrics>)
      requires Valid()
      modifies store`pvHistory, store`snapshots
      ensures built.Some? <==> Symbols(store.appliedEvents, account) != []
      ensures built.None? ==> store.pvHistory == old(store.pvHistory) && store.snapshots == old(store.snapshots)
      ensures built.Some? ==>
                && Sampled(old(store.pvHistory), store.pvHistory, Sample(account, built.value.portfolioValue),
                           config.windowSize)
                && store.pvHistory == Append(old(store.pvHistory), Sample(account, built.value.portfolioValue),
                                             config.windowSize)
                && Describes(built.value, account)
                && store.snapshots == old(store.snapshots)[account := built.value]
    {
      hide Pnl, OverWindow, MarketValue, Sampled, Figures, Append;
      var holdings := store.ResolvedPositions(account);
      if holdings == [] {
        return None;
      }
      var cash := store.AccountCash(account, config.seedCash);
      var pv := cash + MarketValue(holdings);
      PnlIsCashPlusMarketValue(store.priceCache, store.appliedEvents, account);
      assert pv == config.seedCash + Pnl(store.priceCache, store.appliedEvents, account);
      store.AppendPv(account, pv, config.windowSize);
      var m := BuildRiskEnvelope(account);
      return Some(m);
    }
  }
}
