// The stages composed: a ledger posting concurrently, whose outbox is the one the relay drains
// and whose events the projections apply.

module EndToEnd {
  import opened Basics
  import opened Events
  import opened RiskStore
  import opened Attribution
  import P = Pipeline
  import O = InOrder
  import L = Ledger
  import R = LedgerRuns
  import I = Interleaving

  datatype Action = Ledger(step: I.Action) | Pipe(action: P.Action)

  datatype State = State(ledger: I.System, pipe: P.State)

  // A commit that adds an outbox row makes it visible to the relay.
  ghost function Do(c: P.Config, maxPosition: real, s: State, a: Action): State {
    match a
    case Ledger(step) =>
      var ledger' := I.Do(maxPosition, s.ledger, step);
      State(ledger', if |ledger'.db.outbox| > |s.ledger.db.outbox|
                     then P.Do(c, s.pipe, P.Post(Last(ledger'.db.outbox).event)) else s.pipe)
    case Pipe(action) =>
      if action.Post? then s else s.(pipe := P.Do(c, s.pipe, action))
  }

  // Ledger and projection open with the same cash.
  ghost function Run(c: P.Config, maxPosition: real, actions: seq<Action>): State {
    if actions == [] then State(I.System(R.Empty(c.seedCash), map[]), P.Init(c))
    else Do(c, maxPosition, Run(c, maxPosition, Front(actions)), Last(actions))
  }

  function LedgerSteps(actions: seq<Action>): seq<I.Action> {
    if actions == [] then []
    else LedgerSteps(Front(actions)) + (if Last(actions).Ledger? then [Last(actions).step] else [])
  }

  lemma AddedRow(maxPosition: real, s: I.System, step: I.Action)
    ensures var outbox' := I.Do(maxPosition, s, step).db.outbox;
            if |outbox'| > |s.db.outbox|
            then R.EventsOf(outbox') == R.EventsOf(s.db.outbox) + [Last(outbox').event]
                 && !Has(R.EventsOf(s.db.outbox), Last(outbox').event.eventId)
            else outbox' == s.db.outbox
  {
    hide L.Position, L.CashDelta, L.FindTrade, L.FindEntry, I.Committed;
    if I.Accepting(maxPosition, s, step) {
      I.AcceptedCommit(maxPosition, s.db, s.open[step.tx]);
    } else {
      I.OtherwiseUntouched(maxPosition, s, step);
    }
  }

  lemma SameOutbox(c: P.Config, s: P.State, a: P.Action)
    ensures P.EventsOf(P.Do(c, s, a).outbox)
         == P.EventsOf(s.outbox) + if a.Post? && !Has(P.EventsOf(s.outbox), a.event.eventId) then [a.event] else []
  {
    hide Has, P.Unsent, Apply, Insert;
  }

  /** A joint run is an interleaved ledger run and a pipeline run over one outbox. */
  lemma {:induction false} Joined(c: P.Config, maxPosition: real, actions: seq<Action>) returns (steps: seq<P.Action>)
    ensures var s := Run(c, maxPosition, actions);
            && s.ledger == I.Run(maxPosition, c.seedCash, LedgerSteps(actions))
            && s.pipe == P.Run(c, steps)
            && P.EventsOf(s.pipe.outbox) == R.EventsOf(s.ledger.db.outbox)
  {
    hide P.Do, I.Do;
    if actions == [] {
      steps := [];
    } else {
      var s, last := Run(c, maxPosition, Front(actions)), Last(actions);
      steps := Joined(c, maxPosition, Front(actions));
      match last
      case Ledger(step) =>
        assert Front(LedgerSteps(actions)) == LedgerSteps(Front(actions));
        AddedRow(maxPosition, s.ledger, step);
        var outbox' := I.Do(maxPosition, s.ledger, step).db.outbox;
        if |outbox'| > |s.ledger.db.outbox| {
          SameOutbox(c, s.pipe, P.Post(Last(outbox').event));
          steps := OneMore(c, steps, P.Post(Last(outbox').event));
        }
      case Pipe(action) =>
        assert LedgerSteps(actions) == LedgerSteps(Front(actions));
        if !action.Post? {
          SameOutbox(c, s.pipe, action);
          steps := OneMore(c, steps, action);
        }
    }
  }

  lemma OneMore(c: P.Config, steps: seq<P.Action>, step: P.Action) returns (steps': seq<P.Action>)
    ensures P.Run(c, steps') == P.Do(c, P.Run(c, steps), step)
  {
    steps' := steps + [step];
    assert Front(steps') == steps;
  }

  /** Once the pipeline is quiet, projected cash is ledger cash minus admin credits: over every
      interleaving of postings and every order of application. */
  lemma QuietCashIsLedgerCash(c: P.Config, maxPosition: real, actions: seq<Action>, account: string)
    requires P.Quiet(Run(c, maxPosition, actions).pipe) && account in c.seedCash
    ensures var s := Run(c, maxPosition, actions);
            && account in s.ledger.db.accounts && account in s.pipe.tables.cash
            && s.pipe.tables.cash[account]
               == s.ledger.db.accounts[account] - I.CreditedIn(maxPosition, c.seedCash, LedgerSteps(actions), account)
  {
    hide Run, LedgerSteps, P.Quiet, I.CreditedIn, I.Run;
    var steps := Joined(c, maxPosition, actions);
    P.QuietMeansBaseline(c, steps, account);
    I.InterleavedCash(maxPosition, c.seedCash, LedgerSteps(actions), account);
  }

  // Every accepted commit had read the position it changed, as it does when postings are serial.
  ghost predicate CurrentReads(c: P.Config, maxPosition: real, steps: seq<I.Action>) {
    forall k :: 0 <= k < |steps| ==> I.Current(maxPosition, I.StateAt(maxPosition, c.seedCash, steps, k), steps[k])
  }

  lemma CurrentReadsFaithful(c: P.Config, maxPosition: real, steps: seq<I.Action>)
    requires CurrentReads(c, maxPosition, steps)
    ensures R.Faithful(I.Run(maxPosition, c.seedCash, steps).db)
  {
    hide I.Current, R.Faithful;
    I.InterleavedOutboxIff(maxPosition, c.seedCash, steps, |steps|);
    assert R.Faithful(I.StateAt(maxPosition, c.seedCash, steps, |steps|).db);
    assert steps[..|steps|] == steps;
  }

  /** If it is disciplined as well and positions are posted on current reads, every projected
      position is the net of posted trades. */
  lemma QuietPositionsAreLedgerPositions(c: P.Config, maxPosition: real, actions: seq<Action>)
    requires P.Quiet(Run(c, maxPosition, actions).pipe) && O.Disciplined(c)
    requires CurrentReads(c, maxPosition, LedgerSteps(actions))
    ensures var s := Run(c, maxPosition, actions); var trades := s.ledger.db.trades;
            && s.pipe.log == R.EventsOf(s.ledger.db.outbox) && Consistent(s.pipe.log)
            && (forall a, symbol :: PositionIn(s.pipe.log, a, symbol) == L.Position(trades, a, symbol))
            && (forall a, symbol :: (a, symbol) in s.pipe.tables.positions ==>
                  s.pipe.tables.positions[(a, symbol)] == L.Position(trades, a, symbol))
            && (forall a, symbol :: (a, symbol) !in s.pipe.tables.positions ==> L.Position(trades, a, symbol) == 0.0)
  {
    hide Run, LedgerSteps, P.Quiet, Consistent, DistinctIds, CurrentReads, I.Run;
    var steps := Joined(c, maxPosition, actions);
    O.QuietInOrder(c, steps);
    CurrentReadsFaithful(c, maxPosition, LedgerSteps(actions));
    P.ConsumerInvariant(c, steps);
  }

  /** And then portfolio value is ledger cash, less admin credits, plus the net posted positions
      at their marks; and profit is attributed to the posted trades one by one. */
  lemma QuietValueIsLedgerValue(c: P.Config, maxPosition: real, actions: seq<Action>, prices: map<string, real>,
                                account: string)
    requires P.Quiet(Run(c, maxPosition, actions).pipe) && O.Disciplined(c) && account in c.seedCash
    requires CurrentReads(c, maxPosition, LedgerSteps(actions))
    ensures var s := Run(c, maxPosition, actions); var log := s.pipe.log;
            && account in s.ledger.db.accounts
            && c.seedCash[account] + Pnl(prices, log, account)
               == s.ledger.db.accounts[account] - I.CreditedIn(maxPosition, c.seedCash, LedgerSteps(actions), account)
                  + MarketValue(Resolved(prices, log, account))
            && Pnl(prices, log, account) == Gains(log, account, symbol => Mark(prices, log, account, symbol))
            && (forall i :: 0 <= i < |Resolved(prices, log, account)| ==>
                  var h := Resolved(prices, log, account)[i];
                  h.quantity == L.Position(s.ledger.db.trades, account, h.symbol))
  {
    hide Run, LedgerSteps, P.Quiet, Consistent, CurrentReads, I.CreditedIn, I.Run, Pnl, MarketValue, Mark;
    var s := Run(c, maxPosition, actions);
    var steps := Joined(c, maxPosition, actions);
    QuietPositionsAreLedgerPositions(c, maxPosition, actions);
    I.InterleavedCash(maxPosition, c.seedCash, LedgerSteps(actions), account);
    PnlIsCashPlusMarketValue(prices, s.pipe.log, account);
    PnlIsAttributed(prices, s.pipe.log, account);
  }
}
