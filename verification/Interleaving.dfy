// Concurrent postings. Each transaction reads the request, the cash and the position at
// times of its own, decides from what it read, and commits in one atomic step in which the
// database enforces UNIQUE (request_id), UNIQUE (source_event_id) and CHECK (cash >= 0).

module Interleaving {
  import opened Basics
  import opened Events
  import opened Ledger
  import opened LedgerRuns

  datatype Stage = Begun | NotSeen | HaveCash(cash: real) | Ready(cash: real, position: real)

  datatype Tx = Tx(request: Request, entryId: string, eventId: string, stage: Stage)

  datatype System = System(db: Db, open: map<nat, Tx>)

  datatype Action =
    | Begin(tx: nat, request: Request, entryId: string, eventId: string)
    | ReadRequest(tx: nat)
    | ReadCash(tx: nat)
    | ReadPosition(tx: nat)
    | Commit(tx: nat)
    | Abort(tx: nat)
    | AdminCredit(account: string, amount: real, entryId: string, sourceEventId: string)

  function At(s: System, tx: nat, stage: Stage): System
    requires tx in s.open
  {
    s.(open := s.open[tx := s.open[tx].(stage := stage)])
  }

  function End(s: System, tx: nat): System {
    s.(open := s.open - {tx})
  }

  // The event carries the position computed from the (possibly old) position read.
  function TxEvent(t: Tx): Event
    requires t.stage.Ready?
  {
    var r := t.request;
    Event(t.eventId, r.account, r.symbol, Some(r.price), CashDelta(r), t.stage.position + SignedQty(r))
  }

  // What a commit writes: nothing when a constraint fails.
  function Committed(maxPosition: real, db: Db, t: Tx): Db
    requires t.stage.Ready?
  {
    var r := t.request;
    match FirstViolation(maxPosition, t.stage.cash + CashDelta(r), t.stage.position + SignedQty(r))
    case Some(reason) =>
      if TradeOk(db, Trade(r, Rejected(reason))) then Refused(db, r, reason) else db
    case None =>
      if Insertable(db, r, t.entryId, TxEvent(t)) && db.accounts[r.account] + CashDelta(r) >= 0.0
      then AcceptedAs(db, r, t.entryId, TxEvent(t)) else db
  }

  function Do(maxPosition: real, s: System, a: Action): System {
    match a
    case Begin(tx, r, entryId, eventId) =>
      if tx in s.open then s else s.(open := s.open[tx := Tx(r, entryId, eventId, Begun)])
    case ReadRequest(tx) =>
      if tx !in s.open || s.open[tx].stage != Begun then s
      else if Lookup(s.db, s.open[tx].request.requestId).Some? then End(s, tx)
      else At(s, tx, NotSeen)
    case ReadCash(tx) =>
      if tx !in s.open || s.open[tx].stage != NotSeen then s
      else if s.open[tx].request.account !in s.db.accounts then End(s, tx)
      else At(s, tx, HaveCash(s.db.accounts[s.open[tx].request.account]))
    case ReadPosition(tx) =>
      if tx !in s.open || !s.open[tx].stage.HaveCash? then s
      else
        var t := s.open[tx];
        At(s, tx, Ready(t.stage.cash, Position(s.db.trades, t.request.account, t.request.symbol)))
    case Commit(tx) =>
      if tx !in s.open || !s.open[tx].stage.Ready? then s
      else End(s, tx).(db := Committed(maxPosition, s.db, s.open[tx]))
    case Abort(tx) => End(s, tx)
    case AdminCredit(account, amount, entryId, sourceEventId) =>
      s.(db := Credit(s.db, account, amount, entryId, sourceEventId).0)
  }

  function Run(maxPosition: real, opening: map<string, real>, actions: seq<Action>): System {
    if actions == [] then System(Empty(opening), map[])
    else Do(maxPosition, Run(maxPosition, opening, Front(actions)), Last(actions))
  }

  ghost predicate Safe(opening: map<string, real>, db: Db) {
    && Solvent(db.accounts)
    && OneToOne(db)
    && Balanced(db) && CashFromJournal(opening, db)
  }

  lemma CommitIsSafe(maxPosition: real, opening: map<string, real>, db: Db, t: Tx)
    requires Safe(opening, db) && SECURITIES !in opening && t.stage.Ready?
    ensures Safe(opening, Committed(maxPosition, db, t))
  {
    var r := t.request;
    var db' := Committed(maxPosition, db, t);
    match FirstViolation(maxPosition, t.stage.cash + CashDelta(r), t.stage.position + SignedQty(r))
    case Some(reason) =>
      if TradeOk(db, Trade(r, Rejected(reason))) {
        OneToOneRefused(db, r, reason);
      }
    case None =>
      if db' != db {
        AcceptedJournal(opening, db, r, t.entryId, TxEvent(t));
        OneToOneAccepted(db, r, t.entryId, TxEvent(t));
      }
  }

  /** Over all interleavings: at most one trade per request, records in one-to-one
      correspondence, cash never negative, and no cash update lost (cash is exactly what the
      balanced journal says). */
  lemma {:induction false} InterleavedPostingIsSafe(maxPosition: real, opening: map<string, real>, actions: seq<Action>)
    requires Solvent(opening) && SECURITIES !in opening && FUNDING !in opening
    ensures Safe(opening, Run(maxPosition, opening, actions).db)
  {
    if actions != [] {
      InterleavedPostingIsSafe(maxPosition, opening, Front(actions));
      var s, a := Run(maxPosition, opening, Front(actions)), Last(actions);
      if a.Commit? && a.tx in s.open && s.open[a.tx].stage.Ready? {
        CommitIsSafe(maxPosition, opening, s.db, s.open[a.tx]);
      } else if a.AdminCredit? {
        var c := DoCredit(a.account, a.amount, a.entryId, a.sourceEventId);
        if Credits(s.db, c) {
          OneToOneCredited(s.db, c);
          CreditedJournal(opening, s.db, c);
        }
      }
    }
  }

  /** A transaction that nothing interrupts does exactly what a serial post does. */
  lemma UninterruptedIsSerial(maxPosition: real, s: System, tx: nat, r: Request, entryId: string, eventId: string)
    requires tx !in s.open
    ensures var s1 := Do(maxPosition, s, Begin(tx, r, entryId, eventId));
            var s2 := Do(maxPosition, s1, ReadRequest(tx));
            var s3 := Do(maxPosition, s2, ReadCash(tx));
            var s4 := Do(maxPosition, s3, ReadPosition(tx));
            var s5 := Do(maxPosition, s4, Commit(tx));
            s5 == s.(db := Post(maxPosition, s.db, r, entryId, eventId).0)
  {
    var s1 := Do(maxPosition, s, Begin(tx, r, entryId, eventId));
    hide Position, CashDelta, FindTrade, FindEntry, TradeOk, EntryOk, OutboxOk;
    var s4 := Do(maxPosition, Do(maxPosition, Do(maxPosition, s1, ReadRequest(tx)), ReadCash(tx)), ReadPosition(tx));
    assert s.open[tx := s1.open[tx]] - {tx} == s.open;
    assert s4.open - {tx} == s.open;
  }

  /** A commit publishes the position it leads to exactly when the position it read is
      still current. */
  lemma CommittedPositionIff(maxPosition: real, db: Db, t: Tx)
    requires t.stage.Ready? && |Committed(maxPosition, db, t).outbox| > |db.outbox|
    ensures var db' := Committed(maxPosition, db, t);
            Last(db'.outbox).event.positionAfter == Position(db'.trades, t.request.account, t.request.symbol)
            <==> t.stage.position == Position(db.trades, t.request.account, t.request.symbol)
  {
    var db' := Committed(maxPosition, db, t);
    assert Front(db'.trades) == db.trades;
  }

  // --- when interleaved commits keep the limit and the outbox ------------

  // The step commits an accepted trade.
  predicate Accepting(maxPosition: real, s: System, a: Action) {
    && a.Commit? && a.tx in s.open && s.open[a.tx].stage.Ready?
    && |Committed(maxPosition, s.db, s.open[a.tx]).outbox| > |s.db.outbox|
  }

  function PositionNow(db: Db, t: Tx): real {
    Position(db.trades, t.request.account, t.request.symbol)
  }

  // The position that results is within the limit.
  predicate Fits(maxPosition: real, s: System, a: Action) {
    Accepting(maxPosition, s, a) ==>
      var t := s.open[a.tx];
      -maxPosition <= PositionNow(s.db, t) + SignedQty(t.request) <= maxPosition
  }

  // The position that was read is still the position.
  predicate Current(maxPosition: real, s: System, a: Action) {
    Accepting(maxPosition, s, a) ==> s.open[a.tx].stage.position == PositionNow(s.db, s.open[a.tx])
  }

  lemma AcceptedCommit(maxPosition: real, db: Db, t: Tx)
    requires t.stage.Ready? && |Committed(maxPosition, db, t).outbox| > |db.outbox|
    ensures Insertable(db, t.request, t.entryId, TxEvent(t))
    ensures Committed(maxPosition, db, t) == AcceptedAs(db, t.request, t.entryId, TxEvent(t))
    ensures -maxPosition <= t.stage.position + SignedQty(t.request) <= maxPosition
  {
    hide Position, CashDelta, SignedQty;
  }

  /** From a state within the limit, an accepted commit keeps it exactly when the position at
      commit, not the one that was read, has room for the trade. */
  lemma CommitKeepsLimitIff(maxPosition: real, db: Db, t: Tx)
    requires t.stage.Ready? && |Committed(maxPosition, db, t).outbox| > |db.outbox|
    requires WithinLimit(maxPosition, db.trades)
    ensures WithinLimit(maxPosition, Committed(maxPosition, db, t).trades)
       <==> -maxPosition <= PositionNow(db, t) + SignedQty(t.request) <= maxPosition
  {
    hide Position, SignedQty, Committed;
    AcceptedCommit(maxPosition, db, t);
    forall a, s
      ensures Position(db.trades + [Trade(t.request, Posted)], a, s)
           == Position(db.trades, a, s)
              + (if t.request.account == a && t.request.symbol == s then SignedQty(t.request) else 0.0)
    {
      PositionAppend(db.trades, t.request, a, s);
    }
  }

  /** From a faithful outbox, an accepted commit leaves it faithful exactly when the position
      it read is still current. */
  lemma CommitKeepsOutboxIff(maxPosition: real, db: Db, t: Tx)
    requires t.stage.Ready? && |Committed(maxPosition, db, t).outbox| > |db.outbox|
    requires Faithful(db)
    ensures Faithful(Committed(maxPosition, db, t)) <==> t.stage.position == PositionNow(db, t)
  {
    hide Position, PositionIn, SignedQty, CashDelta, Committed, Consistent, DistinctIds, Insertable;
    var r, db' := t.request, Committed(maxPosition, db, t);
    AcceptedCommit(maxPosition, db, t);
    if t.stage.position == PositionNow(db, t) {
      assert TxEvent(t) == EventOf(db, r, t.eventId);
      FaithfulAccepted(db, r, t.entryId, t.eventId);
    }
    assert EventsOf(db'.outbox) == EventsOf(db.outbox) + [TxEvent(t)];
    PositionInAppend(EventsOf(db.outbox), TxEvent(t), r.account, r.symbol);
    PositionAppend(db.trades, r, r.account, r.symbol);
  }

  function StateAt(maxPosition: real, opening: map<string, real>, actions: seq<Action>, n: nat): System
    requires n <= |actions|
  {
    Run(maxPosition, opening, actions[..n])
  }

  // What any step other than an accepted commit leaves alone.
  lemma OtherwiseUntouched(maxPosition: real, s: System, a: Action)
    requires !Accepting(maxPosition, s, a)
    ensures var db' := Do(maxPosition, s, a).db;
            && db'.outbox == s.db.outbox
            && (forall x, y :: Position(db'.trades, x, y) == Position(s.db.trades, x, y))
  {
    hide FindTrade, FindEntry, TradeOk, EntryOk, OutboxOk, CashDelta, SignedQty;
    var db' := Do(maxPosition, s, a).db;
    if db'.trades != s.db.trades {
      assert Front(db'.trades) == s.db.trades;
    }
  }

  lemma StateAtNext(maxPosition: real, opening: map<string, real>, actions: seq<Action>, n: nat)
    requires n < |actions|
    ensures StateAt(maxPosition, opening, actions, n + 1)
            == Do(maxPosition, StateAt(maxPosition, opening, actions, n), actions[n])
  {
    assert Front(actions[..n + 1]) == actions[..n];
  }

  lemma LimitStepIff(maxPosition: real, s: System, a: Action)
    requires WithinLimit(maxPosition, s.db.trades)
    ensures WithinLimit(maxPosition, Do(maxPosition, s, a).db.trades) <==> Fits(maxPosition, s, a)
  {
    hide Position, Committed, SignedQty;
    if Accepting(maxPosition, s, a) {
      CommitKeepsLimitIff(maxPosition, s.db, s.open[a.tx]);
    } else {
      OtherwiseUntouched(maxPosition, s, a);
    }
  }

  lemma OutboxStepIff(maxPosition: real, s: System, a: Action)
    requires Faithful(s.db)
    ensures Faithful(Do(maxPosition, s, a).db) <==> Current(maxPosition, s, a)
  {
    hide Position, Committed, PositionIn, Consistent, DistinctIds;
    if Accepting(maxPosition, s, a) {
      CommitKeepsOutboxIff(maxPosition, s.db, s.open[a.tx]);
    } else {
      OtherwiseUntouched(maxPosition, s, a);
    }
  }

  /** Over every interleaving, up to any point: the limit has held in every state exactly when
      every accepted commit found room for its trade at commit. */
  lemma {:induction false} InterleavedLimitIff(maxPosition: real, opening: map<string, real>, actions: seq<Action>,
                                               n: nat)
    requires maxPosition >= 0.0 && n <= |actions|
    ensures (forall k :: 0 <= k <= n ==> WithinLimit(maxPosition, StateAt(maxPosition, opening, actions, k).db.trades))
       <==> (forall k :: 0 <= k < n ==> Fits(maxPosition, StateAt(maxPosition, opening, actions, k), actions[k]))
  {
    if n == 0 {
      assert StateAt(maxPosition, opening, actions, 0).db.trades == [];
    } else {
      hide StateAt, WithinLimit, Fits;
      var s := StateAt(maxPosition, opening, actions, n - 1);
      InterleavedLimitIff(maxPosition, opening, actions, n - 1);
      StateAtNext(maxPosition, opening, actions, n - 1);
      if WithinLimit(maxPosition, s.db.trades) {
        LimitStepIff(maxPosition, s, actions[n - 1]);
      }
    }
  }

  /** And the outbox has been faithful in every state exactly when every accepted commit had
      read the position it changed. */
  lemma {:induction false} InterleavedOutboxIff(maxPosition: real, opening: map<string, real>, actions: seq<Action>,
                                                n: nat)
    requires n <= |actions|
    ensures (forall k :: 0 <= k <= n ==> Faithful(StateAt(maxPosition, opening, actions, k).db))
       <==> (forall k :: 0 <= k < n ==> Current(maxPosition, StateAt(maxPosition, opening, actions, k), actions[k]))
  {
    if n == 0 {
      assert EventsOf(StateAt(maxPosition, opening, actions, 0).db.outbox) == [];
    } else {
      hide StateAt, Faithful, Current;
      var s := StateAt(maxPosition, opening, actions, n - 1);
      InterleavedOutboxIff(maxPosition, opening, actions, n - 1);
      StateAtNext(maxPosition, opening, actions, n - 1);
      if Faithful(s.db) {
        OutboxStepIff(maxPosition, s, actions[n - 1]);
      }
    }
  }

  /** So with current reads throughout, which serial posting gives, both hold in every state. */
  lemma CurrentReadsSuffice(maxPosition: real, opening: map<string, real>, actions: seq<Action>)
    requires maxPosition >= 0.0
    requires forall k :: 0 <= k < |actions| ==>
               Current(maxPosition, StateAt(maxPosition, opening, actions, k), actions[k])
    ensures forall k :: 0 <= k <= |actions| ==>
              && WithinLimit(maxPosition, StateAt(maxPosition, opening, actions, k).db.trades)
              && Faithful(StateAt(maxPosition, opening, actions, k).db)
  {
    hide StateAt, WithinLimit, Faithful, Committed;
    forall k | 0 <= k < |actions|
      ensures Fits(maxPosition, StateAt(maxPosition, opening, actions, k), actions[k])
    {
      var s, a := StateAt(maxPosition, opening, actions, k), actions[k];
      if Accepting(maxPosition, s, a) {
        AcceptedCommit(maxPosition, s.db, s.open[a.tx]);
      }
    }
    InterleavedLimitIff(maxPosition, opening, actions, |actions|);
    InterleavedOutboxIff(maxPosition, opening, actions, |actions|);
  }

  /** A transaction that nothing interrupts reads the position it changes. */
  lemma UninterruptedIsCurrent(maxPosition: real, s: System, tx: nat, r: Request, entryId: string, eventId: string)
    requires tx !in s.open
    ensures var s1 := Do(maxPosition, s, Begin(tx, r, entryId, eventId));
            var s2 := Do(maxPosition, s1, ReadRequest(tx));
            var s3 := Do(maxPosition, s2, ReadCash(tx));
            var s4 := Do(maxPosition, s3, ReadPosition(tx));
            Current(maxPosition, s4, Commit(tx))
  {
    hide Position, CashDelta, SignedQty, Lookup, Committed;
  }

  // --- cash -------------------------------------------------------------------

  // Admin credits that went through, per account.
  function CreditedIn(maxPosition: real, opening: map<string, real>, actions: seq<Action>, account: string): real {
    if actions == [] then 0.0
    else
      var db, a := Run(maxPosition, opening, Front(actions)).db, Last(actions);
      CreditedIn(maxPosition, opening, Front(actions), account)
      + (if a.AdminCredit? && a.account == account
            && Credits(db, DoCredit(a.account, a.amount, a.entryId, a.sourceEventId))
         then a.amount else 0.0)
  }

  lemma CommitMovesCash(maxPosition: real, db: Db, t: Tx, account: string)
    requires t.stage.Ready?
    ensures var db' := Committed(maxPosition, db, t);
            && db'.accounts.Keys == db.accounts.Keys
            && (account in db.accounts ==>
                  db'.accounts[account] - db.accounts[account]
                  == CashSum(EventsOf(db'.outbox), account) - CashSum(EventsOf(db.outbox), account))
            && (DistinctIds(EventsOf(db.outbox)) ==> DistinctIds(EventsOf(db'.outbox)))
  {
    hide Position, CashDelta, SignedQty, FindTrade, FindEntry;
    var db' := Committed(maxPosition, db, t);
    if |db'.outbox| > |db.outbox| {
      AcceptedCommit(maxPosition, db, t);
      var events := EventsOf(db.outbox);
      assert EventsOf(db'.outbox) == events + [TxEvent(t)] && Front(events + [TxEvent(t)]) == events;
      assert forall i :: 0 <= i < |events| ==> events[i].eventId != t.eventId;
    }
  }

  /** Over every interleaving opening cash plus all cash movements in the outbox is ledger cash
      minus admin credits: what an event says of cash does not depend on what was read. */
  lemma {:induction false} InterleavedCash(maxPosition: real, opening: map<string, real>, actions: seq<Action>,
                                           account: string)
    ensures var db := Run(maxPosition, opening, actions).db;
            && DistinctIds(EventsOf(db.outbox)) && db.accounts.Keys == opening.Keys
            && (account in opening ==>
                  opening[account] + CashSum(EventsOf(db.outbox), account)
                  == db.accounts[account] - CreditedIn(maxPosition, opening, actions, account))
  {
    if actions != [] {
      hide Committed, Lookup, Position, DistinctIds, CashSum, EntryOk;
      InterleavedCash(maxPosition, opening, Front(actions), account);
      var s, a := Run(maxPosition, opening, Front(actions)), Last(actions);
      if a.Commit? && a.tx in s.open && s.open[a.tx].stage.Ready? {
        CommitMovesCash(maxPosition, s.db, s.open[a.tx], account);
      }
    } else {
      assert EventsOf([]) == [];
    }
  }

  function FullBuy(maxPosition: real, requestId: string, entryId: string, eventId: string): Tx {
    Tx(Request(requestId, "acct_123", "AAPL", Buy, maxPosition, 1.0), entryId, eventId, Ready(2.0 * maxPosition, 0.0))
  }

  lemma FirstCommit(maxPosition: real, t: Tx, opening: map<string, real>)
    requires maxPosition > 0.0 && t == FullBuy(maxPosition, "req-1", "je-1", "evt-1")
    requires opening == map["acct_123" := 2.0 * maxPosition]
    ensures Committed(maxPosition, Empty(opening), t) == AcceptedAs(Empty(opening), t.request, "je-1", TxEvent(t))
  {
    assert Amount(t.request) == maxPosition;
    assert Insertable(Empty(opening), t.request, "je-1", TxEvent(t));
  }

  lemma SecondCommit(maxPosition: real, t1: Tx, t2: Tx, opening: map<string, real>)
    requires maxPosition > 0.0 && opening == map["acct_123" := 2.0 * maxPosition]
    requires t1 == FullBuy(maxPosition, "req-1", "je-1", "evt-1")
             && t2 == FullBuy(maxPosition, "req-2", "je-2", "evt-2")
    ensures var db := Committed(maxPosition, AcceptedAs(Empty(opening), t1.request, "je-1", TxEvent(t1)), t2);
            && Position(db.trades, "acct_123", "AAPL") > maxPosition
            && |db.outbox| == 2 && db.outbox[1].event.positionAfter == maxPosition
  {
    var first := AcceptedAs(Empty(opening), t1.request, "je-1", TxEvent(t1));
    assert Amount(t1.request) == maxPosition && Amount(t2.request) == maxPosition;
    assert "req-1"[4] != "req-2"[4] && "je-1"[3] != "je-2"[3] && "evt-1"[4] != "evt-2"[4];
    assert first.trades == [Trade(t1.request, Posted)] && first.entries == [JournalEntry("je-1", "req-1", "acct_123")];
    FindTradeNone(first.trades, "req-2");
    assert Insertable(first, t2.request, "je-2", TxEvent(t2));
    var trades := Committed(maxPosition, first, t2).trades;
    assert Front(trades) == first.trades && Front(first.trades) == [];
    assert Position(first.trades, "acct_123", "AAPL") == maxPosition;
  }

  /** So the position limit needs serial posting: two buys that each fit, read before either
      commits, go past the limit together, and the second event's position is wrong. */
  lemma LimitNeedsSerialPosting(maxPosition: real) returns (actions: seq<Action>)
    requires maxPosition > 0.0
    ensures var db := Run(maxPosition, map["acct_123" := 2.0 * maxPosition], actions).db;
            && Position(db.trades, "acct_123", "AAPL") > maxPosition
            && |db.outbox| == 2 && db.outbox[1].event.positionAfter == maxPosition
  {
    var opening := map["acct_123" := 2.0 * maxPosition];
    var t1, t2 := FullBuy(maxPosition, "req-1", "je-1", "evt-1"), FullBuy(maxPosition, "req-2", "je-2", "evt-2");
    actions := BothOpen(maxPosition, opening, t1, t2);
    FirstCommit(maxPosition, t1, opening);
    actions := RunCommit(maxPosition, opening, actions, 1, t1);
    actions := RunCommit(maxPosition, opening, actions, 2, t2);
    SecondCommit(maxPosition, t1, t2, opening);
  }

  lemma BothOpen(maxPosition: real, opening: map<string, real>, t1: Tx, t2: Tx) returns (actions: seq<Action>)
    requires t1.request.account in opening && t1.stage == Ready(opening[t1.request.account], 0.0)
    requires t2.request.account in opening && t2.stage == Ready(opening[t2.request.account], 0.0)
    ensures Run(maxPosition, opening, actions) == System(Empty(opening), map[1 := t1, 2 := t2])
  {
    actions := OpenTx(maxPosition, opening, [], 1, t1.request, t1.entryId, t1.eventId);
    assert Run(maxPosition, opening, actions).open == map[1 := t1];
    actions := OpenTx(maxPosition, opening, actions, 2, t2.request, t2.entryId, t2.eventId);
  }

  lemma RunCommit(maxPosition: real, opening: map<string, real>, before: seq<Action>, tx: nat, t: Tx)
    returns (actions: seq<Action>)
    requires tx in Run(maxPosition, opening, before).open && Run(maxPosition, opening, before).open[tx] == t
    requires t.stage.Ready?
    ensures var s := Run(maxPosition, opening, before);
            Run(maxPosition, opening, actions) == System(Committed(maxPosition, s.db, t), s.open - {tx})
  {
    actions := before + [Commit(tx)];
    assert Front(actions) == before;
  }

  lemma RunAppend(maxPosition: real, opening: map<string, real>, before: seq<Action>, a: Action)
    ensures Run(maxPosition, opening, before + [a]) == Do(maxPosition, Run(maxPosition, opening, before), a)
  {
    assert Front(before + [a]) == before;
  }

  lemma BeginAndLookUp(maxPosition: real, opening: map<string, real>, before: seq<Action>, tx: nat, r: Request,
                       entryId: string, eventId: string) returns (actions: seq<Action>)
    requires Run(maxPosition, opening, before).db == Empty(opening) && tx !in Run(maxPosition, opening, before).open
    ensures var s := Run(maxPosition, opening, before);
            Run(maxPosition, opening, actions) == s.(open := s.open[tx := Tx(r, entryId, eventId, NotSeen)])
  {
    hide Run;
    var s := Run(maxPosition, opening, before);
    RunAppend(maxPosition, opening, before, Begin(tx, r, entryId, eventId));
    actions := before + [Begin(tx, r, entryId, eventId)];
    RunAppend(maxPosition, opening, actions, ReadRequest(tx));
    actions := actions + [ReadRequest(tx)];
    assert s.open[tx := Tx(r, entryId, eventId, Begun)][tx := Tx(r, entryId, eventId, NotSeen)]
        == s.open[tx := Tx(r, entryId, eventId, NotSeen)];
  }

  lemma LookUpCash(maxPosition: real, opening: map<string, real>, before: seq<Action>, tx: nat)
    returns (actions: seq<Action>)
    requires tx in Run(maxPosition, opening, before).open && Run(maxPosition, opening, before).open[tx].stage == NotSeen
    requires Run(maxPosition, opening, before).open[tx].request.account in Run(maxPosition, opening, before).db.accounts
    ensures var s := Run(maxPosition, opening, before);
            Run(maxPosition, opening, actions) == At(s, tx, HaveCash(s.db.accounts[s.open[tx].request.account]))
  {
    hide Run, Lookup, Position, Committed;
    RunAppend(maxPosition, opening, before, ReadCash(tx));
    actions := before + [ReadCash(tx)];
  }

  lemma LookUpPosition(maxPosition: real, opening: map<string, real>, before: seq<Action>, tx: nat)
    returns (actions: seq<Action>)
    requires tx in Run(maxPosition, opening, before).open && Run(maxPosition, opening, before).open[tx].stage.HaveCash?
    ensures var s := Run(maxPosition, opening, before); var t := s.open[tx];
            Run(maxPosition, opening, actions) == At(s, tx, Ready(t.stage.cash, PositionNow(s.db, t)))
  {
    hide Run, Lookup, Position, Committed;
    RunAppend(maxPosition, opening, before, ReadPosition(tx));
    actions := before + [ReadPosition(tx)];
  }

  // Begin a transaction on an account with no trades yet and let it read everything.
  lemma OpenTx(maxPosition: real, opening: map<string, real>, before: seq<Action>, tx: nat, r: Request,
               entryId: string, eventId: string) returns (actions: seq<Action>)
    requires Run(maxPosition, opening, before).db == Empty(opening) && tx !in Run(maxPosition, opening, before).open
    requires r.account in opening
    ensures var s := Run(maxPosition, opening, before);
            Run(maxPosition, opening, actions)
            == s.(open := s.open[tx := Tx(r, entryId, eventId, Ready(opening[r.account], 0.0))])
  {
    hide Run, Lookup;
    var s := Run(maxPosition, opening, before);
    actions := BeginAndLookUp(maxPosition, opening, before, tx, r, entryId, eventId);
    actions := LookUpCash(maxPosition, opening, actions, tx);
    actions := LookUpPosition(maxPosition, opening, actions, tx);
    var t := Tx(r, entryId, eventId, Ready(opening[r.account], 0.0));
    assert Run(maxPosition, opening, actions).open == s.open[tx := t];
  }
}
