// When the ledger's transactions succeed and exactly what they write, said of the request and
// the tables it meets (ledger/LedgerService.java:62-148 and the constraints of db/migration).

module LedgerOutcomes {
  import opened Basics
  import opened Events
  import opened Ledger
  import opened LedgerRuns
  import I = Interleaving

  // --- what a request meets ------------------------------------------------

  ghost predicate Requested(db: Db, requestId: string) {
    exists i :: 0 <= i < |db.trades| && db.trades[i].request.requestId == requestId
  }

  // The identifiers an accepted trade writes have not been used.
  ghost predicate IdsUnused(db: Db, requestId: string, entryId: string, eventId: string) {
    && (forall i :: 0 <= i < |db.entries| ==>
          db.entries[i].entryId != entryId && db.entries[i].sourceEventId != requestId)
    && (forall i :: 0 <= i < |db.outbox| ==> db.outbox[i].event.eventId != eventId)
  }

  function CashMoved(r: Request): real {
    if r.side == Buy then -(r.price * r.quantity) else r.price * r.quantity
  }

  function PositionMoved(r: Request): real {
    if r.side == Buy then r.quantity else -r.quantity
  }

  ghost predicate CashStays(db: Db, r: Request)
    requires r.account in db.accounts
  {
    db.accounts[r.account] + CashMoved(r) >= 0.0
  }

  ghost predicate PositionFits(maxPosition: real, db: Db, r: Request) {
    -maxPosition <= Position(db.trades, r.account, r.symbol) + PositionMoved(r) <= maxPosition
  }

  lemma NotFoundIff(db: Db, requestId: string)
    ensures Lookup(db, requestId) == None <==> !Requested(db, requestId)
  {
    FindTradeNone(db.trades, requestId);
  }

  lemma Moves(r: Request)
    ensures CashDelta(r) == CashMoved(r) && SignedQty(r) == PositionMoved(r)
  {
  }

  // --- posting -------------------------------------------------------------

  /** An acceptable trade, of either side, is posted, and this is every row it writes. */
  lemma AcceptableIsPosted(maxPosition: real, db: Db, r: Request, entryId: string, eventId: string)
    requires !Requested(db, r.requestId) && IdsUnused(db, r.requestId, entryId, eventId)
    requires r.account in db.accounts && r.quantity > 0.0 && r.price > 0.0
    requires CashStays(db, r) && PositionFits(maxPosition, db, r)
    ensures var (db', outcome) := Post(maxPosition, db, r, entryId, eventId); var amount := r.price * r.quantity;
            && outcome == Ok(Outcome(TradeResult(r, Some(entryId), Posted), true))
            && db'.accounts == db.accounts[r.account := db.accounts[r.account] + CashMoved(r)]
            && db'.trades == db.trades + [Trade(r, Posted)]
            && db'.entries == db.entries + [JournalEntry(entryId, r.requestId, r.account)]
            && db'.lines == db.lines
               + (if r.side == Buy
                  then [Line(entryId, "securities", amount, 0.0), Line(entryId, r.account, 0.0, amount)]
                  else [Line(entryId, r.account, amount, 0.0), Line(entryId, "securities", 0.0, amount)])
            && db'.audits == db.audits + [Audit(r.account, r.requestId, PostTrade, true)]
            && db'.outbox == db.outbox
               + [OutboxRow(Event(eventId, r.account, r.symbol, Some(r.price), CashMoved(r),
                                  Position(db.trades, r.account, r.symbol) + PositionMoved(r)),
                            entryId, r.requestId)]
  {
    hide Position;
    NotFoundIff(db, r.requestId);
    Moves(r);
    assert Insertable(db, r, entryId, EventOf(db, r, eventId));
  }

  /** One that breaks a limit is refused for that reason, cash first; it leaves the refused trade
      and one audit. */
  lemma BreakingIsRefused(maxPosition: real, db: Db, r: Request, entryId: string, eventId: string)
    requires !Requested(db, r.requestId)
    requires r.account in db.accounts && r.quantity > 0.0 && r.price > 0.0
    requires !(CashStays(db, r) && PositionFits(maxPosition, db, r))
    ensures var (db', outcome) := Post(maxPosition, db, r, entryId, eventId);
            var reason := if CashStays(db, r) then MaxPositionExceeded else NegativeCash;
            && outcome == Ok(Outcome(TradeResult(r, None, Rejected(reason)), true))
            && db'.trades == db.trades + [Trade(r, Rejected(reason))]
            && db'.audits == db.audits + [Audit(r.account, r.requestId, PostTrade, false)]
            && db'.accounts == db.accounts && db'.entries == db.entries
            && db'.lines == db.lines && db'.outbox == db.outbox
  {
    hide Position;
    NotFoundIff(db, r.requestId);
    Moves(r);
  }

  /** Every other request changes nothing, and this is exactly when each answer is given. */
  lemma OtherwiseUnchanged(maxPosition: real, db: Db, r: Request, entryId: string, eventId: string)
    ensures var (db', outcome) := Post(maxPosition, db, r, entryId, eventId);
            && (outcome.Ok? && !outcome.value.created <==> Requested(db, r.requestId))
            && (outcome == Err(UnknownAccount) <==> !Requested(db, r.requestId) && r.account !in db.accounts)
            && (outcome == Err(ConstraintViolation) <==>
                  && !Requested(db, r.requestId) && r.account in db.accounts
                  && (r.quantity <= 0.0 || r.price <= 0.0
                      || (CashStays(db, r) && PositionFits(maxPosition, db, r)
                          && !IdsUnused(db, r.requestId, entryId, eventId))))
            && outcome != Err(BadAmount)
            && (outcome.Err? || !outcome.value.created ==> db' == db)
  {
    hide Position;
    NotFoundIff(db, r.requestId);
    Moves(r);
    if !Requested(db, r.requestId) && r.account in db.accounts && r.quantity > 0.0 && r.price > 0.0 {
      assert EntryOk(db, JournalEntry(entryId, r.requestId, r.account))
          && OutboxOk(db, OutboxRow(EventOf(db, r, eventId), entryId, r.requestId))
        <==> IdsUnused(db, r.requestId, entryId, eventId);
    }
  }

  // --- admin credits ---------------------------------------------------------

  /** A credit of a positive amount to a known account, under new identifiers, goes through and
      returns the new balance; otherwise nothing changes, and this is exactly when each error
      is given. */
  lemma CreditOutcome(db: Db, account: string, amount: real, entryId: string, sourceEventId: string)
    ensures var (db', balance) := Credit(db, account, amount, entryId, sourceEventId);
            var unused := forall i :: 0 <= i < |db.entries| ==>
              db.entries[i].entryId != entryId && db.entries[i].sourceEventId != sourceEventId;
            && (balance == Err(BadAmount) <==> amount <= 0.0)
            && (balance == Err(UnknownAccount) <==> amount > 0.0 && account !in db.accounts)
            && (balance == Err(ConstraintViolation) <==> amount > 0.0 && account in db.accounts && !unused)
            && (balance.Err? ==> db' == db)
            && (balance.Ok? ==>
                  && account in db.accounts && balance == Ok(db.accounts[account] + amount)
                  && db'.accounts == db.accounts[account := balance.value]
                  && db'.entries == db.entries + [JournalEntry(entryId, sourceEventId, account)]
                  && db'.lines == db.lines
                     + [Line(entryId, account, amount, 0.0), Line(entryId, "funding", 0.0, amount)]
                  && db'.audits == db.audits + [Audit(account, sourceEventId, AdminCredit, true)]
                  && db'.trades == db.trades && db'.outbox == db.outbox)
  {
  }

  // --- commits on what was read -----------------------------------------------

  /** A commit decides on the cash and position its transaction read, and the database on the
      cash there now: this is exactly when it accepts and when it refuses. */
  lemma CommitOutcome(maxPosition: real, db: Db, t: I.Tx)
    requires t.stage.Ready?
    ensures var r, db' := t.request, I.Committed(maxPosition, db, t);
            var sound := !Requested(db, r.requestId) && r.account in db.accounts && r.quantity > 0.0 && r.price > 0.0;
            var cashRead := t.stage.cash + CashMoved(r) >= 0.0;
            var positionRead := -maxPosition <= t.stage.position + PositionMoved(r) <= maxPosition;
            var accepts := sound && cashRead && positionRead && IdsUnused(db, r.requestId, t.entryId, t.eventId)
                           && CashStays(db, r);
            var refuses := sound && !(cashRead && positionRead);
            && (|db'.outbox| > |db.outbox| <==> accepts)
            && (accepts ==>
                  && db'.trades == db.trades + [Trade(r, Posted)]
                  && db'.accounts == db.accounts[r.account := db.accounts[r.account] + CashMoved(r)]
                  && db'.outbox == db.outbox
                     + [OutboxRow(Event(t.eventId, r.account, r.symbol, Some(r.price), CashMoved(r),
                                        t.stage.position + PositionMoved(r)),
                                  t.entryId, r.requestId)])
            && (refuses ==> db'.trades
                            == db.trades + [Trade(r, Rejected(if cashRead then MaxPositionExceeded else NegativeCash))]
                            && db'.accounts == db.accounts)
            && (!accepts && !refuses ==> db' == db)
  {
    hide Position;
    NotFoundIff(db, t.request.requestId);
    Moves(t.request);
    if t.request.account in db.accounts && !Requested(db, t.request.requestId) {
      assert EntryOk(db, JournalEntry(t.entryId, t.request.requestId, t.request.account))
          && OutboxOk(db, OutboxRow(I.TxEvent(t), t.entryId, t.request.requestId))
        <==> IdsUnused(db, t.request.requestId, t.entryId, t.eventId);
    }
  }
}
