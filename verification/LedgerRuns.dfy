// What every serial run of posts, refusals, retries and admin credits keeps.

module LedgerRuns {
  import opened Basics
  import opened Events
  import opened Ledger

  datatype Command =
    | DoPost(request: Request, entryId: string, eventId: string)
    | DoCredit(account: string, amount: real, entryId: string, sourceEventId: string)

  function Exec(maxPosition: real, db: Db, c: Command): Db {
    match c
    case DoPost(r, entryId, eventId) => Post(maxPosition, db, r, entryId, eventId).0
    case DoCredit(account, amount, entryId, sourceEventId) => Credit(db, account, amount, entryId, sourceEventId).0
  }

  function Empty(opening: map<string, real>): Db {
    Db(opening, [], [], [], [], [])
  }

  function Run(maxPosition: real, db: Db, cs: seq<Command>): Db {
    if cs == [] then db else Exec(maxPosition, Run(maxPosition, db, Front(cs)), Last(cs))
  }

  // The three ways a command changes the tables, with what had to hold.

  predicate Accepts(maxPosition: real, db: Db, c: Command) {
    && c.DoPost?
    && var r := c.request;
       && Insertable(db, r, c.entryId, EventOf(db, r, c.eventId))
       && FirstViolation(maxPosition, db.accounts[r.account] + CashDelta(r),
                         Position(db.trades, r.account, r.symbol) + SignedQty(r)) == None
  }

  predicate Refuses(db: Db, c: Command, reason: Reason) {
    c.DoPost? && TradeOk(db, Trade(c.request, Rejected(reason)))
  }

  predicate Credits(db: Db, c: Command) {
    c.DoCredit? && c.amount > 0.0 && EntryOk(db, JournalEntry(c.entryId, c.sourceEventId, c.account))
  }

  lemma ExecCases(maxPosition: real, db: Db, c: Command)
    ensures var db' := Exec(maxPosition, db, c);
            || db' == db
            || (Accepts(maxPosition, db, c) && db' == Accepted(db, c.request, c.entryId, c.eventId))
            || (exists reason :: Refuses(db, c, reason) && db' == Refused(db, c.request, reason))
            || (Credits(db, c) && db' == Credited(db, c.account, c.amount, c.entryId, c.sourceEventId))
  {
    if c.DoPost? && c.request.account in db.accounts {
      var r := c.request;
      var v := FirstViolation(maxPosition, db.accounts[r.account] + CashDelta(r),
                              Position(db.trades, r.account, r.symbol) + SignedQty(r));
      if v.Some? {
        assert Refuses(db, c, v.value) <==> TradeOk(db, Trade(r, Rejected(v.value)));
      }
    }
  }

  // --- the journal determines cash -------------------------------------

  function Net(lines: seq<Line>, account: string): real {
    if lines == [] then 0.0
    else Net(Front(lines), account)
         + (if Last(lines).accountRef == account then Last(lines).debit - Last(lines).credit else 0.0)
  }

  function Debits(lines: seq<Line>): real {
    if lines == [] then 0.0 else Debits(Front(lines)) + Last(lines).debit
  }

  function TotalCredits(lines: seq<Line>): real {
    if lines == [] then 0.0 else TotalCredits(Front(lines)) + Last(lines).credit
  }

  lemma PairSums(lines: seq<Line>, a: Line, b: Line, account: string)
    ensures Net(lines + [a, b], account)
         == Net(lines, account) + (if a.accountRef == account then a.debit - a.credit else 0.0)
                                + (if b.accountRef == account then b.debit - b.credit else 0.0)
    ensures Debits(lines + [a, b]) == Debits(lines) + a.debit + b.debit
    ensures TotalCredits(lines + [a, b]) == TotalCredits(lines) + a.credit + b.credit
  {
    assert Front(lines + [a, b]) == lines + [a];
    assert Front(lines + [a]) == lines;
  }

  // Entry i owns lines 2i and 2i+1: a debit and a credit of the same positive amount.
  ghost predicate Balanced(db: Db) {
    && |db.lines| == 2 * |db.entries|
    && forall i :: 0 <= i < |db.entries| ==> Pair(db.entries[i].entryId, db.lines[2 * i], db.lines[2 * i + 1])
  }

  predicate Pair(entryId: string, a: Line, b: Line) {
    a.entryId == entryId == b.entryId && a.debit == b.credit > 0.0 && a.credit == 0.0 == b.debit
  }

  ghost predicate CashFromJournal(opening: map<string, real>, db: Db) {
    && db.accounts.Keys == opening.Keys
    && forall a :: a in opening ==> db.accounts[a] == opening[a] + Net(db.lines, a)
  }

  lemma BalancedAppend(db: Db, db': Db, e: JournalEntry, a: Line, b: Line)
    requires Balanced(db) && db'.entries == db.entries + [e] && db'.lines == db.lines + [a, b]
    requires Pair(e.entryId, a, b)
    ensures Balanced(db')
  {
  }

  /** A posted trade keeps cash equal to what the journal says exactly when no account is
      named like the ledger's own securities account. */
  lemma AcceptedJournal(opening: map<string, real>, db: Db, r: Request, entryId: string, event: Event)
    requires Insertable(db, r, entryId, event) && Balanced(db) && CashFromJournal(opening, db)
    ensures var db' := AcceptedAs(db, r, entryId, event);
            Balanced(db') && (CashFromJournal(opening, db') <==> SECURITIES !in opening)
  {
    var db' := AcceptedAs(db, r, entryId, event);
    var a, b := Mirrored(r, entryId)[0], Mirrored(r, entryId)[1];
    PositiveAmount(r);
    BalancedAppend(db, db', JournalEntry(entryId, r.requestId, r.account), a, b);
    PairSums(db.lines, a, b, SECURITIES);
    forall x | x in opening && SECURITIES !in opening
      ensures db'.accounts[x] == opening[x] + Net(db'.lines, x)
    {
      PairSums(db.lines, a, b, x);
    }
  }

  /** Likewise an admin credit, for the ledger's own funding account. */
  lemma CreditedJournal(opening: map<string, real>, db: Db, c: Command)
    requires Credits(db, c) && Balanced(db) && CashFromJournal(opening, db)
    ensures var db' := Credited(db, c.account, c.amount, c.entryId, c.sourceEventId);
            Balanced(db') && (CashFromJournal(opening, db') <==> FUNDING !in opening)
  {
    var db' := Credited(db, c.account, c.amount, c.entryId, c.sourceEventId);
    var a, b := Line(c.entryId, c.account, c.amount, 0.0), Line(c.entryId, FUNDING, 0.0, c.amount);
    BalancedAppend(db, db', JournalEntry(c.entryId, c.sourceEventId, c.account), a, b);
    PairSums(db.lines, a, b, FUNDING);
    forall x | x in opening && FUNDING !in opening
      ensures db'.accounts[x] == opening[x] + Net(db'.lines, x)
    {
      PairSums(db.lines, a, b, x);
    }
  }

  /** In every reachable state each entry balances, and cash is opening cash plus the net of
      the account's own journal lines. */
  lemma {:induction false} JournalDeterminesCash(maxPosition: real, opening: map<string, real>, cs: seq<Command>)
    requires SECURITIES !in opening && FUNDING !in opening
    ensures var db := Run(maxPosition, Empty(opening), cs);
            Balanced(db) && CashFromJournal(opening, db)
  {
    if cs != [] {
      JournalDeterminesCash(maxPosition, opening, Front(cs));
      var db, c := Run(maxPosition, Empty(opening), Front(cs)), Last(cs);
      ExecCases(maxPosition, db, c);
      if Accepts(maxPosition, db, c) {
        AcceptedJournal(opening, db, c.request, c.entryId, EventOf(db, c.request, c.eventId));
      }
      if Credits(db, c) {
        CreditedJournal(opening, db, c);
      }
    }
  }

  /** Balanced entries add up: total debits equal total credits. */
  lemma {:induction false} DebitsEqualCredits(db: Db, n: nat)
    requires Balanced(db) && n <= |db.entries|
    ensures Debits(db.lines[..2 * n]) == TotalCredits(db.lines[..2 * n])
  {
    if n > 0 {
      DebitsEqualCredits(db, n - 1);
      var a, b := db.lines[2 * (n - 1)], db.lines[2 * (n - 1) + 1];
      PairSums(db.lines[..2 * (n - 1)], a, b, "");
      assert db.lines[..2 * n] == db.lines[..2 * (n - 1)] + [a, b];
      assert Pair(db.entries[n - 1].entryId, a, b);
    }
  }

  // --- solvency and the position limit ----------------------------------

  ghost predicate WithinLimit(maxPosition: real, trades: seq<Trade>) {
    forall a, s :: -maxPosition <= Position(trades, a, s) <= maxPosition
  }

  /** Posting serially, no account goes below zero and no position beyond the limit. */
  lemma {:induction false} LimitsHold(maxPosition: real, opening: map<string, real>, cs: seq<Command>)
    requires Solvent(opening) && maxPosition >= 0.0
    ensures var db := Run(maxPosition, Empty(opening), cs);
            Solvent(db.accounts) && WithinLimit(maxPosition, db.trades)
  {
    if cs != [] {
      LimitsHold(maxPosition, opening, Front(cs));
      var db, c := Run(maxPosition, Empty(opening), Front(cs)), Last(cs);
      ExecCases(maxPosition, db, c);
      var db' := Exec(maxPosition, db, c);
      assert |db'.trades| == |db.trades| + 1 ==> Front(db'.trades) == db.trades;
    }
  }

  // --- one record of each kind -----------------------------------------

  function PostedIds(trades: seq<Trade>): seq<string> {
    if trades == [] then []
    else PostedIds(Front(trades)) + (if Last(trades).status == Posted then [Last(trades).request.requestId] else [])
  }

  function RefusedIds(trades: seq<Trade>): seq<string> {
    if trades == [] then []
    else RefusedIds(Front(trades)) + (if Last(trades).status == Posted then [] else [Last(trades).request.requestId])
  }

  function AuditIds(audits: seq<Audit>, accepted: bool, creditsToo: bool): seq<string> {
    if audits == [] then []
    else AuditIds(Front(audits), accepted, creditsToo)
         + (if Last(audits).accepted == accepted && (creditsToo || Last(audits).action == PostTrade)
            then [Last(audits).sourceEventId] else [])
  }

  function EntrySources(entries: seq<JournalEntry>): seq<string> {
    seq(|entries|, i requires 0 <= i < |entries| => entries[i].sourceEventId)
  }

  function OutboxSources(outbox: seq<OutboxRow>): seq<string> {
    seq(|outbox|, i requires 0 <= i < |outbox| => outbox[i].sourceEventId)
  }

  predicate Unique(ids: seq<string>) {
    forall i, j :: 0 <= i < j < |ids| ==> ids[i] != ids[j]
  }

  ghost predicate OneToOne(db: Db) {
    // in order: posted trades, their accepted audits and their outbox rows
    && PostedIds(db.trades) == AuditIds(db.audits, true, false) == OutboxSources(db.outbox)
    // in order: journal entries and all accepted audits, admin credits included
    && EntrySources(db.entries) == AuditIds(db.audits, true, true)
    && Unique(EntrySources(db.entries))
    // in order: refused trades and their audits
    && RefusedIds(db.trades) == AuditIds(db.audits, false, true)
    // every outbox row names the journal entry of its own trade
    && (forall i :: 0 <= i < |db.outbox| ==>
          FindEntry(db.entries, db.outbox[i].sourceEventId) == Some(db.outbox[i].entryId))
    // at most one trade per request
    && (forall i, j :: 0 <= i < j < |db.trades| ==> db.trades[i].request.requestId != db.trades[j].request.requestId)
  }

  lemma {:induction false} FindEntryAppend(entries: seq<JournalEntry>, e: JournalEntry, id: string)
    ensures FindEntry(entries + [e], id)
         == if FindEntry(entries, id).Some? then FindEntry(entries, id)
            else if e.sourceEventId == id then Some(e.entryId) else None
  {
    if entries != [] {
      assert (entries + [e])[1..] == entries[1..] + [e];
      FindEntryAppend(entries[1..], e, id);
    }
  }

  lemma {:induction false} FindEntryNone(entries: seq<JournalEntry>, id: string)
    ensures FindEntry(entries, id) == None <==> forall i :: 0 <= i < |entries| ==> entries[i].sourceEventId != id
  {
    if entries != [] {
      FindEntryNone(entries[1..], id);
      assert forall i :: 1 <= i < |entries| ==> entries[i] == entries[1..][i - 1];
    }
  }

  lemma {:induction false} FindTradeAppend(trades: seq<Trade>, t: Trade, id: string)
    ensures FindTrade(trades + [t], id)
         == if FindTrade(trades, id).Some? then FindTrade(trades, id)
            else if t.request.requestId == id then Some(t) else None
  {
    if trades != [] {
      assert (trades + [t])[1..] == trades[1..] + [t];
      FindTradeAppend(trades[1..], t, id);
    }
  }

  lemma {:induction false} FindTradeNone(trades: seq<Trade>, id: string)
    ensures FindTrade(trades, id) == None <==> forall i :: 0 <= i < |trades| ==> trades[i].request.requestId != id
  {
    if trades != [] {
      FindTradeNone(trades[1..], id);
      assert forall i :: 1 <= i < |trades| ==> trades[i] == trades[1..][i - 1];
    }
  }

  lemma OneToOneAccepted(db: Db, r: Request, entryId: string, event: Event)
    requires OneToOne(db) && Insertable(db, r, entryId, event)
    ensures OneToOne(AcceptedAs(db, r, entryId, event))
  {
    var db' := AcceptedAs(db, r, entryId, event);
    assert Front(db'.trades) == db.trades && Front(db'.audits) == db.audits;
    assert EntrySources(db'.entries) == EntrySources(db.entries) + [r.requestId];
    assert OutboxSources(db'.outbox) == OutboxSources(db.outbox) + [r.requestId];
    FindTradeNone(db.trades, r.requestId);
    FindEntryNone(db.entries, r.requestId);
    forall i | 0 <= i < |db'.outbox|
      ensures FindEntry(db'.entries, db'.outbox[i].sourceEventId) == Some(db'.outbox[i].entryId)
    {
      FindEntryAppend(db.entries, JournalEntry(entryId, r.requestId, r.account), db'.outbox[i].sourceEventId);
    }
  }

  lemma OneToOneRefused(db: Db, r: Request, reason: Reason)
    requires OneToOne(db) && TradeOk(db, Trade(r, Rejected(reason)))
    ensures OneToOne(Refused(db, r, reason))
  {
    var db' := Refused(db, r, reason);
    assert Front(db'.trades) == db.trades && Front(db'.audits) == db.audits;
    FindTradeNone(db.trades, r.requestId);
  }

  lemma OneToOneCredited(db: Db, c: Command)
    requires OneToOne(db) && Credits(db, c)
    ensures OneToOne(Credited(db, c.account, c.amount, c.entryId, c.sourceEventId))
  {
    var db' := Credited(db, c.account, c.amount, c.entryId, c.sourceEventId);
    assert Front(db'.audits) == db.audits;
    assert EntrySources(db'.entries) == EntrySources(db.entries) + [c.sourceEventId];
    forall i | 0 <= i < |db'.outbox|
      ensures FindEntry(db'.entries, db'.outbox[i].sourceEventId) == Some(db'.outbox[i].entryId)
    {
      FindEntryAppend(db.entries, JournalEntry(c.entryId, c.sourceEventId, c.account), db'.outbox[i].sourceEventId);
    }
  }

  /** Posted trades, journal entries, accepted audits and outbox rows correspond one to one
      and in order; a refused trade has exactly one audit. */
  lemma {:induction false} RecordsCorrespond(maxPosition: real, opening: map<string, real>, cs: seq<Command>)
    ensures OneToOne(Run(maxPosition, Empty(opening), cs))
  {
    if cs != [] {
      RecordsCorrespond(maxPosition, opening, Front(cs));
      var db, c := Run(maxPosition, Empty(opening), Front(cs)), Last(cs);
      ExecCases(maxPosition, db, c);
      var db' := Exec(maxPosition, db, c);
      if Accepts(maxPosition, db, c) && db' == Accepted(db, c.request, c.entryId, c.eventId) {
        OneToOneAccepted(db, c.request, c.entryId, EventOf(db, c.request, c.eventId));
      } else if Credits(db, c) {
        OneToOneCredited(db, c);
      } else if db' != db {
        var reason :| Refuses(db, c, reason) && db' == Refused(db, c.request, reason);
        OneToOneRefused(db, c.request, reason);
      }
    }
  }

  // --- stable replay ---------------------------------------------------

  // What is found about a request once it has been seen never changes, except that a
  // credit may later take a journal source id nobody has used.
  lemma {:induction false} LookupsPersist(maxPosition: real, db: Db, cs: seq<Command>, id: string)
    ensures var db' := Run(maxPosition, db, cs);
            && (FindTrade(db.trades, id).Some? ==> FindTrade(db'.trades, id) == FindTrade(db.trades, id))
            && (FindEntry(db.entries, id).Some? ==> FindEntry(db'.entries, id) == FindEntry(db.entries, id))
  {
    if cs != [] {
      LookupsPersist(maxPosition, db, Front(cs), id);
      var mid, c := Run(maxPosition, db, Front(cs)), Last(cs);
      ExecCases(maxPosition, mid, c);
      var db' := Exec(maxPosition, mid, c);
      if |db'.trades| > |mid.trades| {
        FindTradeAppend(mid.trades, Last(db'.trades), id);
      }
      if |db'.entries| > |mid.entries| {
        FindEntryAppend(mid.entries, Last(db'.entries), id);
      }
    }
  }

  /** Resubmitting a request after any further commands changes nothing and returns the
      original outcome, exactly when the trade was posted or no journal entry has meanwhile
      (or before) been written under that id by an admin credit. */
  lemma ReplayIsStable(maxPosition: real, db: Db, r: Request, entryId: string, eventId: string, later: seq<Command>,
                       retry: Request, entryId': string, eventId': string)
    requires Post(maxPosition, db, r, entryId, eventId).1.Ok?
    requires Post(maxPosition, db, r, entryId, eventId).1.value.created
    requires retry.requestId == r.requestId
    ensures var (first, outcome) := Post(maxPosition, db, r, entryId, eventId);
            var now := Run(maxPosition, first, later);
            var (again, replay) := Post(maxPosition, now, retry, entryId', eventId');
            && again == now
            && replay.Ok? && !replay.value.created
            && (replay.value.result == outcome.value.result <==>
                  outcome.value.result.status == Posted || FindEntry(now.entries, r.requestId) == None)
  {
    var (first, outcome) := Post(maxPosition, db, r, entryId, eventId);
    var t := Trade(r, outcome.value.result.status);
    FindTradeAppend(db.trades, t, r.requestId);
    LookupsPersist(maxPosition, first, later, r.requestId);
    if outcome.value.result.status == Posted {
      FindEntryNone(db.entries, r.requestId);
      FindEntryAppend(db.entries, JournalEntry(entryId, r.requestId, r.account), r.requestId);
    }
  }

  // No admin credit was given this id as its generated source id.
  ghost predicate NoCreditUses(cs: seq<Command>, id: string) {
    forall i :: 0 <= i < |cs| && cs[i].DoCredit? ==> cs[i].sourceEventId != id
  }

  // A journal entry under a request id is the entry of that request's posted trade.
  ghost predicate Owned(db: Db, id: string) {
    FindEntry(db.entries, id).Some? ==>
      FindTrade(db.trades, id).Some? && FindTrade(db.trades, id).value.status == Posted
  }

  lemma OwnedStep(maxPosition: real, db: Db, c: Command, id: string)
    requires Owned(db, id) && (c.DoCredit? ==> c.sourceEventId != id)
    ensures Owned(Exec(maxPosition, db, c), id)
  {
    ExecCases(maxPosition, db, c);
    var db' := Exec(maxPosition, db, c);
    if |db'.trades| > |db.trades| {
      FindTradeAppend(db.trades, Last(db'.trades), id);
    }
    if |db'.entries| > |db.entries| {
      FindEntryAppend(db.entries, Last(db'.entries), id);
    }
  }

  lemma {:induction false} OwnedRun(maxPosition: real, db: Db, cs: seq<Command>, id: string)
    requires Owned(db, id) && NoCreditUses(cs, id)
    ensures Owned(Run(maxPosition, db, cs), id)
  {
    if cs != [] {
      OwnedRun(maxPosition, db, Front(cs), id);
      OwnedStep(maxPosition, Run(maxPosition, db, Front(cs)), Last(cs), id);
    }
  }

  /** Generated source ids being new, a retry always returns the original outcome, whether the
      trade was posted or refused, and changes nothing. */
  lemma ReplayReturnsOriginal(maxPosition: real, opening: map<string, real>, before: seq<Command>, r: Request,
                              entryId: string, eventId: string, later: seq<Command>,
                              retry: Request, entryId': string, eventId': string)
    requires NoCreditUses(before, r.requestId) && NoCreditUses(later, r.requestId)
    requires Post(maxPosition, Run(maxPosition, Empty(opening), before), r, entryId, eventId).1.Ok?
    requires Post(maxPosition, Run(maxPosition, Empty(opening), before), r, entryId, eventId).1.value.created
    requires retry.requestId == r.requestId
    ensures var (first, outcome) := Post(maxPosition, Run(maxPosition, Empty(opening), before), r, entryId, eventId);
            var now := Run(maxPosition, first, later);
            Post(maxPosition, now, retry, entryId', eventId') == (now, Ok(Outcome(outcome.value.result, false)))
  {
    var db := Run(maxPosition, Empty(opening), before);
    OwnedRun(maxPosition, Empty(opening), before, r.requestId);
    OwnedStep(maxPosition, db, DoPost(r, entryId, eventId), r.requestId);
    var (first, outcome) := Post(maxPosition, db, r, entryId, eventId);
    OwnedRun(maxPosition, first, later, r.requestId);
    LookupsPersist(maxPosition, first, later, r.requestId);
    PostedOnce(maxPosition, db, r, entryId, eventId);
    hide Post, Run, FindTrade, FindEntry;
    ReplayIsStable(maxPosition, db, r, entryId, eventId, later, retry, entryId', eventId');
  }

  lemma PostedOnce(maxPosition: real, db: Db, r: Request, entryId: string, eventId: string)
    requires Post(maxPosition, db, r, entryId, eventId).1.Ok?
    requires Post(maxPosition, db, r, entryId, eventId).1.value.created
    ensures var (first, outcome) := Post(maxPosition, db, r, entryId, eventId);
            FindTrade(first.trades, r.requestId) == Some(Trade(r, outcome.value.result.status))
  {
    var (first, outcome) := Post(maxPosition, db, r, entryId, eventId);
    FindTradeAppend(db.trades, Trade(r, outcome.value.result.status), r.requestId);
  }

  /** Why they have to be new: were a credit's source id to equal a refused request's id, the
      retry would be answered with that credit's journal entry. */
  lemma RefusalReplayDiffers(opening: real) returns (cs: seq<Command>, r: Request)
    requires opening >= 0.0
    ensures var db := Run(1.0, Empty(map["acct_123" := opening]), cs);
            var (first, outcome) := Post(1.0, db, r, "je-2", "evt-1");
            var (again, replay) := Post(1.0, first, r, "je-3", "evt-2");
            && outcome == Ok(Outcome(TradeResult(r, None, Rejected(NegativeCash)), true))
            && replay == Ok(Outcome(TradeResult(r, Some("je-1"), Rejected(NegativeCash)), false))
  {
    cs := [DoCredit("acct_123", 1.0, "je-1", "id-1")];
    r := Request("id-1", "acct_123", "AAPL", Buy, 1.0, opening + 2.0);
    var empty := Empty(map["acct_123" := opening]);
    assert Front(cs) == [];
    var db := Run(1.0, empty, cs);
    assert Run(1.0, empty, Front(cs)) == empty && db == Exec(1.0, empty, cs[0]);
    assert EntryOk(empty, JournalEntry("je-1", "id-1", "acct_123"));
    assert db.accounts["acct_123"] == opening + 1.0 && db.trades == [];
    assert db.entries == [JournalEntry("je-1", "id-1", "acct_123")];
    assert Amount(r) == opening + 2.0;
    assert Refuses(db, DoPost(r, "je-2", "evt-1"), NegativeCash);
    var first := Post(1.0, db, r, "je-2", "evt-1").0;
    assert first.trades == [Trade(r, Rejected(NegativeCash))];
  }

  // --- the outbox is faithful ------------------------------------------

  function EventsOf(outbox: seq<OutboxRow>): seq<Event> {
    seq(|outbox|, i requires 0 <= i < |outbox| => outbox[i].event)
  }

  // Admin credits that went through, per account.
  function CreditedTo(maxPosition: real, db: Db, cs: seq<Command>, account: string): real {
    if cs == [] then 0.0
    else
      var before := Run(maxPosition, db, Front(cs));
      CreditedTo(maxPosition, db, Front(cs), account)
      + (if Last(cs).DoCredit? && Last(cs).account == account && Credits(before, Last(cs))
         then Last(cs).amount else 0.0)
  }

  ghost predicate Faithful(db: Db) {
    var events := EventsOf(db.outbox);
    && DistinctIds(events) && Consistent(events)
    && (forall a, s :: PositionIn(events, a, s) == Position(db.trades, a, s))
  }

  lemma PaysForItself(r: Request, before: real, after: real)
    requires after == before + SignedQty(r)
    ensures CashDelta(r) == -((after - before) * r.price)
  {
    var q := SignedQty(r);
    assert after - before == q;
    assert r.side == Sell ==> q * r.price == -(r.quantity * r.price);
  }

  lemma OutboxAppend(db: Db, r: Request, entryId: string, eventId: string)
    requires r.account in db.accounts
    ensures EventsOf(Accepted(db, r, entryId, eventId).outbox) == EventsOf(db.outbox) + [EventOf(db, r, eventId)]
  {
  }

  lemma PositionAccepted(db: Db, r: Request, eventId: string, a: string, s: string)
    requires PositionIn(EventsOf(db.outbox), a, s) == Position(db.trades, a, s)
    ensures PositionIn(EventsOf(db.outbox) + [EventOf(db, r, eventId)], a, s)
         == Position(db.trades + [Trade(r, Posted)], a, s)
  {
    hide PositionIn, Position, EventsOf, CashDelta, SignedQty;
    PositionInAppend(EventsOf(db.outbox), EventOf(db, r, eventId), a, s);
    PositionAppend(db.trades, r, a, s);
  }

  lemma PositionInAppend(log: seq<Event>, e: Event, a: string, s: string)
    ensures PositionIn(log + [e], a, s)
            == if e.account == a && e.symbol == s then e.positionAfter else PositionIn(log, a, s)
  {
    assert Front(log + [e]) == log;
  }

  lemma PositionAppend(trades: seq<Trade>, r: Request, a: string, s: string)
    ensures Position(trades + [Trade(r, Posted)], a, s)
         == Position(trades, a, s) + if r.account == a && r.symbol == s then SignedQty(r) else 0.0
  {
    assert Front(trades + [Trade(r, Posted)]) == trades;
  }

  lemma FaithfulAccepted(db: Db, r: Request, entryId: string, eventId: string)
    requires Faithful(db) && Insertable(db, r, entryId, EventOf(db, r, eventId))
    ensures Faithful(Accepted(db, r, entryId, eventId))
  {
    var db' := Accepted(db, r, entryId, eventId);
    var events, e := EventsOf(db.outbox), EventOf(db, r, eventId);
    OutboxAppend(db, r, entryId, eventId);
    forall a, s
      ensures PositionIn(events + [e], a, s) == Position(db'.trades, a, s)
    {
      PositionAccepted(db, r, eventId, a, s);
    }
    PaysForItself(r, Position(db.trades, r.account, r.symbol), e.positionAfter);
    ConsistentAppend(events, e);
    assert forall i :: 0 <= i < |events| ==> events[i].eventId == db.outbox[i].event.eventId;
  }

  lemma CashAccepted(maxPosition: real, db: Db, c: Command, a: string)
    requires Accepts(maxPosition, db, c)
    ensures CashSum(EventsOf(Accepted(db, c.request, c.entryId, c.eventId).outbox), a)
         == CashSum(EventsOf(db.outbox), a) + (if a == c.request.account then CashDelta(c.request) else 0.0)
  {
    var events, e := EventsOf(db.outbox), EventOf(db, c.request, c.eventId);
    OutboxAppend(db, c.request, c.entryId, c.eventId);
    assert Front(events + [e]) == events;
  }

  /** The outbox carries the ledger faithfully: the last position of each symbol is the net of
      posted trades, each event pays for its own change of position, and opening cash plus all
      cash movements is ledger cash minus admin credits, which emit no event. */
  lemma {:induction false} OutboxIsFaithful(maxPosition: real, opening: map<string, real>, cs: seq<Command>)
    ensures var db := Run(maxPosition, Empty(opening), cs);
            && Faithful(db)
            && db.accounts.Keys == opening.Keys
            && (forall a :: a in opening ==>
                  opening[a] + CashSum(EventsOf(db.outbox), a)
                  == db.accounts[a] - CreditedTo(maxPosition, Empty(opening), cs, a))
  {
    if cs != [] {
      OutboxIsFaithful(maxPosition, opening, Front(cs));
      var db, c := Run(maxPosition, Empty(opening), Front(cs)), Last(cs);
      ExecCases(maxPosition, db, c);
      var db' := Exec(maxPosition, db, c);
      if Accepts(maxPosition, db, c) && db' == Accepted(db, c.request, c.entryId, c.eventId) {
        FaithfulAccepted(db, c.request, c.entryId, c.eventId);
        forall a {
          CashAccepted(maxPosition, db, c, a);
        }
      } else if db' != db && !Credits(db, c) {
        assert Front(db'.trades) == db.trades;
      }
    }
  }
}
