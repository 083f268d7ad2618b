// The ledger system of record (ledger/LedgerService.java, ledger/LedgerRepository.java,
// domain/ComplianceRules.java and the SQL constraints of db/migration).
// A post or a credit is one transaction: all of its rows, or none.

module Ledger {
  import opened Basics
  import opened Events

  const SECURITIES := "securities"
  const FUNDING := "funding"

  datatype Side = Buy | Sell
  datatype Request = Request(requestId: string, account: string, symbol: string, side: Side, quantity: real,
                             price: real)
  datatype Reason = NegativeCash | MaxPositionExceeded
  datatype Status = Posted | Rejected(reason: Reason)

  datatype Trade = Trade(request: Request, status: Status)
  datatype JournalEntry = JournalEntry(entryId: string, sourceEventId: string, account: string)
  datatype Line = Line(entryId: string, accountRef: string, debit: real, credit: real)
  datatype AuditAction = PostTrade | AdminCredit
  datatype Audit = Audit(account: string, sourceEventId: string, action: AuditAction, accepted: bool)
  datatype OutboxRow = OutboxRow(event: Event, entryId: string, sourceEventId: string)

  datatype Db = Db(
    accounts: map<string, real>,
    trades: seq<Trade>,
    entries: seq<JournalEntry>,
    lines: seq<Line>,
    audits: seq<Audit>,
    outbox: seq<OutboxRow>)

  datatype TradeResult = TradeResult(request: Request, entryId: Option<string>, status: Status)
  datatype Outcome = Outcome(result: TradeResult, created: bool)
  datatype Error = UnknownAccount | BadAmount | ConstraintViolation

  // --- queries ---------------------------------------------------------

  function FindTrade(trades: seq<Trade>, requestId: string): Option<Trade> {
    if trades == [] then None
    else if trades[0].request.requestId == requestId then Some(trades[0])
    else FindTrade(trades[1..], requestId)
  }

  function FindEntry(entries: seq<JournalEntry>, sourceEventId: string): Option<string> {
    if entries == [] then None
    else if entries[0].sourceEventId == sourceEventId then Some(entries[0].entryId)
    else FindEntry(entries[1..], sourceEventId)
  }

  function SignedQty(r: Request): real {
    if r.side == Buy then r.quantity else -r.quantity
  }

  function Amount(r: Request): real {
    r.price * r.quantity
  }

  function CashDelta(r: Request): real {
    if r.side == Buy then -Amount(r) else Amount(r)
  }

  // Net quantity over posted trades.
  function Position(trades: seq<Trade>, account: string, symbol: string): real {
    if trades == [] then 0.0
    else Position(Front(trades), account, symbol)
         + (var t := Last(trades);
            if t.status == Posted && t.request.account == account && t.request.symbol == symbol
            then SignedQty(t.request) else 0.0)
  }

  // findTradeByRequestId: the trade, left-joined with the journal entry of that source id.
  function Lookup(db: Db, requestId: string): Option<TradeResult> {
    match FindTrade(db.trades, requestId)
    case None => None
    case Some(t) => Some(TradeResult(t.request, FindEntry(db.entries, requestId), t.status))
  }

  function Abs(x: real): real {
    if x < 0.0 then -x else x
  }

  function FirstViolation(maxPosition: real, cashAfter: real, positionAfter: real): (v: Option<Reason>)
    ensures v == None <==> cashAfter >= 0.0 && -maxPosition <= positionAfter <= maxPosition
    ensures v == Some(NegativeCash) <==> cashAfter < 0.0
  {
    if cashAfter < 0.0 then Some(NegativeCash)
    else if Abs(positionAfter) > maxPosition then Some(MaxPositionExceeded)
    else None
  }

  // --- constraints -----------------------------------------------------

  predicate TradeOk(db: Db, t: Trade) {
    && FindTrade(db.trades, t.request.requestId) == None
    && t.request.account in db.accounts
    && t.request.quantity > 0.0 && t.request.price > 0.0
  }

  predicate EntryOk(db: Db, e: JournalEntry) {
    && e.account in db.accounts
    && forall i :: 0 <= i < |db.entries| ==>
         db.entries[i].entryId != e.entryId && db.entries[i].sourceEventId != e.sourceEventId
  }

  predicate LineOk(l: Line) {
    (l.debit > 0.0 && l.credit == 0.0) || (l.credit > 0.0 && l.debit == 0.0)
  }

  predicate OutboxOk(db: Db, row: OutboxRow) {
    forall i :: 0 <= i < |db.outbox| ==> db.outbox[i].event.eventId != row.event.eventId
  }

  // The constraints an accepted trade has to meet besides the one on cash.
  predicate Insertable(db: Db, r: Request, entryId: string, event: Event) {
    && TradeOk(db, Trade(r, Posted))
    && EntryOk(db, JournalEntry(entryId, r.requestId, r.account))
    && OutboxOk(db, OutboxRow(event, entryId, r.requestId))
  }

  // --- the transactions as functions on the tables ----------------------

  function Mirrored(r: Request, entryId: string): seq<Line> {
    if r.side == Buy
    then [Line(entryId, SECURITIES, Amount(r), 0.0), Line(entryId, r.account, 0.0, Amount(r))]
    else [Line(entryId, r.account, Amount(r), 0.0), Line(entryId, SECURITIES, 0.0, Amount(r))]
  }

  function EventOf(db: Db, r: Request, eventId: string): Event {
    Event(eventId, r.account, r.symbol, Some(r.price), CashDelta(r),
          Position(db.trades, r.account, r.symbol) + SignedQty(r))
  }

  // The rows of an accepted trade, with the event as the transaction computed it.
  function AcceptedAs(db: Db, r: Request, entryId: string, event: Event): Db
    requires r.account in db.accounts
  {
    Db(db.accounts[r.account := db.accounts[r.account] + CashDelta(r)],
       db.trades + [Trade(r, Posted)],
       db.entries + [JournalEntry(entryId, r.requestId, r.account)],
       db.lines + Mirrored(r, entryId),
       db.audits + [Audit(r.account, r.requestId, PostTrade, true)],
       db.outbox + [OutboxRow(event, entryId, r.requestId)])
  }

  function Accepted(db: Db, r: Request, entryId: string, eventId: string): Db
    requires r.account in db.accounts
  {
    AcceptedAs(db, r, entryId, EventOf(db, r, eventId))
  }

  function Refused(db: Db, r: Request, reason: Reason): Db {
    db.(trades := db.trades + [Trade(r, Rejected(reason))],
        audits := db.audits + [Audit(r.account, r.requestId, PostTrade, false)])
  }

  // `entryId` and `eventId` are the identifiers the transaction generates.
  function Post(maxPosition: real, db: Db, r: Request, entryId: string, eventId: string): (Db, Result<Outcome, Error>) {
    var existing := Lookup(db, r.requestId);
    if existing.Some? then (db, Ok(Outcome(existing.value, false)))
    else if r.account !in db.accounts then (db, Err(UnknownAccount))
    else
      var positionAfter := Position(db.trades, r.account, r.symbol) + SignedQty(r);
      match FirstViolation(maxPosition, db.accounts[r.account] + CashDelta(r), positionAfter)
      case Some(reason) =>
        if !TradeOk(db, Trade(r, Rejected(reason))) then (db, Err(ConstraintViolation))
        else (Refused(db, r, reason), Ok(Outcome(TradeResult(r, None, Rejected(reason)), true)))
      case None =>
        if Insertable(db, r, entryId, EventOf(db, r, eventId))
        then (Accepted(db, r, entryId, eventId), Ok(Outcome(TradeResult(r, Some(entryId), Posted), true)))
        else (db, Err(ConstraintViolation))
  }

  function Credited(db: Db, account: string, amount: real, entryId: string, sourceEventId: string): Db
    requires account in db.accounts
  {
    db.(accounts := db.accounts[account := db.accounts[account] + amount],
        entries := db.entries + [JournalEntry(entryId, sourceEventId, account)],
        lines := db.lines + [Line(entryId, account, amount, 0.0), Line(entryId, FUNDING, 0.0, amount)],
        audits := db.audits + [Audit(account, sourceEventId, AdminCredit, true)])
  }

  function Credit(db: Db, account: string, amount: real, entryId: string, sourceEventId: string)
    : (Db, Result<real, Error>)
  {
    if amount <= 0.0 then (db, Err(BadAmount))
    else if account !in db.accounts then (db, Err(UnknownAccount))
    else if !EntryOk(db, JournalEntry(entryId, sourceEventId, account)) then (db, Err(ConstraintViolation))
    else (Credited(db, account, amount, entryId, sourceEventId), Ok(db.accounts[account] + amount))
  }

  lemma PositiveAmount(r: Request)
    requires r.quantity > 0.0 && r.price > 0.0
    ensures Amount(r) > 0.0
  {
  }

  ghost predicate Solvent(accounts: map<string, real>) {
    forall a :: a in accounts ==> accounts[a] >= 0.0
  }

  class LedgerService {
    const maxPosition: real
    var accounts: map<string, real>
    var trades: seq<Trade>
    var entries: seq<JournalEntry>
    var lines: seq<Line>
    var audits: seq<Audit>
    var outbox: seq<OutboxRow>

    constructor (maxPosition: real, opening: map<string, real>)
      ensures this.maxPosition == maxPosition && AsDb() == Db(opening, [], [], [], [], [])
    {
      this.maxPosition, accounts := maxPosition, opening;
      trades, entries, lines, audits, outbox := [], [], [], [], [];
    }

    function AsDb(): Db
      reads this
    {
      Db(accounts, trades, entries, lines, audits, outbox)
    }

    // Each insert reports whether the table's constraints let the row in.

    method InsertTrade(t: Trade) returns (ok: bool)
      modifies this`trades
      ensures ok <==> TradeOk(old(AsDb()), t)
      ensures trades == if ok then old(trades) + [t] else old(trades)
    {
      ok := TradeOk(AsDb(), t);
      if ok {
        trades := trades + [t];
      }
    }

    method InsertJournalEntry(e: JournalEntry) returns (ok: bool)
      modifies this`entries
      ensures ok <==> EntryOk(old(AsDb()), e)
      ensures entries == if ok then old(entries) + [e] else old(entries)
    {
      ok := EntryOk(AsDb(), e);
      if ok {
        entries := entries + [e];
      }
    }

    method InsertJournalLine(l: Line) returns (ok: bool)
      modifies this`lines
      ensures ok <==> LineOk(l)
      ensures lines == if ok then old(lines) + [l] else old(lines)
    {
      ok := LineOk(l);
      if ok {
        lines := lines + [l];
      }
    }

    // An update in place, under CHECK (cash_balance >= 0).
    method UpdateCash(account: string, delta: real) returns (ok: bool)
      modifies this`accounts
      ensures ok <==> account !in old(accounts) || old(accounts)[account] + delta >= 0.0
      ensures accounts == if ok && account in old(accounts)
                          then old(accounts)[account := old(accounts)[account] + delta] else old(accounts)
    {
      ok := account !in accounts || accounts[account] + delta >= 0.0;
      if ok && account in accounts {
        accounts := accounts[account := accounts[account] + delta];
      }
    }

    method InsertAudit(a: Audit)
      modifies this`audits
      ensures audits == old(audits) + [a]
    {
      audits := audits + [a];
    }

    method InsertOutbox(row: OutboxRow) returns (ok: bool)
      modifies this`outbox
      ensures ok <==> OutboxOk(old(AsDb()), row)
      ensures outbox == if ok then old(outbox) + [row] else old(outbox)
    {
      ok := OutboxOk(AsDb(), row);
      if ok {
        outbox := outbox + [row];
      }
    }

    method Rollback(saved: Db)
      modifies this
      ensures AsDb() == saved
    {
      accounts, trades, entries := saved.accounts, saved.trades, saved.entries;
      lines, audits, outbox := saved.lines, saved.audits, saved.outbox;
    }

    method PostTrade(r: Request, entryId: string, eventId: string) returns (outcome: Result<Outcome, Error>)
      requires Solvent(accounts)
      modifies this
      ensures (AsDb(), outcome) == Post(maxPosition, old(AsDb()), r, entryId, eventId)
    {
      var saved := AsDb();
      var existing := Lookup(saved, r.requestId);
      if existing.Some? {
        return Ok(Outcome(existing.value, false));
      }
      if r.account !in accounts {
        return Err(UnknownAccount);
      }
      var cash := accounts[r.account];
      var amount := r.price * r.quantity;
      var cashDelta := if r.side == Buy then -amount else amount;
      var positionAfter := Position(trades, r.account, r.symbol) + SignedQty(r);

      var violation := FirstViolation(maxPosition, cash + cashDelta, positionAfter);
      if violation.Some? {
        var ok := InsertTrade(Trade(r, Rejected(violation.value)));
        if !ok {
          Rollback(saved);
          return Err(ConstraintViolation);
        }
        InsertAudit(Audit(r.account, r.requestId, AuditAction.PostTrade, false));
        return Ok(Outcome(TradeResult(r, None, Rejected(violation.value)), true));
      }

      var ok := WriteAccepted(r, entryId, eventId, amount, cashDelta, positionAfter);
      if !ok {
        Rollback(saved);
        return Err(ConstraintViolation);
      }
      return Ok(Outcome(TradeResult(r, Some(entryId), Posted), true));
    }

    // An entry with its mirrored lines.
    method WriteJournal(e: JournalEntry, debited: string, credited: string, amount: real) returns (ok: bool)
      requires amount > 0.0
      modifies this`entries, this`lines
      ensures ok <==> EntryOk(old(AsDb()), e)
      ensures ok ==> entries == old(entries) + [e]
      ensures ok ==>
                lines == old(lines) + [Line(e.entryId, debited, amount, 0.0), Line(e.entryId, credited, 0.0, amount)]
      ensures !ok ==> entries == old(entries) && lines == old(lines)
    {
      ok := InsertJournalEntry(e);
      if ok {
        ok := InsertJournalLine(Line(e.entryId, debited, amount, 0.0));
        ok := InsertJournalLine(Line(e.entryId, credited, 0.0, amount));
      }
    }

    // Trade, entry, two lines, cash, audit, outbox: the first violated constraint stops it.
    method WriteAccepted(r: Request, entryId: string, eventId: string, amount: real, cashDelta: real,
                         positionAfter: real)
      returns (ok: bool)
      requires r.account in accounts && accounts[r.account] + cashDelta >= 0.0
      requires amount == Amount(r) && cashDelta == CashDelta(r)
      requires positionAfter == Position(trades, r.account, r.symbol) + SignedQty(r)
      modifies this
      ensures ok <==> Insertable(old(AsDb()), r, entryId, EventOf(old(AsDb()), r, eventId))
      ensures ok ==> AsDb() == Accepted(old(AsDb()), r, entryId, eventId)
    {
      hide Position, SignedQty, FindTrade, CashDelta;
      ok := InsertTrade(Trade(r, Posted));
      if !ok {
        return;
      }
      PositiveAmount(r);
      ok := WriteJournal(JournalEntry(entryId, r.requestId, r.account),
                         if r.side == Buy then SECURITIES else r.account,
                         if r.side == Buy then r.account else SECURITIES, amount);
      if !ok {
        return;
      }
      ok := UpdateCash(r.account, cashDelta);
      InsertAudit(Audit(r.account, r.requestId, AuditAction.PostTrade, true));
      var event := Event(eventId, r.account, r.symbol, Some(r.price), cashDelta, positionAfter);
      ok := InsertOutbox(OutboxRow(event, entryId, r.requestId));
    }

    method CreditAccount(account: string, amount: real, entryId: string, sourceEventId: string)
      returns (balance: Result<real, Error>)
      requires Solvent(accounts)
      modifies this
      ensures (AsDb(), balance) == Credit(old(AsDb()), account, amount, entryId, sourceEventId)
    {
      if amount <= 0.0 {
        return Err(BadAmount);
      }
      if account !in accounts {
        return Err(UnknownAccount);
      }
      var cash := accounts[account];
      var ok := WriteJournal(JournalEntry(entryId, sourceEventId, account), account, FUNDING, amount);
      if !ok {
        return Err(ConstraintViolation);
      }
      ok := UpdateCash(account, amount);
      InsertAudit(Audit(account, sourceEventId, AdminCredit, true));
      return Ok(cash + amount);
    }
  }
}
