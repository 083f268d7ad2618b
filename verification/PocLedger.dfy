// The first proof of concept's ledger and relay (poc/outbox-idempotency/ledger.py, relay.py):
// a trade and its outbox row commit together or not at all, whichever point the process
// dies at, and a retried request posts once. Quantities and prices are unchecked here.

module PocLedger {
  import opened Basics
  import opened Events
  import opened Outbox
  import P = Pipeline
  import N = NativeStore
  import L = Ledger
  import R = LedgerRuns
  import B = StreamBus

  datatype CrashPoint = NoCrash | BeforeCommit | AfterCommit

  datatype JournalEntry = JournalEntry(entryId: string, sourceEventId: string)
  datatype Audit = Audit(sourceEventId: string, accepted: bool)
  datatype Reply = Posted(entryId: string) | Replayed(entryId: string) | NegativeCash | Crashed | NoSuchAccount

  datatype Db = Db(
    cash: map<string, real>,
    entries: seq<JournalEntry>,
    lines: seq<L.Line>,
    positions: map<(string, string), real>,
    audits: seq<Audit>,
    outbox: seq<P.Row>)

  function FindEntry(entries: seq<JournalEntry>, sourceEventId: string): Option<string> {
    if entries == [] then None
    else if entries[0].sourceEventId == sourceEventId then Some(entries[0].entryId)
    else FindEntry(entries[1..], sourceEventId)
  }

  function PositionOf(db: Db, account: string, symbol: string): real {
    if (account, symbol) in db.positions then db.positions[(account, symbol)] else 0.0
  }

  function EventOf(db: Db, r: L.Request, eventId: string): Event {
    Event(eventId, r.account, r.symbol, Some(r.price), L.CashDelta(r),
          PositionOf(db, r.account, r.symbol) + L.SignedQty(r))
  }

  // Mirrored lines of the absolute amount.
  function Mirrored(r: L.Request, entryId: string): seq<L.Line> {
    var amount := L.Abs(L.CashDelta(r));
    if r.side == L.Buy
    then [L.Line(entryId, L.SECURITIES, amount, 0.0), L.Line(entryId, r.account, 0.0, amount)]
    else [L.Line(entryId, r.account, amount, 0.0), L.Line(entryId, L.SECURITIES, 0.0, amount)]
  }

  function Accepted(db: Db, r: L.Request, entryId: string, eventId: string): Db
    requires r.account in db.cash
  {
    var e := EventOf(db, r, eventId);
    Db(db.cash[r.account := db.cash[r.account] + e.cashDelta],
       db.entries + [JournalEntry(entryId, r.requestId)],
       db.lines + Mirrored(r, entryId),
       db.positions[(r.account, r.symbol) := e.positionAfter],
       db.audits + [Audit(r.requestId, true)],
       db.outbox + [P.Row(e, false)])
  }

  function Refused(db: Db, r: L.Request): Db {
    db.(audits := db.audits + [Audit(r.requestId, false)])
  }

  function Post(db: Db, r: L.Request, entryId: string, eventId: string): (Db, Reply) {
    match FindEntry(db.entries, r.requestId)
    case Some(earlier) => (db, Replayed(earlier))
    case None =>
      if r.account !in db.cash then (db, NoSuchAccount)
      else if db.cash[r.account] + L.CashDelta(r) < 0.0 then (Refused(db, r), NegativeCash)
      else (Accepted(db, r, entryId, eventId), Posted(entryId))
  }

  // The crash points lie on the accepting path only.
  function Attempt(db: Db, r: L.Request, entryId: string, eventId: string, crash: CrashPoint): (Db, Reply) {
    var (db', reply) := Post(db, r, entryId, eventId);
    if !reply.Posted? || crash == NoCrash then (db', reply)
    else (if crash == BeforeCommit then db else db', Crashed)
  }

  class Ledger {
    var cash: map<string, real>
    var entries: seq<JournalEntry>
    var lines: seq<L.Line>
    var positions: map<(string, string), real>
    var audits: seq<Audit>
    var outbox: seq<P.Row>

    constructor (opening: map<string, real>)
      ensures AsDb() == Empty(opening)
    {
      cash, entries, lines, positions, audits, outbox := opening, [], [], map[], [], [];
    }

    function AsDb(): Db
      reads this
    {
      Db(cash, entries, lines, positions, audits, outbox)
    }

    method Rollback(saved: Db)
      modifies this
      ensures AsDb() == saved
    {
      cash, entries, lines := saved.cash, saved.entries, saved.lines;
      positions, audits, outbox := saved.positions, saved.audits, saved.outbox;
    }

    method PostTrade(r: L.Request, entryId: string, eventId: string, crash: CrashPoint) returns (reply: Reply)
      modifies this
      ensures (AsDb(), reply) == Attempt(old(AsDb()), r, entryId, eventId, crash)
    {
      var existing := FindEntry(entries, r.requestId);
      if existing.Some? {
        return Replayed(existing.value);
      }
      if r.account !in cash {
        return NoSuchAccount;
      }
      var cashDelta := if r.side == L.Buy then -(r.price * r.quantity) else r.price * r.quantity;
      assert cashDelta == L.CashDelta(r);
      hide L.CashDelta, L.SignedQty;
      if cash[r.account] + cashDelta < 0.0 {
        audits := audits + [Audit(r.requestId, false)];
        return NegativeCash;
      }
      var saved := AsDb();
      entries := entries + [JournalEntry(entryId, r.requestId)];
      var amount := L.Abs(cashDelta);
      var debited, credited := r.account, L.SECURITIES;
      if r.side == L.Buy {
        debited, credited := credited, debited;
      }
      var mirrored := [L.Line(entryId, debited, amount, 0.0), L.Line(entryId, credited, 0.0, amount)];
      assert mirrored == Mirrored(r, entryId);
      lines := lines + mirrored;
      cash := cash[r.account := cash[r.account] + cashDelta];
      var key, quantity := (r.account, r.symbol), L.SignedQty(r);
      positions := positions[key := if key in positions then positions[key] + quantity else quantity];
      audits := audits + [Audit(r.requestId, true)];
      var event := Event(eventId, r.account, r.symbol, Some(r.price), cashDelta, positions[key]);
      outbox := outbox + [P.Row(event, false)];
      assert event == EventOf(saved, r, eventId) && AsDb() == Accepted(saved, r, entryId, eventId);
      if crash == BeforeCommit {
        Rollback(saved);
        return Crashed;
      }
      if crash == AfterCommit {
        return Crashed;
      }
      return Posted(entryId);
    }

    method MarkSent(id: string)
      modifies this`outbox
      ensures outbox == N.Marked(old(outbox), id)
    {
      outbox := N.Marked(outbox, id);
    }

    // Drain the outbox; an injected duplicate publishes each row twice.
    method RelayOutbox(bus: B.Bus<Event>, stream: string, injectDup: bool) returns (published: nat)
      requires bus.Valid() && DistinctIds(P.EventsOf(outbox))
      modifies this`outbox, bus
      ensures bus.Valid() && bus.groups == old(bus.groups)
      ensures var unsent := P.Unsent(old(outbox));
              && published == |unsent| && InRange(unsent, old(outbox))
              && B.Payloads(bus.Stream(stream))
                 == B.Payloads(old(bus.Stream(stream))) + Repeated(Picked(old(outbox), unsent), injectDup)
              && MarkedRows(old(outbox), outbox, unsent)
      ensures forall s :: s != stream ==> bus.Stream(s) == old(bus.Stream(s))
    {
      hide MarkedRows, P.Unsent, Repeated, Picked, B.Payloads;
      var unsent := P.Unsent(outbox);
      ghost var rows := outbox;
      ghost var before := bus.Stream(stream);
      UnsentRows(rows);
      NothingPublished(rows, B.Payloads(before), injectDup);
      published := 0;
      for i := 0 to |unsent|
        invariant published == i && bus.Valid() && bus.groups == old(bus.groups)
        invariant B.Payloads(bus.Stream(stream)) == B.Payloads(before) + Repeated(Picked(rows, unsent[..i]), injectDup)
        invariant MarkedRows(rows, outbox, unsent[..i])
        invariant forall s :: s != stream ==> bus.Stream(s) == old(bus.Stream(s))
      {
        RepeatedNext(rows, unsent, i, B.Payloads(before), injectDup);
        PublishThenMark(bus, stream, injectDup, rows, unsent, i);
        published := published + 1;
      }
      assert unsent[..|unsent|] == unsent;
    }

    method PublishThenMark(bus: B.Bus<Event>, stream: string, injectDup: bool, ghost rows: seq<P.Row>,
                           unsent: seq<nat>, i: nat)
      requires bus.Valid() && DistinctIds(P.EventsOf(rows))
      requires i < |unsent| && InRange(unsent, rows) && MarkedRows(rows, outbox, unsent[..i])
      modifies this`outbox, bus
      ensures bus.Valid() && bus.groups == old(bus.groups)
      ensures B.Payloads(bus.Stream(stream))
              == B.Payloads(old(bus.Stream(stream))) + Copies(rows[unsent[i]].event, injectDup)
      ensures MarkedRows(rows, outbox, unsent[..i + 1])
      ensures forall s :: s != stream ==> bus.Stream(s) == old(bus.Stream(s))
    {
      var event := outbox[unsent[i]].event;
      var _ := bus.XAdd(stream, event);
      if injectDup {
        var _ := bus.XAdd(stream, event);
      }
      MarkNext(rows, outbox, unsent, i);
      MarkSent(event.eventId);
    }
  }

  /** When each answer is given and exactly what a posted trade writes, of either side. */
  lemma PostOutcome(db: Db, r: L.Request, entryId: string, eventId: string)
    ensures var (db', reply) := Post(db, r, entryId, eventId);
            var moved := if r.side == L.Buy then -(r.price * r.quantity) else r.price * r.quantity;
            var quantity := if r.side == L.Buy then r.quantity else -r.quantity;
            var amount := if moved < 0.0 then -moved else moved;
            var seen := exists i :: 0 <= i < |db.entries| && db.entries[i].sourceEventId == r.requestId;
            && (reply.Replayed? <==> seen)
            && (reply == NoSuchAccount <==> !seen && r.account !in db.cash)
            && (reply == NegativeCash <==> !seen && r.account in db.cash && db.cash[r.account] + moved < 0.0)
            && (reply == NegativeCash ==> db' == db.(audits := db.audits + [Audit(r.requestId, false)]))
            && (reply.Replayed? || reply == NoSuchAccount ==> db' == db)
            && (reply == Posted(entryId) <==> !seen && r.account in db.cash && db.cash[r.account] + moved >= 0.0)
            && (reply.Posted? ==>
                  && db'.cash == db.cash[r.account := db.cash[r.account] + moved]
                  && db'.positions
                     == db.positions[(r.account, r.symbol) := PositionOf(db, r.account, r.symbol) + quantity]
                  && db'.entries == db.entries + [JournalEntry(entryId, r.requestId)]
                  && db'.lines == db.lines
                     + (if r.side == L.Buy
                        then [L.Line(entryId, "securities", amount, 0.0), L.Line(entryId, r.account, 0.0, amount)]
                        else [L.Line(entryId, r.account, amount, 0.0), L.Line(entryId, "securities", 0.0, amount)])
                  && db'.audits == db.audits + [Audit(r.requestId, true)]
                  && db'.outbox == db.outbox
                     + [P.Row(Event(eventId, r.account, r.symbol, Some(r.price), moved,
                                    PositionOf(db, r.account, r.symbol) + quantity), false)])
  {
    SeenIff(db.entries, r.requestId);
    assert L.CashDelta(r) == if r.side == L.Buy then -(r.price * r.quantity) else r.price * r.quantity;
    assert L.SignedQty(r) == if r.side == L.Buy then r.quantity else -r.quantity;
    hide L.CashDelta, L.SignedQty, FindEntry;
  }

  lemma {:induction false} SeenIff(entries: seq<JournalEntry>, id: string)
    ensures FindEntry(entries, id).Some? <==> exists i :: 0 <= i < |entries| && entries[i].sourceEventId == id
  {
    if entries != [] {
      SeenIff(entries[1..], id);
      assert forall i :: 1 <= i < |entries| ==> entries[i] == entries[1..][i - 1];
    }
  }

  // --- one transaction, many attempts ------------------------------------

  datatype Try = Try(entryId: string, eventId: string, crash: CrashPoint)

  function Retry(db: Db, r: L.Request, tries: seq<Try>): Db {
    if tries == [] then db
    else
      var t := Last(tries);
      Attempt(Retry(db, r, Front(tries)), r, t.entryId, t.eventId, t.crash).0
  }

  // The first attempt that lives to commit.
  function FirstCommit(tries: seq<Try>): Option<Try> {
    if tries == [] then None
    else if FirstCommit(Front(tries)).Some? then FirstCommit(Front(tries))
    else if Last(tries).crash != BeforeCommit then Some(Last(tries))
    else None
  }

  lemma {:induction false} EntryFound(entries: seq<JournalEntry>, e: JournalEntry)
    requires FindEntry(entries, e.sourceEventId) == None
    ensures FindEntry(entries + [e], e.sourceEventId) == Some(e.entryId)
  {
    if entries != [] {
      assert (entries + [e])[1..] == entries[1..] + [e];
      EntryFound(entries[1..], e);
    }
  }

  /** However often a request is retried and wherever each attempt dies, it posts once, as the
      first attempt that committed; until then nothing at all is left behind. A refused one
      leaves one audit for every attempt, and nothing else. */
  lemma {:induction false} RetriesPostOnce(db: Db, r: L.Request, tries: seq<Try>)
    requires FindEntry(db.entries, r.requestId) == None && r.account in db.cash
    ensures Retry(db, r, tries)
         == if db.cash[r.account] + L.CashDelta(r) < 0.0
            then db.(audits := db.audits + seq(|tries|, _ => Audit(r.requestId, false)))
            else match FirstCommit(tries)
                 case None => db
                 case Some(t) => Accepted(db, r, t.entryId, t.eventId)
  {
    if tries != [] {
      hide L.CashDelta, L.SignedQty, Mirrored;
      RetriesPostOnce(db, r, Front(tries));
      if FirstCommit(Front(tries)).Some? {
        EntryFound(db.entries, JournalEntry(FirstCommit(Front(tries)).value.entryId, r.requestId));
      }
    }
  }

  // --- every run ----------------------------------------------------------

  datatype Command = Submit(request: L.Request, attempt: Try) | Mark(eventId: string)

  function Empty(opening: map<string, real>): Db {
    Db(opening, [], [], map[], [], [])
  }

  // Generated event ids are new.
  function Exec(db: Db, c: Command): Db {
    match c
    case Submit(r, t) =>
      if Has(P.EventsOf(db.outbox), t.eventId) then db else Attempt(db, r, t.entryId, t.eventId, t.crash).0
    case Mark(id) => db.(outbox := N.Marked(db.outbox, id))
  }

  function Run(opening: map<string, real>, cs: seq<Command>): Db {
    if cs == [] then Empty(opening) else Exec(Run(opening, Front(cs)), Last(cs))
  }

  // The journal adds up, the outbox tells the same story as the tables, no account is overdrawn.
  ghost predicate Sound(opening: map<string, real>, db: Db) {
    var events := P.EventsOf(db.outbox);
    && R.Debits(db.lines) == R.TotalCredits(db.lines)
    && |db.entries| == |events| && |db.lines| == 2 * |events|
    && DistinctIds(events) && Consistent(events)
    && (forall a, s :: PositionIn(events, a, s) == PositionOf(db, a, s))
    && db.cash.Keys == opening.Keys
    && (forall a :: a in opening ==> db.cash[a] == opening[a] + CashSum(events, a) && db.cash[a] >= 0.0)
  }

  lemma AcceptedBalances(db: Db, r: L.Request, entryId: string, eventId: string)
    requires r.account in db.cash && R.Debits(db.lines) == R.TotalCredits(db.lines)
    ensures var db' := Accepted(db, r, entryId, eventId); R.Debits(db'.lines) == R.TotalCredits(db'.lines)
  {
    var lines := Mirrored(r, entryId);
    R.PairSums(db.lines, lines[0], lines[1], r.account);
    assert lines == [lines[0], lines[1]];
  }

  lemma AcceptedFollows(events: seq<Event>, db: Db, r: L.Request, eventId: string)
    requires DistinctIds(events) && Consistent(events) && !Has(events, eventId)
    requires PositionIn(events, r.account, r.symbol) == PositionOf(db, r.account, r.symbol)
    ensures var events' := events + [EventOf(db, r, eventId)]; DistinctIds(events') && Consistent(events')
  {
    hide L.CashDelta, L.SignedQty;
    R.PaysForItself(r, PositionOf(db, r.account, r.symbol), PositionOf(db, r.account, r.symbol) + L.SignedQty(r));
    ConsistentAppend(events, EventOf(db, r, eventId));
    assert forall i :: 0 <= i < |events| ==> events[i].eventId != eventId;
  }

  lemma AcceptedSound(opening: map<string, real>, db: Db, r: L.Request, entryId: string, eventId: string)
    requires Sound(opening, db) && r.account in db.cash && !Has(P.EventsOf(db.outbox), eventId)
    requires db.cash[r.account] + L.CashDelta(r) >= 0.0
    ensures Sound(opening, Accepted(db, r, entryId, eventId))
  {
    hide L.CashDelta, L.SignedQty, Consistent, DistinctIds, R.Debits, R.TotalCredits, Has;
    var db', events, e := Accepted(db, r, entryId, eventId), P.EventsOf(db.outbox), EventOf(db, r, eventId);
    assert P.EventsOf(db'.outbox) == events + [e];
    AcceptedBalances(db, r, entryId, eventId);
    AcceptedFollows(events, db, r, eventId);
    hide EventOf, PositionIn, CashSum;
    forall a
      ensures CashSum(events + [e], a) == CashSum(events, a) + if e.account == a then e.cashDelta else 0.0
    {
      CashSumNext(events, e, a);
    }
    forall a, s
      ensures PositionIn(events + [e], a, s) == PositionOf(db', a, s)
    {
      R.PositionInAppend(events, e, a, s);
      EventFacts(db, r, eventId);
    }
    EventFacts(db, r, eventId);
  }

  lemma EventFacts(db: Db, r: L.Request, eventId: string)
    ensures var e := EventOf(db, r, eventId);
            e.account == r.account && e.symbol == r.symbol && e.cashDelta == L.CashDelta(r)
  {
  }

  lemma CashSumNext(events: seq<Event>, e: Event, a: string)
    ensures CashSum(events + [e], a) == CashSum(events, a) + if e.account == a then e.cashDelta else 0.0
  {
    assert Front(events + [e]) == events;
  }

  /** Over every run of attempts, crashes, retries and marking, whatever quantities and prices
      are submitted. */
  lemma {:induction false} RunsAreSound(opening: map<string, real>, cs: seq<Command>)
    requires L.Solvent(opening)
    ensures Sound(opening, Run(opening, cs))
  {
    if cs != [] {
      hide Sound, Exec;
      RunsAreSound(opening, Front(cs));
      ExecSound(opening, Run(opening, Front(cs)), Last(cs));
    } else {
      assert P.EventsOf([]) == [];
    }
  }

  lemma ExecSound(opening: map<string, real>, db: Db, c: Command)
    requires Sound(opening, db)
    ensures Sound(opening, Exec(db, c))
  {
    hide Has, Consistent, DistinctIds, PositionIn, CashSum, Accepted, FindEntry, L.CashDelta, R.Debits, R.TotalCredits;
    match c
    case Submit(r, t) =>
      if !Has(P.EventsOf(db.outbox), t.eventId) && r.account in db.cash && db.cash[r.account] + L.CashDelta(r) >= 0.0 {
        AcceptedSound(opening, db, r, t.entryId, t.eventId);
      }
    case Mark(id) =>
      assert P.EventsOf(N.Marked(db.outbox, id)) == P.EventsOf(db.outbox);
  }

  ghost predicate CashFromJournal(opening: map<string, real>, db: Db) {
    && db.cash.Keys == opening.Keys
    && forall a :: a in opening ==> db.cash[a] == opening[a] + R.Net(db.lines, a)
  }

  /** But the journal determines cash only while amounts are not negative: the lines carry the
      absolute amount on the side of the order, cash moves by the signed one. */
  lemma JournalDeterminesCashIff(opening: map<string, real>, db: Db, r: L.Request, entryId: string, eventId: string)
    requires CashFromJournal(opening, db) && r.account in db.cash
    ensures CashFromJournal(opening, Accepted(db, r, entryId, eventId))
       <==> L.Amount(r) == 0.0 || (L.Amount(r) > 0.0 && L.SECURITIES !in opening)
  {
    hide L.Amount, L.SignedQty;
    var db', lines := Accepted(db, r, entryId, eventId), Mirrored(r, entryId);
    assert lines == [lines[0], lines[1]];
    forall a
      ensures R.Net(db'.lines, a) == R.Net(db.lines, a) + NetOfPair(lines[0], lines[1], a)
    {
      R.PairSums(db.lines, lines[0], lines[1], a);
    }
    assert L.SECURITIES in opening ==>
        db'.cash[L.SECURITIES]
        == db.cash[L.SECURITIES] + if r.account == L.SECURITIES then L.CashDelta(r) else 0.0;
  }

  function NetOfPair(a: L.Line, b: L.Line, account: string): real {
    (if a.accountRef == account then a.debit - a.credit else 0.0)
    + (if b.accountRef == account then b.debit - b.credit else 0.0)
  }

  // The command posts a trade, and that keeps cash equal to the journal.
  predicate Posts(db: Db, c: Command) {
    c.Submit? && |Exec(db, c).entries| > |db.entries|
  }

  predicate Sane(opening: map<string, real>, db: Db, c: Command) {
    Posts(db, c) ==>
      L.Amount(c.request) == 0.0 || (L.Amount(c.request) > 0.0 && L.SECURITIES !in opening)
  }

  lemma ExecJournalIff(opening: map<string, real>, db: Db, c: Command)
    requires CashFromJournal(opening, db)
    ensures CashFromJournal(opening, Exec(db, c)) <==> Sane(opening, db, c)
  {
    hide L.Amount, L.CashDelta, FindEntry, Mirrored, EventOf;
    if Posts(db, c) {
      JournalDeterminesCashIff(opening, db, c.request, c.attempt.entryId, c.attempt.eventId);
    }
  }

  ghost function StateAt(opening: map<string, real>, cs: seq<Command>, n: nat): Db
    requires n <= |cs|
  {
    Run(opening, cs[..n])
  }

  lemma StateAtNext(opening: map<string, real>, cs: seq<Command>, n: nat)
    requires n < |cs|
    ensures StateAt(opening, cs, n + 1) == Exec(StateAt(opening, cs, n), cs[n])
  {
    assert Front(cs[..n + 1]) == cs[..n];
  }

  /** Over every run, up to any point: cash has equalled the journal in every state exactly when
      every trade that posted had such an amount. */
  lemma {:induction false} RunsJournalIff(opening: map<string, real>, cs: seq<Command>, n: nat)
    requires n <= |cs|
    ensures (forall k :: 0 <= k <= n ==> CashFromJournal(opening, StateAt(opening, cs, k)))
       <==> (forall k :: 0 <= k < n ==> Sane(opening, StateAt(opening, cs, k), cs[k]))
  {
    hide StateAt, CashFromJournal, Sane, Exec;
    if n == 0 {
      NothingPosted(opening, cs);
    } else {
      var db := StateAt(opening, cs, n - 1);
      RunsJournalIff(opening, cs, n - 1);
      StateAtNext(opening, cs, n - 1);
      if CashFromJournal(opening, db) {
        ExecJournalIff(opening, db, cs[n - 1]);
      }
    }
  }

  lemma NothingPosted(opening: map<string, real>, cs: seq<Command>)
    ensures CashFromJournal(opening, StateAt(opening, cs, 0))
  {
  }

  /** Buying a negative quantity is such an amount: cash goes up and the journal says down. */
  lemma NegativeQuantityBreaksJournal() returns (opening: map<string, real>, cs: seq<Command>)
    ensures L.Solvent(opening) && L.SECURITIES !in opening
    ensures var db := Run(opening, cs);
            db.cash == map["acct_123" := 10001.0] && !CashFromJournal(opening, db)
  {
    opening := map["acct_123" := 10000.0];
    var r := L.Request("req-1", "acct_123", "AAPL", L.Buy, -1.0, 1.0);
    cs := [Submit(r, Try("je-1", "evt-1", NoCrash))];
    assert "acct_123"[0] != L.SECURITIES[0];
    assert L.Amount(r) == -1.0 && Front(cs) == [];
    assert P.EventsOf(Empty(opening).outbox) == [] && !Has([], "evt-1");
    assert L.CashDelta(r) == 1.0 && Run(opening, Front(cs)) == Empty(opening);
    assert Post(Empty(opening), r, "je-1", "evt-1") == (Accepted(Empty(opening), r, "je-1", "evt-1"), Posted("je-1"));
    var db := Run(opening, cs);
    assert db == Accepted(Empty(opening), r, "je-1", "evt-1");
    assert db.cash == map["acct_123" := 10001.0];
    JournalDeterminesCashIff(opening, Empty(opening), r, "je-1", "evt-1");
  }

  // --- injected duplicates -------------------------------------------------

  function Copies(e: Event, twice: bool): seq<Event> {
    if twice then [e, e] else [e]
  }

  function Repeated(es: seq<Event>, twice: bool): seq<Event> {
    if es == [] then [] else Repeated(Front(es), twice) + Copies(Last(es), twice)
  }

  lemma NothingPublished(rows: seq<P.Row>, stream: seq<Event>, twice: bool)
    ensures MarkedRows(rows, rows, [])
    ensures stream + Repeated(Picked(rows, []), twice) == stream
  {
    assert Picked(rows, []) == [];
  }

  lemma RepeatedNext(rows: seq<P.Row>, unsent: seq<nat>, i: nat, stream: seq<Event>, twice: bool)
    requires i < |unsent| && InRange(unsent, rows)
    ensures stream + Repeated(Picked(rows, unsent[..i + 1]), twice)
         == stream + Repeated(Picked(rows, unsent[..i]), twice) + Copies(rows[unsent[i]].event, twice)
  {
    var picked, e := Picked(rows, unsent[..i]), rows[unsent[i]].event;
    assert Picked(rows, unsent[..i + 1]) == picked + [e] && Front(picked + [e]) == picked;
  }

  lemma SameNext(a: seq<Event>, b: seq<Event>, e: Event)
    requires FirstOccurrences(a) == FirstOccurrences(b)
    ensures FirstOccurrences(a + [e]) == FirstOccurrences(b + [e])
  {
    assert Front(a + [e]) == a && Front(b + [e]) == b;
    FirstOccurrencesFacts(a);
    FirstOccurrencesFacts(b);
    assert Has(a, e.eventId) <==> Has(b, e.eventId);
  }

  lemma RepeatUnseen(a: seq<Event>, e: Event)
    ensures FirstOccurrences(a + [e] + [e]) == FirstOccurrences(a + [e])
  {
    assert Front(a + [e] + [e]) == a + [e];
    HasAppend(a, e, e.eventId);
  }

  /** A relay that publishes every row twice gives a consumer the same first occurrences. */
  lemma {:induction false} DuplicatesAreInvisible(stream: seq<Event>, es: seq<Event>)
    ensures FirstOccurrences(stream + Repeated(es, true)) == FirstOccurrences(stream + es)
  {
    if es != [] {
      hide FirstOccurrences;
      var once, twice, e := stream + Front(es), stream + Repeated(Front(es), true), Last(es);
      DuplicatesAreInvisible(stream, Front(es));
      assert stream + es == once + [e] && stream + Repeated(es, true) == twice + [e] + [e];
      SameNext(twice, once, e);
      RepeatUnseen(twice, e);
    }
  }
}
