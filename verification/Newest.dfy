// What store.py:240-244 needs for each position: that the event with the largest rowid for an
// account and symbol is the newest of theirs to be applied, in the order of the outbox.
// A log can be out of order as a whole and still have this for every position.

module Newest {
  import opened Basics
  import opened Events
  import opened Groups
  import opened Pipeline
  import O = InOrder

  // b comes after a.
  ghost predicate Later(events: seq<Event>, a: Event, b: Event) {
    exists i, j :: 0 <= i < j < |events| && events[i] == a && events[j] == b
  }

  predicate SamePosition(a: Event, b: Event) {
    a.account == b.account && a.symbol == b.symbol
  }

  // For each account and symbol, no applied event is newer than the last one applied.
  ghost predicate LatestIsNewest(events: seq<Event>, log: seq<Event>) {
    forall e :: e in log ==>
      var latest := LastFor(log, e.account, e.symbol);
      latest.Some? && !Later(events, latest.value, e)
  }

  // No applied event of the same account and symbol comes later in the outbox.
  ghost predicate NothingNewer(events: seq<Event>, log: seq<Event>, e: Event) {
    forall x :: x in log && SamePosition(x, e) ==> !Later(events, e, x)
  }

  lemma NotLater(events: seq<Event>, i: nat, j: nat)
    requires DistinctIds(events) && i <= j < |events|
    ensures !Later(events, events[j], events[i])
  {
  }

  lemma NotLaterThanItself(events: seq<Event>, e: Event)
    requires DistinctIds(events)
    ensures !Later(events, e, e)
  {
  }

  lemma SameIndex(events: seq<Event>, i: nat, j: nat)
    requires DistinctIds(events) && i < |events| && j < |events| && events[i] == events[j]
    ensures i == j
  {
  }

  // The last event for an account and symbol, and where it is.
  lemma {:induction false} LastForAt(log: seq<Event>, e: Event) returns (j: nat)
    requires e in log
    ensures j < |log| && LastFor(log, e.account, e.symbol) == Some(log[j]) && SamePosition(log[j], e)
    ensures forall i :: 0 <= i < |log| && SamePosition(log[i], e) ==> i <= j
  {
    if SamePosition(Last(log), e) {
      j := |log| - 1;
    } else {
      assert log == Front(log) + [Last(log)];
      j := LastForAt(Front(log), e);
    }
  }

  lemma LastForAppend(log: seq<Event>, e: Event, account: string, symbol: string)
    ensures LastFor(log + [e], account, symbol)
         == if e.account == account && e.symbol == symbol then Some(e) else LastFor(log, account, symbol)
  {
    assert Front(log + [e]) == log;
  }

  /** Applying a new event keeps every position the newest one exactly when no applied event
      of the same account and symbol comes later in the outbox. */
  lemma AppliedNewestIff(events: seq<Event>, log: seq<Event>, e: Event)
    requires DistinctIds(events) && LatestIsNewest(events, log)
    ensures LatestIsNewest(events, log + [e]) <==> NothingNewer(events, log, e)
  {
    hide Later;
    var log' := log + [e];
    NotLaterThanItself(events, e);
    forall x | x in log
      ensures LastFor(log', x.account, x.symbol)
              == if SamePosition(x, e) then Some(e) else LastFor(log, x.account, x.symbol)
    {
      LastForAppend(log, e, x.account, x.symbol);
    }
    LastForAppend(log, e, e.account, e.symbol);
    assert forall x :: x in log' <==> x in log || x == e;
    if LatestIsNewest(events, log') {
      assert forall x :: x in log && SamePosition(x, e) ==> x in log' && !Later(events, e, x);
    }
  }

  // --- over runs ------------------------------------------------------------

  // Applying the entry in hand leaves every position the newest one.
  ghost predicate InTime(c: Config, s: State, a: Action) {
    a.Handle? && Enabled(c, s, a) ==>
      var e := EventAt(s, s.consumer.batch[0]);
      Has(s.log, e.eventId) || NothingNewer(EventsOf(s.outbox), s.log, e)
  }

  ghost predicate AllNewest(s: State) {
    LatestIsNewest(EventsOf(s.outbox), s.log)
  }

  lemma PostKeepsNewest(events: seq<Event>, log: seq<Event>, e: Event)
    requires DistinctIds(events + [e]) && forall x :: x in log ==> x in events
    ensures LatestIsNewest(events + [e], log) <==> LatestIsNewest(events, log)
  {
    forall a, b | a in events && b in events
      ensures Later(events + [e], a, b) <==> Later(events, a, b)
    {
      LaterAppend(events, e, a, b);
    }
    forall x | x in log
      ensures LastFor(log, x.account, x.symbol).Some? && LastFor(log, x.account, x.symbol).value in events
    {
      var j := LastForAt(log, x);
    }
  }

  lemma LaterAppend(events: seq<Event>, e: Event, a: Event, b: Event)
    requires DistinctIds(events + [e]) && b in events
    ensures Later(events + [e], a, b) <==> Later(events, a, b)
  {
    var events' := events + [e];
    if Later(events', a, b) {
      var i, j :| 0 <= i < j < |events'| && events'[i] == a && events'[j] == b;
      var k :| 0 <= k < |events| && events[k] == b;
      SameIndex(events', j, k);
      assert events[i] == a && events[j] == b;
    }
    if Later(events, a, b) {
      var i, j :| 0 <= i < j < |events| && events[i] == a && events[j] == b;
      assert events'[i] == a && events'[j] == b;
    }
  }

  lemma NewestStepIff(c: Config, s: State, a: Action)
    requires DistinctIds(EventsOf(s.outbox)) && DistinctIds(EventsOf(Do(c, s, a).outbox))
    requires forall e :: e in s.log ==> e in EventsOf(s.outbox)
    requires AllNewest(s)
    ensures AllNewest(Do(c, s, a)) <==> InTime(c, s, a)
  {
    hide LatestIsNewest, NothingNewer, Apply, Unsent, DistinctIds;
    var s' := Do(c, s, a);
    if !Enabled(c, s, a) {
    } else if a.Post? {
      assert EventsOf(s'.outbox) == EventsOf(s.outbox) + [a.event];
      PostKeepsNewest(EventsOf(s.outbox), s.log, a.event);
    } else if a.Handle? {
      AppliedNewestIff(EventsOf(s.outbox), s.log, EventAt(s, s.consumer.batch[0]));
    } else {
      assert EventsOf(s'.outbox) == EventsOf(s.outbox);
    }
  }

  ghost function StateAt(c: Config, actions: seq<Action>, n: nat): State
    requires n <= |actions|
  {
    Run(c, actions[..n])
  }

  lemma StepIff(c: Config, actions: seq<Action>, n: nat)
    requires n < |actions| && AllNewest(StateAt(c, actions, n))
    ensures AllNewest(StateAt(c, actions, n + 1)) <==> InTime(c, StateAt(c, actions, n), actions[n])
  {
    hide Do, RelayOk, Projects, Outstanding, AllNewest, InTime, DistinctIds;
    assert Front(actions[..n + 1]) == actions[..n];
    ExactlyOnce(c, actions[..n]);
    var sent, put := RelayStutters(c, actions[..n]);
    O.RelayFacts(StateAt(c, actions, n), sent, put);
    sent, put := RelayStutters(c, actions[..n + 1]);
    O.RelayFacts(StateAt(c, actions, n + 1), sent, put);
    NewestStepIff(c, StateAt(c, actions, n), actions[n]);
  }

  /** In any run, up to any point: every position has always come from the newest applied event
      of its account and symbol exactly when no entry was applied after a newer one of the same
      account and symbol. */
  lemma {:induction false} NewestIff(c: Config, actions: seq<Action>, n: nat)
    requires n <= |actions|
    ensures (forall k :: 0 <= k <= n ==> AllNewest(StateAt(c, actions, k)))
       <==> (forall k :: 0 <= k < n ==> InTime(c, StateAt(c, actions, k), actions[k]))
  {
    hide StateAt, AllNewest, InTime, Do, Enabled;
    if n == 0 {
      NothingApplied(c, actions);
    } else {
      NewestIff(c, actions, n - 1);
      if AllNewest(StateAt(c, actions, n - 1)) {
        StepIff(c, actions, n - 1);
      }
    }
  }

  lemma NothingApplied(c: Config, actions: seq<Action>)
    ensures AllNewest(StateAt(c, actions, 0))
  {
  }

  /** A log in outbox order has it, so the discipline of in-order application suffices. */
  lemma InOrderIsNewest(events: seq<Event>, log: seq<Event>)
    requires DistinctIds(events) && log <= events
    ensures LatestIsNewest(events, log)
  {
    forall e | e in log
      ensures LastFor(log, e.account, e.symbol).Some?
      ensures !Later(events, LastFor(log, e.account, e.symbol).value, e)
    {
      var j := LastForAt(log, e);
      var i :| 0 <= i < |log| && log[i] == e;
      NotLater(events, i, j);
    }
  }

  lemma NewestIsLast(events: seq<Event>, log: seq<Event>, e: Event)
    requires DistinctIds(events) && LatestIsNewest(events, log) && e in log && e in events
    requires forall x :: x in log <==> x in events
    ensures LastFor(log, e.account, e.symbol) == LastFor(events, e.account, e.symbol)
  {
    var j := LastForAt(log, e);
    var k := LastForAt(events, e);
    assert events[k] in log && SamePosition(events[k], log[j]);
    assert log[j] in log && log[j] in events;
    var i :| 0 <= i < |events| && events[i] == log[j];
    assert !Later(events, log[j], events[k]);
    assert i <= k;
  }

  /** Once the pipeline is quiet, this is exactly the condition for every position to come from
      the last event the outbox has for it. */
  lemma QuietPositionsIff(c: Config, actions: seq<Action>)
    requires Quiet(Run(c, actions))
    ensures var s := Run(c, actions); var events := EventsOf(s.outbox);
            && (AllNewest(s) <==> SameLast(events, s.log))
            && (AllNewest(s) ==> forall k :: k in s.tables.positions ==>
                  && LastFor(events, k.0, k.1).Some?
                  && s.tables.positions[k] == LastFor(events, k.0, k.1).value.positionAfter)
  {
    hide Run, Quiet, RelayOk, Later;
    var s := Run(c, actions);
    var events := EventsOf(s.outbox);
    QuietMeansBaseline(c, actions, "");
    ConsumerInvariant(c, actions);
    var sent, put := RelayStutters(c, actions);
    O.RelayFacts(s, sent, put);
    NewestIffLast(events, s.log);
    assert forall k: (string, string) :: k == (k.0, k.1);
  }

  // Both end with the same event for every account and symbol.
  ghost predicate SameLast(events: seq<Event>, log: seq<Event>) {
    forall a, symbol :: LastFor(log, a, symbol) == LastFor(events, a, symbol)
  }

  lemma NewestIffLast(events: seq<Event>, log: seq<Event>)
    requires DistinctIds(events) && forall x :: x in log <==> x in events
    ensures LatestIsNewest(events, log) <==> SameLast(events, log)
  {
    hide LatestIsNewest;
    if LatestIsNewest(events, log) {
      forall a, symbol
        ensures LastFor(log, a, symbol) == LastFor(events, a, symbol)
      {
        SameLastFor(events, log, a, symbol);
      }
    } else if SameLast(events, log) {
      LastOfOutboxIsNewest(events, log);
    }
  }

  lemma SameLastFor(events: seq<Event>, log: seq<Event>, account: string, symbol: string)
    requires DistinctIds(events) && LatestIsNewest(events, log) && forall x :: x in log <==> x in events
    ensures LastFor(log, account, symbol) == LastFor(events, account, symbol)
  {
    hide LatestIsNewest;
    if LastFor(log, account, symbol).Some? {
      var e := LastForIn(log, account, symbol);
      NewestIsLast(events, log, e);
    } else if LastFor(events, account, symbol).Some? {
      var e := LastForIn(events, account, symbol);
      NewestIsLast(events, log, e);
    }
  }

  lemma {:induction false} LastForIn(log: seq<Event>, account: string, symbol: string) returns (e: Event)
    requires LastFor(log, account, symbol).Some?
    ensures e in log && e.account == account && e.symbol == symbol
  {
    if Last(log).account == account && Last(log).symbol == symbol {
      e := Last(log);
    } else {
      e := LastForIn(Front(log), account, symbol);
    }
  }

  lemma LastOfOutboxIsNewest(events: seq<Event>, log: seq<Event>)
    requires DistinctIds(events) && forall x :: x in log <==> x in events
    requires SameLast(events, log)
    ensures LatestIsNewest(events, log)
  {
    InOrderIsNewest(events, events);
  }

  // --- out of order, and still right -----------------------------------------

  /** A run that goes quiet out of order with every position right: what overtook the stranded
      entry was a fill of another symbol. */
  lemma LateButNewest(seedCash: map<string, real>, batchSize: nat) returns (c: Config, actions: seq<Action>)
    requires batchSize >= 1
    ensures c == Config(batchSize, batchSize, false, seedCash)
    ensures var s := Run(c, actions); Quiet(s) && !O.AppliedInOrder(s) && AllNewest(s)
  {
    c := Config(batchSize, batchSize, false, seedCash);
    var first, second := O.Fill("acct_123", "evt-001", 1.0), O.Fill("acct_123", "evt-002", 1.0).(symbol := "MSFT");
    assert first.eventId[6] != second.eventId[6] && "AAPL"[0] != "MSFT"[0];
    actions := O.StrandedEntry(c, first, second);
    actions := O.Overtake(c, first, second, actions);
    actions := O.ReclaimLate(c, first, second, actions);
    var s := Run(c, actions);
    assert EventsOf(s.outbox) == [first, second] && s.log == [second] + [first];
    assert s.log[0] != EventsOf(s.outbox)[0];
    OneOfEach(first, second);
  }

  lemma OneOfEach(first: Event, second: Event)
    requires first.eventId != second.eventId && first.symbol != second.symbol
    ensures LatestIsNewest([first, second], [second] + [first])
  {
    var events := [first, second];
    assert Front([second]) == [];
    NotLaterThanItself(events, first);
    NotLaterThanItself(events, second);
    LastForAppend([second], first, first.account, first.symbol);
    LastForAppend([second], first, second.account, second.symbol);
  }
}
