// Positions are last-write-wins. They are right when events are applied in outbox order,
// which is so when every reclaim claims all pending entries before anything newer is read;
// here that is proved over all runs, a run without it goes wrong, and the exact condition for
// the log as a whole is given. Newest.dfy has the one for each position.

module InOrder {
  import opened Basics
  import opened Events
  import opened Groups
  import opened Pipeline

  ghost predicate AppliedInOrder(s: State) {
    s.log <= EventsOf(s.outbox)
  }

  // The discipline, and a claim large enough for what one read can leave pending.
  predicate Disciplined(c: Config) {
    c.prompt && 1 <= c.claimCount && c.readCount <= c.claimCount
  }

  ghost predicate OrderOk(c: Config, s: State) {
    && |s.group.pel| <= s.group.last <= |s.stream|
    && |s.group.pel| <= Max(c.readCount, 1)
    && var acked := s.group.last - |s.group.pel|;
       && s.group.pel == Range(acked + 1, s.group.last + 1)
       && (s.log == FirstOccurrences(s.stream[..acked])
           || (s.group.pel != [] && s.log == FirstOccurrences(s.stream[..acked + 1])))
       && (s.consumer.Reading? ==> s.group.pel == [])
       && (s.consumer.Reclaiming? || s.consumer.Fresh? ==>
             && s.consumer.batch == s.group.pel
             && (s.consumer.handled ==>
                   s.group.pel != [] && s.log == FirstOccurrences(s.stream[..acked + 1])))
  }

  // Applying the next entry extends the first occurrences by it; applying it again does not.
  lemma NextOccurrence(es: seq<Event>, n: nat)
    requires n < |es|
    ensures Insert(FirstOccurrences(es[..n]), es[n]) == FirstOccurrences(es[..n + 1])
    ensures Insert(FirstOccurrences(es[..n + 1]), es[n]) == FirstOccurrences(es[..n + 1])
  {
    var upTo := es[..n + 1];
    assert Front(upTo) == es[..n] && Last(upTo) == es[n];
    FirstOccurrencesFacts(es[..n]);
    FirstOccurrencesFacts(upTo);
    assert upTo[n] == es[n] && Has(upTo, es[n].eventId);
  }

  lemma HandleInOrder(c: Config, s: State)
    requires OrderOk(c, s) && Enabled(c, s, Handle)
    ensures OrderOk(c, Do(c, s, Handle))
  {
    hide Apply, Collapse, Unsent, Insert, FirstOccurrences, Has;
    NextOccurrence(s.stream, s.group.last - |s.group.pel|);
  }

  lemma OrderStep(c: Config, s: State, a: Action)
    requires Disciplined(c) && OrderOk(c, s)
    ensures OrderOk(c, Do(c, s, a))
  {
    hide FirstOccurrences, Insert, Apply, Has, Unsent;
    if !Enabled(c, s, a) {
    } else if a.Publish? {
      GrowInOrder(c, s);
    } else if a.Handle? {
      HandleInOrder(c, s);
    } else if a.Ack? {
      AckInOrder(c, s);
    } else if a.Read? {
      ReadInOrder(c, s);
    } else if a.Claim? {
      assert a.ids == s.group.pel;
    }
  }

  lemma GrowInOrder(c: Config, s: State)
    requires OrderOk(c, s) && Enabled(c, s, Publish)
    ensures OrderOk(c, Do(c, s, Publish))
  {
    hide FirstOccurrences;
    assert forall n :: 0 <= n <= |s.stream| ==> Do(c, s, Publish).stream[..n] == s.stream[..n];
  }

  lemma AckInOrder(c: Config, s: State)
    requires OrderOk(c, s) && Enabled(c, s, Action.Ack)
    ensures OrderOk(c, Do(c, s, Action.Ack))
  {
    hide FirstOccurrences;
    AckHead(s.group.pel);
  }

  lemma ReadInOrder(c: Config, s: State)
    requires OrderOk(c, s) && Enabled(c, s, Action.Read)
    ensures OrderOk(c, Do(c, s, Action.Read))
  {
    hide FirstOccurrences;
  }

  lemma {:induction false} OrderInvariant(c: Config, actions: seq<Action>)
    requires Disciplined(c)
    ensures OrderOk(c, Run(c, actions))
  {
    if actions != [] {
      OrderInvariant(c, Front(actions));
      OrderStep(c, Run(c, Front(actions)), Last(actions));
    }
  }

  /** Under the discipline, over every run with crashes and restarts, the applied events are
      a prefix of the outbox in order, the tables are exactly the single-delivery fold of that
      prefix, and no more entries are pending than one bounded reclaim pass claims. */
  lemma InOrderAlways(c: Config, actions: seq<Action>)
    requires Disciplined(c)
    ensures var s := Run(c, actions);
            && AppliedInOrder(s)
            && s.tables == ApplyAll(Seeded(c.seedCash), EventsOf(s.outbox)[..|s.log|])
            && |s.group.pel| <= c.claimCount
  {
    hide Run, RelayOk, FirstOccurrences, Apply, Has, Projects, Ascending;
    var s := Run(c, actions);
    OrderInvariant(c, actions);
    ConsumerInvariant(c, actions);
    var sent, put := RelayStutters(c, actions);
    assert put <= |s.outbox| by {
      RelayBounds(s, sent, put);
    }
    LogPrefix(c, s);
    assert s.log <= EventsOf(s.outbox)[..put];
    assert s.log == EventsOf(s.outbox)[..|s.log|];
    TablesOfLog(c.seedCash, s.tables, s.log);
  }

  lemma RelayBounds(s: State, sent: nat, put: nat)
    requires RelayOk(s, sent, put)
    ensures sent <= put <= |s.outbox|
  {
  }

  lemma LogPrefix(c: Config, s: State)
    requires OrderOk(c, s)
    ensures s.log <= FirstOccurrences(s.stream)
  {
    hide FirstOccurrences;
    var acked := s.group.last - |s.group.pel|;
    FirstOccurrencesGrow(s.stream, acked);
    if s.group.pel != [] {
      FirstOccurrencesGrow(s.stream, acked + 1);
    }
  }

  lemma TablesOfLog(seedCash: map<string, real>, t: Tables, log: seq<Event>)
    requires DistinctIds(log) && Projects(t, seedCash, log)
    ensures t == ApplyAll(Seeded(seedCash), log)
  {
    hide Projects;
    DerivedRefinesInPlace(seedCash, log);
    FirstOccurrencesOfDistinct(log);
    ProjectsUnique(t, ApplyAll(Seeded(seedCash), log), seedCash, log);
  }

  /** So once the pipeline is quiet the whole projection equals the single-delivery baseline. */
  lemma QuietInOrder(c: Config, actions: seq<Action>)
    requires Disciplined(c) && Quiet(Run(c, actions))
    ensures var s := Run(c, actions);
            && s.log == EventsOf(s.outbox)
            && s.tables == ApplyAll(Seeded(c.seedCash), EventsOf(s.outbox))
  {
    var s := Run(c, actions);
    InOrderAlways(c, actions);
    ConsumerInvariant(c, actions);
    var sent, put := RelayStutters(c, actions);
    QuietMeansBaseline(c, actions, "");
    var events := EventsOf(s.outbox);
    assert events[..|s.log|] == events;
  }

  // --- without the discipline ------------------------------------------

  lemma CollapseOfFront(es: seq<Event>)
    requires DistinctIds(Collapse(es)) && es != []
    ensures DistinctIds(Collapse(Front(es)))
    ensures |es| > 1 && es[|es| - 1] != es[|es| - 2] ==> |Collapse(es)| == |Collapse(Front(es))| + 1
  {
    assert Collapse(Front(es)) <= Collapse(es);
  }

  lemma SeenMeansRepeat(es: seq<Event>)
    requires DistinctIds(Collapse(es)) && |es| > 1 && Has(Front(es), Last(es).eventId)
    ensures es[|es| - 1] == es[|es| - 2]
  {
    hide Has, DistinctIds, Collapse;
    CollapseOfFront(es);
    CollapseIsFirstOccurrences(es);
    CollapseIsFirstOccurrences(Front(es));
    assert FirstOccurrences(es) == FirstOccurrences(Front(es));
  }

  lemma {:induction false} RepeatsAdjacent(es: seq<Event>, a: nat, k: nat, b: nat)
    requires DistinctIds(Collapse(es)) && a < k < b < |es| && es[a] == es[b]
    ensures es[k] == es[b]
  {
    var front := Front(es);
    assert Collapse(front) <= Collapse(es);
    CollapseFacts(front);
    if b < |es| - 1 {
      RepeatsAdjacent(front, a, k, b);
    } else {
      assert front[a] == Last(es);
      SeenMeansRepeat(es);
      if k < b - 1 {
        RepeatsAdjacent(front, a, k, b - 1);
      }
    }
  }

  // Whether the entry about to be applied may jump ahead of a pending one.
  ghost predicate NothingOvertaken(s: State, id: nat)
    requires 1 <= id <= |s.stream| && s.group.last <= |s.stream|
  {
    var e := EventAt(s, id);
    Has(s.log, e.eventId)
    || forall j :: j in s.group.pel && 1 <= j < id && j <= s.group.last ==>
         Has(s.log, EventAt(s, j).eventId) || EventAt(s, j) == e
  }

  lemma InOrderInsert(s: State, events: seq<Event>, id: nat, y: nat)
    requires DistinctIds(events) && s.log <= events && 1 <= id <= |s.stream|
    requires y < |events| && events[y] == EventAt(s, id) && !Has(s.log, events[y].eventId)
    ensures |s.log| <= y
    ensures s.log + [events[y]] <= events <==> y == |s.log|
  {
    HasPrefixIff(events, |s.log|, y);
    if y != |s.log| {
      assert events[y].eventId != events[|s.log|].eventId;
    }
  }

  lemma SeenBefore(s: State, events: seq<Event>, n: nat, x: nat, y: nat)
    requires DistinctIds(events) && FirstOccurrences(s.stream) <= events
    requires n < |s.stream| && y < |events| && s.stream[n] == events[y] && x < y
    ensures exists j :: 0 <= j < n && s.stream[j] == events[x]
  {
    var upTo := s.stream[..n + 1];
    FirstOccurrencesGrow(s.stream, n + 1);
    FirstOccurrencesFacts(upTo);
    var fo := FirstOccurrences(upTo);
    assert upTo[n].eventId == events[y].eventId && Has(fo, events[y].eventId);
    var i :| 0 <= i < |fo| && fo[i].eventId == events[y].eventId;
    assert i == y;
    assert fo[x] == events[x] && fo[x] in upTo;
    var j :| 0 <= j < |upTo| && upTo[j] == events[x];
    assert s.stream[j] == events[x];
  }

  lemma OvertakenBreaksOrder(s: State, events: seq<Event>, id: nat, y: nat, j: nat)
    requires DistinctIds(events) && s.log <= events && 1 <= j < id <= |s.stream|
    requires FirstOccurrences(s.stream) <= events && DistinctIds(Collapse(s.stream))
    requires y < |events| && events[y] == EventAt(s, id)
    requires EventAt(s, j) in events && EventAt(s, j) != events[y] && !Has(s.log, EventAt(s, j).eventId)
    ensures y > |s.log|
  {
    var x :| 0 <= x < |events| && events[x] == EventAt(s, j);
    HasPrefixIff(events, |s.log|, x);
    if y < x {
      SeenBefore(s, events, j - 1, y, x);
      var k :| 0 <= k < j - 1 && s.stream[k] == events[y];
      RepeatsAdjacent(s.stream, k, j - 1, id - 1);
      assert false;
    }
  }

  lemma NothingOvertakenKeepsOrder(s: State, events: seq<Event>, id: nat, y: nat)
    requires DistinctIds(events) && s.log <= events && 1 <= id <= |s.stream|
    requires FirstOccurrences(s.stream) <= events
    requires y < |events| && events[y] == EventAt(s, id)
    requires forall j :: 1 <= j < id ==> Has(s.log, EventAt(s, j).eventId) || EventAt(s, j) == events[y]
    ensures y <= |s.log|
  {
    if |s.log| < y {
      NextIsOvertaken(s, events, id, y);
    }
  }

  lemma NextIsOvertaken(s: State, events: seq<Event>, id: nat, y: nat)
    requires DistinctIds(events) && s.log <= events && 1 <= id <= |s.stream|
    requires FirstOccurrences(s.stream) <= events
    requires |s.log| < y < |events| && events[y] == EventAt(s, id)
    ensures exists j :: 1 <= j < id && !Has(s.log, EventAt(s, j).eventId) && EventAt(s, j) != events[y]
  {
    hide FirstOccurrences;
    var n := |s.log|;
    HasPrefixIff(events, n, n);
    SeenBefore(s, events, id - 1, n, y);
    var j :| 0 <= j < id - 1 && s.stream[j] == events[n];
    assert EventAt(s, j + 1) == events[n] && events[n].eventId != events[y].eventId;
    assert events[..n] == s.log;
  }

  /** In any run, applying an entry keeps the log in outbox order exactly when it is already
      applied or no earlier pending entry carries a different, unapplied event. */
  lemma HandleKeepsOrderIff(c: Config, actions: seq<Action>)
    requires Enabled(c, Run(c, actions), Handle) && AppliedInOrder(Run(c, actions))
    ensures Run(c, actions).group.last <= |Run(c, actions).stream|
    ensures AppliedInOrder(Do(c, Run(c, actions), Handle))
       <==> NothingOvertaken(Run(c, actions), Run(c, actions).consumer.batch[0])
  {
    hide Run, RelayOk, FirstOccurrences, Collapse, Apply, Unsent;
    var s := Run(c, actions);
    ConsumerInvariant(c, actions);
    EntryIsOutboxEvent(c, actions);
    var sent, put := RelayStutters(c, actions);
    RelayFacts(s, sent, put);
    assert s.group.last <= |s.stream|;
    AppliedNextIff(s, EventsOf(s.outbox), s.consumer.batch[0]);
  }

  lemma RelayFacts(s: State, sent: nat, put: nat)
    requires RelayOk(s, sent, put)
    ensures put <= |s.outbox| && DistinctIds(EventsOf(s.outbox)) && DistinctIds(Collapse(s.stream))
  {
  }

  lemma AppliedNextIff(s: State, events: seq<Event>, id: nat)
    requires DistinctIds(events) && s.log <= events && 1 <= id <= |s.stream| && s.group.last <= |s.stream|
    requires FirstOccurrences(s.stream) <= events && DistinctIds(Collapse(s.stream))
    requires forall e :: e in s.stream ==> e in events
    requires forall j :: 1 <= j <= s.group.last && j !in s.group.pel ==> Has(s.log, EventAt(s, j).eventId)
    requires id <= s.group.last
    ensures Insert(s.log, EventAt(s, id)) <= events <==> NothingOvertaken(s, id)
  {
    hide FirstOccurrences, Collapse, Has, DistinctIds;
    var e := EventAt(s, id);
    if !Has(s.log, e.eventId) {
      assert e in s.stream;
      var y :| 0 <= y < |events| && events[y] == e;
      InOrderInsert(s, events, id, y);
      if NothingOvertaken(s, id) {
        NothingOvertakenKeepsOrder(s, events, id, y);
      } else {
        var j :| j in s.group.pel && 1 <= j < id && !Has(s.log, EventAt(s, j).eventId) && EventAt(s, j) != e;
        assert EventAt(s, j) in s.stream;
        OvertakenBreaksOrder(s, events, id, y, j);
      }
    }
  }

  lemma Step(c: Config, actions: seq<Action>, a: Action) returns (actions': seq<Action>)
    ensures actions' == actions + [a]
    ensures Run(c, actions') == Do(c, Run(c, actions), a)
  {
    actions' := actions + [a];
    assert Front(actions') == actions;
  }

  function Fill(account: string, id: string, positionAfter: real): Event {
    Event(id, account, "AAPL", Some(1.0), -1.0, positionAfter)
  }

  // With all earlier rows sent, committing an event and relaying it.
  lemma PostAndRelay(c: Config, before: seq<Action>, e: Event) returns (actions: seq<Action>)
    requires Run(c, before).relay.Waiting? && !Has(EventsOf(Run(c, before).outbox), e.eventId)
    requires forall i :: 0 <= i < |Run(c, before).outbox| ==> Run(c, before).outbox[i].sent
    ensures var s := Run(c, before);
            Run(c, actions) == s.(outbox := s.outbox + [Row(e, true)], stream := s.stream + [e])
  {
    var s := Run(c, before);
    var n := |s.outbox|;
    actions := Step(c, before, Post(e));
    UnsentSuffix(s.outbox + [Row(e, false)], n);
    actions := Step(c, actions, Fetch(1));
    assert Range(n, n + 1)[..1] == [n];
    assert Run(c, actions).relay == Draining([n], false);
    actions := Step(c, actions, Publish);
    actions := Step(c, actions, Mark);
    assert (s.outbox + [Row(e, false)])[n := Row(e, true)] == s.outbox + [Row(e, true)];
    actions := Step(c, actions, RelayStop);
  }

  // A reclaim that finds nothing idle, then a read of the one new entry.
  lemma SkipAndRead(c: Config, before: seq<Action>) returns (actions: seq<Action>)
    requires c.readCount >= 1 && !c.prompt
    requires Run(c, before).consumer.Top? && Run(c, before).group.last + 1 == |Run(c, before).stream|
    ensures var s := Run(c, before); var id := s.group.last + 1;
            Run(c, actions) == s.(group := Group(id, s.group.pel + [id]), consumer := Fresh([id], false))
  {
    hide Apply, Insert, Unsent, Has;
    var id := Run(c, before).group.last + 1;
    actions := Step(c, before, Claim([]));
    actions := Step(c, actions, EndBatch);
    actions := Step(c, actions, Action.Read);
    assert Range(id, id + 1) == [id];
  }

  // The one entry in hand is applied and acknowledged.
  lemma ApplyAndAck(c: Config, before: seq<Action>, id: nat) returns (actions: seq<Action>)
    requires Run(c, before).consumer.Fresh? || Run(c, before).consumer.Reclaiming?
    requires Run(c, before).consumer.batch == [id] && !Run(c, before).consumer.handled
    requires 1 <= id <= |Run(c, before).stream|
    ensures var s := Run(c, before);
            Run(c, actions) == s.(group := Acked(s.group, id), log := Insert(s.log, EventAt(s, id)),
                                  tables := Apply(s.tables, EventAt(s, id)),
                                  consumer := s.consumer.(batch := []))
  {
    hide Apply, Insert, Unsent, Has, Without;
    actions := Step(c, before, Handle);
    actions := Step(c, actions, Action.Ack);
    assert [id][1..] == [];
  }

  // Two fills are on the stream and marked sent; the first was read when it was alone
  // there, but its consumer died before applying it.
  lemma StrandedEntry(c: Config, first: Event, second: Event) returns (actions: seq<Action>)
    requires c.readCount >= 1 && c.claimCount >= 1 && !c.prompt && first.eventId != second.eventId
    ensures Run(c, actions) == State([Row(first, true), Row(second, true)], [first, second],
                                     Group(1, [1]), [], Seeded(c.seedCash), Waiting, Top)
  {
    actions := PostAndRelay(c, [], first);
    hide Apply, Insert, Unsent;
    actions := SkipAndRead(c, actions);
    assert [] + [1] == [1];
    actions := Step(c, actions, ConsumerCrash);
    assert Run(c, actions).outbox == [Row(first, true)];
    actions := PostAndRelay(c, actions, second);
    assert Run(c, actions).outbox == [Row(first, true), Row(second, true)];
  }

  lemma InsertFirst(e: Event)
    ensures Insert([], e) == [e]
  {
    assert !Has([], e.eventId);
  }

  // Reading on, the second fill is applied before the first is reclaimed.
  lemma Overtake(c: Config, first: Event, second: Event, stranded: seq<Action>) returns (actions: seq<Action>)
    requires c.readCount >= 1 && c.claimCount >= 1 && !c.prompt && first.eventId != second.eventId
    requires Run(c, stranded) == State([Row(first, true), Row(second, true)], [first, second],
                                       Group(1, [1]), [], Seeded(c.seedCash), Waiting, Top)
    ensures Run(c, actions) == State([Row(first, true), Row(second, true)], [first, second],
                                     Group(2, [1]), [second], Apply(Seeded(c.seedCash), second), Waiting, Top)
  {
    hide Apply, Unsent, Insert, Has;
    actions := SkipAndRead(c, stranded);
    assert [1] + [2] == [1, 2];
    actions := ApplyAndAck(c, actions, 2);
    WithoutConcat([1], [2], 2);
    InsertFirst(second);
    actions := Step(c, actions, EndBatch);
  }

  lemma ReclaimLate(c: Config, first: Event, second: Event, overtaken: seq<Action>) returns (actions: seq<Action>)
    requires c.readCount >= 1 && c.claimCount >= 1 && !c.prompt && first.eventId != second.eventId
    requires Run(c, overtaken) == State([Row(first, true), Row(second, true)], [first, second],
                                        Group(2, [1]), [second], Apply(Seeded(c.seedCash), second), Waiting, Top)
    ensures var s := Run(c, actions);
            && s.outbox == [Row(first, true), Row(second, true)] && s.stream == [first, second]
            && s.group == Group(2, []) && s.log == [second, first]
            && s.tables == Apply(Apply(Seeded(c.seedCash), second), first)
  {
    hide Apply, Unsent;
    actions := Step(c, overtaken, Claim([1]));
    actions := ApplyAndAck(c, actions, 1);
    assert Run(c, actions).log == [second, first];
  }

  /** The discipline is needed: with any one batch size for reads and claims, when a restarted
      consumer reads on while an entry is pending but not yet idle, the pipeline can go quiet
      with a stale position. */
  lemma StalePosition(seedCash: map<string, real>, batchSize: nat) returns (c: Config, actions: seq<Action>)
    requires batchSize >= 1
    ensures c == Config(batchSize, batchSize, false, seedCash)
    ensures var s := Run(c, actions);
            && Quiet(s) && !AppliedInOrder(s)
            && ("acct_123", "AAPL") in s.tables.positions
            && s.tables.positions[("acct_123", "AAPL")] == 1.0
            && LastFor(EventsOf(s.outbox), "acct_123", "AAPL") == Some(Fill("acct_123", "evt-002", 2.0))
  {
    c := Config(batchSize, batchSize, false, seedCash);
    var first, second := Fill("acct_123", "evt-001", 1.0), Fill("acct_123", "evt-002", 2.0);
    assert first.eventId[6] != second.eventId[6];
    actions := StrandedEntry(c, first, second);
    actions := Overtake(c, first, second, actions);
    actions := ReclaimLate(c, first, second, actions);
    var s := Run(c, actions);
    assert EventsOf(s.outbox) == [first, second];
    assert s.log[0] != EventsOf(s.outbox)[0];
  }
}
