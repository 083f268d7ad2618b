// The at-least-once pipeline as one step machine: ledger commits append outbox rows,
// a relay publishes rows and then marks them sent, a consumer group delivers stream
// entries, and a consumer applies each entry before acknowledging it.
//
// Durable: outbox, stream, group (cursor and pending entries), the two projections.
// Volatile: how far the relay and the consumer have got. A crash loses only that.

module Pipeline {
  import opened Basics
  import opened Events
  import opened Groups

  datatype Row = Row(event: Event, sent: bool)

  datatype Relay = Waiting | Draining(rows: seq<nat>, published: bool)

  // `batch` holds the entry ids in hand; `handled` says the first is applied, not yet acked.
  datatype Consumer =
    | Top
    | Reclaiming(batch: seq<nat>, handled: bool)
    | Reading
    | Fresh(batch: seq<nat>, handled: bool)

  datatype State = State(
    outbox: seq<Row>,
    stream: seq<Event>,
    group: Group,
    log: seq<Event>,      // applied_events of the risk engine, in rowid order
    tables: Tables,       // the in-place projection of the kill/restart proof
    relay: Relay,
    consumer: Consumer)

  // consumer_proc.py reads 1 and claims 100; worker.py uses batch_size for both.
  // `prompt` says the idle threshold has elapsed for every pending entry whenever
  // a reclaim runs, so that the claim starts at the oldest and skips none.
  datatype Config = Config(readCount: nat, claimCount: nat, prompt: bool, seedCash: map<string, real>)

  datatype Action =
    | Post(event: Event)            // a ledger transaction commits its outbox row
    | Fetch(limit: nat)             // relay: select unsent rows, oldest first
    | Publish                       // relay: XADD the first row in hand
    | Mark                          // relay: mark it sent
    | RelayStop                     // relay: end of batch, failed publish, or crash
    | Claim(ids: seq<nat>)          // consumer: XAUTOCLAIM
    | Read                          // consumer: XREADGROUP >
    | Handle                        // consumer: apply the first entry in hand
    | Ack                           // consumer: XACK it
    | EndBatch                      // consumer: nothing left in hand
    | ConsumerCrash

  function EventsOf(rows: seq<Row>): seq<Event> {
    seq(|rows|, i requires 0 <= i < |rows| => rows[i].event)
  }

  function Unsent(rows: seq<Row>): seq<nat> {
    if rows == [] then []
    else Unsent(Front(rows)) + (if Last(rows).sent then [] else [|rows| - 1])
  }

  function EventAt(s: State, id: nat): Event
    requires 1 <= id <= |s.stream|
  {
    s.stream[id - 1]
  }

  predicate InHand(s: State) {
    && (s.consumer.Reclaiming? || s.consumer.Fresh?)
    && s.consumer.batch != []
    && 1 <= s.consumer.batch[0] <= |s.stream|
  }

  ghost predicate Enabled(c: Config, s: State, a: Action) {
    match a
    case Post(e) => !Has(EventsOf(s.outbox), e.eventId)
    case Fetch(_) => s.relay.Waiting?
    case Publish => s.relay.Draining? && !s.relay.published && s.relay.rows != [] && s.relay.rows[0] < |s.outbox|
    case Mark => s.relay.Draining? && s.relay.published && s.relay.rows != [] && s.relay.rows[0] < |s.outbox|
    case RelayStop => true
    case Claim(ids) =>
      && s.consumer.Top?
      && Ascending(ids) && (forall id :: id in ids ==> id in s.group.pel) && |ids| <= c.claimCount
      && (c.prompt ==> ids == s.group.pel[..Min(c.claimCount, |s.group.pel|)])
    case Read => s.consumer.Reading?
    case Handle => InHand(s) && !s.consumer.handled
    case Ack => InHand(s) && s.consumer.handled
    case EndBatch => (s.consumer.Reclaiming? || s.consumer.Fresh?) && s.consumer.batch == []
    case ConsumerCrash => true
  }

  // A step that is not enabled does nothing, so every list of actions is a run.
  ghost function Do(c: Config, s: State, a: Action): State {
    if !Enabled(c, s, a) then s else
    match a
    case Post(e) => s.(outbox := s.outbox + [Row(e, false)])
    case Fetch(limit) =>
      var unsent := Unsent(s.outbox);
      s.(relay := Draining(unsent[..Min(limit, |unsent|)], false))
    case Publish =>
      s.(stream := s.stream + [s.outbox[s.relay.rows[0]].event], relay := s.relay.(published := true))
    case Mark =>
      var row := s.relay.rows[0];
      s.(outbox := s.outbox[row := s.outbox[row].(sent := true)], relay := Draining(s.relay.rows[1..], false))
    case RelayStop => s.(relay := Waiting)
    case Claim(ids) => s.(consumer := Reclaiming(ids, false))
    case Read =>
      var ids := NewIds(s.group, |s.stream|, c.readCount);
      s.(group := Delivered(s.group, ids), consumer := Fresh(ids, false))
    case Handle =>
      var e := EventAt(s, s.consumer.batch[0]);
      s.(log := Insert(s.log, e), tables := Apply(s.tables, e), consumer := s.consumer.(handled := true))
    case Ack =>
      s.(group := Acked(s.group, s.consumer.batch[0]),
         consumer := s.consumer.(batch := s.consumer.batch[1..], handled := false))
    case EndBatch => s.(consumer := if s.consumer.Reclaiming? then Reading else Top)
    case ConsumerCrash => s.(consumer := Top)
  }

  function Init(c: Config): State {
    State([], [], Group(0, []), [], Seeded(c.seedCash), Waiting, Top)
  }

  ghost function Run(c: Config, actions: seq<Action>): State {
    if actions == [] then Init(c) else Do(c, Run(c, Front(actions)), Last(actions))
  }

  // --- the relay half --------------------------------------------------

  // `sent` rows are marked; `put` rows are on the stream, each one or more times in a row.
  ghost predicate RelayOk(s: State, sent: nat, put: nat) {
    && sent <= put <= sent + 1 && put <= |s.outbox|
    && (forall i :: 0 <= i < |s.outbox| ==> (s.outbox[i].sent <==> i < sent))
    && DistinctIds(EventsOf(s.outbox))
    && Collapse(s.stream) == EventsOf(s.outbox)[..put]
    && (s.relay.Draining? ==>
          && sent + |s.relay.rows| <= |s.outbox|
          && (forall i :: 0 <= i < |s.relay.rows| ==> s.relay.rows[i] == sent + i)
          && (s.relay.published ==> s.relay.rows != [] && put == sent + 1))
  }

  lemma {:induction false} UnsentSuffix(rows: seq<Row>, sent: nat)
    requires sent <= |rows|
    requires forall i :: 0 <= i < |rows| ==> (rows[i].sent <==> i < sent)
    ensures Unsent(rows) == Range(sent, |rows|)
  {
    if |rows| > sent {
      UnsentSuffix(Front(rows), sent);
    } else if rows != [] {
      UnsentSuffix(Front(rows), sent - 1);
    }
  }

  lemma RelayStep(c: Config, s: State, a: Action, sent: nat, put: nat) returns (sent': nat, put': nat)
    requires RelayOk(s, sent, put)
    ensures RelayOk(Do(c, s, a), sent', put')
  {
    sent', put' := sent, put;
    var s' := Do(c, s, a);
    if !Enabled(c, s, a) {
    } else if a.Post? {
      var events := EventsOf(s.outbox);
      assert EventsOf(s'.outbox) == events + [a.event];
      assert EventsOf(s'.outbox)[..put] == events[..put];
      assert forall i :: 0 <= i < |events| ==> events[i].eventId != a.event.eventId;
    } else if a.Fetch? {
      UnsentSuffix(s.outbox, sent);
    } else if a.Publish? {
      put' := sent + 1;
      PublishStep(c, s, sent, put);
    } else if a.Mark? {
      sent' := sent + 1;
      assert EventsOf(s'.outbox) == EventsOf(s.outbox);
    }
  }

  lemma PublishStep(c: Config, s: State, sent: nat, put: nat)
    requires RelayOk(s, sent, put) && Enabled(c, s, Publish)
    ensures RelayOk(Do(c, s, Publish), sent, sent + 1)
  {
    hide Has, Unsent, Apply, Insert, FirstOccurrences, Collapse, DistinctIds;
    CollapseNext(EventsOf(s.outbox), s.stream, put, sent);
  }

  // Publishing the first unmarked row either adds it or repeats the newest entry.
  lemma CollapseNext(events: seq<Event>, stream: seq<Event>, put: nat, next: nat)
    requires DistinctIds(events) && next <= put <= next + 1 && put <= |events| && next < |events|
    requires Collapse(stream) == events[..put]
    ensures Collapse(stream + [events[next]]) == events[..next + 1]
  {
    assert Front(stream + [events[next]]) == stream;
    CollapseFacts(stream);
    if put == next {
      assert stream != [] ==> Last(stream) == events[put - 1] && events[put - 1].eventId != events[next].eventId;
      assert events[..put] + [events[next]] == events[..put + 1];
    } else {
      assert Last(stream) == events[next];
    }
  }

  /** Relay stuttering: over every run the sent rows are a prefix of the outbox, and the
      stream is that prefix or one row more, each row repeated adjacently; so its first
      occurrences are an outbox prefix in order. */
  lemma {:induction false} RelayStutters(c: Config, actions: seq<Action>) returns (sent: nat, put: nat)
    ensures RelayOk(Run(c, actions), sent, put)
    ensures var s := Run(c, actions); FirstOccurrences(s.stream) == EventsOf(s.outbox)[..put]
  {
    if actions == [] {
      sent, put := 0, 0;
    } else {
      sent, put := RelayStutters(c, Front(actions));
      sent, put := RelayStep(c, Run(c, Front(actions)), Last(actions), sent, put);
    }
    CollapseIsFirstOccurrences(Run(c, actions).stream);
  }

  // --- the consumer half -----------------------------------------------

  ghost predicate ConsumerOk(c: Config, s: State) {
    && s.group.last <= |s.stream|
    && Ascending(s.group.pel)
    && (forall id :: id in s.group.pel ==> 1 <= id <= s.group.last)
    // acknowledged implies applied
    && (forall id :: 1 <= id <= s.group.last && id !in s.group.pel ==> Has(s.log, EventAt(s, id).eventId))
    && DistinctIds(s.log)
    && (forall e :: e in s.log ==> e in s.stream)
    && Projects(s.tables, c.seedCash, s.log)
    && (s.consumer.Reclaiming? || s.consumer.Fresh? ==>
          && (forall i :: 0 <= i < |s.consumer.batch| ==> 1 <= s.consumer.batch[i] <= s.group.last)
          && (s.consumer.handled ==> s.consumer.batch != [] && Has(s.log, EventAt(s, s.consumer.batch[0]).eventId)))
  }

  lemma HandleStep(c: Config, s: State)
    requires ConsumerOk(c, s) && Enabled(c, s, Handle)
    ensures ConsumerOk(c, Do(c, s, Handle))
  {
    var e := EventAt(s, s.consumer.batch[0]);
    var s' := Do(c, s, Handle);
    ApplyProjects(s.tables, c.seedCash, s.log, e);
    forall id
      ensures Has(s'.log, id) <==> Has(s.log, id) || e.eventId == id
    {
      HasAppend(s.log, e, id);
    }
  }

  lemma AckStep(c: Config, s: State)
    requires ConsumerOk(c, s) && Enabled(c, s, Ack)
    ensures ConsumerOk(c, Do(c, s, Ack))
  {
    WithoutAscending(s.group.pel, s.consumer.batch[0]);
  }

  lemma ReadStep(c: Config, s: State)
    requires ConsumerOk(c, s) && Enabled(c, s, Read)
    ensures ConsumerOk(c, Do(c, s, Read))
  {
    var ids := NewIds(s.group, |s.stream|, c.readCount);
    var s' := Do(c, s, Read);
    assert forall i :: 0 <= i < |s.group.pel| ==> s.group.pel[i] in s.group.pel;
    DeliveredAscending(s.group, |ids|);
    forall id | s.group.last < id <= s'.group.last
      ensures id in s'.group.pel
    {
      assert id == ids[id - s.group.last - 1];
    }
  }

  lemma PublishKeepsConsumer(c: Config, s: State)
    requires ConsumerOk(c, s) && Enabled(c, s, Publish)
    ensures ConsumerOk(c, Do(c, s, Publish))
  {
    var s' := Do(c, s, Publish);
    assert forall id :: 1 <= id <= |s.stream| ==> EventAt(s', id) == EventAt(s, id);
    if s.consumer.Reclaiming? || s.consumer.Fresh? {
      assert s.consumer.batch != [] ==> EventAt(s', s.consumer.batch[0]) == EventAt(s, s.consumer.batch[0]);
    }
  }

  lemma ConsumerStep(c: Config, s: State, a: Action)
    requires ConsumerOk(c, s)
    ensures ConsumerOk(c, Do(c, s, a))
  {
    var s' := Do(c, s, a);
    assert a.Mark? || a.Post? || a.Fetch? || a.RelayStop? || a.Claim? || a.EndBatch? || a.ConsumerCrash? ==>
      forall id :: 1 <= id <= |s.stream| ==> EventAt(s', id) == EventAt(s, id);
    if !Enabled(c, s, a) {
    } else if a.Claim? {
      assert forall i :: 0 <= i < |a.ids| ==> a.ids[i] in a.ids;
    } else if a.Publish? {
      PublishKeepsConsumer(c, s);
    } else if a.Read? {
      ReadStep(c, s);
    } else if a.Handle? {
      HandleStep(c, s);
    } else if a.Ack? {
      AckStep(c, s);
    }
  }

  lemma {:induction false} ConsumerInvariant(c: Config, actions: seq<Action>)
    ensures ConsumerOk(c, Run(c, actions))
  {
    if actions != [] {
      ConsumerInvariant(c, Front(actions));
      ConsumerStep(c, Run(c, Front(actions)), Last(actions));
    }
  }

  // --- exactly-once effect ---------------------------------------------

  ghost predicate Outstanding(s: State, e: Event) {
    exists id: nat :: 1 <= id <= |s.stream| && EventAt(s, id) == e && (id > s.group.last || id in s.group.pel)
  }

  lemma EntryIsOutboxEvent(c: Config, actions: seq<Action>)
    ensures var s := Run(c, actions); forall e :: e in s.stream ==> e in EventsOf(s.outbox)
  {
    var s := Run(c, actions);
    var sent, put := RelayStutters(c, actions);
    CollapseFacts(s.stream);
  }

  /** Exactly-once effect, nothing lost, over every interleaving, crash point and duplicate. */
  lemma ExactlyOnce(c: Config, actions: seq<Action>)
    ensures var s := Run(c, actions);
            // no event is applied twice, and only outbox events are
            && DistinctIds(s.log)
            && (forall e :: e in s.log ==> e in EventsOf(s.outbox))
            // every outbox event is applied, or unsent, or still to be delivered or acknowledged
            && (forall i :: 0 <= i < |s.outbox| ==>
                  Has(s.log, s.outbox[i].event.eventId) || !s.outbox[i].sent || Outstanding(s, s.outbox[i].event))
            // both projections hold exactly the applied events
            && Projects(s.tables, c.seedCash, s.log)
  {
    var s := Run(c, actions);
    ConsumerInvariant(c, actions);
    EntryIsOutboxEvent(c, actions);
    var sent, put := RelayStutters(c, actions);
    CollapseFacts(s.stream);
    hide Has, Projects, Collapse, FirstOccurrences, Run, Outstanding;
    forall i | 0 <= i < |s.outbox| && s.outbox[i].sent
      ensures Has(s.log, s.outbox[i].event.eventId) || Outstanding(s, s.outbox[i].event)
    {
      assert EventsOf(s.outbox)[..put][i] == s.outbox[i].event;
      PublishedIsAppliedOrOutstanding(c, s, s.outbox[i].event);
    }
  }

  lemma PublishedIsAppliedOrOutstanding(c: Config, s: State, e: Event)
    requires ConsumerOk(c, s) && e in s.stream
    ensures Has(s.log, e.eventId) || Outstanding(s, e)
  {
    hide Has, Projects;
    var j :| 0 <= j < |s.stream| && s.stream[j] == e;
    var id := j + 1;
    assert EventAt(s, id) == e;
    if id <= s.group.last && id !in s.group.pel {
      assert Has(s.log, EventAt(s, id).eventId);
    } else {
      assert id > s.group.last || id in s.group.pel;
      assert Outstanding(s, e);
    }
  }

  ghost predicate Quiet(s: State) {
    && (forall i :: 0 <= i < |s.outbox| ==> s.outbox[i].sent)
    && s.group.last == |s.stream|
    && s.group.pel == []
  }

  lemma SameIdSameEvent(events: seq<Event>, a: Event, b: Event)
    requires DistinctIds(events) && a in events && b in events && a.eventId == b.eventId
    ensures a == b
  {
  }

  /** When nothing is unsent, undelivered or pending, the applied events are exactly the
      outbox events and cash is what a single perfect delivery would give. */
  lemma QuietMeansBaseline(c: Config, actions: seq<Action>, account: string)
    requires Quiet(Run(c, actions))
    ensures var s := Run(c, actions);
            && (forall e :: e in s.log <==> e in EventsOf(s.outbox))
            && |s.tables.processed| == |s.outbox|
            && (account in c.seedCash ==>
                  account in s.tables.cash
                  && s.tables.cash[account] == c.seedCash[account] + CashSum(EventsOf(s.outbox), account))
  {
    var s := Run(c, actions);
    var events := EventsOf(s.outbox);
    ExactlyOnce(c, actions);
    ConsumerInvariant(c, actions);
    var sent, put := RelayStutters(c, actions);
    forall e | e in events
      ensures e in s.log
    {
      var i :| 0 <= i < |events| && events[i] == e;
      assert s.outbox[i].sent && !Outstanding(s, s.outbox[i].event);
      var j :| 0 <= j < |s.log| && s.log[j].eventId == e.eventId;
      SameIdSameEvent(events, e, s.log[j]);
    }
    CashSumIsOrderFree(s.log, events, account);
  }
}
