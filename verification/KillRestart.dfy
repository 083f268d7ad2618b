// The native kill/restart proof (poc/native-kill-restart): the SQLite store, the killable
// relay and consumer processes, and the run that kills and restarts each of them.

module NativeStore {
  import opened Events
  import opened Pipeline

  function Marked(rows: seq<Row>, id: string): (r: seq<Row>) {
    seq(|rows|, i requires 0 <= i < |rows| =>
      if rows[i].event.eventId == id then rows[i].(sent := true) else rows[i])
  }

  class Store {
    var outbox: seq<Row>
    var processed: seq<string>
    var cash: map<string, real>
    var positions: map<(string, string), real>

    constructor ()
      ensures outbox == [] && AsTables() == Seeded(map[])
    {
      outbox, processed, cash, positions := [], [], map[], map[];
    }

    function AsTables(): Tables
      reads this
    {
      Tables(processed, cash, positions)
    }

    // One transaction: a repeated event id fails the UNIQUE constraint and undoes all rows.
    method SeedOutbox(events: seq<Event>) returns (ok: bool)
      requires DistinctIds(EventsOf(outbox))
      modifies this`outbox
      ensures ok <==> DistinctIds(EventsOf(old(outbox)) + events) || events == []
      ensures !ok ==> outbox == old(outbox)
      ensures ok ==> outbox == old(outbox) + seq(|events|, i requires 0 <= i < |events| => Row(events[i], false))
    {
      var rows := outbox;
      for i := 0 to |events|
        invariant rows == outbox + seq(i, j requires 0 <= j < |events| => Row(events[j], false))
        invariant EventsOf(rows) == EventsOf(outbox) + events[..i]
        invariant DistinctIds(EventsOf(rows))
      {
        if Has(EventsOf(rows), events[i].eventId) {
          ghost var all := EventsOf(outbox) + events;
          ghost var k :| 0 <= k < |rows| && EventsOf(rows)[k].eventId == events[i].eventId;
          assert all[k] == EventsOf(rows)[k] && all[|outbox| + i] == events[i];
          return false;
        }
        var rows' := rows + [Row(events[i], false)];
        assert EventsOf(rows') == EventsOf(rows) + [events[i]];
        assert forall k :: 0 <= k < |rows| ==> EventsOf(rows)[k].eventId != events[i].eventId;
        rows := rows';
      }
      assert events[..|events|] == events;
      outbox := rows;
      return true;
    }

    method InitProjection(account: string, amount: real)
      modifies this`cash
      ensures cash == old(cash)[account := amount]
    {
      cash := cash[account := amount];
    }

    function UnsentOutbox(): seq<nat>
      reads this
    {
      Unsent(outbox)
    }

    method MarkSent(id: string)
      modifies this`outbox
      ensures outbox == Marked(old(outbox), id)
    {
      outbox := Marked(outbox, id);
    }

    predicate AlreadyProcessed(id: string)
      reads this
    {
      id in processed
    }

    // Dedupe row and projection in one transaction; false for a duplicate, which changes nothing.
    method ApplyEvent(e: Event) returns (applied: bool)
      modifies this`processed, this`cash, this`positions
      ensures applied <==> e.eventId !in old(processed)
      ensures AsTables() == Apply(old(AsTables()), e)
    {
      if e.eventId in processed {
        return false;
      }
      processed := processed + [e.eventId];
      if e.account in cash {
        cash := cash[e.account := cash[e.account] + e.cashDelta];
      }
      positions := positions[(e.account, e.symbol) := e.positionAfter];
      return true;
    }
  }
}

module NativeRedis {
  import opened Basics
  import opened Events
  import opened Groups

  // One stream and one consumer group on it; entry ids are positions counted from 1.
  class Redis {
    var stream: seq<Entry>
    var group: Option<Group>

    constructor ()
      ensures stream == [] && group == None
    {
      stream, group := [], None;
    }

    method XAdd(entry: Entry)
      modifies this`stream
      ensures stream == old(stream) + [entry]
    {
      stream := stream + [entry];
    }

    // BUSYGROUP is tolerated: an existing group keeps its cursor and pending entries.
    method XGroupCreate()
      modifies this`group
      ensures group == Some(if old(group).Some? then old(group).value else Group(0, []))
    {
      if group.None? {
        group := Some(Group(0, []));
      }
    }

    // With no idle threshold: the oldest pending entries, at most `count`.
    method XAutoClaim(count: nat) returns (ids: seq<nat>)
      requires group.Some?
      ensures ids == group.value.pel[..Min(count, |group.value.pel|)]
    {
      ids := group.value.pel[..Min(count, |group.value.pel|)];
    }

    method XReadGroup(count: nat) returns (ids: seq<nat>)
      requires group.Some?
      modifies this`group
      ensures ids == NewIds(old(group).value, |stream|, count)
      ensures group == Some(Delivered(old(group).value, ids))
    {
      ids := NewIds(group.value, |stream|, count);
      group := Some(Delivered(group.value, ids));
    }

    method XAck(id: nat)
      requires group.Some?
      modifies this`group
      ensures group == Some(Acked(old(group).value, id))
    {
      group := Some(Acked(group.value, id));
    }
  }
}

module Outbox {
  import opened Basics
  import opened Events
  import opened Pipeline
  import opened NativeStore

  function Wires(es: seq<Event>): seq<Entry> {
    seq(|es|, i requires 0 <= i < |es| => Wire(es[i]))
  }

  ghost predicate InRange(ids: seq<nat>, rows: seq<Row>) {
    forall i :: 0 <= i < |ids| ==> ids[i] < |rows|
  }

  ghost function Picked(rows: seq<Row>, ids: seq<nat>): seq<Event>
    requires InRange(ids, rows)
  {
    seq(|ids|, i requires 0 <= i < |ids| => rows[ids[i]].event)
  }

  // The chosen rows are marked, nothing else is touched.
  ghost predicate MarkedRows(before: seq<Row>, after: seq<Row>, ids: seq<nat>) {
    && |after| == |before|
    && (forall i :: 0 <= i < |before| ==> after[i] == before[i].(sent := before[i].sent || i in ids))
  }

  // Unsent rows come oldest first, each once.
  lemma {:induction false} UnsentRows(rows: seq<Row>)
    ensures InRange(Unsent(rows), rows)
    ensures forall i, j :: 0 <= i < j < |Unsent(rows)| ==> Unsent(rows)[i] < Unsent(rows)[j]
    ensures forall i: nat :: i in Unsent(rows) <==> i < |rows| && !rows[i].sent
  {
    if rows != [] {
      var front, u := Front(rows), Unsent(Front(rows));
      UnsentRows(front);
      forall i: nat
        ensures i in Unsent(rows) <==> i < |rows| && !rows[i].sent
      {
        assert i in Unsent(rows) <==> i in u || (i == |rows| - 1 && !Last(rows).sent);
        assert i < |front| ==> front[i] == rows[i];
      }
      assert forall i :: 0 <= i < |u| ==> u[i] < |front|;
    }
  }

  // Marking by event id marks the one row that carries it.
  lemma MarkNext(before: seq<Row>, rows: seq<Row>, ids: seq<nat>, n: nat)
    requires n < |ids| && InRange(ids, before)
    requires MarkedRows(before, rows, ids[..n])
    requires DistinctIds(EventsOf(before))
    ensures MarkedRows(before, Marked(rows, before[ids[n]].event.eventId), ids[..n + 1])
  {
    var events, k := EventsOf(before), ids[n];
    assert ids[..n + 1] == ids[..n] + [k];
    forall i | 0 <= i < |before| && i != k
      ensures rows[i].event.eventId != before[k].event.eventId
    {
      assert events[i].eventId != events[k].eventId;
    }
  }
}

module RelayProc {
  import opened Events
  import opened Pipeline
  import opened Outbox
  import opened NativeStore
  import opened NativeRedis

  // Publish each unsent row, then mark it; or die between the two on the chosen row.
  method RunProcess(store: Store, redis: Redis, dieAfterPublish: int) returns (exit: int, published: nat)
    requires DistinctIds(EventsOf(store.outbox))
    modifies store`outbox, redis`stream
    ensures var unsent := Unsent(old(store.outbox));
            && exit == (if 1 <= dieAfterPublish <= |unsent| then 137 else 0)
            && published == (if exit == 137 then dieAfterPublish else |unsent|)
            && InRange(unsent, old(store.outbox))
            && redis.stream == old(redis.stream) + Wires(Picked(old(store.outbox), unsent[..published]))
            && MarkedRows(old(store.outbox), store.outbox, unsent[..if exit == 137 then published - 1 else published])
  {
    var unsent := store.UnsentOutbox();
    ghost var rows := store.outbox;
    UnsentRows(rows);
    published := 0;
    for i := 0 to |unsent|
      invariant published == i
      invariant dieAfterPublish < 1 || i < dieAfterPublish
      invariant redis.stream == old(redis.stream) + Wires(Picked(rows, unsent[..i]))
      invariant MarkedRows(rows, store.outbox, unsent[..i])
    {
      var event := store.outbox[unsent[i]].event;
      redis.XAdd(Wire(event));
      assert Wires(Picked(rows, unsent[..i])) + [Wire(event)] == Wires(Picked(rows, unsent[..i + 1]));
      published := published + 1;
      if published == dieAfterPublish {
        return 137, published;
      }
      MarkNext(rows, store.outbox, unsent, i);
      store.MarkSent(event.eventId);
    }
    return 0, published;
  }
}

module ConsumerProc {
  import opened Basics
  import opened Events
  import opened Groups
  import opened NativeStore
  import opened NativeRedis

  const CLAIM_COUNT := 100

  function Parsed(entries: seq<Entry>): seq<Event> {
    if entries == [] then []
    else Parsed(Front(entries)) + (match Last(entries) case Malformed => [] case Wire(e) => [e])
  }

  function ApplyEntry(t: Tables, entry: Entry): Tables {
    match entry
    case Malformed => t
    case Wire(e) => Apply(t, e)
  }

  lemma {:induction false} ApplyAllConcat(t: Tables, a: seq<Event>, b: seq<Event>)
    ensures ApplyAll(t, a + b) == ApplyAll(ApplyAll(t, a), b)
  {
    if b == [] {
      assert a + b == a;
    } else {
      assert Front(a + b) == a + Front(b);
      ApplyAllConcat(t, a, Front(b));
    }
  }

  // The tables after one delivery of each of the first n entries, for n = 0, 1, ..
  ghost predicate Deliveries(states: seq<Tables>, stream: seq<Entry>) {
    && |states| == |stream| + 1
    && (forall n :: 0 <= n < |stream| ==>
          && states[n + 1] == ApplyEntry(states[n], stream[n])
          && states[n + 1] == ApplyEntry(states[n + 1], stream[n]))
  }

  lemma SingleDelivery(seed: Tables, stream: seq<Entry>) returns (states: seq<Tables>)
    ensures Deliveries(states, stream) && states[0] == seed
    ensures Last(states) == ApplyAll(seed, Parsed(stream))
  {
    states := seq(|stream| + 1, n requires 0 <= n <= |stream| => ApplyAll(seed, Parsed(stream[..n])));
    forall n | 0 <= n < |stream|
      ensures states[n + 1] == ApplyEntry(states[n], stream[n])
      ensures states[n + 1] == ApplyEntry(states[n + 1], stream[n])
    {
      var upTo := stream[..n + 1];
      assert Front(upTo) == stream[..n] && Last(upTo) == stream[n];
      match stream[n] {
        case Malformed =>
          assert Parsed(upTo) == Parsed(stream[..n]);
        case Wire(e) =>
          ApplyAllConcat(seed, Parsed(stream[..n]), [e]);
          assert Front([e]) == [];
      }
    }
    assert stream[..|stream|] == stream;
  }

  // A process that finds no group creates one at the start of the stream.
  function GroupOrNew(group: Option<Group>): Group {
    if group.Some? then group.value else Group(0, [])
  }

  // What a restart may rely on: entries up to the oldest pending one are applied, that
  // one possibly too, and nothing later is.
  ghost predicate Resumable(states: seq<Tables>, tables: Tables, g: Group) {
    && |g.pel| <= g.last < |states| && |g.pel| <= 100
    && var acked := g.last - |g.pel|;
       && g.pel == Range(acked + 1, g.last + 1)
       && (tables == states[acked]
           || (g.pel != [] && tables == states[acked + 1]))
  }

  lemma HandledThenAcked(states: seq<Tables>, tables: Tables, stream: seq<Entry>, g: Group)
    requires Deliveries(states, stream) && Resumable(states, tables, g) && g.pel != []
    ensures 1 <= g.pel[0] <= |stream|
    ensures ApplyEntry(tables, stream[g.pel[0] - 1]) == states[g.pel[0]]
    ensures Resumable(states, states[g.pel[0]], g)
    ensures Resumable(states, states[g.pel[0]], Acked(g, g.pel[0]))
    ensures Acked(g, g.pel[0]).pel == g.pel[1..]
  {
    AckHead(g.pel);
  }

  class Consumer {
    const store: Store
    const redis: Redis

    constructor (store: Store, redis: Redis)
      ensures this.store == store && this.redis == redis
    {
      this.store, this.redis := store, redis;
    }

    // A malformed entry is skipped; a known event id is skipped without a transaction.
    method Handle(entry: Entry) returns (applied: bool)
      modifies store`processed, store`cash, store`positions
      ensures store.AsTables() == ApplyEntry(old(store.AsTables()), entry)
      ensures applied <==> entry.Wire? && entry.event.eventId !in old(store.processed)
    {
      match entry
      case Malformed =>
        applied := false;
      case Wire(e) =>
        if store.AlreadyProcessed(e.eventId) {
          applied := false;
        } else {
          applied := store.ApplyEvent(e);
        }
    }

    // Apply the oldest pending entry.
    method HandleOldest(ghost states: seq<Tables>, id: nat)
      requires Deliveries(states, redis.stream) && redis.group.Some?
               && Resumable(states, store.AsTables(), redis.group.value)
      requires redis.group.value.pel != [] && id == redis.group.value.pel[0]
      modifies store`processed, store`cash, store`positions
      ensures 1 <= id <= |redis.stream| && store.AsTables() == states[id]
      ensures Resumable(states, store.AsTables(), redis.group.value)
      ensures Resumable(states, store.AsTables(), Acked(redis.group.value, id))
      ensures Acked(redis.group.value, id).pel == redis.group.value.pel[1..]
    {
      HandledThenAcked(states, store.AsTables(), redis.stream, redis.group.value);
      var _ := Handle(redis.stream[id - 1]);
    }

    // Reclaim everything pending: apply, then acknowledge, oldest first.
    method Reclaim(ghost states: seq<Tables>) returns (reclaimed: nat)
      requires Deliveries(states, redis.stream) && redis.group.Some?
               && Resumable(states, store.AsTables(), redis.group.value)
      modifies store`processed, store`cash, store`positions, redis`group
      ensures redis.group == Some(Group(old(redis.group).value.last, []))
      ensures store.AsTables() == states[redis.group.value.last]
      ensures reclaimed == |old(redis.group).value.pel|
    {
      var claimed := redis.XAutoClaim(CLAIM_COUNT);
      reclaimed := 0;
      for i := 0 to |claimed|
        invariant redis.group.Some? && redis.group.value == Group(old(redis.group).value.last, claimed[i..])
        invariant Resumable(states, store.AsTables(), redis.group.value)
        invariant reclaimed == i
      {
        HandleOldest(states, claimed[i]);
        redis.XAck(claimed[i]);
        reclaimed := reclaimed + 1;
      }
    }

    // Read at most one new entry, nothing being pending.
    method ReadOne(ghost states: seq<Tables>) returns (ids: seq<nat>)
      requires Deliveries(states, redis.stream) && redis.group.Some? && redis.group.value.pel == []
               && redis.group.value.last <= |redis.stream|
      requires store.AsTables() == states[redis.group.value.last]
      modifies redis`group
      ensures redis.group.Some?
      ensures Resumable(states, store.AsTables(), redis.group.value)
      ensures var last := old(redis.group).value.last;
              if last == |redis.stream| then ids == [] && redis.group == old(redis.group)
              else ids == [last + 1] && redis.group == Some(Group(last + 1, [last + 1]))
    {
      ids := redis.XReadGroup(1);
    }

    // One turn of the loop: reclaim, read one new entry, apply it, and acknowledge it
    // unless this is where the process dies.
    method Turn(dieIfRead: bool, ghost states: seq<Tables>) returns (reclaimed: nat, read: bool)
      requires Deliveries(states, redis.stream) && redis.group.Some?
               && Resumable(states, store.AsTables(), redis.group.value)
      modifies store`processed, store`cash, store`positions, redis`group
      ensures reclaimed == |old(redis.group).value.pel|
      ensures var last := old(redis.group).value.last;
              && (read <==> last < |redis.stream|)
              && redis.group == Some(if !read then Group(last, [])
                                     else Group(last + 1, if dieIfRead then [last + 1] else []))
              && store.AsTables() == states[redis.group.value.last]
    {
      reclaimed := Reclaim(states);
      var newIds := ReadOne(states);
      read := newIds != [];
      if read {
        HandleOldest(states, newIds[0]);
        if !dieIfRead {
          redis.XAck(newIds[0]);
        }
      }
    }

    // The process: stop after enough consecutive idle polls, or die after applying the
    // chosen new entry and before acknowledging it.
    method RunProcess(dieBeforeAckOn: int, maxIdlePolls: int, ghost states: seq<Tables>)
      returns (exit: int, appliedNew: nat, reclaimed: nat)
      requires Deliveries(states, redis.stream)
      requires Resumable(states, store.AsTables(), GroupOrNew(redis.group))
      modifies store`processed, store`cash, store`positions, redis`group
      ensures exit == if 1 <= dieBeforeAckOn <= |redis.stream| - GroupOrNew(old(redis.group)).last then 137 else 0
      // a clean exit leaves nothing undelivered or pending; death leaves the entry just applied pending
      ensures appliedNew == if exit == 137 then dieBeforeAckOn else |redis.stream| - GroupOrNew(old(redis.group)).last
      ensures var last := GroupOrNew(old(redis.group)).last + appliedNew;
              && redis.group == Some(Group(last, if exit == 137 then [last] else []))
              && last <= |redis.stream|
              && store.AsTables() == states[last]
      ensures reclaimed == |GroupOrNew(old(redis.group)).pel|
    {
      redis.XGroupCreate();
      ghost var start := redis.group.value;
      appliedNew, reclaimed := 0, 0;
      var idlePolls := 0;
      while true
        invariant redis.group.Some? && Resumable(states, store.AsTables(), redis.group.value)
        invariant redis.group.value.last == start.last + appliedNew
        invariant reclaimed + |redis.group.value.pel| == |start.pel|
        invariant dieBeforeAckOn < 1 || appliedNew < dieBeforeAckOn
        decreases |redis.stream| - redis.group.value.last + |redis.group.value.pel|, Max(0, maxIdlePolls - idlePolls)
      {
        var n, read := Turn(appliedNew + 1 == dieBeforeAckOn, states);
        reclaimed := reclaimed + n;
        if !read {
          if |redis.group.value.pel| == 0 {
            idlePolls := idlePolls + 1;
            if idlePolls >= maxIdlePolls {
              break;
            }
          }
          continue;
        }
        idlePolls := 0;
        appliedNew := appliedNew + 1;
        if appliedNew == dieBeforeAckOn {
          return 137, appliedNew, reclaimed;
        }
      }
      return 0, appliedNew, reclaimed;
    }
  }
}

module Seed {
  import opened Basics
  import opened Events

  const ACCOUNT_ID := "acct_123"
  const SEED_CASH := 10000.0

  datatype Side = Buy | Sell
  datatype Trade = Trade(symbol: string, side: Side, quantity: real, price: real)

  // Positions and cash that `trades` add up to.
  function Signed(t: Trade): real {
    if t.side == Buy then t.quantity else -t.quantity
  }

  // The event of one trade, given the events before it.
  predicate IsFill(log: seq<Event>, e: Event, t: Trade, name: string) {
    && e.eventId == name && e.account == ACCOUNT_ID && e.symbol == t.symbol && e.price == Some(t.price)
    && e.positionAfter == PositionIn(log, ACCOUNT_ID, t.symbol) + Signed(t)
    && ConsistentNext(log, e)
  }

  ghost predicate Fills(events: seq<Event>, trades: seq<Trade>, names: seq<string>) {
    && |events| <= |trades| == |names|
    && forall i :: 0 <= i < |events| ==> IsFill(events[..i], events[i], trades[i], names[i])
  }

  ghost predicate Tracks(positions: map<string, real>, events: seq<Event>) {
    forall s :: PositionIn(events, ACCOUNT_ID, s) == if s in positions then positions[s] else 0.0
  }

  lemma FillNext(events: seq<Event>, trades: seq<Trade>, names: seq<string>, positions: map<string, real>, e: Event)
    requires Fills(events, trades, names) && Tracks(positions, events) && |events| < |trades|
    requires IsFill(events, e, trades[|events|], names[|events|])
    ensures Fills(events + [e], trades, names)
    ensures Tracks(positions[e.symbol := e.positionAfter], events + [e])
  {
    var events' := events + [e];
    assert Front(events') == events;
    forall i | 0 <= i < |events'|
      ensures IsFill(events'[..i], events'[i], trades[i], names[i])
    {
      assert events'[..i] == events[..i];
      assert events[..|events|] == events;
    }
  }

  // One event per trade, with running positions; `names[i]` stands for its formatted id.
  method Generate(trades: seq<Trade>, names: seq<string>) returns (events: seq<Event>)
    requires |names| == |trades|
    requires forall i, j :: 0 <= i < j < |names| ==> names[i] != names[j]
    ensures |events| == |trades| && Fills(events, trades, names)
    ensures DistinctIds(events) && Consistent(events)
  {
    var positions: map<string, real> := map[];
    events := [];
    for i := 0 to |trades|
      invariant |events| == i && Fills(events, trades, names) && Tracks(positions, events)
    {
      var t := trades[i];
      var notional := t.quantity * t.price;
      var cashDelta := if t.side == Buy then -notional else notional;
      var before := if t.symbol in positions then positions[t.symbol] else 0.0;
      var after := before + Signed(t);
      var e := Event(names[i], ACCOUNT_ID, t.symbol, Some(t.price), cashDelta, after);
      assert after - before == Signed(t) && cashDelta == -(Signed(t) * t.price);
      FillNext(events, trades, names, positions, e);
      positions := positions[t.symbol := after];
      events := events + [e];
    }
  }

  function BaselineCash(events: seq<Event>): real {
    if events == [] then SEED_CASH else BaselineCash(Front(events)) + Last(events).cashDelta
  }

  function BaselinePositions(events: seq<Event>): map<string, real> {
    if events == [] then map[] else BaselinePositions(Front(events))[Last(events).symbol := Last(events).positionAfter]
  }

  method Baseline(events: seq<Event>) returns (cash: real, positions: map<string, real>)
    ensures cash == BaselineCash(events) && positions == BaselinePositions(events)
  {
    cash, positions := SEED_CASH, map[];
    for i := 0 to |events|
      invariant cash == BaselineCash(events[..i]) && positions == BaselinePositions(events[..i])
    {
      assert Front(events[..i + 1]) == events[..i];
      cash := cash + events[i].cashDelta;
      positions := positions[events[i].symbol := events[i].positionAfter];
    }
    assert events[..|events|] == events;
  }

  /** The baseline is what one delivery of each event leaves in the projection. */
  lemma {:induction false} BaselineIsSingleDelivery(events: seq<Event>)
    requires DistinctIds(events) && forall i :: 0 <= i < |events| ==> events[i].account == ACCOUNT_ID
    ensures var t := ApplyAll(Seeded(map[ACCOUNT_ID := SEED_CASH]), events);
            && t.cash == map[ACCOUNT_ID := BaselineCash(events)]
            && (forall k :: k in t.positions <==> k.0 == ACCOUNT_ID && k.1 in BaselinePositions(events))
            && (forall k :: k in t.positions ==> t.positions[k] == BaselinePositions(events)[k.1])
  {
    if events != [] {
      hide Projects, FirstOccurrences;
      assert events == Front(events) + [Last(events)];
      BaselineIsSingleDelivery(Front(events));
      var t := ApplyAll(Seeded(map[ACCOUNT_ID := SEED_CASH]), Front(events));
      NotYetProcessed(events);
      OneMoreDelivery(t, Front(events), Last(events));
    }
  }

  lemma NotYetProcessed(events: seq<Event>)
    requires DistinctIds(events) && events != []
    ensures Last(events).eventId !in ApplyAll(Seeded(map[ACCOUNT_ID := SEED_CASH]), Front(events)).processed
  {
    DerivedRefinesInPlace(map[ACCOUNT_ID := SEED_CASH], Front(events));
    FirstOccurrencesOfDistinct(Front(events));
  }

  lemma OneMoreDelivery(t: Tables, before: seq<Event>, e: Event)
    requires e.account == ACCOUNT_ID && e.eventId !in t.processed
    requires t.cash == map[ACCOUNT_ID := BaselineCash(before)]
    requires forall k :: k in t.positions <==> k.0 == ACCOUNT_ID && k.1 in BaselinePositions(before)
    requires forall k :: k in t.positions ==> t.positions[k] == BaselinePositions(before)[k.1]
    ensures var t', after := Apply(t, e), before + [e];
            && t'.cash == map[ACCOUNT_ID := BaselineCash(after)]
            && (forall k :: k in t'.positions <==> k.0 == ACCOUNT_ID && k.1 in BaselinePositions(after))
            && (forall k :: k in t'.positions ==> t'.positions[k] == BaselinePositions(after)[k.1])
  {
    assert Front(before + [e]) == before;
  }
}

module KillRestartProof {
  import opened Basics
  import opened Events
  import opened Groups
  import opened Pipeline
  import opened NativeStore
  import opened NativeRedis
  import opened Outbox
  import RelayProc
  import ConsumerProc
  import Seed

  function Seeds(): map<string, real> {
    map[Seed.ACCOUNT_ID := Seed.SEED_CASH]
  }

  lemma {:induction false} ParsedWires(a: seq<Event>, b: seq<Event>)
    ensures ConsumerProc.Parsed(Wires(a) + Wires(b)) == a + b
  {
    var entries := Wires(a) + Wires(b);
    if b != [] {
      assert Front(entries) == Wires(a) + Wires(Front(b));
      ParsedWires(a, Front(b));
    } else if a != [] {
      assert Front(entries) == Wires(Front(a)) + Wires(b);
      ParsedWires(Front(a), b);
      assert Front(a) + b == Front(a) && a + b == a;
    }
  }

  /** A relay killed after publishing row `put` and before marking it: publishing again from
      that row leaves the events as first occurrences. */
  lemma {:induction false} RestartedRelay(events: seq<Event>, put: nat, upTo: nat)
    requires DistinctIds(events) && 1 <= put <= |events| && put - 1 <= upTo <= |events|
    ensures FirstOccurrences(events[..put] + events[put - 1..upTo]) == events[..Max(put, upTo)]
  {
    var raw := events[..put] + events[put - 1..upTo];
    if upTo == put - 1 {
      assert raw == events[..put];
      FirstOccurrencesOfDistinct(events[..put]);
    } else {
      RestartedRelay(events, put, upTo - 1);
      assert Front(raw) == events[..put] + events[put - 1..upTo - 1];
      assert Last(raw) == events[upTo - 1];
      FirstOccurrencesFacts(Front(raw));
      HasPrefixIff(events, Max(put, upTo - 1), upTo - 1);
      assert Has(Front(raw), Last(raw).eventId) <==> upTo - 1 < put;
      if upTo > put {
        assert events[..upTo] == events[..upTo - 1] + [events[upTo - 1]];
      }
    }
  }

  // Whatever row the relay dies on and whatever entry the consumer dies on (out of range
  // meaning it survives), one restart of each ends in the single-delivery baseline.
  method Prove(events: seq<Event>, relayDiesOn: int, consumerDiesOn: int, maxIdlePolls: int)
    returns (store: Store, redis: Redis)
    requires DistinctIds(events) && forall i :: 0 <= i < |events| ==> events[i].account == Seed.ACCOUNT_ID
    ensures |redis.stream| == |events| + (if 1 <= relayDiesOn <= |events| then 1 else 0)
    ensures redis.group == Some(Group(|redis.stream|, []))
    ensures store.AsTables() == ApplyAll(Seeded(Seeds()), events)
    ensures |store.processed| == |events| && forall i :: 0 <= i < |events| ==> store.processed[i] == events[i].eventId
    ensures store.cash == map["acct_123" := 10000.0 + CashSum(events, "acct_123")]
    ensures forall s :: ("acct_123", s) in store.positions <==> LastFor(events, "acct_123", s).Some?
    ensures forall s :: ("acct_123", s) in store.positions ==>
              store.positions[("acct_123", s)] == PositionIn(events, "acct_123", s)
    ensures store.cash == map[Seed.ACCOUNT_ID := Seed.BaselineCash(events)]
    ensures forall s :: (Seed.ACCOUNT_ID, s) in store.positions <==> s in Seed.BaselinePositions(events)
    ensures forall s :: s in Seed.BaselinePositions(events) ==>
              store.positions[(Seed.ACCOUNT_ID, s)] == Seed.BaselinePositions(events)[s]
  {
    hide FirstOccurrences, ApplyAll, Apply, LastFor, CashSum, Has, ConsumerProc.Parsed;
    store := new Store();
    redis := new Redis();
    assert EventsOf([]) + events == events;
    var ok := store.SeedOutbox(events);
    store.InitProjection(Seed.ACCOUNT_ID, Seed.SEED_CASH);
    assert EventsOf(store.outbox) == events;

    RunRelay(store, redis, relayDiesOn, events);
    RunConsumer(store, redis, consumerDiesOn, maxIdlePolls);

    DeliveredTables(ConsumerProc.Parsed(redis.stream), events);
  }

  // The tables after delivering a stream whose first occurrences are the events.
  lemma DeliveredTables(raw: seq<Event>, events: seq<Event>)
    requires DistinctIds(events) && forall i :: 0 <= i < |events| ==> events[i].account == Seed.ACCOUNT_ID
    requires FirstOccurrences(raw) == events
    ensures var t := ApplyAll(Seeded(Seeds()), raw);
            && t == ApplyAll(Seeded(Seeds()), events)
            && |t.processed| == |events| && (forall i :: 0 <= i < |events| ==> t.processed[i] == events[i].eventId)
            && t.cash == map["acct_123" := 10000.0 + CashSum(events, "acct_123")]
            && t.cash == map[Seed.ACCOUNT_ID := Seed.BaselineCash(events)]
            && (forall s :: ("acct_123", s) in t.positions <==> LastFor(events, "acct_123", s).Some?)
            && (forall s :: ("acct_123", s) in t.positions ==>
                  t.positions[("acct_123", s)] == PositionIn(events, "acct_123", s))
            && (forall s :: (Seed.ACCOUNT_ID, s) in t.positions <==> s in Seed.BaselinePositions(events))
            && (forall s :: s in Seed.BaselinePositions(events) ==>
                  t.positions[(Seed.ACCOUNT_ID, s)] == Seed.BaselinePositions(events)[s])
  {
    FirstOccurrencesOfDistinct(events);
    OnlyFirstOccurrencesMatter(Seeds(), raw, events);
    DerivedRefinesInPlace(Seeds(), events);
    Seed.BaselineIsSingleDelivery(events);
    hide FirstOccurrences, ApplyAll, Apply;
  }

  ghost predicate SentPrefix(rows: seq<Row>, sent: nat) {
    sent <= |rows| && forall i :: 0 <= i < |rows| ==> (rows[i].sent <==> i < sent)
  }

  lemma PrefixMarked(before: seq<Row>, after: seq<Row>, sent: nat, n: nat)
    requires SentPrefix(before, sent) && n <= |before| - sent
    requires MarkedRows(before, after, Range(sent, |before|)[..n])
    ensures EventsOf(after) == EventsOf(before) && SentPrefix(after, sent + n)
  {
    var ids := Range(sent, |before|)[..n];
    forall i | 0 <= i < |after|
      ensures i in ids <==> sent <= i < sent + n
    {
      if sent <= i < sent + n {
        assert ids[i - sent] == i;
      }
    }
  }

  // One relay process over an outbox whose sent rows are a prefix.
  method RelayOnce(store: Store, redis: Redis, diesOn: int, ghost sent: nat) returns (died: bool, published: nat)
    requires SentPrefix(store.outbox, sent) && DistinctIds(EventsOf(store.outbox))
    modifies store`outbox, redis`stream
    ensures died <==> 1 <= diesOn <= |old(store.outbox)| - sent
    ensures published == if died then diesOn else |old(store.outbox)| - sent
    ensures EventsOf(store.outbox) == EventsOf(old(store.outbox))
    ensures SentPrefix(store.outbox, sent + if died then published - 1 else published)
    ensures redis.stream == old(redis.stream) + Wires(EventsOf(store.outbox)[sent..sent + published])
  {
    hide Marked, MarkedRows, Picked, Unsent, SentPrefix;
    ghost var rows := store.outbox;
    SuffixUnsent(rows, sent);
    var exit;
    exit, published := RelayProc.RunProcess(store, redis, diesOn);
    died := exit == 137;
    PrefixMarked(rows, store.outbox, sent, if died then published - 1 else published);
    PickedSuffix(rows, sent, published);
  }

  lemma SuffixUnsent(rows: seq<Row>, sent: nat)
    requires SentPrefix(rows, sent)
    ensures sent <= |rows| && Unsent(rows) == Range(sent, |rows|)
  {
    UnsentSuffix(rows, sent);
  }

  lemma PickedSuffix(rows: seq<Row>, sent: nat, n: nat)
    requires sent + n <= |rows|
    ensures InRange(Range(sent, |rows|)[..n], rows)
    ensures Picked(rows, Range(sent, |rows|)[..n]) == EventsOf(rows)[sent..sent + n]
  {
  }

  // Rows [..put] published by the first run, rows [sent..] by the second.
  lemma PublishedTwice(events: seq<Event>, put: nat, sent: nat)
    requires DistinctIds(events) && sent <= put <= |events|
    requires sent == put - 1 || (sent == put == |events|)
    ensures FirstOccurrences(
              ConsumerProc.Parsed(Wires(events[..put]) + Wires(events[sent..|events|]))) == events
  {
    ParsedWires(events[..put], events[sent..|events|]);
    if sent == put - 1 {
      RestartedRelay(events, put, |events|);
      assert events[..|events|] == events;
    } else {
      assert events[..put] + events[sent..|events|] == events;
      FirstOccurrencesOfDistinct(events);
    }
  }

  // The relay, killed once and run again.
  method RunRelay(store: Store, redis: Redis, diesOn: int, ghost events: seq<Event>)
    requires EventsOf(store.outbox) == events && DistinctIds(events) && redis.stream == []
    requires SentPrefix(store.outbox, 0)
    modifies store`outbox, redis`stream
    ensures SentPrefix(store.outbox, |store.outbox|)
    ensures |redis.stream| == |events| + (if 1 <= diesOn <= |events| then 1 else 0)
    ensures FirstOccurrences(ConsumerProc.Parsed(redis.stream)) == events
  {
    hide FirstOccurrences, ConsumerProc.Parsed, SentPrefix;
    var died, put := RelayOnce(store, redis, diesOn, 0);
    ghost var sent := if died then put - 1 else put;
    assert redis.stream == Wires(events[..put]);
    var _, _ := RelayOnce(store, redis, 0, sent);
    PublishedTwice(events, put, sent);
  }

  // The consumer, killed once and run again.
  method RunConsumer(store: Store, redis: Redis, diesOn: int, maxIdlePolls: int)
    requires redis.group == None && store.AsTables() == Seeded(Seeds())
    modifies store`processed, store`cash, store`positions, redis`group
    ensures redis.group == Some(Group(|redis.stream|, []))
    ensures store.AsTables() == ApplyAll(Seeded(Seeds()), ConsumerProc.Parsed(redis.stream))
  {
    hide Apply, ApplyAll, ConsumerProc.Parsed, ConsumerProc.ApplyEntry;
    ghost var states := ConsumerProc.SingleDelivery(Seeded(Seeds()), redis.stream);
    assert |states| == |redis.stream| + 1 && Range(1, 1) == [];
    var consumer := new ConsumerProc.Consumer(store, redis);
    var _, _, _ := consumer.RunProcess(diesOn, maxIdlePolls, states);
    var _, _, _ := consumer.RunProcess(0, maxIdlePolls, states);
  }
}
