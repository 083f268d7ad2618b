// The risk engine's stream worker (services/risk-engine/app/worker.py): reclaim, refresh,
// drain and the recompute throttle, over Redis streams with a consumer group each.

module RiskWorker {
  import opened Basics
  import opened Events
  import opened Groups
  import opened Windows
  import opened Prices
  import opened RiskStore
  import opened RiskMetrics
  import opened Attribution
  import opened RiskEngine
  import P = RiskPublication
  import Throttle
  import OutboxRelay

  // The pending entries whose idle time has passed the threshold, oldest first.
  function IdleIn(pel: seq<nat>, idle: nat -> bool): (ids: seq<nat>)
    ensures forall id :: id in ids <==> id in pel && idle(id)
  {
    if pel == [] then []
    else IdleIn(Front(pel), idle) + (if idle(Last(pel)) then [Last(pel)] else [])
  }

  function Claimable(pel: seq<nat>, idle: nat -> bool, count: nat): (ids: seq<nat>)
    ensures forall id :: id in ids ==> id in pel && idle(id)
  {
    var all := IdleIn(pel, idle);
    var ids := all[..Min(count, |all|)];
    assert forall id :: id in ids ==> id in all;
    ids
  }

  lemma {:induction false} IdleAscend(pel: seq<nat>, idle: nat -> bool)
    requires Ascending(pel)
    ensures Ascending(IdleIn(pel, idle))
  {
    if pel != [] {
      IdleAscend(Front(pel), idle);
      assert pel == Front(pel) + [Last(pel)];
      assert forall id :: id in Front(pel) ==> id < Last(pel);
      assert forall i :: 0 <= i < |IdleIn(Front(pel), idle)| ==> IdleIn(Front(pel), idle)[i] in Front(pel);
    }
  }

  /** A claim takes idle pending entries, oldest first: one is left only when the claim is full,
      of older ones. */
  lemma ClaimsOldest(pel: seq<nat>, idle: nat -> bool, count: nat)
    requires Ascending(pel)
    ensures var ids := Claimable(pel, idle, count);
            && Ascending(ids) && |ids| <= count
            && (forall id :: id in ids ==> id in pel && idle(id))
            && (forall id :: id in pel && idle(id) && id !in ids ==>
                  |ids| == count && forall older :: older in ids ==> older < id)
  {
    var all, ids := IdleIn(pel, idle), Claimable(pel, idle, count);
    IdleAscend(pel, idle);
    forall id | id in pel && idle(id) && id !in ids
      ensures |ids| == count && forall older :: older in ids ==> older < id
    {
      var k :| 0 <= k < |all| && all[k] == id;
      assert forall i :: 0 <= i < |ids| ==> ids[i] == all[i] && ids[i] in ids;
    }
  }

  ghost predicate GroupOk(g: Group, streamLen: nat) {
    && g.last <= streamLen && Ascending(g.pel)
    && forall id :: id in g.pel ==> 1 <= id <= g.last
  }

  // A stream with the worker's group on it; None is an entry that does not parse.
  class Feed<E> {
    var entries: seq<Option<E>>
    var group: Group

    ghost predicate Valid()
      reads this
    {
      GroupOk(group, |entries|)
    }

    constructor ()
      ensures entries == [] && group == Group(0, []) && Valid()
    {
      entries, group := [], Group(0, []);
    }

    method XAutoClaim(count: nat, idle: nat -> bool) returns (ids: seq<nat>)
      ensures ids == Claimable(group.pel, idle, count)
    {
      ids := Claimable(group.pel, idle, count);
    }

    method XReadGroup(count: nat) returns (ids: seq<nat>)
      requires count > 0
      modifies this`group
      ensures ids == NewIds(old(group), |entries|, count)
      ensures group == Delivered(old(group), ids)
    {
      ids := NewIds(group, |entries|, count);
      group := Delivered(group, ids);
    }

    method XAck(id: nat)
      modifies this`group
      ensures group == Acked(old(group), id)
    {
      group := Acked(group, id);
    }
  }

  // --- what deliveries amount to ----------------------------------------

  function At<E>(entries: seq<Option<E>>, id: nat): Option<E> {
    if 1 <= id <= |entries| then entries[id - 1] else None
  }

  function Parsed(env: Option<Envelope>): seq<Event> {
    if env.Some? && WellFormed(env.value) then [EventIn(env.value)] else []
  }

  // The events of the given entries, malformed ones dropped.
  function EventsIn(entries: seq<Option<Envelope>>, ids: seq<nat>): seq<Event>
  {
    if ids == [] then [] else EventsIn(entries, Front(ids)) + Parsed(At(entries, Last(ids)))
  }

  function Tick(env: Option<TickEnvelope>): seq<Sample> {
    if env.Some? && env.value.symbol != "" && env.value.price.Some?
    then [Sample(env.value.symbol, env.value.price.value)] else []
  }

  function SamplesIn(entries: seq<Option<TickEnvelope>>, ids: seq<nat>): seq<Sample>
  {
    if ids == [] then [] else SamplesIn(entries, Front(ids)) + Tick(At(entries, Last(ids)))
  }

  // One publication for each newly applied event, in order.
  ghost predicate NewlyPublished(before: seq<Event>, after: seq<Event>, risks: seq<P.Risk>) {
    && before <= after && |risks| == |after| - |before|
    && forall i :: 0 <= i < |risks| ==>
         risks[i].account == after[|before| + i].account && risks[i].cause == Some(after[|before| + i].eventId)
  }

  // Each computation's statistics are those of its account's retained window.
  predicate Measured(risks: seq<P.Risk>, rows: seq<Sample>) {
    forall i :: 0 <= i < |risks| ==> OverWindow(risks[i].data, rows, risks[i].account)
  }

  ghost predicate ComputedFor(risks: seq<P.Risk>, account: string) {
    exists i :: 0 <= i < |risks| && risks[i].account == account
  }

  ghost predicate Active(log: seq<Event>, account: string) {
    exists e :: e in log && e.account == account
  }

  // Every account with an event in the log has exactly one computation, and no other has any.
  ghost predicate OncePerAccount(risks: seq<P.Risk>, log: seq<Event>) {
    && (forall account :: ComputedFor(risks, account) <==> Active(log, account))
    && (forall i, j :: 0 <= i < j < |risks| ==> risks[i].account != risks[j].account)
  }

  lemma OnceEach(risks: seq<P.Risk>, log: seq<Event>)
    requires |risks| == |Distinct(log)| && forall i :: 0 <= i < |risks| ==> risks[i].account == Distinct(log)[i]
    ensures OncePerAccount(risks, log)
  {
    DistinctAreAccounts(log);
    forall account
      ensures ComputedFor(risks, account) <==> account in Distinct(log)
      ensures Active(log, account) <==> account in Distinct(log)
    {
      if account in Distinct(log) {
        var i :| 0 <= i < |Distinct(log)| && Distinct(log)[i] == account;
        assert risks[i].account == account;
      }
    }
  }

  // Each computation's portfolio value is the one sample its account's window received, and no
  // other window received any.
  ghost predicate SampledEach(before: seq<Sample>, after: seq<Sample>, risks: seq<P.Risk>, windowSize: int) {
    && (forall i :: 0 <= i < |risks| ==> OneSample(before, after, risks[i], windowSize))
    && (forall k :: (forall i :: 0 <= i < |risks| ==> risks[i].account != k) ==>
          ValuesOf(after, k) == ValuesOf(before, k))
  }

  ghost predicate OneSample(before: seq<Sample>, after: seq<Sample>, risk: P.Risk, windowSize: int) {
    var all, kept := ValuesOf(before, risk.account) + [risk.data.portfolioValue], ValuesOf(after, risk.account);
    && |kept| == Min(|all|, Max(windowSize, 0) + 1)
    && kept == all[|all| - |kept|..]
  }

  lemma NothingSampled(rows: seq<Sample>, windowSize: int)
    ensures SampledEach(rows, rows, [], windowSize)
  {
  }

  lemma SampledNext(before: seq<Sample>, mid: seq<Sample>, after: seq<Sample>, risks: seq<P.Risk>, risk: P.Risk,
                    windowSize: int)
    requires SampledEach(before, mid, risks, windowSize)
    requires Sampled(mid, after, Sample(risk.account, risk.data.portfolioValue), windowSize)
    requires forall i :: 0 <= i < |risks| ==> risks[i].account != risk.account
    ensures SampledEach(before, after, risks + [risk], windowSize)
  {
    hide ValuesOf;
    var risks' := risks + [risk];
    assert ValuesOf(mid, risk.account) == ValuesOf(before, risk.account);
    forall i | 0 <= i < |risks'|
      ensures OneSample(before, after, risks'[i], windowSize)
    {
      if i < |risks| {
        assert OneSample(before, mid, risks[i], windowSize);
      }
    }
    forall k | forall i :: 0 <= i < |risks'| ==> risks'[i].account != k
      ensures ValuesOf(after, k) == ValuesOf(before, k)
    {
      assert risks'[|risks|].account != k;
      assert forall i :: 0 <= i < |risks| ==> risks'[i] == risks[i];
    }
  }

  lemma NothingDone(s: P.State, log: seq<Event>, rows: seq<Sample>)
    ensures P.Run(s, []) == s && NewlyPublished(log, log, []) && Measured([], rows)
  {
  }

  lemma PublishedConcat(before: seq<Event>, mid: seq<Event>, after: seq<Event>, a: seq<P.Risk>, b: seq<P.Risk>)
    requires NewlyPublished(before, mid, a) && NewlyPublished(mid, after, b)
    ensures NewlyPublished(before, after, a + b)
  {
  }

  lemma MeasuredConcat(a: seq<P.Risk>, b: seq<P.Risk>, rows: seq<Sample>)
    requires Measured(a, rows) && Measured(b, rows)
    ensures Measured(a + b, rows)
  {
  }

  // A sample of another account leaves them so.
  lemma MeasuredAfter(risks: seq<P.Risk>, rows: seq<Sample>, s: Sample, windowSize: int)
    requires Measured(risks, rows) && forall i :: 0 <= i < |risks| ==> risks[i].account != s.key
    ensures Measured(risks, Append(rows, s, windowSize))
  {
    hide OverReturns, ReturnsOf;
    forall i | 0 <= i < |risks|
      ensures ValuesOf(Append(rows, s, windowSize), risks[i].account) == ValuesOf(rows, risks[i].account)
    {
      EvictSparesOthers(rows + [s], s.key, Keep(windowSize), risks[i].account);
      ValuesAppend(rows, s, risks[i].account);
    }
  }

  lemma PublishedCount(before: seq<Event>, after: seq<Event>, risks: seq<P.Risk>)
    requires NewlyPublished(before, after, risks)
    ensures |risks| == |after| - |before|
  {
  }

  // An entry that parses is inserted, unless it is a duplicate.
  function Absorb(log: seq<Event>, env: Option<Envelope>): seq<Event> {
    if env.Some? && WellFormed(env.value) then Insert(log, EventIn(env.value)) else log
  }

  lemma EventsInNext(entries: seq<Option<Envelope>>, ids: seq<nat>, i: nat, log: seq<Event>)
    requires i < |ids|
    ensures InsertAll(log, EventsIn(entries, ids[..i + 1]))
         == Absorb(InsertAll(log, EventsIn(entries, ids[..i])), At(entries, ids[i]))
  {
    hide Insert;
    var es, env := EventsIn(entries, ids[..i]), At(entries, ids[i]);
    assert Front(ids[..i + 1]) == ids[..i] && Last(ids[..i + 1]) == ids[i];
    assert EventsIn(entries, ids[..i + 1]) == es + Parsed(env);
    if Parsed(env) == [] {
      assert es + [] == es;
    } else {
      InsertAllNext(log, es, EventIn(env.value));
    }
  }

  lemma InsertAllNext(log: seq<Event>, es: seq<Event>, e: Event)
    ensures InsertAll(log, es + [e]) == Insert(InsertAll(log, es), e)
  {
    assert Front(es + [e]) == es;
  }

  lemma RecordedNext(cache: map<string, real>, rows: seq<Sample>, samples: seq<Sample>, x: Sample, windowSize: int)
    ensures Cached(cache, samples + [x]) == Cached(cache, samples)[x.key := x.value]
    ensures AppendAll(rows, samples + [x], windowSize) == Append(AppendAll(rows, samples, windowSize), x, windowSize)
  {
    hide Append;
    assert Front(samples + [x]) == samples;
  }

  lemma SamplesInNext(entries: seq<Option<TickEnvelope>>, ids: seq<nat>, i: nat,
                      cache: map<string, real>, rows: seq<Sample>, windowSize: int)
    requires i < |ids|
    ensures var before, after := SamplesIn(entries, ids[..i]), SamplesIn(entries, ids[..i + 1]);
            var tick := Tick(At(entries, ids[i]));
            if tick == [] then after == before
            else
              && Cached(cache, after) == Cached(cache, before)[tick[0].key := tick[0].value]
              && AppendAll(rows, after, windowSize) == Append(AppendAll(rows, before, windowSize), tick[0], windowSize)
  {
    hide Append, Cached, AppendAll;
    var before, tick := SamplesIn(entries, ids[..i]), Tick(At(entries, ids[i]));
    assert Front(ids[..i + 1]) == ids[..i] && Last(ids[..i + 1]) == ids[i];
    assert SamplesIn(entries, ids[..i + 1]) == before + tick;
    if tick == [] {
      assert before + [] == before;
    } else {
      RecordedNext(cache, rows, before, tick[0], windowSize);
    }
  }

  lemma {:induction false} AckedAllOk(g: Group, streamLen: nat, ids: seq<nat>)
    requires GroupOk(g, streamLen)
    ensures GroupOk(AckedAll(g, ids), streamLen) && AckedAll(g, ids).last == g.last
  {
    if ids != [] {
      AckedAllOk(g, streamLen, Front(ids));
      WithoutAscending(AckedAll(g, Front(ids)).pel, Last(ids));
    }
  }

  lemma NewIdsAreNext(g: Group, streamLen: nat, count: int)
    requires g.last <= streamLen
    ensures var ids := NewIds(g, streamLen, count);
            && g.last + |ids| <= streamLen && ids == Range(g.last + 1, g.last + 1 + |ids|)
            && Delivered(g, ids) == Group(g.last + |ids|, g.pel + ids)
  {
    if NewIds(g, streamLen, count) == [] {
      assert g.pel + [] == g.pel;
    }
  }

  lemma DrainedBatch(g: Group, streamLen: nat, count: int)
    requires GroupOk(g, streamLen)
    ensures var ids := NewIds(g, streamLen, count);
            g.last + |ids| <= streamLen && AckedAll(Delivered(g, ids), ids) == Group(g.last + |ids|, g.pel)
  {
    hide AckedAll, NewIds, Delivered;
    var ids := NewIds(g, streamLen, count);
    NewIdsAreNext(g, streamLen, count);
    assert forall i :: 0 <= i < |g.pel| ==> g.pel[i] in g.pel;
    DeliveredAscending(g, |ids|);
    assert Ascending(g.pel + ids) by {
      NewIdsAreNext(g, streamLen, count);
      DeliveredPel(g, ids);
    }
    AckTail(g.last + |ids|, g.pel, ids, |ids|);
    assert ids[..|ids|] == ids && ids[|ids|..] == [] && g.pel + [] == g.pel;
  }

  lemma DeliveredPel(g: Group, ids: seq<nat>)
    ensures Delivered(g, ids).pel == g.pel + ids
  {
  }

  lemma ThreeMore(s: P.State, actions: seq<P.Action>, a: P.Action, b: P.Action, c: P.Action)
    ensures P.Run(s, actions + [a, b, c]) == P.Do(P.Do(P.Do(P.Run(s, actions), a), b), c)
  {
    hide P.Do;
    OneMore(s, actions, a);
    OneMore(s, actions + [a], b);
    OneMore(s, actions + [a] + [b], c);
    assert actions + [a, b, c] == actions + [a] + [b] + [c];
  }

  lemma TwoMore(s: P.State, actions: seq<P.Action>, a: P.Action, b: P.Action)
    ensures P.Run(s, actions + [a, b]) == P.Do(P.Do(P.Run(s, actions), a), b)
  {
    hide P.Do;
    OneMore(s, actions, a);
    OneMore(s, actions + [a], b);
    assert actions + [a, b] == actions + [a] + [b];
  }

  lemma OneMore(s: P.State, actions: seq<P.Action>, a: P.Action)
    ensures P.Run(s, actions + [a]) == P.Do(P.Run(s, actions), a)
  {
    assert Front(actions + [a]) == actions;
  }

  lemma {:induction false} RunConcat(s: P.State, a: seq<P.Action>, b: seq<P.Action>)
    ensures P.Run(P.Run(s, a), b) == P.Run(s, a + b)
  {
    hide P.Do;
    if b == [] {
      assert a + b == a;
    } else {
      assert Front(a + b) == a + Front(b);
      RunConcat(s, a, Front(b));
    }
  }

  // --- in order, cycle after cycle --------------------------------------

  // The group and the log after one cycle.
  ghost function AfterCycle(g: Group, log: seq<Event>, entries: seq<Option<Envelope>>, idle: nat -> bool,
                            batchSize: nat)
    : (Group, seq<Event>)
    requires GroupOk(g, |entries|)
  {
    var claimed := Claimable(g.pel, idle, batchSize);
    var read := NewIds(g, |entries|, batchSize);
    (Group(g.last + |read|, AckedAll(g, claimed).pel),
     InsertAll(InsertAll(log, EventsIn(entries, claimed)), EventsIn(entries, read)))
  }

  // Its two parts: what the reclaim leaves, and then the drain.
  lemma CycleParts(g: Group, log: seq<Event>, entries: seq<Option<Envelope>>, idle: nat -> bool, batchSize: nat,
                   g1: Group, log1: seq<Event>, g2: Group, log2: seq<Event>)
    requires GroupOk(g, |entries|)
    requires var claimed := Claimable(g.pel, idle, batchSize);
             g1 == AckedAll(g, claimed) && log1 == InsertAll(log, EventsIn(entries, claimed))
    requires var read := NewIds(g1, |entries|, batchSize);
             g2 == Group(g1.last + |read|, g1.pel) && log2 == InsertAll(log1, EventsIn(entries, read))
    ensures AfterCycle(g, log, entries, idle, batchSize) == (g2, log2)
  {
    hide Claimable, InsertAll, EventsIn, AckedAll;
    AckedAllOk(g, |entries|, Claimable(g.pel, idle, batchSize));
    SameCursor(g, g1, |entries|, batchSize);
  }

  lemma {:induction false} AllIdle(pel: seq<nat>, idle: nat -> bool)
    requires forall id :: id in pel ==> idle(id)
    ensures IdleIn(pel, idle) == pel
  {
    if pel != [] {
      AllIdle(Front(pel), idle);
      assert Last(pel) in pel;
    }
  }

  lemma {:induction false} InsertAllConcat(log: seq<Event>, a: seq<Event>, b: seq<Event>)
    ensures InsertAll(log, a + b) == InsertAll(InsertAll(log, a), b)
  {
    if b == [] {
      assert a + b == a;
    } else {
      hide Insert;
      assert Front(a + b) == a + Front(b);
      InsertAllConcat(log, a, Front(b));
    }
  }

  lemma {:induction false} InsertKnown(log: seq<Event>, es: seq<Event>)
    requires forall i :: 0 <= i < |es| ==> Has(log, es[i].eventId)
    ensures InsertAll(log, es) == log
  {
    if es != [] {
      InsertKnown(log, Front(es));
    }
  }

  // Events y were applied, are delivered again, and then z follows.
  lemma Redelivered(x: seq<Event>, y: seq<Event>, z: seq<Event>)
    ensures InsertAll(FirstOccurrences(x + y), y + z) == FirstOccurrences(x + y + z)
  {
    var log := FirstOccurrences(x + y);
    FirstOccurrencesFacts(x + y);
    forall i | 0 <= i < |y|
      ensures Has(log, y[i].eventId)
    {
      assert (x + y)[|x| + i] == y[i];
    }
    InsertKnown(log, y);
    InsertAllConcat(log, y, z);
    InsertAllIsFirstOccurrences(x + y);
    InsertAllConcat([], x + y, z);
    InsertAllIsFirstOccurrences(x + y + z);
  }

  // The events of entries from + 1 .. upTo.
  ghost function Between(entries: seq<Option<Envelope>>, from: nat, upTo: nat): seq<Event>
    requires from <= upTo <= |entries|
  {
    EventsIn(entries, Range(from + 1, upTo + 1))
  }

  lemma {:induction false} BetweenSplit(entries: seq<Option<Envelope>>, from: nat, mid: nat, upTo: nat)
    requires from <= mid <= upTo <= |entries|
    ensures Between(entries, from, upTo) == Between(entries, from, mid) + Between(entries, mid, upTo)
  {
    hide Between;
    if mid < upTo {
      BetweenSplit(entries, from, mid, upTo - 1);
      BetweenNext(entries, from, upTo - 1);
      BetweenNext(entries, mid, upTo - 1);
    } else {
      BetweenNone(entries, mid);
    }
  }

  lemma BetweenNone(entries: seq<Option<Envelope>>, at: nat)
    requires at <= |entries|
    ensures Between(entries, at, at) == []
  {
    assert Range(at + 1, at + 1) == [];
  }

  lemma BetweenNext(entries: seq<Option<Envelope>>, from: nat, upTo: nat)
    requires from <= upTo < |entries|
    ensures Between(entries, from, upTo + 1) == Between(entries, from, upTo) + Parsed(entries[upTo])
  {
    var ids := Range(from + 1, upTo + 2);
    assert Front(ids) == Range(from + 1, upTo + 1) && Last(ids) == upTo + 1;
  }

  // What a restart finds: entries up to `k` are applied, those after `acked` pending.
  ghost predicate Resumable(g: Group, log: seq<Event>, entries: seq<Option<Envelope>>) {
    && |g.pel| <= g.last <= |entries|
    && g.pel == Range(g.last - |g.pel| + 1, g.last + 1)
    && exists k :: g.last - |g.pel| <= k <= g.last && log == FirstOccurrences(Between(entries, 0, k))
  }

  /** A cycle whose reclaim finds every pending entry idle, and no more of them than one batch,
      leaves nothing pending and applies the next batch in stream order, wherever among the
      pending entries the previous process died. */
  lemma PromptCycle(g: Group, log: seq<Event>, entries: seq<Option<Envelope>>, idle: nat -> bool, batchSize: nat)
    requires Resumable(g, log, entries) && GroupOk(g, |entries|)
    requires batchSize > 0 && |g.pel| <= batchSize && forall id :: id in g.pel ==> idle(id)
    ensures var (g', log') := AfterCycle(g, log, entries, idle, batchSize);
            && g' == Group(Min(g.last + batchSize, |entries|), [])
            && log' == FirstOccurrences(Between(entries, 0, g'.last))
  {
    hide FirstOccurrences, InsertAll, EventsIn, IdleIn, NewIds, AckedAll;
    AllIdle(g.pel, idle);
    AckPending(g);
    assert g.pel[..|g.pel|] == g.pel;
    var last' := Min(g.last + batchSize, |entries|);
    NextBatch(g, |entries|, batchSize);
    AppliedThrough(g, log, entries, last');
  }

  lemma SameCursor(g: Group, h: Group, streamLen: nat, count: int)
    requires g.last == h.last
    ensures NewIds(g, streamLen, count) == NewIds(h, streamLen, count)
  {
  }

  lemma NextBatch(g: Group, streamLen: nat, batchSize: nat)
    requires g.last <= streamLen && batchSize > 0
    ensures var last' := Min(g.last + batchSize, streamLen);
            last' >= g.last && NewIds(g, streamLen, batchSize) == Range(g.last + 1, last' + 1)
  {
  }

  lemma AppliedThrough(g: Group, log: seq<Event>, entries: seq<Option<Envelope>>, upTo: nat)
    requires Resumable(g, log, entries) && g.last <= upTo <= |entries|
    ensures InsertAll(InsertAll(log, EventsIn(entries, g.pel)), EventsIn(entries, Range(g.last + 1, upTo + 1)))
         == FirstOccurrences(Between(entries, 0, upTo))
  {
    hide FirstOccurrences, InsertAll, EventsIn;
    var acked := g.last - |g.pel|;
    var k :| acked <= k <= g.last && log == FirstOccurrences(Between(entries, 0, k));
    var x, y, z := Between(entries, 0, acked), Between(entries, acked, k), Between(entries, k, upTo);
    InsertAllConcat(log, Between(entries, acked, g.last), Between(entries, g.last, upTo));
    BetweenSplit(entries, acked, g.last, upTo);
    BetweenSplit(entries, acked, k, upTo);
    BetweenSplit(entries, 0, acked, k);
    BetweenSplit(entries, 0, k, upTo);
    Redelivered(x, y, z);
  }

  // --- where a process may stop ------------------------------------------

  // Group and log with the first `acked` entries acknowledged and the first `handled` applied.
  ghost function Progress(g: Group, log: seq<Event>, entries: seq<Option<Envelope>>, ids: seq<nat>, acked: nat,
                          handled: nat)
    : (Group, seq<Event>)
    requires acked <= |ids| && handled <= |ids|
  {
    (AckedAll(g, ids[..acked]), InsertAll(log, EventsIn(entries, ids[..handled])))
  }

  lemma ProgressEnds(g: Group, log: seq<Event>, entries: seq<Option<Envelope>>, ids: seq<nat>)
    ensures Progress(g, log, entries, ids, 0, 0) == (g, log)
    ensures Progress(g, log, entries, ids, |ids|, |ids|) == (AckedAll(g, ids), InsertAll(log, EventsIn(entries, ids)))
  {
    assert ids[..|ids|] == ids;
  }

  // Handling one more entry, and then acknowledging it.
  lemma ProgressNext(g: Group, log: seq<Event>, entries: seq<Option<Envelope>>, ids: seq<nat>, i: nat)
    requires i < |ids|
    ensures var (g', log') := Progress(g, log, entries, ids, i, i);
            && Progress(g, log, entries, ids, i, i + 1) == (g', Absorb(log', At(entries, ids[i])))
            && Progress(g, log, entries, ids, i + 1, i + 1) == (Acked(g', ids[i]), Absorb(log', At(entries, ids[i])))
  {
    hide Absorb, Acked, InsertAll, EventsIn;
    assert Front(ids[..i + 1]) == ids[..i];
    EventsInNext(entries, ids, i, log);
  }

  // Entries acked + 1 .. upTo are applied on top of a log that holds those up to k.
  lemma Reapplied(entries: seq<Option<Envelope>>, acked: nat, k: nat, upTo: nat)
    requires acked <= k <= |entries| && acked <= upTo <= |entries|
    ensures InsertAll(FirstOccurrences(Between(entries, 0, k)), Between(entries, acked, upTo))
         == FirstOccurrences(Between(entries, 0, Max(k, upTo)))
  {
    hide FirstOccurrences, InsertAll, Between;
    var mid := Min(k, upTo);
    var x, y := Between(entries, 0, acked), Between(entries, acked, mid);
    BetweenSplit(entries, 0, acked, mid);
    if upTo <= k {
      BetweenSplit(entries, 0, upTo, k);
      KnownPart(x, y, Between(entries, upTo, k));
    } else {
      BetweenSplit(entries, acked, k, upTo);
      BetweenSplit(entries, 0, k, upTo);
      Redelivered(x, y, Between(entries, k, upTo));
    }
  }

  lemma KnownPart(x: seq<Event>, y: seq<Event>, z: seq<Event>)
    ensures InsertAll(FirstOccurrences(x + y + z), y) == FirstOccurrences(x + y + z)
  {
    var all := x + y + z;
    FirstOccurrencesFacts(all);
    forall i | 0 <= i < |y|
      ensures Has(FirstOccurrences(all), y[i].eventId)
    {
      assert all[|x| + i] == y[i];
    }
    InsertKnown(FirstOccurrences(all), y);
  }

  lemma RangeParts(lo: nat, hi: nat, n: nat)
    requires lo <= hi && n <= hi - lo
    ensures Range(lo, hi)[..n] == Range(lo, lo + n) && Range(lo, hi)[n..] == Range(lo + n, hi)
  {
  }

  // Stopped while reclaiming.
  lemma StoppedReclaim(g: Group, log: seq<Event>, entries: seq<Option<Envelope>>, idle: nat -> bool, batchSize: nat,
                       acked: nat, handled: nat)
    requires Resumable(g, log, entries) && GroupOk(g, |entries|)
    requires |g.pel| <= batchSize && forall id :: id in g.pel ==> idle(id)
    requires acked <= handled <= |Claimable(g.pel, idle, batchSize)|
    ensures var (g', log') := Progress(g, log, entries, Claimable(g.pel, idle, batchSize), acked, handled);
            Resumable(g', log', entries) && GroupOk(g', |entries|) && |g'.pel| <= batchSize
  {
    hide FirstOccurrences, InsertAll, EventsIn, IdleIn, AckedAll, Ascending;
    AllIdle(g.pel, idle);
    assert g.pel[..|g.pel|] == g.pel;
    var first := g.last - |g.pel|;
    AckedRange(first, |g.pel|, |entries|, acked);
    AppliedPart(g, log, entries, handled);
  }

  lemma AppliedPart(g: Group, log: seq<Event>, entries: seq<Option<Envelope>>, handled: nat)
    requires Resumable(g, log, entries) && handled <= |g.pel|
    ensures var first := g.last - |g.pel|;
            exists k :: first + handled <= k <= g.last
              && InsertAll(log, EventsIn(entries, g.pel[..handled])) == FirstOccurrences(Between(entries, 0, k))
  {
    hide FirstOccurrences, InsertAll, EventsIn;
    var first := g.last - |g.pel|;
    var k :| first <= k <= g.last && log == FirstOccurrences(Between(entries, 0, k));
    RangeParts(first + 1, g.last + 1, handled);
    Reapplied(entries, first, k, first + handled);
    assert first + handled <= Max(k, first + handled) <= g.last;
  }

  lemma AckFirst(g: Group, n: nat)
    requires Ascending(g.pel) && n <= |g.pel|
    ensures AckedAll(g, g.pel[..n]) == Group(g.last, g.pel[n..])
  {
    assert [] + g.pel == g.pel && [] + g.pel[n..] == g.pel[n..];
    AckTail(g.last, [], g.pel, n);
  }

  // Stopped while draining, with nothing older pending.
  lemma StoppedDrain(g: Group, log: seq<Event>, entries: seq<Option<Envelope>>, batchSize: nat, acked: nat,
                     handled: nat)
    requires Resumable(g, log, entries) && g.pel == [] && batchSize > 0
    requires acked <= handled <= |NewIds(g, |entries|, batchSize)|
    ensures var ids := NewIds(g, |entries|, batchSize);
            var (g', log') := Progress(Delivered(g, ids), log, entries, ids, acked, handled);
            Resumable(g', log', entries) && GroupOk(g', |entries|) && |g'.pel| <= batchSize
  {
    hide FirstOccurrences, InsertAll, EventsIn, NewIds, Delivered, AckedAll;
    var ids := NewIds(g, |entries|, batchSize);
    DrainStopped(g, |entries|, batchSize, acked);
    RangeParts(g.last + 1, g.last + 1 + |ids|, handled);
    Reapplied(entries, g.last, g.last, g.last + handled);
    assert log == FirstOccurrences(Between(entries, 0, g.last));
  }

  lemma DrainStopped(g: Group, streamLen: nat, batchSize: nat, acked: nat)
    requires g.last <= streamLen && g.pel == [] && batchSize > 0
    requires acked <= |NewIds(g, streamLen, batchSize)|
    ensures var ids := NewIds(g, streamLen, batchSize);
            && |ids| <= batchSize && g.last + |ids| <= streamLen && ids == Range(g.last + 1, g.last + 1 + |ids|)
            && AckedAll(Delivered(g, ids), ids[..acked])
               == Group(g.last + |ids|, Range(g.last + 1 + acked, g.last + 1 + |ids|))
            && GroupOk(AckedAll(Delivered(g, ids), ids[..acked]), streamLen)
  {
    hide NewIds, Delivered, AckedAll, Ascending;
    var ids := NewIds(g, streamLen, batchSize);
    NextBatch(g, streamLen, batchSize);
    NewIdsAreNext(g, streamLen, batchSize);
    assert [] + ids == ids;
    AckedRange(g.last, |ids|, streamLen, acked);
  }

  lemma AckedRange(first: nat, n: nat, streamLen: nat, acked: nat)
    requires acked <= n && first + n <= streamLen
    ensures var ids := Range(first + 1, first + 1 + n);
            var rest := Group(first + n, Range(first + 1 + acked, first + 1 + n));
            AckedAll(Group(first + n, ids), ids[..acked]) == rest && GroupOk(rest, streamLen)
  {
    hide AckedAll;
    RangeParts(first + 1, first + 1 + n, acked);
    AckFirst(Group(first + n, Range(first + 1, first + 1 + n)), acked);
  }

  ghost function AfterCycles(g: Group, log: seq<Event>, entries: seq<Option<Envelope>>, idle: nat -> bool,
                             batchSize: nat, n: nat): (r: (Group, seq<Event>))
    requires GroupOk(g, |entries|)
    ensures GroupOk(r.0, |entries|)
  {
    if n == 0 then (g, log)
    else
      var (g', log') := AfterCycles(g, log, entries, idle, batchSize, n - 1);
      AckedAllOk(g', |entries|, Claimable(g'.pel, idle, batchSize));
      AfterCycle(g', log', entries, idle, batchSize)
  }

  /** Once nothing new arrives the worker is caught up, with nothing pending and every entry
      applied in stream order, after exactly ceil(undelivered / batch size) cycles (and at
      least one, for what was pending). */
  lemma {:induction false} CaughtUp(g: Group, log: seq<Event>, entries: seq<Option<Envelope>>, idle: nat -> bool,
                                    batchSize: nat, n: nat)
    requires Resumable(g, log, entries) && GroupOk(g, |entries|)
    requires batchSize > 0 && |g.pel| <= batchSize && forall id :: id in g.pel ==> idle(id)
    requires n > 0
    ensures var (g', log') := AfterCycles(g, log, entries, idle, batchSize, n);
            && g'.pel == [] && g'.last == Min(g.last + n * batchSize, |entries|)
            && log' == FirstOccurrences(Between(entries, 0, g'.last))
            && (g'.last == |entries| <==> n >= (|entries| - g.last + batchSize - 1) / batchSize)
  {
    hide FirstOccurrences, AfterCycle, Claimable, Between, Ascending;
    OutboxRelay.CeilIff(|entries| - g.last, batchSize, n);
    if n == 1 {
      assert AfterCycles(g, log, entries, idle, batchSize, 0) == (g, log);
      PromptCycle(g, log, entries, idle, batchSize);
    } else {
      CaughtUp(g, log, entries, idle, batchSize, n - 1);
      var (g', log') := AfterCycles(g, log, entries, idle, batchSize, n - 1);
      assert (n - 1) * batchSize + batchSize == n * batchSize;
      assert Range(g'.last + 1, g'.last + 1) == [];
      PromptCycle(g', log', entries, idle, batchSize);
    }
  }

  class Worker {
    const consumer: Consumer
    const ledger: Feed<Envelope>
    const ticks: Feed<TickEnvelope>
    var riskStream: seq<P.Risk>
    var lastRecompute: Option<real>
    ghost var builds: seq<P.Build>
    ghost var calls: seq<real>      // the throttle's calls in this process's lifetime

    constructor (consumer: Consumer, ledger: Feed<Envelope>, ticks: Feed<TickEnvelope>)
      ensures this.consumer == consumer && this.ledger == ledger && this.ticks == ticks
      ensures riskStream == [] && lastRecompute == None && builds == [] && calls == [] && Paced()
    {
      this.consumer, this.ledger, this.ticks := consumer, ledger, ticks;
      riskStream, lastRecompute, builds, calls := [], None, [], [];
    }

    // The publication machine's view of a worker between steps.
    ghost function AsState(): P.State
      reads this, consumer.store
    {
      P.State(consumer.store.appliedEvents, consumer.store.snapshots, riskStream, P.Idle, builds)
    }

    // The last recompute is the last firing of the calls so far.
    ghost predicate Paced()
      reads this`lastRecompute, this`calls
    {
      lastRecompute == Throttle.LastFiring(Throttle.Firings(calls, consumer.config.recomputeIntervalMs))
    }

    // One entry of reclaim or drain, before its ack: apply, build, publish.
    method HandleEntry(env: Option<Envelope>) returns (published: bool, ghost data: Metrics)
      requires consumer.Valid()
      modifies this`riskStream, this`builds, consumer.store`appliedEvents, consumer.store`snapshots
      ensures published <==>
                env.Some? && WellFormed(env.value) && !Has(old(consumer.store.appliedEvents), env.value.eventId)
      ensures consumer.store.appliedEvents == Absorb(old(consumer.store.appliedEvents), env)
      ensures !published ==> AsState() == old(AsState())
      ensures published ==>
                && riskStream == old(riskStream) + [P.Risk(env.value.account, data, Some(env.value.eventId))]
                && AsState() == P.Do(P.Do(P.Do(old(AsState()), P.Deliver(EventIn(env.value))), P.BuildFor(data)),
                                     P.Publish)
                && consumer.Describes(data, env.value.account)
    {
      hide Pnl, OverWindow;
      published, data := false, Metrics(0.0, 0.0, 0.0, 0.0, 0.0);
      if env.Some? {
        var built := consumer.ProcessLedger(env.value);
        if built.Some? {
          data := built.value;
          PublishBuilt(P.Risk(env.value.account, built.value, Some(env.value.eventId)));
          published := true;
        }
      }
    }

    // Handle one delivered entry, then acknowledge it.
    method HandleThenAck(id: nat) returns (published: bool, ghost risks: seq<P.Risk>, ghost actions: seq<P.Action>)
      requires consumer.Valid()
      modifies this`riskStream, this`builds, consumer.store`appliedEvents, consumer.store`snapshots, ledger`group
      ensures ledger.group == Acked(old(ledger.group), id)
      ensures consumer.store.appliedEvents == Absorb(old(consumer.store.appliedEvents), At(ledger.entries, id))
      ensures AsState() == P.Run(old(AsState()), actions)
      ensures riskStream == old(riskStream) + risks && |risks| == (if published then 1 else 0)
      ensures Measured(risks, consumer.store.pvHistory)
      ensures NewlyPublished(old(consumer.store.appliedEvents), consumer.store.appliedEvents, risks)
    {
      hide Pnl, OverWindow, Has;
      var env := At(ledger.entries, id);
      ghost var data;
      published, data := HandleEntry(env);
      if published {
        var e := EventIn(env.value);
        risks := [P.Risk(e.account, data, Some(e.eventId))];
        actions := [P.Deliver(e), P.BuildFor(data), P.Publish];
        ThreeMore(old(AsState()), [], P.Deliver(e), P.BuildFor(data), P.Publish);
        assert [] + actions == actions;
      } else {
        risks, actions := [], [];
      }
      ledger.XAck(id);
    }

    // Each delivered entry in order: group and log are at Progress(.., i, i) between two
    // entries, and at Progress(.., i, i + 1) from applying one to acknowledging it.
    method HandleAll(ids: seq<nat>) returns (published: nat, ghost risks: seq<P.Risk>, ghost actions: seq<P.Action>)
      requires consumer.Valid()
      modifies this`riskStream, this`builds, consumer.store`appliedEvents, consumer.store`snapshots, ledger`group
      ensures ledger.group == AckedAll(old(ledger.group), ids)
      ensures consumer.store.appliedEvents
              == InsertAll(old(consumer.store.appliedEvents), EventsIn(ledger.entries, ids))
      ensures AsState() == P.Run(old(AsState()), actions)
      ensures riskStream == old(riskStream) + risks && |risks| == published && Measured(risks, consumer.store.pvHistory)
      ensures NewlyPublished(old(consumer.store.appliedEvents), consumer.store.appliedEvents, risks)
    {
      hide OverWindow, Absorb, P.Do, P.Run, NewlyPublished, Measured, Progress;
      hide Acked, AckedAll, InsertAll, EventsIn, At;
      NothingDone(old(AsState()), consumer.store.appliedEvents, consumer.store.pvHistory);
      ProgressEnds(ledger.group, consumer.store.appliedEvents, ledger.entries, ids);
      published, risks, actions := 0, [], [];
      for i := 0 to |ids|
        invariant (ledger.group, consumer.store.appliedEvents)
               == Progress(old(ledger.group), old(consumer.store.appliedEvents), ledger.entries, ids, i, i)
        invariant AsState() == P.Run(old(AsState()), actions)
        invariant riskStream == old(riskStream) + risks && |risks| == published
                  && Measured(risks, consumer.store.pvHistory)
        invariant NewlyPublished(old(consumer.store.appliedEvents), consumer.store.appliedEvents, risks)
      {
        ProgressNext(old(ledger.group), old(consumer.store.appliedEvents), ledger.entries, ids, i);
        ghost var before := consumer.store.appliedEvents;
        var one, moreRisks, moreActions := HandleThenAck(ids[i]);
        RunConcat(old(AsState()), actions, moreActions);
        MeasuredConcat(risks, moreRisks, consumer.store.pvHistory);
        PublishedConcat(old(consumer.store.appliedEvents), before, consumer.store.appliedEvents, risks, moreRisks);
        risks, actions := risks + moreRisks, actions + moreActions;
        published := published + if one then 1 else 0;
      }
    }

    // A bounded pass over the pending entries that have been idle long enough.
    method ReclaimLedger(idle: nat -> bool)
      returns (reclaimed: nat, ghost risks: seq<P.Risk>, ghost actions: seq<P.Action>)
      requires ledger.Valid() && consumer.Valid()
      modifies this`riskStream, this`builds, consumer.store`appliedEvents, consumer.store`snapshots, ledger`group
      ensures var ids := Claimable(old(ledger.group).pel, idle, consumer.config.batchSize);
              && reclaimed == |ids|
              && ledger.group == AckedAll(old(ledger.group), ids)
              && consumer.store.appliedEvents
                 == InsertAll(old(consumer.store.appliedEvents), EventsIn(ledger.entries, ids))
      ensures ledger.Valid()
      ensures AsState() == P.Run(old(AsState()), actions)
      ensures riskStream == old(riskStream) + risks && Measured(risks, consumer.store.pvHistory)
      ensures NewlyPublished(old(consumer.store.appliedEvents), consumer.store.appliedEvents, risks)
    {
      var ids := ledger.XAutoClaim(consumer.config.batchSize, idle);
      var published;
      published, risks, actions := HandleAll(ids);
      AckedAllOk(old(ledger.group), |ledger.entries|, ids);
      reclaimed := |ids|;
    }

    // The next batch of undelivered entries; nothing it delivered stays pending.
    method DrainLedger() returns (published: nat, ghost risks: seq<P.Risk>, ghost actions: seq<P.Action>)
      requires ledger.Valid() && consumer.Valid() && consumer.config.batchSize > 0
      modifies this`riskStream, this`builds, consumer.store`appliedEvents, consumer.store`snapshots, ledger`group
      ensures var ids := NewIds(old(ledger.group), |ledger.entries|, consumer.config.batchSize);
              && ledger.group == Group(old(ledger.group).last + |ids|, old(ledger.group).pel)
              && consumer.store.appliedEvents
                 == InsertAll(old(consumer.store.appliedEvents), EventsIn(ledger.entries, ids))
      ensures ledger.Valid()
      ensures AsState() == P.Run(old(AsState()), actions)
      ensures riskStream == old(riskStream) + risks && |risks| == published && Measured(risks, consumer.store.pvHistory)
      ensures NewlyPublished(old(consumer.store.appliedEvents), consumer.store.appliedEvents, risks)
    {
      var ids := ledger.XReadGroup(consumer.config.batchSize);
      DrainedBatch(old(ledger.group), |ledger.entries|, consumer.config.batchSize);
      published, risks, actions := HandleAll(ids);
    }

    // One batch of ticks, each into the price cache and then into its rolling window.
    method RefreshPrices() returns (n: nat)
      requires ticks.Valid() && consumer.config.batchSize > 0
      modifies consumer.store`priceCache, consumer.store`priceHistory, ticks`group
      ensures var ids := NewIds(old(ticks.group), |ticks.entries|, consumer.config.batchSize);
              && n == |ids|
              && ticks.group == Group(old(ticks.group).last + n, old(ticks.group).pel)
              && consumer.store.priceCache == Cached(old(consumer.store.priceCache), SamplesIn(ticks.entries, ids))
              && consumer.store.priceHistory
                 == AppendAll(old(consumer.store.priceHistory), SamplesIn(ticks.entries, ids),
                              consumer.config.windowSize)
      ensures ticks.Valid()
    {
      hide Append;
      var ids := ticks.XReadGroup(consumer.config.batchSize);
      DrainedBatch(old(ticks.group), |ticks.entries|, consumer.config.batchSize);
      ghost var delivered := ticks.group;
      ghost var cache, rows := consumer.store.priceCache, consumer.store.priceHistory;
      n := 0;
      for i := 0 to |ids|
        invariant n == i && ticks.group == AckedAll(delivered, ids[..i])
        invariant consumer.store.priceCache == Cached(cache, SamplesIn(ticks.entries, ids[..i]))
        invariant consumer.store.priceHistory
               == AppendAll(rows, SamplesIn(ticks.entries, ids[..i]), consumer.config.windowSize)
      {
        assert Front(ids[..i + 1]) == ids[..i];
        SamplesInNext(ticks.entries, ids, i, cache, rows, consumer.config.windowSize);
        var env := At(ticks.entries, ids[i]);
        if env.Some? {
          var _ := consumer.ProcessTick(env.value);
        }
        ticks.XAck(ids[i]);
        n := n + 1;
      }
      assert ids[..|ids|] == ids;
    }

    // One worker cycle: reclaim what is idle, take in prices, drain the next batch. The count
    // is of the drain alone.
    method Cycle(idle: nat -> bool)
      returns (published: nat, ghost risks: seq<P.Risk>, ghost actions: seq<P.Action>)
      requires ledger.Valid() && ticks.Valid() && consumer.Valid() && consumer.config.batchSize > 0
      modifies this`riskStream, this`builds, consumer.store`appliedEvents, consumer.store`snapshots, ledger`group
      modifies consumer.store`priceCache, consumer.store`priceHistory, ticks`group
      ensures ledger.Valid() && ticks.Valid()
      ensures (ledger.group, consumer.store.appliedEvents)
           == AfterCycle(old(ledger.group), old(consumer.store.appliedEvents), ledger.entries, idle,
                         consumer.config.batchSize)
      ensures AsState() == P.Run(old(AsState()), actions)
      ensures riskStream == old(riskStream) + risks && Measured(risks, consumer.store.pvHistory)
      ensures |risks| == |consumer.store.appliedEvents| - |old(consumer.store.appliedEvents)|
      ensures var claimed := EventsIn(ledger.entries,
                                      Claimable(old(ledger.group).pel, idle, consumer.config.batchSize));
              published == |consumer.store.appliedEvents| - |InsertAll(old(consumer.store.appliedEvents), claimed)|
      ensures var samples := SamplesIn(ticks.entries,
                                       NewIds(old(ticks.group), |ticks.entries|, consumer.config.batchSize));
              && consumer.store.priceCache == Cached(old(consumer.store.priceCache), samples)
              && consumer.store.priceHistory
                 == AppendAll(old(consumer.store.priceHistory), samples, consumer.config.windowSize)
    {
      hide InsertAll, EventsIn, Claimable, AckedAll, NewIds, P.Run, NewlyPublished, Measured, Ascending;
      hide Cached, AppendAll, SamplesIn, AfterCycle, Has;
      ghost var g0, log0 := ledger.group, consumer.store.appliedEvents;
      ghost var reclaimed, reclaiming := ReclaimAndRefresh(idle);
      ghost var g1, log1 := ledger.group, consumer.store.appliedEvents;
      ghost var drained, draining;
      published, drained, draining := DrainLedger();
      CycleParts(g0, log0, ledger.entries, idle, consumer.config.batchSize, g1, log1, ledger.group,
                 consumer.store.appliedEvents);
      hide GroupOk;
      PublishedCount(log1, consumer.store.appliedEvents, drained);
      MeasuredConcat(reclaimed, drained, consumer.store.pvHistory);
      risks, actions := reclaimed + drained, reclaiming + draining;
      RunConcat(old(AsState()), reclaiming, draining);
    }

    method ReclaimAndRefresh(idle: nat -> bool) returns (ghost risks: seq<P.Risk>, ghost actions: seq<P.Action>)
      requires ledger.Valid() && ticks.Valid() && consumer.Valid() && consumer.config.batchSize > 0
      modifies this`riskStream, this`builds, consumer.store`appliedEvents, consumer.store`snapshots, ledger`group
      modifies consumer.store`priceCache, consumer.store`priceHistory, ticks`group
      ensures ledger.Valid() && ticks.Valid()
      ensures var ids := Claimable(old(ledger.group).pel, idle, consumer.config.batchSize);
              && ledger.group == AckedAll(old(ledger.group), ids)
              && consumer.store.appliedEvents
                 == InsertAll(old(consumer.store.appliedEvents), EventsIn(ledger.entries, ids))
      ensures AsState() == P.Run(old(AsState()), actions)
      ensures riskStream == old(riskStream) + risks && Measured(risks, consumer.store.pvHistory)
      ensures |risks| == |consumer.store.appliedEvents| - |old(consumer.store.appliedEvents)|
      ensures var samples := SamplesIn(ticks.entries,
                                       NewIds(old(ticks.group), |ticks.entries|, consumer.config.batchSize));
              && consumer.store.priceCache == Cached(old(consumer.store.priceCache), samples)
              && consumer.store.priceHistory
                 == AppendAll(old(consumer.store.priceHistory), samples, consumer.config.windowSize)
    {
      hide InsertAll, EventsIn, Claimable, AckedAll, NewIds, P.Run, NewlyPublished, Measured, Ascending;
      hide Cached, AppendAll, SamplesIn, Has;
      ghost var log0 := consumer.store.appliedEvents;
      var reclaimed;
      reclaimed, risks, actions := ReclaimLedger(idle);
      PublishedCount(log0, consumer.store.appliedEvents, risks);
      ghost var middle := AsState();
      var n := RefreshPrices();
      assert AsState() == middle;
    }

    // XADD to the risk stream, once the snapshot is saved.
    method PublishBuilt(risk: P.Risk)
      modifies this`riskStream, this`builds
      ensures riskStream == old(riskStream) + [risk]
      ensures builds == Front(old(builds) + [P.Build(risk, false)]) + [P.Build(risk, true)]
    {
      builds := builds + [P.Build(risk, true)];
      riskStream := riskStream + [risk];
    }

    // Recompute one account and publish it, unless it has no position.
    method RecomputeFor(account: string) returns (built: Option<Metrics>)
      requires consumer.Valid()
      modifies this`riskStream, this`builds, consumer.store`pvHistory, consumer.store`snapshots
      ensures built.Some? <==> Symbols(consumer.store.appliedEvents, account) != []
      ensures built.None? ==> AsState() == old(AsState()) && consumer.store.pvHistory == old(consumer.store.pvHistory)
      ensures built.Some? ==>
                && AsState() == P.Do(P.Do(old(AsState()), P.Recompute(account, built.value)), P.Publish)
                && consumer.Describes(built.value, account)
                && riskStream == old(riskStream) + [P.Risk(account, built.value, None)]
                && Sampled(old(consumer.store.pvHistory), consumer.store.pvHistory,
                           Sample(account, built.value.portfolioValue), consumer.config.windowSize)
                && Measured([P.Risk(account, built.value, None)], consumer.store.pvHistory)
                && consumer.store.pvHistory == Append(old(consumer.store.pvHistory),
                     Sample(account, built.value.portfolioValue), consumer.config.windowSize)
    {
      hide Pnl, Append, OverWindow, Sampled;
      built := consumer.RecomputeAccount(account);
      if built.Some? {
        PublishBuilt(P.Risk(account, built.value, None));
      }
    }

    // At most one recompute per interval; a firing samples and publishes exactly once for every
    // account with an event, and is a run of the publication machine.
    method MaybeRecompute(now: real) returns (published: nat, ghost risks: seq<P.Risk>, ghost actions: seq<P.Action>)
      requires consumer.Valid() && Paced()
      modifies this`riskStream, this`builds, this`lastRecompute, this`calls, consumer.store`pvHistory,
               consumer.store`snapshots
      ensures Paced() && calls == old(calls) + [now]
      ensures var fired, firings := Throttle.Firings(old(calls), consumer.config.recomputeIntervalMs),
                                    Throttle.Firings(calls, consumer.config.recomputeIntervalMs);
              if firings == fired
              then published == 0 && actions == [] && consumer.store.pvHistory == old(consumer.store.pvHistory)
              else
                && firings == fired + [now] && OncePerAccount(risks, consumer.store.appliedEvents)
                && SampledEach(old(consumer.store.pvHistory), consumer.store.pvHistory, risks,
                               consumer.config.windowSize)
      ensures AsState() == P.Run(old(AsState()), actions)
      ensures riskStream == old(riskStream) + risks && |risks| == published && Measured(risks, consumer.store.pvHistory)
      ensures forall i :: 0 <= i < |risks| ==> risks[i].cause == None
    {
      published, risks, actions := 0, [], [];
      Throttle.FiringsNext(calls, now, consumer.config.recomputeIntervalMs);
      calls := calls + [now];
      if lastRecompute.Some? && (now - lastRecompute.value) * 1000.0 < consumer.config.recomputeIntervalMs as real {
        return;
      }
      lastRecompute := Some(now);
      published, risks, actions := RecomputeAll();
    }

    method RecomputeAll() returns (published: nat, ghost risks: seq<P.Risk>, ghost actions: seq<P.Action>)
      requires consumer.Valid()
      modifies this`riskStream, this`builds, consumer.store`pvHistory, consumer.store`snapshots
      ensures OncePerAccount(risks, consumer.store.appliedEvents)
      ensures SampledEach(old(consumer.store.pvHistory), consumer.store.pvHistory, risks, consumer.config.windowSize)
      ensures AsState() == P.Run(old(AsState()), actions)
      ensures riskStream == old(riskStream) + risks && |risks| == published && Measured(risks, consumer.store.pvHistory)
      ensures forall i :: 0 <= i < |risks| ==> risks[i].cause == None
    {
      hide Pnl, Append, OverWindow, Measured, P.Do, P.Run, Consumer.Describes, Sampled, SampledEach, OncePerAccount;
      NothingDone(old(AsState()), consumer.store.appliedEvents, consumer.store.pvHistory);
      published, risks, actions := 0, [], [];
      var accounts := Distinct(consumer.store.appliedEvents);
      AccountsHoldSomething(consumer.store.appliedEvents);
      DistinctAreAccounts(consumer.store.appliedEvents);
      NothingSampled(consumer.store.pvHistory, consumer.config.windowSize);
      for i := 0 to |accounts|
        invariant published == i
        invariant AsState() == P.Run(old(AsState()), actions)
        invariant riskStream == old(riskStream) + risks && |risks| == i && Measured(risks, consumer.store.pvHistory)
        invariant SampledEach(old(consumer.store.pvHistory), consumer.store.pvHistory, risks,
                              consumer.config.windowSize)
        invariant forall j :: 0 <= j < i ==> risks[j].account == accounts[j] && risks[j].cause == None
      {
        ghost var rows := consumer.store.pvHistory;
        var built := RecomputeFor(accounts[i]);
        if built.Some? {
          MeasuredAfter(risks, rows, Sample(accounts[i], built.value.portfolioValue), consumer.config.windowSize);
          SampledNext(old(consumer.store.pvHistory), rows, consumer.store.pvHistory, risks,
                      P.Risk(accounts[i], built.value, None), consumer.config.windowSize);
          MeasuredConcat(risks, [P.Risk(accounts[i], built.value, None)], consumer.store.pvHistory);
          TwoMore(old(AsState()), actions, P.Recompute(accounts[i], built.value), P.Publish);
          actions := actions + [P.Recompute(accounts[i], built.value), P.Publish];
          risks := risks + [P.Risk(accounts[i], built.value, None)];
          published := published + 1;
        }
      }
      OnceEach(risks, consumer.store.appliedEvents);
    }
  }

  /** Every account in the log has traded some symbol, so a firing skips none of them. */
  lemma {:induction false} AccountsHoldSomething(log: seq<Event>)
    ensures forall i :: 0 <= i < |Distinct(log)| ==> Symbols(log, Distinct(log)[i]) != []
  {
    if log != [] {
      AccountsHoldSomething(Front(log));
    }
  }
}
