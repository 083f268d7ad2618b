// Runs of the risk engine's worker over its ledger stream (services/risk-engine/app/worker.py),
// with deaths anywhere and any idle times: what holds always, and what holds when every
// reclaim finds all pending entries idle.

module WorkerRuns {
  import opened Basics
  import opened Events
  import opened Groups
  import opened RiskEngine
  import opened RiskWorker
  import opened Windows

  // An entry arrives, a cycle runs through, or the process dies somewhere in its reclaim or in
  // its drain. `idle` tells which pending entries the reclaim finds idle long enough.
  datatype Turn =
    | Arrive(entry: Option<Envelope>)
    | Whole(idle: nat -> bool)
    | DiesReclaiming(idle: nat -> bool, acked: nat, handled: nat)
    | DiesDraining(idle: nat -> bool, acked: nat, handled: nat)

  datatype Durable = Durable(entries: seq<Option<Envelope>>, group: Group, log: seq<Event>)

  ghost function AfterTurn(s: Durable, t: Turn, batchSize: nat): Durable {
    if !GroupOk(s.group, |s.entries|) then s else
    match t
    case Arrive(entry) => s.(entries := s.entries + [entry])
    case Whole(idle) =>
      var (group', log') := AfterCycle(s.group, s.log, s.entries, idle, batchSize);
      s.(group := group', log := log')
    case DiesReclaiming(idle, acked, handled) =>
      var claimed := Claimable(s.group.pel, idle, batchSize);
      if !(acked <= handled <= Min(acked + 1, |claimed|)) then s
      else Stopped(s, claimed, acked, handled)
    case DiesDraining(idle, acked, handled) =>
      var claimed := Claimable(s.group.pel, idle, batchSize);
      var s' := Reading(Stopped(s, claimed, |claimed|, |claimed|), batchSize);
      var ids := NewIds(s.group, |s.entries|, batchSize);
      if !(acked <= handled <= Min(acked + 1, |ids|)) then s
      else Stopped(s', ids, acked, handled)
  }

  ghost function Stopped(s: Durable, ids: seq<nat>, acked: nat, handled: nat): Durable
    requires acked <= |ids| && handled <= |ids|
  {
    var (group', log') := Progress(s.group, s.log, s.entries, ids, acked, handled);
    s.(group := group', log := log')
  }

  // The next batch has been read.
  ghost function Reading(s: Durable, batchSize: nat): Durable {
    s.(group := Delivered(s.group, NewIds(s.group, |s.entries|, batchSize)))
  }

  ghost function AfterTurns(turns: seq<Turn>, batchSize: nat): Durable {
    if turns == [] then Durable([], Group(0, []), [])
    else AfterTurn(AfterTurns(Front(turns), batchSize), Last(turns), batchSize)
  }

  // --- whatever is idle ------------------------------------------------------

  // The entry has had its effect: it is malformed, or its event is in the log.
  ghost predicate Settled(s: Durable, id: nat) {
    forall e :: e in Parsed(At(s.entries, id)) ==> Has(s.log, e.eventId)
  }

  ghost predicate Safe(s: Durable) {
    && GroupOk(s.group, |s.entries|)
    && DistinctIds(s.log)
    && (forall e :: e in s.log ==> OnStream(s.entries, e))
    && (forall id: nat :: 1 <= id <= s.group.last && id !in s.group.pel ==> Settled(s, id))
  }

  ghost predicate OnStream(entries: seq<Option<Envelope>>, e: Event) {
    exists id: nat :: e in Parsed(At(entries, id))
  }

  lemma HandledIsSafe(s: Durable, id: nat)
    requires Safe(s)
    ensures var s' := s.(log := Absorb(s.log, At(s.entries, id)));
            Safe(s') && Settled(s', id) && forall k: nat :: Settled(s, k) ==> Settled(s', k)
  {
    var env := At(s.entries, id);
    if Parsed(env) != [] {
      var e := Parsed(env)[0];
      assert e in Parsed(At(s.entries, id)) && OnStream(s.entries, e);
      forall x
        ensures Has(s.log + [e], x) <==> Has(s.log, x) || e.eventId == x
      {
        HasAppend(s.log, e, x);
      }
    }
  }

  lemma AckedIsSafe(s: Durable, id: nat)
    requires Safe(s) && Settled(s, id)
    ensures Safe(s.(group := Acked(s.group, id)))
  {
    hide Has, DistinctIds;
    WithoutAscending(s.group.pel, id);
    assert forall k: nat :: Settled(s, k) <==> Settled(s.(group := Acked(s.group, id)), k);
  }

  lemma {:induction false} HandledSome(s: Durable, ids: seq<nat>, handled: nat)
    requires Safe(s) && handled <= |ids|
    ensures var s' := Stopped(s, ids, 0, handled);
            Safe(s') && forall i :: 0 <= i < handled ==> Settled(s', ids[i])
  {
    hide Safe, Settled, Absorb;
    if handled == 0 {
      ProgressEnds(s.group, s.log, s.entries, ids);
      assert Stopped(s, ids, 0, 0) == s;
    } else {
      HandledSome(s, ids, handled - 1);
      EventsInNext(s.entries, ids, handled - 1, s.log);
      HandledIsSafe(Stopped(s, ids, 0, handled - 1), ids[handled - 1]);
    }
  }

  lemma {:induction false} StoppedIsSafe(s: Durable, ids: seq<nat>, acked: nat, handled: nat)
    requires Safe(s) && acked <= handled <= |ids|
    ensures var s' := Stopped(s, ids, acked, handled);
            Safe(s') && forall i :: 0 <= i < handled ==> Settled(s', ids[i])
  {
    hide Safe, EventsIn, InsertAll;
    if acked == 0 {
      HandledSome(s, ids, handled);
    } else {
      StoppedIsSafe(s, ids, acked - 1, handled);
      var s' := Stopped(s, ids, acked - 1, handled);
      AckedIsSafe(s', ids[acked - 1]);
      assert Front(ids[..acked]) == ids[..acked - 1];
    }
  }

  lemma ReadingIsSafe(s: Durable, batchSize: nat)
    requires Safe(s)
    ensures Safe(Reading(s, batchSize))
  {
    hide Has, DistinctIds, NewIds, Delivered;
    var ids, s' := NewIds(s.group, |s.entries|, batchSize), Reading(s, batchSize);
    NewIdsAreNext(s.group, |s.entries|, batchSize);
    assert forall i :: 0 <= i < |s.group.pel| ==> s.group.pel[i] in s.group.pel;
    DeliveredAscending(s.group, |ids|);
    forall id: nat | s.group.last < id <= s'.group.last
      ensures id in s'.group.pel
    {
      assert ids[id - s.group.last - 1] == id;
    }
    assert forall k: nat :: Settled(s, k) <==> Settled(s', k);
  }

  // A whole cycle is reclaiming to the end, reading, and draining to the end.
  lemma WholeIsStopped(s: Durable, idle: nat -> bool, batchSize: nat)
    requires GroupOk(s.group, |s.entries|)
    ensures var claimed := Claimable(s.group.pel, idle, batchSize);
            var s' := Reading(Stopped(s, claimed, |claimed|, |claimed|), batchSize);
            var ids := NewIds(s.group, |s.entries|, batchSize);
            AfterTurn(s, Whole(idle), batchSize) == Stopped(s', ids, |ids|, |ids|)
  {
    hide InsertAll, EventsIn, Claimable, NewIds, Delivered, AckedAll;
    var claimed := Claimable(s.group.pel, idle, batchSize);
    var ids := NewIds(s.group, |s.entries|, batchSize);
    ProgressEnds(s.group, s.log, s.entries, claimed);
    var reclaimed := Stopped(s, claimed, |claimed|, |claimed|);
    AckedAllOk(s.group, |s.entries|, claimed);
    SameCursor(s.group, reclaimed.group, |s.entries|, batchSize);
    ProgressEnds(Delivered(reclaimed.group, ids), reclaimed.log, s.entries, ids);
    DrainedBatch(reclaimed.group, |s.entries|, batchSize);
  }

  lemma TurnIsSafe(s: Durable, t: Turn, batchSize: nat)
    requires Safe(s)
    ensures Safe(AfterTurn(s, t, batchSize))
  {
    hide Safe, Stopped, Reading, Claimable, NewIds, AfterCycle;
    if t.Arrive? {
      ArriveIsSafe(s, t.entry);
    } else {
      SafeGroup(s);
      var claimed := Claimable(s.group.pel, t.idle, batchSize);
      var ids := NewIds(s.group, |s.entries|, batchSize);
      StoppedIsSafe(s, claimed, |claimed|, |claimed|);
      ReadingIsSafe(Stopped(s, claimed, |claimed|, |claimed|), batchSize);
      var s' := Reading(Stopped(s, claimed, |claimed|, |claimed|), batchSize);
      match t
      case Whole(idle) =>
        WholeIsStopped(s, idle, batchSize);
        StoppedIsSafe(s', ids, |ids|, |ids|);
      case DiesReclaiming(_, acked, handled) =>
        if acked <= handled <= Min(acked + 1, |claimed|) {
          StoppedIsSafe(s, claimed, acked, handled);
        }
      case DiesDraining(_, acked, handled) =>
        if acked <= handled <= Min(acked + 1, |ids|) {
          StoppedIsSafe(s', ids, acked, handled);
        }
    }
  }

  lemma SafeGroup(s: Durable)
    requires Safe(s)
    ensures GroupOk(s.group, |s.entries|)
  {
  }

  lemma ArriveIsSafe(s: Durable, entry: Option<Envelope>)
    requires Safe(s)
    ensures Safe(s.(entries := s.entries + [entry]))
  {
    hide Has, DistinctIds;
    var s' := s.(entries := s.entries + [entry]);
    forall e | OnStream(s.entries, e)
      ensures OnStream(s'.entries, e)
    {
      var id: nat :| e in Parsed(At(s.entries, id));
      assert At(s'.entries, id) == At(s.entries, id);
    }
    forall id: nat | 1 <= id <= |s.entries|
      ensures Settled(s', id) <==> Settled(s, id)
    {
      assert At(s'.entries, id) == At(s.entries, id);
    }
  }

  /** Over every run, whatever is idle and wherever the process dies: no event is applied twice,
      only stream events are, and every entry that was delivered and is no longer pending is
      malformed or has its event in the log. */
  lemma {:induction false} AlwaysSafe(turns: seq<Turn>, batchSize: nat)
    ensures Safe(AfterTurns(turns, batchSize))
  {
    if turns != [] {
      hide Safe, AfterTurn;
      AlwaysSafe(Front(turns), batchSize);
      TurnIsSafe(AfterTurns(Front(turns), batchSize), Last(turns), batchSize);
    } else {
      NothingIsSafe();
    }
  }

  /** A death between applying an entry and acknowledging it, in a reclaim or in a drain, leaves
      that entry pending with its effect made. */
  lemma DeathBeforeAck(s: Durable, idle: nat -> bool, batchSize: nat, i: nat)
    requires Safe(s)
    ensures var claimed := Claimable(s.group.pel, idle, batchSize);
            var s' := AfterTurn(s, DiesReclaiming(idle, i, i + 1), batchSize);
            i < |claimed| ==> claimed[i] in s'.group.pel && Settled(s', claimed[i]) && s'.group.last == s.group.last
    ensures var ids := NewIds(s.group, |s.entries|, batchSize);
            var s' := AfterTurn(s, DiesDraining(idle, i, i + 1), batchSize);
            i < |ids| ==> ids[i] in s'.group.pel && Settled(s', ids[i]) && s'.group.last == s.group.last + |ids|
  {
    hide Safe, Settled, Claimable, NewIds, Delivered, InsertAll, EventsIn, AckedAll;
    var claimed, ids := Claimable(s.group.pel, idle, batchSize), NewIds(s.group, |s.entries|, batchSize);
    SafeGroup(s);
    ClaimsOldest(s.group.pel, idle, batchSize);
    if i < |claimed| {
      StoppedIsSafe(s, claimed, i, i + 1);
      AckedAllMembers(s.group, claimed[..i]);
      NotAmongFirst(claimed, i);
    }
    if i < |ids| {
      var reclaimed := Stopped(s, claimed, |claimed|, |claimed|);
      StoppedIsSafe(s, claimed, |claimed|, |claimed|);
      ReadingIsSafe(reclaimed, batchSize);
      AckedAllMembers(s.group, claimed[..|claimed|]);
      SameCursor(s.group, reclaimed.group, |s.entries|, batchSize);
      NewIdsAreNext(reclaimed.group, |s.entries|, batchSize);
      StoppedIsSafe(Reading(reclaimed, batchSize), ids, i, i + 1);
      AckedAllMembers(Delivered(reclaimed.group, ids), ids[..i]);
      assert Delivered(reclaimed.group, ids).pel == reclaimed.group.pel + ids;
      NotAmongFirst(ids, i);
    }
  }

  lemma NotAmongFirst(ids: seq<nat>, i: nat)
    requires Ascending(ids) && i < |ids|
    ensures ids[i] !in ids[..i]
  {
  }

  lemma NothingIsSafe()
    ensures Safe(Durable([], Group(0, []), []))
  {
  }

  // --- when every reclaim finds everything idle ------------------------------

  ghost predicate Recoverable(s: Durable, batchSize: nat) {
    Resumable(s.group, s.log, s.entries) && GroupOk(s.group, |s.entries|) && |s.group.pel| <= batchSize
  }

  // Every reclaim of the run finds all entries pending at the time idle long enough.
  ghost predicate Prompt(turns: seq<Turn>, batchSize: nat) {
    turns == []
    || (Prompt(Front(turns), batchSize) && PromptTurn(AfterTurns(Front(turns), batchSize), Last(turns)))
  }

  ghost predicate PromptTurn(s: Durable, t: Turn) {
    t.Arrive? || forall id :: id in s.group.pel ==> t.idle(id)
  }

  lemma ArriveKeeps(s: Durable, entry: Option<Envelope>, batchSize: nat)
    requires Recoverable(s, batchSize)
    ensures Recoverable(s.(entries := s.entries + [entry]), batchSize)
  {
    hide FirstOccurrences;
    var first := s.group.last - |s.group.pel|;
    var k :| first <= k <= s.group.last && s.log == FirstOccurrences(Between(s.entries, 0, k));
    SameEvents(s.entries, entry, Range(1, k + 1));
    assert Between(s.entries + [entry], 0, k) == Between(s.entries, 0, k);
  }

  lemma {:induction false} SameEvents(entries: seq<Option<Envelope>>, entry: Option<Envelope>, ids: seq<nat>)
    requires forall i :: 0 <= i < |ids| ==> ids[i] <= |entries|
    ensures EventsIn(entries + [entry], ids) == EventsIn(entries, ids)
  {
    if ids != [] {
      SameEvents(entries, entry, Front(ids));
    }
  }

  lemma ReclaimedWhole(s: Durable, idle: nat -> bool, batchSize: nat)
    requires Recoverable(s, batchSize) && forall id :: id in s.group.pel ==> idle(id)
    ensures var claimed := Claimable(s.group.pel, idle, batchSize);
            var s' := Stopped(s, claimed, |claimed|, |claimed|);
            s'.group == Group(s.group.last, []) && Resumable(s'.group, s'.log, s'.entries)
  {
    hide FirstOccurrences, InsertAll, EventsIn, IdleIn, AckedAll;
    var claimed := Claimable(s.group.pel, idle, batchSize);
    AllIdle(s.group.pel, idle);
    assert claimed == s.group.pel && claimed[..|claimed|] == claimed;
    StoppedReclaim(s.group, s.log, s.entries, idle, batchSize, |claimed|, |claimed|);
    AckPending(s.group);
  }

  lemma TurnKeeps(s: Durable, t: Turn, batchSize: nat)
    requires Recoverable(s, batchSize) && PromptTurn(s, t) && batchSize > 0
    ensures Recoverable(AfterTurn(s, t, batchSize), batchSize)
  {
    hide Resumable, Claimable, NewIds, Delivered;
    match t
    case Arrive(entry) => ArriveKeeps(s, entry, batchSize);
    case Whole(idle) => WholeKeeps(s, idle, batchSize);
    case DiesReclaiming(idle, acked, handled) =>
      if acked <= handled <= Min(acked + 1, |Claimable(s.group.pel, idle, batchSize)|) {
        StoppedReclaim(s.group, s.log, s.entries, idle, batchSize, acked, handled);
      }
    case DiesDraining(idle, acked, handled) =>
      ReclaimedWhole(s, idle, batchSize);
      var claimed := Claimable(s.group.pel, idle, batchSize);
      var s' := Stopped(s, claimed, |claimed|, |claimed|);
      SameCursor(s.group, s'.group, |s.entries|, batchSize);
      if acked <= handled <= Min(acked + 1, |NewIds(s.group, |s.entries|, batchSize)|) {
        StoppedDrain(s'.group, s'.log, s.entries, batchSize, acked, handled);
      }
  }

  lemma WholeKeeps(s: Durable, idle: nat -> bool, batchSize: nat)
    requires Recoverable(s, batchSize) && batchSize > 0 && forall id :: id in s.group.pel ==> idle(id)
    ensures Recoverable(AfterTurn(s, Whole(idle), batchSize), batchSize)
  {
    hide FirstOccurrences, Between, AfterCycle;
    PromptCycle(s.group, s.log, s.entries, idle, batchSize);
    var s' := AfterTurn(s, Whole(idle), batchSize);
    assert Range(s'.group.last + 1, s'.group.last + 1) == [];
  }

  /** Over every run whose reclaims find everything idle, with deaths anywhere in a reclaim or a
      drain: pending entries are the newest delivered ones and fit one batch, and the log is
      the first occurrences of the stream up to one of them. */
  lemma {:induction false} PromptIsRecoverable(turns: seq<Turn>, batchSize: nat)
    requires batchSize > 0 && Prompt(turns, batchSize)
    ensures Recoverable(AfterTurns(turns, batchSize), batchSize)
  {
    if turns == [] {
      NothingYet(batchSize);
    } else {
      hide Recoverable, AfterTurn, PromptTurn;
      PromptIsRecoverable(Front(turns), batchSize);
      TurnKeeps(AfterTurns(Front(turns), batchSize), Last(turns), batchSize);
    }
  }

  lemma NothingYet(batchSize: nat)
    ensures Recoverable(Durable([], Group(0, []), []), batchSize)
  {
    assert Range(1, 1) == [];
    assert FirstOccurrences(Between([], 0, 0)) == [];
  }

  // --- what the ledger encoded is what is applied ------------------------------

  // The entries are the envelopes of these events.
  ghost predicate Encodes(entries: seq<Option<Envelope>>, events: seq<Event>) {
    && |entries| == |events|
    && forall i :: 0 <= i < |events| ==> Named(events[i]) && entries[i] == Some(EnvelopeOf(events[i]))
  }

  lemma {:induction false} EncodedBetween(entries: seq<Option<Envelope>>, events: seq<Event>, upTo: nat)
    requires Encodes(entries, events) && upTo <= |events|
    ensures Between(entries, 0, upTo) == events[..upTo]
  {
    hide Between;
    if upTo == 0 {
      BetweenNone(entries, 0);
    } else {
      EncodedBetween(entries, events, upTo - 1);
      BetweenNext(entries, 0, upTo - 1);
      EnvelopeRoundTrip(events[upTo - 1], EnvelopeOf(events[upTo - 1]));
      assert events[..upTo] == events[..upTo - 1] + [events[upTo - 1]];
    }
  }

  /** In a run whose reclaims find everything idle, a worker that has drained a stream of encoded
      ledger events has exactly their first occurrences in its log, in order, field by field. */
  lemma DrainedStream(turns: seq<Turn>, batchSize: nat, events: seq<Event>)
    requires batchSize > 0
    ensures var s := AfterTurns(turns, batchSize);
            Prompt(turns, batchSize) && Encodes(s.entries, events) && s.group == Group(|events|, []) ==>
              s.log == FirstOccurrences(events) && (DistinctIds(events) ==> s.log == events)
  {
    hide Prompt, AfterTurns, Between, FirstOccurrences;
    var s := AfterTurns(turns, batchSize);
    if Prompt(turns, batchSize) && Encodes(s.entries, events) && s.group == Group(|events|, []) {
      PromptIsRecoverable(turns, batchSize);
      EncodedBetween(s.entries, events, |events|);
      assert events[..|events|] == events;
      if DistinctIds(events) {
        FirstOccurrencesOfDistinct(events);
      }
    }
  }

  /** And a batch of well-formed ticks enters the cache and the windows as those ticks. */
  lemma {:induction false} EncodedTicks(entries: seq<Option<TickEnvelope>>, ticks: seq<Sample>, from: nat, upTo: nat)
    requires from <= upTo <= |entries| && |entries| == |ticks|
    requires forall i :: 0 <= i < |ticks| ==>
               ticks[i].key != "" && entries[i] == Some(TickEnvelope(ticks[i].key, Some(ticks[i].value)))
    ensures SamplesIn(entries, Range(from + 1, upTo + 1)) == ticks[from..upTo]
  {
    var ids := Range(from + 1, upTo + 1);
    if from < upTo {
      EncodedTicks(entries, ticks, from, upTo - 1);
      assert Front(ids) == Range(from + 1, upTo) && Last(ids) == upTo;
      assert ticks[from..upTo] == ticks[from..upTo - 1] + [ticks[upTo - 1]];
    } else {
      assert ids == [];
    }
  }

  // --- and when not -----------------------------------------------------------

  // No entry is idle before an older one is.
  ghost predicate OldestFirst(pel: seq<nat>, idle: nat -> bool) {
    forall i, j :: 0 <= i < j < |pel| && idle(pel[j]) ==> idle(pel[i])
  }

  lemma {:induction false} IdleAtMost(pel: seq<nat>, idle: nat -> bool)
    ensures |IdleIn(pel, idle)| <= |pel|
  {
    if pel != [] {
      IdleAtMost(Front(pel), idle);
    }
  }

  lemma {:induction false} IdlePrefix(pel: seq<nat>, idle: nat -> bool)
    requires OldestFirst(pel, idle)
    ensures |IdleIn(pel, idle)| <= |pel| && IdleIn(pel, idle) == pel[..|IdleIn(pel, idle)|]
  {
    if pel != [] {
      var front := Front(pel);
      assert pel == front + [Last(pel)];
      if idle(Last(pel)) {
        assert forall i :: 0 <= i < |front| ==> idle(pel[i]);
        AllIdle(pel, idle);
        assert pel[..|pel|] == pel;
      } else {
        FrontOldestFirst(pel, idle);
        hide OldestFirst;
        IdlePrefix(front, idle);
        assert IdleIn(pel, idle) == IdleIn(front, idle);
      }
    }
  }

  lemma FrontOldestFirst(pel: seq<nat>, idle: nat -> bool)
    requires pel != [] && OldestFirst(pel, idle)
    ensures OldestFirst(Front(pel), idle)
  {
  }

  lemma {:induction false} AckedAllMembers(g: Group, ids: seq<nat>)
    ensures AckedAll(g, ids).last == g.last
    ensures forall id :: id in AckedAll(g, ids).pel <==> id in g.pel && id !in ids
  {
    if ids != [] {
      AckedAllMembers(g, Front(ids));
      assert ids == Front(ids) + [Last(ids)];
    }
  }

  // What a cycle leaves pending is what was not idle.
  lemma LeftPending(g: Group, log: seq<Event>, entries: seq<Option<Envelope>>, idle: nat -> bool, batchSize: nat)
    requires GroupOk(g, |entries|) && |g.pel| <= batchSize && batchSize > 0
    ensures var g' := AfterCycle(g, log, entries, idle, batchSize).0;
            && Claimable(g.pel, idle, batchSize) == IdleIn(g.pel, idle)
            && g'.last == Min(g.last + batchSize, |entries|)
            && (forall id :: id in g'.pel <==> id in g.pel && !idle(id))
  {
    hide InsertAll, EventsIn, AckedAll, NewIds;
    IdleAtMost(g.pel, idle);
    var claimed := Claimable(g.pel, idle, batchSize);
    assert IdleIn(g.pel, idle)[..|IdleIn(g.pel, idle)|] == IdleIn(g.pel, idle);
    AckedAllMembers(g, claimed);
    NextBatch(g, |entries|, batchSize);
  }

  lemma ResumableNeeds(g: Group, log: seq<Event>, entries: seq<Option<Envelope>>, idle: nat -> bool, batchSize: nat,
                       id: nat)
    requires GroupOk(g, |entries|) && |g.pel| <= batchSize && batchSize > 0
    requires id in g.pel && !idle(id)
    ensures var (g', log') := AfterCycle(g, log, entries, idle, batchSize);
            Resumable(g', log', entries) ==> g.last == |entries| && OldestFirst(g.pel, idle)
  {
    hide Resumable, InsertAll, AfterCycle, IdleIn, OldestFirst;
    var (g', log') := AfterCycle(g, log, entries, idle, batchSize);
    LeftPending(g, log, entries, idle, batchSize);
    if Resumable(g', log', entries) {
      ResumableShape(g', log', entries);
      NewestLeft(g.pel, g'.pel, g.last, g'.last, idle, id);
    }
  }

  lemma ResumableShape(g: Group, log: seq<Event>, entries: seq<Option<Envelope>>)
    requires Resumable(g, log, entries)
    ensures |g.pel| <= g.last && g.pel == Range(g.last - |g.pel| + 1, g.last + 1)
  {
  }

  // If what is left pending is the newest that was delivered, it was the newest pending.
  lemma NewestLeft(pel: seq<nat>, left: seq<nat>, last: nat, last': nat, idle: nat -> bool, id: nat)
    requires Ascending(pel) && (forall x :: x in pel ==> x <= last) && last <= last'
    requires |left| <= last' && left == Range(last' - |left| + 1, last' + 1)
    requires (forall x :: x in left <==> x in pel && !idle(x)) && id in left
    ensures last' == last && OldestFirst(pel, idle)
  {
    assert left[|left| - 1] == last' && last' in left;
    forall i, j | 0 <= i < j < |pel| && idle(pel[j])
      ensures idle(pel[i])
    {
      assert pel[i] in pel && pel[j] in pel && pel[i] < pel[j];
      UpToTheEnd(left, last', pel[i], pel[j]);
    }
  }

  lemma UpToTheEnd(ids: seq<nat>, last: nat, x: nat, y: nat)
    requires |ids| <= last && ids == Range(last - |ids| + 1, last + 1)
    ensures x in ids && x < y <= last ==> y in ids
  {
    if x in ids && x < y <= last {
      assert ids[y - (last - |ids| + 1)] == y;
    }
  }

  lemma NothingRead(g: Group, log: seq<Event>, entries: seq<Option<Envelope>>, idle: nat -> bool, batchSize: nat)
    requires Resumable(g, log, entries) && GroupOk(g, |entries|) && |g.pel| <= batchSize && batchSize > 0
    requires g.last == |entries| && OldestFirst(g.pel, idle)
    ensures var (g', log') := AfterCycle(g, log, entries, idle, batchSize); Resumable(g', log', entries)
  {
    hide FirstOccurrences, InsertAll, IdleIn, AckedAll, EventsIn, Between, Ascending;
    IdlePrefix(g.pel, idle);
    var m := |IdleIn(g.pel, idle)|;
    assert IdleIn(g.pel, idle)[..m] == IdleIn(g.pel, idle);
    var first := g.last - |g.pel|;
    AckedRange(first, |g.pel|, |entries|, m);
    AppliedPart(g, log, entries, m);
    NothingInserted(InsertAll(log, EventsIn(entries, g.pel[..m])), entries);
    assert NewIds(g, |entries|, batchSize) == [];
    hide NewIds;
  }

  lemma NothingInserted(log: seq<Event>, entries: seq<Option<Envelope>>)
    ensures InsertAll(log, EventsIn(entries, [])) == log
  {
  }

  /** From a recoverable state a cycle leads to one exactly when all pending entries were idle,
      or the stream had nothing new and no entry was idle before an older one. */
  lemma CycleKeepsResumableIff(g: Group, log: seq<Event>, entries: seq<Option<Envelope>>, idle: nat -> bool,
                               batchSize: nat)
    requires Resumable(g, log, entries) && GroupOk(g, |entries|) && |g.pel| <= batchSize && batchSize > 0
    ensures var (g', log') := AfterCycle(g, log, entries, idle, batchSize);
            Resumable(g', log', entries)
            <==> (forall id :: id in g.pel ==> idle(id)) || (g.last == |entries| && OldestFirst(g.pel, idle))
  {
    hide Resumable, AfterCycle, OldestFirst;
    var (g', log') := AfterCycle(g, log, entries, idle, batchSize);
    if forall id :: id in g.pel ==> idle(id) {
      WholeKeeps(Durable(entries, g, log), idle, batchSize);
    } else {
      var id :| id in g.pel && !idle(id);
      ResumableNeeds(g, log, entries, idle, batchSize, id);
      if g.last == |entries| && OldestFirst(g.pel, idle) {
        NothingRead(g, log, entries, idle, batchSize);
      }
    }
  }

  /** So a quick restart that finds its one pending entry not yet idle, and another entry on the
      stream, leaves the state from which order is recovered. */
  lemma HastyCycle(first: Option<Envelope>, second: Option<Envelope>, batchSize: nat)
    requires batchSize > 0
    ensures var entries, g := [first, second], Group(1, [1]);
            && Resumable(g, [], entries) && GroupOk(g, 2)
            && var (g', log') := AfterCycle(g, [], entries, _ => false, batchSize);
               !Resumable(g', log', entries)
  {
    var entries, g := [first, second], Group(1, [1]);
    assert [1] == Range(1, 2) && Range(1, 1) == [];
    assert FirstOccurrences(Between(entries, 0, 0)) == [];
    assert 1 in g.pel;
    CycleKeepsResumableIff(g, [], entries, _ => false, batchSize);
  }
}
