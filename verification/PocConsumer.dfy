// The idempotent consumer of the outbox POC (poc/outbox-idempotency/consumer.py) on the
// in-process bus, and what a full replay from SETID 0 does to it.

module PocConsumer {
  import opened Basics
  import opened Events
  import opened Groups
  import opened StreamBus

  datatype View = View(seen: set<string>, positions: map<(string, string), real>, applied: nat, skipped: nat)

  const EMPTY := View({}, map[], 0, 0)
  const READ_COUNT := 10

  function Absorb(v: View, e: Event): View {
    if e.eventId in v.seen then v.(skipped := v.skipped + 1)
    else View(v.seen + {e.eventId}, v.positions[(e.account, e.symbol) := e.positionAfter], v.applied + 1, v.skipped)
  }

  function AbsorbAll(v: View, es: seq<Event>): View {
    if es == [] then v else Absorb(AbsorbAll(v, Front(es)), Last(es))
  }

  function IdsIn(entries: seq<(nat, Event)>): seq<nat> {
    seq(|entries|, i requires 0 <= i < |entries| => entries[i].0)
  }

  class RiskConsumer {
    const bus: Bus<Event>
    const stream: string
    const group: string
    var seen: set<string>
    var positionView: map<(string, string), real>
    var applied: nat
    var skipped: nat

    constructor (bus: Bus<Event>, stream: string, group: string)
      requires bus.Valid()
      modifies bus
      ensures bus.Valid() && this.bus == bus && this.stream == stream && this.group == group
      ensures bus.groups == old(bus.groups)[(stream, group) := Group(0, [])]
      ensures AsView() == EMPTY
    {
      this.bus, this.stream, this.group := bus, stream, group;
      seen, positionView, applied, skipped := {}, map[], 0, 0;
      new;
      bus.XGroupCreate(stream, group, 0);
    }

    function AsView(): View
      reads this
    {
      View(seen, positionView, applied, skipped)
    }

    ghost predicate Ready()
      reads this, bus
    {
      bus.Valid() && (stream, group) in bus.groups
    }

    // The consumer with its stream and group, as one value.
    ghost function AsSim(): Sim
      requires Ready()
      reads this, bus
    {
      Sim(bus.streams[stream], bus.groups[(stream, group)], AsView())
    }

    // Apply unless already seen; acknowledge either way, after the effect.
    method Apply(eid: nat, e: Event)
      requires Ready()
      modifies this`seen, this`positionView, this`applied, this`skipped, bus`groups
      ensures Ready() && AsView() == Absorb(old(AsView()), e)
      ensures bus.groups == old(bus.groups)[(stream, group) := Acked(old(bus.groups[(stream, group)]), eid)]
    {
      if e.eventId in seen {
        skipped := skipped + 1;
        bus.XAck(stream, group, eid);
        return;
      }
      positionView := positionView[(e.account, e.symbol) := e.positionAfter];
      seen := seen + {e.eventId};
      applied := applied + 1;
      bus.XAck(stream, group, eid);
    }

    // Apply a run of delivered entries one by one.
    method ApplyEach(entries: seq<(nat, Event)>)
      requires Ready()
      modifies this`seen, this`positionView, this`applied, this`skipped, bus`groups
      ensures Ready() && AsView() == AbsorbAll(old(AsView()), Payloads(entries))
      ensures bus.groups == old(bus.groups)[(stream, group) :=
                AckedAll(old(bus.groups[(stream, group)]), IdsIn(entries))]
    {
      hide Absorb, Acked;
      ghost var key := (stream, group);
      for i := 0 to |entries|
        invariant Ready() && AsView() == AbsorbAll(old(AsView()), Payloads(entries[..i]))
        invariant bus.groups == old(bus.groups)[key := AckedAll(old(bus.groups[key]), IdsIn(entries[..i]))]
      {
        ApplyNext(entries, i);
      }
      assert entries[..|entries|] == entries;
    }

    method ApplyNext(entries: seq<(nat, Event)>, i: nat)
      requires Ready() && i < |entries|
      modifies this`seen, this`positionView, this`applied, this`skipped, bus`groups
      ensures Ready()
      ensures AsView() == Absorb(old(AsView()), entries[i].1)
      ensures bus.groups == old(bus.groups)[(stream, group) := Acked(old(bus.groups[(stream, group)]), entries[i].0)]
      ensures Front(Payloads(entries[..i + 1])) == Payloads(entries[..i])
      ensures Front(IdsIn(entries[..i + 1])) == IdsIn(entries[..i])
    {
      Apply(entries[i].0, entries[i].1);
    }

    // Read up to ten new entries; a crash before the first ack leaves them all pending.
    method Poll(crashBeforeAck: bool) returns (crashed: bool)
      requires Ready()
      modifies this`seen, this`positionView, this`applied, this`skipped, bus`groups
      ensures Ready()
      ensures var g, entries := old(bus.groups[(stream, group)]), bus.streams[stream];
              var ids := NewIds(g, |entries|, 10);
              && (crashed <==> crashBeforeAck && ids != [])
              && AsView() == (if crashed then old(AsView()) else AbsorbAll(old(AsView()), NextEvents(entries, g.last)))
              && bus.groups == old(bus.groups)[(stream, group) :=
                   if crashed then Delivered(g, ids) else Group(g.last + |ids|, g.pel)]
      ensures AsSim() == Do(old(AsSim()), PollOnce(crashBeforeAck))
    {
      hide AckedAll, AbsorbAll, NextEvents, NewIds, Delivered, Payloads, IdsIn, PendingEvents, Bus<Event>.GroupOk;
      var entries := ReadTen();
      if entries != [] && crashBeforeAck {
        return true;
      }
      ApplyEach(entries);
      return false;
    }

    // The next entries, now pending, and what acknowledging them all will leave.
    method ReadTen() returns (entries: seq<(nat, Event)>)
      requires Ready()
      modifies bus`groups
      ensures Ready()
      ensures var g, all := old(bus.groups[(stream, group)]), bus.streams[stream];
              var ids := NewIds(g, |all|, READ_COUNT);
              && Payloads(entries) == NextEvents(all, g.last) && |entries| == |ids|
              && bus.groups == old(bus.groups)[(stream, group) := Delivered(g, ids)]
              && AckedAll(Delivered(g, ids), IdsIn(entries)) == Group(g.last + |ids|, g.pel)
    {
      ghost var g := bus.groups[(stream, group)];
      ghost var ids := NewIds(g, |bus.streams[stream]|, READ_COUNT);
      entries := bus.XReadGroup(stream, group, READ_COUNT);
      assert Payloads(entries) == NextEvents(bus.streams[stream], g.last);
      assert IdsIn(entries) == ids;
      AckDelivered(g, |bus.streams[stream]|);
    }

    static lemma AckDelivered(g: Group, streamLen: nat)
      requires Bus<Event>.GroupOk(Delivered(g, NewIds(g, streamLen, READ_COUNT)), streamLen)
      ensures var ids := NewIds(g, streamLen, READ_COUNT);
              AckedAll(Delivered(g, ids), ids) == Group(g.last + |ids|, g.pel)
    {
      var ids := NewIds(g, streamLen, READ_COUNT);
      assert ids[..|ids|] == ids && g.pel + ids[|ids|..] == g.pel && g.pel + [] == g.pel;
      AckTail(g.last + |ids|, g.pel, ids, |ids|);
    }

    // Reprocess everything still pending.
    method Recover()
      requires Ready()
      modifies this`seen, this`positionView, this`applied, this`skipped, bus`groups
      ensures Ready()
      ensures var g := old(bus.groups[(stream, group)]);
              && bus.groups == old(bus.groups)[(stream, group) := Group(g.last, [])]
              && Bus<Event>.GroupOk(g, |bus.streams[stream]|)
              && AsView() == AbsorbAll(old(AsView()), PendingEvents(bus.streams[stream], g))
      ensures AsSim() == Do(old(AsSim()), RecoverAll)
    {
      hide AckedAll, AbsorbAll, NextEvents, NewIds, Delivered;
      ghost var g := bus.groups[(stream, group)];
      AckPending(g);
      var entries := ReadPending();
      ApplyEach(entries);
    }

    method ReadPending() returns (entries: seq<(nat, Event)>)
      requires Ready()
      ensures var g := bus.groups[(stream, group)];
              && Bus<Event>.GroupOk(g, |bus.streams[stream]|)
              && Payloads(entries) == PendingEvents(bus.streams[stream], g) && IdsIn(entries) == g.pel
    {
      entries := bus.RedeliverPending(stream, group);
    }

    // SETID 0, then poll until nothing is new: every entry is skipped once more, none applied.
    method Replay()
      requires Ready() && Covered(AsSim()) && CaughtUp(AsSim())
      modifies this`seen, this`positionView, this`applied, this`skipped, bus`groups
      ensures Ready() && bus.groups == old(bus.groups)
      ensures AsView() == old(AsView()).(skipped := old(skipped) + |bus.streams[stream]|)
    {
      hide AbsorbAll, Covered;
      AllSeen(AsSim());
      bus.SetId(stream, group, 0);
      PollToEnd();
      NothingNew(old(AsView()), Payloads(bus.streams[stream]));
    }

    method PollToEnd()
      requires Ready() && bus.groups[(stream, group)] == Group(0, [])
      modifies this`seen, this`positionView, this`applied, this`skipped, bus`groups
      ensures Ready()
      ensures bus.groups == old(bus.groups)[(stream, group) := Group(|bus.streams[stream]|, [])]
      ensures AsView() == AbsorbAll(old(AsView()), Payloads(bus.streams[stream]))
    {
      hide Absorb, AbsorbAll, Do, NextEvents, NewIds, Delivered, Payloads;
      var key := (stream, group);
      ghost var all := bus.streams[stream];
      NothingDelivered(AsView(), all);
      while bus.groups[key].last < |bus.streams[stream]|
        invariant Ready() && bus.groups == old(bus.groups)[key := Group(bus.groups[key].last, [])]
        invariant bus.groups[key].last <= |all|
        invariant AsView() == AbsorbAll(old(AsView()), Payloads(all[..bus.groups[key].last]))
        decreases |all| - bus.groups[key].last
      {
        NextPoll(old(AsView()), all, bus.groups[key].last);
        var _ := Poll(false);
      }
      assert all[..|all|] == all;
    }
  }

  // What the next poll delivers, and what a recovery redelivers.
  ghost function NextEvents(entries: seq<(nat, Event)>, last: nat): seq<Event> {
    if last >= |entries| then [] else Payloads(entries[last..Min(last + READ_COUNT, |entries|)])
  }

  ghost function PendingEvents(entries: seq<(nat, Event)>, g: Group): seq<Event>
    requires Bus<Event>.GroupOk(g, |entries|)
  {
    seq(|g.pel|, i requires 0 <= i < |g.pel| => entries[g.pel[i] - 1].1)
  }

  // --- replay ----------------------------------------------------------

  // Everything delivered by polling from `last` until nothing is new.
  ghost function PolledFrom(entries: seq<(nat, Event)>, last: nat): seq<Event>
    decreases |entries| - last
  {
    if last >= |entries| then []
    else NextEvents(entries, last) + PolledFrom(entries, Min(last + READ_COUNT, |entries|))
  }

  lemma {:induction false} PollingCoversTheRest(entries: seq<(nat, Event)>, last: nat)
    requires last <= |entries|
    ensures PolledFrom(entries, last) == Payloads(entries[last..])
    decreases |entries| - last
  {
    if last < |entries| {
      var next := Min(last + READ_COUNT, |entries|);
      PollingCoversTheRest(entries, next);
      assert entries[last..] == entries[last..next] + entries[next..];
    }
  }

  lemma {:induction false} AbsorbConcat(v: View, a: seq<Event>, b: seq<Event>)
    ensures AbsorbAll(v, a + b) == AbsorbAll(AbsorbAll(v, a), b)
  {
    if b == [] {
      assert a + b == a;
    } else {
      assert Front(a + b) == a + Front(b);
      AbsorbConcat(v, a, Front(b));
    }
  }

  lemma {:induction false} SeenAfter(v: View, es: seq<Event>)
    ensures var v' := AbsorbAll(v, es);
            && v.seen <= v'.seen && (forall e :: e in es ==> e.eventId in v'.seen)
            && v'.applied + v'.skipped == v.applied + v.skipped + |es|
  {
    if es != [] {
      SeenAfter(v, Front(es));
      assert es == Front(es) + [Last(es)];
    }
  }

  lemma {:induction false} NothingNew(v: View, es: seq<Event>)
    requires forall e :: e in es ==> e.eventId in v.seen
    ensures AbsorbAll(v, es) == v.(skipped := v.skipped + |es|)
  {
    if es != [] {
      assert es == Front(es) + [Last(es)];
      NothingNew(v, Front(es));
    }
  }

  // --- every run ----------------------------------------------------------

  // A poll may die before its first ack; Rewind is SETID 0.
  datatype Op = Append(event: Event) | PollOnce(crash: bool) | RecoverAll | Rewind

  datatype Sim = Sim(entries: seq<(nat, Event)>, group: Group, view: View)

  ghost function Do(s: Sim, op: Op): Sim {
    match op
    case Append(e) => s.(entries := s.entries + [(|s.entries| + 1, e)])
    case PollOnce(crash) =>
      var ids := NewIds(s.group, |s.entries|, READ_COUNT);
      if crash && ids != [] then s.(group := Delivered(s.group, ids))
      else s.(group := Group(s.group.last + |ids|, s.group.pel),
              view := AbsorbAll(s.view, NextEvents(s.entries, s.group.last)))
    case RecoverAll =>
      if !Bus<Event>.GroupOk(s.group, |s.entries|) then s
      else s.(group := Group(s.group.last, []), view := AbsorbAll(s.view, PendingEvents(s.entries, s.group)))
    case Rewind => s.(group := Group(0, []))
  }

  ghost function Run(ops: seq<Op>): Sim {
    if ops == [] then Sim([], Group(0, []), EMPTY) else Do(Run(Front(ops)), Last(ops))
  }

  // Every entry up to the cursor that is not pending has been seen.
  ghost predicate Covered(s: Sim) {
    && s.group.last <= |s.entries| && Bus<Event>.GroupOk(s.group, |s.entries|)
    && forall id: nat :: 1 <= id <= s.group.last ==> PendingOrSeen(s, id)
  }

  predicate PendingOrSeen(s: Sim, id: nat)
    requires 1 <= id <= |s.entries|
  {
    id in s.group.pel || s.entries[id - 1].1.eventId in s.view.seen
  }

  predicate CaughtUp(s: Sim) {
    s.group.last == |s.entries| && s.group.pel == []
  }

  lemma AppendCovers(s: Sim, e: Event)
    requires Covered(s)
    ensures Covered(Do(s, Append(e)))
  {
    forall id: nat | 1 <= id <= s.group.last
      ensures PendingOrSeen(Do(s, Append(e)), id)
    {
      assert PendingOrSeen(s, id);
    }
  }

  lemma PollCovers(s: Sim, crash: bool)
    requires Covered(s)
    ensures Covered(Do(s, PollOnce(crash)))
  {
    hide AbsorbAll;
    var ids, s' := NewIds(s.group, |s.entries|, READ_COUNT), Do(s, PollOnce(crash));
    var next := NextEvents(s.entries, s.group.last);
    Bus<Event>.DeliveredOk(s.group, |s.entries|, READ_COUNT);
    SeenAfter(s.view, next);
    forall id: nat | 1 <= id <= s'.group.last
      ensures PendingOrSeen(s', id)
    {
      if id <= s.group.last {
        assert PendingOrSeen(s, id);
      } else {
        assert id == ids[id - s.group.last - 1];
        if !(crash && ids != []) {
          assert next[id - s.group.last - 1] == s.entries[id - 1].1;
        }
      }
    }
  }

  lemma RecoverCovers(s: Sim)
    requires Covered(s)
    ensures Covered(Do(s, RecoverAll))
  {
    hide AbsorbAll;
    var pending := PendingEvents(s.entries, s.group);
    SeenAfter(s.view, pending);
    forall id: nat | 1 <= id <= s.group.last
      ensures PendingOrSeen(Do(s, RecoverAll), id)
    {
      assert PendingOrSeen(s, id);
      if id in s.group.pel {
        var i :| 0 <= i < |s.group.pel| && s.group.pel[i] == id;
        assert pending[i] == s.entries[id - 1].1;
      }
    }
  }

  /** Over every run of appends, polls, polls that die, recoveries and rewinds, every entry up
      to the cursor that is not pending has been seen. */
  lemma {:induction false} AcknowledgedIsSeen(ops: seq<Op>)
    ensures Covered(Run(ops))
  {
    if ops != [] {
      AcknowledgedIsSeen(Front(ops));
      var s := Run(Front(ops));
      match Last(ops)
      case Append(e) => AppendCovers(s, e);
      case PollOnce(crash) => PollCovers(s, crash);
      case RecoverAll => RecoverCovers(s);
      case Rewind =>
    }
  }

  lemma AllSeen(s: Sim)
    requires Covered(s) && CaughtUp(s)
    ensures forall e :: e in Payloads(s.entries) ==> e.eventId in s.view.seen
  {
    forall e | e in Payloads(s.entries)
      ensures e.eventId in s.view.seen
    {
      var i :| 0 <= i < |s.entries| && s.entries[i].1 == e;
      assert PendingOrSeen(s, i + 1);
    }
  }

  lemma NothingDelivered(v: View, entries: seq<(nat, Event)>)
    ensures AbsorbAll(v, Payloads(entries[..0])) == v
  {
  }

  lemma NextPoll(v: View, entries: seq<(nat, Event)>, last: nat)
    requires last < |entries|
    ensures var n := |NewIds(Group(last, []), |entries|, READ_COUNT)|;
            && 0 < n && last + n <= |entries|
            && AbsorbAll(AbsorbAll(v, Payloads(entries[..last])), NextEvents(entries, last))
               == AbsorbAll(v, Payloads(entries[..last + n]))
  {
    hide AbsorbAll;
    var n := |NewIds(Group(last, []), |entries|, READ_COUNT)|;
    assert Payloads(entries[..last + n]) == Payloads(entries[..last]) + NextEvents(entries, last);
    AbsorbConcat(v, Payloads(entries[..last]), NextEvents(entries, last));
  }

  /** A consumer that has caught up, whatever crashes and recoveries it went through, and is
      replayed from SETID 0 to the end skips every entry once more and applies none. */
  lemma ReplayChangesNothing(ops: seq<Op>)
    requires CaughtUp(Run(ops))
    ensures var s := Run(ops);
            AbsorbAll(s.view, PolledFrom(s.entries, 0)) == s.view.(skipped := s.view.skipped + |s.entries|)
  {
    hide Run;
    var s := Run(ops);
    AcknowledgedIsSeen(ops);
    AllSeen(s);
    PollingCoversTheRest(s.entries, 0);
    assert s.entries[0..] == s.entries;
    NothingNew(s.view, Payloads(s.entries));
  }

  /** Its view is exactly the first occurrences on the stream: that many applied, and for each
      position the last of them to touch it. */
  lemma {:induction false} ViewIsFirstOccurrences(es: seq<Event>)
    ensures var v, log := AbsorbAll(EMPTY, es), FirstOccurrences(es);
            && v.applied == |log|
            && (forall id :: id in v.seen <==> Has(log, id))
            && (forall a, s :: (a, s) in v.positions <==> LastFor(log, a, s).Some?)
            && (forall a, s :: (a, s) in v.positions ==> v.positions[(a, s)] == PositionIn(log, a, s))
  {
    if es != [] {
      ViewIsFirstOccurrences(Front(es));
      FirstOccurrencesFacts(Front(es));
      hide Has;
      var log, e := FirstOccurrences(Front(es)), Last(es);
      assert Front(log + [e]) == log;
      forall id {
        HasAppend(log, e, id);
      }
    }
  }
}
