// Nothing gets stuck: from every reachable state of the pipeline, restarting relay and consumer
// and letting them run drains it, however much is unsent, undelivered or pending.

module Progress {
  import opened Basics
  import opened Events
  import opened Groups
  import opened Pipeline
  import O = InOrder

  // --- the relay ------------------------------------------------------------

  ghost predicate SentPrefix(rows: seq<Row>, sent: nat) {
    sent <= |rows| && forall i :: 0 <= i < |rows| ==> (rows[i].sent <==> i < sent)
  }

  // One more row is published and marked.
  lemma RelayRow(c: Config, before: seq<Action>, sent: nat) returns (actions: seq<Action>)
    requires Run(c, before).relay.Waiting? && SentPrefix(Run(c, before).outbox, sent)
    requires sent < |Run(c, before).outbox|
    ensures var s := Run(c, before); var row := s.outbox[sent];
            Run(c, actions) == s.(outbox := s.outbox[sent := row.(sent := true)], stream := s.stream + [row.event])
  {
    hide Run, Unsent, Apply, Insert, Has;
    var s := Run(c, before);
    UnsentSuffix(s.outbox, sent);
    assert Range(sent, |s.outbox|)[..1] == [sent];
    actions := O.Step(c, before, Fetch(1));
    assert Run(c, actions) == s.(relay := Draining([sent], false));
    actions := O.Step(c, actions, Publish);
    actions := O.Step(c, actions, Mark);
    assert [sent][1..] == [];
    actions := O.Step(c, actions, RelayStop);
  }

  lemma {:induction false} RelayRest(c: Config, before: seq<Action>, sent: nat) returns (actions: seq<Action>)
    requires Run(c, before).relay.Waiting? && SentPrefix(Run(c, before).outbox, sent)
    ensures var s, s' := Run(c, before), Run(c, actions);
            && s'.group == s.group && s'.consumer == s.consumer && EventsOf(s'.outbox) == EventsOf(s.outbox)
            && (forall i :: 0 <= i < |s'.outbox| ==> s'.outbox[i].sent)
    decreases |Run(c, before).outbox| - sent
  {
    hide Run;
    actions := before;
    if sent < |Run(c, before).outbox| {
      actions := RelayRow(c, before, sent);
      assert EventsOf(Run(c, actions).outbox) == EventsOf(Run(c, before).outbox);
      actions := RelayRest(c, actions, sent + 1);
    }
  }

  // --- the consumer ----------------------------------------------------------

  // Of a batch in hand, the first k are applied and acknowledged.
  lemma {:induction false} Process(c: Config, before: seq<Action>, k: nat) returns (actions: seq<Action>)
    requires Run(c, before).consumer.Reclaiming? || Run(c, before).consumer.Fresh?
    requires !Run(c, before).consumer.handled && k <= |Run(c, before).consumer.batch|
    requires var s := Run(c, before); forall i :: 0 <= i < k ==> 1 <= s.consumer.batch[i] <= |s.stream|
    ensures var s, s' := Run(c, before), Run(c, actions);
            && s'.outbox == s.outbox && s'.stream == s.stream && s'.relay == s.relay
            && s'.group == AckedAll(s.group, s.consumer.batch[..k])
            && s'.consumer == s.consumer.(batch := s.consumer.batch[k..])
    decreases k
  {
    hide Run, Acked, Apply, Insert, Has;
    var s := Run(c, before);
    actions := before;
    if k == 0 {
      assert s.consumer.batch[0..] == s.consumer.batch;
    } else {
      actions := Process(c, before, k - 1);
      assert Front(s.consumer.batch[..k]) == s.consumer.batch[..k - 1];
      actions := O.Step(c, actions, Handle);
      actions := O.Step(c, actions, Action.Ack);
      assert s.consumer.batch[k - 1..][1..] == s.consumer.batch[k..];
    }
  }

  ghost predicate GroupSane(g: Group, streamLen: nat) {
    && g.last <= streamLen && Ascending(g.pel)
    && forall i :: 0 <= i < |g.pel| ==> 1 <= g.pel[i] <= g.last
  }

  // A reclaim that finds its oldest entries idle is applied and acknowledged.
  lemma ReclaimSome(c: Config, before: seq<Action>) returns (actions: seq<Action>)
    requires Run(c, before).consumer.Top? && GroupSane(Run(c, before).group, |Run(c, before).stream|)
    ensures var s, s' := Run(c, before), Run(c, actions);
            && s'.outbox == s.outbox && s'.stream == s.stream && s'.relay == s.relay && s'.consumer.Reading?
            && s'.group == Group(s.group.last, s.group.pel[Min(c.claimCount, |s.group.pel|)..])
  {
    hide Run, AckedAll, Apply, Insert, Has;
    var s := Run(c, before);
    var k := Min(c.claimCount, |s.group.pel|);
    var ids := s.group.pel[..k];
    actions := O.Step(c, before, Claim(ids));
    actions := Process(c, actions, k);
    assert ids[..k] == ids && ids[k..] == [];
    assert [] + s.group.pel == s.group.pel && [] + s.group.pel[k..] == s.group.pel[k..];
    AckTail(s.group.last, [], s.group.pel, k);
    actions := O.Step(c, actions, EndBatch);
  }

  // The next batch is read, applied and acknowledged.
  lemma ReadSome(c: Config, before: seq<Action>) returns (actions: seq<Action>)
    requires Run(c, before).consumer.Reading? && GroupSane(Run(c, before).group, |Run(c, before).stream|)
    ensures var s, s' := Run(c, before), Run(c, actions);
            && s'.outbox == s.outbox && s'.stream == s.stream && s'.relay == s.relay && s'.consumer.Top?
            && s'.group == Group(Min(s.group.last + Max(c.readCount, 1), |s.stream|), s.group.pel)
  {
    hide Run, AckedAll, Apply, Insert, Has;
    var s := Run(c, before);
    var ids := NewIds(s.group, |s.stream|, c.readCount);
    var last' := Min(s.group.last + Max(c.readCount, 1), |s.stream|);
    assert last' == s.group.last + |ids| && forall i :: 0 <= i < |ids| ==> ids[i] == s.group.last + 1 + i;
    actions := O.Step(c, before, Action.Read);
    assert Run(c, actions).group == Group(last', s.group.pel + ids);
    actions := Process(c, actions, |ids|);
    assert ids[..|ids|] == ids && ids[|ids|..] == [] && s.group.pel + [] == s.group.pel;
    AckTail(last', s.group.pel, ids, |ids|);
    actions := O.Step(c, actions, EndBatch);
  }

  lemma {:induction false} ConsumeRest(c: Config, before: seq<Action>) returns (actions: seq<Action>)
    requires c.claimCount >= 1
    requires Run(c, before).consumer.Top? && GroupSane(Run(c, before).group, |Run(c, before).stream|)
    ensures var s, s' := Run(c, before), Run(c, actions);
            s'.outbox == s.outbox && s'.stream == s.stream && s'.group == Group(|s.stream|, [])
    decreases |Run(c, before).stream| - Run(c, before).group.last + |Run(c, before).group.pel|
  {
    hide Run;
    var s := Run(c, before);
    actions := before;
    if s.group != Group(|s.stream|, []) {
      actions := ReclaimSome(c, before);
      actions := ReadSome(c, actions);
      actions := ConsumeRest(c, actions);
    }
  }

  /** From every reachable state, whatever crashed and wherever, one restart of relay and consumer
      and no further fault leads to a quiet pipeline over the same outbox; so (see Pipeline) with
      every event applied and cash at the single-delivery baseline. */
  lemma AlwaysDrains(c: Config, before: seq<Action>) returns (actions: seq<Action>)
    requires c.claimCount >= 1
    ensures Quiet(Run(c, actions)) && EventsOf(Run(c, actions).outbox) == EventsOf(Run(c, before).outbox)
  {
    hide Run, Collapse, FirstOccurrences, Projects;
    actions := O.Step(c, before, RelayStop);
    actions := O.Step(c, actions, ConsumerCrash);
    var sent, put := RelayStutters(c, actions);
    ConsumerInvariant(c, actions);
    SaneGroup(c, Run(c, actions));
    actions := RelayRest(c, actions, sent);
    ConsumerInvariant(c, actions);
    SaneGroup(c, Run(c, actions));
    actions := ConsumeRest(c, actions);
  }

  lemma SaneGroup(c: Config, s: State)
    requires ConsumerOk(c, s)
    ensures GroupSane(s.group, |s.stream|)
  {
    hide Has, Projects;
    assert forall i :: 0 <= i < |s.group.pel| ==> s.group.pel[i] in s.group.pel;
  }
}
