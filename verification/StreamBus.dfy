// The in-process approximation of Redis Streams (poc/outbox-idempotency/stream_bus.py)
// and the idempotent consumer written against it (poc/outbox-idempotency/consumer.py).

module Groups {
  import opened Basics

  // A consumer group: id of the last delivered entry, and the pending entries
  // (ids delivered but not acknowledged) in delivery order.
  datatype Group = Group(last: nat, pel: seq<nat>)

  // Ids the group has not been given yet: the next ones, oldest first. The scan
  // tests its limit after taking an entry, so a limit below one still takes one.
  function NewIds(g: Group, streamLen: nat, count: int): (ids: seq<nat>) {
    if g.last >= streamLen then []
    else Range(g.last + 1, g.last + 1 + Min(Max(count, 1), streamLen - g.last))
  }

  function Delivered(g: Group, ids: seq<nat>): Group {
    if ids == [] then g else Group(Last(ids), g.pel + ids)
  }

  function Without(ids: seq<nat>, id: nat): (r: seq<nat>)
    ensures forall x :: x in r <==> x in ids && x != id
  {
    if ids == [] then []
    else (if ids[0] == id then [] else [ids[0]]) + Without(ids[1..], id)
  }

  function Acked(g: Group, id: nat): Group {
    g.(pel := Without(g.pel, id))
  }

  lemma {:induction false} WithoutAbsent(ids: seq<nat>, id: nat)
    requires id !in ids
    ensures Without(ids, id) == ids
  {
    if ids != [] {
      WithoutAbsent(ids[1..], id);
    }
  }

  lemma {:induction false} WithoutConcat(a: seq<nat>, b: seq<nat>, id: nat)
    ensures Without(a + b, id) == Without(a, id) + Without(b, id)
  {
    if a == [] {
      assert a + b == b;
    } else {
      assert (a + b)[1..] == a[1..] + b;
      WithoutConcat(a[1..], b, id);
    }
  }

  function AckedAll(g: Group, ids: seq<nat>): Group {
    if ids == [] then g else Acked(AckedAll(g, Front(ids)), Last(ids))
  }

  ghost predicate Ascending(ids: seq<nat>) {
    forall i, j :: 0 <= i < j < |ids| ==> ids[i] < ids[j]
  }

  lemma AckHead(ids: seq<nat>)
    requires ids != [] && Ascending(ids)
    ensures Without(ids, ids[0]) == ids[1..]
  {
    WithoutAbsent(ids[1..], ids[0]);
  }

  // Acknowledging the newest pending entries, in order, leaves the older ones.
  lemma {:induction false} AckTail(last: nat, older: seq<nat>, newer: seq<nat>, n: nat)
    requires Ascending(older + newer) && n <= |newer|
    ensures AckedAll(Group(last, older + newer), newer[..n]) == Group(last, older + newer[n..])
  {
    if n == 0 {
      assert newer[0..] == newer;
    } else {
      AckTail(last, older, newer, n - 1);
      var rest := newer[n - 1..];
      assert Front(newer[..n]) == newer[..n - 1];
      forall i | 0 <= i < |older|
        ensures older[i] != rest[0]
      {
        assert (older + newer)[i] < (older + newer)[|older| + n - 1];
      }
      WithoutConcat(older, rest, rest[0]);
      WithoutAbsent(older, rest[0]);
      AscendingSuffix(older, newer, n - 1);
      AckHead(rest);
    }
  }

  lemma AckPending(g: Group)
    requires Ascending(g.pel)
    ensures AckedAll(g, g.pel) == Group(g.last, [])
  {
    assert [] + g.pel == g.pel == g.pel[..|g.pel|] && [] + g.pel[|g.pel|..] == [];
    AckTail(g.last, [], g.pel, |g.pel|);
  }

  lemma AscendingSuffix(older: seq<nat>, newer: seq<nat>, n: nat)
    requires Ascending(older + newer) && n <= |newer|
    ensures Ascending(newer[n..])
  {
    forall i, j | 0 <= i < j < |newer| - n
      ensures newer[n..][i] < newer[n..][j]
    {
      assert (older + newer)[|older| + n + i] < (older + newer)[|older| + n + j];
    }
  }

  lemma {:induction false} WithoutAscending(ids: seq<nat>, id: nat)
    requires Ascending(ids)
    ensures Ascending(Without(ids, id))
  {
    if ids != [] {
      WithoutAscending(ids[1..], id);
      var rest := Without(ids[1..], id);
      forall j | 0 <= j < |rest|
        ensures ids[0] < rest[j]
      {
        assert rest[j] in ids[1..];
      }
    }
  }

  lemma DeliveredAscending(g: Group, n: nat)
    requires Ascending(g.pel) && forall i :: 0 <= i < |g.pel| ==> g.pel[i] <= g.last
    ensures Ascending(Delivered(g, Range(g.last + 1, g.last + 1 + n)).pel)
  {
  }

  lemma {:induction false} AscendingRemoval(ids: seq<nat>, id: nat)
    requires Ascending(ids) && id in ids
    ensures |Without(ids, id)| == |ids| - 1
  {
    if ids[0] == id {
      AckHead(ids);
    } else {
      AscendingRemoval(ids[1..], id);
    }
  }
}

module GroupRuns {
  import opened Basics
  import opened Groups

  datatype Op = Grow | Read(count: int) | Ack(id: nat)

  // A stream's length, a group on it, and the ids acknowledged so far.
  datatype Account = Account(streamLen: nat, group: Group, acked: seq<nat>)

  function Do(s: Account, op: Op): Account {
    match op
    case Grow => s.(streamLen := s.streamLen + 1)
    case Read(count) => s.(group := Delivered(s.group, NewIds(s.group, s.streamLen, count)))
    case Ack(id) =>
      if id in s.group.pel then s.(group := Acked(s.group, id), acked := s.acked + [id]) else s
  }

  function Run(ops: seq<Op>): Account {
    if ops == [] then Account(0, Group(0, []), []) else Do(Run(Front(ops)), Last(ops))
  }

  ghost predicate Conserved(s: Account) {
    && s.group.last <= s.streamLen
    && Ascending(s.group.pel)
    && |s.group.pel| + |s.acked| == s.group.last
    && (forall i, j :: 0 <= i < j < |s.acked| ==> s.acked[i] != s.acked[j])
    && (forall id :: 1 <= id <= s.group.last <==> id in s.group.pel || id in s.acked)
    && (forall id :: !(id in s.group.pel && id in s.acked))
  }

  lemma ReadConserves(s: Account, count: int)
    requires Conserved(s)
    ensures Conserved(Do(s, Read(count)))
  {
    var ids := NewIds(s.group, s.streamLen, count);
    assert forall i :: 0 <= i < |s.group.pel| ==> s.group.pel[i] in s.group.pel;
    DeliveredAscending(s.group, |ids|);
    forall id
      ensures id in ids <==> s.group.last < id <= s.group.last + |ids|
    {
      if s.group.last < id <= s.group.last + |ids| {
        assert ids[id - s.group.last - 1] == id;
      }
    }
  }

  lemma AckConserves(s: Account, id: nat)
    requires Conserved(s)
    ensures Conserved(Do(s, Ack(id)))
  {
    if id in s.group.pel {
      WithoutAscending(s.group.pel, id);
      AscendingRemoval(s.group.pel, id);
    }
  }

  /** Entries up to the cursor split exactly into acknowledged and pending, over every run. */
  lemma {:induction false} Conservation(ops: seq<Op>)
    ensures Conserved(Run(ops))
  {
    if ops != [] {
      Conservation(Front(ops));
      match Last(ops)
      case Grow =>
      case Read(count) => ReadConserves(Run(Front(ops)), count);
      case Ack(id) => AckConserves(Run(Front(ops)), id);
    }
  }
}

module StreamBus {
  import opened Groups
  import GroupRuns

  // What stream entries carry.
  function Payloads<T>(entries: seq<(nat, T)>): seq<T> {
    seq(|entries|, i requires 0 <= i < |entries| => entries[i].1)
  }

  class Bus<T> {
    var streams: map<string, seq<(nat, T)>>
    var groups: map<(string, string), Group>

    // Entry ids are 1, 2, .., and what is pending was delivered from the stream.
    ghost predicate Valid()
      reads this
    {
      && (forall s, i :: s in streams && 0 <= i < |streams[s]| ==> streams[s][i].0 == i + 1)
      && (forall k :: k in groups ==> k.0 in streams && GroupOk(groups[k], |streams[k.0]|))
    }

    static ghost predicate GroupOk(g: Group, streamLen: nat) {
      && Ascending(g.pel)
      && (forall i :: 0 <= i < |g.pel| ==> 1 <= g.pel[i] <= g.last && g.pel[i] <= streamLen)
    }

    static lemma AckedOk(g: Group, streamLen: nat, id: nat)
      requires GroupOk(g, streamLen)
      ensures GroupOk(Acked(g, id), streamLen)
    {
      WithoutAscending(g.pel, id);
      var pel := Without(g.pel, id);
      forall i | 0 <= i < |pel|
        ensures 1 <= pel[i] <= g.last && pel[i] <= streamLen
      {
        assert pel[i] in g.pel;
      }
    }

    static lemma AckAbsent(g: Group, id: nat)
      ensures id !in g.pel ==> Acked(g, id) == g
    {
      if id !in g.pel {
        WithoutAbsent(g.pel, id);
      }
    }

    static lemma DeliveredOk(g: Group, streamLen: nat, count: int)
      requires GroupOk(g, streamLen)
      ensures GroupOk(Delivered(g, NewIds(g, streamLen, count)), streamLen)
    {
      DeliveredAscending(g, |NewIds(g, streamLen, count)|);
    }

    constructor ()
      ensures Valid() && streams == map[] && groups == map[]
    {
      streams, groups := map[], map[];
    }

    function Stream(stream: string): seq<(nat, T)>
      reads this
    {
      if stream in streams then streams[stream] else []
    }

    method XAdd(stream: string, entry: T) returns (eid: nat)
      requires Valid()
      modifies this
      ensures Valid()
      ensures eid == |old(Stream(stream))| + 1
      ensures streams == old(streams)[stream := old(Stream(stream)) + [(eid, entry)]]
      ensures forall g, acked :: GroupRuns.Account(|Stream(stream)|, g, acked)
                == GroupRuns.Do(GroupRuns.Account(|old(Stream(stream))|, g, acked), GroupRuns.Grow)
      ensures groups == old(groups)
    {
      if stream !in streams {
        streams := streams[stream := []];
      }
      eid := |streams[stream]| + 1;
      streams := streams[stream := streams[stream] + [(eid, entry)]];
    }

    method XGroupCreate(stream: string, group: string, start: nat)
      requires Valid()
      modifies this
      ensures Valid()
      ensures streams == old(streams)[stream := old(Stream(stream))]
      ensures groups == old(groups)[(stream, group) := Group(start, [])]
    {
      if stream !in streams {
        streams := streams[stream := []];
      }
      groups := groups[(stream, group) := Group(start, [])];
    }

    // The scan of a whole stream under a cursor that moves as entries are taken.
    static method Scan(entries: seq<(nat, T)>, g0: Group, count: int) returns (out: seq<(nat, T)>, g: Group)
      requires forall i :: 0 <= i < |entries| ==> entries[i].0 == i + 1
      ensures var ids := NewIds(g0, |entries|, count);
              && g == Delivered(g0, ids)
              && |out| == |ids|
              && (forall i :: 0 <= i < |out| ==> out[i] == entries[ids[i] - 1])
    {
      ghost var ids := NewIds(g0, |entries|, count);
      g, out := g0, [];
      var i := 0;
      while i < |entries|
        invariant 0 <= i <= |entries|
        invariant |out| == (if i <= g0.last then 0 else i - g0.last) && |out| <= |ids|
        invariant out == [] || |out| < count
        invariant forall j :: 0 <= j < |out| ==> out[j] == entries[g0.last + j]
        invariant g == Group(g0.last + |out|, g0.pel + ids[..|out|])
      {
        var (eid, entry) := entries[i];
        if eid > g.last {
          assert ids[..|out|] + [eid] == ids[..|out| + 1];
          g := Group(eid, g.pel + [eid]);
          out := out + [(eid, entry)];
          if |out| >= count {
            break;
          }
        }
        i := i + 1;
      }
      assert ids[..|out|] == ids;
    }

    method XReadGroup(stream: string, group: string, count: int) returns (out: seq<(nat, T)>)
      requires Valid() && (stream, group) in groups
      modifies this`groups
      ensures Valid()
      ensures var g := old(groups[(stream, group)]);
              var ids := NewIds(g, |streams[stream]|, count);
              && groups == old(groups)[(stream, group) := Delivered(g, ids)]
              && |out| == |ids|
              && (forall i :: 0 <= i < |out| ==> out[i] == streams[stream][ids[i] - 1] && out[i].0 == ids[i])
      ensures forall acked :: GroupRuns.Account(|streams[stream]|, groups[(stream, group)], acked)
                == GroupRuns.Do(GroupRuns.Account(|streams[stream]|, old(groups[(stream, group)]), acked),
                                GroupRuns.Read(count))
    {
      var g := groups[(stream, group)];
      DeliveredOk(g, |streams[stream]|, count);
      out, g := Scan(streams[stream], g, count);
      groups := groups[(stream, group) := g];
    }

    method XAck(stream: string, group: string, eid: nat)
      requires Valid() && (stream, group) in groups
      modifies this`groups
      ensures Valid()
      ensures groups == old(groups)[(stream, group) := Acked(old(groups[(stream, group)]), eid)]
      ensures forall acked :: groups[(stream, group)]
                == GroupRuns.Do(GroupRuns.Account(|streams[stream]|, old(groups[(stream, group)]), acked),
                                GroupRuns.Ack(eid)).group
    {
      AckAbsent(groups[(stream, group)], eid);
      var g := groups[(stream, group)];
      AckedOk(g, |streams[stream]|, eid);
      groups := groups[(stream, group) := Acked(g, eid)];
    }

    // Everything still pending, with its entry, in delivery order.
    method RedeliverPending(stream: string, group: string) returns (out: seq<(nat, T)>)
      requires Valid() && (stream, group) in groups
      ensures |out| == |groups[(stream, group)].pel|
      ensures forall i :: 0 <= i < |out| ==>
                && groups[(stream, group)].pel[i] in groups[(stream, group)].pel
                && out[i].0 == groups[(stream, group)].pel[i]
                && out[i] == streams[stream][groups[(stream, group)].pel[i] - 1]
    {
      var pel := groups[(stream, group)].pel;
      out := [];
      for i := 0 to |pel|
        invariant |out| == i
        invariant forall j :: 0 <= j < i ==> out[j] == streams[stream][pel[j] - 1] && out[j].0 == pel[j]
      {
        out := out + [streams[stream][pel[i] - 1]];
      }
    }

    method SetId(stream: string, group: string, start: nat)
      requires Valid() && stream in streams
      modifies this`groups
      ensures Valid()
      ensures groups == old(groups)[(stream, group) := Group(start, [])]
    {
      groups := groups[(stream, group) := Group(start, [])];
    }
  }
}
