// The scheduled relay of ledger-core (stream/OutboxRelay.java): one batch per call,
// publish then mark, stop at the first failed publish.

module OutboxRelay {
  import opened Basics
  import opened Events
  import opened Pipeline
  import opened NativeStore
  import opened Outbox

  // The rows one call works on: unsent, oldest first, at most `limit`.
  ghost function BatchOf(rows: seq<Row>, limit: nat): seq<nat> {
    Unsent(rows)[..Min(limit, |Unsent(rows)|)]
  }

  class Relay {
    const enabled: bool
    const batchSize: nat
    var outbox: seq<Row>
    var stream: seq<Event>

    constructor (enabled: bool, batchSize: nat, outbox: seq<Row>)
      ensures this.enabled == enabled && this.batchSize == batchSize && this.outbox == outbox && stream == []
    {
      this.enabled, this.batchSize, this.outbox, stream := enabled, batchSize, outbox, [];
    }

    method FindUnsent(limit: nat) returns (ids: seq<nat>)
      ensures ids == BatchOf(outbox, limit)
    {
      var unsent := Unsent(outbox);
      ids := unsent[..Min(limit, |unsent|)];
    }

    method MarkSent(id: string)
      modifies this`outbox
      ensures outbox == Marked(old(outbox), id)
    {
      outbox := Marked(outbox, id);
    }

    // Publish the next row of a batch and only then mark it.
    method PublishThenMark(ghost rows: seq<Row>, batch: seq<nat>, i: nat)
      requires i < |batch| && InRange(batch, rows) && DistinctIds(EventsOf(rows))
      requires MarkedRows(rows, outbox, batch[..i])
      modifies this`outbox, this`stream
      ensures stream == old(stream) + [rows[batch[i]].event]
      ensures MarkedRows(rows, outbox, batch[..i + 1])
      ensures Picked(rows, batch[..i]) + [rows[batch[i]].event] == Picked(rows, batch[..i + 1])
    {
      var event := outbox[batch[i]].event;
      stream := stream + [event];
      MarkNext(rows, outbox, batch, i);
      MarkSent(event.eventId);
    }

    // `fails(i)` says whether the i-th publish of this call throws.
    method RelayBatch(fails: nat -> bool) returns (published: nat)
      requires DistinctIds(EventsOf(outbox))
      modifies this`outbox, this`stream
      ensures !enabled ==> published == 0 && outbox == old(outbox) && stream == old(stream)
      ensures enabled ==>
                var batch := BatchOf(old(outbox), batchSize);
                && published <= |batch| && InRange(batch, old(outbox))
                && (forall i: nat :: i < published ==> !fails(i))
                && (published < |batch| ==> fails(published))
                && stream == old(stream) + Picked(old(outbox), batch[..published])
                && MarkedRows(old(outbox), outbox, batch[..published])
    {
      hide MarkedRows, Unsent;
      if !enabled {
        return 0;
      }
      var batch := FindUnsent(batchSize);
      ghost var rows := outbox;
      UnsentRows(rows);
      NothingMarked(rows);
      published := 0;
      for i := 0 to |batch|
        invariant published == i
        invariant forall j: nat :: j < i ==> !fails(j)
        invariant stream == old(stream) + Picked(rows, batch[..i])
        invariant MarkedRows(rows, outbox, batch[..i])
      {
        if fails(i) {
          break;
        }
        PublishThenMark(rows, batch, i);
        published := published + 1;
      }
    }
  }

  lemma NothingMarked(rows: seq<Row>)
    ensures MarkedRows(rows, rows, [])
  {
  }

  // The first n unsent rows, seen from the rows but the last.
  lemma FirstUnsent(rows: seq<Row>, n: nat)
    requires rows != [] && n <= |Unsent(rows)|
    ensures var u := Unsent(Front(rows)); var m := Min(n, |u|);
            && m >= 0 && InRange(u, Front(rows))
            && (forall i: nat :: i < |rows| - 1 ==> (i in Unsent(rows)[..n] <==> i in u[..m]))
            && (|rows| - 1 in Unsent(rows)[..n] <==> n > |u|)
  {
    var u, last := Unsent(Front(rows)), |rows| - 1;
    UnsentRows(Front(rows));
    var m := Min(n, |u|);
    assert last !in u[..m];
    if n <= |u| {
      assert Unsent(rows)[..n] == u[..n];
    } else {
      assert Unsent(rows)[..n] == u[..m] + [last];
    }
  }

  lemma MarkedFront(before: seq<Row>, after: seq<Row>, n: nat)
    requires before != [] && n <= |Unsent(before)| && MarkedRows(before, after, Unsent(before)[..n])
    ensures var u := Unsent(Front(before));
            && Min(n, |u|) >= 0 && MarkedRows(Front(before), Front(after), u[..Min(n, |u|)])
            && (Last(after).sent <==> Last(before).sent || n > |u|)
  {
    hide Unsent;
    FirstUnsent(before, n);
  }

  /** What a call leaves unsent is exactly the rest, still oldest first. */
  lemma {:induction false} UnsentAfter(before: seq<Row>, after: seq<Row>, n: nat)
    requires n <= |Unsent(before)| && MarkedRows(before, after, Unsent(before)[..n])
    ensures Unsent(after) == Unsent(before)[n..]
  {
    if before != [] {
      MarkedFront(before, after, n);
      UnsentAfter(Front(before), Front(after), Min(n, |Unsent(Front(before))|));
    }
  }

  // The outbox before each of a series of fault-free calls, and after the last.
  ghost predicate FaultFreeCalls(outboxes: seq<seq<Row>>, batchSize: nat) {
    && outboxes != []
    && forall i :: 0 <= i < |outboxes| - 1 ==>
         MarkedRows(outboxes[i], outboxes[i + 1], BatchOf(outboxes[i], batchSize))
  }

  lemma {:induction false} UnsentCount(outboxes: seq<seq<Row>>, batchSize: nat)
    requires FaultFreeCalls(outboxes, batchSize)
    ensures |Unsent(Last(outboxes))| == Max(0, |Unsent(outboxes[0])| - (|outboxes| - 1) * batchSize)
  {
    if |outboxes| > 1 {
      var before := Last(Front(outboxes));
      UnsentCount(Front(outboxes), batchSize);
      UnsentAfter(before, Last(outboxes), Min(batchSize, |Unsent(before)|));
      assert (|outboxes| - 1) * batchSize == (|outboxes| - 2) * batchSize + batchSize;
    }
  }

  /** Once publishing works, the outbox is empty after exactly ceil(unsent / batch size) calls. */
  lemma DrainedInCeilCalls(outboxes: seq<seq<Row>>, batchSize: nat)
    requires FaultFreeCalls(outboxes, batchSize) && batchSize > 0
    ensures Unsent(Last(outboxes)) == []
       <==> |outboxes| - 1 >= (|Unsent(outboxes[0])| + batchSize - 1) / batchSize
  {
    UnsentCount(outboxes, batchSize);
    CeilIff(|Unsent(outboxes[0])|, batchSize, |outboxes| - 1);
  }

  lemma CeilIff(n: nat, b: nat, k: nat)
    requires b > 0
    ensures n <= k * b <==> k >= (n + b - 1) / b
  {
    var q := (n + b - 1) / b;
    assert q * b <= n + b - 1 < q * b + b;
    if k >= q {
      assert (k - q) * b >= 0;
      assert k * b == q * b + (k - q) * b;
    } else {
      assert (q - 1 - k) * b >= 0;
      assert k * b == (q - 1) * b - (q - 1 - k) * b;
      assert (q - 1) * b == q * b - b;
    }
  }
}
