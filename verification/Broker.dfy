// The gateway's fan-out (services/gateway/broker.go): each client has a bounded buffer; a
// message that does not fit is dropped for that client alone.

module Broker {
  import opened Basics

  datatype Message = Message(event: string, data: string)

  const BUFFER := 128

  // `sub` is obtained from `all` by leaving messages out, in order.
  predicate Subsequence(sub: seq<Message>, all: seq<Message>) {
    if sub == [] then true
    else if all == [] then false
    else if Last(sub) == Last(all) && Subsequence(Front(sub), Front(all)) then true
    else Subsequence(sub, Front(all))
  }

  lemma SubsequenceTake(sub: seq<Message>, all: seq<Message>, m: Message)
    requires Subsequence(sub, all)
    ensures Subsequence(sub + [m], all + [m])
  {
    assert Front(sub + [m]) == sub && Front(all + [m]) == all;
  }

  lemma SubsequenceDrop(sub: seq<Message>, all: seq<Message>, m: Message)
    requires Subsequence(sub, all)
    ensures Subsequence(sub, all + [m])
  {
    assert Front(all + [m]) == all;
  }

  /** A subsequence is everything exactly when nothing is missing. */
  lemma {:induction false} SubsequenceLength(sub: seq<Message>, all: seq<Message>)
    requires Subsequence(sub, all)
    ensures |sub| <= |all|
    ensures |sub| == |all| ==> sub == all
  {
    if sub != [] {
      if Last(sub) == Last(all) && Subsequence(Front(sub), Front(all)) {
        SubsequenceLength(Front(sub), Front(all));
        assert sub == Front(sub) + [Last(sub)] && all == Front(all) + [Last(all)];
      } else {
        SubsequenceLength(sub, Front(all));
      }
    }
  }

  // A buffered Go channel, with the history of what was offered to and taken from it.
  class Channel {
    var buffer: seq<Message>
    var closed: bool
    ghost var received: seq<Message>
    ghost var offered: seq<Message>
    ghost var dropped: nat

    constructor ()
      ensures buffer == [] && !closed && received == [] && offered == [] && dropped == 0
    {
      buffer, closed, received, offered, dropped := [], false, [], [], 0;
    }

    ghost predicate Faithful()
      reads this
    {
      && |buffer| <= 128
      && Subsequence(received + buffer, offered)
      && |received + buffer| + dropped == |offered|
    }

    lemma AllUnlessDropped()
      requires Faithful()
      ensures received + buffer == offered <==> dropped == 0
    {
      SubsequenceLength(received + buffer, offered);
    }

    // select { case ch <- msg: default: }; sending on a closed channel would panic.
    method Offer(m: Message)
      requires !closed && Faithful()
      modifies this`buffer, this`offered, this`dropped
      ensures Faithful() && offered == old(offered) + [m]
      ensures buffer == if |old(buffer)| < 128 then old(buffer) + [m] else old(buffer)
      ensures dropped == if |old(buffer)| < 128 then old(dropped) else old(dropped) + 1
    {
      if |buffer| < BUFFER {
        SubsequenceTake(received + buffer, offered, m);
        assert (received + buffer) + [m] == received + (buffer + [m]);
        buffer := buffer + [m];
      } else {
        SubsequenceDrop(received + buffer, offered, m);
        dropped := dropped + 1;
      }
      offered := offered + [m];
    }

    // The client takes the oldest buffered message; a closed channel still drains.
    method Receive() returns (m: Option<Message>)
      requires Faithful()
      modifies this`buffer, this`received
      ensures Faithful()
      ensures m == if old(buffer) == [] then None else Some(old(buffer)[0])
      ensures m.Some? ==> buffer == old(buffer)[1..] && received == old(received) + [m.value]
      ensures m.None? ==> buffer == old(buffer) && received == old(received)
    {
      if buffer == [] {
        return None;
      }
      m := Some(buffer[0]);
      assert received + buffer == (received + [buffer[0]]) + buffer[1..];
      received := received + [buffer[0]];
      buffer := buffer[1..];
    }
  }

  class Broker {
    var clients: set<Channel>
    ghost var published: seq<Message>
    ghost var since: map<Channel, nat>     // how much was published before a client subscribed

    // Every registered channel is open and bounded, was offered exactly what was published
    // since its client subscribed, and holds or has delivered an in-order part of that.
    ghost predicate Valid()
      reads this, clients
    {
      forall ch :: ch in clients ==>
        && !ch.closed && ch.Faithful()
        && ch in since && since[ch] <= |published|
        && ch.offered == published[since[ch]..]
    }

    constructor ()
      ensures Valid() && clients == {} && published == []
    {
      clients, published, since := {}, [], map[];
    }

    method Subscribe() returns (ch: Channel)
      requires Valid()
      modifies this
      ensures Valid() && fresh(ch) && clients == old(clients) + {ch}
      ensures published == old(published) && since == old(since)[ch := |published|]
      ensures ch.buffer == [] && ch.offered == [] && ch.received == [] && ch.dropped == 0
    {
      ch := new Channel();
      clients := clients + {ch};
      since := since[ch := |published|];
    }

    // Only a registered client is removed and closed, so no channel is closed twice.
    method Unsubscribe(ch: Channel)
      requires Valid()
      modifies this, ch`closed
      ensures Valid() && clients == old(clients) - {ch}
      ensures published == old(published) && since == old(since)
      ensures ch.closed <==> old(ch.closed) || ch in old(clients)
    {
      if ch in clients {
        clients := clients - {ch};
        ch.closed := true;
      }
    }

    // Offer the message to every client; a full buffer costs only its own client.
    method Publish(m: Message)
      requires Valid()
      modifies this`published, clients`buffer, clients`offered, clients`dropped
      ensures Valid() && published == old(published) + [m]
      ensures forall ch :: ch in clients ==> OfferedTo(ch, m, old(ch.buffer), old(ch.offered), old(ch.dropped))
    {
      hide Subsequence;
      OfferAll(m);
      ghost var before := published;
      published := published + [m];
      forall ch | ch in clients
        ensures ch.offered == published[since[ch]..]
      {
        SuffixNext(before, since[ch], m);
        assert OfferedTo(ch, m, old(ch.buffer), old(ch.offered), old(ch.dropped));
      }
    }

    method OfferAll(m: Message)
      requires forall ch :: ch in clients ==> !ch.closed && ch.Faithful()
      modifies clients`buffer, clients`offered, clients`dropped
      ensures forall ch :: ch in clients ==> ch.Faithful()
      ensures forall ch :: ch in clients ==> OfferedTo(ch, m, old(ch.buffer), old(ch.offered), old(ch.dropped))
    {
      hide Subsequence;
      var todo := clients;
      while todo != {}
        invariant todo <= clients
        invariant forall ch :: ch in clients ==> ch.Faithful()
        invariant forall ch :: ch in todo ==>
                    ch.offered == old(ch.offered) && ch.buffer == old(ch.buffer) && ch.dropped == old(ch.dropped)
        invariant forall ch :: ch in clients - todo ==>
                    OfferedTo(ch, m, old(ch.buffer), old(ch.offered), old(ch.dropped))
        decreases todo
      {
        var ch :| ch in todo;
        ch.Offer(m);
        todo := todo - {ch};
      }
    }
  }

  // What one offer does to a channel.
  ghost predicate OfferedTo(ch: Channel, m: Message, buffer: seq<Message>, offered: seq<Message>, dropped: nat)
    reads ch
  {
    && ch.offered == offered + [m]
    && ch.buffer == (if |buffer| < 128 then buffer + [m] else buffer)
    && ch.dropped == (if |buffer| < 128 then dropped else dropped + 1)
  }

  lemma SuffixNext(all: seq<Message>, n: nat, m: Message)
    requires n <= |all|
    ensures (all + [m])[n..] == all[n..] + [m]
  {
  }
}
