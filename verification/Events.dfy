// Ledger events as they travel from the outbox to a projection, and the two
// projections that the repository builds from them:
//   * in place: the tables of poc/native-kill-restart/store.py;
//   * derived:  the SQL of services/risk-engine/app/store.py over its event log.
// Money and quantities are exact (`real`); ids are strings.

module Basics {

  datatype Option<+T> = None | Some(value: T)

  datatype Result<+T, +E> = Ok(value: T) | Err(error: E)

  function Min(a: int, b: int): int {
    if a <= b then a else b
  }

  function Max(a: int, b: int): int {
    if a >= b then a else b
  }

  function Last<T>(xs: seq<T>): T
    requires xs != []
  {
    xs[|xs| - 1]
  }

  function Front<T>(xs: seq<T>): seq<T>
    requires xs != []
  {
    xs[..|xs| - 1]
  }

  /** The consecutive numbers lo, lo+1, .., hi-1. */
  function Range(lo: nat, hi: nat): (r: seq<nat>)
    requires lo <= hi
    ensures |r| == hi - lo
    ensures forall i :: 0 <= i < |r| ==> r[i] == lo + i
  {
    seq(hi - lo, i requires 0 <= i => lo + i)
  }
}

module Events {
  import opened Basics

  // One LedgerUpdated envelope: its id and the part of `data` the projections use.
  datatype Event = Event(
    eventId: string,
    account: string,
    symbol: string,
    price: Option<real>,
    cashDelta: real,
    positionAfter: real)

  // A stream entry is a well-formed envelope or something that does not parse.
  datatype Entry = Malformed | Wire(event: Event)

  // --- the deduplicated event log (applied_events) ---------------------

  predicate Has(log: seq<Event>, id: string) {
    exists i :: 0 <= i < |log| && log[i].eventId == id
  }

  predicate DistinctIds(log: seq<Event>) {
    forall i, j :: 0 <= i < j < |log| ==> log[i].eventId != log[j].eventId
  }

  // INSERT OR IGNORE keyed by event_id.
  function Insert(log: seq<Event>, e: Event): seq<Event> {
    if Has(log, e.eventId) then log else log + [e]
  }

  function InsertAll(log: seq<Event>, es: seq<Event>): seq<Event> {
    if es == [] then log else Insert(InsertAll(log, Front(es)), Last(es))
  }

  // Reference definition: keep an event when no earlier one carries its id.
  function FirstOccurrences(es: seq<Event>): seq<Event> {
    if es == [] then []
    else if Has(Front(es), Last(es).eventId) then FirstOccurrences(Front(es))
    else FirstOccurrences(Front(es)) + [Last(es)]
  }

  // Drop an event that repeats the one just before it.
  function Collapse(es: seq<Event>): seq<Event> {
    if es == [] then []
    else if |es| > 1 && es[|es| - 1] == es[|es| - 2] then Collapse(Front(es))
    else Collapse(Front(es)) + [Last(es)]
  }

  lemma HasAppend(log: seq<Event>, e: Event, id: string)
    ensures Has(log + [e], id) <==> Has(log, id) || e.eventId == id
  {
    var l := log + [e];
    if Has(log, id) {
      var i :| 0 <= i < |log| && log[i].eventId == id;
      assert l[i].eventId == id;
    }
    assert l[|log|] == e;
  }

  lemma {:induction false} FirstOccurrencesFacts(es: seq<Event>)
    ensures DistinctIds(FirstOccurrences(es))
    ensures forall id :: Has(FirstOccurrences(es), id) <==> Has(es, id)
    ensures forall e :: e in FirstOccurrences(es) ==> e in es
  {
    if es != [] {
      FirstOccurrencesFacts(Front(es));
      assert es == Front(es) + [Last(es)];
      forall id
        ensures Has(FirstOccurrences(es), id) <==> Has(es, id)
      {
        HasAppend(Front(es), Last(es), id);
        HasAppend(FirstOccurrences(Front(es)), Last(es), id);
      }
    }
  }

  /** An event is kept exactly when it occurs at some place before which its id does not. */
  lemma {:induction false} FirstIsKept(es: seq<Event>, e: Event)
    ensures e in FirstOccurrences(es) <==> exists i :: 0 <= i < |es| && IsFirst(es, i) && es[i] == e
  {
    if es != [] {
      var front := Front(es);
      FirstIsKept(front, e);
      assert es == front + [Last(es)];
      forall i | 0 <= i < |es|
        ensures es[..i] == if i < |front| then front[..i] else front
      {
      }
      assert forall i :: 0 <= i < |front| ==> (IsFirst(es, i) <==> IsFirst(front, i));
      assert IsFirst(es, |front|) <==> !Has(front, Last(es).eventId);
    }
  }

  // No earlier event has this one's id.
  predicate IsFirst(es: seq<Event>, i: nat)
    requires i < |es|
  {
    !Has(es[..i], es[i].eventId)
  }

  /** Replaying deliveries through INSERT OR IGNORE keeps exactly the first occurrences. */
  lemma {:induction false} InsertAllIsFirstOccurrences(es: seq<Event>)
    ensures InsertAll([], es) == FirstOccurrences(es)
  {
    if es != [] {
      InsertAllIsFirstOccurrences(Front(es));
      FirstOccurrencesFacts(Front(es));
    }
  }

  lemma {:induction false} FirstOccurrencesOfDistinct(es: seq<Event>)
    requires DistinctIds(es)
    ensures FirstOccurrences(es) == es
  {
    if es != [] {
      FirstOccurrencesOfDistinct(Front(es));
      assert es == Front(es) + [Last(es)];
    }
  }

  lemma HasPrefixIff(events: seq<Event>, n: nat, y: nat)
    requires DistinctIds(events) && n <= |events| && y < |events|
    ensures Has(events[..n], events[y].eventId) <==> y < n
  {
    if y < n {
      assert events[..n][y] == events[y];
    }
  }

  lemma {:induction false} FirstOccurrencesGrow(es: seq<Event>, n: nat)
    requires n <= |es|
    ensures FirstOccurrences(es[..n]) <= FirstOccurrences(es)
  {
    if n < |es| {
      assert Front(es)[..n] == es[..n];
      FirstOccurrencesGrow(Front(es), n);
    } else {
      assert es[..n] == es;
    }
  }

  lemma {:induction false} CollapseFacts(es: seq<Event>)
    ensures es != [] ==> Collapse(es) != [] && Last(Collapse(es)) == Last(es)
    ensures forall e :: e in Collapse(es) <==> e in es
  {
    if es != [] {
      CollapseFacts(Front(es));
      assert es == Front(es) + [Last(es)];
    }
  }

  /** On a stream whose repeats are adjacent, first occurrences are what collapsing leaves. */
  lemma {:induction false} CollapseIsFirstOccurrences(es: seq<Event>)
    requires DistinctIds(Collapse(es))
    ensures FirstOccurrences(es) == Collapse(es)
  {
    if es != [] {
      var front, last := Front(es), Last(es);
      CollapseFacts(front);
      if |es| > 1 && es[|es| - 1] == es[|es| - 2] {
        CollapseIsFirstOccurrences(front);
        assert front[|front| - 1].eventId == last.eventId;
      } else {
        var c := Collapse(es);
        assert Collapse(front) == Front(c);
        CollapseIsFirstOccurrences(front);
        forall i | 0 <= i < |front|
          ensures front[i].eventId != last.eventId
        {
          assert front[i] in Collapse(front);
          var j :| 0 <= j < |Collapse(front)| && Collapse(front)[j] == front[i];
          assert c[j].eventId != c[|c| - 1].eventId;
        }
      }
    }
  }

  // --- cash and positions derived from a log ---------------------------

  // SELECT COALESCE(SUM(cash_delta), 0) .. WHERE account_id = ?
  function CashSum(log: seq<Event>, account: string): real {
    if log == [] then 0.0
    else CashSum(Front(log), account)
         + (if Last(log).account == account then Last(log).cashDelta else 0.0)
  }

  // The row with the largest rowid for an account and symbol.
  function LastFor(log: seq<Event>, account: string, symbol: string): Option<Event> {
    if log == [] then None
    else if Last(log).account == account && Last(log).symbol == symbol then Some(Last(log))
    else LastFor(Front(log), account, symbol)
  }

  lemma {:induction false} CashSumConcat(a: seq<Event>, b: seq<Event>, account: string)
    ensures CashSum(a + b, account) == CashSum(a, account) + CashSum(b, account)
  {
    if b == [] {
      assert a + b == a;
    } else {
      assert Front(a + b) == a + Front(b);
      CashSumConcat(a, Front(b), account);
    }
  }

  lemma CashSumRemove(b: seq<Event>, k: nat, account: string)
    requires k < |b|
    ensures CashSum(b, account)
         == CashSum(b[..k] + b[k + 1..], account) + (if b[k].account == account then b[k].cashDelta else 0.0)
  {
    var rest := b[k + 1..];
    assert b == (b[..k] + [b[k]]) + rest;
    CashSumConcat(b[..k] + [b[k]], rest, account);
    CashSumConcat(b[..k], rest, account);
    assert Front(b[..k] + [b[k]]) == b[..k];
  }

  lemma FrontMembership(a: seq<Event>, x: Event)
    requires a != [] && DistinctIds(a)
    ensures x in Front(a) <==> x in a && x != Last(a)
  {
    assert a == Front(a) + [Last(a)];
    if x in Front(a) {
      var i :| 0 <= i < |Front(a)| && Front(a)[i] == x;
      assert a[i].eventId != a[|a| - 1].eventId;
    }
  }

  lemma RemoveDistinct(b: seq<Event>, k: nat)
    requires k < |b| && DistinctIds(b)
    ensures DistinctIds(b[..k] + b[k + 1..])
  {
    var b' := b[..k] + b[k + 1..];
    forall i, j | 0 <= i < j < |b'|
      ensures b'[i].eventId != b'[j].eventId
    {
      assert b'[i] == b[if i < k then i else i + 1] && b'[j] == b[if j < k then j else j + 1];
    }
  }

  lemma SomeMember(b: seq<Event>)
    ensures b != [] ==> exists e :: e in b
  {
    if b != [] {
      assert b[0] in b;
    }
  }

  /** Cash does not depend on the order of application: equal contents, equal sums. */
  lemma {:induction false} CashSumIsOrderFree(a: seq<Event>, b: seq<Event>, account: string)
    requires DistinctIds(a) && DistinctIds(b)
    requires forall e :: e in a <==> e in b
    ensures CashSum(a, account) == CashSum(b, account) && |a| == |b|
  {
    if a == [] {
      SomeMember(b);
    } else {
      assert Last(a) in b;
      var k :| 0 <= k < |b| && b[k] == Last(a);
      var b' := b[..k] + b[k + 1..];
      forall x
        ensures x in Front(a) <==> x in b'
      {
        SplitMembership(b, k, x);
        FrontMembership(a, x);
      }
      RemoveDistinct(b, k);
      CashSumIsOrderFree(Front(a), b', account);
      CashSumRemove(b, k, account);
    }
  }

  lemma SplitMembership(b: seq<Event>, k: nat, x: Event)
    requires k < |b| && DistinctIds(b)
    ensures x in b[..k] + b[k + 1..] <==> x in b && x != b[k]
  {
    var b' := b[..k] + b[k + 1..];
    if x in b && x != b[k] {
      var i :| 0 <= i < |b| && b[i] == x;
      assert b'[if i < k then i else i - 1] == x;
    }
    if x in b' {
      var i :| 0 <= i < |b'| && b'[i] == x;
      assert b'[i] == b[if i < k then i else i + 1];
    }
  }

  // --- the in-place tables ---------------------------------------------

  datatype Tables = Tables(
    processed: seq<string>,
    cash: map<string, real>,
    positions: map<(string, string), real>)

  // Duplicate ids change nothing; cash is only ever added to an existing row.
  function Apply(t: Tables, e: Event): Tables {
    if e.eventId in t.processed then t
    else Tables(
      t.processed + [e.eventId],
      if e.account in t.cash then t.cash[e.account := t.cash[e.account] + e.cashDelta] else t.cash,
      t.positions[(e.account, e.symbol) := e.positionAfter])
  }

  function ApplyAll(t: Tables, es: seq<Event>): Tables {
    if es == [] then t else Apply(ApplyAll(t, Front(es)), Last(es))
  }

  function Seeded(cash: map<string, real>): Tables {
    Tables([], cash, map[])
  }

  ghost predicate Projects(t: Tables, seedCash: map<string, real>, log: seq<Event>) {
    && |t.processed| == |log|
    && (forall i :: 0 <= i < |log| ==> t.processed[i] == log[i].eventId)
    && t.cash.Keys == seedCash.Keys
    && (forall a :: a in seedCash ==> t.cash[a] == seedCash[a] + CashSum(log, a))
    && (forall a, s :: (a, s) in t.positions <==> LastFor(log, a, s).Some?)
    && (forall a, s :: (a, s) in t.positions ==> t.positions[(a, s)] == LastFor(log, a, s).value.positionAfter)
  }

  lemma ApplyProjects(t: Tables, seedCash: map<string, real>, log: seq<Event>, e: Event)
    requires Projects(t, seedCash, log)
    ensures Projects(Apply(t, e), seedCash, Insert(log, e))
    ensures e.eventId in t.processed <==> Has(log, e.eventId)
  {
    if Has(log, e.eventId) {
      var i :| 0 <= i < |log| && log[i].eventId == e.eventId;
      assert t.processed[i] == e.eventId;
    } else {
      var log' := log + [e];
      assert Front(log') == log && Last(log') == e;
    }
  }

  /** The derived projection refines the in-place one, for every delivery sequence with duplicates. */
  lemma {:induction false} DerivedRefinesInPlace(seedCash: map<string, real>, es: seq<Event>)
    ensures Projects(ApplyAll(Seeded(seedCash), es), seedCash, FirstOccurrences(es))
  {
    if es != [] {
      DerivedRefinesInPlace(seedCash, Front(es));
      ApplyProjects(ApplyAll(Seeded(seedCash), Front(es)), seedCash, FirstOccurrences(Front(es)), Last(es));
      FirstOccurrencesFacts(Front(es));
    }
  }

  lemma ProjectsUnique(t: Tables, u: Tables, seedCash: map<string, real>, log: seq<Event>)
    requires Projects(t, seedCash, log) && Projects(u, seedCash, log)
    ensures t == u
  {
    assert t.processed == u.processed;
    forall a | a in t.cash
      ensures a in u.cash && t.cash[a] == u.cash[a]
    {
      assert a in seedCash;
    }
    assert t.cash == u.cash;
    forall k: (string, string)
      ensures k in t.positions <==> k in u.positions
      ensures k in t.positions ==> t.positions[k] == u.positions[k]
    {
      assert k == (k.0, k.1);
    }
  }

  /** Two delivery sequences with the same first occurrences leave the same tables. */
  lemma OnlyFirstOccurrencesMatter(seedCash: map<string, real>, a: seq<Event>, b: seq<Event>)
    requires FirstOccurrences(a) == FirstOccurrences(b)
    ensures ApplyAll(Seeded(seedCash), a) == ApplyAll(Seeded(seedCash), b)
  {
    DerivedRefinesInPlace(seedCash, a);
    DerivedRefinesInPlace(seedCash, b);
    ProjectsUnique(ApplyAll(Seeded(seedCash), a), ApplyAll(Seeded(seedCash), b), seedCash, FirstOccurrences(a));
  }

  // --- self-consistent events ------------------------------------------

  function PositionIn(log: seq<Event>, account: string, symbol: string): real {
    match LastFor(log, account, symbol)
    case None => 0.0
    case Some(e) => e.positionAfter
  }

  // Each event carries a price, its position follows on from the one before it, and
  // its cash movement pays for the change of position at that price.
  predicate Consistent(log: seq<Event>) {
    forall i :: 0 <= i < |log| ==> ConsistentNext(log[..i], log[i])
  }

  predicate ConsistentNext(log: seq<Event>, e: Event) {
    e.price.Some?
    && e.cashDelta == -((e.positionAfter - PositionIn(log, e.account, e.symbol)) * e.price.value)
  }

  lemma ConsistentAppend(log: seq<Event>, e: Event)
    requires Consistent(log) && ConsistentNext(log, e)
    ensures Consistent(log + [e])
  {
    var log' := log + [e];
    forall i | 0 <= i < |log'|
      ensures ConsistentNext(log'[..i], log'[i])
    {
      assert log'[..i] == log[..i];
      assert log[..|log|] == log;
    }
  }
}
