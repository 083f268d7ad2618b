// When the risk engine publishes (services/risk-engine/app/consumer.py, worker.py): a ledger
// event is applied, then its metrics are built and saved as the account's snapshot, then
// they are published; the throttle builds and publishes without an event. The process may
// die between any two of these steps.

module RiskPublication {
  import opened Basics
  import opened Events
  import opened RiskStore

  // `cause` is the ledger event behind a computation, None for the throttle.
  datatype Risk = Risk(account: string, data: Metrics, cause: Option<string>)

  datatype Phase = Idle | Applied(event: Event) | Built(risk: Risk)

  datatype Build = Build(risk: Risk, published: bool)

  datatype State = State(
    log: seq<Event>,
    snapshots: map<string, Metrics>,
    stream: seq<Risk>,
    phase: Phase,         // lost in a crash
    builds: seq<Build>)   // history: every computation, and whether it was published

  datatype Action =
    | Deliver(event: Event)
    | BuildFor(data: Metrics)
    | Recompute(account: string, data: Metrics)
    | Publish
    | Crash

  function Saved(s: State, r: Risk): State {
    s.(snapshots := s.snapshots[r.account := r.data], phase := Built(r), builds := s.builds + [Build(r, false)])
  }

  function Do(s: State, a: Action): State {
    match a
    case Deliver(e) =>
      if !s.phase.Idle? || Has(s.log, e.eventId) then s
      else s.(log := s.log + [e], phase := Applied(e))
    case BuildFor(data) =>
      if !s.phase.Applied? then s
      else Saved(s, Risk(s.phase.event.account, data, Some(s.phase.event.eventId)))
    case Recompute(account, data) =>
      if !s.phase.Idle? then s else Saved(s, Risk(account, data, None))
    case Publish =>
      if !s.phase.Built? || s.builds == [] then s
      else s.(stream := s.stream + [s.phase.risk], phase := Idle,
              builds := Front(s.builds) + [Build(s.phase.risk, true)])
    case Crash => s.(phase := Idle)
  }

  function Run(s: State, actions: seq<Action>): State {
    if actions == [] then s else Do(Run(s, Front(actions)), Last(actions))
  }

  const START := State([], map[], [], Idle, [])

  // --- at most one publication per ledger event -------------------------

  ghost predicate CausesOk(s: State) {
    && (forall i, j :: 0 <= i < j < |s.stream| && s.stream[i].cause.Some? ==> s.stream[i].cause != s.stream[j].cause)
    && (forall i :: 0 <= i < |s.stream| && s.stream[i].cause.Some? ==> Has(s.log, s.stream[i].cause.value))
    && match s.phase
       case Idle => true
       case Applied(e) => Has(s.log, e.eventId) && Unpublished(s, e.eventId)
       case Built(r) => r.cause.Some? ==> Has(s.log, r.cause.value) && Unpublished(s, r.cause.value)
  }

  ghost predicate Unpublished(s: State, id: string) {
    forall i :: 0 <= i < |s.stream| ==> s.stream[i].cause != Some(id)
  }

  lemma CausesStep(s: State, a: Action)
    requires CausesOk(s)
    ensures CausesOk(Do(s, a))
  {
    if a.Deliver? && s.phase.Idle? && !Has(s.log, a.event.eventId) {
      forall id
        ensures Has(s.log + [a.event], id) <==> Has(s.log, id) || a.event.eventId == id
      {
        HasAppend(s.log, a.event, id);
      }
    }
  }

  /** Over every run with crashes, each ledger event yields at most one RiskComputed. */
  lemma {:induction false} OnePublicationPerEvent(actions: seq<Action>)
    ensures CausesOk(Run(START, actions))
  {
    if actions != [] {
      OnePublicationPerEvent(Front(actions));
      CausesStep(Run(START, Front(actions)), Last(actions));
    }
  }

  /** At most one, not exactly one: an event whose process died after applying it and before
      publishing never gets its RiskComputed, whatever happens later. */
  lemma {:induction false} CrashLosesPublication(s: State, id: string, actions: seq<Action>)
    requires Has(s.log, id) && Unpublished(s, id) && s.phase.Idle?
    ensures var s' := Run(s, actions);
            && Unpublished(s', id) && Has(s'.log, id)
            && (s'.phase.Applied? ==> s'.phase.event.eventId != id)
            && (s'.phase.Built? ==> s'.phase.risk.cause != Some(id))
  {
    if actions != [] {
      CrashLosesPublication(s, id, Front(actions));
      var s', a := Run(s, Front(actions)), Last(actions);
      if a.Deliver? {
        HasAppend(s'.log, a.event, id);
      }
    }
  }

  // An event applied by the process now alive, and not published yet.
  predicate InHand(s: State, id: string) {
    (s.phase.Applied? && s.phase.event.eventId == id) || (s.phase.Built? && s.phase.risk.cause == Some(id))
  }

  // A crash struck while the event was in hand.
  predicate Struck(actions: seq<Action>, id: string) {
    actions != []
    && (Struck(Front(actions), id) || (Last(actions) == Crash && InHand(Run(START, Front(actions)), id)))
  }

  lemma UnpublishedStep(s: State, a: Action, id: string, struck: bool)
    requires CausesOk(s)
    requires struck ==> Has(s.log, id) && !InHand(s, id)
    requires Has(s.log, id) ==> (Unpublished(s, id) <==> struck || InHand(s, id))
    ensures var s', struck' := Do(s, a), struck || (a == Crash && InHand(s, id));
            && (struck' ==> Has(s'.log, id) && !InHand(s', id))
            && (Has(s'.log, id) ==> (Unpublished(s', id) <==> struck' || InHand(s', id)))
  {
    hide Has;
    if a.Deliver? && s.phase.Idle? && !Has(s.log, a.event.eventId) {
      HasAppend(s.log, a.event, id);
    }
    if a.Publish? {
      var stream' := Do(s, a).stream;
      assert |stream'| > |s.stream| ==> stream'[|s.stream|] == s.phase.risk;
      assert forall i :: 0 <= i < |s.stream| ==> stream'[i] == s.stream[i];
    }
  }

  lemma {:induction false} StruckOrInHand(actions: seq<Action>, id: string)
    ensures var s := Run(START, actions);
            && (Struck(actions, id) ==> Has(s.log, id) && !InHand(s, id))
            && (Has(s.log, id) ==> (Unpublished(s, id) <==> Struck(actions, id) || InHand(s, id)))
  {
    if actions != [] {
      StruckOrInHand(Front(actions), id);
      OnePublicationPerEvent(Front(actions));
      UnpublishedStep(Run(START, Front(actions)), Last(actions), id, Struck(Front(actions), id));
    }
  }

  /** Exactly when an event is lost: in every run an applied event has no RiskComputed if and
      only if a crash struck while it was in hand, or it is in hand now. */
  lemma UnpublishedIff(actions: seq<Action>, id: string)
    requires Has(Run(START, actions).log, id)
    ensures Unpublished(Run(START, actions), id) <==> Struck(actions, id) || InHand(Run(START, actions), id)
  {
    StruckOrInHand(actions, id);
  }

  // --- snapshot against stream ------------------------------------------

  function LastBuild(builds: seq<Build>, account: string): Option<Build> {
    if builds == [] then None
    else if Last(builds).risk.account == account then Some(Last(builds))
    else LastBuild(Front(builds), account)
  }

  function LastOn(stream: seq<Risk>, account: string): Option<Risk> {
    if stream == [] then None
    else if Last(stream).account == account then Some(Last(stream))
    else LastOn(Front(stream), account)
  }

  function PublishedOf(builds: seq<Build>): seq<Risk> {
    if builds == [] then []
    else PublishedOf(Front(builds)) + (if Last(builds).published then [Last(builds).risk] else [])
  }

  lemma {:induction false} LastPublished(builds: seq<Build>, account: string)
    requires LastBuild(builds, account).Some? && LastBuild(builds, account).value.published
    ensures LastOn(PublishedOf(builds), account) == Some(LastBuild(builds, account).value.risk)
  {
    var front, last := Front(builds), Last(builds);
    if last.published {
      assert Front(PublishedOf(front) + [last.risk]) == PublishedOf(front);
    } else {
      assert PublishedOf(builds) == PublishedOf(front);
    }
    if last.risk.account != account {
      LastPublished(front, account);
    }
  }

  ghost predicate HistoryOk(s: State) {
    && s.stream == PublishedOf(s.builds)
    && (forall a :: a in s.snapshots <==> LastBuild(s.builds, a).Some?)
    && (forall a :: a in s.snapshots ==> s.snapshots[a] == LastBuild(s.builds, a).value.risk.data)
    && (s.phase.Built? ==> s.builds != [] && Last(s.builds) == Build(s.phase.risk, false))
  }

  lemma HistoryStep(s: State, a: Action)
    requires HistoryOk(s)
    ensures HistoryOk(Do(s, a))
  {
    var s' := Do(s, a);
    if |s'.builds| > |s.builds| {
      assert Front(s'.builds) == s.builds;
    } else if a.Publish? && s' != s {
      assert Front(s'.builds) == Front(s.builds);
    }
  }

  lemma {:induction false} HistoryHolds(actions: seq<Action>)
    ensures HistoryOk(Run(START, actions))
  {
    if actions != [] {
      HistoryHolds(Front(actions));
      HistoryStep(Run(START, Front(actions)), Last(actions));
    }
  }

  /** Whenever an account's most recent computation was published, by either path, its stored
      snapshot is the last RiskComputed on the stream for that account. */
  lemma SnapshotIsLastPublished(actions: seq<Action>, account: string)
    requires LastBuild(Run(START, actions).builds, account).Some?
    requires LastBuild(Run(START, actions).builds, account).value.published
    ensures var s := Run(START, actions);
            && account in s.snapshots
            && LastOn(s.stream, account).Some?
            && LastOn(s.stream, account).value.data == s.snapshots[account]
  {
    HistoryHolds(actions);
    LastPublished(Run(START, actions).builds, account);
  }

  // No two computations of the account gave the same data.
  ghost predicate DistinctData(builds: seq<Build>, account: string) {
    forall i, j :: 0 <= i < j < |builds| && builds[i].risk.account == account == builds[j].risk.account ==>
      builds[i].risk.data != builds[j].risk.data
  }

  lemma {:induction false} LastOnWasBuilt(builds: seq<Build>, account: string) returns (i: nat)
    requires LastOn(PublishedOf(builds), account).Some?
    ensures i < |builds| && builds[i].published
    ensures builds[i].risk.account == account && builds[i].risk == LastOn(PublishedOf(builds), account).value
  {
    var front, last := Front(builds), Last(builds);
    if last.published {
      assert Front(PublishedOf(front) + [last.risk]) == PublishedOf(front);
    } else {
      assert PublishedOf(builds) == PublishedOf(front);
    }
    if last.published && last.risk.account == account {
      i := |builds| - 1;
    } else {
      i := LastOnWasBuilt(front, account);
    }
  }

  lemma {:induction false} LastBuildAt(builds: seq<Build>, account: string) returns (i: nat)
    requires LastBuild(builds, account).Some?
    ensures i < |builds| && builds[i] == LastBuild(builds, account).value && builds[i].risk.account == account
  {
    if Last(builds).risk.account == account {
      i := |builds| - 1;
    } else {
      i := LastBuildAt(Front(builds), account);
    }
  }

  /** When no two computations of an account give the same data, its snapshot is the last
      RiskComputed on the stream exactly when its most recent computation was published. */
  lemma SnapshotCurrentIff(actions: seq<Action>, account: string)
    requires LastBuild(Run(START, actions).builds, account).Some?
    requires DistinctData(Run(START, actions).builds, account)
    ensures var s := Run(START, actions);
            && account in s.snapshots
            && (LastOn(s.stream, account).Some? && LastOn(s.stream, account).value.data == s.snapshots[account]
                <==> LastBuild(s.builds, account).value.published)
  {
    var s := Run(START, actions);
    HistoryHolds(actions);
    if LastBuild(s.builds, account).value.published {
      SnapshotIsLastPublished(actions, account);
    } else if LastOn(s.stream, account).Some? {
      var last := LastBuildAt(s.builds, account);
      var shown := LastOnWasBuilt(s.builds, account);
      assert shown != last;
    }
  }

  /** Without that the two can differ: dying between saving and publishing leaves the read API
      ahead of the stream (against the comment at store.py:283). */
  lemma SnapshotAheadOfStream(account: string, first: Metrics, second: Metrics) returns (actions: seq<Action>)
    requires first != second
    ensures var s := Run(START, actions);
            && s.phase.Idle? && s.snapshots == map[account := second]
            && LastOn(s.stream, account) == Some(Risk(account, first, None))
  {
    hide Run;
    var r1, r2 := Risk(account, first, None), Risk(account, second, None);
    var s1 := Saved(START, r1);
    var s2 := State([], map[account := first], [r1], Idle, [Build(r1, true)]);
    var s3 := Saved(s2, r2);
    assert Front([Build(r1, false)]) == [];
    assert s3.snapshots == map[account := second];
    assert Do(s1, Publish) == s2;
    actions := [Recompute(account, first), Publish, Recompute(account, second), Crash];
    RunFour(Recompute(account, first), Publish, Recompute(account, second), Crash);
    assert Do(s3, Crash).snapshots == s3.snapshots && Do(s3, Crash).stream == [r1];
  }

  lemma RunFour(a: Action, b: Action, c: Action, d: Action)
    ensures Run(START, [a, b, c, d]) == Do(Do(Do(Do(START, a), b), c), d)
  {
    hide Do;
    RunAppend([], a);
    RunAppend([a], b);
    RunAppend([a, b], c);
    RunAppend([a, b, c], d);
    assert [] + [a] == [a] && [a] + [b] == [a, b] && [a, b] + [c] == [a, b, c] && [a, b, c] + [d] == [a, b, c, d];
  }

  lemma RunAppend(actions: seq<Action>, a: Action)
    ensures Run(START, actions + [a]) == Do(Run(START, actions), a)
  {
    assert Front(actions + [a]) == actions;
  }
}

module Throttle {
  import opened Basics

  // Seconds; the interval is in milliseconds.
  predicate Fires(last: Option<real>, now: real, intervalMs: int) {
    last.None? || (now - last.value) * 1000.0 >= intervalMs as real
  }

  // The times at which a series of calls fired, within one process lifetime.
  function Firings(times: seq<real>, intervalMs: int): seq<real> {
    if times == [] then []
    else
      var fired := Firings(Front(times), intervalMs);
      if Fires(LastFiring(fired), Last(times), intervalMs) then fired + [Last(times)] else fired
  }

  function LastFiring(fired: seq<real>): Option<real> {
    if fired == [] then None else Some(Last(fired))
  }

  /** Whatever the call times, consecutive firings are at least the interval apart, and k
      firings span at least k - 1 intervals. */
  lemma {:induction false} FiringsAreSpaced(times: seq<real>, intervalMs: int)
    requires intervalMs > 0
    ensures var f := Firings(times, intervalMs);
            && (forall i :: 0 <= i < |f| - 1 ==> (f[i + 1] - f[i]) * 1000.0 >= intervalMs as real)
            && (f != [] ==> (Last(f) - f[0]) * 1000.0 >= ((|f| - 1) * intervalMs) as real)
  {
    if times != [] {
      FiringsAreSpaced(Front(times), intervalMs);
      var before, f := Firings(Front(times), intervalMs), Firings(times, intervalMs);
      if f != before && before != [] {
        assert ((|before| - 1) * intervalMs + intervalMs) == (|f| - 1) * intervalMs;
      }
    }
  }

  lemma {:induction false} QuietSinceFiring(times: seq<real>, intervalMs: int)
    requires intervalMs > 0 && times != []
    ensures var f := Firings(times, intervalMs);
            f != [] && f[0] == times[0] && (Last(times) - Last(f)) * 1000.0 < intervalMs as real
  {
    if |times| > 1 {
      QuietSinceFiring(Front(times), intervalMs);
    } else {
      assert Front(times) == [];
    }
  }

  /** The throttle keeps up: when calls are at most d seconds apart, the first call fires,
      consecutive firings are less than the interval plus d apart, and less than an interval
      has passed since the last one. */
  lemma {:induction false} FiringsKeepUp(times: seq<real>, intervalMs: int, d: real)
    requires intervalMs > 0 && times != []
    requires forall i :: 0 <= i < |times| - 1 ==> times[i + 1] - times[i] <= d
    ensures var f := Firings(times, intervalMs);
            && f != [] && f[0] == times[0]
            && (forall i :: 0 <= i < |f| - 1 ==> (f[i + 1] - f[i]) * 1000.0 < intervalMs as real + d * 1000.0)
            && (Last(times) - Last(f)) * 1000.0 < intervalMs as real
  {
    QuietSinceFiring(times, intervalMs);
    if |times| > 1 {
      var front := Front(times);
      assert forall i :: 0 <= i < |front| - 1 ==> front[i + 1] - front[i] == times[i + 1] - times[i];
      FiringsKeepUp(front, intervalMs, d);
      assert Last(times) - Last(front) <= d;
    }
  }

  lemma FiringsNext(times: seq<real>, now: real, intervalMs: int)
    ensures var fired := Firings(times, intervalMs);
            Firings(times + [now], intervalMs)
            == if Fires(LastFiring(fired), now, intervalMs) then fired + [now] else fired
  {
    assert Front(times + [now]) == times;
  }
}
