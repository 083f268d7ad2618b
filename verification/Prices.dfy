// The price cache and the rolling price windows (services/risk-engine/app/store.py:85-119).
// A tick is upserted into the cache and then appended to its symbol's window; each of the two
// commits on its own, and the process may die between them.

module Prices {
  import opened Basics
  import opened Windows

  // The cache after each sample in turn.
  function Cached(cache: map<string, real>, samples: seq<Sample>): map<string, real> {
    if samples == [] then cache else Cached(cache, Front(samples))[Last(samples).key := Last(samples).value]
  }

  // `inHand` is upserted and not appended yet; a crash loses it.
  datatype State = State(cache: map<string, real>, rows: seq<Sample>, inHand: Option<Sample>)

  datatype Step = Upsert(sample: Sample) | Record | Crash

  const START := State(map[], [], None)

  function Do(s: State, step: Step, windowSize: int): State {
    match step
    case Upsert(x) =>
      if s.inHand.Some? then s else State(s.cache[x.key := x.value], s.rows, Some(x))
    case Record =>
      if s.inHand.None? then s else State(s.cache, Append(s.rows, s.inHand.value, windowSize), None)
    case Crash => s.(inHand := None)
  }

  function Run(s: State, steps: seq<Step>, windowSize: int): State {
    if steps == [] then s else Do(Run(s, Front(steps), windowSize), Last(steps), windowSize)
  }

  // Ticks that all go through.
  function StepsOf(samples: seq<Sample>): seq<Step> {
    if samples == [] then [] else StepsOf(Front(samples)) + [Upsert(Last(samples)), Record]
  }

  /** Ticks that go through are a run of upserts, each followed by its append. */
  lemma {:induction false} TicksAreSteps(s: State, samples: seq<Sample>, windowSize: int)
    requires s.inHand.None?
    ensures Run(s, StepsOf(samples), windowSize)
         == State(Cached(s.cache, samples), AppendAll(s.rows, samples, windowSize), None)
  {
    if samples != [] {
      hide Append;
      TicksAreSteps(s, Front(samples), windowSize);
      var before, x := StepsOf(Front(samples)), Last(samples);
      assert Front(before + [Upsert(x), Record]) == before + [Upsert(x)];
      assert Front(before + [Upsert(x)]) == before;
    }
  }

  // --- the cache against the window ---------------------------------------

  // The cached price is the newest in the window.
  predicate Newest(s: State, symbol: string) {
    var window := ValuesOf(s.rows, symbol);
    if symbol in s.cache then window != [] && s.cache[symbol] == Last(window) else window == []
  }

  predicate InHand(s: State, symbol: string) {
    s.inHand.Some? && s.inHand.value.key == symbol
  }

  // The price of the symbol's last upsert, and of its last append.
  function Upserted(steps: seq<Step>, windowSize: int, symbol: string): Option<real> {
    if steps == [] then None
    else
      var before, last := Run(START, Front(steps), windowSize), Last(steps);
      if last.Upsert? && before.inHand.None? && last.sample.key == symbol then Some(last.sample.value)
      else Upserted(Front(steps), windowSize, symbol)
  }

  function Recorded(steps: seq<Step>, windowSize: int, symbol: string): Option<real> {
    if steps == [] then None
    else
      var before := Run(START, Front(steps), windowSize);
      if Last(steps).Record? && InHand(before, symbol) then Some(before.inHand.value.value)
      else Recorded(Front(steps), windowSize, symbol)
  }

  // A crash struck between the symbol's last upsert and its append.
  predicate Struck(steps: seq<Step>, windowSize: int, symbol: string) {
    if steps == [] then false
    else
      var before, last := Run(START, Front(steps), windowSize), Last(steps);
      if last.Crash? && InHand(before, symbol) then true
      else if last.Upsert? && before.inHand.None? && last.sample.key == symbol then false
      else Struck(Front(steps), windowSize, symbol)
  }

  function Lookup(cache: map<string, real>, symbol: string): Option<real> {
    if symbol in cache then Some(cache[symbol]) else None
  }

  function Newer(window: seq<real>): Option<real> {
    if window == [] then None else Some(Last(window))
  }

  // What an append does to the end of a window.
  lemma AppendEnds(rows: seq<Sample>, x: Sample, windowSize: int, symbol: string)
    ensures Newer(ValuesOf(Append(rows, x, windowSize), symbol))
         == if x.key == symbol then Some(x.value) else Newer(ValuesOf(rows, symbol))
  {
    hide Evict;
    ValuesAppend(rows, x, symbol);
    if x.key == symbol {
      EvictKeepsNewest(rows + [x], symbol, Keep(windowSize));
    } else {
      EvictSparesOthers(rows + [x], x.key, Keep(windowSize), symbol);
    }
  }

  // What the last upsert, the last append and the last crash say about a state.
  predicate Traces(s: State, symbol: string, upserted: Option<real>, recorded: Option<real>, struck: bool) {
    && Lookup(s.cache, symbol) == upserted
    && Newer(ValuesOf(s.rows, symbol)) == recorded
    && (InHand(s, symbol) ==> !struck && upserted == Some(s.inHand.value.value))
    && (!struck && !InHand(s, symbol) ==> upserted == recorded)
  }

  lemma TraceStep(s: State, step: Step, windowSize: int, symbol: string,
                  upserted: Option<real>, recorded: Option<real>, struck: bool)
    requires Traces(s, symbol, upserted, recorded, struck)
    ensures var upserts := step.Upsert? && s.inHand.None? && step.sample.key == symbol;
            Traces(Do(s, step, windowSize), symbol,
                   if upserts then Some(step.sample.value) else upserted,
                   if step.Record? && InHand(s, symbol) then Some(s.inHand.value.value) else recorded,
                   if step.Crash? && InHand(s, symbol) then true else if upserts then false else struck)
  {
    hide Append, ValuesOf;
    if s.inHand.Some? {
      AppendEnds(s.rows, s.inHand.value, windowSize, symbol);
    }
  }

  lemma {:induction false} Traced(steps: seq<Step>, windowSize: int, symbol: string)
    ensures Traces(Run(START, steps, windowSize), symbol, Upserted(steps, windowSize, symbol),
                   Recorded(steps, windowSize, symbol), Struck(steps, windowSize, symbol))
  {
    if steps != [] {
      hide Traces, Do;
      Traced(Front(steps), windowSize, symbol);
      TraceStep(Run(START, Front(steps), windowSize), Last(steps), windowSize, symbol,
                Upserted(Front(steps), windowSize, symbol), Recorded(Front(steps), windowSize, symbol),
                Struck(Front(steps), windowSize, symbol));
    }
  }

  /** Over every run with crashes, a symbol's cached price is the newest in its window exactly
      when no crash struck between its last upsert and that upsert's append and the append is
      not still to come, or that upsert wrote the price the window already ended with. */
  lemma NewestIff(steps: seq<Step>, windowSize: int, symbol: string)
    ensures var s := Run(START, steps, windowSize);
            Newest(s, symbol)
            <==> (!Struck(steps, windowSize, symbol) && !InHand(s, symbol))
                 || Upserted(steps, windowSize, symbol) == Recorded(steps, windowSize, symbol)
  {
    Traced(steps, windowSize, symbol);
  }

  /** One tick and one crash: a cached price that no window has. */
  lemma CacheAheadOfWindow(symbol: string, price: real, windowSize: int) returns (steps: seq<Step>)
    ensures var s := Run(START, steps, windowSize);
            s == State(map[symbol := price], [], None) && !Newest(s, symbol)
  {
    var first := [Upsert(Sample(symbol, price))];
    steps := first + [Crash];
    assert Front(first) == [] && Front(steps) == first;
    assert Run(START, first, windowSize) == State(map[symbol := price], [], Some(Sample(symbol, price)));
  }
}
