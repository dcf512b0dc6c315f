/** The windowed aggregation of the Matter broker (VirtualMatterBrokerNode.ts): samples add to one running sum per
    endpoint and interval, and firing an interval publishes the average of its sums and starts it afresh.

    Times are in milliseconds. Firing is one step: no sample arrives between its snapshot and its reset. */
module AggregationLedger {

  const AGGREGATE_INTERVALS: seq<nat> := [10, 60]

  /** The attributes that are aggregated, all under the name MeasuredValue. */
  datatype Source = AggregatedStats | TemperatureMeasurement

  type Sums = map<nat, real>

  datatype Row = Row(source: Source, endpoint: nat, sums: Sums)

  datatype Publication = Publication(interval: nat, average: real, endpoints: nat)

  /** `rows` is the tracked data in insertion order, `fired` the start of each interval's window. */
  datatype State = State(rows: seq<Row>, fired: map<nat, int>, published: seq<Publication>)

  predicate Started(s: State) {
    forall interval | interval in AGGREGATE_INTERVALS :: interval in s.fired
  }

  function Get(sums: Sums, interval: nat): real {
    if interval in sums then sums[interval] else 0.0
  }

  /** What a sample adds: its value times the seconds since the window started. */
  function Area(value: real, timestamp: int, start: int): real {
    value * ((timestamp - start) as real / 1000.0)
  }

  function Accumulate(sums: Sums, intervals: seq<nat>, value: real, timestamp: int, fired: map<nat, int>): Sums
    requires forall interval | interval in intervals :: interval in fired
    decreases intervals
  {
    if intervals == [] then sums
    else
      var interval := intervals[0];
      Accumulate(sums[interval := Get(sums, interval) + Area(value, timestamp, fired[interval])],
                 intervals[1..], value, timestamp, fired)
  }

  /** The position of the row of an endpoint, or the number of rows. */
  function Find(rows: seq<Row>, source: Source, endpoint: nat): (i: nat)
    ensures i <= |rows|
    ensures i < |rows| ==> rows[i].source == source && rows[i].endpoint == endpoint
  {
    if rows == [] || (rows[0].source == source && rows[0].endpoint == endpoint) then 0
    else 1 + Find(rows[1..], source, endpoint)
  }

  datatype Event =
    | Sample(source: Source, endpoint: nat, value: real, timestamp: int)
    | Fire(interval: nat, now: int)

  function AddSample(s: State, source: Source, endpoint: nat, value: real, timestamp: int): State
    requires Started(s)
  {
    var i := Find(s.rows, source, endpoint);
    if i < |s.rows| then
      var sums := Accumulate(s.rows[i].sums, AGGREGATE_INTERVALS, value, timestamp, s.fired);
      s.(rows := s.rows[i := s.rows[i].(sums := sums)])
    else
      var sums := Accumulate(map[], AGGREGATE_INTERVALS, value, timestamp, s.fired);
      s.(rows := s.rows + [Row(source, endpoint, sums)])
  }

  function Total(rows: seq<Row>, interval: nat): real {
    if rows == [] then 0.0 else Total(rows[..|rows| - 1], interval) + Get(rows[|rows| - 1].sums, interval)
  }

  /** One stand-in with the sum 0 when nothing has been sampled. */
  function Endpoints(rows: seq<Row>): nat {
    if rows == [] then 1 else |rows|
  }

  function Average(rows: seq<Row>, interval: nat): real
    requires interval > 0
  {
    Total(rows, interval) / Endpoints(rows) as real / interval as real
  }

  function Reset(rows: seq<Row>, interval: nat): (r: seq<Row>)
    ensures |r| == |rows|
  {
    if rows == [] then []
    else
      var last := rows[|rows| - 1];
      Reset(rows[..|rows| - 1], interval) + [last.(sums := last.sums[interval := 0.0])]
  }

  function FireInterval(s: State, interval: nat, now: int): State
    requires interval > 0
  {
    State(Reset(s.rows, interval), s.fired[interval := now],
          s.published + [Publication(interval, Average(s.rows, interval), Endpoints(s.rows))])
  }

  predicate WellFormed(e: Event) {
    e.Fire? ==> e.interval in AGGREGATE_INTERVALS
  }

  function Step(s: State, e: Event): (t: State)
    requires Started(s) && WellFormed(e)
    ensures Started(t)
  {
    match e
    case Sample(source, endpoint, value, timestamp) => AddSample(s, source, endpoint, value, timestamp)
    case Fire(interval, now) => FireInterval(s, interval, now)
  }

  predicate AllWellFormed(events: seq<Event>) {
    forall e | e in events :: WellFormed(e)
  }

  function Run(s: State, events: seq<Event>): (t: State)
    requires Started(s) && AllWellFormed(events)
    ensures Started(t)
    decreases events
  {
    if events == [] then s else Run(Step(s, events[0]), events[1..])
  }

  // ---- The broker ----

  class VirtualMatterBroker {
    var aggregatorData: seq<Row>
    var lastIntervalFired: map<nat, int>
    var published: seq<Publication>

    function View(): State
      reads this
    {
      State(aggregatorData, lastIntervalFired, published)
    }

    constructor (now: int)
      ensures View() == State([], map interval | interval in AGGREGATE_INTERVALS :: now, [])
    {
      aggregatorData, published := [], [];
      lastIntervalFired := map interval | interval in AGGREGATE_INTERVALS :: now;
    }

    /** The listener of attribute changes, for an attribute that is aggregated. */
    method AttributeChanged(source: Source, endpoint: nat, value: real, timestamp: int)
      requires Started(View())
      modifies this`aggregatorData
      ensures View() == AddSample(old(View()), source, endpoint, value, timestamp)
    {
      var row := Find(aggregatorData, source, endpoint);
      var sums: Sums := if row < |aggregatorData| then aggregatorData[row].sums else map[];
      ghost var before := sums;
      for k := 0 to |AGGREGATE_INTERVALS|
        invariant Accumulate(sums, AGGREGATE_INTERVALS[k..], value, timestamp, lastIntervalFired)
               == Accumulate(before, AGGREGATE_INTERVALS, value, timestamp, lastIntervalFired)
      {
        var length := AGGREGATE_INTERVALS[k];
        assert AGGREGATE_INTERVALS[k..][0] == length && AGGREGATE_INTERVALS[k..][1..] == AGGREGATE_INTERVALS[k + 1..];
        var previousArea := if length in sums then sums[length] else 0.0;
        var area := value * ((timestamp - lastIntervalFired[length]) as real / 1000.0);
        sums := sums[length := previousArea + area];
      }
      if row < |aggregatorData| {
        aggregatorData := aggregatorData[row := aggregatorData[row].(sums := sums)];
      } else {
        aggregatorData := aggregatorData + [Row(source, endpoint, sums)];
      }
    }

    method RecalculateAggregatesFor(interval: nat, now: int)
      requires interval in AGGREGATE_INTERVALS
      modifies this
      ensures View() == FireInterval(old(View()), interval, now)
    {
      var sumOfSums := 0.0;
      for k := 0 to |aggregatorData|
        invariant sumOfSums == Total(aggregatorData[..k], interval)
      {
        assert aggregatorData[..k + 1][..k] == aggregatorData[..k];
        sumOfSums := sumOfSums + if interval in aggregatorData[k].sums then aggregatorData[k].sums[interval] else 0.0;
      }
      assert aggregatorData[..|aggregatorData|] == aggregatorData;
      var count := if aggregatorData == [] then 1 else |aggregatorData|;
      published := published + [Publication(interval, sumOfSums / count as real / interval as real, count)];
      lastIntervalFired := lastIntervalFired[interval := now];
      CleanUp(interval);
    }

    /** The loop that sets the sums of an interval to 0. */
    method CleanUp(interval: nat)
      modifies this`aggregatorData
      ensures aggregatorData == Reset(old(aggregatorData), interval)
    {
      ghost var before := aggregatorData;
      for k := 0 to |aggregatorData|
        invariant |aggregatorData| == |before| && aggregatorData[k..] == before[k..]
        invariant aggregatorData[..k] == Reset(before[..k], interval)
      {
        assert before[..k + 1][..k] == before[..k];
        assert aggregatorData[k] == aggregatorData[k..][0] == before[k..][0];
        aggregatorData := aggregatorData[k := aggregatorData[k].(sums := aggregatorData[k].sums[interval := 0.0])];
        assert aggregatorData[..k + 1] == aggregatorData[..k] + [aggregatorData[k]];
      }
      assert before[..|before|] == before && aggregatorData[..|before|] == aggregatorData;
    }
  }

  // ---- The ledger ----

  lemma AccumulatedSum(sums: Sums, value: real, timestamp: int, fired: map<nat, int>, interval: nat)
    requires 10 in fired && 60 in fired && interval in AGGREGATE_INTERVALS
    ensures Get(Accumulate(sums, AGGREGATE_INTERVALS, value, timestamp, fired), interval)
         == Get(sums, interval) + Area(value, timestamp, fired[interval])
  {
    var first := sums[10 := Get(sums, 10) + Area(value, timestamp, fired[10])];
    assert AGGREGATE_INTERVALS[1..] == [60] && [60][1..] == [];
    assert Accumulate(first, [60], value, timestamp, fired)
        == first[60 := Get(first, 60) + Area(value, timestamp, fired[60])];
  }

  lemma {:induction false} TotalUpdate(rows: seq<Row>, i: nat, row: Row, interval: nat)
    requires i < |rows|
    ensures Total(rows[i := row], interval) == Total(rows, interval) - Get(rows[i].sums, interval) + Get(row.sums, interval)
  {
    var init, updated := rows[..|rows| - 1], rows[i := row];
    if i < |init| {
      TotalUpdate(init, i, row, interval);
      assert updated[..|updated| - 1] == init[i := row];
    } else {
      assert updated[..|updated| - 1] == init;
    }
  }

  lemma {:induction false} TotalAfterReset(rows: seq<Row>, interval: nat, other: nat)
    ensures Total(Reset(rows, interval), other) == if other == interval then 0.0 else Total(rows, other)
  {
    if rows != [] {
      TotalAfterReset(rows[..|rows| - 1], interval, other);
      assert Reset(rows, interval)[..|rows| - 1] == Reset(rows[..|rows| - 1], interval);
    }
  }

  lemma SampleAddsItsArea(s: State, source: Source, endpoint: nat, value: real, timestamp: int, interval: nat)
    requires Started(s) && interval in AGGREGATE_INTERVALS
    ensures Total(AddSample(s, source, endpoint, value, timestamp).rows, interval)
         == Total(s.rows, interval) + Area(value, timestamp, s.fired[interval])
  {
    var i := Find(s.rows, source, endpoint);
    var t := AddSample(s, source, endpoint, value, timestamp);
    assert 10 in AGGREGATE_INTERVALS && 60 in AGGREGATE_INTERVALS;
    if i < |s.rows| {
      AccumulatedSum(s.rows[i].sums, value, timestamp, s.fired, interval);
      TotalUpdate(s.rows, i, t.rows[i], interval);
    } else {
      AccumulatedSum(map[], value, timestamp, s.fired, interval);
      assert t.rows[..|s.rows|] == s.rows;
    }
  }

  /** Firing one interval leaves the sums of the other alone. */
  lemma FiringKeepsOtherSums(s: State, interval: nat, now: int, i: nat, other: nat)
    requires interval > 0 && i < |s.rows| && other != interval
    ensures
      var t := FireInterval(s, interval, now);
      && t.rows[i].source == s.rows[i].source && t.rows[i].endpoint == s.rows[i].endpoint
      && Get(t.rows[i].sums, other) == Get(s.rows[i].sums, other)
      && (other in s.fired ==> t.fired[other] == s.fired[other])
  {
    ResetAt(s.rows, interval, i);
  }

  lemma {:induction false} ResetAt(rows: seq<Row>, interval: nat, i: nat)
    requires i < |rows|
    ensures Reset(rows, interval)[i] == rows[i].(sums := rows[i].sums[interval := 0.0])
  {
    if i < |rows| - 1 {
      ResetAt(rows[..|rows| - 1], interval, i);
    }
  }

  /** What all samples of a run added to an interval. */
  function Received(s: State, events: seq<Event>, interval: nat): real
    requires Started(s) && AllWellFormed(events) && interval in AGGREGATE_INTERVALS
    decreases events
  {
    if events == [] then 0.0
    else
      (if events[0].Sample? then Area(events[0].value, events[0].timestamp, s.fired[interval]) else 0.0)
      + Received(Step(s, events[0]), events[1..], interval)
  }

  /** What an interval paid out: each published average times the endpoints and the seconds it stands for. */
  function PaidOut(published: seq<Publication>, interval: nat): real {
    if published == [] then 0.0
    else
      var p := published[|published| - 1];
      PaidOut(published[..|published| - 1], interval) + if p.interval == interval then Worth(p) else 0.0
  }

  function Worth(p: Publication): real {
    p.average * p.endpoints as real * p.interval as real
  }

  lemma DivideAndMultiply(x: real, a: real, b: real)
    requires a != 0.0 && b != 0.0
    ensures x / a / b * a * b == x
  {
    var y := x / a;
    var z := y / b;
    assert z * b == y && y * a == x;
    assert z * a * b == z * b * a;
  }

  lemma PaidOutStep(published: seq<Publication>, p: Publication, interval: nat)
    ensures PaidOut(published + [p], interval)
         == PaidOut(published, interval) + if p.interval == interval then Worth(p) else 0.0
  {
    assert (published + [p])[..|published|] == published;
  }

  function Paid(rows: seq<Row>, fired: nat): Publication
    requires fired > 0
  {
    Publication(fired, Average(rows, fired), Endpoints(rows))
  }

  lemma PaidIsWorthTheTotal(rows: seq<Row>, fired: nat)
    requires fired > 0
    ensures Worth(Paid(rows, fired)) == Total(rows, fired)
  {
    DivideAndMultiply(Total(rows, fired), Endpoints(rows) as real, fired as real);
  }

  lemma TotalMoves(worth: real, before: real, after: real, same: bool, paid: real)
    requires after == if same then 0.0 else before
    requires same ==> worth == before
    ensures paid + (if same then worth else 0.0) + after == paid + before
  {
  }

  /** Firing moves the total of its interval to what was paid out. */
  lemma FiringBalances(s: State, fired: nat, now: int, interval: nat)
    requires fired > 0
    ensures
      var t := FireInterval(s, fired, now);
      PaidOut(t.published, interval) + Total(t.rows, interval) == PaidOut(s.published, interval) + Total(s.rows, interval)
  {
    PaidOutStep(s.published, Paid(s.rows, fired), interval);
    TotalAfterReset(s.rows, fired, interval);
    PaidIsWorthTheTotal(s.rows, fired);
    TotalMoves(Worth(Paid(s.rows, fired)), Total(s.rows, interval), Total(Reset(s.rows, fired), interval),
               fired == interval, PaidOut(s.published, interval));
  }

  lemma StepBalances(s: State, e: Event, interval: nat)
    requires Started(s) && WellFormed(e) && interval in AGGREGATE_INTERVALS
    ensures
      var t := Step(s, e);
      PaidOut(t.published, interval) + Total(t.rows, interval)
      == PaidOut(s.published, interval) + Total(s.rows, interval)
         + if e.Sample? then Area(e.value, e.timestamp, s.fired[interval]) else 0.0
  {
    match e
    case Sample(source, endpoint, value, timestamp) =>
      SampleAddsItsArea(s, source, endpoint, value, timestamp, interval);
    case Fire(fired, now) =>
      FiringBalances(s, fired, now, interval);
  }

  /** In every run, what an interval received is what it paid out plus what is pending. */
  lemma {:induction false} LedgerBalances(s: State, events: seq<Event>, interval: nat)
    requires Started(s) && AllWellFormed(events) && interval in AGGREGATE_INTERVALS
    ensures
      var t := Run(s, events);
      PaidOut(t.published, interval) + Total(t.rows, interval)
      == PaidOut(s.published, interval) + Total(s.rows, interval) + Received(s, events, interval)
    decreases events
  {
    if events != [] {
      StepBalances(s, events[0], interval);
      LedgerBalances(Step(s, events[0]), events[1..], interval);
    }
  }

  // ---- A bound on the published average ----

  function Abs(x: real): real {
    if x < 0.0 then -x else x
  }

  predicate SumsWithin(rows: seq<Row>, interval: nat, bound: real) {
    forall i | 0 <= i < |rows| :: Abs(Get(rows[i].sums, interval)) <= bound
  }

  lemma AbsOfSum(x: real, y: real)
    ensures Abs(x + y) <= Abs(x) + Abs(y)
  {}

  function Times(n: nat, bound: real): real {
    if n == 0 then 0.0 else Times(n - 1, bound) + bound
  }

  lemma {:induction false} TimesIsProduct(n: nat, bound: real)
    ensures Times(n, bound) == bound * n as real
  {
    if n > 0 {
      TimesIsProduct(n - 1, bound);
      assert (n - 1) as real == n as real - 1.0;
    }
  }

  lemma {:induction false} TotalWithin(rows: seq<Row>, interval: nat, bound: real)
    requires SumsWithin(rows, interval, bound)
    ensures Abs(Total(rows, interval)) <= Times(|rows|, bound)
  {
    if rows != [] {
      var init, last := rows[..|rows| - 1], rows[|rows| - 1];
      TotalWithin(init, interval, bound);
      AbsOfSum(Total(init, interval), Get(last.sums, interval));
    }
  }

  lemma AverageWithin(rows: seq<Row>, interval: nat, value: real)
    requires interval > 0 && value >= 0.0 && SumsWithin(rows, interval, value * interval as real)
    ensures Abs(Average(rows, interval)) <= value
  {
    var bound, n, w := value * interval as real, Endpoints(rows) as real, interval as real;
    TotalWithin(rows, interval, bound);
    TimesIsProduct(|rows|, bound);
    var total := Total(rows, interval);
    assert Abs(total) <= value * w * n by {
      if rows == [] {
        assert value * w * n >= 0.0;
      }
    }
    QuotientWithin(total, value, w, n);
  }

  lemma ScaledLess(a: real, b: real, w: real, n: real)
    requires a < b && w > 0.0 && n > 0.0
    ensures a * w * n < b * w * n
  {
    assert a * w < b * w;
  }

  lemma QuotientWithin(total: real, value: real, w: real, n: real)
    requires w > 0.0 && n > 0.0 && Abs(total) <= value * w * n
    ensures Abs(total / n / w) <= value
  {
    var a := total / n / w;
    DivideAndMultiply(total, n, w);
    assert a * n * w == a * w * n;
    if a > value {
      ScaledLess(value, a, w, n);
    }
    if a < -value {
      ScaledLess(a, -value, w, n);
    }
  }

  type Key = (Source, nat)

  /** The rest of one full window of an interval: each endpoint not yet sampled at most once, by at most `value`,
      no later than the interval after the window started. */
  predicate OneSampleEach(s: State, events: seq<Event>, interval: nat, value: real, seen: set<Key>)
    requires Started(s) && AllWellFormed(events) && interval in AGGREGATE_INTERVALS
    decreases events
  {
    events == [] ||
    match events[0]
    case Sample(source, endpoint, v, timestamp) =>
      && (source, endpoint) !in seen && Abs(v) <= value
      && s.fired[interval] <= timestamp <= s.fired[interval] + 1000 * interval
      && OneSampleEach(Step(s, events[0]), events[1..], interval, value, seen + {(source, endpoint)})
    case Fire(fired, _) =>
      fired != interval && OneSampleEach(Step(s, events[0]), events[1..], interval, value, seen)
  }

  /** Endpoints that have not been sampled in the window owe nothing. */
  predicate UnseenAreZero(rows: seq<Row>, interval: nat, seen: set<Key>) {
    forall i | 0 <= i < |rows| && (rows[i].source, rows[i].endpoint) !in seen :: Get(rows[i].sums, interval) == 0.0
  }

  lemma AreaWithin(value: real, timestamp: int, start: int, interval: nat, bound: real)
    requires Abs(value) <= bound && start <= timestamp <= start + 1000 * interval
    ensures Abs(Area(value, timestamp, start)) <= bound * interval as real
  {
    var seconds := (timestamp - start) as real / 1000.0;
    assert 0.0 <= seconds <= interval as real;
    assert bound * seconds <= bound * interval as real;
    assert value * seconds <= bound * seconds && -value * seconds <= bound * seconds;
  }

  lemma SampleStaysWithin(s: State, e: Event, interval: nat, value: real, seen: set<Key>)
    requires Started(s) && interval in AGGREGATE_INTERVALS && e.Sample? && value >= 0.0
    requires (e.source, e.endpoint) !in seen && Abs(e.value) <= value
    requires s.fired[interval] <= e.timestamp <= s.fired[interval] + 1000 * interval
    requires SumsWithin(s.rows, interval, value * interval as real) && UnseenAreZero(s.rows, interval, seen)
    ensures SumsWithin(Step(s, e).rows, interval, value * interval as real)
    ensures UnseenAreZero(Step(s, e).rows, interval, seen + {(e.source, e.endpoint)})
  {
    var i := Find(s.rows, e.source, e.endpoint);
    assert 10 in AGGREGATE_INTERVALS && 60 in AGGREGATE_INTERVALS;
    AreaWithin(e.value, e.timestamp, s.fired[interval], interval, value);
    if i < |s.rows| {
      AccumulatedSum(s.rows[i].sums, e.value, e.timestamp, s.fired, interval);
    } else {
      AccumulatedSum(map[], e.value, e.timestamp, s.fired, interval);
    }
  }

  lemma {:induction false} WindowStaysWithin(s: State, events: seq<Event>, interval: nat, value: real, seen: set<Key>)
    requires Started(s) && AllWellFormed(events) && interval in AGGREGATE_INTERVALS && value >= 0.0
    requires OneSampleEach(s, events, interval, value, seen)
    requires SumsWithin(s.rows, interval, value * interval as real) && UnseenAreZero(s.rows, interval, seen)
    ensures SumsWithin(Run(s, events).rows, interval, value * interval as real)
    decreases events
  {
    if events != [] {
      var e := events[0];
      var next := Step(s, e);
      if e.Sample? {
        SampleStaysWithin(s, e, interval, value, seen);
        WindowStaysWithin(next, events[1..], interval, value, seen + {(e.source, e.endpoint)});
      } else {
        forall i | 0 <= i < |s.rows|
          ensures next.rows[i].source == s.rows[i].source && next.rows[i].endpoint == s.rows[i].endpoint
          ensures Get(next.rows[i].sums, interval) == Get(s.rows[i].sums, interval)
        {
          FiringKeepsOtherSums(s, e.interval, e.now, i, interval);
        }
        WindowStaysWithin(next, events[1..], interval, value, seen);
      }
    }
  }

  /** If in a window that has just started every endpoint is sampled at most once, by at most `value`, then the
      average published at its end is at most `value`. */
  lemma PublishedWithinSamples(s: State, events: seq<Event>, interval: nat, value: real)
    requires Started(s) && AllWellFormed(events) && interval in AGGREGATE_INTERVALS && value >= 0.0
    requires UnseenAreZero(s.rows, interval, {})
    requires OneSampleEach(s, events, interval, value, {})
    ensures Abs(Average(Run(s, events).rows, interval)) <= value
  {
    forall i | 0 <= i < |s.rows| ensures Abs(Get(s.rows[i].sums, interval)) <= value * interval as real {
      assert (s.rows[i].source, s.rows[i].endpoint) !in {};
    }
    WindowStaysWithin(s, events, interval, value, {});
    AverageWithin(Run(s, events).rows, interval, value);
  }

  lemma FiringStartsAfresh(s: State, interval: nat, now: int)
    requires interval > 0
    ensures UnseenAreZero(FireInterval(s, interval, now).rows, interval, {})
  {
    forall i | 0 <= i < |s.rows| ensures Get(Reset(s.rows, interval)[i].sums, interval) == 0.0 {
      ResetAt(s.rows, interval, i);
    }
  }

  lemma {:induction false} RunConcat(s: State, a: seq<Event>, b: seq<Event>)
    requires Started(s) && AllWellFormed(a) && AllWellFormed(b) && AllWellFormed(a + b)
    ensures Run(s, a + b) == Run(Run(s, a), b)
    decreases a
  {
    if a == [] {
      assert a + b == b;
    } else {
      assert (a + b)[1..] == a[1..] + b;
      RunConcat(Step(s, a[0]), a[1..], b);
    }
  }

  /** What a full window publishes, from one firing of an interval to the next: one average, which is at most `value`
      if in between every endpoint was sampled at most once, by at most `value`. */
  lemma WindowPublishesWithinSamples(
      s: State, start: int, window: seq<Event>, end: int, interval: nat, value: real)
    requires Started(s) && AllWellFormed(window) && interval in AGGREGATE_INTERVALS && value >= 0.0
    requires OneSampleEach(Step(s, Fire(interval, start)), window, interval, value, {})
    ensures
      var events := [Fire(interval, start)] + window + [Fire(interval, end)];
      AllWellFormed(events)
      && var published := Run(s, events).published;
         published != []
         && published[|published| - 1].interval == interval
         && -value <= published[|published| - 1].average <= value
  {
    var first, last := [Fire(interval, start)], [Fire(interval, end)];
    assert AllWellFormed(first + window) && AllWellFormed(first + window + last);
    RunConcat(s, first + window, last);
    RunConcat(s, first, window);
    assert first[1..] == [] && last[1..] == [];
    var t := Step(s, Fire(interval, start));
    assert Run(s, first) == t;
    FiringStartsAfresh(s, interval, start);
    PublishedWithinSamples(t, window, interval, value);
    var u := Run(t, window);
    assert Run(u, last) == Step(u, Fire(interval, end));
  }

  /** One sample an endpoint is needed for the bound: sampled twice at the end of a window, a constant value is
      published as its double. */
  lemma RepeatedSampleIsCountedTwice(start: int, value: real)
    ensures
      var s := State([], map[10 := start, 60 := start], []);
      var e := Sample(TemperatureMeasurement, 1, value, start + 10000);
      Average(Step(Step(s, e), e).rows, 10) == 2.0 * value
  {
    var s := State([], map[10 := start, 60 := start], []);
    var e := Sample(TemperatureMeasurement, 1, value, start + 10000);
    var once := Step(s, e);
    assert 10 in AGGREGATE_INTERVALS;
    SampleAddsItsArea(s, e.source, e.endpoint, value, e.timestamp, 10);
    SampleAddsItsArea(once, e.source, e.endpoint, value, e.timestamp, 10);
    assert Find(once.rows, e.source, e.endpoint) == 0;
    assert Area(value, e.timestamp, start) == value * 10.0;
    assert |Step(once, e).rows| == 1;
  }
}
