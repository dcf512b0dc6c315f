/** What the aggregation publishes for a value that does not change (VirtualMatterBrokerNode.ts). */
module ConstantWindow {
  import opened AggregationLedger

  /** The rest of a window of an interval: every sample has this value and time, and the interval does not fire. */
  predicate Constant(events: seq<Event>, interval: nat, value: real, timestamp: int) {
    forall e | e in events ::
      match e
      case Sample(_, _, v, t) => v == value && t == timestamp
      case Fire(fired, _) => fired in {10, 60} && fired != interval
  }

  /** The endpoints that are sampled, once for each sample. */
  function Sampled(events: seq<Event>): seq<Key> {
    if events == [] then []
    else (match events[0]
          case Sample(source, endpoint, _, _) => [(source, endpoint)]
          case Fire(_, _) => []) + Sampled(events[1..])
  }

  function KeysOf(rows: seq<Row>): (keys: seq<Key>)
    ensures |keys| == |rows|
  {
    if rows == [] then [] else [(rows[0].source, rows[0].endpoint)] + KeysOf(rows[1..])
  }

  lemma Intervals(interval: nat)
    ensures interval in AGGREGATE_INTERVALS <==> interval == 10 || interval == 60
  {}

  lemma StepGrows(s: State, e: Event, interval: nat)
    requires Started(s) && WellFormed(e) && interval in {10, 60}
    requires e.Fire? ==> e.interval != interval
    ensures interval in s.fired && interval in Step(s, e).fired && Step(s, e).fired[interval] == s.fired[interval]
    ensures Total(Step(s, e).rows, interval)
         == Total(s.rows, interval) + if e.Sample? then Area(e.value, e.timestamp, s.fired[interval]) else 0.0
  {
    Intervals(interval);
    if e.Sample? {
      SampleAddsItsArea(s, e.source, e.endpoint, e.value, e.timestamp, interval);
    } else {
      TotalAfterReset(s.rows, e.interval, interval);
    }
  }

  lemma {:induction false} TotalGrows(
      s: State, events: seq<Event>, interval: nat, value: real, timestamp: int, start: int)
    requires Started(s) && AllWellFormed(events) && interval in {10, 60} && interval in s.fired && s.fired[interval] == start
    requires Constant(events, interval, value, timestamp)
    ensures Total(Run(s, events).rows, interval)
         == Total(s.rows, interval) + Times(|Sampled(events)|, Area(value, timestamp, start))
    decreases events
  {
    if events != [] {
      var e := events[0];
      assert e in events && forall x | x in events[1..] :: x in events;
      StepGrows(s, e, interval);
      TotalGrows(Step(s, e), events[1..], interval, value, timestamp, start);
    }
  }

  lemma SameSize(a: seq<Key>, b: seq<Key>)
    requires multiset(a) == multiset(b)
    ensures |a| == |b|
  {
    assert |multiset(a)| == |a| && |multiset(b)| == |b|;
  }

  lemma SharedAverage(rows: seq<Row>, interval: nat, share: real)
    requires rows != [] && interval > 0 && Total(rows, interval) == Times(|rows|, share)
    ensures Average(rows, interval) * interval as real == share
  {
    TimesIsProduct(|rows|, share);
    assert |rows| as real > 0.0 && interval as real > 0.0;
    Shared(Total(rows, interval), |rows| as real, interval as real, share);
  }

  lemma Shared(total: real, n: real, w: real, share: real)
    requires n > 0.0 && w > 0.0 && total == share * n
    ensures total / n / w * w == share
  {
    var each := total / n;
    assert each * n == share * n;
    assert (each - share) * n == 0.0;
    assert each == share;
    assert each / w * w == each;
  }

  lemma AreaSince(value: real, start: int, elapsed: int)
    ensures Area(value, start + elapsed, start) == value * (elapsed as real / 1000.0)
  {}

  lemma WholeInterval(average: real, value: real, interval: nat, elapsed: int)
    requires interval > 0 && elapsed == 1000 * interval && average * interval as real == value * (elapsed as real / 1000.0)
    ensures average == value
  {
    var w := interval as real;
    assert elapsed as real == 1000.0 * w;
    assert elapsed as real / 1000.0 == w;
    assert (average - value) * w == 0.0;
  }

  lemma ConstantTotal(
      t: State, window: seq<Event>, interval: nat, value: real, timestamp: int, start: int, rows: seq<Row>)
    requires Started(t) && AllWellFormed(window) && interval in {10, 60} && interval in t.fired && t.fired[interval] == start
    requires Constant(window, interval, value, timestamp)
    requires Total(t.rows, interval) == 0.0
    requires rows == Run(t, window).rows && multiset(Sampled(window)) == multiset(KeysOf(rows))
    ensures |rows| == |Sampled(window)| && Total(rows, interval) == Times(|rows|, Area(value, timestamp, start))
  {
    TotalGrows(t, window, interval, value, timestamp, start);
    SameSize(Sampled(window), KeysOf(rows));
  }

  lemma ConstantAverage(rows: seq<Row>, interval: nat, value: real, start: int, elapsed: int)
    requires rows != [] && interval > 0
    requires Total(rows, interval) == Times(|rows|, Area(value, start + elapsed, start))
    ensures Average(rows, interval) * interval as real == value * (elapsed as real / 1000.0)
  {
    SharedAverage(rows, interval, Area(value, start + elapsed, start));
    AreaSince(value, start, elapsed);
  }

  /** The value, weighted by the seconds for which it counts as a part of the interval. */
  predicate Pays(p: Publication, interval: nat, endpoints: nat, value: real, elapsed: int) {
    && p.interval == interval && p.endpoints == endpoints
    && p.average * interval as real == value * (elapsed as real / 1000.0)
  }

  lemma RowsPay(rows: seq<Row>, interval: nat, value: real, start: int, elapsed: int)
    requires rows != [] && interval > 0
    requires Total(rows, interval) == Times(|rows|, Area(value, start + elapsed, start))
    ensures Pays(Publication(interval, Average(rows, interval), |rows|), interval, |rows|, value, elapsed)
  {
    ConstantAverage(rows, interval, value, start, elapsed);
  }

  /** What a firing publishes, as above. */
  ghost predicate FiringIsPaid(u: State, t: State, interval: nat, endpoints: nat, value: real, elapsed: int) {
    exists p :: t.published == u.published + [p] && Pays(p, interval, endpoints, value, elapsed)
  }

  lemma FiringPays(u: State, interval: nat, end: int, value: real, start: int, elapsed: int)
    requires u.rows != [] && interval > 0
    requires Total(u.rows, interval) == Times(|u.rows|, Area(value, start + elapsed, start))
    ensures FiringIsPaid(u, FireInterval(u, interval, end), interval, |u.rows|, value, elapsed)
  {
    var p := Publication(interval, Average(u.rows, interval), |u.rows|);
    RowsPay(u.rows, interval, value, start, elapsed);
    assert FireInterval(u, interval, end).published == u.published + [p];
  }

  /** From the firing of an interval on, every endpoint is sampled once with the same value, after the same time. What is
      published when the interval fires again is that value, weighted by that time. */
  lemma ConstantIsPublished(
      t: State, window: seq<Event>, u: State, end: int, interval: nat, value: real, elapsed: int)
    requires Started(t) && AllWellFormed(window) && interval in {10, 60} && interval in t.fired
    requires Constant(window, interval, value, t.fired[interval] + elapsed) && Sampled(window) != []
    requires Total(t.rows, interval) == 0.0
    requires u == Run(t, window) && multiset(Sampled(window)) == multiset(KeysOf(u.rows))
    ensures FiringIsPaid(u, FireInterval(u, interval, end), interval, |Sampled(window)|, value, elapsed)
  {
    var start := t.fired[interval];
    ConstantTotal(t, window, interval, value, start + elapsed, start, u.rows);
    FiringPays(u, interval, end, value, start, elapsed);
  }

  /** Firing empties the sums and sets the start: the assumption above. */
  lemma FiringStarts(s: State, interval: nat, start: int)
    requires interval > 0
    ensures
      var t := FireInterval(s, interval, start);
      Total(t.rows, interval) == 0.0 && interval in t.fired && t.fired[interval] == start
  {
    TotalAfterReset(s.rows, interval, interval);
  }

  /** Sampled at the end of the interval, the value itself is published. */
  lemma WholeWindowIsTheValue(p: Publication, interval: nat, endpoints: nat, value: real)
    requires interval > 0 && Pays(p, interval, endpoints, value, 1000 * interval)
    ensures p.average == value
  {
    WholeInterval(p.average, value, interval, 1000 * interval);
  }

  /** When nothing has been sampled yet, the average is that of one endpoint with the sum 0. */
  lemma NothingSampled(s: State, interval: nat, now: int)
    requires s.rows == [] && interval in {10, 60}
    ensures FireInterval(s, interval, now).published == s.published + [Publication(interval, 0.0, 1)]
  {
    var w := interval as real;
    assert 0.0 / w * w == 0.0;
    assert Average([], interval) == 0.0 / 1.0 / w;
  }
}
