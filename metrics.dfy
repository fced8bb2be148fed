/**
 * `src/utils/metrics.py`: the in-memory counters and gauges of the metrics
 * collector. Each update is made before the reporting switch is read, so
 * it stays in place when reading the switch fails.
 */
module Metrics {
  import opened Wrappers
  import opened Exceptions

  /**
   * Reading the reporting switch when the settings object has no such
   * field, as the shipped settings do not.
   */
  const MissingSwitch: Exception := MissingSetting("ENABLE_METRICS")

  /** What reading `settings.ENABLE_METRICS` gives: the switch, or the error when the field is absent. */
  function ReadSwitch(enableMetrics: Option<bool>): (r: Option<Exception>)
    ensures r.Some? <==> enableMetrics.None?
  {
    if enableMetrics.None? then Some(MissingSwitch) else None
  }

  /**
   * The counters after adding `value` to `name`: a new counter starts from
   * 0; every other counter keeps its value.
   */
  function Bumped(counters: map<string, int>, name: string, value: int): (r: map<string, int>)
    ensures name in r && r[name] == (if name in counters then counters[name] else 0) + value
    ensures r.Keys == counters.Keys + {name}
    ensures forall k :: k in counters && k != name ==> r[k] == counters[k]
  {
    counters[name := (if name in counters then counters[name] else 0) + value]
  }

  /** Two increments of the same counter add up, in either order, as one of their sum. */
  lemma BumpsAdd(counters: map<string, int>, name: string, a: int, b: int)
    ensures Bumped(Bumped(counters, name, a), name, b) == Bumped(counters, name, a + b)
    ensures Bumped(Bumped(counters, name, a), name, b) == Bumped(Bumped(counters, name, b), name, a)
  {
  }

  /** Increments of different counters do not interfere: their order does not matter. */
  lemma BumpsCommute(counters: map<string, int>, n1: string, a: int, n2: string, b: int)
    ensures Bumped(Bumped(counters, n1, a), n2, b) == Bumped(Bumped(counters, n2, b), n1, a)
  {
    if n1 != n2 {
      var x := Bumped(Bumped(counters, n1, a), n2, b);
      var y := Bumped(Bumped(counters, n2, b), n1, a);
      assert forall k :: k in x ==> x[k] == y[k];
    }
  }

  /** The sum of a run of increments applied one after another to `name`. */
  function BumpedAll(counters: map<string, int>, name: string, values: seq<int>): map<string, int>
    decreases |values|
  {
    if values == [] then counters else BumpedAll(Bumped(counters, name, values[0]), name, values[1..])
  }

  function Sum(values: seq<int>): int
    decreases |values|
  {
    if values == [] then 0 else values[0] + Sum(values[1..])
  }

  /** A run of increments of one counter leaves it at its start value plus their sum, the others unchanged. */
  lemma {:induction false} BumpedAllIsSum(counters: map<string, int>, name: string, values: seq<int>)
    requires values != []
    ensures BumpedAll(counters, name, values) == Bumped(counters, name, Sum(values))
    decreases |values|
  {
    if |values| > 1 {
      BumpedAllIsSum(Bumped(counters, name, values[0]), name, values[1..]);
      BumpsAdd(counters, name, values[0], Sum(values[1..]));
    }
  }

  class MetricsCollector {
    var counters: map<string, int>
    var timers: map<string, seq<real>>
    var gauges: map<string, real>

    /** A new collector: no counter, no timer, no gauge. */
    constructor ()
      ensures counters == map[] && timers == map[] && gauges == map[]
    {
      counters := map[];
      timers := map[];
      gauges := map[];
    }

    /**
     * `increment_counter(name, value)`, with `enableMetrics` the reporting
     * switch of the settings (None when the field is absent).
     */
    method IncrementCounter(name: string, value: int, enableMetrics: Option<bool>) returns (raised: Option<Exception>)
      modifies this
      ensures counters == Bumped(old(counters), name, value)
      ensures timers == old(timers) && gauges == old(gauges)
      ensures raised == ReadSwitch(enableMetrics)
    {
      if name !in counters {
        counters := counters[name := 0];
      }
      counters := counters[name := counters[name] + value];
      raised := ReadSwitch(enableMetrics);
    }

    /** `set_gauge(name, value)`: the gauge is overwritten, nothing else changes. */
    method SetGauge(name: string, value: real, enableMetrics: Option<bool>) returns (raised: Option<Exception>)
      modifies this
      ensures gauges == old(gauges)[name := value]
      ensures counters == old(counters) && timers == old(timers)
      ensures raised == ReadSwitch(enableMetrics)
    {
      gauges := gauges[name := value];
      raised := ReadSwitch(enableMetrics);
    }
  }
}
