/** HTTP counters, and the bounded window of recent latencies kept beside them. */
module HttpMetrics {
  import opened Sums

  const WINDOW: nat := 1000

  datatype Series = Series(verb: string, route: string)

  datatype Observation = Observation(verb: string, path: string, status: int, duration: real) {
    function Of(): Series {
      Series(verb, RouteOf(path))
    }
  }

  function RouteOf(path: string): string {
    if path in {"/health", "/ready", "/metrics", "/metrics/prometheus"} then path else "application"
  }

  type Counts = map<(Series, int), nat>

  type Samples = map<Series, seq<real>>

  function CounterOf(counts: Counts, series: Series, status: int): nat {
    if (series, status) in counts then counts[(series, status)] else 0
  }

  function SamplesOf(samples: Samples, series: Series): seq<real> {
    if series in samples then samples[series] else []
  }

  /** The last `WINDOW` elements, or all of them. */
  function LastWindow(s: seq<real>): seq<real> {
    if |s| > WINDOW then s[|s| - WINDOW..] else s
  }

  function Counted(counts: Counts, o: Observation): Counts {
    counts[(o.Of(), o.status) := CounterOf(counts, o.Of(), o.status) + 1]
  }

  function Sampled(samples: Samples, o: Observation): Samples {
    samples[o.Of() := LastWindow(SamplesOf(samples, o.Of()) + [o.duration])]
  }

  // ----- What a history of observations means

  /** A request belongs to the series of its method and, if it is one of four named paths, of its path. */
  predicate Belongs(o: Observation, series: Series) {
    && o.verb == series.verb
    && if o.path == "/health" || o.path == "/ready" || o.path == "/metrics" || o.path == "/metrics/prometheus"
       then series.route == o.path else series.route == "application"
  }

  lemma SeriesOfRequest(o: Observation, series: Series)
    ensures o.Of() == series <==> Belongs(o, series)
  {
  }

  /** All durations of one series, oldest first. */
  function Durations(history: seq<Observation>, series: Series): seq<real> {
    if |history| == 0 then []
    else
      var rest, last := Durations(history[..|history| - 1], series), history[|history| - 1];
      if Belongs(last, series) then rest + [last.duration] else rest
  }

  function Occurrences(history: seq<Observation>, series: Series, status: int): nat {
    if |history| == 0 then 0
    else
      var last := history[|history| - 1];
      Occurrences(history[..|history| - 1], series, status)
      + if Belongs(last, series) && last.status == status then 1 else 0
  }

  /** Counters are exact totals; each window is the tail of all durations of its series. */
  ghost predicate Records(counts: Counts, samples: Samples, history: seq<Observation>) {
    && (forall series, status :: CounterOf(counts, series, status) == Occurrences(history, series, status))
    && (forall series :: SamplesOf(samples, series) == LastWindow(Durations(history, series)))
  }

  /** Trimming after each append keeps the tail of the whole: windows compose. */
  lemma WindowOfAppend(s: seq<real>, x: real)
    ensures LastWindow(LastWindow(s) + [x]) == LastWindow(s + [x])
  {
  }

  lemma HistoryAppend(history: seq<Observation>, o: Observation, series: Series, status: int)
    ensures Durations(history + [o], series) ==
            if o.Of() == series then Durations(history, series) + [o.duration] else Durations(history, series)
    ensures Occurrences(history + [o], series, status) ==
            Occurrences(history, series, status) + (if o.Of() == series && o.status == status then 1 else 0)
  {
    assert (history + [o])[..|history|] == history;
    SeriesOfRequest(o, series);
  }

  lemma ObservationRecorded(counts: Counts, samples: Samples, history: seq<Observation>, o: Observation)
    requires Records(counts, samples, history)
    ensures Records(Counted(counts, o), Sampled(samples, o), history + [o])
  {
    forall series, status
      ensures CounterOf(Counted(counts, o), series, status) == Occurrences(history + [o], series, status)
    {
      HistoryAppend(history, o, series, status);
    }
    forall series ensures SamplesOf(Sampled(samples, o), series) == LastWindow(Durations(history + [o], series)) {
      HistoryAppend(history, o, series, o.status);
      WindowOfAppend(Durations(history, series), o.duration);
    }
  }

  // ----- The registry

  class Registry {
    var counts: Counts
    var samples: Samples
    /** Every observation so far, oldest first. */
    ghost var history: seq<Observation>

    ghost predicate Valid()
      reads this
    {
      Records(counts, samples, history)
    }

    constructor ()
      ensures Valid() && history == []
    {
      counts, samples, history := map[], map[], [];
    }

    /** Counts one request, appends its duration and drops the oldest sample beyond the window. */
    method Observe(o: Observation)
      requires Valid()
      modifies this
      ensures Valid() && history == old(history) + [o]
    {
      hide Records;
      ghost var before, sampled := counts, Sampled(samples, o);
      ObservationRecorded(counts, samples, history, o);
      var series := o.Of();
      counts := counts[(series, o.status) := CounterOf(counts, series, o.status) + 1];
      samples := samples[series := SamplesOf(samples, series) + [o.duration]];
      if |samples[series]| > WINDOW {
        samples := samples[series := samples[series][|samples[series]| - WINDOW..]];
      }
      history := history + [o];
      assert counts == Counted(before, o) && samples == sampled;
    }
  }

  // ----- Grouping keeps the registry small

  const ROUTES: set<string> := {"/health", "/ready", "/metrics", "/metrics/prometheus", "application"}

  lemma {:induction false} OnlyKnownRoutes(history: seq<Observation>, series: Series)
    ensures Durations(history, series) != [] ==> series.route in ROUTES
  {
    if |history| > 0 {
      OnlyKnownRoutes(history[..|history| - 1], series);
    }
  }

  /** Whatever paths were requested, each method has samples under at most five series. */
  lemma AtMostFiveSeries(counts: Counts, samples: Samples, history: seq<Observation>, verb: string, used: set<Series>)
    requires Records(counts, samples, history)
    requires forall series :: series in used ==> series.verb == verb && SamplesOf(samples, series) != []
    ensures |used| <= 5
  {
    var known := set route | route in ROUTES :: Series(verb, route);
    forall series | series in used ensures series in known {
      assert SamplesOf(samples, series) == LastWindow(Durations(history, series));
      OnlyKnownRoutes(history, series);
      assert series == Series(verb, series.route);
    }
    assert known == {Series(verb, "/health"), Series(verb, "/ready"), Series(verb, "/metrics"),
                     Series(verb, "/metrics/prometheus"), Series(verb, "application")};
    Included(used, known);
  }

  lemma {:induction false} Included(a: set<Series>, b: set<Series>)
    requires a <= b
    ensures |a| <= |b|
  {
    if a != {} {
      var x :| x in a;
      Included(a - {x}, b - {x});
    }
  }

  // ----- The window against the counters

  function StatusesOf(counts: Counts, series: Series): set<int> {
    set key | key in counts && key.0 == series :: key.1
  }

  ghost function CountsBy(counts: Counts, series: Series, statuses: set<int>): map<int, int> {
    map status | status in statuses :: CounterOf(counts, series, status)
  }

  ghost function OccurrencesBy(history: seq<Observation>, series: Series, statuses: set<int>): map<int, int> {
    map status | status in statuses :: Occurrences(history, series, status)
  }

  /** The counters of one series over all its statuses. */
  ghost function Total(counts: Counts, series: Series): int {
    Sum(StatusesOf(counts, series), CountsBy(counts, series, StatusesOf(counts, series)))
  }

  /** Every duration of a series is counted under exactly one status. */
  lemma {:induction false} DurationsAreCounted(history: seq<Observation>, series: Series, statuses: set<int>)
    requires forall o :: o in history && Belongs(o, series) ==> o.status in statuses
    ensures Sum(statuses, OccurrencesBy(history, series, statuses)) == |Durations(history, series)|
  {
    if |history| == 0 {
      SumOfZeros(statuses, OccurrencesBy(history, series, statuses));
    } else {
      var rest, last := history[..|history| - 1], history[|history| - 1];
      DurationsAreCounted(rest, series, statuses);
      if Belongs(last, series) {
        SumBump(statuses, OccurrencesBy(rest, series, statuses), OccurrencesBy(history, series, statuses), last.status);
      } else {
        SumSame(statuses, OccurrencesBy(rest, series, statuses), OccurrencesBy(history, series, statuses));
      }
    }
  }

  lemma {:induction false} OccurringIsCounted(history: seq<Observation>, o: Observation)
    requires o in history
    ensures Occurrences(history, o.Of(), o.status) > 0
  {
    if history[|history| - 1] != o {
      assert o in history[..|history| - 1];
      OccurringIsCounted(history[..|history| - 1], o);
    }
  }

  /**
   The window agrees with the counters: it holds the smaller of 1000 and the sum of the series'
   counters over all statuses, so its length is the true count exactly up to 1000 requests.
   */
  lemma WindowAgreesWithCounters(counts: Counts, samples: Samples, history: seq<Observation>, series: Series)
    requires Records(counts, samples, history)
    ensures var n, total := |SamplesOf(samples, series)|, Total(counts, series);
            && n == (if total < 1000 then total else 1000)
            && (n == total <==> total <= 1000)
  {
    var statuses := StatusesOf(counts, series);
    forall o | o in history && Belongs(o, series) ensures o.status in statuses {
      SeriesOfRequest(o, series);
      OccurringIsCounted(history, o);
      assert CounterOf(counts, series, o.status) > 0;
      assert (series, o.status) in counts;
    }
    DurationsAreCounted(history, series, statuses);
    SumSame(statuses, CountsBy(counts, series, statuses), OccurrencesBy(history, series, statuses));
  }
}
