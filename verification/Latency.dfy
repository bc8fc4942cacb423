/** The rolling send-latency tracker: last 500 samples, percentiles after every send. */
module Latency {
  import opened Prelude
  import opened OrderStatistics
  import RingWindow

  const RING_SIZE: nat := 500
  const MIN_SAMPLES_FOR_RATE: nat := 15
  const TARGET_MS := 40.0
  const P95_LIMIT_MS := 50.0
  const P99_LIMIT_MS := 60.0
  const INCIDENT_MS := 80.0
  const SEVERE_MS := 90.0
  const CRITICAL_MS := 100.0

  datatype LatencySample = LatencySample(botId: int, ts: int, latencyMs: real, ok: bool)

  datatype Level = Normal | Warning | Incident | Severe | Critical

  datatype Guardrails = Guardrails(
    targetRate: real, rateSampleCount: nat, rateReliable: bool,
    over50: nat, over60: nat, over80: nat, over90: nat, over100: nat, level: Level)

  datatype Snapshot = Snapshot(
    p50: real, p95: real, p99: real, okRate: real, count: nat,
    last: Option<LatencySample>, guardrails: Guardrails)

  function Over(ceiling: real): real -> bool { x => x > ceiling }

  /** `Math.max(...values)`. */
  function MaxOf(values: seq<real>): (m: real)
    requires values != []
    ensures m in values && forall x :: x in values ==> x <= m
  {
    if |values| == 1 then values[0]
    else
      var rest := MaxOf(values[1..]);
      assert values == [values[0]] + values[1..];
      if rest >= values[0] then rest else values[0]
  }

  /** A share in percent; of nothing, everything. */
  function Percent(part: int, whole: nat): real {
    if whole > 0 then part as real / whole as real * 100.0 else 100.0
  }

  function SummarizeGuardrails(values: seq<real>): Guardrails {
    var max := if values != [] then MaxOf(values) else 0.0;
    Guardrails(
      Percent(Count(values, UpTo(TARGET_MS)), |values|),
      |values|,
      |values| >= MIN_SAMPLES_FOR_RATE,
      Count(values, Over(P95_LIMIT_MS)),
      Count(values, Over(P99_LIMIT_MS)),
      Count(values, Over(INCIDENT_MS)),
      Count(values, Over(SEVERE_MS)),
      Count(values, Over(CRITICAL_MS)),
      if max > CRITICAL_MS then Critical
      else if max > SEVERE_MS then Severe
      else if max > INCIDENT_MS then Incident
      else if max > P99_LIMIT_MS then Warning
      else Normal)
  }

  /** Summarizing the sorted index gives what the samples in arrival order would. */
  lemma {:induction false} GuardrailsIgnoreOrder(values: seq<real>)
    ensures SummarizeGuardrails(Sort(values)) == SummarizeGuardrails(values)
  {
    SortKeepsCounts(values, UpTo(TARGET_MS));
    SortKeepsCounts(values, Over(P95_LIMIT_MS));
    SortKeepsCounts(values, Over(P99_LIMIT_MS));
    SortKeepsCounts(values, Over(INCIDENT_MS));
    SortKeepsCounts(values, Over(SEVERE_MS));
    SortKeepsCounts(values, Over(CRITICAL_MS));
    if values != [] {
      SortKeepsMembers(values, MaxOf(Sort(values)));
      SortKeepsMembers(values, MaxOf(values));
    }
  }

  /** A threshold is exceeded by the worst sample exactly when some sample is counted over it. */
  lemma {:induction false} OverCountsTheWorst(values: seq<real>, ceiling: real)
    requires values != []
    ensures MaxOf(values) > ceiling <==> Count(values, Over(ceiling)) > 0
  {
    if |values| > 1 {
      OverCountsTheWorst(values[1..], ceiling);
    }
  }

  /** The alarm level and the five counters can never disagree. */
  lemma LevelAgreesWithCounts(values: seq<real>)
    ensures var g := SummarizeGuardrails(values);
            g.level == (if g.over100 > 0 then Critical
                        else if g.over90 > 0 then Severe
                        else if g.over80 > 0 then Incident
                        else if g.over60 > 0 then Warning
                        else Normal)
  {
    if values != [] {
      OverCountsTheWorst(values, CRITICAL_MS);
      OverCountsTheWorst(values, SEVERE_MS);
      OverCountsTheWorst(values, INCIDENT_MS);
      OverCountsTheWorst(values, P99_LIMIT_MS);
    }
  }

  function LatenciesOf(samples: seq<LatencySample>): (r: seq<real>)
    ensures |r| == |samples| && forall i :: 0 <= i < |r| ==> r[i] == samples[i].latencyMs
  {
    if samples == [] then [] else [samples[0].latencyMs] + LatenciesOf(samples[1..])
  }

  function CountOk(samples: seq<LatencySample>): (n: nat)
    ensures n <= |samples|
  {
    if samples == [] then 0 else (if samples[0].ok then 1 else 0) + CountOk(samples[1..])
  }

  lemma {:induction false} SamplesAppend(a: seq<LatencySample>, s: LatencySample)
    ensures LatenciesOf(a + [s]) == LatenciesOf(a) + [s.latencyMs]
    ensures CountOk(a + [s]) == CountOk(a) + if s.ok then 1 else 0
  {
    if a != [] {
      assert (a + [s])[1..] == a[1..] + [s];
      SamplesAppend(a[1..], s);
    }
  }

  /** The figures one snapshot reports, given an index, its guardrails and the counters. */
  function Report(sorted: seq<real>, guardrails: Guardrails, okCount: int, count: nat, last: Option<LatencySample>): Snapshot {
    Snapshot(
      Percentile(sorted, 50), Percentile(sorted, 95), Percentile(sorted, 99),
      Percent(okCount, count),
      count, last, guardrails)
  }

  /** A snapshot recomputed from nothing but the samples themselves. */
  function SnapshotOf(window: seq<LatencySample>, last: Option<LatencySample>): Snapshot {
    var newest := if window == [] then None else Some(window[|window| - 1]);
    Report(
      Sort(LatenciesOf(window)), SummarizeGuardrails(LatenciesOf(window)), CountOk(window), |window|,
      if last.Some? then last else newest)
  }

  // ----- what a snapshot tells -----

  ghost function OkPlaces(window: seq<LatencySample>): set<nat> {
    set i: nat | i < |window| && window[i].ok
  }

  lemma {:induction false} OkIsCounted(window: seq<LatencySample>)
    ensures CountOk(window) == |OkPlaces(window)|
  {
    if window == [] {
      assert OkPlaces(window) == {};
    } else {
      var tail := OkPlaces(window[1..]);
      OkIsCounted(window[1..]);
      ShiftedSize(tail);
      assert OkPlaces(window) == (if window[0].ok then {0} else {}) + Shifted(tail) by {
        forall i | i in OkPlaces(window) ensures i == 0 || i in Shifted(tail) {
          assert i > 0 ==> i - 1 in tail;
        }
      }
    }
  }

  /** Every alarm figure, by counting the latencies themselves. */
  ghost predicate TellsAlarms(g: Guardrails, values: seq<real>) {
    && g.rateSampleCount == |values| && (g.rateReliable <==> |values| >= 15)
    && IsPercent(g.targetRate, |PlacesUpTo(values, 40.0)|, |values|)
    && g.over50 == |PlacesAbove(values, 50.0)| && g.over60 == |PlacesAbove(values, 60.0)|
    && g.over80 == |PlacesAbove(values, 80.0)| && g.over90 == |PlacesAbove(values, 90.0)|
    && g.over100 == |PlacesAbove(values, 100.0)|
    && g.level == (if g.over100 > 0 then Critical
                   else if g.over90 > 0 then Severe
                   else if g.over80 > 0 then Incident
                   else if g.over60 > 0 then Warning
                   else Normal)
  }

  /** Every figure of a snapshot, by counting the samples of the window in any order. */
  ghost predicate Tells(s: Snapshot, window: seq<LatencySample>, last: Option<LatencySample>) {
    var values := LatenciesOf(window);
    && s.count == |window|
    && IsPercent(s.okRate, |OkPlaces(window)|, |window|)
    && (if window == [] then s.p50 == 0.0 && s.p95 == 0.0 && s.p99 == 0.0
        else IsNearestRank(s.p50, values, 50) && IsNearestRank(s.p95, values, 95) && IsNearestRank(s.p99, values, 99))
    && s.last == (if last.Some? then last else if window == [] then None else Some(window[|window| - 1]))
    && TellsAlarms(s.guardrails, values)
  }

  lemma {:induction false} AboveIsCounted(values: seq<real>, ceiling: real)
    ensures Count(values, Over(ceiling)) == |PlacesAbove(values, ceiling)|
  {
    CountIsWhere(values, Over(ceiling));
    assert Where(values, Over(ceiling)) == PlacesAbove(values, ceiling);
  }

  /** `rate` percent of `whole` is `part`; of nothing it is 100. */
  ghost predicate IsPercent(rate: real, part: int, whole: nat) {
    if whole == 0 then rate == 100.0 else rate * whole as real == 100.0 * part as real
  }

  lemma PercentIsShare(part: int, whole: nat)
    ensures IsPercent(Percent(part, whole), part, whole)
  {
    if whole > 0 {
      var share := part as real / whole as real;
      assert share * whole as real == part as real;
    }
  }

  lemma SummaryTellsAlarms(values: seq<real>)
    ensures TellsAlarms(SummarizeGuardrails(values), values)
  {
    LevelAgreesWithCounts(values);
    AboveIsCounted(values, P95_LIMIT_MS);
    AboveIsCounted(values, P99_LIMIT_MS);
    AboveIsCounted(values, INCIDENT_MS);
    AboveIsCounted(values, SEVERE_MS);
    AboveIsCounted(values, CRITICAL_MS);
    PlacesAreCounted(values, TARGET_MS);
    PercentIsShare(Count(values, UpTo(TARGET_MS)), |values|);
    hide Count, MaxOf, PlacesAbove, PlacesUpTo, Percent, IsPercent;
  }

  /**
   * What is reported: each percentile is the nearest rank of its own percentage, the rates are shares of the
   * window, and the alarm counts and level are those of its latencies.
   */
  lemma SnapshotTells(window: seq<LatencySample>, last: Option<LatencySample>)
    ensures Tells(SnapshotOf(window, last), window, last)
  {
    var values := LatenciesOf(window);
    SummaryTellsAlarms(values);
    OkIsCounted(window);
    PercentIsShare(CountOk(window), |window|);
    if window != [] {
      PercentileIsNearestRank(values, 50);
      PercentileIsNearestRank(values, 95);
      PercentileIsNearestRank(values, 99);
    }
    hide TellsAlarms, IsNearestRank, SummarizeGuardrails, CountOk, OkPlaces, LatenciesOf, Percent, IsPercent, PercentileIndex;
  }

  /** What the index and the counters must be for a given window. */
  ghost predicate Describes(sorted: seq<real>, okCount: int, window: seq<LatencySample>) {
    sorted == Sort(LatenciesOf(window)) && okCount == CountOk(window)
  }

  class LatencyTracker {
    var ring: array<Option<LatencySample>>
    var next: nat
    var count: nat
    var okCount: int
    var sorted: seq<real>
    ghost var history: seq<LatencySample>

    ghost function Window(): seq<LatencySample>
      reads this
    {
      LastN(history, RING_SIZE)
    }

    /** The index, the counters and the ring all describe the same last 500 samples. */
    ghost predicate Valid()
      reads this, ring
    {
      && ring.Length == RING_SIZE
      && RingWindow.Holds(ring[..], next, count, history)
      && Describes(sorted, okCount, Window())
    }

    constructor ()
      ensures Valid() && fresh(ring) && history == []
    {
      ring := new Option<LatencySample>[RING_SIZE](_ => None);
      next, count, okCount, sorted := 0, 0, 0, [];
      history := [];
    }

    method Insert(sample: LatencySample)
      requires Valid()
      modifies this, ring
      ensures Valid() && ring == old(ring)
      ensures history == old(history) + [sample]
    {
      ghost var window, slots := Window(), ring[..];
      RingWindow.Overwrite(slots, next, count, history, sample);
      RingWindow.WindowStep(history, sample, RING_SIZE);
      var evicted: Option<LatencySample> := None;
      if count == RING_SIZE {
        evicted := ring[next];
        assert slots[next] == Some(window[0]);
      } else {
        count := count + 1;
      }
      ring[next] := Some(sample);
      next := RingWindow.Advance(next, RING_SIZE);
      sorted, okCount := Reindex(sorted, okCount, evicted, sample, window);
      history := history + [sample];
      assert ring[..] == slots[old(next) := Some(sample)];
    }

    /** Takes the evicted sample out of the index and the ok counter, and puts the new one in. */
    static method Reindex(
      sorted: seq<real>, okCount: int, evicted: Option<LatencySample>, sample: LatencySample,
      ghost window: seq<LatencySample>) returns (index: seq<real>, ok: int)
      requires Describes(sorted, okCount, window)
      requires evicted.Some? ==> window != [] && window[0] == evicted.value
      ensures Describes(index, ok, (if evicted.Some? then window[1..] else window) + [sample])
    {
      index, ok := sorted, okCount;
      ghost var rest := window;
      if evicted.Some? {
        index := IndexWithoutOldest(sorted, evicted.value.latencyMs, LatenciesOf(window));
        if evicted.value.ok {
          ok := ok - 1;
        }
        rest := window[1..];
      }
      index := IndexWithNewest(index, sample.latencyMs, LatenciesOf(rest));
      if sample.ok {
        ok := ok + 1;
      }
      SamplesAppend(rest, sample);
    }

    method Last() returns (newest: Option<LatencySample>)
      requires Valid()
      ensures newest == if Window() == [] then None else Some(Window()[|Window()| - 1])
    {
      if count == 0 {
        return None;
      }
      newest := ring[(next - 1 + RING_SIZE) % RING_SIZE];
      assert newest == ring[..][RingWindow.Slot(next, 1, RING_SIZE)];
    }

    /** Every figure reported equals recomputation from the last 500 samples. */
    method TakeSnapshot(last: Option<LatencySample>) returns (s: Snapshot)
      requires Valid()
      ensures s == SnapshotOf(Window(), last) && Tells(s, Window(), last)
    {
      SnapshotTells(Window(), last);
      GuardrailsIgnoreOrder(LatenciesOf(Window()));
      hide Tells;
      var newest := Last();
      s := Report(sorted, SummarizeGuardrails(sorted), okCount, count, if last.Some? then last else newest);
    }

    method Record(sample: LatencySample) returns (s: Snapshot)
      requires Valid()
      modifies this, ring
      ensures Valid() && ring == old(ring)
      ensures history == old(history) + [sample]
      ensures Tells(s, LastN(old(history) + [sample], RING_SIZE), Some(sample))
    {
      Insert(sample);
      s := TakeSnapshot(Some(sample));
    }

    /** `recent(n)`: the newest `n` samples still in the window, oldest first; all of them for 0. */
    method Recent(n: int) returns (r: seq<Option<LatencySample>>)
      requires Valid()
      ensures |r| == |RingWindow.Newest(history, RING_SIZE, n)|
      ensures forall i :: 0 <= i < |r| ==> r[i] == Some(RingWindow.Newest(history, RING_SIZE, n)[i])
    {
      RingWindow.SliceIsNewest(ring[..], next, count, history, n);
      r := RingWindow.SliceFromEnd(RingWindow.Ordered(ring[..], next, count), n);
    }
  }
}
