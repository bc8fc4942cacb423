/** The rolling internal-latency tracker: dropped samples take a ring slot but no index entry. */
module FastPath {
  import opened Prelude
  import opened OrderStatistics
  import RingWindow

  const RING_SIZE: nat := 1000

  datatype Trace = Trace(botId: int, receivedAt: real, upstreamMs: real)

  datatype FastPathSample = FastPathSample(trace: Trace, internalMs: real, dropped: bool, dropReason: Option<string>)

  datatype Snapshot = Snapshot(p50: real, p95: real, p99: real, max: real, count: nat, last: Option<FastPathSample>)

  /** The indexed values: the internal times of the samples that were not dropped. */
  function KeptTimes(samples: seq<FastPathSample>): seq<real> {
    if samples == [] then []
    else if samples[0].dropped then KeptTimes(samples[1..])
    else [samples[0].internalMs] + KeptTimes(samples[1..])
  }

  lemma {:induction false} KeptTimesAppend(a: seq<FastPathSample>, s: FastPathSample)
    ensures KeptTimes(a + [s]) == if s.dropped then KeptTimes(a) else KeptTimes(a) + [s.internalMs]
  {
    if a != [] {
      assert (a + [s])[1..] == a[1..] + [s];
      KeptTimesAppend(a[1..], s);
    }
  }

  function Report(sorted: seq<real>, last: Option<FastPathSample>): Snapshot {
    Snapshot(
      Percentile(sorted, 50), Percentile(sorted, 95), Percentile(sorted, 99),
      if sorted == [] then 0.0 else sorted[|sorted| - 1], |sorted|, last)
  }

  /** A snapshot recomputed from nothing but the window. */
  function SnapshotOf(window: seq<FastPathSample>, last: Option<FastPathSample>): Snapshot {
    var newest := if window == [] then None else Some(window[|window| - 1]);
    Report(Sort(KeptTimes(window)), if last.Some? then last else newest)
  }

  // ----- what a snapshot tells -----

  /** The kept samples of a window, those of them up to a time, and those below it. */
  ghost function Kept(window: seq<FastPathSample>): set<nat> {
    set i: nat | i < |window| && !window[i].dropped
  }

  ghost function KeptUpTo(window: seq<FastPathSample>, v: real): set<nat> {
    set i: nat | i < |window| && !window[i].dropped && window[i].internalMs <= v
  }

  ghost function KeptBelow(window: seq<FastPathSample>, v: real): set<nat> {
    set i: nat | i < |window| && !window[i].dropped && window[i].internalMs < v
  }

  ghost predicate IsKeptTime(v: real, window: seq<FastPathSample>) {
    exists i :: 0 <= i < |window| && !window[i].dropped && window[i].internalMs == v
  }

  /** The nearest-rank percentile of the kept times alone. */
  ghost predicate IsKeptRank(v: real, window: seq<FastPathSample>, percent: nat) {
    && IsKeptTime(v, window)
    && 100 * |KeptUpTo(window, v)| >= percent * |Kept(window)|
    && 100 * |KeptBelow(window, v)| < percent * |Kept(window)|
  }

  /** Every figure of a snapshot, by counting the samples of the window in any order. */
  ghost predicate Tells(s: Snapshot, window: seq<FastPathSample>, last: Option<FastPathSample>) {
    && s.count == |Kept(window)|
    && (if Kept(window) == {} then s.p50 == 0.0 && s.p95 == 0.0 && s.p99 == 0.0 && s.max == 0.0
        else
          && IsKeptRank(s.p50, window, 50) && IsKeptRank(s.p95, window, 95) && IsKeptRank(s.p99, window, 99)
          && IsKeptTime(s.max, window)
          && forall i :: 0 <= i < |window| && !window[i].dropped ==> window[i].internalMs <= s.max)
    && s.last == (if last.Some? then last else if window == [] then None else Some(window[|window| - 1]))
  }

  ghost function KeptWhere(window: seq<FastPathSample>, p: real -> bool): set<nat> {
    set i: nat | i < |window| && !window[i].dropped && p(window[i].internalMs)
  }

  lemma {:induction false} HeadCounts(window: seq<FastPathSample>, p: real -> bool)
    requires window != []
    ensures Count(KeptTimes(window), p)
         == (if !window[0].dropped && p(window[0].internalMs) then 1 else 0) + Count(KeptTimes(window[1..]), p)
  {
    if !window[0].dropped {
      assert KeptTimes(window)[1..] == KeptTimes(window[1..]);
    }
  }

  lemma {:induction false} KeptAreCounted(window: seq<FastPathSample>, p: real -> bool)
    ensures Count(KeptTimes(window), p) == |KeptWhere(window, p)|
  {
    if window == [] {
      assert KeptWhere(window, p) == {};
    } else {
      var rest := window[1..];
      var tail := KeptWhere(rest, p);
      KeptAreCounted(rest, p);
      HeadCounts(window, p);
      hide KeptTimes, Count;
      ShiftedSize(tail);
      assert KeptWhere(window, p)
          == (if !window[0].dropped && p(window[0].internalMs) then {0} else {}) + Shifted(tail) by {
        forall i | i in KeptWhere(window, p) ensures i == 0 || i in Shifted(tail) {
          assert i > 0 ==> i - 1 in tail;
        }
      }
    }
  }

  lemma {:induction false} KeptTimeMember(window: seq<FastPathSample>, v: real)
    ensures v in KeptTimes(window) <==> IsKeptTime(v, window)
  {
    if window != [] {
      KeptTimeMember(window[1..], v);
      if IsKeptTime(v, window) {
        var i :| 0 <= i < |window| && !window[i].dropped && window[i].internalMs == v;
        assert i > 0 ==> window[1..][i - 1] == window[i];
      }
      if IsKeptTime(v, window[1..]) {
        var i :| 0 <= i < |window[1..]| && !window[1..][i].dropped && window[1..][i].internalMs == v;
        assert window[i + 1] == window[1..][i];
      }
    }
  }

  function Any(): real -> bool { x => true }

  lemma {:induction false} CountAny(values: seq<real>)
    ensures Count(values, Any()) == |values|
  {
    if values != [] {
      CountAny(values[1..]);
    }
  }

  lemma {:induction false} KeptSize(window: seq<FastPathSample>)
    ensures |KeptTimes(window)| == |Kept(window)|
  {
    CountAny(KeptTimes(window));
    KeptAreCounted(window, Any());
    assert KeptWhere(window, Any()) == Kept(window);
  }

  lemma {:induction false} RankOfKept(window: seq<FastPathSample>, percent: nat)
    requires KeptTimes(window) != [] && 0 < percent <= 100
    ensures IsKeptRank(Percentile(Sort(KeptTimes(window)), percent), window, percent)
  {
    var values := KeptTimes(window);
    var v := Percentile(Sort(values), percent);
    PercentileIsNearestRank(values, percent);
    KeptTimeMember(window, v);
    KeptSize(window);
    PlacesAreCounted(values, v);
    KeptAreCounted(window, UpTo(v));
    KeptAreCounted(window, Below(v));
    assert KeptWhere(window, UpTo(v)) == KeptUpTo(window, v);
    assert KeptWhere(window, Below(v)) == KeptBelow(window, v);
    hide KeptTimes, Sort, Percentile;
  }

  /** `max` is the largest time that was kept. */
  lemma {:induction false} MaxIsTheWorstKept(window: seq<FastPathSample>, last: Option<FastPathSample>)
    requires KeptTimes(window) != []
    ensures SnapshotOf(window, last).max in KeptTimes(window)
    ensures forall t :: t in KeptTimes(window) ==> t <= SnapshotOf(window, last).max
  {
    var s := Sort(KeptTimes(window));
    assert s[|s| - 1] in s;
    SortKeepsMembers(KeptTimes(window), s[|s| - 1]);
    forall t | t in KeptTimes(window) ensures t <= s[|s| - 1] {
      SortKeepsMembers(KeptTimes(window), t);
    }
  }

  /**
   * What is reported: the percentiles of the kept times, each of its own percentage, the worst of them, and
   * how many they are.
   */
  lemma SnapshotTells(window: seq<FastPathSample>, last: Option<FastPathSample>)
    ensures Tells(SnapshotOf(window, last), window, last)
  {
    KeptSize(window);
    var s := SnapshotOf(window, last);
    if KeptTimes(window) != [] {
      RankOfKept(window, 50);
      RankOfKept(window, 95);
      RankOfKept(window, 99);
      MaxIsTheWorstKept(window, last);
      KeptTimeMember(window, s.max);
      forall i | 0 <= i < |window| && !window[i].dropped ensures window[i].internalMs <= s.max {
        KeptTimeMember(window, window[i].internalMs);
      }
    }
    hide KeptTimes, Sort, PercentileIndex, IsKeptRank;
  }

  /** A dropped reply counts all the time since receipt, a sent one the part not spent upstream, never below 0. */
  ghost predicate OwnTime(ms: real, trace: Trace, dropped: bool, now: real) {
    if dropped then ms + trace.receivedAt == now
    else
      && ms >= 0.0 && ms + trace.upstreamMs + trace.receivedAt >= now
      && (ms == 0.0 || ms + trace.upstreamMs + trace.receivedAt == now)
  }

  /** Time owned by this process: everything since receipt except measured upstream waits. */
  function InternalMs(trace: Trace, dropped: bool, now: real): real {
    var elapsed := now - trace.receivedAt;
    if dropped then elapsed
    else if elapsed - trace.upstreamMs >= 0.0 then elapsed - trace.upstreamMs else 0.0
  }

  lemma InternalIsOwnTime(trace: Trace, dropped: bool, now: real)
    ensures OwnTime(InternalMs(trace, dropped, now), trace, dropped, now)
  {
  }

  class FastPathTracker {
    var ring: array<Option<FastPathSample>>
    var next: nat
    var count: nat
    var sorted: seq<real>
    ghost var history: seq<FastPathSample>

    ghost function Window(): seq<FastPathSample>
      reads this
    {
      LastN(history, RING_SIZE)
    }

    /** The index holds exactly the kept times of the last 1000 samples. */
    ghost predicate Valid()
      reads this, ring
    {
      && ring.Length == RING_SIZE
      && RingWindow.Holds(ring[..], next, count, history)
      && sorted == Sort(KeptTimes(Window()))
    }

    constructor ()
      ensures Valid() && fresh(ring) && history == []
    {
      ring := new Option<FastPathSample>[RING_SIZE](_ => None);
      next, count, sorted := 0, 0, [];
      history := [];
    }

    method Insert(sample: FastPathSample)
      requires Valid()
      modifies this, ring
      ensures Valid() && ring == old(ring)
      ensures history == old(history) + [sample]
    {
      ghost var window, slots := Window(), ring[..];
      RingWindow.Overwrite(slots, next, count, history, sample);
      RingWindow.WindowStep(history, sample, RING_SIZE);
      var evicted: Option<FastPathSample> := None;
      if count == RING_SIZE {
        evicted := ring[next];
        assert slots[next] == Some(window[0]);
      } else {
        count := count + 1;
      }
      ring[next] := Some(sample);
      next := RingWindow.Advance(next, RING_SIZE);
      sorted := Reindex(sorted, evicted, sample, window);
      history := history + [sample];
      assert ring[..] == slots[old(next) := Some(sample)];
    }

    /** Takes the evicted sample out of the index and puts the new one in, unless dropped. */
    static method Reindex(
      sorted: seq<real>, evicted: Option<FastPathSample>, sample: FastPathSample, ghost window: seq<FastPathSample>)
      returns (index: seq<real>)
      requires sorted == Sort(KeptTimes(window))
      requires evicted.Some? ==> window != [] && window[0] == evicted.value
      ensures index == Sort(KeptTimes((if evicted.Some? then window[1..] else window) + [sample]))
    {
      index := sorted;
      ghost var rest := window;
      if evicted.Some? {
        if !evicted.value.dropped {
          index := IndexWithoutOldest(sorted, evicted.value.internalMs, KeptTimes(window));
        }
        rest := window[1..];
      }
      KeptTimesAppend(rest, sample);
      if !sample.dropped {
        index := IndexWithNewest(index, sample.internalMs, KeptTimes(rest));
      }
    }

    method Last() returns (newest: Option<FastPathSample>)
      requires Valid()
      ensures newest == if Window() == [] then None else Some(Window()[|Window()| - 1])
    {
      if count == 0 {
        return None;
      }
      newest := ring[(next - 1 + RING_SIZE) % RING_SIZE];
      assert newest == ring[..][RingWindow.Slot(next, 1, RING_SIZE)];
    }

    method TakeSnapshot(last: Option<FastPathSample>) returns (s: Snapshot)
      requires Valid()
      ensures s == SnapshotOf(Window(), last) && Tells(s, Window(), last)
    {
      SnapshotTells(Window(), last);
      hide Tells;
      var newest := Last();
      s := Report(sorted, if last.Some? then last else newest);
    }

    method Record(trace: Trace, dropped: bool, dropReason: Option<string>, now: real) returns (s: Snapshot)
      requires Valid()
      modifies this, ring
      ensures Valid() && ring == old(ring)
      ensures |history| == |old(history)| + 1 && history[..|old(history)|] == old(history)
      ensures var sample := history[|old(history)|];
              && sample.trace == trace && sample.dropped == dropped && sample.dropReason == dropReason
              && OwnTime(sample.internalMs, trace, dropped, now)
              && Tells(s, LastN(history, RING_SIZE), Some(sample))
    {
      var sample := FastPathSample(trace, InternalMs(trace, dropped, now), dropped, dropReason);
      Insert(sample);
      s := TakeSnapshot(Some(sample));
    }

    method Recent(limit: int) returns (r: seq<Option<FastPathSample>>)
      requires Valid()
      ensures |r| == |RingWindow.Newest(history, RING_SIZE, limit)|
      ensures forall i :: 0 <= i < |r| ==> r[i] == Some(RingWindow.Newest(history, RING_SIZE, limit)[i])
    {
      RingWindow.SliceIsNewest(ring[..], next, count, history, limit);
      r := RingWindow.SliceFromEnd(RingWindow.Ordered(ring[..], next, count), limit);
    }
  }
}
