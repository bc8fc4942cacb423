/**
 * The incrementally sorted array both rolling trackers keep beside their ring,
 * and the nearest-rank percentile read from it.
 */
module OrderStatistics {
  import opened Prelude

  ghost predicate Ascending(s: seq<real>) {
    forall i, j :: 0 <= i < j < |s| ==> s[i] <= s[j]
  }

  /** Reference sort: what a recomputation from scratch would produce. */
  function Sort(s: seq<real>): (r: seq<real>)
    ensures Ascending(r) && |r| == |s|
  {
    if s == [] then [] else SortedInsert(Sort(s[1..]), s[0])
  }

  function SortedInsert(s: seq<real>, v: real): (r: seq<real>)
    requires Ascending(s)
    ensures Ascending(r) && |r| == |s| + 1
    ensures r[0] == if s == [] || v <= s[0] then v else s[0]
  {
    if s == [] || v <= s[0] then [v] + s else [s[0]] + SortedInsert(s[1..], v)
  }

  /** Sorting neither invents nor loses a value. */
  lemma {:induction false} SortKeepsMembers(s: seq<real>, x: real)
    ensures x in Sort(s) <==> x in s
  {
    if s != [] {
      SortKeepsMembers(s[1..], x);
      InsertAddsMember(Sort(s[1..]), s[0], x);
      assert s == [s[0]] + s[1..];
    }
  }

  lemma {:induction false} InsertAddsMember(s: seq<real>, v: real, x: real)
    requires Ascending(s)
    ensures x in SortedInsert(s, v) <==> x == v || x in s
  {
    if s != [] && v > s[0] {
      InsertAddsMember(s[1..], v, x);
      assert s == [s[0]] + s[1..];
    }
  }

  lemma {:induction false} InsertCommutes(s: seq<real>, a: real, b: real)
    requires Ascending(s)
    ensures SortedInsert(SortedInsert(s, a), b) == SortedInsert(SortedInsert(s, b), a)
  {
    if s != [] {
      InsertCommutes(s[1..], a, b);
    }
  }

  /** Appending a newest sample is one more insertion. */
  lemma {:induction false} SortAppend(s: seq<real>, v: real)
    ensures Sort(s + [v]) == SortedInsert(Sort(s), v)
  {
    if s != [] {
      assert (s + [v])[1..] == s[1..] + [v];
      SortAppend(s[1..], v);
      InsertCommutes(Sort(s[1..]), s[0], v);
    }
  }

  /** Sorting permutes: every count over the samples survives it. */
  lemma {:induction false} SortKeepsCounts(s: seq<real>, p: real -> bool)
    ensures Count(Sort(s), p) == Count(s, p)
  {
    if s != [] {
      SortKeepsCounts(s[1..], p);
      InsertCounts(Sort(s[1..]), s[0], p);
    }
  }

  lemma {:induction false} InsertCounts(s: seq<real>, v: real, p: real -> bool)
    requires Ascending(s)
    ensures Count(SortedInsert(s, v), p) == Count(s, p) + if p(v) then 1 else 0
  {
    if s == [] || v <= s[0] {
      assert ([v] + s)[1..] == s;
    } else {
      InsertCounts(s[1..], v, p);
      assert SortedInsert(s, v)[1..] == SortedInsert(s[1..], v);
    }
  }

  /** `at` is where a binary search for `v` lands. */
  ghost predicate SplitsAt(sorted: seq<real>, v: real, at: nat) {
    && at <= |sorted|
    && (forall i :: 0 <= i < at ==> sorted[i] < v)
    && (forall i :: at <= i < |sorted| ==> v <= sorted[i])
  }

  lemma {:induction false} InsertIsSplice(s: seq<real>, v: real, at: nat)
    requires Ascending(s) && SplitsAt(s, v, at)
    ensures SortedInsert(s, v) == s[..at] + [v] + s[at..]
  {
    if s != [] && at > 0 {
      InsertIsSplice(s[1..], v, at - 1);
      assert s[..at] == [s[0]] + s[1..][..at - 1];
    }
  }

  /** Binary search for the number of elements below `value`. */
  method LowerBound(sorted: seq<real>, value: real) returns (lo: nat)
    requires Ascending(sorted)
    ensures SplitsAt(sorted, value, lo)
  {
    lo := 0;
    var hi := |sorted|;
    while lo < hi
      invariant 0 <= lo <= hi <= |sorted|
      invariant forall i :: 0 <= i < lo ==> sorted[i] < value
      invariant forall i :: hi <= i < |sorted| ==> value <= sorted[i]
    {
      var mid := (lo + hi) / 2;
      if sorted[mid] < value {
        lo := mid + 1;
      } else {
        hi := mid;
      }
    }
  }

  /** `splice(lowerBound(v), 0, v)` is the sort of one more sample. */
  lemma {:induction false} SpliceIn(values: seq<real>, v: real, at: nat)
    requires SplitsAt(Sort(values), v, at)
    ensures Sort(values)[..at] + [v] + Sort(values)[at..] == Sort(values + [v])
  {
    InsertIsSplice(Sort(values), v, at);
    SortAppend(values, v);
  }

  /** `splice(lowerBound(v), 1)` always finds the oldest sample and removes one copy of it. */
  lemma {:induction false} SpliceOut(values: seq<real>, at: nat)
    requires values != [] && SplitsAt(Sort(values), values[0], at)
    ensures at < |Sort(values)|
    ensures Sort(values)[..at] + Sort(values)[at + 1..] == Sort(values[1..])
  {
    RemoveUndoesInsert(Sort(values[1..]), values[0], at);
  }

  lemma {:induction false} RemoveUndoesInsert(s: seq<real>, v: real, at: nat)
    requires Ascending(s) && SplitsAt(SortedInsert(s, v), v, at)
    ensures at < |SortedInsert(s, v)|
    ensures SortedInsert(s, v)[..at] + SortedInsert(s, v)[at + 1..] == s
  {
    var r := SortedInsert(s, v);
    if s == [] || v <= s[0] {
      assert r[0] == v;
      assert at == 0;
    } else {
      var t := SortedInsert(s[1..], v);
      assert r == [s[0]] + t && at > 0;
      assert forall i :: 0 <= i < |t| ==> t[i] == r[i + 1];
      assert SplitsAt(t, v, at - 1);
      RemoveUndoesInsert(s[1..], v, at - 1);
      hide *;
      ShiftRemoval(s[0], t, at - 1);
    }
  }

  lemma ShiftRemoval(head: real, t: seq<real>, at: nat)
    requires at < |t|
    ensures ([head] + t)[..at + 1] + ([head] + t)[at + 2..] == [head] + (t[..at] + t[at + 1..])
  {
  }

  /** Drops the oldest of `values` from the index that sorts them. */
  method IndexWithoutOldest(sorted: seq<real>, v: real, ghost values: seq<real>) returns (r: seq<real>)
    requires values != [] && values[0] == v && sorted == Sort(values)
    ensures r == Sort(values[1..])
  {
    var at := LowerBound(sorted, v);
    SpliceOut(values, at);
    r := sorted;
    if at < |sorted| {
      r := sorted[..at] + sorted[at + 1..];
    }
  }

  /** Adds a newest value to the index that sorts `values`. */
  method IndexWithNewest(sorted: seq<real>, v: real, ghost values: seq<real>) returns (r: seq<real>)
    requires sorted == Sort(values)
    ensures r == Sort(values + [v])
  {
    var at := LowerBound(sorted, v);
    SpliceIn(values, v, at);
    r := sorted[..at] + [v] + sorted[at..];
  }

  /** Zero-based nearest rank: `min(len - 1, max(0, ceil(p * len) - 1))`, `p` in percent. */
  function PercentileIndex(length: nat, percent: nat): (i: nat)
    requires length > 0
    ensures i < length
  {
    Min(length - 1, Max(0, CeilDiv(percent * length, 100) - 1))
  }

  function Percentile(sortedAsc: seq<real>, percent: nat): real {
    if sortedAsc == [] then 0.0 else sortedAsc[PercentileIndex(|sortedAsc|, percent)]
  }

  /** Membership tests used to state what a percentile means. */
  function Below(v: real): real -> bool { x => x < v }

  function UpTo(v: real): real -> bool { x => x <= v }

  /** In an ascending sequence the element at `k` has at most `k` below it and more than `k` up to it. */
  lemma {:induction false} RankOfIndex(s: seq<real>, k: nat)
    requires Ascending(s) && k < |s|
    ensures Count(s, Below(s[k])) <= k < Count(s, UpTo(s[k]))
  {
    if k == 0 {
      NoneBelow(s, s[0]);
    } else {
      RankOfIndex(s[1..], k - 1);
    }
  }

  lemma {:induction false} NoneBelow(s: seq<real>, v: real)
    requires forall i :: 0 <= i < |s| ==> v <= s[i]
    ensures Count(s, Below(v)) == 0
  {
    if s != [] {
      NoneBelow(s[1..], v);
    }
  }

  /**
   * What a percentile means: it is one of the values, at least `percent` percent of them do not exceed it,
   * and fewer than that many lie below it.  The counts range over the values in any order, so this pins the
   * number to the values themselves rather than to an index that produced it.
   */
  ghost predicate IsNearestRank(v: real, values: seq<real>, percent: nat) {
    && v in values
    && 100 * |PlacesUpTo(values, v)| >= percent * |values|
    && 100 * |PlacesBelow(values, v)| < percent * |values|
  }

  ghost function PlacesUpTo(values: seq<real>, v: real): set<nat> {
    set i: nat | i < |values| && values[i] <= v
  }

  ghost function PlacesBelow(values: seq<real>, v: real): set<nat> {
    set i: nat | i < |values| && values[i] < v
  }

  ghost function PlacesAbove(values: seq<real>, v: real): set<nat> {
    set i: nat | i < |values| && values[i] > v
  }

  lemma {:induction false} PlacesAreCounted(values: seq<real>, v: real)
    ensures |PlacesUpTo(values, v)| == Count(values, UpTo(v))
    ensures |PlacesBelow(values, v)| == Count(values, Below(v))
  {
    CountIsWhere(values, UpTo(v));
    CountIsWhere(values, Below(v));
    assert Where(values, UpTo(v)) == PlacesUpTo(values, v);
    assert Where(values, Below(v)) == PlacesBelow(values, v);
  }

  lemma {:induction false} PercentileIsNearestRank(values: seq<real>, percent: nat)
    requires values != [] && 0 < percent <= 100
    ensures IsNearestRank(Percentile(Sort(values), percent), values, percent)
  {
    var s := Sort(values);
    var k := PercentileIndex(|s|, percent);
    var v := s[k];
    SortKeepsMembers(values, v);
    RankOfIndex(s, k);
    SortKeepsCounts(values, UpTo(v));
    SortKeepsCounts(values, Below(v));
    PlacesAreCounted(values, v);
    NearestRankBounds(|s|, percent);
    assert Percentile(s, percent) == v;
  }

  /** Only one number can be a given percentile. */
  lemma NearestRankIsUnique(v: real, w: real, values: seq<real>, percent: nat)
    requires IsNearestRank(v, values, percent) && IsNearestRank(w, values, percent)
    ensures v == w
  {
    if v < w {
      SubsetSize(PlacesUpTo(values, v), PlacesBelow(values, w));
    } else if w < v {
      SubsetSize(PlacesUpTo(values, w), PlacesBelow(values, v));
    }
  }

  lemma NearestRankBounds(length: nat, percent: nat)
    requires length > 0 && 0 < percent <= 100
    ensures 100 * (PercentileIndex(length, percent) + 1) >= percent * length
    ensures 100 * PercentileIndex(length, percent) < percent * length
  {
    var a := percent * length;
    assert 0 < a <= 100 * length;
    assert CeilDiv(a, 100) >= 1;
  }
}
