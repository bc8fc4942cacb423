/** Rolling replacement: which idle lane may be recycled for age or repaired for slowness. */
module LaneRefresh {
  import opened Prelude

  datatype Lane = Lane(id: int, ready: bool, inFlight: nat, openedAt: int, sendRtt: Option<real>, degraded: bool)

  // ----- age -----

  predicate Aged(l: Lane, now: int, maxAge: int) {
    l.ready && l.inFlight == 0 && l.openedAt > 0 && now - l.openedAt >= maxAge
  }

  predicate Older(a: Lane, b: Lane) {
    a.openedAt < b.openedAt || (a.openedAt == b.openedAt && a.id < b.id)
  }

  /** Another ready lane on the same side of the reservation. */
  predicate Standby(other: Lane, l: Lane, reserved: int) {
    other.ready && other.id != l.id && (reserved == 0 || (other.id < reserved) == (l.id < reserved))
  }

  predicate HasStandby(lanes: seq<Lane>, l: Lane, reserved: int) {
    exists i :: 0 <= i < |lanes| && Standby(lanes[i], l, reserved)
  }

  function InsertByAge(l: Lane, s: seq<Lane>): (r: seq<Lane>)
    ensures |r| == |s| + 1
  {
    if s == [] || Older(l, s[0]) then [l] + s else [s[0]] + InsertByAge(l, s[1..])
  }

  function AgedByAge(lanes: seq<Lane>, now: int, maxAge: int): seq<Lane> {
    if lanes == [] then []
    else if Aged(lanes[0], now, maxAge) then InsertByAge(lanes[0], AgedByAge(lanes[1..], now, maxAge))
    else AgedByAge(lanes[1..], now, maxAge)
  }

  lemma {:induction false} InsertMember(l: Lane, s: seq<Lane>, x: Lane)
    ensures x in InsertByAge(l, s) <==> x == l || x in s
  {
    if s != [] && !Older(l, s[0]) {
      InsertMember(l, s[1..], x);
      assert s == [s[0]] + s[1..];
    }
  }

  lemma {:induction false} AgedMember(lanes: seq<Lane>, now: int, maxAge: int, x: Lane)
    ensures x in AgedByAge(lanes, now, maxAge) <==> x in lanes && Aged(x, now, maxAge)
  {
    if lanes != [] {
      AgedMember(lanes[1..], now, maxAge, x);
      InsertMember(lanes[0], AgedByAge(lanes[1..], now, maxAge), x);
      assert lanes == [lanes[0]] + lanes[1..];
    }
  }

  ghost predicate OldestFirst(s: seq<Lane>) {
    forall i, j :: 0 <= i < j < |s| ==> !Older(s[j], s[i])
  }

  lemma {:induction false} InsertOldestFirst(l: Lane, s: seq<Lane>)
    requires OldestFirst(s)
    ensures OldestFirst(InsertByAge(l, s))
  {
    if s != [] && !Older(l, s[0]) {
      InsertOldestFirst(l, s[1..]);
      var t := InsertByAge(l, s[1..]);
      forall i | 0 <= i < |t| ensures !Older(t[i], s[0]) {
        InsertMember(l, s[1..], t[i]);
        if t[i] != l {
          var j :| 0 <= j < |s[1..]| && s[1..][j] == t[i];
          assert s[j + 1] == t[i];
        }
      }
    } else if s != [] {
      forall i | 0 <= i < |s| ensures !Older(s[i], l) {
        assert !Older(s[i], s[0]);
      }
    }
  }

  lemma {:induction false} AgedOldestFirst(lanes: seq<Lane>, now: int, maxAge: int)
    ensures OldestFirst(AgedByAge(lanes, now, maxAge))
  {
    if lanes != [] {
      AgedOldestFirst(lanes[1..], now, maxAge);
      if Aged(lanes[0], now, maxAge) {
        InsertOldestFirst(lanes[0], AgedByAge(lanes[1..], now, maxAge));
      }
    }
  }

  predicate Recyclable(lanes: seq<Lane>, l: Lane, now: int, maxAge: int, reserved: int) {
    Aged(l, now, maxAge) && HasStandby(lanes, l, reserved)
  }

  /** Ready, idle, open for at least that long, and covered by another ready lane on its side of the reservation. */
  ghost predicate MayRecycle(lanes: seq<Lane>, l: Lane, now: int, maxAge: int, reserved: int) {
    && l.ready && l.inFlight == 0 && 0 < l.openedAt <= now - maxAge
    && exists i :: 0 <= i < |lanes| && Covers(lanes[i], l, reserved)
  }

  ghost predicate Covers(other: Lane, l: Lane, reserved: int) {
    other.ready && other.id != l.id && (reserved == 0 || (other.id < reserved <==> l.id < reserved))
  }

  lemma RecyclableExactly(lanes: seq<Lane>, now: int, maxAge: int, reserved: int)
    ensures forall l :: Recyclable(lanes, l, now, maxAge, reserved) <==> MayRecycle(lanes, l, now, maxAge, reserved)
  {
    assert forall o: Lane, l: Lane :: Standby(o, l, reserved) <==> Covers(o, l, reserved);
    hide Standby, Covers;
  }

  /**
   * Recycles the oldest lane that is idle, old enough and covered by a ready standby of its own
   * partition; nothing exactly when no lane qualifies or recycling is off.
   */
  method SelectAgedLane(lanes: seq<Lane>, now: int, maxAge: int, reserved: int) returns (r: Option<Lane>)
    ensures r.None? <==> maxAge <= 0 || forall i :: 0 <= i < |lanes| ==> !MayRecycle(lanes, lanes[i], now, maxAge, reserved)
    ensures r.Some? ==> r.value in lanes && MayRecycle(lanes, r.value, now, maxAge, reserved)
    ensures r.Some? ==>
              forall i :: 0 <= i < |lanes| && MayRecycle(lanes, lanes[i], now, maxAge, reserved) ==>
                r.value.openedAt < lanes[i].openedAt || (r.value.openedAt == lanes[i].openedAt && r.value.id <= lanes[i].id)
  {
    hide MayRecycle;
    RecyclableExactly(lanes, now, maxAge, reserved);
    assert forall a: Lane, b: Lane ::
      !Older(a, b) <==> b.openedAt < a.openedAt || (b.openedAt == a.openedAt && b.id <= a.id);
    if maxAge <= 0 {
      return None;
    }
    hide HasStandby, Older;
    var aged := AgedByAge(lanes, now, maxAge);
    AgedOldestFirst(lanes, now, maxAge);
    forall i | 0 <= i < |lanes| && Aged(lanes[i], now, maxAge) ensures lanes[i] in aged {
      AgedMember(lanes, now, maxAge, lanes[i]);
    }
    forall k | 0 <= k < |aged| ensures aged[k] in lanes && Aged(aged[k], now, maxAge) {
      AgedMember(lanes, now, maxAge, aged[k]);
    }
    var k := 0;
    while k < |aged|
      invariant 0 <= k <= |aged|
      invariant forall j :: 0 <= j < k ==> !HasStandby(lanes, aged[j], reserved)
    {
      if HasStandby(lanes, aged[k], reserved) {
        OlderIsIrreflexive(aged[k]);
        return Some(aged[k]);
      }
      k := k + 1;
    }
    return None;
  }

  lemma OlderIsIrreflexive(l: Lane)
    ensures !Older(l, l)
  {
  }

  // ----- slowness -----

  predicate IsMeasured(l: Lane) {
    l.ready && l.sendRtt.Some?
  }

  function MeasuredLanes(lanes: seq<Lane>): (r: seq<Lane>)
    ensures forall i :: 0 <= i < |r| ==> IsMeasured(r[i])
  {
    if lanes == [] then []
    else (if IsMeasured(lanes[0]) then [lanes[0]] else []) + MeasuredLanes(lanes[1..])
  }

  function Rtt(l: Lane): real {
    l.sendRtt.GetOr(0.0)
  }

  /** The first of the fastest: later lanes replace it only when strictly faster. */
  function Fastest(s: seq<Lane>): (l: Lane)
    requires s != []
  {
    if |s| == 1 then s[0]
    else
      var front := Fastest(s[..|s| - 1]);
      if Rtt(s[|s| - 1]) < Rtt(front) then s[|s| - 1] else front
  }

  lemma {:induction false} FastestIsLeast(s: seq<Lane>) returns (at: nat)
    requires s != []
    ensures at < |s| && s[at] == Fastest(s)
    ensures forall i :: 0 <= i < |s| ==> Rtt(Fastest(s)) <= Rtt(s[i])
  {
    at := 0;
    if |s| > 1 {
      at := FastestIsLeast(s[..|s| - 1]);
      if Rtt(s[|s| - 1]) < Rtt(s[at]) {
        at := |s| - 1;
      }
      assert forall i :: 0 <= i < |s| - 1 ==> s[..|s| - 1][i] == s[i];
    }
  }

  /** The places of the ready lanes with a SEND result. */
  ghost function MeasuredPlaces(lanes: seq<Lane>): set<nat> {
    set i: nat | i < |lanes| && lanes[i].ready && lanes[i].sendRtt.Some?
  }

  /** No measured lane is faster, and none before it as fast. */
  ghost predicate IsFastest(lanes: seq<Lane>, i: nat) {
    && i in MeasuredPlaces(lanes)
    && forall j :: j in MeasuredPlaces(lanes) && j != i ==>
         lanes[i].sendRtt.value < lanes[j].sendRtt.value || (i < j && lanes[i].sendRtt.value == lanes[j].sendRtt.value)
  }

  lemma {:induction false} MeasuredAppend(a: seq<Lane>, l: Lane)
    ensures MeasuredLanes(a + [l]) == MeasuredLanes(a) + if IsMeasured(l) then [l] else []
  {
    if a != [] {
      assert (a + [l])[1..] == a[1..] + [l];
      MeasuredAppend(a[1..], l);
    }
  }

  /** One more lane adds its place, and itself, exactly if it is measured. */
  lemma PlacesGrow(lanes: seq<Lane>, n: nat)
    requires |lanes| == n + 1
    ensures MeasuredPlaces(lanes) == MeasuredPlaces(lanes[..n]) + if IsMeasured(lanes[n]) then {n} else {}
    ensures n !in MeasuredPlaces(lanes[..n])
  {
    var before := MeasuredPlaces(lanes[..n]) + if IsMeasured(lanes[n]) then {n} else {};
    forall i: nat ensures i in MeasuredPlaces(lanes) <==> i in before {
      assert i < n ==> lanes[..n][i] == lanes[i];
    }
  }

  lemma {:induction false} ListGrows(lanes: seq<Lane>, front: seq<Lane>, l: Lane)
    requires lanes == front + [l]
    ensures MeasuredLanes(lanes) == MeasuredLanes(front) + if IsMeasured(l) then [l] else []
  {
    MeasuredAppend(front, l);
    hide MeasuredLanes;
  }

  /** The list of measured lanes is those places. */
  lemma {:induction false} MeasuredExactly(lanes: seq<Lane>, x: Lane)
    ensures |MeasuredLanes(lanes)| == |MeasuredPlaces(lanes)|
    ensures x in MeasuredLanes(lanes) <==> x in lanes && x.ready && x.sendRtt.Some?
  {
    if lanes == [] {
      assert MeasuredPlaces(lanes) == {};
    } else {
      var n := |lanes| - 1;
      PlacesGrow(lanes, n);
      assert lanes == lanes[..n] + [lanes[n]];
      ListGrows(lanes, lanes[..n], lanes[n]);
      MeasuredExactly(lanes[..n], x);
      hide MeasuredLanes, MeasuredPlaces;
    }
  }

  /** ... and its first fastest is theirs. */
  lemma {:induction false} FastestExactly(lanes: seq<Lane>) returns (f: nat)
    requires MeasuredLanes(lanes) != []
    ensures IsFastest(lanes, f) && Fastest(MeasuredLanes(lanes)) == lanes[f]
  {
    hide MeasuredLanes, Fastest, MeasuredPlaces, IsFastest;
    NoneOfNone();
    var n := |lanes| - 1;
    var front, l := lanes[..n], lanes[n];
    assert lanes == front + [l];
    ListGrows(lanes, front, l);
    if MeasuredLanes(front) == [] {
      f := n;
      OnlyIsFastest(lanes, n);
      OnlyIsFirst(l);
      assert MeasuredLanes(lanes) == [l];
    } else {
      var g := FastestExactly(front);
      FastestInRange(front, g);
      f := if IsMeasured(l) && Rtt(l) < Rtt(lanes[g]) then n else g;
      FastestGrows(lanes, n, g, f);
      FastestStep(MeasuredLanes(front), l);
      AppendNothing(MeasuredLanes(front));
    }
  }

  lemma NoneOfNone()
    ensures MeasuredLanes([]) == []
  {
  }

  lemma OnlyIsFirst(l: Lane)
    ensures Fastest([l]) == l
  {
  }

  lemma FastestInRange(lanes: seq<Lane>, g: nat)
    requires IsFastest(lanes, g)
    ensures g < |lanes|
  {
  }

  lemma {:induction false} OnlyIsFastest(lanes: seq<Lane>, n: nat)
    requires |lanes| == n + 1 && MeasuredLanes(lanes[..n]) == [] && MeasuredLanes(lanes) != []
    ensures IsFastest(lanes, n) && IsMeasured(lanes[n])
  {
    assert lanes == lanes[..n] + [lanes[n]];
    ListGrows(lanes, lanes[..n], lanes[n]);
    PlacesGrow(lanes, n);
    MeasuredExactly(lanes[..n], lanes[n]);
    hide MeasuredLanes;
    assert MeasuredPlaces(lanes) == {n};
  }

  lemma {:induction false} FastestStep(s: seq<Lane>, l: Lane)
    requires s != []
    ensures Fastest(s + [l]) == if Rtt(l) < Rtt(Fastest(s)) then l else Fastest(s)
  {
    assert (s + [l])[..|s|] == s;
  }

  lemma FastestGrows(lanes: seq<Lane>, n: nat, g: nat, f: nat)
    requires |lanes| == n + 1 && IsFastest(lanes[..n], g) && g < n
    requires f == if IsMeasured(lanes[n]) && Rtt(lanes[n]) < Rtt(lanes[g]) then n else g
    ensures IsFastest(lanes, f)
  {
    PlacesGrow(lanes, n);
    assert forall i :: 0 <= i < n ==> lanes[..n][i] == lanes[i];
    forall j | j in MeasuredPlaces(lanes) && j != f
      ensures lanes[f].sendRtt.value < lanes[j].sendRtt.value || (f < j && lanes[f].sendRtt.value == lanes[j].sendRtt.value)
    {
      assert j == n || j in MeasuredPlaces(lanes[..n]);
    }
  }

  lemma FastestIsUnique(lanes: seq<Lane>, i: nat, j: nat)
    requires IsFastest(lanes, i) && IsFastest(lanes, j)
    ensures i == j
  {
  }

  /** Degraded, idle, and not the pool's fastest. */
  predicate Repairable(l: Lane, fastest: Lane) {
    l.id != fastest.id && l.degraded && l.inFlight == 0
  }

  /** The first loop: the fastest measured lane. */
  method FindFastest(measured: seq<Lane>) returns (fastest: Lane)
    requires measured != []
    ensures fastest == Fastest(measured)
  {
    fastest := measured[0];
    for i := 1 to |measured|
      invariant fastest == Fastest(measured[..i])
    {
      assert measured[..i + 1][..i] == measured[..i];
      if Rtt(measured[i]) < Rtt(fastest) {
        fastest := measured[i];
      }
    }
    assert measured[..|measured|] == measured;
  }

  /** The second loop: the slowest lane that may be repaired. */
  method FindWorst(measured: seq<Lane>, fastest: Lane) returns (worst: Option<Lane>)
    ensures worst.None? <==> forall i :: 0 <= i < |measured| ==> !Repairable(measured[i], fastest)
    ensures worst.Some? ==> worst.value in measured && Repairable(worst.value, fastest)
    ensures worst.Some? ==>
              forall i :: 0 <= i < |measured| && Repairable(measured[i], fastest) ==> Rtt(measured[i]) <= Rtt(worst.value)
  {
    worst := None;
    for i := 0 to |measured|
      invariant worst.Some? ==> worst.value in measured && Repairable(worst.value, fastest)
      invariant worst.None? ==> forall j :: 0 <= j < i ==> !Repairable(measured[j], fastest)
      invariant worst.Some? ==>
                  forall j :: 0 <= j < i && Repairable(measured[j], fastest) ==> Rtt(measured[j]) <= Rtt(worst.value)
    {
      if Repairable(measured[i], fastest) && (worst.None? || Rtt(measured[i]) > Rtt(worst.value)) {
        worst := Some(measured[i]);
      }
    }
  }

  /** Measured, flagged, idle, and another lane than the fastest. */
  ghost predicate MayRepair(lanes: seq<Lane>, i: nat, f: nat) {
    && i in MeasuredPlaces(lanes) && f < |lanes|
    && lanes[i].degraded && lanes[i].inFlight == 0 && lanes[i].id != lanes[f].id
  }

  lemma {:induction false} RepairableExactly(lanes: seq<Lane>, f: nat)
    requires MeasuredLanes(lanes) != [] && IsFastest(lanes, f) && Fastest(MeasuredLanes(lanes)) == lanes[f]
    ensures forall i :: i in MeasuredPlaces(lanes) ==>
              lanes[i] in MeasuredLanes(lanes) && (Repairable(lanes[i], lanes[f]) <==> MayRepair(lanes, i, f))
    ensures forall x :: x in MeasuredLanes(lanes) ==> exists i :: i in MeasuredPlaces(lanes) && lanes[i] == x
  {
    forall x ensures x in MeasuredLanes(lanes) <==> x in lanes && x.ready && x.sendRtt.Some? {
      MeasuredExactly(lanes, x);
    }
    hide MeasuredLanes;
    forall x | x in MeasuredLanes(lanes) ensures exists i :: i in MeasuredPlaces(lanes) && lanes[i] == x {
      var i :| 0 <= i < |lanes| && lanes[i] == x;
      assert i in MeasuredPlaces(lanes);
    }
  }

  /**
   * Repairs the slowest degraded idle lane and never the fastest, so a measured lane no slower than the one
   * replaced is always left standing; nothing exactly when too few are measured or none qualifies.
   */
  method SelectDegradedLane(lanes: seq<Lane>, minMeasured: nat) returns (r: Option<Lane>)
    requires minMeasured >= 1
    ensures r.None? <==> |MeasuredPlaces(lanes)| < minMeasured
                         || forall i: nat, f: nat :: IsFastest(lanes, f) ==> !MayRepair(lanes, i, f)
    ensures r.Some? ==> exists i: nat, f: nat :: IsFastest(lanes, f) && MayRepair(lanes, i, f) && r.value == lanes[i]
    ensures r.Some? ==> r.value.sendRtt.Some?
                        && forall j: nat, f: nat :: IsFastest(lanes, f) && MayRepair(lanes, j, f) ==>
                             lanes[f].sendRtt.value <= lanes[j].sendRtt.value <= r.value.sendRtt.value
  {
    hide MeasuredLanes, Fastest, MeasuredPlaces;
    ghost var any: Lane := Lane(0, false, 0, 0, None, false);
    MeasuredExactly(lanes, any);
    var measured := MeasuredLanes(lanes);
    if |measured| < minMeasured {
      return None;
    }
    ghost var f := FastestExactly(lanes);
    RepairableExactly(lanes, f);
    var fastest := FindFastest(measured);
    r := FindWorst(measured, fastest);
    RepairMeans(lanes, f, r);
  }

  lemma FastestIsLeastOf(lanes: seq<Lane>, f: nat, j: nat)
    requires IsFastest(lanes, f) && j in MeasuredPlaces(lanes)
    ensures f < |lanes| && j < |lanes| && lanes[f].sendRtt.Some? && lanes[j].sendRtt.Some?
    ensures lanes[f].sendRtt.value <= lanes[j].sendRtt.value
    ensures Rtt(lanes[j]) == lanes[j].sendRtt.value
  {
  }

  /** The search over the list of measured lanes, read as one over their places. */
  lemma {:induction false} RepairMeans(lanes: seq<Lane>, f: nat, r: Option<Lane>)
    requires MeasuredLanes(lanes) != [] && IsFastest(lanes, f) && Fastest(MeasuredLanes(lanes)) == lanes[f]
    requires var measured := MeasuredLanes(lanes);
             && (r.None? <==> forall i :: 0 <= i < |measured| ==> !Repairable(measured[i], lanes[f]))
             && (r.Some? ==> r.value in measured && Repairable(r.value, lanes[f]))
             && (r.Some? ==>
                   forall i :: 0 <= i < |measured| && Repairable(measured[i], lanes[f]) ==> Rtt(measured[i]) <= Rtt(r.value))
    ensures r.None? <==> forall i: nat, g: nat :: IsFastest(lanes, g) ==> !MayRepair(lanes, i, g)
    ensures r.Some? ==> exists i: nat, g: nat :: IsFastest(lanes, g) && MayRepair(lanes, i, g) && r.value == lanes[i]
    ensures r.Some? ==> r.value.sendRtt.Some?
                        && forall j: nat, g: nat :: IsFastest(lanes, g) && MayRepair(lanes, j, g) ==>
                             lanes[g].sendRtt.value <= lanes[j].sendRtt.value <= r.value.sendRtt.value
  {
    RepairableExactly(lanes, f);
    forall g: nat | IsFastest(lanes, g) ensures g == f {
      FastestIsUnique(lanes, f, g);
    }
    forall i | i in MeasuredPlaces(lanes)
      ensures f < |lanes| && i < |lanes| && lanes[f].sendRtt.Some? && lanes[i].sendRtt.Some?
      ensures lanes[f].sendRtt.value <= lanes[i].sendRtt.value && Rtt(lanes[i]) == lanes[i].sendRtt.value
    {
      FastestIsLeastOf(lanes, f, i);
    }
    forall i: nat | MayRepair(lanes, i, f) ensures i in MeasuredPlaces(lanes) {
    }
    hide *;
    var measured := MeasuredLanes(lanes);
    if r.Some? {
      var i: nat :| i in MeasuredPlaces(lanes) && lanes[i] == r.value;
      assert MayRepair(lanes, i, f);
      forall j: nat | MayRepair(lanes, j, f)
        ensures lanes[f].sendRtt.value <= lanes[j].sendRtt.value <= r.value.sendRtt.value
      {
        ListedRepair(measured, lanes[j], lanes[f], r.value);
      }
    }
    forall i: nat | MayRepair(lanes, i, f) ensures exists k :: 0 <= k < |measured| && Repairable(measured[k], lanes[f]) {
      assert lanes[i] in measured;
      var k :| 0 <= k < |measured| && measured[k] == lanes[i];
      assert Repairable(measured[k], lanes[f]);
    }
  }

  lemma ListedRepair(measured: seq<Lane>, x: Lane, fastest: Lane, worst: Lane)
    requires x in measured && Repairable(x, fastest)
    requires forall i :: 0 <= i < |measured| && Repairable(measured[i], fastest) ==> Rtt(measured[i]) <= Rtt(worst)
    ensures Rtt(x) <= Rtt(worst)
  {
    hide Repairable, Rtt;
  }
}
