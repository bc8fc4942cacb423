/** Which ready lane carries the next SEND, and which idle lane may be replaced. */
module LaneSelection {
  import opened Prelude
  import opened LaneScore
  import LaneRotation
  import LaneAddress

  const SWITCH_MARGIN_MS := 0.1
  const PIN_ENTER_MS := 21.0
  const PIN_EXIT_MS := 23.0
  const MAX_PINS: nat := 2048

  ghost predicate DistinctLanes(lanes: seq<Lane>) {
    forall i, j :: 0 <= i < j < |lanes| ==> lanes[i].id != lanes[j].id
  }

  // ----- candidates -----

  /** Not cooling for this bot; without a route key, not cooling at all. */
  predicate OffCooldown(l: Lane, q: Query) {
    if q.Routed() then
      var p := FreshProfile(l, q);
      p.None? || p.value.slowUntil <= q.now
    else l.sendSlowUntil <= q.now
  }

  function Available(q: Query): Lane -> bool { (l: Lane) => OffCooldown(l, q) }

  function Cool(now: int): Lane -> bool { (l: Lane) => l.sendSlowUntil <= now }

  function Reserved(reserved: int): Lane -> bool { (l: Lane) => l.id < reserved }

  /** An empty selection widens back to everything: a preference never fails a send. */
  function FailOpen(preferred: seq<Lane>, all: seq<Lane>): seq<Lane> {
    if preferred != [] then preferred else all
  }

  /** Off cooldown for this bot, else for anybody, else all. */
  function AvailableLanes(usable: seq<Lane>, q: Query): seq<Lane> {
    var offCooldown := Filter(usable, Available(q));
    if offCooldown != [] then offCooldown else FailOpen(Filter(usable, Cool(q.now)), usable)
  }

  /** `fastestSendCandidates` over the usable lanes. */
  function SendCandidates(usable: seq<Lane>, q: Query, reserved: int): seq<Lane> {
    var available := AvailableLanes(usable, q);
    if AnyMeasured(available) || reserved == 0 then available
    else FailOpen(Filter(available, Reserved(reserved)), available)
  }

  // ----- the tie window -----

  function ScoreOf(l: Lane, all: seq<Lane>, q: Query): Score {
    SendLaneScore(l, all, q)
  }

  function Best(lanes: seq<Lane>, all: seq<Lane>, q: Query): Score
    requires lanes != []
  {
    if |lanes| == 1 then ScoreOf(lanes[0], all, q)
    else
      var rest := Best(lanes[1..], all, q);
      if Faster(rest, ScoreOf(lanes[0], all, q)) then rest else ScoreOf(lanes[0], all, q)
  }

  lemma {:induction false} BestIsLeast(lanes: seq<Lane>, all: seq<Lane>, q: Query) returns (at: nat)
    requires lanes != []
    ensures at < |lanes| && ScoreOf(lanes[at], all, q) == Best(lanes, all, q)
    ensures forall i :: 0 <= i < |lanes| ==> !Faster(ScoreOf(lanes[i], all, q), Best(lanes, all, q))
  {
    hide ScoreOf;
    at := 0;
    if |lanes| > 1 {
      var tail := BestIsLeast(lanes[1..], all, q);
      at := if Faster(Best(lanes[1..], all, q), ScoreOf(lanes[0], all, q)) then tail + 1 else 0;
      assert forall i :: 0 < i < |lanes| ==> lanes[i] == lanes[1..][i - 1];
    }
  }

  /** Within the switch margin of the best; everything ties with an unknown best. */
  predicate Within(s: Score, best: Score) {
    best.Infinite? || (s.Finite? && s.ms <= best.ms + SWITCH_MARGIN_MS)
  }

  /** Fastest first, then least loaded, then lowest id. */
  predicate Ahead(a: Lane, b: Lane, all: seq<Lane>, q: Query) {
    var sa, sb := ScoreOf(a, all, q), ScoreOf(b, all, q);
    Faster(sa, sb)
    || (sa == sb && (a.inFlight < b.inFlight || (a.inFlight == b.inFlight && a.id < b.id)))
  }

  function Insert(l: Lane, s: seq<Lane>, all: seq<Lane>, q: Query): (r: seq<Lane>)
    ensures |r| == |s| + 1
  {
    if s == [] || Ahead(l, s[0], all, q) then [l] + s else [s[0]] + Insert(l, s[1..], all, q)
  }

  function TiedFrom(lanes: seq<Lane>, best: Score, all: seq<Lane>, q: Query): seq<Lane> {
    if lanes == [] then []
    else
      var rest := TiedFrom(lanes[1..], best, all, q);
      if Within(ScoreOf(lanes[0], all, q), best) then Insert(lanes[0], rest, all, q) else rest
  }

  function Tied(candidates: seq<Lane>, q: Query): seq<Lane> {
    if candidates == [] then [] else TiedFrom(candidates, Best(candidates, candidates, q), candidates, q)
  }

  lemma {:induction false} InsertMember(l: Lane, s: seq<Lane>, all: seq<Lane>, q: Query, x: Lane)
    ensures x in Insert(l, s, all, q) <==> x == l || x in s
  {
    hide Ahead;
    if s != [] && !Ahead(l, s[0], all, q) {
      InsertMember(l, s[1..], all, q, x);
      assert s == [s[0]] + s[1..];
    }
  }

  lemma {:induction false} TiedFromMember(lanes: seq<Lane>, best: Score, all: seq<Lane>, q: Query, x: Lane)
    ensures x in TiedFrom(lanes, best, all, q) <==> x in lanes && Within(ScoreOf(x, all, q), best)
  {
    hide Within, ScoreOf, Insert;
    if lanes != [] {
      var rest := TiedFrom(lanes[1..], best, all, q);
      TiedFromMember(lanes[1..], best, all, q, x);
      InsertMember(lanes[0], rest, all, q, x);
      assert lanes == [lanes[0]] + lanes[1..];
    }
  }

  lemma AheadIsStrict(a: Lane, b: Lane, c: Lane, all: seq<Lane>, q: Query)
    ensures !(Ahead(a, b, all, q) && Ahead(b, a, all, q))
    ensures Ahead(a, b, all, q) && Ahead(b, c, all, q) ==> Ahead(a, c, all, q)
    ensures a.id != b.id ==> Ahead(a, b, all, q) || Ahead(b, a, all, q)
  {
    hide ScoreOf;
  }

  ghost predicate InOrder(s: seq<Lane>, all: seq<Lane>, q: Query) {
    forall i, j :: 0 <= i < j < |s| ==> Ahead(s[i], s[j], all, q)
  }

  lemma {:induction false} InsertInOrder(l: Lane, s: seq<Lane>, all: seq<Lane>, q: Query)
    requires InOrder(s, all, q) && forall i :: 0 <= i < |s| ==> s[i].id != l.id
    ensures InOrder(Insert(l, s, all, q), all, q)
  {
    hide Ahead;
    if s == [] {
    } else if Ahead(l, s[0], all, q) {
      forall i | 0 < i < |s| ensures Ahead(l, s[i], all, q) {
        AheadIsStrict(l, s[0], s[i], all, q);
      }
    } else {
      AheadIsStrict(l, s[0], s[0], all, q);
      InsertInOrder(l, s[1..], all, q);
      var t := Insert(l, s[1..], all, q);
      forall i | 0 <= i < |t| ensures Ahead(s[0], t[i], all, q) {
        InsertMember(l, s[1..], all, q, t[i]);
        if t[i] != l {
          var j :| 0 <= j < |s[1..]| && s[1..][j] == t[i];
          assert s[j + 1] == t[i];
        }
      }
    }
  }

  lemma NothingInOrder(all: seq<Lane>, q: Query)
    ensures InOrder([], all, q)
  {
  }

  lemma {:induction false} TiedFromInOrder(lanes: seq<Lane>, best: Score, all: seq<Lane>, q: Query)
    requires DistinctLanes(lanes)
    ensures InOrder(TiedFrom(lanes, best, all, q), all, q)
  {
    hide Within, ScoreOf, Insert, InOrder;
    NothingInOrder(all, q);
    if lanes != [] {
      var rest := TiedFrom(lanes[1..], best, all, q);
      TiedFromInOrder(lanes[1..], best, all, q);
      forall i | 0 <= i < |rest| ensures rest[i].id != lanes[0].id {
        TiedFromMember(lanes[1..], best, all, q, rest[i]);
        var j :| 0 <= j < |lanes[1..]| && lanes[1..][j] == rest[i];
        assert lanes[j + 1] == rest[i];
      }
      InsertInOrder(lanes[0], rest, all, q);
    }
  }

  /**
   * The tie set: exactly the candidates within the margin of the best, each once, fastest first.
   */
  lemma TiedIsTheWindow(candidates: seq<Lane>, q: Query, x: Lane)
    requires DistinctLanes(candidates) && candidates != []
    ensures Tied(candidates, q) != [] && InOrder(Tied(candidates, q), candidates, q)
    ensures x in Tied(candidates, q)
            <==> x in candidates
                 && forall i :: 0 <= i < |candidates| ==> Within(ScoreOf(x, candidates, q), ScoreOf(candidates[i], candidates, q))
  {
    var best := Best(candidates, candidates, q);
    TiedFromMember(candidates, best, candidates, q, x);
    TiedFromInOrder(candidates, best, candidates, q);
    var i := BestIsLeast(candidates, candidates, q);
    TiedFromMember(candidates, best, candidates, q, candidates[i]);
    hide ScoreOf, InOrder, TiedFrom, Best;
  }

  // ----- selection -----

  predicate Holds(s: Score) {
    s.Finite? && s.ms < PIN_EXIT_MS
  }

  predicate QualifiesForPin(s: Score) {
    s.Finite? && s.ms < PIN_ENTER_MS
  }

  function FindLane(lanes: seq<Lane>, id: int): (r: Option<Lane>)
    ensures r.Some? ==> r.value in lanes && r.value.id == id
    ensures r.None? ==> forall i :: 0 <= i < |lanes| ==> lanes[i].id != id
  {
    if lanes == [] then None
    else if lanes[0].id == id then Some(lanes[0])
    else FindLane(lanes[1..], id)
  }

  type Cursors = map<string, nat>

  function CursorKey(q: Query): string {
    q.route.GetOr("shared")
  }

  function CursorAt(cursors: Cursors, q: Query): nat {
    if CursorKey(q) in cursors then cursors[CursorKey(q)] else 0
  }

  /** The pinned lane, if it is in the tie and still fast enough to hold. */
  function PinHeld(candidates: seq<Lane>, preferred: Option<int>, q: Query): Option<Lane> {
    if preferred.None? then None
    else
      var pinned := FindLane(Tied(candidates, q), preferred.value);
      if pinned.Some? && Holds(ScoreOf(pinned.value, candidates, q)) then pinned else None
  }

  /** `selectFastestSendLaneCandidate`: the chosen lane and the cursors afterwards. */
  function Select(candidates: seq<Lane>, preferred: Option<int>, q: Query, cursors: Cursors): (Option<Lane>, Cursors) {
    var tied := Tied(candidates, q);
    if tied == [] then (None, cursors)
    else if |tied| == 1 then (Some(tied[0]), cursors)
    else if PinHeld(candidates, preferred, q).Some? then (PinHeld(candidates, preferred, q), cursors)
    else (Some(tied[CursorAt(cursors, q) % |tied|]), cursors[CursorKey(q) := CursorAt(cursors, q) + 1])
  }

  lemma SelectedIsTied(candidates: seq<Lane>, preferred: Option<int>, q: Query, cursors: Cursors)
    requires candidates != [] && DistinctLanes(candidates)
    ensures Select(candidates, preferred, q, cursors).0.Some?
    ensures Select(candidates, preferred, q, cursors).0.value in Tied(candidates, q)
  {
    TiedIsTheWindow(candidates, q, candidates[0]);
    hide Tied, ScoreOf;
  }

  /** Narrowing that may fall back to everything. */
  ghost predicate Narrows(some: seq<Lane>, all: seq<Lane>) {
    && (all != [] ==> some != [])
    && (forall l :: l in some ==> l in all)
    && (DistinctLanes(all) ==> DistinctLanes(some))
  }

  lemma {:induction false} FailOpenNarrows(all: seq<Lane>, keep: Lane -> bool)
    ensures Narrows(FailOpen(Filter(all, keep), all), all)
  {
    FilterDistinct(all, keep);
    hide DistinctLanes;
  }

  lemma CandidatesNarrow(usable: seq<Lane>, q: Query, reserved: int)
    ensures Narrows(SendCandidates(usable, q, reserved), usable)
  {
    FailOpenNarrows(usable, Available(q));
    FailOpenNarrows(usable, Cool(q.now));
    var offCooldown := Filter(usable, Available(q));
    var available := if offCooldown != [] then offCooldown else FailOpen(Filter(usable, Cool(q.now)), usable);
    hide Filter, DistinctLanes, AnyMeasured;
    assert Narrows(available, usable);
    FailOpenNarrows(available, Reserved(reserved));
  }

  /** Held back for this bot by its own fresh results on the lane; without a bot, by the lane's. */
  ghost predicate Cooling(l: Lane, q: Query) {
    if q.route.Some? && q.route.value != "" then exists p :: OwnProfile(l, q, p) && p.slowUntil > q.now
    else l.sendSlowUntil > q.now
  }

  lemma CoolingExactly(l: Lane, q: Query)
    requires DistinctKeys(l.profiles)
    ensures OffCooldown(l, q) <==> !Cooling(l, q)
  {
    hide FindProfile;
    if q.Routed() {
      var own := FreshProfile(l, q);
      if own.Some? {
        FreshIsOwn(l, q, own.value);
      }
      forall p | OwnProfile(l, q, p) ensures own == Some(p) {
        FreshIsOwn(l, q, p);
      }
      hide FreshProfile, OwnProfile;
    }
  }

  /** Not held back for this bot; if all are, not held back at all; if all are, any. */
  ghost predicate Eligible(l: Lane, usable: seq<Lane>, q: Query) {
    && l in usable
    && (AllCooling(usable, q) || !Cooling(l, q))
    && (AllCooling(usable, q) ==> AllSlow(usable, q.now) || l.sendSlowUntil <= q.now)
  }

  ghost predicate AllCooling(usable: seq<Lane>, q: Query) {
    forall i :: 0 <= i < |usable| ==> Cooling(usable[i], q)
  }

  ghost predicate AllSlow(usable: seq<Lane>, now: int) {
    forall i :: 0 <= i < |usable| ==> usable[i].sendSlowUntil > now
  }

  /**
   * Who competes: the eligible lanes; while none of them has a result, only those the reservation keeps for
   * sends, if there are such.
   */
  lemma CandidatesExactly(usable: seq<Lane>, q: Query, reserved: int, x: Lane)
    requires forall i :: 0 <= i < |usable| ==> DistinctKeys(usable[i].profiles)
    ensures x in SendCandidates(usable, q, reserved)
       <==> && Eligible(x, usable, q)
            && (|| reserved == 0
                || (exists y :: Eligible(y, usable, q) && y.sendRtt.Some?)
                || (forall y :: Eligible(y, usable, q) ==> y.id >= reserved)
                || x.id < reserved)
  {
    hide OffCooldown, Cooling, AnyMeasured, Filter;
    forall i | 0 <= i < |usable| ensures OffCooldown(usable[i], q) <==> !Cooling(usable[i], q) {
      CoolingExactly(usable[i], q);
    }
    var available := AvailableLanes(usable, q);
    forall y ensures y in available <==> Eligible(y, usable, q) {
      AvailableExactly(usable, q, y);
    }
    assert SendCandidates(usable, q, reserved)
        == if AnyMeasured(available) || reserved == 0 then available
           else FailOpen(Filter(available, Reserved(reserved)), available);
    hide Eligible, AvailableLanes, SendCandidates;
    MeasuredMember(available);
    FailOpenMember(available, Reserved(reserved), x);
  }

  lemma AvailableExactly(usable: seq<Lane>, q: Query, y: Lane)
    requires forall i :: 0 <= i < |usable| ==> (OffCooldown(usable[i], q) <==> !Cooling(usable[i], q))
    ensures y in AvailableLanes(usable, q) <==> Eligible(y, usable, q)
  {
    hide OffCooldown, Cooling, Filter;
    EmptyFilter(usable, Available(q));
    EmptyFilter(usable, Cool(q.now));
  }

  /** A filter is empty exactly when nothing passes it. */
  lemma {:induction false} EmptyFilter(lanes: seq<Lane>, keep: Lane -> bool)
    ensures Filter(lanes, keep) == [] <==> forall i :: 0 <= i < |lanes| ==> !keep(lanes[i])
  {
    var kept := Filter(lanes, keep);
    if i :| 0 <= i < |lanes| && keep(lanes[i]) {
      assert lanes[i] in kept;
    }
    if kept != [] {
      assert kept[0] in kept;
    }
    hide Filter;
  }

  lemma {:induction false} FailOpenMember(lanes: seq<Lane>, keep: Lane -> bool, x: Lane)
    ensures x in FailOpen(Filter(lanes, keep), lanes)
       <==> x in lanes && (keep(x) || forall y :: y in lanes ==> !keep(y))
  {
    EmptyFilter(lanes, keep);
    hide Filter;
  }

  lemma MeasuredMember(lanes: seq<Lane>)
    ensures AnyMeasured(lanes) <==> exists y :: y in lanes && y.sendRtt.Some?
  {
  }

  /** While nothing is cooling and somebody is measured, every usable lane competes. */
  lemma NobodyCoolingAllCompete(usable: seq<Lane>, q: Query, reserved: int)
    requires AnyMeasured(usable) && forall i :: 0 <= i < |usable| ==> OffCooldown(usable[i], q)
    ensures SendCandidates(usable, q, reserved) == usable
  {
    FilterAll(usable, Available(q));
    hide OffCooldown, Filter;
  }

  lemma {:induction false} FilterDistinct(lanes: seq<Lane>, keep: Lane -> bool)
    ensures DistinctLanes(lanes) ==> DistinctLanes(Filter(lanes, keep))
  {
    if lanes != [] && DistinctLanes(lanes) {
      FilterDistinct(lanes[1..], keep);
      var rest := Filter(lanes[1..], keep);
      forall i | 0 <= i < |rest| ensures rest[i].id != lanes[0].id {
        assert rest[i] in rest;
        var j :| 0 <= j < |lanes[1..]| && lanes[1..][j] == rest[i];
        assert lanes[j + 1] == rest[i];
      }
    }
  }

  lemma {:induction false} FilterAll(lanes: seq<Lane>, keep: Lane -> bool)
    ensures (forall i :: 0 <= i < |lanes| ==> keep(lanes[i])) ==> Filter(lanes, keep) == lanes
  {
    if lanes != [] {
      FilterAll(lanes[1..], keep);
    }
  }

  /**
   * Lane choice is total and near-optimal: whenever any lane is usable one is chosen, it is a usable lane,
   * and no surviving candidate is faster than it by more than the switch margin.
   */
  lemma SelectionIsNearOptimal(usable: seq<Lane>, q: Query, reserved: int, preferred: Option<int>, cursors: Cursors)
    requires usable != [] && DistinctLanes(usable)
    ensures var candidates := SendCandidates(usable, q, reserved);
            var chosen := Select(candidates, preferred, q, cursors).0;
            && chosen.Some? && chosen.value in usable
            && forall i :: 0 <= i < |candidates| ==>
                 Within(ScoreOf(chosen.value, candidates, q), ScoreOf(candidates[i], candidates, q))
  {
    CandidatesNarrow(usable, q, reserved);
    var candidates := SendCandidates(usable, q, reserved);
    hide SendCandidates, Select, Tied, ScoreOf;
    SelectedIsTied(candidates, preferred, q, cursors);
    TiedIsTheWindow(candidates, q, Select(candidates, preferred, q, cursors).0.value);
  }

  lemma MeasuredIsFinite(l: Lane, all: seq<Lane>, q: Query)
    requires Measured(l) && AnyMeasured(all)
    ensures ScoreOf(l, all, q).Finite? <==> l.sendRtt.Some?
  {
    hide Completion;
  }

  /** A lane with no SEND result never carries a send while a measured candidate is there. */
  lemma UnmeasuredNeverBeatsMeasured(candidates: seq<Lane>, preferred: Option<int>, q: Query, cursors: Cursors)
    requires DistinctLanes(candidates) && AnyMeasured(candidates)
    requires forall i :: 0 <= i < |candidates| ==> Measured(candidates[i])
    ensures Select(candidates, preferred, q, cursors).0.Some?
    ensures Select(candidates, preferred, q, cursors).0.value.sendRtt.Some?
  {
    var m :| 0 <= m < |candidates| && candidates[m].sendRtt.Some?;
    MeasuredIsFinite(candidates[m], candidates, q);
    SelectedIsTied(candidates, preferred, q, cursors);
    var chosen := Select(candidates, preferred, q, cursors).0.value;
    TiedIsTheWindow(candidates, q, chosen);
    MeasuredIsFinite(chosen, candidates, q);
  }

  /** By the results the lanes are judged by, none is expected to beat this one by more than the margin. */
  ghost predicate NoFasterLane(chosen: Lane, candidates: seq<Lane>, q: Query) {
    forall i, ms :: 0 <= i < |candidates| && Expected(candidates[i], q, ms) ==>
      exists mine :: Expected(chosen, q, mine) && mine <= ms + 0.1
  }

  lemma NearOptimalByResults(candidates: seq<Lane>, chosen: Lane, q: Query)
    requires Measured(chosen) && forall i :: 0 <= i < |candidates| ==> Measured(candidates[i])
    requires chosen in candidates
    requires forall i :: 0 <= i < |candidates| ==> Within(ScoreOf(chosen, candidates, q), ScoreOf(candidates[i], candidates, q))
    ensures NoFasterLane(chosen, candidates, q)
  {
    hide Measured, Expected, SendLaneScore;
    forall i, ms | 0 <= i < |candidates| && Expected(candidates[i], q, ms)
      ensures exists mine :: Expected(chosen, q, mine) && mine <= ms + 0.1
    {
      ExpectedIsScore(candidates[i], candidates, q, ms);
      var mine := ScoreOf(chosen, candidates, q).ms;
      ExpectedMeansMeasured(candidates[i], q, ms);
      MeasuredIsFinite(chosen, candidates, q);
      ScoreIsExpected(chosen, candidates, q);
      assert Expected(chosen, q, mine);
    }
  }

  lemma ExpectedMeansMeasured(l: Lane, q: Query, ms: real)
    requires Measured(l) && Expected(l, q, ms)
    ensures l.sendRtt.Some?
  {
    hide FullWaves;
  }

  /**
   * Whenever lanes are usable one of them is chosen, and by the asking bot's own fresh results, or the lane's
   * where it has none, no candidate is expected to be faster by more than the margin.
   */
  lemma ChosenIsFastest(usable: seq<Lane>, q: Query, reserved: int, preferred: Option<int>, cursors: Cursors)
    requires usable != [] && DistinctLanes(usable) && forall i :: 0 <= i < |usable| ==> Measured(usable[i])
    ensures var candidates := SendCandidates(usable, q, reserved);
            var chosen := Select(candidates, preferred, q, cursors).0;
            && chosen.Some? && chosen.value in candidates && chosen.value in usable
            && NoFasterLane(chosen.value, candidates, q)
  {
    hide *;
    CandidatesNarrow(usable, q, reserved);
    var candidates := SendCandidates(usable, q, reserved);
    NarrowedMeasured(candidates, usable);
    SelectionIsNearOptimal(usable, q, reserved, preferred, cursors);
    SelectedIsCandidate(candidates, preferred, q, cursors);
    var chosen := Select(candidates, preferred, q, cursors).0.value;
    NearOptimalByResults(candidates, chosen, q);
  }

  lemma SelectedIsCandidate(candidates: seq<Lane>, preferred: Option<int>, q: Query, cursors: Cursors)
    requires candidates != [] && DistinctLanes(candidates)
    ensures var chosen := Select(candidates, preferred, q, cursors).0; chosen.Some? && chosen.value in candidates
  {
    hide Select, Tied, ScoreOf;
    SelectedIsTied(candidates, preferred, q, cursors);
    TiedIsTheWindow(candidates, q, Select(candidates, preferred, q, cursors).0.value);
  }

  lemma NarrowedMeasured(some: seq<Lane>, all: seq<Lane>)
    requires Narrows(some, all) && all != [] && DistinctLanes(all) && forall i :: 0 <= i < |all| ==> Measured(all[i])
    ensures some != [] && DistinctLanes(some) && forall l :: l in some ==> Measured(l)
  {
    hide Measured, DistinctLanes;
  }

  // ----- rotation -----

  /** The lanes chosen by `calls` in a row, each finding the cursor `skew` further than the last left it. */
  function Picks(calls: seq<(seq<Lane>, int)>, route: Option<string>, skew: nat, cursors: Cursors): seq<int>
    decreases |calls|
  {
    if calls == [] then []
    else
      var q := Query(route, calls[0].1);
      var chosen := Select(calls[0].0, None, q, cursors).0;
      [if chosen.Some? then chosen.value.id else -1] + Picks(calls[1..], route, skew, After(calls[0].0, q, skew, cursors))
  }

  /** The same lanes tie, in the same order, at every call. */
  ghost predicate SameTies(calls: seq<(seq<Lane>, int)>, route: Option<string>, ids: seq<int>) {
    forall c :: 0 <= c < |calls| ==> TiesAre(calls[c].0, Query(route, calls[c].1), ids)
  }

  ghost predicate TiesAre(candidates: seq<Lane>, q: Query, ids: seq<int>) {
    |Tied(candidates, q)| == |ids| && forall i :: 0 <= i < |ids| ==> Tied(candidates, q)[i].id == ids[i]
  }

  /** Where the cursors stand once `skew` more selections have followed this one. */
  function After(candidates: seq<Lane>, q: Query, skew: nat, cursors: Cursors): Cursors {
    var after := Select(candidates, None, q, cursors).1;
    after[CursorKey(q) := CursorAt(after, q) + skew]
  }

  /** One unpinned pick over a tie takes the cursor's lane and moves the cursor on. */
  lemma OnePick(candidates: seq<Lane>, q: Query, skew: nat, cursors: Cursors, ids: seq<int>)
    requires |ids| > 1 && TiesAre(candidates, q, ids)
    ensures Select(candidates, None, q, cursors).0.Some?
    ensures Select(candidates, None, q, cursors).0.value.id == ids[LaneRotation.Turn(|ids|, CursorAt(cursors, q), 1 + skew, 0)]
    ensures CursorAt(After(candidates, q, skew, cursors), q) == CursorAt(cursors, q) + 1 + skew
  {
    hide Tied;
    assert (1 + skew) * 0 == 0;
  }

  lemma ShiftTurn(k: nat, start: nat, stride: nat, i: int)
    requires k > 0
    ensures LaneRotation.Turn(k, start, stride, i) == LaneRotation.Turn(k, start + stride, stride, i - 1)
  {
    assert start + stride * i == start + stride + stride * (i - 1);
  }

  ghost predicate FollowTurns(picks: seq<int>, ids: seq<int>, start: nat, stride: nat)
    requires ids != []
  {
    forall i :: 0 <= i < |picks| ==> picks[i] == ids[LaneRotation.Turn(|ids|, start, stride, i)]
  }

  lemma ConsTurns(picks: seq<int>, ids: seq<int>, start: nat, stride: nat)
    requires picks != [] && ids != [] && picks[0] == ids[LaneRotation.Turn(|ids|, start, stride, 0)]
    requires FollowTurns(picks[1..], ids, start + stride, stride)
    ensures FollowTurns(picks, ids, start, stride)
  {
    forall i | 0 < i < |picks| ensures picks[i] == ids[LaneRotation.Turn(|ids|, start, stride, i)] {
      ShiftTurn(|ids|, start, stride, i);
      assert picks[1..][i - 1] == picks[i];
      hide LaneRotation.Turn;
    }
  }

  lemma TailTies(calls: seq<(seq<Lane>, int)>, route: Option<string>, ids: seq<int>)
    requires calls != [] && SameTies(calls, route, ids)
    ensures SameTies(calls[1..], route, ids) && TiesAre(calls[0].0, Query(route, calls[0].1), ids)
  {
    hide TiesAre;
  }

  lemma CursorIgnoresTime(cursors: Cursors, route: Option<string>, a: int, b: int)
    ensures CursorAt(cursors, Query(route, a)) == CursorAt(cursors, Query(route, b))
  {
  }

  lemma {:induction false} FirstPick(calls: seq<(seq<Lane>, int)>, route: Option<string>, skew: nat, cursors: Cursors, ids: seq<int>)
    requires calls != [] && |ids| > 1 && TiesAre(calls[0].0, Query(route, calls[0].1), ids)
    ensures var q := Query(route, calls[0].1);
            Picks(calls, route, skew, cursors)
            == [ids[LaneRotation.Turn(|ids|, CursorAt(cursors, q), 1 + skew, 0)]]
               + Picks(calls[1..], route, skew, After(calls[0].0, q, skew, cursors))
  {
    hide TiesAre, Select, CursorAt, After, LaneRotation.Turn;
    OnePick(calls[0].0, Query(route, calls[0].1), skew, cursors, ids);
  }

  lemma {:induction false} PicksFollowTurns(calls: seq<(seq<Lane>, int)>, route: Option<string>, skew: nat, cursors: Cursors, ids: seq<int>)
    requires |ids| > 1 && SameTies(calls, route, ids)
    ensures |Picks(calls, route, skew, cursors)| == |calls|
    ensures FollowTurns(Picks(calls, route, skew, cursors), ids, CursorAt(cursors, Query(route, 0)), 1 + skew)
    decreases |calls|
  {
    hide *;
    if calls == [] {
      NoPicks(route, skew, cursors, ids);
    } else {
      var q := Query(route, calls[0].1);
      var next := After(calls[0].0, q, skew, cursors);
      TailTies(calls, route, ids);
      CursorIgnoresTime(next, route, 0, q.now);
      CursorIgnoresTime(cursors, route, 0, q.now);
      OnePick(calls[0].0, q, skew, cursors, ids);
      FirstPick(calls, route, skew, cursors, ids);
      PicksFollowTurns(calls[1..], route, skew, next, ids);
      var picks := Picks(calls, route, skew, cursors);
      assert picks[1..] == Picks(calls[1..], route, skew, next);
      ConsTurns(picks, ids, CursorAt(cursors, q), 1 + skew);
    }
  }

  lemma {:induction false} NoPicks(route: Option<string>, skew: nat, cursors: Cursors, ids: seq<int>)
    requires |ids| > 1
    ensures |Picks([], route, skew, cursors)| == 0
    ensures FollowTurns(Picks([], route, skew, cursors), ids, CursorAt(cursors, Query(route, 0)), 1 + skew)
  {
  }

  ghost predicate Chosen(picks: seq<int>, id: int) {
    exists i :: 0 <= i < |picks| && picks[i] == id
  }

  lemma {:induction false} FairPicks(picks: seq<int>, ids: seq<int>, start: nat, stride: nat)
    requires ids != [] && |picks| == |ids| && Distinct(ids) && FollowTurns(picks, ids, start, stride)
    ensures (forall t :: 0 <= t < |ids| ==> Chosen(picks, ids[t])) <==> LaneAddress.Gcd(stride, |ids|) == 1
  {
    var k := |ids|;
    LaneRotation.FairExactlyWhenCoprime(k, start, stride);
    hide LaneAddress.Gcd, LaneRotation.Turn;
    forall t | 0 <= t < k ensures Chosen(picks, ids[t]) <==> LaneRotation.Taken(k, start, stride, t) {
      if LaneRotation.Taken(k, start, stride, t) {
        var i :| 0 <= i < k && LaneRotation.Turn(k, start, stride, i) == t;
        assert picks[i] == ids[t];
      }
      if Chosen(picks, ids[t]) {
        var i :| 0 <= i < |picks| && picks[i] == ids[t];
        assert LaneRotation.Turn(k, start, stride, i) == t;
      }
    }
  }

  /**
   * `k` unpinned picks in a row over an unchanged `k`-lane tie, with `skew` other selections on the same
   * cursor after each (a dashboard read counts as one), reach every lane exactly when `1 + skew` is
   * coprime with `k`.
   */
  lemma {:induction false} RotationIsFairExactly(calls: seq<(seq<Lane>, int)>, route: Option<string>, skew: nat, cursors: Cursors, ids: seq<int>)
    requires |ids| > 1 && Distinct(ids) && SameTies(calls, route, ids) && |calls| == |ids|
    ensures (forall t :: 0 <= t < |ids| ==> Chosen(Picks(calls, route, skew, cursors), ids[t]))
            <==> LaneAddress.Gcd(1 + skew, |ids|) == 1
  {
    hide Picks, SameTies, CursorAt, FollowTurns, Chosen, LaneAddress.Gcd;
    PicksFollowTurns(calls, route, skew, cursors, ids);
    FairPicks(Picks(calls, route, skew, cursors), ids, CursorAt(cursors, Query(route, 0)), 1 + skew);
  }

  lemma EachOnce(picks: seq<int>, ids: seq<int>, start: nat)
    requires ids != [] && |picks| == |ids| && Distinct(ids) && FollowTurns(picks, ids, start, 1)
    ensures Distinct(picks) && forall t :: 0 <= t < |ids| ==> Chosen(picks, ids[t])
  {
    FairPicks(picks, ids, start, 1);
    LaneAddress.GcdOne(|ids|);
    hide LaneAddress.Gcd, LaneRotation.Turn;
    forall i, j | 0 <= i < j < |picks| ensures picks[i] != picks[j] {
      if picks[i] == picks[j] {
        LaneRotation.TurnsDiffer(|ids|, start, 1, i, j);
      }
    }
  }

  /** With nothing in between, `k` picks take each of the `k` lanes exactly once. */
  lemma {:induction false} RotationTakesEachOnce(calls: seq<(seq<Lane>, int)>, route: Option<string>, cursors: Cursors, ids: seq<int>)
    requires |ids| > 1 && Distinct(ids) && SameTies(calls, route, ids) && |calls| == |ids|
    ensures Distinct(Picks(calls, route, 0, cursors)) && |Picks(calls, route, 0, cursors)| == |ids|
    ensures forall t :: 0 <= t < |ids| ==> Chosen(Picks(calls, route, 0, cursors), ids[t])
  {
    hide Picks, SameTies, CursorAt, FollowTurns, Chosen;
    PicksFollowTurns(calls, route, 0, cursors, ids);
    EachOnce(Picks(calls, route, 0, cursors), ids, CursorAt(cursors, Query(route, 0)));
  }

  // ----- pins -----

  /** A pin only settles ties: either it wins one, or the choice is what it would be without it. */
  lemma PinOnlySettlesTies(candidates: seq<Lane>, preferred: Option<int>, q: Query, cursors: Cursors)
    ensures var (chosen, after) := Select(candidates, preferred, q, cursors);
            var held := PinHeld(candidates, preferred, q);
            if held.Some? then chosen == held && after == cursors && chosen.value.id == preferred.value
            else (chosen, after) == Select(candidates, None, q, cursors)
  {
    hide Tied, ScoreOf;
  }

  /** By the results they are judged by, no lane of these is faster by more than the margin. */
  ghost predicate Ties(ms: real, candidates: seq<Lane>, q: Query) {
    forall i, other :: 0 <= i < |candidates| && Expected(candidates[i], q, other) ==> ms <= other + 0.1
  }

  lemma TiedExactly(candidates: seq<Lane>, q: Query, x: Lane, ms: real)
    requires DistinctLanes(candidates) && forall i :: 0 <= i < |candidates| ==> Measured(candidates[i])
    requires x in candidates && Expected(x, q, ms)
    ensures x in Tied(candidates, q) <==> Ties(ms, candidates, q)
    ensures ScoreOf(x, candidates, q) == Finite(ms)
  {
    hide Measured, Expected, SendLaneScore, Tied;
    TiedIsTheWindow(candidates, q, x);
    ExpectedIsScore(x, candidates, q, ms);
    ExpectedMeansMeasured(x, q, ms);
    forall i | 0 <= i < |candidates|
      ensures Within(ScoreOf(x, candidates, q), ScoreOf(candidates[i], candidates, q))
         <==> forall other :: Expected(candidates[i], q, other) ==> ms <= other + 0.1
    {
      WithinExactly(candidates, q, candidates[i], ms);
    }
  }

  lemma WithinExactly(candidates: seq<Lane>, q: Query, y: Lane, ms: real)
    requires Measured(y) && AnyMeasured(candidates)
    ensures Within(Finite(ms), ScoreOf(y, candidates, q)) <==> forall other :: Expected(y, q, other) ==> ms <= other + 0.1
  {
    hide Measured, Expected, SendLaneScore;
    MeasuredIsFinite(y, candidates, q);
    if y.sendRtt.Some? {
      ScoreIsExpected(y, candidates, q);
      assert Expected(y, q, ScoreOf(y, candidates, q).ms);
    } else {
      forall other ensures !Expected(y, q, other) {
        if Expected(y, q, other) {
          ExpectedMeansMeasured(y, q, other);
        }
      }
    }
  }

  /** A pinned lane is taken exactly while it ties and is expected under 23 ms; otherwise the pin is as none. */
  lemma PinWinsExactly(candidates: seq<Lane>, pinned: Lane, q: Query, cursors: Cursors, ms: real)
    requires DistinctLanes(candidates) && forall i :: 0 <= i < |candidates| ==> Measured(candidates[i])
    requires pinned in candidates && Expected(pinned, q, ms)
    ensures Select(candidates, Some(pinned.id), q, cursors)
         == if ms < 23.0 && Ties(ms, candidates, q) then (Some(pinned), cursors) else Select(candidates, None, q, cursors)
  {
    hide *;
    TiedExactly(candidates, q, pinned, ms);
    PinHeldExactly(candidates, pinned, q, ms);
    PinOnlySettlesTies(candidates, Some(pinned.id), q, cursors);
  }

  lemma PinHeldExactly(candidates: seq<Lane>, pinned: Lane, q: Query, ms: real)
    requires DistinctLanes(candidates) && pinned in candidates && ScoreOf(pinned, candidates, q) == Finite(ms)
    ensures PinHeld(candidates, Some(pinned.id), q) == if ms < 23.0 && pinned in Tied(candidates, q) then Some(pinned) else None
  {
    PinnedInTie(candidates, pinned, q);
    hide Tied, SendLaneScore, FindLane;
  }

  lemma TiedAreCandidates(candidates: seq<Lane>, q: Query)
    requires DistinctLanes(candidates)
    ensures forall x :: x in Tied(candidates, q) ==> x in candidates
  {
    if candidates != [] {
      forall x | x in Tied(candidates, q) ensures x in candidates {
        TiedIsTheWindow(candidates, q, x);
      }
    }
  }

  lemma PinnedInTie(candidates: seq<Lane>, pinned: Lane, q: Query)
    requires DistinctLanes(candidates) && pinned in candidates
    ensures FindLane(Tied(candidates, q), pinned.id) == if pinned in Tied(candidates, q) then Some(pinned) else None
  {
    TiedAreCandidates(candidates, q);
    var found := FindLane(Tied(candidates, q), pinned.id);
    if found.Some? {
      assert found.value in candidates && found.value.id == pinned.id;
      SameIdSameLane(candidates, found.value, pinned);
    }
    hide Tied, FindLane;
  }

  lemma SameIdSameLane(lanes: seq<Lane>, x: Lane, y: Lane)
    requires DistinctLanes(lanes) && x in lanes && y in lanes && x.id == y.id
    ensures x == y
  {
    var i :| 0 <= i < |lanes| && lanes[i] == x;
    var j :| 0 <= j < |lanes| && lanes[j] == y;
    assert i == j;
  }

  /** A bot's first unpinned send takes a fastest lane, and among equally fast ones the least loaded. */
  lemma FirstSendTakesFastest(candidates: seq<Lane>, q: Query, cursors: Cursors, i: nat)
    requires DistinctLanes(candidates) && i < |candidates| && CursorKey(q) !in cursors
    ensures var chosen := Select(candidates, None, q, cursors).0;
            && chosen.Some? && !Faster(ScoreOf(candidates[i], candidates, q), ScoreOf(chosen.value, candidates, q))
            && (ScoreOf(candidates[i], candidates, q) == ScoreOf(chosen.value, candidates, q)
                ==> chosen.value.inFlight <= candidates[i].inFlight)
  {
    TiedIsTheWindow(candidates, q, candidates[i]);
    var tied := Tied(candidates, q);
    FirstIsChosen(candidates, q, cursors);
    hide *;
    var at := BestIsLeast(candidates, candidates, q);
    BestTies(candidates, q, at);
    FirstIsAhead(tied, candidates, q, candidates[at]);
    SlowerChains(ScoreOf(candidates[i], candidates, q), Best(candidates, candidates, q), ScoreOf(tied[0], candidates, q));
    if ScoreOf(candidates[i], candidates, q) == ScoreOf(tied[0], candidates, q) {
      TiedIsTheWindow(candidates, q, tied[0]);
      TiedIsTheWindow(candidates, q, candidates[i]);
      FirstIsAhead(tied, candidates, q, candidates[i]);
    }
  }

  lemma FirstIsChosen(candidates: seq<Lane>, q: Query, cursors: Cursors)
    requires Tied(candidates, q) != [] && CursorKey(q) !in cursors
    ensures Select(candidates, None, q, cursors).0 == Some(Tied(candidates, q)[0])
  {
    hide Tied;
  }

  lemma {:induction false} BestTies(candidates: seq<Lane>, q: Query, at: nat)
    requires DistinctLanes(candidates) && at < |candidates|
    requires ScoreOf(candidates[at], candidates, q) == Best(candidates, candidates, q)
    requires forall i :: 0 <= i < |candidates| ==> !Faster(ScoreOf(candidates[i], candidates, q), Best(candidates, candidates, q))
    ensures candidates[at] in Tied(candidates, q)
  {
    TiedIsTheWindow(candidates, q, candidates[at]);
    hide Tied, SendLaneScore, Best;
  }

  lemma SlowerChains(a: Score, b: Score, c: Score)
    ensures !Faster(a, b) && !Faster(b, c) ==> !Faster(a, c)
  {
  }

  lemma FirstIsAhead(tied: seq<Lane>, all: seq<Lane>, q: Query, x: Lane)
    requires InOrder(tied, all, q) && x in tied
    ensures !Faster(ScoreOf(x, all, q), ScoreOf(tied[0], all, q))
    ensures ScoreOf(x, all, q) == ScoreOf(tied[0], all, q) ==> tied[0].inFlight <= x.inFlight
  {
    hide SendLaneScore;
    var k :| 0 <= k < |tied| && tied[k] == x;
    assert k > 0 ==> Ahead(tied[0], tied[k], all, q);
  }

  /** A lane remembered for one bot on one origin. */
  datatype Pin = Pin(origin: string, route: string, lane: int)

  function PinnedLane(pins: seq<Pin>, origin: string, route: string): (r: Option<int>)
    ensures r.None? ==> forall i :: 0 <= i < |pins| ==> !(pins[i].origin == origin && pins[i].route == route)
    ensures r.Some? ==> Pin(origin, route, r.value) in pins
  {
    if pins == [] then None
    else if pins[0].origin == origin && pins[0].route == route then Some(pins[0].lane)
    else PinnedLane(pins[1..], origin, route)
  }

  function WithoutPin(pins: seq<Pin>, origin: string, route: string): seq<Pin> {
    if pins == [] then []
    else (if pins[0].origin == origin && pins[0].route == route then [] else [pins[0]])
         + WithoutPin(pins[1..], origin, route)
  }

  /** `rememberPreferredSendLane`: a refreshed key becomes the newest, a new one may push out the oldest. */
  function Remember(pins: seq<Pin>, pin: Pin): seq<Pin> {
    var rest :=
      if PinnedLane(pins, pin.origin, pin.route).Some? then WithoutPin(pins, pin.origin, pin.route)
      else if |pins| >= MAX_PINS then pins[1..]
      else pins;
    rest + [pin]
  }

  ghost predicate DistinctPins(pins: seq<Pin>) {
    forall i, j :: 0 <= i < j < |pins| ==> !(pins[i].origin == pins[j].origin && pins[i].route == pins[j].route)
  }

  lemma {:induction false} WithoutPinMember(pins: seq<Pin>, origin: string, route: string, p: Pin)
    ensures p in WithoutPin(pins, origin, route) <==> p in pins && !(p.origin == origin && p.route == route)
  {
    if pins != [] {
      WithoutPinMember(pins[1..], origin, route, p);
      assert pins == [pins[0]] + pins[1..];
    }
  }

  lemma {:induction false} WithoutPinDistinct(pins: seq<Pin>, origin: string, route: string)
    requires DistinctPins(pins)
    ensures DistinctPins(WithoutPin(pins, origin, route)) && |WithoutPin(pins, origin, route)| <= |pins|
    ensures PinnedLane(pins, origin, route).Some? ==> |WithoutPin(pins, origin, route)| < |pins|
  {
    if pins != [] {
      WithoutPinDistinct(pins[1..], origin, route);
      var rest := WithoutPin(pins[1..], origin, route);
      forall i | 0 <= i < |rest| ensures !(rest[i].origin == pins[0].origin && rest[i].route == pins[0].route) {
        WithoutPinMember(pins[1..], origin, route, rest[i]);
        var j :| 0 <= j < |pins[1..]| && pins[1..][j] == rest[i];
        assert pins[j + 1] == rest[i];
      }
    }
  }

  /** The pin table never outgrows its bound, keeps one pin a bot, and then answers with the pin just made. */
  lemma RememberKeeps(pins: seq<Pin>, pin: Pin)
    requires |pins| <= MAX_PINS && DistinctPins(pins)
    ensures var after := Remember(pins, pin);
            && 0 < |after| <= MAX_PINS && DistinctPins(after) && after[|after| - 1] == pin
            && forall i :: 0 <= i < |after| - 1 ==> after[i] in pins
  {
    WithoutPinDistinct(pins, pin.origin, pin.route);
    hide WithoutPin, PinnedLane;
    var after := Remember(pins, pin);
    forall i | 0 <= i < |after| - 1
      ensures after[i] in pins && !(after[i].origin == pin.origin && after[i].route == pin.route)
    {
      if PinnedLane(pins, pin.origin, pin.route).Some? {
        WithoutPinMember(pins, pin.origin, pin.route, after[i]);
      }
    }
  }

  /** The lanes of one pool, each with the invariant recording keeps. */
  ghost predicate AllFit(lanes: seq<Lane>) {
    DistinctLanes(lanes) && forall i :: 0 <= i < |lanes| ==> Measured(lanes[i])
  }

  lemma PickFits(usable: seq<Lane>, q: Query, reserved: int, preferred: Option<int>, cursors: Cursors)
    requires usable != [] && AllFit(usable)
    ensures var candidates := SendCandidates(usable, q, reserved);
            var chosen := Select(candidates, preferred, q, cursors).0;
            && chosen.Some? && chosen.value in usable && NoFasterLane(chosen.value, candidates, q)
            && forall ms :: Expected(chosen.value, q, ms) ==> ScoreOf(chosen.value, candidates, q) == Finite(ms)
  {
    var candidates := SendCandidates(usable, q, reserved);
    hide Select, SendCandidates, SendLaneScore, Measured, NoFasterLane, Expected, DistinctLanes;
    ChosenIsFastest(usable, q, reserved, preferred, cursors);
    var chosen := Select(candidates, preferred, q, cursors).0.value;
    forall ms | Expected(chosen, q, ms) ensures ScoreOf(chosen, candidates, q) == Finite(ms) {
      ExpectedIsScore(chosen, candidates, q, ms);
    }
  }

  // ----- the router -----

  class LaneRouter {
    var cursors: Cursors
    var pins: seq<Pin>

    ghost predicate Valid()
      reads this
    {
      |pins| <= MAX_PINS && DistinctPins(pins)
    }

    constructor ()
      ensures Valid() && cursors == map[] && pins == []
    {
      cursors, pins := map[], [];
    }

    method SelectFastest(candidates: seq<Lane>, preferred: Option<int>, q: Query) returns (chosen: Option<Lane>)
      modifies this`cursors
      ensures (chosen, cursors) == Select(candidates, preferred, q, old(cursors))
    {
      var tied := Tied(candidates, q);
      if tied == [] {
        return None;
      }
      if |tied| == 1 {
        return Some(tied[0]);
      }
      if preferred.Some? {
        var pinned := FindLane(tied, preferred.value);
        if pinned.Some? && Holds(ScoreOf(pinned.value, candidates, q)) {
          return pinned;
        }
      }
      var cursor := CursorAt(cursors, q);
      cursors := cursors[CursorKey(q) := cursor + 1];
      return Some(tied[cursor % |tied|]);
    }

    /** A pin is written only for the lane just chosen, and only if it scored under the entry line. */
    method PickLane(origin: string, usable: seq<Lane>, q: Query, reserved: int) returns (chosen: Option<Lane>)
      requires Valid()
      modifies this
      ensures Valid()
      ensures var candidates := SendCandidates(usable, q, reserved);
              && (chosen, cursors) == Select(candidates, PinnedLane(old(pins), origin, q.route.GetOr("shared")), q, old(cursors))
              && pins == if chosen.Some? && QualifiesForPin(ScoreOf(chosen.value, candidates, q))
                         then Remember(old(pins), Pin(origin, q.route.GetOr("shared"), chosen.value.id))
                         else old(pins)
      ensures usable != [] && AllFit(usable) ==>
                && chosen.Some? && chosen.value in usable
                && NoFasterLane(chosen.value, SendCandidates(usable, q, reserved), q)
                && forall ms :: Expected(chosen.value, q, ms) ==>
                     pins == if ms < 21.0 then Remember(old(pins), Pin(origin, q.route.GetOr("shared"), chosen.value.id))
                             else old(pins)
    {
      hide Select, SendCandidates, SendLaneScore, Measured, NoFasterLane, Expected, Remember, DistinctPins, DistinctLanes;
      if usable != [] && AllFit(usable) {
        PickFits(usable, q, reserved, PinnedLane(pins, origin, q.route.GetOr("shared")), cursors);
      }
      var candidates := SendCandidates(usable, q, reserved);
      chosen := SelectFastest(candidates, PinnedLane(pins, origin, q.route.GetOr("shared")), q);
      if chosen.Some? && QualifiesForPin(ScoreOf(chosen.value, candidates, q)) {
        var pin := Pin(origin, q.route.GetOr("shared"), chosen.value.id);
        RememberKeeps(pins, pin);
        pins := Remember(pins, pin);
      }
    }
  }
}
