/** How fast a lane is expected to answer: sample windows, route profiles, and the score sends compete on. */
module LaneScore {
  import opened Prelude
  import opened OrderStatistics

  const SAMPLE_WINDOW: nat := 7
  const PROFILE_MAX_AGE_MS := 900000
  const MAX_PROFILES: nat := 2048
  const JITTER_WEIGHT := 0.35
  const SLOW_FLOOR_MS := 23.0
  const SLOW_RATIO := 1.5
  const SLOW_COOLDOWN_MS := 15000
  const DEGRADED_MIN_SAMPLES: nat := 3

  /** One bot's own SEND history on one lane. */
  datatype Profile = Profile(key: string, samples: seq<real>, lastAt: int, slowUntil: int)

  /** `profiles` is the insertion-ordered map, least recently used first. */
  datatype Lane = Lane(
    id: int,
    inFlight: nat,
    capacity: Option<nat>,
    pingRtt: Option<real>,
    addressPrior: Option<real>,
    sendRtt: Option<real>,
    samples: seq<real>,
    profiles: seq<Profile>,
    sendSlowUntil: int,
    slowStreak: nat,
    degraded: bool)

  /** Which bot asks, and when; an empty route key counts as none. */
  datatype Query = Query(route: Option<string>, now: int) {
    predicate Routed() {
      route.Some? && route.value != ""
    }
  }

  datatype Score = Finite(ms: real) | Infinite

  predicate Faster(a: Score, b: Score) {
    a.Finite? && (b.Infinite? || a.ms < b.ms)
  }

  // ----- prediction -----

  function MaxReal(a: real, b: real): real {
    if a >= b then a else b
  }

  function MinReal(a: real, b: real): real {
    if a <= b then a else b
  }

  /** Full waves of the peer's stream capacity already queued ahead. */
  function QueuedWaves(inFlight: nat, capacity: Option<nat>): nat {
    if capacity.None? then 0 else inFlight / Max(1, capacity.value)
  }

  function Completion(p50: real, p95: real, waves: nat): real {
    p50 + MaxReal(0.0, p95 - p50) * JITTER_WEIGHT + (waves as real) * p50
  }

  /** `predictSendCompletion`, reduced to the predicted time. */
  function Predict(samples: seq<real>, fallback: Option<real>, inFlight: nat, capacity: Option<nat>): Option<real> {
    if samples != [] then
      Some(Completion(Percentile(Sort(samples), 50), Percentile(Sort(samples), 95), QueuedWaves(inFlight, capacity)))
    else if fallback.Some? then
      Some(Completion(fallback.value, fallback.value, QueuedWaves(inFlight, capacity)))
    else None
  }

  lemma {:induction false} PercentilesAscend(samples: seq<real>)
    requires samples != []
    ensures Percentile(Sort(samples), 50) <= Percentile(Sort(samples), 95)
    ensures Percentile(Sort(samples), 50) in samples && Percentile(Sort(samples), 95) in samples
  {
    var s := Sort(samples);
    assert CeilDiv(50 * |s|, 100) <= CeilDiv(95 * |s|, 100);
    SortKeepsMembers(samples, Percentile(s, 50));
    SortKeepsMembers(samples, Percentile(s, 95));
  }

  lemma DivisionAscends(a: nat, b: nat, c: nat)
    requires a <= b && c > 0
    ensures a / c <= b / c
  {
    var q := a / c - b / c;
    assert c * (a / c) - c * (b / c) == c * q;
    TimesAtLeast(c, q);
  }

  lemma TimesAtLeast(c: nat, q: int)
    ensures q >= 1 ==> c * q >= c
  {
  }

  lemma WavesAscend(a: nat, b: nat, capacity: Option<nat>)
    requires a <= b
    ensures QueuedWaves(a, capacity) <= QueuedWaves(b, capacity)
    ensures capacity.None? || a < capacity.value ==> QueuedWaves(a, capacity) == 0
  {
    if capacity.Some? {
      DivisionAscends(a, b, Max(1, capacity.value));
    }
  }

  lemma CompletionBracket(p50: real, p95: real, wa: nat, wb: nat)
    requires 0.0 <= p50 <= p95 && wa <= wb
    ensures p50 <= Completion(p50, p95, wa) <= Completion(p50, p95, wb)
    ensures wa == 0 ==> Completion(p50, p95, wa) <= p95
  {
    assert (wb as real) * p50 - (wa as real) * p50 == ((wb - wa) as real) * p50;
    assert (wa as real) * p50 >= 0.0 && ((wb - wa) as real) * p50 >= 0.0;
    if wa == 0 {
      assert (wa as real) * p50 == 0.0;
    }
  }

  /**
   * A lane with a free stream is predicted between its own p50 and p95; waiting behind more streams
   * never makes the prediction better.
   */
  lemma {:induction false} PredictionIsBracketed(samples: seq<real>, fallback: Option<real>, a: nat, b: nat, capacity: Option<nat>)
    requires samples != [] && a <= b && forall i :: 0 <= i < |samples| ==> samples[i] >= 0.0
    ensures var p50, p95 := Percentile(Sort(samples), 50), Percentile(Sort(samples), 95);
            var pa, pb := Predict(samples, fallback, a, capacity), Predict(samples, fallback, b, capacity);
            && pa.Some? && pb.Some? && 0.0 <= p50 <= pa.value <= pb.value
            && (capacity.None? || a < capacity.value ==> pa.value <= p95)
  {
    PercentilesAscend(samples);
    WavesAscend(a, b, capacity);
    hide Percentile, Sort, QueuedWaves, Completion;
    CompletionBracket(Percentile(Sort(samples), 50), Percentile(Sort(samples), 95),
                      QueuedWaves(a, capacity), QueuedWaves(b, capacity));
  }

  // ----- scores -----

  function FindProfile(profiles: seq<Profile>, key: string): (r: Option<Profile>)
    ensures r.Some? ==> r.value in profiles && r.value.key == key
    ensures r.None? ==> forall i :: 0 <= i < |profiles| ==> profiles[i].key != key
  {
    if profiles == [] then None
    else if profiles[0].key == key then Some(profiles[0])
    else FindProfile(profiles[1..], key)
  }

  function FreshProfile(l: Lane, q: Query): Option<Profile> {
    if !q.Routed() then None
    else
      var p := FindProfile(l.profiles, q.route.value);
      if p.Some? && q.now - p.value.lastAt <= PROFILE_MAX_AGE_MS then p else None
  }

  /** The lane's own prediction: this bot's fresh profile if there is one, else the lane's shared window. */
  function LanePrediction(l: Lane, q: Query): Option<real> {
    var profile := FreshProfile(l, q);
    if profile.Some? then Predict(profile.value.samples, None, l.inFlight, l.capacity)
    else Predict(l.samples, l.sendRtt, l.inFlight, l.capacity)
  }

  predicate AnyMeasured(lanes: seq<Lane>) {
    exists i :: 0 <= i < |lanes| && lanes[i].sendRtt.Some?
  }

  /** `sendLaneScore`: only while nobody is measured may an address prior or a PING compete. */
  function SendLaneScore(l: Lane, candidates: seq<Lane>, q: Query): Score {
    var predicted := LanePrediction(l, q);
    if predicted.Some? then Finite(predicted.value)
    else if AnyMeasured(candidates) then Infinite
    else if l.addressPrior.Some? then Finite(l.addressPrior.value)
    else if l.pingRtt.Some? then Finite(l.pingRtt.value)
    else Infinite
  }

  // ----- what a score is -----

  /** The asking bot's own profile on the lane, no older than fifteen minutes. */
  ghost predicate OwnProfile(l: Lane, q: Query, p: Profile) {
    && q.route.Some? && q.route.value != "" && p.key == q.route.value && q.now - p.lastAt <= 15 * 60 * 1000
    && exists i :: 0 <= i < |l.profiles| && l.profiles[i] == p
  }

  /** The results a lane is judged by: the bot's own while they are fresh, else everybody's. */
  ghost predicate JudgedBy(l: Lane, q: Query, results: seq<real>) {
    && results != []
    && ((exists p :: OwnProfile(l, q, p) && results == p.samples)
        || ((forall p :: !OwnProfile(l, q, p)) && results == l.samples))
  }

  /** How often the peer's stream capacity is already taken. */
  ghost predicate FullWaves(l: Lane, w: nat) {
    if l.capacity.None? then w == 0
    else w * Max(1, l.capacity.value) <= l.inFlight < (w + 1) * Max(1, l.capacity.value)
  }

  lemma {:induction false} FoundProfileIsOwn(profiles: seq<Profile>, i: nat)
    requires DistinctKeys(profiles) && i < |profiles|
    ensures FindProfile(profiles, profiles[i].key) == Some(profiles[i])
  {
    if i > 0 {
      FoundProfileIsOwn(profiles[1..], i - 1);
    }
  }

  lemma FreshIsOwn(l: Lane, q: Query, p: Profile)
    requires DistinctKeys(l.profiles)
    ensures FreshProfile(l, q) == Some(p) <==> OwnProfile(l, q, p)
  {
    if OwnProfile(l, q, p) {
      var i :| 0 <= i < |l.profiles| && l.profiles[i] == p;
      FoundProfileIsOwn(l.profiles, i);
    }
    hide FindProfile;
    if FreshProfile(l, q) == Some(p) {
      assert p in l.profiles;
    }
  }

  lemma WavesAreFull(l: Lane, w: nat)
    requires FullWaves(l, w)
    ensures QueuedWaves(l.inFlight, l.capacity) == w
  {
    if l.capacity.Some? {
      QuotientIs(l.inFlight, Max(1, l.capacity.value), w);
    }
  }

  lemma QuotientIs(a: nat, c: nat, w: nat)
    requires c > 0 && w * c <= a < (w + 1) * c
    ensures a / c == w
  {
    var q := a / c;
    assert a == q * c + a % c && 0 <= a % c < c;
    TimesGrows(q + 1, w, c);
    TimesGrows(w + 1, q, c);
    assert (q + 1) * c == q * c + c;
  }

  lemma TimesGrows(a: nat, b: nat, c: nat)
    ensures a <= b ==> a * c <= b * c
  {
    assert b * c - a * c == (b - a) * c;
  }

  lemma JudgedPrediction(l: Lane, q: Query, results: seq<real>)
    requires Measured(l) && JudgedBy(l, q, results)
    ensures LanePrediction(l, q) == Predict(results, None, l.inFlight, l.capacity)
  {
    hide FindProfile, Completion, Sort, Percentile;
    var own := FreshProfile(l, q);
    if own.Some? {
      FreshIsOwn(l, q, own.value);
      var p :| OwnProfile(l, q, p) && results == p.samples;
      FreshIsOwn(l, q, p);
    } else {
      forall p ensures !OwnProfile(l, q, p) {
        FreshIsOwn(l, q, p);
      }
    }
  }

  /**
   * What a score is: the median of the results the lane is judged by, a fixed share of their spread up to
   * their p95, and one more median for every full wave of streams ahead.
   */
  lemma ScoreIsPredicted(l: Lane, candidates: seq<Lane>, q: Query, results: seq<real>, p50: real, p95: real, w: nat)
    requires Measured(l) && JudgedBy(l, q, results) && FullWaves(l, w)
    requires IsNearestRank(p50, results, 50) && IsNearestRank(p95, results, 95)
    ensures SendLaneScore(l, candidates, q) == Finite(p50 + 0.35 * (p95 - p50) + w as real * p50)
  {
    hide *;
    JudgedPrediction(l, q, results);
    RankedCompletion(results, l.inFlight, l.capacity, p50, p95);
    WavesAreFull(l, w);
    CompletionIs(p50, p95, w);
    PredictionIsScore(l, candidates, q);
  }

  lemma PredictionIsScore(l: Lane, candidates: seq<Lane>, q: Query)
    ensures LanePrediction(l, q).Some? ==> SendLaneScore(l, candidates, q) == Finite(LanePrediction(l, q).value)
  {
    hide LanePrediction;
  }

  lemma CompletionIs(p50: real, p95: real, w: nat)
    requires p50 <= p95
    ensures Completion(p50, p95, w) == p50 + 0.35 * (p95 - p50) + w as real * p50
  {
  }

  lemma RankedCompletion(results: seq<real>, inFlight: nat, capacity: Option<nat>, p50: real, p95: real)
    requires IsNearestRank(p50, results, 50) && IsNearestRank(p95, results, 95)
    ensures p50 <= p95 && p50 in results
    ensures Predict(results, None, inFlight, capacity) == Some(Completion(p50, p95, QueuedWaves(inFlight, capacity)))
  {
    PercentileIsNearestRank(results, 50);
    PercentileIsNearestRank(results, 95);
    NearestRankIsUnique(p50, Percentile(Sort(results), 50), results, 50);
    NearestRankIsUnique(p95, Percentile(Sort(results), 95), results, 95);
    PercentilesAscend(results);
    hide Percentile, Sort, QueuedWaves, IsNearestRank, Completion;
  }

  /** The time the lane is expected to take, from the results it is judged by. */
  ghost predicate Expected(l: Lane, q: Query, ms: real) {
    exists results, p50, p95, w: nat :: ExpectedFrom(l, q, ms, results, p50, p95, w)
  }

  ghost predicate ExpectedFrom(l: Lane, q: Query, ms: real, results: seq<real>, p50: real, p95: real, w: nat) {
    && JudgedBy(l, q, results) && FullWaves(l, w)
    && IsNearestRank(p50, results, 50) && IsNearestRank(p95, results, 95)
    && ms == p50 + 0.35 * (p95 - p50) + w as real * p50
  }

  /** A measured lane is expected to take its score, and nothing else. */
  lemma ScoreIsExpected(l: Lane, candidates: seq<Lane>, q: Query)
    requires Measured(l) && l.sendRtt.Some?
    ensures SendLaneScore(l, candidates, q).Finite?
    ensures forall ms :: Expected(l, q, ms) <==> ms == SendLaneScore(l, candidates, q).ms
  {
    hide *;
    var results := MeasuredIsJudged(l, q);
    var p50, p95 := Percentile(Sort(results), 50), Percentile(Sort(results), 95);
    PercentileIsNearestRank(results, 50);
    PercentileIsNearestRank(results, 95);
    var w := WavesExist(l);
    ScoreIsPredicted(l, candidates, q, results, p50, p95, w);
    var score := SendLaneScore(l, candidates, q).ms;
    ExpectedIntro(l, q, score, results, p50, p95, w);
    forall ms | Expected(l, q, ms) ensures ms == score {
      ExpectedIsScore(l, candidates, q, ms);
    }
  }

  lemma ExpectedIntro(l: Lane, q: Query, ms: real, results: seq<real>, p50: real, p95: real, w: nat)
    requires ms == p50 + 0.35 * (p95 - p50) + w as real * p50
    requires JudgedBy(l, q, results) && FullWaves(l, w)
    requires IsNearestRank(p50, results, 50) && IsNearestRank(p95, results, 95)
    ensures Expected(l, q, ms)
  {
    hide JudgedBy, FullWaves, IsNearestRank;
    assert ExpectedFrom(l, q, ms, results, p50, p95, w);
  }

  lemma ExpectedIsScore(l: Lane, candidates: seq<Lane>, q: Query, ms: real)
    requires Measured(l) && Expected(l, q, ms)
    ensures SendLaneScore(l, candidates, q) == Finite(ms)
  {
    hide JudgedBy, FullWaves, IsNearestRank, SendLaneScore, Measured;
    var results, p50, p95, w: nat :| ExpectedFrom(l, q, ms, results, p50, p95, w);
    ScoreIsPredicted(l, candidates, q, results, p50, p95, w);
  }

  lemma MeasuredIsJudged(l: Lane, q: Query) returns (results: seq<real>)
    requires Measured(l) && l.sendRtt.Some?
    ensures JudgedBy(l, q, results) && results != []
  {
    hide FindProfile;
    var own := FreshProfile(l, q);
    if own.Some? {
      FreshIsOwn(l, q, own.value);
      results := own.value.samples;
      assert own.value in l.profiles;
    } else {
      forall p ensures !OwnProfile(l, q, p) {
        FreshIsOwn(l, q, p);
      }
      results := l.samples;
    }
  }

  lemma WavesExist(l: Lane) returns (w: nat)
    ensures FullWaves(l, w)
  {
    w := 0;
    if l.capacity.Some? {
      var c := Max(1, l.capacity.value);
      w := l.inFlight / c;
      assert l.inFlight == w * c + l.inFlight % c;
      assert (w + 1) * c == w * c + c;
    }
  }

  /** On a free stream the score lies between the p50 and the p95 of those results; no load improves it. */
  lemma ScoreIsBracketed(l: Lane, candidates: seq<Lane>, q: Query, results: seq<real>, p50: real, p95: real, w: nat)
    requires Measured(l) && JudgedBy(l, q, results) && FullWaves(l, w)
    requires IsNearestRank(p50, results, 50) && IsNearestRank(p95, results, 95)
    requires forall i :: 0 <= i < |results| ==> results[i] >= 0.0
    ensures SendLaneScore(l, candidates, q).Finite? && p50 <= SendLaneScore(l, candidates, q).ms
    ensures w == 0 ==> SendLaneScore(l, candidates, q).ms <= p95
  {
    hide *;
    ScoreIsPredicted(l, candidates, q, results, p50, p95, w);
    RankedCompletion(results, l.inFlight, l.capacity, p50, p95);
    NonNegativeTimes(w as real, p50);
    NoTimes(p50);
  }

  lemma NoTimes(a: real)
    ensures 0 as real * a == 0.0
  {
  }

  lemma NonNegativeTimes(a: real, b: real)
    requires a >= 0.0 && b >= 0.0
    ensures a * b >= 0.0
  {
  }

  /** A bot with fresh results of its own on the lane is not judged by anybody else's there. */
  lemma OwnResultsAlone(l: Lane, candidates: seq<Lane>, q: Query, p: Profile, shared: seq<real>, median: Option<real>)
    requires Measured(l) && OwnProfile(l, q, p)
    ensures SendLaneScore(l.(samples := shared, sendRtt := median), candidates, q) == SendLaneScore(l, candidates, q)
  {
    FreshIsOwn(l, q, p);
    var other := l.(samples := shared, sendRtt := median);
    assert FreshProfile(other, q) == FreshProfile(l, q);
    var i :| 0 <= i < |l.profiles| && l.profiles[i] == p;
    hide FreshProfile, FindProfile, Completion, Sort;
  }

  /** ... and without such results of its own it is judged as any other bot without them. */
  lemma SharedResultsForTheRest(l: Lane, candidates: seq<Lane>, q: Query, other: Query)
    requires Measured(l) && (forall p :: !OwnProfile(l, q, p)) && (forall p :: !OwnProfile(l, other, p))
    ensures SendLaneScore(l, candidates, q) == SendLaneScore(l, candidates, other)
  {
    if FreshProfile(l, q).Some? {
      FreshIsOwn(l, q, FreshProfile(l, q).value);
    }
    if FreshProfile(l, other).Some? {
      FreshIsOwn(l, other, FreshProfile(l, other).value);
    }
    hide FreshProfile, Predict;
  }

  /**
   * A lane without a result scores only while no candidate has one: by its address's rank, and by its PING
   * only where no rank is known.
   */
  lemma ColdScore(l: Lane, candidates: seq<Lane>, q: Query)
    requires Measured(l) && l.sendRtt == None
    ensures SendLaneScore(l, candidates, q)
         == if exists i :: 0 <= i < |candidates| && candidates[i].sendRtt.Some? then Infinite
            else if l.addressPrior.Some? then Finite(l.addressPrior.value)
            else if l.pingRtt.Some? then Finite(l.pingRtt.value)
            else Infinite
  {
  }

  // ----- recording results -----

  function Median(values: seq<real>): Option<real> {
    if values == [] then None else Some(Sort(values)[|values| / 2])
  }

  /** `push`, then `shift` once the window is full. */
  function Push(samples: seq<real>, ms: real): (r: seq<real>)
    ensures r != []
  {
    var more := samples + [ms];
    if |more| > SAMPLE_WINDOW then more[1..] else more
  }

  function MinOf(values: seq<real>): real
    requires values != []
  {
    if |values| == 1 then values[0] else MinReal(values[0], MinOf(values[1..]))
  }

  function SlowThreshold(fastest: real): real {
    if fastest <= 0.0 then SLOW_FLOOR_MS else MinReal(SLOW_FLOOR_MS, fastest * SLOW_RATIO)
  }

  function SlowUntil(ms: real, now: int, threshold: real): int {
    if ms > threshold then now + SLOW_COOLDOWN_MS else 0
  }

  function WithoutKey(profiles: seq<Profile>, key: string): (r: seq<Profile>)
    ensures |r| <= |profiles|
  {
    if profiles == [] then []
    else if profiles[0].key == key then WithoutKey(profiles[1..], key)
    else [profiles[0]] + WithoutKey(profiles[1..], key)
  }

  /** `getOrCreateSendRouteProfile` then `recordSendRouteSample`: the touched profile is the newest. */
  function RecordProfile(profiles: seq<Profile>, key: string, ms: real, now: int, threshold: real): seq<Profile> {
    var found := FindProfile(profiles, key);
    var rest :=
      if found.Some? then WithoutKey(profiles, key)
      else if |profiles| >= MAX_PROFILES then profiles[1..]
      else profiles;
    var samples := if found.Some? then found.value.samples else [];
    rest + [Profile(key, Push(samples, ms), now, SlowUntil(ms, now, threshold))]
  }

  /** One SEND result; `others` are the medians of the pool's other measured lanes. */
  datatype Result = Result(ms: real, now: int, others: seq<real>, route: Option<string>)

  function Threshold(l: Lane, r: Result): real {
    var own := Sort(Push(l.samples, r.ms))[|Push(l.samples, r.ms)| / 2];
    SlowThreshold(MinOf([own] + r.others))
  }

  /** `recordApplicationRtt` for the send role; a negative reading is ignored. */
  function RecordSend(l: Lane, r: Result): Lane {
    if r.ms < 0.0 then l
    else
      var samples := Push(l.samples, r.ms);
      var median := Sort(samples)[|samples| / 2];
      var threshold := Threshold(l, r);
      var streak := if r.ms > threshold then l.slowStreak + 1 else 0;
      l.(samples := samples,
         sendRtt := Some(median),
         sendSlowUntil := SlowUntil(MaxReal(r.ms, median), r.now, threshold),
         profiles := if r.route.Some? && r.route.value != ""
                     then RecordProfile(l.profiles, r.route.value, r.ms, r.now, threshold)
                     else l.profiles,
         slowStreak := streak,
         degraded := if r.ms > threshold then l.degraded || streak >= DEGRADED_MIN_SAMPLES else false)
  }

  /** `openLane`: a new connection starts with no history. */
  function Reopened(l: Lane): Lane {
    l.(sendRtt := None, samples := [], profiles := [], sendSlowUntil := 0, slowStreak := 0, degraded := false,
       pingRtt := None, addressPrior := None, capacity := None)
  }

  /** A new connection has proved nothing: no results, no flag, nothing held back, no rank, and it scores last. */
  lemma ReopenedIsCold(l: Lane, candidates: seq<Lane>, q: Query)
    ensures var n := Reopened(l);
            && n.id == l.id && n.inFlight == l.inFlight && n.sendRtt == None && n.samples == [] && n.profiles == []
            && !n.degraded && n.slowStreak == 0 && n.capacity == None
            && SendLaneScore(n, candidates, q) == Infinite
            && (q.now >= 0 ==> n.sendSlowUntil <= q.now)
            && n.pingRtt == None && n.addressPrior == None
  {
  }

  function RecordAll(l: Lane, results: seq<Result>): Lane {
    if results == [] then l else RecordSend(RecordAll(l, results[..|results| - 1]), results[|results| - 1])
  }

  /** The readings that count, oldest first. */
  function Readings(results: seq<Result>): seq<real> {
    if results == [] then []
    else Readings(results[..|results| - 1])
         + (if results[|results| - 1].ms < 0.0 then [] else [results[|results| - 1].ms])
  }

  ghost predicate DistinctKeys(profiles: seq<Profile>) {
    forall i, j :: 0 <= i < j < |profiles| ==> profiles[i].key != profiles[j].key
  }

  /** What recording keeps and scoring relies on: measured means sampled, and profiles are never empty. */
  ghost predicate Measured(l: Lane) {
    && |l.samples| <= SAMPLE_WINDOW && l.sendRtt == Median(l.samples)
    && |l.profiles| <= MAX_PROFILES && DistinctKeys(l.profiles)
    && (forall i :: 0 <= i < |l.profiles| ==> 0 < |l.profiles[i].samples| <= SAMPLE_WINDOW)
    && (l.profiles != [] ==> l.samples != [])
  }

  lemma {:induction false} WithoutKeyMember(profiles: seq<Profile>, key: string, p: Profile)
    ensures p in WithoutKey(profiles, key) <==> p in profiles && p.key != key
  {
    if profiles != [] {
      WithoutKeyMember(profiles[1..], key, p);
      assert profiles == [profiles[0]] + profiles[1..];
    }
  }

  lemma {:induction false} WithoutKeyDistinct(profiles: seq<Profile>, key: string)
    requires DistinctKeys(profiles)
    ensures DistinctKeys(WithoutKey(profiles, key))
    ensures FindProfile(profiles, key).Some? ==> |WithoutKey(profiles, key)| < |profiles|
  {
    if profiles != [] {
      WithoutKeyDistinct(profiles[1..], key);
      var rest := WithoutKey(profiles[1..], key);
      forall i | 0 <= i < |rest| ensures rest[i].key != profiles[0].key {
        WithoutKeyMember(profiles[1..], key, rest[i]);
        var j :| 0 <= j < |profiles[1..]| && profiles[1..][j] == rest[i];
        assert profiles[j + 1] == rest[i];
      }
    }
  }

  /** The profile table stays bounded, keyed once, and holds the result just recorded as its newest entry. */
  lemma RecordProfileKeeps(profiles: seq<Profile>, key: string, ms: real, now: int, threshold: real)
    requires |profiles| <= MAX_PROFILES && DistinctKeys(profiles)
    requires forall i :: 0 <= i < |profiles| ==> 0 < |profiles[i].samples| <= SAMPLE_WINDOW
    ensures var after := RecordProfile(profiles, key, ms, now, threshold);
            && 0 < |after| <= MAX_PROFILES && DistinctKeys(after)
            && after[|after| - 1].key == key && after[|after| - 1].lastAt == now
            && (forall i :: 0 <= i < |after| ==> 0 < |after[i].samples| <= SAMPLE_WINDOW)
  {
    WithoutKeyDistinct(profiles, key);
    hide WithoutKey, FindProfile, SlowUntil;
    var after := RecordProfile(profiles, key, ms, now, threshold);
    forall i | 0 <= i < |after| - 1 ensures after[i] in profiles && after[i].key != key {
      if FindProfile(profiles, key).Some? {
        WithoutKeyMember(profiles, key, after[i]);
      }
    }
  }

  lemma RecordKeepsMeasured(l: Lane, r: Result)
    requires Measured(l)
    ensures Measured(RecordSend(l, r)) && Measured(Reopened(l))
  {
    if r.ms >= 0.0 && r.route.Some? && r.route.value != "" {
      RecordProfileKeeps(l.profiles, r.route.value, r.ms, r.now, Threshold(l, r));
    }
    hide RecordProfile, Threshold, Sort, SlowUntil;
  }

  // ----- what one result changes -----

  /** `m` is the upper median: no more than half of the values lie below it, more than half up to it. */
  ghost predicate IsUpperMedian(m: real, values: seq<real>) {
    m in values && |PlacesBelow(values, m)| <= |values| / 2 < |PlacesUpTo(values, m)|
  }

  lemma {:induction false} MedianIsUpper(values: seq<real>)
    requires values != []
    ensures IsUpperMedian(Sort(values)[|values| / 2], values)
  {
    var s, k := Sort(values), |values| / 2;
    SortKeepsMembers(values, s[k]);
    RankOfIndex(s, k);
    SortKeepsCounts(values, UpTo(s[k]));
    SortKeepsCounts(values, Below(s[k]));
    PlacesAreCounted(values, s[k]);
  }

  /** The fastest of the pool's measured lanes, this one with its new median among them. */
  ghost predicate IsFastest(f: real, median: real, others: seq<real>) {
    && (f == median || f in others) && f <= median
    && forall i :: 0 <= i < |others| ==> f <= others[i]
  }

  lemma {:induction false} MinIsLeast(values: seq<real>)
    requires values != []
    ensures MinOf(values) in values && forall i :: 0 <= i < |values| ==> MinOf(values) <= values[i]
  {
    if |values| > 1 {
      MinIsLeast(values[1..]);
      assert forall i :: 0 < i < |values| ==> values[i] == values[1..][i - 1];
    }
  }

  /** A result is slow above one and a half times the fastest lane's median, and above 23 ms in any case. */
  function SlowLine(f: real): real {
    if f <= 0.0 || 1.5 * f >= 23.0 then 23.0 else 1.5 * f
  }

  lemma ThresholdExactly(l: Lane, r: Result, f: real)
    requires IsFastest(f, Sort(Push(l.samples, r.ms))[|Push(l.samples, r.ms)| / 2], r.others)
    ensures Threshold(l, r) == SlowLine(f)
  {
    var own := Sort(Push(l.samples, r.ms))[|Push(l.samples, r.ms)| / 2];
    var all := [own] + r.others;
    MinIsLeast(all);
    assert all[0] == own && forall i :: 0 <= i < |r.others| ==> all[i + 1] == r.others[i];
    assert MinOf(all) == f by {
      if f in r.others {
        var i :| 0 <= i < |r.others| && r.others[i] == f;
        assert all[i + 1] == f;
      }
    }
    hide Sort, Push, MinOf;
  }

  /** Held back for fifteen seconds after a slow result, and not at all after any other. */
  function HeldUntil(slow: bool, now: int): int {
    if slow then now + 15000 else 0
  }

  /**
   * One result: the last seven and their median, whether the lane is held back, and the sender's own profile;
   * a reading below zero counts for nothing.
   */
  lemma RecordExactly(l: Lane, r: Result, f: real)
    requires Measured(l) && r.ms >= 0.0
    requires RecordSend(l, r).sendRtt.Some? && IsFastest(f, RecordSend(l, r).sendRtt.value, r.others)
    ensures var after := RecordSend(l, r);
            && after.samples == LastN(l.samples + [r.ms], 7) && IsUpperMedian(after.sendRtt.value, after.samples)
            && after.sendSlowUntil == HeldUntil(r.ms > SlowLine(f) || after.sendRtt.value > SlowLine(f), r.now)
            && after.slowStreak == (if r.ms > SlowLine(f) then l.slowStreak + 1 else 0)
            && (after.degraded <==> r.ms > SlowLine(f) && (l.degraded || after.slowStreak >= 3))
            && after == l.(samples := after.samples, sendRtt := after.sendRtt, sendSlowUntil := after.sendSlowUntil,
                           profiles := after.profiles, slowStreak := after.slowStreak, degraded := after.degraded)
    ensures RecordSend(l, r).profiles
         == if r.route == None || r.route.value == "" then l.profiles
            else RecordProfile(l.profiles, r.route.value, r.ms, r.now, SlowLine(f))
  {
    MedianIsUpper(Push(l.samples, r.ms));
    ThresholdExactly(l, r, f);
    hide Sort, RecordProfile, Threshold, IsUpperMedian, IsFastest, SlowLine, MinOf;
  }

  lemma NegativeReadingIsIgnored(l: Lane, r: Result)
    requires r.ms < 0.0
    ensures RecordSend(l, r) == l
  {
  }

  /** The results this key had before. */
  ghost predicate HadSamples(profiles: seq<Profile>, key: string, samples: seq<real>) {
    (exists i :: 0 <= i < |profiles| && profiles[i].key == key && profiles[i].samples == samples)
    || (samples == [] && forall i :: 0 <= i < |profiles| ==> profiles[i].key != key)
  }

  /**
   * The sender's profile becomes the newest, with the last seven of its own results; every other stays as it
   * was, but for the least recently used one when a new key needs its place.
   */
  lemma RecordProfileExactly(profiles: seq<Profile>, key: string, ms: real, now: int, threshold: real, before: seq<real>, p: Profile)
    requires |profiles| <= MAX_PROFILES && DistinctKeys(profiles)
    requires forall i :: 0 <= i < |profiles| ==> 0 < |profiles[i].samples| <= SAMPLE_WINDOW
    requires HadSamples(profiles, key, before)
    ensures var after := RecordProfile(profiles, key, ms, now, threshold);
            && after != []
            && after[|after| - 1] == Profile(key, LastN(before + [ms], 7), now, HeldUntil(ms > threshold, now))
            && (p.key != key ==>
                  (p in after <==> p in profiles && !(before == [] && |profiles| == 2048 && p == profiles[0])))
  {
    var found := FindProfile(profiles, key);
    FoundSamples(profiles, key, before);
    WithoutKeyMember(profiles, key, p);
    TailMember(profiles, p);
    hide WithoutKey, FindProfile, HadSamples;
    var after := RecordProfile(profiles, key, ms, now, threshold);
    var rest := after[..|after| - 1];
    assert after == rest + [after[|after| - 1]];
    assert p.key != key ==> (p in after <==> p in rest);
  }

  lemma {:induction false} FoundSamples(profiles: seq<Profile>, key: string, before: seq<real>)
    requires DistinctKeys(profiles) && HadSamples(profiles, key, before)
    requires forall i :: 0 <= i < |profiles| ==> 0 < |profiles[i].samples| <= SAMPLE_WINDOW
    ensures FindProfile(profiles, key).Some? <==> before != []
    ensures before == if FindProfile(profiles, key).Some? then FindProfile(profiles, key).value.samples else []
    ensures |before| <= SAMPLE_WINDOW
  {
    if i :| 0 <= i < |profiles| && profiles[i].key == key && profiles[i].samples == before {
      FoundProfileIsOwn(profiles, i);
    }
    hide FindProfile;
  }

  lemma TailMember(profiles: seq<Profile>, p: Profile)
    requires DistinctKeys(profiles)
    ensures profiles != [] ==> (p in profiles[1..] <==> p in profiles && p != profiles[0])
  {
    if profiles != [] {
      assert profiles == [profiles[0]] + profiles[1..];
      assert forall i :: 0 <= i < |profiles[1..]| ==> profiles[1..][i] == profiles[i + 1];
    }
  }

  /** Readings above the threshold that applied to them, at the end of the run. */
  function SlowTail(l: Lane, results: seq<Result>): nat {
    if results == [] then 0
    else
      var front := results[..|results| - 1];
      var last := results[|results| - 1];
      if last.ms < 0.0 then SlowTail(l, front)
      else if last.ms > Threshold(RecordAll(l, front), last) then SlowTail(l, front) + 1
      else 0
  }

  /**
   * After any results on a fresh connection the window is the last seven readings, the median is theirs,
   * and the lane is flagged degraded exactly when the last three or more readings were all slow.
   */
  lemma {:induction false} WindowAndFlag(l: Lane, results: seq<Result>)
    requires Measured(l) && l == Reopened(l)
    ensures var after := RecordAll(l, results);
            && Measured(after)
            && after.samples == LastN(Readings(results), SAMPLE_WINDOW)
            && after.slowStreak == SlowTail(l, results)
            && (after.degraded <==> SlowTail(l, results) >= DEGRADED_MIN_SAMPLES)
  {
    if results != [] {
      var front, last := results[..|results| - 1], results[|results| - 1];
      WindowAndFlag(l, front);
      RecordKeepsMeasured(RecordAll(l, front), last);
      hide RecordProfile, Threshold, Sort, SlowUntil, Measured;
      if last.ms >= 0.0 {
        assert Readings(results) == Readings(front) + [last.ms];
      } else {
        assert Readings(results) == Readings(front);
      }
    }
  }

  // ----- the lane's own record -----

  /** The measurements of one lane, updated as its responses arrive. */
  class Meter {
    var sendRtt: Option<real>
    var samples: seq<real>
    var profiles: seq<Profile>
    var sendSlowUntil: int
    var slowStreak: nat
    var degraded: bool

    function View(l: Lane): Lane
      reads this
    {
      l.(sendRtt := sendRtt, samples := samples, profiles := profiles, sendSlowUntil := sendSlowUntil,
         slowStreak := slowStreak, degraded := degraded)
    }

    constructor ()
      ensures forall l: Lane :: Measured(View(l))
    {
      sendRtt, samples, profiles, sendSlowUntil, slowStreak, degraded := None, [], [], 0, 0, false;
    }

    method PushSample(ms: real)
      modifies this`samples
      ensures samples == Push(old(samples), ms)
    {
      samples := samples + [ms];
      if |samples| > SAMPLE_WINDOW {
        samples := samples[1..];
      }
    }

    /** `l` supplies the parts of the lane no result changes. */
    method RecordApplicationRtt(l: Lane, r: Result)
      requires Measured(View(l))
      modifies this
      ensures View(l) == RecordSend(old(View(l)), r) && Measured(View(l))
    {
      RecordKeepsMeasured(View(l), r);
      if r.ms < 0.0 {
        return;
      }
      hide Measured, Sort, SlowUntil, RecordProfile, MinOf, Push, SlowThreshold, MaxReal;
      PushSample(r.ms);
      var median := Sort(samples)[|samples| / 2];
      sendRtt := Some(median);
      var threshold := SlowThreshold(MinOf([median] + r.others));
      sendSlowUntil := SlowUntil(MaxReal(r.ms, median), r.now, threshold);
      if r.route.Some? && r.route.value != "" {
        profiles := RecordProfile(profiles, r.route.value, r.ms, r.now, threshold);
      }
      if r.ms > threshold {
        slowStreak := slowStreak + 1;
        if slowStreak >= DEGRADED_MIN_SAMPLES {
          degraded := true;
        }
      } else {
        slowStreak := 0;
        degraded := false;
      }
    }
  }
}
