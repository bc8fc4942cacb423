/** Admission control for outbound sends: at most `maxSends` in any rolling window, per bot. */
module RateLimiter {
  import opened Prelude

  /** The environment can override both; the defaults are 20 sends in 60 000 ms. */
  datatype Config = Config(maxSends: nat, windowMs: nat)

  datatype Admission = Admission(allowed: bool, retryAfterMs: int)

  /** Send times of one bot, oldest first. */
  ghost predicate Ordered(times: seq<int>) {
    forall i, j :: 0 <= i < j < |times| ==> times[i] <= times[j]
  }

  /** Admissions still inside the window that ends at `now`: a plain filter over all of them. */
  function Live(times: seq<int>, now: int, windowMs: int): (r: seq<int>)
    ensures |r| <= |times|
  {
    if times == [] then []
    else if now - times[0] < windowMs then [times[0]] + Live(times[1..], now, windowMs)
    else Live(times[1..], now, windowMs)
  }

  /** In time order the expired admissions are exactly a prefix. */
  lemma {:induction false} LiveIsSuffix(times: seq<int>, now: int, windowMs: int, k: nat)
    requires k <= |times|
    requires forall i :: 0 <= i < k ==> now - times[i] >= windowMs
    requires forall i :: k <= i < |times| ==> now - times[i] < windowMs
    ensures Live(times, now, windowMs) == times[k..]
  {
    if times != [] {
      LiveIsSuffix(times[1..], now, windowMs, if k == 0 then 0 else k - 1);
    }
  }

  lemma {:induction false} LiveAppend(a: seq<int>, b: seq<int>, now: int, windowMs: int)
    ensures Live(a + b, now, windowMs) == Live(a, now, windowMs) + Live(b, now, windowMs)
  {
    if a == [] {
      assert a + b == b;
    } else {
      assert (a + b)[1..] == a[1..] + b;
      LiveAppend(a[1..], b, now, windowMs);
    }
  }

  /** Trimming what had expired earlier loses nothing that is live later. */
  lemma {:induction false} LiveOfLive(times: seq<int>, then_: int, now: int, windowMs: int)
    requires then_ <= now
    ensures Live(Live(times, then_, windowMs), now, windowMs) == Live(times, now, windowMs)
  {
    if times != [] {
      LiveOfLive(times[1..], then_, now, windowMs);
      var rest := Live(times[1..], then_, windowMs);
      assert ([times[0]] + rest)[1..] == rest;
    }
  }

  // ----- the decision, on the full history of admissions -----

  /** What the limiter should answer, given every admission ever made. */
  function Decide(c: Config, history: seq<int>, now: int): Admission {
    var live := Live(history, now, c.windowMs);
    if |live| >= c.maxSends then
      Admission(false, if live == [] then 0 else Max(0, c.windowMs - (now - live[0])))
    else Admission(true, 0)
  }

  /** The history after answering. */
  function After(c: Config, history: seq<int>, now: int): seq<int> {
    if Decide(c, history, now).allowed then history + [now] else history
  }

  function Attempts(c: Config, times: seq<int>): seq<int> {
    if times == [] then [] else After(c, Attempts(c, times[..|times| - 1]), times[|times| - 1])
  }

  /** Any `maxSends + 1` consecutive admissions span at least a whole window. */
  ghost predicate Spaced(c: Config, history: seq<int>) {
    forall i, j :: 0 <= i && j == i + c.maxSends && j < |history| ==> history[j] - history[i] >= c.windowMs
  }

  lemma {:induction false} LiveSize(times: seq<int>, now: int, windowMs: int, k: nat)
    requires Ordered(times) && k < |times|
    ensures now - times[k] < windowMs ==> |Live(times, now, windowMs)| >= |times| - k
    ensures now - times[k] >= windowMs ==> |Live(times, now, windowMs)| < |times| - k
  {
    if k > 0 {
      LiveSize(times[1..], now, windowMs, k - 1);
    } else if now - times[0] < windowMs {
      AllLive(times, now, windowMs);
    }
  }

  lemma {:induction false} AllLive(times: seq<int>, now: int, windowMs: int)
    requires forall i :: 0 <= i < |times| ==> now - times[i] < windowMs
    ensures Live(times, now, windowMs) == times
  {
    if times != [] {
      AllLive(times[1..], now, windowMs);
    }
  }

  lemma {:induction false} AdmissionsAreSpaced(c: Config, times: seq<int>)
    requires Ordered(times) && c.maxSends >= 1
    ensures Ordered(Attempts(c, times)) && Spaced(c, Attempts(c, times))
    ensures times != [] ==> forall i :: 0 <= i < |Attempts(c, times)| ==> Attempts(c, times)[i] <= times[|times| - 1]
    ensures |Attempts(c, times)| <= |times|
  {
    if times != [] {
      var front, now := times[..|times| - 1], times[|times| - 1];
      AdmissionsAreSpaced(c, front);
      var history := Attempts(c, front);
      if front != [] {
        assert front[|front| - 1] <= now;
      }
      var k := |history| - c.maxSends;
      if k >= 0 && Decide(c, history, now).allowed {
        LiveSize(history, now, c.windowMs, k);
      }
    }
  }

  /** How many admissions fall in `[from_, from_ + windowMs)`. */
  function CountIn(history: seq<int>, from_: int, windowMs: int): nat {
    if history == [] then 0
    else CountIn(history[..|history| - 1], from_, windowMs)
         + if from_ <= history[|history| - 1] < from_ + windowMs then 1 else 0
  }

  /** Only indices `k..m` of the history can lie in the window. */
  lemma {:induction false} CountBound(history: seq<int>, from_: int, windowMs: int, k: nat, m: nat)
    requires k <= m <= |history|
    requires forall i :: 0 <= i < k ==> history[i] < from_
    requires forall i :: m <= i < |history| ==> history[i] >= from_ + windowMs
    ensures CountIn(history, from_, windowMs) <= m - k
  {
    if history != [] {
      var front := history[..|history| - 1];
      if m < |history| {
        CountBound(front, from_, windowMs, k, m);
      } else if k < |history| {
        CountBound(front, from_, windowMs, k, m - 1);
      } else {
        CountBound(front, from_, windowMs, k - 1, m - 1);
      }
    }
  }

  /** How many leading elements lie below `bound`. */
  function FirstAtLeast(history: seq<int>, bound: int): (k: nat)
    ensures k <= |history|
    ensures forall i :: 0 <= i < k ==> history[i] < bound
    ensures k < |history| ==> history[k] >= bound
  {
    if history == [] || history[0] >= bound then 0 else 1 + FirstAtLeast(history[1..], bound)
  }

  lemma {:induction false} SpacedCount(c: Config, history: seq<int>, from_: int)
    requires Ordered(history) && Spaced(c, history)
    ensures CountIn(history, from_, c.windowMs) <= c.maxSends
  {
    var k, m := FirstAtLeast(history, from_), FirstAtLeast(history, from_ + c.windowMs);
    CountBound(history, from_, c.windowMs, k, Max(k, m));
    SpacedAt(c, history, k);
  }

  lemma SpacedAt(c: Config, history: seq<int>, k: nat)
    requires Spaced(c, history)
    ensures k + c.maxSends < |history| ==> history[k + c.maxSends] - history[k] >= c.windowMs
  {
  }

  /** The admissions in `[from_, from_ + windowMs)`. */
  ghost function Within(history: seq<int>, from_: int, windowMs: int): set<nat> {
    set i: nat | i < |history| && from_ <= history[i] < from_ + windowMs
  }

  lemma {:induction false} WithinIsCounted(history: seq<int>, from_: int, windowMs: int)
    ensures |Within(history, from_, windowMs)| == CountIn(history, from_, windowMs)
  {
    if history == [] {
      assert Within(history, from_, windowMs) == {};
    } else {
      var n := |history| - 1;
      WithinIsCounted(history[..n], from_, windowMs);
      assert Within(history, from_, windowMs)
          == Within(history[..n], from_, windowMs) + if from_ <= history[n] < from_ + windowMs then {n} else {};
    }
  }

  /** Main result: however attempts arrive, no window of the configured length holds more than the quota. */
  lemma {:induction false} EveryWindowWithinQuota(c: Config, times: seq<int>, from_: int)
    requires Ordered(times) && c.maxSends >= 1
    ensures |Within(Attempts(c, times), from_, c.windowMs)| <= c.maxSends
  {
    AdmissionsAreSpaced(c, times);
    SpacedCount(c, Attempts(c, times), from_);
    WithinIsCounted(Attempts(c, times), from_, c.windowMs);
  }

  /** The admissions less than a window ago. */
  ghost function Recent(history: seq<int>, now: int, windowMs: int): set<nat> {
    set i: nat | i < |history| && now - history[i] < windowMs
  }

  lemma {:induction false} RecentIsCounted(history: seq<int>, now: int, windowMs: int)
    ensures |Recent(history, now, windowMs)| == |Live(history, now, windowMs)|
  {
    if history == [] {
      assert Recent(history, now, windowMs) == {};
    } else {
      var tail := Recent(history[1..], now, windowMs);
      RecentIsCounted(history[1..], now, windowMs);
      ShiftedSize(tail);
      assert Recent(history, now, windowMs) == (if now - history[0] < windowMs then {0} else {}) + Shifted(tail) by {
        forall i | i in Recent(history, now, windowMs) ensures i == 0 || i in Shifted(tail) {
          assert i > 0 ==> i - 1 in tail;
        }
      }
    }
  }

  /**
   * An attempt is admitted exactly while fewer than the quota were admitted in the window behind it, and an
   * admission, and nothing else, is what later attempts are held against.
   */
  lemma {:induction false} AdmittedExactly(c: Config, times: seq<int>, now: int)
    requires c.maxSends >= 1
    ensures var history := Attempts(c, times);
            var allowed := |Recent(history, now, c.windowMs)| < c.maxSends;
            && Decide(c, history, now).allowed == allowed
            && (allowed ==> Decide(c, history, now).retryAfterMs == 0)
            && Attempts(c, times + [now]) == history + if allowed then [now] else []
  {
    assert (times + [now])[..|times|] == times;
    RecentIsCounted(Attempts(c, times), now, c.windowMs);
    hide Live, Recent;
  }

  /**
   * A refusal means the quota is exactly used up by the window ending now, and its delay is
   * exact: with no other admission, the same bot is refused until then and admitted then.
   */
  lemma RefusalIsExact(c: Config, times: seq<int>, now: int)
    requires Ordered(times + [now]) && c.maxSends >= 1
    requires !Decide(c, Attempts(c, times), now).allowed
    ensures var history := Attempts(c, times);
            var retry := Decide(c, history, now).retryAfterMs;
            && |Live(history, now, c.windowMs)| == c.maxSends
            && 0 < retry <= c.windowMs
            && Decide(c, history, now + retry).allowed
            && forall later :: now <= later < now + retry ==> !Decide(c, history, later).allowed
  {
    assert forall i :: 0 <= i < |times| ==> times[i] == (times + [now])[i];
    assert (times + [now])[|times|] == now;
    AdmissionsAreSpaced(c, times);
    var history := Attempts(c, times);
    assert forall i :: 0 <= i < |history| ==> history[i] <= now;
    hide Attempts, Ordered;
    QuotaExactlyUsed(c, history, now);
  }

  lemma QuotaExactlyUsed(c: Config, history: seq<int>, now: int)
    requires Ordered(history) && Spaced(c, history) && c.maxSends >= 1
    requires forall i :: 0 <= i < |history| ==> history[i] <= now
    requires !Decide(c, history, now).allowed
    ensures var retry := Decide(c, history, now).retryAfterMs;
            && |Live(history, now, c.windowMs)| == c.maxSends
            && 0 < retry <= c.windowMs
            && Decide(c, history, now + retry).allowed
            && forall later :: now <= later < now + retry ==> !Decide(c, history, later).allowed
  {
    var k := FirstAtLeast(history, now - c.windowMs + 1);
    LiveIsSuffix(history, now, c.windowMs, k);
    SpacedAt(c, history, k);
    var retry := Decide(c, history, now).retryAfterMs;
    assert retry == c.windowMs - (now - history[k]);
    LiveSize(history, now + retry, c.windowMs, k);
    forall later | now <= later < now + retry ensures !Decide(c, history, later).allowed {
      LiveSize(history, later, c.windowMs, k);
    }
  }

  // ----- the program -----

  /** The trimmed list a bot keeps is its whole admission history, filtered at its last attempt. */
  ghost predicate Represents(c: Config, stored: seq<int>, times: seq<int>) {
    && times != [] && Ordered(times)
    && stored == Live(Attempts(c, times), times[|times| - 1], c.windowMs)
  }

  /** What is stored stands for the whole history at any later time. */
  lemma {:induction false} StoredIsLive(c: Config, times: seq<int>, now: int, stored: seq<int>)
    requires c.maxSends >= 1 && Ordered(times + [now])
    requires if times == [] then stored == [] else Represents(c, stored, times)
    ensures Ordered(stored)
    ensures Live(stored, now, c.windowMs) == Live(Attempts(c, times), now, c.windowMs)
  {
    if times != [] {
      assert (times + [now])[|times|] == now && (times + [now])[|times| - 1] == times[|times| - 1];
      AdmissionsAreSpaced(c, times);
      var history, then_ := Attempts(c, times), times[|times| - 1];
      hide Attempts;
      LiveOfLive(history, then_, now, c.windowMs);
      var k := FirstAtLeast(history, then_ - c.windowMs + 1);
      LiveIsSuffix(history, then_, c.windowMs, k);
    }
  }

  class Limiter {
    const config: Config
    var states: map<int, seq<int>>
    /** Per bot: every attempt since it was last cleared. */
    ghost var attempts: map<int, seq<int>>

    ghost predicate Valid()
      reads this
    {
      && config.maxSends >= 1 && config.windowMs > 0
      && states.Keys == attempts.Keys
      && forall b :: b in states ==> attempts[b] != [] && Represents(config, states[b], attempts[b])
    }

    constructor (config: Config)
      requires config.maxSends >= 1 && config.windowMs > 0
      ensures Valid() && this.config == config && attempts == map[]
    {
      this.config := config;
      states, attempts := map[], map[];
    }

    ghost function AttemptsOf(botId: int): seq<int>
      reads this
    {
      if botId in attempts then attempts[botId] else []
    }

    method TryAcquireSend(botId: int, now: int) returns (r: Admission)
      requires Valid()
      requires Ordered(AttemptsOf(botId) + [now])
      modifies this
      ensures Valid()
      ensures attempts == old(attempts)[botId := old(AttemptsOf(botId)) + [now]]
      ensures r == Decide(config, Attempts(config, old(AttemptsOf(botId))), now)
      ensures r.allowed <==> |Recent(Attempts(config, old(AttemptsOf(botId))), now, config.windowMs)| < config.maxSends
    {
      hide Represents, Decide, Attempts, Recent, Ordered, Live;
      AdmittedExactly(config, AttemptsOf(botId), now);
      ghost var times := AttemptsOf(botId);
      var sentAt := if botId in states then states[botId] else [];
      StoredIsLive(config, times, now, sentAt);
      r, sentAt := Admit(config, sentAt, now, times);
      states := states[botId := sentAt];
      attempts := attempts[botId := times + [now]];
    }

    /** Trim, then refuse or record. */
    static method Admit(config: Config, sentAt: seq<int>, now: int, ghost times: seq<int>)
      returns (r: Admission, kept: seq<int>)
      requires config.maxSends >= 1 && config.windowMs > 0 && Ordered(times + [now]) && Ordered(sentAt)
      requires Live(sentAt, now, config.windowMs) == Live(Attempts(config, times), now, config.windowMs)
      ensures r == Decide(config, Attempts(config, times), now)
      ensures Represents(config, kept, times + [now])
    {
      ghost var history := Attempts(config, times);
      assert (times + [now])[..|times|] == times;
      assert Attempts(config, times + [now]) == After(config, history, now);
      hide Attempts, Ordered;
      kept := Trim(sentAt, now, config.windowMs);
      if |kept| >= config.maxSends {
        return Admission(false, Max(0, config.windowMs - (now - kept[0]))), kept;
      }
      LiveAppend(history, [now], now, config.windowMs);
      kept := kept + [now];
      r := Admission(true, 0);
    }

    /** The loop that drops the expired prefix. */
    static method Trim(sentAt: seq<int>, now: int, windowMs: int) returns (kept: seq<int>)
      requires Ordered(sentAt)
      ensures kept == Live(sentAt, now, windowMs)
    {
      var firstLive := 0;
      while firstLive < |sentAt| && now - sentAt[firstLive] >= windowMs
        invariant 0 <= firstLive <= |sentAt|
        invariant forall i :: 0 <= i < firstLive ==> now - sentAt[i] >= windowMs
      {
        firstLive := firstLive + 1;
      }
      LiveIsSuffix(sentAt, now, windowMs, firstLive);
      kept := if firstLive > 0 then sentAt[firstLive..] else sentAt;
    }

    method ClearThrottle(botId: int)
      requires Valid()
      modifies this
      ensures Valid() && attempts == old(attempts) - {botId}
    {
      states := states - {botId};
      attempts := attempts - {botId};
    }
  }
}
