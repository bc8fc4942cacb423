/** The watchdog over the OpenChat receive chain: re-arm, refresh with a cooldown, then rebuild. */
module StallWatch {
  import opened Prelude

  /** Defaults: 8 000 ms, 15 000 ms, 3 attempts, a tick every 5 000 ms. */
  datatype Config = Config(stallMs: nat, cooldownMs: nat, escalateAfter: nat, tickMs: nat)

  ghost predicate ValidConfig(c: Config) {
    c.stallMs >= 1000 && c.cooldownMs >= 1000 && c.escalateAfter >= 1 && c.tickMs >= 1
  }

  datatype Action =
    | Healthy
    | Wait
    | Rearm(staleMs: int)
    | Refresh(staleMs: int, attempt: nat)
    | RetrySoon(staleMs: int)
    | Rebuild(staleMs: int, attempts: nat)

  /** What one bot's runtime remembers between ticks. */
  datatype Watch = Watch(refreshes: nat, rearmTried: bool, lastRefreshAt: Option<int>)

  datatype Tick = Tick(now: int, hasConnection: bool)

  /** `planStallRecovery`. */
  function Plan(c: Config, w: Watch, lastFetchAt: int, t: Tick): Action {
    var staleMs := t.now - lastFetchAt;
    if staleMs < c.stallMs then Healthy
    else if !t.hasConnection then RetrySoon(staleMs)
    else if !w.rearmTried then Rearm(staleMs)
    else if w.lastRefreshAt.Some? && t.now - w.lastRefreshAt.value < c.cooldownMs then Wait
    else if w.refreshes >= c.escalateAfter then Rebuild(staleMs, w.refreshes)
    else Refresh(staleMs, w.refreshes + 1)
  }

  /** What the timer callback stores for each decision. */
  function Record(w: Watch, t: Tick, a: Action): Watch {
    match a
    case Healthy => Watch(0, false, w.lastRefreshAt)
    case Wait => w
    case RetrySoon(_) => w
    case Rearm(_) => w.(rearmTried := true)
    case Refresh(_, _) => Watch(w.refreshes + 1, w.rearmTried, Some(t.now))
    case Rebuild(_, _) => Watch(0, false, w.lastRefreshAt)
  }

  function Next(c: Config, w: Watch, lastFetchAt: int, t: Tick): Watch {
    Record(w, t, Plan(c, w, lastFetchAt, t))
  }

  /** The decisions over a run of ticks during which no fetch lands. */
  function Actions(c: Config, w: Watch, lastFetchAt: int, ticks: seq<Tick>): (r: seq<Action>)
    ensures |r| == |ticks|
    decreases |ticks|
  {
    if ticks == [] then []
    else [Plan(c, w, lastFetchAt, ticks[0])] + Actions(c, Next(c, w, lastFetchAt, ticks[0]), lastFetchAt, ticks[1..])
  }

  function CountRearms(actions: seq<Action>): nat {
    if actions == [] then 0 else (if actions[0].Rearm? then 1 else 0) + CountRearms(actions[1..])
  }

  function CountRefreshes(actions: seq<Action>): nat {
    if actions == [] then 0 else (if actions[0].Refresh? then 1 else 0) + CountRefreshes(actions[1..])
  }

  function CountPresent(ticks: seq<Tick>): nat {
    if ticks == [] then 0 else (if ticks[0].hasConnection then 1 else 0) + CountPresent(ticks[1..])
  }

  /** The re-arms, the refreshes and the connected ticks, by their places. */
  ghost function Rearms(actions: seq<Action>): set<nat> {
    set i: nat | i < |actions| && actions[i].Rearm?
  }

  ghost function Refreshes(actions: seq<Action>): set<nat> {
    set i: nat | i < |actions| && actions[i].Refresh?
  }

  ghost function Present(ticks: seq<Tick>): set<nat> {
    set i: nat | i < |ticks| && ticks[i].hasConnection
  }

  lemma {:induction false} RearmsAreCounted(actions: seq<Action>)
    ensures |Rearms(actions)| == CountRearms(actions)
  {
    if actions == [] {
      assert Rearms(actions) == {};
    } else {
      var tail := Rearms(actions[1..]);
      RearmsAreCounted(actions[1..]);
      ShiftedSize(tail);
      assert Rearms(actions) == (if actions[0].Rearm? then {0} else {}) + Shifted(tail) by {
        forall i | i in Rearms(actions) ensures i == 0 || i in Shifted(tail) {
          assert i > 0 ==> i - 1 in tail;
        }
      }
    }
  }

  lemma {:induction false} RefreshesAreCounted(actions: seq<Action>)
    ensures |Refreshes(actions)| == CountRefreshes(actions)
  {
    if actions == [] {
      assert Refreshes(actions) == {};
    } else {
      var tail := Refreshes(actions[1..]);
      RefreshesAreCounted(actions[1..]);
      ShiftedSize(tail);
      assert Refreshes(actions) == (if actions[0].Refresh? then {0} else {}) + Shifted(tail) by {
        forall i | i in Refreshes(actions) ensures i == 0 || i in Shifted(tail) {
          assert i > 0 ==> i - 1 in tail;
        }
      }
    }
  }

  lemma {:induction false} TicksAreCounted(ticks: seq<Tick>)
    ensures |Present(ticks)| == CountPresent(ticks)
  {
    if ticks == [] {
      assert Present(ticks) == {};
    } else {
      var tail := Present(ticks[1..]);
      TicksAreCounted(ticks[1..]);
      ShiftedSize(tail);
      assert Present(ticks) == (if ticks[0].hasConnection then {0} else {}) + Shifted(tail) by {
        forall i | i in Present(ticks) ensures i == 0 || i in Shifted(tail) {
          assert i > 0 ==> i - 1 in tail;
        }
      }
    }
  }

  ghost predicate Rebuilds(actions: seq<Action>) {
    exists i :: 0 <= i < |actions| && actions[i].Rebuild?
  }

  /** One unbroken stall: the chain is stale throughout and the clock only moves forward. */
  ghost predicate Unbroken(c: Config, lastFetchAt: int, ticks: seq<Tick>) {
    && (forall i :: 0 <= i < |ticks| ==> ticks[i].now - lastFetchAt >= c.stallMs)
    && (forall i, j :: 0 <= i < j < |ticks| ==> ticks[i].now <= ticks[j].now)
  }

  /** What is remembered after a run of ticks. */
  function After(c: Config, w: Watch, lastFetchAt: int, ticks: seq<Tick>): Watch
    decreases |ticks|
  {
    if ticks == [] then w else After(c, Next(c, w, lastFetchAt, ticks[0]), lastFetchAt, ticks[1..])
  }

  /** The ticks that found a connection. */
  function Connected(ticks: seq<Tick>): seq<Tick> {
    if ticks == [] then [] else (if ticks[0].hasConnection then [ticks[0]] else []) + Connected(ticks[1..])
  }

  /** The decisions other than `retry-soon`. */
  function Taken(actions: seq<Action>): seq<Action> {
    if actions == [] then [] else (if actions[0].RetrySoon? then [] else [actions[0]]) + Taken(actions[1..])
  }

  /** However often a stall finds no connection, its recovery is that of its connected ticks alone. */
  lemma {:induction false} OnlyConnectedTicksCount(c: Config, w: Watch, lastFetchAt: int, ticks: seq<Tick>)
    requires Unbroken(c, lastFetchAt, ticks)
    ensures Taken(Actions(c, w, lastFetchAt, ticks)) == Actions(c, w, lastFetchAt, Connected(ticks))
    ensures After(c, w, lastFetchAt, ticks) == After(c, w, lastFetchAt, Connected(ticks))
    decreases |ticks|
  {
    if ticks != [] {
      var actions := Actions(c, w, lastFetchAt, ticks);
      var next := Next(c, w, lastFetchAt, ticks[0]);
      OnlyConnectedTicksCount(c, next, lastFetchAt, ticks[1..]);
      assert actions[1..] == Actions(c, next, lastFetchAt, ticks[1..]);
      if ticks[0].hasConnection {
        assert Connected(ticks)[1..] == Connected(ticks[1..]);
      } else {
        assert next == w && Connected(ticks) == Connected(ticks[1..]);
      }
    }
  }

  /** Before any rebuild: at most one re-arm, and refreshes never exceed the escalation count. */
  lemma {:induction false} RecoveryIsBounded(c: Config, w: Watch, lastFetchAt: int, ticks: seq<Tick>)
    requires Unbroken(c, lastFetchAt, ticks) && w.refreshes <= c.escalateAfter
    requires !Rebuilds(Actions(c, w, lastFetchAt, ticks))
    ensures |Rearms(Actions(c, w, lastFetchAt, ticks))| <= if w.rearmTried then 0 else 1
    ensures w.refreshes + |Refreshes(Actions(c, w, lastFetchAt, ticks))| <= c.escalateAfter
  {
    StepsAreBounded(c, w, lastFetchAt, ticks);
    RearmsAreCounted(Actions(c, w, lastFetchAt, ticks));
    RefreshesAreCounted(Actions(c, w, lastFetchAt, ticks));
  }

  lemma {:induction false} StepsAreBounded(c: Config, w: Watch, lastFetchAt: int, ticks: seq<Tick>)
    requires Unbroken(c, lastFetchAt, ticks) && w.refreshes <= c.escalateAfter
    requires !Rebuilds(Actions(c, w, lastFetchAt, ticks))
    ensures CountRearms(Actions(c, w, lastFetchAt, ticks)) <= if w.rearmTried then 0 else 1
    ensures w.refreshes + CountRefreshes(Actions(c, w, lastFetchAt, ticks)) <= c.escalateAfter
    decreases |ticks|
  {
    if ticks != [] {
      var actions := Actions(c, w, lastFetchAt, ticks);
      var next := Next(c, w, lastFetchAt, ticks[0]);
      assert actions[0] == Plan(c, w, lastFetchAt, ticks[0]) && !actions[0].Rebuild?;
      assert actions[1..] == Actions(c, next, lastFetchAt, ticks[1..]);
      assert forall i :: 0 <= i < |actions[1..]| ==> actions[1..][i] == actions[i + 1];
      StepsAreBounded(c, next, lastFetchAt, ticks[1..]);
    }
  }

  /** Nothing is torn down within a cooldown of the last refresh. */
  lemma {:induction false} CooldownHolds(c: Config, w: Watch, lastFetchAt: int, ticks: seq<Tick>, since: int)
    requires Unbroken(c, lastFetchAt, ticks)
    requires w.lastRefreshAt.Some? && w.lastRefreshAt.value >= since
    ensures forall i :: 0 <= i < |ticks| && (Actions(c, w, lastFetchAt, ticks)[i].Refresh?
                                             || Actions(c, w, lastFetchAt, ticks)[i].Rebuild?) ==>
              ticks[i].now >= since + c.cooldownMs
    decreases |ticks|
  {
    if ticks != [] {
      var next := Next(c, w, lastFetchAt, ticks[0]);
      CooldownHolds(c, next, lastFetchAt, ticks[1..], since);
    }
  }

  /** Two refreshes of one stall, and a refresh and the rebuild after it, are a cooldown apart. */
  lemma {:induction false} RefreshesAreSpaced(c: Config, w: Watch, lastFetchAt: int, ticks: seq<Tick>, i: nat, j: nat)
    requires Unbroken(c, lastFetchAt, ticks) && i < j < |ticks|
    requires Actions(c, w, lastFetchAt, ticks)[i].Refresh?
    requires Actions(c, w, lastFetchAt, ticks)[j].Refresh? || Actions(c, w, lastFetchAt, ticks)[j].Rebuild?
    ensures ticks[j].now - ticks[i].now >= c.cooldownMs
    decreases |ticks|
  {
    var next := Next(c, w, lastFetchAt, ticks[0]);
    if i == 0 {
      CooldownHolds(c, next, lastFetchAt, ticks[1..], ticks[0].now);
    } else {
      RefreshesAreSpaced(c, next, lastFetchAt, ticks[1..], i - 1, j - 1);
    }
  }

  // ----- the ladder, read off what was done before -----

  /** One tick of the watchdog, and when the chain last fetched by then. */
  datatype Beat = Beat(tick: Tick, lastFetchAt: int)

  const AT_REST := Watch(0, false, None)

  function WatchAfter(c: Config, beats: seq<Beat>): Watch {
    if beats == [] then AT_REST
    else
      var last := beats[|beats| - 1];
      Next(c, WatchAfter(c, beats[..|beats| - 1]), last.lastFetchAt, last.tick)
  }

  function Done(c: Config, beats: seq<Beat>): (r: seq<Action>)
    ensures |r| == |beats|
  {
    if beats == [] then []
    else
      var front, last := beats[..|beats| - 1], beats[|beats| - 1];
      Done(c, front) + [Plan(c, WatchAfter(c, front), last.lastFetchAt, last.tick)]
  }

  /** The refreshes since the chain was last healthy or rebuilt. */
  function Rung(done: seq<Action>): nat {
    if done == [] then 0
    else
      var front, last := done[..|done| - 1], done[|done| - 1];
      if last.Healthy? || last.Rebuild? then 0 else Rung(front) + if last.Refresh? then 1 else 0
  }

  /** A re-arm was tried since. */
  function Rearmed(done: seq<Action>): bool {
    if done == [] then false
    else
      var front, last := done[..|done| - 1], done[|done| - 1];
      if last.Healthy? || last.Rebuild? then false else last.Rearm? || Rearmed(front)
  }

  /** When a connection was last refreshed, however long ago. */
  function LastRefresh(done: seq<Action>, beats: seq<Beat>): Option<int>
    requires |done| == |beats|
  {
    if done == [] then None
    else if done[|done| - 1].Refresh? then Some(beats[|done| - 1].tick.now)
    else LastRefresh(done[..|done| - 1], beats[..|done| - 1])
  }

  lemma {:induction false} WatchRemembers(c: Config, beats: seq<Beat>)
    ensures var done := Done(c, beats);
            WatchAfter(c, beats) == Watch(Rung(done), Rearmed(done), LastRefresh(done, beats))
  {
    if beats != [] {
      var front := beats[..|beats| - 1];
      WatchRemembers(c, front);
      var done := Done(c, beats);
      assert done[..|done| - 1] == Done(c, front);
    }
  }

  /**
   * Every decision, by the clock and by what was done before alone: nothing while fetches are recent, a quick
   * retry without a connection, then one re-arm, then refreshes a cooldown apart, each numbered, and after
   * the last of them a rebuild that starts over.
   */
  lemma {:induction false} DecidesExactly(c: Config, beats: seq<Beat>, t: Tick, lastFetchAt: int)
    ensures var before, done := Done(c, beats), Done(c, beats + [Beat(t, lastFetchAt)]);
            var staleMs, last := t.now - lastFetchAt, LastRefresh(before, beats);
            && done[..|beats|] == before
            && done[|beats|] == if staleMs < c.stallMs then Healthy
                                else if !t.hasConnection then RetrySoon(staleMs)
                                else if !Rearmed(before) then Rearm(staleMs)
                                else if last != None && t.now < last.value + c.cooldownMs then Wait
                                else if Rung(before) < c.escalateAfter then Refresh(staleMs, Rung(before) + 1)
                                else Rebuild(staleMs, Rung(before))
  {
    WatchRemembers(c, beats);
    assert (beats + [Beat(t, lastFetchAt)])[..|beats|] == beats;
    hide WatchAfter, Rung, Rearmed, LastRefresh;
  }

  // ----- escalation always arrives -----

  /** Ticks at least one interval apart. */
  ghost predicate Paced(c: Config, ticks: seq<Tick>) {
    forall i :: 0 < i < |ticks| ==> ticks[i].now >= ticks[i - 1].now + c.tickMs
  }

  /**
   * `k` ticks cover what is left of the cooldown, `per` ticks cover a whole one.  That many
   * connected ticks for each refresh still allowed, plus one, always end in a rebuild.
   */
  lemma {:induction false} EscalationArrives(c: Config, w: Watch, lastFetchAt: int, ticks: seq<Tick>, k: nat, per: nat)
    requires Unbroken(c, lastFetchAt, ticks) && Paced(c, ticks)
    requires ticks != [] && w.rearmTried && w.refreshes <= c.escalateAfter && per >= 1
    requires c.cooldownMs <= per * c.tickMs
    requires w.lastRefreshAt.Some? ==> w.lastRefreshAt.value + c.cooldownMs <= ticks[0].now + k * c.tickMs
    requires CountPresent(ticks) >= (c.escalateAfter - w.refreshes) * per + k + 1
    ensures Rebuilds(Actions(c, w, lastFetchAt, ticks))
    decreases |ticks|
  {
    var actions := Actions(c, w, lastFetchAt, ticks);
    var next, rest := Next(c, w, lastFetchAt, ticks[0]), ticks[1..];
    assert forall i :: 0 <= i < |rest| ==> actions[i + 1] == Actions(c, next, lastFetchAt, rest)[i];
    var a := actions[0];
    if !a.Rebuild? {
      LessAfterTick(k, per, c.tickMs);
      Budget(c.escalateAfter - w.refreshes, per);
      assert CountPresent(rest) >= 1;
      var left := if !ticks[0].hasConnection then k else if a.Wait? then k - 1 else per - 1;
      assert rest[0].now >= ticks[0].now + c.tickMs;
      EscalationArrives(c, next, lastFetchAt, rest, left, per);
      var i :| 0 <= i < |rest| && Actions(c, next, lastFetchAt, rest)[i].Rebuild?;
      assert actions[i + 1].Rebuild?;
    }
  }

  lemma LessAfterTick(k: nat, per: nat, tickMs: nat)
    ensures k >= 1 ==> (k - 1) * tickMs + tickMs == k * tickMs
    ensures per >= 1 ==> (per - 1) * tickMs + tickMs == per * tickMs
    ensures 0 * tickMs == 0
  {
  }

  lemma Budget(rounds: int, per: nat)
    ensures rounds >= 1 ==> (rounds - 1) * per + per == rounds * per
    ensures rounds >= 0 ==> rounds * per >= 0
  {
  }

  /**
   * Main result.  From the first connected tick of a stall, with no other refresh in between,
   * a rebuild comes within `(escalateAfter + 1) * ceil(cooldown / tick)` further connected ticks.
   */
  lemma {:induction false} StallAlwaysEscalates(c: Config, w: Watch, lastFetchAt: int, ticks: seq<Tick>)
    requires ValidConfig(c) && Unbroken(c, lastFetchAt, ticks) && Paced(c, ticks)
    requires ticks != [] && ticks[0].hasConnection
    requires !w.rearmTried && w.refreshes == 0
    requires w.lastRefreshAt.Some? ==> w.lastRefreshAt.value <= ticks[0].now
    requires |Present(ticks)| >= 1 + (c.escalateAfter + 1) * CeilDiv(c.cooldownMs, c.tickMs)
    ensures Rebuilds(Actions(c, w, lastFetchAt, ticks))
  {
    TicksAreCounted(ticks);
    var per := CeilDiv(c.cooldownMs, c.tickMs);
    CeilCovers(c.cooldownMs, c.tickMs);
    var next, rest := Next(c, w, lastFetchAt, ticks[0]), ticks[1..];
    var actions := Actions(c, w, lastFetchAt, ticks);
    Budget(c.escalateAfter + 1, per);
    assert CountPresent(rest) >= c.escalateAfter * per + per;
    assert rest != [];
    LessAfterTick(0, per, c.tickMs);
    EscalationArrives(c, next, lastFetchAt, rest, per - 1, per);
    var i :| 0 <= i < |rest| && Actions(c, next, lastFetchAt, rest)[i].Rebuild?;
    assert actions[i + 1].Rebuild?;
  }

  lemma CeilCovers(a: nat, b: nat)
    requires a >= 1 && b >= 1
    ensures CeilDiv(a, b) >= 1 && a <= CeilDiv(a, b) * b
  {
    var q, r := (a + b - 1) / b, (a + b - 1) % b;
    assert a + b - 1 == b * q + r;
    PositiveFactor(b, q);
  }

  lemma PositiveFactor(b: int, q: int)
    requires b > 0 && b * q > 0
    ensures q > 0
  {
  }

  // ----- the program -----

  class Runtime {
    const config: Config
    var squareStallRefreshes: nat
    var squareStallRearmTried: bool
    var lastPushRefreshAt: Option<int>

    function View(): Watch
      reads this
    {
      Watch(squareStallRefreshes, squareStallRearmTried, lastPushRefreshAt)
    }

    constructor (config: Config)
      ensures this.config == config && View() == Watch(0, false, None)
    {
      this.config := config;
      squareStallRefreshes, squareStallRearmTried, lastPushRefreshAt := 0, false, None;
    }

    /** Closes the connection when there is one, and only then records the attempt's time. */
    method RefreshPushConnection(t: Tick) returns (attempted: bool)
      modifies this`lastPushRefreshAt
      ensures attempted == t.hasConnection
      ensures lastPushRefreshAt == if t.hasConnection then Some(t.now) else old(lastPushRefreshAt)
    {
      if !t.hasConnection {
        return false;
      }
      lastPushRefreshAt := Some(t.now);
      attempted := true;
    }

    method OnTick(t: Tick, lastFetchAt: int) returns (plan: Action)
      modifies this
      ensures plan == Plan(config, old(View()), lastFetchAt, t)
      ensures View() == Next(config, old(View()), lastFetchAt, t)
    {
      plan := Plan(config, View(), lastFetchAt, t);
      match plan
      case Healthy =>
        squareStallRefreshes := 0;
        squareStallRearmTried := false;
      case Wait =>
      case RetrySoon(_) =>
      case Rearm(_) => squareStallRearmTried := true;
      case Refresh(_, _) =>
        var attempted := RefreshPushConnection(t);
        squareStallRefreshes := squareStallRefreshes + 1;
      case Rebuild(_, _) =>
        squareStallRefreshes := 0;
        squareStallRearmTried := false;
    }
  }
}
