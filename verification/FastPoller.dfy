/** One OpenChat's dedicated poll: a cursor walked over the room's event log, primed before it delivers. */
module FastPoller {
  import opened Prelude

  const INITIAL_DRAIN_LIMIT: nat := 10
  const BACKOFF_MIN_MS: nat := 50
  const BACKOFF_MAX_MS: nat := 1000

  /** Events are named by their position in the room's log; a sync token is the position it resumes from. */
  datatype Phase = Waiting(ms: nat) | Fetching | Done

  datatype Poller = Poller(
    phase: Phase,
    aborted: bool,
    token: Option<nat>,
    primed: bool,
    drainCalls: nat,
    failures: nat,
    outstanding: int,
    pages: nat,
    start: nat,
    delivered: seq<nat>,
    lost: nat)

  function Fresh(initialDelayMs: nat): Poller {
    Poller(Waiting(initialDelayMs), false, None, false, 0, 0, 0, 0, 0, [], 0)
  }

  /** `min(1000, 50 * 2 ** min(failures - 1, 5))`, for the first failure on. */
  function Backoff(failures: nat): nat
    requires failures >= 1
  {
    Min(BACKOFF_MAX_MS, BACKOFF_MIN_MS * Power2(Min(failures - 1, 5)))
  }

  lemma {:induction false} Power2Ascends(a: nat, b: nat)
    requires a <= b
    ensures Power2(a) <= Power2(b)
  {
    if a < b {
      Power2Ascends(a, b - 1);
    }
  }

  lemma BackoffClimbs(a: nat, b: nat)
    requires 1 <= a <= b
    ensures BACKOFF_MIN_MS <= Backoff(a) <= Backoff(b) <= BACKOFF_MAX_MS
    ensures a >= 6 ==> Backoff(a) == BACKOFF_MAX_MS
  {
    Power2Ascends(Min(a - 1, 5), Min(b - 1, 5));
    assert Power2(5) == 32;
  }

  /** The positions `from .. from + n - 1`. */
  function Positions(from: nat, n: nat): (r: seq<nat>)
    ensures |r| == n && forall i :: 0 <= i < n ==> r[i] == from + i
  {
    seq(n, i requires 0 <= i < n => from + i)
  }

  /** How one fetch ends, and what the caller's handlers do with it. */
  datatype Outcome =
    | /** `n` events from the token, or from `origin` when there was none; handler `throwsAt` may throw. */
      Page(origin: nat, n: nat, throwsAt: Option<nat>, quietMs: nat, reporterThrows: bool)
    | /** The request failed, timed out or was cut; the error reporter may itself throw. */
      Broken(reporterThrows: bool)

  /** A poll is woken by its timer, settles its fetch, or hears that it is no longer wanted. */
  datatype Event = Wake | FetchTimeout | Settle(outcome: Outcome) | Abort

  /** The position a page starts from. */
  function From(p: Poller, origin: nat): nat {
    p.token.GetOr(origin)
  }

  /** The first handler that throws ends the page: what it was given counts, what follows is never seen. */
  function Handed(n: nat, throwsAt: Option<nat>): nat {
    if throwsAt.Some? && throwsAt.value < n then throwsAt.value + 1 else n
  }

  function FailedAttempt(p: Poller, reporterThrows: bool): Poller {
    var failed := p.(failures := p.failures + 1);
    failed.(phase := if reporterThrows then Done else Waiting(Backoff(failed.failures)))
  }

  function OnPage(p: Poller, origin: nat, n: nat, throwsAt: Option<nat>, quietMs: nat, reporterThrows: bool, intervalMs: nat): Poller {
    var from := From(p, origin);
    var read := p.(token := Some(from + n), failures := 0, pages := p.pages + 1);
    if !p.primed then
      var drained := p.drainCalls + 1;
      read.(drainCalls := drained, primed := n == 0 || drained >= INITIAL_DRAIN_LIMIT, start := from + n,
            phase := Waiting(intervalMs))
    else
      var handed := Handed(n, throwsAt);
      var after := read.(delivered := p.delivered + Positions(from, handed), lost := p.lost + (n - handed));
      if throwsAt.Some? && throwsAt.value < n then FailedAttempt(after, reporterThrows)
      else after.(phase := Waiting(if n > 0 then Max(intervalMs, quietMs) else intervalMs))
  }

  function Step(p: Poller, e: Event, intervalMs: nat): Poller {
    match e
    case Wake =>
      if !p.phase.Waiting? then p
      else if p.aborted then p.(phase := Done)
      else p.(phase := Fetching, outstanding := p.outstanding + 1)
    case FetchTimeout => p
    case Settle(outcome) =>
      if !p.phase.Fetching? then p
      else
        var settled := p.(outstanding := p.outstanding - 1);
        if p.aborted then settled.(phase := Done)
        else (match outcome
              case Page(origin, n, throwsAt, quietMs, reporterThrows) =>
                OnPage(settled, origin, n, throwsAt, quietMs, reporterThrows, intervalMs)
              case Broken(reporterThrows) => FailedAttempt(settled, reporterThrows))
    case Abort => p.(aborted := true)
  }

  function Run(p: Poller, events: seq<Event>, intervalMs: nat): Poller
    decreases |events|
  {
    if events == [] then p else Run(Step(p, events[0], intervalMs), events[1..], intervalMs)
  }

  // ----- what every run keeps -----

  ghost predicate Ascending(s: seq<nat>) {
    forall i, j :: 0 <= i < j < |s| ==> s[i] < s[j]
  }

  /** Delivered positions ascend inside what has been read since priming, and what is missing was lost. */
  ghost predicate Delivery(p: Poller) {
    && Ascending(p.delivered)
    && (p.primed ==> p.token.Some? && p.start <= p.token.value && |p.delivered| + p.lost == p.token.value - p.start)
    && (forall i :: 0 <= i < |p.delivered| ==> p.token.Some? && p.start <= p.delivered[i] < p.token.value)
    && (!p.primed ==> p.delivered == [] && p.lost == 0)
  }

  /** One fetch at a time; priming ends at an empty page or at the drain limit, whichever comes first. */
  ghost predicate Discipline(p: Poller) {
    && p.outstanding == (if p.phase.Fetching? then 1 else 0)
    && p.drainCalls <= p.pages
    && (!p.primed ==> p.pages == p.drainCalls < INITIAL_DRAIN_LIMIT)
    && (p.primed ==> 1 <= p.drainCalls <= INITIAL_DRAIN_LIMIT)
  }

  lemma PageKeepsDelivery(p: Poller, origin: nat, n: nat, throwsAt: Option<nat>, quietMs: nat, reporterThrows: bool, intervalMs: nat)
    requires Delivery(p)
    ensures Delivery(OnPage(p, origin, n, throwsAt, quietMs, reporterThrows, intervalMs))
  {
    hide Backoff;
  }

  lemma StepKeeps(p: Poller, e: Event, intervalMs: nat)
    requires Delivery(p) && Discipline(p)
    ensures Delivery(Step(p, e, intervalMs)) && Discipline(Step(p, e, intervalMs))
  {
    hide Backoff;
    if e.Settle? && e.outcome.Page? && p.phase.Fetching? && !p.aborted {
      var o := e.outcome;
      PageKeepsDelivery(p.(outstanding := p.outstanding - 1), o.origin, o.n, o.throwsAt, o.quietMs, o.reporterThrows, intervalMs);
      hide Delivery;
    }
  }

  /**
   * Over every run: at most one fetch is outstanding, nothing is delivered before priming, ten good pages
   * always prime, and events arrive in log order, none twice.
   */
  lemma {:induction false} EveryRunIsDisciplined(p: Poller, events: seq<Event>, intervalMs: nat)
    requires Delivery(p) && Discipline(p)
    ensures Delivery(Run(p, events, intervalMs)) && Discipline(Run(p, events, intervalMs))
    ensures Run(p, events, intervalMs).outstanding <= 1
    ensures Run(p, events, intervalMs).pages >= INITIAL_DRAIN_LIMIT ==> Run(p, events, intervalMs).primed
    decreases |events|
  {
    if events != [] {
      StepKeeps(p, events[0], intervalMs);
      EveryRunIsDisciplined(Step(p, events[0], intervalMs), events[1..], intervalMs);
    }
    hide Step, Delivery;
  }

  // ----- contiguity -----

  lemma {:induction false} AscendingSpread(s: seq<nat>, i: nat)
    requires Ascending(s) && i < |s|
    ensures s[i] >= s[0] + i
  {
    if i > 0 {
      AscendingSpread(s, i - 1);
    }
  }

  lemma {:induction false} AscendingRoom(s: seq<nat>, i: nat)
    requires Ascending(s) && i < |s|
    ensures s[|s| - 1] >= s[i] + (|s| - 1 - i)
    decreases |s| - i
  {
    if i < |s| - 1 {
      AscendingRoom(s, i + 1);
    }
  }

  /** Ascending positions that fill an interval are the whole interval. */
  lemma FullIsContiguous(s: seq<nat>, lo: nat, hi: nat)
    requires Ascending(s) && lo <= hi && |s| == hi - lo && forall i :: 0 <= i < |s| ==> lo <= s[i] < hi
    ensures s == Positions(lo, hi - lo)
  {
    forall i | 0 <= i < |s| ensures s[i] == lo + i {
      AscendingSpread(s, i);
      AscendingRoom(s, i);
    }
  }

  /** Delivery is the log itself from where priming ended, gap-free, exactly while nothing was lost. */
  lemma ContiguousExactlyWithoutLoss(p: Poller)
    requires Delivery(p) && p.primed
    ensures p.delivered == Positions(p.start, p.token.value - p.start) <==> p.lost == 0
  {
    if p.lost == 0 {
      FullIsContiguous(p.delivered, p.start, p.token.value);
    }
  }

  /** A handler throws on an event that is not the last of its page. */
  predicate CutsPage(p: Poller, e: Event) {
    && p.phase.Fetching? && !p.aborted && p.primed
    && e.Settle? && e.outcome.Page? && e.outcome.throwsAt.Some? && e.outcome.throwsAt.value + 1 < e.outcome.n
  }

  predicate NeverCut(p: Poller, events: seq<Event>, intervalMs: nat)
    decreases |events|
  {
    events == [] || (!CutsPage(p, events[0]) && NeverCut(Step(p, events[0], intervalMs), events[1..], intervalMs))
  }

  lemma StepLoses(p: Poller, e: Event, intervalMs: nat)
    ensures Step(p, e, intervalMs).lost >= p.lost
    ensures Step(p, e, intervalMs).lost > p.lost <==> CutsPage(p, e)
  {
    hide Backoff, Positions;
  }

  /**
   * Failed fetches never lose an event; a run loses some exactly when a handler throws before the last
   * event of a page, because the token has already moved past the rest.
   */
  lemma {:induction false} LossExactlyWhenCut(p: Poller, events: seq<Event>, intervalMs: nat)
    ensures Run(p, events, intervalMs).lost >= p.lost
    ensures Run(p, events, intervalMs).lost == p.lost <==> NeverCut(p, events, intervalMs)
    decreases |events|
  {
    if events != [] {
      StepLoses(p, events[0], intervalMs);
      LossExactlyWhenCut(Step(p, events[0], intervalMs), events[1..], intervalMs);
    }
    hide Step, CutsPage;
  }

  /** From a cold start: whatever is primed has delivered the contiguous log exactly when no page was cut. */
  lemma {:induction false} DeliversTheLog(initialDelayMs: nat, events: seq<Event>, intervalMs: nat)
    requires Run(Fresh(initialDelayMs), events, intervalMs).primed
    ensures var p := Run(Fresh(initialDelayMs), events, intervalMs);
            p.token.Some? && p.start <= p.token.value
            && (p.delivered == Positions(p.start, p.token.value - p.start)
                <==> NeverCut(Fresh(initialDelayMs), events, intervalMs))
  {
    var cold := Fresh(initialDelayMs);
    assert Delivery(cold) && Discipline(cold);
    EveryRunIsDisciplined(cold, events, intervalMs);
    LossExactlyWhenCut(cold, events, intervalMs);
    ContiguousExactlyWithoutLoss(Run(cold, events, intervalMs));
    hide Run, NeverCut;
  }

  // ----- what each step does -----

  /** The first retry waits 50 ms, each further one twice as long, none longer than a second. */
  lemma BackoffDoubles(failures: nat)
    requires failures >= 1
    ensures failures == 1 ==> Backoff(failures) == 50
    ensures Backoff(failures + 1) == Min(1000, 2 * Backoff(failures))
  {
    assert Power2(5) == 32;
    assert failures >= 6 ==> Min(failures - 1, 5) == 5;
  }

  /** Some handler throws on this page. */
  predicate Throws(o: Outcome) {
    o.Page? && o.throwsAt.Some? && o.throwsAt.value < o.n
  }

  /** After a failure: the loop ends if the reporter throws too, else the next fetch waits for the backoff. */
  ghost predicate BacksOff(t: Poller, failures: nat, reporterThrows: bool) {
    && t.failures == failures && failures >= 1
    && t.phase == if reporterThrows then Done else Waiting(Backoff(failures))
  }

  /**
   * What one fetch brings.  A failed one changes nothing but the count of failures in a row and the wait; a
   * page moves the cursor behind its last event, is dropped while priming, and is otherwise handed over event
   * by event up to the first that throws.
   */
  lemma SettlesExactly(p: Poller, o: Outcome, intervalMs: nat)
    requires Discipline(p) && p.phase.Fetching? && !p.aborted
    ensures var t := Step(p, Settle(o), intervalMs);
            && t.outstanding == 0 && !t.aborted
            && match o
               case Broken(reporterThrows) =>
                 && BacksOff(t, p.failures + 1, reporterThrows)
                 && t == p.(outstanding := 0, failures := t.failures, phase := t.phase)
               case Page(origin, n, throwsAt, quietMs, reporterThrows) =>
                 var from := if p.token.Some? then p.token.value else origin;
                 && t.token == Some(from + n) && t.pages == p.pages + 1
                 && if !p.primed then
                      && t.delivered == p.delivered && t.drainCalls == p.drainCalls + 1
                      && (t.primed <==> n == 0 || t.drainCalls == 10)
                      && t.start == from + n && t.failures == 0 && t.phase == Waiting(intervalMs)
                    else
                      && t.primed && t.start == p.start && t.drainCalls == p.drainCalls
                      && |t.delivered| == |p.delivered| + (if Throws(o) then throwsAt.value + 1 else n)
                      && t.delivered[..|p.delivered|] == p.delivered
                      && (forall i :: |p.delivered| <= i < |t.delivered| ==> t.delivered[i] == from + (i - |p.delivered|))
                      && (if Throws(o) then BacksOff(t, 1, reporterThrows)
                          else t.failures == 0 && t.phase == Waiting(if n == 0 then intervalMs else Max(intervalMs, quietMs)))
  {
    hide Backoff;
  }

  /** Waking starts the one fetch unless the poll was called off; nothing else starts any. */
  lemma WakesExactly(p: Poller, e: Event, intervalMs: nat)
    ensures var t := Step(p, e, intervalMs);
            && (t.phase.Fetching? && !p.phase.Fetching? <==> e.Wake? && p.phase.Waiting? && !p.aborted)
            && (t.aborted <==> p.aborted || e.Abort?)
            && (t.outstanding > p.outstanding ==> e.Wake? && p.phase.Waiting? && !p.aborted)
            && (e.Wake? && p.phase.Waiting? && !p.aborted ==> t == p.(phase := Fetching, outstanding := p.outstanding + 1))
            && (e.FetchTimeout? ==> t == p)
            && (e.Abort? ==> t == p.(aborted := true))
  {
    hide Backoff;
  }

  /** Once called off the poll reads nothing more, delivers nothing more, and is over with its next event. */
  lemma {:induction false} AbortIsFinal(p: Poller, events: seq<Event>, intervalMs: nat)
    requires p.aborted
    ensures var t := Run(p, events, intervalMs);
            && t.aborted && t.delivered == p.delivered && t.pages == p.pages && t.token == p.token && t.outstanding <= p.outstanding
            && ((exists i :: 0 <= i < |events| && ((events[i].Wake? && p.phase.Waiting?) || (events[i].Settle? && p.phase.Fetching?)))
                ==> t.phase == Done)
            && (p.phase == Done ==> t.phase == Done)
    decreases |events|
  {
    if events != [] {
      var next := Step(p, events[0], intervalMs);
      AbortIsFinal(next, events[1..], intervalMs);
      assert forall i :: 0 < i < |events| ==> events[i] == events[1..][i - 1];
    }
  }

  // ----- the loop -----

  /** One pass of the loop: what the fetch came back with, and whether the poll was called off meanwhile. */
  datatype Turn = Turn(abortedFirst: bool, outcome: Outcome)

  function TurnEvents(t: Turn): seq<Event> {
    [Wake] + (if t.abortedFirst then [Abort] else []) + [Settle(t.outcome)]
  }

  function ScriptEvents(turns: seq<Turn>): seq<Event> {
    if turns == [] then [] else ScriptEvents(turns[..|turns| - 1]) + TurnEvents(turns[|turns| - 1])
  }

  lemma {:induction false} RunAppend(p: Poller, a: seq<Event>, b: seq<Event>, intervalMs: nat)
    ensures Run(p, a + b, intervalMs) == Run(Run(p, a, intervalMs), b, intervalMs)
    decreases |a|
  {
    if a == [] {
      assert a + b == b;
    } else {
      assert (a + b)[1..] == a[1..] + b;
      RunAppend(Step(p, a[0], intervalMs), a[1..], b, intervalMs);
    }
    hide Step;
  }

  lemma {:induction false} RunTurn(p: Poller, t: Turn, intervalMs: nat)
    ensures var woken := Step(p, Wake, intervalMs);
            Run(p, TurnEvents(t), intervalMs)
            == Step(if t.abortedFirst then Step(woken, Abort, intervalMs) else woken, Settle(t.outcome), intervalMs)
  {
    hide Step;
    var woken := Step(p, Wake, intervalMs);
    var last := if t.abortedFirst then Step(woken, Abort, intervalMs) else woken;
    assert Run(last, [Settle(t.outcome)], intervalMs) == Step(last, Settle(t.outcome), intervalMs);
    if t.abortedFirst {
      assert TurnEvents(t) == [Wake, Abort, Settle(t.outcome)];
      assert Run(woken, [Abort, Settle(t.outcome)], intervalMs) == Run(last, [Settle(t.outcome)], intervalMs);
      assert TurnEvents(t)[1..] == [Abort, Settle(t.outcome)];
    } else {
      assert TurnEvents(t)[1..] == [Settle(t.outcome)];
    }
  }

  /** Hands a page to the caller's handler one event at a time; a throw leaves the rest of the page behind. */
  method DeliverPage(from: nat, n: nat, throwsAt: Option<nat>, delivered: seq<nat>) returns (after: seq<nat>, threw: bool)
    ensures after == delivered + Positions(from, Handed(n, throwsAt))
    ensures threw <==> throwsAt.Some? && throwsAt.value < n
    ensures !threw ==> Handed(n, throwsAt) == n
  {
    after, threw := delivered, false;
    var i := 0;
    while i < n
      invariant 0 <= i <= n && after == delivered + Positions(from, i)
      invariant throwsAt.Some? ==> i <= throwsAt.value
    {
      after := after + [from + i];
      if throwsAt == Some(i) {
        return after, true;
      }
      i := i + 1;
    }
  }

  /** A good page: history while priming, deliveries afterwards. */
  method ReadPage(p: Poller, origin: nat, n: nat, throwsAt: Option<nat>, quietMs: nat, reporterThrows: bool, intervalMs: nat)
    returns (after: Poller)
    ensures after == OnPage(p, origin, n, throwsAt, quietMs, reporterThrows, intervalMs)
  {
    hide Backoff, Positions;
    var from := From(p, origin);
    after := p.(token := Some(from + n), failures := 0, pages := p.pages + 1);
    if !p.primed {
      var drainCalls := p.drainCalls + 1;
      after := after.(drainCalls := drainCalls, start := from + n, phase := Waiting(intervalMs));
      if n == 0 || drainCalls >= INITIAL_DRAIN_LIMIT {
        after := after.(primed := true);
      }
      return;
    }
    var delivered, threw := DeliverPage(from, n, throwsAt, p.delivered);
    after := after.(delivered := delivered, lost := p.lost + (n - Handed(n, throwsAt)));
    if threw {
      after := after.(failures := 1, phase := if reporterThrows then Done else Waiting(Backoff(1)));
    } else {
      after := after.(phase := Waiting(if n > 0 then Max(intervalMs, quietMs) else intervalMs));
    }
  }

  /**
   * `runFastSquarePoller` against a scripted upstream: `used` turns of the script were consumed before
   * the poll ended or the script did.
   */
  method RunFastSquarePoller(initialDelayMs: nat, intervalMs: nat, turns: seq<Turn>) returns (p: Poller, used: nat)
    ensures used <= |turns| && p == Run(Fresh(initialDelayMs), ScriptEvents(turns[..used]), intervalMs)
    ensures p.phase == Done || used == |turns|
  {
    p, used := Fresh(initialDelayMs), 0;
    while used < |turns| && !p.aborted && p.phase.Waiting?
      invariant used <= |turns| && p.outstanding == 0
      invariant p == Run(Fresh(initialDelayMs), ScriptEvents(turns[..used]), intervalMs)
      invariant p.phase == Done || (p.phase.Waiting? && !p.aborted)
      decreases |turns| - used
    {
      var turn := turns[used];
      TurnExtends(Fresh(initialDelayMs), turns, used, intervalMs);
      used := used + 1;
      hide Run, ScriptEvents, Backoff, Positions;
      if turn.abortedFirst {
        p := p.(phase := Done, aborted := true);
      } else {
        match turn.outcome
        case Page(origin, n, throwsAt, quietMs, reporterThrows) =>
          p := ReadPage(p.(phase := Fetching), origin, n, throwsAt, quietMs, reporterThrows, intervalMs);
        case Broken(reporterThrows) =>
          p := p.(failures := p.failures + 1);
          p := p.(phase := if reporterThrows then Done else Waiting(Backoff(p.failures)));
      }
    }
  }

  /** What one turn leaves of a poll that was waiting. */
  function TurnResult(p: Poller, t: Turn, intervalMs: nat): Poller {
    if t.abortedFirst then p.(phase := Done, aborted := true)
    else match t.outcome
         case Page(origin, n, throwsAt, quietMs, reporterThrows) =>
           OnPage(p.(phase := Fetching), origin, n, throwsAt, quietMs, reporterThrows, intervalMs)
         case Broken(reporterThrows) => FailedAttempt(p.(phase := Fetching), reporterThrows)
  }

  /** One more turn of the script is a wake, perhaps an abort, and a settled fetch. */
  lemma {:induction false} TurnExtends(p: Poller, turns: seq<Turn>, used: nat, intervalMs: nat)
    requires used < |turns|
    requires var before := Run(p, ScriptEvents(turns[..used]), intervalMs);
             before.phase.Waiting? && !before.aborted && before.outstanding == 0
    ensures Run(p, ScriptEvents(turns[..used + 1]), intervalMs)
            == TurnResult(Run(p, ScriptEvents(turns[..used]), intervalMs), turns[used], intervalMs)
  {
    var script := turns[..used + 1];
    assert script[..|script| - 1] == turns[..used];
    RunAppend(p, ScriptEvents(turns[..used]), TurnEvents(turns[used]), intervalMs);
    assert ScriptEvents(script) == ScriptEvents(turns[..used]) + TurnEvents(turns[used]);
    hide Run, TurnEvents, OnPage, FailedAttempt, ScriptEvents;
    RunTurn(Run(p, ScriptEvents(turns[..used]), intervalMs), turns[used], intervalMs);
  }

  // ----- fast slots -----

  /** An environment value after `Number(...)` and truncation; absent, not a number, or a whole number. */
  datatype Setting = Unset | NaN | Whole(n: int)

  /** `Math.trunc(Number(raw ?? fallback)) || fallback`: zero and NaN both mean the fallback. */
  function OrFallback(s: Setting, fallback: int): int {
    match s
    case Whole(n) => if n == 0 then fallback else n
    case _ => fallback
  }

  function LaneCount(lanes: Setting): int {
    Max(1, OrFallback(lanes, 6))
  }

  function SendReserved(lanes: Setting, reserved: Setting): int {
    Min(LaneCount(lanes) - 1, Max(0, OrFallback(reserved, 0)))
  }

  function ResolveSlots(configured: Setting, lanes: Setting, reserved: Setting): int {
    var pollLanes := Max(1, LaneCount(lanes) - SendReserved(lanes, reserved));
    var wanted := match configured case Unset => 1 case NaN => 1 case Whole(n) => Max(1, n);
    Min(pollLanes, wanted)
  }

  /** Every slot has a poll lane of its own left over by the send reservation, whatever the settings say. */
  lemma SlotsFitLanes(configured: Setting, lanes: Setting, reserved: Setting)
    ensures 1 <= ResolveSlots(configured, lanes, reserved) <= LaneCount(lanes) - SendReserved(lanes, reserved)
    ensures configured.Whole? && configured.n >= 1 ==> ResolveSlots(configured, lanes, reserved) <= configured.n
    ensures forall more: int :: configured.Whole? && more >= configured.n ==>
              ResolveSlots(Whole(more), lanes, reserved) >= ResolveSlots(configured, lanes, reserved)
  {
  }

  /** ... and as many slots as were asked for, if that leaves each a lane; one where no number was given. */
  lemma SlotsExactly(configured: Setting, lanes: Setting, reserved: Setting)
    ensures var left := LaneCount(lanes) - SendReserved(lanes, reserved);
            ResolveSlots(configured, lanes, reserved)
            == if configured.Whole? && configured.n > left then left
               else if configured.Whole? && configured.n > 1 then configured.n
               else 1
    ensures LaneCount(lanes) == if !lanes.Whole? || lanes.n == 0 then 6 else if lanes.n < 0 then 1 else lanes.n
    ensures 0 <= SendReserved(lanes, reserved) < LaneCount(lanes)
    ensures reserved.Whole? && 0 <= reserved.n < LaneCount(lanes) ==> SendReserved(lanes, reserved) == reserved.n
    ensures !reserved.Whole? || reserved.n <= 0 ==> SendReserved(lanes, reserved) == 0
  {
  }

  datatype SlotEvent = Acquire(bot: int) | Release(bot: int)

  function Holders(held: set<int>, e: SlotEvent, capacity: int): set<int> {
    match e
    case Acquire(bot) => if bot in held || |held| >= capacity then held else held + {bot}
    case Release(bot) => held - {bot}
  }

  function HoldersAfter(held: set<int>, events: seq<SlotEvent>, capacity: int): set<int>
    decreases |events|
  {
    if events == [] then held else HoldersAfter(Holders(held, events[0], capacity), events[1..], capacity)
  }

  /** Admission is stable: no arrival ever takes a holder's slot, and the pool never exceeds its capacity. */
  lemma {:induction false} HolderKeepsSlot(held: set<int>, events: seq<SlotEvent>, capacity: int, bot: int)
    requires bot in held && |held| <= capacity
    requires forall i :: 0 <= i < |events| ==> events[i] != Release(bot)
    ensures bot in HoldersAfter(held, events, capacity) && |HoldersAfter(held, events, capacity)| <= capacity
    decreases |events|
  {
    if events != [] {
      assert events[0] != Release(bot);
      var next := Holders(held, events[0], capacity);
      if events[0].Release? && events[0].bot in held {
        assert |next| == |held| - 1;
      } else if events[0].Release? {
        assert next == held;
      }
      HolderKeepsSlot(next, events[1..], capacity, bot);
    }
  }

  /** A newcomer is admitted exactly while there is room, and only a release makes room. */
  lemma AdmitsExactly(held: set<int>, bot: int, other: int, capacity: int)
    ensures bot in Holders(held, Acquire(bot), capacity) <==> bot in held || |held| < capacity
    ensures bot !in Holders(held, Release(bot), capacity)
    ensures other != bot ==> (other in Holders(held, Acquire(bot), capacity) <==> other in held)
    ensures other != bot ==> (other in Holders(held, Release(bot), capacity) <==> other in held)
  {
  }

  class SlotPool {
    const capacity: int
    var botIds: set<int>

    constructor (capacity: int)
      ensures this.capacity == capacity && botIds == {}
    {
      this.capacity := capacity;
      botIds := {};
    }

    method AcquireSlot(bot: int) returns (admitted: bool)
      modifies this
      ensures botIds == Holders(old(botIds), Acquire(bot), capacity)
      ensures admitted <==> bot in botIds
    {
      if bot in botIds {
        return true;
      }
      if |botIds| >= capacity {
        return false;
      }
      botIds := botIds + {bot};
      return true;
    }

    method ReleaseSlot(bot: int) returns (removed: bool)
      modifies this
      ensures botIds == Holders(old(botIds), Release(bot), capacity)
      ensures removed <==> bot in old(botIds)
    {
      removed := bot in botIds;
      botIds := botIds - {bot};
    }
  }
}
