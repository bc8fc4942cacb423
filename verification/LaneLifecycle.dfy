/** The life of one owned HTTP/2 lane: connecting, ready, draining, dead, and the requests it carries. */
module LaneLifecycle {
  import opened Prelude

  datatype State = Connecting | Ready | Draining | Dead

  /** One physical connection attempt; `settled` is the handshake's latch, `open` that nobody closed it. */
  datatype Session = Session(settled: bool, open: bool)

  datatype Outcome = Answered | Failed | Aborted

  datatype Request = Request(session: nat, outcome: Option<Outcome>)

  /**
   * `sessions` and `requests` list every connection and stream the lane ever had, `settlements` the
   * requests in the order their promises were settled, `resolving` the address lookups under way.
   */
  datatype Lane = Lane(
    state: State,
    session: Option<nat>,
    inFlight: int,
    failures: nat,
    timer: Option<nat>,
    disposed: bool,
    resolving: nat,
    sessions: seq<Session>,
    requests: seq<Request>,
    settlements: seq<nat>)

  const FRESH := Lane(Dead, None, 0, 0, None, false, 0, [], [], [])

  function ReconnectDelay(failures: nat): nat {
    Min(8000, 250 * Power2(Min(failures, 5)))
  }

  predicate IsUsable(l: Lane) {
    l.state == Ready && l.session.Some? && l.session.value < |l.sessions| && l.sessions[l.session.value].open
  }

  function Closed(sessions: seq<Session>, s: Option<nat>): (r: seq<Session>)
    ensures |r| == |sessions|
  {
    if s.Some? && s.value < |sessions| then sessions[s.value := sessions[s.value].(open := false)] else sessions
  }

  function ScheduleReconnect(l: Lane): Lane {
    if l.disposed || l.timer.Some? then l else l.(timer := Some(ReconnectDelay(l.failures)))
  }

  function RetireDead(l: Lane): Lane {
    if l.state == Dead then l
    else ScheduleReconnect(l.(state := Dead, sessions := Closed(l.sessions, l.session), session := None))
  }

  function RetireDraining(l: Lane): Lane {
    if l.state == Dead then l
    else if l.inFlight == 0 then RetireDead(l.(state := Draining))
    else l.(state := Draining)
  }

  /** `fail` inside `openLane`: whatever session the lane held is forgotten, not closed. */
  function FailConnect(l: Lane): Lane {
    ScheduleReconnect(l.(failures := l.failures + 1, state := Dead, session := None))
  }

  function OpenLane(l: Lane): Lane {
    if l.disposed || l.state == Connecting || IsUsable(l) then l
    else l.(state := Connecting, resolving := l.resolving + 1)
  }

  function Latched(l: Lane, s: nat): Lane
    requires s < |l.sessions|
  {
    l.(sessions := l.sessions[s := l.sessions[s].(settled := true)])
  }

  function Settle(l: Lane, r: nat, outcome: Outcome): Lane
    requires r < |l.requests|
  {
    if l.requests[r].outcome.Some? then l
    else
      var fewer := l.(requests := l.requests[r := l.requests[r].(outcome := Some(outcome))], inFlight := l.inFlight - 1);
      var next := if fewer.state == Draining && fewer.inFlight == 0 then RetireDead(fewer) else fewer;
      next.(settlements := next.settlements + [r])
  }

  /** `sendOnLane` once the stream is open; a signal that has already fired settles it at once. */
  function Begin(l: Lane, alreadyAborted: bool): Lane
    requires IsUsable(l)
  {
    var more := l.(requests := l.requests + [Request(l.session.value, None)], inFlight := l.inFlight + 1);
    if alreadyAborted then Settle(more, |l.requests|, Aborted) else more
  }

  /** Everything that can happen to a lane; session and stream events may arrive in any order. */
  datatype Event =
    | EnsureLanes
    | ReconnectTimer
    | AddressesFound
    | AddressesFailed
    | ConnectTimeout(s: nat)
    | Connected(s: nat)
    | GoAway(s: nat)
    | SessionError(s: nat)
    | SessionClose(s: nat)
    | PeerDropped(s: nat)
    | PingFailed
    | PingTick
    | RequestThrew
    | Send(alreadyAborted: bool)
    | StreamClosed(r: nat, answered: bool)
    | Abort(r: nat)
    | PrimeFailed
    | Refresh
    | Stop

  function OnConnected(l: Lane, s: nat): Lane
    requires s < |l.sessions|
  {
    if l.sessions[s].settled then l
    else if l.disposed then Latched(l, s).(sessions := Closed(Latched(l, s).sessions, Some(s)))
    else Latched(l, s).(session := Some(s), state := Ready, failures := 0)
  }

  function OnConnectTimeout(l: Lane, s: nat): Lane
    requires s < |l.sessions|
  {
    if l.sessions[s].settled then l
    else FailConnect(Latched(l, s).(sessions := Closed(Latched(l, s).sessions, Some(s))))
  }

  /** A session that reports an error or its close is gone, whoever ended it. */
  function Ended(l: Lane, s: nat): Lane
    requires s < |l.sessions|
  {
    l.(sessions := Closed(l.sessions, Some(s)))
  }

  function OnError(l: Lane, s: nat): Lane
    requires s < |l.sessions|
  {
    var gone := Ended(l, s);
    if !l.sessions[s].settled then FailConnect(Latched(gone, s)) else RetireDead(gone.(failures := l.failures + 1))
  }

  function OnClose(l: Lane, s: nat): Lane
    requires s < |l.sessions|
  {
    var gone := Ended(l, s);
    if !l.sessions[s].settled then FailConnect(Latched(gone, s)) else RetireDead(gone)
  }

  function OnAddresses(l: Lane): Lane
    requires l.resolving > 0
  {
    var next := l.(resolving := l.resolving - 1);
    if l.disposed then next else next.(sessions := l.sessions + [Session(false, true)])
  }

  function OnNoAddresses(l: Lane): Lane
    requires l.resolving > 0
  {
    ScheduleReconnect(l.(resolving := l.resolving - 1, failures := l.failures + 1, state := Dead))
  }

  function Stopped(l: Lane): Lane {
    l.(disposed := true, timer := None, state := Dead, sessions := Closed(l.sessions, l.session), session := None)
  }

  /** An event that names a session or stream the lane never had does nothing. */
  function Step(l: Lane, e: Event): Lane {
    match e
    case EnsureLanes => OpenLane(l)
    case ReconnectTimer => if l.timer.Some? then OpenLane(l.(timer := None)) else l
    case AddressesFound => if l.resolving > 0 then OnAddresses(l) else l
    case AddressesFailed => if l.resolving > 0 then OnNoAddresses(l) else l
    case ConnectTimeout(s) => if s < |l.sessions| then OnConnectTimeout(l, s) else l
    case Connected(s) => if s < |l.sessions| then OnConnected(l, s) else l
    case GoAway(s) => if s < |l.sessions| then RetireDraining(l) else l
    case SessionError(s) => if s < |l.sessions| then OnError(l, s) else l
    case SessionClose(s) => if s < |l.sessions| then OnClose(l, s) else l
    case PeerDropped(s) => l.(sessions := Closed(l.sessions, Some(s)))
    case PingFailed => RetireDead(l)
    case PingTick => if l.state == Dead && l.timer == None then ScheduleReconnect(l) else l
    case RequestThrew => if IsUsable(l) then RetireDead(l) else l
    case Send(alreadyAborted) => if IsUsable(l) then Begin(l, alreadyAborted) else l
    case StreamClosed(r, answered) => if r < |l.requests| then Settle(l, r, if answered then Answered else Failed) else l
    case Abort(r) => if r < |l.requests| then Settle(l, r, Aborted) else l
    case PrimeFailed => RetireDead(l.(failures := l.failures + 1))
    case Refresh => if IsUsable(l) && l.inFlight == 0 then RetireDraining(l) else l
    case Stop => Stopped(l)
  }

  function Run(l: Lane, events: seq<Event>): Lane
    decreases |events|
  {
    if events == [] then l else Run(Step(l, events[0]), events[1..])
  }

  // ----- accounting -----

  function Unsettled(requests: seq<Request>): nat {
    if requests == [] then 0 else (if requests[0].outcome.None? then 1 else 0) + Unsettled(requests[1..])
  }

  lemma {:induction false} UnsettledAppend(a: seq<Request>, b: seq<Request>)
    ensures Unsettled(a + b) == Unsettled(a) + Unsettled(b)
  {
    if a == [] {
      assert a + b == b;
    } else {
      assert (a + b)[1..] == a[1..] + b;
      UnsettledAppend(a[1..], b);
    }
  }

  lemma {:induction false} UnsettledUpdate(requests: seq<Request>, r: nat, outcome: Outcome)
    requires r < |requests| && requests[r].outcome.None?
    ensures Unsettled(requests[r := requests[r].(outcome := Some(outcome))]) == Unsettled(requests) - 1
  {
    var after := requests[r := requests[r].(outcome := Some(outcome))];
    if r == 0 {
      assert after[1..] == requests[1..];
    } else {
      assert after[1..] == requests[1..][r - 1 := requests[r].(outcome := Some(outcome))];
      UnsettledUpdate(requests[1..], r - 1, outcome);
    }
  }

  lemma {:induction false} NoneUnsettled(requests: seq<Request>, r: nat)
    requires Unsettled(requests) == 0 && r < |requests|
    ensures requests[r].outcome.Some?
  {
    if r > 0 {
      NoneUnsettled(requests[1..], r - 1);
    }
  }

  ghost predicate Counted(inFlight: int, requests: seq<Request>) {
    inFlight == Unsettled(requests)
  }

  ghost predicate Listed(settlements: seq<nat>, r: nat) {
    exists k :: 0 <= k < |settlements| && settlements[k] == r
  }

  /** The settlement log names exactly the settled requests, each once. */
  ghost predicate Logged(settlements: seq<nat>, requests: seq<Request>) {
    && Distinct(settlements)
    && (forall k :: 0 <= k < |settlements| ==> settlements[k] < |requests| && requests[settlements[k]].outcome.Some?)
    && (forall r :: 0 <= r < |requests| && requests[r].outcome.Some? ==> Listed(settlements, r))
  }

  ghost predicate Balanced(l: Lane) {
    Counted(l.inFlight, l.requests) && Logged(l.settlements, l.requests)
  }

  /** Requests travel only on sessions whose handshake finished, and so is the lane's own session. */
  ghost predicate Shaped(l: Lane) {
    && (l.session.Some? ==> l.session.value < |l.sessions| && l.sessions[l.session.value].settled)
    && (forall r :: 0 <= r < |l.requests| ==> l.requests[r].session < |l.sessions| && l.sessions[l.requests[r].session].settled)
  }

  /** A connection attempt is under way. */
  ghost predicate Attempting(l: Lane) {
    l.resolving > 0 || exists s :: 0 <= s < |l.sessions| && !l.sessions[s].settled
  }

  /** No lane is ever stuck: each state comes with what will move it on. */
  ghost predicate Moving(l: Lane) {
    match l.state
    case Ready => l.session.Some?
    case Draining => l.inFlight > 0
    case Connecting => Attempting(l)
    case Dead => l.disposed || l.timer.Some? || (l.sessions == [] && l.resolving == 0)
  }

  ghost predicate Inv(l: Lane) {
    && Balanced(l) && Shaped(l) && Moving(l)
    && (l.disposed ==> l.state == Dead && l.timer == None)
  }

  // ----- every step keeps the invariant -----

  lemma ScheduleKeeps(l: Lane)
    requires Balanced(l) && Shaped(l) && (l.disposed ==> l.timer == None)
    requires l.state == Dead
    ensures Inv(ScheduleReconnect(l))
  {
    hide Counted, Logged, ReconnectDelay;
  }

  lemma RetireKeeps(l: Lane)
    requires Balanced(l) && Shaped(l) && (l.disposed ==> l.state == Dead && l.timer == None)
    requires l.state == Dead ==> Moving(l)
    ensures Inv(RetireDead(l)) && Inv(RetireDraining(l))
  {
    assert l.inFlight >= 0;
    hide Counted, Logged, ReconnectDelay;
  }

  lemma SettleLogs(settlements: seq<nat>, requests: seq<Request>, r: nat, outcome: Outcome)
    requires Logged(settlements, requests) && r < |requests| && requests[r].outcome.None?
    ensures Logged(settlements + [r], requests[r := requests[r].(outcome := Some(outcome))])
  {
    var more, after := settlements + [r], requests[r := requests[r].(outcome := Some(outcome))];
    assert more[|settlements|] == r;
    forall q | 0 <= q < |after| && after[q].outcome.Some? ensures Listed(more, q) {
      if q != r {
        var k :| 0 <= k < |settlements| && settlements[k] == q;
        assert more[k] == q;
      }
    }
  }

  lemma SettleKeeps(l: Lane, r: nat, outcome: Outcome)
    requires Inv(l) && r < |l.requests|
    ensures Inv(Settle(l, r, outcome))
  {
    if l.requests[r].outcome.None? {
      UnsettledUpdate(l.requests, r, outcome);
      SettleLogs(l.settlements, l.requests, r, outcome);
      var fewer := l.(requests := l.requests[r := l.requests[r].(outcome := Some(outcome))], inFlight := l.inFlight - 1,
                      settlements := l.settlements + [r]);
      assert Balanced(fewer) && fewer.inFlight >= 0;
      if fewer.state == Draining && fewer.inFlight == 0 {
        RetireKeeps(fewer);
      }
    }
    hide Unsettled, Counted, Logged, ReconnectDelay;
  }

  lemma SendLogs(settlements: seq<nat>, requests: seq<Request>, session: nat)
    requires Logged(settlements, requests)
    ensures Logged(settlements, requests + [Request(session, None)])
  {
    hide Listed;
  }

  lemma SendKeeps(l: Lane)
    requires Inv(l) && IsUsable(l)
    ensures Inv(Begin(l, false))
  {
    UnsettledAppend(l.requests, [Request(l.session.value, None)]);
    assert Unsettled([Request(l.session.value, None)]) == 1;
    SendLogs(l.settlements, l.requests, l.session.value);
    hide Unsettled, ReconnectDelay, Logged;
  }

  lemma LatchKeeps(l: Lane, s: nat, close: bool)
    requires Inv(l) && s < |l.sessions|
    ensures var latched := if close then Latched(l, s).(sessions := Closed(Latched(l, s).sessions, Some(s))) else Latched(l, s);
            && Balanced(latched) && Shaped(latched)
            && |latched.sessions| == |l.sessions| && latched.sessions[s].settled
  {
    hide Counted, Logged, ReconnectDelay;
  }

  lemma ConnectedKeeps(l: Lane, s: nat)
    requires Inv(l) && s < |l.sessions|
    ensures Inv(OnConnected(l, s)) && Inv(OnConnectTimeout(l, s))
  {
    LatchKeeps(l, s, true);
    LatchKeeps(l, s, false);
    hide Unsettled, ReconnectDelay, Logged, Counted;
  }

  lemma SessionEndKeeps(l: Lane, s: nat)
    requires Inv(l) && s < |l.sessions|
    ensures Inv(OnError(l, s)) && Inv(OnClose(l, s))
  {
    PeerDropKeeps(l, s);
    var gone := Ended(l, s);
    if l.sessions[s].settled {
      RetireFromInv(gone);
      hide Inv, RetireDead, Closed;
    } else {
      LatchKeeps(gone, s, false);
      hide Counted, Logged, ReconnectDelay;
    }
  }

  lemma AttemptKeeps(l: Lane)
    requires Inv(l)
    ensures Inv(OpenLane(l)) && (l.timer.Some? ==> Inv(OpenLane(l.(timer := None))))
    ensures l.resolving > 0 ==> Inv(OnAddresses(l)) && Inv(OnNoAddresses(l))
  {
    hide Counted, Logged, ReconnectDelay;
    if l.resolving > 0 && !l.disposed {
      assert !OnAddresses(l).sessions[|l.sessions|].settled;
    }
  }

  lemma PeerDropKeeps(l: Lane, s: nat)
    requires Inv(l)
    ensures Inv(l.(sessions := Closed(l.sessions, Some(s)))) && Inv(Stopped(l))
  {
    hide Counted, Logged;
    if l.state == Connecting && l.resolving == 0 {
      var u :| 0 <= u < |l.sessions| && !l.sessions[u].settled;
      assert !Closed(l.sessions, Some(s))[u].settled;
    }
  }

  lemma RetireFromInv(l: Lane)
    requires Inv(l)
    ensures Inv(RetireDead(l)) && Inv(RetireDraining(l)) && Inv(RetireDead(l.(failures := l.failures + 1)))
    ensures l.state == Dead ==> Inv(ScheduleReconnect(l))
  {
    RetireKeeps(l);
    RetireKeeps(l.(failures := l.failures + 1));
    if l.state == Dead {
      ScheduleKeeps(l);
    }
    hide RetireDead, RetireDraining, ScheduleReconnect;
  }

  lemma StreamKeeps(l: Lane, r: nat, outcome: Outcome, alreadyAborted: bool)
    requires Inv(l)
    ensures r < |l.requests| ==> Inv(Settle(l, r, outcome))
    ensures IsUsable(l) ==> Inv(Begin(l, alreadyAborted))
  {
    if r < |l.requests| {
      SettleKeeps(l, r, outcome);
    }
    if IsUsable(l) {
      SendKeeps(l);
      if alreadyAborted {
        SettleKeeps(Begin(l, false), |l.requests|, Aborted);
      }
    }
    hide Settle, Inv;
  }

  lemma StepKeepsInv(l: Lane, e: Event)
    requires Inv(l)
    ensures Inv(Step(l, e))
  {
    hide Inv, Settle, Begin, IsUsable, Closed, ScheduleReconnect, RetireDead, RetireDraining, OpenLane, Stopped;
    hide OnConnected, OnConnectTimeout, OnError, OnClose, OnAddresses, OnNoAddresses;
    match e
    case ConnectTimeout(s) => if s < |l.sessions| { ConnectedKeeps(l, s); }
    case Connected(s) => if s < |l.sessions| { ConnectedKeeps(l, s); }
    case SessionError(s) => if s < |l.sessions| { SessionEndKeeps(l, s); }
    case SessionClose(s) => if s < |l.sessions| { SessionEndKeeps(l, s); }
    case StreamClosed(r, answered) => StreamKeeps(l, r, if answered then Answered else Failed, false);
    case Abort(r) => StreamKeeps(l, r, Aborted, false);
    case Send(alreadyAborted) => StreamKeeps(l, 0, Aborted, alreadyAborted);
    case PeerDropped(s) => PeerDropKeeps(l, s);
    case Stop => PeerDropKeeps(l, 0);
    case EnsureLanes => AttemptKeeps(l);
    case ReconnectTimer => AttemptKeeps(l);
    case AddressesFound => AttemptKeeps(l);
    case AddressesFailed => AttemptKeeps(l);
    case _ => RetireFromInv(l);
  }

  /** Over every run `inFlight` is the number of open requests and the lane always has a way forward. */
  lemma {:induction false} EveryRunIsSound(l: Lane, events: seq<Event>)
    requires Inv(l)
    ensures Inv(Run(l, events))
    decreases |events|
  {
    if events != [] {
      StepKeepsInv(l, events[0]);
      hide Inv, Step;
      EveryRunIsSound(Step(l, events[0]), events[1..]);
    }
  }

  // ----- at most once -----

  /** Settled requests keep their outcome and the log only grows. */
  ghost predicate Extends(l: Lane, after: Lane) {
    && |l.requests| <= |after.requests| && l.settlements <= after.settlements
    && forall r :: 0 <= r < |l.requests| && l.requests[r].outcome.Some? ==> after.requests[r] == l.requests[r]
  }

  lemma StepExtends(l: Lane, e: Event)
    ensures Extends(l, Step(l, e))
  {
    hide ReconnectDelay;
  }

  /** Whatever order abort, close and error arrive in, the first one to settle a request is the last word. */
  lemma {:induction false} SettledOnce(l: Lane, events: seq<Event>)
    requires Inv(l)
    ensures Extends(l, Run(l, events)) && Distinct(Run(l, events).settlements)
    decreases |events|
  {
    if events == [] {
      assert l.settlements <= l.settlements;
    } else {
      StepKeepsInv(l, events[0]);
      StepExtends(l, events[0]);
      hide Inv, Step;
      SettledOnce(Step(l, events[0]), events[1..]);
    }
  }

  /** Named in the log at one place only. */
  ghost predicate NamedOnce(settlements: seq<nat>, r: nat) {
    exists i :: 0 <= i < |settlements| && settlements[i] == r && forall j :: 0 <= j < |settlements| && settlements[j] == r ==> j == i
  }

  lemma SettledIsNamedOnce(l: Lane, r: nat)
    requires Inv(l) && r < |l.requests| && l.requests[r].outcome.Some?
    ensures NamedOnce(l.settlements, r)
  {
    assert Listed(l.settlements, r);
    var i :| 0 <= i < |l.settlements| && l.settlements[i] == r;
    forall j | 0 <= j < |l.settlements| && l.settlements[j] == r ensures j == i {
      assert Distinct(l.settlements);
    }
    hide Shaped, Moving, Counted;
  }

  predicate Concludes(e: Event, r: nat) {
    e == Abort(r) || e == StreamClosed(r, true) || e == StreamClosed(r, false)
  }

  /** A request whose stream closes or that is aborted, at any point of the run, ends it settled exactly once. */
  lemma {:induction false} SettledExactlyOnce(l: Lane, events: seq<Event>, k: nat, r: nat)
    requires Inv(l) && k < |events| && Concludes(events[k], r) && r < |Run(l, events[..k]).requests|
    ensures var end := Run(l, events);
            r < |end.requests| && end.requests[r].outcome.Some? && NamedOnce(end.settlements, r)
    decreases |events|
  {
    StepKeepsInv(l, events[0]);
    var next := Step(l, events[0]);
    if k == 0 {
      assert events[..0] == [];
      assert r < |next.requests| && next.requests[r].outcome.Some? by {
        hide RetireDead;
      }
      SettledOnce(next, events[1..]);
      EveryRunIsSound(next, events[1..]);
      hide Inv, Step, NamedOnce;
      SettledIsNamedOnce(Run(next, events[1..]), r);
    } else {
      hide Inv, Step, NamedOnce;
      assert events[..k][1..] == events[1..][..k - 1];
      SettledExactlyOnce(next, events[1..], k - 1, r);
    }
  }

  // ----- draining -----

  /** The failures that may cut requests off; everything else must wait for them. */
  predicate Hard(e: Event) {
    e.SessionError? || e.SessionClose? || e.PeerDropped? || e.PingFailed? || e.RequestThrew? || e.PrimeFailed? || e.Stop?
  }

  /** Session `s` is closed by the step from `l` to `after`. */
  predicate Closes(l: Lane, after: Lane, s: nat) {
    s < |l.sessions| && s < |after.sessions| && l.sessions[s].open && !after.sessions[s].open
  }

  /** Short of a hard failure the pool closes only a session nobody waits on: idle, or never handed over. */
  lemma GracefulClose(l: Lane, e: Event, s: nat)
    requires Inv(l) && !Hard(e) && Closes(l, Step(l, e), s)
    ensures Step(l, e).inFlight == 0 || (!l.sessions[s].settled && Step(l, e).requests == l.requests)
  {
    hide Unsettled, Logged, Counted, ReconnectDelay;
  }

  /**
   * Draining is graceful: unless a hard failure arrives, no step closes a session that still carries an
   * unsettled request.
   */
  lemma GracefulStepsSparePending(l: Lane, e: Event, s: nat, r: nat)
    requires Inv(l) && !Hard(e) && Closes(l, Step(l, e), s)
    requires r < |Step(l, e).requests| && Step(l, e).requests[r].session == s
    ensures Step(l, e).requests[r].outcome.Some?
  {
    StepKeepsInv(l, e);
    GracefulClose(l, e, s);
    var after := Step(l, e);
    if after.inFlight == 0 {
      hide Step, Logged, Moving, Shaped, Unsettled;
      NoneUnsettled(after.requests, r);
    } else {
      hide Step, Logged, Moving, Counted;
    }
  }

  /** A request only ever starts on a ready lane, and on the session that lane holds open. */
  lemma SendsNeedReady(l: Lane, e: Event)
    ensures |Step(l, e).requests| > |l.requests| ==>
              && e.Send? && l.state == Ready && l.session.Some? && l.session.value < |l.sessions|
              && l.sessions[l.session.value].open && Step(l, e).requests[|l.requests|].session == l.session.value
  {
    hide ReconnectDelay, Closed;
  }

  /** The last request of a draining lane takes the session with it and arms the reconnect. */
  lemma DrainCompletes(l: Lane, r: nat, outcome: Outcome)
    requires Inv(l) && l.state == Draining && r < |l.requests| && l.requests[r].outcome.None?
    ensures var after := Settle(l, r, outcome);
            if l.inFlight == 1
            then after.state == Dead && after.session == None && after.timer.Some?
                 && (l.session.Some? ==> !after.sessions[l.session.value].open)
            else after.state == Draining && after.sessions == l.sessions && after.session == l.session
  {
    hide Counted, Logged, ReconnectDelay;
  }

  // ----- sessions nobody holds -----

  /** Every connection that was ever handed over and is still open is the one the lane uses. */
  ghost predicate NoOrphan(l: Lane) {
    NoneLoose(l.session, l.sessions)
  }

  ghost predicate NoneLoose(session: Option<nat>, sessions: seq<Session>) {
    forall s :: 0 <= s < |sessions| && sessions[s].open && sessions[s].settled ==> session == Some(s)
  }

  predicate HoldsOpen(l: Lane) {
    l.session.Some? && l.session.value < |l.sessions| && l.sessions[l.session.value].open
  }

  /** A connection attempt concludes while the lane still holds another open session. */
  predicate Overlaps(l: Lane, e: Event) {
    && HoldsOpen(l)
    && (match e
        case Connected(s) => s < |l.sessions| && !l.sessions[s].settled && !l.disposed
        case ConnectTimeout(s) => s < |l.sessions| && !l.sessions[s].settled
        case SessionError(s) => s < |l.sessions| && !l.sessions[s].settled
        case SessionClose(s) => s < |l.sessions| && !l.sessions[s].settled
        case _ => false)
  }

  lemma RetireLeaksNothing(l: Lane)
    requires NoOrphan(l)
    ensures NoOrphan(RetireDead(l)) && NoOrphan(RetireDraining(l)) && NoOrphan(Stopped(l))
    ensures forall s: nat :: NoOrphan(l.(sessions := Closed(l.sessions, Some(s))))
  {
    hide ReconnectDelay;
  }

  lemma SettleLeaksNothing(l: Lane, r: nat, outcome: Outcome)
    requires NoOrphan(l) && r < |l.requests|
    ensures NoOrphan(Settle(l, r, outcome))
  {
    if l.requests[r].outcome.None? {
      RetireLeaksNothing(l.(requests := l.requests[r := l.requests[r].(outcome := Some(outcome))], inFlight := l.inFlight - 1));
    }
    hide RetireDead, NoneLoose;
  }

  lemma EndedLeaksNothing(l: Lane, s: nat)
    requires Shaped(l) && NoOrphan(l) && s < |l.sessions|
    ensures l.sessions[s].settled || !HoldsOpen(l) ==> NoOrphan(OnError(l, s)) && NoOrphan(OnClose(l, s))
    ensures !l.sessions[s].settled && HoldsOpen(l) ==> !NoOrphan(OnError(l, s)) && !NoOrphan(OnClose(l, s))
  {
    hide ReconnectDelay;
    if l.sessions[s].settled {
      RetireLeaksNothing(Ended(l, s));
      RetireLeaksNothing(Ended(l, s).(failures := l.failures + 1));
      hide RetireDead, NoneLoose;
    } else {
      hide RetireDead;
      if HoldsOpen(l) {
        var t := l.session.value;
        assert OnError(l, s).sessions[t] == l.sessions[t] && OnClose(l, s).sessions[t] == l.sessions[t];
      }
    }
  }

  lemma ConnectLeaksExactly(l: Lane, s: nat)
    requires Shaped(l) && NoOrphan(l) && s < |l.sessions|
    ensures NoOrphan(OnConnected(l, s)) <==> l.sessions[s].settled || l.disposed || !HoldsOpen(l)
    ensures NoOrphan(OnConnectTimeout(l, s)) <==> l.sessions[s].settled || !HoldsOpen(l)
  {
    hide ReconnectDelay;
    if !l.sessions[s].settled && HoldsOpen(l) {
      var t := l.session.value;
      assert OnConnected(l, s).sessions[t] == l.sessions[t] && OnConnectTimeout(l, s).sessions[t] == l.sessions[t];
    }
  }

  lemma AttemptLeaksNothing(l: Lane)
    requires NoOrphan(l)
    ensures NoOrphan(OpenLane(l)) && NoOrphan(OpenLane(l.(timer := None))) && NoOrphan(ScheduleReconnect(l))
    ensures l.resolving > 0 ==> NoOrphan(OnAddresses(l)) && NoOrphan(OnNoAddresses(l))
  {
    hide ReconnectDelay;
  }

  lemma StreamLeaksNothing(l: Lane, r: nat, outcome: Outcome, alreadyAborted: bool)
    requires NoOrphan(l)
    ensures r < |l.requests| ==> NoOrphan(Settle(l, r, outcome))
    ensures IsUsable(l) ==> NoOrphan(Begin(l, alreadyAborted))
  {
    if r < |l.requests| {
      SettleLeaksNothing(l, r, outcome);
    }
    if IsUsable(l) && alreadyAborted {
      SettleLeaksNothing(Begin(l, false), |l.requests|, Aborted);
    }
    hide Settle, NoneLoose;
  }

  /** The step leaks a live connection exactly when it concludes an attempt over an open session. */
  lemma StepLeaksExactlyOnOverlap(l: Lane, e: Event)
    requires Inv(l) && NoOrphan(l)
    ensures NoOrphan(Step(l, e)) <==> !Overlaps(l, e)
  {
    assert Shaped(l);
    hide Inv, NoOrphan, Shaped, HoldsOpen, Settle, Begin, IsUsable, Closed, ScheduleReconnect, RetireDead, RetireDraining;
    hide OpenLane, Stopped, OnConnected, OnConnectTimeout, OnError, OnClose, OnAddresses, OnNoAddresses;
    match e
    case ConnectTimeout(s) => if s < |l.sessions| { ConnectLeaksExactly(l, s); }
    case Connected(s) => if s < |l.sessions| { ConnectLeaksExactly(l, s); }
    case SessionError(s) => if s < |l.sessions| { EndedLeaksNothing(l, s); }
    case SessionClose(s) => if s < |l.sessions| { EndedLeaksNothing(l, s); }
    case StreamClosed(r, answered) => StreamLeaksNothing(l, r, if answered then Answered else Failed, false);
    case Abort(r) => StreamLeaksNothing(l, r, Aborted, false);
    case Send(alreadyAborted) => StreamLeaksNothing(l, 0, Aborted, alreadyAborted);
    case EnsureLanes => AttemptLeaksNothing(l);
    case ReconnectTimer => AttemptLeaksNothing(l);
    case AddressesFound => AttemptLeaksNothing(l);
    case AddressesFailed => AttemptLeaksNothing(l);
    case PingTick => AttemptLeaksNothing(l);
    case PrimeFailed => MoreFailuresLeakNothing(l);
    case _ => RetireLeaksNothing(l);
  }

  lemma MoreFailuresLeakNothing(l: Lane)
    requires NoOrphan(l)
    ensures NoOrphan(RetireDead(l.(failures := l.failures + 1)))
  {
    RetireLeaksNothing(l.(failures := l.failures + 1));
  }

  predicate NeverOverlaps(l: Lane, events: seq<Event>)
    decreases |events|
  {
    events == [] || (!Overlaps(l, events[0]) && NeverOverlaps(Step(l, events[0]), events[1..]))
  }

  ghost predicate NeverOrphans(l: Lane, events: seq<Event>)
    decreases |events|
  {
    NoOrphan(l) && (events == [] || NeverOrphans(Step(l, events[0]), events[1..]))
  }

  /** Over a whole run no connection is leaked exactly when attempts never conclude over an open session. */
  lemma {:induction false} NoLeakExactlyWithoutOverlap(l: Lane, events: seq<Event>)
    requires Inv(l) && NoOrphan(l)
    ensures NeverOrphans(l, events) <==> NeverOverlaps(l, events)
    decreases |events|
  {
    if events != [] {
      StepKeepsInv(l, events[0]);
      StepLeaksExactlyOnOverlap(l, events[0]);
      hide Inv, Step, NoOrphan, Overlaps;
      if !Overlaps(l, events[0]) {
        NoLeakExactlyWithoutOverlap(Step(l, events[0]), events[1..]);
      } else {
        assert !NeverOrphans(Step(l, events[0]), events[1..]);
      }
    }
  }

  // ----- what each event changes -----

  /** An attempt to open the lane begins. */
  predicate Opens(l: Lane, e: Event) {
    (e.EnsureLanes? || (e.ReconnectTimer? && l.timer.Some?)) && !l.disposed && l.state != Connecting && !IsUsable(l)
  }

  /** Session `s` has not finished its handshake yet. */
  predicate Shaking(l: Lane, s: nat) {
    s < |l.sessions| && !l.sessions[s].settled
  }

  /** The handshake of a session fails. */
  predicate HandshakeFails(l: Lane, e: Event) {
    (e.ConnectTimeout? || e.SessionError? || e.SessionClose?) && Shaking(l, e.s)
  }

  predicate HandshakeSucceeds(l: Lane, e: Event) {
    e.Connected? && Shaking(l, e.s) && !l.disposed
  }

  /** The request is still open and this ends it. */
  predicate EndsRequest(l: Lane, e: Event, r: nat) {
    r < |l.requests| && l.requests[r].outcome.None? && (e == Abort(r) || (e.StreamClosed? && e.r == r))
  }

  /** The lane, if it is not dead already, is given up together with the session it holds. */
  predicate Retires(l: Lane, e: Event) {
    match e
    case SessionError(s) => s < |l.sessions| && !Shaking(l, s)
    case SessionClose(s) => s < |l.sessions| && !Shaking(l, s)
    case PingFailed => true
    case PrimeFailed => true
    case RequestThrew => IsUsable(l)
    case GoAway(s) => s < |l.sessions| && l.inFlight == 0
    case Refresh => IsUsable(l) && l.inFlight == 0
    case StreamClosed(r, _) => EndsRequest(l, e, r) && l.state == Draining && l.inFlight == 1
    case Abort(r) => EndsRequest(l, e, r) && l.state == Draining && l.inFlight == 1
    case _ => false
  }

  predicate LookupFails(l: Lane, e: Event) {
    e.AddressesFailed? && l.resolving > 0
  }

  /** Every state the lane is in follows from the one before for exactly these reasons. */
  lemma StateChangesExactly(l: Lane, e: Event)
    requires Inv(l)
    ensures Step(l, e).state
         == if Opens(l, e) then Connecting
            else if HandshakeSucceeds(l, e) then Ready
            else if HandshakeFails(l, e) || LookupFails(l, e) || Retires(l, e) || e.Stop? then Dead
            else if e.GoAway? && e.s < |l.sessions| && l.state != Dead then Draining
            else l.state
    ensures Step(l, e).disposed == (l.disposed || e.Stop?)
  {
    SendsLeaveState(l);
    hide Balanced, Shaped, ReconnectDelay;
  }

  lemma SendsLeaveState(l: Lane)
    ensures IsUsable(l) ==>
              var t := Begin(l, true);
              t.state == l.state && t.failures == l.failures && t.timer == l.timer && t.session == l.session
              && t.sessions == l.sessions && t.resolving == l.resolving && t.disposed == l.disposed
  {
  }

  /** Failures in a row: one more for every failed attempt or broken session, none after a handshake. */
  lemma FailuresCountExactly(l: Lane, e: Event)
    requires Inv(l)
    ensures Step(l, e).failures
         == if HandshakeSucceeds(l, e) then 0
            else if HandshakeFails(l, e) || LookupFails(l, e) || e.PrimeFailed? || (e.SessionError? && e.s < |l.sessions|)
            then l.failures + 1
            else l.failures
  {
    hide Balanced, Shaped, ReconnectDelay;
  }

  /** The delay doubles from 250 ms with every failure in a row and is 8 s from the fifth on. */
  lemma ReconnectSchedule(failures: nat)
    ensures failures == 0 ==> ReconnectDelay(failures) == 250
    ensures failures < 5 ==> ReconnectDelay(failures + 1) == Min(8000, 2 * ReconnectDelay(failures))
    ensures failures >= 5 ==> ReconnectDelay(failures) == 8000
  {
    assert Power2(5) == 32 by {
      assert Power2(3) == 8;
    }
  }

  /**
   * The reconnect timer: armed once when the lane dies or is found dead without one, with the delay its
   * failures call for; taken down by firing and by a stop, and by nothing else.
   */
  lemma TimerChangesExactly(l: Lane, e: Event)
    requires Inv(l)
    ensures Step(l, e).timer
         == if e.Stop? || e.ReconnectTimer? then None
            else if l.timer.Some? then l.timer
            else if !l.disposed && (HandshakeFails(l, e) || LookupFails(l, e) || (Retires(l, e) && l.state != Dead) || (e.PingTick? && l.state == Dead))
            then Some(ReconnectDelay(Step(l, e).failures))
            else None
  {
    SendsLeaveState(l);
    hide Balanced, Shaped, ReconnectDelay;
  }

  /** Which session the lane holds: the one that just connected, none once given up, else the one it had. */
  lemma HeldSessionChangesExactly(l: Lane, e: Event)
    requires Inv(l)
    ensures Step(l, e).session
         == if HandshakeSucceeds(l, e) then Some(e.s)
            else if HandshakeFails(l, e) || (Retires(l, e) && l.state != Dead) || e.Stop? then None
            else l.session
  {
    SendsLeaveState(l);
    hide Balanced, Shaped, ReconnectDelay;
  }

  /** A session ends by its own events, or when the lane that holds it is given up or stopped. */
  predicate EndsSession(l: Lane, e: Event, s: nat) {
    || (e.ConnectTimeout? && e.s == s && Shaking(l, s))
    || (e.Connected? && e.s == s && Shaking(l, s) && l.disposed)
    || e == SessionError(s) || e == SessionClose(s) || e == PeerDropped(s)
    || (l.session == Some(s) && ((Retires(l, e) && l.state != Dead) || e.Stop?))
  }

  predicate EndsHandshake(e: Event, s: nat) {
    (e.ConnectTimeout? || e.Connected? || e.SessionError? || e.SessionClose?) && e.s == s
  }

  /** Sessions and lookups: opening starts a lookup, its addresses a session unless the lane was stopped. */
  lemma SessionsChangeExactly(l: Lane, e: Event)
    requires Inv(l)
    ensures Step(l, e).resolving
         == l.resolving + (if Opens(l, e) then 1 else if (e.AddressesFound? || e.AddressesFailed?) && l.resolving > 0 then -1 else 0)
    ensures |Step(l, e).sessions| == |l.sessions| + if e.AddressesFound? && l.resolving > 0 && !l.disposed then 1 else 0
    ensures |Step(l, e).sessions| > |l.sessions| ==> Step(l, e).sessions[|l.sessions|] == Session(false, true)
  {
    SendsLeaveState(l);
    hide Balanced, Shaped, ReconnectDelay;
  }

  /** What giving the lane up, or settling a request, does to its sessions. */
  lemma RetiringSessions(l: Lane)
    ensures RetireDead(l).sessions == if l.state == Dead then l.sessions else Closed(l.sessions, l.session)
    ensures RetireDraining(l).sessions == if l.state == Dead || l.inFlight != 0 then l.sessions else Closed(l.sessions, l.session)
    ensures ScheduleReconnect(l).sessions == l.sessions
  {
    hide ReconnectDelay;
  }

  lemma SettlingSessions(l: Lane, r: nat, outcome: Outcome)
    requires r < |l.requests|
    ensures Settle(l, r, outcome).sessions
         == if l.requests[r].outcome.None? && l.state == Draining && l.inFlight == 1 then Closed(l.sessions, l.session) else l.sessions
  {
    hide ReconnectDelay;
  }

  lemma HandshakesLeave(l: Lane, s: nat)
    requires s < |l.sessions|
    ensures OnConnectTimeout(l, s).sessions == if Shaking(l, s) then l.sessions[s := Session(true, false)] else l.sessions
    ensures OnConnected(l, s).sessions
         == if Shaking(l, s) then l.sessions[s := Session(true, l.sessions[s].open && !l.disposed)] else l.sessions
  {
    hide ReconnectDelay, ScheduleReconnect;
    assert forall x: Lane :: ScheduleReconnect(x).sessions == x.sessions by {
      SchedulingLeaves();
    }
  }

  lemma SchedulingLeaves()
    ensures forall x: Lane :: ScheduleReconnect(x).sessions == x.sessions
  {
    hide ReconnectDelay;
  }

  lemma EndingsLeave(l: Lane, s: nat)
    requires s < |l.sessions|
    ensures var gone := l.sessions[s := Session(true, false)];
            var after := if Shaking(l, s) || l.state == Dead then gone else Closed(gone, l.session);
            OnError(l, s).sessions == after && OnClose(l, s).sessions == after
  {
    SchedulingLeaves();
    hide ReconnectDelay, ScheduleReconnect;
  }

  lemma ConnectSessions(l: Lane, e: Event, s: nat)
    requires (e.ConnectTimeout? || e.Connected?) && s < |l.sessions|
    ensures s < |Step(l, e).sessions|
    ensures Step(l, e).sessions[s].open <==> l.sessions[s].open && !EndsSession(l, e, s)
    ensures Step(l, e).sessions[s].settled <==> l.sessions[s].settled || EndsHandshake(e, s)
  {
    hide OnConnected, OnConnectTimeout, OnError, OnClose, IsUsable, Closed;
    if e.s < |l.sessions| {
      HandshakesLeave(l, e.s);
    }
  }

  lemma EndSessions(l: Lane, e: Event, s: nat)
    requires (e.SessionError? || e.SessionClose?) && s < |l.sessions|
    ensures s < |Step(l, e).sessions|
    ensures Step(l, e).sessions[s].open <==> l.sessions[s].open && !EndsSession(l, e, s)
    ensures Step(l, e).sessions[s].settled <==> l.sessions[s].settled || EndsHandshake(e, s)
  {
    hide OnConnected, OnConnectTimeout, OnError, OnClose, IsUsable;
    if e.s < |l.sessions| {
      EndingsLeave(l, e.s);
    }
  }

  /** Sessions are opened and closed for exactly these reasons. */
  lemma SessionChangesExactly(l: Lane, e: Event, s: nat)
    requires s < |l.sessions|
    ensures s < |Step(l, e).sessions|
    ensures Step(l, e).sessions[s].open <==> l.sessions[s].open && !EndsSession(l, e, s)
    ensures Step(l, e).sessions[s].settled <==> l.sessions[s].settled || EndsHandshake(e, s)
  {
    if e.ConnectTimeout? || e.Connected? {
      ConnectSessions(l, e, s);
    } else if e.SessionError? || e.SessionClose? {
      EndSessions(l, e, s);
    } else if e.StreamClosed? || e.Abort? || e.Send? {
      StreamSessions(l, e, s);
    } else {
      OtherSessions(l, e, s);
    }
    hide Step, EndsSession, EndsHandshake;
  }

  lemma StreamSessions(l: Lane, e: Event, s: nat)
    requires s < |l.sessions| && (e.StreamClosed? || e.Abort? || e.Send?)
    ensures s < |Step(l, e).sessions| && Step(l, e).sessions[s].settled == l.sessions[s].settled
    ensures Step(l, e).sessions[s].open <==> l.sessions[s].open && !EndsSession(l, e, s)
  {
    hide Settle, Begin;
    if !e.Send? && e.r < |l.requests| {
      SettlingSessions(l, e.r, OutcomeBy(e));
    } else if e.Send? && IsUsable(l) {
      SendsLeaveState(l);
      PlainSend(l);
    }
  }

  lemma OtherSessions(l: Lane, e: Event, s: nat)
    requires s < |l.sessions|
    requires !(e.ConnectTimeout? || e.Connected? || e.SessionError? || e.SessionClose? || e.StreamClosed? || e.Abort? || e.Send?)
    ensures s < |Step(l, e).sessions| && Step(l, e).sessions[s].settled == l.sessions[s].settled
    ensures Step(l, e).sessions[s].open <==> l.sessions[s].open && !EndsSession(l, e, s)
  {
    hide RetireDead, RetireDraining, ScheduleReconnect;
    SchedulingLeaves();
    RetiringSessions(l);
    RetiringSessions(l.(failures := l.failures + 1));
  }

  lemma PlainSend(l: Lane)
    requires IsUsable(l)
    ensures Begin(l, false).sessions == l.sessions
  {
  }

  /** How the event ends a request. */
  function OutcomeBy(e: Event): Outcome
    requires e.Abort? || e.StreamClosed?
  {
    if e.Abort? then Aborted else if e.answered then Answered else Failed
  }

  /** Each request's outcome, and whether there is one more. */
  lemma RequestsChangeExactly(l: Lane, e: Event, r: nat)
    ensures |Step(l, e).requests| == |l.requests| + if e.Send? && IsUsable(l) then 1 else 0
    ensures r < |l.requests| ==>
              Step(l, e).requests[r] == l.requests[r].(outcome := if EndsRequest(l, e, r) then Some(OutcomeBy(e)) else l.requests[r].outcome)
    ensures e.Send? && IsUsable(l) ==>
              Step(l, e).requests[|l.requests|] == Request(l.session.value, if e.alreadyAborted then Some(Aborted) else None)
  {
    RetiringLeavesRequests();
    hide ReconnectDelay, RetireDead, ScheduleReconnect;
  }

  lemma RetiringLeavesRequests()
    ensures forall x: Lane :: ScheduleReconnect(x).requests == x.requests
    ensures forall x: Lane :: RetireDead(x).requests == x.requests
  {
    hide ReconnectDelay;
  }

  /** Over any run a request ends as the first event that concludes it says. */
  lemma {:induction false} FirstEventDecides(l: Lane, events: seq<Event>, k: nat, r: nat)
    requires Inv(l) && k < |events| && EndsRequest(Run(l, events[..k]), events[k], r)
    ensures r < |Run(l, events).requests| && Run(l, events).requests[r].outcome == Some(OutcomeBy(events[k]))
    decreases |events|
  {
    StepKeepsInv(l, events[0]);
    var next := Step(l, events[0]);
    if k == 0 {
      assert events[..0] == [];
      RequestsChangeExactly(l, events[0], r);
      SettledOnce(next, events[1..]);
      hide Inv, Step, EndsRequest;
    } else {
      assert events[..k][0] == events[0] && events[..k][1..] == events[1..][..k - 1];
      hide Inv, Step, EndsRequest;
      FirstEventDecides(next, events[1..], k - 1, r);
    }
  }

  /** A stopped lane is dead, with no session, no timer and nothing new to open, for good. */
  ghost predicate Gone(l: Lane, sessions: nat) {
    l.disposed && l.state == Dead && l.session == None && l.timer == None && |l.sessions| == sessions
  }

  lemma {:induction false} StopIsForGood(l: Lane, events: seq<Event>)
    requires Inv(l)
    ensures Gone(Run(Step(l, Stop), events), |l.sessions|)
  {
    StepKeepsInv(l, Stop);
    StaysGone(Step(l, Stop), events, |l.sessions|);
    hide Inv;
  }

  lemma {:induction false} StaysGone(l: Lane, events: seq<Event>, sessions: nat)
    requires Inv(l) && Gone(l, sessions)
    ensures Gone(Run(l, events), sessions)
    decreases |events|
  {
    if events != [] {
      StepKeepsInv(l, events[0]);
      StateChangesExactly(l, events[0]);
      TimerChangesExactly(l, events[0]);
      HeldSessionChangesExactly(l, events[0]);
      SessionsChangeExactly(l, events[0]);
      hide Inv, Step;
      StaysGone(Step(l, events[0]), events[1..], sessions);
    }
  }

  /** No lane is ever lost: unless stopped, from every state it can be ready on an open session again. */
  lemma CanAlwaysRecover(l: Lane) returns (events: seq<Event>)
    requires Inv(l) && !l.disposed
    ensures IsUsable(Run(l, events))
  {
    if IsUsable(l) {
      events := [];
    } else if l.state == Connecting {
      events := ConnectFrom(l);
    } else {
      var open := Step(l, EnsureLanes);
      StepKeepsInv(l, EnsureLanes);
      StateChangesExactly(l, EnsureLanes);
      hide Inv, Step, IsUsable;
      var rest := ConnectFrom(open);
      events := [EnsureLanes] + rest;
      assert events[1..] == rest;
    }
  }

  /** A connecting lane gets there by the lookup it waits for, or by failing its handshake and trying again. */
  lemma ConnectFrom(l: Lane) returns (events: seq<Event>)
    requires Inv(l) && !l.disposed && l.state == Connecting
    ensures IsUsable(Run(l, events))
  {
    if l.resolving > 0 {
      events := ConnectFound(l);
    } else {
      var s :| 0 <= s < |l.sessions| && !l.sessions[s].settled;
      var failed := Step(l, SessionClose(s));
      StepKeepsInv(l, SessionClose(s));
      StateChangesExactly(l, SessionClose(s));
      TimerChangesExactly(l, SessionClose(s));
      assert failed.state == Dead && failed.timer.Some? && !failed.disposed;
      var open := Step(failed, ReconnectTimer);
      StepKeepsInv(failed, ReconnectTimer);
      StateChangesExactly(failed, ReconnectTimer);
      SessionsChangeExactly(failed, ReconnectTimer);
      assert open.state == Connecting && open.resolving > 0 && !open.disposed;
      hide Inv, Step, IsUsable;
      var rest := ConnectFound(open);
      events := [SessionClose(s), ReconnectTimer] + rest;
      assert events[1..] == [ReconnectTimer] + rest && ([ReconnectTimer] + rest)[1..] == rest;
    }
  }

  lemma ConnectFound(l: Lane) returns (events: seq<Event>)
    requires Inv(l) && !l.disposed && l.state == Connecting && l.resolving > 0
    ensures IsUsable(Run(l, events))
  {
    var found := Step(l, AddressesFound);
    var s := |l.sessions|;
    assert found.sessions[s] == Session(false, true) && !found.disposed;
    var ready := Step(found, Connected(s));
    assert IsUsable(ready);
    hide Step, Inv, IsUsable;
    events := [AddressesFound, Connected(s)];
    assert events[1..] == [Connected(s)];
    assert Run(found, [Connected(s)]) == Run(ready, []);
  }

  // ----- events of other sessions -----

  /** The event reports the end of session `s`. */
  predicate EndOf(e: Event, s: nat) {
    e == SessionClose(s) || e == SessionError(s) || e == GoAway(s)
  }

  /**
   * With session `t` held open, the end of another session closes it exactly when that session's handshake
   * had settled and the lane is not dead; a GOAWAY meant for another session closes it exactly when the lane
   * is idle, and otherwise takes it out of rotation.
   */
  lemma LateEndClosesExactly(l: Lane, s: nat, t: nat)
    requires Inv(l) && l.session == Some(t) && l.sessions[t].open && s != t
    ensures Closes(l, Step(l, SessionClose(s)), t) <==> s < |l.sessions| && l.sessions[s].settled && l.state != Dead
    ensures Closes(l, Step(l, SessionError(s)), t) <==> s < |l.sessions| && l.sessions[s].settled && l.state != Dead
    ensures Closes(l, Step(l, GoAway(s)), t) <==> s < |l.sessions| && l.state != Dead && l.inFlight == 0
    ensures Step(l, GoAway(s)).state == Draining
            <==> l.state == Draining || (s < |l.sessions| && l.state != Dead && l.inFlight > 0)
  {
    assert l.inFlight >= 0;
    hide Balanced, ReconnectDelay;
  }

  /** The step leaves the session the lane holds open alone, and the lane in rotation as it was. */
  predicate Undisturbed(l: Lane, after: Lane) {
    HoldsOpen(l) ==> after.session == l.session && HoldsOpen(after) && after.state == l.state
  }

  /** The end of another session finds a lane it can still harm. */
  predicate Strays(l: Lane, e: Event) {
    && HoldsOpen(l)
    && (match e
        case SessionClose(s) => s < |l.sessions| && l.session != Some(s) && (l.state != Dead || !l.sessions[s].settled)
        case SessionError(s) => s < |l.sessions| && l.session != Some(s) && (l.state != Dead || !l.sessions[s].settled)
        case GoAway(s) => s < |l.sessions| && l.session != Some(s) && l.state != Dead && l.state != Draining
        case _ => false)
  }

  lemma StrayExactly(l: Lane, e: Event, s: nat)
    requires Inv(l) && EndOf(e, s) && l.session != Some(s)
    ensures Undisturbed(l, Step(l, e)) <==> !Strays(l, e)
  {
    hide Balanced, ReconnectDelay;
  }

  /** Along the run no session in use is closed, dropped or drained by the end of another one. */
  ghost predicate NeverDisturbed(l: Lane, events: seq<Event>)
    decreases |events|
  {
    events == []
    || (&& (forall s: nat :: EndOf(events[0], s) && l.session != Some(s) ==> Undisturbed(l, Step(l, events[0])))
        && NeverDisturbed(Step(l, events[0]), events[1..]))
  }

  predicate NeverStrays(l: Lane, events: seq<Event>)
    decreases |events|
  {
    events == [] || (!Strays(l, events[0]) && NeverStrays(Step(l, events[0]), events[1..]))
  }

  lemma StrayNamesOther(l: Lane, e: Event)
    ensures Strays(l, e) ==> exists s: nat :: EndOf(e, s) && l.session != Some(s)
  {
    match e
    case SessionClose(s) => assert EndOf(e, s);
    case SessionError(s) => assert EndOf(e, s);
    case GoAway(s) => assert EndOf(e, s);
    case _ =>
  }

  /** Over a run sessions are only ever hit by their own events exactly when no event strays. */
  lemma {:induction false} NeverDisturbedExactly(l: Lane, events: seq<Event>)
    requires Inv(l)
    ensures NeverDisturbed(l, events) <==> NeverStrays(l, events)
    decreases |events|
  {
    hide Inv, Step, Undisturbed, Strays, EndOf;
    if events != [] {
      StepKeepsInv(l, events[0]);
      StrayNamesOther(l, events[0]);
      forall s: nat | EndOf(events[0], s) && l.session != Some(s)
        ensures Undisturbed(l, Step(l, events[0])) <==> !Strays(l, events[0])
      {
        StrayExactly(l, events[0], s);
      }
      NeverDisturbedExactly(Step(l, events[0]), events[1..]);
    }
  }

  /** The sessions that have reported their close, after this event. */
  function Reported(l: Lane, reported: set<nat>, e: Event): set<nat> {
    if e.SessionClose? && e.s < |l.sessions| then reported + {e.s} else reported
  }

  /**
   * The lane is only opened once every earlier session has reported its close, and a closed session reports
   * nothing more.
   */
  ghost predicate Patient(l: Lane, reported: set<nat>, events: seq<Event>)
    decreases |events|
  {
    events == []
    || (&& (Opens(l, events[0]) ==> l.resolving == 0 && forall s :: 0 <= s < |l.sessions| ==> s in reported)
        && (forall s: nat :: EndOf(events[0], s) ==> s !in reported)
        && Patient(Step(l, events[0]), Reported(l, reported, events[0]), events[1..]))
  }

  /** At most one attempt or session has yet to report its end, and those that did are closed. */
  ghost predicate OneAtATime(l: Lane, reported: set<nat>) {
    && l.resolving <= 1
    && (forall s :: s in reported ==> s < |l.sessions| && !l.sessions[s].open)
    && (forall s, t :: 0 <= s < t < |l.sessions| ==> s in reported || t in reported)
    && (l.resolving == 1 ==> forall s :: 0 <= s < |l.sessions| ==> s in reported)
  }

  /** Nothing is opened: the same sessions, some of them perhaps closed since. */
  ghost predicate OnlyCloses(l: Lane, after: Lane) {
    && |after.sessions| == |l.sessions| && after.resolving == l.resolving
    && forall s :: 0 <= s < |l.sessions| && after.sessions[s].open ==> l.sessions[s].open
  }

  lemma RetiringOnlyCloses(l: Lane)
    ensures OnlyCloses(l, RetireDead(l)) && OnlyCloses(l, RetireDraining(l)) && OnlyCloses(l, Stopped(l))
    ensures OnlyCloses(l, RetireDead(l.(failures := l.failures + 1))) && OnlyCloses(l, ScheduleReconnect(l))
  {
    hide ReconnectDelay;
  }

  lemma StreamsOnlyClose(l: Lane, r: nat, outcome: Outcome, alreadyAborted: bool)
    ensures r < |l.requests| ==> OnlyCloses(l, Settle(l, r, outcome))
    ensures IsUsable(l) ==> OnlyCloses(l, Begin(l, alreadyAborted))
  {
    hide ReconnectDelay;
  }

  lemma HandshakesOnlyClose(l: Lane, s: nat)
    requires s < |l.sessions|
    ensures OnlyCloses(l, OnConnected(l, s)) && OnlyCloses(l, OnConnectTimeout(l, s))
    ensures OnlyCloses(l, OnError(l, s)) && OnlyCloses(l, OnClose(l, s)) && !OnClose(l, s).sessions[s].open
  {
    hide ReconnectDelay;
  }

  lemma OneAtATimeStays(l: Lane, reported: set<nat>, e: Event)
    requires OneAtATime(l, reported)
    requires Opens(l, e) ==> l.resolving == 0 && forall s :: 0 <= s < |l.sessions| ==> s in reported
    ensures OneAtATime(Step(l, e), Reported(l, reported, e))
  {
    hide Settle, Begin, RetireDead, RetireDraining, ScheduleReconnect, Stopped, OnConnected, OnConnectTimeout, OnError, OnClose;
    match e
    case ConnectTimeout(s) => if s < |l.sessions| { HandshakesOnlyClose(l, s); }
    case Connected(s) => if s < |l.sessions| { HandshakesOnlyClose(l, s); }
    case SessionError(s) => if s < |l.sessions| { HandshakesOnlyClose(l, s); }
    case SessionClose(s) => if s < |l.sessions| { HandshakesOnlyClose(l, s); }
    case StreamClosed(r, answered) => StreamsOnlyClose(l, r, if answered then Answered else Failed, false);
    case Abort(r) => StreamsOnlyClose(l, r, Aborted, false);
    case Send(alreadyAborted) => StreamsOnlyClose(l, 0, Aborted, alreadyAborted);
    case AddressesFailed =>
      if l.resolving > 0 {
        RetiringOnlyCloses(l.(resolving := l.resolving - 1, failures := l.failures + 1, state := Dead));
      }
    case _ => RetiringOnlyCloses(l);
  }

  lemma PatientDoesNotStray(l: Lane, reported: set<nat>, e: Event)
    requires OneAtATime(l, reported) && forall s: nat :: EndOf(e, s) ==> s !in reported
    ensures !Strays(l, e)
  {
    match e
    case SessionClose(s) => assert EndOf(e, s);
    case SessionError(s) => assert EndOf(e, s);
    case GoAway(s) => assert EndOf(e, s);
    case _ =>
  }

  /** Waiting for every earlier close before re-opening is enough: then no session is hit by another's event. */
  lemma {:induction false} PatienceSuffices(l: Lane, reported: set<nat>, events: seq<Event>)
    requires Inv(l) && OneAtATime(l, reported) && Patient(l, reported, events)
    ensures NeverDisturbed(l, events)
    decreases |events|
  {
    hide Inv, Step, OneAtATime, Opens, Reported, EndOf, Strays;
    NeverDisturbedExactly(l, events);
    if events != [] {
      PatientDoesNotStray(l, reported, events[0]);
      OneAtATimeStays(l, reported, events[0]);
      StepKeepsInv(l, events[0]);
      PatienceSuffices(Step(l, events[0]), Reported(l, reported, events[0]), events[1..]);
      NeverDisturbedExactly(Step(l, events[0]), events[1..]);
    }
  }

  /** A ready lane with one request is told to go away, and is re-opened before that request ends. */
  const REOPENED := [GoAway(0), EnsureLanes, AddressesFound, Connected(1), Send(false)]
  const BUSY := Lane(Ready, Some(0), 1, 0, None, false, 0, [Session(true, true)], [Request(0, None)], [])

  const HANDSHAKING := Lane(Connecting, None, 0, 0, None, false, 0, [Session(false, true)], [], [])

  lemma HandshakeIsReachable()
    ensures Run(FRESH, [EnsureLanes, AddressesFound]) == HANDSHAKING
  {
    assert Step(Step(FRESH, EnsureLanes), AddressesFound) == HANDSHAKING;
    hide Step;
    assert Run(Step(FRESH, EnsureLanes), [AddressesFound]) == HANDSHAKING;
  }

  lemma BusyIsReachable()
    ensures Run(HANDSHAKING, [Connected(0), Send(false)]) == BUSY
  {
    var ready := Step(HANDSHAKING, Connected(0));
    assert ready == Lane(Ready, Some(0), 0, 0, None, false, 0, [Session(true, true)], [], []);
    assert Step(ready, Send(false)) == BUSY;
    hide Step;
    assert Run(ready, [Send(false)]) == BUSY;
  }

  lemma ReopenedState()
    ensures var l := Run(BUSY, REOPENED);
            && l.state == Ready && l.session == Some(1) && l.timer == None && !l.disposed
            && l.sessions == [Session(true, true), Session(true, true)]
            && l.requests == [Request(0, None), Request(1, None)]
  {
    var l1 := Step(BUSY, GoAway(0));
    assert l1 == BUSY.(state := Draining);
    var l2 := Step(l1, EnsureLanes);
    var l3 := Step(l2, AddressesFound);
    assert l3.sessions == [Session(true, true), Session(false, true)];
    var l4 := Step(l3, Connected(1));
    assert l4.sessions == [Session(true, true), Session(true, true)];
    var l5 := Step(l4, Send(false));
    hide Step;
    assert Run(l4, [Send(false)]) == l5;
    assert Run(l2, [AddressesFound, Connected(1), Send(false)]) == Run(l3, [Connected(1), Send(false)]);
    assert Run(BUSY, REOPENED) == Run(l1, [EnsureLanes, AddressesFound, Connected(1), Send(false)]);
  }

  /**
   * The overlap is reachable: re-opening a lane that is still draining lets the old connection's late
   * close take down the healthy connection that replaced it, with a request on it.
   */
  lemma LateCloseHitsReplacement()
    ensures var before := Run(BUSY, REOPENED);
            var after := Step(before, SessionClose(0));
            && |before.sessions| == 2 && |after.sessions| == 2
            && before.state == Ready && before.session == Some(1) && before.sessions[1].open
            && after.state == Dead && !after.sessions[1].open && after.requests == [Request(0, None), Request(1, None)]
  {
    ReopenedState();
    hide Run, ReconnectDelay;
  }

  // ----- the lane record, updated in place -----

  class LaneSlot {
    var state: State
    var session: Option<nat>
    var inFlight: int
    var failures: nat
    var timer: Option<nat>
    var disposed: bool
    var resolving: nat
    var sessions: seq<Session>
    var requests: seq<Request>
    var settlements: seq<nat>

    function View(): Lane
      reads this
    {
      Lane(state, session, inFlight, failures, timer, disposed, resolving, sessions, requests, settlements)
    }

    constructor ()
      ensures View() == FRESH && Inv(View()) && NoOrphan(View())
    {
      state, session, inFlight, failures, timer := Dead, None, 0, 0, None;
      disposed, resolving, sessions, requests, settlements := false, 0, [], [], [];
    }

    method CloseSession(s: nat)
      modifies this`sessions
      ensures sessions == Closed(old(sessions), Some(s))
    {
      if s < |sessions| {
        sessions := sessions[s := sessions[s].(open := false)];
      }
    }

    method ArmReconnect()
      modifies this`timer
      ensures View() == ScheduleReconnect(old(View()))
    {
      if disposed || timer.Some? {
        return;
      }
      timer := Some(ReconnectDelay(failures));
    }

    method Retire(target: State)
      requires target == Draining || target == Dead
      modifies this
      ensures View() == if target == Dead then RetireDead(old(View())) else RetireDraining(old(View()))
      decreases target == Draining
    {
      if state == Dead {
        return;
      }
      state := target;
      if target == Dead {
        if session.Some? {
          CloseSession(session.value);
        }
        session := None;
        ArmReconnect();
      } else if inFlight == 0 {
        Retire(Dead);
      }
    }

    method Open()
      modifies this
      ensures View() == OpenLane(old(View()))
    {
      if disposed || state == Connecting || IsUsable(View()) {
        return;
      }
      state := Connecting;
      resolving := resolving + 1;
    }

    method FireReconnectTimer()
      requires timer.Some?
      modifies this
      ensures View() == Step(old(View()), ReconnectTimer)
    {
      timer := None;
      Open();
    }

    method AddressesResolved(found: bool)
      requires resolving > 0
      modifies this
      ensures View() == if found then OnAddresses(old(View())) else OnNoAddresses(old(View()))
    {
      resolving := resolving - 1;
      if !found {
        failures := failures + 1;
        state := Dead;
        ArmReconnect();
      } else if !disposed {
        sessions := sessions + [Session(false, true)];
      }
    }

    method Fail()
      modifies this
      ensures View() == FailConnect(old(View()))
    {
      failures := failures + 1;
      state := Dead;
      session := None;
      ArmReconnect();
    }

    method Latch(s: nat)
      requires s < |sessions|
      modifies this`sessions
      ensures View() == Latched(old(View()), s)
    {
      sessions := sessions[s := sessions[s].(settled := true)];
    }

    method HandleConnect(s: nat)
      requires s < |sessions|
      modifies this
      ensures View() == OnConnected(old(View()), s)
    {
      if sessions[s].settled {
        return;
      }
      Latch(s);
      if disposed {
        CloseSession(s);
        return;
      }
      session, state, failures := Some(s), Ready, 0;
    }

    method HandleTimeout(s: nat)
      requires s < |sessions|
      modifies this
      ensures View() == OnConnectTimeout(old(View()), s)
    {
      if sessions[s].settled {
        return;
      }
      Latch(s);
      CloseSession(s);
      Fail();
    }

    method HandleError(s: nat)
      requires s < |sessions|
      modifies this
      ensures View() == OnError(old(View()), s)
    {
      var settled := sessions[s].settled;
      CloseSession(s);
      if !settled {
        Latch(s);
        Fail();
        return;
      }
      failures := failures + 1;
      Retire(Dead);
    }

    method HandleClose(s: nat)
      requires s < |sessions|
      modifies this
      ensures View() == OnClose(old(View()), s)
    {
      var settled := sessions[s].settled;
      CloseSession(s);
      if !settled {
        Latch(s);
        Fail();
        return;
      }
      Retire(Dead);
    }

    method SettleRequest(r: nat, outcome: Outcome)
      requires r < |requests|
      modifies this
      ensures View() == Settle(old(View()), r, outcome)
    {
      if requests[r].outcome.Some? {
        return;
      }
      requests := requests[r := requests[r].(outcome := Some(outcome))];
      inFlight := inFlight - 1;
      if state == Draining && inFlight == 0 {
        Retire(Dead);
      }
      settlements := settlements + [r];
    }

    method SendOnLane(threw: bool, alreadyAborted: bool)
      requires IsUsable(View())
      modifies this
      ensures View() == Step(old(View()), if threw then RequestThrew else Send(alreadyAborted))
    {
      if threw {
        Retire(Dead);
        return;
      }
      requests := requests + [Request(session.value, None)];
      inFlight := inFlight + 1;
      if alreadyAborted {
        SettleRequest(|requests| - 1, Aborted);
      }
    }

    method StopLane()
      modifies this
      ensures View() == Stopped(old(View()))
    {
      disposed, timer, state := true, None, Dead;
      if session.Some? {
        CloseSession(session.value);
      }
      session := None;
    }
  }
}
