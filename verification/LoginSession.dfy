/** Login attempts against stop: generations decide, at every await, whether an attempt still counts. */
module LoginSession {
  import opened Prelude

  // ----- the gate -----

  /** One gate admits one attempt at a time and numbers them. */
  datatype Gate = Gate(generation: nat, active: bool) {
    predicate IsCurrent(g: nat) {
      active && generation == g
    }

    function Begun(): Gate {
      if active then this else Gate(generation + 1, true)
    }

    function Invalidated(): Gate {
      Gate(generation + 1, false)
    }

    function Finished(g: nat): Gate {
      if generation == g then this.(active := false) else this
    }
  }

  datatype GateOp = Begin | Invalidate | Finish(g: nat)

  function GateStep(gate: Gate, op: GateOp): Gate {
    match op
    case Begin => gate.Begun()
    case Invalidate => gate.Invalidated()
    case Finish(g) => gate.Finished(g)
  }

  function GateRun(gate: Gate, ops: seq<GateOp>): Gate
    decreases |ops|
  {
    if ops == [] then gate else GateRun(GateStep(gate, ops[0]), ops[1..])
  }

  /** A generation that is not current and already handed out never becomes current again. */
  lemma {:induction false} SpentStaysSpent(gate: Gate, ops: seq<GateOp>, g: nat)
    requires g <= gate.generation && !gate.IsCurrent(g)
    ensures !GateRun(gate, ops).IsCurrent(g)
    decreases |ops|
  {
    if ops != [] {
      SpentStaysSpent(GateStep(gate, ops[0]), ops[1..], g);
    }
  }

  /**
   * What each operation does to who is current: beginning admits a generation never handed out before, and
   * only when idle; invalidating ends everything for good; finishing ends that generation alone.
   */
  lemma GateStepsExactly(gate: Gate, g: nat)
    ensures gate.active ==> gate.Begun() == gate
    ensures !gate.active ==> gate.Begun().IsCurrent(g) == (g == gate.Begun().generation) && gate.Begun().generation == gate.generation + 1
    ensures !gate.Invalidated().IsCurrent(g) && gate.Invalidated().generation == gate.generation + 1
    ensures forall h: nat :: gate.Finished(g).IsCurrent(h) <==> gate.IsCurrent(h) && h != g
    ensures gate.Finished(g).generation == gate.generation
  {
  }

  class SessionAttemptGate {
    var generation: nat
    var active: bool

    function View(): Gate
      reads this
    {
      Gate(generation, active)
    }

    constructor ()
      ensures View() == Gate(0, false)
    {
      generation, active := 0, false;
    }

    method BeginAttempt() returns (g: Option<nat>)
      modifies this
      ensures View() == old(View()).Begun()
      ensures g.Some? <==> !old(active)
      ensures g.Some? ==> View().IsCurrent(g.value) && forall h: nat :: h != g.value ==> !View().IsCurrent(h)
      ensures g.Some? ==> g.value > old(generation)
      ensures g.None? ==> View() == old(View())
    {
      if active {
        return None;
      }
      active := true;
      generation := generation + 1;
      return Some(generation);
    }

    method InvalidateAttempt()
      modifies this
      ensures View() == old(View()).Invalidated()
      ensures forall h: nat :: !View().IsCurrent(h)
    {
      active := false;
      generation := generation + 1;
    }

    method FinishAttempt(g: nat)
      modifies this
      ensures View() == old(View()).Finished(g)
      ensures forall h: nat :: View().IsCurrent(h) <==> old(View()).IsCurrent(h) && h != g
    {
      if generation == g {
        active := false;
      }
    }
  }

  // ----- one bot's sessions -----

  /** Where an attempt is suspended; `Ended` has returned, `Settled` has also run its cleanup. */
  datatype Pc = Resuming | Scanning | Preparing | Ended | Settled

  datatype Attempt = Attempt(runtime: nat, generation: nat, qrFallback: bool, pc: Pc)

  /** A client is named by the attempt that logged it in; so is a run and a pending retry. */
  datatype Runtime = Runtime(
    stopRequested: bool,
    gate: Gate,
    client: Option<nat>,
    loginRun: Option<nat>,
    retry: Option<nat>)

  datatype Status = Offline | Connecting | Online

  /**
   * `current` is the runtime the process map holds for the bot; earlier ones live on only in the
   * attempts and timers that still refer to them.  `online` lists the attempts that published it.
   * `row` and `scope`, the bot's row and this worker's claim to it, are shared with other processes.
   */
  datatype System = System(
    row: bool,
    scope: bool,
    current: Option<nat>,
    runtimes: seq<Runtime>,
    attempts: seq<Attempt>,
    status: Status,
    online: seq<nat>)

  const EMPTY_RUNTIME := Runtime(false, Gate(0, false), None, None, None)

  /** How an awaited login step came back, and what the identity lock says of the account. */
  datatype Login = LoggedIn(lockRejects: bool) | NoToken | Threw

  datatype Event =
    | Start(overQuota: bool)
    | Resume(overQuota: bool)
    | LoginReturned(a: nat, result: Login)
    | StepPrepared(a: nat)
    | PreparationThrew(a: nat)
    | Prepared(a: nat)
    | Cleanup(a: nat)
    | RetryTimer(r: nat)
    | ListenerLost(r: nat, client: nat, overQuota: bool)
    | WatchdogGaveUp(r: nat, client: nat, overQuota: bool)
    | Stop
    | DeleteSession
    | RowVanished
    | ScopeMoved(inScope: bool)

  function WithRuntime(s: System, r: nat, rt: Runtime): System
    requires r < |s.runtimes|
  {
    s.(runtimes := s.runtimes[r := rt])
  }

  function At(s: System, a: nat, pc: Pc): System
    requires a < |s.attempts|
  {
    s.(attempts := s.attempts[a := s.attempts[a].(pc := pc)])
  }

  /** `getRuntime`. */
  function EnsureRuntime(s: System): (r: System)
    ensures r.current.Some? && r.current.value < |r.runtimes| && r.attempts == s.attempts && r.row == s.row && r.scope == s.scope
    ensures r.online == s.online && r.status == s.status
  {
    if s.current.Some? && s.current.value < |s.runtimes| then s
    else s.(current := Some(|s.runtimes|), runtimes := s.runtimes + [EMPTY_RUNTIME])
  }

  /** `isCurrentAttempt`. */
  predicate IsCurrent(s: System, a: nat) {
    && Admitted(s, a)
    && !s.runtimes[s.attempts[a].runtime].stopRequested
  }

  /** The gate still holds the attempt's own generation open. */
  predicate Admitted(s: System, a: nat) {
    && a < |s.attempts| && s.attempts[a].runtime < |s.runtimes|
    && s.runtimes[s.attempts[a].runtime].gate.IsCurrent(s.attempts[a].generation)
  }

  /** `beginLogin` up to the attempt's first await; being over quota, or a busy gate, throws instead. */
  function BeginLogin(s0: System, overQuota: bool, qrFallback: bool): System {
    if overQuota then s0
    else
      var s := EnsureRuntime(s0);
      var r := s.current.value;
      var rt := s.runtimes[r];
      if rt.gate.active then s
      else
        var gate := rt.gate.Begun();
        var admitted := !rt.stopRequested;
        s.(runtimes := s.runtimes[r := rt.(gate := gate, loginRun := Some(|s.attempts|))],
           attempts := s.attempts + [Attempt(r, gate.generation, qrFallback, if admitted then Resuming else Ended)],
           status := if admitted then Connecting else s.status)
  }

  function OnStart(s0: System, overQuota: bool): System {
    if !s0.row || !s0.scope then s0
    else
      var s := EnsureRuntime(s0);
      var r := s.current.value;
      if s.runtimes[r].client.Some? || s.runtimes[r].loginRun.Some? then s
      else BeginLogin(WithRuntime(s, r, s.runtimes[r].(stopRequested := false, retry := None)), overQuota, true)
  }

  function OnResume(s0: System, overQuota: bool): System {
    if !s0.row then s0
    else
      var s := EnsureRuntime(s0);
      var r := s.current.value;
      if s.runtimes[r].client.Some? then s
      else BeginLogin(WithRuntime(s, r, s.runtimes[r].(stopRequested := false)), overQuota, false)
  }

  /** The `catch`: a current attempt takes its half-built session down, and may arm a retry. */
  function Failed(s: System, a: nat): System
    requires a < |s.attempts| && s.attempts[a].runtime < |s.runtimes|
  {
    var r := s.attempts[a].runtime;
    var ended := At(s, a, Ended);
    if !IsCurrent(s, a) then ended
    else
      var rt := s.runtimes[r].(client := None);
      WithRuntime(ended, r, if s.attempts[a].qrFallback then rt.(retry := Some(a)) else rt).(status := Offline)
  }

  /** A credential LINE accepted: install the client, unless the identity lock rejects the account. */
  function Install(s: System, a: nat, lockRejects: bool): System
    requires a < |s.attempts| && s.attempts[a].runtime < |s.runtimes|
  {
    var r := s.attempts[a].runtime;
    if lockRejects then WithRuntime(At(s, a, Ended), r, s.runtimes[r].(client := None)).(status := Offline)
    else WithRuntime(At(s, a, Preparing), r, s.runtimes[r].(client := Some(a)))
  }

  function OnLogin(s: System, a: nat, result: Login): System
    requires a < |s.attempts| && s.attempts[a].runtime < |s.runtimes|
  {
    if result.Threw? then Failed(s, a)
    else if !IsCurrent(s, a) then At(s, a, Ended)
    else match result
         case LoggedIn(lockRejects) => Install(s, a, lockRejects)
         case _ =>
           if s.attempts[a].pc == Resuming && s.attempts[a].qrFallback then At(s, a, Scanning)
           else At(s, a, Ended).(status := Offline)
  }

  function OnCleanup(s: System, a: nat): System
    requires a < |s.attempts| && s.attempts[a].runtime < |s.runtimes|
  {
    var r := s.attempts[a].runtime;
    var rt := s.runtimes[r];
    WithRuntime(At(s, a, Settled), r,
                rt.(gate := rt.gate.Finished(s.attempts[a].generation),
                    loginRun := if rt.loginRun == Some(a) then None else rt.loginRun))
  }

  /** Fires long after the arming attempt's cleanup, which runs with it in one turn of the event loop. */
  function OnRetry(s: System, r: nat): System
    requires r < |s.runtimes|
  {
    var retry := s.runtimes[r].retry;
    if retry.None? || retry.value >= |s.attempts| || s.attempts[retry.value].pc != Settled then s
    else
      var cleared := WithRuntime(s, r, s.runtimes[r].(retry := None));
      if s.attempts[retry.value].runtime == r && IsCurrent(cleared, retry.value) && cleared.runtimes[r].client.None?
      then BeginLogin(cleared, false, true) else cleared
  }

  function OnListenerLost(s: System, r: nat, client: nat, overQuota: bool): System
    requires r < |s.runtimes|
  {
    var rt := s.runtimes[r];
    if rt.stopRequested || rt.client != Some(client) || rt.loginRun.Some? || !s.row then s
    else BeginLogin(WithRuntime(s, r, rt.(client := None)), overQuota, true)
  }

  /** The last of a streak of failed health checks; a login that cannot begin is reported as offline. */
  function OnWatchdog(s: System, r: nat, client: nat, overQuota: bool): System
    requires r < |s.runtimes|
  {
    var rt := s.runtimes[r];
    if rt.client != Some(client) then s
    else
      var next := BeginLogin(WithRuntime(s, r, rt.(client := None)), overQuota, true);
      if |next.attempts| == |s.attempts| then next.(status := Offline) else next
  }

  predicate StopTakesEffect(s: System) {
    s.row && s.scope
  }

  /** `stopBot`: returns or throws without touching anything when the row is gone or out of scope. */
  function OnStop(s: System): System {
    if !StopTakesEffect(s) then s
    else if s.current.None? || s.current.value >= |s.runtimes| then s.(status := Offline, current := None)
    else
      var r := s.current.value;
      var rt := s.runtimes[r];
      WithRuntime(s, r, Runtime(true, rt.gate.Invalidated(), None, None, None)).(status := Offline, current := None)
  }

  /** `deleteBotSession`: stop, forget the runtime, delete the row; out of scope, `stopBot` throws first. */
  function OnDelete(s: System): System {
    if s.row && !s.scope then s else OnStop(s).(current := None, row := false)
  }

  /** An attempt can be resumed: it exists and is suspended at that await. */
  predicate Suspended(s: System, a: nat, pc: Pc) {
    a < |s.attempts| && s.attempts[a].runtime < |s.runtimes| && s.attempts[a].pc == pc
  }

  function Step(s: System, e: Event): System {
    match e
    case Start(overQuota) => OnStart(s, overQuota)
    case Resume(overQuota) => OnResume(s, overQuota)
    case LoginReturned(a, result) =>
      if Suspended(s, a, Resuming) || Suspended(s, a, Scanning) then OnLogin(s, a, result) else s
    case StepPrepared(a) =>
      if Suspended(s, a, Preparing) && !IsCurrent(s, a) then At(s, a, Ended) else s
    case PreparationThrew(a) => if Suspended(s, a, Preparing) then Failed(s, a) else s
    case Prepared(a) =>
      if !Suspended(s, a, Preparing) then s
      else if !IsCurrent(s, a) then At(s, a, Ended)
      else At(s, a, Ended).(status := Online, online := s.online + [a])
    case Cleanup(a) => if Suspended(s, a, Ended) then OnCleanup(s, a) else s
    case RetryTimer(r) => if r < |s.runtimes| then OnRetry(s, r) else s
    case ListenerLost(r, client, overQuota) => if r < |s.runtimes| then OnListenerLost(s, r, client, overQuota) else s
    case WatchdogGaveUp(r, client, overQuota) => if r < |s.runtimes| then OnWatchdog(s, r, client, overQuota) else s
    case Stop => OnStop(s)
    case DeleteSession => OnDelete(s)
    case RowVanished => s.(row := false)
    case ScopeMoved(inScope) => s.(scope := inScope)
  }

  function Run(s: System, events: seq<Event>): System
    decreases |events|
  {
    if events == [] then s else Run(Step(s, events[0]), events[1..])
  }

  // ----- what every run keeps -----

  /** Stopped means out of the map for good, with nothing left running; while the row stands, all others are. */
  ghost predicate RuntimeOk(s: System, r: nat)
    requires r < |s.runtimes|
  {
    var rt := s.runtimes[r];
    && (rt.stopRequested ==> s.current != Some(r))
    && (s.row && s.current != Some(r) ==> rt.stopRequested)
    && (rt.stopRequested ==> !rt.gate.active && rt.client.None? && rt.loginRun.None? && rt.retry.None?)
    && (rt.client.Some? ==> rt.client.value < |s.attempts| && s.attempts[rt.client.value].runtime == r)
  }

  /** Generations were handed out by the attempt's own gate, and a settled one is spent. */
  ghost predicate AttemptOk(s: System, a: nat)
    requires a < |s.attempts|
  {
    var at := s.attempts[a];
    && at.runtime < |s.runtimes| && at.generation <= s.runtimes[at.runtime].gate.generation
    && (at.pc == Settled ==> !Admitted(s, a))
  }

  ghost predicate Inv(s: System) {
    && (s.current.Some? ==> s.current.value < |s.runtimes|)
    && (forall r :: 0 <= r < |s.runtimes| ==> RuntimeOk(s, r))
    && (forall a :: 0 <= a < |s.attempts| ==> AttemptOk(s, a))
    && (forall a, b :: 0 <= a < b < |s.attempts| && s.attempts[a].runtime == s.attempts[b].runtime ==>
          s.attempts[a].generation < s.attempts[b].generation)
  }

  lemma EnsureKeeps(s: System)
    requires Inv(s)
    ensures Inv(EnsureRuntime(s))
    ensures forall a :: 0 <= a < |s.attempts| ==> IsCurrent(EnsureRuntime(s), a) == IsCurrent(s, a)
  {
    var next := EnsureRuntime(s);
    forall a | 0 <= a < |s.attempts| ensures AttemptOk(next, a) && IsCurrent(next, a) == IsCurrent(s, a) {
      assert AttemptOk(s, a);
      assert next.runtimes[s.attempts[a].runtime] == s.runtimes[s.attempts[a].runtime];
    }
    forall r | 0 <= r < |next.runtimes| ensures RuntimeOk(next, r) {
      assert r < |s.runtimes| ==> RuntimeOk(s, r) && next.runtimes[r] == s.runtimes[r];
    }
  }

  /** A runtime may change as long as its gate revives no generation already handed out. */
  lemma WithRuntimeKeeps(s: System, r: nat, rt: Runtime)
    requires Inv(s) && r < |s.runtimes| && RuntimeOk(WithRuntime(s, r, rt), r)
    requires rt.gate.generation >= s.runtimes[r].gate.generation
    requires forall g: nat :: g <= s.runtimes[r].gate.generation && rt.gate.IsCurrent(g) ==> s.runtimes[r].gate.IsCurrent(g)
    ensures Inv(WithRuntime(s, r, rt))
  {
    var next := WithRuntime(s, r, rt);
    forall a | 0 <= a < |s.attempts| ensures AttemptOk(next, a) {
      assert AttemptOk(s, a);
    }
    forall q | 0 <= q < |s.runtimes| ensures RuntimeOk(next, q) {
      assert RuntimeOk(s, q);
    }
  }

  lemma AtKeeps(s: System, a: nat, pc: Pc)
    requires Inv(s) && a < |s.attempts|
    requires pc == Settled ==> !Admitted(s, a)
    ensures Inv(At(s, a, pc))
  {
    var next := At(s, a, pc);
    forall b | 0 <= b < |s.attempts| ensures AttemptOk(next, b) {
      assert AttemptOk(s, b);
    }
    forall r | 0 <= r < |s.runtimes| ensures RuntimeOk(next, r) {
      assert RuntimeOk(s, r);
    }
  }

  lemma BeginKeeps(s0: System, overQuota: bool, qrFallback: bool)
    requires Inv(s0)
    ensures Inv(BeginLogin(s0, overQuota, qrFallback))
  {
    EnsureKeeps(s0);
    var s := EnsureRuntime(s0);
    var r := s.current.value;
    assert RuntimeOk(s, r);
    if !overQuota && !s.runtimes[r].gate.active {
      var next := BeginLogin(s0, overQuota, qrFallback);
      forall a | 0 <= a < |next.attempts| ensures AttemptOk(next, a) {
        assert a < |s.attempts| ==> AttemptOk(s, a);
      }
      forall q | 0 <= q < |next.runtimes| ensures RuntimeOk(next, q) {
        assert RuntimeOk(s, q);
      }
      forall a | 0 <= a < |s.attempts| && s.attempts[a].runtime == r
        ensures s.attempts[a].generation < next.attempts[|s.attempts|].generation
      {
        assert AttemptOk(s, a);
      }
    }
  }

  lemma StartKeeps(s0: System, overQuota: bool)
    requires Inv(s0)
    ensures Inv(OnStart(s0, overQuota)) && Inv(OnResume(s0, overQuota))
  {
    EnsureKeeps(s0);
    var s := EnsureRuntime(s0);
    var r := s.current.value;
    assert RuntimeOk(s, r);
    var started := s.runtimes[r].(stopRequested := false, retry := None);
    var resumed := s.runtimes[r].(stopRequested := false);
    WithRuntimeKeeps(s, r, started);
    WithRuntimeKeeps(s, r, resumed);
    hide Inv, EnsureRuntime;
    BeginKeeps(WithRuntime(s, r, started), overQuota, true);
    BeginKeeps(WithRuntime(s, r, resumed), overQuota, false);
    hide BeginLogin, WithRuntime;
  }

  lemma FailedKeeps(s: System, a: nat)
    requires Inv(s) && a < |s.attempts| && s.attempts[a].runtime < |s.runtimes|
    ensures Inv(Failed(s, a))
  {
    AtKeeps(s, a, Ended);
    var ended := At(s, a, Ended);
    var r := s.attempts[a].runtime;
    assert RuntimeOk(ended, r);
    if IsCurrent(s, a) {
      var rt := s.runtimes[r].(client := None);
      WithRuntimeKeeps(ended, r, rt);
      WithRuntimeKeeps(ended, r, rt.(retry := Some(a)));
      StatusIsFree(WithRuntime(ended, r, rt), Offline, s.online);
      StatusIsFree(WithRuntime(ended, r, rt.(retry := Some(a))), Offline, s.online);
    }
    hide Inv;
  }

  lemma StatusIsFree(s: System, status: Status, online: seq<nat>)
    requires Inv(s)
    ensures Inv(s.(status := status)) && Inv(s.(status := status, online := online))
  {
    forall t | t == s.(status := status) || t == s.(status := status, online := online) ensures Inv(t) {
      forall a | 0 <= a < |s.attempts| ensures AttemptOk(t, a) {
        assert AttemptOk(s, a);
      }
      forall r | 0 <= r < |s.runtimes| ensures RuntimeOk(t, r) {
        assert RuntimeOk(s, r);
      }
    }
  }

  /** Without its row a bot may also lose its place in the map; the scope says nothing about what runs. */
  lemma OutsideKeeps(s: System, current: Option<nat>, scope: bool)
    requires Inv(s) && (current == s.current || current == None)
    ensures Inv(s.(row := false, current := current)) && Inv(s.(scope := scope))
  {
    forall t | t == s.(row := false, current := current) || t == s.(scope := scope) ensures Inv(t) {
      forall a | 0 <= a < |s.attempts| ensures AttemptOk(t, a) {
        assert AttemptOk(s, a);
      }
      forall r | 0 <= r < |s.runtimes| ensures RuntimeOk(t, r) {
        assert RuntimeOk(s, r);
      }
    }
  }

  lemma LoginKeeps(s: System, a: nat, result: Login)
    requires Inv(s) && a < |s.attempts| && s.attempts[a].runtime < |s.runtimes|
    ensures Inv(OnLogin(s, a, result))
  {
    FailedKeeps(s, a);
    AtKeeps(s, a, Ended);
    AtKeeps(s, a, Scanning);
    AtKeeps(s, a, Preparing);
    StatusIsFree(At(s, a, Ended), Offline, s.online);
    if IsCurrent(s, a) {
      var r := s.attempts[a].runtime;
      assert RuntimeOk(At(s, a, Preparing), r) && RuntimeOk(At(s, a, Ended), r);
      WithRuntimeKeeps(At(s, a, Preparing), r, s.runtimes[r].(client := Some(a)));
      WithRuntimeKeeps(At(s, a, Ended), r, s.runtimes[r].(client := None));
      StatusIsFree(WithRuntime(At(s, a, Ended), r, s.runtimes[r].(client := None)), Offline, s.online);
    }
    hide Inv, Failed, At, WithRuntime;
  }

  lemma PreparationKeeps(s: System, a: nat)
    requires Inv(s) && a < |s.attempts| && s.attempts[a].runtime < |s.runtimes|
    ensures Inv(At(s, a, Ended)) && Inv(At(s, a, Ended).(status := Online, online := s.online + [a]))
  {
    AtKeeps(s, a, Ended);
    StatusIsFree(At(s, a, Ended), Online, s.online + [a]);
    hide Inv;
  }

  lemma CleanupKeeps(s: System, a: nat)
    requires Inv(s) && a < |s.attempts| && s.attempts[a].runtime < |s.runtimes|
    ensures Inv(OnCleanup(s, a))
  {
    var r := s.attempts[a].runtime;
    var rt := s.runtimes[r];
    var done := rt.(gate := rt.gate.Finished(s.attempts[a].generation),
                    loginRun := if rt.loginRun == Some(a) then None else rt.loginRun);
    assert RuntimeOk(s, r) && AttemptOk(s, a);
    WithRuntimeKeeps(s, r, done);
    AtKeeps(WithRuntime(s, r, done), a, Settled);
    assert OnCleanup(s, a) == At(WithRuntime(s, r, done), a, Settled);
    hide Inv;
  }

  /** Clearing a client or a retry is always harmless. */
  lemma ClearingKeeps(s: System, r: nat)
    requires Inv(s) && r < |s.runtimes|
    ensures Inv(WithRuntime(s, r, s.runtimes[r].(client := None))) && Inv(WithRuntime(s, r, s.runtimes[r].(retry := None)))
  {
    assert RuntimeOk(s, r);
    WithRuntimeKeeps(s, r, s.runtimes[r].(client := None));
    WithRuntimeKeeps(s, r, s.runtimes[r].(retry := None));
  }

  lemma RecoveryKeeps(s: System, r: nat, client: nat, overQuota: bool)
    requires Inv(s) && r < |s.runtimes|
    ensures Inv(OnRetry(s, r)) && Inv(OnListenerLost(s, r, client, overQuota)) && Inv(OnWatchdog(s, r, client, overQuota))
  {
    ClearingKeeps(s, r);
    BeginKeeps(WithRuntime(s, r, s.runtimes[r].(retry := None)), false, true);
    BeginKeeps(WithRuntime(s, r, s.runtimes[r].(client := None)), overQuota, true);
    StatusIsFree(BeginLogin(WithRuntime(s, r, s.runtimes[r].(client := None)), overQuota, true), Offline, s.online);
    hide Inv, BeginLogin, WithRuntime, IsCurrent;
  }

  lemma StopKeeps(s: System)
    requires Inv(s)
    ensures Inv(OnStop(s)) && Inv(OnDelete(s))
  {
    var stopped := OnStop(s);
    forall r | 0 <= r < |s.runtimes| ensures RuntimeOk(stopped, r) {
      assert RuntimeOk(s, r);
    }
    forall a | 0 <= a < |s.attempts| ensures AttemptOk(stopped, a) {
      assert AttemptOk(s, a);
    }
    OutsideKeeps(stopped, None, s.scope);
  }

  lemma StepKeepsInv(s: System, e: Event)
    requires Inv(s)
    ensures Inv(Step(s, e))
  {
    hide Inv, OnStart, OnResume, OnLogin, Failed, OnCleanup, OnRetry, OnListenerLost, OnWatchdog, OnStop, OnDelete, At, IsCurrent;
    match e
    case Start(overQuota) => StartKeeps(s, overQuota);
    case Resume(overQuota) => StartKeeps(s, overQuota);
    case LoginReturned(a, result) =>
      if Suspended(s, a, Resuming) || Suspended(s, a, Scanning) { LoginKeeps(s, a, result); }
    case StepPrepared(a) => if Suspended(s, a, Preparing) { PreparationKeeps(s, a); }
    case PreparationThrew(a) => if Suspended(s, a, Preparing) { FailedKeeps(s, a); }
    case Prepared(a) => if Suspended(s, a, Preparing) { PreparationKeeps(s, a); }
    case Cleanup(a) => if Suspended(s, a, Ended) { CleanupKeeps(s, a); }
    case RetryTimer(r) => if r < |s.runtimes| { RecoveryKeeps(s, r, 0, false); }
    case ListenerLost(r, client, overQuota) => if r < |s.runtimes| { RecoveryKeeps(s, r, client, overQuota); }
    case WatchdogGaveUp(r, client, overQuota) => if r < |s.runtimes| { RecoveryKeeps(s, r, client, overQuota); }
    case Stop => StopKeeps(s);
    case DeleteSession => StopKeeps(s);
    case RowVanished => OutsideKeeps(s, s.current, s.scope);
    case ScopeMoved(inScope) => OutsideKeeps(s, s.current, inScope);
  }

  ghost predicate OneLive(s: System) {
    forall a: nat, b: nat :: IsCurrent(s, a) && IsCurrent(s, b) && s.attempts[a].runtime == s.attempts[b].runtime ==> a == b
  }

  lemma GenerationsSeparate(s: System, a: nat, b: nat)
    requires Inv(s) && IsCurrent(s, a) && IsCurrent(s, b) && s.attempts[a].runtime == s.attempts[b].runtime
    ensures a <= b
  {
    hide RuntimeOk, AttemptOk;
  }

  lemma OneLiveNow(s: System)
    requires Inv(s)
    ensures OneLive(s)
  {
    forall a: nat, b: nat | IsCurrent(s, a) && IsCurrent(s, b) && s.attempts[a].runtime == s.attempts[b].runtime ensures a == b {
      GenerationsSeparate(s, a, b);
      GenerationsSeparate(s, b, a);
    }
    hide Inv;
  }

  /** Over every run, at every moment, at most one attempt of a runtime is live. */
  lemma {:induction false} AtMostOneLive(s: System, events: seq<Event>)
    requires Inv(s)
    ensures Inv(Run(s, events)) && OneLive(Run(s, events))
    decreases |events|
  {
    hide Inv, Step, IsCurrent;
    if events == [] {
      OneLiveNow(s);
    } else {
      StepKeepsInv(s, events[0]);
      AtMostOneLive(Step(s, events[0]), events[1..]);
    }
  }

  /**
   * The automatic retry never logs anybody in: by the time its timer fires the attempt that armed it has
   * cleaned up, so its generation is spent and the guard refuses.
   */
  lemma RetryNeverLogsIn(s: System, r: nat)
    requires Inv(s) && r < |s.runtimes|
    ensures Step(s, RetryTimer(r)).attempts == s.attempts && Step(s, RetryTimer(r)).status == s.status
    ensures forall q :: 0 <= q < |s.runtimes| ==>
              Step(s, RetryTimer(r)).runtimes[q].(retry := None) == s.runtimes[q].(retry := None)
  {
    var retry := s.runtimes[r].retry;
    if retry.Some? && retry.value < |s.attempts| {
      assert AttemptOk(s, retry.value);
    }
  }

  // ----- stopping -----

  /** The first `n` attempts belong to stopped runtimes. */
  ghost predicate Buried(s: System, n: nat) {
    n <= |s.attempts|
    && forall a :: 0 <= a < n ==> s.attempts[a].runtime < |s.runtimes| && s.runtimes[s.attempts[a].runtime].stopRequested
  }

  /** Attempts keep their runtime, and a stopped runtime stays stopped. */
  ghost predicate StaysStopped(s: System, after: System) {
    && |s.attempts| <= |after.attempts| && |s.runtimes| <= |after.runtimes|
    && (forall a :: 0 <= a < |s.attempts| ==> after.attempts[a].runtime == s.attempts[a].runtime)
    && (forall r :: 0 <= r < |s.runtimes| && s.runtimes[r].stopRequested ==> after.runtimes[r].stopRequested)
    && after.online == s.online
  }

  lemma BeginStaysStopped(s: System, overQuota: bool, qrFallback: bool)
    ensures StaysStopped(s, BeginLogin(s, overQuota, qrFallback))
  {
  }

  lemma StartStaysStopped(s: System, overQuota: bool)
    requires Inv(s)
    ensures StaysStopped(s, OnStart(s, overQuota)) && StaysStopped(s, OnResume(s, overQuota))
  {
    var next := EnsureRuntime(s);
    var r := next.current.value;
    EnsureKeeps(s);
    assert RuntimeOk(next, r);
    var started := WithRuntime(next, r, next.runtimes[r].(stopRequested := false, retry := None));
    var resumed := WithRuntime(next, r, next.runtimes[r].(stopRequested := false));
    assert StaysStopped(s, started) && StaysStopped(s, resumed) && StaysStopped(s, next);
    BeginStaysStopped(started, overQuota, true);
    BeginStaysStopped(resumed, overQuota, false);
    hide Inv, BeginLogin, EnsureRuntime;
  }

  lemma RetryStaysStopped(s: System, r: nat)
    requires r < |s.runtimes|
    ensures StaysStopped(s, OnRetry(s, r))
  {
    var cleared := WithRuntime(s, r, s.runtimes[r].(retry := None));
    assert StaysStopped(s, s) && StaysStopped(s, cleared);
    BeginStaysStopped(cleared, false, true);
    hide BeginLogin, IsCurrent, WithRuntime;
  }

  lemma LossStaysStopped(s: System, r: nat, client: nat, overQuota: bool)
    requires r < |s.runtimes|
    ensures StaysStopped(s, OnListenerLost(s, r, client, overQuota)) && StaysStopped(s, OnWatchdog(s, r, client, overQuota))
  {
    var cleared := WithRuntime(s, r, s.runtimes[r].(client := None));
    assert StaysStopped(s, s) && StaysStopped(s, cleared);
    BeginStaysStopped(cleared, overQuota, true);
    hide BeginLogin, WithRuntime;
  }

  lemma FailureStaysStopped(s: System, a: nat)
    requires a < |s.attempts| && s.attempts[a].runtime < |s.runtimes|
    ensures StaysStopped(s, Failed(s, a))
  {
    hide IsCurrent;
  }

  lemma CleanupStaysStopped(s: System, a: nat)
    requires a < |s.attempts| && s.attempts[a].runtime < |s.runtimes|
    ensures StaysStopped(s, OnCleanup(s, a))
  {
    hide IsCurrent;
  }

  lemma LoginStaysStopped(s: System, a: nat, result: Login)
    requires a < |s.attempts| && s.attempts[a].runtime < |s.runtimes|
    ensures StaysStopped(s, OnLogin(s, a, result))
  {
    FailureStaysStopped(s, a);
    hide IsCurrent, Failed;
  }

  /** Nothing but a live attempt ever publishes, and nothing revives a stopped runtime. */
  lemma StepStaysStopped(s: System, e: Event)
    requires Inv(s)
    ensures StaysStopped(s, Step(s, e).(online := s.online))
    ensures Step(s, e).online == s.online
            || (e.Prepared? && IsCurrent(s, e.a) && Step(s, e).online == s.online + [e.a])
  {
    hide Inv, OnStart, OnResume, OnRetry, OnListenerLost, OnWatchdog, OnLogin, Failed, OnCleanup, IsCurrent;
    match e
    case Start(overQuota) => StartStaysStopped(s, overQuota);
    case Resume(overQuota) => StartStaysStopped(s, overQuota);
    case LoginReturned(a, result) =>
      if Suspended(s, a, Resuming) || Suspended(s, a, Scanning) { LoginStaysStopped(s, a, result); }
    case PreparationThrew(a) => if Suspended(s, a, Preparing) { FailureStaysStopped(s, a); }
    case Cleanup(a) => if Suspended(s, a, Ended) { CleanupStaysStopped(s, a); }
    case RetryTimer(r) => if r < |s.runtimes| { RetryStaysStopped(s, r); }
    case ListenerLost(r, client, overQuota) => if r < |s.runtimes| { LossStaysStopped(s, r, client, overQuota); }
    case WatchdogGaveUp(r, client, overQuota) => if r < |s.runtimes| { LossStaysStopped(s, r, client, overQuota); }
    case _ =>
  }

  lemma BuriedIsDead(s: System, n: nat, a: nat)
    requires Buried(s, n) && a < n
    ensures !IsCurrent(s, a)
  {
  }

  lemma BuriedStays(s: System, n: nat, e: Event)
    requires Inv(s) && Buried(s, n)
    ensures Buried(Step(s, e), n) && Inv(Step(s, e))
    ensures Step(s, e).online == s.online || exists a :: a >= n && Step(s, e).online == s.online + [a]
  {
    StepKeepsInv(s, e);
    StepStaysStopped(s, e);
    if e.Prepared? && e.a < n {
      BuriedIsDead(s, n, e.a);
    }
    hide Inv, Step, IsCurrent;
    assert forall a :: 0 <= a < n ==> Step(s, e).attempts[a].runtime == s.attempts[a].runtime;
  }

  /** What is published from place `from` on comes from attempts begun at or after `n`. */
  ghost predicate OnlyLater(online: seq<nat>, from: nat, n: nat) {
    from <= |online| && forall k :: from <= k < |online| ==> online[k] >= n
  }

  lemma {:induction false} BuriedForever(s: System, n: nat, from: nat, events: seq<Event>)
    requires Inv(s) && Buried(s, n) && OnlyLater(s.online, from, n)
    ensures Inv(Run(s, events)) && Buried(Run(s, events), n) && OnlyLater(Run(s, events).online, from, n)
    decreases |events|
  {
    hide Inv, Step, Buried;
    if events != [] {
      BuriedStays(s, n, events[0]);
      BuriedForever(Step(s, events[0]), n, from, events[1..]);
    }
  }

  lemma StopBuries(s: System)
    requires Inv(s) && StopTakesEffect(s)
    ensures Buried(OnStop(s), |s.attempts|)
    ensures OnStop(s).current.None? && OnStop(s).status == Offline && OnStop(s).online == s.online
  {
    forall a | 0 <= a < |s.attempts|
      ensures s.attempts[a].runtime < |s.runtimes| && OnStop(s).runtimes[s.attempts[a].runtime].stopRequested
    {
      assert AttemptOk(s, a) && RuntimeOk(s, s.attempts[a].runtime);
    }
  }

  /** The client the rest of the process can reach, if any. */
  function Reachable(s: System): Option<nat> {
    if s.current.Some? && s.current.value < |s.runtimes| then s.runtimes[s.current.value].client else None
  }

  lemma BuriedUnreachable(s: System, n: nat)
    requires Inv(s) && Buried(s, n) && Reachable(s).Some?
    ensures Reachable(s).value >= n
  {
    assert RuntimeOk(s, s.current.value);
  }

  /**
   * Once an effective `stopBot` has returned, whatever happens next: no attempt begun before it is ever
   * live again, none of them publishes `online`, and none of their clients can be reached.
   */
  lemma {:induction false} StopIsFinal(s: System, events: seq<Event>)
    requires Inv(s) && StopTakesEffect(s)
    ensures var end := Run(Step(s, Stop), events);
            && (forall a :: 0 <= a < |s.attempts| ==> !IsCurrent(end, a))
            && OnlyLater(end.online, |s.online|, |s.attempts|)
            && (Reachable(end).Some? ==> Reachable(end).value >= |s.attempts|)
  {
    StepKeepsInv(s, Stop);
    StopBuries(s);
    var stopped := Step(s, Stop);
    assert stopped == OnStop(s);
    hide Inv, Step, OnStop, Buried, IsCurrent, Reachable;
    BuriedForever(stopped, |s.attempts|, |s.online|, events);
    var end := Run(stopped, events);
    forall a | 0 <= a < |s.attempts| ensures !IsCurrent(end, a) {
      BuriedIsDead(end, |s.attempts|, a);
    }
    if Reachable(end).Some? {
      BuriedUnreachable(end, |s.attempts|);
    }
  }

  // ----- who can still publish -----

  /** The attempt is suspended at one of its awaits. */
  predicate Awaiting(s: System, a: nat) {
    Suspended(s, a, Resuming) || Suspended(s, a, Scanning) || Suspended(s, a, Preparing)
  }

  /** Live and suspended: the only attempts that can still go online. */
  predicate Hopeful(s: System, a: nat) {
    IsCurrent(s, a) && Awaiting(s, a)
  }

  /** Attempts keep their identity, and none becomes live or suspended again. */
  ghost predicate NoRevival(s: System, after: System) {
    && |s.attempts| <= |after.attempts| && |s.runtimes| <= |after.runtimes|
    && (forall a: nat :: a < |s.attempts| && IsCurrent(after, a) ==> IsCurrent(s, a))
    && (forall a: nat :: a < |s.attempts| && Awaiting(after, a) ==> Awaiting(s, a))
  }

  lemma NoRevivalChains(s: System, t: System, u: System)
    requires NoRevival(s, t) && NoRevival(t, u)
    ensures NoRevival(s, u)
  {
    hide IsCurrent, Awaiting;
  }

  /** A runtime whose gate revives nothing and that is not un-stopped. */
  lemma RuntimeRevivesNothing(s: System, r: nat, rt: Runtime)
    requires Inv(s) && r < |s.runtimes| && (s.runtimes[r].stopRequested ==> rt.stopRequested)
    requires forall g: nat :: g <= s.runtimes[r].gate.generation && rt.gate.IsCurrent(g) ==> s.runtimes[r].gate.IsCurrent(g)
    ensures NoRevival(s, WithRuntime(s, r, rt))
  {
    forall a: nat | a < |s.attempts| && IsCurrent(WithRuntime(s, r, rt), a) ensures IsCurrent(s, a) {
      assert AttemptOk(s, a);
    }
  }

  lemma MovingOnRevivesNothing(s: System, a: nat, pc: Pc)
    requires a < |s.attempts| && (Awaiting(s, a) || pc == Ended || pc == Settled)
    ensures NoRevival(s, At(s, a, pc))
  {
  }

  lemma EnsureRevivesNothing(s: System)
    requires Inv(s)
    ensures NoRevival(s, EnsureRuntime(s))
  {
    var next := EnsureRuntime(s);
    forall a: nat | a < |s.attempts| && (IsCurrent(next, a) || Awaiting(next, a))
      ensures IsCurrent(next, a) == IsCurrent(s, a) && Awaiting(next, a) == Awaiting(s, a)
    {
      assert AttemptOk(s, a);
    }
  }

  lemma BeginRevivesNothing(s0: System, overQuota: bool, qrFallback: bool)
    requires Inv(s0)
    ensures NoRevival(s0, BeginLogin(s0, overQuota, qrFallback))
  {
    EnsureKeeps(s0);
    EnsureRevivesNothing(s0);
    var s := EnsureRuntime(s0);
    var next := BeginLogin(s0, overQuota, qrFallback);
    if !overQuota {
      forall a: nat | a < |s.attempts| && (IsCurrent(next, a) || Awaiting(next, a))
        ensures (IsCurrent(next, a) ==> IsCurrent(s, a)) && (Awaiting(next, a) ==> Awaiting(s, a))
      {
        assert AttemptOk(s, a);
      }
      hide Inv, EnsureRuntime, IsCurrent, Awaiting;
      assert NoRevival(s, next);
      NoRevivalChains(s0, s, next);
    }
  }

  lemma StartRevivesNothing(s0: System, overQuota: bool)
    requires Inv(s0)
    ensures NoRevival(s0, OnStart(s0, overQuota)) && NoRevival(s0, OnResume(s0, overQuota))
  {
    if s0.row {
      EnsureKeeps(s0);
      EnsureRevivesNothing(s0);
      var s := EnsureRuntime(s0);
      var r := s.current.value;
      assert RuntimeOk(s, r);
      var started := s.runtimes[r].(stopRequested := false, retry := None);
      var resumed := s.runtimes[r].(stopRequested := false);
      RuntimeRevivesNothing(s, r, started);
      RuntimeRevivesNothing(s, r, resumed);
      WithRuntimeKeeps(s, r, started);
      WithRuntimeKeeps(s, r, resumed);
      hide Inv, NoRevival, EnsureRuntime, WithRuntime, BeginLogin;
      BeginRevivesNothing(WithRuntime(s, r, started), overQuota, true);
      BeginRevivesNothing(WithRuntime(s, r, resumed), overQuota, false);
      NoRevivalChains(s0, s, WithRuntime(s, r, started));
      NoRevivalChains(s0, s, WithRuntime(s, r, resumed));
      NoRevivalChains(s0, WithRuntime(s, r, started), BeginLogin(WithRuntime(s, r, started), overQuota, true));
      NoRevivalChains(s0, WithRuntime(s, r, resumed), BeginLogin(WithRuntime(s, r, resumed), overQuota, false));
    }
    NothingChanged(s0);
    hide NoRevival, Inv, BeginLogin, EnsureRuntime;
  }

  lemma NothingChanged(s: System)
    ensures NoRevival(s, s)
  {
  }

  lemma RecoveryRevivesNothing(s: System, r: nat, client: nat, overQuota: bool)
    requires Inv(s) && r < |s.runtimes|
    ensures NoRevival(s, OnRetry(s, r)) && NoRevival(s, OnListenerLost(s, r, client, overQuota))
    ensures NoRevival(s, OnWatchdog(s, r, client, overQuota))
  {
    ClearingKeeps(s, r);
    NothingChanged(s);
    var retried := WithRuntime(s, r, s.runtimes[r].(retry := None));
    var dropped := WithRuntime(s, r, s.runtimes[r].(client := None));
    RuntimeRevivesNothing(s, r, s.runtimes[r].(retry := None));
    RuntimeRevivesNothing(s, r, s.runtimes[r].(client := None));
    BeginRevivesNothing(retried, false, true);
    BeginRevivesNothing(dropped, overQuota, true);
    NoRevivalChains(s, retried, BeginLogin(retried, false, true));
    NoRevivalChains(s, dropped, BeginLogin(dropped, overQuota, true));
    StatusRevivesNothing(s, BeginLogin(dropped, overQuota, true), Offline);
    hide Inv, NoRevival, BeginLogin, WithRuntime, IsCurrent;
  }

  lemma StatusRevivesNothing(s: System, after: System, status: Status)
    ensures NoRevival(s, after) <==> NoRevival(s, after.(status := status))
  {
    assert forall a: nat :: IsCurrent(after, a) == IsCurrent(after.(status := status), a);
    assert forall a: nat :: Awaiting(after, a) == Awaiting(after.(status := status), a);
  }

  lemma AttemptRevivesNothing(s: System, a: nat, result: Login)
    requires Inv(s) && Awaiting(s, a)
    ensures NoRevival(s, OnLogin(s, a, result)) && NoRevival(s, Failed(s, a))
  {
    var r := s.attempts[a].runtime;
    var rt := s.runtimes[r];
    AtKeeps(s, a, Ended);
    AtKeeps(s, a, Preparing);
    MovingOnRevivesNothing(s, a, Ended);
    MovingOnRevivesNothing(s, a, Scanning);
    MovingOnRevivesNothing(s, a, Preparing);
    var ended, preparing := At(s, a, Ended), At(s, a, Preparing);
    RuntimeRevivesNothing(ended, r, rt.(client := None));
    RuntimeRevivesNothing(ended, r, rt.(client := None, retry := Some(a)));
    RuntimeRevivesNothing(preparing, r, rt.(client := Some(a)));
    NoRevivalChains(s, ended, WithRuntime(ended, r, rt.(client := None)));
    NoRevivalChains(s, ended, WithRuntime(ended, r, rt.(client := None, retry := Some(a))));
    NoRevivalChains(s, preparing, WithRuntime(preparing, r, rt.(client := Some(a))));
    StatusRevivesNothing(s, ended, Offline);
    StatusRevivesNothing(s, WithRuntime(ended, r, rt.(client := None)), Offline);
    StatusRevivesNothing(s, WithRuntime(ended, r, rt.(client := None, retry := Some(a))), Offline);
    hide Inv, NoRevival, IsCurrent, Awaiting, WithRuntime, At;
  }

  lemma CleanupRevivesNothing(s: System, a: nat)
    requires Inv(s) && Suspended(s, a, Ended)
    ensures NoRevival(s, OnCleanup(s, a))
  {
    var r := s.attempts[a].runtime;
    var rt := s.runtimes[r];
    var done := rt.(gate := rt.gate.Finished(s.attempts[a].generation),
                    loginRun := if rt.loginRun == Some(a) then None else rt.loginRun);
    MovingOnRevivesNothing(s, a, Settled);
    RuntimeRevivesNothing(s, r, done);
    MovingOnRevivesNothing(WithRuntime(s, r, done), a, Settled);
    NoRevivalChains(s, WithRuntime(s, r, done), At(WithRuntime(s, r, done), a, Settled));
    assert OnCleanup(s, a) == At(WithRuntime(s, r, done), a, Settled);
    hide NoRevival, Inv;
  }

  lemma StopRevivesNothing(s: System)
    requires Inv(s)
    ensures NoRevival(s, OnStop(s)) && NoRevival(s, OnDelete(s))
  {
    if s.current.Some? {
      var r := s.current.value;
      RuntimeRevivesNothing(s, r, Runtime(true, s.runtimes[r].gate.Invalidated(), None, None, None));
    }
  }

  lemma StepRevivesNothing(s: System, e: Event)
    requires Inv(s)
    ensures NoRevival(s, Step(s, e))
    ensures Step(s, e).online == s.online || (e.Prepared? && Hopeful(s, e.a) && Step(s, e).online == s.online + [e.a])
  {
    StepStaysStopped(s, e);
    NothingChanged(s);
    hide Inv, OnStart, OnResume, OnRetry, OnListenerLost, OnWatchdog, OnLogin, Failed, OnCleanup, OnStop, OnDelete, IsCurrent, At;
    match e
    case Start(overQuota) => StartRevivesNothing(s, overQuota);
    case Resume(overQuota) => StartRevivesNothing(s, overQuota);
    case LoginReturned(a, result) =>
      if Suspended(s, a, Resuming) || Suspended(s, a, Scanning) { AttemptRevivesNothing(s, a, result); }
    case StepPrepared(a) => if Suspended(s, a, Preparing) { MovingOnRevivesNothing(s, a, Ended); }
    case PreparationThrew(a) => if Suspended(s, a, Preparing) { AttemptRevivesNothing(s, a, Threw); }
    case Prepared(a) => if Suspended(s, a, Preparing) { PublishRevivesNothing(s, a); }
    case Cleanup(a) => if Suspended(s, a, Ended) { CleanupRevivesNothing(s, a); }
    case RetryTimer(r) => if r < |s.runtimes| { RecoveryRevivesNothing(s, r, 0, false); }
    case ListenerLost(r, client, overQuota) => if r < |s.runtimes| { RecoveryRevivesNothing(s, r, client, overQuota); }
    case WatchdogGaveUp(r, client, overQuota) => if r < |s.runtimes| { RecoveryRevivesNothing(s, r, client, overQuota); }
    case Stop => StopRevivesNothing(s);
    case DeleteSession => StopRevivesNothing(s);
    case RowVanished => OutsideRevivesNothing(s, s.scope);
    case ScopeMoved(inScope) => OutsideRevivesNothing(s, inScope);
  }

  lemma PublishRevivesNothing(s: System, a: nat)
    requires Suspended(s, a, Preparing)
    ensures NoRevival(s, At(s, a, Ended)) && NoRevival(s, At(s, a, Ended).(status := Online, online := s.online + [a]))
  {
    MovingOnRevivesNothing(s, a, Ended);
  }

  lemma OutsideRevivesNothing(s: System, scope: bool)
    ensures NoRevival(s, s.(row := false)) && NoRevival(s, s.(scope := scope))
  {
  }

  lemma HopelessStays(s: System, a: nat, e: Event)
    requires Inv(s) && a < |s.attempts| && !Hopeful(s, a)
    ensures Inv(Step(s, e)) && a < |Step(s, e).attempts| && !Hopeful(Step(s, e), a)
    ensures Step(s, e).online == s.online || exists b :: b != a && Step(s, e).online == s.online + [b]
  {
    StepKeepsInv(s, e);
    StepRevivesNothing(s, e);
    hide Inv, Step, IsCurrent, Awaiting;
  }

  /** Attempt `a` publishes nothing from place `from` of the log on. */
  ghost predicate Silent(s: System, from: nat, a: nat) {
    forall k :: from <= k < |s.online| ==> s.online[k] != a
  }

  ghost predicate SilentForever(s: System, from: nat, a: nat) {
    forall events :: Silent(Run(s, events), from, a)
  }

  lemma {:induction false} HopelessIsSilent(s: System, from: nat, a: nat, events: seq<Event>)
    requires Inv(s) && a < |s.attempts| && !Hopeful(s, a) && Silent(s, from, a)
    ensures Silent(Run(s, events), from, a)
    decreases |events|
  {
    hide Inv, Step, Hopeful;
    if events != [] {
      HopelessStays(s, a, events[0]);
      HopelessIsSilent(Step(s, events[0]), from, a, events[1..]);
    }
  }

  /** A hopeful attempt can still go online, whichever await it is suspended at. */
  lemma HopefulCanPublish(s: System, a: nat) returns (events: seq<Event>)
    requires Inv(s) && Hopeful(s, a)
    ensures Run(s, events).online == s.online + [a]
  {
    if Suspended(s, a, Preparing) {
      events := [Prepared(a)];
      assert Run(Step(s, Prepared(a)), events[1..]) == Step(s, Prepared(a));
    } else {
      events := [LoginReturned(a, LoggedIn(false)), Prepared(a)];
      var next := Step(s, LoginReturned(a, LoggedIn(false)));
      assert Suspended(next, a, Preparing) && IsCurrent(next, a) && next.online == s.online;
      assert Run(Step(next, Prepared(a)), []) == Step(next, Prepared(a));
      assert Run(next, [Prepared(a)]) == Step(next, Prepared(a));
      assert events[1..] == [Prepared(a)];
    }
  }

  /**
   * After `stopBot` an attempt stays silent for good exactly when the stop took effect or the attempt was no
   * longer live and suspended: with the row gone, or the bot out of this worker's scope, an attempt at any of
   * its awaits can still publish `online`.
   */
  lemma StopSilencesExactly(s: System, a: nat)
    requires Inv(s) && a < |s.attempts|
    ensures SilentForever(Step(s, Stop), |s.online|, a) <==> StopTakesEffect(s) || !Hopeful(s, a)
  {
    var stopped := Step(s, Stop);
    StepKeepsInv(s, Stop);
    if StopTakesEffect(s) {
      StopBuries(s);
      BuriedIsDead(stopped, |s.attempts|, a);
    }
    if StopTakesEffect(s) || !Hopeful(s, a) {
      assert stopped.online == s.online && !Hopeful(stopped, a) && a < |stopped.attempts|;
      hide Inv, Step, Hopeful;
      forall events ensures Silent(Run(stopped, events), |s.online|, a) {
        HopelessIsSilent(stopped, |s.online|, a, events);
      }
    } else {
      assert stopped == s;
      var events := HopefulCanPublish(s, a);
      assert Run(stopped, events).online[|s.online|] == a;
      assert !Silent(Run(stopped, events), |s.online|, a);
    }
  }

  // ----- how a login ends -----

  /** Live and waiting for a login step. */
  predicate LoggingIn(s: System, a: nat) {
    IsCurrent(s, a) && (Suspended(s, a, Resuming) || Suspended(s, a, Scanning))
  }

  /** The step leaves the session where it was, but for this attempt's own place. */
  ghost predicate OnlyMovesOn(s: System, t: System, a: nat) {
    && t.(attempts := s.attempts) == s && |t.attempts| == |s.attempts|
    && forall b :: 0 <= b < |s.attempts| && b != a ==> t.attempts[b] == s.attempts[b]
  }

  /** The attempt goes back with nothing: its runtime holds no client, the bot is offline, nothing is published. */
  ghost predicate EndsOffline(s: System, t: System, a: nat) {
    && a < |s.attempts| && s.attempts[a].runtime < |t.runtimes| && |t.runtimes| == |s.runtimes|
    && t.status == Offline && t.online == s.online && t.current == s.current
    && t.runtimes[s.attempts[a].runtime].client == None
    && forall r :: 0 <= r < |s.runtimes| && r != s.attempts[a].runtime ==> t.runtimes[r] == s.runtimes[r]
  }

  /** Its own client stands in its runtime, and it can still publish. */
  ghost predicate Proceeds(s: System, t: System, a: nat) {
    && a < |s.attempts| && s.attempts[a].runtime < |t.runtimes| && |t.runtimes| == |s.runtimes|
    && t.status == s.status && t.online == s.online && t.current == s.current
    && t.runtimes[s.attempts[a].runtime].client == Some(a)
    && (forall r :: 0 <= r < |s.runtimes| && r != s.attempts[a].runtime ==> t.runtimes[r] == s.runtimes[r])
    && (exists events :: Run(t, events).online == s.online + [a])
  }

  lemma LiveRuntimeIsCurrent(s: System, a: nat)
    requires Inv(s) && s.row && IsCurrent(s, a)
    ensures s.current == Some(s.attempts[a].runtime)
  {
    assert RuntimeOk(s, s.attempts[a].runtime);
  }

  /**
   * What becomes of an attempt whose login step comes back.  An account the identity lock rejects, and a step
   * that threw, end offline with no client left and the attempt silent for good; an account it accepts makes
   * this attempt's client, and no other, the one its runtime holds, and the way to publishing is open.
   */
  lemma LoginEndsExactly(s: System, a: nat)
    requires Inv(s) && LoggingIn(s, a)
    ensures EndsOffline(s, Step(s, LoginReturned(a, LoggedIn(true))), a)
         && SilentForever(Step(s, LoginReturned(a, LoggedIn(true))), |s.online|, a)
    ensures EndsOffline(s, Step(s, LoginReturned(a, Threw)), a)
         && SilentForever(Step(s, LoginReturned(a, Threw)), |s.online|, a)
    ensures Proceeds(s, Step(s, LoginReturned(a, LoggedIn(false))), a)
  {
    StepKeepsInv(s, LoginReturned(a, LoggedIn(true)));
    StepKeepsInv(s, LoginReturned(a, Threw));
    StepKeepsInv(s, LoginReturned(a, LoggedIn(false)));
    var accepted := Step(s, LoginReturned(a, LoggedIn(false)));
    hide Inv, Step, Hopeful, LoggingIn, SilentForever, EndsOffline, Run;
    RejectedEnds(s, a);
    ThrewEnds(s, a);
    AcceptedGoesOn(s, a);
    NothingLeftIsSilent(Step(s, LoginReturned(a, LoggedIn(true))), |s.online|, a);
    NothingLeftIsSilent(Step(s, LoginReturned(a, Threw)), |s.online|, a);
    var events := HopefulCanPublish(accepted, a);
  }

  lemma RejectedEnds(s: System, a: nat)
    requires Inv(s) && LoggingIn(s, a)
    ensures var t := Step(s, LoginReturned(a, LoggedIn(true)));
            EndsOffline(s, t, a) && !Hopeful(t, a) && a < |t.attempts| && t.online == s.online
  {
    hide Inv;
  }

  lemma ThrewEnds(s: System, a: nat)
    requires Inv(s) && LoggingIn(s, a)
    ensures var t := Step(s, LoginReturned(a, Threw));
            EndsOffline(s, t, a) && !Hopeful(t, a) && a < |t.attempts| && t.online == s.online
  {
    hide Inv;
  }

  lemma AcceptedGoesOn(s: System, a: nat)
    requires Inv(s) && LoggingIn(s, a)
    ensures var t := Step(s, LoginReturned(a, LoggedIn(false)));
            && Hopeful(t, a) && t.status == s.status && t.online == s.online && t.current == s.current
            && a < |s.attempts| && s.attempts[a].runtime < |s.runtimes|
            && t.runtimes == s.runtimes[s.attempts[a].runtime := s.runtimes[s.attempts[a].runtime].(client := Some(a))]
  {
    hide Inv;
  }

  lemma NothingLeftIsSilent(t: System, from: nat, a: nat)
    requires Inv(t) && a < |t.attempts| && !Hopeful(t, a) && from == |t.online|
    ensures SilentForever(t, from, a)
  {
    hide Inv, Hopeful;
    forall events ensures Silent(Run(t, events), from, a) {
      HopelessIsSilent(t, from, a, events);
    }
  }

  /** While the row stands, that client is the one the rest of the process reaches; a rejected one leaves none. */
  lemma AcceptedIsReachable(s: System, a: nat)
    requires Inv(s) && LoggingIn(s, a) && s.row
    ensures Reachable(Step(s, LoginReturned(a, LoggedIn(false)))) == Some(a)
    ensures Reachable(Step(s, LoginReturned(a, LoggedIn(true)))) == None
    ensures Reachable(Step(s, LoginReturned(a, Threw))) == None
  {
    LiveRuntimeIsCurrent(s, a);
    LoginEndsExactly(s, a);
    hide Step, Inv;
  }

  /**
   * Without a usable token an attempt asks for a scan exactly when it was still resuming and may fall back to
   * one; any other is reported offline and is silent for good.
   */
  lemma NoTokenEndsExactly(s: System, a: nat)
    requires Inv(s) && LoggingIn(s, a)
    ensures var t := Step(s, LoginReturned(a, NoToken));
            var scans := s.attempts[a].pc == Resuming && s.attempts[a].qrFallback;
            && t.runtimes == s.runtimes && t.current == s.current && t.online == s.online
            && (scans ==> OnlyMovesOn(s, t, a) && LoggingIn(t, a) && t.attempts[a].pc == Scanning)
            && (!scans ==> t.status == Offline)
            && (SilentForever(t, |s.online|, a) <==> !scans)
  {
    var t := Step(s, LoginReturned(a, NoToken));
    StepKeepsInv(s, LoginReturned(a, NoToken));
    var scans := s.attempts[a].pc == Resuming && s.attempts[a].qrFallback;
    assert if scans then LoggingIn(t, a) && OnlyMovesOn(s, t, a) else !Hopeful(t, a) && t.status == Offline;
    assert LoggingIn(t, a) ==> Hopeful(t, a);
    assert t.online == s.online && a < |t.attempts| && t.runtimes == s.runtimes && t.current == s.current;
    assert scans ==> t.attempts[a].pc == Scanning;
    hide Inv, Step, Hopeful, LoggingIn;
    if scans {
      var events := HopefulCanPublish(t, a);
      assert Run(t, events).online[|s.online|] == a;
      assert !Silent(Run(t, events), |s.online|, a);
    } else {
      NothingLeftIsSilent(t, |s.online|, a);
    }
  }

  /** An attempt that is no longer live just ends: whatever its step brings, nothing else changes. */
  lemma OutdatedLoginChangesNothing(s: System, a: nat, result: Login)
    requires Inv(s) && !IsCurrent(s, a)
    ensures OnlyMovesOn(s, Step(s, LoginReturned(a, result)), a)
    ensures OnlyMovesOn(s, Step(s, Prepared(a)), a) && OnlyMovesOn(s, Step(s, PreparationThrew(a)), a)
    ensures OnlyMovesOn(s, Step(s, StepPrepared(a)), a)
  {
  }

  /** Every attempt that is past its login, or was ever published, was accepted on the way. */
  ghost predicate AllAccepted(s: System, accepted: set<nat>) {
    && (forall a :: 0 <= a < |s.attempts| && s.attempts[a].pc == Preparing ==> a in accepted)
    && (forall k :: 0 <= k < |s.online| ==> s.online[k] in accepted)
  }

  function Accepted(events: seq<Event>): set<nat> {
    set i | 0 <= i < |events| && events[i].LoginReturned? && events[i].result == LoggedIn(false) :: events[i].a
  }

  /** Nothing is published, and no attempt gets past its login. */
  ghost predicate PreparesNone(s: System, t: System) {
    && t.online == s.online
    && forall a :: 0 <= a < |t.attempts| && t.attempts[a].pc == Preparing ==> a < |s.attempts| && s.attempts[a].pc == Preparing
  }

  lemma BeginPreparesNone(s: System, overQuota: bool, qrFallback: bool)
    ensures PreparesNone(s, BeginLogin(s, overQuota, qrFallback))
  {
  }

  lemma StartPreparesNone(s0: System, overQuota: bool)
    ensures PreparesNone(s0, OnStart(s0, overQuota)) && PreparesNone(s0, OnResume(s0, overQuota))
  {
    var s := EnsureRuntime(s0);
    var r := s.current.value;
    BeginPreparesNone(WithRuntime(s, r, s.runtimes[r].(stopRequested := false, retry := None)), overQuota, true);
    BeginPreparesNone(WithRuntime(s, r, s.runtimes[r].(stopRequested := false)), overQuota, false);
    hide BeginLogin, EnsureRuntime;
  }

  lemma RecoveryPreparesNone(s: System, r: nat, client: nat, overQuota: bool)
    requires r < |s.runtimes|
    ensures PreparesNone(s, OnRetry(s, r)) && PreparesNone(s, OnListenerLost(s, r, client, overQuota))
    ensures PreparesNone(s, OnWatchdog(s, r, client, overQuota))
  {
    BeginPreparesNone(WithRuntime(s, r, s.runtimes[r].(retry := None)), false, true);
    BeginPreparesNone(WithRuntime(s, r, s.runtimes[r].(client := None)), overQuota, true);
    hide BeginLogin, IsCurrent;
  }

  lemma LoginPreparesNone(s: System, a: nat, result: Login)
    requires a < |s.attempts| && s.attempts[a].runtime < |s.runtimes| && result != LoggedIn(false)
    ensures PreparesNone(s, OnLogin(s, a, result)) && PreparesNone(s, Failed(s, a)) && PreparesNone(s, OnCleanup(s, a))
  {
    hide IsCurrent;
  }

  lemma StepPreparesNone(s: System, e: Event)
    requires !e.Prepared? && !(e.LoginReturned? && e.result == LoggedIn(false))
    ensures PreparesNone(s, Step(s, e))
  {
    hide OnStart, OnResume, OnLogin, Failed, OnCleanup, OnRetry, OnListenerLost, OnWatchdog, IsCurrent;
    match e
    case Start(overQuota) => StartPreparesNone(s, overQuota);
    case Resume(overQuota) => StartPreparesNone(s, overQuota);
    case LoginReturned(a, result) =>
      if Suspended(s, a, Resuming) || Suspended(s, a, Scanning) { LoginPreparesNone(s, a, result); }
    case PreparationThrew(a) => if Suspended(s, a, Preparing) { LoginPreparesNone(s, a, Threw); }
    case Cleanup(a) => if Suspended(s, a, Ended) { LoginPreparesNone(s, a, Threw); }
    case RetryTimer(r) => if r < |s.runtimes| { RecoveryPreparesNone(s, r, 0, false); }
    case ListenerLost(r, client, overQuota) => if r < |s.runtimes| { RecoveryPreparesNone(s, r, client, overQuota); }
    case WatchdogGaveUp(r, client, overQuota) => if r < |s.runtimes| { RecoveryPreparesNone(s, r, client, overQuota); }
    case _ =>
  }

  lemma StepAccepts(s: System, e: Event, accepted: set<nat>)
    requires AllAccepted(s, accepted)
    ensures AllAccepted(Step(s, e), accepted + Accepted([e]))
  {
    if e.LoginReturned? && e.result == LoggedIn(false) {
      assert [e][0].a in Accepted([e]);
      hide IsCurrent, Accepted;
    } else if e.Prepared? {
      hide IsCurrent, Accepted;
    } else {
      StepPreparesNone(s, e);
      hide Step, Accepted;
    }
  }

  lemma {:induction false} OnlyAcceptedRun(s: System, events: seq<Event>, accepted: set<nat>)
    requires Inv(s) && AllAccepted(s, accepted)
    ensures AllAccepted(Run(s, events), accepted + Accepted(events))
    decreases |events|
  {
    hide Inv, Step;
    if events != [] {
      var e, rest := events[0], events[1..];
      StepKeepsInv(s, e);
      StepAccepts(s, e, accepted);
      OnlyAcceptedRun(Step(s, e), rest, accepted + Accepted([e]));
      AcceptedCons(events);
      assert accepted + Accepted([e]) + Accepted(rest) == accepted + Accepted(events);
    }
  }

  lemma AcceptedCons(events: seq<Event>)
    requires events != []
    ensures Accepted(events) == Accepted([events[0]]) + Accepted(events[1..])
  {
    var e, rest := events[0], events[1..];
    forall a | a in Accepted(events) ensures a in Accepted([e]) + Accepted(rest) {
      var i :| 0 <= i < |events| && events[i].LoginReturned? && events[i].result == LoggedIn(false) && events[i].a == a;
      if i == 0 {
        assert [e][0].a == a;
      } else {
        assert rest[i - 1].a == a;
      }
    }
    forall a | a in Accepted(rest) ensures a in Accepted(events) {
      var i :| 0 <= i < |rest| && rest[i].LoginReturned? && rest[i].result == LoggedIn(false) && rest[i].a == a;
      assert events[i + 1].a == a;
    }
    forall a | a in Accepted([e]) ensures a in Accepted(events) {
      assert events[0].a == a;
    }
  }

  /** Over every run, no attempt goes online that the identity lock did not accept. */
  lemma {:induction false} OnlyAcceptedGoOnline(events: seq<Event>, k: nat)
    requires k < |Run(NEW_BOT, events).online|
    ensures exists i :: 0 <= i < |events| && events[i] == LoginReturned(Run(NEW_BOT, events).online[k], LoggedIn(false))
  {
    OnlyAcceptedRun(NEW_BOT, events, {});
    var a := Run(NEW_BOT, events).online[k];
    hide Run;
    assert a in Accepted(events);
    var i :| 0 <= i < |events| && events[i].LoginReturned? && events[i].result == LoggedIn(false) && events[i].a == a;
  }

  // ----- what each event changes -----

  predicate Holding(s: System, r: nat, client: nat) {
    r < |s.runtimes| && s.runtimes[r].client == Some(client)
  }

  /** The runtime the process would use, if it has one. */
  function Mapped(s: System): Option<Runtime> {
    if s.current.Some? && s.current.value < |s.runtimes| then Some(s.runtimes[s.current.value]) else None
  }

  predicate GateIdle(s: System) {
    Mapped(s).None? || !Mapped(s).value.gate.active
  }

  /** A started bot has neither a client nor a login under way. */
  predicate Startable(s: System) {
    s.row && s.scope && (Mapped(s).None? || (Mapped(s).value.client.None? && Mapped(s).value.loginRun.None?))
  }

  /** The session this listener served is still the bot's, and nobody is replacing it yet. */
  predicate LossCounts(s: System, r: nat, client: nat) {
    Holding(s, r, client) && s.row && !s.runtimes[r].stopRequested && s.runtimes[r].loginRun.None?
  }

  /** The events that begin a login: within quota, nobody else logging in, and each for its own reason. */
  predicate Begins(s: System, e: Event) {
    GateIdle(s)
    && match e
       case Start(overQuota) => !overQuota && Startable(s)
       case Resume(overQuota) => !overQuota && s.row && (Mapped(s).None? || Mapped(s).value.client.None?)
       case ListenerLost(r, client, overQuota) => !overQuota && LossCounts(s, r, client)
       case WatchdogGaveUp(r, client, overQuota) => !overQuota && Holding(s, r, client)
       case _ => false
  }

  /** `a` is new, live, resuming with the stored token, and may ask for a scan unless nobody is there to scan. */
  ghost predicate Begun(s: System, t: System, a: nat, qrFallback: bool) {
    && a == |s.attempts| && |t.attempts| == a + 1 && t.attempts[..a] == s.attempts
    && IsCurrent(t, a) && t.attempts[a].pc == Resuming && t.attempts[a].qrFallback == qrFallback
    && t.status == Connecting
    && t.current == Some(t.attempts[a].runtime) && t.runtimes[t.attempts[a].runtime].loginRun == Some(a)
  }

  lemma BeginLoginExactly(s: System, overQuota: bool, qrFallback: bool)
    requires Inv(s)
    ensures var t := BeginLogin(s, overQuota, qrFallback);
            if !overQuota && GateIdle(s) then Begun(s, t, |s.attempts|, qrFallback)
            else t.attempts == s.attempts && t.status == s.status
  {
    EnsureKeeps(s);
    var ready := EnsureRuntime(s);
    assert RuntimeOk(ready, ready.current.value);
    assert s.current.Some? ==> RuntimeOk(s, s.current.value);
  }

  lemma StartBeginsExactly(s: System, e: Event)
    requires Inv(s) && (e.Start? || e.Resume?)
    ensures var t := Step(s, e);
            if Begins(s, e) then Begun(s, t, |s.attempts|, !e.Resume?) else t.attempts == s.attempts && t.status == s.status
  {
    EnsureKeeps(s);
    var ready := EnsureRuntime(s);
    var r := ready.current.value;
    assert RuntimeOk(ready, r);
    var started := WithRuntime(ready, r, ready.runtimes[r].(stopRequested := false, retry := None));
    var resumed := WithRuntime(ready, r, ready.runtimes[r].(stopRequested := false));
    WithRuntimeKeeps(ready, r, started.runtimes[r]);
    WithRuntimeKeeps(ready, r, resumed.runtimes[r]);
    BeginLoginExactly(started, e.overQuota, true);
    BeginLoginExactly(resumed, e.overQuota, false);
    hide Inv, BeginLogin;
  }

  lemma LossBeginsExactly(s: System, e: Event)
    requires Inv(s) && (e.ListenerLost? || e.WatchdogGaveUp?) && e.r < |s.runtimes|
    ensures var t := Step(s, e);
            if Begins(s, e) then Begun(s, t, |s.attempts|, true)
            else t.attempts == s.attempts && (t.status == s.status || (t.status == Offline && e.WatchdogGaveUp? && Holding(s, e.r, e.client)))
    ensures e.WatchdogGaveUp? && Holding(s, e.r, e.client) && !Begins(s, e) ==> Step(s, e).status == Offline
  {
    ClearingKeeps(s, e.r);
    BeginLoginExactly(WithRuntime(s, e.r, s.runtimes[e.r].(client := None)), e.overQuota, true);
    hide Inv, BeginLogin;
  }

  /** Over all events: a login begins exactly for these reasons, and is then the one live attempt of the bot. */
  lemma BeginsExactly(s: System, e: Event)
    requires Inv(s)
    ensures var t := Step(s, e);
            if Begins(s, e) then Begun(s, t, |s.attempts|, !e.Resume?) else |t.attempts| == |s.attempts|
  {
    if e.Start? || e.Resume? {
      StartBeginsExactly(s, e);
    } else if (e.ListenerLost? || e.WatchdogGaveUp?) && e.r < |s.runtimes| {
      LossBeginsExactly(s, e);
    } else if e.RetryTimer? && e.r < |s.runtimes| {
      RetryNeverLogsIn(s, e.r);
    }
    hide Inv, IsCurrent, OnStart, OnResume, OnListenerLost, OnWatchdog, OnRetry, Begun;
  }

  /** The events after which the bot is shown offline. */
  predicate GoesOffline(s: System, e: Event) {
    match e
    case LoginReturned(a, result) =>
      && LoggingIn(s, a) && result != LoggedIn(false)
      && !(result == NoToken && s.attempts[a].pc == Resuming && s.attempts[a].qrFallback)
    case PreparationThrew(a) => Suspended(s, a, Preparing) && IsCurrent(s, a)
    case WatchdogGaveUp(r, client, _) => Holding(s, r, client) && !Begins(s, e)
    case Stop => s.row && s.scope
    case DeleteSession => s.row && s.scope
    case _ => false
  }

  /** The status shown changes for exactly these reasons. */
  lemma StatusChangesExactly(s: System, e: Event)
    requires Inv(s)
    ensures Step(s, e).status == if Begins(s, e) then Connecting
                                 else if GoesOffline(s, e) then Offline
                                 else if e.Prepared? && Suspended(s, e.a, Preparing) && IsCurrent(s, e.a) then Online
                                 else s.status
  {
    if e.Start? || e.Resume? {
      StartBeginsExactly(s, e);
    } else if (e.ListenerLost? || e.WatchdogGaveUp?) && e.r < |s.runtimes| {
      LossBeginsExactly(s, e);
    } else if e.RetryTimer? && e.r < |s.runtimes| {
      RetryNeverLogsIn(s, e.r);
    }
    hide Inv, IsCurrent, OnStart, OnResume, OnListenerLost, OnWatchdog, OnRetry;
  }

  /** A failed login, or one whose account the lock rejects, takes its runtime's client down. */
  predicate TakesDown(s: System, e: Event, r: nat) {
    match e
    case LoginReturned(a, result) =>
      LoggingIn(s, a) && s.attempts[a].runtime == r && (result == Threw || result == LoggedIn(true))
    case PreparationThrew(a) => Suspended(s, a, Preparing) && IsCurrent(s, a) && s.attempts[a].runtime == r
    case ListenerLost(q, client, _) => q == r && LossCounts(s, r, client)
    case WatchdogGaveUp(q, client, _) => q == r && Holding(s, r, client)
    case Stop => s.row && s.scope && s.current == Some(r)
    case DeleteSession => s.row && s.scope && s.current == Some(r)
    case _ => false
  }

  lemma BeginKeepsClients(s: System, overQuota: bool, qrFallback: bool, r: nat)
    requires r < |s.runtimes|
    ensures var t := BeginLogin(s, overQuota, qrFallback);
            r < |t.runtimes| && t.runtimes[r].client == s.runtimes[r].client && t.runtimes[r].retry == s.runtimes[r].retry
  {
  }

  lemma StartKeepsClients(s: System, e: Event, r: nat)
    requires Inv(s) && r < |s.runtimes| && (e.Start? || e.Resume?)
    ensures r < |Step(s, e).runtimes| && Step(s, e).runtimes[r].client == s.runtimes[r].client
    ensures Step(s, e).runtimes[r].retry == if ClearsRetry(s, e, r) then None else s.runtimes[r].retry
  {
    var ready := EnsureRuntime(s);
    var q := ready.current.value;
    assert ready.runtimes[r] == s.runtimes[r] && Mapped(s).GetOr(EMPTY_RUNTIME) == ready.runtimes[q];
    assert Mapped(s).Some? ==> s == ready;
    assert s.current == Some(r) ==> q == r;
    assert q == r ==> s.current == Some(r) by {
      assert Mapped(s).None? ==> q == |s.runtimes|;
    }
    BeginKeepsClients(WithRuntime(ready, q, ready.runtimes[q].(stopRequested := false, retry := None)), e.overQuota, true, r);
    BeginKeepsClients(WithRuntime(ready, q, ready.runtimes[q].(stopRequested := false)), e.overQuota, false, r);
    hide Inv, BeginLogin, EnsureRuntime;
  }

  lemma LossClients(s: System, e: Event, r: nat)
    requires r < |s.runtimes| && (e.ListenerLost? || e.WatchdogGaveUp?) && e.r < |s.runtimes|
    ensures r < |Step(s, e).runtimes| && Step(s, e).runtimes[r].retry == s.runtimes[r].retry
    ensures Step(s, e).runtimes[r].client == if TakesDown(s, e, r) then None else s.runtimes[r].client
  {
    BeginKeepsClients(WithRuntime(s, e.r, s.runtimes[e.r].(client := None)), e.overQuota, true, r);
    hide BeginLogin;
  }

  lemma LoginClients(s: System, e: Event, r: nat)
    requires r < |s.runtimes| && e.LoginReturned?
    ensures r < |Step(s, e).runtimes|
    ensures Step(s, e).runtimes[r].retry
         == if ThrewLive(s, e, r) && s.attempts[e.a].qrFallback then Some(e.a) else s.runtimes[r].retry
    ensures Step(s, e).runtimes[r].client
         == if e.result == LoggedIn(false) && LoggingIn(s, e.a) && s.attempts[e.a].runtime == r then Some(e.a)
            else if TakesDown(s, e, r) then None
            else s.runtimes[r].client
  {
    hide IsCurrent;
  }

  lemma PreparationClients(s: System, e: Event, r: nat)
    requires r < |s.runtimes| && e.PreparationThrew?
    ensures r < |Step(s, e).runtimes|
    ensures Step(s, e).runtimes[r].retry
         == if ThrewLive(s, e, r) && s.attempts[e.a].qrFallback then Some(e.a) else s.runtimes[r].retry
    ensures Step(s, e).runtimes[r].client == if TakesDown(s, e, r) then None else s.runtimes[r].client
  {
    hide IsCurrent;
  }

  /** Whose client a runtime holds changes for exactly these reasons. */
  lemma ClientsChangeExactly(s: System, e: Event, r: nat)
    requires Inv(s) && r < |s.runtimes|
    ensures r < |Step(s, e).runtimes|
    ensures Step(s, e).runtimes[r].client
         == if e.LoginReturned? && e.result == LoggedIn(false) && LoggingIn(s, e.a) && s.attempts[e.a].runtime == r then Some(e.a)
            else if TakesDown(s, e, r) then None
            else s.runtimes[r].client
  {
    hide Inv, IsCurrent, OnStart, OnResume, OnListenerLost, OnWatchdog, OnRetry, OnLogin, Failed, LoggingIn;
    if e.Start? || e.Resume? {
      StartKeepsClients(s, e, r);
    } else if (e.ListenerLost? || e.WatchdogGaveUp?) && e.r < |s.runtimes| {
      LossClients(s, e, r);
    } else if e.RetryTimer? && e.r < |s.runtimes| {
      RetryClears(s, e.r);
    } else if e.LoginReturned? {
      LoginClients(s, e, r);
    } else if e.PreparationThrew? {
      PreparationClients(s, e, r);
    }
  }

  /** A retry is armed by a live attempt that threw and may scan; starting, stopping and firing clear it. */
  lemma RetriesChangeExactly(s: System, e: Event, r: nat)
    requires Inv(s) && r < |s.runtimes|
    ensures r < |Step(s, e).runtimes|
    ensures Step(s, e).runtimes[r].retry
         == if ThrewLive(s, e, r) && s.attempts[e.a].qrFallback then Some(e.a)
            else if ClearsRetry(s, e, r) then None
            else s.runtimes[r].retry
  {
    hide Inv, IsCurrent, OnStart, OnResume, OnListenerLost, OnWatchdog, OnRetry, OnLogin, Failed, LoggingIn;
    if e.Start? || e.Resume? {
      StartKeepsClients(s, e, r);
    } else if (e.ListenerLost? || e.WatchdogGaveUp?) && e.r < |s.runtimes| {
      LossClients(s, e, r);
    } else if e.RetryTimer? && e.r < |s.runtimes| {
      RetryClears(s, e.r);
    } else if e.LoginReturned? {
      LoginClients(s, e, r);
    } else if e.PreparationThrew? {
      PreparationClients(s, e, r);
    }
  }

  lemma RetryClears(s: System, r: nat)
    requires Inv(s) && r < |s.runtimes|
    ensures |Step(s, RetryTimer(r)).runtimes| == |s.runtimes|
    ensures forall q :: 0 <= q < |s.runtimes| ==>
              Step(s, RetryTimer(r)).runtimes[q] == if q == r && ClearsRetry(s, RetryTimer(r), r) then s.runtimes[r].(retry := None)
                                                    else s.runtimes[q]
  {
    var retry := s.runtimes[r].retry;
    if retry.Some? && retry.value < |s.attempts| {
      assert AttemptOk(s, retry.value);
    }
    hide BeginLogin;
  }

  predicate ThrewLive(s: System, e: Event, r: nat) {
    match e
    case LoginReturned(a, result) => result == Threw && LoggingIn(s, a) && s.attempts[a].runtime == r
    case PreparationThrew(a) => Suspended(s, a, Preparing) && IsCurrent(s, a) && s.attempts[a].runtime == r
    case _ => false
  }

  predicate ClearsRetry(s: System, e: Event, r: nat)
    requires r < |s.runtimes|
  {
    match e
    case Start(_) => Startable(s) && s.current == Some(r)
    case RetryTimer(q) =>
      && q == r && s.runtimes[r].retry.Some? && s.runtimes[r].retry.value < |s.attempts|
      && s.attempts[s.runtimes[r].retry.value].pc == Settled
    case Stop => s.row && s.scope && s.current == Some(r)
    case DeleteSession => s.row && s.scope && s.current == Some(r)
    case _ => false
  }

  /** Where an attempt goes from each of its awaits. */
  function NextPc(s: System, e: Event, a: nat): Pc
    requires a < |s.attempts|
  {
    var pc := s.attempts[a].pc;
    match e
    case LoginReturned(b, result) =>
      if b != a || (pc != Resuming && pc != Scanning) then pc
      else if !IsCurrent(s, a) then Ended
      else if result == LoggedIn(false) then Preparing
      else if result == NoToken && pc == Resuming && s.attempts[a].qrFallback then Scanning
      else Ended
    case StepPrepared(b) => if b == a && pc == Preparing && !IsCurrent(s, a) then Ended else pc
    case PreparationThrew(b) => if b == a && pc == Preparing then Ended else pc
    case Prepared(b) => if b == a && pc == Preparing then Ended else pc
    case Cleanup(b) => if b == a && pc == Ended then Settled else pc
    case _ => pc
  }

  /** Attempts move on, and only by their own events; once returned and cleaned up, they stay so. */
  lemma AttemptsMoveExactly(s: System, e: Event, a: nat)
    requires Inv(s) && a < |s.attempts|
    ensures a < |Step(s, e).attempts| && Step(s, e).attempts[a] == s.attempts[a].(pc := NextPc(s, e, a))
  {
    assert AttemptOk(s, a);
    if e.Start? || e.Resume? || e.ListenerLost? || e.WatchdogGaveUp? || e.RetryTimer? {
      OldAttemptsStay(s, e, a);
    } else if e.LoginReturned? {
      LoginMoves(s, e, a);
    } else {
      OthersMove(s, e, a);
    }
    hide *;
  }

  lemma LoginMoves(s: System, e: Event, a: nat)
    requires a < |s.attempts| && s.attempts[a].runtime < |s.runtimes| && e.LoginReturned?
    ensures a < |Step(s, e).attempts| && Step(s, e).attempts[a] == s.attempts[a].(pc := NextPc(s, e, a))
  {
    hide IsCurrent;
  }

  lemma OthersMove(s: System, e: Event, a: nat)
    requires a < |s.attempts| && s.attempts[a].runtime < |s.runtimes| && !e.LoginReturned?
    requires !(e.Start? || e.Resume? || e.ListenerLost? || e.WatchdogGaveUp? || e.RetryTimer?)
    ensures a < |Step(s, e).attempts| && Step(s, e).attempts[a] == s.attempts[a].(pc := NextPc(s, e, a))
  {
    hide IsCurrent;
  }

  lemma OldAttemptsStay(s: System, e: Event, a: nat)
    requires Inv(s) && a < |s.attempts|
    requires e.Start? || e.Resume? || e.ListenerLost? || e.WatchdogGaveUp? || e.RetryTimer?
    ensures a < |Step(s, e).attempts| && Step(s, e).attempts[a] == s.attempts[a].(pc := NextPc(s, e, a))
  {
    if e.Start? || e.Resume? {
      StartBeginsExactly(s, e);
    } else if (e.ListenerLost? || e.WatchdogGaveUp?) && e.r < |s.runtimes| {
      LossBeginsExactly(s, e);
    } else if e.RetryTimer? && e.r < |s.runtimes| {
      RetryNeverLogsIn(s, e.r);
    }
    var t := Step(s, e);
    assert Begins(s, e) ==> t.attempts[..|s.attempts|][a] == s.attempts[a];
    hide Inv, IsCurrent, OnStart, OnResume, OnListenerLost, OnWatchdog, OnRetry;
  }

  /** Its cleanup gives the gate back and takes the run off its runtime, whatever else runs there. */
  lemma CleanupExactly(s: System, a: nat)
    requires Inv(s) && Suspended(s, a, Ended)
    ensures var t := Step(s, Cleanup(a));
            var r := s.attempts[a].runtime;
            && !IsCurrent(t, a) && t.runtimes[r].loginRun != Some(a)
            && (forall b: nat :: b != a && b < |s.attempts| ==> IsCurrent(t, b) == IsCurrent(s, b))
            && (s.runtimes[r].loginRun != Some(a) ==> t.runtimes[r].loginRun == s.runtimes[r].loginRun)
            && (IsCurrent(s, a) ==> !t.runtimes[r].gate.active)
  {
    var t := Step(s, Cleanup(a));
    forall b: nat | b != a && b < |s.attempts| ensures IsCurrent(t, b) == IsCurrent(s, b) {
      assert AttemptOk(s, a) && AttemptOk(s, b);
    }
  }

  /** What a stop and a deletion leave: no runtime in the map, the old one stopped; a deletion no row either. */
  lemma StopAndDeleteExactly(s: System)
    requires Inv(s)
    ensures var t := Step(s, Stop);
            if s.row && s.scope then
              && t.current == None && t.row && t.scope && |t.runtimes| == |s.runtimes| && t.attempts == s.attempts
              && forall r :: 0 <= r < |s.runtimes| ==>
                   if s.current == Some(r)
                   then t.runtimes[r].stopRequested && !t.runtimes[r].gate.active && t.runtimes[r].client == None
                        && t.runtimes[r].loginRun == None && t.runtimes[r].retry == None
                   else t.runtimes[r] == s.runtimes[r]
            else t == s
    ensures var t := Step(s, DeleteSession);
            if s.row && !s.scope then t == s
            else !t.row && t.current == None && t.scope == s.scope && t.runtimes == Step(s, Stop).runtimes && t.attempts == s.attempts
  {
  }

  // ----- left to itself -----

  /** Nobody else removes the row or takes the bot away from this worker. */
  predicate Alone(events: seq<Event>) {
    forall i :: 0 <= i < |events| ==> !events[i].RowVanished? && !events[i].ScopeMoved?
  }

  /** While the row stands it is ours to stop; once it was deleted here, everything had been stopped first. */
  ghost predicate Tidy(s: System) {
    && s.scope
    && (!s.row ==> s.current == None && forall r :: 0 <= r < |s.runtimes| ==> s.runtimes[r].stopRequested)
  }

  lemma TidyStays(s: System, e: Event)
    requires Inv(s) && Tidy(s) && !e.RowVanished? && !e.ScopeMoved?
    ensures Tidy(Step(s, e))
  {
    forall r | 0 <= r < |s.runtimes| ensures RuntimeOk(s, r) {
    }
    if s.row {
      RowStands(s, e);
    } else {
      StepStaysStopped(s, e);
      RowStaysGone(s, e);
    }
  }

  lemma RowStands(s: System, e: Event)
    requires Inv(s) && s.row && s.scope && !e.RowVanished? && !e.ScopeMoved?
    ensures Tidy(Step(s, e))
  {
    if e.DeleteSession? {
      StopKeeps(s);
      var stopped := OnStop(s);
      assert stopped.row && stopped.current == None;
      forall r | 0 <= r < |stopped.runtimes| ensures stopped.runtimes[r].stopRequested {
        assert RuntimeOk(stopped, r);
      }
      hide Inv, OnStop, RuntimeOk;
    } else {
      hide Inv, IsCurrent, RuntimeOk, EnsureRuntime;
    }
  }

  lemma RowStaysGone(s: System, e: Event)
    requires Inv(s) && Tidy(s) && !s.row && !e.RowVanished? && !e.ScopeMoved?
    ensures !Step(s, e).row && Step(s, e).scope && Step(s, e).current == None && |Step(s, e).runtimes| == |s.runtimes|
  {
    if e.WatchdogGaveUp? && e.r < |s.runtimes| {
      assert RuntimeOk(s, e.r);
    } else if e.RetryTimer? && e.r < |s.runtimes| {
      assert RuntimeOk(s, e.r);
    }
    hide Inv, RuntimeOk, IsCurrent, BeginLogin, EnsureRuntime;
  }

  /** The bot as the manager first meets it. */
  const NEW_BOT := System(true, true, None, [], [], Offline, [])

  lemma {:induction false} AloneStaysTidy(s: System, events: seq<Event>)
    requires Inv(s) && Tidy(s) && Alone(events)
    ensures Inv(Run(s, events)) && Tidy(Run(s, events))
    decreases |events|
  {
    hide Inv, Step, Tidy;
    if events != [] {
      assert !events[0].RowVanished? && !events[0].ScopeMoved?;
      assert forall i :: 0 <= i < |events[1..]| ==> events[1..][i] == events[i + 1];
      StepKeepsInv(s, events[0]);
      TidyStays(s, events[0]);
      AloneStaysTidy(Step(s, events[0]), events[1..]);
    }
  }

  /**
   * As long as this worker alone decides about the bot, stopping always works: whatever has happened, a stop
   * silences every attempt for good, deletion included.
   */
  lemma {:induction false} AloneEveryStopIsFinal(events: seq<Event>, a: nat)
    requires Alone(events) && a < |Run(NEW_BOT, events).attempts|
    ensures var s := Run(NEW_BOT, events);
            SilentForever(Step(s, Stop), |s.online|, a)
  {
    AloneStaysTidy(NEW_BOT, events);
    var s := Run(NEW_BOT, events);
    StopSilencesExactly(s, a);
    assert StopTakesEffect(s) || !Hopeful(s, a) by {
      hide Inv;
    }
  }

  /** What it takes for a stop to miss: a live attempt, and the row or the scope changed under it. */
  lemma MissedStopIsReachable()
    ensures var s := Run(NEW_BOT, [Start(false), RowVanished]); Inv(s) && |s.attempts| == 1 && Hopeful(s, 0) && !StopTakesEffect(s)
    ensures var s := Run(NEW_BOT, [Start(false), ScopeMoved(false)]); Inv(s) && |s.attempts| == 1 && Hopeful(s, 0) && !StopTakesEffect(s)
  {
    var started := Step(NEW_BOT, Start(false));
    AtMostOneLive(NEW_BOT, [Start(false), RowVanished]);
    AtMostOneLive(NEW_BOT, [Start(false), ScopeMoved(false)]);
    assert Hopeful(started, 0) && |started.attempts| == 1;
    var vanished, moved := Step(started, RowVanished), Step(started, ScopeMoved(false));
    assert Hopeful(vanished, 0) && Hopeful(moved, 0);
    hide Step, Inv, Hopeful, NEW_BOT;
    assert Run(vanished, []) == vanished && Run(moved, []) == moved;
    assert Run(started, [RowVanished]) == vanished && Run(started, [ScopeMoved(false)]) == moved;
    assert [Start(false), RowVanished][1..] == [RowVanished] && [Start(false), ScopeMoved(false)][1..] == [ScopeMoved(false)];
  }

  // ----- the manager -----

  class SessionManager {
    var row: bool
    var scope: bool
    var current: Option<nat>
    var runtimes: seq<Runtime>
    var attempts: seq<Attempt>
    var status: Status
    var online: seq<nat>

    function View(): System
      reads this
    {
      System(row, scope, current, runtimes, attempts, status, online)
    }

    constructor (row: bool, scope: bool)
      ensures View() == System(row, scope, None, [], [], Offline, []) && Inv(View())
    {
      this.row, this.scope, current, runtimes, attempts, status, online := row, scope, None, [], [], Offline, [];
    }

    method GetRuntime() returns (r: nat)
      modifies this
      ensures View() == EnsureRuntime(old(View())) && current == Some(r) && r < |runtimes|
    {
      if current.Some? && current.value < |runtimes| {
        return current.value;
      }
      runtimes := runtimes + [EMPTY_RUNTIME];
      current := Some(|runtimes| - 1);
      return |runtimes| - 1;
    }

    /** Throws, without an attempt, when the bot is over quota or its gate is busy. */
    method BeginLoginAttempt(overQuota: bool, qrFallback: bool) returns (begun: bool)
      modifies this
      ensures View() == BeginLogin(old(View()), overQuota, qrFallback)
      ensures begun <==> |attempts| == |old(attempts)| + 1
    {
      if overQuota {
        return false;
      }
      var r := GetRuntime();
      if runtimes[r].gate.active {
        return false;
      }
      var gate := runtimes[r].gate.Begun();
      var admitted := !runtimes[r].stopRequested;
      runtimes := runtimes[r := runtimes[r].(gate := gate, loginRun := Some(|attempts|))];
      attempts := attempts + [Attempt(r, gate.generation, qrFallback, if admitted then Resuming else Ended)];
      if admitted {
        status := Connecting;
      }
      return true;
    }

    method StartBot(overQuota: bool) returns (begun: bool)
      modifies this
      ensures View() == OnStart(old(View()), overQuota)
      ensures begun <==> |attempts| == |old(attempts)| + 1
    {
      if !row || !scope {
        return false;
      }
      var r := GetRuntime();
      if runtimes[r].client.Some? || runtimes[r].loginRun.Some? {
        return false;
      }
      runtimes := runtimes[r := runtimes[r].(stopRequested := false, retry := None)];
      begun := BeginLoginAttempt(overQuota, true);
    }

    method StopBot()
      modifies this
      ensures View() == OnStop(old(View()))
    {
      if !row || !scope {
        return;
      }
      if current.Some? && current.value < |runtimes| {
        var r := current.value;
        var gate := runtimes[r].gate.Invalidated();
        runtimes := runtimes[r := Runtime(true, gate, None, None, None)];
      }
      status, current := Offline, None;
    }

    /** The end of `attemptLogin`: the last check, then online. */
    method PublishOnline(a: nat)
      requires Suspended(View(), a, Preparing)
      modifies this
      ensures View() == Step(old(View()), Prepared(a))
    {
      var live := IsCurrent(View(), a);
      attempts := attempts[a := attempts[a].(pc := Ended)];
      if live {
        status, online := Online, online + [a];
      }
    }
  }
}
