/**
 * Bot storage: a RAM mirror answers every read, an ordered queue carries every write to a
 * worker thread, and the worker commits batches, rolling back and retrying on failure.
 */
module WriteBehind {
  import opened Prelude

  const BASE_RETRY_DELAY_MS: nat := 100
  const MAX_RETRY_DELAY_MS: nat := 5000
  const FLUSH_DELAY_MS: nat := 10

  type Rows = map<string, string>

  datatype Table = LatencySamples | BotEvents | UserActions | MessagesIn | Anomalies | LaneRaceEvents

  /** Key-value writes carry JSON text; every other kind inserts one row into its own table. */
  datatype Operation =
    | KvSet(botId: int, key: string, valueJson: string)
    | KvDelete(botId: int, key: string)
    | KvClear(botId: int)
    | Insert(table: Table, row: string)

  datatype Message = Init | Post(op: Operation)

  /** `kv` rows by bot, and every row inserted elsewhere in the order it was inserted. */
  datatype Database = Database(kv: map<int, Rows>, inserted: seq<(Table, string)>)

  function RowsOf(db: Database, botId: int): Rows {
    if botId in db.kv then db.kv[botId] else map[]
  }

  // ----- what the queued operations mean -----

  function Apply(db: Database, op: Operation): Database {
    match op
    case KvSet(b, k, v) => db.(kv := db.kv[b := RowsOf(db, b)[k := v]])
    case KvDelete(b, k) => db.(kv := db.kv[b := RowsOf(db, b) - {k}])
    case KvClear(b) => db.(kv := db.kv[b := map[]])
    case Insert(t, row) => db.(inserted := db.inserted + [(t, row)])
  }

  function ApplyAll(db: Database, ops: seq<Operation>): Database {
    if ops == [] then db else Apply(ApplyAll(db, ops[..|ops| - 1]), ops[|ops| - 1])
  }

  /** The same operations seen by one bot. */
  function ApplyRow(rows: Rows, op: Operation, botId: int): Rows {
    match op
    case KvSet(b, k, v) => if b == botId then rows[k := v] else rows
    case KvDelete(b, k) => if b == botId then rows - {k} else rows
    case KvClear(b) => if b == botId then map[] else rows
    case Insert(_, _) => rows
  }

  function ApplyRows(rows: Rows, ops: seq<Operation>, botId: int): Rows {
    if ops == [] then rows else ApplyRow(ApplyRows(rows, ops[..|ops| - 1], botId), ops[|ops| - 1], botId)
  }

  function Inserts(ops: seq<Operation>): seq<(Table, string)> {
    if ops == [] then []
    else Inserts(ops[..|ops| - 1]) + (if ops[|ops| - 1].Insert? then [(ops[|ops| - 1].table, ops[|ops| - 1].row)] else [])
  }

  lemma {:induction false} ApplyAllByBot(db: Database, ops: seq<Operation>, botId: int)
    ensures RowsOf(ApplyAll(db, ops), botId) == ApplyRows(RowsOf(db, botId), ops, botId)
    ensures ApplyAll(db, ops).inserted == db.inserted + Inserts(ops)
  {
    if ops != [] {
      ApplyAllByBot(db, ops[..|ops| - 1], botId);
    }
  }

  lemma {:induction false} ApplyRowsAppend(rows: Rows, a: seq<Operation>, b: seq<Operation>, botId: int)
    ensures ApplyRows(rows, a + b, botId) == ApplyRows(ApplyRows(rows, a, botId), b, botId)
    ensures Inserts(a + b) == Inserts(a) + Inserts(b)
  {
    if b == [] {
      assert a + b == a;
    } else {
      assert (a + b)[..|a + b| - 1] == a + b[..|b| - 1];
      ApplyRowsAppend(rows, a, b[..|b| - 1], botId);
    }
  }

  predicate Concerns(op: Operation, botId: int) {
    !op.Insert? && op.botId == botId
  }

  /** The last operation about this bot, if any, was a clear. */
  predicate EndsCleared(ops: seq<Operation>, botId: int) {
    if ops == [] then false
    else if Concerns(ops[|ops| - 1], botId) then ops[|ops| - 1].KvClear?
    else EndsCleared(ops[..|ops| - 1], botId)
  }

  lemma {:induction false} ClearedRowsStayEmpty(rows: Rows, ops: seq<Operation>, botId: int)
    requires EndsCleared(ops, botId)
    ensures ApplyRows(rows, ops, botId) == map[]
  {
    if !Concerns(ops[|ops| - 1], botId) {
      ClearedRowsStayEmpty(rows, ops[..|ops| - 1], botId);
    }
  }

  ghost predicate NoneConcern(ops: seq<Operation>, botId: int) {
    forall i :: 0 <= i < |ops| ==> !Concerns(ops[i], botId)
  }

  lemma {:induction false} UnconcernedRows(rows: Rows, ops: seq<Operation>, botId: int)
    requires NoneConcern(ops, botId)
    ensures ApplyRows(rows, ops, botId) == rows
  {
    if ops != [] {
      UnconcernedRows(rows, ops[..|ops| - 1], botId);
    }
  }

  /** One more operation at the end of the queue. */
  lemma {:induction false} OneMore(rows: Rows, ops: seq<Operation>, op: Operation, botId: int)
    ensures ApplyRows(rows, ops + [op], botId) == ApplyRow(ApplyRows(rows, ops, botId), op, botId)
    ensures EndsCleared(ops + [op], botId) == if Concerns(op, botId) then op.KvClear? else EndsCleared(ops, botId)
    ensures NoneConcern(ops + [op], botId) <==> NoneConcern(ops, botId) && !Concerns(op, botId)
  {
    assert (ops + [op])[..|ops|] == ops;
    if NoneConcern(ops + [op], botId) {
      assert (ops + [op])[|ops|] == op;
      assert forall i :: 0 <= i < |ops| ==> (ops + [op])[i] == ops[i];
    }
  }

  // ----- the worker's retry delay -----

  function RetryDelay(consecutiveFailures: nat): nat
    requires consecutiveFailures > 0
  {
    Min(BASE_RETRY_DELAY_MS * Power2(consecutiveFailures - 1), MAX_RETRY_DELAY_MS)
  }

  /** The delay doubles from 100 ms and is 5 s from the seventh failure in a row on, forever. */
  lemma {:induction false} RetryDelaySchedule(failures: nat)
    requires failures > 0
    ensures failures < 7 ==> RetryDelay(failures) < MAX_RETRY_DELAY_MS && RetryDelay(failures) == 100 * Power2(failures - 1)
    ensures failures >= 7 ==> RetryDelay(failures) == MAX_RETRY_DELAY_MS
  {
    if failures > 7 {
      RetryDelaySchedule(failures - 1);
    } else {
      assert Power2(3) == 8 && Power2(6) == 8 * Power2(3);
      assert failures - 1 in {0, 1, 2, 3, 4, 5, 6};
    }
  }

  // ----- the whole system as a value -----

  /** One hydrated mirror; the storage instances opened on it keep it even when the process forgets it. */
  datatype Cache = Cache(botId: int, rows: Rows)

  /**
   * `file` is the database both threads open.  `heap` lists every mirror ever hydrated, `caches` the one a
   * new instance of each bot gets.  `channel` holds messages posted and not yet received by the worker;
   * `issued` and `committed` record the operations enqueued so far and those a transaction has applied.
   */
  datatype System = System(
    file: Database, connected: bool, pending: seq<Operation>, flushTimer: Option<nat>, failures: nat,
    channel: seq<Message>, started: bool, heap: seq<Cache>, caches: map<int, nat>,
    issued: seq<Operation>, committed: seq<Operation>)

  /** Writes go through an instance, named by the mirror it was opened on. */
  datatype Event =
    | Open(botId: int)
    | Set(cache: nat, key: string, valueJson: string)
    | Delete(cache: nat, key: string)
    | Clear(cache: nat)
    | Record(table: Table, row: string)
    | DeleteBot(botId: int)
    | Receive
    | TimerFires(failAt: Option<nat>)

  function Start(file: Database): System {
    System(file, false, [], None, 0, [], false, [], map[], [], [])
  }

  /** `enqueueWrite`: the first write starts the worker and posts its init message. */
  function Enqueue(s: System, op: Operation): System {
    s.(channel := s.channel + (if s.started then [] else [Init]) + [Post(op)],
       started := true, issued := s.issued + [op])
  }

  /** `cacheFor`: hydrate from the file once, then reuse. */
  function CacheFor(s: System, botId: int): System {
    if botId in s.caches then s
    else s.(heap := s.heap + [Cache(botId, RowsOf(s.file, botId))], caches := s.caches[botId := |s.heap|])
  }

  /** An instance changes its own mirror and queues the write, whether or not the mirror is still current. */
  function Write(s: System, cache: nat, op: Operation): System
    requires cache < |s.heap|
  {
    var c := s.heap[cache];
    Enqueue(s.(heap := s.heap[cache := c.(rows := ApplyRow(c.rows, op, c.botId))]), op)
  }

  /** The worker takes one message: open the database, or queue the operation and arm the timer. */
  function Received(s: System): System {
    if s.channel == [] then s
    else
      var rest := s.(channel := s.channel[1..]);
      match s.channel[0]
      case Init => rest.(connected := true)
      case Post(op) =>
        rest.(pending := s.pending + [op],
              flushTimer := if s.flushTimer.Some? then s.flushTimer else Some(FLUSH_DELAY_MS))
  }

  /** The transaction throws at statement `failAt`, or at commit when it equals the batch size. */
  predicate Throws(failAt: Option<nat>, batch: seq<Operation>) {
    failAt.Some? && failAt.value <= |batch|
  }

  function Flushed(s: System, failAt: Option<nat>): System {
    var s' := s.(flushTimer := None);
    if !s.connected || s.pending == [] then s'
    else if Throws(failAt, s.pending) then
      s'.(failures := s.failures + 1, flushTimer := Some(RetryDelay(s.failures + 1)))
    else
      s'.(file := ApplyAll(s.file, s.pending), pending := [], failures := 0,
          committed := s.committed + s.pending)
  }

  /** `deleteBotSession` then `deleteBot`: clear, forget the mirror, delete the rows directly. */
  function BotDeleted(s: System, botId: int): System {
    var hydrated := CacheFor(s, botId);
    var cleared :=
      if hydrated.caches[botId] < |hydrated.heap| then Write(hydrated, hydrated.caches[botId], KvClear(botId)) else hydrated;
    cleared.(caches := cleared.caches - {botId}, file := s.file.(kv := s.file.kv - {botId}))
  }

  /** A write names a mirror that exists; the operation carries that mirror's bot. */
  function Step(s: System, e: Event): System {
    match e
    case Open(b) => CacheFor(s, b)
    case Set(c, k, v) => if c < |s.heap| then Write(s, c, KvSet(s.heap[c].botId, k, v)) else s
    case Delete(c, k) => if c < |s.heap| then Write(s, c, KvDelete(s.heap[c].botId, k)) else s
    case Clear(c) => if c < |s.heap| then Write(s, c, KvClear(s.heap[c].botId)) else s
    case Record(t, row) => Enqueue(s, Insert(t, row))
    case DeleteBot(b) => BotDeleted(s, b)
    case Receive => Received(s)
    case TimerFires(failAt) => if s.flushTimer.Some? then Flushed(s, failAt) else s
  }

  function Run(s: System, events: seq<Event>): System {
    if events == [] then s else Step(Run(s, events[..|events| - 1]), events[|events| - 1])
  }

  /** Operations on their way to the worker. */
  function Posted(channel: seq<Message>): seq<Operation> {
    if channel == [] then []
    else Posted(channel[..|channel| - 1]) + (if channel[|channel| - 1].Post? then [channel[|channel| - 1].op] else [])
  }

  /** Everything issued but not committed, oldest first. */
  function Queue(s: System): seq<Operation> {
    s.pending + Posted(s.channel)
  }

  lemma {:induction false} PostedAppend(a: seq<Message>, b: seq<Message>)
    ensures Posted(a + b) == Posted(a) + Posted(b)
  {
    if b == [] {
      assert a + b == a;
    } else {
      assert (a + b)[..|a + b| - 1] == a + b[..|b| - 1];
      PostedAppend(a, b[..|b| - 1]);
    }
  }

  /** What the file will hold for a bot once everything queued has been flushed. */
  function Drained(s: System, botId: int): Rows {
    ApplyRows(RowsOf(s.file, botId), Queue(s), botId)
  }

  // ----- what every reachable state keeps -----

  /** The worker is opened before it is given its first operation. */
  ghost predicate ChannelInOrder(s: System) {
    && (!s.started ==> s.channel == [] && !s.connected)
    && (s.started && !s.connected ==> s.channel != [] && s.channel[0] == Init)
    && (!s.connected ==> s.pending == [])
  }

  /** Nothing lost, reordered or applied twice, and a timer whenever work is pending. */
  ghost predicate Accounted(s: System, base: Database) {
    && s.issued == s.committed + Queue(s)
    && s.file.inserted == base.inserted + Inserts(s.committed)
    && (s.pending != [] ==> s.flushTimer.Some?)
  }

  /** The process knows the mirrors it hands out. */
  ghost predicate CachesOk(s: System) {
    forall b :: b in s.caches ==> s.caches[b] < |s.heap| && s.heap[s.caches[b]].botId == b
  }

  /** Draining the queue ends where applying everything ever issued, in order, would. */
  ghost predicate DrainsRight(s: System, base: Database, botId: int) {
    Drained(s, botId) == ApplyRows(RowsOf(base, botId), s.issued, botId)
  }

  ghost predicate Inv(s: System, base: Database, botId: int) {
    ChannelInOrder(s) && Accounted(s, base) && CachesOk(s) && DrainsRight(s, base, botId)
  }

  lemma EnqueueQueue(s: System, op: Operation)
    ensures Queue(Enqueue(s, op)) == Queue(s) + [op]
  {
    var head := if s.started then [] else [Init];
    assert Enqueue(s, op).channel == s.channel + (head + [Post(op)]);
    PostedAppend(s.channel, head + [Post(op)]);
    PostedAppend(head, [Post(op)]);
    assert Posted(head) == [];
    assert [Post(op)][..0] == [];
  }

  /** One more operation at the end of the queue, whatever else happens to the mirrors. */
  lemma EnqueueDrains(s: System, op: Operation, botId: int)
    ensures Drained(Enqueue(s, op), botId) == ApplyRow(Drained(s, botId), op, botId)
  {
    EnqueueQueue(s, op);
    OneMore(RowsOf(s.file, botId), Queue(s), op, botId);
  }

  lemma EnqueueKeeps(s: System, op: Operation, base: Database, botId: int)
    requires Inv(s, base, botId)
    ensures Inv(Enqueue(s, op), base, botId)
  {
    EnqueueQueue(s, op);
    EnqueueDrains(s, op, botId);
    OneMore(RowsOf(base, botId), s.issued, op, botId);
    hide Queue, ApplyRows, RowsOf, Inserts, Posted, Drained;
    assert s.committed + (Queue(s) + [op]) == s.committed + Queue(s) + [op];
  }

  /** Mirrors matter neither to the queue nor to the file. */
  lemma MirrorsAreFree(s: System, t: System, base: Database, botId: int)
    requires Inv(s, base, botId) && t == s.(heap := t.heap, caches := t.caches) && CachesOk(t)
    ensures Inv(t, base, botId) && Drained(t, botId) == Drained(s, botId)
  {
    assert Queue(t) == Queue(s);
    hide Queue, ApplyRows, RowsOf, Inserts, Posted;
  }

  lemma WriteKeeps(s: System, cache: nat, op: Operation, base: Database, botId: int)
    requires Inv(s, base, botId) && cache < |s.heap|
    ensures Inv(Write(s, cache, op), base, botId)
    ensures Drained(Write(s, cache, op), botId) == ApplyRow(Drained(s, botId), op, botId)
  {
    var c := s.heap[cache];
    var t := s.(heap := s.heap[cache := c.(rows := ApplyRow(c.rows, op, c.botId))]);
    MirrorsAreFree(s, t, base, botId);
    EnqueueKeeps(t, op, base, botId);
    EnqueueDrains(t, op, botId);
    hide Inv, Drained, ApplyRow;
  }

  lemma ReceiveQueue(s: System)
    ensures Queue(Received(s)) == Queue(s)
  {
    if s.channel != [] {
      PostedAppend([s.channel[0]], s.channel[1..]);
      assert s.channel == [s.channel[0]] + s.channel[1..];
      assert [s.channel[0]][..0] == [];
      assert Posted([s.channel[0]]) == if s.channel[0].Post? then [s.channel[0].op] else [];
    }
  }

  lemma ReceiveKeeps(s: System, base: Database, botId: int)
    requires Inv(s, base, botId)
    ensures Inv(Received(s), base, botId) && Drained(Received(s), botId) == Drained(s, botId)
  {
    ReceiveQueue(s);
    hide Queue, ApplyRows, RowsOf, Inserts, Posted;
  }

  /** A committed batch moves from the queue into the file. */
  lemma {:induction false} CommitMoves(s: System, botId: int)
    ensures var t := s.(file := ApplyAll(s.file, s.pending), pending := [], committed := s.committed + s.pending);
            && Queue(s) == s.pending + Queue(t) && Drained(t, botId) == Drained(s, botId)
            && RowsOf(t.file, botId) == ApplyRows(RowsOf(s.file, botId), s.pending, botId)
            && t.file.inserted == s.file.inserted + Inserts(s.pending)
  {
    ApplyAllByBot(s.file, s.pending, botId);
    ApplyRowsAppend(RowsOf(s.file, botId), s.pending, Posted(s.channel), botId);
    assert [] + Posted(s.channel) == Posted(s.channel);
  }

  /** What a successful flush leaves. */
  function Committed(s: System): System {
    s.(file := ApplyAll(s.file, s.pending), pending := [], failures := 0, flushTimer := None,
       committed := s.committed + s.pending)
  }

  lemma CommitAccounts(s: System, base: Database, inserts: seq<(Table, string)>)
    requires Accounted(s, base) && Queue(s) == s.pending + Queue(Committed(s))
    requires Committed(s).file.inserted == s.file.inserted + inserts
    requires Inserts(s.committed + s.pending) == Inserts(s.committed) + inserts
    ensures Accounted(Committed(s), base)
  {
    hide Queue, Inserts, ApplyAll;
    assert s.committed + (s.pending + Queue(Committed(s))) == s.committed + s.pending + Queue(Committed(s));
    assert base.inserted + Inserts(s.committed) + inserts == base.inserted + (Inserts(s.committed) + inserts);
  }

  lemma {:induction false} CommitKeeps(s: System, base: Database, botId: int)
    requires Inv(s, base, botId) && s.connected
    ensures Inv(Committed(s), base, botId) && Drained(Committed(s), botId) == Drained(s, botId)
    ensures Queue(s) == s.pending + Queue(Committed(s))
    ensures RowsOf(Committed(s).file, botId) == ApplyRows(RowsOf(s.file, botId), s.pending, botId)
  {
    CommitMoves(s, botId);
    SameBooks(s, botId);
    ApplyRowsAppend(RowsOf(base, botId), s.committed, s.pending, botId);
    hide Queue, Posted, ApplyRows, Inserts, ApplyAll, RowsOf, Drained;
    assert Accounted(Committed(s), base) by {
      CommitAccounts(s, base, Inserts(s.pending));
    }
    hide Accounted;
  }

  /** The books do not depend on timers and counters. */
  lemma SameBooks(s: System, botId: int)
    ensures var moved := s.(file := ApplyAll(s.file, s.pending), pending := [], committed := s.committed + s.pending);
            && Queue(Committed(s)) == Queue(moved) && Drained(Committed(s), botId) == Drained(moved, botId)
            && Committed(s).file == moved.file
  {
    hide ApplyRows, ApplyAll, RowsOf;
  }

  lemma FlushKeeps(s: System, failAt: Option<nat>, base: Database, botId: int)
    requires Inv(s, base, botId)
    ensures Inv(Flushed(s, failAt), base, botId) && Drained(Flushed(s, failAt), botId) == Drained(s, botId)
  {
    var t := Flushed(s, failAt);
    if s.connected && s.pending != [] && !Throws(failAt, s.pending) {
      CommitKeeps(s, base, botId);
    } else {
      IdleKeeps(s, t, base, botId);
    }
    hide Inv, Queue, ApplyRows, Drained, ApplyAll;
  }

  /** Only timers and counters moved. */
  lemma IdleKeeps(s: System, t: System, base: Database, botId: int)
    requires Inv(s, base, botId)
    requires t == s.(flushTimer := t.flushTimer, failures := t.failures) && (s.pending != [] ==> t.flushTimer.Some?)
    ensures Inv(t, base, botId) && Drained(t, botId) == Drained(s, botId)
  {
    assert Queue(t) == Queue(s);
    hide Queue, ApplyRows, RowsOf, Inserts, Posted;
  }

  lemma OpenKeeps(s: System, hydrated: int, base: Database, botId: int)
    requires Inv(s, base, botId)
    ensures Inv(CacheFor(s, hydrated), base, botId) && Drained(CacheFor(s, hydrated), botId) == Drained(s, botId)
  {
    MirrorsAreFree(s, CacheFor(s, hydrated), base, botId);
    hide Queue, ApplyRows, Inserts, Posted, Drained;
  }

  /** Deletion is a clear through the bot's mirror, and then forgetting it and its rows. */
  lemma DeletionIsClearThenForget(s: System, gone: int) returns (cleared: System)
    requires CachesOk(s)
    ensures var hydrated := CacheFor(s, gone);
            && gone in hydrated.caches && hydrated.caches[gone] < |hydrated.heap|
            && cleared == Write(hydrated, hydrated.caches[gone], KvClear(gone))
    ensures BotDeleted(s, gone) == cleared.(caches := cleared.caches - {gone}, file := cleared.file.(kv := cleared.file.kv - {gone}))
    ensures Queue(cleared) != [] && Queue(cleared)[|Queue(cleared)| - 1] == KvClear(gone)
  {
    var hydrated := CacheFor(s, gone);
    var c := hydrated.caches[gone];
    cleared := Write(hydrated, c, KvClear(gone));
    EnqueueQueue(hydrated.(heap := cleared.heap), KvClear(gone));
    hide Queue, RowsOf;
  }

  lemma InvKnowsCaches(s: System, base: Database, botId: int)
    requires Inv(s, base, botId)
    ensures CachesOk(s)
  {
  }

  lemma BotDeletedKeeps(s: System, gone: int, base: Database, botId: int)
    requires Inv(s, base, botId)
    ensures Inv(BotDeleted(s, gone), base, botId)
    ensures Drained(BotDeleted(s, gone), botId) == if botId == gone then map[] else Drained(s, botId)
  {
    hide Inv, Drained, CacheFor, Write, BotDeleted, Queue, CachesOk, RowsOf;
    InvKnowsCaches(s, base, botId);
    var cleared := DeletionIsClearThenForget(s, gone);
    OpenKeeps(s, gone, base, botId);
    var hydrated := CacheFor(s, gone);
    WriteKeeps(hydrated, hydrated.caches[gone], KvClear(gone), base, botId);
    ForgetKeeps(cleared, gone, base, botId);
  }

  lemma ForgetKeeps(s: System, gone: int, base: Database, botId: int)
    requires Inv(s, base, botId) && Queue(s) != [] && Queue(s)[|Queue(s)| - 1] == KvClear(gone)
    ensures var t := s.(caches := s.caches - {gone}, file := s.file.(kv := s.file.kv - {gone}));
            Inv(t, base, botId) && Drained(t, botId) == Drained(s, botId)
  {
    var t := s.(caches := s.caches - {gone}, file := s.file.(kv := s.file.kv - {gone}));
    assert Queue(t) == Queue(s);
    if gone != botId {
      assert RowsOf(t.file, botId) == RowsOf(s.file, botId);
    }
    hide Queue, Inserts, Posted, RowsOf;
  }

  lemma StepKeeps(s: System, e: Event, base: Database, botId: int)
    requires Inv(s, base, botId)
    ensures Inv(Step(s, e), base, botId)
  {
    hide Inv, RowsOf, Queue, Drained, CacheFor, Write, BotDeleted, Received, Flushed, Enqueue;
    match e
    case Open(b) => OpenKeeps(s, b, base, botId);
    case Set(c, k, v) => if c < |s.heap| { WriteKeeps(s, c, KvSet(s.heap[c].botId, k, v), base, botId); }
    case Delete(c, k) => if c < |s.heap| { WriteKeeps(s, c, KvDelete(s.heap[c].botId, k), base, botId); }
    case Clear(c) => if c < |s.heap| { WriteKeeps(s, c, KvClear(s.heap[c].botId), base, botId); }
    case Record(t, row) => EnqueueKeeps(s, Insert(t, row), base, botId);
    case DeleteBot(b) => BotDeletedKeeps(s, b, base, botId);
    case Receive => ReceiveKeeps(s, base, botId);
    case TimerFires(failAt) => FlushKeeps(s, failAt, base, botId);
  }

  lemma StartKeeps(base: Database, botId: int)
    ensures Inv(Start(base), base, botId)
  {
  }

  /**
   * Over every interleaving of calls through any instance, deliveries, flushes, failures and deletions: the
   * channel keeps order, nothing is lost or applied twice, and draining the queue gives every bot the rows
   * that applying everything ever issued, in order, would.
   */
  lemma {:induction false} EveryRunIsConsistent(base: Database, events: seq<Event>, botId: int)
    ensures Inv(Run(Start(base), events), base, botId)
  {
    hide Inv, Step;
    StartKeeps(base, botId);
    if events != [] {
      EveryRunIsConsistent(base, events[..|events| - 1], botId);
      StepKeeps(Run(Start(base), events[..|events| - 1]), events[|events| - 1], base, botId);
    }
  }

  /**
   * Once the queue has drained every issued operation was applied once and in order: each bot, deleted or
   * not, has exactly the rows they say, and none when the last of them about it was a clear.
   */
  lemma {:induction false} DrainedMeansConverged(base: Database, events: seq<Event>, botId: int)
    requires Queue(Run(Start(base), events)) == []
    ensures var s := Run(Start(base), events);
            && s.committed == s.issued
            && s.file.inserted == base.inserted + Inserts(s.issued)
            && RowsOf(s.file, botId) == ApplyRows(RowsOf(base, botId), s.issued, botId)
            && (EndsCleared(s.issued, botId) ==> RowsOf(s.file, botId) == map[])
  {
    EveryRunIsConsistent(base, events, botId);
    var s := Run(Start(base), events);
    assert Drained(s, botId) == RowsOf(s.file, botId);
    if EndsCleared(s.issued, botId) {
      ClearedRowsStayEmpty(RowsOf(base, botId), s.issued, botId);
    }
    hide Run, RowsOf, ChannelInOrder, Posted;
  }

  // ----- when the mirror tells the truth -----

  /** What a new instance of the bot reads is what the file will hold. */
  predicate Mirrored(s: System, botId: int) {
    botId in s.caches && s.caches[botId] < |s.heap| ==> s.heap[s.caches[botId]].rows == Drained(s, botId)
  }

  /** The rows the process would answer with. */
  function MirrorOf(s: System, botId: int): Rows {
    if botId in s.caches && s.caches[botId] < |s.heap| then s.heap[s.caches[botId]].rows else map[]
  }

  /** An instance of the bot whose mirror is not the one handed out now. */
  predicate Outdated(s: System, cache: nat, botId: int) {
    cache < |s.heap| && s.heap[cache].botId == botId && botId in s.caches && s.caches[botId] != cache
  }

  /**
   * The event sets mirror and file apart: hydrating while queued writes would still change the bot's rows,
   * or a write through an outdated instance that the current mirror does not already agree with.
   */
  predicate Disturbs(s: System, e: Event, botId: int) {
    match e
    case Open(b) => b == botId && b !in s.caches && Drained(s, b) != RowsOf(s.file, b)
    case Set(c, k, v) => Outdated(s, c, botId) && !(k in MirrorOf(s, botId) && MirrorOf(s, botId)[k] == v)
    case Delete(c, k) => Outdated(s, c, botId) && k in MirrorOf(s, botId)
    case Clear(c) => Outdated(s, c, botId) && MirrorOf(s, botId) != map[]
    case _ => false
  }

  /** A write reaches the queue of its own bot, and the mirror it was made through. */
  lemma WriteMirrors(s: System, cache: nat, op: Operation, base: Database, botId: int)
    requires Inv(s, base, botId) && Mirrored(s, botId) && cache < |s.heap|
    requires Concerns(op, botId) <==> s.heap[cache].botId == botId
    requires !op.Insert? && op.botId == s.heap[cache].botId
    ensures Mirrored(Write(s, cache, op), botId)
            <==> !Outdated(s, cache, botId) || ApplyRow(MirrorOf(s, botId), op, botId) == MirrorOf(s, botId)
  {
    WriteKeeps(s, cache, op, base, botId);
    InvKnowsCaches(s, base, botId);
    hide Inv, Drained;
  }

  lemma SetAgrees(rows: Rows, k: string, v: string)
    ensures rows[k := v] == rows <==> k in rows && rows[k] == v
    ensures rows - {k} == rows <==> k !in rows
  {
    if rows[k := v] == rows {
      assert k in rows[k := v];
    }
    if rows - {k} == rows {
      assert k !in rows - {k};
    }
  }

  lemma OpenMirrors(s: System, hydrated: int, base: Database, botId: int)
    requires Inv(s, base, botId) && Mirrored(s, botId)
    ensures Mirrored(CacheFor(s, hydrated), botId) <==> !Disturbs(s, Open(hydrated), botId)
  {
    OpenKeeps(s, hydrated, base, botId);
    InvKnowsCaches(s, base, botId);
    hide Inv, Drained, RowsOf;
  }

  lemma DeleteMirrors(s: System, gone: int, base: Database, botId: int)
    requires Inv(s, base, botId) && Mirrored(s, botId)
    ensures Mirrored(BotDeleted(s, gone), botId)
  {
    InvKnowsCaches(s, base, botId);
    BotDeletedKeeps(s, gone, base, botId);
    hide Inv, Drained, RowsOf, Enqueue;
    if botId != gone && botId in s.caches {
      MirrorUntouched(s, gone, botId);
    }
  }

  lemma MirrorUntouched(s: System, gone: int, botId: int)
    requires CachesOk(s) && botId != gone && botId in s.caches
    ensures var t := BotDeleted(s, gone);
            botId in t.caches && t.caches[botId] == s.caches[botId] < |t.heap| && t.heap[s.caches[botId]] == s.heap[s.caches[botId]]
  {
    hide RowsOf, ApplyRow;
  }

  lemma SameMirrors(s: System, t: System, botId: int)
    requires Mirrored(s, botId) && t.heap == s.heap && t.caches == s.caches && Drained(t, botId) == Drained(s, botId)
    ensures Mirrored(t, botId)
  {
    hide Drained;
  }

  lemma RestMirrors(s: System, e: Event, base: Database, botId: int)
    requires Inv(s, base, botId) && Mirrored(s, botId)
    requires e.Record? || e.Receive? || e.TimerFires?
    ensures Mirrored(Step(s, e), botId)
  {
    hide Inv, Drained, ApplyAll, Mirrored, Throws, RetryDelay, Queue;
    match e {
      case Record(t, row) => EnqueueDrains(s, Insert(t, row), botId);
      case Receive => ReceiveKeeps(s, base, botId);
      case TimerFires(failAt) => FlushKeeps(s, failAt, base, botId);
    }
    SameMirrors(s, Step(s, e), botId);
  }

  /** One step sets the mirror and the file apart exactly when it disturbs. */
  lemma StepMirrorsExactly(s: System, e: Event, base: Database, botId: int)
    requires Inv(s, base, botId) && Mirrored(s, botId)
    ensures Mirrored(Step(s, e), botId) <==> !Disturbs(s, e, botId)
  {
    hide Inv, Mirrored, RowsOf, Drained, CacheFor, Write, BotDeleted, Received, Flushed, Enqueue, Queue;
    match e
    case Open(b) => OpenMirrors(s, b, base, botId);
    case Set(c, k, v) =>
      if c < |s.heap| {
        WriteMirrors(s, c, KvSet(s.heap[c].botId, k, v), base, botId);
        SetAgrees(MirrorOf(s, botId), k, v);
      }
    case Delete(c, k) =>
      if c < |s.heap| {
        WriteMirrors(s, c, KvDelete(s.heap[c].botId, k), base, botId);
        SetAgrees(MirrorOf(s, botId), k, "");
      }
    case Clear(c) => if c < |s.heap| { WriteMirrors(s, c, KvClear(s.heap[c].botId), base, botId); }
    case DeleteBot(b) => DeleteMirrors(s, b, base, botId);
    case _ => RestMirrors(s, e, base, botId);
  }

  predicate AlwaysMirrored(s: System, events: seq<Event>, botId: int) {
    Mirrored(Run(s, events), botId) && (events == [] || AlwaysMirrored(s, events[..|events| - 1], botId))
  }

  predicate NeverDisturbed(s: System, events: seq<Event>, botId: int) {
    events == []
    || (NeverDisturbed(s, events[..|events| - 1], botId)
        && !Disturbs(Run(s, events[..|events| - 1]), events[|events| - 1], botId))
  }

  lemma StartMirrors(base: Database, botId: int)
    ensures Mirrored(Start(base), botId)
  {
  }

  /** Over a whole run the mirror of a bot is what its file is on the way to, exactly when nothing disturbs it. */
  lemma {:induction false} MirrorHoldsExactly(base: Database, events: seq<Event>, botId: int)
    ensures AlwaysMirrored(Start(base), events, botId) <==> NeverDisturbed(Start(base), events, botId)
  {
    hide Inv, Step, Mirrored, Disturbs;
    StartMirrors(base, botId);
    if events != [] {
      var front := events[..|events| - 1];
      MirrorHoldsExactly(base, front, botId);
      EveryRunIsConsistent(base, front, botId);
      if AlwaysMirrored(Start(base), front, botId) {
        assert Mirrored(Run(Start(base), front), botId);
        StepMirrorsExactly(Run(Start(base), front), events[|events| - 1], base, botId);
      }
    }
  }

  /** A bot that was never deleted has at most the one mirror, hydrated before anything was written for it. */
  ghost predicate Sole(s: System, botId: int) {
    && (botId in s.caches ==> forall c :: 0 <= c < |s.heap| && s.heap[c].botId == botId ==> c == s.caches[botId])
    && (botId !in s.caches ==>
          (forall c :: 0 <= c < |s.heap| ==> s.heap[c].botId != botId) && NoneConcern(s.issued, botId))
  }

  predicate NeverDeleted(events: seq<Event>, botId: int) {
    forall i :: 0 <= i < |events| ==> events[i] != DeleteBot(botId)
  }

  lemma WriteKeepsSole(s: System, cache: nat, op: Operation, botId: int)
    requires Sole(s, botId) && cache < |s.heap| && !op.Insert? && op.botId == s.heap[cache].botId
    ensures Sole(Write(s, cache, op), botId)
  {
    OneMore(map[], s.issued, op, botId);
    hide ApplyRows, ApplyRow, EndsCleared;
  }

  lemma StepKeepsSole(s: System, e: Event, botId: int)
    requires Sole(s, botId) && CachesOk(s) && e != DeleteBot(botId)
    ensures Sole(Step(s, e), botId)
  {
    hide RowsOf, ApplyAll, Queue, NoneConcern;
    match e
    case Set(c, k, v) => if c < |s.heap| { WriteKeepsSole(s, c, KvSet(s.heap[c].botId, k, v), botId); }
    case Delete(c, k) => if c < |s.heap| { WriteKeepsSole(s, c, KvDelete(s.heap[c].botId, k), botId); }
    case Clear(c) => if c < |s.heap| { WriteKeepsSole(s, c, KvClear(s.heap[c].botId), botId); }
    case Record(t, row) => OneMore(map[], s.issued, Insert(t, row), botId);
    case DeleteBot(b) => DeleteKeepsSole(s, b, botId);
    case _ =>
  }

  lemma DeleteKeepsSole(s: System, gone: int, botId: int)
    requires Sole(s, botId) && CachesOk(s) && gone != botId
    ensures Sole(BotDeleted(s, gone), botId)
  {
    var cleared := DeletionIsClearThenForget(s, gone);
    var hydrated := CacheFor(s, gone);
    assert Sole(hydrated, botId);
    WriteKeepsSole(hydrated, hydrated.caches[gone], KvClear(gone), botId);
    hide RowsOf, Queue, Write, NoneConcern, BotDeleted;
  }

  lemma UnqueuedIsDrained(s: System, base: Database, botId: int)
    requires Accounted(s, base) && NoneConcern(s.issued, botId)
    ensures Drained(s, botId) == RowsOf(s.file, botId)
  {
    assert forall i :: 0 <= i < |Queue(s)| ==> Queue(s)[i] == s.issued[|s.committed| + i];
    UnconcernedRows(RowsOf(s.file, botId), Queue(s), botId);
    hide Queue, ApplyRows, RowsOf, Inserts;
  }

  lemma SoleIsUndisturbed(s: System, e: Event, base: Database, botId: int)
    requires Sole(s, botId) && Inv(s, base, botId)
    ensures !Disturbs(s, e, botId)
  {
    if botId !in s.caches {
      UnqueuedIsDrained(s, base, botId);
    }
    hide Inv, NoneConcern, Drained, RowsOf;
  }

  /** A bot nobody deletes is always mirrored; once drained, its file rows are what the mirror answers. */
  lemma {:induction false} UndeletedIsMirrored(base: Database, events: seq<Event>, botId: int)
    requires NeverDeleted(events, botId)
    ensures Sole(Run(Start(base), events), botId) && Mirrored(Run(Start(base), events), botId)
  {
    hide Inv, Step, Mirrored, Disturbs, Sole, CachesOk;
    StartMirrors(base, botId);
    StartIsSole(base, botId);
    if events != [] {
      var front, e := events[..|events| - 1], events[|events| - 1];
      var s := Run(Start(base), front);
      UndeletedIsMirrored(base, front, botId);
      EveryRunIsConsistent(base, front, botId);
      InvKnowsCaches(s, base, botId);
      SoleIsUndisturbed(s, e, base, botId);
      StepMirrorsExactly(s, e, base, botId);
      StepKeepsSole(s, e, botId);
    }
  }

  lemma StartIsSole(base: Database, botId: int)
    ensures Sole(Start(base), botId)
  {
  }

  /** ... and once the queue has drained, the file holds exactly what the mirror answers. */
  lemma {:induction false} UndeletedConverges(base: Database, events: seq<Event>, botId: int)
    requires NeverDeleted(events, botId) && Queue(Run(Start(base), events)) == []
    ensures var s := Run(Start(base), events);
            botId in s.caches ==> RowsOf(s.file, botId) == MirrorOf(s, botId)
  {
    UndeletedIsMirrored(base, events, botId);
    EveryRunIsConsistent(base, events, botId);
    var s := Run(Start(base), events);
    InvKnowsCaches(s, base, botId);
    assert Drained(s, botId) == RowsOf(s.file, botId);
    hide Inv, Run, Sole, Drained, RowsOf, Queue;
  }

  // ----- rows of deleted bots -----

  /** A later operation takes the value back out. */
  predicate Undoes(op: Operation, botId: int, key: string) {
    op == KvClear(botId) || op == KvDelete(botId, key)
  }

  /** The operation at `i` stores a value of this bot that nothing after it takes back out. */
  ghost predicate LeavesAt(ops: seq<Operation>, botId: int, i: nat, key: string) {
    && i < |ops| && ops[i].KvSet? && ops[i].botId == botId && ops[i].key == key
    && forall j :: i < j < |ops| ==> !Undoes(ops[j], botId, key)
  }

  ghost predicate LeavesKey(ops: seq<Operation>, botId: int, key: string) {
    exists i: nat :: LeavesAt(ops, botId, i, key)
  }

  /** The operations store something for the bot that they do not take back out. */
  ghost predicate LeavesRows(ops: seq<Operation>, botId: int) {
    exists key :: LeavesKey(ops, botId, key)
  }

  lemma LeavesSnoc(p: seq<Operation>, op: Operation, botId: int, key: string)
    ensures LeavesKey(p + [op], botId, key)
            <==> (op.KvSet? && op.botId == botId && op.key == key) || (LeavesKey(p, botId, key) && !Undoes(op, botId, key))
  {
    var ops := p + [op];
    if op.KvSet? && op.botId == botId && op.key == key {
      assert LeavesAt(ops, botId, |p|, key);
    } else if LeavesKey(p, botId, key) && !Undoes(op, botId, key) {
      var i: nat :| LeavesAt(p, botId, i, key);
      assert LeavesAt(ops, botId, i, key);
    }
    if LeavesKey(ops, botId, key) {
      var i: nat :| LeavesAt(ops, botId, i, key);
      if i < |p| {
        assert ops[|p|] == op;
        assert forall j :: i < j < |p| ==> ops[j] == p[j];
        assert LeavesAt(p, botId, i, key);
      }
    }
  }

  /** From no rows, a key is present afterwards exactly when it was stored and not taken back out. */
  lemma {:induction false} KeyLeftExactly(ops: seq<Operation>, botId: int, key: string)
    ensures key in ApplyRows(map[], ops, botId) <==> LeavesKey(ops, botId, key)
  {
    if ops != [] {
      var p, op := ops[..|ops| - 1], ops[|ops| - 1];
      KeyLeftExactly(p, botId, key);
      LeavesSnoc(p, op, botId, key);
      assert p + [op] == ops;
      hide LeavesKey;
    }
  }

  lemma {:induction false} RowsLeftExactly(ops: seq<Operation>, botId: int)
    ensures ApplyRows(map[], ops, botId) != map[] <==> LeavesRows(ops, botId)
  {
    var rows := ApplyRows(map[], ops, botId);
    forall key ensures key in rows <==> LeavesKey(ops, botId, key) {
      KeyLeftExactly(ops, botId, key);
    }
    hide ApplyRows, LeavesKey;
    if rows != map[] {
      assert rows.Keys != {};
      var key :| key in rows.Keys;
    }
  }

  /** Only a flush touches the file, short of deleting a bot, which leaves the others' rows alone. */
  lemma OnlyFlushCommits(s: System, e: Event, botId: int)
    requires CachesOk(s) && e != DeleteBot(botId) && !e.TimerFires?
    ensures var t := Step(s, e);
            t.committed == s.committed && s.issued <= t.issued && RowsOf(t.file, botId) == RowsOf(s.file, botId)
  {
    hide Queue, ApplyRow;
    if e.DeleteBot? {
      var cleared := DeletionIsClearThenForget(s, e.botId);
    }
  }

  lemma {:induction false} StepCommits(s: System, e: Event, botId: int)
    requires CachesOk(s) && e != DeleteBot(botId)
    ensures var t := Step(s, e);
            && s.committed <= t.committed && s.issued <= t.issued
            && RowsOf(t.file, botId) == ApplyRows(RowsOf(s.file, botId), t.committed[|s.committed|..], botId)
  {
    var t := Step(s, e);
    ApplyNothing(RowsOf(s.file, botId), botId);
    if e.TimerFires? {
      CommitMoves(s, botId);
      hide Queue, ApplyRows, ApplyAll, RowsOf, RetryDelay, Drained;
      assert t.committed[|s.committed|..] == if t.file == s.file && t.committed == s.committed then [] else s.pending;
    } else {
      OnlyFlushCommits(s, e, botId);
      assert t.committed[|s.committed|..] == [];
    }
    hide Step, ApplyRows, RowsOf;
  }

  /** While a bot is not deleted its rows change by the batches committed, in order, and by nothing else. */
  lemma {:induction false} FileFollowsCommits(s: System, events: seq<Event>, base: Database, botId: int)
    requires Inv(s, base, botId) && NeverDeleted(events, botId)
    ensures var t := Run(s, events);
            && Inv(t, base, botId) && s.committed <= t.committed && s.issued <= t.issued
            && RowsOf(t.file, botId) == ApplyRows(RowsOf(s.file, botId), t.committed[|s.committed|..], botId)
  {
    hide Inv, Step, CachesOk, RowsOf, ApplyRows;
    if events == [] {
      assert s.committed[|s.committed|..] == [];
      ApplyNothing(RowsOf(s.file, botId), botId);
    } else {
      var front, e := events[..|events| - 1], events[|events| - 1];
      FileFollowsCommits(s, front, base, botId);
      var m := Run(s, front);
      InvKnowsCaches(m, base, botId);
      StepKeeps(m, e, base, botId);
      StepCommits(m, e, botId);
      var t := Step(m, e);
      ApplyRowsAppend(RowsOf(s.file, botId), m.committed[|s.committed|..], t.committed[|m.committed|..], botId);
      assert m.committed[|s.committed|..] + t.committed[|m.committed|..] == t.committed[|s.committed|..];
    }
  }

  lemma {:induction false} ApplyNothing(rows: Rows, botId: int)
    ensures ApplyRows(rows, [], botId) == rows
  {
  }

  /**
   * After a bot is deleted its rows are those the batches committed since say.  They are back at any moment
   * exactly when those batches store something they do not take back out; the batches are the writes queued
   * at the deletion, then its clear, then whatever is issued later through an instance still holding on.
   */
  lemma {:induction false} DeletedRowsComeBackExactly(base: Database, before: seq<Event>, botId: int, after: seq<Event>)
    requires NeverDeleted(after, botId)
    ensures var s := Step(Run(Start(base), before), DeleteBot(botId));
            var t := Run(s, after);
            && s.committed <= t.committed && s.issued <= t.issued
            && (RowsOf(t.file, botId) != map[] <==> LeavesRows(t.committed[|s.committed|..], botId))
            && t.committed[|s.committed|..] + Queue(t) == Queue(s) + t.issued[|s.issued|..]
            && Queue(s) != [] && Queue(s)[|Queue(s)| - 1] == KvClear(botId)
  {
    hide *;
    var s := Step(Run(Start(base), before), DeleteBot(botId));
    var t := Run(s, after);
    JustDeleted(base, before, botId);
    FileFollowsCommits(s, after, base, botId);
    InvAccounts(s, base, botId);
    InvAccounts(t, base, botId);
    RowsLeftExactly(t.committed[|s.committed|..], botId);
    SuffixesMatch(s.committed, Queue(s), t.committed, Queue(t), s.issued, t.issued);
  }

  lemma {:induction false} JustDeleted(base: Database, before: seq<Event>, botId: int)
    ensures var s := Step(Run(Start(base), before), DeleteBot(botId));
            && Inv(s, base, botId) && RowsOf(s.file, botId) == map[]
            && Queue(s) != [] && Queue(s)[|Queue(s)| - 1] == KvClear(botId)
  {
    var m := Run(Start(base), before);
    hide Inv, Run, RowsOf, Queue, BotDeleted, CachesOk;
    EveryRunIsConsistent(base, before, botId);
    StepKeeps(m, DeleteBot(botId), base, botId);
    InvKnowsCaches(m, base, botId);
    DeletionEndsCleared(m, botId);
  }

  lemma InvAccounts(s: System, base: Database, botId: int)
    requires Inv(s, base, botId)
    ensures s.issued == s.committed + Queue(s)
  {
  }

  lemma DeletionEndsCleared(s: System, botId: int)
    requires CachesOk(s)
    ensures var t := BotDeleted(s, botId);
            Queue(t) != [] && Queue(t)[|Queue(t)| - 1] == KvClear(botId) && RowsOf(t.file, botId) == map[]
  {
    var cleared := DeletionIsClearThenForget(s, botId);
    assert Queue(BotDeleted(s, botId)) == Queue(cleared);
    hide Posted;
  }

  lemma SuffixesMatch<T>(c0: seq<T>, q0: seq<T>, c1: seq<T>, q1: seq<T>, i0: seq<T>, i1: seq<T>)
    requires i0 == c0 + q0 && i1 == c1 + q1 && c0 <= c1 && i0 <= i1
    ensures c1[|c0|..] + q1 == q0 + i1[|i0|..]
  {
    assert i1[|c0|..] == c1[|c0|..] + q1;
    assert i1[|c0|..] == q0 + i1[|i0|..];
  }

  /**
   * For good: when the queue has drained after a deletion the bot has rows exactly when a write issued after
   * it stored something that no later one takes back out.  Without such a write it has none.
   */
  lemma {:induction false} DeletedForGoodExactly(base: Database, before: seq<Event>, botId: int, after: seq<Event>)
    requires NeverDeleted(after, botId)
    requires Queue(Run(Step(Run(Start(base), before), DeleteBot(botId)), after)) == []
    ensures var s := Step(Run(Start(base), before), DeleteBot(botId));
            var t := Run(s, after);
            && s.issued <= t.issued
            && (RowsOf(t.file, botId) != map[] <==> LeavesRows(t.issued[|s.issued|..], botId))
            && (NoneConcern(t.issued[|s.issued|..], botId) ==> RowsOf(t.file, botId) == map[])
  {
    hide *;
    DeletedRowsComeBackExactly(base, before, botId, after);
    var s := Step(Run(Start(base), before), DeleteBot(botId));
    var t := Run(s, after);
    var later := t.issued[|s.issued|..];
    assert t.committed[|s.committed|..] == Queue(s) + later;
    ClearHidesEarlier(Queue(s), later, botId);
    NoneConcernLeavesNothing(later, botId);
  }

  lemma ClearHidesEarlier(queue: seq<Operation>, later: seq<Operation>, botId: int)
    requires queue != [] && queue[|queue| - 1] == KvClear(botId)
    ensures LeavesRows(queue + later, botId) <==> LeavesRows(later, botId)
  {
    RowsLeftExactly(queue + later, botId);
    RowsLeftExactly(later, botId);
    ApplyRowsAppend(map[], queue, later, botId);
    assert ApplyRows(map[], queue, botId) == map[];
    hide ApplyRows, LeavesRows;
  }

  lemma NoneConcernLeavesNothing(ops: seq<Operation>, botId: int)
    ensures NoneConcern(ops, botId) ==> !LeavesRows(ops, botId)
  {
  }

  lemma {:induction false} RunOneMore(s: System, events: seq<Event>, e: Event)
    ensures Run(s, events + [e]) == Step(Run(s, events), e)
  {
    assert (events + [e])[..|events|] == events;
  }

  lemma {:induction false} FourSteps(s: System, a: Event, b: Event, c: Event, d: Event)
    ensures Run(s, [a, b, c, d]) == Step(Step(Step(Step(s, a), b), c), d)
  {
    hide Step;
    RunOneMore(s, [], a);
    RunOneMore(s, [a], b);
    RunOneMore(s, [a, b], c);
    RunOneMore(s, [a, b, c], d);
    assert [] + [a] == [a] && [a] + [b] == [a, b] && [a, b] + [c] == [a, b, c] && [a, b, c] + [d] == [a, b, c, d];
  }

  /** A bot deleted while one of its instances is still held: the worker has received its clear. */
  const DELETED := System(Database(map[], []), true, [KvClear(1)], Some(FLUSH_DELAY_MS), 0, [], true,
                          [Cache(1, map[])], map[], [KvClear(1)], [])

  lemma DeletedIsReachable()
    ensures Run(Start(Database(map[], [])), [Open(1), DeleteBot(1), Receive, Receive]) == DELETED
  {
    var s0 := Start(Database(map[], []));
    FourSteps(s0, Open(1), DeleteBot(1), Receive, Receive);
    var s2 := Step(Step(s0, Open(1)), DeleteBot(1));
    assert s2.channel == [Init, Post(KvClear(1))] && s2.issued == [KvClear(1)];
    assert s2.heap == [Cache(1, map[])] && s2.caches == map[] && s2.file == s0.file;
    var s4 := Step(Step(s2, Receive), Receive);
    assert s4.channel == [] && s4.pending == [KvClear(1)];
  }

  /** A token stored through the held instance is flushed behind the clear and stays. */
  lemma HeldInstanceOutlivesDeletion()
    ensures var s := Step(Step(Step(DELETED, Set(0, "authToken", "t")), Receive), TimerFires(None));
            Queue(s) == [] && RowsOf(s.file, 1) == map["authToken" := "t"]
  {
    var s1 := Step(DELETED, Set(0, "authToken", "t"));
    assert s1.channel == [Post(KvSet(1, "authToken", "t"))];
    var s2 := Step(s1, Receive);
    assert s2.pending == [KvClear(1), KvSet(1, "authToken", "t")] && s2.channel == [];
    var s3 := Step(s2, TimerFires(None));
    assert s2.pending[..1] == [KvClear(1)] && s2.pending[..1][..0] == [];
    assert ApplyAll(s2.file, s2.pending[..1]) == Apply(s2.file, KvClear(1));
    assert s3.file == Apply(Apply(s2.file, KvClear(1)), KvSet(1, "authToken", "t"));
  }

  /** A write in the worker's queue, its bot still open. */
  const QUEUED := System(Database(map[], []), true, [KvSet(1, "k", "v")], Some(FLUSH_DELAY_MS), 0, [], true,
                         [Cache(1, map["k" := "v"])], map[1 := 0], [KvSet(1, "k", "v")], [])

  lemma QueuedIsReachable()
    ensures Run(Start(Database(map[], [])), [Open(1), Set(0, "k", "v"), Receive, Receive]) == QUEUED
  {
    var s0 := Start(Database(map[], []));
    FourSteps(s0, Open(1), Set(0, "k", "v"), Receive, Receive);
    var s2 := Step(Step(s0, Open(1)), Set(0, "k", "v"));
    assert s2.channel == [Init, Post(KvSet(1, "k", "v"))];
    assert s2.heap == [Cache(1, map["k" := "v"])] && s2.caches == map[1 := 0];
    var s4 := Step(Step(s2, Receive), Receive);
    assert s4.channel == [] && s4.pending == [KvSet(1, "k", "v")];
  }

  /** Flushed after its bot was deleted, the write brings a row back, until the clear is flushed too. */
  lemma QueuedWriteComesBack()
    ensures var s := Step(Step(QUEUED, DeleteBot(1)), TimerFires(None));
            RowsOf(s.file, 1) == map["k" := "v"] && Queue(s) == [KvClear(1)]
  {
    var gone := Step(QUEUED, DeleteBot(1));
    assert gone.channel == [Post(KvClear(1))] && gone.pending == [KvSet(1, "k", "v")];
    assert gone.pending[..0] == [] && ApplyAll(gone.file, gone.pending) == Apply(gone.file, KvSet(1, "k", "v"));
  }

  /** Flush attempts that all fail. */
  function Failures(failAt: seq<nat>): seq<Event> {
    if failAt == [] then [] else Failures(failAt[..|failAt| - 1]) + [TimerFires(Some(failAt[|failAt| - 1]))]
  }

  /**
   * Any number of failed flushes leaves the file and the pending batch as they were, counts
   * every failure into the next delay, and the first success then commits the whole batch.
   */
  lemma {:induction false} FailedFlushesAreRetried(s: System, failAt: seq<nat>)
    requires s.connected && s.pending != [] && s.flushTimer.Some?
    requires forall i :: 0 <= i < |failAt| ==> failAt[i] <= |s.pending|
    ensures var t := Run(s, Failures(failAt));
            && t == s.(failures := s.failures + |failAt|, flushTimer := t.flushTimer)
            && t.flushTimer.Some?
            && (failAt != [] ==> t.flushTimer == Some(RetryDelay(s.failures + |failAt|)))
            && Step(t, TimerFires(None)).file == ApplyAll(s.file, s.pending)
            && Step(t, TimerFires(None)).pending == []
  {
    if failAt != [] {
      var front := failAt[..|failAt| - 1];
      FailedFlushesAreRetried(s, front);
      var events := Failures(failAt);
      assert events[..|events| - 1] == Failures(front) && events[|events| - 1] == TimerFires(Some(failAt[|front|]));
    }
  }

  // ----- what each step does -----

  /** The operation sets, deletes or clears this value. */
  predicate Touches(op: Operation, botId: int, key: string) {
    op == KvClear(botId) || op == KvDelete(botId, key) || (op.KvSet? && op.botId == botId && op.key == key)
  }

  /** A value is what the last operation on it made of it, and what it was before if none touched it. */
  lemma {:induction false} LastTouchDecides(rows: Rows, ops: seq<Operation>, botId: int, key: string, i: nat)
    requires i <= |ops| && forall j :: i <= j < |ops| ==> !Touches(ops[j], botId, key)
    requires i > 0 ==> Touches(ops[i - 1], botId, key)
    ensures var after := ApplyRows(rows, ops, botId);
            if i == 0 then (key in after <==> key in rows) && (key in rows ==> after[key] == rows[key])
            else (key in after <==> ops[i - 1].KvSet?) && (key in after ==> after[key] == ops[i - 1].valueJson)
  {
    if i < |ops| {
      var front := ops[..|ops| - 1];
      assert !Touches(ops[|ops| - 1], botId, key);
      LastTouchDecides(rows, front, botId, key, i);
    }
  }

  /** What each call puts on the queue, and what its own instance answers from then on. */
  lemma CallsExactly(s: System, e: Event)
    requires e.Set? || e.Delete? || e.Clear? || e.Record?
    ensures var t := Step(s, e);
            if e.Record? then t.issued == s.issued + [Insert(e.table, e.row)] && t.heap == s.heap
            else if e.cache >= |s.heap| then t == s
            else
              var c := s.heap[e.cache];
              && t.heap == s.heap[e.cache := Cache(c.botId, if e.Set? then c.rows[e.key := e.valueJson]
                                                            else if e.Delete? then c.rows - {e.key} else map[])]
              && t.issued == s.issued + [if e.Set? then KvSet(c.botId, e.key, e.valueJson)
                                         else if e.Delete? then KvDelete(c.botId, e.key) else KvClear(c.botId)]
    ensures var t := Step(s, e);
            t.file == s.file && t.caches == s.caches && t.pending == s.pending && t.flushTimer == s.flushTimer && t.failures == s.failures
  {
  }

  /** Opening an instance reads the file only the first time; deleting a bot clears, forgets and empties. */
  lemma InstancesExactly(s: System, botId: int)
    requires CachesOk(s)
    ensures var t := Step(s, Open(botId));
            && botId in t.caches && t.caches[botId] < |t.heap| && t.issued == s.issued && t.file == s.file
            && (if botId in s.caches then t == s
                else t.heap == s.heap + [Cache(botId, RowsOf(s.file, botId))] && t.caches == s.caches[botId := |s.heap|])
    ensures var t := Step(s, DeleteBot(botId));
            && botId !in t.caches && t.issued == s.issued + [KvClear(botId)] && RowsOf(t.file, botId) == map[]
            && t.caches == s.caches - {botId} && |s.heap| <= |t.heap|
            && (forall c :: 0 <= c < |s.heap| ==>
                  t.heap[c] == if botId in s.caches && s.caches[botId] == c then Cache(botId, map[]) else s.heap[c])
  {
  }

  /** Receiving an operation starts the timer only if none runs; the first message opens the database. */
  lemma ReceiveExactly(s: System)
    requires s.channel != []
    ensures var t := Step(s, Receive);
            && t.channel == s.channel[1..] && t.file == s.file && t.failures == s.failures && t.committed == s.committed
            && match s.channel[0]
               case Init => t.connected && t.pending == s.pending && t.flushTimer == s.flushTimer
               case Post(op) =>
                 && t.connected == s.connected && t.pending == s.pending + [op]
                 && t.flushTimer == if s.flushTimer == None then Some(10) else s.flushTimer
  {
  }

  /**
   * A flush happens only when its timer fires.  With nothing queued it just ends; a failing one keeps file
   * and batch, counts one more failure and comes back after the delay that calls for; any other commits the
   * whole batch in order, and the failures are forgotten.
   */
  lemma {:induction false} FlushExactly(s: System, failAt: Option<nat>, botId: int)
    requires ChannelInOrder(s)
    ensures var t := Step(s, TimerFires(failAt));
            && t.channel == s.channel && t.heap == s.heap && t.caches == s.caches && t.issued == s.issued
            && (if s.flushTimer == None then t == s
                else if s.pending == [] then t == s.(flushTimer := None)
                else if failAt.Some? && failAt.value <= |s.pending| then
                  && t.file == s.file && t.pending == s.pending && t.committed == s.committed
                  && t.failures == s.failures + 1 && t.flushTimer == Some(RetryDelay(s.failures + 1))
                else
                  && t.pending == [] && t.committed == s.committed + s.pending
                  && t.failures == 0 && t.flushTimer == None
                  && RowsOf(t.file, botId) == ApplyRows(RowsOf(s.file, botId), s.pending, botId)
                  && t.file.inserted == s.file.inserted + Inserts(s.pending))
  {
    ApplyAllByBot(s.file, s.pending, botId);
    hide ApplyAll, ApplyRows, RetryDelay, Inserts, RowsOf;
  }

  // ----- the programs -----

  class Storage {
    var file: Database
    var connected: bool
    var pending: seq<Operation>
    var flushTimer: Option<nat>
    var consecutiveFailures: nat
    var channel: seq<Message>
    var started: bool
    var heap: seq<Cache>
    var caches: map<int, nat>
    ghost var issued: seq<Operation>
    ghost var committed: seq<Operation>

    ghost function State(): System
      reads this
    {
      System(file, connected, pending, flushTimer, consecutiveFailures, channel, started, heap, caches, issued, committed)
    }

    constructor (file: Database)
      ensures State() == Start(file)
    {
      this.file, connected, pending, flushTimer, consecutiveFailures := file, false, [], None, 0;
      channel, started, heap, caches := [], false, [], map[];
      issued, committed := [], [];
    }

    method EnqueueWrite(op: Operation)
      modifies this
      ensures State() == Enqueue(old(State()), op)
    {
      if !started {
        channel := channel + [Init];
        started := true;
      }
      channel := channel + [Post(op)];
      issued := issued + [op];
      assert old(channel) + [] == old(channel);
    }

    /** The mirror a new instance of the bot is opened on. */
    method OpenStorage(botId: int) returns (cache: nat)
      requires CachesOk(State())
      modifies this
      ensures State() == CacheFor(old(State()), botId) && CachesOk(State())
      ensures cache < |heap| && caches[botId] == cache
    {
      if botId in caches {
        return caches[botId];
      }
      cache := |heap|;
      heap := heap + [Cache(botId, if botId in file.kv then file.kv[botId] else map[])];
      caches := caches[botId := cache];
    }

    /** Through any instance ever opened, outdated or not. */
    method SetValue(cache: nat, key: string, valueJson: string)
      requires cache < |heap|
      modifies this
      ensures State() == Step(old(State()), Set(cache, key, valueJson))
    {
      var c := heap[cache];
      heap := heap[cache := c.(rows := c.rows[key := valueJson])];
      EnqueueWrite(KvSet(c.botId, key, valueJson));
    }

    method GetValue(cache: nat, key: string) returns (v: Option<string>)
      requires cache < |heap|
      ensures v == if key in heap[cache].rows then Some(heap[cache].rows[key]) else None
    {
      v := if key in heap[cache].rows then Some(heap[cache].rows[key]) else None;
    }

    method DeleteValue(cache: nat, key: string)
      requires cache < |heap|
      modifies this
      ensures State() == Step(old(State()), Delete(cache, key))
    {
      var c := heap[cache];
      heap := heap[cache := c.(rows := c.rows - {key})];
      EnqueueWrite(KvDelete(c.botId, key));
    }

    method ClearValues(cache: nat)
      requires cache < |heap|
      modifies this
      ensures State() == Step(old(State()), Clear(cache))
    {
      var c := heap[cache];
      heap := heap[cache := c.(rows := map[])];
      EnqueueWrite(KvClear(c.botId));
    }

    method DeleteBotSession(botId: int)
      requires CachesOk(State())
      modifies this
      ensures State() == Step(old(State()), DeleteBot(botId))
    {
      ghost var cleared := DeletionIsClearThenForget(State(), botId);
      hide Enqueue, CacheFor, BotDeleted, Queue;
      var cache := OpenStorage(botId);
      assert heap[cache].botId == botId;
      ClearValues(cache);
      assert State() == cleared;
      caches := caches - {botId};
      file := file.(kv := file.kv - {botId});
    }

    method OnMessage()
      requires channel != []
      modifies this
      ensures State() == Step(old(State()), Receive)
    {
      var message := channel[0];
      channel := channel[1..];
      match message
      case Init => connected := true;
      case Post(op) =>
        pending := pending + [op];
        if flushTimer.None? {
          flushTimer := Some(FLUSH_DELAY_MS);
        }
    }

    /** The batch runs inside a transaction: a throw at any statement, or at commit, rolls it back. */
    method Flush(failAt: Option<nat>)
      requires flushTimer.Some?
      modifies this
      ensures State() == Step(old(State()), TimerFires(failAt))
    {
      hide ApplyAll, Throws, RetryDelay;
      flushTimer := None;
      if !connected || |pending| == 0 {
        return;
      }
      var batch := pending;
      pending := [];
      var result := RunTransaction(file, batch, failAt);
      if result.None? {
        pending := batch + pending;
        consecutiveFailures := consecutiveFailures + 1;
        flushTimer := Some(RetryDelay(consecutiveFailures));
      } else {
        file := result.value;
        consecutiveFailures := 0;
        committed := committed + batch;
      }
    }

    /** Applies a batch statement by statement; `None` is a rollback. */
    static method RunTransaction(file: Database, batch: seq<Operation>, failAt: Option<nat>)
      returns (result: Option<Database>)
      ensures result == if Throws(failAt, batch) then None else Some(ApplyAll(file, batch))
    {
      var work := file;
      for i := 0 to |batch|
        invariant work == ApplyAll(file, batch[..i])
        invariant failAt.Some? ==> i <= failAt.value
      {
        if failAt == Some(i) {
          return None;
        }
        assert batch[..i + 1][..i] == batch[..i];
        work := Apply(work, batch[i]);
      }
      assert batch[..|batch|] == batch;
      result := if failAt == Some(|batch|) then None else Some(work);
    }
  }
}
