/**
 * Claims that make each answer happen once: bounded tables whose insertion order is the
 * eviction queue, keyed by message identity, forgotten when the claiming bot stops.
 */
module ReplyGuard {
  import opened Prelude

  datatype Claim<+K> = Claim(key: K, botId: int, claimedAt: int)

  /** A JavaScript `Map` as its entries in insertion order. */
  type Table<K> = seq<Claim<K>>

  datatype Limits = Limits(ttlMs: int, maxClaims: int)

  function IndexOf<K(==)>(t: Table<K>, k: K): (i: int)
    ensures -1 <= i < |t|
    ensures i >= 0 ==> t[i].key == k && forall j :: 0 <= j < i ==> t[j].key != k
    ensures i == -1 ==> forall j :: 0 <= j < |t| ==> t[j].key != k
  {
    if t == [] then -1
    else if t[0].key == k then 0
    else
      var r := IndexOf(t[1..], k);
      if r == -1 then -1 else r + 1
  }

  predicate IsLive<K(==)>(t: Table<K>, k: K, now: int, limits: Limits) {
    IndexOf(t, k) >= 0 && now - t[IndexOf(t, k)].claimedAt < limits.ttlMs
  }

  /** `map.delete(k)`. */
  function Deleted<K(==)>(t: Table<K>, k: K): Table<K> {
    var i := IndexOf(t, k);
    if i >= 0 then t[..i] + t[i + 1..] else t
  }

  /** `evictOneAtCapacity`. */
  function Evicted<K>(t: Table<K>, limits: Limits): Table<K> {
    if |t| < limits.maxClaims || t == [] then t else t[1..]
  }

  function Claimed<K(==)>(t: Table<K>, k: K, botId: int, now: int, limits: Limits): Table<K> {
    if IsLive(t, k, now, limits) then t
    else Evicted(Deleted(t, k), limits) + [Claim(k, botId, now)]
  }

  /** What survives `clearBotClaims(botId)`. */
  function Cleared<K>(t: Table<K>, botId: int): Table<K> {
    if t == [] then []
    else if t[0].botId == botId then Cleared(t[1..], botId)
    else [t[0]] + Cleared(t[1..], botId)
  }

  // ----- runs of one table -----

  datatype Op<+K> = Try(key: K, botId: int, now: int) | Forget(botId: int)

  function Step<K(==)>(t: Table<K>, op: Op<K>, limits: Limits): Table<K> {
    match op
    case Try(k, b, now) => Claimed(t, k, b, now, limits)
    case Forget(b) => Cleared(t, b)
  }

  predicate Succeeds<K(==)>(t: Table<K>, op: Op<K>, limits: Limits) {
    op.Try? && !IsLive(t, op.key, op.now, limits)
  }

  function Run<K(==)>(t: Table<K>, ops: seq<Op<K>>, limits: Limits): Table<K> {
    if ops == [] then t else Step(Run(t, ops[..|ops| - 1], limits), ops[|ops| - 1], limits)
  }

  /** The keys that were successfully claimed during a run. */
  function Won<K(==)>(t: Table<K>, ops: seq<Op<K>>, limits: Limits): set<K> {
    if ops == [] then {}
    else
      var front, last := ops[..|ops| - 1], ops[|ops| - 1];
      Won(t, front, limits) + if Succeeds(Run(t, front, limits), last, limits) then {last.key} else {}
  }

  ghost predicate UniqueKeys<K>(t: Table<K>) {
    forall i, j :: 0 <= i < j < |t| ==> t[i].key != t[j].key
  }

  lemma DeletedFacts<K>(t: Table<K>, k: K)
    requires UniqueKeys(t)
    ensures UniqueKeys(Deleted(t, k))
    ensures forall j :: 0 <= j < |Deleted(t, k)| ==> Deleted(t, k)[j].key != k
    ensures |Deleted(t, k)| <= |t|
  {
  }

  lemma {:induction false} ClearedFacts<K>(t: Table<K>, botId: int)
    ensures |Cleared(t, botId)| <= |t|
    ensures forall j :: 0 <= j < |Cleared(t, botId)| ==> exists i :: 0 <= i < |t| && t[i] == Cleared(t, botId)[j]
    ensures forall j :: 0 <= j < |Cleared(t, botId)| ==> Cleared(t, botId)[j].botId != botId
    ensures UniqueKeys(t) ==> UniqueKeys(Cleared(t, botId))
  {
    if t != [] {
      ClearedFacts(t[1..], botId);
      var rest := Cleared(t[1..], botId);
      forall j | 0 <= j < |Cleared(t, botId)| ensures exists i :: 0 <= i < |t| && t[i] == Cleared(t, botId)[j] {
        if t[0].botId != botId && j == 0 {
          assert t[0] == Cleared(t, botId)[0];
        } else {
          var i :| 0 <= i < |t[1..]| && t[1..][i] == rest[if t[0].botId == botId then j else j - 1];
          assert t[i + 1] == Cleared(t, botId)[j];
        }
      }
    }
  }

  lemma {:induction false} ClearedAppend<K>(a: Table<K>, b: Table<K>, botId: int)
    ensures Cleared(a + b, botId) == Cleared(a, botId) + Cleared(b, botId)
  {
    if a == [] {
      assert a + b == b;
    } else {
      assert (a + b)[1..] == a[1..] + b;
      ClearedAppend(a[1..], b, botId);
    }
  }

  lemma StepKeepsUnique<K>(t: Table<K>, op: Op<K>, limits: Limits)
    requires UniqueKeys(t)
    ensures UniqueKeys(Step(t, op, limits))
  {
    if op.Forget? {
      ClearedFacts(t, op.botId);
    } else {
      DeletedFacts(t, op.key);
    }
  }

  /** Keys stay unique and a table never grows past its capacity, in any run whatsoever. */
  lemma {:induction false} TableStaysBounded<K>(ops: seq<Op<K>>, limits: Limits)
    ensures UniqueKeys(Run([], ops, limits))
    ensures |Run([], ops, limits)| <= Max(1, limits.maxClaims)
  {
    if ops != [] {
      var before, op := Run([], ops[..|ops| - 1], limits), ops[|ops| - 1];
      TableStaysBounded(ops[..|ops| - 1], limits);
      StepKeepsUnique(before, op, limits);
      if op.Forget? {
        ClearedFacts(before, op.botId);
      } else {
        DeletedFacts(before, op.key);
      }
    }
  }

  /** `c` sits at `i`, and everything queued behind it was won since. */
  ghost predicate RemembersAt<K>(t: Table<K>, c: Claim<K>, won: set<K>, i: int) {
    0 <= i < |t| && t[i] == c && forall j :: i < j < |t| ==> t[j].key in won && t[j].key != c.key
  }

  ghost predicate Remembers<K>(t: Table<K>, c: Claim<K>, won: set<K>) {
    exists i :: RemembersAt(t, c, won, i)
  }

  lemma RememberedIsLive<K>(t: Table<K>, c: Claim<K>, won: set<K>, now: int, limits: Limits)
    requires UniqueKeys(t) && Remembers(t, c, won) && now - c.claimedAt < limits.ttlMs
    ensures IsLive(t, c.key, now, limits)
  {
    var i :| RemembersAt(t, c, won, i);
    assert IndexOf(t, c.key) == i;
  }

  /** The keys of a duplicate-free stretch are as many as its entries. */
  lemma {:induction false} DistinctKeysFill<K>(t: Table<K>, from_: nat, won: set<K>)
    requires UniqueKeys(t) && from_ <= |t|
    requires forall j :: from_ <= j < |t| ==> t[j].key in won
    ensures |won| >= |t| - from_
    decreases |t| - from_
  {
    if from_ < |t| {
      DistinctKeysFill(t, from_ + 1, won - {t[from_].key});
    }
  }

  lemma DeleteRemembers<K>(t: Table<K>, c: Claim<K>, won: set<K>, i: int, k: K) returns (p: int)
    requires RemembersAt(t, c, won, i) && k != c.key
    ensures RemembersAt(Deleted(t, k), c, won, p)
  {
    var d := IndexOf(t, k);
    p := if 0 <= d < i then i - 1 else i;
  }

  /** A success on another key either leaves `c` in place or shows the table was full of newer keys. */
  lemma AnotherKeyWins<K>(t: Table<K>, c: Claim<K>, won: set<K>, op: Op<K>, limits: Limits)
    requires UniqueKeys(t) && Remembers(t, c, won)
    requires Succeeds(t, op, limits) && op.key != c.key
    ensures Remembers(Step(t, op, limits), c, won + {op.key}) || |won + {op.key}| >= limits.maxClaims
  {
    var i :| RemembersAt(t, c, won, i);
    var p := DeleteRemembers(t, c, won, i, op.key);
    DeletedFacts(t, op.key);
    var d, next := Deleted(t, op.key), Claim(op.key, op.botId, op.now);
    hide Deleted, UniqueKeys;
    if |d| < limits.maxClaims {
      assert RemembersAt(d + [next], c, won + {op.key}, p);
    } else if p > 0 {
      assert RemembersAt(d[1..] + [next], c, won + {op.key}, p - 1);
    } else {
      DistinctKeysFill(d, 1, won - {op.key});
      assert won + {op.key} == (won - {op.key}) + {op.key};
    }
  }

  lemma {:induction false} AnotherBotForgets<K>(t: Table<K>, c: Claim<K>, won: set<K>, botId: int)
    requires Remembers(t, c, won) && botId != c.botId
    ensures Remembers(Cleared(t, botId), c, won)
  {
    var i :| RemembersAt(t, c, won, i);
    var older, newer := t[..i], t[i + 1..];
    assert t == older + ([c] + newer);
    ClearedAppend(older, [c] + newer, botId);
    ClearedAppend([c], newer, botId);
    assert Cleared([c], botId) == [c];
    ClearedFacts(newer, botId);
    var kept := Cleared(newer, botId);
    forall j | 0 <= j < |kept| ensures kept[j].key in won && kept[j].key != c.key {
      var m :| 0 <= m < |newer| && newer[m] == kept[j];
      assert newer[m] == t[i + 1 + m];
    }
    hide Cleared;
    assert RemembersAt(Cleared(older, botId) + ([c] + kept), c, won, |Cleared(older, botId)|);
  }

  ghost predicate NeverForgets<K>(ops: seq<Op<K>>, botId: int) {
    forall i :: 0 <= i < |ops| ==> !(ops[i].Forget? && ops[i].botId == botId)
  }

  ghost predicate AllBy<K>(ops: seq<Op<K>>, now: int) {
    forall i :: 0 <= i < |ops| && ops[i].Try? ==> ops[i].now <= now
  }

  /**
   * After a claim, and until its TTL is over, any run that never clears its bot either still
   * holds the claim or has won at least a full table of other keys.
   */
  lemma {:induction false} ClaimIsRemembered<K>(t: Table<K>, c: Claim<K>, ops: seq<Op<K>>, limits: Limits)
    requires UniqueKeys(t) && Remembers(t, c, {})
    requires NeverForgets(ops, c.botId) && AllBy(ops, c.claimedAt + limits.ttlMs - 1)
    ensures UniqueKeys(Run(t, ops, limits))
    ensures || Remembers(Run(t, ops, limits), c, Won(t, ops, limits) - {c.key})
            || |Won(t, ops, limits) - {c.key}| >= limits.maxClaims
  {
    if ops == [] {
      assert Won(t, ops, limits) - {c.key} == {};
    } else {
      var front, op := ops[..|ops| - 1], ops[|ops| - 1];
      ClaimIsRemembered(t, c, front, limits);
      var before, won := Run(t, front, limits), Won(t, front, limits) - {c.key};
      StepKeepsUnique(before, op, limits);
      if !Remembers(before, c, won) {
        assert won <= Won(t, ops, limits) - {c.key};
        SubsetSize(won, Won(t, ops, limits) - {c.key});
      } else if op.Forget? {
        AnotherBotForgets(before, c, won, op.botId);
        assert Won(t, ops, limits) - {c.key} == won;
      } else if Succeeds(before, op, limits) {
        if op.key == c.key {
          RememberedIsLive(before, c, won, op.now, limits);
        }
        AnotherKeyWins(before, c, won, op, limits);
        assert Won(t, ops, limits) - {c.key} == won + {op.key};
      } else {
        assert Won(t, ops, limits) - {c.key} == won;
      }
    }
  }

  lemma FreshClaimRemembered<K>(t: Table<K>, op: Op<K>, limits: Limits)
    requires UniqueKeys(t) && Succeeds(t, op, limits)
    ensures UniqueKeys(Step(t, op, limits))
    ensures Remembers(Step(t, op, limits), Claim(op.key, op.botId, op.now), {})
  {
    StepKeepsUnique(t, op, limits);
    var r := Step(t, op, limits);
    assert RemembersAt(r, Claim(op.key, op.botId, op.now), {}, |r| - 1);
  }

  /**
   * Main result.  Two successful claims of one key less than a TTL apart, with no clear of the
   * first claimer's bot between, mean at least `maxClaims` distinct other keys won in between.
   */
  lemma {:induction false} OneClaimPerTtl<K>(before: seq<Op<K>>, first: Op<K>, between: seq<Op<K>>, second: Op<K>, limits: Limits)
    requires Succeeds(Run([], before, limits), first, limits)
    requires var t := Step(Run([], before, limits), first, limits);
             Succeeds(Run(t, between, limits), second, limits)
    requires second.key == first.key && second.now - first.now < limits.ttlMs
    requires AllBy(between, second.now) && NeverForgets(between, first.botId)
    ensures var t := Step(Run([], before, limits), first, limits);
            |Won(t, between, limits) - {first.key}| >= limits.maxClaims
  {
    TableStaysBounded(before, limits);
    var t := Step(Run([], before, limits), first, limits);
    var c := Claim(first.key, first.botId, first.now);
    FreshClaimRemembered(Run([], before, limits), first, limits);
    ClaimIsRemembered(t, c, between, limits);
    var won := Won(t, between, limits) - {c.key};
    if Remembers(Run(t, between, limits), c, won) {
      RememberedIsLive(Run(t, between, limits), c, won, second.now, limits);
    }
  }

  lemma {:induction false} RunAppend<K>(t: Table<K>, a: seq<Op<K>>, b: seq<Op<K>>, limits: Limits)
    ensures Run(t, a + b, limits) == Run(Run(t, a, limits), b, limits)
  {
    if b == [] {
      assert a + b == a;
    } else {
      assert (a + b)[..|a + b| - 1] == a + b[..|b| - 1];
      RunAppend(t, a, b[..|b| - 1], limits);
    }
  }

  /** A history cut around one operation. */
  lemma {:induction false} SplitHistory<K>(ops: seq<Op<K>>, a: nat, b: nat, limits: Limits)
    requires a < b <= |ops|
    ensures Run([], ops[..a + 1], limits) == Step(Run([], ops[..a], limits), ops[a], limits)
    ensures Run([], ops[..b], limits) == Run(Run([], ops[..a + 1], limits), ops[a + 1..b], limits)
  {
    assert ops[..a + 1][..a] == ops[..a];
    assert ops[..b] == ops[..a + 1] + ops[a + 1..b];
    RunAppend([], ops[..a + 1], ops[a + 1..b], limits);
  }

  lemma RefusedChangesNothing<K>(t: Table<K>, op: Op<K>, limits: Limits)
    requires op.Try? && !Succeeds(t, op, limits)
    ensures Step(t, op, limits) == t
  {
  }

  // ----- the module's three tables -----

  datatype IncomingKey = IncomingKey(botId: int, surface: string, messageId: string)

  /** Bots of one user share a key; a bot without an owner answers to nobody but itself. */
  datatype OwnerKey = User(userId: int) | Alone(botId: int)

  datatype RoomKey = RoomKey(ownerKey: OwnerKey, chatMid: string, messageId: string)
  datatype ReplyKey = ReplyKey(botId: int, chatMid: string, ruleId: int, messageId: string)

  datatype Tables = Tables(claims: Table<ReplyKey>, seenIncoming: Table<IncomingKey>, roomAnswers: Table<RoomKey>)

  class Guard {
    const limits: Limits
    var claims: Table<ReplyKey>
    var seenIncoming: Table<IncomingKey>
    var roomAnswers: Table<RoomKey>

    function State(): Tables
      reads this
    {
      Tables(claims, seenIncoming, roomAnswers)
    }

    constructor (limits: Limits)
      ensures this.limits == limits && State() == Tables([], [], [])
    {
      this.limits := limits;
      claims, seenIncoming, roomAnswers := [], [], [];
    }

    method ClaimIncomingMessage(botId: int, surface: string, messageId: string, now: int) returns (won: bool)
      modifies this`seenIncoming
      ensures var op := Try(IncomingKey(botId, surface, messageId), botId, now);
              && won == Succeeds(old(seenIncoming), op, limits)
              && seenIncoming == Step(old(seenIncoming), op, limits)
    {
      won, seenIncoming := ClaimIn(seenIncoming, IncomingKey(botId, surface, messageId), botId, now);
    }

    method ClaimRoomAnswer(ownerKey: OwnerKey, botId: int, chatMid: string, messageId: string, now: int)
      returns (won: bool)
      modifies this`roomAnswers
      ensures var op := Try(RoomKey(ownerKey, chatMid, messageId), botId, now);
              && won == Succeeds(old(roomAnswers), op, limits)
              && roomAnswers == Step(old(roomAnswers), op, limits)
    {
      won, roomAnswers := ClaimIn(roomAnswers, RoomKey(ownerKey, chatMid, messageId), botId, now);
    }

    method ClaimReply(botId: int, chatMid: string, ruleId: int, messageId: string, now: int) returns (won: bool)
      modifies this`claims
      ensures var op := Try(ReplyKey(botId, chatMid, ruleId, messageId), botId, now);
              && won == Succeeds(old(claims), op, limits)
              && claims == Step(old(claims), op, limits)
    {
      won, claims := ClaimIn(claims, ReplyKey(botId, chatMid, ruleId, messageId), botId, now);
    }

    /** The body the three claim functions share. */
    method ClaimIn<K(==)>(map_: Table<K>, k: K, botId: int, now: int) returns (won: bool, after: Table<K>)
      ensures won == Succeeds(map_, Try(k, botId, now), limits)
      ensures after == Step(map_, Try(k, botId, now), limits)
    {
      var existing := IndexOf(map_, k);
      if existing >= 0 && now - map_[existing].claimedAt < limits.ttlMs {
        return false, map_;
      }
      after := map_;
      if existing >= 0 {
        after := after[..existing] + after[existing + 1..];
      }
      if |after| >= limits.maxClaims && |after| > 0 {
        after := after[1..];
      }
      after := after + [Claim(k, botId, now)];
      won := true;
    }

    method ClearBotClaims(botId: int)
      modifies this
      ensures claims == Cleared(old(claims), botId)
      ensures seenIncoming == Cleared(old(seenIncoming), botId)
      ensures roomAnswers == Cleared(old(roomAnswers), botId)
    {
      claims := ClearIn(claims, botId);
      seenIncoming := ClearIn(seenIncoming, botId);
      roomAnswers := ClearIn(roomAnswers, botId);
    }

    static method ClearIn<K>(map_: Table<K>, botId: int) returns (kept: Table<K>)
      ensures kept == Cleared(map_, botId)
    {
      kept := [];
      for i := 0 to |map_|
        invariant kept + Cleared(map_[i..], botId) == Cleared(map_, botId)
      {
        assert map_[i..][1..] == map_[i + 1..];
        ghost var rest := Cleared(map_[i + 1..], botId);
        if map_[i].botId != botId {
          assert kept + ([map_[i]] + rest) == (kept + [map_[i]]) + rest;
          kept := kept + [map_[i]];
        }
      }
    }
  }
}
