/**
 * The path from a delivered message to a send: push and poll deliveries to several bots of
 * one owner race through the claim tables, and the winner hands the send to one account.
 */
module ReplyProtocol {
  import opened Prelude
  import opened ReplyGuard
  import PrimaryBot

  datatype Surface = Talk | Square

  /** `opIndex` is where the winning room claim stands among all operations on that table. */
  datatype Sent = Sent(key: RoomKey, detectedBy: int, sentBy: int, at: int, opIndex: nat)

  /** `clock` never goes back: every event says how long after the previous one it happens. */
  datatype State = State(
    connected: set<int>, guard: Tables, clock: int,
    roomOps: seq<Op<RoomKey>>, sends: seq<Sent>)

  /**
   * `Deliver` is one delivery by either transport to one bot.  `ours` is the verdict of the
   * own-message and echo checks, `rule` the matching rule, `rooms` the membership tables then.
   */
  datatype Event =
    | Connect(botId: int)
    | Stop(botId: int)
    | Deliver(botId: int, surface: Surface, chatMid: string, messageId: string, ours: bool,
              rule: Option<int>, rooms: PrimaryBot.Tables, elapsed: nat)

  datatype Config = Config(limits: Limits, owners: map<int, int>) {
    function Owner(botId: int): Option<int> {
      if botId in owners then Some(owners[botId]) else None
    }

    /** `replyOwnerKey`. */
    function KeyOf(botId: int): OwnerKey {
      if botId in owners then User(owners[botId]) else Alone(botId)
    }
  }

  function SurfaceName(s: Surface): string { if s.Talk? then "talk" else "square" }

  function Start(): State { State({}, Tables([], [], []), 0, [], []) }

  /** The account of the send: only OpenChat replies are handed to the room's answerer. */
  function SenderOf(c: Config, connected: set<int>, e: Event): int
    requires e.Deliver?
  {
    if e.surface.Square? then PrimaryBot.SendingBot(e.rooms, connected, e.botId, e.chatMid, c.Owner(e.botId))
    else e.botId
  }

  function RoomKeyOf(c: Config, e: Event): RoomKey
    requires e.Deliver?
  {
    RoomKey(c.KeyOf(e.botId), e.chatMid, e.messageId)
  }

  /** The synchronous part of `handleIncoming`: three claims, each only after the one before it; the last two need a client. */
  function Delivered(c: Config, s: State, e: Event): State
    requires e.Deliver?
  {
    var now := s.clock + e.elapsed;
    var t := s.(clock := now);
    var incoming := Try(IncomingKey(e.botId, SurfaceName(e.surface), e.messageId), e.botId, now);
    if !Succeeds(s.guard.seenIncoming, incoming, c.limits) then t
    else
      var seen := t.(guard := t.guard.(seenIncoming := ReplyGuard.Step(s.guard.seenIncoming, incoming, c.limits)));
      if e.ours || e.rule.None? || e.botId !in s.connected then seen
      else
        var reply := Try(ReplyKey(e.botId, e.chatMid, e.rule.value, e.messageId), e.botId, now);
        if !Succeeds(s.guard.claims, reply, c.limits) then seen
        else
          var room := Try(RoomKeyOf(c, e), e.botId, now);
          seen.(guard := seen.guard.(claims := ReplyGuard.Step(s.guard.claims, reply, c.limits),
                                     roomAnswers := ReplyGuard.Step(s.guard.roomAnswers, room, c.limits)),
                roomOps := s.roomOps + [room],
                sends := s.sends + if Succeeds(s.guard.roomAnswers, room, c.limits)
                                   then [Sent(room.key, e.botId, SenderOf(c, s.connected, e), now, |s.roomOps|)]
                                   else [])
  }

  function Next(c: Config, s: State, e: Event): State {
    match e
    case Connect(b) => s.(connected := s.connected + {b})
    case Stop(b) =>
      s.(connected := s.connected - {b},
         guard := Tables(Cleared(s.guard.claims, b), Cleared(s.guard.seenIncoming, b), Cleared(s.guard.roomAnswers, b)),
         roomOps := s.roomOps + [Forget(b)])
    case Deliver(_, _, _, _, _, _, _, _) => Delivered(c, s, e)
  }

  function Reach(c: Config, events: seq<Event>): State {
    if events == [] then Start() else Next(c, Reach(c, events[..|events| - 1]), events[|events| - 1])
  }

  /** Every send on record is a successful claim of its room key, at its own place in the history. */
  ghost predicate SendsAreClaims(c: Config, s: State) {
    && s.guard.roomAnswers == ReplyGuard.Run([], s.roomOps, c.limits)
    && (forall i :: 0 <= i < |s.sends| ==> SendIsClaim(c, s, s.sends[i]))
    && (forall i, j :: 0 <= i < j < |s.sends| ==> s.sends[i].opIndex < s.sends[j].opIndex)
    && (forall i :: 0 <= i < |s.roomOps| ==> s.roomOps[i].Try? ==> s.roomOps[i].now <= s.clock)
    && (forall i, j :: 0 <= i < j < |s.roomOps| && s.roomOps[i].Try? && s.roomOps[j].Try? ==>
          s.roomOps[i].now <= s.roomOps[j].now)
  }

  ghost predicate SendIsClaim(c: Config, s: State, sent: Sent) {
    && sent.opIndex < |s.roomOps|
    && s.roomOps[sent.opIndex] == Try(sent.key, sent.detectedBy, sent.at)
    && Succeeds(ReplyGuard.Run([], s.roomOps[..sent.opIndex], c.limits), s.roomOps[sent.opIndex], c.limits)
  }

  lemma SendSurvives(c: Config, s: State, t: State, op: Op<RoomKey>, sent: Sent)
    requires SendIsClaim(c, s, sent) && t.roomOps == s.roomOps + [op]
    ensures SendIsClaim(c, t, sent)
  {
    assert t.roomOps[..sent.opIndex] == s.roomOps[..sent.opIndex];
  }

  lemma {:induction false} ForgetClears<K>(t: Table<K>, b: int, limits: Limits)
    ensures ReplyGuard.Step(t, Forget(b), limits) == Cleared(t, b)
  {
  }

  /** `t` has taken one more operation of the room table than `s`, and recorded its send if it is a won claim. */
  ghost predicate Appends(c: Config, s: State, t: State, op: Op<RoomKey>) {
    && t.clock >= s.clock && t.roomOps == s.roomOps + [op]
    && t.guard.roomAnswers == ReplyGuard.Step(s.guard.roomAnswers, op, c.limits)
    && (op.Try? ==> op.now == t.clock)
    && (t.sends == s.sends
        || (op.Try? && Succeeds(s.guard.roomAnswers, op, c.limits)
            && |t.sends| == |s.sends| + 1
            && t.sends == s.sends + [Sent(op.key, op.botId, t.sends[|s.sends|].sentBy, op.now, |s.roomOps|)]))
  }

  lemma AppendKeepsSends(c: Config, s: State, t: State, op: Op<RoomKey>)
    requires SendsAreClaims(c, s) && Appends(c, s, t, op)
    ensures SendsAreClaims(c, t)
  {
    hide Succeeds, ReplyGuard.Step;
    assert t.roomOps[..|s.roomOps|] == s.roomOps;
    forall i | 0 <= i < |s.sends| ensures SendIsClaim(c, t, s.sends[i]) {
      SendSurvives(c, s, t, op, s.sends[i]);
    }
  }

  lemma StepAppends(c: Config, s: State, e: Event)
    ensures var t := Next(c, s, e);
            if |t.roomOps| == |s.roomOps|
            then t.roomOps == s.roomOps && t.sends == s.sends && t.guard.roomAnswers == s.guard.roomAnswers && t.clock >= s.clock
            else |t.roomOps| > |s.roomOps| && Appends(c, s, t, t.roomOps[|s.roomOps|])
  {
    hide SenderOf, SurfaceName, RoomKeyOf, Succeeds, ReplyGuard.Step, Cleared;
    if e.Stop? {
      ForgetClears(s.guard.roomAnswers, e.botId, c.limits);
    }
  }

  lemma StepKeepsSends(c: Config, s: State, e: Event)
    requires SendsAreClaims(c, s)
    ensures SendsAreClaims(c, Next(c, s, e))
  {
    var t := Next(c, s, e);
    StepAppends(c, s, e);
    hide Next, Appends;
    if |t.roomOps| > |s.roomOps| {
      AppendKeepsSends(c, s, t, t.roomOps[|s.roomOps|]);
    } else {
      forall i | 0 <= i < |s.sends| ensures SendIsClaim(c, t, s.sends[i]) {
        assert SendIsClaim(c, s, s.sends[i]);
      }
    }
  }

  lemma {:induction false} EverySendIsAClaim(c: Config, events: seq<Event>)
    ensures SendsAreClaims(c, Reach(c, events))
  {
    if events != [] {
      EverySendIsAClaim(c, events[..|events| - 1]);
      StepKeepsSends(c, Reach(c, events[..|events| - 1]), events[|events| - 1]);
    }
  }

  /** The operations on the room table strictly between two sends. */
  function Between(s: State, a: Sent, b: Sent): seq<Op<RoomKey>>
    requires a.opIndex < b.opIndex < |s.roomOps|
  {
    s.roomOps[a.opIndex + 1..b.opIndex]
  }

  /** The room keys other than `a`'s own that were won strictly between two sends. */
  function OthersWon(c: Config, s: State, a: Sent, b: Sent): set<RoomKey>
    requires a.opIndex < b.opIndex < |s.roomOps|
  {
    Won(ReplyGuard.Run([], s.roomOps[..a.opIndex + 1], c.limits), Between(s, a, b), c.limits) - {a.key}
  }

  lemma RepeatIsExplained(c: Config, s: State, a: Sent, b: Sent)
    requires SendIsClaim(c, s, a) && SendIsClaim(c, s, b) && a.opIndex < b.opIndex
    requires a.key == b.key && b.at - a.at < c.limits.ttlMs
    requires forall k :: a.opIndex < k < b.opIndex && s.roomOps[k].Try? ==> s.roomOps[k].now <= b.at
    ensures Forget(a.detectedBy) in Between(s, a, b) || |OthersWon(c, s, a, b)| >= c.limits.maxClaims
  {
    hide ReplyGuard.Run, ReplyGuard.Step, Won, Succeeds;
    SplitHistory(s.roomOps, a.opIndex, b.opIndex, c.limits);
    var between := Between(s, a, b);
    assert AllBy(between, b.at);
    if Forget(a.detectedBy) !in between {
      assert NeverForgets(between, a.detectedBy);
      hide AllBy, NeverForgets;
      OneClaimPerTtl(s.roomOps[..a.opIndex], s.roomOps[a.opIndex], between, s.roomOps[b.opIndex], c.limits);
    }
  }

  /**
   * Main result.  Over every interleaving of push and poll deliveries to all of an owner's
   * bots, two sends for one message in one room less than a TTL apart are possible only if the
   * bot that won the first was stopped in between, or at least `maxClaims` other room keys were.
   */
  lemma {:induction false} OneSendPerMessagePerTtl(c: Config, events: seq<Event>, i: nat, j: nat)
    requires i < j < |Reach(c, events).sends|
    requires Reach(c, events).sends[i].key == Reach(c, events).sends[j].key
    requires Reach(c, events).sends[j].at - Reach(c, events).sends[i].at < c.limits.ttlMs
    ensures var s := Reach(c, events);
            var a, b := s.sends[i], s.sends[j];
            && a.opIndex < b.opIndex < |s.roomOps|
            && (Forget(a.detectedBy) in Between(s, a, b) || |OthersWon(c, s, a, b)| >= c.limits.maxClaims)
  {
    EverySendIsAClaim(c, events);
    var s := Reach(c, events);
    assert SendIsClaim(c, s, s.sends[i]) && SendIsClaim(c, s, s.sends[j]);
    RepeatIsExplained(c, s, s.sends[i], s.sends[j]);
  }

  // ----- when a delivery answers -----

  /** A claim of this key less than a TTL old. */
  ghost predicate Held<K>(t: Table<K>, k: K, now: int, ttlMs: int) {
    exists i :: 0 <= i < |t| && t[i].key == k && now - t[i].claimedAt < ttlMs
  }

  lemma HeldIsLive<K>(t: Table<K>, k: K, now: int, limits: Limits)
    requires UniqueKeys(t)
    ensures Held(t, k, now, limits.ttlMs) <==> IsLive(t, k, now, limits)
  {
  }

  ghost predicate UniqueTables(g: Tables) {
    UniqueKeys(g.claims) && UniqueKeys(g.seenIncoming) && UniqueKeys(g.roomAnswers)
  }

  /** The three tables after a delivery: each as it was, or after one claim. */
  lemma TablesAfter(c: Config, s: State, e: Event)
    requires e.Deliver?
    ensures var now := s.clock + e.elapsed;
            var g, after := s.guard, Delivered(c, s, e).guard;
            var incoming := Try(IncomingKey(e.botId, SurfaceName(e.surface), e.messageId), e.botId, now);
            var room := Try(RoomKeyOf(c, e), e.botId, now);
            if !Succeeds(g.seenIncoming, incoming, c.limits) then after == g
            else
              && after.seenIncoming == ReplyGuard.Step(g.seenIncoming, incoming, c.limits)
              && if e.ours || e.rule.None? || e.botId !in s.connected
                 then after.claims == g.claims && after.roomAnswers == g.roomAnswers
                 else
                   var reply := Try(ReplyKey(e.botId, e.chatMid, e.rule.value, e.messageId), e.botId, now);
                   if Succeeds(g.claims, reply, c.limits)
                   then after.claims == ReplyGuard.Step(g.claims, reply, c.limits)
                        && after.roomAnswers == ReplyGuard.Step(g.roomAnswers, room, c.limits)
                   else after.claims == g.claims && after.roomAnswers == g.roomAnswers
  {
    hide Succeeds, ReplyGuard.Step, SenderOf, RoomKeyOf, SurfaceName;
  }

  lemma DeliveryKeepsTables(c: Config, s: State, e: Event)
    requires e.Deliver?
    requires UniqueKeys(s.guard.claims) && UniqueKeys(s.guard.seenIncoming) && UniqueKeys(s.guard.roomAnswers)
    ensures var g := Delivered(c, s, e).guard;
            UniqueKeys(g.claims) && UniqueKeys(g.seenIncoming) && UniqueKeys(g.roomAnswers)
  {
    hide *;
    TablesAfter(c, s, e);
    var now := s.clock + e.elapsed;
    StepKeepsUnique(s.guard.seenIncoming, Try(IncomingKey(e.botId, SurfaceName(e.surface), e.messageId), e.botId, now), c.limits);
    StepKeepsUnique(s.guard.roomAnswers, Try(RoomKeyOf(c, e), e.botId, now), c.limits);
    if e.rule.Some? {
      StepKeepsUnique(s.guard.claims, Try(ReplyKey(e.botId, e.chatMid, e.rule.value, e.messageId), e.botId, now), c.limits);
    }
  }

  lemma StepKeepsTables(c: Config, s: State, e: Event)
    requires UniqueTables(s.guard)
    ensures UniqueTables(Next(c, s, e).guard)
  {
    if e.Deliver? {
      DeliveryKeepsTables(c, s, e);
    } else if e.Stop? {
      ClearedFacts(s.guard.claims, e.botId);
      ClearedFacts(s.guard.seenIncoming, e.botId);
      ClearedFacts(s.guard.roomAnswers, e.botId);
    }
    hide UniqueKeys, Cleared, Delivered;
  }

  lemma {:induction false} TablesStayUnique(c: Config, events: seq<Event>)
    ensures UniqueTables(Reach(c, events).guard)
  {
    if events != [] {
      TablesStayUnique(c, events[..|events| - 1]);
      StepKeepsTables(c, Reach(c, events[..|events| - 1]), events[|events| - 1]);
      hide UniqueTables, Next;
    }
  }

  /** One answer per message and room for all bots of an owner; a bot without one answers for itself. */
  ghost function RoomOf(c: Config, e: Event): RoomKey
    requires e.Deliver?
  {
    RoomKey(if e.botId in c.owners then User(c.owners[e.botId]) else Alone(e.botId), e.chatMid, e.messageId)
  }

  /**
   * The delivery is of a stranger's message that some rule answers, to a connected bot; this bot has not had
   * the message, nor answered it by this rule, and none of the owner's bots has answered it in the room.
   */
  ghost predicate Answers(c: Config, s: State, e: Event) {
    && e.Deliver? && !e.ours && e.rule.Some? && e.botId in s.connected
    && var now, ttlMs := s.clock + e.elapsed, c.limits.ttlMs;
       && !Held(s.guard.seenIncoming, IncomingKey(e.botId, if e.surface.Talk? then "talk" else "square", e.messageId), now, ttlMs)
       && !Held(s.guard.claims, ReplyKey(e.botId, e.chatMid, e.rule.value, e.messageId), now, ttlMs)
       && !Held(s.guard.roomAnswers, RoomOf(c, e), now, ttlMs)
  }

  /** A square reply goes out under the room's designated bot if that one is connected, any other under the detector. */
  ghost predicate SentByRightBot(c: Config, s: State, e: Event, sentBy: int)
    requires e.Deliver?
  {
    var owner := if e.botId in c.owners then Some(c.owners[e.botId]) else None;
    var designated := PrimaryBot.Designated(e.rooms, e.botId, e.chatMid, owner);
    sentBy == if e.surface.Square? && designated in s.connected then designated else e.botId
  }

  ghost predicate Listed<K>(t: Table<K>, x: Claim<K>) {
    exists i :: 0 <= i < |t| && t[i] == x
  }

  /** The last claim is this one, and all others were there before. */
  ghost predicate Took<K>(before: Table<K>, after: Table<K>, k: K, botId: int, now: int) {
    && after != [] && after[|after| - 1] == Claim(k, botId, now)
    && forall i :: 0 <= i < |after| - 1 ==> Listed(before, after[i]) && after[i].key != k
  }

  /**
   * In every reachable state a delivery sends exactly when it answers, once, under the right account.  The
   * message counts as delivered to this bot whether or not anything is sent.
   */
  lemma {:induction false} DeliverySendsExactly(c: Config, events: seq<Event>, e: Event)
    requires e.Deliver?
    ensures var s := Reach(c, events);
            var t := Reach(c, events + [e]);
            var now := s.clock + e.elapsed;
            && t.clock == now && t.connected == s.connected
            && (!Answers(c, s, e) ==> t.sends == s.sends)
            && (Answers(c, s, e) ==>
                  && |t.sends| == |s.sends| + 1 && t.sends[..|s.sends|] == s.sends
                  && var sent := t.sends[|s.sends|];
                     sent.key == RoomOf(c, e) && sent.detectedBy == e.botId && sent.at == now
                     && SentByRightBot(c, s, e, sent.sentBy))
  {
    hide *;
    OneMoreDelivery(c, events, e);
    DeliveredSends(c, Reach(c, events), e);
  }

  lemma SendsAfter(c: Config, s: State, e: Event)
    requires e.Deliver?
    ensures var now := s.clock + e.elapsed;
            var g, t := s.guard, Delivered(c, s, e);
            && t.clock == now && t.connected == s.connected
            && t.sends == if Succeeds(g.seenIncoming, Try(IncomingKey(e.botId, SurfaceName(e.surface), e.messageId), e.botId, now), c.limits)
                             && !e.ours && e.rule.Some? && e.botId in s.connected
                             && Succeeds(g.claims, Try(ReplyKey(e.botId, e.chatMid, e.rule.value, e.messageId), e.botId, now), c.limits)
                             && Succeeds(g.roomAnswers, Try(RoomKeyOf(c, e), e.botId, now), c.limits)
                          then s.sends + [Sent(RoomKeyOf(c, e), e.botId, SenderOf(c, s.connected, e), now, |s.roomOps|)]
                          else s.sends
  {
    hide Succeeds, ReplyGuard.Step, SenderOf, RoomKeyOf, SurfaceName;
    assert s.sends + [] == s.sends;
  }

  lemma DeliveredSends(c: Config, s: State, e: Event)
    requires e.Deliver?
    requires UniqueKeys(s.guard.claims) && UniqueKeys(s.guard.seenIncoming) && UniqueKeys(s.guard.roomAnswers)
    ensures var t := Delivered(c, s, e);
            && (!Answers(c, s, e) ==> t.sends == s.sends)
            && (Answers(c, s, e) ==>
                  && |t.sends| == |s.sends| + 1 && t.sends[..|s.sends|] == s.sends
                  && var sent := t.sends[|s.sends|];
                     sent.key == RoomOf(c, e) && sent.detectedBy == e.botId && sent.at == s.clock + e.elapsed
                     && SentByRightBot(c, s, e, sent.sentBy))
            && t.clock == s.clock + e.elapsed && t.connected == s.connected
  {
    hide Held, Succeeds, UniqueKeys, ReplyGuard.Step, SenderOf, SentByRightBot, Delivered, RoomOf, RoomKeyOf, SurfaceName;
    var now := s.clock + e.elapsed;
    SendsAfter(c, s, e);
    RoomOfIsKey(c, e);
    TryWins(s.guard.seenIncoming, IncomingKey(e.botId, SurfaceName(e.surface), e.messageId), e.botId, now, c.limits);
    TryWins(s.guard.roomAnswers, RoomKeyOf(c, e), e.botId, now, c.limits);
    if e.rule.Some? {
      TryWins(s.guard.claims, ReplyKey(e.botId, e.chatMid, e.rule.value, e.messageId), e.botId, now, c.limits);
    }
    SenderIsRight(c, s, e);
  }

  lemma DeletedIsListed<K>(t: Table<K>, k: K, i: nat)
    requires i < |Deleted(t, k)|
    ensures Listed(t, Deleted(t, k)[i])
  {
    var at := IndexOf(t, k);
    var j := if 0 <= at <= i then i + 1 else i;
    assert t[j] == Deleted(t, k)[i];
  }

  lemma DeletedIsThere<K>(t: Table<K>, k: K)
    requires UniqueKeys(t)
    ensures forall i :: 0 <= i < |Deleted(t, k)| ==> Listed(t, Deleted(t, k)[i]) && Deleted(t, k)[i].key != k
  {
    hide *;
    DeletedFacts(t, k);
    forall i | 0 <= i < |Deleted(t, k)| ensures Listed(t, Deleted(t, k)[i]) {
      DeletedIsListed(t, k, i);
    }
  }

  lemma EvictedIsThere<K>(t: Table<K>, limits: Limits)
    ensures |Evicted(t, limits)| <= |t|
    ensures forall i :: 0 <= i < |Evicted(t, limits)| ==> Evicted(t, limits)[i] == t[i + |t| - |Evicted(t, limits)|]
  {
  }

  /** A claim that is not refused is the newest entry; a refused one changes nothing. */
  lemma TryTakes<K>(t: Table<K>, k: K, botId: int, now: int, limits: Limits)
    requires UniqueKeys(t)
    ensures var after := ReplyGuard.Step(t, Try(k, botId, now), limits);
            if Held(t, k, now, limits.ttlMs) then after == t else Took(t, after, k, botId, now)
  {
    HeldIsLive(t, k, now, limits);
    DeletedIsThere(t, k);
    var kept := Evicted(Deleted(t, k), limits);
    EvictedIsThere(Deleted(t, k), limits);
    hide Held, IsLive, Deleted, UniqueKeys, Evicted, Listed;
    var after := ReplyGuard.Step(t, Try(k, botId, now), limits);
    assert !Held(t, k, now, limits.ttlMs) ==> after == kept + [Claim(k, botId, now)] && after[..|after| - 1] == kept;
  }

  /**
   * Which claims a delivery takes: always the message for this bot, then its reply when there is one to give,
   * then the room; each only when the one before was won.
   */
  lemma {:induction false} DeliveryClaimsExactly(c: Config, events: seq<Event>, e: Event)
    requires e.Deliver?
    ensures var s := Reach(c, events);
            var t := Reach(c, events + [e]);
            var now, ttlMs := s.clock + e.elapsed, c.limits.ttlMs;
            var incoming := IncomingKey(e.botId, if e.surface.Talk? then "talk" else "square", e.messageId);
            if Held(s.guard.seenIncoming, incoming, now, ttlMs) then t.guard == s.guard
            else
              && Took(s.guard.seenIncoming, t.guard.seenIncoming, incoming, e.botId, now)
              && if e.ours || e.rule.None? || e.botId !in s.connected
                    || Held(s.guard.claims, ReplyKey(e.botId, e.chatMid, e.rule.value, e.messageId), now, ttlMs)
                 then t.guard.claims == s.guard.claims && t.guard.roomAnswers == s.guard.roomAnswers
                 else
                   && Took(s.guard.claims, t.guard.claims,
                           ReplyKey(e.botId, e.chatMid, e.rule.value, e.messageId), e.botId, now)
                   && if Held(s.guard.roomAnswers, RoomOf(c, e), now, ttlMs)
                      then t.guard.roomAnswers == s.guard.roomAnswers
                      else Took(s.guard.roomAnswers, t.guard.roomAnswers, RoomOf(c, e), e.botId, now)
  {
    hide *;
    var s := Reach(c, events);
    var now := s.clock + e.elapsed;
    OneMoreDelivery(c, events, e);
    RoomOfIsKey(c, e);
    TablesAfter(c, s, e);
    var incoming := IncomingKey(e.botId, SurfaceName(e.surface), e.messageId);
    TryWins(s.guard.seenIncoming, incoming, e.botId, now, c.limits);
    TryWins(s.guard.roomAnswers, RoomKeyOf(c, e), e.botId, now, c.limits);
    if e.rule.Some? {
      TryWins(s.guard.claims, ReplyKey(e.botId, e.chatMid, e.rule.value, e.messageId), e.botId, now, c.limits);
    }
  }

  lemma {:induction false} OneMoreDelivery(c: Config, events: seq<Event>, e: Event)
    requires e.Deliver?
    ensures var g := Reach(c, events).guard;
            Reach(c, events + [e]) == Delivered(c, Reach(c, events), e)
            && UniqueKeys(g.claims) && UniqueKeys(g.seenIncoming) && UniqueKeys(g.roomAnswers)
  {
    assert (events + [e])[..|events|] == events;
    TablesStayUnique(c, events);
    hide Delivered, UniqueKeys;
  }

  lemma RoomOfIsKey(c: Config, e: Event)
    requires e.Deliver?
    ensures RoomOf(c, e) == RoomKeyOf(c, e) && SurfaceName(e.surface) == if e.surface.Talk? then "talk" else "square"
  {
  }

  lemma TryWins<K>(t: Table<K>, k: K, botId: int, now: int, limits: Limits)
    requires UniqueKeys(t)
    ensures Succeeds(t, Try(k, botId, now), limits) <==> !Held(t, k, now, limits.ttlMs)
    ensures var after := ReplyGuard.Step(t, Try(k, botId, now), limits);
            if Held(t, k, now, limits.ttlMs) then after == t else Took(t, after, k, botId, now)
  {
    HeldIsLive(t, k, now, limits);
    TryTakes(t, k, botId, now, limits);
    hide Held, IsLive, Took, ReplyGuard.Step;
  }

  /** A stop takes the bot off line and forgets its claims, and nobody else's; a connect forgets nothing. */
  lemma {:induction false} StopForgetsExactly(c: Config, events: seq<Event>, b: int)
    ensures var s := Reach(c, events);
            var t := Reach(c, events + [Stop(b)]);
            && t.connected == s.connected - {b} && t.sends == s.sends && t.clock == s.clock
            && KeptButFor(s.guard.claims, t.guard.claims, b)
            && KeptButFor(s.guard.seenIncoming, t.guard.seenIncoming, b)
            && KeptButFor(s.guard.roomAnswers, t.guard.roomAnswers, b)
    ensures var s := Reach(c, events);
            Reach(c, events + [Connect(b)]) == s.(connected := s.connected + {b})
  {
    var s := Reach(c, events);
    assert (events + [Stop(b)])[..|events|] == events && (events + [Connect(b)])[..|events|] == events;
    ClearedKeeps(s.guard.claims, b);
    ClearedKeeps(s.guard.seenIncoming, b);
    ClearedKeeps(s.guard.roomAnswers, b);
    hide Cleared, KeptButFor;
  }

  /** The claims of all other bots, in the order they had. */
  ghost predicate KeptButFor<K(!new)>(before: Table<K>, after: Table<K>, b: int) {
    && (forall x :: x in after <==> x in before && x.botId != b)
    && multiset(after) <= multiset(before)
  }

  lemma {:induction false} ClearedKeeps<K(!new)>(t: Table<K>, b: int)
    ensures KeptButFor(t, Cleared(t, b), b)
  {
    if t != [] {
      ClearedKeeps(t[1..], b);
      assert t == [t[0]] + t[1..];
    }
  }

  lemma SenderIsRight(c: Config, s: State, e: Event)
    requires e.Deliver?
    ensures SentByRightBot(c, s, e, SenderOf(c, s.connected, e))
  {
    hide PrimaryBot.PrimaryBotIdFor;
  }

  // ----- the program -----

  class Session {
    const config: Config
    const guard: Guard
    var connected: set<int>
    var clock: int
    ghost var roomOps: seq<Op<RoomKey>>
    ghost var sends: seq<Sent>

    ghost predicate Valid() {
      guard.limits == config.limits
    }

    ghost function View(): State
      reads this, guard
    {
      State(connected, guard.State(), clock, roomOps, sends)
    }

    constructor (config: Config)
      ensures Valid() && View() == Start() && this.config == config && fresh(guard)
    {
      this.config := config;
      guard := new Guard(config.limits);
      connected, clock, roomOps, sends := {}, 0, [], [];
    }

    method StopBot(botId: int)
      requires Valid()
      modifies this, guard
      ensures View() == Next(config, old(View()), Stop(botId))
    {
      connected := connected - {botId};
      guard.ClearBotClaims(botId);
      roomOps := roomOps + [Forget(botId)];
    }

    /** Returns the account to send under when this delivery is the one that answers. */
    method HandleIncoming(e: Event) returns (sender: Option<int>)
      requires Valid() && e.Deliver?
      modifies this, guard
      ensures View() == Next(config, old(View()), e)
      ensures sender == if |sends| > |old(sends)| then Some(sends[|old(sends)|].sentBy) else None
    {
      hide Succeeds, ReplyGuard.Step, SenderOf;
      clock := clock + e.elapsed;
      sender := None;
      var fresh_ := guard.ClaimIncomingMessage(e.botId, SurfaceName(e.surface), e.messageId, clock);
      if !fresh_ {
        RefusedChangesNothing(old(guard.seenIncoming),
          Try(IncomingKey(e.botId, SurfaceName(e.surface), e.messageId), e.botId, clock), guard.limits);
        return;
      }
      if e.ours || e.rule.None? || e.botId !in connected {
        return;
      }
      var claimed := guard.ClaimReply(e.botId, e.chatMid, e.rule.value, e.messageId, clock);
      if !claimed {
        RefusedChangesNothing(old(guard.claims),
          Try(ReplyKey(e.botId, e.chatMid, e.rule.value, e.messageId), e.botId, clock), guard.limits);
        return;
      }
      var won := guard.ClaimRoomAnswer(config.KeyOf(e.botId), e.botId, e.chatMid, e.messageId, clock);
      roomOps := roomOps + [Try(RoomKeyOf(config, e), e.botId, clock)];
      if won {
        sends := sends + [Sent(RoomKeyOf(config, e), e.botId, SenderOf(config, connected, e), clock, |old(roomOps)|)];
        sender := Some(SenderOf(config, connected, e));
      }
      assert old(sends) + [] == old(sends);
    }
  }
}
