/** Repeated replies never repeat their bytes, and a destroyed reply comes back a bounded number of times. */
module ReplyDefense {
  import opened Prelude

  const ZWSP: string := "\U{200B}"
  const ZWNJ: string := "\U{200C}"
  const WORD_JOINER: string := "\U{2060}"

  const VARIANT_MARKS: seq<string> :=
    ["", ZWSP, ZWNJ, WORD_JOINER, ZWSP + ZWSP, ZWSP + ZWNJ, ZWNJ + WORD_JOINER, WORD_JOINER + ZWSP]

  /** Defaults: 15 s of tracking, 2 resends, a 5 minute repeat window, varying switched on. */
  datatype Config = Config(ttlMs: int, maxResends: int, repeatWindowMs: int, uniquify: bool)

  function VaryText(text: string, attempt: nat): string {
    text + VARIANT_MARKS[attempt % |VARIANT_MARKS|]
  }

  ghost predicate Invisible(s: string) {
    forall i :: 0 <= i < |s| ==> [s[i]] == ZWSP || [s[i]] == ZWNJ || [s[i]] == WORD_JOINER
  }

  lemma MarksAreDistinct(i: nat, j: nat)
    requires i < j < 8
    ensures VARIANT_MARKS[i] != VARIANT_MARKS[j]
  {
    assert |VARIANT_MARKS[0]| == 0 && |VARIANT_MARKS[1]| == |VARIANT_MARKS[2]| == |VARIANT_MARKS[3]| == 1;
    assert |VARIANT_MARKS[4]| == |VARIANT_MARKS[5]| == |VARIANT_MARKS[6]| == |VARIANT_MARKS[7]| == 2;
    var z, n, w := ZWSP[0], ZWNJ[0], WORD_JOINER[0];
    assert z != n && n != w && w != z;
    assert VARIANT_MARKS[1] == [z] && VARIANT_MARKS[2] == [n] && VARIANT_MARKS[3] == [w];
    assert VARIANT_MARKS[4] == [z, z] && VARIANT_MARKS[5] == [z, n] && VARIANT_MARKS[6] == [n, w] && VARIANT_MARKS[7] == [w, z];
  }

  /** The mark differs from the bare text by at most two invisible characters. */
  lemma MarksAreInvisible(attempt: nat)
    ensures Invisible(VARIANT_MARKS[attempt % 8]) && |VARIANT_MARKS[attempt % 8]| <= 2
  {
  }

  /** Two variants of one text coincide exactly when they are a whole cycle apart. */
  lemma SameBytes(text: string, a: nat, b: nat)
    ensures VaryText(text, a) == VaryText(text, b) <==> a % 8 == b % 8
  {
    var i, j := a % 8, b % 8;
    if i < j {
      MarksAreDistinct(i, j);
    } else if j < i {
      MarksAreDistinct(j, i);
    }
    assert VaryText(text, a)[|text|..] == VARIANT_MARKS[i] && VaryText(text, b)[|text|..] == VARIANT_MARKS[j];
  }

  // ----- the per-chat variant counter -----

  datatype Last = Last(text: string, variant: nat, at: int)

  datatype Kind = First | Resend

  /** `nextVariant`: one step past what is in the room, or 0 when this is not a recent repeat. */
  function NextVariant(c: Config, previous: Option<Last>, text: string, now: int): nat {
    if previous.Some? && previous.value.text == text && now - previous.value.at <= c.repeatWindowMs
    then previous.value.variant + 1 else 0
  }

  function VariantOf(c: Config, previous: Option<Last>, kind: Kind, text: string, now: int): nat {
    if kind.First? && !c.uniquify then 0 else NextVariant(c, previous, text, now)
  }

  /** The bytes sent and what the chat then remembers. */
  function Send(c: Config, previous: Option<Last>, kind: Kind, text: string, now: int): (string, Last) {
    var v := VariantOf(c, previous, kind, text, now);
    (VaryText(text, v), Last(text, v, now))
  }

  /**
   * Exactly when a send of the same text differs from the one before it: when it is a recent
   * repeat that is allowed to vary, or the one before already carried a mark.
   */
  lemma NextSendDiffers(c: Config, previous: Last, kind: Kind, now: int)
    ensures Send(c, Some(previous), kind, previous.text, now).0 != VaryText(previous.text, previous.variant)
       <==> (now - previous.at <= c.repeatWindowMs && (c.uniquify || kind.Resend?)) || previous.variant % 8 != 0
  {
    SameBytes(previous.text, VariantOf(c, Some(previous), kind, previous.text, now), previous.variant);
  }

  /**
   * What goes out: the bare text, unless it is what the chat was last sent, no longer ago than the window, and
   * may vary; then the text with the next mark.  Either way the chat remembers it.
   */
  lemma SendExactly(c: Config, previous: Option<Last>, kind: Kind, text: string, now: int)
    ensures var (bytes, last) := Send(c, previous, kind, text, now);
            && last.text == text && last.at == now && bytes == text + VARIANT_MARKS[last.variant % 8]
            && last.variant == (if previous.Some? && previous.value.text == text && now - previous.value.at <= c.repeatWindowMs
                                   && (kind == Resend || c.uniquify)
                                then previous.value.variant + 1 else 0)
            && (last.variant == 0 ==> bytes == text)
  {
  }

  /** Successive sends of one text to one chat. */
  datatype Turn = Turn(kind: Kind, now: int)

  function Variants(c: Config, previous: Option<Last>, text: string, turns: seq<Turn>): (r: seq<nat>)
    ensures |r| == |turns|
    decreases |turns|
  {
    if turns == [] then []
    else
      var v := VariantOf(c, previous, turns[0].kind, text, turns[0].now);
      [v] + Variants(c, Some(Last(text, v, turns[0].now)), text, turns[1..])
  }

  /** Each send within the repeat window of the one before, and each one allowed to vary. */
  ghost predicate VaryingRun(c: Config, turns: seq<Turn>) {
    && (forall i :: 0 < i < |turns| ==> turns[i].now - turns[i - 1].now <= c.repeatWindowMs)
    && (forall i :: 0 <= i < |turns| ==> c.uniquify || turns[i].kind.Resend?)
  }

  lemma {:induction false} VariantsCountUp(c: Config, previous: Option<Last>, text: string, turns: seq<Turn>)
    requires VaryingRun(c, turns)
    ensures forall i :: 0 <= i < |turns| ==> Variants(c, previous, text, turns)[i] == Variants(c, previous, text, turns)[0] + i
    decreases |turns|
  {
    if |turns| > 1 {
      var all := Variants(c, previous, text, turns);
      var last := Last(text, all[0], turns[0].now);
      assert forall i :: 0 < i < |turns[1..]| ==> turns[1..][i - 1] == turns[i];
      VariantsCountUp(c, Some(last), text, turns[1..]);
      var rest := Variants(c, Some(last), text, turns[1..]);
      assert turns[1..][0] == turns[1];
      assert rest[0] == all[0] + 1;
      assert all[1..] == rest;
    }
  }

  /**
   * Main result: any eight consecutive sends of one text to one chat, in any mix of first sends
   * and resends, are pairwise different, and each is the text plus an invisible mark.
   */
  lemma {:induction false} EightSendsDiffer(c: Config, previous: Option<Last>, text: string, turns: seq<Turn>, i: nat, j: nat)
    requires VaryingRun(c, turns) && i < j < |turns| && j - i < 8
    ensures var v := Variants(c, previous, text, turns);
            && VaryText(text, v[i]) != VaryText(text, v[j])
            && Invisible(VaryText(text, v[j])[|text|..])
            && VaryText(text, v[j])[..|text|] == text
  {
    VariantsCountUp(c, previous, text, turns);
    var v := Variants(c, previous, text, turns);
    assert v[j] == v[i] + (j - i);
    SameBytes(text, v[i], v[j]);
    MarksAreInvisible(v[j]);
    hide Variants, VaryingRun, Invisible;
    assert VaryText(text, v[j])[|text|..] == VARIANT_MARKS[v[j] % 8];
  }

  /** ... and the ninth of them repeats the first, so eight is the most that can be promised. */
  lemma {:induction false} NinthRepeatsFirst(c: Config, previous: Option<Last>, text: string, turns: seq<Turn>)
    requires VaryingRun(c, turns) && |turns| > 8
    ensures var v := Variants(c, previous, text, turns); VaryText(text, v[0]) == VaryText(text, v[8])
  {
    VariantsCountUp(c, previous, text, turns);
    var v := Variants(c, previous, text, turns);
    SameBytes(text, v[0], v[8]);
  }

  // ----- the resend budget -----

  datatype Key = Key(botId: int, chatMid: string, messageId: string)

  /** `origin` numbers the original reply a tracked message descends from. */
  datatype Tracked = Tracked(botId: int, text: string, attempt: nat, expiresAt: int, origin: nat)

  datatype Claim = Claim(text: string, attempt: nat, origin: nat)

  /** `resends[o]` counts the resends original reply `o` has caused. */
  datatype Defense = Defense(tracked: map<Key, Tracked>, sending: map<nat, Claim>, resends: seq<nat>, nextSend: nat)

  datatype Event =
    | Sent(key: Key, text: string, now: int)
    | Destroyed(key: Key, now: int)
    | Resent(send: nat, key: Key, now: int)
    | ResendFailed(send: nat)
    | Stopped(botId: int)

  function Unexpired(m: map<Key, Tracked>, now: int): map<Key, Tracked> {
    map k | k in m && m[k].expiresAt > now :: m[k]
  }

  function Track(c: Config, m: map<Key, Tracked>, key: Key, text: string, attempt: nat, now: int, origin: nat): map<Key, Tracked> {
    Unexpired(m, now)[key := Tracked(key.botId, text, attempt, now + c.ttlMs, origin)]
  }

  /** `claimResend`: the entry is consumed either way; a claim needs budget left. */
  function ClaimFor(c: Config, m: map<Key, Tracked>, key: Key, now: int): Option<Claim> {
    var live := Unexpired(m, now);
    if key in live && live[key].attempt < c.maxResends
    then Some(Claim(live[key].text, live[key].attempt + 1, live[key].origin)) else None
  }

  function Step(c: Config, d: Defense, e: Event): Defense {
    match e
    case Sent(key, text, now) =>
      if key in d.tracked then d
      else d.(tracked := Track(c, d.tracked, key, text, 0, now, |d.resends|), resends := d.resends + [0])
    case Destroyed(key, now) =>
      var claim := ClaimFor(c, d.tracked, key, now);
      var left := Unexpired(d.tracked, now) - {key};
      if claim.Some? && claim.value.origin < |d.resends| then
        d.(tracked := left, sending := d.sending[d.nextSend := claim.value], nextSend := d.nextSend + 1,
           resends := d.resends[claim.value.origin := d.resends[claim.value.origin] + 1])
      else d.(tracked := left)
    case Resent(send, key, now) =>
      if send !in d.sending || key in d.tracked then d
      else
        var claim := d.sending[send];
        d.(tracked := Track(c, d.tracked, key, claim.text, claim.attempt, now, claim.origin), sending := d.sending - {send})
    case ResendFailed(send) => d.(sending := d.sending - {send})
    case Stopped(botId) => d.(tracked := map k | k in d.tracked && d.tracked[k].botId != botId :: d.tracked[k])
  }

  function Run(c: Config, events: seq<Event>): Defense {
    if events == [] then Defense(map[], map[], [], 0)
    else Step(c, Run(c, events[..|events| - 1]), events[|events| - 1])
  }

  /** Each original has at most one live descendant, which knows how many resends came before it. */
  ghost predicate OneDescendant(c: Config, d: Defense) {
    && (forall k :: k in d.tracked ==> d.tracked[k].origin < |d.resends| && d.tracked[k].attempt == d.resends[d.tracked[k].origin])
    && (forall s :: s in d.sending ==> d.sending[s].origin < |d.resends| && d.sending[s].attempt == d.resends[d.sending[s].origin])
    && (forall k, l :: k in d.tracked && l in d.tracked && d.tracked[k].origin == d.tracked[l].origin ==> k == l)
    && (forall s, t :: s in d.sending && t in d.sending && d.sending[s].origin == d.sending[t].origin ==> s == t)
    && (forall k, s :: k in d.tracked && s in d.sending ==> d.tracked[k].origin != d.sending[s].origin)
    && (forall s :: s in d.sending ==> s < d.nextSend)
    && (forall o :: 0 <= o < |d.resends| ==> d.resends[o] <= Max(0, c.maxResends))
  }

  ghost predicate Unused(d: Defense, origin: nat) {
    && (forall k :: k in d.tracked ==> d.tracked[k].origin != origin)
    && (forall s :: s in d.sending ==> d.sending[s].origin != origin)
  }

  /** Forgetting entries, by expiry, stop or failure, never breaks the budget. */
  lemma ForgettingKeeps(c: Config, d: Defense, t: Defense)
    requires OneDescendant(c, d) && t.resends == d.resends && t.nextSend == d.nextSend
    requires forall k :: k in t.tracked ==> k in d.tracked && t.tracked[k] == d.tracked[k]
    requires forall s :: s in t.sending ==> s in d.sending && t.sending[s] == d.sending[s]
    ensures OneDescendant(c, t)
  {
  }

  lemma TrackingKeeps(c: Config, d: Defense, key: Key, entry: Tracked)
    requires OneDescendant(c, d) && key !in d.tracked && Unused(d, entry.origin)
    requires entry.origin < |d.resends| && entry.attempt == d.resends[entry.origin]
    ensures OneDescendant(c, d.(tracked := d.tracked[key := entry]))
  {
  }

  lemma ClaimingKeeps(c: Config, d: Defense, claim: Claim)
    requires OneDescendant(c, d) && Unused(d, claim.origin) && claim.origin < |d.resends|
    requires claim.attempt == d.resends[claim.origin] + 1 <= c.maxResends
    ensures OneDescendant(c, d.(sending := d.sending[d.nextSend := claim], nextSend := d.nextSend + 1,
                                resends := d.resends[claim.origin := d.resends[claim.origin] + 1]))
  {
  }

  lemma NewOriginKeeps(c: Config, d: Defense)
    requires OneDescendant(c, d)
    ensures OneDescendant(c, d.(resends := d.resends + [0])) && Unused(d.(resends := d.resends + [0]), |d.resends|)
  {
  }

  lemma SentKeeps(c: Config, d: Defense, key: Key, text: string, now: int)
    requires OneDescendant(c, d) && key !in d.tracked
    ensures OneDescendant(c, Step(c, d, Sent(key, text, now)))
  {
    hide OneDescendant, Unused;
    var kept := d.(tracked := Unexpired(d.tracked, now));
    ForgettingKeeps(c, d, kept);
    NewOriginKeeps(c, kept);
    TrackingKeeps(c, kept.(resends := d.resends + [0]), key, Tracked(key.botId, text, 0, now + c.ttlMs, |d.resends|));
  }

  /** Taking one tracked entry away leaves its original without a live descendant. */
  lemma TakenFromTracked(c: Config, d: Defense, key: Key, now: int)
    requires OneDescendant(c, d) && key in d.tracked
    ensures Unused(d.(tracked := Unexpired(d.tracked, now) - {key}), d.tracked[key].origin)
    ensures d.tracked[key].origin < |d.resends| && d.tracked[key].attempt == d.resends[d.tracked[key].origin]
  {
  }

  lemma TakenFromSending(c: Config, d: Defense, send: nat, now: int)
    requires OneDescendant(c, d) && send in d.sending
    ensures Unused(d.(tracked := Unexpired(d.tracked, now), sending := d.sending - {send}), d.sending[send].origin)
    ensures d.sending[send].origin < |d.resends| && d.sending[send].attempt == d.resends[d.sending[send].origin]
  {
  }

  lemma DestroyedKeeps(c: Config, d: Defense, key: Key, now: int)
    requires OneDescendant(c, d)
    ensures OneDescendant(c, Step(c, d, Destroyed(key, now)))
  {
    hide OneDescendant, Unused;
    var claim := ClaimFor(c, d.tracked, key, now);
    var left := d.(tracked := Unexpired(d.tracked, now) - {key});
    ForgettingKeeps(c, d, left);
    if claim.Some? {
      TakenFromTracked(c, d, key, now);
      ClaimingKeeps(c, left, claim.value);
    }
  }

  lemma ResentKeeps(c: Config, d: Defense, send: nat, key: Key, now: int)
    requires OneDescendant(c, d) && send in d.sending && key !in d.tracked
    ensures OneDescendant(c, Step(c, d, Resent(send, key, now)))
  {
    hide OneDescendant, Unused;
    var claim := d.sending[send];
    var left := d.(tracked := Unexpired(d.tracked, now), sending := d.sending - {send});
    ForgettingKeeps(c, d, left);
    TakenFromSending(c, d, send, now);
    TrackingKeeps(c, left, key, Tracked(key.botId, claim.text, claim.attempt, now + c.ttlMs, claim.origin));
  }

  lemma StepKeepsOneDescendant(c: Config, d: Defense, e: Event)
    requires OneDescendant(c, d)
    ensures OneDescendant(c, Step(c, d, e))
  {
    hide OneDescendant;
    match e
    case Sent(key, text, now) => if key !in d.tracked { SentKeeps(c, d, key, text, now); }
    case Destroyed(key, now) => DestroyedKeeps(c, d, key, now);
    case Resent(send, key, now) => if send in d.sending && key !in d.tracked { ResentKeeps(c, d, send, key, now); }
    case ResendFailed(send) => ForgettingKeeps(c, d, Step(c, d, e));
    case Stopped(botId) => ForgettingKeeps(c, d, Step(c, d, e));
  }

  /** Main result: one original reply causes at most `maxResends` resends, over any sequence of destroys. */
  lemma {:induction false} ResendsAreBounded(c: Config, events: seq<Event>)
    ensures OneDescendant(c, Run(c, events))
    ensures forall o :: 0 <= o < |Run(c, events).resends| ==> Run(c, events).resends[o] <= Max(0, c.maxResends)
  {
    if events != [] {
      ResendsAreBounded(c, events[..|events| - 1]);
      StepKeepsOneDescendant(c, Run(c, events[..|events| - 1]), events[|events| - 1]);
    }
  }

  /** What is left of the table: every entry not yet due, but those named. */
  ghost predicate Keeps(before: map<Key, Tracked>, after: map<Key, Tracked>, now: int, but: set<Key>) {
    forall k :: k !in but ==>
      && (k in after <==> k in before && before[k].expiresAt > now)
      && (k in after ==> after[k] == before[k])
  }

  /**
   * A destroyed message is answered exactly while it is tracked, not yet due, and its reply has resends left;
   * the resend carries its text, counts one more, and is charged to the original.  Answered or not, the
   * message is no longer tracked.
   */
  lemma {:induction false} DestroyedExactly(c: Config, events: seq<Event>, key: Key, now: int)
    ensures var d := Run(c, events);
            var t := Run(c, events + [Destroyed(key, now)]);
            var answered := key in d.tracked && d.tracked[key].expiresAt > now && d.tracked[key].attempt < c.maxResends;
            && key !in t.tracked && Keeps(d.tracked, t.tracked, now, {key})
            && (!answered ==> t.sending == d.sending && t.resends == d.resends && t.nextSend == d.nextSend)
            && (answered ==>
                  var entry := d.tracked[key];
                  && d.nextSend !in d.sending && entry.origin < |d.resends| && t.nextSend == d.nextSend + 1
                  && t.sending == d.sending[d.nextSend := Claim(entry.text, entry.attempt + 1, entry.origin)]
                  && t.resends == d.resends[entry.origin := entry.attempt + 1])
  {
    hide *;
    RunOneMore(c, events, Destroyed(key, now));
    ResendsAreBounded(c, events);
    DestroyedStep(c, Run(c, events), key, now);
    KnowsItsCount(c, Run(c, events), key);
    ClaimExactly(c, Run(c, events).tracked, key, now);
  }

  lemma DestroyedStep(c: Config, d: Defense, key: Key, now: int)
    ensures var t := Step(c, d, Destroyed(key, now));
            var claim := ClaimFor(c, d.tracked, key, now);
            && t.tracked == Unexpired(d.tracked, now) - {key}
            && (claim == None ==> t.sending == d.sending && t.resends == d.resends && t.nextSend == d.nextSend)
            && (claim.Some? && claim.value.origin < |d.resends| ==>
                  && t.sending == d.sending[d.nextSend := claim.value] && t.nextSend == d.nextSend + 1
                  && t.resends == d.resends[claim.value.origin := d.resends[claim.value.origin] + 1])
  {
    hide ClaimFor, Unexpired;
  }

  lemma KnowsItsCount(c: Config, d: Defense, key: Key)
    requires OneDescendant(c, d)
    ensures d.nextSend !in d.sending
    ensures key in d.tracked ==> d.tracked[key].origin < |d.resends| && d.tracked[key].attempt == d.resends[d.tracked[key].origin]
  {
  }

  lemma ClaimExactly(c: Config, m: map<Key, Tracked>, key: Key, now: int)
    ensures ClaimFor(c, m, key, now)
         == if key in m && m[key].expiresAt > now && m[key].attempt < c.maxResends
            then Some(Claim(m[key].text, m[key].attempt + 1, m[key].origin)) else None
    ensures var left := Unexpired(m, now) - {key}; key !in left && Keeps(m, left, now, {key})
  {
  }

  lemma {:induction false} RunOneMore(c: Config, events: seq<Event>, e: Event)
    ensures Run(c, events + [e]) == Step(c, Run(c, events), e)
  {
    assert (events + [e])[..|events|] == events;
  }

  /** A first send is tracked, with no resend behind it, until its time is up. */
  lemma {:induction false} SentExactly(c: Config, events: seq<Event>, key: Key, text: string, now: int)
    requires key !in Run(c, events).tracked
    ensures var d := Run(c, events);
            var t := Run(c, events + [Sent(key, text, now)]);
            && key in t.tracked && t.tracked[key] == Tracked(key.botId, text, 0, now + c.ttlMs, |d.resends|)
            && Keeps(d.tracked, t.tracked, now, {key}) && t.resends == d.resends + [0] && t.sending == d.sending
  {
    RunOneMore(c, events, Sent(key, text, now));
    hide Run;
  }

  /** A resend that went out is tracked in its turn, with its text, its count and its original. */
  lemma {:induction false} ResentExactly(c: Config, events: seq<Event>, n: nat, key: Key, now: int)
    requires n in Run(c, events).sending && key !in Run(c, events).tracked
    ensures var d := Run(c, events);
            var t := Run(c, events + [Resent(n, key, now)]);
            var claim := d.sending[n];
            && key in t.tracked && t.tracked[key] == Tracked(key.botId, claim.text, claim.attempt, now + c.ttlMs, claim.origin)
            && Keeps(d.tracked, t.tracked, now, {key}) && t.resends == d.resends
            && n !in t.sending && (forall m :: m != n ==> (m in t.sending <==> m in d.sending))
  {
    RunOneMore(c, events, Resent(n, key, now));
    hide Run;
  }

  /** A resend that failed is given up; a stop forgets the bot's messages and nobody else's. */
  lemma {:induction false} GivenUpExactly(c: Config, events: seq<Event>, n: nat, botId: int, key: Key)
    ensures var d := Run(c, events);
            var t := Run(c, events + [ResendFailed(n)]);
            t.tracked == d.tracked && t.resends == d.resends && n !in t.sending
            && forall m :: m != n ==> (m in t.sending <==> m in d.sending)
    ensures var d := Run(c, events);
            var t := Run(c, events + [Stopped(botId)]);
            && t.resends == d.resends && t.sending == d.sending
            && (key in t.tracked <==> key in d.tracked && d.tracked[key].botId != botId)
            && (key in t.tracked ==> t.tracked[key] == d.tracked[key])
  {
    RunOneMore(c, events, ResendFailed(n));
    RunOneMore(c, events, Stopped(botId));
    hide Run;
  }

  // ----- the program -----

  class ReplyStore {
    const config: Config
    var tracked: map<Key, Tracked>
    var lastReplyByChat: map<(int, string), Last>

    constructor (config: Config)
      ensures this.config == config && tracked == map[] && lastReplyByChat == map[]
    {
      this.config := config;
      tracked, lastReplyByChat := map[], map[];
    }

    function Previous(botId: int, chatMid: string): Option<Last>
      reads this
    {
      if (botId, chatMid) in lastReplyByChat then Some(lastReplyByChat[(botId, chatMid)]) else None
    }

    method TakeNextVariant(botId: int, chatMid: string, text: string, now: int) returns (variant: nat)
      modifies this`lastReplyByChat
      ensures variant == NextVariant(config, old(Previous(botId, chatMid)), text, now)
      ensures lastReplyByChat == old(lastReplyByChat)[(botId, chatMid) := Last(text, variant, now)]
    {
      var previous := Previous(botId, chatMid);
      var isRepeat := previous.Some? && previous.value.text == text && now - previous.value.at <= config.repeatWindowMs;
      variant := if isRepeat then previous.value.variant + 1 else 0;
      lastReplyByChat := lastReplyByChat[(botId, chatMid) := Last(text, variant, now)];
    }

    /** The first send of a reply; other chats' memories are untouched. */
    method UniquifyReply(botId: int, chatMid: string, text: string, now: int) returns (bytes: string)
      modifies this`lastReplyByChat
      ensures bytes == Send(config, old(Previous(botId, chatMid)), First, text, now).0
      ensures lastReplyByChat
           == old(lastReplyByChat)[(botId, chatMid) := Send(config, old(Previous(botId, chatMid)), First, text, now).1]
    {
      if !config.uniquify {
        lastReplyByChat := lastReplyByChat[(botId, chatMid) := Last(text, 0, now)];
        assert text + "" == text;
        return text;
      }
      var v := TakeNextVariant(botId, chatMid, text, now);
      bytes := VaryText(text, v);
    }

    method ResendText(botId: int, chatMid: string, text: string, now: int) returns (bytes: string)
      modifies this`lastReplyByChat
      ensures bytes == Send(config, old(Previous(botId, chatMid)), Resend, text, now).0
      ensures lastReplyByChat
           == old(lastReplyByChat)[(botId, chatMid) := Send(config, old(Previous(botId, chatMid)), Resend, text, now).1]
    {
      var v := TakeNextVariant(botId, chatMid, text, now);
      bytes := VaryText(text, v);
    }

    method EvictExpired(now: int)
      modifies this`tracked
      ensures tracked == Unexpired(old(tracked), now)
    {
      tracked := Unexpired(tracked, now);
    }

    method TrackSentReply(key: Key, text: string, attempt: nat, now: int, origin: nat)
      modifies this`tracked
      ensures tracked == Track(config, old(tracked), key, text, attempt, now, origin)
    {
      EvictExpired(now);
      tracked := tracked[key := Tracked(key.botId, text, attempt, now + config.ttlMs, origin)];
    }

    method ClaimResend(key: Key, now: int) returns (claim: Option<Claim>)
      modifies this`tracked
      ensures claim == ClaimFor(config, old(tracked), key, now)
      ensures tracked == Unexpired(old(tracked), now) - {key}
    {
      EvictExpired(now);
      if key !in tracked {
        return None;
      }
      var entry := tracked[key];
      tracked := tracked - {key};
      if entry.attempt >= config.maxResends {
        return None;
      }
      claim := Some(Claim(entry.text, entry.attempt + 1, entry.origin));
    }
  }
}
