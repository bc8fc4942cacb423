/** Recognising the bots' own replies when a sibling hears them: each tracked send swallows one message. */
module ReplyEcho {
  import opened Prelude

  const ECHO_TTL_MS := 30000

  /** What a reply looks like on the wire, and how a heard message is named, per group of siblings. */
  datatype Signature = Signature(scope: string, surface: string, target: string, text: string)
  datatype MessageKey = MessageKey(scope: string, surface: string, id: string)

  datatype Pending = Pending(bot: int, token: nat, expiresAt: int)
  datatype Seen = Seen(bot: int, expiresAt: int)

  /** `claims` records which tracked send each swallowed message was charged to, and what it looked like. */
  datatype Claim = Claim(token: nat, sig: Signature, key: MessageKey)
  datatype Guard = Guard(pending: map<Signature, Pending>, seen: map<MessageKey, Seen>, nextToken: nat, claims: seq<Claim>)

  const EMPTY := Guard(map[], map[], 0, [])

  function Evicted(g: Guard, now: int): Guard {
    g.(pending := map k | k in g.pending && g.pending[k].expiresAt > now :: g.pending[k],
       seen := map k | k in g.seen && g.seen[k].expiresAt > now :: g.seen[k])
  }

  function Track(g0: Guard, sig: Signature, bot: int, now: int): Guard {
    var g := Evicted(g0, now);
    g.(pending := g.pending[sig := Pending(bot, g.nextToken + 1, now + ECHO_TTL_MS)], nextToken := g.nextToken + 1)
  }

  /** The closure `trackAutomaticReply` returns: it only ever takes back its own entry. */
  function Cancel(g: Guard, sig: Signature, token: nat): Guard {
    if sig in g.pending && g.pending[sig].token == token then g.(pending := g.pending - {sig}) else g
  }

  function KeyOf(sig: Signature, id: string): MessageKey {
    MessageKey(sig.scope, sig.surface, id)
  }

  /** The pending send of this look swallows the message and is used up. */
  function Charge(g: Guard, sig: Signature, id: string, now: int): Guard
    requires sig in g.pending
  {
    g.(pending := g.pending - {sig},
       seen := g.seen[KeyOf(sig, id) := Seen(g.pending[sig].bot, now + ECHO_TTL_MS)],
       claims := g.claims + [Claim(g.pending[sig].token, sig, KeyOf(sig, id))])
  }

  /** `isAutomaticReplyEcho`. */
  function Hear(g0: Guard, sig: Signature, id: string, now: int): (bool, Guard) {
    var g := Evicted(g0, now);
    if KeyOf(sig, id) in g.seen then (true, g)
    else if sig !in g.pending then (false, g)
    else (true, Charge(g, sig, id, now))
  }

  function Cleared(g: Guard, bot: int): Guard {
    g.(pending := map k | k in g.pending && g.pending[k].bot != bot :: g.pending[k],
       seen := map k | k in g.seen && g.seen[k].bot != bot :: g.seen[k])
  }

  datatype Event =
    | Tracked(sig: Signature, bot: int, now: int)
    | Cancelled(sig: Signature, token: nat)
    | Heard(sig: Signature, id: string, now: int)
    | Clear(bot: int)

  function Step(g: Guard, e: Event): Guard {
    match e
    case Tracked(sig, bot, now) => Track(g, sig, bot, now)
    case Cancelled(sig, token) => Cancel(g, sig, token)
    case Heard(sig, id, now) => Hear(g, sig, id, now).1
    case Clear(bot) => Cleared(g, bot)
  }

  /** The tables after a history, from a fresh process. */
  function Run(h: seq<Event>): Guard {
    if h == [] then EMPTY else Step(Run(h[..|h| - 1]), h[|h| - 1])
  }

  function Tracks(h: seq<Event>): nat {
    if h == [] then 0 else Tracks(h[..|h| - 1]) + if h[|h| - 1].Tracked? then 1 else 0
  }

  /** A history with one more event at its end. */
  lemma Front(p: seq<Event>, e: Event)
    ensures (p + [e])[..|p|] == p && (p + [e])[|p|] == e
  {
  }

  // ----- each send swallows at most one message -----

  /** What the `t`th tracked send looked like. */
  function SentAt(h: seq<Event>, t: nat): Option<Signature> {
    if h == [] then None
    else if h[|h| - 1].Tracked? && Tracks(h) == t then Some(h[|h| - 1].sig)
    else SentAt(h[..|h| - 1], t)
  }

  /** The messages answered as echoes. */
  function Swallowed(h: seq<Event>): set<MessageKey> {
    if h == [] then {}
    else
      var e := h[|h| - 1];
      Swallowed(h[..|h| - 1])
      + if e.Heard? && Hear(Run(h[..|h| - 1]), e.sig, e.id, e.now).0 then {KeyOf(e.sig, e.id)} else {}
  }

  function ClaimedKeys(claims: seq<Claim>): set<MessageKey> {
    set i | 0 <= i < |claims| :: claims[i].key
  }

  /** Tokens on the claims: in range and never twice. */
  ghost predicate ChargedOnce(claims: seq<Claim>, n: nat) {
    && (forall i :: 0 <= i < |claims| ==> 1 <= claims[i].token <= n)
    && (forall i, j :: 0 <= i < j < |claims| ==> claims[i].token != claims[j].token)
  }

  /** A pending token is its own send's, and has been charged to nothing. */
  ghost predicate Unspent(g: Guard) {
    && (forall k :: k in g.pending ==> 1 <= g.pending[k].token <= g.nextToken)
    && (forall i, k :: 0 <= i < |g.claims| && k in g.pending ==> g.claims[i].token != g.pending[k].token)
    && (forall j, k :: j in g.pending && k in g.pending && j != k ==> g.pending[j].token != g.pending[k].token)
  }

  /** Whatever is remembered as seen was charged to some send. */
  ghost predicate SeenIsClaimed(g: Guard) {
    forall k :: k in g.seen ==> k in ClaimedKeys(g.claims)
  }

  ghost predicate Inv(g: Guard) {
    ChargedOnce(g.claims, g.nextToken) && Unspent(g) && SeenIsClaimed(g)
  }

  lemma ShrinkKeepsInv(g: Guard, less: Guard)
    requires Inv(g) && less.claims == g.claims && less.nextToken == g.nextToken
    requires forall k :: k in less.pending ==> k in g.pending && less.pending[k] == g.pending[k]
    requires forall k :: k in less.seen ==> k in g.seen
    ensures Inv(less)
  {
  }

  lemma TrackKeepsInv(g: Guard, sig: Signature, bot: int, expiresAt: int)
    requires Inv(g)
    ensures Inv(g.(pending := g.pending[sig := Pending(bot, g.nextToken + 1, expiresAt)], nextToken := g.nextToken + 1))
  {
  }

  lemma MoreClaimedKeys(claims: seq<Claim>, c: Claim)
    ensures ClaimedKeys(claims + [c]) == ClaimedKeys(claims) + {c.key}
  {
    var more := claims + [c];
    assert more[|claims|] == c;
    assert forall i :: 0 <= i < |claims| ==> more[i] == claims[i];
    forall k | k in ClaimedKeys(claims) + {c.key} ensures k in ClaimedKeys(more) {
      if k in ClaimedKeys(claims) {
        var i :| 0 <= i < |claims| && claims[i].key == k;
        assert more[i].key == k;
      }
    }
  }

  lemma ChargeKeepsInv(g: Guard, sig: Signature, id: string, now: int)
    requires Inv(g) && sig in g.pending
    ensures Inv(Charge(g, sig, id, now))
  {
    MoreClaimedKeys(g.claims, Claim(g.pending[sig].token, sig, KeyOf(sig, id)));
    hide ClaimedKeys, KeyOf;
  }

  lemma EvictKeepsInv(g: Guard, now: int, bot: int)
    requires Inv(g)
    ensures Inv(Evicted(g, now)) && Inv(Cleared(g, bot))
  {
    hide Inv;
    ShrinkKeepsInv(g, Evicted(g, now));
    ShrinkKeepsInv(g, Cleared(g, bot));
  }

  lemma HearKeepsInv(g: Guard, sig: Signature, id: string, now: int)
    requires Inv(g)
    ensures Inv(Hear(g, sig, id, now).1)
    ensures Hear(g, sig, id, now).1.nextToken == g.nextToken
  {
    EvictKeepsInv(g, now, 0);
    var live := Evicted(g, now);
    assert live.claims == g.claims && live.nextToken == g.nextToken;
    hide Inv, Evicted, KeyOf;
    if sig in live.pending {
      ChargeKeepsInv(live, sig, id, now);
    }
  }

  lemma StepKeepsInv(g: Guard, e: Event)
    requires Inv(g)
    ensures Inv(Step(g, e)) && Step(g, e).nextToken == g.nextToken + (if e.Tracked? then 1 else 0)
  {
    hide Inv, Hear;
    match e
    case Tracked(sig, bot, now) =>
      EvictKeepsInv(g, now, 0);
      TrackKeepsInv(Evicted(g, now), sig, bot, now + ECHO_TTL_MS);
    case Cancelled(sig, token) =>
      ShrinkKeepsInv(g, Cancel(g, sig, token));
    case Heard(sig, id, now) =>
      HearKeepsInv(g, sig, id, now);
    case Clear(bot) =>
      EvictKeepsInv(g, 0, bot);
  }

  lemma {:induction false} RunKeepsInv(h: seq<Event>)
    ensures Inv(Run(h)) && Run(h).nextToken == Tracks(h)
  {
    if h != [] {
      RunKeepsInv(h[..|h| - 1]);
      StepKeepsInv(Run(h[..|h| - 1]), h[|h| - 1]);
      hide Step, Inv;
    }
  }

  /** Pending tokens and charges carry the look of the send they belong to. */
  ghost predicate LooksRight(h: seq<Event>, g: Guard) {
    && (forall k :: k in g.pending ==> SentAt(h, g.pending[k].token) == Some(k))
    && (forall i :: 0 <= i < |g.claims| ==> ClaimLooksRight(h, g.claims[i]))
  }

  predicate ClaimLooksRight(h: seq<Event>, c: Claim) {
    SentAt(h, c.token) == Some(c.sig) && c.key == KeyOf(c.sig, c.key.id)
  }

  lemma SentAtStays(p: seq<Event>, e: Event, t: nat)
    ensures t <= Tracks(p) ==> SentAt(p + [e], t) == SentAt(p, t)
    ensures e.Tracked? ==> SentAt(p + [e], Tracks(p) + 1) == Some(e.sig)
  {
    Front(p, e);
  }

  /** Where the entries of one step come from. */
  lemma StepOrigin(g: Guard, e: Event)
    ensures forall k :: k in Step(g, e).pending ==>
              || (k in g.pending && Step(g, e).pending[k] == g.pending[k])
              || (e.Tracked? && k == e.sig && Step(g, e).pending[k].token == g.nextToken + 1)
    ensures Step(g, e).claims == g.claims
            || (e.Heard? && e.sig in g.pending
                && Step(g, e).claims == g.claims + [Claim(g.pending[e.sig].token, e.sig, KeyOf(e.sig, e.id))])
  {
  }

  lemma {:induction false} LooksStayRight(p: seq<Event>, e: Event, g: Guard)
    requires Inv(g) && g.nextToken == Tracks(p) && LooksRight(p, g)
    ensures LooksRight(p + [e], Step(g, e))
  {
    StepOrigin(g, e);
    hide Step, SentAt, Tracks, KeyOf;
    var after := Step(g, e);
    forall k | k in after.pending ensures SentAt(p + [e], after.pending[k].token) == Some(k) {
      SentAtStays(p, e, after.pending[k].token);
    }
    forall i | 0 <= i < |after.claims| ensures ClaimLooksRight(p + [e], after.claims[i]) {
      SentAtStays(p, e, after.claims[i].token);
      if i < |g.claims| {
        assert ClaimLooksRight(p, g.claims[i]);
      } else {
        KeyOfKeepsId(e.sig, e.id);
      }
    }
  }

  lemma KeyOfKeepsId(sig: Signature, id: string)
    ensures KeyOf(sig, KeyOf(sig, id).id) == KeyOf(sig, id)
  {
  }

  lemma {:induction false} RunLooksRight(h: seq<Event>)
    ensures LooksRight(h, Run(h))
  {
    if h != [] {
      var p, e := h[..|h| - 1], h[|h| - 1];
      RunLooksRight(p);
      RunKeepsInv(p);
      LooksStayRight(p, e, Run(p));
      assert p + [e] == h;
      hide Step, LooksRight, Inv;
    }
  }

  lemma {:induction false} HeardIsClaimed(p: seq<Event>, e: Event)
    requires Inv(Run(p)) && e.Heard?
    ensures Run(p).claims <= Run(p + [e]).claims
    ensures Hear(Run(p), e.sig, e.id, e.now).0 ==> KeyOf(e.sig, e.id) in ClaimedKeys(Run(p + [e]).claims)
  {
    Front(p, e);
    var g := Run(p);
    if KeyOf(e.sig, e.id) !in Evicted(g, e.now).seen && e.sig in Evicted(g, e.now).pending {
      MoreClaimedKeys(g.claims, Claim(g.pending[e.sig].token, e.sig, KeyOf(e.sig, e.id)));
    }
    hide Inv, Run, ClaimedKeys, KeyOf;
  }

  lemma ClaimedKeysGrow(a: seq<Claim>, b: seq<Claim>)
    requires a <= b
    ensures ClaimedKeys(a) <= ClaimedKeys(b) && |ClaimedKeys(b)| <= |b|
  {
    forall k | k in ClaimedKeys(a) ensures k in ClaimedKeys(b) {
      var i :| 0 <= i < |a| && a[i].key == k;
      assert b[i].key == k;
    }
    ImageSize(b);
  }

  lemma {:induction false} ImageSize(claims: seq<Claim>)
    ensures |ClaimedKeys(claims)| <= |claims|
  {
    if claims != [] {
      var front, c := claims[..|claims| - 1], claims[|claims| - 1];
      ImageSize(front);
      MoreClaimedKeys(front, c);
      assert front + [c] == claims;
    }
  }

  lemma {:induction false} SwallowedAreClaimed(h: seq<Event>)
    ensures Swallowed(h) <= ClaimedKeys(Run(h).claims)
  {
    if h != [] {
      var p, e := h[..|h| - 1], h[|h| - 1];
      SwallowedAreClaimed(p);
      RunKeepsInv(p);
      assert p + [e] == h;
      StepOrigin(Run(p), e);
      ClaimedKeysGrow(Run(p).claims, Run(h).claims);
      if e.Heard? {
        HeardIsClaimed(p, e);
      }
      hide Hear, Inv, ClaimedKeys, KeyOf, Step;
    }
  }

  /** `key` was charged to a tracked send with the look of the message heard. */
  ghost predicate Accountable(h: seq<Event>, claims: seq<Claim>, key: MessageKey) {
    exists i :: 0 <= i < |claims| && claims[i].key == key && ClaimLooksRight(h, claims[i])
  }

  lemma ClaimedIsAccountable(h: seq<Event>, g: Guard, key: MessageKey)
    requires LooksRight(h, g) && key in ClaimedKeys(g.claims)
    ensures Accountable(h, g.claims, key)
  {
    hide ClaimLooksRight;
  }

  /**
   * Over every history the guard answers "echo" for no more messages than sends were tracked: every message
   * it swallowed was charged to a tracked send that looked exactly like it, and no send was charged twice.
   */
  lemma {:induction false} OneMessagePerSend(h: seq<Event>)
    ensures |Swallowed(h)| <= Tracks(h)
    ensures ChargedOnce(Run(h).claims, Tracks(h))
    ensures forall key :: key in Swallowed(h) ==> Accountable(h, Run(h).claims, key)
  {
    RunKeepsInv(h);
    assert ChargedOnce(Run(h).claims, Tracks(h));
    hide *;
    RunLooksRight(h);
    SwallowedAreClaimed(h);
    var claims := Run(h).claims;
    ClaimedKeysGrow(claims, claims);
    SubsetSize(Swallowed(h), ClaimedKeys(claims));
    TokensBound(claims, Tracks(h));
    forall key | key in Swallowed(h) ensures Accountable(h, claims, key) {
      ClaimedIsAccountable(h, Run(h), key);
    }
  }

  function Tokens(claims: seq<Claim>): (r: seq<nat>)
    ensures |r| == |claims| && forall i :: 0 <= i < |claims| ==> r[i] == claims[i].token
  {
    seq(|claims|, i requires 0 <= i < |claims| => claims[i].token)
  }

  lemma TokensBound(claims: seq<Claim>, n: nat)
    requires ChargedOnce(claims, n)
    ensures |claims| <= n
  {
    DistinctSize(Tokens(claims));
    UpTo(n);
    assert Elements(Tokens(claims)) <= Issued(n);
    SubsetSize(Elements(Tokens(claims)), Issued(n));
  }

  /** The tokens handed out so far. */
  function Issued(n: nat): set<nat> {
    if n == 0 then {} else Issued(n - 1) + {n}
  }

  lemma {:induction false} UpTo(n: nat)
    ensures |Issued(n)| == n && forall t: nat :: t in Issued(n) <==> 1 <= t <= n
  {
    if n > 0 {
      UpTo(n - 1);
    }
  }

  // ----- the guard read off the history -----

  /** The event moves the clock of the tables past `until`. */
  predicate Lapses(e: Event, until: int) {
    (e.Tracked? || e.Heard?) && e.now >= until
  }

  /** The token the `k`th event's send was given. */
  function TokenOf(h: seq<Event>, k: nat): nat
    requires k < |h|
  {
    Tracks(h[..k + 1])
  }

  /**
   * Event `j` ends the wait of the send at `k`: the same look is sent again, it is cancelled, its bot is
   * cleared, its time runs out, or a message of its look arrives that is not already remembered.
   */
  ghost predicate EndsWait(h: seq<Event>, k: nat, j: nat)
    requires k < j < |h| && h[k].Tracked?
    decreases |h|, 0
  {
    var e := h[j];
    || (e.Tracked? && e.sig == h[k].sig)
    || e == Cancelled(h[k].sig, TokenOf(h, k))
    || e == Clear(h[k].bot)
    || Lapses(e, h[k].now + ECHO_TTL_MS)
    || (e.Heard? && e.sig == h[k].sig && !Remembered(h[..j], KeyOf(e.sig, e.id), e.now))
  }

  /** The send at `k` still waits for its echo. */
  ghost predicate Waits(h: seq<Event>, k: nat, sig: Signature)
    decreases |h|, 1
  {
    && k < |h| && h[k].Tracked? && h[k].sig == sig
    && forall j :: k < j < |h| ==> !EndsWait(h, k, j)
  }

  /** The message at `i` was new and was charged to the send at `k`. */
  ghost predicate Charges(h: seq<Event>, i: nat, k: nat)
    requires i < |h| && h[i].Heard?
    decreases |h|, 0
  {
    && !Remembered(h[..i], KeyOf(h[i].sig, h[i].id), h[i].now)
    && Waits(h[..i], k, h[i].sig) && h[i].now < h[k].now + ECHO_TTL_MS
  }

  /** The charge at `i` is still remembered for message `key`. */
  ghost predicate Recalls(h: seq<Event>, i: nat, k: nat, key: MessageKey)
    decreases |h|, 1
  {
    && k < i < |h| && h[i].Heard? && h[k].Tracked? && KeyOf(h[i].sig, h[i].id) == key && Charges(h, i, k)
    && forall j :: i < j < |h| ==> h[j] != Clear(h[k].bot) && !Lapses(h[j], h[i].now + ECHO_TTL_MS)
  }

  ghost predicate Remembered(h: seq<Event>, key: MessageKey, now: int)
    decreases |h|, 2
  {
    exists i: nat, k: nat :: Recalls(h, i, k, key) && now < h[i].now + ECHO_TTL_MS
  }

  /** Some send of this look waits for its echo and its time is not over. */
  ghost predicate Outstanding(h: seq<Event>, sig: Signature, now: int) {
    exists k: nat :: Waits(h, k, sig) && now < h[k].now + ECHO_TTL_MS
  }

  // ----- one more event -----

  lemma {:induction false} WaitsSnoc(p: seq<Event>, e: Event, k: nat, sig: Signature)
    ensures k < |p| ==> (Waits(p + [e], k, sig) <==> Waits(p, k, sig) && !EndsWait(p + [e], k, |p|))
    ensures Waits(p + [e], |p|, sig) <==> e.Tracked? && e.sig == sig
    ensures k > |p| ==> !Waits(p + [e], k, sig)
  {
    var h := p + [e];
    if k < |p| && p[k].Tracked? {
      assert h[..k + 1] == p[..k + 1];
      forall j | k < j < |p| ensures EndsWait(h, k, j) <==> EndsWait(p, k, j) {
        assert h[..j] == p[..j];
      }
      hide EndsWait;
    }
  }

  lemma {:induction false} RecallsSnoc(p: seq<Event>, e: Event, i: nat, k: nat, key: MessageKey)
    ensures i < |p| ==> (Recalls(p + [e], i, k, key)
                         <==> Recalls(p, i, k, key) && e != Clear(p[k].bot) && !Lapses(e, p[i].now + ECHO_TTL_MS))
    ensures Recalls(p + [e], |p|, k, key)
            <==> e.Heard? && k < |p| && p[k].Tracked? && KeyOf(e.sig, e.id) == key
                 && !Remembered(p, key, e.now) && Waits(p, k, e.sig) && e.now < p[k].now + ECHO_TTL_MS
    ensures i > |p| ==> !Recalls(p + [e], i, k, key)
  {
    var h := p + [e];
    Front(p, e);
    if i < |p| && h[i].Heard? {
      assert h[..i] == p[..i];
      assert k < i ==> h[k] == p[k];
    }
    hide Remembered, Waits;
  }

  /** The pending table holds exactly the sends that wait. */
  ghost predicate PendingAgrees(h: seq<Event>, g: Guard) {
    && (forall sig :: sig in g.pending ==> exists k: nat :: Waits(h, k, sig))
    && (forall sig, k: nat :: Waits(h, k, sig) ==>
          sig in g.pending && g.pending[sig] == Pending(h[k].bot, TokenOf(h, k), h[k].now + ECHO_TTL_MS))
  }

  /** The seen table holds exactly the charges that are remembered. */
  ghost predicate SeenAgrees(h: seq<Event>, g: Guard) {
    && (forall key :: key in g.seen ==> exists i: nat, k: nat :: Recalls(h, i, k, key))
    && (forall key, i: nat, k: nat :: Recalls(h, i, k, key) ==>
          key in g.seen && g.seen[key] == Seen(h[k].bot, h[i].now + ECHO_TTL_MS))
  }

  lemma {:induction false} RememberedIsLive(h: seq<Event>, g: Guard, key: MessageKey, now: int)
    requires SeenAgrees(h, g)
    ensures Remembered(h, key, now) <==> key in Evicted(g, now).seen
  {
    hide Recalls;
    if key in g.seen {
      var i: nat, k: nat :| Recalls(h, i, k, key);
    }
  }

  lemma OutstandingIsLive(h: seq<Event>, g: Guard, sig: Signature, now: int)
    requires PendingAgrees(h, g)
    ensures Outstanding(h, sig, now) <==> sig in Evicted(g, now).pending
  {
    hide Waits;
    if sig in g.pending {
      var k: nat :| Waits(h, k, sig);
    }
  }

  lemma {:induction false} TokenStays(p: seq<Event>, e: Event, k: nat)
    ensures k < |p| ==> TokenOf(p + [e], k) == TokenOf(p, k) && (p + [e])[k] == p[k]
    ensures e.Tracked? ==> TokenOf(p + [e], |p|) == Tracks(p) + 1
  {
    Front(p, e);
    if k < |p| {
      assert (p + [e])[..k + 1] == p[..k + 1];
    }
    assert (p + [e])[..|p| + 1] == p + [e];
  }

  /** One event takes a waiting send out of the table exactly when it ends its wait. */
  lemma {:induction false} WaitEndsTogether(p: seq<Event>, e: Event, g: Guard, sig: Signature, k: nat)
    requires PendingAgrees(p, g) && SeenAgrees(p, g) && Waits(p, k, sig) && !(e.Tracked? && e.sig == sig)
    ensures EndsWait(p + [e], k, |p|) <==> sig !in Step(g, e).pending
    ensures sig in Step(g, e).pending ==> Step(g, e).pending[sig] == g.pending[sig]
  {
    Front(p, e);
    TokenStays(p, e, k);
    assert sig in g.pending && g.pending[sig] == Pending(p[k].bot, TokenOf(p, k), p[k].now + ECHO_TTL_MS);
    if e.Heard? {
      RememberedIsLive(p, g, KeyOf(e.sig, e.id), e.now);
    }
    hide PendingAgrees, SeenAgrees, Remembered, TokenOf, KeyOf;
  }

  lemma {:induction false} PendingStep(p: seq<Event>, e: Event, g: Guard)
    requires PendingAgrees(p, g) && SeenAgrees(p, g) && g.nextToken == Tracks(p)
    ensures PendingAgrees(p + [e], Step(g, e))
  {
    var h, after := p + [e], Step(g, e);
    forall sig | sig in after.pending ensures exists k: nat :: Waits(h, k, sig) {
      PendingHasSend(p, e, g, sig);
    }
    forall sig, k: nat | Waits(h, k, sig)
      ensures sig in after.pending && after.pending[sig] == Pending(h[k].bot, TokenOf(h, k), h[k].now + ECHO_TTL_MS)
    {
      SendIsPending(p, e, g, sig, k);
    }
    hide Step, Waits;
  }

  lemma {:induction false} PendingHasSend(p: seq<Event>, e: Event, g: Guard, sig: Signature)
    requires PendingAgrees(p, g) && SeenAgrees(p, g) && sig in Step(g, e).pending
    ensures exists k: nat :: Waits(p + [e], k, sig)
  {
    StepOrigin(g, e);
    if e.Tracked? && e.sig == sig {
      WaitsSnoc(p, e, |p|, sig);
    } else {
      var k: nat :| Waits(p, k, sig);
      WaitEndsTogether(p, e, g, sig, k);
      WaitsSnoc(p, e, k, sig);
      assert k < |p|;
    }
    hide Step, EndsWait;
  }

  lemma {:induction false} SendIsPending(p: seq<Event>, e: Event, g: Guard, sig: Signature, k: nat)
    requires PendingAgrees(p, g) && SeenAgrees(p, g) && g.nextToken == Tracks(p) && Waits(p + [e], k, sig)
    ensures var h := p + [e];
            sig in Step(g, e).pending && k < |h| && h[k].Tracked?
            && Step(g, e).pending[sig] == Pending(h[k].bot, TokenOf(h, k), h[k].now + ECHO_TTL_MS)
  {
    WaitsSnoc(p, e, k, sig);
    TokenStays(p, e, k);
    if k < |p| {
      NewerSendEnds(p, e, k, sig);
      WaitEndsTogether(p, e, g, sig, k);
      hide Step;
    }
    hide EndsWait, TokenOf, SeenAgrees;
  }

  lemma {:induction false} NewerSendEnds(p: seq<Event>, e: Event, k: nat, sig: Signature)
    requires k < |p| && Waits(p, k, sig)
    ensures e.Tracked? && e.sig == sig ==> EndsWait(p + [e], k, |p|)
  {
  }

  /** One event forgets a remembered charge exactly as the table does. */
  lemma {:induction false} RecallEndsTogether(p: seq<Event>, e: Event, g: Guard, key: MessageKey, i: nat, k: nat)
    requires SeenAgrees(p, g) && Recalls(p, i, k, key)
    ensures e != Clear(p[k].bot) && !Lapses(e, p[i].now + ECHO_TTL_MS)
            ==> key in Step(g, e).seen && Step(g, e).seen[key] == g.seen[key]
    ensures e == Clear(p[k].bot) || Lapses(e, p[i].now + ECHO_TTL_MS)
            ==> key !in Step(g, e).seen || (e.Heard? && KeyOf(e.sig, e.id) == key && key !in Evicted(g, e.now).seen)
  {
    assert key in g.seen && g.seen[key] == Seen(p[k].bot, p[i].now + ECHO_TTL_MS);
    hide Recalls, SeenAgrees, KeyOf;
  }

  /** A message enters the table exactly when it is charged. */
  lemma {:induction false} NewlySeen(p: seq<Event>, e: Event, g: Guard, key: MessageKey, k: nat)
    requires PendingAgrees(p, g) && SeenAgrees(p, g)
    requires e.Heard? && key == KeyOf(e.sig, e.id) && !Remembered(p, key, e.now)
    requires Waits(p, k, e.sig) && e.now < p[k].now + ECHO_TTL_MS
    ensures key in Step(g, e).seen && Step(g, e).seen[key] == Seen(p[k].bot, e.now + ECHO_TTL_MS)
  {
    RememberedIsLive(p, g, key, e.now);
    assert e.sig in g.pending && g.pending[e.sig] == Pending(p[k].bot, TokenOf(p, k), p[k].now + ECHO_TTL_MS);
    hide PendingAgrees, SeenAgrees, Remembered, TokenOf, Waits;
  }

  /** A message is new to the table at this event. */
  predicate Enters(g: Guard, e: Event, key: MessageKey) {
    e.Heard? && KeyOf(e.sig, e.id) == key && key !in Evicted(g, e.now).seen
  }

  lemma {:induction false} SeenHasCharge(p: seq<Event>, e: Event, g: Guard, key: MessageKey)
    requires PendingAgrees(p, g) && SeenAgrees(p, g) && key in Step(g, e).seen
    ensures exists i: nat, k: nat :: Recalls(p + [e], i, k, key)
  {
    if Enters(g, e, key) {
      EnteringIsCharged(p, e, g, key);
    } else {
      SeenBefore(g, e, key);
      var i: nat, k: nat :| Recalls(p, i, k, key);
      RecallEndsTogether(p, e, g, key, i, k);
      RecallsSnoc(p, e, i, k, key);
      assert i < |p|;
    }
    hide Step, SeenAgrees, PendingAgrees, KeyOf;
  }

  lemma SeenBefore(g: Guard, e: Event, key: MessageKey)
    requires key in Step(g, e).seen && !Enters(g, e, key)
    ensures key in g.seen
  {
  }

  lemma {:induction false} EnteringIsCharged(p: seq<Event>, e: Event, g: Guard, key: MessageKey)
    requires PendingAgrees(p, g) && SeenAgrees(p, g) && key in Step(g, e).seen && Enters(g, e, key)
    ensures exists i: nat, k: nat :: Recalls(p + [e], i, k, key)
  {
    RememberedIsLive(p, g, key, e.now);
    OutstandingIsLive(p, g, e.sig, e.now);
    hide PendingAgrees, SeenAgrees, Waits, Recalls, Remembered;
    assert e.sig in Evicted(g, e.now).pending by {
      hide Outstanding;
    }
    var k: nat :| Waits(p, k, e.sig) && e.now < p[k].now + ECHO_TTL_MS;
    WaitingIsSend(p, k, e.sig);
    RecallsSnoc(p, e, |p|, k, key);
  }

  lemma {:induction false} WaitingIsSend(p: seq<Event>, k: nat, sig: Signature)
    requires Waits(p, k, sig)
    ensures k < |p| && p[k].Tracked?
  {
  }

  lemma {:induction false} ChargeIsSeen(p: seq<Event>, e: Event, g: Guard, key: MessageKey, i: nat, k: nat)
    requires PendingAgrees(p, g) && SeenAgrees(p, g) && Recalls(p + [e], i, k, key)
    ensures var h := p + [e];
            k < i < |h| && h[k].Tracked? && h[i].Heard? && key in Step(g, e).seen
            && Step(g, e).seen[key] == Seen(h[k].bot, h[i].now + ECHO_TTL_MS)
  {
    RecallsSnoc(p, e, i, k, key);
    Front(p, e);
    if i == |p| {
      NewlySeen(p, e, g, key, k);
    } else {
      RecallEndsTogether(p, e, g, key, i, k);
    }
    hide Step, PendingAgrees, Waits, Remembered, Charges;
  }

  lemma SeenStep(p: seq<Event>, e: Event, g: Guard)
    requires PendingAgrees(p, g) && SeenAgrees(p, g)
    ensures SeenAgrees(p + [e], Step(g, e))
  {
    var h, after := p + [e], Step(g, e);
    hide Step, Recalls, PendingAgrees;
    forall key | key in after.seen ensures exists i: nat, k: nat :: Recalls(h, i, k, key) {
      SeenHasCharge(p, e, g, key);
    }
    forall key, i: nat, k: nat | Recalls(h, i, k, key)
      ensures k < i < |h| && h[k].Tracked? && h[i].Heard?
      ensures key in after.seen && after.seen[key] == Seen(h[k].bot, h[i].now + ECHO_TTL_MS)
    {
      ChargeIsSeen(p, e, g, key, i, k);
    }
  }

  lemma NothingAgrees()
    ensures PendingAgrees([], EMPTY) && SeenAgrees([], EMPTY)
  {
  }

  lemma {:induction false} TablesAgree(h: seq<Event>)
    ensures PendingAgrees(h, Run(h)) && SeenAgrees(h, Run(h))
  {
    if h == [] {
      NothingAgrees();
    } else {
      var p, e := h[..|h| - 1], h[|h| - 1];
      TablesAgree(p);
      RunKeepsInv(p);
      PendingStep(p, e, Run(p));
      SeenStep(p, e, Run(p));
      assert p + [e] == h;
    }
    hide PendingAgrees, SeenAgrees, Step, Inv;
  }

  /**
   * Over every history, which messages count as echoes: those remembered from an earlier charge, and those
   * a waiting send of exactly their look is still in time for; and no others.
   */
  lemma {:induction false} EchoExactly(h: seq<Event>, sig: Signature, id: string, now: int)
    ensures Hear(Run(h), sig, id, now).0 <==> Remembered(h, KeyOf(sig, id), now) || Outstanding(h, sig, now)
  {
    TablesAgree(h);
    RememberedIsLive(h, Run(h), KeyOf(sig, id), now);
    OutstandingIsLive(h, Run(h), sig, now);
    hide Run, PendingAgrees, SeenAgrees, Remembered, Outstanding, Evicted, KeyOf;
  }

  ghost predicate HeardBefore(h: seq<Event>, key: MessageKey) {
    exists i :: 0 <= i < |h| && h[i].Heard? && KeyOf(h[i].sig, h[i].id) == key
  }

  lemma {:induction false} UnheardIsNew(h: seq<Event>, key: MessageKey, now: int)
    requires !HeardBefore(h, key)
    ensures !Remembered(h, key, now)
  {
    hide Charges;
  }

  /**
   * An id never heard before is swallowed exactly when a send of its look waits: since the last such send
   * no new message of that look arrived, nobody cancelled it, its bot was not cleared and its time is not
   * over.  A second identical send therefore replaces the first, and of the two echoes only one is caught.
   */
  lemma {:induction false} FreshSwallowedExactly(h: seq<Event>, sig: Signature, id: string, now: int)
    requires !HeardBefore(h, KeyOf(sig, id))
    ensures Hear(Run(h), sig, id, now).0 <==> Outstanding(h, sig, now)
  {
    EchoExactly(h, sig, id, now);
    UnheardIsNew(h, KeyOf(sig, id), now);
    hide Remembered, Outstanding, Hear, Run;
  }

  /** Once the same reply is sent again before its echo came, the first send never swallows anything. */
  lemma {:induction false} ReplacedSendSwallowsNothing(h: seq<Event>, k: nat, j: nat, i: nat)
    requires k < j < i < |h| && h[k].Tracked? && h[j].Tracked? && h[j].sig == h[k].sig && h[i].Heard?
    ensures !Charges(h, i, k)
  {
    if Waits(h[..i], k, h[i].sig) {
      assert EndsWait(h[..i], k, j);
    }
  }

  // ----- the tables -----

  class EchoGuard {
    var pendingReplies: map<Signature, Pending>
    var seenMessageIds: map<MessageKey, Seen>
    var nextToken: nat
    ghost var claims: seq<Claim>

    ghost function View(): Guard
      reads this
    {
      Guard(pendingReplies, seenMessageIds, nextToken, claims)
    }

    constructor ()
      ensures View() == Run([])
    {
      pendingReplies, seenMessageIds, nextToken, claims := map[], map[], 0, [];
    }

    method EvictExpired(now: int)
      modifies this
      ensures View() == Evicted(old(View()), now)
    {
      var keys := pendingReplies.Keys;
      while keys != {}
        invariant keys <= pendingReplies.Keys <= old(pendingReplies).Keys
        invariant forall k :: k in pendingReplies ==> pendingReplies[k] == old(pendingReplies)[k]
        invariant forall k :: k in old(pendingReplies) && k !in keys ==>
                    (k in pendingReplies <==> old(pendingReplies)[k].expiresAt > now)
        invariant seenMessageIds == old(seenMessageIds) && nextToken == old(nextToken) && claims == old(claims)
        decreases keys
      {
        var k :| k in keys;
        keys := keys - {k};
        if pendingReplies[k].expiresAt <= now {
          pendingReplies := pendingReplies - {k};
        }
      }
      assert pendingReplies == Evicted(old(View()), now).pending;
      var ids := seenMessageIds.Keys;
      while ids != {}
        invariant ids <= seenMessageIds.Keys <= old(seenMessageIds).Keys
        invariant forall k :: k in seenMessageIds ==> seenMessageIds[k] == old(seenMessageIds)[k]
        invariant forall k :: k in old(seenMessageIds) && k !in ids ==>
                    (k in seenMessageIds <==> old(seenMessageIds)[k].expiresAt > now)
        invariant pendingReplies == Evicted(old(View()), now).pending && nextToken == old(nextToken) && claims == old(claims)
        decreases ids
      {
        var k :| k in ids;
        ids := ids - {k};
        if seenMessageIds[k].expiresAt <= now {
          seenMessageIds := seenMessageIds - {k};
        }
      }
      assert seenMessageIds == Evicted(old(View()), now).seen;
    }

    method TrackAutomaticReply(sig: Signature, bot: int, now: int) returns (token: nat)
      modifies this
      ensures View() == Track(old(View()), sig, bot, now) && token == nextToken
    {
      EvictExpired(now);
      nextToken := nextToken + 1;
      token := nextToken;
      pendingReplies := pendingReplies[sig := Pending(bot, token, now + ECHO_TTL_MS)];
    }

    method CancelReply(sig: Signature, token: nat)
      modifies this
      ensures View() == Cancel(old(View()), sig, token)
    {
      if sig in pendingReplies && pendingReplies[sig].token == token {
        pendingReplies := pendingReplies - {sig};
      }
    }

    method IsAutomaticReplyEcho(sig: Signature, id: string, now: int) returns (echo: bool)
      modifies this
      ensures (echo, View()) == Hear(old(View()), sig, id, now)
    {
      EvictExpired(now);
      var key := KeyOf(sig, id);
      if key in seenMessageIds {
        return true;
      }
      if sig !in pendingReplies {
        return false;
      }
      var pending := pendingReplies[sig];
      pendingReplies := pendingReplies - {sig};
      seenMessageIds := seenMessageIds[key := Seen(pending.bot, now + ECHO_TTL_MS)];
      claims := claims + [Claim(pending.token, sig, key)];
      return true;
    }

    method ClearAutomaticReplyEchoes(bot: int)
      modifies this
      ensures View() == Cleared(old(View()), bot)
    {
      pendingReplies := map k | k in pendingReplies && pendingReplies[k].bot != bot :: pendingReplies[k];
      seenMessageIds := map k | k in seenMessageIds && seenMessageIds[k].bot != bot :: seenMessageIds[k];
    }
  }
}
