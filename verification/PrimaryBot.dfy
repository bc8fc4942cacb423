/** Which of an owner's bots in one room performs the send. */
module PrimaryBot {
  import opened Prelude

  datatype Status = Online | Connecting | Offline

  datatype BotRow = BotRow(id: int, owner: Option<int>, status: Status)

  datatype ChatRow = ChatRow(square: bool, enabled: bool, isPrimary: bool)

  /** `bots` in account-age order (`created_at`, then id) and `chats` by bot and room. */
  datatype Tables = Tables(bots: seq<BotRow>, chats: map<(int, string), ChatRow>)

  datatype RoomBot = RoomBot(botId: int, isPrimary: bool, status: Status)

  /** Bot ids are a primary key. */
  ghost predicate DistinctIds(bots: seq<BotRow>) {
    forall i, j :: 0 <= i < j < |bots| ==> bots[i].id != bots[j].id
  }

  predicate InRoom(bot: BotRow, chats: map<(int, string), ChatRow>, owner: int, mid: string) {
    && bot.owner == Some(owner)
    && (bot.id, mid) in chats
    && chats[(bot.id, mid)].square && chats[(bot.id, mid)].enabled
  }

  /** `siblings`: the owner's bots enabled in this room, oldest account first. */
  function Siblings(bots: seq<BotRow>, chats: map<(int, string), ChatRow>, owner: int, mid: string): (r: seq<RoomBot>)
    ensures |r| <= |bots|
  {
    if bots == [] then []
    else
      var b := bots[0];
      var rest := Siblings(bots[1..], chats, owner, mid);
      if InRoom(b, chats, owner, mid) then [RoomBot(b.id, chats[(b.id, mid)].isPrimary, b.status)] + rest
      else rest
  }

  function FirstPrimary(group: seq<RoomBot>): (i: int)
    ensures -1 <= i < |group|
    ensures i >= 0 ==> group[i].isPrimary && forall j :: 0 <= j < i ==> !group[j].isPrimary
    ensures i == -1 ==> forall j :: 0 <= j < |group| ==> !group[j].isPrimary
  {
    if group == [] then -1
    else if group[0].isPrimary then 0
    else
      var r := FirstPrimary(group[1..]);
      if r == -1 then -1 else r + 1
  }

  function FirstOnline(group: seq<RoomBot>): (i: int)
    ensures -1 <= i < |group|
    ensures i >= 0 ==> group[i].status.Online? && forall j :: 0 <= j < i ==> !group[j].status.Online?
    ensures i == -1 ==> forall j :: 0 <= j < |group| ==> !group[j].status.Online?
  {
    if group == [] then -1
    else if group[0].status.Online? then 0
    else
      var r := FirstOnline(group[1..]);
      if r == -1 then -1 else r + 1
  }

  /** The explicit primary if online, else the oldest online bot, else the explicit one, else the oldest. */
  function Answerer(group: seq<RoomBot>): (bot: RoomBot)
    requires group != []
    ensures bot in group
  {
    var explicit, online := FirstPrimary(group), FirstOnline(group);
    if explicit >= 0 && group[explicit].status.Online? then group[explicit]
    else if online >= 0 then group[online]
    else if explicit >= 0 then group[explicit]
    else group[0]
  }

  /** `primaryBotIdFor`: `None` means "send from your own client". */
  function PrimaryBotIdFor(t: Tables, detecting: int, mid: string, owner: Option<int>): Option<int> {
    if owner.None? then None
    else
      var group := Siblings(t.bots, t.chats, owner.value, mid);
      if |group| <= 1 then None
      else if Answerer(group).botId == detecting then None
      else Some(Answerer(group).botId)
  }

  /** The bot whose account a detection by `detecting` is meant to go out under. */
  function Designated(t: Tables, detecting: int, mid: string, owner: Option<int>): int {
    PrimaryBotIdFor(t, detecting, mid, owner).GetOr(detecting)
  }

  ghost predicate IsSibling(t: Tables, botId: int, mid: string, owner: int) {
    exists bot :: bot in t.bots && bot.id == botId && InRoom(bot, t.chats, owner, mid)
  }

  lemma {:induction false} SiblingsAre(bots: seq<BotRow>, chats: map<(int, string), ChatRow>, owner: int, mid: string, id: int)
    ensures (exists r :: r in Siblings(bots, chats, owner, mid) && r.botId == id)
       <==> (exists b :: b in bots && b.id == id && InRoom(b, chats, owner, mid))
  {
    if bots != [] {
      SiblingsAre(bots[1..], chats, owner, mid, id);
      var g, rest := Siblings(bots, chats, owner, mid), Siblings(bots[1..], chats, owner, mid);
      if InRoom(bots[0], chats, owner, mid) {
        assert g == [g[0]] + rest && g[0].botId == bots[0].id;
      }
      assert forall b :: b in bots <==> b == bots[0] || b in bots[1..];
    }
  }

  /** Consensus: every sibling that detects a trigger in the room names the same sender. */
  lemma SiblingsAgree(t: Tables, a: int, b: int, mid: string, owner: int)
    requires IsSibling(t, a, mid, owner) && IsSibling(t, b, mid, owner)
    ensures Designated(t, a, mid, Some(owner)) == Designated(t, b, mid, Some(owner))
  {
    SiblingsAre(t.bots, t.chats, owner, mid, a);
    SiblingsAre(t.bots, t.chats, owner, mid, b);
  }

  /** The sender named is itself a sibling, and it is online whenever any sibling is. */
  lemma {:induction false} DesignatedIsLive(t: Tables, a: int, mid: string, owner: int)
    requires IsSibling(t, a, mid, owner)
    ensures IsSibling(t, Designated(t, a, mid, Some(owner)), mid, owner)
    ensures (exists r :: r in Siblings(t.bots, t.chats, owner, mid) && r.status.Online?) ==>
              exists r :: r in Siblings(t.bots, t.chats, owner, mid)
                          && r.botId == Designated(t, a, mid, Some(owner)) && r.status.Online?
  {
    var group := Siblings(t.bots, t.chats, owner, mid);
    SiblingsAre(t.bots, t.chats, owner, mid, a);
    var self :| self in group && self.botId == a;
    if |group| == 1 {
      assert group[0] == self;
    } else {
      assert Answerer(group).botId == Designated(t, a, mid, Some(owner));
      SiblingsAre(t.bots, t.chats, owner, mid, Answerer(group).botId);
    }
  }

  /** The account that really sends: the designated one when it has a live client, else the detector. */
  function SendingBot(t: Tables, connected: set<int>, detecting: int, mid: string, owner: Option<int>): int {
    var primary := PrimaryBotIdFor(t, detecting, mid, owner);
    if primary.Some? && primary.value in connected then primary.value else detecting
  }

  /** Two connected siblings answer under one identity exactly when the designated one is connected. */
  lemma OneIdentityExactlyWhenDesignatedConnected(t: Tables, connected: set<int>, a: int, b: int, mid: string, owner: int)
    requires IsSibling(t, a, mid, owner) && IsSibling(t, b, mid, owner) && a != b
    requires a in connected && b in connected
    ensures SendingBot(t, connected, a, mid, Some(owner)) == SendingBot(t, connected, b, mid, Some(owner))
       <==> Designated(t, a, mid, Some(owner)) in connected
  {
    SiblingsAgree(t, a, b, mid, owner);
    var group := Siblings(t.bots, t.chats, owner, mid);
    SiblingsAre(t.bots, t.chats, owner, mid, a);
    SiblingsAre(t.bots, t.chats, owner, mid, b);
    TwoMembers(group, a, b);
  }

  lemma TwoMembers(group: seq<RoomBot>, a: int, b: int)
    requires a != b
    requires exists r :: r in group && r.botId == a
    requires exists r :: r in group && r.botId == b
    ensures |group| >= 2
  {
    var ra :| ra in group && ra.botId == a;
    var rb :| rb in group && rb.botId == b;
    var i :| 0 <= i < |group| && group[i] == ra;
    var j :| 0 <= j < |group| && group[j] == rb;
    assert i != j;
  }

  // ----- who is designated -----

  /** One of the owner's bots, enabled in this OpenChat room. */
  ghost predicate Member(b: BotRow, chats: map<(int, string), ChatRow>, owner: int, mid: string) {
    b.owner == Some(owner) && (b.id, mid) in chats && chats[(b.id, mid)].square && chats[(b.id, mid)].enabled
  }

  ghost predicate Flagged(b: BotRow, chats: map<(int, string), ChatRow>, owner: int, mid: string) {
    Member(b, chats, owner, mid) && chats[(b.id, mid)].isPrimary
  }

  ghost predicate LiveMember(b: BotRow, chats: map<(int, string), ChatRow>, owner: int, mid: string) {
    Member(b, chats, owner, mid) && b.status == Online
  }

  /** The oldest account of those: nobody before it in account-age order is one. */
  ghost predicate OldestMember(bots: seq<BotRow>, chats: map<(int, string), ChatRow>, owner: int, mid: string, i: nat) {
    i < |bots| && Member(bots[i], chats, owner, mid) && forall j :: 0 <= j < i ==> !Member(bots[j], chats, owner, mid)
  }

  ghost predicate OldestFlagged(bots: seq<BotRow>, chats: map<(int, string), ChatRow>, owner: int, mid: string, i: nat) {
    i < |bots| && Flagged(bots[i], chats, owner, mid) && forall j :: 0 <= j < i ==> !Flagged(bots[j], chats, owner, mid)
  }

  ghost predicate OldestLive(bots: seq<BotRow>, chats: map<(int, string), ChatRow>, owner: int, mid: string, i: nat) {
    i < |bots| && LiveMember(bots[i], chats, owner, mid) && forall j :: 0 <= j < i ==> !LiveMember(bots[j], chats, owner, mid)
  }

  lemma {:induction false} FirstSibling(bots: seq<BotRow>, chats: map<(int, string), ChatRow>, owner: int, mid: string, i: nat)
    requires OldestMember(bots, chats, owner, mid, i)
    ensures var g := Siblings(bots, chats, owner, mid); g != [] && g[0].botId == bots[i].id
  {
    if i > 0 {
      assert !Member(bots[0], chats, owner, mid);
      assert forall j :: 0 <= j < i - 1 ==> bots[1..][j] == bots[j + 1];
      FirstSibling(bots[1..], chats, owner, mid, i - 1);
    }
  }

  lemma {:induction false} FirstFlagged(bots: seq<BotRow>, chats: map<(int, string), ChatRow>, owner: int, mid: string)
    ensures var g := Siblings(bots, chats, owner, mid);
            var k := FirstPrimary(g);
            && (k == -1 ==> forall i :: 0 <= i < |bots| ==> !Flagged(bots[i], chats, owner, mid))
            && (k >= 0 ==> exists i: nat :: OldestFlagged(bots, chats, owner, mid, i) && g[k].botId == bots[i].id && g[k].status == bots[i].status)
  {
    if bots != [] {
      FirstFlagged(bots[1..], chats, owner, mid);
      var g, rest := Siblings(bots, chats, owner, mid), Siblings(bots[1..], chats, owner, mid);
      if Flagged(bots[0], chats, owner, mid) {
        assert OldestFlagged(bots, chats, owner, mid, 0) && FirstPrimary(g) == 0;
      } else {
        assert Member(bots[0], chats, owner, mid) ==> g[1..] == rest && !g[0].isPrimary;
        var r := FirstPrimary(rest);
        if r >= 0 {
          var i: nat :| OldestFlagged(bots[1..], chats, owner, mid, i) && rest[r].botId == bots[1..][i].id && rest[r].status == bots[1..][i].status;
          assert forall j :: 0 < j <= i ==> bots[j] == bots[1..][j - 1];
          assert OldestFlagged(bots, chats, owner, mid, i + 1);
        } else {
          assert forall j :: 0 < j < |bots| ==> bots[j] == bots[1..][j - 1];
        }
      }
    }
  }

  lemma {:induction false} FirstLive(bots: seq<BotRow>, chats: map<(int, string), ChatRow>, owner: int, mid: string)
    ensures var g := Siblings(bots, chats, owner, mid);
            var k := FirstOnline(g);
            && (k == -1 ==> forall i :: 0 <= i < |bots| ==> !LiveMember(bots[i], chats, owner, mid))
            && (k >= 0 ==> exists i: nat :: OldestLive(bots, chats, owner, mid, i) && g[k].botId == bots[i].id)
  {
    if bots != [] {
      FirstLive(bots[1..], chats, owner, mid);
      var g, rest := Siblings(bots, chats, owner, mid), Siblings(bots[1..], chats, owner, mid);
      if LiveMember(bots[0], chats, owner, mid) {
        assert OldestLive(bots, chats, owner, mid, 0) && FirstOnline(g) == 0;
      } else {
        assert Member(bots[0], chats, owner, mid) ==> g[1..] == rest && !g[0].status.Online?;
        var r := FirstOnline(rest);
        if r >= 0 {
          var i: nat :| OldestLive(bots[1..], chats, owner, mid, i) && rest[r].botId == bots[1..][i].id;
          assert forall j :: 0 < j <= i ==> bots[j] == bots[1..][j - 1];
          assert OldestLive(bots, chats, owner, mid, i + 1);
        } else {
          assert forall j :: 0 < j < |bots| ==> bots[j] == bots[1..][j - 1];
        }
      }
    }
  }

  /**
   * The account a reply belongs to: the flagged one if it is online; else the oldest online one in the room;
   * with nobody online the flagged one, and failing that the oldest.
   */
  ghost predicate Rightful(bots: seq<BotRow>, chats: map<(int, string), ChatRow>, owner: int, mid: string, i: nat) {
    var nobodyLive := forall j :: 0 <= j < |bots| ==> !LiveMember(bots[j], chats, owner, mid);
    var nobodyFlagged := forall j :: 0 <= j < |bots| ==> !Flagged(bots[j], chats, owner, mid);
    || (OldestFlagged(bots, chats, owner, mid, i) && (bots[i].status == Online || nobodyLive))
    || (OldestLive(bots, chats, owner, mid, i)
        && forall j: nat :: OldestFlagged(bots, chats, owner, mid, j) ==> bots[j].status != Online)
    || (OldestMember(bots, chats, owner, mid, i) && nobodyLive && nobodyFlagged)
  }

  lemma RightfulIsUnique(bots: seq<BotRow>, chats: map<(int, string), ChatRow>, owner: int, mid: string, i: nat, j: nat)
    requires Rightful(bots, chats, owner, mid, i) && Rightful(bots, chats, owner, mid, j)
    ensures i == j
  {
    hide Member;
  }

  lemma {:induction false} SomeMember(bots: seq<BotRow>, chats: map<(int, string), ChatRow>, owner: int, mid: string) returns (i: nat)
    requires Siblings(bots, chats, owner, mid) != []
    ensures OldestMember(bots, chats, owner, mid, i)
  {
    if Member(bots[0], chats, owner, mid) {
      i := 0;
    } else {
      var k := SomeMember(bots[1..], chats, owner, mid);
      assert forall j :: 0 < j <= k ==> bots[j] == bots[1..][j - 1];
      i := k + 1;
    }
  }

  lemma {:induction false} AnswererIsRightful(bots: seq<BotRow>, chats: map<(int, string), ChatRow>, owner: int, mid: string)
    requires Siblings(bots, chats, owner, mid) != []
    ensures exists i: nat :: Rightful(bots, chats, owner, mid, i) && Answerer(Siblings(bots, chats, owner, mid)).botId == bots[i].id
  {
    FirstFlagged(bots, chats, owner, mid);
    FirstLive(bots, chats, owner, mid);
    var m := SomeMember(bots, chats, owner, mid);
    FirstSibling(bots, chats, owner, mid, m);
    var group := Siblings(bots, chats, owner, mid);
    var p, o := FirstPrimary(group), FirstOnline(group);
    hide Siblings, Member;
    var f: nat := m;
    if p >= 0 {
      f :| OldestFlagged(bots, chats, owner, mid, f) && group[p].botId == bots[f].id && group[p].status == bots[f].status;
    }
    var l: nat := m;
    if o >= 0 {
      l :| OldestLive(bots, chats, owner, mid, l) && group[o].botId == bots[l].id;
    }
    var i := if p >= 0 && (group[p].status.Online? || o < 0) then f else if o >= 0 then l else m;
    assert Rightful(bots, chats, owner, mid, i);
  }

  /** Which account a detection by any bot of the room goes out under. */
  lemma DesignatedExactly(t: Tables, detecting: nat, mid: string, owner: int)
    requires detecting < |t.bots| && Member(t.bots[detecting], t.chats, owner, mid)
    ensures exists i: nat :: Rightful(t.bots, t.chats, owner, mid, i)
                             && Designated(t, t.bots[detecting].id, mid, Some(owner)) == t.bots[i].id
  {
    assert IsSibling(t, t.bots[detecting].id, mid, owner) by {
      assert InRoom(t.bots[detecting], t.chats, owner, mid) && t.bots[detecting] in t.bots;
    }
    DesignatedIsAnswerer(t, t.bots[detecting].id, mid, owner);
    AnswererIsRightful(t.bots, t.chats, owner, mid);
    hide Rightful, Designated, Siblings, Member;
  }

  /** A bot with no owner, and the only one of its owner's in the room, sends for itself. */
  lemma AloneSendsItself(t: Tables, detecting: int, mid: string, owner: Option<int>)
    requires owner == None || AtMostOneMember(t.bots, t.chats, owner.value, mid)
    ensures Designated(t, detecting, mid, owner) == detecting
  {
    if owner.Some? {
      FewSiblings(t.bots, t.chats, owner.value, mid);
    }
    hide Siblings;
  }

  ghost predicate AtMostOneMember(bots: seq<BotRow>, chats: map<(int, string), ChatRow>, owner: int, mid: string) {
    forall i, j :: 0 <= i < j < |bots| ==> !(Member(bots[i], chats, owner, mid) && Member(bots[j], chats, owner, mid))
  }

  lemma {:induction false} FewSiblings(bots: seq<BotRow>, chats: map<(int, string), ChatRow>, owner: int, mid: string)
    requires AtMostOneMember(bots, chats, owner, mid)
    ensures |Siblings(bots, chats, owner, mid)| <= 1
    ensures (forall i :: 0 <= i < |bots| ==> !Member(bots[i], chats, owner, mid)) ==> Siblings(bots, chats, owner, mid) == []
  {
    if bots != [] {
      assert forall i :: 0 < i < |bots| ==> bots[i] == bots[1..][i - 1];
      FewSiblings(bots[1..], chats, owner, mid);
    }
  }

  lemma {:induction false} DesignatedIsAnswerer(t: Tables, a: int, mid: string, owner: int)
    requires IsSibling(t, a, mid, owner)
    ensures Siblings(t.bots, t.chats, owner, mid) != []
    ensures Designated(t, a, mid, Some(owner)) == Answerer(Siblings(t.bots, t.chats, owner, mid)).botId
  {
    SiblingsAre(t.bots, t.chats, owner, mid, a);
    var group := Siblings(t.bots, t.chats, owner, mid);
    var self :| self in group && self.botId == a;
    assert |group| == 1 ==> group[0] == self;
    hide Siblings, IsSibling;
  }

  // ----- choosing the answerer -----

  function WithPrimary(chats: map<(int, string), ChatRow>, key: (int, string), flag: bool): map<(int, string), ChatRow> {
    if key in chats then chats[key := chats[key].(isPrimary := flag)] else chats
  }

  /** `id` is one of the first `n` bots of the group. */
  ghost predicate Among(group: seq<RoomBot>, n: nat, id: int)
    requires n <= |group|
  {
    exists j :: 0 <= j < n && group[j].botId == id
  }

  /** The rows after the transaction: every sibling demoted in this room, then one promoted. */
  ghost predicate Promoted(before: map<(int, string), ChatRow>, after: map<(int, string), ChatRow>,
                           group: seq<RoomBot>, botId: int, mid: string)
  {
    && after.Keys == before.Keys
    && forall k :: k in before ==>
         after[k] == if k == (botId, mid) then before[k].(isPrimary := true)
                     else if k.1 == mid && Among(group, |group|, k.0) then before[k].(isPrimary := false)
                     else before[k]
  }

  class Store {
    var tables: Tables

    constructor (tables: Tables)
      ensures this.tables == tables
    {
      this.tables := tables;
    }

    /** Refuses a bot that is not an enabled member; otherwise it becomes the room's only primary. */
    method SetPrimaryBot(botId: int, mid: string, owner: Option<int>) returns (ok: bool)
      modifies this
      ensures tables.bots == old(tables).bots
      ensures ok <==> owner.Some? && IsSibling(old(tables), botId, mid, owner.value)
      ensures !ok ==> tables == old(tables)
      ensures ok ==> Promoted(old(tables).chats, tables.chats,
                              Siblings(old(tables).bots, old(tables).chats, owner.value, mid), botId, mid)
    {
      if owner.None? {
        return false;
      }
      var group := Siblings(tables.bots, tables.chats, owner.value, mid);
      SiblingsAre(tables.bots, tables.chats, owner.value, mid, botId);
      if !exists r :: r in group && r.botId == botId {
        return false;
      }
      var chats := DemoteAll(tables.chats, group, mid);
      chats := WithPrimary(chats, (botId, mid), true);
      tables := tables.(chats := chats);
      ok := true;
    }

    static method DemoteAll(before: map<(int, string), ChatRow>, group: seq<RoomBot>, mid: string)
      returns (chats: map<(int, string), ChatRow>)
      ensures chats.Keys == before.Keys
      ensures forall k :: k in before ==>
        chats[k] == if k.1 == mid && Among(group, |group|, k.0) then before[k].(isPrimary := false) else before[k]
    {
      chats := before;
      for i := 0 to |group|
        invariant chats.Keys == before.Keys
        invariant forall k :: k in before ==>
          chats[k] == if k.1 == mid && Among(group, i, k.0) then before[k].(isPrimary := false) else before[k]
      {
        ghost var was := chats;
        chats := WithPrimary(chats, (group[i].botId, mid), false);
        forall k | k in before
          ensures chats[k] == if k.1 == mid && Among(group, i + 1, k.0) then before[k].(isPrimary := false) else before[k]
        {
          AmongNext(group, i, k.0);
        }
      }
    }
  }

  lemma AmongNext(group: seq<RoomBot>, n: nat, id: int)
    requires n < |group|
    ensures Among(group, n + 1, id) <==> Among(group, n, id) || group[n].botId == id
  {
    if Among(group, n + 1, id) {
      var j :| 0 <= j < n + 1 && group[j].botId == id;
    }
    if group[n].botId == id {
      assert 0 <= n < n + 1 && group[n].botId == id;
    }
  }

  lemma {:induction false} PromotionKeepsMembers(
    bots: seq<BotRow>, before: map<(int, string), ChatRow>, after: map<(int, string), ChatRow>, owner: int, mid: string)
    requires after.Keys == before.Keys
    requires forall k :: k in before ==> after[k] == before[k].(isPrimary := after[k].isPrimary)
    ensures |Siblings(bots, after, owner, mid)| == |Siblings(bots, before, owner, mid)|
    ensures forall i :: 0 <= i < |Siblings(bots, after, owner, mid)| ==>
              var r := Siblings(bots, after, owner, mid)[i];
              && r.botId == Siblings(bots, before, owner, mid)[i].botId
              && r.status == Siblings(bots, before, owner, mid)[i].status
              && (r.botId, mid) in after && r.isPrimary == after[(r.botId, mid)].isPrimary
  {
    if bots != [] {
      PromotionKeepsMembers(bots[1..], before, after, owner, mid);
      assert InRoom(bots[0], after, owner, mid) <==> InRoom(bots[0], before, owner, mid);
    }
  }

  lemma {:induction false} SiblingsDistinct(bots: seq<BotRow>, chats: map<(int, string), ChatRow>, owner: int, mid: string)
    requires DistinctIds(bots)
    ensures forall i, j :: 0 <= i < j < |Siblings(bots, chats, owner, mid)| ==>
              Siblings(bots, chats, owner, mid)[i].botId != Siblings(bots, chats, owner, mid)[j].botId
  {
    if bots != [] {
      SiblingsDistinct(bots[1..], chats, owner, mid);
      SiblingsAre(bots[1..], chats, owner, mid, bots[0].id);
      assert forall b :: b in bots[1..] ==> b.id != bots[0].id;
    }
  }

  /** In the room, the promoted bot is the only one flagged. */
  lemma {:induction false} OnlyPromotedIsFlagged(t: Tables, after: map<(int, string), ChatRow>, botId: int, mid: string, owner: int)
    requires Promoted(t.chats, after, Siblings(t.bots, t.chats, owner, mid), botId, mid)
    ensures var was, group := Siblings(t.bots, t.chats, owner, mid), Siblings(t.bots, after, owner, mid);
            && |group| == |was|
            && forall i :: 0 <= i < |group| ==>
                 && group[i].botId == was[i].botId && group[i].status == was[i].status
                 && (group[i].isPrimary <==> group[i].botId == botId)
  {
    var was, group := Siblings(t.bots, t.chats, owner, mid), Siblings(t.bots, after, owner, mid);
    PromotionKeepsMembers(t.bots, t.chats, after, owner, mid);
    hide Siblings;
    forall i | 0 <= i < |group| ensures group[i].isPrimary <==> group[i].botId == botId {
      assert was[i].botId == group[i].botId;
      assert Among(was, |was|, group[i].botId);
    }
  }

  /** After promoting an online bot, every sibling's detections go out under it. */
  lemma {:induction false} PromotedBotAnswers(t: Tables, after: map<(int, string), ChatRow>, botId: int, detecting: int, mid: string, owner: int)
    requires DistinctIds(t.bots)
    requires Promoted(t.chats, after, Siblings(t.bots, t.chats, owner, mid), botId, mid)
    requires IsSibling(t, detecting, mid, owner)
    requires exists r :: r in Siblings(t.bots, t.chats, owner, mid) && r.botId == botId && r.status.Online?
    ensures Designated(t.(chats := after), detecting, mid, Some(owner)) == botId
  {
    OnlyPromotedIsFlagged(t, after, botId, mid, owner);
    SiblingsAre(t.bots, t.chats, owner, mid, detecting);
    SiblingsDistinct(t.bots, t.chats, owner, mid);
    var was, group := Siblings(t.bots, t.chats, owner, mid), Siblings(t.bots, after, owner, mid);
    hide Siblings, IsSibling, Promoted, DistinctIds;
    var r :| r in was && r.botId == botId && r.status.Online?;
    var k :| 0 <= k < |was| && was[k] == r;
    var self :| self in was && self.botId == detecting;
    FlaggedOnlineAnswers(group, botId, k);
    assert |group| == 1 ==> self == r;
  }

  /** A group whose only flagged bot is online answers with it. */
  lemma FlaggedOnlineAnswers(group: seq<RoomBot>, botId: int, k: nat)
    requires k < |group| && group[k].botId == botId && group[k].status.Online?
    requires forall i :: 0 <= i < |group| ==> (group[i].isPrimary <==> group[i].botId == botId)
    requires forall i, j :: 0 <= i < j < |group| ==> group[i].botId != group[j].botId
    ensures Answerer(group).botId == botId
  {
    assert FirstPrimary(group) == k;
  }
}
