/** Bot labels, card positions and quota: three readings of one table that must stay in step. */
module BotOrder {
  import opened Prelude

  datatype Row = Row(id: int, slot: int, displayOrder: int, owner: Option<int>, createdAt: int)

  /** Rows in rowid order; ids are never reused. */
  datatype Table = Table(rows: seq<Row>, nextId: int)

  /** The two `ORDER BY` clauses: creation is `created_at, id`; display is `display_order, slot, id`. */
  datatype Order = Creation | Display

  predicate Less(o: Order, x: Row, y: Row) {
    match o
    case Creation => x.createdAt < y.createdAt || (x.createdAt == y.createdAt && x.id < y.id)
    case Display =>
      x.displayOrder < y.displayOrder
      || (x.displayOrder == y.displayOrder && (x.slot < y.slot || (x.slot == y.slot && x.id < y.id)))
  }

  ghost predicate DistinctIds(s: seq<Row>) {
    forall a, b :: 0 <= a < b < |s| ==> s[a].id != s[b].id
  }

  ghost predicate Strict(o: Order, s: seq<Row>) {
    forall a, b :: 0 <= a < b < |s| ==> Less(o, s[a], s[b])
  }

  function InsertRow(o: Order, x: Row, s: seq<Row>): (r: seq<Row>)
    ensures |r| == |s| + 1
  {
    if s == [] || Less(o, x, s[0]) then [x] + s else [s[0]] + InsertRow(o, x, s[1..])
  }

  /** `SELECT ... ORDER BY`. */
  function ListBy(o: Order, s: seq<Row>): (r: seq<Row>)
    ensures |r| == |s|
  {
    if s == [] then [] else InsertRow(o, s[0], ListBy(o, s[1..]))
  }

  lemma {:induction false} InsertMember(o: Order, x: Row, s: seq<Row>, r: Row)
    ensures r in InsertRow(o, x, s) <==> r == x || r in s
  {
    if s != [] && !Less(o, x, s[0]) {
      InsertMember(o, x, s[1..], r);
      assert s == [s[0]] + s[1..];
    }
  }

  lemma {:induction false} ListMember(o: Order, s: seq<Row>, r: Row)
    ensures r in ListBy(o, s) <==> r in s
  {
    if s != [] {
      ListMember(o, s[1..], r);
      InsertMember(o, s[0], ListBy(o, s[1..]), r);
      assert s == [s[0]] + s[1..];
    }
  }

  lemma {:induction false} InsertStrict(o: Order, x: Row, s: seq<Row>)
    requires Strict(o, s) && forall a :: 0 <= a < |s| ==> s[a].id != x.id
    ensures Strict(o, InsertRow(o, x, s))
  {
    if s == [] || Less(o, x, s[0]) {
      assert forall a :: 0 < a < |s| ==> Less(o, s[0], s[a]);
    } else {
      InsertStrict(o, x, s[1..]);
      var t := InsertRow(o, x, s[1..]);
      forall a | 0 <= a < |t| ensures Less(o, s[0], t[a]) {
        InsertMember(o, x, s[1..], t[a]);
        if t[a] != x {
          var b :| 0 <= b < |s[1..]| && s[1..][b] == t[a];
          assert s[b + 1] == t[a];
        }
      }
      hide Less;
    }
  }

  lemma {:induction false} ListStrict(o: Order, s: seq<Row>)
    requires DistinctIds(s)
    ensures Strict(o, ListBy(o, s)) && DistinctIds(ListBy(o, s))
  {
    if s != [] {
      ListStrict(o, s[1..]);
      var t := ListBy(o, s[1..]);
      forall a | 0 <= a < |t| ensures t[a].id != s[0].id {
        ListMember(o, s[1..], t[a]);
        var b :| 0 <= b < |s[1..]| && s[1..][b] == t[a];
        assert s[b + 1] == t[a];
      }
      InsertStrict(o, s[0], t);
      InsertDistinct(o, s[0], t);
    }
  }

  lemma {:induction false} InsertDistinct(o: Order, x: Row, s: seq<Row>)
    requires DistinctIds(s) && forall a :: 0 <= a < |s| ==> s[a].id != x.id
    ensures DistinctIds(InsertRow(o, x, s))
  {
    if s != [] && !Less(o, x, s[0]) {
      InsertDistinct(o, x, s[1..]);
      var t := InsertRow(o, x, s[1..]);
      forall a | 0 <= a < |t| ensures s[0].id != t[a].id {
        InsertMember(o, x, s[1..], t[a]);
        if t[a] != x {
          var b :| 0 <= b < |s[1..]| && s[1..][b] == t[a];
          assert s[b + 1] == t[a];
        }
      }
    }
  }

  /** Rows already in order list as themselves. */
  lemma {:induction false} StrictIsListed(o: Order, s: seq<Row>)
    requires Strict(o, s)
    ensures ListBy(o, s) == s
  {
    if s != [] {
      StrictIsListed(o, s[1..]);
      if |s| > 1 {
        assert Less(o, s[0], s[1]);
      }
    }
  }

  /** Where `id` first stands in `ids`, or -1. */
  function Place(ids: seq<int>, id: int): (k: int)
    ensures -1 <= k < |ids|
    ensures k >= 0 ==> ids[k] == id && forall j :: 0 <= j < k ==> ids[j] != id
    ensures k == -1 ==> forall j :: 0 <= j < |ids| ==> ids[j] != id
  {
    if ids == [] then -1
    else if ids[0] == id then 0
    else
      var r := Place(ids[1..], id);
      if r == -1 then -1 else r + 1
  }

  function Ids(s: seq<Row>): (r: seq<int>)
    ensures |r| == |s| && forall k :: 0 <= k < |s| ==> r[k] == s[k].id
  {
    seq(|s|, k requires 0 <= k < |s| => s[k].id)
  }

  function IndexOfId(s: seq<Row>, id: int): (i: int)
    ensures -1 <= i < |s|
    ensures i >= 0 ==> s[i].id == id && forall j :: 0 <= j < i ==> s[j].id != id
    ensures i == -1 ==> forall j :: 0 <= j < |s| ==> s[j].id != id
  {
    Place(Ids(s), id)
  }

  /** A listing shows every row, unchanged, at exactly one place. */
  lemma {:induction false} ListedAt(o: Order, s: seq<Row>, i: nat)
    requires DistinctIds(s) && i < |s|
    ensures IndexOfId(ListBy(o, s), s[i].id) >= 0
    ensures ListBy(o, s)[IndexOfId(ListBy(o, s), s[i].id)] == s[i]
  {
    hide Less, ListBy, IndexOfId;
    var listing := ListBy(o, s);
    ListMember(o, s, s[i]);
    var k :| 0 <= k < |listing| && listing[k] == s[i];
    ListStrict(o, s);
  }

  lemma LessIsStrict(o: Order, x: Row, y: Row)
    ensures !(Less(o, x, y) && Less(o, y, x))
    ensures x.id != y.id ==> Less(o, x, y) || Less(o, y, x)
  {
  }

  /** The place of a row in a listing is its rank in that order. */
  lemma {:induction false} PlaceIsRank(o: Order, s: seq<Row>, i: nat, j: nat)
    requires DistinctIds(s) && i < |s| && j < |s| && Less(o, s[i], s[j])
    ensures IndexOfId(ListBy(o, s), s[i].id) < IndexOfId(ListBy(o, s), s[j].id)
  {
    hide Less, ListBy, IndexOfId;
    ListedAt(o, s, i);
    ListedAt(o, s, j);
    ListStrict(o, s);
    LessIsStrict(o, s[i], s[j]);
  }

  // ----- relabelling -----

  function WithSlots(rows: seq<Row>, listing: seq<Row>): (r: seq<Row>)
    ensures |r| == |rows|
  {
    seq(|rows|, i requires 0 <= i < |rows| => rows[i].(slot := IndexOfId(listing, rows[i].id) + 1))
  }

  function WithPositions(rows: seq<Row>, listing: seq<Row>): (r: seq<Row>)
    ensures |r| == |rows|
  {
    seq(|rows|, i requires 0 <= i < |rows| => rows[i].(displayOrder := IndexOfId(listing, rows[i].id) + 1))
  }

  /** `resequenceSlotsTxn`: labels follow creation order, then positions are compacted to 1..N. */
  function Resequenced(rows: seq<Row>): (r: seq<Row>)
    ensures |r| == |rows|
  {
    var labelled := WithSlots(rows, ListBy(Creation, rows));
    WithPositions(labelled, ListBy(Display, labelled))
  }

  /** Rows as they are stored: ids ascend, and so do creation times. */
  ghost predicate Stored(rows: seq<Row>) {
    Strict(Creation, rows) && DistinctIds(rows)
  }

  /** Positions are a permutation of 1..N: in range and never shared. */
  ghost predicate Permuted(s: seq<Row>) {
    && (forall a :: 0 <= a < |s| ==> 1 <= s[a].displayOrder <= |s|)
    && (forall a, b :: 0 <= a < b < |s| ==> s[a].displayOrder != s[b].displayOrder)
  }

  /** `bot1 .. botN` name the rows in creation order. */
  ghost predicate Labelled(s: seq<Row>) {
    forall i :: 0 <= i < |s| ==> s[i].slot == i + 1
  }

  ghost predicate Orderly(t: Table) {
    && Stored(t.rows) && Labelled(t.rows) && Permuted(t.rows)
    && (forall i :: 0 <= i < |t.rows| ==> t.rows[i].id < t.nextId)
  }

  lemma {:induction false} SlotsFollowCreation(rows: seq<Row>, i: nat)
    requires Stored(rows) && i < |rows|
    ensures WithSlots(rows, ListBy(Creation, rows))[i] == rows[i].(slot := i + 1)
  {
    hide Less, ListBy, IndexOfId;
    StrictIsListed(Creation, rows);
  }

  lemma {:induction false} SlotsKeepIds(rows: seq<Row>)
    requires DistinctIds(rows)
    ensures DistinctIds(WithSlots(rows, ListBy(Creation, rows)))
  {
    hide Less, ListBy, IndexOfId;
  }

  lemma {:induction false} PositionsArePermuted(rows: seq<Row>)
    requires DistinctIds(rows)
    ensures Permuted(WithPositions(rows, ListBy(Display, rows)))
  {
    hide Less, ListBy, IndexOfId;
    var listing := ListBy(Display, rows);
    forall a | 0 <= a < |rows|
      ensures 0 <= IndexOfId(listing, rows[a].id) < |rows| && listing[IndexOfId(listing, rows[a].id)] == rows[a]
    {
      ListedAt(Display, rows, a);
    }
  }

  /** Whatever the labels and positions were, resequencing repairs both and touches nothing else. */
  lemma ResequenceRepairs(rows: seq<Row>)
    requires Stored(rows)
    ensures Labelled(Resequenced(rows)) && Permuted(Resequenced(rows)) && Stored(Resequenced(rows))
    ensures forall i :: 0 <= i < |rows| ==>
              Resequenced(rows)[i] == rows[i].(slot := i + 1, displayOrder := Resequenced(rows)[i].displayOrder)
  {
    hide ListBy, IndexOfId, Permuted;
    var labelled := WithSlots(rows, ListBy(Creation, rows));
    SlotsKeepIds(rows);
    PositionsArePermuted(labelled);
    forall i | 0 <= i < |rows| ensures labelled[i] == rows[i].(slot := i + 1) {
      SlotsFollowCreation(rows, i);
    }
  }

  /** Compacting positions keeps every pair of cards in the order it was displayed in. */
  lemma ResequenceKeepsDisplayOrder(rows: seq<Row>, i: nat, j: nat)
    requires Stored(rows) && i < |rows| && j < |rows|
    requires rows[i].displayOrder < rows[j].displayOrder
    ensures Resequenced(rows)[i].displayOrder < Resequenced(rows)[j].displayOrder
  {
    hide ListBy, IndexOfId;
    var labelled := WithSlots(rows, ListBy(Creation, rows));
    SlotsKeepIds(rows);
    assert Less(Display, labelled[i], labelled[j]);
    PlaceIsRank(Display, labelled, i, j);
  }

  // ----- creating and deleting -----

  /** `COALESCE(MAX(display_order), 0)`. */
  function MaxPosition(rows: seq<Row>): (m: int)
    ensures forall i :: 0 <= i < |rows| ==> rows[i].displayOrder <= m
    ensures if rows == [] then m == 0 else exists i :: 0 <= i < |rows| && rows[i].displayOrder == m
  {
    if rows == [] then 0
    else if |rows| == 1 then rows[0].displayOrder
    else Max(rows[0].displayOrder, MaxPosition(rows[1..]))
  }

  function Created(t: Table, owner: Option<int>, now: int): Table {
    var row := Row(t.nextId, |t.rows| + 1, MaxPosition(t.rows) + 1, owner, now);
    Table(t.rows + [row], t.nextId + 1)
  }

  /**
   * A new bot keeps the labels in creation order exactly when the wall clock has not gone back past
   * the previous creation.
   */
  lemma CreateKeepsOrder(t: Table, owner: Option<int>, now: int)
    requires Orderly(t)
    ensures Orderly(Created(t, owner, now)) <==> t.rows == [] || t.rows[|t.rows| - 1].createdAt <= now
  {
    hide MaxPosition;
    var n := |t.rows|;
    var after := Created(t, owner, now).rows;
    if n > 0 && now < t.rows[n - 1].createdAt {
      assert !Less(Creation, after[n - 1], after[n]);
    } else {
      forall a | 0 <= a < n ensures Less(Creation, after[a], after[n]) {
        assert a < n - 1 ==> Less(Creation, t.rows[a], t.rows[n - 1]);
      }
    }
  }

  function Without(rows: seq<Row>, id: int): seq<Row> {
    if rows == [] then [] else (if rows[0].id == id then [] else [rows[0]]) + Without(rows[1..], id)
  }

  lemma {:induction false} WithoutMember(rows: seq<Row>, id: int, r: Row)
    ensures r in Without(rows, id) <==> r in rows && r.id != id
  {
    if rows != [] {
      WithoutMember(rows[1..], id, r);
      assert rows == [rows[0]] + rows[1..];
    }
  }

  lemma {:induction false} WithoutIsStored(rows: seq<Row>, id: int)
    requires Stored(rows)
    ensures Stored(Without(rows, id))
  {
    if rows != [] {
      WithoutIsStored(rows[1..], id);
      var rest := Without(rows[1..], id);
      forall a | 0 <= a < |rest| ensures Less(Creation, rows[0], rest[a]) && rows[0].id != rest[a].id {
        WithoutMember(rows[1..], id, rest[a]);
        var b :| 0 <= b < |rows[1..]| && rows[1..][b] == rest[a];
        assert rows[b + 1] == rest[a];
      }
      hide Less;
    }
  }

  function Deleted(t: Table, id: int): Table {
    t.(rows := Resequenced(Without(t.rows, id)))
  }

  lemma DeleteKeepsOrder(t: Table, id: int)
    requires Orderly(t)
    ensures Orderly(Deleted(t, id))
    ensures forall k :: 0 <= k < |Deleted(t, id).rows| ==> Deleted(t, id).rows[k].id != id
  {
    hide Less, Resequenced, Permuted, Without;
    var left := Without(t.rows, id);
    WithoutIsStored(t.rows, id);
    ResequenceRepairs(left);
    forall k | 0 <= k < |left| ensures left[k].id != id && left[k].id < t.nextId {
      WithoutMember(t.rows, id, left[k]);
    }
  }

  /** What never changes about a bot. */
  datatype Bot = Bot(id: int, owner: Option<int>, createdAt: int)

  function BotOf(r: Row): Bot {
    Bot(r.id, r.owner, r.createdAt)
  }

  /** The bots in the table. */
  ghost function Bots(rows: seq<Row>): set<Bot> {
    set k | 0 <= k < |rows| :: BotOf(rows[k])
  }

  lemma RelabelledBots(rows: seq<Row>)
    ensures |Resequenced(rows)| == |rows| && forall k :: 0 <= k < |rows| ==> BotOf(Resequenced(rows)[k]) == BotOf(rows[k])
    ensures Bots(Resequenced(rows)) == Bots(rows)
  {
    hide IndexOfId, ListBy;
    var after := Resequenced(rows);
    assert forall k :: 0 <= k < |rows| ==> BotOf(after[k]) == BotOf(rows[k]);
    SameBots(rows, after);
  }

  lemma SameBots(rows: seq<Row>, after: seq<Row>)
    requires |rows| == |after| && forall k :: 0 <= k < |rows| ==> BotOf(after[k]) == BotOf(rows[k])
    ensures Bots(after) == Bots(rows)
  {
    hide BotOf;
  }

  /** Positions that are already 1..N are not moved by compacting them. */
  lemma {:induction false} PermutedIsCompact(rows: seq<Row>, i: nat)
    requires DistinctIds(rows) && Permuted(rows) && i < |rows|
    ensures IndexOfId(ListBy(Display, rows), rows[i].id) + 1 == rows[i].displayOrder
  {
    hide ListBy, IndexOfId;
    var listing := ListBy(Display, rows);
    ListStrict(Display, rows);
    ListedAt(Display, rows, i);
    forall k | 0 <= k < |listing| ensures listing[k] in rows {
      ListMember(Display, rows, listing[k]);
    }
    PositionsClimb(rows, listing);
    var at := IndexOfId(listing, rows[i].id);
    AtLeastPlace(listing, at);
    AtMostPlace(listing, at);
  }

  lemma PositionsClimb(rows: seq<Row>, listing: seq<Row>)
    requires Permuted(rows) && Strict(Display, listing) && DistinctIds(listing) && |listing| == |rows|
    requires forall k :: 0 <= k < |listing| ==> listing[k] in rows
    ensures Climbs(listing)
  {
    forall a, b | 0 <= a < b < |listing| ensures listing[a].displayOrder < listing[b].displayOrder {
      assert Less(Display, listing[a], listing[b]);
      var i :| 0 <= i < |rows| && rows[i] == listing[a];
      var j :| 0 <= j < |rows| && rows[j] == listing[b];
      assert i != j;
    }
  }

  /** Strictly ascending positions within 1..N. */
  ghost predicate Climbs(s: seq<Row>) {
    && (forall a :: 0 <= a < |s| ==> 1 <= s[a].displayOrder <= |s|)
    && (forall a, b :: 0 <= a < b < |s| ==> s[a].displayOrder < s[b].displayOrder)
  }

  lemma {:induction false} AtLeastPlace(s: seq<Row>, k: nat)
    requires Climbs(s) && k < |s|
    ensures s[k].displayOrder >= k + 1
  {
    if k > 0 {
      AtLeastPlace(s, k - 1);
    }
  }

  lemma {:induction false} AtMostPlace(s: seq<Row>, k: nat)
    requires Climbs(s) && k < |s|
    ensures s[k].displayOrder <= k + 1
    decreases |s| - k
  {
    if k + 1 < |s| {
      AtMostPlace(s, k + 1);
    }
  }

  /** Resequencing a table that is in order changes nothing. */
  lemma OrderlyIsSettled(t: Table)
    requires Orderly(t)
    ensures Resequenced(t.rows) == t.rows
  {
    var rows := t.rows;
    var labelled := WithSlots(rows, ListBy(Creation, rows));
    hide ListBy, IndexOfId, Less, Permuted;
    forall i | 0 <= i < |rows| ensures labelled[i] == rows[i] {
      SlotsFollowCreation(rows, i);
    }
    assert labelled == rows;
    forall i | 0 <= i < |rows| ensures Resequenced(rows)[i] == rows[i] {
      PermutedIsCompact(rows, i);
    }
  }

  lemma {:induction false} WithoutCounts(rows: seq<Row>, id: int)
    requires DistinctIds(rows)
    ensures |Without(rows, id)| == |rows| - if exists i :: 0 <= i < |rows| && rows[i].id == id then 1 else 0
    ensures (forall i :: 0 <= i < |rows| ==> rows[i].id != id) ==> Without(rows, id) == rows
  {
    if rows != [] {
      WithoutCounts(rows[1..], id);
      assert forall i :: 0 < i < |rows| ==> rows[i] == rows[1..][i - 1];
      if i :| 0 <= i < |rows[1..]| && rows[1..][i].id == id {
        assert rows[i + 1].id == id;
      }
    }
  }

  /** Every row but `id`'s is still there, as the same bot, at its own place in the table. */
  ghost predicate LosesOnly(rows: seq<Row>, after: seq<Row>, id: int) {
    && |after| == |rows| - (if exists i :: 0 <= i < |rows| && rows[i].id == id then 1 else 0)
    && Bots(after) == (set b | b in Bots(rows) && b.id != id)
  }

  /** Cards that are still there are displayed in the order they had. */
  ghost predicate KeepsDisplay(rows: seq<Row>, after: seq<Row>) {
    forall i, j, k, l ::
      (&& 0 <= i < |rows| && 0 <= j < |rows| && rows[i].displayOrder < rows[j].displayOrder
       && 0 <= k < |after| && 0 <= l < |after| && after[k].id == rows[i].id && after[l].id == rows[j].id) ==>
        after[k].displayOrder < after[l].displayOrder
  }

  lemma {:induction false} WithoutBots(rows: seq<Row>, id: int)
    ensures Bots(Without(rows, id)) == set b | b in Bots(rows) && b.id != id
  {
    var left := Without(rows, id);
    forall b | b in Bots(left) ensures b in Bots(rows) && b.id != id {
      var k :| 0 <= k < |left| && BotOf(left[k]) == b;
      WithoutMember(rows, id, left[k]);
      var i :| 0 <= i < |rows| && rows[i] == left[k];
    }
    forall b | b in Bots(rows) && b.id != id ensures b in Bots(left) {
      var i :| 0 <= i < |rows| && BotOf(rows[i]) == b;
      WithoutMember(rows, id, rows[i]);
      var k :| 0 <= k < |left| && left[k] == rows[i];
    }
  }

  /**
   * A deletion takes that bot and no other: every other row stays, once, with its identity, and the cards
   * left keep their order.  Deleting an id that is not there changes nothing at all.
   */
  lemma DeleteIsExact(t: Table, id: int)
    requires Orderly(t)
    ensures var after := Deleted(t, id);
            && LosesOnly(t.rows, after.rows, id) && KeepsDisplay(t.rows, after.rows) && after.nextId == t.nextId
            && ((forall i :: 0 <= i < |t.rows| ==> t.rows[i].id != id) ==> after == t)
  {
    var left := Without(t.rows, id);
    WithoutIsStored(t.rows, id);
    WithoutCounts(t.rows, id);
    WithoutBots(t.rows, id);
    RelabelledBots(left);
    DeleteKeepsDisplay(t, id);
    OrderlyIsSettled(t);
    hide Without, Resequenced, Bots, BotOf, KeepsDisplay;
  }

  lemma DeleteKeepsDisplay(t: Table, id: int)
    requires Orderly(t)
    ensures KeepsDisplay(t.rows, Deleted(t, id).rows)
  {
    var rows, left, after := t.rows, Without(t.rows, id), Deleted(t, id).rows;
    WithoutIsStored(rows, id);
    RelabelledBots(left);
    hide Resequenced, Without, Permuted, Less;
    forall i, j, k, l | 0 <= i < |rows| && 0 <= j < |rows| && 0 <= k < |after| && 0 <= l < |after|
      && after[k].id == rows[i].id && after[l].id == rows[j].id && rows[i].displayOrder < rows[j].displayOrder
      ensures after[k].displayOrder < after[l].displayOrder
    {
      assert BotOf(after[k]) == BotOf(left[k]) && BotOf(after[l]) == BotOf(left[l]);
      LeftIsRow(rows, id, k, i);
      LeftIsRow(rows, id, l, j);
      ResequenceKeepsDisplayOrder(left, k, l);
    }
  }

  lemma {:induction false} LeftIsRow(rows: seq<Row>, id: int, k: nat, i: nat)
    requires DistinctIds(rows) && i < |rows| && k < |Without(rows, id)| && Without(rows, id)[k].id == rows[i].id
    ensures Without(rows, id)[k] == rows[i]
  {
    hide Without;
    var r := Without(rows, id)[k];
    WithoutMember(rows, id, r);
    var j :| 0 <= j < |rows| && rows[j] == r;
  }

  /** A new bot joins, alone, under a fresh id with the given owner and time, labelled and displayed last. */
  lemma CreateIsExact(t: Table, owner: Option<int>, now: int)
    requires Orderly(t)
    ensures var after, n := Created(t, owner, now), |t.rows|;
            && |after.rows| == n + 1 && after.rows[..n] == t.rows
            && after.rows[n].owner == owner && after.rows[n].createdAt == now && after.rows[n].slot == n + 1
            && (forall i :: 0 <= i < n ==> after.rows[i].id < after.rows[n].id < after.nextId)
            && (forall i :: 0 <= i < n ==> after.rows[i].displayOrder < after.rows[n].displayOrder)
            && (n == 0 ==> after.rows[n].displayOrder == 1)
  {
    assert forall i :: 0 <= i < |t.rows| ==> Created(t, owner, now).rows[i] == t.rows[i];
    hide MaxPosition, Less;
  }

  // ----- reordering one user's cards -----

  datatype User = User(id: int, admin: bool)

  predicate Visible(u: User, r: Row) {
    u.admin || r.owner == Some(u.id)
  }

  function Accessible(rows: seq<Row>, u: User): seq<Row> {
    if rows == [] then [] else (if Visible(u, rows[0]) then [rows[0]] else []) + Accessible(rows[1..], u)
  }

  datatype ReorderError = NotAPermutation | InaccessibleBot
  datatype Reorder = Reordered(table: Table) | Rejected(error: ReorderError)

  /** The user's cards as the dashboard shows them. */
  function Cards(rows: seq<Row>, u: User): seq<Row> {
    ListBy(Display, Accessible(rows, u))
  }

  /** Each listed row takes the position that stands at its place in `ids` among the user's cards. */
  function Moved(rows: seq<Row>, cards: seq<Row>, ids: seq<int>): (r: seq<Row>)
    requires |ids| == |cards|
    ensures |r| == |rows|
  {
    seq(|rows|, i requires 0 <= i < |rows| =>
      var k := Place(ids, rows[i].id);
      if k >= 0 then rows[i].(displayOrder := cards[k].displayOrder) else rows[i])
  }

  function ReorderFor(t: Table, u: User, ids: seq<int>): Reorder {
    var cards := Cards(t.rows, u);
    if |ids| != |cards| || !Distinct(ids) then Rejected(NotAPermutation)
    else if exists k :: 0 <= k < |ids| && Place(Ids(cards), ids[k]) < 0 then Rejected(InaccessibleBot)
    else Reordered(t.(rows := Moved(t.rows, cards, ids)))
  }

  lemma {:induction false} AccessibleMember(rows: seq<Row>, u: User, r: Row)
    ensures r in Accessible(rows, u) <==> r in rows && Visible(u, r)
  {
    if rows != [] {
      AccessibleMember(rows[1..], u, r);
      assert rows == [rows[0]] + rows[1..];
    }
  }

  lemma {:induction false} AccessibleIds(rows: seq<Row>, u: User)
    requires DistinctIds(rows)
    ensures DistinctIds(Accessible(rows, u))
  {
    if rows != [] {
      AccessibleIds(rows[1..], u);
      var rest := Accessible(rows[1..], u);
      forall a | 0 <= a < |rest| ensures rows[0].id != rest[a].id {
        AccessibleMember(rows[1..], u, rest[a]);
        var b :| 0 <= b < |rows[1..]| && rows[1..][b] == rest[a];
        assert rows[b + 1] == rest[a];
      }
    }
  }

  /** The cards are exactly the visible rows, in strictly ascending display order. */
  lemma CardsAreVisible(rows: seq<Row>, u: User, r: Row)
    requires DistinctIds(rows)
    ensures r in Cards(rows, u) <==> r in rows && Visible(u, r)
    ensures Strict(Display, Cards(rows, u)) && DistinctIds(Cards(rows, u))
  {
    hide Less, ListBy, Accessible;
    AccessibleMember(rows, u, r);
    AccessibleIds(rows, u);
    ListMember(Display, Accessible(rows, u), r);
    ListStrict(Display, Accessible(rows, u));
  }

  /** Distinct ids drawn from the cards and as many as the cards name every card. */
  lemma {:induction false} PermutationCovers(have: seq<int>, ids: seq<int>, id: int)
    requires Distinct(have) && Distinct(ids) && |ids| == |have|
    requires forall k :: 0 <= k < |ids| ==> Place(have, ids[k]) >= 0
    ensures Place(ids, id) >= 0 <==> Place(have, id) >= 0
  {
    DistinctSize(have);
    DistinctSize(ids);
    forall x | x in Elements(ids) ensures x in Elements(have) {
      var k :| 0 <= k < |ids| && ids[k] == x;
      assert have[Place(have, ids[k])] == x;
    }
    SubsetSize(Elements(ids), Elements(have));
    if Place(ids, id) >= 0 {
      assert ids[Place(ids, id)] in Elements(have);
    }
    if Place(have, id) >= 0 {
      assert have[Place(have, id)] in Elements(ids);
    }
  }

  /** Two strictly ordered sequences of the same rows are the same sequence. */
  lemma {:induction false} StrictIsUnique(o: Order, s: seq<Row>, t: seq<Row>)
    requires Strict(o, s) && Strict(o, t) && forall r :: r in s <==> r in t
    ensures s == t
  {
    assert t != [] ==> t[0] in t;
    if s != [] {
      assert s[0] in t && t[0] in s;
      LessIsStrict(o, s[0], t[0]);
      assert s[0] == t[0];
      forall r ensures r in s[1..] <==> r in t[1..] {
        TailMember(o, s, r);
        TailMember(o, t, r);
      }
      StrictIsUnique(o, s[1..], t[1..]);
    }
  }

  lemma TailMember(o: Order, s: seq<Row>, r: Row)
    requires s != [] && Strict(o, s)
    ensures r in s[1..] <==> r in s && r != s[0]
  {
    LessIsStrict(o, r, r);
    hide Less;
    assert s == [s[0]] + s[1..];
  }

  ghost predicate IsPermutation(cards: seq<Row>, ids: seq<int>) {
    && |ids| == |cards| && Distinct(ids)
    && (forall k :: 0 <= k < |ids| ==> Place(Ids(cards), ids[k]) >= 0)
  }

  ghost predicate SameIds(a: seq<int>, b: seq<int>) {
    forall id :: Place(a, id) >= 0 <==> Place(b, id) >= 0
  }

  /** A reorder is accepted exactly when it names every visible card once and nothing else. */
  lemma ReorderAccepted(t: Table, u: User, ids: seq<int>)
    requires DistinctIds(t.rows)
    ensures ReorderFor(t, u, ids).Reordered? <==> Distinct(ids) && SameIds(ids, Ids(Cards(t.rows, u)))
    ensures ReorderFor(t, u, ids).Reordered? <==> IsPermutation(Cards(t.rows, u), ids)
  {
    var have := Ids(Cards(t.rows, u));
    assert Distinct(have) by {
      hide ListBy, Accessible, Less, Place;
      CardsAreVisible(t.rows, u, Row(0, 0, 0, None, 0));
    }
    assert ReorderFor(t, u, ids).Reordered? <==> IsPermutation(Cards(t.rows, u), ids) by {
      hide Place, Moved, Cards;
    }
    hide *;
    PermutationsShareIds(Cards(t.rows, u), ids);
  }

  lemma PermutationsShareIds(cards: seq<Row>, ids: seq<int>)
    requires Distinct(Ids(cards))
    ensures IsPermutation(cards, ids) <==> Distinct(ids) && SameIds(ids, Ids(cards))
  {
    hide Place;
    if IsPermutation(cards, ids) {
      forall id ensures Place(ids, id) >= 0 <==> Place(Ids(cards), id) >= 0 {
        PermutationCovers(Ids(cards), ids, id);
      }
    }
    if Distinct(ids) && SameIds(ids, Ids(cards)) {
      SameMembersSameSize(Ids(cards), ids);
    }
  }

  lemma {:induction false} SameMembersSameSize(have: seq<int>, ids: seq<int>)
    requires Distinct(have) && Distinct(ids) && SameIds(ids, have)
    ensures |ids| == |have| && forall k :: 0 <= k < |ids| ==> Place(have, ids[k]) >= 0
  {
    hide Place;
    DistinctSize(have);
    DistinctSize(ids);
    assert forall k :: 0 <= k < |ids| ==> Place(ids, ids[k]) >= 0;
    assert forall k :: 0 <= k < |have| ==> Place(have, have[k]) >= 0;
    assert Elements(have) == Elements(ids) by {
      forall x ensures x in Elements(have) <==> x in Elements(ids) {
        InElements(have, x);
        InElements(ids, x);
      }
    }
  }

  lemma {:induction false} InElements(ids: seq<int>, x: int)
    ensures x in Elements(ids) <==> Place(ids, x) >= 0
  {
    if Place(ids, x) >= 0 {
      assert ids[Place(ids, x)] in Elements(ids);
    }
  }

  /** The stored row a card shows. */
  lemma CardOrigin(rows: seq<Row>, u: User, k: nat) returns (i: nat)
    requires DistinctIds(rows) && k < |Cards(rows, u)|
    ensures i < |rows| && rows[i] == Cards(rows, u)[k] && Visible(u, rows[i])
  {
    hide Less, Cards;
    CardsAreVisible(rows, u, Cards(rows, u)[k]);
    i :| 0 <= i < |rows| && rows[i] == Cards(rows, u)[k];
  }

  lemma CardPlace(rows: seq<Row>, u: User, i: nat)
    requires DistinctIds(rows) && i < |rows|
    ensures Place(Ids(Cards(rows, u)), rows[i].id) >= 0 <==> Visible(u, rows[i])
  {
    hide Less, Cards, Place;
    CardsAreVisible(rows, u, rows[i]);
    var at := Place(Ids(Cards(rows, u)), rows[i].id);
    if at >= 0 {
      var c := CardOrigin(rows, u, at);
      assert c == i;
    }
    if Visible(u, rows[i]) {
      var k :| 0 <= k < |Cards(rows, u)| && Cards(rows, u)[k] == rows[i];
      assert Ids(Cards(rows, u))[k] == rows[i].id;
    }
  }

  /** A row the user can see moves to the position its place in `ids` asks for; any other row stays. */
  lemma {:induction false} MovedRow(rows: seq<Row>, u: User, ids: seq<int>, i: nat)
    requires DistinctIds(rows) && i < |rows| && IsPermutation(Cards(rows, u), ids)
    ensures Place(ids, rows[i].id) >= 0 <==> Visible(u, rows[i])
    ensures var r := Moved(rows, Cards(rows, u), ids)[i];
            if Visible(u, rows[i])
            then r == rows[i].(displayOrder := Cards(rows, u)[Place(ids, rows[i].id)].displayOrder)
            else r == rows[i]
  {
    hide Less, Cards, Place;
    CardsAreVisible(rows, u, rows[i]);
    PermutationCovers(Ids(Cards(rows, u)), ids, rows[i].id);
    CardPlace(rows, u, i);
  }

  lemma CardsAscend(rows: seq<Row>, u: User, a: nat, b: nat)
    requires DistinctIds(rows) && Permuted(rows) && a < b < |Cards(rows, u)|
    ensures Cards(rows, u)[a].displayOrder < Cards(rows, u)[b].displayOrder
    ensures 1 <= Cards(rows, u)[a].displayOrder <= |rows| && 1 <= Cards(rows, u)[b].displayOrder <= |rows|
  {
    hide Cards;
    CardsAreVisible(rows, u, Row(0, 0, 0, None, 0));
    var i := CardOrigin(rows, u, a);
    var j := CardOrigin(rows, u, b);
    assert Cards(rows, u)[a].id != Cards(rows, u)[b].id;
  }

  lemma MovedInRange(rows: seq<Row>, u: User, ids: seq<int>, a: nat)
    requires DistinctIds(rows) && Permuted(rows) && IsPermutation(Cards(rows, u), ids) && a < |rows|
    ensures 1 <= Moved(rows, Cards(rows, u), ids)[a].displayOrder <= |rows|
  {
    hide Less, Cards, Place, Moved, Visible;
    MovedRow(rows, u, ids, a);
    if Place(ids, rows[a].id) >= 0 {
      var i := CardOrigin(rows, u, Place(ids, rows[a].id));
    }
  }

  /** Two different rows keep different positions, whichever of them moved. */
  lemma MovedStayApart(rows: seq<Row>, u: User, ids: seq<int>, a: nat, b: nat)
    requires DistinctIds(rows) && Permuted(rows) && IsPermutation(Cards(rows, u), ids)
    requires a < |rows| && b < |rows| && a != b
    ensures var r := Moved(rows, Cards(rows, u), ids);
            r[a].displayOrder != r[b].displayOrder
  {
    hide Less, Cards, Place, Moved, Visible;
    MovedRow(rows, u, ids, a);
    MovedRow(rows, u, ids, b);
    var ka, kb := Place(ids, rows[a].id), Place(ids, rows[b].id);
    if ka >= 0 {
      var i := CardOrigin(rows, u, ka);
      if kb >= 0 {
        assert ka != kb;
        CardsAscend(rows, u, if ka < kb then ka else kb, if ka < kb then kb else ka);
      } else {
        assert i != b;
      }
    } else if kb >= 0 {
      var j := CardOrigin(rows, u, kb);
      assert j != a;
    }
  }

  lemma MovedIsPermuted(rows: seq<Row>, u: User, ids: seq<int>)
    requires DistinctIds(rows) && Permuted(rows) && IsPermutation(Cards(rows, u), ids)
    ensures Permuted(Moved(rows, Cards(rows, u), ids))
  {
    var r := Moved(rows, Cards(rows, u), ids);
    hide Moved, Cards, Place, Less, IsPermutation, DistinctIds;
    forall a | 0 <= a < |r| ensures 1 <= r[a].displayOrder <= |r| {
      MovedInRange(rows, u, ids, a);
    }
    forall a, b | 0 <= a < b < |r| ensures r[a].displayOrder != r[b].displayOrder {
      MovedStayApart(rows, u, ids, a, b);
    }
  }

  lemma MovedKeepsOrderly(t: Table, u: User, ids: seq<int>)
    requires Orderly(t) && IsPermutation(Cards(t.rows, u), ids)
    ensures Orderly(t.(rows := Moved(t.rows, Cards(t.rows, u), ids)))
  {
    hide Cards, Place;
    var r := Moved(t.rows, Cards(t.rows, u), ids);
    MovedIsPermuted(t.rows, u, ids);
    hide Permuted;
    assert forall i :: 0 <= i < |r| ==> r[i] == t.rows[i].(displayOrder := r[i].displayOrder);
  }

  /** The row an id names. */
  lemma NamedRow(rows: seq<Row>, u: User, ids: seq<int>, k: nat) returns (i: nat)
    requires DistinctIds(rows) && IsPermutation(Cards(rows, u), ids) && k < |ids|
    ensures i < |rows| && rows[i].id == ids[k] && Visible(u, rows[i])
    ensures Moved(rows, Cards(rows, u), ids)[i] == rows[i].(displayOrder := Cards(rows, u)[k].displayOrder)
  {
    hide Cards, Less, Moved, Visible;
    i := CardOrigin(rows, u, Place(Ids(Cards(rows, u)), ids[k]));
    assert rows[i].id == ids[k];
    assert Place(ids, ids[k]) == k;
    hide Place;
    MovedRow(rows, u, ids, i);
  }

  lemma VisibleIsNamed(rows: seq<Row>, u: User, ids: seq<int>, i: nat) returns (k: nat)
    requires DistinctIds(rows) && IsPermutation(Cards(rows, u), ids) && i < |rows| && Visible(u, rows[i])
    ensures k < |ids| && ids[k] == rows[i].id
  {
    hide Cards, Less;
    MovedRow(rows, u, ids, i);
    k := Place(ids, rows[i].id);
  }

  /** The moved rows in the order `ids` lists them are already in display order. */
  lemma MovedTarget(rows: seq<Row>, u: User, ids: seq<int>) returns (target: seq<Row>)
    requires DistinctIds(rows) && Permuted(rows) && IsPermutation(Cards(rows, u), ids)
    ensures Ids(target) == ids && Strict(Display, target)
    ensures forall k :: 0 <= k < |target| ==> target[k] in Moved(rows, Cards(rows, u), ids) && Visible(u, target[k])
  {
    var r := Moved(rows, Cards(rows, u), ids);
    hide Moved, Place, Cards, Permuted, DistinctIds, Less;
    target := [];
    while |target| < |ids|
      invariant |target| <= |ids|
      invariant forall k :: 0 <= k < |target| ==>
                  && target[k].id == ids[k] && target[k] in r && Visible(u, target[k])
                  && target[k].displayOrder == Cards(rows, u)[k].displayOrder
      decreases |ids| - |target|
    {
      var i := NamedRow(rows, u, ids, |target|);
      assert r[i] in r && Visible(u, r[i]);
      target := target + [r[i]];
    }
    forall a, b | 0 <= a < b < |target| ensures Less(Display, target[a], target[b]) {
      CardsAscend(rows, u, a, b);
      EarlierPosition(target[a], target[b]);
    }
  }

  lemma EarlierPosition(x: Row, y: Row)
    requires x.displayOrder < y.displayOrder
    ensures Less(Display, x, y)
  {
  }

  lemma MovedKeepsIdentity(rows: seq<Row>, u: User, cards: seq<Row>, ids: seq<int>)
    requires DistinctIds(rows) && |ids| == |cards|
    ensures var r := Moved(rows, cards, ids);
            && DistinctIds(r)
            && forall i :: 0 <= i < |r| ==>
                 r[i] == rows[i].(displayOrder := r[i].displayOrder) && Visible(u, r[i]) == Visible(u, rows[i])
  {
    hide Place;
  }

  lemma MovedCardsFollowIds(rows: seq<Row>, u: User, ids: seq<int>)
    requires DistinctIds(rows) && Permuted(rows) && IsPermutation(Cards(rows, u), ids)
    ensures Ids(Cards(Moved(rows, Cards(rows, u), ids), u)) == ids
  {
    var r := Moved(rows, Cards(rows, u), ids);
    hide Moved, Place, Permuted, IsPermutation, Less, Cards, Visible, DistinctIds, Strict;
    MovedKeepsIdentity(rows, u, Cards(rows, u), ids);
    var target := MovedTarget(rows, u, ids);
    forall x ensures x in target <==> x in Cards(r, u) {
      CardsAreVisible(r, u, x);
      if x in r && Visible(u, x) {
        var i :| 0 <= i < |r| && r[i] == x;
        NamedInTarget(rows, u, ids, target, i);
      }
    }
    CardsAreVisible(r, u, Row(0, 0, 0, None, 0));
    StrictIsUnique(Display, target, Cards(r, u));
  }

  lemma NamedInTarget(rows: seq<Row>, u: User, ids: seq<int>, target: seq<Row>, i: nat)
    requires DistinctIds(rows) && IsPermutation(Cards(rows, u), ids) && Ids(target) == ids
    requires forall k :: 0 <= k < |target| ==> target[k] in Moved(rows, Cards(rows, u), ids)
    requires i < |rows| && Visible(u, rows[i])
    ensures Moved(rows, Cards(rows, u), ids)[i] in target
  {
    var r := Moved(rows, Cards(rows, u), ids);
    hide Cards, Moved, Place, Less, Visible, IsPermutation;
    MovedKeepsIdentity(rows, u, Cards(rows, u), ids);
    var k := VisibleIsNamed(rows, u, ids, i);
    assert target[k].id == Ids(target)[k] == r[i].id;
    var j :| 0 <= j < |r| && r[j] == target[k];
    assert j == i;
  }

  /**
   * Dragging: after an accepted reorder the user sees exactly the requested order, and every row the
   * user cannot see is untouched; labels, owners and creation times never move.
   */
  lemma ReorderIsExact(t: Table, u: User, ids: seq<int>)
    requires Orderly(t) && ReorderFor(t, u, ids).Reordered?
    ensures var after := ReorderFor(t, u, ids).table;
            && Orderly(after) && |after.rows| == |t.rows| && after.nextId == t.nextId
            && Ids(Cards(after.rows, u)) == ids
            && forall i :: 0 <= i < |t.rows| ==>
                 && after.rows[i] == t.rows[i].(displayOrder := after.rows[i].displayOrder)
                 && (!Visible(u, t.rows[i]) ==> after.rows[i] == t.rows[i])
  {
    ReorderAccepted(t, u, ids);
    MovedKeepsOrderly(t, u, ids);
    MovedCardsFollowIds(t.rows, u, ids);
    MovedKeepsIdentity(t.rows, u, Cards(t.rows, u), ids);
    hide Cards, Place, Less, Permuted, Moved, Visible;
    forall i | 0 <= i < |t.rows| && !Visible(u, t.rows[i])
      ensures Moved(t.rows, Cards(t.rows, u), ids)[i] == t.rows[i]
    {
      MovedRow(t.rows, u, ids, i);
    }
  }

  // ----- whole runs -----

  datatype Event =
    | Create(owner: Option<int>, now: int)
    | Delete(id: int)
    | Drag(user: User, ids: seq<int>)
    | Restart

  /** A refused reorder leaves the table alone. */
  function Step(t: Table, e: Event): Table {
    match e
    case Create(owner, now) => Created(t, owner, now)
    case Delete(id) => Deleted(t, id)
    case Drag(user, ids) =>
      (match ReorderFor(t, user, ids)
       case Reordered(after) => after
       case Rejected(_) => t)
    case Restart => t.(rows := Resequenced(t.rows))
  }

  function Run(t: Table, events: seq<Event>): Table
    decreases |events|
  {
    if events == [] then t else Run(Step(t, events[0]), events[1..])
  }

  /** The wall clock never goes back between creations. */
  predicate ClockAscends(clock: int, events: seq<Event>)
    decreases |events|
  {
    events == []
    || (if events[0].Create? then clock <= events[0].now && ClockAscends(events[0].now, events[1..])
        else ClockAscends(clock, events[1..]))
  }

  ghost predicate CreatedBy(t: Table, clock: int) {
    forall i :: 0 <= i < |t.rows| ==> t.rows[i].createdAt <= clock
  }

  lemma {:induction false} DeletedTimes(rows: seq<Row>, id: int, clock: int)
    requires Stored(rows) && forall i :: 0 <= i < |rows| ==> rows[i].createdAt <= clock
    ensures forall i :: 0 <= i < |Resequenced(Without(rows, id))| ==> Resequenced(Without(rows, id))[i].createdAt <= clock
  {
    hide Resequenced, Without, Less;
    var left := Without(rows, id);
    WithoutIsStored(rows, id);
    ResequenceRepairs(left);
    forall i | 0 <= i < |left| ensures left[i].createdAt <= clock {
      WithoutMember(rows, id, left[i]);
    }
  }

  lemma StepKeepsOrder(t: Table, e: Event, clock: int)
    requires Orderly(t) && CreatedBy(t, clock) && (e.Create? ==> clock <= e.now)
    ensures Orderly(Step(t, e)) && CreatedBy(Step(t, e), if e.Create? then e.now else clock)
  {
    hide ReorderFor, Resequenced, Permuted, Less, Without, MaxPosition;
    match e
    case Create(owner, now) =>
      CreateKeepsOrder(t, owner, now);
    case Delete(id) =>
      DeleteKeepsOrder(t, id);
      DeletedTimes(t.rows, id, clock);
    case Drag(user, ids) =>
      if ReorderFor(t, user, ids).Reordered? {
        ReorderIsExact(t, user, ids);
      }
    case Restart =>
      ResequenceRepairs(t.rows);
  }

  /** Over every run the labels are 1..N in creation order and the positions a permutation of 1..N. */
  lemma {:induction false} EveryRunIsOrderly(t: Table, clock: int, events: seq<Event>)
    requires Orderly(t) && CreatedBy(t, clock) && ClockAscends(clock, events)
    ensures Orderly(Run(t, events))
    decreases |events|
  {
    if events != [] {
      hide Orderly, Step, CreatedBy;
      StepKeepsOrder(t, events[0], clock);
      EveryRunIsOrderly(Step(t, events[0]), if events[0].Create? then events[0].now else clock, events[1..]);
    }
  }

  /** A restart puts a table in order again whatever labels and positions it was left with, and loses no bot. */
  lemma RestartRepairs(t: Table)
    requires Stored(t.rows) && forall i :: 0 <= i < |t.rows| ==> t.rows[i].id < t.nextId
    ensures Orderly(Step(t, Restart)) && Bots(Step(t, Restart).rows) == Bots(t.rows)
  {
    ResequenceRepairs(t.rows);
    RelabelledBots(t.rows);
    hide Resequenced, Permuted, Bots, Less;
  }

  /** Who must be in the table after a run: those created and not deleted since. */
  ghost function Roster(bots: set<Bot>, nextId: int, events: seq<Event>): set<Bot>
    decreases |events|
  {
    if events == [] then bots
    else
      match events[0]
      case Create(owner, now) => Roster(bots + {Bot(nextId, owner, now)}, nextId + 1, events[1..])
      case Delete(id) => Roster((set b | b in bots && b.id != id), nextId, events[1..])
      case _ => Roster(bots, nextId, events[1..])
  }

  /** Whatever the events, no bot appears, disappears or changes hands but by being created or deleted. */
  lemma {:induction false} BotsAreThoseCreated(t: Table, events: seq<Event>)
    ensures Bots(Run(t, events).rows) == Roster(Bots(t.rows), t.nextId, events)
    decreases |events|
  {
    if events != [] {
      StepMovesBots(t, events[0]);
      BotsAreThoseCreated(Step(t, events[0]), events[1..]);
      hide Step, Bots;
    }
  }

  lemma StepMovesBots(t: Table, e: Event)
    ensures Step(t, e).nextId == t.nextId + if e.Create? then 1 else 0
    ensures Bots(Step(t, e).rows) ==
            match e
            case Create(owner, now) => Bots(t.rows) + {Bot(t.nextId, owner, now)}
            case Delete(id) => (set b | b in Bots(t.rows) && b.id != id)
            case _ => Bots(t.rows)
  {
    match e {
      case Create(owner, now) =>
        AppendedBots(t.rows, Created(t, owner, now).rows[|t.rows|]);
      case Delete(id) =>
        WithoutBots(t.rows, id);
        RelabelledBots(Without(t.rows, id));
      case Drag(user, ids) =>
        var cards := Cards(t.rows, user);
        if |ids| == |cards| {
          MovedBots(t.rows, cards, ids);
        }
      case Restart =>
        RelabelledBots(t.rows);
    }
    hide Bots, Resequenced, Cards, Moved, Without, MaxPosition, Ids, Place;
  }

  lemma AppendedBots(rows: seq<Row>, r: Row)
    ensures Bots(rows + [r]) == Bots(rows) + {BotOf(r)}
  {
    var more := rows + [r];
    assert more[|rows|] == r && forall k :: 0 <= k < |rows| ==> more[k] == rows[k];
    forall b | b in Bots(rows) + {BotOf(r)} ensures b in Bots(more) {
      if b in Bots(rows) {
        var k :| 0 <= k < |rows| && BotOf(rows[k]) == b;
        assert BotOf(more[k]) == b;
      } else {
        assert BotOf(more[|rows|]) == b;
      }
    }
  }

  lemma MovedBots(rows: seq<Row>, cards: seq<Row>, ids: seq<int>)
    requires |ids| == |cards|
    ensures Bots(Moved(rows, cards, ids)) == Bots(rows)
  {
    SameBots(rows, Moved(rows, cards, ids));
    hide Place;
  }

  // ----- quota -----

  datatype Account = Account(admin: bool, botQuota: int)

  /** `SELECT COUNT(*) ... WHERE owner_user_id = ? AND (created_at < ? OR (created_at = ? AND id < ?))`. */
  function OlderSiblings(rows: seq<Row>, owner: int, row: Row): nat {
    if rows == [] then 0
    else (if rows[0].owner == Some(owner) && Less(Creation, rows[0], row) then 1 else 0)
         + OlderSiblings(rows[1..], owner, row)
  }

  predicate IsRowOverQuota(rows: seq<Row>, accounts: map<int, Account>, row: Row) {
    match row.owner
    case None => false
    case Some(owner) =>
      if owner !in accounts || accounts[owner].admin then false
      else OlderSiblings(rows, owner, row) >= accounts[owner].botQuota
  }

  function Reversed(s: seq<Row>): (r: seq<Row>)
    ensures |r| == |s| && forall k :: 0 <= k < |s| ==> r[k] == s[|s| - 1 - k]
  {
    if s == [] then [] else Reversed(s[1..]) + [s[0]]
  }

  /** What a lapsed subscription no longer pays for: `slice(max(0, quota))`, newest first. */
  function OverQuotaBots(rows: seq<Row>, owner: int, quota: int): seq<Row> {
    var owned := ListBy(Creation, Accessible(rows, User(owner, false)));
    Reversed(owned[Min(|owned|, Max(0, quota))..])
  }

  /** How many of `s` were created before `row`. */
  function Older(s: seq<Row>, row: Row): nat {
    if s == [] then 0 else (if Less(Creation, s[0], row) then 1 else 0) + Older(s[1..], row)
  }

  lemma {:induction false} SiblingsAreOwned(rows: seq<Row>, owner: int, row: Row)
    ensures OlderSiblings(rows, owner, row) == Older(Accessible(rows, User(owner, false)), row)
  {
    if rows != [] {
      SiblingsAreOwned(rows[1..], owner, row);
      var rest := Accessible(rows[1..], User(owner, false));
      assert ([rows[0]] + rest)[1..] == rest && [] + rest == rest;
    }
  }

  lemma {:induction false} InsertCounts(x: Row, s: seq<Row>, row: Row)
    ensures Older(InsertRow(Creation, x, s), row) == Older([x], row) + Older(s, row)
  {
    if s != [] && !Less(Creation, x, s[0]) {
      InsertCounts(x, s[1..], row);
    }
  }

  lemma {:induction false} ListCounts(s: seq<Row>, row: Row)
    ensures Older(ListBy(Creation, s), row) == Older(s, row)
  {
    if s != [] {
      ListCounts(s[1..], row);
      InsertCounts(s[0], ListBy(Creation, s[1..]), row);
      hide Less;
    }
  }

  lemma {:induction false} RankInListing(s: seq<Row>, k: nat, row: Row)
    requires Strict(Creation, s) && k <= |s|
    requires forall a :: 0 <= a < |s| ==> (Less(Creation, s[a], row) <==> a < k)
    ensures Older(s, row) == k
  {
    hide Less;
    if s != [] {
      RankInListing(s[1..], if k == 0 then 0 else k - 1, row);
    }
  }

  /** A bot's older siblings are those before it in its owner's oldest-first listing. */
  lemma RankAmongOwned(rows: seq<Row>, owner: int, row: Row) returns (k: nat)
    requires DistinctIds(rows) && row in rows && row.owner == Some(owner)
    ensures var owned := ListBy(Creation, Accessible(rows, User(owner, false)));
            DistinctIds(owned) && k < |owned| && owned[k] == row && OlderSiblings(rows, owner, row) == k
  {
    var u := User(owner, false);
    var owned := ListBy(Creation, Accessible(rows, u));
    AccessibleMember(rows, u, row);
    hide Less, ListBy, Accessible, OlderSiblings, Older;
    AccessibleIds(rows, u);
    ListMember(Creation, Accessible(rows, u), row);
    ListStrict(Creation, Accessible(rows, u));
    SiblingsAreOwned(rows, owner, row);
    ListCounts(Accessible(rows, u), row);
    k :| 0 <= k < |owned| && owned[k] == row;
    forall a | 0 <= a < |owned| ensures Less(Creation, owned[a], row) <==> a < k {
      LessIsStrict(Creation, owned[a], row);
    }
    RankInListing(owned, k, row);
  }

  lemma {:induction false} QuotaOfOwned(rows: seq<Row>, owner: int, quota: int, row: Row)
    requires DistinctIds(rows) && row in rows && row.owner == Some(owner)
    ensures OlderSiblings(rows, owner, row) >= quota <==> row in OverQuotaBots(rows, owner, quota)
  {
    hide Less, ListBy, Accessible, OlderSiblings, Reversed, DistinctIds;
    var k := RankAmongOwned(rows, owner, row);
    var owned := ListBy(Creation, Accessible(rows, User(owner, false)));
    SuffixMember(owned, k, Min(|owned|, Max(0, quota)));
  }

  /**
   * The rank test and the list slice name the same bots, whatever the quota; an orphan's bot and an
   * administrator's are never past it.
   */
  lemma QuotaDefinitionsAgree(rows: seq<Row>, accounts: map<int, Account>, row: Row)
    requires DistinctIds(rows) && row in rows
    ensures IsRowOverQuota(rows, accounts, row)
            <==> && row.owner.Some? && row.owner.value in accounts && !accounts[row.owner.value].admin
                 && row in OverQuotaBots(rows, row.owner.value, accounts[row.owner.value].botQuota)
  {
    if row.owner.Some? && row.owner.value in accounts {
      QuotaOfOwned(rows, row.owner.value, accounts[row.owner.value].botQuota, row);
    }
  }

  lemma SuffixMember(s: seq<Row>, k: nat, from: nat)
    requires DistinctIds(s) && k < |s| && from <= |s|
    ensures s[k] in Reversed(s[from..]) <==> from <= k
  {
    hide Reversed;
    var r := Reversed(s[from..]);
    if s[k] in r {
      var j :| 0 <= j < |r| && r[j] == s[k];
      assert s[from + (|r| - 1 - j)] == s[k];
    }
    if from <= k {
      assert r[|s| - 1 - k] == s[k];
    }
  }

  // ----- the store -----

  /** `UPDATE bots SET slot = ? WHERE id = ?`. */
  function SetSlot(rows: seq<Row>, id: int, slot: int): (r: seq<Row>)
    ensures |r| == |rows|
  {
    seq(|rows|, i requires 0 <= i < |rows| => if rows[i].id == id then rows[i].(slot := slot) else rows[i])
  }

  /** `UPDATE bots SET display_order = ? WHERE id = ?`. */
  function SetPosition(rows: seq<Row>, id: int, position: int): (r: seq<Row>)
    ensures |r| == |rows|
  {
    seq(|rows|, i requires 0 <= i < |rows| => if rows[i].id == id then rows[i].(displayOrder := position) else rows[i])
  }

  class BotStore {
    var rows: seq<Row>
    var nextId: int

    ghost function Contents(): Table
      reads this
    {
      Table(rows, nextId)
    }

    constructor ()
      ensures Contents() == Table([], 1) && Orderly(Contents())
    {
      rows, nextId := [], 1;
    }

    method RelabelSlots()
      requires DistinctIds(rows)
      modifies this
      ensures rows == WithSlots(old(rows), ListBy(Creation, old(rows))) && nextId == old(nextId)
    {
      hide Less, ListBy, Place;
      var listing := ListBy(Creation, rows);
      ListStrict(Creation, rows);
      var k := 0;
      while k < |listing|
        invariant 0 <= k <= |listing| && |rows| == |old(rows)| && nextId == old(nextId)
        invariant forall i :: 0 <= i < |rows| ==>
                    var at := IndexOfId(listing, old(rows)[i].id);
                    rows[i] == if 0 <= at < k then old(rows)[i].(slot := at + 1) else old(rows)[i]
      {
        rows := SetSlot(rows, listing[k].id, k + 1);
        k := k + 1;
      }
      forall i | 0 <= i < |rows| ensures rows[i] == WithSlots(old(rows), listing)[i] {
        ListedAt(Creation, old(rows), i);
      }
    }

    method CompactPositions()
      requires DistinctIds(rows)
      modifies this
      ensures rows == WithPositions(old(rows), ListBy(Display, old(rows))) && nextId == old(nextId)
    {
      hide Less, ListBy, Place;
      var listing := ListBy(Display, rows);
      ListStrict(Display, rows);
      var k := 0;
      while k < |listing|
        invariant 0 <= k <= |listing| && |rows| == |old(rows)| && nextId == old(nextId)
        invariant forall i :: 0 <= i < |rows| ==>
                    var at := IndexOfId(listing, old(rows)[i].id);
                    rows[i] == if 0 <= at < k then old(rows)[i].(displayOrder := at + 1) else old(rows)[i]
      {
        rows := SetPosition(rows, listing[k].id, k + 1);
        k := k + 1;
      }
      forall i | 0 <= i < |rows| ensures rows[i] == WithPositions(old(rows), listing)[i] {
        ListedAt(Display, old(rows), i);
      }
    }

    method ResequenceBotSlots()
      requires DistinctIds(rows)
      modifies this
      ensures Contents() == old(Contents()).(rows := Resequenced(old(rows)))
    {
      hide Less, ListBy, IndexOfId;
      SlotsKeepIds(rows);
      RelabelSlots();
      CompactPositions();
    }

    method InsertAtEnd(owner: Option<int>, now: int)
      modifies this
      ensures Contents() == Created(old(Contents()), owner, now)
    {
      rows := rows + [Row(nextId, |rows| + 1, MaxPosition(rows) + 1, owner, now)];
      nextId := nextId + 1;
    }

    /** The bot's own rows; the other tables' rows for it go in the same transaction. */
    method DeleteBotCascade(id: int)
      requires Stored(rows)
      modifies this
      ensures Contents() == Deleted(old(Contents()), id)
    {
      hide Less, Without, Resequenced;
      WithoutIsStored(rows, id);
      rows := Without(rows, id);
      ResequenceBotSlots();
    }

    /** Either error is raised before the transaction opens. */
    method ReorderBotsForUser(u: User, ids: seq<int>) returns (error: Option<ReorderError>)
      requires DistinctIds(rows)
      modifies this
      ensures match ReorderFor(old(Contents()), u, ids)
              case Reordered(after) => error == None && Contents() == after
              case Rejected(e) => error == Some(e) && Contents() == old(Contents())
    {
      hide Less, ListBy, Accessible, Place;
      var cards := Cards(rows, u);
      if |ids| != |cards| || !Distinct(ids) {
        return Some(NotAPermutation);
      }
      if exists k :: 0 <= k < |ids| && Place(Ids(cards), ids[k]) < 0 {
        return Some(InaccessibleBot);
      }
      var k := 0;
      while k < |ids|
        invariant 0 <= k <= |ids| && |rows| == |old(rows)| && nextId == old(nextId)
        invariant forall i :: 0 <= i < |rows| ==>
                    var at := Place(ids, old(rows)[i].id);
                    rows[i] == if 0 <= at < k then old(rows)[i].(displayOrder := cards[at].displayOrder) else old(rows)[i]
      {
        rows := SetPosition(rows, ids[k], cards[k].displayOrder);
        k := k + 1;
      }
      assert rows == Moved(old(rows), cards, ids);
      return None;
    }
  }
}
