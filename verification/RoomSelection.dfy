/** Which OpenChats a bot's fast pollers watch: sticky while active, busiest first otherwise. */
module RoomSelection {
  import opened Prelude

  datatype Candidate = Candidate(mid: string, recentMessages: nat)

  /** A candidate is referred to by its place in the caller's order, which breaks every tie. */
  type Rooms = seq<Candidate>

  predicate DistinctMids(rooms: Rooms) {
    forall i, j :: 0 <= i < j < |rooms| ==> rooms[i].mid != rooms[j].mid
  }

  predicate AnyActive(rooms: Rooms) {
    exists i :: 0 <= i < |rooms| && rooms[i].recentMessages > 0
  }

  /** Polled now, and either still busy or with nothing busier anywhere to leave it for. */
  predicate Sticky(rooms: Rooms, current: seq<string>, i: nat)
    requires i < |rooms|
  {
    rooms[i].mid in current && (rooms[i].recentMessages > 0 || !AnyActive(rooms))
  }

  /** The rooms from `lo` on whose stickiness is `sticky`, in the caller's order. */
  function Pick(rooms: Rooms, current: seq<string>, sticky: bool, lo: nat): (r: seq<nat>)
    requires lo <= |rooms|
    ensures forall a :: 0 <= a < |r| ==> lo <= r[a] < |rooms| && Sticky(rooms, current, r[a]) == sticky
    ensures forall a, b :: 0 <= a < b < |r| ==> r[a] < r[b]
    decreases |rooms| - lo
  {
    if lo == |rooms| then []
    else if Sticky(rooms, current, lo) == sticky then [lo] + Pick(rooms, current, sticky, lo + 1)
    else Pick(rooms, current, sticky, lo + 1)
  }

  /** `sort((a, b) => b.recentMessages - a.recentMessages)`, which is stable. */
  function ByTrafficDesc(rooms: Rooms, s: seq<nat>): (r: seq<nat>)
    requires forall a :: 0 <= a < |s| ==> s[a] < |rooms|
    ensures |r| == |s| && forall a :: 0 <= a < |r| ==> r[a] in s
  {
    if s == [] then [] else Insert(rooms, s[0], ByTrafficDesc(rooms, s[1..]))
  }

  function Insert(rooms: Rooms, i: nat, s: seq<nat>): (r: seq<nat>)
    requires i < |rooms| && forall a :: 0 <= a < |s| ==> s[a] < |rooms|
    ensures |r| == |s| + 1 && forall a :: 0 <= a < |r| ==> r[a] == i || r[a] in s
  {
    if s == [] || rooms[i].recentMessages >= rooms[s[0]].recentMessages then [i] + s
    else [s[0]] + Insert(rooms, i, s[1..])
  }

  /** Every candidate, best first. */
  function Ranked(rooms: Rooms, current: seq<string>): seq<nat> {
    Pick(rooms, current, true, 0) + ByTrafficDesc(rooms, Pick(rooms, current, false, 0))
  }

  function MidsOf(rooms: Rooms, s: seq<nat>): (r: seq<string>)
    requires forall a :: 0 <= a < |s| ==> s[a] < |rooms|
    ensures |r| == |s| && forall a :: 0 <= a < |s| ==> r[a] == rooms[s[a]].mid
  {
    seq(|s|, a requires 0 <= a < |s| => rooms[s[a]].mid)
  }

  // ----- the ranking is a strict total order on the candidates -----

  predicate Before(rooms: Rooms, current: seq<string>, i: nat, j: nat)
    requires i < |rooms| && j < |rooms|
  {
    var si, sj := Sticky(rooms, current, i), Sticky(rooms, current, j);
    if si != sj then si
    else if si then i < j
    else rooms[i].recentMessages > rooms[j].recentMessages
         || (rooms[i].recentMessages == rooms[j].recentMessages && i < j)
  }

  /** Listed best first, nothing twice. */
  ghost predicate InOrder(rooms: Rooms, current: seq<string>, s: seq<nat>) {
    && (forall a :: 0 <= a < |s| ==> s[a] < |rooms|)
    && (forall a, b :: 0 <= a < b < |s| ==> Before(rooms, current, s[a], s[b]))
  }

  /** Places that are in range and not sticky. */
  ghost predicate Loose(rooms: Rooms, current: seq<string>, s: seq<nat>) {
    forall a :: 0 <= a < |s| ==> s[a] < |rooms| && !Sticky(rooms, current, s[a])
  }

  lemma {:induction false} InsertInOrder(rooms: Rooms, current: seq<string>, i: nat, s: seq<nat>)
    requires i < |rooms| && !Sticky(rooms, current, i) && Loose(rooms, current, s) && InOrder(rooms, current, s)
    requires forall a :: 0 <= a < |s| ==> i < s[a]
    ensures InOrder(rooms, current, Insert(rooms, i, s)) && Loose(rooms, current, Insert(rooms, i, s))
  {
    if s == [] || rooms[i].recentMessages >= rooms[s[0]].recentMessages {
      assert forall a :: 0 < a < |s| ==> Before(rooms, current, s[0], s[a]);
      ConsInOrder(rooms, current, i, s);
    } else {
      InsertInOrder(rooms, current, i, s[1..]);
      var t := Insert(rooms, i, s[1..]);
      forall a | 0 <= a < |t| ensures Before(rooms, current, s[0], t[a]) {
        if t[a] != i {
          var b :| 0 <= b < |s[1..]| && s[1..][b] == t[a];
          assert s[b + 1] == t[a];
        }
      }
      ConsInOrder(rooms, current, s[0], t);
    }
  }

  lemma ConsInOrder(rooms: Rooms, current: seq<string>, x: nat, s: seq<nat>)
    requires x < |rooms| && InOrder(rooms, current, s)
    requires forall a :: 0 <= a < |s| ==> Before(rooms, current, x, s[a])
    ensures InOrder(rooms, current, [x] + s)
  {
    hide Before;
  }

  lemma {:induction false} InsertKeeps(rooms: Rooms, i: nat, s: seq<nat>, x: nat)
    requires i < |rooms| && forall a :: 0 <= a < |s| ==> s[a] < |rooms|
    ensures x == i || x in s ==> x in Insert(rooms, i, s)
  {
    if s != [] && rooms[i].recentMessages < rooms[s[0]].recentMessages {
      InsertKeeps(rooms, i, s[1..], x);
      assert s == [s[0]] + s[1..];
    }
  }

  lemma {:induction false} SortKeeps(rooms: Rooms, s: seq<nat>, x: nat)
    requires forall a :: 0 <= a < |s| ==> s[a] < |rooms|
    ensures x in s ==> x in ByTrafficDesc(rooms, s)
  {
    if s != [] {
      SortKeeps(rooms, s[1..], x);
      InsertKeeps(rooms, s[0], ByTrafficDesc(rooms, s[1..]), x);
      assert s == [s[0]] + s[1..];
    }
  }

  lemma {:induction false} SortInOrder(rooms: Rooms, current: seq<string>, s: seq<nat>)
    requires Loose(rooms, current, s)
    requires forall a, b :: 0 <= a < b < |s| ==> s[a] < s[b]
    ensures InOrder(rooms, current, ByTrafficDesc(rooms, s)) && Loose(rooms, current, ByTrafficDesc(rooms, s))
  {
    if s != [] {
      SortInOrder(rooms, current, s[1..]);
      var t := ByTrafficDesc(rooms, s[1..]);
      forall a | 0 <= a < |t| ensures s[0] < t[a] {
        var b :| 0 <= b < |s[1..]| && s[1..][b] == t[a];
        assert s[b + 1] == t[a];
      }
      InsertInOrder(rooms, current, s[0], t);
    }
  }

  lemma KeptThenLoose(rooms: Rooms, current: seq<string>, keep: seq<nat>, loose: seq<nat>)
    requires forall a :: 0 <= a < |keep| ==> keep[a] < |rooms| && Sticky(rooms, current, keep[a])
    requires forall a, b :: 0 <= a < b < |keep| ==> keep[a] < keep[b]
    requires InOrder(rooms, current, loose) && Loose(rooms, current, loose)
    ensures InOrder(rooms, current, keep + loose)
  {
    hide Sticky;
  }

  lemma {:induction false} PickIsComplete(rooms: Rooms, current: seq<string>, sticky: bool, lo: nat, i: nat)
    requires lo <= i < |rooms| && Sticky(rooms, current, i) == sticky
    ensures i in Pick(rooms, current, sticky, lo)
    decreases |rooms| - lo
  {
    if lo < i {
      PickIsComplete(rooms, current, sticky, lo + 1, i);
    }
  }

  lemma {:induction false} PicksCover(rooms: Rooms, current: seq<string>, lo: nat)
    requires lo <= |rooms|
    ensures |Pick(rooms, current, true, lo)| + |Pick(rooms, current, false, lo)| == |rooms| - lo
    decreases |rooms| - lo
  {
    if lo < |rooms| {
      PicksCover(rooms, current, lo + 1);
    }
  }

  lemma RankedIsTotal(rooms: Rooms, current: seq<string>)
    ensures InOrder(rooms, current, Ranked(rooms, current))
    ensures |Ranked(rooms, current)| == |rooms|
    ensures forall i :: 0 <= i < |rooms| ==> i in Ranked(rooms, current)
  {
    var keep, rest := Pick(rooms, current, true, 0), Pick(rooms, current, false, 0);
    SortInOrder(rooms, current, rest);
    KeptThenLoose(rooms, current, keep, ByTrafficDesc(rooms, rest));
    PicksCover(rooms, current, 0);
    hide InOrder, Loose;
    forall i | 0 <= i < |rooms| ensures i in Ranked(rooms, current) {
      PickIsComplete(rooms, current, Sticky(rooms, current, i), 0, i);
      SortKeeps(rooms, rest, i);
    }
  }

  // ----- the selection -----

  /** The chosen candidates, by place. */
  function Chosen(rooms: Rooms, current: seq<string>, limit: int): seq<nat> {
    if limit <= 0 then [] else Ranked(rooms, current)[..Min(limit, |Ranked(rooms, current)|)]
  }

  /** The rooms to poll, best first. */
  function Select(rooms: Rooms, current: seq<string>, limit: int): (r: seq<string>) {
    RankedIsTotal(rooms, current);
    MidsOf(rooms, Chosen(rooms, current, limit))
  }

  /** Whatever is chosen ranks before whatever is not. */
  lemma ChosenIsBest(rooms: Rooms, current: seq<string>, limit: int, i: nat, j: nat)
    requires i in Chosen(rooms, current, limit) && j < |rooms| && j !in Chosen(rooms, current, limit)
    ensures i < |rooms| && Before(rooms, current, i, j)
    ensures |Chosen(rooms, current, limit)| == limit
  {
    RankedIsTotal(rooms, current);
    var ranked, chosen := Ranked(rooms, current), Chosen(rooms, current, limit);
    var a :| 0 <= a < |chosen| && chosen[a] == i;
    assert j in ranked;
    assert forall x :: 0 <= x < |chosen| ==> chosen[x] == ranked[x];
    var b :| 0 <= b < |ranked| && ranked[b] == j;
    assert ranked[a] == i;
  }

  lemma ChosenFacts(rooms: Rooms, current: seq<string>, limit: int)
    ensures |Chosen(rooms, current, limit)| == Max(0, Min(limit, |rooms|))
    ensures forall a :: 0 <= a < |Chosen(rooms, current, limit)| ==> Chosen(rooms, current, limit)[a] < |rooms|
    ensures Distinct(Chosen(rooms, current, limit))
  {
    RankedIsTotal(rooms, current);
    var chosen := Chosen(rooms, current, limit);
    forall a, b | 0 <= a < b < |chosen| ensures chosen[a] != chosen[b] {
      assert Before(rooms, current, Ranked(rooms, current)[a], Ranked(rooms, current)[b]);
    }
  }

  /** The result: `min(limit, candidates)` distinct candidate rooms. */
  lemma SelectionIsExact(rooms: Rooms, current: seq<string>, limit: int)
    requires DistinctMids(rooms)
    ensures |Select(rooms, current, limit)| == Max(0, Min(limit, |rooms|))
    ensures Distinct(Select(rooms, current, limit))
    ensures forall m :: m in Select(rooms, current, limit) ==> exists i :: 0 <= i < |rooms| && rooms[i].mid == m
  {
    ChosenFacts(rooms, current, limit);
    var chosen, r := Chosen(rooms, current, limit), Select(rooms, current, limit);
    forall a, b | 0 <= a < b < |r| ensures r[a] != r[b] {
      assert chosen[a] != chosen[b];
    }
    forall m | m in r ensures exists i :: 0 <= i < |rooms| && rooms[i].mid == m {
      var a :| 0 <= a < |r| && r[a] == m;
      assert rooms[chosen[a]].mid == m;
    }
  }

  /** Membership of the result is membership of the choice. */
  lemma SelectedMids(rooms: Rooms, current: seq<string>, limit: int, i: nat)
    requires DistinctMids(rooms) && i < |rooms|
    ensures rooms[i].mid in Select(rooms, current, limit) <==> i in Chosen(rooms, current, limit)
  {
    ChosenFacts(rooms, current, limit);
    var chosen, r := Chosen(rooms, current, limit), Select(rooms, current, limit);
    if rooms[i].mid in r {
      var a :| 0 <= a < |r| && r[a] == rooms[i].mid;
      assert chosen[a] == i;
    }
    if i in chosen {
      var a :| 0 <= a < |chosen| && chosen[a] == i;
      assert r[a] == rooms[i].mid;
    }
  }

  /** A polled room is left alone while it has traffic, and while no room anywhere has. */
  ghost predicate StaysPolled(rooms: Rooms, current: seq<string>, i: nat)
    requires i < |rooms|
  {
    rooms[i].mid in current && (rooms[i].recentMessages > 0 || forall k :: 0 <= k < |rooms| ==> rooms[k].recentMessages == 0)
  }

  /** Rooms that stay come first, in the caller's order; then the busier ones, ties in the caller's order. */
  ghost predicate Better(rooms: Rooms, current: seq<string>, i: nat, j: nat)
    requires i < |rooms| && j < |rooms|
  {
    if StaysPolled(rooms, current, i) != StaysPolled(rooms, current, j) then StaysPolled(rooms, current, i)
    else if !StaysPolled(rooms, current, i) && rooms[i].recentMessages != rooms[j].recentMessages
    then rooms[i].recentMessages > rooms[j].recentMessages
    else i < j
  }

  lemma BetterIsBefore(rooms: Rooms, current: seq<string>, i: nat, j: nat)
    requires i < |rooms| && j < |rooms|
    ensures Better(rooms, current, i, j) <==> Before(rooms, current, i, j)
  {
  }

  /** The best rooms are chosen, listed best first: every room chosen is better than any that is not. */
  lemma BestRoomsAreChosen(rooms: Rooms, current: seq<string>, limit: int)
    requires DistinctMids(rooms)
    ensures var r := Select(rooms, current, limit);
            && (forall a, b, i, j :: Stands(rooms, r, i, a) && Stands(rooms, r, j, b) && a < b ==> Better(rooms, current, i, j))
            && (forall a, i, j :: Stands(rooms, r, i, a) && 0 <= j < |rooms| && rooms[j].mid !in r ==> Better(rooms, current, i, j))
  {
    var r, chosen := Select(rooms, current, limit), Chosen(rooms, current, limit);
    RankedIsTotal(rooms, current);
    ChosenFacts(rooms, current, limit);
    hide Ranked, Before, Better, InOrder;
    forall a, i | Stands(rooms, r, i, a) ensures chosen[a] == i {
      assert rooms[chosen[a]].mid == rooms[i].mid;
    }
    forall a, b, i, j | Stands(rooms, r, i, a) && Stands(rooms, r, j, b) && a < b ensures Better(rooms, current, i, j) {
      ChosenInOrder(rooms, current, limit, a, b);
      BetterIsBefore(rooms, current, i, j);
    }
    forall a, i, j | Stands(rooms, r, i, a) && 0 <= j < |rooms| && rooms[j].mid !in r ensures Better(rooms, current, i, j) {
      SelectedMids(rooms, current, limit, j);
      assert chosen[a] in chosen;
      ChosenIsBest(rooms, current, limit, i, j);
      BetterIsBefore(rooms, current, i, j);
    }
  }

  lemma ChosenInOrder(rooms: Rooms, current: seq<string>, limit: int, a: nat, b: nat)
    requires a < b < |Chosen(rooms, current, limit)|
    ensures var chosen := Chosen(rooms, current, limit);
            chosen[a] < |rooms| && chosen[b] < |rooms| && Before(rooms, current, chosen[a], chosen[b])
  {
    RankedIsTotal(rooms, current);
    hide Ranked, Before;
  }

  /** Room `i` is the `a`th of the result. */
  ghost predicate Stands(rooms: Rooms, r: seq<string>, i: int, a: int) {
    0 <= i < |rooms| && 0 <= a < |r| && r[a] == rooms[i].mid
  }

  /** A currently polled active room is dropped only when active polled rooms alone exceed the limit. */
  lemma {:induction false} ActiveRoomKept(rooms: Rooms, current: seq<string>, limit: int, i: nat)
    requires DistinctMids(rooms) && i < |rooms|
    requires rooms[i].mid in current && rooms[i].recentMessages > 0
    requires |Pick(rooms, current, true, 0)| <= limit
    ensures rooms[i].mid in Select(rooms, current, limit)
  {
    PickIsComplete(rooms, current, true, 0, i);
    RankedIsTotal(rooms, current);
    var keep := Pick(rooms, current, true, 0);
    var a :| 0 <= a < |keep| && keep[a] == i;
    assert Chosen(rooms, current, limit)[a] == i;
    SelectedMids(rooms, current, limit, i);
  }

  /** There are no more sticky rooms than rooms currently polled. */
  lemma {:induction false} StickyFitCurrent(rooms: Rooms, current: seq<string>, pick: seq<nat>)
    requires DistinctMids(rooms) && Distinct(pick)
    requires forall a :: 0 <= a < |pick| ==> pick[a] < |rooms| && rooms[pick[a]].mid in current
    ensures |pick| <= |current|
    decreases |pick|
  {
    if pick != [] {
      var m := rooms[pick[0]].mid;
      var c :| 0 <= c < |current| && current[c] == m;
      var others := current[..c] + current[c + 1..];
      forall a | 0 <= a < |pick[1..]| ensures rooms[pick[1..][a]].mid in others {
        assert pick[1..][a] == pick[a + 1] && pick[a + 1] != pick[0];
        var d :| 0 <= d < |current| && current[d] == rooms[pick[a + 1]].mid;
        assert d != c;
        assert others[if d < c then d else d - 1] == current[d];
      }
      StickyFitCurrent(rooms, others, pick[1..]);
    }
  }

  /** When the polled set fits the limit, no polled active room is ever dropped. */
  lemma FittingCurrentIsKept(rooms: Rooms, current: seq<string>, limit: int, i: nat)
    requires DistinctMids(rooms) && i < |rooms| && |current| <= limit
    requires rooms[i].mid in current && rooms[i].recentMessages > 0
    ensures rooms[i].mid in Select(rooms, current, limit)
  {
    StickyFitCurrent(rooms, current, Pick(rooms, current, true, 0));
    ActiveRoomKept(rooms, current, limit, i);
  }

  /** Whoever is chosen stays ahead of whoever is not when the choice itself becomes `current`. */
  lemma ChoiceStaysAhead(rooms: Rooms, current: seq<string>, limit: int, i: nat, j: nat)
    requires DistinctMids(rooms) && j < |rooms|
    requires i in Chosen(rooms, current, limit) && j !in Chosen(rooms, current, limit)
    ensures i < |rooms| && Before(rooms, Select(rooms, current, limit), i, j)
  {
    ChosenIsBest(rooms, current, limit, i, j);
    SelectedMids(rooms, current, limit, i);
    SelectedMids(rooms, current, limit, j);
  }

  /** Main result: feeding the selection back in returns the same rooms. */
  lemma SelectionIsIdempotent(rooms: Rooms, current: seq<string>, limit: int, m: string)
    requires DistinctMids(rooms)
    ensures m in Select(rooms, Select(rooms, current, limit), limit) <==> m in Select(rooms, current, limit)
  {
    var first := Select(rooms, current, limit);
    var a, b := Chosen(rooms, current, limit), Chosen(rooms, first, limit);
    ChosenFacts(rooms, current, limit);
    ChosenFacts(rooms, first, limit);
    var sa, sb := Elements(a), Elements(b);
    DistinctSize(a);
    DistinctSize(b);
    if i :| i in sa && i !in sb {
      if j :| j in sb && j !in sa {
        ChoiceStaysAhead(rooms, current, limit, i, j);
        ChosenIsBest(rooms, first, limit, j, i);
      } else {
        SubsetSize(sb, sa);
      }
    } else {
      SubsetSize(sa, sb);
    }
    assert sa == sb;
    SelectionIsExact(rooms, current, limit);
    SelectionIsExact(rooms, first, limit);
    if i :| 0 <= i < |rooms| && rooms[i].mid == m {
      SelectedMids(rooms, current, limit, i);
      SelectedMids(rooms, first, limit, i);
      assert i in a <==> i in sa;
      assert i in b <==> i in sb;
    }
  }

  /** The choice looks at `current` only as a set. */
  lemma {:induction false} OnlyMembershipMatters(rooms: Rooms, x: seq<string>, y: seq<string>, sticky: bool, lo: nat)
    requires lo <= |rooms| && forall m :: m in x <==> m in y
    ensures Pick(rooms, x, sticky, lo) == Pick(rooms, y, sticky, lo)
    decreases |rooms| - lo
  {
    if lo < |rooms| {
      OnlyMembershipMatters(rooms, x, y, sticky, lo + 1);
    }
  }

  /** From the second application on, the sequence itself is fixed. */
  lemma SelectionSettles(rooms: Rooms, current: seq<string>, limit: int)
    requires DistinctMids(rooms)
    ensures var second := Select(rooms, Select(rooms, current, limit), limit);
            Select(rooms, second, limit) == second
  {
    var first := Select(rooms, current, limit);
    var second := Select(rooms, first, limit);
    forall m ensures m in second <==> m in first {
      SelectionIsIdempotent(rooms, current, limit, m);
    }
    OnlyMembershipMatters(rooms, first, second, true, 0);
    OnlyMembershipMatters(rooms, first, second, false, 0);
  }

  // ----- the program -----

  method SelectFastPollRooms(rooms: Rooms, current: seq<string>, limit: int) returns (r: seq<string>)
    ensures r == Select(rooms, current, limit)
  {
    RankedIsTotal(rooms, current);
    if limit <= 0 || |rooms| == 0 {
      return [];
    }
    hide Pick, ByTrafficDesc, InOrder;
    var keep, rest := Partition(rooms, current);
    var ranked := keep + ByTrafficDesc(rooms, rest);
    r := MidsOf(rooms, ranked[..Min(limit, |ranked|)]);
  }

  /** The loop that separates sticky rooms from the rest. */
  method Partition(rooms: Rooms, current: seq<string>) returns (keep: seq<nat>, rest: seq<nat>)
    ensures keep == Pick(rooms, current, true, 0) && rest == Pick(rooms, current, false, 0)
  {
    var anyActive := exists i :: 0 <= i < |rooms| && rooms[i].recentMessages > 0;
    keep, rest := [], [];
    for i := 0 to |rooms|
      invariant keep + Pick(rooms, current, true, i) == Pick(rooms, current, true, 0)
      invariant rest + Pick(rooms, current, false, i) == Pick(rooms, current, false, 0)
    {
      var sticky := rooms[i].mid in current && (rooms[i].recentMessages > 0 || !anyActive);
      assert sticky == Sticky(rooms, current, i);
      hide Sticky;
      MoveHead(if sticky then keep else rest, Pick(rooms, current, sticky, i));
      if sticky {
        keep := keep + [i];
      } else {
        rest := rest + [i];
      }
    }
    AppendNothing(keep);
    AppendNothing(rest);
  }
}
