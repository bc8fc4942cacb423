/** A fixed ring of slots read as the last `n` items of everything ever recorded. */
module RingWindow {
  import opened Prelude

  /** The slot written `k` writes ago (1 is the newest) when the cursor is at `next`. */
  function Slot(next: nat, k: nat, n: nat): (i: nat)
    requires next < n && 1 <= k <= n
    ensures i < n
  {
    if k <= next then next - k else next - k + n
  }

  /**
   * `ring` with cursor `next` and fill `count` holds exactly the most recent items
   * of `history`, the newest just behind the cursor.
   */
  ghost predicate Holds<T>(ring: seq<Option<T>>, next: nat, count: nat, history: seq<T>) {
    && next < |ring|
    && count == Min(|history|, |ring|)
    && (count < |ring| ==> next == count)
    && forall k :: 1 <= k <= count ==> ring[Slot(next, k, |ring|)] == Some(history[|history| - k])
  }

  /** `(next + 1) % RING_SIZE`. */
  function Advance(next: nat, n: nat): (i: nat)
    requires next < n
    ensures i == if next + 1 == n then 0 else next + 1
  {
    (next + 1) % n
  }

  /** Overwriting the cursor's slot and stepping it is appending to the history. */
  lemma Overwrite<T>(ring: seq<Option<T>>, next: nat, count: nat, history: seq<T>, x: T)
    requires Holds(ring, next, count, history)
    ensures Holds(ring[next := Some(x)], Advance(next, |ring|), Min(count + 1, |ring|), history + [x])
    ensures count == |ring| ==> ring[next] == Some(history[|history| - |ring|])
  {
    var n, h := |ring|, history + [x];
    var after, next' := ring[next := Some(x)], Advance(next, n);
    if count == n {
      assert Slot(next, n, n) == next;
    }
    forall k | 1 <= k <= Min(count + 1, n)
      ensures after[Slot(next', k, n)] == Some(h[|h| - k])
    {
      if k == 1 {
        assert Slot(next', 1, n) == next;
      } else {
        assert Slot(next', k, n) == Slot(next, k - 1, n) != next;
      }
    }
  }

  /** Reading the ring oldest first: from slot 0 until full, then from the cursor around. */
  function Ordered<T>(ring: seq<Option<T>>, next: nat, count: nat): seq<Option<T>>
    requires next < |ring| && count <= |ring|
  {
    if count < |ring| then ring[..count] else ring[next..] + ring[..next]
  }

  lemma OrderedIsWindow<T>(ring: seq<Option<T>>, next: nat, count: nat, history: seq<T>)
    requires Holds(ring, next, count, history)
    ensures |Ordered(ring, next, count)| == count == |LastN(history, |ring|)|
    ensures forall i :: 0 <= i < count ==> Ordered(ring, next, count)[i] == Some(LastN(history, |ring|)[i])
  {
    var o, w := Ordered(ring, next, count), LastN(history, |ring|);
    forall i | 0 <= i < count ensures o[i] == Some(w[i]) {
      assert o[i] == ring[Slot(next, count - i, |ring|)];
    }
  }

  /** `slice(-n)`: the last `n` items, or for `n` not positive all but the first `-n`. */
  function SliceFromEnd<T>(s: seq<T>, n: int): seq<T> {
    if n > 0 then LastN(s, n) else s[Min(-n, |s|)..]
  }

  /** The newest `n` records the ring still has. */
  function Newest<T>(history: seq<T>, size: nat, n: int): seq<T> {
    if n > 0 then LastN(history, Min(n, size)) else SliceFromEnd(LastN(history, size), n)
  }

  /** Slicing the ring read in order is slicing the history. */
  lemma SliceIsNewest<T>(ring: seq<Option<T>>, next: nat, count: nat, history: seq<T>, n: int)
    requires Holds(ring, next, count, history)
    ensures |SliceFromEnd(Ordered(ring, next, count), n)| == |Newest(history, |ring|, n)|
    ensures forall i :: 0 <= i < |Newest(history, |ring|, n)| ==>
      SliceFromEnd(Ordered(ring, next, count), n)[i] == Some(Newest(history, |ring|, n)[i])
  {
    OrderedIsWindow(ring, next, count, history);
    hide Ordered, Holds;
  }

  /** One more record: the window drops its oldest item once full. */
  lemma WindowStep<T>(history: seq<T>, x: T, n: nat)
    requires n > 0
    ensures LastN(history + [x], n) ==
            (if |history| < n then LastN(history, n) else LastN(history, n)[1..]) + [x]
  {
  }
}
