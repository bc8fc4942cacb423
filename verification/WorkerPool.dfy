/** `mapWithConcurrency`: workers sharing one counter, interleaved at their awaits. */
module WorkerPool {
  import opened Prelude

  datatype Worker = Awaiting(index: nat) | Returned | Rejected(index: nat)

  /** `settled` records the indices whose call has completed, either way. */
  datatype Pool<R> = Pool(next: nat, results: seq<Option<R>>, workers: seq<Worker>, settled: set<nat>)

  /** Every worker runs up to its first await before anything else happens. */
  function Launch<R>(n: nat, limit: nat): Pool<R> {
    var width := Min(limit, n);
    Pool(width, seq(n, _ => None), seq(width, i requires 0 <= i < width => Awaiting(i)), {})
  }

  predicate Enabled<R>(p: Pool<R>, w: nat) {
    w < |p.workers| && p.workers[w].Awaiting?
  }

  /** `const i = next++; if (i >= items.length) return;` and the call that follows. */
  function Claim(next: nat, n: nat): Worker {
    if next >= n then Returned else Awaiting(next)
  }

  /** One worker wakes from its await: `Some` is what the call resolved to, `None` a rejection. */
  function Wake<R>(p: Pool<R>, w: nat, outcome: Option<R>): Pool<R>
    requires Enabled(p, w) && p.workers[w].index < |p.results|
  {
    var i := p.workers[w].index;
    if outcome.Some? then
      Pool(p.next + 1, p.results[i := outcome], p.workers[w := Claim(p.next, |p.results|)], p.settled + {i})
    else
      p.(workers := p.workers[w := Rejected(i)], settled := p.settled + {i})
  }

  /** Where each index stands: stored, being awaited, rejected, or not yet claimed. */
  ghost predicate Sound<T, R>(p: Pool<R>, items: seq<T>, fn: T -> R) {
    && |p.results| == |items|
    && (forall w :: 0 <= w < |p.workers| && !p.workers[w].Returned? ==>
          var i := p.workers[w].index;
          && i < |items| && i < p.next && p.results[i].None?
          && (i in p.settled <==> p.workers[w].Rejected?))
    && (forall w, v :: 0 <= w < v < |p.workers| && !p.workers[w].Returned? && !p.workers[v].Returned? ==>
          p.workers[w].index != p.workers[v].index)
    && (forall i :: 0 <= i < |items| && p.results[i].Some? ==>
          i < p.next && i in p.settled && p.results[i].value == fn(items[i]))
    && (forall i :: 0 <= i < |items| && i < p.next ==> p.results[i].Some? || Held(p, i))
    && (forall i :: i in p.settled ==> i < |items| && i < p.next)
    && (forall w :: 0 <= w < |p.workers| && p.workers[w].Returned? ==> p.next >= |items|)
  }

  /** Some worker is at index `i`. */
  ghost predicate Held<R>(p: Pool<R>, i: nat) {
    exists w :: 0 <= w < |p.workers| && HeldBy(p, w, i)
  }

  ghost predicate HeldBy<R>(p: Pool<R>, w: nat, i: nat) {
    w < |p.workers| && !p.workers[w].Returned? && p.workers[w].index == i
  }

  lemma LaunchIsSound<T, R>(items: seq<T>, limit: nat, fn: T -> R)
    ensures Sound(Launch<R>(|items|, limit), items, fn)
    ensures |Launch<R>(|items|, limit).workers| == Min(limit, |items|)
    ensures Launch<R>(|items|, limit).settled == {}
  {
    var p := Launch<R>(|items|, limit);
    forall i | 0 <= i < p.next ensures Held(p, i) {
      assert HeldBy(p, i, i);
    }
  }

  /** Whichever worker wakes next, and however its call ended. */
  lemma WakeIsSound<T, R>(p: Pool<R>, items: seq<T>, fn: T -> R, w: nat, ok: bool)
    requires Sound(p, items, fn) && Enabled(p, w)
    ensures p.workers[w].index < |items| && p.workers[w].index !in p.settled
    ensures var q := Wake(p, w, if ok then Some(fn(items[p.workers[w].index])) else None);
            && Sound(q, items, fn)
            && |q.settled| == |p.settled| + 1
            && |q.workers| == |p.workers|
  {
    var q := Wake(p, w, if ok then Some(fn(items[p.workers[w].index])) else None);
    forall i | 0 <= i < |items| && i < q.next ensures q.results[i].Some? || Held(q, i) {
      if i < p.next && p.results[i].None? {
        WakeHolds(p, q, w, i);
        assert !ok && i == p.workers[w].index ==> HeldBy(q, w, i);
      } else if i == p.next && ok {
        assert HeldBy(q, w, i);
      }
    }
    hide Held;
  }

  /** An index held before a wake is held after it, unless it is the one that completed. */
  lemma WakeHolds<R>(p: Pool<R>, q: Pool<R>, w: nat, i: nat)
    requires Enabled(p, w) && Held(p, i) && |q.workers| == |p.workers|
    requires forall v :: 0 <= v < |p.workers| && v != w ==> q.workers[v] == p.workers[v]
    ensures Held(q, i) || p.workers[w].index == i
  {
    var v :| 0 <= v < |p.workers| && HeldBy(p, v, i);
    assert v != w ==> HeldBy(q, v, i);
  }

  /** A schedule: which worker wakes at each step, and whether its call succeeded. */
  datatype Turn = Turn(worker: nat, ok: bool)

  ghost predicate Runs<T, R>(p: Pool<R>, items: seq<T>, fn: T -> R, turns: seq<Turn>, q: Pool<R>)
    decreases |turns|
  {
    if turns == [] then q == p
    else
      && Enabled(p, turns[0].worker)
      && p.workers[turns[0].worker].index < |p.results| == |items|
      && Runs(Wake(p, turns[0].worker,
                   if turns[0].ok then Some(fn(items[p.workers[turns[0].worker].index])) else None),
              items, fn, turns[1..], q)
  }

  lemma {:induction false} RunIsSound<T, R>(p: Pool<R>, items: seq<T>, fn: T -> R, turns: seq<Turn>, q: Pool<R>)
    requires Sound(p, items, fn) && Runs(p, items, fn, turns, q)
    ensures Sound(q, items, fn)
    ensures |q.settled| == |p.settled| + |turns| && |q.workers| == |p.workers|
    decreases |turns|
  {
    if turns != [] {
      var t := turns[0];
      WakeIsSound(p, items, fn, t.worker, t.ok);
      RunIsSound(Wake(p, t.worker, if t.ok then Some(fn(items[p.workers[t.worker].index])) else None),
                 items, fn, turns[1..], q);
    }
  }

  lemma {:induction false} BoundedSet(s: set<nat>, n: nat)
    requires forall i :: i in s ==> i < n
    ensures |s| <= n
  {
    if n > 0 {
      BoundedSet(s - {n - 1}, n - 1);
      assert s <= (s - {n - 1}) + {n - 1};
      if n - 1 in s {
        assert |s - {n - 1}| == |s| - 1;
      } else {
        assert s - {n - 1} == s;
      }
    }
  }

  lemma SoundBounds<T, R>(p: Pool<R>, items: seq<T>, fn: T -> R)
    requires Sound(p, items, fn)
    ensures |p.settled| <= |items| == |p.results|
    ensures AwaitDistinct(p)
  {
    BoundedSet(p.settled, |items|);
  }

  /** No two calls in flight are for the same item. */
  ghost predicate AwaitDistinct<R>(p: Pool<R>) {
    forall w, v :: 0 <= w < v < |p.workers| && p.workers[w].Awaiting? && p.workers[v].Awaiting? ==>
      p.workers[w].index != p.workers[v].index
  }

  /**
   * Under every interleaving: no more calls in flight than the limit, never more turns than
   * items (so every schedule ends), and each item's call is made and settled at most once.
   */
  lemma {:induction false} EveryScheduleIsBounded<T, R>(items: seq<T>, limit: nat, fn: T -> R, turns: seq<Turn>, q: Pool<R>)
    requires Runs(Launch<R>(|items|, limit), items, fn, turns, q)
    ensures |q.workers| <= limit
    ensures |turns| == |q.settled| <= |items|
    ensures AwaitDistinct(q)
  {
    hide Runs, Sound, AwaitDistinct, Launch;
    var p := Launch<R>(|items|, limit);
    LaunchIsSound(items, limit, fn);
    RunIsSound(p, items, fn, turns, q);
    SoundBounds(q, items, fn);
  }

  lemma {:induction false} FullSet(s: set<nat>, n: nat)
    requires forall i :: 0 <= i < n ==> i in s
    ensures |s| >= n
  {
    if n > 0 {
      FullSet(s - {n - 1}, n - 1);
      assert |s - {n - 1}| == |s| - 1;
    }
  }

  /** With every worker returned, every index has its result. */
  lemma AllReturned<T, R>(p: Pool<R>, items: seq<T>, fn: T -> R)
    requires Sound(p, items, fn) && (items != [] ==> p.workers != [])
    requires forall w :: 0 <= w < |p.workers| ==> p.workers[w].Returned?
    ensures forall i :: 0 <= i < |items| ==> p.results[i] == Some(fn(items[i])) && i in p.settled
  {
    if items != [] {
      assert p.workers[0].Returned?;
      assert p.next >= |items|;
    }
    assert forall i :: 0 <= i < |items| ==> !Held(p, i);
  }

  /** When nothing is awaited and nothing was rejected, the results are the map itself. */
  lemma {:induction false} CompletedIsMap<T, R>(items: seq<T>, limit: nat, fn: T -> R, turns: seq<Turn>, q: Pool<R>)
    requires limit >= 1
    requires Runs(Launch<R>(|items|, limit), items, fn, turns, q)
    requires forall w :: 0 <= w < |q.workers| ==> q.workers[w].Returned?
    ensures |turns| == |items| == |q.results|
    ensures forall i :: 0 <= i < |items| ==> q.results[i] == Some(fn(items[i]))
  {
    hide Runs, Sound, AwaitDistinct, Launch;
    LaunchIsSound(items, limit, fn);
    RunIsSound(Launch<R>(|items|, limit), items, fn, turns, q);
    SoundBounds(q, items, fn);
    AllReturned(q, items, fn);
    FullSet(q.settled, |items|);
  }

  /** The program itself: the scheduler is an arbitrary choice among the workers awaiting. */
  method MapWithConcurrency<T, R>(items: seq<T>, limit: nat, fn: T -> R) returns (mapped: seq<R>)
    requires limit >= 1
    ensures |mapped| == |items|
    ensures forall i :: 0 <= i < |items| ==> mapped[i] == fn(items[i])
  {
    var n := |items|;
    var results := new Option<R>[n](_ => None);
    var next := Min(limit, n);
    var workers := seq(next, i requires 0 <= i < next => Awaiting(i));
    ghost var p := Launch<R>(n, limit);
    ghost var turns := 0;
    LaunchIsSound(items, limit, fn);
    assert p.next == next && p.workers == workers && p.results == results[..];
    hide Sound, Launch, Held;
    while exists w :: 0 <= w < |workers| && workers[w].Awaiting?
      invariant p.next == next && p.workers == workers && p.results == results[..]
      invariant Sound(p, items, fn) && |workers| == Min(limit, n)
      invariant |p.settled| == turns
      invariant forall w :: 0 <= w < |workers| ==> !workers[w].Rejected?
      decreases n - turns
    {
      var w :| 0 <= w < |workers| && workers[w].Awaiting?;
      var i := workers[w].index;
      WakeIsSound(p, items, fn, w, true);
      p := Wake(p, w, Some(fn(items[i])));
      SoundBounds(p, items, fn);
      turns := turns + 1;
      results[i] := Some(fn(items[i]));
      workers := workers[w := Claim(next, n)];
      next := next + 1;
    }
    AllReturned(p, items, fn);
    mapped := seq(n, i requires 0 <= i < n && results[i].Some? reads results => results[i].value);
  }
}
