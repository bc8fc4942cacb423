/** Vocabulary shared by every component: optional values and integer helpers. */
module Prelude {
  datatype Option<+T> = None | Some(value: T) {
    function GetOr(default: T): T {
      if Some? then value else default
    }
  }

  function Min(a: int, b: int): int {
    if a <= b then a else b
  }

  function Max(a: int, b: int): int {
    if a >= b then a else b
  }

  /** `Math.ceil(a / b)` for a non-negative numerator. */
  function CeilDiv(a: nat, b: nat): nat
    requires b > 0
  {
    (a + b - 1) / b
  }

  /** `Distinct` lists every element once. */
  predicate Distinct<T(==)>(s: seq<T>) {
    forall i, j :: 0 <= i < j < |s| ==> s[i] != s[j]
  }

  /** The last `n` elements, or all of them: JavaScript's `slice(-n)` for n >= 1. */
  function LastN<T>(s: seq<T>, n: nat): seq<T> {
    if |s| <= n then s else s[|s| - n..]
  }

  /** Elements that satisfy `keep`, in their original order (`Array.prototype.filter`). */
  function Filter<T(!new)>(s: seq<T>, keep: T -> bool): (r: seq<T>)
    ensures |r| <= |s|
    ensures forall x :: x in r <==> x in s && keep(x)
  {
    if s == [] then []
    else (if keep(s[0]) then [s[0]] else []) + Filter(s[1..], keep)
  }

  /** How many elements satisfy `p`. */
  function Count<T>(s: seq<T>, p: T -> bool): nat {
    if s == [] then 0 else (if p(s[0]) then 1 else 0) + Count(s[1..], p)
  }

  /** The places whose elements satisfy `p`. */
  ghost function Where<T(!new)>(s: seq<T>, p: T -> bool): set<nat> {
    set i: nat | i < |s| && p(s[i])
  }

  /** Counting is the number of places. */
  lemma {:induction false} CountIsWhere<T(!new)>(s: seq<T>, p: T -> bool)
    ensures Count(s, p) == |Where(s, p)|
  {
    if s == [] {
      assert Where(s, p) == {};
    } else {
      var tail := Where(s[1..], p);
      CountIsWhere(s[1..], p);
      ShiftedSize(tail);
      assert Where(s, p) == (if p(s[0]) then {0} else {}) + Shifted(tail) by {
        forall i | i in Where(s, p) ensures i == 0 || i in Shifted(tail) {
          assert i > 0 ==> i - 1 in tail;
        }
      }
    }
  }

  function Shifted(places: set<nat>): set<nat> {
    set i | i in places :: i + 1
  }

  lemma {:induction false} ShiftedSize(places: set<nat>)
    ensures |Shifted(places)| == |places| && 0 !in Shifted(places)
    decreases |places|
  {
    if places != {} {
      var i :| i in places;
      ShiftedSize(places - {i});
      assert places == (places - {i}) + {i};
      assert Shifted(places) == Shifted(places - {i}) + {i + 1};
    }
  }

  lemma AppendNothing<T>(s: seq<T>)
    ensures s + [] == s && [] + s == s
  {
  }

  /** Moving the head of what is left onto what is done. */
  lemma MoveHead<T>(done: seq<T>, left: seq<T>)
    requires left != []
    ensures (done + [left[0]]) + left[1..] == done + left
  {
  }

  function Power2(n: nat): (p: nat)
    ensures p >= 1
  {
    if n == 0 then 1 else 2 * Power2(n - 1)
  }

  function Elements<T(==)>(s: seq<T>): set<T> {
    set k | 0 <= k < |s| :: s[k]
  }

  /** A list without repetition is as long as the set of its elements. */
  lemma {:induction false} DistinctSize<T>(s: seq<T>)
    requires Distinct(s)
    ensures |Elements(s)| == |s|
  {
    if s != [] {
      var front := s[..|s| - 1];
      DistinctSize(front);
      assert forall k :: 0 <= k < |front| ==> front[k] == s[k];
      assert Elements(s) == Elements(front) + {s[|s| - 1]} by {
        forall x | x in Elements(s) ensures x in Elements(front) + {s[|s| - 1]} {
          var k :| 0 <= k < |s| && s[k] == x;
          assert k < |front| ==> front[k] in Elements(front);
        }
      }
    }
  }

  lemma SubsetSize<T>(a: set<T>, b: set<T>)
    requires a <= b
    ensures |a| <= |b|
    ensures |a| == |b| ==> a == b
  {
    assert |b - a| == |b| - |a|;
  }
}
