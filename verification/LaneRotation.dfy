/** Round-robin over interchangeable lanes, and what sharing one cursor does to it. */
module LaneRotation {
  import opened Prelude
  import opened LaneAddress

  /** The lane taken by the `i`th pick when the shared cursor moves `stride` places between picks. */
  function Turn(k: nat, cursor: nat, stride: nat, i: int): (t: int)
    requires k > 0
    ensures 0 <= t < k
  {
    (cursor + stride * i) % k
  }

  lemma GcdDivides(a: nat, b: nat) returns (p: int, q: int)
    ensures a == Gcd(a, b) * p && b == Gcd(a, b) * q
    decreases b
  {
    if b == 0 {
      p, q := 1, 0;
    } else {
      var p', q' := GcdDivides(b, a % b);
      var g := Gcd(b, a % b);
      var d := a / b;
      assert a == b * d + a % b;
      Regroup(g, p', d);
      Distribute(g, p' * d, q');
      p, q := p' * d + q', p';
    }
  }

  /** With a coprime stride some pick among any `k` in a row takes lane `t`. */
  lemma TurnReaches(k: nat, cursor: nat, stride: nat, t: nat) returns (i: nat)
    requires t < k && Gcd(stride, k) == 1
    ensures i < k && Turn(k, cursor, stride, i) == t
  {
    var x, y := Bezout(stride, k);
    var want := (t - cursor) * x;
    var q := QuotientOf(want, k);
    i := want % k;
    StrideInverse(stride, x, k, y, t, cursor, q);
    assert i * stride == stride * i;
    ModuloIs(cursor + stride * i, t, -((t - cursor) * y) - q * stride, k);
  }

  /** With a common factor the picks never leave their residue class: the next lane is never taken. */
  lemma {:induction false} TurnMisses(k: nat, cursor: nat, stride: nat, i: int)
    requires k > 0 && Gcd(stride, k) > 1
    ensures Turn(k, cursor, stride, i) != (cursor + 1) % k
  {
    var g := Gcd(stride, k);
    var p, m := GcdDivides(stride, k);
    if Turn(k, cursor, stride, i) == (cursor + 1) % k {
      var qa := QuotientOf(cursor + stride * i, k);
      var qb := QuotientOf(cursor + 1, k);
      Distribute(k, qa, qb);
      Regroup(g, p, i);
      Regroup(g, m, qa - qb);
      Distribute(g, p * i, m * (qa - qb));
      var u := p * i - m * (qa - qb);
      assert g * u == 1;
      SmallMultiple(1, g, u);
    }
  }

  ghost predicate Taken(k: nat, cursor: nat, stride: nat, t: int)
    requires k > 0
  {
    exists i :: 0 <= i < k && Turn(k, cursor, stride, i) == t
  }

  /** No lane is left out of `k` picks in a row. */
  ghost predicate Fair(k: nat, cursor: nat, stride: nat)
    requires k > 0
  {
    forall t :: 0 <= t < k ==> Taken(k, cursor, stride, t)
  }

  /** `k` picks in a row reach all `k` lanes exactly when the cursor's step is coprime with `k`. */
  lemma {:induction false} FairExactlyWhenCoprime(k: nat, cursor: nat, stride: nat)
    requires k > 0
    ensures Fair(k, cursor, stride) <==> Gcd(stride, k) == 1
  {
    if Gcd(stride, k) == 1 {
      forall t | 0 <= t < k ensures Taken(k, cursor, stride, t) {
        var i := TurnReaches(k, cursor, stride, t);
      }
    } else {
      GcdPositive(stride, k);
      var t := (cursor + 1) % k;
      forall i | 0 <= i < k ensures Turn(k, cursor, stride, i) != t {
        TurnMisses(k, cursor, stride, i);
      }
      assert !Taken(k, cursor, stride, t);
    }
  }

  lemma {:induction false} GcdPositive(a: nat, b: nat)
    requires a > 0 || b > 0
    ensures Gcd(a, b) > 0
    decreases b
  {
    if b > 0 {
      GcdPositive(b, a % b);
    }
  }

  /** Two picks fewer than `k` apart never take the same lane. */
  lemma {:induction false} TurnsDiffer(k: nat, cursor: nat, stride: nat, i: int, j: int)
    requires k > 0 && Gcd(stride, k) == 1 && i - k < j < i + k
    requires Turn(k, cursor, stride, i) == Turn(k, cursor, stride, j)
    ensures i == j
  {
    var q := SameTurn(k, cursor, stride, i, j);
    var x, y := Bezout(stride, k);
    CancelStride(stride, x, k, y, i - j, q);
    SmallMultiple(i - j, k, q * x + (i - j) * y);
    hide Gcd, Turn;
  }

  lemma SameTurn(k: nat, cursor: nat, stride: nat, i: int, j: int) returns (q: int)
    requires k > 0 && Turn(k, cursor, stride, i) == Turn(k, cursor, stride, j)
    ensures (i - j) * stride == k * q
  {
    var qi := QuotientOf(cursor + stride * i, k);
    var qj := QuotientOf(cursor + stride * j, k);
    q := qi - qj;
    hide *;
    Distribute(stride, i, j);
    Distribute(k, qi, qj);
  }
}
