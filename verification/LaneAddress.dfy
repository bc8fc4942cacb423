/** Which resolved address each pooled connection dials: a coprime stride over the address list. */
module LaneAddress {
  import opened Prelude

  function Gcd(a: nat, b: nat): nat
    decreases b
  {
    if b == 0 then a else Gcd(b, a % b)
  }

  /** The first stride from `stride` up that is coprime with `n`, or 1. */
  function FirstCoprime(stride: nat, n: nat): nat
    decreases n - stride
  {
    if stride >= n then 1
    else if Gcd(stride, n) == 1 then stride
    else FirstCoprime(stride + 1, n)
  }

  function Stride(n: nat): nat {
    if n <= 2 then 1 else FirstCoprime(2, n)
  }

  method LaneAddressStride(n: nat) returns (r: nat)
    ensures r == Stride(n)
  {
    if n <= 2 {
      return 1;
    }
    for stride := 2 to n
      invariant FirstCoprime(stride, n) == Stride(n)
    {
      if Gcd(stride, n) == 1 {
        return stride;
      }
    }
    return 1;
  }

  /** JavaScript's `%`, whose result takes the sign of the dividend. */
  function JsRem(a: int, n: nat): int
    requires n > 0
  {
    if a >= 0 then a % n else -((-a) % n)
  }

  /** `((laneId * stride + rotation) % n + n) % n`. */
  function Index(n: nat, laneId: int, rotation: int): int
    requires n > 0
  {
    JsRem(JsRem(laneId * Stride(n) + rotation, n) + n, n)
  }

  // ----- arithmetic -----

  lemma MultipleAtLeast(n: int, q: int)
    requires n > 0 && q >= 1
    ensures n * q >= n
  {
  }

  lemma SmallMultiple(d: int, n: int, q: int)
    requires n > 0 && d == n * q && -n < d < n
    ensures d == 0 && q == 0
  {
    if q >= 1 {
      MultipleAtLeast(n, q);
    } else if q <= -1 {
      MultipleAtLeast(n, -q);
    }
  }

  lemma Regroup(a: int, b: int, c: int)
    ensures (a * b) * c == a * (b * c) == b * (a * c)
  {
  }

  lemma Distribute(a: int, b: int, c: int)
    ensures a * (b + c) == a * b + a * c && a * (b - c) == a * b - a * c
    ensures (b + c) * a == b * a + c * a && (b - c) * a == b * a - c * a
  {
  }

  lemma ModuloIs(a: int, b: int, q: int, n: nat)
    requires n > 0 && 0 <= b < n && a == b + n * q
    ensures a % n == b
  {
    var d, m := a / n, a % n;
    assert a == n * d + m;
    Distribute(n, d, q);
    assert b - m == n * (d - q);
    SmallMultiple(b - m, n, d - q);
  }

  lemma QuotientOf(a: int, n: nat) returns (q: int)
    requires n > 0
    ensures a == a % n + n * q
  {
    q := a / n;
  }

  /** The double remainder is the mathematical one, for operands of either sign. */
  lemma NormalizedIsModulo(a: int, n: nat)
    requires n > 0
    ensures JsRem(JsRem(a, n) + n, n) == a % n
  {
    if a >= 0 {
      ModuloIs(a % n + n, a % n, 1, n);
    } else {
      var m := (-a) % n;
      var q := QuotientOf(-a, n);
      if m == 0 {
        ModuloIs(n, 0, 1, n);
        assert a == 0 + n * -q;
        ModuloIs(a, 0, -q, n);
      } else {
        ModuloIs(n - m, n - m, 0, n);
        assert a == (n - m) + n * (-q - 1);
        ModuloIs(a, n - m, -q - 1, n);
      }
    }
  }

  lemma Bezout(a: nat, b: nat) returns (x: int, y: int)
    ensures a * x + b * y == Gcd(a, b)
    decreases b
  {
    if b == 0 {
      x, y := 1, 0;
    } else {
      var x', y' := Bezout(b, a % b);
      var q := a / b;
      assert a == b * q + a % b;
      x, y := y', x' - q * y';
      assert (a % b) * y' == (a - b * q) * y' == a * y' - b * q * y';
      assert b * (x' - q * y') == b * x' - b * q * y';
    }
  }

  lemma {:induction false} GcdOne(n: nat)
    requires n > 0
    ensures Gcd(1, n) == 1
  {
    if n > 1 {
      ModuloIs(1, 1, 0, n);
      assert Gcd(1, n) == Gcd(n, 1) == Gcd(1, n % 1) == Gcd(1, 0);
    }
  }

  lemma {:induction false} FirstCoprimeIsCoprime(stride: nat, n: nat)
    requires n > 0
    ensures Gcd(FirstCoprime(stride, n), n) == 1
    ensures stride < n && (exists k :: stride <= k < n && Gcd(k, n) == 1) ==>
              && stride <= FirstCoprime(stride, n) < n
              && forall k :: stride <= k < FirstCoprime(stride, n) ==> Gcd(k, n) != 1
    decreases n - stride
  {
    GcdOne(n);
    if stride < n && Gcd(stride, n) != 1 {
      FirstCoprimeIsCoprime(stride + 1, n);
    }
  }

  lemma {:induction false} StrideIsCoprime(n: nat)
    requires n > 0
    ensures Gcd(Stride(n), n) == 1
  {
    GcdOne(n);
    FirstCoprimeIsCoprime(2, n);
  }

  /** The documented choice: beyond two addresses, the smallest coprime above 1, which always exists. */
  lemma {:induction false} StrideIsSmallest(n: nat)
    requires n >= 3
    ensures 1 < Stride(n) < n && Gcd(Stride(n), n) == 1
    ensures forall k :: 1 < k < Stride(n) ==> Gcd(k, n) != 1
  {
    ModuloIs(n - 1, n - 1, 0, n);
    ModuloIs(n, 1, 1, n - 1);
    assert Gcd(n - 1, n) == Gcd(n, n - 1) == Gcd(n - 1, 1) == Gcd(1, (n - 1) % 1) == Gcd(1, 0) == 1;
    FirstCoprimeIsCoprime(2, n);
  }

  // ----- spread over the addresses -----

  /** Undoing the stride: with `x` its inverse, lane `(a - rotation) * x` reaches `a`. */
  lemma StrideInverse(s: int, x: int, n: int, y: int, a: int, rotation: int, q: int)
    requires s * x + n * y == 1
    ensures ((a - rotation) * x - n * q) * s + rotation == a + n * (-((a - rotation) * y) - q * s)
  {
    var u := a - rotation;
    Distribute(s, u * x, n * q);
    Regroup(u, x, s);
    Regroup(n, q, s);
    assert u * (x * s) == u * (1 - n * y);
    Distribute(u, 1, n * y);
    Regroup(u, n, y);
    Distribute(n, -(u * y), q * s);
    assert u * (n * y) == n * (u * y);
    assert n * -(u * y) == -(n * (u * y));
  }

  /** Which lane of a run of `n` consecutive ids lands on address `a`. */
  lemma LaneOn(n: nat, rotation: int, lo: int, a: nat) returns (i: int)
    requires a < n
    ensures lo <= i < lo + n && Index(n, i, rotation) == a
  {
    StrideIsCoprime(n);
    var s := Stride(n);
    var x, y := Bezout(s, n);
    var want := (a - rotation) * x;
    var q := QuotientOf(want - lo, n);
    i := want - n * q;
    assert i == lo + (want - lo) % n;
    StrideInverse(s, x, n, y, a, rotation, q);
    ModuloIs(i * s + rotation, a, -((a - rotation) * y) - q * s, n);
    NormalizedIsModulo(i * s + rotation, n);
  }

  /** A multiple of a coprime stride divisible by `n` comes from a multiple of `n`. */
  lemma CancelStride(s: int, x: int, n: int, y: int, d: int, k: int)
    requires s * x + n * y == 1 && d * s == n * k
    ensures d == n * (k * x + d * y)
  {
    Distribute(d, s * x, n * y);
    Regroup(d, s, x);
    Regroup(n, k, x);
    Regroup(d, n, y);
    Distribute(n, k * x, d * y);
  }

  /** Lanes less than `n` apart never share an address. */
  lemma LanesDistinct(n: nat, rotation: int, i: int, j: int)
    requires n > 0 && i - n < j < i + n && Index(n, i, rotation) == Index(n, j, rotation)
    ensures i == j
  {
    StrideIsCoprime(n);
    var s := Stride(n);
    NormalizedIsModulo(i * s + rotation, n);
    NormalizedIsModulo(j * s + rotation, n);
    var qi := QuotientOf(i * s + rotation, n);
    var qj := QuotientOf(j * s + rotation, n);
    var d, k := i - j, qi - qj;
    Distribute(s, i, j);
    Distribute(n, qi, qj);
    var x, y := Bezout(s, n);
    CancelStride(s, x, n, y, d, k);
    SmallMultiple(d, n, k * x + d * y);
  }

  /** Some lane in `[lo, hi)` dials address `a` under this rotation. */
  ghost predicate Dialled(n: nat, rotation: int, lo: int, hi: int, a: int)
    requires n > 0
  {
    exists i :: lo <= i < hi && Index(n, i, rotation) == a
  }

  /**
   * Any `n` consecutive lanes under one rotation dial all `n` addresses, each exactly once.
   */
  lemma ConsecutiveLanesCoverAll(n: nat, rotation: int, lo: int, hi: int)
    requires n > 0 && hi == lo + n
    ensures forall a :: 0 <= a < n ==> Dialled(n, rotation, lo, hi, a)
    ensures forall i, j :: lo <= i < hi && lo <= j < hi && Index(n, i, rotation) == Index(n, j, rotation) ==> i == j
    ensures forall i :: lo <= i < hi ==> 0 <= Index(n, i, rotation) < n
  {
    forall a | 0 <= a < n ensures Dialled(n, rotation, lo, hi, a) {
      var i := LaneOn(n, rotation, lo, a);
    }
    forall i, j | lo <= i < hi && lo <= j < hi && Index(n, i, rotation) == Index(n, j, rotation)
      ensures i == j
    {
      LanesDistinct(n, rotation, i, j);
    }
    forall i | lo <= i < hi ensures 0 <= Index(n, i, rotation) < n {
      NormalizedIsModulo(i * Stride(n) + rotation, n);
    }
  }

  // ----- first connect: the per-block phase offset -----

  /** The address of a lane's first connect: rotation 0 plus `floor(id / n)`. */
  function FirstAddress(n: nat, laneId: nat): int
    requires n > 0
  {
    Index(n, laneId, laneId / n)
  }

  /** How many of the first `lanes` lanes start on address `a`. */
  function Load(n: nat, lanes: nat, a: nat): nat
    requires n > 0
  {
    if lanes == 0 then 0 else Load(n, lanes - 1, a) + if FirstAddress(n, lanes - 1) == a then 1 else 0
  }

  lemma {:induction false} LoadByBlocks(n: nat, k: nat, m: nat, lanes: nat, a: nat)
    requires a < n && m < n && lanes == n * k + m
    ensures Load(n, lanes, a) == k + if Dialled(n, k, n * k, lanes, a) then 1 else 0
    decreases lanes
  {
    if lanes == 0 {
      if k > 0 { MultipleAtLeast(n, k); }
    } else if m > 0 {
      LoadByBlocks(n, k, m - 1, lanes - 1, a);
      LoadStep(n, k, m - 1, lanes - 1, a);
    } else {
      Distribute(n, k - 1, 1);
      LoadByBlocks(n, k - 1, n - 1, lanes - 1, a);
      LoadStep(n, k - 1, n - 1, lanes - 1, a);
      var i := LaneOn(n, k - 1, n * (k - 1), a);
      assert Dialled(n, k - 1, n * (k - 1), lanes, a);
    }
  }

  /** One more lane in block `k`: it hits `a` only if no earlier lane of the block did. */
  lemma LoadStep(n: nat, k: nat, m: nat, lane: nat, a: nat)
    requires a < n && m < n && lane == n * k + m
    ensures FirstAddress(n, lane) == Index(n, lane, k)
    ensures Dialled(n, k, n * k, lane + 1, a)
       <==> (Dialled(n, k, n * k, lane, a) || Index(n, lane, k) == a)
    ensures !(Dialled(n, k, n * k, lane, a) && Index(n, lane, k) == a)
  {
    var d := lane / n;
    Distribute(n, k, d);
    SmallMultiple(lane % n - m, n, k - d);
    if Dialled(n, k, n * k, lane, a) && Index(n, lane, k) == a {
      var i :| n * k <= i < lane && Index(n, i, k) == a;
      LanesDistinct(n, k, i, lane);
    }
  }

  /** On first connect any two addresses carry the same number of lanes, give or take one. */
  lemma {:induction false} FirstConnectIsBalanced(n: nat, lanes: nat, a: nat, b: nat)
    requires a < n && b < n
    ensures lanes / n <= Load(n, lanes, a) <= lanes / n + 1
    ensures -1 <= Load(n, lanes, a) - Load(n, lanes, b) <= 1
  {
    var k, m := lanes / n, lanes % n;
    assert lanes == n * k + m;
    LoadByBlocks(n, k, m, lanes, a);
    LoadByBlocks(n, k, m, lanes, b);
  }

  // ----- reconnects -----

  /** The part of a lane that decides where its next connection goes. */
  class LaneRoute {
    const id: nat
    var addressRotation: nat

    constructor (id: nat)
      ensures this.id == id && addressRotation == 0
    {
      this.id, addressRotation := id, 0;
    }

    /** One pass through `openLane`: pick the address, then step the rotation. */
    method Connect(n: nat) returns (index: int)
      requires n > 0
      modifies this`addressRotation
      ensures index == ConnectIndex(n, id, old(addressRotation))
      ensures addressRotation == (old(addressRotation) + 1) % n
    {
      var rotationSeed := id / n;
      index := Index(n, id, addressRotation + rotationSeed);
      addressRotation := (addressRotation + 1) % n;
    }
  }

  function ConnectIndex(n: nat, laneId: nat, rotation: nat): int
    requires n > 0
  {
    Index(n, laneId, rotation + laneId / n)
  }

  /** The rotation a lane holds after `connects` further connects. */
  function RotationAfter(n: nat, rotation: nat, connects: nat): nat
    requires n > 0
  {
    if connects == 0 then rotation else (RotationAfter(n, rotation, connects - 1) + 1) % n
  }

  lemma {:induction false} RotationAfterIs(n: nat, rotation: nat, connects: nat) returns (q: int)
    requires n > 0
    ensures RotationAfter(n, rotation, connects) == rotation + connects + n * q
  {
    if connects == 0 {
      q := 0;
    } else {
      var q' := RotationAfterIs(n, rotation, connects - 1);
      var r := QuotientOf(RotationAfter(n, rotation, connects - 1) + 1, n);
      q := q' - r;
      Distribute(n, q', r);
    }
  }

  /** `n` successive connects of one lane visit all `n` addresses, whatever rotation it starts from. */
  lemma ReconnectsVisitEveryAddress(n: nat, laneId: nat, rotation: nat, a: nat) returns (c: nat)
    requires a < n
    ensures c < n && ConnectIndex(n, laneId, RotationAfter(n, rotation, c)) == a
  {
    var base := laneId * Stride(n) + laneId / n + rotation;
    c := (a - base) % n;
    var p := QuotientOf(a - base, n);
    var q := RotationAfterIs(n, rotation, c);
    var dialled := laneId * Stride(n) + (RotationAfter(n, rotation, c) + laneId / n);
    Distribute(n, q, p);
    ModuloIs(dialled, a, q - p, n);
    NormalizedIsModulo(dialled, n);
  }
}
