/** Rounding up to powers of two by bit smearing (lib/math.c). */
module Pow2Math {
  import opened Bits

  /** Bitwise or. */
  function Or(a: nat, b: nat): nat
  {
    if a == 0 && b == 0 then 0 else 2 * Or(a / 2, b / 2) + (if a % 2 + b % 2 > 0 then 1 else 0)
  }

  /** x >> w */
  function Shr(x: nat, w: nat): nat
  {
    if w == 0 then x else Shr(x / 2, w - 1)
  }

  /** The least k with n <= 2^k. */
  function CeilLog(n: nat): (k: nat)
    ensures n <= Pow2(k) && (k > 0 ==> Pow2(k - 1) < n)
    decreases n
  {
    if n <= 1 then 0 else 1 + CeilLog((n + 1) / 2)
  }

  lemma {:induction false} Pow2Mono(a: nat, b: nat)
    requires a <= b
    ensures Pow2(a) <= Pow2(b)
    decreases b
  {
    if a < b { Pow2Mono(a, b - 1); }
  }

  lemma {:induction false} Pow2Sum(a: nat, b: nat)
    ensures Pow2(a + b) == Pow2(a) * Pow2(b)
  {
    if a > 0 { Pow2Sum(a - 1, b); }
  }

  /** Nothing below k is enough: the result is the least such power. */
  lemma {:induction false} CeilLogLeast(n: nat, j: nat)
    ensures n <= Pow2(j) <==> CeilLog(n) <= j
  {
    if CeilLog(n) <= j { Pow2Mono(CeilLog(n), j); } else { Pow2Mono(j, CeilLog(n) - 1); }
  }

  /** Or leaves the high part alone and at least keeps either low part. */
  lemma {:induction false} OrLow(h: nat, q: nat, r: nat, z: nat)
    requires r < Pow2(q) && z < Pow2(q)
    ensures h * Pow2(q) + r <= Or(h * Pow2(q) + r, z)
    ensures h * Pow2(q) + z <= Or(h * Pow2(q) + r, z) < h * Pow2(q) + Pow2(q)
    decreases q
  {
    if q == 0 {
      OrZero(h);
    } else {
      var x := h * Pow2(q) + r;
      assert x == 2 * (h * Pow2(q - 1)) + r;
      OrLow(h, q - 1, r / 2, z / 2);
      assert x / 2 == h * Pow2(q - 1) + r / 2 && x % 2 == r % 2;
    }
  }

  lemma {:induction false} OrZero(x: nat)
    ensures Or(x, 0) == x
  {
    if x > 0 { OrZero(x / 2); }
  }

  /** The top w of q bits are ones (all of them if w exceeds q). */
  ghost predicate TopOnes(x: nat, q: nat, w: nat)
  {
    x < Pow2(q) && Pow2(q) <= x + Pow2(if w < q then q - w else 0)
  }

  lemma {:induction false} Minus(a: nat, b: nat, m: nat)
    requires b <= a
    ensures (a - b) * m == a * m - b * m
  {
  }

  lemma {:induction false} Twice(a: nat, m: nat)
    ensures a * (2 * m) == 2 * (a * m)
  {
  }

  /** Shifting right divides by a power of two. */
  lemma {:induction false} ShrBetween(x: nat, w: nat, a: nat, b: nat)
    requires a * Pow2(w) <= x < b * Pow2(w)
    ensures a <= Shr(x, w) < b
  {
    if w > 0 {
      Twice(a, Pow2(w - 1));
      Twice(b, Pow2(w - 1));
      ShrBetween(x / 2, w - 1, a, b);
    }
  }

  /** One line of the smearing doubles the run of ones. */
  lemma {:induction false} Smear(x: nat, q: nat, w: nat)
    requires TopOnes(x, q, w) && 0 < w
    ensures TopOnes(Or(x, Shr(x, w)), q, 2 * w)
  {
    if w >= q {
      Pow2Mono(q, w);
      ShrBetween(x, w, 0, 1);
      OrZero(x);
    } else {
      var e, z := q - w, Shr(x, w);
      Pow2Sum(w, e);
      var h := Pow2(w) - 1;
      var r := x - h * Pow2(e);
      Minus(Pow2(w), 1, Pow2(e));
      SmearShift(x, q, w);
      OrLow(h, e, r, z);
      assert x == h * Pow2(e) + r;
    }
  }

  /** The shifted run of ones is as long as the original, one run further down. */
  lemma {:induction false} SmearShift(x: nat, q: nat, w: nat)
    requires TopOnes(x, q, w) && 0 < w < q
    ensures Shr(x, w) < Pow2(q - w) <= Shr(x, w) + Pow2(if 2 * w < q then q - 2 * w else 0)
  {
    var e, s := q - w, if 2 * w < q then q - 2 * w else 0;
    var a, m := Pow2(e), Pow2(w);
    Pow2Sum(e, w);
    Pow2Sum(s, w);
    Pow2Mono(s, e);
    Pow2Mono(e, s + w);
    Minus(a, Pow2(s), m);
    ShrBetween(x, w, a - Pow2(s), a);
  }

  /** Rounding n-1 < 2^q up: all ones, plus one. */
  lemma {:induction false} SmearDone(x: nat, q: nat, w: nat)
    requires TopOnes(x, q, w) && q <= w
    ensures x + 1 == Pow2(q)
  {
  }

  /** What smearing starts from: n-1 has exactly CeilLog(n) bits. */
  lemma {:induction false} SmearStart(n: nat)
    requires 0 < n
    ensures TopOnes(n - 1, CeilLog(n), 1)
  {
    var k := CeilLog(n);
    if k > 1 { assert Pow2(k) == 2 * Pow2(k - 1); }
  }

  const TWO31: nat := 0x8000_0000
  const TWO32: nat := 0x1_0000_0000
  const TWO63: nat := 0x8000_0000_0000_0000
  const TWO64: nat := 0x1_0000_0000_0000_0000

  lemma {:induction false} Widths()
    ensures Pow2(31) == TWO31 && Pow2(32) == TWO32 && Pow2(63) == TWO63 && Pow2(64) == TWO64
  {
    assert Pow2(2) == 4 && Pow2(3) == 8;
    Pow2Sum(2, 2);
    Pow2Sum(4, 3);
    Pow2Sum(4, 4);
    Pow2Sum(8, 7);
    Pow2Sum(8, 8);
    Pow2Sum(16, 15);
    Pow2Sum(16, 16);
    Pow2Sum(32, 31);
    Pow2Sum(32, 32);
  }

  /** n |= n >> w */
  method SmearBy(x: nat, w: nat, ghost q: nat) returns (n: nat)
    requires TopOnes(x, q, w) && 0 < w
    ensures TopOnes(n, q, 2 * w)
  {
    Smear(x, q, w);
    n := Or(x, Shr(x, w));
  }

  /** The smearing lines of math_order2, on size - 1. */
  method Smear32(num: nat) returns (n: nat)
    requires 0 < num && CeilLog(num) <= 32
    ensures n + 1 == Pow2(CeilLog(num))
  {
    ghost var q := CeilLog(num);
    SmearStart(num);
    n := num - 1;
    n := SmearBy(n, 1, q);
    n := SmearBy(n, 2, q);
    n := SmearBy(n, 4, q);
    n := SmearBy(n, 8, q);
    n := SmearBy(n, 16, q);
    SmearDone(n, q, 32);
  }

  /** The smearing lines of next_power_of_2, on n - 1. */
  method Smear64(num: nat) returns (n: nat)
    requires 0 < num && CeilLog(num) <= 64
    ensures n + 1 == Pow2(CeilLog(num))
  {
    ghost var q := CeilLog(num);
    SmearStart(num);
    n := num - 1;
    n := SmearBy(n, 1, q);
    n := SmearBy(n, 2, q);
    n := SmearBy(n, 4, q);
    n := SmearBy(n, 8, q);
    n := SmearBy(n, 16, q);
    n := SmearBy(n, 32, q);
    SmearDone(n, q, 64);
  }

  /** In words of b bits the rounded value fits exactly up to 2^(b-1); above, it wraps. */
  lemma {:induction false} Wraps(num: nat, b: nat)
    requires 0 < b && num <= Pow2(b)
    ensures CeilLog(num) <= b
    ensures if num <= Pow2(b - 1) then Pow2(CeilLog(num)) < Pow2(b) else CeilLog(num) == b
  {
    CeilLogLeast(num, b);
    CeilLogLeast(num, b - 1);
    if CeilLog(num) < b { Pow2Mono(CeilLog(num), b - 1); }
  }

  lemma {:induction false} Wraps32(num: nat)
    requires 0 < num < TWO32
    ensures CeilLog(num) <= 32
    ensures Pow2(CeilLog(num)) % TWO32 == if num <= TWO31 then Pow2(CeilLog(num)) else 0
  {
    Widths();
    Wraps(num, 32);
  }

  lemma {:induction false} Wraps64(num: nat)
    requires 0 < num < TWO64
    ensures CeilLog(num) <= 64
    ensures Pow2(CeilLog(num)) % TWO64 == if num <= TWO63 then Pow2(CeilLog(num)) else 0
  {
    Widths();
    Wraps(num, 64);
  }

  /** next_power_of_2: the least power of two at or above n, which wraps to 0 above 2^63. */
  method NextPowerOf2(num: nat) returns (r: nat)
    requires num < TWO64
    ensures r == if num <= TWO63 then Pow2(CeilLog(num)) else 0
  {
    if num == 0 {
      return 1;
    }
    Wraps64(num);
    var n := Smear64(num);
    r := (n + 1) % TWO64;
  }

  /** The order loop of math_order2. */
  method OrderOf(size: nat, ghost k: nat) returns (order: nat)
    requires size == Pow2(k)
    ensures order == k
  {
    var s := size;
    order := 0;
    while s > 1
      invariant order <= k && s == Pow2(k - order)
    {
      s := s / 2;
      order := order + 1;
    }
  }

  /** math_order2: the least order whose power covers `size`; above 2^31 the rounded
      size wraps to 0 and the order with it. */
  method MathOrder2(num: nat) returns (order: nat)
    requires num < TWO32
    ensures order == if num <= TWO31 then CeilLog(num) else 0
  {
    if num == 0 {
      return 0;
    }
    Wraps32(num);
    var n := Smear32(num);
    n := (n + 1) % TWO32;
    if n == 0 {
      return 0;
    }
    order := OrderOf(n, CeilLog(num));
  }
}
