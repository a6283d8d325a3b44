// Powers of two, aligned power-of-two ranges of page numbers, and bitwise XOR
// on unbounded naturals. Everything recurses on halving, so that all proofs
// stay linear.
module Bits {

  function Pow2(l: nat): (r: nat)
    ensures r >= 1
  {
    if l == 0 then 1 else 2 * Pow2(l - 1)
  }

  /** Number of the aligned block of size 2^l that holds page `x`: `x >> l`. */
  function Idx(x: nat, l: nat): nat
  {
    if l == 0 then x else Idx(x / 2, l - 1)
  }

  /** First page of that block: `x & ~(2^l - 1)`. */
  function Head(x: nat, l: nat): nat
  {
    if l == 0 then x else 2 * Head(x / 2, l - 1)
  }

  ghost predicate Aligned(x: nat, l: nat)
  {
    l == 0 || (x % 2 == 0 && Aligned(x / 2, l - 1))
  }

  /** Bitwise exclusive or. */
  function Xor(a: nat, b: nat): nat
  {
    if a == 0 && b == 0 then 0 else 2 * Xor(a / 2, b / 2) + (a % 2 + b % 2) % 2
  }

  lemma {:induction false} IdxStep(x: nat, l: nat)
    ensures Idx(x, l + 1) == Idx(x, l) / 2
  {
    if l > 0 { IdxStep(x / 2, l - 1); }
  }

  /** Pages in one block share every larger block. */
  lemma {:induction false} IdxUp(x: nat, y: nat, l: nat, j: nat)
    requires l <= j && Idx(x, l) == Idx(y, l)
    ensures Idx(x, j) == Idx(y, j)
    decreases j
  {
    if l < j {
      IdxUp(x, y, l, j - 1);
      IdxStep(x, j - 1);
      IdxStep(y, j - 1);
    }
  }

  lemma {:induction false} MulLe(a: int, b: int, m: int)
    requires a <= b && 0 <= m
    ensures a * m <= b * m
  {
  }

  lemma {:induction false} HeadProps(x: nat, l: nat)
    ensures Aligned(Head(x, l), l) && Idx(Head(x, l), l) == Idx(x, l)
    ensures Head(x, l) <= x < Head(x, l) + Pow2(l)
    ensures Aligned(x, l) <==> Head(x, l) == x
  {
    if l > 0 {
      HeadProps(x / 2, l - 1);
      assert Head(x, l) / 2 == Head(x / 2, l - 1);
    }
  }

  /** The block of an aligned page is the range of 2^l pages it starts. */
  lemma {:induction false} BlockRange(p: nat, y: nat, l: nat)
    requires Aligned(p, l)
    ensures Idx(y, l) == Idx(p, l) <==> p <= y < p + Pow2(l)
  {
    if l > 0 {
      BlockRange(p / 2, y / 2, l - 1);
      assert Pow2(l) == 2 * Pow2(l - 1) && p == 2 * (p / 2);
    }
  }

  lemma {:induction false} HeadUnique(p: nat, q: nat, l: nat)
    requires Aligned(p, l) && Aligned(q, l) && Idx(p, l) == Idx(q, l)
    ensures p == q
  {
    if l > 0 { HeadUnique(p / 2, q / 2, l - 1); }
  }

  lemma {:induction false} AlignedDown(p: nat, l: nat, j: nat)
    requires j <= l && Aligned(p, l)
    ensures Aligned(p, j)
  {
    if j > 0 { AlignedDown(p / 2, l - 1, j - 1); }
  }

  /** A multiple of 2^l, and only that, is aligned. */
  lemma {:induction false} AlignedMultiple(k: nat, l: nat)
    ensures Aligned(k * Pow2(l), l) && Idx(k * Pow2(l), l) == k
  {
    if l > 0 {
      AlignedMultiple(k, l - 1);
      var h := k * Pow2(l - 1);
      assert k * Pow2(l) == 2 * h by { assert Pow2(l) == 2 * Pow2(l - 1); Reassociate(k, Pow2(l - 1)); }
    }
  }

  lemma Reassociate(k: nat, p: nat)
    ensures k * (2 * p) == 2 * (k * p)
  {
  }

  lemma {:induction false} XorZero(a: nat)
    ensures Xor(a, 0) == a
  {
    if a > 0 { XorZero(a / 2); }
  }

  /** `x` with bit `l` inverted. */
  ghost function Flip(x: nat, l: nat): nat
  {
    if l == 0 then (if x % 2 == 0 then x + 1 else x - 1) else 2 * Flip(x / 2, l - 1) + x % 2
  }

  lemma {:induction false} XorIsFlip(x: nat, l: nat)
    ensures Xor(x, Pow2(l)) == Flip(x, l)
  {
    if l == 0 {
      XorZero(x / 2);
    } else {
      XorIsFlip(x / 2, l - 1);
      assert Pow2(l) / 2 == Pow2(l - 1) && Pow2(l) % 2 == 0;
    }
  }

  /** Flipping bit `l` moves to the sibling block: same parent block, other half. */
  lemma {:induction false} FlipProps(x: nat, l: nat)
    ensures Idx(Flip(x, l), l) == if Idx(x, l) % 2 == 0 then Idx(x, l) + 1 else Idx(x, l) - 1
    ensures Flip(x, l) == if Idx(x, l) % 2 == 0 then x + Pow2(l) else x - Pow2(l)
    ensures Aligned(x, l) ==> Aligned(Flip(x, l), l)
  {
    if l > 0 {
      FlipProps(x / 2, l - 1);
      var b := Flip(x, l);
      assert b / 2 == Flip(x / 2, l - 1) && b % 2 == x % 2;
    }
  }

  lemma {:induction false} FlipTwice(x: nat, l: nat)
    ensures Flip(Flip(x, l), l) == x && Flip(x, l) != x && Idx(Flip(x, l), l + 1) == Idx(x, l + 1)
  {
    FlipProps(x, l);
    FlipProps(Flip(x, l), l);
    IdxStep(x, l);
    IdxStep(Flip(x, l), l);
  }

  /** Two pages with the same parent block are in the same block or in siblings. */
  lemma {:induction false} SameOrFlip(x: nat, y: nat, l: nat)
    requires Idx(x, l + 1) == Idx(y, l + 1)
    ensures Idx(x, l) == Idx(y, l) || Idx(x, l) == Idx(Flip(y, l), l)
  {
    FlipProps(y, l);
    IdxStep(x, l);
    IdxStep(y, l);
  }

  lemma {:induction false} AlignedStep(p: nat, l: nat)
    ensures Aligned(p, l + 1) <==> Aligned(p, l) && Idx(p, l) % 2 == 0
  {
    if l > 0 { AlignedStep(p / 2, l - 1); }
  }
}
