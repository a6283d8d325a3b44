/** The allocation bitmap (lib/bitmap.c): 64-bit words, a count of unused bits and
    a remembered position below which nothing is free. */
module Bitmap {

  /** A 64-bit word as its bits, bit 0 first. */
  type Word = w: seq<bool> | |w| == 64 witness seq(64, _ => false)

  /** Bit `i` of the map. */
  predicate Used(words: seq<Word>, i: nat)
  {
    i / 64 < |words| && words[i / 64][i % 64]
  }

  /** The free indices of lo..hi-1. */
  ghost function FreeSet(words: seq<Word>, lo: nat, hi: nat): set<nat>
  {
    set i: nat | lo <= i < hi && !Used(words, i)
  }

  /** The map with bit `i` set to `v`. */
  function WithBit(words: seq<Word>, i: nat, v: bool): (r: seq<Word>)
    ensures |r| == |words|
  {
    if i / 64 < |words| then words[i / 64 := words[i / 64][i % 64 := v]] else words
  }

  lemma {:induction false} WithBitUsed(words: seq<Word>, i: nat, v: bool, j: nat)
    requires i / 64 < |words|
    ensures Used(WithBit(words, i, v), j) == if j == i then v else Used(words, j)
  {
    if j / 64 == i / 64 && j % 64 == i % 64 { assert j == i; }
  }

  /** Setting or clearing one bit moves exactly that index out of or into the free set. */
  lemma {:induction false} FreeSetChange(words: seq<Word>, i: nat, v: bool, lo: nat, hi: nat)
    requires i / 64 < |words|
    ensures FreeSet(WithBit(words, i, v), lo, hi) ==
      if v then FreeSet(words, lo, hi) - {i}
      else if lo <= i < hi then FreeSet(words, lo, hi) + {i} else FreeSet(words, lo, hi)
  {
    forall j: nat ensures Used(WithBit(words, i, v), j) == if j == i then v else Used(words, j) {
      WithBitUsed(words, i, v, j);
    }
  }

  /** No bit from `start` to below `size` is free, and bit `size` lies in the last word
      and is zero. */
  ghost predicate LeavesBit(words: seq<Word>, size: nat, start: nat)
  {
    FreeSet(words, start, size) == {} && start <= size && size % 64 != 0 && !Used(words, size)
  }

  /** One word with its first bit used, as a map of one bit with that bit reserved:
      resetting sets the bit past the end. */
  lemma {:induction false} LeavesBitExample(w: Word)
    requires w == seq(64, i => i == 0)
    ensures LeavesBit([w], 1, 1) && Used(WithBit([w], 1, true), 1) && !Used([w], 1)
  {
    WithBitUsed([w], 1, true, 1);
  }

  class Map {
    const words: array<Word>
    const size: nat
    var unused: int
    var allocation: nat
    ghost var base: nat   // bits below are reserved and never handed out

    ghost function Free(): (s: set<nat>)
      reads this, words
    {
      FreeSet(words[..], base, size)
    }

    predicate Covered()
    {
      (size + 63) / 64 <= words.Length
    }

    /** `unused` counts the free bits from `base` on, and the remembered position
        is not above any of them. */
    ghost predicate Valid()
      reads this, words
    {
      && Covered() && base <= allocation
      && unused == |Free()|
      && forall j: nat :: j in Free() ==> allocation <= j
    }

    /** bitmap_init_zone: an existing bitmap is wrapped as it stands. */
    constructor InitZone(map_: array<Word>, bits: nat)
      requires (bits + 63) / 64 <= map_.Length
      ensures words == map_ && size == bits && unused == bits && allocation == 0
    {
      words, size, unused, allocation, base := map_, bits, bits, 0, 0;
    }

    /** The inner loop of bitmap_alloc: the first zero bit of word `i` from bit `from` on, or 64. */
    method FindInWord(i: nat, from: nat) returns (bit: nat)
      requires i < words.Length && from < 64
      ensures from <= bit <= 64
      ensures bit < 64 ==> !words[i][bit]
      ensures forall b :: from <= b < bit ==> words[i][b]
    {
      bit := from;
      while bit < 64 && words[i][bit]
        invariant from <= bit <= 64
        invariant forall b :: from <= b < bit ==> words[i][b]
      {
        bit := bit + 1;
      }
    }

    /** The search loops of bitmap_alloc: the first zero bit from `allocation` on
        in the words that cover `size` bits; it may lie at or past `size`. */
    method Find() returns (res: int)
      requires Covered()
      ensures -1 <= res
      ensures res == -1 ==> forall j: nat :: allocation <= j < (size + 63) / 64 * 64 ==> Used(words[..], j)
      ensures res >= 0 ==> allocation <= res < (size + 63) / 64 * 64 && !Used(words[..], res)
      ensures forall j: nat :: allocation <= j < res ==> Used(words[..], j)
    {
      var total := (size + 63) / 64;
      var i := allocation / 64;
      while i < total
        invariant allocation / 64 <= i
        invariant forall j: nat :: allocation <= j < 64 * i ==> Used(words[..], j)
      {
        if words[i] != seq(64, _ => true) {
          var bit := FindInWord(i, if i == allocation / 64 then allocation % 64 else 0);
          forall j: nat | allocation <= j < 64 * i + bit ensures Used(words[..], j) {
            if 64 * i <= j { assert j == 64 * i + j % 64 && words[i][j % 64]; }
          }
          if bit < 64 {
            return 64 * i + bit;
          }
        } else {
          forall j: nat | 64 * i <= j < 64 * i + 64 ensures Used(words[..], j) { assert words[i][j % 64]; }
        }
        i := i + 1;
      }
      res := -1;
    }

    method SetBit(i: nat, v: bool)
      requires i / 64 < words.Length
      modifies words
      ensures words[..] == WithBit(old(words[..]), i, v)
    {
      words[i / 64] := words[i / 64][i % 64 := v];
    }

    /** bitmap_alloc on any map: what it leaves when the map need not be Valid. */
    method AllocFrom() returns (res: int)
      requires Covered()
      modifies this, words
      ensures base == old(base)
      ensures res == -1 ==> unused == old(unused) && allocation == old(allocation) && words[..] == old(words[..])
      ensures res == -1 && old(unused) != 0 ==>
                forall j: nat :: allocation <= j <= size && j < (size + 63) / 64 * 64 ==> Used(words[..], j)
      ensures res != -1 ==> old(unused) != 0 && old(allocation) <= res <= size && res < (size + 63) / 64 * 64
      ensures res != -1 ==> !Used(old(words[..]), res) && words[..] == WithBit(old(words[..]), res, true)
      ensures res != -1 ==> unused == old(unused) - 1 && allocation == res + 1
      ensures res != -1 ==> forall j: nat :: old(allocation) <= j < res ==> Used(old(words[..]), j)
    {
      if unused == 0 {
        return -1;
      }
      res := Find();
      if res == -1 || res > size {
        return -1;
      }
      SetBit(res, true);
      unused := unused - 1;
      allocation := res + 1;
    }

    /** bitmap_alloc: the least free index, or -1 exactly when none is left. The
        result is below `size`, although only results above `size` are rejected. */
    method Alloc() returns (res: int)
      requires Valid()
      modifies this, words
      ensures Valid() && base == old(base)
      ensures res == -1 <==> old(Free()) == {}
      ensures res == -1 ==> Free() == old(Free()) && words[..] == old(words[..])
      ensures res != -1 ==> res in old(Free()) && forall j: nat :: j in old(Free()) ==> res <= j
      ensures res != -1 ==> base <= res < size && Free() == old(Free()) - {res}
      ensures res != -1 ==> words[..] == WithBit(old(words[..]), res, true)
    {
      ghost var was := words[..];
      res := AllocFrom();
      if res != -1 {
        FreeSetChange(was, res, true, base, size);
        ghost var one: nat :| one in FreeSet(was, base, size);
        assert old(allocation) <= one && !Used(was, one);
      }
    }

    /** bitmap_free on any map and any index: out of range and double frees change
        no bit. */
    method FreeAt(index: int)
      requires Covered()
      modifies this, words
      ensures base == old(base)
      ensures !(0 <= index < size) ==> unused == old(unused) && allocation == old(allocation) && words[..] == old(words[..])
      ensures 0 <= index < size ==> allocation == if index < old(allocation) then index else old(allocation)
      ensures 0 <= index < size && Used(old(words[..]), index) ==>
                words[..] == WithBit(old(words[..]), index, false) && unused == old(unused) + 1
      ensures 0 <= index < size && !Used(old(words[..]), index) ==>
                words[..] == old(words[..]) && unused == old(unused)
    {
      if index < 0 || index >= size {
        return;
      }
      if index < allocation {
        allocation := index;
      }
      if words[index / 64][index % 64] {
        SetBit(index, false);
        unused := unused + 1;
      }
    }

    /** bitmap_free of an index from the base on makes exactly it free, out of range
        and double frees changing nothing. Freeing a reserved bit clears it, but
        breaks the invariant, and nothing else does. */
    method FreeBit(index: int)
      requires Valid()
      modifies this, words
      ensures base == old(base)
      ensures words[..] == if 0 <= index < size then WithBit(old(words[..]), index, false) else old(words[..])
      ensures Free() == if base <= index < size then old(Free()) + {index} else old(Free())
      ensures Valid() <==> !(0 <= index < base && index < size)
    {
      ghost var was := words[..];
      FreeAt(index);
      if 0 <= index < size {
        FreeSetChange(was, index, false, base, size);
        if !Used(was, index) {
          assert was[index / 64][index % 64 := false] == was[index / 64];
          assert WithBit(was, index, false) == was;
        }
        if base <= index {
          assert Used(was, index) <==> index !in FreeSet(was, base, size);
        }
      }
    }

    /** bitmap_is_free: 1 for a zero bit, 0 for a one, -1 out of range; from the
        base on, 1 exactly for what can be allocated. */
    method IsFree(index: int) returns (r: int)
      requires Valid()
      ensures r == if 0 <= index < size then (if Used(words[..], index) then 0 else 1) else -1
      ensures 0 <= index < size ==> (r == 1 <==> index / 64 < words.Length && !words[index / 64][index % 64])
      ensures base <= index ==> (r == 1 <==> index in Free())
    {
      if index < 0 || index >= size {
        return -1;
      }
      r := if words[index / 64][index % 64] then 0 else 1;
    }

    /** bitmap_reset_start then bitmap_reset_unused: allocating and freeing once
        leaves the remembered position at the first free bit, so the count given is
        all that is needed for the invariant. The probe leaves bit `size` set exactly
        in the maps that LeavesBit names. */
    method Reset(start: nat, count: nat)
      requires Covered() && unused == size
      requires count == |FreeSet(words[..], start, size)|
      modifies this, words
      ensures Valid() && base == start && unused == count
      ensures Free() == FreeSet(old(words[..]), start, size)
      ensures words[..] == if LeavesBit(old(words[..]), size, start) then WithBit(old(words[..]), size, true) else old(words[..])
    {
      ghost var was := words[..];
      base := start;
      allocation := start;
      var index := AllocFrom();
      ghost var mid := words[..];
      FreeAt(index);
      unused := count;
      if index != -1 {
        FreeSetChange(was, index, true, start, size);
        WithBitUsed(was, index, true, index);
        if index < size {
          assert was[index / 64][index % 64 := true][index % 64 := false] == was[index / 64];
          assert words[..] == was;
          assert index in FreeSet(was, start, size);
        } else {
          assert FreeSet(was, start, size) == {};
        }
      }
    }
  }
}
