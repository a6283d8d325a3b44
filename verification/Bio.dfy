// Splitting a byte range of a block device into per-block requests
// (kernel/dev/blk/bio.c), in 32-bit unsigned arithmetic.
module Bio {

  const BLK: nat := 4096
  const U32: nat := 0x1_0000_0000

  /** `struct bio`: one piece of one block. */
  datatype Piece = Piece(blockno: nat, offset: nat, len: nat)

  /** First byte address of a piece. */
  ghost function Addr(p: Piece): nat { p.blockno * BLK + p.offset }

  /** The pieces cover the bytes a..e-1 exactly and in order, each non-empty and
      inside one block. */
  ghost predicate Tiles(ps: seq<Piece>, a: nat, e: nat)
  {
    if ps == [] then a == e
    else
      && Addr(ps[0]) == a && 0 < ps[0].len && ps[0].offset + ps[0].len <= BLK
      && Tiles(ps[1..], a + ps[0].len, e)
  }

  /** No intermediate value leaves 32 bits: neither the length from the start of
      the first block nor the number of the last block. */
  predicate Fits(blockno: nat, offset: nat, len: nat)
  {
    offset % BLK + len <= U32 && blockno + (offset + len - 1) / BLK < U32
  }

  /** Piece `i` of a range of `c` > 1 blocks from block `n`, first offset `o`, last length `m`. */
  ghost function PieceAt(n: nat, o: nat, m: nat, c: nat, i: nat): Piece
  {
    Piece((n + i) % U32, if i == 0 then o else 0, if i == 0 then (if o <= BLK then BLK - o else 0) else if i == c - 1 then m else BLK)
  }

  ghost function PieceList(n: nat, o: nat, m: nat, c: nat, from: nat): (ps: seq<Piece>)
    requires from <= c
    ensures |ps| == c - from && (from < c ==> ps[|ps| - 1] == PieceAt(n, o, m, c, c - 1))
    decreases c - from
  {
    if from == c then [] else [PieceAt(n, o, m, c, from)] + PieceList(n, o, m, c, from + 1)
  }

  /** bio_list_make. For 32-bit arguments the list covers the requested bytes if
      and only if the arithmetic does not wrap. */
  method BioListMake(blockno: nat, offset: nat, len: nat) returns (ps: seq<Piece>)
    requires blockno < U32 && offset < U32 && len < U32
    ensures len == 0 ==> ps == []
    ensures len > 0 ==> (Tiles(ps, blockno * BLK + offset, blockno * BLK + offset + len) <==> Fits(blockno, offset, len))
  {
    ps := [];
    if len == 0 {
      return;
    }
    var b := (blockno + offset / BLK) % U32;
    var o := offset % BLK;
    var count := (o + len - 1) % U32 / BLK + 1;
    if count == 1 {
      ps := [Piece(b, o, len)];
      OnePiece(blockno, offset, len, ps);
    } else {
      var last := (o + len - 1) % U32 % BLK + 1;
      ps := ManyPieces(b, o, last, count);
      ManyFits(blockno, offset, len, count, last);
    }
  }

  /** bio_list_make, lines 41-60: built from the last block down to the first. */
  method ManyPieces(first: nat, o: nat, last: nat, blocks: nat) returns (ps: seq<Piece>)
    requires first < U32 && o < BLK && 1 < blocks < U32
    ensures ps == PieceList(first, o, last, blocks, 0)
  {
    var b, count := (first + blocks) % U32, blocks;
    Decrement(first + blocks);
    b := (b + U32 - 1) % U32;
    ps := [Piece(b, 0, last)];
    count := count - 1;
    assert PieceList(first, o, last, blocks, blocks) == [];
    while count > 1
      invariant 1 <= count < blocks && b == (first + count) % U32 && ps == PieceList(first, o, last, blocks, count)
    {
      Decrement(first + count);
      b := (b + U32 - 1) % U32;
      ps := [Piece(b, 0, BLK)] + ps;
      count := count - 1;
    }
    Decrement(first + count);
    b := (b + U32 - 1) % U32;
    ps := [Piece(b, o, BLK - o)] + ps;
  }

  lemma {:induction false} SameBlocks(n: nat, o: nat, m: nat, c: nat, from: nat)
    requires from <= c
    ensures PieceList(n % U32, o, m, c, from) == PieceList(n, o, m, c, from)
    decreases c - from
  {
    if from < c {
      SameBlocks(n, o, m, c, from + 1);
      ModAdd(n, from);
    }
  }

  lemma {:induction false} ModAdd(x: nat, y: nat)
    ensures (x % U32 + y) % U32 == (x + y) % U32
  {
    var q := x / U32;
    assert x + y == (x % U32 + y) + U32 * q;
  }

  /** Unsigned decrement. */
  lemma {:induction false} Decrement(x: nat)
    requires x > 0
    ensures (x % U32 + U32 - 1) % U32 == (x - 1) % U32
  {
  }

  lemma {:induction false} RangeTiles(n: nat, o: nat, m: nat, c: nat, a: nat, len: nat)
    requires o < BLK && 0 < m <= BLK && c > 1 && a == n * BLK + o && o + len == (c - 1) * BLK + m
    ensures Tiles(PieceList(n % U32, o, m, c, 0), a, a + len) <==> n + c - 1 < U32
  {
    SameBlocks(n, o, m, c, 0);
    ListTiles(n, o, m, c);
    assert a + len == (n + c - 1) * BLK + m;
  }

  lemma {:induction false} ListTiles(n: nat, o: nat, m: nat, c: nat)
    requires o < BLK && 0 < m <= BLK && c > 1
    ensures Tiles(PieceList(n, o, m, c, 0), n * BLK + o, (n + c - 1) * BLK + m) <==> n + c - 1 < U32
  {
    var ps := PieceList(n, o, m, c, 0);
    if n + c - 1 < U32 {
      RestTiles(n, o, m, c, 1);
      assert ps[1..] == PieceList(n, o, m, c, 1);
    } else {
      WrapsBelow(n + c - 1);
      if Tiles(ps, n * BLK + o, (n + c - 1) * BLK + m) { TilesEnd(ps, n * BLK + o, (n + c - 1) * BLK + m); }
    }
  }

  lemma {:induction false} WrapsBelow(x: nat)
    requires x >= U32
    ensures x % U32 < x
  {
  }

  lemma {:induction false} ManyArith(blockno: nat, offset: nat, len: nat, c: nat, m: nat)
    requires blockno < U32 && offset < U32 && 0 < len < U32
    requires c == (offset % BLK + len - 1) % U32 / BLK + 1 && c > 1 && m == (offset % BLK + len - 1) % U32 % BLK + 1
    ensures var (n, o) := (blockno + offset / BLK, offset % BLK);
      && blockno * BLK + offset == n * BLK + o && o + len == (c - 1) * BLK + m && 0 < m <= BLK
      && (Fits(blockno, offset, len) <==> n + c - 1 < U32)
  {
    var o := offset % BLK;
    assert o + len - 1 < U32;
    assert o + len - 1 == (c - 1) * BLK + (m - 1);
    assert (offset + len - 1) / BLK == offset / BLK + (o + len - 1) / BLK;
  }

  lemma {:induction false} ManyFits(blockno: nat, offset: nat, len: nat, c: nat, m: nat)
    requires blockno < U32 && offset < U32 && 0 < len < U32
    requires c == (offset % BLK + len - 1) % U32 / BLK + 1 && c > 1 && m == (offset % BLK + len - 1) % U32 % BLK + 1
    ensures Tiles(PieceList((blockno + offset / BLK) % U32, offset % BLK, m, c, 0), blockno * BLK + offset, blockno * BLK + offset + len)
      <==> Fits(blockno, offset, len)
  {
    ManyArith(blockno, offset, len, c, m);
    RangeTiles(blockno + offset / BLK, offset % BLK, m, c, blockno * BLK + offset, len);
  }

  /** Without wrap-around the whole blocks and the last one line up. */
  lemma {:induction false} RestTiles(n: nat, o: nat, m: nat, c: nat, from: nat)
    requires 0 < from <= c && n + c - 1 < U32 && 0 < m <= BLK && from < c
    ensures Tiles(PieceList(n, o, m, c, from), (n + from) * BLK, (n + c - 1) * BLK + m)
    decreases c - from
  {
    var ps := PieceList(n, o, m, c, from);
    var e := (n + c - 1) * BLK + m;
    assert ps[0] == PieceAt(n, o, m, c, from) && (n + from) % U32 == n + from;
    assert ps[1..] == PieceList(n, o, m, c, from + 1);
    if from + 1 < c {
      RestTiles(n, o, m, c, from + 1);
      assert (n + from) * BLK + BLK == (n + (from + 1)) * BLK;
    } else {
      assert Tiles([], e, e);
    }
  }

  lemma {:induction false} TilesEnd(ps: seq<Piece>, a: nat, e: nat)
    requires Tiles(ps, a, e) && ps != []
    ensures Addr(ps[|ps| - 1]) + ps[|ps| - 1].len == e
  {
    if |ps| > 1 {
      TilesEnd(ps[1..], a + ps[0].len, e);
    } else {
      assert ps[1..] == [];
    }
  }

  lemma {:induction false} OnePiece(blockno: nat, offset: nat, len: nat, ps: seq<Piece>)
    requires blockno < U32 && offset < U32 && 0 < len < U32 && (offset % BLK + len - 1) % U32 / BLK == 0
    requires ps == [Piece((blockno + offset / BLK) % U32, offset % BLK, len)]
    ensures Tiles(ps, blockno * BLK + offset, blockno * BLK + offset + len) <==> Fits(blockno, offset, len)
  {
    assert ps[1..] == [];
  }
}
