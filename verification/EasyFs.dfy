/** Reading, writing and mapping file blocks (fs/easyfs/inode.c, fs/easyfs/super.c).
    Each file refines a plain byte sequence. */
module EasyFs {
  import opened Wrappers
  import opened InodeMap
  import opened Queues
  import Bitmap

  // ----- Specification -------------------------------------------------------

  /** The bytes after writing `d` at `offset`, which is at most the length. */
  function Overwrite(c: seq<Byte>, offset: nat, d: seq<Byte>): (r: seq<Byte>)
    requires offset <= |c|
  {
    c[..offset] + d + if offset + |d| < |c| then c[offset + |d|..] else []
  }

  lemma {:induction false} OverwriteAt(c: seq<Byte>, offset: nat, d: seq<Byte>, i: nat)
    requires offset <= |c|
    ensures |Overwrite(c, offset, d)| == if offset + |d| < |c| then |c| else offset + |d|
    ensures i < |Overwrite(c, offset, d)| ==>
      Overwrite(c, offset, d)[i] == if i < offset then c[i] else if i < offset + |d| then d[i - offset] else c[i]
  {
  }

  /** The slots that mapping blocks lo..hi-1 of file `n` has to fill. */
  ghost function Missing(fs: Fs, n: nat, lo: nat, hi: nat): set<nat>
  {
    set s: nat | s <= TABLE && (lo <= s < hi || (s == TABLE && NDIRECT < hi)) && SlotPtr(fs, n, s) == 0
  }

  /** The blocks a write touches end before this logical block. */
  function LastBlock(offset: nat, len: nat): nat
  {
    if len == 0 then offset / BS else (offset + len - 1) / BS + 1
  }

  /** The bytes one round of a loop moves: to the end of the block or of the request. */
  function PieceLen(offset: nat, left: nat): (m: nat)
    ensures m <= left && offset % BS + m <= BS && (0 < left ==> 0 < m)
  {
    if left < BS - offset % BS then left else BS - offset % BS
  }

  /** A round ends at the next block, or it is the last. */
  lemma {:induction false} PieceBlocks(start: nat, tot: nat, len: nat)
    requires tot < len && start + len < MAXFILE * BS
    ensures (start + tot) / BS < LastBlock(start, len) <= MAXFILE
    ensures var m := PieceLen(start + tot, len - tot);
            if tot + m < len then (start + tot + m) / BS == (start + tot) / BS + 1
            else (start + tot) / BS + 1 == LastBlock(start, len)
  {
  }

  // ----- Comparing two states ------------------------------------------------

  ghost predicate KeptAt(fs: Fs, fs': Fs, m: nat, i: nat)
  {
    At(fs, m, i).Some? ==> At(fs', m, i) == At(fs, m, i)
  }

  /** The same files with the same sizes. */
  ghost predicate SameFiles(fs: Fs, fs': Fs)
  {
    fs'.inodes.Keys == fs.inodes.Keys && forall m: nat {:trigger Size(fs', m)} :: Size(fs', m) == Size(fs, m)
  }

  /** Every mapped byte stays what it is. */
  ghost predicate Kept(fs: Fs, fs': Fs)
  {
    SameFiles(fs, fs') && forall m: nat, i: nat {:trigger KeptAt(fs, fs', m, i)} :: KeptAt(fs, fs', m, i)
  }

  lemma {:induction false} KeptTwice(fs: Fs, fs1: Fs, fs2: Fs)
    requires Kept(fs, fs1) && Kept(fs1, fs2)
    ensures Kept(fs, fs2)
  {
    forall m: nat, i: nat ensures KeptAt(fs, fs2, m, i) { assert KeptAt(fs, fs1, m, i) && KeptAt(fs1, fs2, m, i); }
  }

  lemma {:induction false} KeptContent(fs: Fs, fs': Fs)
    requires Inv(fs) && Kept(fs, fs')
    ensures forall m: nat :: Content(fs', m) == Content(fs, m)
  {
    forall m: nat ensures Content(fs', m) == Content(fs, m) {
      forall i: nat | i < Size(fs, m) ensures ByteAt(fs', m, i) == ByteAt(fs, m, i) {
        assert ByteOk(fs, m, i) && KeptAt(fs, fs', m, i);
      }
    }
  }

  ghost predicate FilledAt(fs: Fs, fs': Fs, n: nat, slots: set<nat>, m: nat, s: nat)
  {
    if m == n && s in slots then SlotPtr(fs', m, s) != 0 else SlotPtr(fs', m, s) == SlotPtr(fs, m, s)
  }

  /** The given slots of file `n` are filled and no other slot changes. */
  ghost predicate Filled(fs: Fs, fs': Fs, n: nat, slots: set<nat>)
  {
    forall m: nat, s: nat {:trigger FilledAt(fs, fs', n, slots, m, s)} :: FilledAt(fs, fs', n, slots, m, s)
  }

  lemma {:induction false} FilledTwice(fs: Fs, fs1: Fs, fs2: Fs, n: nat, slots1: set<nat>, slots2: set<nat>)
    requires Filled(fs, fs1, n, slots1) && Filled(fs1, fs2, n, slots2)
    ensures Filled(fs, fs2, n, slots1 + slots2)
  {
    forall m: nat, s: nat ensures FilledAt(fs, fs2, n, slots1 + slots2, m, s) {
      assert FilledAt(fs, fs1, n, slots1, m, s) && FilledAt(fs1, fs2, n, slots2, m, s);
    }
  }

  /** The slots that mapping logical block `lb` needs. */
  function Slots(lb: nat): set<nat>
  {
    if lb < NDIRECT then {lb} else {TABLE, lb}
  }

  /** What mapping block lo leaves to be filled for the rest of lo..hi-1. */
  lemma {:induction false} MissingStep(fs: Fs, fs': Fs, n: nat, lo: nat, hi: nat)
    requires Filled(fs, fs', n, Slots(lo)) && lo < hi <= MAXFILE
    ensures |Missing(fs, n, lo, hi)| == |Missing(fs', n, lo + 1, hi)| + |Missing(fs, n, lo, lo + 1)|
    ensures lo + 1 == hi ==> Missing(fs', n, lo + 1, hi) == {}
  {
    var all, now, rest := Missing(fs, n, lo, hi), Missing(fs, n, lo, lo + 1), Missing(fs', n, lo + 1, hi);
    forall s: nat ensures s in rest <==> s in all && s !in now { assert FilledAt(fs, fs', n, Slots(lo), n, s); }
    assert rest == all - now && now <= all;
  }

  lemma {:induction false} MissingFirst(fs: Fs, n: nat, lo: nat, hi: nat)
    requires lo < hi
    ensures |Missing(fs, n, lo, lo + 1)| <= |Missing(fs, n, lo, hi)|
  {
    SubsetSize(Missing(fs, n, lo, lo + 1), Missing(fs, n, lo, hi));
  }

  /** An inode without an indirect block has no indirect pointers. */
  lemma {:induction false} MissingIndirect(fs: Fs, n: nat, lb: nat)
    requires Inv(fs) && n in fs.inodes && NDIRECT <= lb < MAXFILE
    ensures |Missing(fs, n, lb, lb + 1)| ==
      if SlotPtr(fs, n, TABLE) == 0 then 2 else if SlotPtr(fs, n, lb) == 0 then 1 else 0
    ensures SlotPtr(fs, n, TABLE) == 0 ==> SlotPtr(fs, n, lb) == 0
  {
    assert InodeOk(fs, n);
    assert Missing(fs, n, lb, lb + 1) ==
      if SlotPtr(fs, n, TABLE) == 0 then {lb, TABLE} else if SlotPtr(fs, n, lb) == 0 then {lb} else {};
  }

  ghost predicate UntouchedAt(fs: Fs, fs': Fs, n: nat, lo: nat, hi: nat, m: nat, s: nat)
  {
    m != n || (!(lo <= s < hi) && (s != TABLE || hi <= NDIRECT)) ==> SlotPtr(fs', m, s) == SlotPtr(fs, m, s)
  }

  /** Only blocks lo..hi-1 of file `n`, and its table if they need it, were mapped. */
  ghost predicate Untouched(fs: Fs, fs': Fs, n: nat, lo: nat, hi: nat)
  {
    forall m: nat, s: nat {:trigger UntouchedAt(fs, fs', n, lo, hi, m, s)} :: UntouchedAt(fs, fs', n, lo, hi, m, s)
  }

  lemma {:induction false} UntouchedNext(fs: Fs, fs1: Fs, fs2: Fs, n: nat, lo: nat, hi: nat, lb: nat)
    requires Untouched(fs, fs1, n, lo, hi) && Filled(fs1, fs2, n, Slots(lb)) && lo <= lb < hi
    ensures Untouched(fs, fs2, n, lo, hi)
  {
    forall m: nat, s: nat ensures UntouchedAt(fs, fs2, n, lo, hi, m, s) {
      assert UntouchedAt(fs, fs1, n, lo, hi, m, s) && FilledAt(fs1, fs2, n, Slots(lb), m, s);
    }
  }

  // ----- Progress of a write -------------------------------------------------

  ghost predicate WroteAt(fs: Fs, fs': Fs, n: nat, off: nat, d: seq<Byte>, m: nat, i: nat)
  {
    if m == n && off <= i < off + |d| then At(fs', m, i) == Some(d[i - off]) else KeptAt(fs, fs', m, i)
  }

  /** So far `d` was written at `off`; sizes are not yet updated. */
  ghost predicate Wrote(fs: Fs, fs': Fs, n: nat, off: nat, d: seq<Byte>)
  {
    SameFiles(fs, fs') && forall m: nat, i: nat {:trigger WroteAt(fs, fs', n, off, d, m, i)} :: WroteAt(fs, fs', n, off, d, m, i)
  }

  lemma {:induction false} WroteNone(fs: Fs, n: nat, off: nat)
    ensures Wrote(fs, fs, n, off, [])
  {
  }

  lemma {:induction false} WroteKept(fs: Fs, fs1: Fs, fs2: Fs, n: nat, off: nat, d: seq<Byte>)
    requires Wrote(fs, fs1, n, off, d) && Kept(fs1, fs2)
    ensures Wrote(fs, fs2, n, off, d)
  {
    forall m: nat, i: nat ensures WroteAt(fs, fs2, n, off, d, m, i) {
      assert WroteAt(fs, fs1, n, off, d, m, i) && KeptAt(fs1, fs2, m, i);
    }
  }

  lemma {:induction false} WrotePiece(fs: Fs, fs1: Fs, n: nat, off: nat, d: seq<Byte>, p: seq<Byte>)
    requires Inv(fs1) && Wrote(fs, fs1, n, off, d)
    requires (off + |d|) / BS < MAXFILE && SlotPtr(fs1, n, (off + |d|) / BS) != 0 && (off + |d|) % BS + |p| <= BS
    ensures Wrote(fs, Put(fs1, SlotPtr(fs1, n, (off + |d|) / BS), (off + |d|) % BS, p), n, off, d + p)
  {
    var s, o := (off + |d|) / BS, (off + |d|) % BS;
    var fs2 := Put(fs1, SlotPtr(fs1, n, s), o, p);
    assert s * BS + o == off + |d|;
    forall m: nat, i: nat ensures WroteAt(fs, fs2, n, off, d + p, m, i) {
      PutAt(fs1, n, s, o, p, m, i);
      assert WroteAt(fs, fs1, n, off, d, m, i);
    }
    assert SameFiles(fs1, fs2);
  }

  /** Where a write stands after `tot` bytes: what was written, and how the free
      blocks compare with the slots still to fill. */
  ghost predicate Progress(fs: Fs, fs': Fs, n: nat, start: nat, data: seq<Byte>, tot: nat, spare: int)
  {
    && tot <= |data| && Wrote(fs, fs', n, start, data[..tot])
    && (tot < |data| ==> |fs'.free| - |Missing(fs', n, (start + tot) / BS, LastBlock(start, |data|))| == spare)
    && (0 < tot == |data| ==> |fs'.free| == spare)
    && Untouched(fs, fs', n, start / BS, LastBlock(start, |data|))
  }

  /** Once the size is updated, the file is the overwritten byte sequence and every
      other file is as it was. */
  lemma {:induction false} WroteDone(fs: Fs, fs1: Fs, n: nat, off: nat, d: seq<Byte>, size: nat)
    requires Inv(fs) && Inv(fs1) && n in fs.inodes && Wrote(fs, fs1, n, off, d)
    requires off <= Size(fs, n) && off + |d| < MAXFILE * BS
    requires size == if off + |d| > Size(fs, n) then off + |d| else Size(fs, n)
    ensures Inv(Grow(fs1, n, size))
    ensures Content(Grow(fs1, n, size), n) == Overwrite(Content(fs, n), off, d)
    ensures forall m: nat :: m != n ==> Content(Grow(fs1, n, size), m) == Content(fs, m)
  {
    forall i: nat ensures i < size ==> At(fs1, n, i).Some? {
      assert WroteAt(fs, fs1, n, off, d, n, i) && ByteOk(fs, n, i);
    }
    assert InodeOk(fs, n);
    GrowKeeps(fs1, n, size);
    WroteFile(fs, fs1, n, off, d, size);
    forall m: nat | m != n ensures Content(Grow(fs1, n, size), m) == Content(fs, m) { WroteElse(fs, fs1, n, off, d, size, m); }
  }

  lemma {:induction false} WroteFile(fs: Fs, fs1: Fs, n: nat, off: nat, d: seq<Byte>, size: nat)
    requires Inv(fs) && n in fs.inodes && Wrote(fs, fs1, n, off, d) && off <= Size(fs, n)
    requires size == if off + |d| > Size(fs, n) then off + |d| else Size(fs, n)
    requires forall i: nat {:trigger At(Grow(fs1, n, size), n, i)} :: At(Grow(fs1, n, size), n, i) == At(fs1, n, i)
    ensures Content(Grow(fs1, n, size), n) == Overwrite(Content(fs, n), off, d)
  {
    var c, c' := Overwrite(Content(fs, n), off, d), Content(Grow(fs1, n, size), n);
    OverwriteAt(Content(fs, n), off, d, 0);
    forall i: nat | i < size ensures c'[i] == c[i] {
      OverwriteAt(Content(fs, n), off, d, i);
      assert WroteAt(fs, fs1, n, off, d, n, i) && ByteOk(fs, n, i);
      assert At(Grow(fs1, n, size), n, i) == At(fs1, n, i);
    }
  }

  lemma {:induction false} WroteElse(fs: Fs, fs1: Fs, n: nat, off: nat, d: seq<Byte>, size: nat, m: nat)
    requires Inv(fs) && Wrote(fs, fs1, n, off, d) && m != n
    requires forall i: nat {:trigger At(Grow(fs1, n, size), m, i)} :: At(Grow(fs1, n, size), m, i) == At(fs1, m, i)
    ensures Content(Grow(fs1, n, size), m) == Content(fs, m)
  {
    var fs2 := Grow(fs1, n, size);
    assert Size(fs2, m) == Size(fs1, m) == Size(fs, m);
    forall i: nat | i < Size(fs, m) ensures ByteAt(fs2, m, i) == ByteAt(fs, m, i) {
      assert WroteAt(fs, fs1, n, off, d, m, i) && ByteOk(fs, m, i) && At(fs2, m, i) == At(fs1, m, i);
    }
  }

  lemma {:induction false} UntouchedGrow(fs: Fs, fs1: Fs, n: nat, size: nat, lo: nat, hi: nat)
    requires Untouched(fs, fs1, n, lo, hi)
    ensures Untouched(fs, Grow(fs1, n, size), n, lo, hi)
  {
    var fs2 := Grow(fs1, n, size);
    forall m: nat, s: nat ensures UntouchedAt(fs, fs2, n, lo, hi, m, s) {
      assert UntouchedAt(fs, fs1, n, lo, hi, m, s);
      assert SlotPtr(fs2, m, s) == SlotPtr(fs1, m, s);
    }
  }

  // ----- The file system -----------------------------------------------------

  /** An image that Mount accepts, for every block map: zero blocks and one empty file. */
  lemma {:induction false} EmptyImage(words: seq<Bitmap.Word>, blockCount: nat, n: nat)
    requires blockCount < 0x8000_0000
    ensures var fs := Fs(map[n := FromDisk(DInode(0, NoPtrs(NDIRECT + 1)))], seq(blockCount, _ => Zeros(BS)),
                         Bitmap.FreeSet(words, 1, blockCount), map[]);
            Inv(fs) && Content(fs, n) == []
  {
    var fs := Fs(map[n := FromDisk(DInode(0, NoPtrs(NDIRECT + 1)))], seq(blockCount, _ => Zeros(BS)),
                 Bitmap.FreeSet(words, 1, blockCount), map[]);
    forall m: nat, s: nat ensures SlotOk(fs, m, s) { }
    forall b: nat ensures BlockOk(fs, b) { }
    forall m: nat ensures InodeOk(fs, m) { }
    forall m: nat, i: nat ensures ByteOk(fs, m, i) { }
  }

  class FileSystem {
    const bmap: Bitmap.Map
    var blockFree: int
    var inodes: map<nat, Inode>
    var disk: seq<Block>
    var area: map<nat, DInode>   // the inode area of the disk
    ghost var owner: map<nat, (nat, nat)>

    ghost function Abs(): Fs
      reads this, bmap, bmap.words
    {
      Fs(inodes, disk, bmap.Free(), owner)
    }

    ghost predicate Valid()
      reads this, bmap, bmap.words
    {
      bmap.Valid() && blockFree == bmap.unused && Inv(Abs())
    }

    /** efs_fill_bmap: mounting an image whose recorded free count is right, whose
        free blocks are zero and whose files share no block. Inodes are as efs_i_get
        reads them from the inode area. */
    constructor Mount(words: array<Bitmap.Word>, blockCount: nat, blocksFree: nat,
                      inodeArea: map<nat, DInode>, image: seq<Block>, ghost owners: map<nat, (nat, nat)>)
      requires (blockCount + 63) / 64 <= words.Length
      requires blocksFree == |Bitmap.FreeSet(words[..], 1, blockCount)|
      requires Inv(Fs(map n | n in inodeArea :: FromDisk(inodeArea[n]), image, Bitmap.FreeSet(words[..], 1, blockCount), owners))
      modifies words
      ensures Valid() && bmap.words == words && fresh(bmap) && area == inodeArea
      ensures Abs() == Fs(map n | n in inodeArea :: FromDisk(inodeArea[n]), image, Bitmap.FreeSet(old(words[..]), 1, blockCount), owners)
    {
      var m := new Bitmap.Map.InitZone(words, blockCount);
      m.Reset(1, blocksFree);
      bmap, blockFree, disk, area, owner := m, blocksFree, image, inodeArea, owners;
      inodes := map n | n in inodeArea :: FromDisk(inodeArea[n]);
    }

    /** efs_bmap_alloc; -1 stands for its panic, which happens exactly when no block
        is free. */
    method BmapAlloc() returns (no: int)
      requires bmap.Valid() && blockFree == bmap.unused
      modifies this`blockFree, bmap, bmap.words
      ensures bmap.Valid() && bmap.base == old(bmap.base)
      ensures blockFree == bmap.unused
      ensures no == -1 <==> old(bmap.Free()) == {}
      ensures no == -1 ==> bmap.Free() == old(bmap.Free())
      ensures no != -1 ==> no in old(bmap.Free()) && bmap.Free() == old(bmap.Free()) - {no}
      ensures no != -1 ==> forall b: nat :: b in old(bmap.Free()) ==> no <= b
    {
      ghost var before := bmap.Free();
      no := bmap.Alloc();
      if no == -1 {
        return;
      }
      blockFree := blockFree - 1;
    }

    /** A free block for the empty slot `s` of inode `n`; false is the panic. */
    method FillSlot(n: nat, s: nat) returns (ok: bool)
      requires Valid() && n in inodes && s <= TABLE && SlotPtr(Abs(), n, s) == 0
      requires NDIRECT <= s < TABLE ==> inodes[n].indir.Some?
      modifies this, bmap, bmap.words
      ensures Valid() && Kept(old(Abs()), Abs())
      ensures ok <==> old(bmap.Free()) != {}
      ensures !ok ==> Abs() == old(Abs())
      ensures ok ==> |bmap.Free()| == |old(bmap.Free())| - 1
      ensures ok ==> inodes[n].indir.Some? == old(inodes[n].indir.Some?)
      ensures ok ==> Filled(old(Abs()), Abs(), n, {s})
    {
      ghost var fs := Abs();
      var b := BmapAlloc();
      if b == -1 {
        return false;
      }
      AssignKeeps(fs, n, s, b);
      assert BlockOk(fs, b);
      forall m: nat, t: nat ensures FilledAt(fs, Assign(fs, n, s, b), n, {s}, m, t) {
        AssignPtr(fs, n, s, b, m, t);
      }
      inodes := inodes[n := WithPtr(inodes[n], s, b)];
      owner := owner[b := (n, s)];
      assert Abs() == Assign(fs, n, s, b);
      forall m: nat, i: nat ensures KeptAt(fs, Abs(), m, i) { }
      ok := true;
    }

    /** Reading the indirect block into memory the first time it is needed. */
    method LoadTable(n: nat)
      requires Valid() && n in inodes && SlotPtr(Abs(), n, TABLE) != 0
      modifies this`inodes
      ensures Valid() && Kept(old(Abs()), Abs()) && inodes.Keys == old(inodes.Keys)
      ensures inodes[n].indir.Some? && Filled(old(Abs()), Abs(), n, {})
    {
      ghost var fs := Abs();
      assert InodeOk(fs, n) && SlotOk(fs, n, TABLE);
      if inodes[n].indir.None? {
        LoadKeeps(fs, n);
        inodes := inodes[n := inodes[n].(indir := Some(Decode(disk[inodes[n].addrs[NDIRECT]])))];
        assert Abs() == Load(fs, n);
      }
      forall m: nat, i: nat ensures KeptAt(fs, Abs(), m, i) { }
      forall m: nat, s: nat ensures FilledAt(fs, Abs(), n, {}, m, s) { }
    }

    /** The indirect block of inode `n`, allocated if there is none, and loaded. */
    method NeedTable(n: nat) returns (ok: bool)
      requires Valid() && n in inodes
      modifies this, bmap, bmap.words
      ensures Valid() && Kept(old(Abs()), Abs()) && n in inodes
      ensures ok <==> SlotPtr(old(Abs()), n, TABLE) != 0 || old(bmap.Free()) != {}
      ensures ok ==> inodes[n].indir.Some? && Filled(old(Abs()), Abs(), n, {TABLE})
      ensures ok ==> |bmap.Free()| == |old(bmap.Free())| - if SlotPtr(old(Abs()), n, TABLE) == 0 then 1 else 0
    {
      ghost var fs := Abs();
      assert InodeOk(fs, n);
      if inodes[n].addrs[NDIRECT] == 0 {
        ok := FillSlot(n, TABLE);
        if !ok {
          return;
        }
      } else {
        forall m: nat, i: nat ensures KeptAt(fs, fs, m, i) { }
        forall m: nat, s: nat ensures FilledAt(fs, fs, n, {TABLE}, m, s) { }
      }
      ghost var fs1 := Abs();
      assert FilledAt(fs, fs1, n, {TABLE}, n, TABLE);
      LoadTable(n);
      KeptTwice(fs, fs1, Abs());
      FilledTwice(fs, fs1, Abs(), n, {TABLE}, {});
      assert {TABLE} + {} == {TABLE};
      ok := true;
    }

    /** The indirect half of efs_i_bmap when blocks may be allocated. */
    method MapIndirect(n: nat, lb: nat) returns (ok: bool)
      requires Valid() && n in inodes && NDIRECT <= lb < MAXFILE
      modifies this, bmap, bmap.words
      ensures Valid() && Kept(old(Abs()), Abs()) && n in inodes
      ensures ok <==> |Missing(old(Abs()), n, lb, lb + 1)| <= |old(bmap.Free())|
      ensures ok ==> |bmap.Free()| == |old(bmap.Free())| - |Missing(old(Abs()), n, lb, lb + 1)|
      ensures ok ==> Filled(old(Abs()), Abs(), n, Slots(lb)) && inodes[n].indir.Some?
    {
      ghost var fs := Abs();
      MissingIndirect(fs, n, lb);
      ok := NeedTable(n);
      if !ok {
        return;
      }
      ghost var fs1 := Abs();
      assert InodeOk(fs1, n) && FilledAt(fs, fs1, n, {TABLE}, n, lb);
      if inodes[n].indir.value[lb - NDIRECT] == 0 {
        ok := FillSlot(n, lb);
        KeptTwice(fs, fs1, Abs());
      } else {
        forall m: nat, s: nat ensures FilledAt(fs1, fs1, n, {lb}, m, s) { }
      }
      if ok {
        FilledTwice(fs, fs1, Abs(), n, {TABLE}, {lb});
        assert {TABLE} + {lb} == Slots(lb);
      }
    }

    /** efs_i_bmap with alloc set. It panics exactly when the slots it has to fill
        outnumber the free blocks. */
    method MapBlock(n: nat, lb: nat) returns (ok: bool, bno: nat)
      requires Valid() && n in inodes && lb < MAXFILE
      modifies this, bmap, bmap.words
      ensures Valid() && Kept(old(Abs()), Abs()) && n in inodes
      ensures ok <==> |Missing(old(Abs()), n, lb, lb + 1)| <= |old(bmap.Free())|
      ensures ok ==> |bmap.Free()| == |old(bmap.Free())| - |Missing(old(Abs()), n, lb, lb + 1)|
      ensures ok ==> Filled(old(Abs()), Abs(), n, Slots(lb)) && bno == SlotPtr(Abs(), n, lb) && bno != 0
      ensures ok ==> |inodes[n].addrs| == 13 && if lb < 12 then bno == inodes[n].addrs[lb]
        else inodes[n].indir.Some? && lb - 12 < |inodes[n].indir.value| && bno == inodes[n].indir.value[lb - 12]
    {
      ghost var fs := Abs();
      assert InodeOk(fs, n);
      bno := 0;
      if lb < NDIRECT {
        ghost var one := Missing(fs, n, lb, lb + 1);
        assert one == if SlotPtr(fs, n, lb) == 0 then {lb} else {};
        ok := true;
        if inodes[n].addrs[lb] == 0 {
          ok := FillSlot(n, lb);
        } else {
          forall m: nat, i: nat ensures KeptAt(fs, fs, m, i) { }
          forall m: nat, s: nat ensures FilledAt(fs, fs, n, {lb}, m, s) { }
        }
        if ok {
          assert InodeOk(Abs(), n) && FilledAt(fs, Abs(), n, {lb}, n, lb);
          bno := inodes[n].addrs[lb];
        }
      } else {
        ok := MapIndirect(n, lb);
        if ok {
          assert InodeOk(Abs(), n) && FilledAt(fs, Abs(), n, Slots(lb), n, lb);
          bno := inodes[n].indir.value[lb - NDIRECT];
        }
      }
    }

    /** efs_i_bmap without alloc: the block of a logical block, 0 if it has none. */
    method FindBlock(n: nat, lb: nat) returns (bno: nat)
      requires Valid() && n in inodes
      modifies this`inodes
      ensures Valid() && Kept(old(Abs()), Abs()) && inodes.Keys == old(inodes.Keys)
      ensures bno == if lb < MAXFILE then SlotPtr(Abs(), n, lb) else 0
      ensures |inodes[n].addrs| == 13 && (lb < 12 ==> bno == inodes[n].addrs[lb])
      ensures 12 <= lb < 1036 ==> if inodes[n].addrs[12] == 0 then bno == 0
        else inodes[n].indir.Some? && lb - 12 < |inodes[n].indir.value| && bno == inodes[n].indir.value[lb - 12]
      ensures lb >= 1036 ==> bno == 0
    {
      ghost var fs := Abs();
      assert InodeOk(fs, n);
      forall m: nat, i: nat ensures KeptAt(fs, fs, m, i) { }
      if lb < NDIRECT {
        return inodes[n].addrs[lb];
      }
      bno := 0;
      if lb < MAXFILE {
        if inodes[n].addrs[NDIRECT] == 0 {
          return 0;
        }
        LoadTable(n);
        assert InodeOk(Abs(), n);
        bno := inodes[n].indir.value[lb - NDIRECT];
      }
    }

    /** efs_i_read: the bytes of the file from `offset`, as many as asked for and
        present; it never stops at an unmapped block. Arguments are 32 bits wide. */
    method Read(n: nat, offset: nat, len: nat) returns (out: seq<Byte>)
      requires Valid() && n in inodes && offset < 0x1_0000_0000 && len < 0x1_0000_0000
      modifies this`inodes
      ensures Valid() && forall m: nat :: Content(Abs(), m) == Content(old(Abs()), m)
      ensures var c := Content(old(Abs()), n);
              out == if offset >= |c| || offset + len >= 0x1_0000_0000 then []
                     else c[offset..if offset + len > |c| then |c| else offset + len]
    {
      ghost var fs := Abs();
      out := [];
      KeptContent(fs, fs) by { forall m: nat, i: nat ensures KeptAt(fs, fs, m, i) { } }
      if offset >= inodes[n].size || (offset + len) % 0x1_0000_0000 < offset {
        return;
      }
      var want := if offset + len > inodes[n].size then inodes[n].size - offset else len;
      out := ReadLoop(n, offset, want);
      KeptContent(fs, Abs());
    }

    /** The block-by-block loop of efs_i_read. */
    method ReadLoop(n: nat, start: nat, len: nat) returns (out: seq<Byte>)
      requires Valid() && n in inodes && start + len <= inodes[n].size
      modifies this`inodes
      ensures Valid() && Kept(old(Abs()), Abs())
      ensures out == Content(old(Abs()), n)[start..start + len]
    {
      ghost var fs := Abs();
      forall m: nat, i: nat ensures KeptAt(fs, fs, m, i) { }
      var tot, offset := 0, start;
      out := [];
      while tot < len
        invariant 0 <= tot <= len && offset == start + tot
        invariant Valid() && n in inodes && Kept(fs, Abs())
        invariant out == Content(fs, n)[start..offset]
      {
        var m := PieceLen(offset, len - tot);
        var piece := ReadRound(n, offset, m, fs);
        out := out + piece;
        tot, offset := tot + m, offset + m;
      }
    }

    /** One round of the loop of efs_i_read; the block is always mapped. */
    method ReadRound(n: nat, offset: nat, m: nat, ghost fs: Fs) returns (piece: seq<Byte>)
      requires Valid() && n in inodes && Inv(fs) && Kept(fs, Abs())
      requires 0 < m && offset + m <= Size(fs, n) && offset % BS + m <= BS
      modifies this`inodes
      ensures Valid() && n in inodes && Kept(fs, Abs())
      ensures piece == Content(fs, n)[offset..offset + m]
    {
      ghost var fs1 := Abs();
      var bno := FindBlock(n, offset / BS);
      KeptTwice(fs, fs1, Abs());
      assert ByteOk(fs, n, offset) && KeptAt(fs, Abs(), n, offset);
      assert bno != 0;  // the break on an unmapped block is not taken
      assert SlotOk(Abs(), n, offset / BS);
      PieceRead(fs, Abs(), n, offset, m);
      piece := disk[bno][offset % BS..offset % BS + m];
    }

    /** blk_write of one piece into the mapped block of logical block `lb`. */
    method PutPiece(n: nat, lb: nat, bno: nat, o: nat, piece: seq<Byte>)
      requires Valid() && lb < MAXFILE && bno == SlotPtr(Abs(), n, lb) && bno != 0 && o + |piece| <= BS
      modifies this`disk
      ensures Valid() && Abs() == Put(old(Abs()), bno, o, piece) && Filled(old(Abs()), Abs(), n, {})
    {
      ghost var fs := Abs();
      assert SlotOk(fs, n, lb);
      PutKeeps(fs, n, lb, o, piece);
      forall m: nat, s: nat ensures FilledAt(fs, Put(fs, bno, o, piece), n, {}, m, s) { PutPtr(fs, n, lb, o, piece, m, s); }
      disk := disk[bno := Patch(disk[bno], o, piece)];
      assert Abs() == Put(fs, bno, o, piece);
    }

    /** One round of the loop of efs_i_write: map the block, then write the piece. */
    method WriteRound(n: nat, start: nat, data: seq<Byte>, tot: nat, m: nat, ghost fs: Fs) returns (ok: bool)
      requires Valid() && n in inodes && start + |data| < MAXFILE * BS && tot + m <= |data| && 0 < m
      requires (start + tot) % BS + m <= BS && Wrote(fs, Abs(), n, start, data[..tot])
      modifies this, bmap, bmap.words
      ensures Valid() && n in inodes
      ensures var lb := (start + tot) / BS;
              && (ok <==> |Missing(old(Abs()), n, lb, lb + 1)| <= |old(bmap.Free())|)
              && (ok ==> |bmap.Free()| == |old(bmap.Free())| - |Missing(old(Abs()), n, lb, lb + 1)|)
              && (ok ==> Filled(old(Abs()), Abs(), n, Slots(lb)))
      ensures ok ==> Wrote(fs, Abs(), n, start, data[..tot + m])
    {
      ghost var fs0 := Abs();
      var lb, bno := (start + tot) / BS, 0;
      ok, bno := MapBlock(n, lb);
      if !ok {
        return;
      }
      ghost var fs1 := Abs();
      WroteKept(fs, fs0, fs1, n, start, data[..tot]);
      var piece := data[tot..tot + m];
      WrotePiece(fs, fs1, n, start, data[..tot], piece);
      PutPiece(n, lb, bno, (start + tot) % BS, piece);
      FilledTwice(fs0, fs1, Abs(), n, Slots(lb), {});
      assert Slots(lb) + {} == Slots(lb);
      assert data[..tot] + piece == data[..tot + m];
    }

    /** One round together with its account of free blocks. */
    method WriteTurn(n: nat, start: nat, data: seq<Byte>, tot: nat, ghost fs: Fs, ghost spare: int) returns (ok: bool)
      requires Valid() && n in inodes && start + |data| < MAXFILE * BS && tot < |data|
      requires Progress(fs, Abs(), n, start, data, tot, spare)
      modifies this, bmap, bmap.words
      ensures Valid() && n in inodes
      ensures !ok ==> spare < 0
      ensures ok ==> Progress(fs, Abs(), n, start, data, tot + PieceLen(start + tot, |data| - tot), spare)
    {
      ghost var fs1 := Abs();
      PieceBlocks(start, tot, |data|);
      ok := WriteRound(n, start, data, tot, PieceLen(start + tot, |data| - tot), fs);
      if ok {
        UntouchedNext(fs, fs1, Abs(), n, start / BS, LastBlock(start, |data|), (start + tot) / BS);
        MissingStep(fs1, Abs(), n, (start + tot) / BS, LastBlock(start, |data|));
      } else {
        MissingFirst(fs1, n, (start + tot) / BS, LastBlock(start, |data|));
      }
    }

    /** The block-by-block loop of efs_i_write; false is the panic of the block
        allocator. */
    method WriteLoop(n: nat, start: nat, data: seq<Byte>) returns (ok: bool)
      requires Valid() && n in inodes && start + |data| < MAXFILE * BS
      modifies this, bmap, bmap.words
      ensures Valid() && n in inodes
      ensures ok <==> data == [] || |Missing(old(Abs()), n, start / BS, LastBlock(start, |data|))| <= |old(bmap.Free())|
      ensures ok ==> Wrote(old(Abs()), Abs(), n, start, data) && Untouched(old(Abs()), Abs(), n, start / BS, LastBlock(start, |data|))
      ensures ok && data != [] ==>
        |bmap.Free()| == |old(bmap.Free())| - |Missing(old(Abs()), n, start / BS, LastBlock(start, |data|))|
    {
      ghost var fs := Abs();
      ghost var spare := |fs.free| - |Missing(fs, n, start / BS, LastBlock(start, |data|))|;
      WroteNone(fs, n, start);
      assert data[..0] == [];
      var tot, offset := 0, start;
      while tot < |data|
        invariant 0 <= tot <= |data| && offset == start + tot
        invariant Valid() && n in inodes && Progress(fs, Abs(), n, start, data, tot, spare)
      {
        var m := PieceLen(offset, |data| - tot);
        ok := WriteTurn(n, start, data, tot, fs, spare);
        if !ok {
          return;
        }
        tot, offset := tot + m, offset + m;
      }
      assert data[..tot] == data;
      ok := true;
    }

    /** efs_i_write: the file becomes the old bytes overwritten at `offset`, and no
        other file changes. A write past the end or wrapping around writes nothing;
        one that would reach the maximal size is refused; otherwise the only
        failure is the panic when the slots to fill outnumber the free blocks. */
    method Write(n: nat, offset: nat, data: seq<Byte>) returns (ok: bool, r: int)
      requires Valid() && n in inodes && offset < 0x1_0000_0000 && |data| < 0x1_0000_0000
      modifies this, bmap, bmap.words
      ensures Valid()
      ensures var fs, len := old(Abs()), |data|;
              var skip := offset > Size(fs, n) || offset + len >= 0x1_0000_0000;
              var refuse := offset + len >= MAXFILE * BS;
              && (ok <==> skip || refuse || len == 0
                          || |Missing(fs, n, offset / BS, LastBlock(offset, len))| <= |fs.free|)
              && (skip || refuse ==> r == (if skip then 0 else -1) && Abs() == fs)
              && (ok && !skip && !refuse ==>
                    && r == len && Content(Abs(), n) == Overwrite(Content(fs, n), offset, data)
                    && Untouched(fs, Abs(), n, offset / BS, LastBlock(offset, len))
                    && (len > 0 ==> |Abs().free| == |fs.free| - |Missing(fs, n, offset / BS, LastBlock(offset, len))|)
                    && forall m: nat :: m != n ==> Content(Abs(), m) == Content(fs, m))
    {
      ghost var fs := Abs();
      if offset > inodes[n].size || (offset + |data|) % 0x1_0000_0000 < offset {
        return true, 0;
      }
      if offset + |data| >= MAXFILE * BS {
        return true, -1;
      }
      r := 0;
      ok := WriteLoop(n, offset, data);
      if !ok {
        return;
      }
      ghost var fs1 := Abs();
      var end := offset + |data|;
      var size := if end > inodes[n].size then end else inodes[n].size;
      assert Size(fs1, n) == Size(fs, n);
      WroteDone(fs, fs1, n, offset, data, size);
      UntouchedGrow(fs, fs1, n, size, offset / BS, LastBlock(offset, |data|));
      inodes := inodes[n := inodes[n].(size := size)];
      assert Abs() == Grow(fs1, n, size);
      r := |data|;
    }

    /** efs_i_update writes the inode and its cached indirect block back: no file
        changes, and when the inode is read again from the disk every file is the same. */
    method Update(n: nat)
      requires Valid() && n in inodes
      modifies this`disk, this`area
      ensures Valid() && n in area && area == old(area)[n := DInode(inodes[n].size, inodes[n].addrs)]
      ensures forall m: nat :: Content(Abs(), m) == Content(old(Abs()), m)
      ensures Inv(Reread(Abs(), n, area[n])) && forall m: nat :: Content(Reread(Abs(), n, area[n]), m) == Content(old(Abs()), m)
    {
      ghost var fs := Abs();
      assert InodeOk(fs, n) && SlotOk(fs, n, TABLE);
      WriteBackKeeps(fs, n);
      area := area[n := DInode(inodes[n].size, inodes[n].addrs)];
      if inodes[n].indir.Some? {
        disk := disk[inodes[n].addrs[NDIRECT] := Encode(inodes[n].indir.value)];
      }
      assert Abs() == WriteBack(fs, n) && Reread(Abs(), n, area[n]) == Forget(Abs(), n);
    }
  }

  lemma {:induction false} ByteRead(fs: Fs, fs': Fs, n: nat, i: nat)
    requires Inv(fs) && Kept(fs, fs') && i < Size(fs, n)
    ensures DiskAt(fs'.disk, SlotPtr(fs', n, i / BS))[i % BS] == ByteAt(fs, n, i)
  {
    assert ByteOk(fs, n, i) && KeptAt(fs, fs', n, i);
  }

  /** A slice of one mapped block is a slice of the file. */
  lemma {:induction false} PieceRead(fs: Fs, fs': Fs, n: nat, offset: nat, m: nat)
    requires Inv(fs) && Kept(fs, fs') && offset + m <= Size(fs, n) && offset % BS + m <= BS
    ensures DiskAt(fs'.disk, SlotPtr(fs', n, offset / BS))[offset % BS..offset % BS + m] == Content(fs, n)[offset..offset + m]
  {
    var lb, o, c := offset / BS, offset % BS, Content(fs, n);
    var b := DiskAt(fs'.disk, SlotPtr(fs', n, lb));
    forall j: nat | j < m ensures AgreeAt(b, o, c, offset, j) { BlockByte(fs, fs', n, lb, o + j); }
    SlicesEqual(b, o, c, offset, m);
  }

  lemma {:induction false} BlockByte(fs: Fs, fs': Fs, n: nat, lb: nat, j: nat)
    requires Inv(fs) && Kept(fs, fs') && j < BS && lb * BS + j < Size(fs, n)
    ensures DiskAt(fs'.disk, SlotPtr(fs', n, lb))[j] == Content(fs, n)[lb * BS + j]
  {
    BlockIndex(lb, j);
    ByteRead(fs, fs', n, lb * BS + j);
  }

  ghost predicate AgreeAt(b: seq<Byte>, o: nat, c: seq<Byte>, p: nat, j: nat)
  {
    o + j < |b| && p + j < |c| ==> b[o + j] == c[p + j]
  }

  lemma {:induction false} SlicesEqual(b: seq<Byte>, o: nat, c: seq<Byte>, p: nat, m: nat)
    requires o + m <= |b| && p + m <= |c| && forall j: nat {:trigger AgreeAt(b, o, c, p, j)} :: j < m ==> AgreeAt(b, o, c, p, j)
    ensures b[o..o + m] == c[p..p + m]
  {
    var x, y := b[o..o + m], c[p..p + m];
    forall j: nat | j < m ensures x[j] == y[j] { assert AgreeAt(b, o, c, p, j); }
  }

  lemma {:induction false} BlockIndex(lb: nat, j: nat)
    requires j < BS
    ensures (lb * BS + j) / BS == lb && (lb * BS + j) % BS == j
  {
  }
}
