/** Inodes and their block pointers as values (fs/easyfs/inode.c): the slots of an
    inode, who owns each block, and what each elementary change does to the bytes
    of every file. */
module InodeMap {
  import opened Wrappers

  const BS: nat := 4096
  const NDIRECT: nat := 12
  const NINDIRECT: nat := 1024
  const MAXFILE: nat := 1036
  const TABLE: nat := 1036   // the slot of the indirect block itself

  type Byte = b: int | 0 <= b < 256
  type Block = b: seq<Byte> | |b| == BS witness seq(BS, _ => 0)

  function Zeros(k: nat): (z: seq<Byte>)
    ensures |z| == k && forall i :: 0 <= i < k ==> z[i] == 0
  {
    if k == 0 then [] else Zeros(k - 1) + [0]
  }

  function NoPtrs(k: nat): (z: seq<nat>)
    ensures |z| == k && forall i :: 0 <= i < k ==> z[i] == 0
  {
    if k == 0 then [] else NoPtrs(k - 1) + [0]
  }

  /** Thirteen pointers on disk; the indirect block is cached once it is needed. */
  datatype Inode = Inode(size: nat, addrs: seq<nat>, indir: Option<seq<nat>>)

  /** `struct easy_d_inode`: what the inode area of the disk holds of an inode. */
  datatype DInode = DInode(size: nat, addrs: seq<nat>)

  /** `owner` names, for each block in use by a file, the inode and slot using it. */
  datatype Fs = Fs(inodes: map<nat, Inode>, disk: seq<Block>, free: set<nat>, owner: map<nat, (nat, nat)>)

  // ----- The indirect block: 1024 little-endian words ------------------------

  function WordAt(b: Block, k: nat): nat
    requires k < NINDIRECT
  {
    var b0: int, b1: int, b2: int, b3: int := b[4 * k], b[4 * k + 1], b[4 * k + 2], b[4 * k + 3];
    b0 + 256 * b1 + 65536 * b2 + 16777216 * b3
  }

  function Decode(b: Block): (t: seq<nat>)
    ensures |t| == NINDIRECT
  {
    seq(NINDIRECT, k requires 0 <= k < NINDIRECT => WordAt(b, k))
  }

  function ByteOf(w: nat, k: nat): Byte
  {
    if k == 0 then w % 256 else if k == 1 then w / 256 % 256
    else if k == 2 then w / 256 / 256 % 256 else w / 256 / 256 / 256 % 256
  }

  function Encode(t: seq<nat>): (b: Block)
    requires |t| == NINDIRECT
  {
    seq(BS, i requires 0 <= i < BS => ByteOf(t[i / 4], i % 4))
  }

  lemma {:induction false} WordRoundTrip(w: nat)
    requires w < 0x1_0000_0000
    ensures (ByteOf(w, 0) as int) + 256 * (ByteOf(w, 1) as int) + 65536 * (ByteOf(w, 2) as int) + 16777216 * (ByteOf(w, 3) as int) == w
  {
    var a: nat := w / 256;
    var b: nat := a / 256;
    var c: nat := b / 256;
    assert w == 256 * a + w % 256 && a == 256 * b + a % 256 && b == 256 * c + b % 256;
  }

  lemma {:induction false} EncodedAt(t: seq<nat>, k: nat, j: nat)
    requires |t| == NINDIRECT && k < NINDIRECT && j < 4
    ensures Encode(t)[4 * k + j] == ByteOf(t[k], j)
  {
    assert (4 * k + j) / 4 == k && (4 * k + j) % 4 == j;
  }

  lemma {:induction false} TableRoundTrip(t: seq<nat>)
    requires |t| == NINDIRECT && forall k :: 0 <= k < NINDIRECT ==> t[k] < 0x1_0000_0000
    ensures Decode(Encode(t)) == t
  {
    forall k: nat | k < NINDIRECT ensures Decode(Encode(t))[k] == t[k] {
      WordRoundTrip(t[k]);
      EncodedAt(t, k, 0);
      EncodedAt(t, k, 1);
      EncodedAt(t, k, 2);
      EncodedAt(t, k, 3);
    }
  }

  lemma {:induction false} DecodeZero()
    ensures Decode(Zeros(BS)) == NoPtrs(NINDIRECT)
  {
    forall k: nat | k < NINDIRECT ensures Decode(Zeros(BS))[k] == 0 {
      assert Zeros(BS)[4 * k] == 0 && Zeros(BS)[4 * k + 1] == 0 && Zeros(BS)[4 * k + 2] == 0 && Zeros(BS)[4 * k + 3] == 0;
    }
  }

  // ----- Pointers and bytes --------------------------------------------------

  function DiskAt(disk: seq<Block>, b: nat): Block
  {
    if b < |disk| then disk[b] else Zeros(BS)
  }

  /** The indirect pointers: from memory if loaded, else from disk. */
  function Table(i: Inode, disk: seq<Block>): (t: seq<nat>)
  {
    if i.indir.Some? then i.indir.value
    else if |i.addrs| <= NDIRECT || i.addrs[NDIRECT] == 0 then NoPtrs(NINDIRECT)
    else Decode(DiskAt(disk, i.addrs[NDIRECT]))
  }

  /** The block in slot `s`: logical blocks 0..1035, then the indirect block. 0 is none. */
  function Ptr(i: Inode, disk: seq<Block>, s: nat): nat
  {
    if |i.addrs| != NDIRECT + 1 then 0
    else if s < NDIRECT then i.addrs[s]
    else if s == TABLE then i.addrs[NDIRECT]
    else if s - NDIRECT < |Table(i, disk)| then Table(i, disk)[s - NDIRECT]
    else 0
  }

  /** Where the block pointers of an inode are: twelve in the inode, then 1024 words of
      four bytes, least significant first, in the block that the thirteenth names. */
  lemma {:induction false} PtrLayout(i: Inode, disk: seq<Block>, s: nat)
    requires |i.addrs| == 13
    ensures s < 12 ==> Ptr(i, disk, s) == i.addrs[s]
    ensures s == 1036 ==> Ptr(i, disk, s) == i.addrs[12]
    ensures 12 <= s < 1036 && i.indir.Some? && |i.indir.value| == 1024 ==> Ptr(i, disk, s) == i.indir.value[s - 12]
    ensures 12 <= s < 1036 && i.indir.None? && i.addrs[12] == 0 ==> Ptr(i, disk, s) == 0
    ensures 12 <= s < 1036 && i.indir.None? && 0 < i.addrs[12] < |disk| ==>
      var (b, k) := (disk[i.addrs[12]], 4 * (s - 12));
      Ptr(i, disk, s) == (b[k] as int) + 256 * (b[k + 1] as int) + 65536 * (b[k + 2] as int) + 16777216 * (b[k + 3] as int)
  {
  }

  function SlotPtr(fs: Fs, n: nat, s: nat): nat
  {
    if n in fs.inodes then Ptr(fs.inodes[n], fs.disk, s) else 0
  }

  /** Byte `i` of file `n`, if its logical block is mapped. */
  function At(fs: Fs, n: nat, i: nat): Option<Byte>
  {
    if i / BS < MAXFILE && SlotPtr(fs, n, i / BS) != 0
    then Some(DiskAt(fs.disk, SlotPtr(fs, n, i / BS))[i % BS]) else None
  }

  function Size(fs: Fs, n: nat): nat
  {
    if n in fs.inodes then fs.inodes[n].size else 0
  }

  function ByteAt(fs: Fs, n: nat, i: nat): Byte
  {
    if At(fs, n, i).Some? then At(fs, n, i).value else 0
  }

  /** The file as a byte sequence. */
  function Content(fs: Fs, n: nat): (c: seq<Byte>)
    ensures |c| == Size(fs, n)
  {
    seq(Size(fs, n), (i: nat) => ByteAt(fs, n, i))
  }

  // ----- The invariant -------------------------------------------------------

  ghost predicate SlotOk(fs: Fs, n: nat, s: nat)
  {
    var p := SlotPtr(fs, n, s);
    p != 0 ==> p < |fs.disk| && p in fs.owner && fs.owner[p] == (n, s)
  }

  ghost predicate BlockOk(fs: Fs, b: nat)
  {
    && (b in fs.owner ==> b !in fs.free)
    && (b in fs.free ==> 0 < b < |fs.disk| && fs.disk[b] == Zeros(BS))
  }

  predicate InodeOk(fs: Fs, n: nat)
  {
    n in fs.inodes ==>
      var i := fs.inodes[n];
      && |i.addrs| == NDIRECT + 1 && i.size < MAXFILE * BS
      && (i.indir.Some? ==> |i.indir.value| == NINDIRECT && i.addrs[NDIRECT] != 0)
  }

  ghost predicate ByteOk(fs: Fs, n: nat, i: nat)
  {
    i < Size(fs, n) ==> At(fs, n, i).Some?
  }

  ghost predicate Inv(fs: Fs)
  {
    && |fs.disk| < 0x8000_0000
    && (forall n: nat, s: nat {:trigger SlotOk(fs, n, s)} :: SlotOk(fs, n, s))
    && (forall b: nat {:trigger BlockOk(fs, b)} :: BlockOk(fs, b))
    && (forall n: nat {:trigger InodeOk(fs, n)} :: InodeOk(fs, n))
    && (forall n: nat, i: nat {:trigger ByteOk(fs, n, i)} :: ByteOk(fs, n, i))
  }

  /** No physical block serves two slots of any files, and none in use is free. */
  lemma {:induction false} BlocksUnshared(fs: Fs, n: nat, s: nat, n': nat, s': nat)
    requires Inv(fs) && SlotPtr(fs, n, s) != 0 && (n, s) != (n', s')
    ensures SlotPtr(fs, n, s) != SlotPtr(fs, n', s') && SlotPtr(fs, n, s) !in fs.free
  {
    assert SlotOk(fs, n, s) && SlotOk(fs, n', s') && BlockOk(fs, SlotPtr(fs, n, s));
  }

  // ----- Giving a free block to an empty slot --------------------------------

  function WithPtr(i: Inode, s: nat, b: nat): Inode
  {
    if |i.addrs| != NDIRECT + 1 then i
    else if s < NDIRECT then i.(addrs := i.addrs[s := b])
    else if s == TABLE then i.(addrs := i.addrs[NDIRECT := b])
    else if i.indir.Some? && s - NDIRECT < |i.indir.value| then i.(indir := Some(i.indir.value[s - NDIRECT := b]))
    else i
  }

  function Assign(fs: Fs, n: nat, s: nat, b: nat): Fs
  {
    if n in fs.inodes then
      fs.(inodes := fs.inodes[n := WithPtr(fs.inodes[n], s, b)], free := fs.free - {b}, owner := fs.owner[b := (n, s)])
    else fs
  }

  /** The slot can be filled: it is empty, and an indirect one has its table loaded. */
  ghost predicate CanAssign(fs: Fs, n: nat, s: nat, b: nat)
  {
    && n in fs.inodes && s <= TABLE && b in fs.free && SlotPtr(fs, n, s) == 0
    && (NDIRECT <= s < TABLE ==> fs.inodes[n].indir.Some?)
  }

  lemma {:induction false} AssignPtr(fs: Fs, n: nat, s: nat, b: nat, m: nat, t: nat)
    requires Inv(fs) && CanAssign(fs, n, s, b)
    ensures SlotPtr(Assign(fs, n, s, b), m, t) == if m == n && t == s then b else SlotPtr(fs, m, t)
  {
    assert InodeOk(fs, n) && BlockOk(fs, b);
    if s == TABLE { DecodeZero(); }
  }

  lemma {:induction false} AssignKeeps(fs: Fs, n: nat, s: nat, b: nat)
    requires Inv(fs) && CanAssign(fs, n, s, b)
    ensures Inv(Assign(fs, n, s, b))
    ensures forall m: nat, i: nat {:trigger At(Assign(fs, n, s, b), m, i)} ::
              At(fs, m, i).Some? ==> At(Assign(fs, n, s, b), m, i) == At(fs, m, i)
  {
    var fs' := Assign(fs, n, s, b);
    assert BlockOk(fs, b) && InodeOk(fs, n);
    forall m: nat, t: nat ensures SlotOk(fs', m, t) {
      AssignPtr(fs, n, s, b, m, t);
      assert SlotOk(fs, m, t);
    }
    forall c: nat ensures BlockOk(fs', c) { assert BlockOk(fs, c); }
    forall m: nat ensures InodeOk(fs', m) { assert InodeOk(fs, m); }
    forall m: nat, i: nat ensures At(fs, m, i).Some? ==> At(fs', m, i) == At(fs, m, i) {
      AssignPtr(fs, n, s, b, m, i / BS);
    }
    forall m: nat, i: nat ensures ByteOk(fs', m, i) { assert ByteOk(fs, m, i); }
  }

  // ----- Loading the indirect block ------------------------------------------

  function Load(fs: Fs, n: nat): Fs
  {
    if n in fs.inodes then fs.(inodes := fs.inodes[n := fs.inodes[n].(indir := Some(Table(fs.inodes[n], fs.disk)))]) else fs
  }

  lemma {:induction false} LoadKeeps(fs: Fs, n: nat)
    requires Inv(fs) && n in fs.inodes && SlotPtr(fs, n, TABLE) != 0
    ensures Inv(Load(fs, n))
    ensures forall m: nat, s: nat {:trigger SlotPtr(Load(fs, n), m, s)} :: SlotPtr(Load(fs, n), m, s) == SlotPtr(fs, m, s)
    ensures forall m: nat, i: nat {:trigger At(Load(fs, n), m, i)} :: At(Load(fs, n), m, i) == At(fs, m, i)
  {
    var fs' := Load(fs, n);
    assert InodeOk(fs, n);
    forall m: nat, s: nat ensures SlotOk(fs', m, s) { assert SlotOk(fs, m, s); }
    forall b: nat ensures BlockOk(fs', b) { assert BlockOk(fs, b); }
    forall m: nat ensures InodeOk(fs', m) { assert InodeOk(fs, m); }
    forall m: nat, i: nat ensures ByteOk(fs', m, i) { assert ByteOk(fs, m, i); }
  }

  // ----- Writing bytes into a mapped block -----------------------------------

  function Patch(b: Block, o: nat, d: seq<Byte>): (r: Block)
    requires o + |d| <= BS
    ensures forall k :: 0 <= k < BS ==> r[k] == if o <= k < o + |d| then d[k - o] else b[k]
  {
    b[..o] + d + b[o + |d|..]
  }

  function Put(fs: Fs, b: nat, o: nat, d: seq<Byte>): Fs
    requires o + |d| <= BS
  {
    if b < |fs.disk| then fs.(disk := fs.disk[b := Patch(fs.disk[b], o, d)]) else fs
  }

  /** A disk write moves no pointer of an inode whose indirect block it spares. */
  lemma {:induction false} PtrSpared(i: Inode, disk: seq<Block>, disk': seq<Block>, t: nat)
    requires |i.addrs| == NDIRECT + 1
    requires i.indir.Some? || i.addrs[NDIRECT] == 0 || DiskAt(disk', i.addrs[NDIRECT]) == DiskAt(disk, i.addrs[NDIRECT])
    ensures Ptr(i, disk', t) == Ptr(i, disk, t)
  {
  }

  lemma {:induction false} PutPtr(fs: Fs, n: nat, s: nat, o: nat, d: seq<Byte>, m: nat, t: nat)
    requires Inv(fs) && s < MAXFILE && SlotPtr(fs, n, s) != 0 && o + |d| <= BS
    ensures SlotPtr(Put(fs, SlotPtr(fs, n, s), o, d), m, t) == SlotPtr(fs, m, t)
  {
    if m in fs.inodes {
      assert SlotOk(fs, n, s) && SlotOk(fs, m, TABLE) && InodeOk(fs, m);
      PtrSpared(fs.inodes[m], fs.disk, Put(fs, SlotPtr(fs, n, s), o, d).disk, t);
    }
  }

  lemma {:induction false} PutAt(fs: Fs, n: nat, s: nat, o: nat, d: seq<Byte>, m: nat, i: nat)
    requires Inv(fs) && s < MAXFILE && SlotPtr(fs, n, s) != 0 && o + |d| <= BS
    ensures At(Put(fs, SlotPtr(fs, n, s), o, d), m, i) ==
      if m == n && s * BS + o <= i < s * BS + o + |d| then Some(d[i - s * BS - o]) else At(fs, m, i)
  {
    PutPtr(fs, n, s, o, d, m, i / BS);
    assert SlotOk(fs, n, s) && SlotOk(fs, m, i / BS);
  }

  lemma {:induction false} PutKeeps(fs: Fs, n: nat, s: nat, o: nat, d: seq<Byte>)
    requires Inv(fs) && s < MAXFILE && SlotPtr(fs, n, s) != 0 && o + |d| <= BS
    ensures Inv(Put(fs, SlotPtr(fs, n, s), o, d))
  {
    var fs' := Put(fs, SlotPtr(fs, n, s), o, d);
    assert SlotOk(fs, n, s);
    forall m: nat, t: nat ensures SlotOk(fs', m, t) {
      PutPtr(fs, n, s, o, d, m, t);
      assert SlotOk(fs, m, t);
    }
    forall b: nat ensures BlockOk(fs', b) { assert BlockOk(fs, b); }
    forall m: nat ensures InodeOk(fs', m) { assert InodeOk(fs, m); }
    forall m: nat, i: nat ensures ByteOk(fs', m, i) {
      PutAt(fs, n, s, o, d, m, i);
      assert ByteOk(fs, m, i);
    }
  }

  // ----- Growing a file ------------------------------------------------------

  function Grow(fs: Fs, n: nat, size: nat): Fs
  {
    if n in fs.inodes then fs.(inodes := fs.inodes[n := fs.inodes[n].(size := size)]) else fs
  }

  lemma {:induction false} GrowKeeps(fs: Fs, n: nat, size: nat)
    requires Inv(fs) && n in fs.inodes && size < MAXFILE * BS
    requires forall i: nat {:trigger At(fs, n, i)} :: i < size ==> At(fs, n, i).Some?
    ensures Inv(Grow(fs, n, size))
    ensures forall m: nat, i: nat {:trigger At(Grow(fs, n, size), m, i)} :: At(Grow(fs, n, size), m, i) == At(fs, m, i)
  {
    var fs' := Grow(fs, n, size);
    assert InodeOk(fs, n);
    forall m: nat, s: nat ensures SlotPtr(fs', m, s) == SlotPtr(fs, m, s) { }
    forall m: nat, s: nat ensures SlotOk(fs', m, s) { assert SlotOk(fs, m, s); }
    forall b: nat ensures BlockOk(fs', b) { assert BlockOk(fs, b); }
    forall m: nat ensures InodeOk(fs', m) { assert InodeOk(fs, m); }
    forall m: nat, i: nat ensures ByteOk(fs', m, i) {
      assert ByteOk(fs, m, i);
      assert At(fs', m, i) == At(fs, m, i);
    }
  }

  // ----- Writing the indirect block back -------------------------------------

  function WriteBack(fs: Fs, n: nat): Fs
  {
    if n in fs.inodes && InodeOk(fs, n) && fs.inodes[n].indir.Some? && fs.inodes[n].addrs[NDIRECT] < |fs.disk|
    then fs.(disk := fs.disk[fs.inodes[n].addrs[NDIRECT] := Encode(fs.inodes[n].indir.value)]) else fs
  }

  /** efs_i_fill into an inode that is not in memory */
  function FromDisk(d: DInode): Inode { Inode(d.size, d.addrs, None) }

  /** The files after inode `n` left memory and was read again as `d`. */
  function Reread(fs: Fs, n: nat, d: DInode): Fs { fs.(inodes := fs.inodes[n := FromDisk(d)]) }

  /** The inode with its cached table dropped. */
  function Forget(fs: Fs, n: nat): Fs
  {
    if n in fs.inodes then fs.(inodes := fs.inodes[n := fs.inodes[n].(indir := None)]) else fs
  }

  lemma {:induction false} LoadedRoundTrip(fs: Fs, n: nat)
    requires Inv(fs) && n in fs.inodes && fs.inodes[n].indir.Some?
    ensures |fs.inodes[n].indir.value| == NINDIRECT
    ensures Decode(Encode(fs.inodes[n].indir.value)) == fs.inodes[n].indir.value
  {
    assert InodeOk(fs, n);
    var t := fs.inodes[n].indir.value;
    forall k | 0 <= k < NINDIRECT ensures t[k] < 0x1_0000_0000 {
      assert SlotOk(fs, n, NDIRECT + k);
      assert SlotPtr(fs, n, NDIRECT + k) == t[k];
    }
    TableRoundTrip(t);
  }

  lemma {:induction false} WriteBackPtr(fs: Fs, n: nat, m: nat, s: nat)
    requires Inv(fs) && n in fs.inodes
    ensures SlotPtr(WriteBack(fs, n), m, s) == SlotPtr(fs, m, s)
  {
    if m in fs.inodes {
      assert InodeOk(fs, n) && InodeOk(fs, m) && SlotOk(fs, n, TABLE) && SlotOk(fs, m, TABLE);
      PtrSpared(fs.inodes[m], fs.disk, WriteBack(fs, n).disk, s);
    }
  }

  lemma {:induction false} ForgetPtr(fs: Fs, n: nat, m: nat, s: nat)
    requires Inv(fs) && n in fs.inodes
    ensures SlotPtr(Forget(WriteBack(fs, n), n), m, s) == SlotPtr(WriteBack(fs, n), m, s)
  {
    assert InodeOk(fs, n) && SlotOk(fs, n, TABLE);
    if m == n && fs.inodes[n].indir.Some? { LoadedRoundTrip(fs, n); }
  }

  lemma {:induction false} WriteBackKeeps(fs: Fs, n: nat)
    requires Inv(fs) && n in fs.inodes
    ensures Inv(WriteBack(fs, n)) && Inv(Forget(WriteBack(fs, n), n))
    ensures forall m: nat :: Content(WriteBack(fs, n), m) == Content(fs, m)
    ensures forall m: nat :: Content(Forget(WriteBack(fs, n), n), m) == Content(fs, m)
  {
    var fs1 := WriteBack(fs, n);
    var fs2 := Forget(fs1, n);
    assert InodeOk(fs, n) && SlotOk(fs, n, TABLE);
    forall m: nat, s: nat ensures SlotPtr(fs1, m, s) == SlotPtr(fs, m, s) && SlotPtr(fs2, m, s) == SlotPtr(fs, m, s) {
      WriteBackPtr(fs, n, m, s);
      ForgetPtr(fs, n, m, s);
    }
    forall m: nat, s: nat ensures SlotOk(fs1, m, s) && SlotOk(fs2, m, s) { assert SlotOk(fs, m, s); }
    forall b: nat ensures BlockOk(fs1, b) && BlockOk(fs2, b) { assert BlockOk(fs, b); }
    forall m: nat ensures InodeOk(fs1, m) && InodeOk(fs2, m) { assert InodeOk(fs, m); }
    forall m: nat, i: nat ensures At(fs1, m, i) == At(fs, m, i) && At(fs2, m, i) == At(fs, m, i) {
      assert SlotOk(fs, m, i / BS);
    }
    forall m: nat, i: nat ensures ByteOk(fs1, m, i) && ByteOk(fs2, m, i) { assert ByteOk(fs, m, i); }
  }
}
