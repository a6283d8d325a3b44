// The write-back block cache (kernel/dev/blk/buf.c, gendisk.c, flush.c). One
// piece of a request and the write-back of one buffer are single steps;
// `ll_rw` transfers one whole block.
module BlockCache {
  import opened Bio
  import opened Queues
  import opened Links

  type Block = seq<int>

  function ZeroPage(): (z: Block)
    ensures |z| == BLK
  {
    seq(BLK, _ => 0)
  }

  /** `struct buf_head`: page, BH_New and BH_Dirty. */
  datatype Buf = Buf(data: Block, isNew: bool, dirty: bool)

  /** Disk, hash table of buffers and dirty list, most recent first. */
  datatype State = State(disk: map<nat, Block>, bufs: map<nat, Buf>, dirty: seq<nat>)

  // ----- steps -----

  /** buf_get: the buffer of a block, created if there is none. */
  function BufGet(s: State, b: nat): State
  {
    if b in s.bufs then s else s.(bufs := s.bufs[b := Buf(ZeroPage(), true, false)])
  }

  /** ll_rw(DEV_READ) into the buffer, for a new buffer only. */
  function Fill(s: State, b: nat): State
    requires b in s.bufs && b in s.disk
  {
    if s.bufs[b].isNew then s.(bufs := s.bufs[b := s.bufs[b].(data := s.disk[b])]) else s
  }

  /** buf_release */
  function BufRelease(s: State, b: nat, isDirty: bool): State
    requires b in s.bufs
  {
    var u := s.bufs[b].(isNew := false);
    if isDirty then State(s.disk, s.bufs[b := u.(dirty := true)], [b] + Without<nat>(s.dirty, b))
    else s.(bufs := s.bufs[b := u])
  }

  function ReadPiece(s: State, p: Piece): State
    requires p.blockno in s.disk
  {
    BufRelease(Fill(BufGet(s, p.blockno), p.blockno), p.blockno, false)
  }

  /** Overwrite part of a page. */
  function Patch(d: Block, off: nat, bytes: seq<int>): Block
  {
    if off + |bytes| <= |d| then d[..off] + bytes + d[off + |bytes|..] else d
  }

  /** A whole-block write does not read the block first. */
  function WritePiece(s: State, p: Piece, bytes: seq<int>): State
    requires p.blockno in s.disk && |bytes| == p.len && p.offset + p.len <= BLK
  {
    var s1 := BufGet(s, p.blockno);
    var s2 := if p.offset == 0 && p.len == BLK then s1 else Fill(s1, p.blockno);
    var u := s2.bufs[p.blockno];
    BufRelease(s2.(bufs := s2.bufs[p.blockno := u.(data := Patch(u.data, p.offset, bytes))]), p.blockno, true)
  }

  /** flush_bhash: write back the first buffer of the dirty list. */
  function FlushOne(s: State): State
  {
    if s.dirty == [] || s.dirty[0] !in s.bufs then s
    else
      var b := s.dirty[0];
      State(s.disk[b := s.bufs[b].data], s.bufs[b := s.bufs[b].(dirty := false)], s.dirty[1..])
  }

  /** The page a write starts from. */
  function WriteBase(s: State, p: Piece): Block
    requires p.blockno in s.disk
  {
    if p.blockno in s.bufs && !s.bufs[p.blockno].isNew then s.bufs[p.blockno].data
    else if !(p.offset == 0 && p.len == BLK) then s.disk[p.blockno]
    else if p.blockno in s.bufs then s.bufs[p.blockno].data else ZeroPage()
  }

  lemma {:induction false} WriteResult(s: State, p: Piece, bytes: seq<int>)
    requires p.blockno in s.disk && |bytes| == p.len && p.offset + p.len <= BLK
    ensures WritePiece(s, p, bytes) ==
      State(s.disk, s.bufs[p.blockno := Buf(Patch(WriteBase(s, p), p.offset, bytes), false, true)],
            [p.blockno] + Without<nat>(s.dirty, p.blockno))
  {
  }

  // ----- invariant and view -----

  /** A cached block that may differ from the disk is marked and listed as dirty;
      a new buffer holds nothing yet. */
  ghost predicate BlockOk(s: State, b: nat)
  {
    && (b in s.disk ==> |s.disk[b]| == BLK)
    && (b in s.dirty ==> b in s.bufs)
    && (b in s.bufs ==>
         && b in s.disk && |s.bufs[b].data| == BLK
         && (s.bufs[b].dirty <==> b in s.dirty)
         && (s.bufs[b].isNew ==> !s.bufs[b].dirty)
         && (!s.bufs[b].isNew && !s.bufs[b].dirty ==> s.bufs[b].data == s.disk[b]))
  }

  ghost predicate Inv(s: State)
  {
    NoDup(s.dirty) && forall b: nat {:trigger BlockOk(s, b)} :: BlockOk(s, b)
  }

  /** The block a reader gets. */
  ghost function View(s: State, b: nat): Block
  {
    if b in s.bufs && !s.bufs[b].isNew then s.bufs[b].data else if b in s.disk then s.disk[b] else []
  }

  ghost predicate SameView(s: State, s': State)
  {
    s'.disk.Keys == s.disk.Keys && forall b: nat {:trigger View(s', b)} :: View(s', b) == View(s, b)
  }

  // ----- each step -----

  lemma {:induction false} ReadPieceKeeps(s: State, p: Piece)
    requires Inv(s) && p.blockno in s.disk
    ensures var s' := ReadPiece(s, p);
      Inv(s') && SameView(s, s') && p.blockno in s'.bufs && s'.bufs[p.blockno].data == View(s, p.blockno)
  {
    var s' := ReadPiece(s, p);
    assert BlockOk(s, p.blockno);
    forall b: nat ensures BlockOk(s', b) && View(s', b) == View(s, b) { assert BlockOk(s, b); }
  }

  lemma {:induction false} WritePieceKeeps(s: State, p: Piece, bytes: seq<int>)
    requires Inv(s) && p.blockno in s.disk && |bytes| == p.len && p.offset + p.len <= BLK
    ensures var s' := WritePiece(s, p, bytes);
      && Inv(s') && s'.disk == s.disk && |View(s, p.blockno)| == BLK
      && forall b: nat {:trigger View(s', b)} ::
           View(s', b) == if b == p.blockno then Patch(View(s, b), p.offset, bytes) else View(s, b)
  {
    var s' := WritePiece(s, p, bytes);
    assert BlockOk(s, p.blockno);
    Unlinked<nat>(s.dirty, p.blockno);
    if p.offset == 0 && p.len == BLK { WholePatch(View(s, p.blockno), s'.bufs[p.blockno].data, bytes); }
    forall b: nat ensures BlockOk(s', b) && (b != p.blockno ==> View(s', b) == View(s, b)) { assert BlockOk(s, b); }
  }

  /** Patching a whole block forgets what was there. */
  lemma {:induction false} WholePatch(d: Block, d': Block, bytes: seq<int>)
    requires |d| == BLK && |bytes| == BLK
    ensures Patch(d, 0, bytes) == bytes
    ensures forall x: Block :: |x| == BLK ==> Patch(x, 0, bytes) == bytes
  {
  }

  lemma {:induction false} FlushKeeps(s: State)
    requires Inv(s)
    ensures Inv(FlushOne(s)) && SameView(s, FlushOne(s))
    ensures s.dirty != [] ==> FlushOne(s).dirty == s.dirty[1..]
  {
    var s' := FlushOne(s);
    if s.dirty != [] {
      var b0 := s.dirty[0];
      assert s.dirty == [b0] + s.dirty[1..];
      assert BlockOk(s, b0);
      forall b: nat ensures BlockOk(s', b) && View(s', b) == View(s, b) { assert BlockOk(s, b); }
    }
  }

  // ----- the flat disk -----

  /** Byte `a` of the device as every reader sees it. */
  ghost function Byte(s: State, a: nat): int
  {
    var d := View(s, a / BLK);
    if a % BLK < |d| then d[a % BLK] else 0
  }

  ghost predicate SameBytes(s: State, s': State)
  {
    s'.disk.Keys == s.disk.Keys && forall a: nat {:trigger Byte(s', a)} :: Byte(s', a) == Byte(s, a)
  }

  lemma {:induction false} SameViewBytes(s: State, s': State)
    requires SameView(s, s')
    ensures SameBytes(s, s')
  {
  }

  /** The `n` bytes of the device from address `a`. */
  ghost function Flat(s: State, a: nat, n: nat): (r: seq<int>)
    ensures |r| == n && forall i :: 0 <= i < n ==> r[i] == Byte(s, a + i)
  {
    seq(n, i requires 0 <= i < n => Byte(s, a + i))
  }

  lemma {:induction false} FlatJoin(s: State, a: nat, n: nat, m: nat)
    ensures Flat(s, a, n) + Flat(s, a + n, m) == Flat(s, a, n + m)
  {
  }

  lemma {:induction false} FlatSame(s: State, s': State, a: nat, n: nat)
    requires SameBytes(s, s')
    ensures Flat(s', a, n) == Flat(s, a, n)
  {
    forall i | 0 <= i < n ensures Flat(s', a, n)[i] == Flat(s, a, n)[i] { assert Byte(s', a + i) == Byte(s, a + i); }
  }

  /** Reading a piece yields the flat bytes at its address. */
  lemma {:induction false} ReadPieceBytes(s: State, p: Piece)
    requires Inv(s) && p.blockno in s.disk && p.offset + p.len <= BLK
    ensures var s' := ReadPiece(s, p);
      && Inv(s') && SameBytes(s, s') && p.blockno in s'.bufs && |s'.bufs[p.blockno].data| == BLK
      && s'.bufs[p.blockno].data[p.offset..p.offset + p.len] == Flat(s, Addr(p), p.len)
  {
    ReadPieceKeeps(s, p);
    var s' := ReadPiece(s, p);
    SameViewBytes(s, s');
    assert BlockOk(s', p.blockno);
    var (d, f) := (s'.bufs[p.blockno].data[p.offset..p.offset + p.len], Flat(s, Addr(p), p.len));
    forall j | 0 <= j < p.len ensures d[j] == f[j] {
      assert (Addr(p) + j) / BLK == p.blockno && (Addr(p) + j) % BLK == p.offset + j;
    }
  }

  /** Writing a piece changes the flat bytes at its address and no others. */
  lemma {:induction false} WritePieceBytes(s: State, p: Piece, bytes: seq<int>)
    requires Inv(s) && p.blockno in s.disk && |bytes| == p.len && p.offset + p.len <= BLK
    ensures var s' := WritePiece(s, p, bytes);
      && Inv(s') && s'.disk == s.disk
      && forall a: nat {:trigger Byte(s', a)} ::
           Byte(s', a) == if Addr(p) <= a < Addr(p) + p.len then bytes[a - Addr(p)] else Byte(s, a)
  {
    WritePieceKeeps(s, p, bytes);
    var s' := WritePiece(s, p, bytes);
    forall a: nat ensures Byte(s', a) == if Addr(p) <= a < Addr(p) + p.len then bytes[a - Addr(p)] else Byte(s, a) {
      if a / BLK == p.blockno {
        PatchedByte(View(s, p.blockno), View(s', p.blockno), p, bytes, a);
      } else {
        assert View(s', a / BLK) == View(s, a / BLK);
        OtherBlock(p, a);
      }
    }
  }

  lemma {:induction false} OtherBlock(p: Piece, a: nat)
    requires a / BLK != p.blockno && p.offset + p.len <= BLK
    ensures !(Addr(p) <= a < Addr(p) + p.len)
  {
  }

  lemma {:induction false} PatchedByte(d: Block, d': Block, p: Piece, bytes: seq<int>, a: nat)
    requires |d| == BLK && d' == Patch(d, p.offset, bytes) && |bytes| == p.len && p.offset + p.len <= BLK && a / BLK == p.blockno
    ensures |d'| == BLK && d'[a % BLK] == if Addr(p) <= a < Addr(p) + p.len then bytes[a - Addr(p)] else d[a % BLK]
  {
    assert a == p.blockno * BLK + a % BLK;
    PatchAt(d, p.offset, bytes, a % BLK);
  }

  lemma {:induction false} PatchAt(d: Block, off: nat, bytes: seq<int>, i: nat)
    requires off + |bytes| <= |d| && i < |d|
    ensures |Patch(d, off, bytes)| == |d|
    ensures Patch(d, off, bytes)[i] == if off <= i < off + |bytes| then bytes[i - off] else d[i]
  {
  }

  // ----- write-back -----

  function Flush(s: State, n: nat): State
    decreases n
  {
    if n == 0 then s else Flush(FlushOne(s), n - 1)
  }

  lemma {:induction false} FlushManyKeeps(s: State, n: nat)
    requires Inv(s)
    ensures Inv(Flush(s, n)) && SameBytes(s, Flush(s, n)) && SameView(s, Flush(s, n))
    ensures |Flush(s, n).dirty| == if n <= |s.dirty| then |s.dirty| - n else 0
    decreases n
  {
    if n > 0 {
      FlushKeeps(s);
      SameViewBytes(s, FlushOne(s));
      FlushManyKeeps(FlushOne(s), n - 1);
    }
  }

  /** Draining the list with no write in between makes the disk equal the view. */
  lemma {:induction false} DrainSyncs(s: State, b: nat)
    requires Inv(s) && b in s.disk
    ensures var s' := Flush(s, |s.dirty|);
      s'.dirty == [] && b in s'.disk && s'.disk[b] == View(s', b) == View(s, b)
  {
    FlushManyKeeps(s, |s.dirty|);
    var s' := Flush(s, |s.dirty|);
    assert BlockOk(s', b);
  }

  // ----- the dirty list as linked nodes -----

  /** The head of the dirty list; the node of a buffer goes by its block number. */
  const HEAD: int := -1

  /** The nodes form the list `q`, and every other node is linked to itself. */
  ghost predicate Tied(l: Links<int>, q: seq<nat>)
  {
    Ring(l, HEAD, q) && forall b: nat {:trigger Self(l, b)} :: b !in q ==> Self(l, b)
  }

  /** buf_release of a dirty buffer: unlinked first, if anything is listed at all. */
  function Relist(l: Links<int>, b: nat): Links<int>
  {
    AddHead(if Empty(l, HEAD) then l else DelInit(l, b), b, HEAD)
  }

  lemma {:induction false} TiedUnlink(l: Links<int>, q: seq<nat>, b: nat)
    requires Tied(l, q)
    ensures Tied(DelInit(l, b), Without<nat>(q, b)) && Self(DelInit(l, b), b)
  {
    var l' := DelInit(l, b);
    Unlinked<nat>(q, b);
    if b in q {
      var k: nat :| k < |q| && q[k] == b;
      WithoutAt<nat>(q, k);
      DelInitRing(l, HEAD, q, k);
      forall c: nat | c !in Without<nat>(q, b) ensures Self(l', c) {
        if c != b { DelInitTouches(l, HEAD, q, k, c); assert Self(l, c); }
      }
    } else {
      WithoutAbsent<nat>(q, b);
      assert Self(l, b);
      forall c: int ensures SameAt(l, l', c) { DelSelf(l, b, c); }
      RingFrame(l, l', HEAD, q);
      forall c: nat | c !in q ensures Self(l', c) { assert Self(l, c); }
    }
  }

  lemma {:induction false} TiedAdd(l: Links<int>, q: seq<nat>, b: nat)
    requires Tied(l, q) && b !in q
    ensures Tied(AddHead(l, b, HEAD), [b] + q)
  {
    var l' := AddHead(l, b, HEAD);
    AddHeadRing(l, HEAD, q, b);
    RingEnds(l, HEAD, q);
    forall c: nat | c !in [b] + q ensures Self(l', c) { assert Self(l, c); }
  }

  /** The pointer code of buf_release moves the buffer to the front of the list. */
  lemma {:induction false} RelistTied(l: Links<int>, q: seq<nat>, b: nat)
    requires Tied(l, q)
    ensures Tied(Relist(l, b), [b] + Without<nat>(q, b))
  {
    RingEnds(l, HEAD, q);
    Unlinked<nat>(q, b);
    if q == [] {
      TiedAdd(l, q, b);
    } else {
      TiedUnlink(l, q, b);
      TiedAdd(DelInit(l, b), Without<nat>(q, b), b);
    }
  }

  /** list_pop of the dirty list takes the first buffer, whose node is then on no
      list; the later list_del of that node does nothing. */
  lemma {:induction false} PopTied(l: Links<int>, q: seq<nat>)
    requires Tied(l, q) && q != []
    ensures Next(l, HEAD) == q[0] && Tied(DelInit(l, q[0]), q[1..]) && Self(DelInit(l, q[0]), q[0])
    ensures Tied(Del(DelInit(l, q[0]), q[0]), q[1..])
  {
    RingEnds(l, HEAD, q);
    TiedUnlink(l, q, q[0]);
    var l1 := DelInit(l, q[0]);
    forall c: int ensures SameAt(l1, Del(l1, q[0]), c) { DelSelf(l1, q[0], c); }
    RingFrame(l1, Del(l1, q[0]), HEAD, q[1..]);
    forall c: nat | c !in q[1..] ensures Self(Del(l1, q[0]), c) { assert Self(l1, c); }
  }

  // ----- writes while flush_bhash does not hold the list's lock -----

  /** Disk, buffers and the nodes of the dirty list. */
  datatype Core = Core(disk: map<nat, Block>, bufs: map<nat, Buf>, links: Links<int>)

  /** The nodes form a dirty list with which the cache is consistent. */
  ghost predicate Good(c: Core)
  {
    exists q: seq<nat> :: Tied(c.links, q) && Inv(State(c.disk, c.bufs, q))
  }

  datatype Write = Write(p: Piece, bytes: seq<int>)

  ghost predicate Fitting(blocks: set<nat>, w: Write)
  {
    w.p.blockno in blocks && |w.bytes| == w.p.len && w.p.offset + w.p.len <= BLK
  }

  ghost function WriteCore(c: Core, w: Write): Core
  {
    if Fitting(c.disk.Keys, w)
    then Core(c.disk, WritePiece(State(c.disk, c.bufs, []), w.p, w.bytes).bufs, Relist(c.links, w.p.blockno)) else c
  }

  ghost function WriteAll(c: Core, ws: seq<Write>): Core
    decreases |ws|
  {
    if ws == [] then c else WriteAll(WriteCore(c, ws[0]), ws[1..])
  }

  /** list_pop, before the buffer is pinned. */
  function PopCore(c: Core): Core { c.(links := DelInit(c.links, Next(c.links, HEAD))) }

  /** The write to disk, with the buffer pinned. */
  function SaveCore(c: Core, b: nat): Core { if b in c.bufs then c.(disk := c.disk[b := c.bufs[b].data]) else c }

  /** After unpinning: CLEAR_FLAG and list_del. */
  function EndCore(c: Core, b: nat): Core
  {
    if b in c.bufs then c.(bufs := c.bufs[b := c.bufs[b].(dirty := false)], links := Del(c.links, b)) else c
  }

  /** While buffer `b` is being written back: the rest is consistent, and `b` is
      back on the list exactly if it was written meanwhile. */
  ghost predicate Flushing(c: Core, q: seq<nat>, b: nat, listed: bool, saved: bool)
  {
    var s := State(c.disk, c.bufs, q);
    && Tied(c.links, q) && NoDup(q) && (forall x: nat {:trigger BlockOk(s, x)} :: x != b ==> BlockOk(s, x))
    && b in c.bufs && b in c.disk && |c.bufs[b].data| == BLK && |c.disk[b]| == BLK
    && !c.bufs[b].isNew && c.bufs[b].dirty && (b in q <==> listed)
    && (saved && !listed ==> c.bufs[b].data == c.disk[b])
  }

  lemma {:induction false} FlushingStarts(c: Core, q: seq<nat>)
    requires Tied(c.links, q) && Inv(State(c.disk, c.bufs, q)) && q != []
    ensures Next(c.links, HEAD) == q[0] && Flushing(PopCore(c), q[1..], q[0], false, false)
  {
    PopTied(c.links, q);
    var s, s' := State(c.disk, c.bufs, q), State(c.disk, c.bufs, q[1..]);
    assert q == [q[0]] + q[1..];
    assert BlockOk(s, q[0]);
    forall x: nat | x != q[0] ensures BlockOk(s', x) { assert BlockOk(s, x); }
  }

  lemma {:induction false} FlushingWrite(c: Core, q: seq<nat>, b: nat, listed: bool, saved: bool, w: Write)
    requires Flushing(c, q, b, listed, saved) && Fitting(c.disk.Keys, w)
    ensures Flushing(WriteCore(c, w), [w.p.blockno] + Without<nat>(q, w.p.blockno), b, listed || w.p.blockno == b, saved)
    ensures WriteCore(c, w).disk == c.disk
  {
    var n := w.p.blockno;
    var s, q' := State(c.disk, c.bufs, q), [n] + Without<nat>(q, n);
    var c' := WriteCore(c, w);
    var s' := State(c'.disk, c'.bufs, q');
    RelistTied(c.links, q, n);
    Unlinked<nat>(q, n);
    PushNoDup<nat>(n, Without<nat>(q, n));
    WriteResult(State(c.disk, c.bufs, []), w.p, w.bytes);
    if n != b { assert BlockOk(s, n); }
    PatchSize(WriteBase(State(c.disk, c.bufs, []), w.p), w.p.offset, w.bytes);
    forall x: nat | x != b ensures BlockOk(s', x) { assert BlockOk(s, x); }
  }

  lemma {:induction false} PatchSize(d: Block, off: nat, bytes: seq<int>)
    ensures |Patch(d, off, bytes)| == |d|
  {
  }

  /** Some write is to block `b`. */
  ghost predicate Hits(ws: seq<Write>, b: nat)
  {
    ws != [] && (ws[0].p.blockno == b || Hits(ws[1..], b))
  }

  lemma {:induction false} HitsOne(ws: seq<Write>, b: nat)
    ensures Hits(ws, b) <==> exists i :: 0 <= i < |ws| && ws[i].p.blockno == b
  {
    if ws != [] {
      HitsOne(ws[1..], b);
      assert forall i :: 0 < i < |ws| ==> ws[i] == ws[1..][i - 1];
    }
  }

  lemma {:induction false} FlushingWrites(c: Core, q: seq<nat>, b: nat, listed: bool, saved: bool, ws: seq<Write>) returns (q': seq<nat>)
    requires Flushing(c, q, b, listed, saved) && forall i :: 0 <= i < |ws| ==> Fitting(c.disk.Keys, ws[i])
    ensures Flushing(WriteAll(c, ws), q', b, listed || Hits(ws, b), saved)
    ensures WriteAll(c, ws).disk == c.disk
    decreases |ws|
  {
    q' := q;
    if ws != [] {
      FlushingWrite(c, q, b, listed, saved, ws[0]);
      q' := FlushingWrites(WriteCore(c, ws[0]), [ws[0].p.blockno] + Without<nat>(q, ws[0].p.blockno), b,
                           listed || ws[0].p.blockno == b, saved, ws[1..]);
    }
  }

  lemma {:induction false} FlushingSaved(c: Core, q: seq<nat>, b: nat, listed: bool)
    requires Flushing(c, q, b, listed, false)
    ensures Flushing(SaveCore(c, b), q, b, listed, true) && SaveCore(c, b).disk.Keys == c.disk.Keys
  {
    var c' := SaveCore(c, b);
    var s, s' := State(c.disk, c.bufs, q), State(c'.disk, c'.bufs, q);
    forall x: nat | x != b ensures BlockOk(s', x) { assert BlockOk(s, x); }
  }

  /** The final list_del: harmless on a node linked to itself, and otherwise it
      leaves the node pointing into a list that it is not on. */
  lemma {:induction false} FlushingEnds(c: Core, q: seq<nat>, b: nat, listed: bool)
    requires Flushing(c, q, b, listed, true)
    ensures Good(EndCore(c, b)) <==> !listed
  {
    var c' := EndCore(c, b);
    if listed {
      var k: nat :| k < |q| && q[k] == b;
      DelRing(c.links, HEAD, q, k);
      forall q': seq<nat> ensures !(Tied(c'.links, q') && Inv(State(c'.disk, c'.bufs, q'))) {
        if Tied(c'.links, q') && Inv(State(c'.disk, c'.bufs, q')) { NotSelf(c', q', b); }
      }
    } else {
      assert Self(c.links, b);
      forall x: int ensures SameAt(c.links, c'.links, x) { DelSelf(c.links, b, x); }
      RingFrame(c.links, c'.links, HEAD, q);
      forall x: nat | x !in q ensures Self(c'.links, x) { assert Self(c.links, x); }
      forall x: nat ensures BlockOk(State(c'.disk, c'.bufs, q), x) {
        if x != b { assert BlockOk(State(c.disk, c.bufs, q), x); }
      }
      assert Tied(c'.links, q) && Inv(State(c'.disk, c'.bufs, q));
    }
  }

  /** In a consistent cache a clean buffer's node is linked to itself. */
  lemma {:induction false} NotSelf(c: Core, q: seq<nat>, b: nat)
    requires Tied(c.links, q) && Inv(State(c.disk, c.bufs, q)) && b in c.bufs && !c.bufs[b].dirty
    ensures Next(c.links, b) == b
  {
    assert BlockOk(State(c.disk, c.bufs, q), b);
    assert Self(c.links, b);
  }

  /** The write-back of one buffer, with any writes before the buffer is pinned and
      any writes between unpinning it and locking the list again. */
  ghost function FlushAround(c: Core, ws1: seq<Write>, b: nat, ws2: seq<Write>): Core
  {
    EndCore(WriteAll(SaveCore(WriteAll(PopCore(c), ws1), b), ws2), b)
  }

  /** The cache and its list stay consistent if and only if none of those writes is
      to the block being written back, whether or not it changes anything. */
  lemma {:induction false} WritesInTheGap(c: Core, q: seq<nat>, ws1: seq<Write>, ws2: seq<Write>)
    requires Tied(c.links, q) && Inv(State(c.disk, c.bufs, q)) && q != []
    requires forall i :: 0 <= i < |ws1| ==> Fitting(c.disk.Keys, ws1[i])
    requires forall i :: 0 <= i < |ws2| ==> Fitting(c.disk.Keys, ws2[i])
    ensures Next(c.links, HEAD) == q[0]
    ensures Good(FlushAround(c, ws1, q[0], ws2)) <==>
              && (forall i :: 0 <= i < |ws1| ==> ws1[i].p.blockno != q[0])
              && (forall i :: 0 <= i < |ws2| ==> ws2[i].p.blockno != q[0])
  {
    var b := q[0];
    FlushingStarts(c, q);
    var q1 := FlushingWrites(PopCore(c), q[1..], b, false, false, ws1);
    var c1 := WriteAll(PopCore(c), ws1);
    FlushingSaved(c1, q1, b, Hits(ws1, b));
    var q2 := FlushingWrites(SaveCore(c1, b), q1, b, Hits(ws1, b), true, ws2);
    FlushingEnds(WriteAll(SaveCore(c1, b), ws2), q2, b, Hits(ws1, b) || Hits(ws2, b));
    HitsOne(ws1, b);
    HitsOne(ws2, b);
  }

  /** Two blocks, block 0 of them dirty and listed. */
  ghost function TwoBlocks(z: Block, d: Block): Core
  {
    Core(map[0 := z, 1 := d], map[0 := Buf(z, false, true)], AddHead(Links(map[], map[]), 0, HEAD))
  }

  /** The write-back of block 0, with a write to it in the gap that changes nothing. */
  ghost function AfterGap(z: Block, d: Block): Core { FlushAround(TwoBlocks(z, d), [], 0, [Write(Piece(0, 0, 1), [0])]) }

  lemma {:induction false} TwoBlocksGood(z: Block, d: Block)
    requires |z| == BLK && |d| == BLK
    ensures Tied(TwoBlocks(z, d).links, [0]) && Inv(State(TwoBlocks(z, d).disk, TwoBlocks(z, d).bufs, [0]))
  {
    var l: Links<int>, c := Links(map[], map[]), TwoBlocks(z, d);
    forall i | 0 <= i <= 0 ensures ArcAt(l, HEAD, [], i) { }
    TiedAdd(l, [], 0);
    assert [0] + [] == [0];
    forall b: nat ensures BlockOk(State(c.disk, c.bufs, [0]), b) { }
  }

  lemma {:induction false} AfterGapIs(z: Block, d: Block)
    requires |z| == BLK && z[0] == 0
    ensures var c := AfterGap(z, d);
      && c.disk == map[0 := z, 1 := d] && c.bufs == map[0 := Buf(z, false, false)] && Self(c.links, HEAD) && Self(c.links, 1)
      && Next(c.links, 0) == HEAD && Prev(c.links, 0) == HEAD
  {
    var w := Write(Piece(0, 0, 1), [0]);
    var c := SaveCore(PopCore(TwoBlocks(z, d)), 0);
    assert c.disk == map[0 := z, 1 := d];
    WriteResult(State(c.disk, c.bufs, []), w.p, w.bytes);
    assert Patch(z, 0, [0]) == z;
    assert WriteAll(c, [w]) == WriteCore(c, w);
  }

  /** The write that changed nothing is not harmless: once each block is written
      again, block 1 is dirty, differs from disk and is on no list. */
  lemma {:induction false} GapExample(z: Block, d: Block)
    requires |z| == BLK && z[0] == 0 && |d| == BLK && d[0] == 0
    ensures Tied(TwoBlocks(z, d).links, [0]) && Inv(State(TwoBlocks(z, d).disk, TwoBlocks(z, d).bufs, [0]))
    ensures var c := WriteCore(WriteCore(AfterGap(z, d), Write(Piece(1, 0, 1), [7])), Write(Piece(0, 0, 1), [0]));
      && 1 in c.bufs && 1 in c.disk && c.bufs[1].dirty && c.bufs[1].data != c.disk[1]
      && Next(c.links, HEAD) == 0 && Next(c.links, 0) == HEAD
  {
    TwoBlocksGood(z, d);
    AfterGapIs(z, d);
    var w1, w0 := Write(Piece(1, 0, 1), [7]), Write(Piece(0, 0, 1), [0]);
    var c := AfterGap(z, d);
    WriteResult(State(c.disk, c.bufs, []), w1.p, w1.bytes);
    PatchAt(d, 0, [7], 0);
    var c' := WriteCore(c, w1);
    WriteResult(State(c'.disk, c'.bufs, []), w0.p, w0.bytes);
  }

  /** With nothing in between, the parts of a write-back are the one step. */
  lemma {:induction false} FlushInOneStep(c: Core, q: seq<nat>)
    requires Tied(c.links, q) && Inv(State(c.disk, c.bufs, q)) && q != []
    ensures var (c', s') := (FlushAround(c, [], q[0], []), FlushOne(State(c.disk, c.bufs, q)));
      c'.disk == s'.disk && c'.bufs == s'.bufs && Tied(c'.links, s'.dirty)
  {
    PopTied(c.links, q);
    assert BlockOk(State(c.disk, c.bufs, q), q[0]);
  }

  // ----- the code -----

  class Disk {
    var disk: map<nat, Block>
    var bufs: map<nat, Buf>     // buf_hash_table
    var links: Links<int>       // dirty_list and the `dirty` nodes of the buffers
    ghost var dirty: seq<nat>   // the blocks they list

    ghost function Abs(): State
      reads this
    {
      State(disk, bufs, dirty)
    }

    ghost predicate Valid()
      reads this
    {
      Inv(Abs()) && Tied(links, dirty)
    }

    /** gendisk_init: nothing is cached. */
    constructor (image: map<nat, Block>)
      requires forall b :: b in image ==> |image[b]| == BLK
      ensures Valid() && disk == image && forall b: nat :: b in image ==> View(Abs(), b) == image[b]
      ensures forall x: nat {:trigger Byte(Abs(), x)} :: x / BLK in image ==> Byte(Abs(), x) == image[x / BLK][x % BLK]
    {
      disk, bufs, links, dirty := image, map[], Links(map[], map[]), [];
      new;
      forall i | 0 <= i <= 0 ensures ArcAt(links, HEAD, [], i) { }
      forall b: nat ensures BlockOk(Abs(), b) { }
    }

    /** One bio of a read request (gendisk.c, lines 77-100). */
    method ReadBio(p: Piece) returns (bytes: seq<int>)
      requires Valid() && p.blockno in disk && p.offset + p.len <= BLK
      modifies this`bufs
      ensures Valid() && Abs() == ReadPiece(old(Abs()), p) && SameBytes(old(Abs()), Abs())
      ensures bytes == Flat(old(Abs()), Addr(p), p.len)
    {
      ReadPieceBytes(Abs(), p);
      var b := p.blockno;
      if b !in bufs {
        bufs := bufs[b := Buf(ZeroPage(), true, false)];
      }
      if bufs[b].isNew {
        bufs := bufs[b := bufs[b].(data := disk[b])];
      }
      bufs := bufs[b := bufs[b].(isNew := false)];
      bytes := bufs[b].data[p.offset..p.offset + p.len];
    }

    /** One bio of a write request (gendisk.c, lines 77-128). */
    method WriteBio(p: Piece, bytes: seq<int>)
      requires Valid() && p.blockno in disk && |bytes| == p.len && p.offset + p.len <= BLK
      modifies this`bufs, this`links, this`dirty
      ensures Valid() && Abs() == WritePiece(old(Abs()), p, bytes)
    {
      WritePieceKeeps(Abs(), p, bytes);
      WriteResult(Abs(), p, bytes);
      var b := p.blockno;
      if b !in bufs {
        bufs := bufs[b := Buf(ZeroPage(), true, false)];
      }
      if !(p.offset == 0 && p.len == BLK) && bufs[b].isNew {
        bufs := bufs[b := bufs[b].(data := disk[b])];
      }
      assert bufs[b].data == WriteBase(old(Abs()), p);
      bufs := bufs[b := bufs[b].(data := Patch(bufs[b].data, p.offset, bytes))];
      bufs := bufs[b := bufs[b].(isNew := false)];
      bufs := bufs[b := bufs[b].(dirty := true)];
      assert bufs == old(bufs)[b := Buf(Patch(WriteBase(old(Abs()), p), p.offset, bytes), false, true)];
      MoveToFront(b);
    }

    /** The list part of buf_release (buf.c, lines 199-201). */
    method MoveToFront(b: nat)
      requires Tied(links, dirty)
      modifies this`links, this`dirty
      ensures Tied(links, dirty) && dirty == [b] + Without<nat>(old(dirty), b)
    {
      RelistTied(links, dirty, b);
      if !Empty(links, HEAD) {
        links := DelInit(links, b);
      }
      links := AddHead(links, b, HEAD);
      dirty := [b] + Without<nat>(dirty, b);
    }

    /** `n` rounds of the flusher thread (flush.c, lines 38-59). */
    method FlushBhash(n: nat)
      requires Valid()
      modifies this
      ensures Valid() && Abs() == Flush(old(Abs()), n) && SameBytes(old(Abs()), Abs())
    {
      FlushManyKeeps(Abs(), n);
      var i := 0;
      ghost var s0 := Abs();
      while i < n
        invariant i <= n && Valid() && Flush(s0, n) == Flush(Abs(), n - i)
      {
        FlushKeeps(Abs());
        RingEnds(links, HEAD, dirty);
        if !Empty(links, HEAD) {
          PopTied(links, dirty);
          assert BlockOk(Abs(), dirty[0]);
          var b := Next(links, HEAD);
          links := DelInit(links, b);
          disk := disk[b := bufs[b].data];
          bufs := bufs[b := bufs[b].(dirty := false)];
          links := Del(links, b);
          dirty := dirty[1..];
        }
        i := i + 1;
      }
    }

    /** gen_start_io on a read request; before piece `i` the flusher runs
        `schedule(i)` rounds. */
    method ReadRequest(ps: seq<Piece>, schedule: nat -> nat, ghost a: nat, ghost e: nat) returns (bytes: seq<int>)
      requires Valid() && Tiles(ps, a, e) && a <= e && forall p :: p in ps ==> p.blockno in disk
      modifies this
      ensures Valid() && SameBytes(old(Abs()), Abs())
      ensures bytes == Flat(old(Abs()), a, e - a)
    {
      ghost var s0 := Abs();
      bytes := [];
      var i := 0;
      while i < |ps|
        invariant i <= |ps| && Valid() && SameBytes(s0, Abs())
        invariant a + |bytes| <= e && Tiles(ps[i..], a + |bytes|, e)
        invariant bytes == Flat(s0, a, |bytes|)
      {
        TilesNext(ps, i, a + |bytes|, e);
        var piece := ReadNext(ps[i], schedule(i), s0);
        FlatJoin(s0, a, |bytes|, ps[i].len);
        bytes := bytes + piece;
        i := i + 1;
      }
    }

    /** Flusher rounds, then one bio of a read request. */
    method ReadNext(p: Piece, rounds: nat, ghost s0: State) returns (piece: seq<int>)
      requires Valid() && p.blockno in disk && p.offset + p.len <= BLK && SameBytes(s0, Abs())
      modifies this
      ensures Valid() && disk.Keys == old(disk.Keys) && SameBytes(s0, Abs())
      ensures piece == Flat(s0, Addr(p), p.len)
    {
      FlushBhash(rounds);
      FlatSame(s0, Abs(), Addr(p), p.len);
      piece := ReadBio(p);
    }

    /** Flusher rounds, then one bio of a write request. */
    method WriteStep(p: Piece, bytes: seq<int>, rounds: nat)
      requires Valid() && p.blockno in disk && |bytes| == p.len && p.offset + p.len <= BLK
      modifies this
      ensures Valid() && disk.Keys == old(disk.Keys) && Written(old(Abs()), Abs(), Addr(p), bytes)
    {
      ghost var s0 := Abs();
      FlushBhash(rounds);
      WritePieceBytes(Abs(), p, bytes);
      ghost var s1 := Abs();
      WriteBio(p, bytes);
      forall x: nat ensures Byte(Abs(), x) == WrittenByte(s0, Addr(p), bytes, x) {
        assert Byte(s1, x) == Byte(s0, x);
      }
    }

    method WriteNext(p: Piece, data: seq<int>, vaddr: nat, rounds: nat, ghost s0: State, ghost a: nat)
      requires Valid() && p.blockno in disk && p.offset + p.len <= BLK
      requires vaddr + p.len <= |data| && Addr(p) == a + vaddr && Written(s0, Abs(), a, data[..vaddr])
      modifies this
      ensures Valid() && disk.Keys == old(disk.Keys) && Written(s0, Abs(), a, data[..vaddr + p.len])
    {
      var bytes := data[vaddr..vaddr + p.len];
      ghost var s1 := Abs();
      WriteStep(p, bytes, rounds);
      WrittenJoin(s0, s1, Abs(), a, data[..vaddr], bytes);
      assert data[..vaddr] + bytes == data[..vaddr + p.len];
    }

    /** gen_start_io on a write request. */
    method WriteRequest(ps: seq<Piece>, data: seq<int>, schedule: nat -> nat, ghost a: nat, ghost e: nat)
      requires Valid() && Tiles(ps, a, e) && a <= e && |data| == e - a && forall p :: p in ps ==> p.blockno in disk
      modifies this
      ensures Valid() && disk.Keys == old(disk.Keys) && Written(old(Abs()), Abs(), a, data)
    {
      ghost var s0 := Abs();
      var i, vaddr := 0, 0;
      while i < |ps|
        invariant i <= |ps| && 0 <= vaddr <= |data| && Valid() && disk.Keys == old(disk.Keys)
        invariant Tiles(ps[i..], a + vaddr, e)
        invariant Written(s0, Abs(), a, data[..vaddr])
      {
        TilesNext(ps, i, a + vaddr, e);
        WriteNext(ps[i], data, vaddr, schedule(i), s0, a);
        vaddr := vaddr + ps[i].len;
        i := i + 1;
      }
      assert data[..vaddr] == data;
    }

    /** gen_disk_read: the request for `len` bytes at `offset` from block `blockno`. */
    method DeviceRead(blockno: nat, offset: nat, len: nat, schedule: nat -> nat) returns (bytes: seq<int>)
      requires Valid() && blockno < U32 && offset < U32 && len < U32 && (len > 0 ==> Fits(blockno, offset, len))
      requires Present(disk.Keys, blockno * BLK + offset, len)
      modifies this
      ensures Valid() && SameBytes(old(Abs()), Abs())
      ensures bytes == Flat(old(Abs()), blockno * BLK + offset, len)
    {
      var bio := BioListMake(blockno, offset, len);
      ghost var a := blockno * BLK + offset;
      PiecesPresent(bio, a, a + len, disk.Keys, a, len);
      bytes := ReadRequest(bio, schedule, a, a + len);
    }

    /** gen_disk_write */
    method DeviceWrite(blockno: nat, offset: nat, data: seq<int>, schedule: nat -> nat)
      requires Valid() && blockno < U32 && offset < U32 && |data| < U32 && (data != [] ==> Fits(blockno, offset, |data|))
      requires Present(disk.Keys, blockno * BLK + offset, |data|)
      modifies this
      ensures Valid() && disk.Keys == old(disk.Keys) && Written(old(Abs()), Abs(), blockno * BLK + offset, data)
    {
      var bio := BioListMake(blockno, offset, |data|);
      ghost var a := blockno * BLK + offset;
      PiecesPresent(bio, a, a + |data|, disk.Keys, a, |data|);
      WriteRequest(bio, data, schedule, a, a + |data|);
    }
  }

  /** The device has every block that `len` bytes from address `a` touch. */
  ghost predicate Present(blocks: set<nat>, a: nat, len: nat)
  {
    forall b: nat {:trigger b in blocks} :: a / BLK <= b && b * BLK < a + len ==> b in blocks
  }

  lemma {:induction false} PiecesPresent(ps: seq<Piece>, from: nat, e: nat, blocks: set<nat>, a: nat, len: nat)
    requires Tiles(ps, from, e) && a <= from && e == a + len && Present(blocks, a, len)
    ensures forall p :: p in ps ==> p.blockno in blocks
  {
    if ps != [] {
      TilesLength(ps[1..], from + ps[0].len, e);
      PiecesPresent(ps[1..], from + ps[0].len, e, blocks, a, len);
      PieceBlock(ps[0], a, from);
    }
  }

  lemma {:induction false} PieceBlock(p: Piece, a: nat, from: nat)
    requires Addr(p) == from && a <= from && p.offset < BLK
    ensures a / BLK <= p.blockno && p.blockno * BLK <= from
  {
  }

  /** Byte `x` after `data` was written at address `a`. */
  ghost function WrittenByte(s: State, a: nat, data: seq<int>, x: nat): int
  {
    if a <= x < a + |data| then data[x - a] else Byte(s, x)
  }

  /** The device now holds `data` at address `a` and is otherwise unchanged. */
  ghost predicate Written(s: State, s': State, a: nat, data: seq<int>)
  {
    forall x: nat {:trigger Byte(s', x)} :: Byte(s', x) == WrittenByte(s, a, data, x)
  }

  lemma {:induction false} WrittenJoin(s: State, s1: State, s2: State, a: nat, d: seq<int>, d': seq<int>)
    requires Written(s, s1, a, d) && Written(s1, s2, a + |d|, d')
    ensures Written(s, s2, a, d + d')
  {
    forall x: nat ensures Byte(s2, x) == WrittenByte(s, a, d + d', x) {
      assert Byte(s1, x) == WrittenByte(s, a, d, x);
    }
  }

  lemma {:induction false} TilesNext(ps: seq<Piece>, i: nat, a: nat, e: nat)
    requires i < |ps| && Tiles(ps[i..], a, e)
    ensures Addr(ps[i]) == a && ps[i].offset + ps[i].len <= BLK && Tiles(ps[i + 1..], a + ps[i].len, e) && a + ps[i].len <= e
  {
    assert ps[i..][0] == ps[i] && ps[i..][1..] == ps[i + 1..];
    TilesLength(ps[i + 1..], a + ps[i].len, e);
  }

  lemma {:induction false} TilesLength(ps: seq<Piece>, a: nat, e: nat)
    requires Tiles(ps, a, e)
    ensures a <= e
  {
    if ps != [] { TilesLength(ps[1..], a + ps[0].len, e); }
  }
}
