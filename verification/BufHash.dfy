/** The hash table of buffers (kernel/dev/blk/buf.c, include/lib/hash.h): chains of
    `bh_node`s, one per residue of the block number. BlockCache keeps its buffers by
    block number; here that is what the chains amount to. */
module BufHash {
  import opened Wrappers
  import opened Queues
  import opened Links
  import BlockCache

  const SIZE: nat := 32   // hash_init in bhash_init

  /** A `buf_head`, by its address. */
  type Bid = nat

  /** The head of chain `h`, or the `bh_node` of a buffer. */
  type HashNode = Node<nat, Bid>

  function Bucket(blockno: nat): nat { blockno % SIZE }

  ghost function Buckets(blocks: map<Bid, nat>): map<Bid, nat> { map id | id in blocks :: Bucket(blocks[id]) }

  // ----- Invariant -----------------------------------------------------------

  /** Chain `j` links exactly the buffers whose block number falls into it. */
  ghost predicate ChainAt(l: Links<HashNode>, blocks: map<Bid, nat>, chains: seq<seq<Bid>>, j: nat)
  {
    j < |chains| ==> Ring(l, Head(j), Items(chains[j])) && Queued(chains[j], Buckets(blocks), j)
  }

  ghost predicate Chained(l: Links<HashNode>, blocks: map<Bid, nat>, chains: seq<seq<Bid>>)
  {
    forall j: nat {:trigger ChainAt(l, blocks, chains, j)} :: ChainAt(l, blocks, chains, j)
  }

  /** No two buffers have one block number. */
  ghost predicate Unique(blocks: map<Bid, nat>)
  {
    forall x, y :: x in blocks && y in blocks && blocks[x] == blocks[y] ==> x == y
  }

  ghost predicate Cached(blocks: map<Bid, nat>, blockno: nat) { exists id :: id in blocks && blocks[id] == blockno }

  /** The buffers by block number, as BlockCache has them. */
  ghost function ByBlock(blocks: map<Bid, nat>, pages: map<Bid, BlockCache.Buf>): map<nat, BlockCache.Buf>
    requires Unique(blocks) && pages.Keys == blocks.Keys
  {
    map id | id in blocks :: blocks[id] := pages[id]
  }

  ghost predicate TableOk(l: Links<HashNode>, blocks: map<Bid, nat>, pages: map<Bid, BlockCache.Buf>, chains: seq<seq<Bid>>)
  {
    |chains| == SIZE && Chained(l, blocks, chains) && Unique(blocks) && pages.Keys == blocks.Keys
  }

  // ----- Changes -------------------------------------------------------------

  /** INIT_HASH_NODE and hash_add_head of a buffer that was on no chain. */
  function Added(l: Links<HashNode>, id: Bid, blockno: nat): Links<HashNode>
  {
    AddHead(InitNode(l, Item(id)), Item(id), Head(Bucket(blockno)))
  }

  lemma {:induction false} AddedElsewhere(l: Links<HashNode>, blocks: map<Bid, nat>, chains: seq<seq<Bid>>, id: Bid, blockno: nat, m: HashNode)
    requires Chained(l, blocks, chains) && id !in blocks && m != Item(id) && m != Head(Bucket(blockno)) && |chains| == SIZE
    requires m.Item? ==> m.t !in chains[Bucket(blockno)]
    ensures SameAt(l, Added(l, id, blockno), m)
  {
    var k := Bucket(blockno);
    assert ChainAt(l, blocks, chains, k);
    RingEnds(l, Head(k), Items(chains[k]));
    if m.Item? { ItemsIn<nat, Bid>(chains[k], m.t); }
  }

  lemma {:induction false} AddedHere(l: Links<HashNode>, blocks: map<Bid, nat>, chains: seq<seq<Bid>>, id: Bid, blockno: nat)
    requires Chained(l, blocks, chains) && id !in blocks && |chains| == SIZE
    ensures var k := Bucket(blockno); ChainAt(Added(l, id, blockno), blocks[id := blockno], chains[k := [id] + chains[k]], k)
  {
    var k := Bucket(blockno);
    var q := chains[k];
    assert ChainAt(l, blocks, chains, k) && Member(q, Buckets(blocks), k, id);
    AddedRing(l, q, id, blockno);
    QueuedFront(q, Buckets(blocks), k, id);
    assert Buckets(blocks[id := blockno]) == Buckets(blocks)[id := k];
  }

  lemma {:induction false} AddedRing(l: Links<HashNode>, q: seq<Bid>, id: Bid, blockno: nat)
    requires Ring(l, Head(Bucket(blockno)), Items(q)) && id !in q
    ensures Ring(Added(l, id, blockno), Head(Bucket(blockno)), Items([id] + q))
  {
    var k, l1 := Bucket(blockno), InitNode(l, Item(id));
    ItemsIn<nat, Bid>(q, id);
    ItemsFront<nat, Bid>(id, q);
    RingFrame(l, l1, Head(k), Items(q));
    AddHeadRing(l1, Head(k), Items(q), Item(id));
  }

  lemma {:induction false} AddedThere(l: Links<HashNode>, blocks: map<Bid, nat>, chains: seq<seq<Bid>>, id: Bid, blockno: nat, j: nat)
    requires Chained(l, blocks, chains) && id !in blocks && |chains| == SIZE && j < SIZE && j != Bucket(blockno)
    ensures ChainAt(Added(l, id, blockno), blocks[id := blockno], chains[Bucket(blockno) := [id] + chains[Bucket(blockno)]], j)
  {
    var k, r, l' := Bucket(blockno), chains[j], Added(l, id, blockno);
    assert ChainAt(l, blocks, chains, j) && ChainAt(l, blocks, chains, k) && Member(r, Buckets(blocks), j, id);
    AddedElsewhere(l, blocks, chains, id, blockno, Head(j));
    forall i | 0 <= i < |r| ensures SameAt(l, l', Items<nat, Bid>(r)[i]) {
      assert Member(r, Buckets(blocks), j, r[i]) && Member(chains[k], Buckets(blocks), k, r[i]);
      AddedElsewhere(l, blocks, chains, id, blockno, Item(r[i]));
    }
    RingFrame(l, l', Head(j), Items(r));
    QueuedElse(r, Buckets(blocks), j, id, k);
    assert Buckets(blocks[id := blockno]) == Buckets(blocks)[id := k];
  }

  lemma {:induction false} AddedKeeps(l: Links<HashNode>, blocks: map<Bid, nat>, chains: seq<seq<Bid>>, id: Bid, blockno: nat)
    requires Chained(l, blocks, chains) && id !in blocks && |chains| == SIZE
    ensures var k := Bucket(blockno); Chained(Added(l, id, blockno), blocks[id := blockno], chains[k := [id] + chains[k]])
  {
    var k := Bucket(blockno);
    var l', blocks', chains' := Added(l, id, blockno), blocks[id := blockno], chains[k := [id] + chains[k]];
    forall j: nat ensures ChainAt(l', blocks', chains', j) {
      if j == k { AddedHere(l, blocks, chains, id, blockno); }
      else if j < SIZE { AddedThere(l, blocks, chains, id, blockno, j); }
    }
  }

  /** The entries by block number are those of the buffers. */
  lemma {:induction false} EntryOf(blocks: map<Bid, nat>, pages: map<Bid, BlockCache.Buf>, id: Bid)
    requires Unique(blocks) && pages.Keys == blocks.Keys && id in blocks
    ensures blocks[id] in ByBlock(blocks, pages) && ByBlock(blocks, pages)[blocks[id]] == pages[id]
  {
  }

  lemma {:induction false} EntryFrom(blocks: map<Bid, nat>, pages: map<Bid, BlockCache.Buf>, b: nat)
    requires Unique(blocks) && pages.Keys == blocks.Keys
    ensures b in ByBlock(blocks, pages) <==> Cached(blocks, b)
  {
  }

  ghost predicate EntryAt(m: map<nat, BlockCache.Buf>, m': map<nat, BlockCache.Buf>, b: nat)
  {
    (b in m' <==> b in m) && (b in m && b in m' ==> m'[b] == m[b])
  }

  lemma {:induction false} SameEntries(m: map<nat, BlockCache.Buf>, m': map<nat, BlockCache.Buf>)
    requires forall b: nat {:trigger EntryAt(m, m', b)} :: EntryAt(m, m', b)
    ensures m == m'
  {
    forall b: nat ensures b in m <==> b in m' { assert EntryAt(m, m', b); }
    forall b: nat | b in m && b in m' ensures m[b] == m'[b] { assert EntryAt(m, m', b); }
  }

  lemma {:induction false} AddedUnique(blocks: map<Bid, nat>, id: Bid, blockno: nat)
    requires Unique(blocks) && id !in blocks && !Cached(blocks, blockno)
    ensures Unique(blocks[id := blockno])
  {
  }

  /** A new buffer for a block that had none is a new entry by block number. */
  lemma {:induction false} AddedEntry(blocks: map<Bid, nat>, pages: map<Bid, BlockCache.Buf>, id: Bid, blockno: nat, u: BlockCache.Buf)
    requires Unique(blocks) && pages.Keys == blocks.Keys && id !in blocks && !Cached(blocks, blockno)
    ensures Unique(blocks[id := blockno]) && ByBlock(blocks[id := blockno], pages[id := u]) == ByBlock(blocks, pages)[blockno := u]
  {
    AddedUnique(blocks, id, blockno);
    var m, m' := ByBlock(blocks, pages)[blockno := u], ByBlock(blocks[id := blockno], pages[id := u]);
    forall b: nat ensures EntryAt(m, m', b) { AddedEntryAt(blocks, pages, id, blockno, u, b); }
    SameEntries(m, m');
  }

  lemma {:induction false} AddedTable(l: Links<HashNode>, blocks: map<Bid, nat>, pages: map<Bid, BlockCache.Buf>, chains: seq<seq<Bid>>,
                                      id: Bid, blockno: nat, u: BlockCache.Buf)
    requires TableOk(l, blocks, pages, chains) && id !in blocks && !Cached(blocks, blockno)
    ensures TableOk(Added(l, id, blockno), blocks[id := blockno], pages[id := u], chains[Bucket(blockno) := [id] + chains[Bucket(blockno)]])
    ensures ByBlock(blocks[id := blockno], pages[id := u]) == ByBlock(blocks, pages)[blockno := u]
    ensures Next(Added(l, id, blockno), Head(blockno % 32)) == Item(id)
  {
    AddedKeeps(l, blocks, chains, id, blockno);
    AddedEntry(blocks, pages, id, blockno, u);
  }

  lemma {:induction false} AddedEntryAt(blocks: map<Bid, nat>, pages: map<Bid, BlockCache.Buf>, id: Bid, blockno: nat, u: BlockCache.Buf, b: nat)
    requires Unique(blocks) && pages.Keys == blocks.Keys && id !in blocks && !Cached(blocks, blockno) && Unique(blocks[id := blockno])
    ensures EntryAt(ByBlock(blocks, pages)[blockno := u], ByBlock(blocks[id := blockno], pages[id := u]), b)
  {
    var blocks', pages' := blocks[id := blockno], pages[id := u];
    EntryFrom(blocks, pages, b);
    EntryFrom(blocks', pages', b);
    if b == blockno {
      EntryOf(blocks', pages', id);
    } else if x :| x in blocks && blocks[x] == b {
      EntryOf(blocks, pages, x);
      assert blocks'[x] == b;
      EntryOf(blocks', pages', x);
    }
  }

  // ----- The code ------------------------------------------------------------

  class Table {
    var blocks: map<Bid, nat>               // b->blockno
    var pages: map<Bid, BlockCache.Buf>     // the rest of the buffer
    var links: Links<HashNode>              // heads and bh_nodes
    ghost var chains: seq<seq<Bid>>

    ghost predicate Valid()
      reads this
    {
      TableOk(links, blocks, pages, chains)
    }

    /** What BlockCache sees. */
    ghost function Abs(): map<nat, BlockCache.Buf>
      reads this
      requires Valid()
    {
      ByBlock(blocks, pages)
    }

    /** bhash_init */
    constructor ()
      ensures Valid() && Abs() == map[]
    {
      blocks, pages, links := map[], map[], Links(map[], map[]);
      chains := seq(SIZE, _ => []);
      new;
      forall j: nat ensures ChainAt(links, blocks, chains, j) {
        if j < |chains| {
          EmptyRing<HashNode>(links, Head(j));
          forall id: Bid ensures Member([], Buckets(blocks), j, id) { }
        }
      }
    }

    /** hash_find in bhash_find: the walk along one chain finds the buffer of the block
        if there is one anywhere in the table. */
    method Find(blockno: nat) returns (b: Option<Bid>)
      requires Valid()
      ensures b.Some? ==> b.value in blocks && blocks[b.value] == blockno
      ensures b.None? <==> !Cached(blocks, blockno)
      ensures b.None? <==> blockno !in Abs()
      ensures b.Some? ==> Abs()[blockno] == pages[b.value]
    {
      var k := Bucket(blockno);
      assert ChainAt(links, blocks, chains, k);
      ghost var q := chains[k];
      var pos := Next(links, Head(k));
      ghost var i := 0;
      assert ArcAt(links, Head(k), Items(q), 0);
      while pos != Head(k)
        invariant 0 <= i <= |q| && pos == Stop(Head(k), Items(q), i + 1)
        invariant forall j :: 0 <= j < i ==> q[j] in blocks && blocks[q[j]] != blockno
        decreases |q| - i
      {
        assert Member(q, Buckets(blocks), k, q[i]);
        if blocks[pos.t] == blockno {
          EntryOf(blocks, pages, pos.t);
          return Some(pos.t);
        }
        assert ArcAt(links, Head(k), Items(q), i + 1);
        pos := Next(links, pos);
        i := i + 1;
      }
      b := None;
      forall id | id in blocks ensures blocks[id] != blockno {
        assert Member(q, Buckets(blocks), k, id);
      }
      EntryFrom(blocks, pages, blockno);
    }

    /** buf_get: the one buffer of the block, allocated and linked if there was none.
        `fresh_` is the object that kmem_cache_alloc would return. */
    method BufGet(blockno: nat, fresh_: Bid, ghost s: BlockCache.State) returns (b: Bid)
      requires Valid() && fresh_ !in blocks && s.bufs == Abs()
      modifies this
      ensures Valid() && Abs() == BlockCache.BufGet(s, blockno).bufs
      ensures b in blocks && blocks[b] == blockno && forall id :: id in blocks && blocks[id] == blockno ==> id == b
      ensures !Cached(old(blocks), blockno) ==> b == fresh_ && Next(links, Head(blockno % 32)) == Item(b)
      ensures forall id :: id in old(blocks) ==> id in blocks && blocks[id] == old(blocks)[id] && pages[id] == old(pages)[id]
    {
      var found := Find(blockno);
      if found.Some? {
        return found.value;
      }
      EntryFrom(blocks, pages, blockno);
      AddedTable(links, blocks, pages, chains, fresh_, blockno, BlockCache.Buf(BlockCache.ZeroPage(), true, false));
      BhashAdd(fresh_, blockno);
      b := fresh_;
    }

    /** buf_alloc and bhash_add */
    method BhashAdd(b: Bid, blockno: nat)
      requires |chains| == SIZE
      modifies this
      ensures blocks == old(blocks)[b := blockno] && pages == old(pages)[b := BlockCache.Buf(BlockCache.ZeroPage(), true, false)]
      ensures links == Added(old(links), b, blockno)
      ensures chains == old(chains)[Bucket(blockno) := [b] + old(chains)[Bucket(blockno)]]
    {
      blocks := blocks[b := blockno];
      pages := pages[b := BlockCache.Buf(BlockCache.ZeroPage(), true, false)];
      links := InitNode(links, Item(b));
      links := AddHead(links, Item(b), Head(Bucket(blockno)));
      chains := chains[Bucket(blockno) := [b] + chains[Bucket(blockno)]];
    }
  }
}
