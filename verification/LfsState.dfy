/** An open local file: the blocks it consists of, what the control block caches, and the bytes they stand for. */
module LfsState {
  import opened Bags
  import opened LfsDisk

  /** Number of index blocks, a multiple of seven, and of sectors. */
  datatype Geo = Geo(nib: nat, sectors: nat)

  function FirstData(g: Geo): nat { g.nib / PERSECT + 1 }

  predicate GeoOk(g: Geo) {
    g.nib % PERSECT == 0 && FirstData(g) <= g.sectors && g.sectors * BLKSIZ < 0x1_0000_0000
  }

  /** The directory's free-list heads and this file's entry. */
  datatype Dir = Dir(dfree: Word, ifree: Word, ilist: Word, size: nat)

  /** Disk, directory and one file's control block. */
  datatype Fs = Fs(
    disk: Disk, dir: Dir,
    pos: nat, inum: Word, ib: IBlk, dnum: Word, db: Sector, at: nat, ibdirty: bool, dbdirty: bool)

  /** The file's index and data blocks in order, and the two free lists. */
  datatype Shape = Shape(chain: seq<nat>, blocks: seq<nat>, ifree: seq<nat>, dfree: seq<nat>)

  function Head(s: seq<nat>): int { if s == [] then NULLID else s[0] }

  function After(s: seq<nat>, k: nat): int { if k + 1 < |s| then s[k + 1] else NULLID }

  /** Index block `n`: the cached copy if it is the one cached. */
  function Ix(fs: Fs, n: nat): IBlk { if n == fs.inum then fs.ib else IbAt(fs.disk, n) }

  /** Data block `d` likewise. */
  function Dx(fs: Fs, d: nat): seq<byte> {
    if d == fs.dnum then fs.db else if d < |fs.disk| then fs.disk[d] else []
  }

  // ---- structure ----------------------------------------------------------

  ghost predicate IndexNumbers(s: seq<nat>, g: Geo) { forall k | 0 <= k < |s| :: s[k] < g.nib }

  ghost predicate DataNumbers(s: seq<nat>, g: Geo) { forall k | 0 <= k < |s| :: FirstData(g) <= s[k] < g.sectors }

  /** Block `k` of the chain covers the file from `8192 * k`, and leads to the next. */
  ghost predicate ChainAt(fs: Fs, chain: seq<nat>, k: nat)
    requires k < |chain|
  {
    Ix(fs, chain[k]).next == After(chain, k) && Ix(fs, chain[k]).off == IDATA * k && IbOk(Ix(fs, chain[k]))
  }

  ghost predicate Chain(fs: Fs, chain: seq<nat>) {
    forall k | 0 <= k < |chain| :: ChainAt(fs, chain, k)
  }

  function Slot(blocks: seq<nat>, b: nat): int { if b < |blocks| then blocks[b] else NULLID }

  /** The data pointers of the chain are the file's blocks in order, then nulls. */
  ghost predicate SlotsAt(fs: Fs, chain: seq<nat>, blocks: seq<nat>, k: nat)
    requires k < |chain|
  {
    IbOk(Ix(fs, chain[k])) && forall j | 0 <= j < IBLEN :: Ix(fs, chain[k]).dba[j] == Slot(blocks, IBLEN * k + j)
  }

  ghost predicate Slots(fs: Fs, chain: seq<nat>, blocks: seq<nat>) {
    forall k | 0 <= k < |chain| :: SlotsAt(fs, chain, blocks, k)
  }

  ghost predicate FreeIndex(disk: Disk, ifree: seq<nat>) {
    forall k | 0 <= k < |ifree| :: FreeLink(IbAt(disk, ifree[k]), After(ifree, k))
  }

  ghost predicate FreeData(disk: Disk, dfree: seq<nat>) {
    forall k | 0 <= k < |dfree| :: dfree[k] < |disk| && NextOf(disk[dfree[k]]) == After(dfree, k)
  }

  /** The file and the free list together are the given blocks, each once. */
  ghost predicate Owned(used: seq<nat>, free: seq<nat>, all: multiset<nat>) {
    multiset(used) + multiset(free) == all && forall x | x in all :: all[x] == 1
  }

  ghost predicate Cache(fs: Fs, sh: Shape) {
    IbOk(fs.ib)
    && (fs.inum != NULLID ==> fs.inum in sh.chain && (!fs.ibdirty ==> fs.ib == IbAt(fs.disk, fs.inum)))
    && (fs.dnum != NULLID ==> fs.dnum in sh.blocks && (!fs.dbdirty ==> fs.dnum < |fs.disk| && fs.db == fs.disk[fs.dnum]))
    && (fs.ibdirty ==> fs.inum != NULLID) && (fs.dbdirty ==> fs.dnum != NULLID)
  }

  /** The chain is as long as the blocks need. */
  predicate Tight(sh: Shape) {
    |sh.blocks| <= IBLEN * |sh.chain| && IBLEN * |sh.chain| < |sh.blocks| + IBLEN
  }

  ghost predicate Numbers(sh: Shape, g: Geo) {
    GeoOk(g) && IndexNumbers(sh.chain, g) && IndexNumbers(sh.ifree, g) && DataNumbers(sh.blocks, g) && DataNumbers(sh.dfree, g)
  }

  ghost predicate Heads(fs: Fs, sh: Shape, g: Geo) {
    |fs.disk| == g.sectors && fs.dir.ilist == Head(sh.chain) && fs.dir.ifree == Head(sh.ifree) && fs.dir.dfree == Head(sh.dfree)
  }

  ghost predicate Base(fs: Fs, sh: Shape, g: Geo, mi: multiset<nat>, md: multiset<nat>) {
    Numbers(sh, g) && Heads(fs, sh, g) && Owned(sh.chain, sh.ifree, mi) && Owned(sh.blocks, sh.dfree, md)
    && Chain(fs, sh.chain) && Slots(fs, sh.chain, sh.blocks) && FreeIndex(fs.disk, sh.ifree) && FreeData(fs.disk, sh.dfree)
    && Cache(fs, sh)
  }

  function BlocksFor(size: nat): nat { (size + BLKSIZ - 1) / BLKSIZ }

  /** The byte pointer, when it points into the buffer, points at the current position. */
  predicate Pointed(fs: Fs, blocks: seq<nat>) {
    fs.at <= BLKSIZ
    && (fs.at < BLKSIZ ==> fs.at == fs.pos % BLKSIZ && fs.pos / BLKSIZ < |blocks| && fs.dnum == blocks[fs.pos / BLKSIZ])
  }

  /** Between calls. */
  ghost predicate Ok(fs: Fs, sh: Shape, g: Geo, mi: multiset<nat>, md: multiset<nat>) {
    Base(fs, sh, g, mi, md) && Tight(sh) && |sh.blocks| == BlocksFor(fs.dir.size) && fs.pos <= fs.dir.size
    && Pointed(fs, sh.blocks)
  }

  function ByteAt(fs: Fs, blocks: seq<nat>, i: nat): byte {
    if i / BLKSIZ < |blocks| && |Dx(fs, blocks[i / BLKSIZ])| == BLKSIZ then Dx(fs, blocks[i / BLKSIZ])[i % BLKSIZ] else 0
  }

  /** The file's contents. */
  function Contents(fs: Fs, blocks: seq<nat>): (s: seq<byte>)
    ensures |s| == fs.dir.size
  {
    seq<byte>(fs.dir.size, i requires 0 <= i < fs.dir.size => ByteAt(fs, blocks, i))
  }

  // ---- consequences -------------------------------------------------------

  /** Blocks in use are distinct, and none is free. */
  lemma OwnedApart(used: seq<nat>, free: seq<nat>, all: multiset<nat>)
    requires Owned(used, free, all)
    ensures forall i, j | 0 <= i < j < |used| :: used[i] != used[j]
    ensures forall i, j | 0 <= i < j < |free| :: free[i] != free[j]
    ensures forall x | x in used :: x !in free
    ensures forall x | x in used || x in free :: x in all
  {
    forall x: nat
      ensures (x in used ==> x !in free && x in all) && (x in free ==> x in all)
    {
      Occurs(used, x);
      Occurs(free, x);
      assert (multiset(used) + multiset(free))[x] == all[x];
    }
    forall i, j | 0 <= i < j < |used|
      ensures used[i] != used[j]
    {
      TwicePlaced(used, i, j);
      assert multiset(used)[used[i]] <= all[used[i]] <= 1;
    }
    forall i, j | 0 <= i < j < |free|
      ensures free[i] != free[j]
    {
      TwicePlaced(free, i, j);
      assert multiset(free)[free[i]] <= all[free[i]] <= 1;
    }
  }

  lemma SectorOfIndex(n: nat, g: Geo)
    requires GeoOk(g) && n < g.nib
    ensures SectOf(n) < FirstData(g)
  {
  }

  /** The same index blocks in effect mean the same chain and slots. */
  lemma SameIndex(fs: Fs, r: Fs, chain: seq<nat>, blocks: seq<nat>)
    requires Chain(fs, chain) && Slots(fs, chain, blocks)
    requires forall k | 0 <= k < |chain| :: Ix(r, chain[k]) == Ix(fs, chain[k])
    ensures Chain(r, chain) && Slots(r, chain, blocks)
  {
    forall k | 0 <= k < |chain|
      ensures ChainAt(r, chain, k) && SlotsAt(r, chain, blocks, k)
    {
      assert ChainAt(fs, chain, k) && SlotsAt(fs, chain, blocks, k);
    }
  }

  /** The same data blocks in effect mean the same contents. */
  lemma SameContents(fs: Fs, r: Fs, blocks: seq<nat>)
    requires r.dir.size == fs.dir.size
    requires forall k | 0 <= k < |blocks| :: Dx(r, blocks[k]) == Dx(fs, blocks[k])
    ensures Contents(r, blocks) == Contents(fs, blocks)
  {
    forall i | 0 <= i < fs.dir.size
      ensures ByteAt(r, blocks, i) == ByteAt(fs, blocks, i)
    {
    }
  }
}
