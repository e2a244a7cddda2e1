/** Taking a block off a free list and giving it to the file. */
module LfsAlloc {
  import opened LfsDisk
  import opened LfsState
  import opened LfsSteps

  /** lfiballoc: the directory's list moves on. */
  function PopIndex(fs: Fs): Fs
    requires fs.dir.ifree != NULLID
  {
    var dir := fs.dir.(ifree := IbAt(fs.disk, fs.dir.ifree).next);
    fs.(dir := dir)
  }

  /** The first index block of an empty file. */
  function FirstIndex(fs: Fs): Fs
    requires fs.dir.ifree != NULLID
  {
    var n, r := fs.dir.ifree, PopIndex(fs);
    r.(ib := Blank(0), dir := r.dir.(ilist := n), inum := n, ibdirty := true)
  }

  /** One more index block at the end of the chain; the old last block is written with its new link. */
  function ExtendIndex(fs: Fs): Fs
    requires fs.dir.ifree != NULLID && IbOk(fs.ib) && fs.ib.off + IDATA < 0x1_0000_0000
  {
    var n, r := fs.dir.ifree, PopIndex(fs);
    r.(disk := WithIb(r.disk, fs.inum, fs.ib.(next := n)), inum := n, ib := Blank(fs.ib.off + IDATA), ibdirty := true, dnum := NULLID)
  }

  const FILL: byte := 43

  function Filled(): Sector { seq(BLKSIZ, _ => FILL) }

  /** lfdballoc into slot `j` of the cached index block. */
  function AllocData(fs: Fs, j: nat): Fs
    requires fs.dir.dfree < |fs.disk| && IbOk(fs.ib) && j < IBLEN
  {
    var d := fs.dir.dfree;
    var dir := fs.dir.(dfree := NextOf(fs.disk[d]));
    fs.(dir := dir, db := Filled(), dnum := d,
        ib := fs.ib.(dba := fs.ib.dba[j := d]), ibdirty := true)
  }

  // ---- moving a block between lists ---------------------------------------

  lemma OwnedMove(used: seq<nat>, free: seq<nat>, all: multiset<nat>)
    requires Owned(used, free, all) && free != []
    ensures Owned(used + [free[0]], free[1..], all)
  {
    assert free == [free[0]] + free[1..];
    assert multiset(free) == multiset([free[0]]) + multiset(free[1..]);
    assert multiset(used + [free[0]]) == multiset(used) + multiset([free[0]]);
  }

  lemma FreeIndexTail(disk: Disk, ifree: seq<nat>)
    requires FreeIndex(disk, ifree) && ifree != []
    ensures FreeIndex(disk, ifree[1..]) && FreeLink(IbAt(disk, ifree[0]), Head(ifree[1..]))
  {
    forall k | 0 <= k < |ifree| - 1
      ensures FreeLink(IbAt(disk, ifree[1..][k]), After(ifree[1..], k))
    {
      assert ifree[1..][k] == ifree[k + 1];
      assert FreeLink(IbAt(disk, ifree[k + 1]), After(ifree, k + 1));
    }
  }

  lemma FreeIndexSame(disk: Disk, r: Disk, ifree: seq<nat>)
    requires FreeIndex(disk, ifree) && forall k | 0 <= k < |ifree| :: IbAt(r, ifree[k]) == IbAt(disk, ifree[k])
    ensures FreeIndex(r, ifree)
  {
  }

  lemma FreeDataTail(disk: Disk, dfree: seq<nat>)
    requires FreeData(disk, dfree) && dfree != []
    ensures FreeData(disk, dfree[1..]) && dfree[0] < |disk| && NextOf(disk[dfree[0]]) == Head(dfree[1..])
  {
    forall k | 0 <= k < |dfree| - 1
      ensures dfree[1..][k] < |disk| && NextOf(disk[dfree[1..][k]]) == After(dfree[1..], k)
    {
      assert dfree[1..][k] == dfree[k + 1];
      assert NextOf(disk[dfree[k + 1]]) == After(dfree, k + 1);
    }
  }

  // ---- the first index block ----------------------------------------------

  lemma FirstIndexKeeps(fs: Fs, sh: Shape, g: Geo, mi: multiset<nat>, md: multiset<nat>)
    requires Base(fs, sh, g, mi, md) && sh.chain == [] && sh.ifree != [] && sh.blocks == [] && !fs.ibdirty && !fs.dbdirty
    ensures fs.dir.ifree != NULLID && fs.dir.ifree == sh.ifree[0]
    ensures var r, sh' := FirstIndex(fs), sh.(chain := [sh.ifree[0]], ifree := sh.ifree[1..]);
            Base(r, sh', g, mi, md) && r.dir.size == fs.dir.size && r.disk == fs.disk
            && Contents(r, sh'.blocks) == Contents(fs, sh.blocks)
  {
    hide Contents, Owned, FreeData, FreeIndex, IbAt, Chain, Slots;
    var n := sh.ifree[0];
    assert n < g.nib < NULLID;
    var r, sh' := FirstIndex(fs), sh.(chain := [n], ifree := sh.ifree[1..]);
    OwnedMove(sh.chain, sh.ifree, mi);
    assert [] + [n] == [n];
    FreeIndexTail(fs.disk, sh.ifree);
    OneBlank(r, n);
    SameContents(fs, r, []);
  }

  lemma OneBlank(r: Fs, n: nat)
    requires r.inum == n && r.ib == Blank(0)
    ensures Chain(r, [n]) && Slots(r, [n], [])
  {
    assert ChainAt(r, [n], 0) && SlotsAt(r, [n], [], 0);
  }

  /** Where blocks are and are not. */
  lemma Places(fs: Fs, sh: Shape, g: Geo, mi: multiset<nat>, md: multiset<nat>)
    requires Base(fs, sh, g, mi, md)
    ensures GeoOk(g) && |fs.disk| == g.sectors && g.nib < NULLID && g.sectors < NULLID
    ensures forall k | 0 <= k < |sh.chain| :: sh.chain[k] < g.nib && sh.chain[k] in mi && sh.chain[k] !in sh.ifree
    ensures forall i, k | 0 <= i < k < |sh.chain| :: sh.chain[i] != sh.chain[k]
    ensures forall k | 0 <= k < |sh.ifree| :: sh.ifree[k] < g.nib && sh.ifree[k] !in sh.chain
    ensures forall i, k | 0 <= i < k < |sh.ifree| :: sh.ifree[i] != sh.ifree[k]
    ensures forall k | 0 <= k < |sh.blocks| :: FirstData(g) <= sh.blocks[k] < g.sectors && sh.blocks[k] in md && sh.blocks[k] !in sh.dfree
    ensures forall k | 0 <= k < |sh.dfree| :: FirstData(g) <= sh.dfree[k] < g.sectors && sh.dfree[k] !in sh.blocks
  {
    hide Chain, Slots, FreeIndex, FreeData, IbAt, Owned, Cache;
    OwnedApart(sh.chain, sh.ifree, mi);
    OwnedApart(sh.blocks, sh.dfree, md);
    assert forall k | 0 <= k < |sh.chain| :: sh.chain[k] in sh.chain;
    assert forall k | 0 <= k < |sh.ifree| :: sh.ifree[k] in sh.ifree;
    assert forall k | 0 <= k < |sh.blocks| :: sh.blocks[k] in sh.blocks;
    assert forall k | 0 <= k < |sh.dfree| :: sh.dfree[k] in sh.dfree;
  }

  lemma CachedAt(fs: Fs, sh: Shape, g: Geo, mi: multiset<nat>, md: multiset<nat>, k: nat)
    requires Base(fs, sh, g, mi, md) && k < |sh.chain| && fs.inum == sh.chain[k]
    ensures IbOk(fs.ib) && fs.ib.off == IDATA * k && fs.ib.next == After(sh.chain, k) && Ix(fs, sh.chain[k]) == fs.ib
    ensures forall j | 0 <= j < IBLEN :: fs.ib.dba[j] == Slot(sh.blocks, IBLEN * k + j)
  {
    assert ChainAt(fs, sh.chain, k) && SlotsAt(fs, sh.chain, sh.blocks, k);
  }

  // ---- one more index block -----------------------------------------------

  /** The chain with its last block relinked, and a blank block after it. */
  lemma ExtendChain(fs: Fs, r: Fs, chain: seq<nat>, blocks: seq<nat>, n: nat)
    requires Chain(fs, chain) && Slots(fs, chain, blocks) && chain != [] && |blocks| <= IBLEN * |chain| && n !in chain && n < NULLID
    requires forall k | 0 <= k < |chain| - 1 :: Ix(r, chain[k]) == Ix(fs, chain[k])
    requires var l := chain[|chain| - 1]; Ix(r, l) == Ix(fs, l).(next := n)
    requires IDATA * |chain| < 0x1_0000_0000 && Ix(r, n) == Blank(IDATA * |chain|)
    ensures Chain(r, chain + [n]) && Slots(r, chain + [n], blocks)
  {
    var c := chain + [n];
    forall k | 0 <= k < |c|
      ensures ChainAt(r, c, k) && SlotsAt(r, c, blocks, k)
    {
      if k < |chain| {
        assert ChainAt(fs, chain, k) && SlotsAt(fs, chain, blocks, k);
        assert c[k] == chain[k];
      } else {
        assert c[k] == n;
      }
    }
  }

  /** What the extended state looks like. */
  lemma ExtendLooks(fs: Fs, sh: Shape, g: Geo, mi: multiset<nat>, md: multiset<nat>)
    requires Base(fs, sh, g, mi, md) && sh.chain != [] && sh.ifree != [] && !fs.ibdirty && !fs.dbdirty
    requires fs.inum == sh.chain[|sh.chain| - 1] && IDATA * |sh.chain| < 0x1_0000_0000
    ensures fs.dir.ifree == sh.ifree[0] && sh.ifree[0] !in sh.chain && fs.dir.ifree != NULLID
    ensures IbOk(fs.ib) && fs.ib.off + IDATA == IDATA * |sh.chain|
    ensures var r, n := ExtendIndex(fs), sh.ifree[0];
            (forall k | 0 <= k < |sh.chain| - 1 :: Ix(r, sh.chain[k]) == Ix(fs, sh.chain[k]))
            && (var l := sh.chain[|sh.chain| - 1]; Ix(r, l) == Ix(fs, l).(next := n))
            && Ix(r, n) == Blank(IDATA * |sh.chain|) && Elsewhere(fs.disk, r.disk, g, mi, md)
            && (forall k | 0 <= k < |sh.blocks| :: Dx(r, sh.blocks[k]) == Dx(fs, sh.blocks[k]))
            && (forall k | 0 < k < |sh.ifree| :: IbAt(r.disk, sh.ifree[k]) == IbAt(fs.disk, sh.ifree[k]))
            && (forall k | 0 <= k < |sh.dfree| :: sh.dfree[k] < |fs.disk| == |r.disk| && r.disk[sh.dfree[k]] == fs.disk[sh.dfree[k]])
  {
    hide Chain, Slots, FreeIndex, FreeData, IbAt, Owned, WithIb, Numbers, Cache, Elsewhere, Blank;
    var n, l := sh.ifree[0], sh.chain[|sh.chain| - 1];
    Places(fs, sh, g, mi, md);
    CachedAt(fs, sh, g, mi, md, |sh.chain| - 1);
    IndexElsewhere(fs.disk, l, fs.ib.(next := n), g, mi, md);
    CleanData(fs, sh, g, mi, md);
  }

  lemma CleanData(fs: Fs, sh: Shape, g: Geo, mi: multiset<nat>, md: multiset<nat>)
    requires Base(fs, sh, g, mi, md) && !fs.dbdirty
    ensures forall k | 0 <= k < |sh.blocks| :: sh.blocks[k] < |fs.disk| && Dx(fs, sh.blocks[k]) == fs.disk[sh.blocks[k]]
  {
    hide Chain, Slots, FreeIndex, FreeData, IbAt, Owned;
  }

  lemma ExtendIndexKeeps(fs: Fs, sh: Shape, g: Geo, mi: multiset<nat>, md: multiset<nat>)
    requires Base(fs, sh, g, mi, md) && sh.chain != [] && sh.ifree != [] && !fs.ibdirty && !fs.dbdirty
    requires fs.inum == sh.chain[|sh.chain| - 1] && IDATA * |sh.chain| < 0x1_0000_0000 && |sh.blocks| <= IBLEN * |sh.chain|
    ensures fs.dir.ifree != NULLID && IbOk(fs.ib) && fs.ib.off + IDATA == IDATA * |sh.chain|
    ensures var r, sh' := ExtendIndex(fs), sh.(chain := sh.chain + [sh.ifree[0]], ifree := sh.ifree[1..]);
            Base(r, sh', g, mi, md) && r.dir.size == fs.dir.size && Elsewhere(fs.disk, r.disk, g, mi, md)
            && Contents(r, sh.blocks) == Contents(fs, sh.blocks)
  {
    hide Contents, Owned, IbAt, WithIb, Chain, Slots, Ix, Dx, Elsewhere;
    var n := sh.ifree[0];
    ExtendLooks(fs, sh, g, mi, md);
    var r, sh' := ExtendIndex(fs), sh.(chain := sh.chain + [n], ifree := sh.ifree[1..]);
    OwnedMove(sh.chain, sh.ifree, mi);
    FreeIndexTail(fs.disk, sh.ifree);
    FreeIndexSame(fs.disk, r.disk, sh.ifree[1..]);
    ExtendChain(fs, r, sh.chain, sh.blocks, n);
    SameContents(fs, r, sh.blocks);
    assert sh'.chain[|sh.chain|] == n;
  }

  // ---- one more data block ------------------------------------------------

  lemma DataSlots(fs: Fs, r: Fs, chain: seq<nat>, blocks: seq<nat>, d: nat, j: nat)
    requires Chain(fs, chain) && Slots(fs, chain, blocks) && chain != [] && j < IBLEN && |blocks| == IBLEN * (|chain| - 1) + j
    requires d < NULLID
    requires forall k | 0 <= k < |chain| - 1 :: Ix(r, chain[k]) == Ix(fs, chain[k])
    requires var l := chain[|chain| - 1]; IbOk(Ix(fs, l)) && Ix(r, l) == Ix(fs, l).(dba := Ix(fs, l).dba[j := d])
    ensures Chain(r, chain) && Slots(r, chain, blocks + [d])
  {
    forall k | 0 <= k < |chain|
      ensures ChainAt(r, chain, k) && SlotsAt(r, chain, blocks + [d], k)
    {
      assert ChainAt(fs, chain, k) && SlotsAt(fs, chain, blocks, k);
      forall i | 0 <= i < IBLEN
        ensures IbOk(Ix(r, chain[k])) && Ix(r, chain[k]).dba[i] == Slot(blocks + [d], IBLEN * k + i)
      {
        assert IbOk(Ix(fs, chain[k])) && Ix(fs, chain[k]).dba[i] == Slot(blocks, IBLEN * k + i);
      }
    }
  }

  lemma AllocLooks(fs: Fs, sh: Shape, g: Geo, mi: multiset<nat>, md: multiset<nat>, j: nat)
    requires Base(fs, sh, g, mi, md) && sh.chain != [] && sh.dfree != [] && !fs.dbdirty && j < IBLEN
    requires fs.inum == sh.chain[|sh.chain| - 1]
    ensures fs.dir.dfree == sh.dfree[0] < |fs.disk| && IbOk(fs.ib) && sh.dfree[0] !in sh.blocks && sh.dfree[0] < NULLID
    ensures var r, d := AllocData(fs, j), sh.dfree[0];
            (forall k | 0 <= k < |sh.chain| - 1 :: Ix(r, sh.chain[k]) == Ix(fs, sh.chain[k]))
            && (var l := sh.chain[|sh.chain| - 1]; IbOk(Ix(fs, l)) && Ix(r, l) == Ix(fs, l).(dba := Ix(fs, l).dba[j := d]))
            && (forall k | 0 <= k < |sh.blocks| :: Dx(r, sh.blocks[k]) == Dx(fs, sh.blocks[k]))
  {
    hide Chain, Slots, FreeIndex, FreeData, IbAt, Owned, NextOf, Numbers, Cache;
    Places(fs, sh, g, mi, md);
    CleanData(fs, sh, g, mi, md);
    CachedAt(fs, sh, g, mi, md, |sh.chain| - 1);
  }

  lemma MoreBlocks(fs: Fs, r: Fs, blocks: seq<nat>, d: nat)
    requires r.dir.size == fs.dir.size <= BLKSIZ * |blocks|
    requires forall k | 0 <= k < |blocks| :: Dx(r, blocks[k]) == Dx(fs, blocks[k])
    ensures Contents(r, blocks + [d]) == Contents(fs, blocks)
  {
    forall i | 0 <= i < fs.dir.size
      ensures ByteAt(r, blocks + [d], i) == ByteAt(fs, blocks, i)
    {
      assert (blocks + [d])[i / BLKSIZ] == blocks[i / BLKSIZ];
    }
  }

  /** After the allocation the buffer counts as changed: the disk does not have it yet. */
  lemma AllocDataKeeps(fs: Fs, sh: Shape, g: Geo, mi: multiset<nat>, md: multiset<nat>, j: nat)
    requires Base(fs, sh, g, mi, md) && sh.chain != [] && sh.dfree != [] && !fs.dbdirty && j < IBLEN
    requires fs.inum == sh.chain[|sh.chain| - 1] && |sh.blocks| == IBLEN * (|sh.chain| - 1) + j && fs.dir.size <= BLKSIZ * |sh.blocks|
    ensures fs.dir.dfree < |fs.disk| && IbOk(fs.ib)
    ensures var r, sh' := AllocData(fs, j), sh.(blocks := sh.blocks + [sh.dfree[0]], dfree := sh.dfree[1..]);
            Base(r.(dbdirty := true), sh', g, mi, md) && r.dnum == sh.dfree[0] && r.dir.size == fs.dir.size && r.disk == fs.disk
            && Contents(r, sh'.blocks) == Contents(fs, sh.blocks)
  {
    hide Contents, Owned, IbAt, Chain, Slots, Ix, Dx;
    AllocLooks(fs, sh, g, mi, md, j);
    var d := sh.dfree[0];
    var r := AllocData(fs, j);
    var r', sh' := r.(dbdirty := true), sh.(blocks := sh.blocks + [d], dfree := sh.dfree[1..]);
    OwnedMove(sh.blocks, sh.dfree, md);
    FreeDataTail(fs.disk, sh.dfree);
    DataSlots(fs, r, sh.chain, sh.blocks, d, j);
    MoreBlocks(fs, r, sh.blocks, d);
    SameIndex(r, r', sh.chain, sh'.blocks) by { DirtyIx(r, sh.chain); }
    assert sh'.blocks[|sh.blocks|] == d;
  }

  lemma DirtyIx(r: Fs, chain: seq<nat>)
    ensures forall k | 0 <= k < |chain| :: Ix(r.(dbdirty := true), chain[k]) == Ix(r, chain[k])
  {
  }
}
