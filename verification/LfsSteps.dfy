/** What flushing, loading and allocating do to an open file: its bytes and the ownership of every block stay as they were. */
module LfsSteps {
  import opened LfsDisk
  import opened LfsState

  /** Index and data blocks of other files are untouched. */
  ghost predicate Elsewhere(disk: Disk, r: Disk, g: Geo, mi: multiset<nat>, md: multiset<nat>) {
    |r| == |disk|
    && (forall n | 0 <= n < g.nib && n !in mi :: IbAt(r, n) == IbAt(disk, n))
    && (forall d | FirstData(g) <= d < g.sectors && d !in md && d < |disk| :: r[d] == disk[d])
  }

  lemma ElsewhereTrans(a: Disk, b: Disk, c: Disk, g: Geo, mi: multiset<nat>, md: multiset<nat>)
    requires Elsewhere(a, b, g, mi, md) && Elsewhere(b, c, g, mi, md)
    ensures Elsewhere(a, c, g, mi, md)
  {
  }

  lemma IndexElsewhere(disk: Disk, n: nat, ib: IBlk, g: Geo, mi: multiset<nat>, md: multiset<nat>)
    requires GeoOk(g) && |disk| == g.sectors && n < g.nib && n in mi && IbOk(ib)
    ensures Elsewhere(disk, WithIb(disk, n, ib), g, mi, md)
    ensures forall m: nat :: IbAt(WithIb(disk, n, ib), m) == if m == n then ib else IbAt(disk, m)
    ensures forall d | FirstData(g) <= d < g.sectors :: WithIb(disk, n, ib)[d] == disk[d]
  {
    SectorOfIndex(n, g);
    forall m: nat
      ensures IbAt(WithIb(disk, n, ib), m) == if m == n then ib else IbAt(disk, m)
    {
      IbPutGet(disk, n, ib, m);
    }
  }

  lemma DataElsewhere(disk: Disk, d: nat, s: Sector, g: Geo, mi: multiset<nat>, md: multiset<nat>)
    requires GeoOk(g) && |disk| == g.sectors && FirstData(g) <= d < g.sectors && d in md
    ensures Elsewhere(disk, disk[d := s], g, mi, md)
    ensures forall m: nat | m < g.nib :: IbAt(disk[d := s], m) == IbAt(disk, m)
  {
    forall m: nat | m < g.nib
      ensures IbAt(disk[d := s], m) == IbAt(disk, m)
    {
      SectorOfIndex(m, g);
    }
  }

  // ---- flushing -----------------------------------------------------------

  function WriteData(fs: Fs): Fs {
    if fs.dbdirty && fs.dnum < |fs.disk| then fs.(disk := fs.disk[fs.dnum := fs.db], dbdirty := false) else fs
  }

  function WriteIndex(fs: Fs): Fs {
    if fs.ibdirty && IbOk(fs.ib) then fs.(disk := WithIb(fs.disk, fs.inum, fs.ib), ibdirty := false) else fs
  }

  /** lfflush, as far as the file's blocks go */
  function Flush(fs: Fs): Fs { WriteIndex(WriteData(fs)) }

  /** The same blocks in effect, the same free lists, the same cache numbers. */
  ghost predicate Looks(fs: Fs, r: Fs, sh: Shape) {
    r.dir == fs.dir && r.pos == fs.pos && r.at == fs.at
    && (forall k | 0 <= k < |sh.chain| :: Ix(r, sh.chain[k]) == Ix(fs, sh.chain[k]))
    && (forall k | 0 <= k < |sh.blocks| :: Dx(r, sh.blocks[k]) == Dx(fs, sh.blocks[k]))
    && (forall k | 0 <= k < |sh.ifree| :: IbAt(r.disk, sh.ifree[k]) == IbAt(fs.disk, sh.ifree[k]))
    && (forall k | 0 <= k < |sh.dfree| :: sh.dfree[k] < |fs.disk| == |r.disk| && r.disk[sh.dfree[k]] == fs.disk[sh.dfree[k]])
  }

  /** A state that looks the same and has its cache in order is as good. */
  lemma LooksBase(fs: Fs, r: Fs, sh: Shape, g: Geo, mi: multiset<nat>, md: multiset<nat>)
    requires Base(fs, sh, g, mi, md) && Looks(fs, r, sh) && Cache(r, sh) && |r.disk| == |fs.disk|
    ensures Base(r, sh, g, mi, md) && Contents(r, sh.blocks) == Contents(fs, sh.blocks)
  {
    hide Chain, Slots, Cache, Owned, Contents, Numbers, IbAt, Ix, Dx;
    SameIndex(fs, r, sh.chain, sh.blocks);
    SameContents(fs, r, sh.blocks);
  }

  lemma WriteDataLooks(fs: Fs, sh: Shape, g: Geo, mi: multiset<nat>, md: multiset<nat>)
    requires Base(fs, sh, g, mi, md) && fs.dbdirty
    ensures var r := WriteData(fs); fs.dnum < |fs.disk| && Looks(fs, r, sh) && Cache(r, sh) && Elsewhere(fs.disk, r.disk, g, mi, md)
  {
    hide Chain, Slots, FreeIndex, FreeData, IbAt, Owned;
    OwnedApart(sh.blocks, sh.dfree, md);
    DataElsewhere(fs.disk, fs.dnum, fs.db, g, mi, md);
  }

  lemma WriteDataKeeps(fs: Fs, sh: Shape, g: Geo, mi: multiset<nat>, md: multiset<nat>)
    requires Base(fs, sh, g, mi, md)
    ensures var r := WriteData(fs);
            Base(r, sh, g, mi, md) && Contents(r, sh.blocks) == Contents(fs, sh.blocks) && Elsewhere(fs.disk, r.disk, g, mi, md)
            && !r.dbdirty && r == fs.(disk := r.disk, dbdirty := false)
  {
    hide Base, Contents, Looks, Cache;
    if fs.dbdirty {
      WriteDataLooks(fs, sh, g, mi, md);
      LooksBase(fs, WriteData(fs), sh, g, mi, md);
    }
  }

  lemma WriteIndexLooks(fs: Fs, sh: Shape, g: Geo, mi: multiset<nat>, md: multiset<nat>)
    requires Base(fs, sh, g, mi, md) && fs.ibdirty
    ensures var r := WriteIndex(fs); IbOk(fs.ib) && Looks(fs, r, sh) && Cache(r, sh) && Elsewhere(fs.disk, r.disk, g, mi, md)
  {
    hide Chain, Slots, FreeIndex, FreeData, IbAt, Owned, WithIb;
    OwnedApart(sh.chain, sh.ifree, mi);
    OwnedApart(sh.blocks, sh.dfree, md);
    IndexElsewhere(fs.disk, fs.inum, fs.ib, g, mi, md);
  }

  lemma WriteIndexKeeps(fs: Fs, sh: Shape, g: Geo, mi: multiset<nat>, md: multiset<nat>)
    requires Base(fs, sh, g, mi, md)
    ensures var r := WriteIndex(fs);
            Base(r, sh, g, mi, md) && Contents(r, sh.blocks) == Contents(fs, sh.blocks) && Elsewhere(fs.disk, r.disk, g, mi, md)
            && !r.ibdirty && r == fs.(disk := r.disk, ibdirty := false)
  {
    hide Base, Contents, Looks, Cache, WithIb;
    if fs.ibdirty {
      WriteIndexLooks(fs, sh, g, mi, md);
      LooksBase(fs, WriteIndex(fs), sh, g, mi, md);
    }
  }

  /** A flush leaves the file's bytes alone and puts everything cached on disk. */
  lemma FlushKeeps(fs: Fs, sh: Shape, g: Geo, mi: multiset<nat>, md: multiset<nat>)
    requires Base(fs, sh, g, mi, md)
    ensures var r := Flush(fs);
            Base(r, sh, g, mi, md) && Contents(r, sh.blocks) == Contents(fs, sh.blocks) && Elsewhere(fs.disk, r.disk, g, mi, md)
            && !r.ibdirty && !r.dbdirty && r == fs.(disk := r.disk, ibdirty := false, dbdirty := false)
  {
    hide Base, Contents, Elsewhere, WriteData, WriteIndex;
    WriteDataKeeps(fs, sh, g, mi, md);
    WriteIndexKeeps(WriteData(fs), sh, g, mi, md);
    ElsewhereTrans(fs.disk, WriteData(fs).disk, Flush(fs).disk, g, mi, md);
  }

  // ---- loading ------------------------------------------------------------

  /** lfibget into the control block. */
  function LoadIndex(fs: Fs, n: Word): Fs { fs.(inum := n, ib := IbAt(fs.disk, n)) }

  lemma LoadIndexKeeps(fs: Fs, n: Word, sh: Shape, g: Geo, mi: multiset<nat>, md: multiset<nat>)
    requires Base(fs, sh, g, mi, md) && !fs.ibdirty && n in sh.chain
    ensures var r := LoadIndex(fs, n);
            Base(r, sh, g, mi, md) && Contents(r, sh.blocks) == Contents(fs, sh.blocks)
  {
    var r := LoadIndex(fs, n);
    assert Looks(fs, r, sh);
    hide Chain, Slots, FreeIndex, FreeData, Owned;
    LooksBase(fs, r, sh, g, mi, md);
  }

  function LoadData(fs: Fs, d: Word): Fs {
    if d < |fs.disk| then fs.(dnum := d, db := fs.disk[d], dbdirty := false) else fs
  }

  lemma LoadDataKeeps(fs: Fs, d: Word, sh: Shape, g: Geo, mi: multiset<nat>, md: multiset<nat>)
    requires Base(fs, sh, g, mi, md) && !fs.dbdirty && d in sh.blocks
    ensures var r := LoadData(fs, d);
            Base(r, sh, g, mi, md) && Contents(r, sh.blocks) == Contents(fs, sh.blocks) && r.dnum == d
  {
    var r := LoadData(fs, d);
    assert d < |fs.disk| && d != NULLID;
    assert Looks(fs, r, sh);
    hide Chain, Slots, FreeIndex, FreeData, Owned;
    LooksBase(fs, r, sh, g, mi, md);
  }

  /** The data block forgotten; only when it is clean. */
  lemma DropDataKeeps(fs: Fs, sh: Shape, g: Geo, mi: multiset<nat>, md: multiset<nat>)
    requires Base(fs, sh, g, mi, md) && !fs.dbdirty
    ensures var r := fs.(dnum := NULLID);
            Base(r, sh, g, mi, md) && Contents(r, sh.blocks) == Contents(fs, sh.blocks)
  {
    var r := fs.(dnum := NULLID);
    assert forall k | 0 <= k < |sh.blocks| :: sh.blocks[k] < NULLID;
    assert Looks(fs, r, sh);
    hide Chain, Slots, FreeIndex, FreeData, Owned;
    LooksBase(fs, r, sh, g, mi, md);
  }
}
