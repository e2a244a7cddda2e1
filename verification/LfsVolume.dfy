/**
 The whole local file system: a directory of files that share one disk and two free lists, each
 file with its control block. Whatever one file does, the others keep their bytes, and every index
 and data block stays on exactly one chain or free list.
 */
module LfsVolume {
  import opened Bags
  import opened LfsDisk
  import opened LfsState
  import opened LfsSteps

  const NUM_DIR_ENT := 20
  const NLFL := 6
  const NAME_LEN := 16
  const NUL := '\0'

  /** A C string: no null character inside. */
  type Name = s: string | NUL !in s

  /** A directory entry. */
  datatype Entry = Entry(name: string, ilist: Word, size: nat)

  /** The directory: the heads of the free lists and the files. */
  datatype VDir = VDir(dfree: Word, ifree: Word, files: seq<Entry>)

  /** A file's control block. */
  datatype Cb = Cb(
    used: bool, pos: nat, inum: Word, ib: IBlk, dnum: Word, db: Sector, at: nat, ibdirty: bool, dbdirty: bool)

  /** The blocks of every file in order, and the free lists. */
  datatype Layout = Layout(chains: Lists, blocks: Lists, ifree: seq<nat>, dfree: seq<nat>)

  /** What one file sees of the directory. */
  function Mine(d: VDir, i: nat): Dir {
    Dir(d.dfree, d.ifree, if i < |d.files| then d.files[i].ilist else 0, if i < |d.files| then d.files[i].size else 0)
  }

  /** Nothing but the free-list heads and file `i`'s entry differs. */
  predicate Kept(d: VDir, r: VDir, i: nat) {
    |r.files| == |d.files| && (forall j | 0 <= j < |d.files| && j != i :: r.files[j] == d.files[j])
    && (i < |d.files| ==> r.files[i].name == d.files[i].name)
  }

  lemma KeptTrans(a: VDir, b: VDir, c: VDir, i: nat)
    requires Kept(a, b, i) && Kept(b, c, i)
    ensures Kept(a, c, i)
  {
  }

  lemma KeptSame(a: VDir, i: nat)
    ensures Kept(a, a, i)
  {
  }

  lemma KeptName(a: VDir, b: VDir, i: nat)
    requires Kept(a, b, i) && i < |a.files|
    ensures |b.files| == |a.files| && b.files[i].name == a.files[i].name
  {
  }

  lemma KeptSize(a: VDir, b: VDir, i: nat)
    requires Kept(a, b, i)
    ensures |b.files| == |a.files|
  {
  }

  function WithMine(d: VDir, i: nat, x: Dir): (r: VDir)
    ensures Kept(d, r, i) && (i < |d.files| ==> Mine(r, i) == x)
  {
    VDir(x.dfree, x.ifree, if i < |d.files| then d.files[i := Entry(d.files[i].name, x.ilist, x.size)] else d.files)
  }

  function FsOf(disk: Disk, d: VDir, c: Cb, i: nat): Fs {
    Fs(disk, Mine(d, i), c.pos, c.inum, c.ib, c.dnum, c.db, c.at, c.ibdirty, c.dbdirty)
  }

  function ShapeOf(l: Layout, i: nat): Shape
    requires i < |l.chains| && i < |l.blocks|
  {
    Shape(l.chains[i], l.blocks[i], l.ifree, l.dfree)
  }

  /** The blocks a file may touch: its own and the free ones. */
  ghost function Reach(used: seq<nat>, free: seq<nat>): multiset<nat> { multiset(used) + multiset(free) }

  /** Every number from `lo` up to `hi` is on exactly one list, once. */
  ghost predicate Parted(ls: Lists, free: seq<nat>, lo: nat, hi: nat) {
    forall x: nat :: All(ls)[x] + multiset(free)[x] == if lo <= x < hi then 1 else 0
  }

  ghost predicate Partition(l: Layout, g: Geo) {
    Parted(l.chains, l.ifree, 0, g.nib) && Parted(l.blocks, l.dfree, FirstData(g), g.sectors)
  }

  ghost predicate FileOk(disk: Disk, d: VDir, c: Cb, l: Layout, g: Geo, i: nat)
    requires i < |l.chains| && i < |l.blocks|
  {
    Ok(FsOf(disk, d, c, i), ShapeOf(l, i), g, Reach(l.chains[i], l.ifree), Reach(l.blocks[i], l.dfree))
    && (!c.used ==> !c.ibdirty && !c.dbdirty)
  }

  /** The free lists on disk and their heads. */
  ghost predicate FreeOk(disk: Disk, d: VDir, ifree: seq<nat>, dfree: seq<nat>, g: Geo) {
    GeoOk(g) && |disk| == g.sectors && d.ifree == Head(ifree) && d.dfree == Head(dfree)
    && IndexNumbers(ifree, g) && DataNumbers(dfree, g) && FreeIndex(disk, ifree) && FreeData(disk, dfree)
  }

  predicate Matching(d: VDir, cbs: seq<Cb>, l: Layout) {
    |cbs| == |d.files| == |l.chains| == |l.blocks|
  }

  ghost predicate VolOk(disk: Disk, d: VDir, cbs: seq<Cb>, l: Layout, g: Geo) {
    Matching(d, cbs, l) && FreeOk(disk, d, l.ifree, l.dfree, g) && Partition(l, g)
    && forall i | 0 <= i < |cbs| :: FileOk(disk, d, cbs[i], l, g, i)
  }

  function BytesOf(disk: Disk, d: VDir, c: Cb, blocks: seq<nat>, i: nat): seq<byte> {
    Contents(FsOf(disk, d, c, i), blocks)
  }

  // ---- ownership ----------------------------------------------------------

  /** Another file's block is neither this file's nor free. */
  lemma OutOfReach(ls: Lists, free: seq<nat>, lo: nat, hi: nat, i: nat, j: nat, x: nat)
    requires Parted(ls, free, lo, hi) && i < |ls| && j < |ls| && i != j && x in ls[j]
    ensures x !in Reach(ls[i], free) && lo <= x < hi
  {
    TwoLists(ls, if i < j then i else j, if i < j then j else i, x);
    Occurs(ls[j], x);
    hide All;
    assert All(ls)[x] + multiset(free)[x] <= 1;
  }

  /** Every file owns its part, each block once. */
  lemma PartOwned(ls: Lists, free: seq<nat>, lo: nat, hi: nat, j: nat)
    requires Parted(ls, free, lo, hi) && j < |ls|
    ensures Owned(ls[j], free, Reach(ls[j], free))
  {
    AllSet(ls, j, []);
    hide All;
    forall x | x in Reach(ls[j], free)
      ensures Reach(ls[j], free)[x] == 1
    {
      assert All(ls)[x] + multiset(free)[x] <= 1;
      assert multiset(ls[j])[x] <= All(ls)[x];
    }
  }

  /** One file and the free list exchange blocks: everything is still somewhere, once. */
  lemma PartedStep(ls: Lists, free: seq<nat>, lo: nat, hi: nat, i: nat, used: seq<nat>, free': seq<nat>)
    requires Parted(ls, free, lo, hi) && i < |ls| && Reach(used, free') == Reach(ls[i], free)
    ensures Parted(ls[i := used], free', lo, hi)
  {
    AllSet(ls, i, used);
    hide All;
    forall x: nat
      ensures All(ls[i := used])[x] + multiset(free')[x] == if lo <= x < hi then 1 else 0
    {
      assert All(ls)[x] + multiset(free)[x] == if lo <= x < hi then 1 else 0;
      assert Reach(used, free')[x] == Reach(ls[i], free)[x];
      assert multiset(ls[i])[x] <= All(ls)[x];
    }
  }

  // ---- the other files ----------------------------------------------------

  /** Nothing on disk that belongs to file `j` has changed. */
  ghost predicate Undisturbed(disk: Disk, r: Disk, chain: seq<nat>, blocks: seq<nat>) {
    |r| == |disk| && (forall k | 0 <= k < |chain| :: IbAt(r, chain[k]) == IbAt(disk, chain[k]))
    && (forall k | 0 <= k < |blocks| :: blocks[k] < |disk| && r[blocks[k]] == disk[blocks[k]])
  }

  lemma ElsewhereUndisturbed(disk: Disk, r: Disk, l: Layout, g: Geo, i: nat, j: nat)
    requires Partition(l, g) && |disk| == g.sectors && i != j && i < |l.chains| == |l.blocks| && j < |l.chains|
    requires Elsewhere(disk, r, g, Reach(l.chains[i], l.ifree), Reach(l.blocks[i], l.dfree))
    ensures Undisturbed(disk, r, l.chains[j], l.blocks[j])
  {
    hide Parted, IbAt, Reach;
    forall k | 0 <= k < |l.chains[j]|
      ensures IbAt(r, l.chains[j][k]) == IbAt(disk, l.chains[j][k])
    {
      OutOfReach(l.chains, l.ifree, 0, g.nib, i, j, l.chains[j][k]);
    }
    forall k | 0 <= k < |l.blocks[j]|
      ensures l.blocks[j][k] < |disk| && r[l.blocks[j][k]] == disk[l.blocks[j][k]]
    {
      OutOfReach(l.blocks, l.dfree, FirstData(g), g.sectors, i, j, l.blocks[j][k]);
    }
  }

  /** A file whose blocks are undisturbed looks as before through its cache. */
  lemma UndisturbedLooks(a: Fs, b: Fs, s: Shape)
    requires b == a.(disk := b.disk, dir := b.dir) && b.dir.size == a.dir.size
    requires Undisturbed(a.disk, b.disk, s.chain, s.blocks) && Chain(a, s.chain) && Slots(a, s.chain, s.blocks) && Cache(a, s)
    ensures Chain(b, s.chain) && Slots(b, s.chain, s.blocks) && Cache(b, s) && Contents(b, s.blocks) == Contents(a, s.blocks)
  {
    hide Chain, Slots, IbAt, Contents;
    SameIndex(a, b, s.chain, s.blocks);
    SameContents(a, b, s.blocks);
  }

  lemma CacheShape(fs: Fs, s: Shape, t: Shape)
    requires Cache(fs, s) && s.chain == t.chain && s.blocks == t.blocks
    ensures Cache(fs, t)
  {
  }

  /** File `j` after something happened to the free lists and to blocks out of its reach. */
  lemma StaysOk(disk: Disk, d: VDir, r: Disk, e: VDir, c: Cb, l: Layout, m: Layout, g: Geo, j: nat)
    requires j < |l.chains| == |l.blocks| && j < |m.chains| == |m.blocks| && FileOk(disk, d, c, l, g, j)
    requires m.chains[j] == l.chains[j] && m.blocks[j] == l.blocks[j] && j < |d.files| && j < |e.files| && e.files[j] == d.files[j]
    requires Undisturbed(disk, r, l.chains[j], l.blocks[j]) && FreeOk(r, e, m.ifree, m.dfree, g) && Partition(m, g)
    ensures FileOk(r, e, c, m, g, j) && BytesOf(r, e, c, m.blocks[j], j) == BytesOf(disk, d, c, l.blocks[j], j)
  {
    hide Parted, IbAt, Reach, Owned, Chain, Slots, Cache, FreeIndex, FreeData, Contents, Undisturbed;
    var a, b := FsOf(disk, d, c, j), FsOf(r, e, c, j);
    UndisturbedLooks(a, b, ShapeOf(l, j));
    CacheShape(b, ShapeOf(l, j), ShapeOf(m, j));
    PartOwned(m.chains, m.ifree, 0, g.nib, j);
    PartOwned(m.blocks, m.dfree, FirstData(g), g.sectors, j);
  }

  function Moved(l: Layout, i: nat, s: Shape): Layout
    requires i < |l.chains| && i < |l.blocks|
  {
    Layout(l.chains[i := s.chain], l.blocks[i := s.blocks], s.ifree, s.dfree)
  }

  lemma OkFree(disk: Disk, d: VDir, c: Cb, i: nat, s: Shape, g: Geo, mi: multiset<nat>, md: multiset<nat>)
    requires Ok(FsOf(disk, d, c, i), s, g, mi, md)
    ensures FreeOk(disk, d, s.ifree, s.dfree, g) && Reach(s.chain, s.ifree) == mi && Reach(s.blocks, s.dfree) == md
  {
    hide Chain, Slots, Cache, FreeIndex, FreeData, IbAt;
  }

  /** What one file does within its reach keeps the whole file system, and every other file's bytes. */
  lemma OneFileMoves(disk: Disk, d: VDir, cbs: seq<Cb>, l: Layout, g: Geo, i: nat, r: Disk, e: VDir, c: Cb, s: Shape)
    requires VolOk(disk, d, cbs, l, g) && i < |cbs| && Kept(d, e, i)
    requires Ok(FsOf(r, e, c, i), s, g, Reach(l.chains[i], l.ifree), Reach(l.blocks[i], l.dfree))
    requires !c.used ==> !c.ibdirty && !c.dbdirty
    requires Elsewhere(disk, r, g, Reach(l.chains[i], l.ifree), Reach(l.blocks[i], l.dfree))
    ensures VolOk(r, e, cbs[i := c], Moved(l, i, s), g)
    ensures forall j | 0 <= j < |cbs| && j != i :: BytesOf(r, e, cbs[j], l.blocks[j], j) == BytesOf(disk, d, cbs[j], l.blocks[j], j)
  {
    hide Ok, Parted, Reach, FreeOk, Elsewhere, BytesOf, FsOf;
    var m := Moved(l, i, s);
    OkFree(r, e, c, i, s, g, Reach(l.chains[i], l.ifree), Reach(l.blocks[i], l.dfree));
    PartedStep(l.chains, l.ifree, 0, g.nib, i, s.chain, s.ifree);
    PartedStep(l.blocks, l.dfree, FirstData(g), g.sectors, i, s.blocks, s.dfree);
    FreeSize(disk, d, l, g);
    forall j | 0 <= j < |cbs|
      ensures FileOk(r, e, cbs[i := c][j], m, g, j)
      ensures j != i ==> BytesOf(r, e, cbs[j], l.blocks[j], j) == BytesOf(disk, d, cbs[j], l.blocks[j], j)
    {
      if j != i {
        ElsewhereUndisturbed(disk, r, l, g, i, j);
        StaysOk(disk, d, r, e, cbs[j], l, m, g, j);
      }
    }
  }

  lemma FreeSize(disk: Disk, d: VDir, l: Layout, g: Geo)
    requires FreeOk(disk, d, l.ifree, l.dfree, g)
    ensures |disk| == g.sectors
  {
  }

  // ---- the file system as its users see it --------------------------------

  /** A file as a user sees it: a name, bytes, a position, and whether it is open. */
  datatype AFile = AFile(name: string, bytes: seq<byte>, pos: nat, open: bool)

  function AFileOf(disk: Disk, d: VDir, c: Cb, blocks: seq<nat>, i: nat): AFile {
    AFile(if i < |d.files| then d.files[i].name else "", BytesOf(disk, d, c, blocks, i), c.pos, c.used)
  }

  function AbsOf(disk: Disk, d: VDir, cbs: seq<Cb>, l: Layout): (a: seq<AFile>)
    ensures |a| == |cbs|
  {
    seq<AFile>(|cbs|, i requires 0 <= i < |cbs| => AFileOf(disk, d, cbs[i], if i < |l.blocks| then l.blocks[i] else [], i))
  }

  /** To its users, what one file does is a change to that file and to no other. */
  lemma OneFileSeen(disk: Disk, d: VDir, cbs: seq<Cb>, l: Layout, g: Geo, i: nat, r: Disk, e: VDir, c: Cb, s: Shape)
    requires VolOk(disk, d, cbs, l, g) && i < |cbs| && Kept(d, e, i)
    requires Ok(FsOf(r, e, c, i), s, g, Reach(l.chains[i], l.ifree), Reach(l.blocks[i], l.dfree))
    requires !c.used ==> !c.ibdirty && !c.dbdirty
    requires Elsewhere(disk, r, g, Reach(l.chains[i], l.ifree), Reach(l.blocks[i], l.dfree))
    ensures VolOk(r, e, cbs[i := c], Moved(l, i, s), g)
    ensures AbsOf(r, e, cbs[i := c], Moved(l, i, s)) == AbsOf(disk, d, cbs, l)[i := AFileOf(r, e, c, s.blocks, i)]
  {
    hide Ok, Parted, Reach, FreeOk, Elsewhere, BytesOf, FsOf, FileOk, Partition;
    OneFileMoves(disk, d, cbs, l, g, i, r, e, c, s);
  }

  // ---- a fresh volume and a new file --------------------------------------

  /** The numbers from `a` up to `b`. */
  ghost function Range(a: nat, b: nat): (s: seq<nat>)
    requires a <= b
    ensures |s| == b - a && forall k | 0 <= k < |s| :: s[k] == a + k
  {
    seq<nat>(b - a, k requires 0 <= k < b - a => a + k)
  }

  lemma {:induction false} RangeOnce(a: nat, b: nat, x: nat)
    requires a <= b
    ensures multiset(Range(a, b))[x] == if a <= x < b then 1 else 0
    decreases b
  {
    if a < b {
      RangeOnce(a, b - 1, x);
      assert Range(a, b) == Range(a, b - 1) + [b - 1];
    }
  }

  lemma RangeParted(a: nat, b: nat)
    requires a <= b
    ensures Parted([], Range(a, b), a, b)
  {
    hide Range;
    forall x: nat
      ensures All([])[x] + multiset(Range(a, b))[x] == if a <= x < b then 1 else 0
    {
      RangeOnce(a, b, x);
    }
  }

  /** After lfscreate: no files, and every block on its free list. */
  lemma FreshVolume(disk: Disk, d: VDir, g: Geo)
    requires d.files == [] && g.sectors >= FirstData(g) && FreeOk(disk, d, Range(0, g.nib), Range(FirstData(g), g.sectors), g)
    ensures VolOk(disk, d, [], Layout([], [], Range(0, g.nib), Range(FirstData(g), g.sectors)), g)
  {
    hide FreeOk, Range, Parted;
    RangeParted(0, g.nib);
    RangeParted(FirstData(g), g.sectors);
  }

  /** lfsopen's control block: open at position 0, nothing cached, the byte pointer past the buffer. */
  function FreshCb(): Cb {
    Cb(true, 0, NULLID, Blank(0), NULLID, seq<byte>(BLKSIZ, _ => 0), BLKSIZ, false, false)
  }

  function WithFile(d: VDir, name: string): VDir { d.(files := d.files + [Entry(name, NULLID, 0)]) }

  function WithEmpty(l: Layout): Layout { l.(chains := l.chains + [[]], blocks := l.blocks + [[]]) }

  lemma {:induction false} AllEmpty(ls: Lists)
    ensures All(ls + [[]]) == All(ls)
  {
    var one: Lists := [[]];
    if ls == [] {
      assert ls + [[]] == one && one[1..] == [];
    } else {
      assert (ls + [[]])[1..] == ls[1..] + [[]];
      AllEmpty(ls[1..]);
    }
  }

  lemma EmptyFile(disk: Disk, d: VDir, l: Layout, g: Geo, i: nat)
    requires i + 1 == |d.files| == |l.chains| == |l.blocks| && l.chains[i] == [] && l.blocks[i] == [] && d.files[i].ilist == NULLID && d.files[i].size == 0
    requires FreeOk(disk, d, l.ifree, l.dfree, g) && Partition(l, g)
    ensures FileOk(disk, d, FreshCb(), l, g, i) && BytesOf(disk, d, FreshCb(), [], i) == []
  {
    hide Parted, IbAt, Reach, Owned, FreeIndex, FreeData;
    PartOwned(l.chains, l.ifree, 0, g.nib, i);
    PartOwned(l.blocks, l.dfree, FirstData(g), g.sectors, i);
    var fs := FsOf(disk, d, FreshCb(), i);
    assert Chain(fs, []) && Slots(fs, [], []);
  }

  /** lfsopen of a file that is not there: one more, empty file; the others as they were. */
  lemma NewFile(disk: Disk, d: VDir, cbs: seq<Cb>, l: Layout, g: Geo, name: string)
    requires VolOk(disk, d, cbs, l, g)
    ensures var e, m := WithFile(d, name), WithEmpty(l);
            VolOk(disk, e, cbs + [FreshCb()], m, g)
            && BytesOf(disk, e, FreshCb(), [], |cbs|) == []
            && forall j | 0 <= j < |cbs| :: BytesOf(disk, e, cbs[j], l.blocks[j], j) == BytesOf(disk, d, cbs[j], l.blocks[j], j)
  {
    hide FreeOk, Parted, FileOk, BytesOf, FreshCb;
    var e, m := WithFile(d, name), WithEmpty(l);
    assert FreeOk(disk, e, m.ifree, m.dfree, g) by { SameFree(disk, d, e, l, g); }
    assert Partition(m, g) by { AddedParts(l, g); }
    FreeSize(disk, d, l, g);
    forall j | 0 <= j <= |cbs|
      ensures FileOk(disk, e, (cbs + [FreshCb()])[j], m, g, j)
      ensures j < |cbs| ==> BytesOf(disk, e, cbs[j], l.blocks[j], j) == BytesOf(disk, d, cbs[j], l.blocks[j], j)
    {
      if j < |cbs| {
        SelfUndisturbed(disk, l, g, j);
        StaysOk(disk, d, disk, e, cbs[j], l, m, g, j);
      } else {
        EmptyFile(disk, e, m, g, j);
      }
    }
    EmptyFile(disk, e, m, g, |cbs|);
  }

  lemma SameFree(disk: Disk, d: VDir, e: VDir, l: Layout, g: Geo)
    requires FreeOk(disk, d, l.ifree, l.dfree, g) && e.ifree == d.ifree && e.dfree == d.dfree
    ensures FreeOk(disk, e, l.ifree, l.dfree, g)
  {
  }

  lemma AddedParts(l: Layout, g: Geo)
    requires Partition(l, g)
    ensures Partition(WithEmpty(l), g)
  {
    AllEmpty(l.chains);
    AllEmpty(l.blocks);
    hide All;
  }

  lemma SelfUndisturbed(disk: Disk, l: Layout, g: Geo, j: nat)
    requires Partition(l, g) && |disk| == g.sectors && j < |l.chains| == |l.blocks|
    ensures Undisturbed(disk, disk, l.chains[j], l.blocks[j])
  {
    hide IbAt;
    forall k | 0 <= k < |l.blocks[j]|
      ensures l.blocks[j][k] < |disk|
    {
      AllSet(l.blocks, j, []);
      Occurs(l.blocks[j], l.blocks[j][k]);
      assert All(l.blocks)[l.blocks[j][k]] >= 1;
    }
  }
}
