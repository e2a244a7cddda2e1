/**
 The table of control blocks. Each one in use is for one directory entry; as long as no two are for the same entry,
 the table and the disk together are a file system in order.
 */
module LfsDevices {
  import opened Bags
  import opened LfsDisk
  import opened LfsState
  import opened LfsSteps
  import opened LfsVolume

  /** A control block with the entry it is for, the name it has, and the blocks of its file. */
  datatype DevView = DevView(cb: Cb, slot: nat, name: seq<char>, chain: seq<nat>, blocks: seq<nat>)

  /** A file nobody has open: nothing cached. */
  function ClosedCb(): Cb { FreshCb().(used := false) }

  predicate Uncached(c: Cb) {
    c.pos == 0 && c.inum == NULLID && c.dnum == NULLID && c.at == BLKSIZ && !c.ibdirty && !c.dbdirty && IbOk(c.ib)
  }

  predicate DevOk(x: DevView) { IbOk(x.cb.ib) && |x.name| == NAME_LEN && forall k | 0 <= k < NAME_LEN :: x.name[k] == NUL }

  /** Control block `n`, if in use, is the one its entry is held by. */
  predicate Holds(x: DevView, n: nat, holder: seq<int>, l: Layout) {
    x.cb.used ==>
      x.slot < |holder| && holder[x.slot] == n
      && x.slot < |l.chains| && x.slot < |l.blocks| && x.chain == l.chains[x.slot] && x.blocks == l.blocks[x.slot]
  }

  predicate Held(devs: seq<DevView>, holder: seq<int>, i: nat)
    requires i < |holder|
  {
    holder[i] == -1 || (0 <= holder[i] < |devs| && devs[holder[i]].cb.used && devs[holder[i]].slot == i)
  }

  ghost predicate WiredTo(devs: seq<DevView>, holder: seq<int>, l: Layout) {
    |holder| == |l.chains| == |l.blocks|
    && (forall n | 0 <= n < |devs| :: DevOk(devs[n]) && Holds(devs[n], n, holder, l))
    && (forall i | 0 <= i < |holder| :: Held(devs, holder, i))
  }

  function CbOf(devs: seq<DevView>, h: int): Cb { if 0 <= h < |devs| then devs[h].cb else ClosedCb() }

  /** The control block of every file. */
  function CbsOf(devs: seq<DevView>, holder: seq<int>): (cbs: seq<Cb>)
    ensures |cbs| == |holder|
  {
    seq<Cb>(|holder|, i requires 0 <= i < |holder| => CbOf(devs, holder[i]))
  }

  ghost predicate SysOk(disk: Disk, d: VDir, devs: seq<DevView>, holder: seq<int>, l: Layout, g: Geo) {
    WiredTo(devs, holder, l) && VolOk(disk, d, CbsOf(devs, holder), l, g)
  }

  /** No two control blocks in use are for the same entry. */
  ghost predicate OnePer(devs: seq<DevView>) {
    forall m, n | 0 <= m < n < |devs| && devs[m].cb.used && devs[n].cb.used :: devs[m].slot != devs[n].slot
  }

  lemma WiredOnePer(devs: seq<DevView>, holder: seq<int>, l: Layout)
    requires WiredTo(devs, holder, l)
    ensures OnePer(devs)
  {
    forall m, n | 0 <= m < n < |devs| && devs[m].cb.used && devs[n].cb.used
      ensures devs[m].slot != devs[n].slot
    {
      assert Holds(devs[m], m, holder, l) && Holds(devs[n], n, holder, l);
    }
  }

  // ---- a file with nothing cached ------------------------------------------

  lemma UncachedOk(disk: Disk, d: VDir, c: Cb, e: Cb, l: Layout, g: Geo, i: nat)
    requires i < |l.chains| && i < |l.blocks| && FileOk(disk, d, c, l, g, i) && !c.ibdirty && !c.dbdirty && Uncached(e)
    ensures FileOk(disk, d, e, l, g, i) && BytesOf(disk, d, e, l.blocks[i], i) == BytesOf(disk, d, c, l.blocks[i], i)
  {
    var fs, r, s := FsOf(disk, d, c, i), FsOf(disk, d, e, i), ShapeOf(l, i);
    assert Cache(r, s);
    assert forall k | 0 <= k < |s.chain| :: s.chain[k] < NULLID;
    assert forall k | 0 <= k < |s.blocks| :: s.blocks[k] < NULLID;
    SameIndex(fs, r, s.chain, s.blocks);
    SameContents(fs, r, s.blocks);
    hide Chain, Slots, Owned, FreeIndex, FreeData, Contents, Cache;
  }

  /** One file's control block exchanged for one with nothing cached. */
  lemma SwapCb(disk: Disk, d: VDir, cbs: seq<Cb>, l: Layout, g: Geo, i: nat, c: Cb)
    requires VolOk(disk, d, cbs, l, g) && i < |cbs| && !cbs[i].ibdirty && !cbs[i].dbdirty && Uncached(c)
    ensures VolOk(disk, d, cbs[i := c], l, g)
    ensures AbsOf(disk, d, cbs[i := c], l) == var a := AbsOf(disk, d, cbs, l); a[i := a[i].(pos := 0, open := c.used)]
  {
    assert FileOk(disk, d, cbs[i], l, g, i);
    hide FileOk, FreeOk, Partition, BytesOf;
    UncachedOk(disk, d, cbs[i], c, l, g, i);
  }

  // ---- what a call does to the table ---------------------------------------

  /** Who holds what does not change with what one control block caches. */
  lemma CbsMoved(devs: seq<DevView>, holder: seq<int>, l: Layout, n: nat, x: DevView)
    requires WiredTo(devs, holder, l) && n < |devs| && devs[n].cb.used && x.slot == devs[n].slot
    ensures x.slot < |holder|
    ensures CbsOf(devs[n := x], holder) == CbsOf(devs, holder)[x.slot := x.cb]
    ensures CbsOf(devs[n := x], holder[x.slot := -1]) == CbsOf(devs, holder)[x.slot := ClosedCb()]
  {
    assert Holds(devs[n], n, holder, l);
    forall j | 0 <= j < |holder| && j != x.slot
      ensures holder[j] != n
    {
      assert Held(devs, holder, j);
    }
  }

  lemma WiredMoved(devs: seq<DevView>, holder: seq<int>, l: Layout, n: nat, x: DevView, s: Shape)
    requires WiredTo(devs, holder, l) && n < |devs| && devs[n].cb.used && x.slot == devs[n].slot && x.cb.used
    requires DevOk(x) && s.chain == x.chain && s.blocks == x.blocks
    ensures x.slot < |l.chains| == |l.blocks| && WiredTo(devs[n := x], holder, Moved(l, x.slot, s))
  {
    assert Holds(devs[n], n, holder, l);
    hide DevOk;
    var ds, m := devs[n := x], Moved(l, x.slot, s);
    forall p | 0 <= p < |ds|
      ensures DevOk(ds[p]) && Holds(ds[p], p, holder, m)
    {
      assert Holds(devs[p], p, holder, l) && DevOk(devs[p]);
    }
    forall i | 0 <= i < |holder|
      ensures Held(ds, holder, i)
    {
      assert Held(devs, holder, i);
    }
  }

  lemma WiredClosed(devs: seq<DevView>, holder: seq<int>, l: Layout, n: nat, x: DevView, s: Shape)
    requires WiredTo(devs, holder, l) && n < |devs| && devs[n].cb.used && x.slot == devs[n].slot && !x.cb.used
    requires DevOk(x)
    ensures x.slot < |l.chains| == |l.blocks| == |holder| && WiredTo(devs[n := x], holder[x.slot := -1], Moved(l, x.slot, s))
  {
    assert Holds(devs[n], n, holder, l);
    hide DevOk;
    var ds, hs, m := devs[n := x], holder[x.slot := -1], Moved(l, x.slot, s);
    forall p | 0 <= p < |ds|
      ensures DevOk(ds[p]) && Holds(ds[p], p, hs, m)
    {
      assert Holds(devs[p], p, holder, l) && DevOk(devs[p]);
    }
    forall i | 0 <= i < |hs|
      ensures Held(ds, hs, i)
    {
      assert Held(devs, holder, i);
    }
  }

  /** A call on an open file, through its control block. */
  lemma DevMoves(disk: Disk, d: VDir, devs: seq<DevView>, holder: seq<int>, l: Layout, g: Geo, n: nat, r: Disk, e: VDir, x: DevView, s: Shape)
    requires SysOk(disk, d, devs, holder, l, g) && n < |devs| && devs[n].cb.used && x.cb.used
    requires x.slot == devs[n].slot && DevOk(x) && s.chain == x.chain && s.blocks == x.blocks
    requires x.slot < |l.chains| == |l.blocks| && Kept(d, e, x.slot)
    requires Ok(FsOf(r, e, x.cb, x.slot), s, g, Reach(l.chains[x.slot], l.ifree), Reach(l.blocks[x.slot], l.dfree))
    requires Elsewhere(disk, r, g, Reach(l.chains[x.slot], l.ifree), Reach(l.blocks[x.slot], l.dfree))
    ensures SysOk(r, e, devs[n := x], holder, Moved(l, x.slot, s), g) && x.slot < |holder|
    ensures AbsOf(r, e, CbsOf(devs[n := x], holder), Moved(l, x.slot, s))
            == AbsOf(disk, d, CbsOf(devs, holder), l)[x.slot := AFileOf(r, e, x.cb, s.blocks, x.slot)]
  {
    hide VolOk, Ok, Elsewhere, Reach, WiredTo, CbsOf, AbsOf, FsOf, AFileOf, Moved, DevOk;
    CbsMoved(devs, holder, l, n, x);
    WiredMoved(devs, holder, l, n, x, s);
    OneFileSeen(disk, d, CbsOf(devs, holder), l, g, x.slot, r, e, x.cb, s);
  }

  /** The call that closes it. */
  lemma DevCloses(disk: Disk, d: VDir, devs: seq<DevView>, holder: seq<int>, l: Layout, g: Geo, n: nat, r: Disk, e: VDir, x: DevView, s: Shape)
    requires SysOk(disk, d, devs, holder, l, g) && n < |devs| && devs[n].cb.used && !x.cb.used && !x.cb.ibdirty && !x.cb.dbdirty
    requires x.slot == devs[n].slot && DevOk(x) && s.chain == x.chain && s.blocks == x.blocks
    requires x.slot < |l.chains| == |l.blocks| == |holder| && Kept(d, e, x.slot)
    requires Ok(FsOf(r, e, x.cb, x.slot), s, g, Reach(l.chains[x.slot], l.ifree), Reach(l.blocks[x.slot], l.dfree))
    requires Elsewhere(disk, r, g, Reach(l.chains[x.slot], l.ifree), Reach(l.blocks[x.slot], l.dfree))
    ensures SysOk(r, e, devs[n := x], holder[x.slot := -1], Moved(l, x.slot, s), g)
    ensures AbsOf(r, e, CbsOf(devs[n := x], holder[x.slot := -1]), Moved(l, x.slot, s))
            == AbsOf(disk, d, CbsOf(devs, holder), l)[x.slot := AFileOf(r, e, x.cb, s.blocks, x.slot).(pos := 0, open := false)]
  {
    hide VolOk, Ok, Elsewhere, Reach, WiredTo, CbsOf, AbsOf, FsOf, AFileOf, Moved, DevOk, Uncached;
    var cbs, m, a := CbsOf(devs, holder), Moved(l, x.slot, s), AbsOf(disk, d, CbsOf(devs, holder), l);
    CbsMoved(devs, holder, l, n, x);
    WiredClosed(devs, holder, l, n, x, s);
    OneFileSeen(disk, d, cbs, l, g, x.slot, r, e, x.cb, s);
    NoneCached();
    SwapCb(r, e, cbs[x.slot := x.cb], m, g, x.slot, ClosedCb());
    assert cbs[x.slot := x.cb][x.slot := ClosedCb()] == cbs[x.slot := ClosedCb()];
  }

  lemma NoneCached()
    ensures Uncached(ClosedCb()) && !ClosedCb().used
  {
  }

  lemma WiredOpened(devs: seq<DevView>, holder: seq<int>, l: Layout, n: nat, i: nat, x: DevView)
    requires WiredTo(devs, holder, l) && n < |devs| && !devs[n].cb.used && i < |holder| && holder[i] == -1
    requires x.cb.used && x.slot == i && DevOk(x) && x.chain == l.chains[i] && x.blocks == l.blocks[i]
    ensures WiredTo(devs[n := x], holder[i := n], l) && CbsOf(devs[n := x], holder[i := n]) == CbsOf(devs, holder)[i := x.cb]
  {
    hide DevOk;
    var ds, hs := devs[n := x], holder[i := n];
    forall p | 0 <= p < |ds|
      ensures DevOk(ds[p]) && Holds(ds[p], p, hs, l)
    {
      assert Holds(devs[p], p, holder, l) && DevOk(devs[p]);
    }
    forall j | 0 <= j < |hs|
      ensures Held(ds, hs, j) && CbOf(ds, hs[j]) == if j == i then x.cb else CbOf(devs, holder[j])
    {
      assert Held(devs, holder, j);
    }
  }

  /** A closed file opened on a free control block. */
  lemma DevOpens(disk: Disk, d: VDir, devs: seq<DevView>, holder: seq<int>, l: Layout, g: Geo, n: nat, i: nat, x: DevView)
    requires SysOk(disk, d, devs, holder, l, g) && n < |devs| && !devs[n].cb.used && i < |holder| && holder[i] == -1
    requires |l.chains| == |l.blocks| == |holder| && x.cb.used && x.slot == i && DevOk(x) && x.chain == l.chains[i] && x.blocks == l.blocks[i] && Uncached(x.cb)
    ensures SysOk(disk, d, devs[n := x], holder[i := n], l, g)
    ensures AbsOf(disk, d, CbsOf(devs[n := x], holder[i := n]), l)
            == var a := AbsOf(disk, d, CbsOf(devs, holder), l); a[i := a[i].(pos := 0, open := true)]
  {
    hide VolOk, WiredTo, AbsOf, DevOk, Uncached;
    assert CbsOf(devs, holder)[i] == ClosedCb();
    SwapCb(disk, d, CbsOf(devs, holder), l, g, i, x.cb);
    WiredOpened(devs, holder, l, n, i, x);
  }

  /** One more entry in the directory. */
  lemma FileAdded(disk: Disk, d: VDir, devs: seq<DevView>, holder: seq<int>, l: Layout, g: Geo, name: string)
    requires SysOk(disk, d, devs, holder, l, g)
    ensures var e, m, hs := WithFile(d, name), WithEmpty(l), holder + [-1];
            SysOk(disk, e, devs, hs, m, g)
            && AbsOf(disk, e, CbsOf(devs, hs), m) == AbsOf(disk, d, CbsOf(devs, holder), l) + [AFile(name, [], 0, false)]
  {
    hide VolOk, DevOk, BytesOf;
    var e, m, hs, cbs := WithFile(d, name), WithEmpty(l), holder + [-1], CbsOf(devs, holder);
    NewFile(disk, d, cbs, l, g, name);
    Sizes(disk, d, cbs, l, g);
    assert AbsOf(disk, e, cbs + [FreshCb()], m) == AbsOf(disk, d, cbs, l) + [AFile(name, [], 0, true)];
    SwapCb(disk, e, cbs + [FreshCb()], m, g, |cbs|, ClosedCb());
    assert (cbs + [FreshCb()])[|cbs| := ClosedCb()] == cbs + [ClosedCb()];
    assert CbsOf(devs, hs) == cbs + [ClosedCb()];
    forall i | 0 <= i < |hs|
      ensures Held(devs, hs, i)
    {
      assert i < |holder| ==> Held(devs, holder, i);
    }
    forall n | 0 <= n < |devs|
      ensures DevOk(devs[n]) && Holds(devs[n], n, hs, m)
    {
      assert Holds(devs[n], n, holder, l);
    }
  }

  lemma Sizes(disk: Disk, d: VDir, cbs: seq<Cb>, l: Layout, g: Geo)
    requires VolOk(disk, d, cbs, l, g)
    ensures |cbs| == |d.files| == |l.chains| == |l.blocks|
  {
  }
}
