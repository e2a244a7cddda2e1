/** The local file system in use: any number of files on one disk, opened and closed on a table of six control blocks. */
module LfsFiles {
  import opened Bags
  import opened LfsDisk
  import opened LfsState
  import opened LfsSteps
  import opened LfsAlloc
  import opened LfsBytes
  import opened LfsVolume
  import opened LfsDevices
  import opened LfsCode

  /** A call on the file system; `n` is the number of a control block. */
  datatype Op =
    | OpenOp(name: Name, old_: bool, new_: bool) | CloseOp(n: nat) | PutOp(n: nat, ch: byte) | GetOp(n: nat)
    | SeekOp(n: nat, off: nat) | TruncOp(n: nat)

  /** What a control block is used for. */
  datatype Handle = Free | On(i: nat)

  /** The files as their users see them, and the control blocks they are open on. */
  datatype Table = Table(files: seq<AFile>, hands: seq<Handle>)

  // ---- what the calls mean ------------------------------------------------

  /** The first file of that name, or the number of files. */
  function Lookup(a: seq<AFile>, name: string, from: nat): (i: nat)
    requires from <= |a|
    ensures from <= i <= |a| && (i < |a| ==> a[i].name == name) && forall j | from <= j < i :: a[j].name != name
    decreases |a| - from
  {
    if from == |a| || a[from].name == name then from else Lookup(a, name, from + 1)
  }

  /** The first control block not in use, or the number of them. */
  function FirstFree(hands: seq<Handle>, from: nat): (n: nat)
    requires from <= |hands|
    ensures from <= n <= |hands| && (n < |hands| ==> hands[n].Free?) && forall m | from <= m < n :: hands[m].On?
    decreases |hands| - from
  {
    if from == |hands| || hands[from].Free? then from else FirstFree(hands, from + 1)
  }

  predicate AnyUsed(hands: seq<Handle>) { exists n | 0 <= n < |hands| :: hands[n].On? }

  /**
   lfsopen. Its test for a file that is open already compares with a name that is always empty: it stops the empty name
   when anything is open, and nothing else.
   */
  function Opened(t: Table, name: Name, old_: bool, new_: bool): (Table, int) {
    var i, n := Lookup(t.files, name, 0), FirstFree(t.hands, 0);
    if |name| >= NAME_LEN || (name == "" && AnyUsed(t.hands)) || n == |t.hands| then (t, SYSERR)
    else if i == |t.files| then
      if old_ || |t.files| >= NUM_DIR_ENT then (t, SYSERR)
      else (Table(t.files + [AFile(name, [], 0, true)], t.hands[n := On(i)]), n)
    else if new_ then (t, SYSERR)
    else (Table(t.files[i := t.files[i].(pos := 0, open := true)], t.hands[n := On(i)]), n)
  }

  ghost predicate Named(a: seq<AFile>, name: string) { exists i :: 0 <= i < |a| && a[i].name == name }

  /**
   A name of legal length, not the empty one while anything is open, a control block to spare; the file there unless it
   may be made, room for it if it has to be, and not there if it must be new.
   */
  ghost predicate CanOpen(t: Table, name: Name, old_: bool, new_: bool) {
    |name| < NAME_LEN && (name == "" ==> forall n | 0 <= n < |t.hands| :: t.hands[n].Free?)
    && (exists n :: 0 <= n < |t.hands| && t.hands[n].Free?)
    && if Named(t.files, name) then !new_ else !old_ && |t.files| < NUM_DIR_ENT
  }

  /** The first free control block is now on file `i`, at its beginning; every other control block and file is as it was. */
  ghost predicate OpenedOn(t: Table, u: Table, n: int, i: nat) {
    0 <= n < |t.hands| && t.hands[n].Free? && (forall m | 0 <= m < n :: t.hands[m].On?) && u.hands == t.hands[n := On(i)]
    && i < |u.files| && u.files[i].pos == 0 && u.files[i].open
    && |t.files| <= |u.files| && forall j | 0 <= j < |t.files| && j != i :: u.files[j] == t.files[j]
  }

  /** What lfsopen does, said of names: it fails and changes nothing, or opens the file of that name, new and empty if there was none. */
  ghost predicate OpenMeans(t: Table, name: Name, old_: bool, new_: bool, u: Table, r: int) {
    if !CanOpen(t, name, old_, new_) then r == SYSERR && u == t
    else
      exists i: nat :: OpenedOn(t, u, r, i) && u.files[i].name == name
        && if Named(t.files, name) then |u.files| == |t.files| && u.files[i].bytes == t.files[i].bytes && forall j | 0 <= j < i :: t.files[j].name != name
           else i == |t.files| && |u.files| == |t.files| + 1 && u.files[i].bytes == []
  }

  lemma OpenLaw(t: Table, name: Name, old_: bool, new_: bool)
    ensures var (u, r) := Apply(t, OpenOp(name, old_, new_)); OpenMeans(t, name, old_, new_, u, r)
  {
    var i, n := Lookup(t.files, name, 0), FirstFree(t.hands, 0);
    var (u, r) := Apply(t, OpenOp(name, old_, new_));
    assert i < |t.files| <==> Named(t.files, name);
    assert AnyUsed(t.hands) <==> !forall m | 0 <= m < |t.hands| :: t.hands[m].Free?;
    if CanOpen(t, name, old_, new_) {
      assert OpenedOn(t, u, r, i);
    }
  }

  /** The call gives a second control block to a file that has one. */
  predicate Doubles(t: Table, name: Name, new_: bool) {
    var i := Lookup(t.files, name, 0);
    0 < |name| < NAME_LEN && !new_ && FirstFree(t.hands, 0) < |t.hands| && i < |t.files| && t.files[i].open
  }

  function PutOne(f: AFile, ch: byte): (AFile, int) {
    if f.pos <= |f.bytes| then (f.(bytes := Written(f.bytes, f.pos, ch), pos := f.pos + 1), OK) else (f, SYSERR)
  }

  function GetOne(f: AFile): (AFile, int) {
    if f.pos < |f.bytes| then (f.(pos := f.pos + 1), f.bytes[f.pos]) else (f, EOF)
  }

  function SeekOne(f: AFile, off: nat): (AFile, int) {
    if off <= |f.bytes| then (f.(pos := off), OK) else (f, SYSERR)
  }

  /** A call on one open file, and its result. */
  function One(f: AFile, op: Op): (AFile, int)
    requires !op.OpenOp?
  {
    match op
    case CloseOp(_) => (f.(open := false, pos := 0), OK)
    case PutOp(_, ch) => PutOne(f, ch)
    case GetOp(_) => GetOne(f)
    case SeekOp(_, off) => SeekOne(f, off)
    case TruncOp(_) => (f.(bytes := [], pos := 0), OK)
  }

  /** Files as byte sequences with positions: the whole specification. A call changes one file at most. */
  function Apply(t: Table, op: Op): (Table, int) {
    if op.OpenOp? then Opened(t, op.name, op.old_, op.new_)
    else if op.n < |t.hands| && t.hands[op.n].On? && t.hands[op.n].i < |t.files| then
      var i := t.hands[op.n].i;
      var (f, r) := One(t.files[i], op);
      (Table(t.files[i := f], if op.CloseOp? then t.hands[op.n := Free] else t.hands), r)
    else (t, SYSERR)
  }

  /** No file that is open is opened again. */
  predicate Legal(t: Table, op: Op) { op.OpenOp? ==> !Doubles(t, op.name, op.new_) }

  /** The files after a sequence of calls, with the results. */
  function ApplyAll(t: Table, ops: seq<Op>): (Table, seq<int>)
    decreases |ops|
  {
    if ops == [] then (t, [])
    else
      var (u, r) := Apply(t, ops[0]);
      var (v, rs) := ApplyAll(u, ops[1..]);
      (v, [r] + rs)
  }

  predicate AllLegal(t: Table, ops: seq<Op>)
    decreases |ops|
  {
    ops != [] ==> Legal(t, ops[0]) && AllLegal(Apply(t, ops[0]).0, ops[1..])
  }

  function HandOf(x: DevView): Handle { if x.cb.used then On(x.slot) else Free }

  function HandsOf(devs: seq<DevView>): (hands: seq<Handle>)
    ensures |hands| == |devs|
  {
    seq<Handle>(|devs|, n requires 0 <= n < |devs| => HandOf(devs[n]))
  }

  /** The shared state and all control blocks at one moment. */
  datatype Snap = Snap(disk: Disk, dir: VDir, devs: seq<DevView>, l: Layout)

  class FileSystem {
    const vol: Volume
    const g: Geo
    const dev: seq<LocalFile>
    ghost var chains: Lists
    ghost var blocks: Lists
    /** The control block each file is open on, or -1. */
    ghost var holder: seq<int>

    ghost function Lay(): Layout
      reads this`chains, this`blocks, vol
    {
      Layout(chains, blocks, vol.ifree, vol.dfree)
    }

    ghost function DevAt(n: nat): DevView
      requires n < |dev|
      reads dev
    {
      DevView(dev[n].Block(), dev[n].slot, dev[n].lfname, dev[n].chain, dev[n].blocks)
    }

    ghost function Devs(): (devs: seq<DevView>)
      ensures |devs| == |dev|
      reads dev
    {
      seq<DevView>(|dev|, n requires 0 <= n < |dev| reads dev => DevAt(n))
    }

    ghost predicate Static() {
      vol.g == g && |dev| == NLFL && (forall n | 0 <= n < |dev| :: dev[n].vol == vol && dev[n].g == g)
      && (forall m, n | 0 <= m < n < |dev| :: dev[m] != dev[n])
    }

    /** Every file is in order, every block is on exactly one chain or free list, and no file has two control blocks. */
    ghost predicate Valid()
      reads this, vol, dev
    {
      Static() && SysOk(vol.disk, vol.dir, Devs(), holder, Lay(), g)
    }

    ghost function Files(): seq<AFile>
      reads this, vol, dev
    {
      AbsOf(vol.disk, vol.dir, CbsOf(Devs(), holder), Lay())
    }

    ghost function Abs(): Table
      reads this, vol, dev
    {
      Table(Files(), HandsOf(Devs()))
    }

    /** lfscreate, and lflinit for each control block */
    constructor (disk0: Disk, lfiblks: nat)
      requires lfiblks > 0 && 3 <= |disk0| && |disk0| * BLKSIZ < 0x1_0000_0000 && IndexSectors(lfiblks) <= |disk0| / 2
      ensures Valid() && Abs() == Table([], seq(NLFL, _ => Free)) && vol.Synced() && !vol.dirdirty && fresh(vol) && fresh(dev)
      ensures |vol.ifree| == PERSECT * IndexSectors(lfiblks) && |vol.dfree| == |disk0| - IndexSectors(lfiblks) - 1
    {
      hide FreeOk, Range, IndexSectors;
      var d, r, ok := Format(disk0, lfiblks);
      g := Geo(PERSECT * IndexSectors(lfiblks), |disk0|);
      var geo := Geo(PERSECT * IndexSectors(lfiblks), |disk0|);
      var v := new Volume(geo, d, r, Range(0, geo.nib), Range(FirstData(geo), geo.sectors));
      var ds := NewDevices(v);
      vol, dev := v, ds;
      chains, blocks, holder := [], [], [];
      new;
      FreshVolume(vol.disk, vol.dir, g);
      assert CbsOf(Devs(), holder) == [];
    }

    /** A file as the user of control block `n` sees it. */
    ghost function Seen(n: nat): AFile
      requires n < |dev|
      reads vol, dev, dev[n].vol
    {
      AFile(if dev[n].slot < |vol.dir.files| then vol.dir.files[dev[n].slot].name else "", dev[n].Bytes(), dev[n].pos, dev[n].used)
    }

    ghost function Now(): Snap
      reads this, vol, dev
    {
      Snap(vol.disk, vol.dir, Devs(), Lay())
    }

    /** The file on control block `n` is in order within its reach; everything else is as in the snapshot. */
    ghost predicate Apart(n: nat, k: Snap)
      requires n < |dev|
      reads this, vol, dev, dev[n].vol
    {
      Static() && |k.devs| == |dev| && SysOk(k.disk, k.dir, k.devs, holder, k.l, g) && k.devs[n].cb.used
      && dev[n].slot == k.devs[n].slot < |holder| == |k.l.chains| == |k.l.blocks| && dev[n].lfname == k.devs[n].name
      && k.l.chains == chains && k.l.blocks == blocks
      && Kept(k.dir, vol.dir, dev[n].slot) && dev[n].Valid()
      && dev[n].mi == Reach(k.l.chains[dev[n].slot], k.l.ifree) && dev[n].md == Reach(k.l.blocks[dev[n].slot], k.l.dfree)
      && Elsewhere(k.disk, vol.disk, g, dev[n].mi, dev[n].md)
      && forall m | 0 <= m < |dev| && m != n :: dev[m] != dev[n] && DevAt(m) == k.devs[m]
    }

    /** The file on control block `n` may touch its own blocks and the free ones; within that reach it is in order. */
    ghost method Claim(n: nat) returns (k: Snap)
      requires Valid() && n < |dev| && dev[n].used
      modifies dev[n]
      ensures k == Now() == old(Now()) && Apart(n, k) && Valid() && Abs() == old(Abs())
      ensures dev[n].slot < |Files()| && Files()[dev[n].slot] == Seen(n)
      ensures DevAt(n) == old(DevAt(n)) && dev[n].Sh() == old(dev[n].Sh())
    {
      hide Ok, FreeOk, Partition, DevOk;
      var i := dev[n].slot;
      assert Holds(Devs()[n], n, holder, Lay());
      assert CbsOf(Devs(), holder)[i] == dev[n].Block();
      Sizes(vol.disk, vol.dir, CbsOf(Devs(), holder), Lay(), g);
      assert FileOk(vol.disk, vol.dir, CbsOf(Devs(), holder)[i], Lay(), g, i);
      dev[n].mi := Reach(chains[i], vol.ifree);
      dev[n].md := Reach(blocks[i], vol.dfree);
      assert Devs() == old(Devs());
      KeptSame(vol.dir, i);
      SameElsewhere(vol.disk, g, dev[n].mi, dev[n].md);
      k := Now();
    }

    /** After a call within its reach: the file system is in order, and only that file looks different. */
    ghost method Settle(n: nat, k: Snap)
      requires n < |dev| && Apart(n, k) && dev[n].used
      modifies this`chains, this`blocks
      ensures Valid() && dev[n].slot < |holder|
      ensures Abs() == Table(AbsOf(k.disk, k.dir, CbsOf(k.devs, holder), k.l)[dev[n].slot := Seen(n)], HandsOf(k.devs))
    {
      hide VolOk, Ok, Elsewhere, Contents, Reach, WiredTo, Kept;
      ghost var x, s := DevAt(n), dev[n].Sh();
      NamesOk(k.devs, holder, k.l, n);
      BlockIsOk(n);
      DevMoves(k.disk, k.dir, k.devs, holder, k.l, g, n, vol.disk, vol.dir, x, s);
      chains, blocks := chains[x.slot := x.chain], blocks[x.slot := x.blocks];
      assert Devs() == k.devs[n := x];
      assert Lay() == Moved(k.l, x.slot, s);
      assert HandsOf(Devs()) == HandsOf(k.devs);
    }

    lemma NamesOk(devs: seq<DevView>, hs: seq<int>, l: Layout, n: nat)
      requires WiredTo(devs, hs, l) && n < |devs|
      ensures DevOk(devs[n])
    {
    }

    lemma BlockIsOk(n: nat)
      requires n < |dev| && dev[n].Valid()
      ensures IbOk(dev[n].ib)
    {
    }

    method PutStep(n: nat, ch: byte, ghost k: Snap) returns (r: int, panic: bool)
      requires n < |dev| && Apart(n, k) && dev[n].used
      modifies vol, dev[n]
      ensures panic ==> old(vol.ifree) == [] || old(vol.dfree) == []
      ensures !panic ==> Apart(n, k) && dev[n].used && dev[n].slot == old(dev[n].slot) && (Seen(n), r) == PutOne(old(Seen(n)), ch)
      ensures !panic && old(vol.Synced()) ==> vol.Synced()
      ensures !panic && !old(dev[n].ibdirty) && !old(dev[n].dbdirty) && old(dev[n].chain) == [] && old(dev[n].blocks) == [] ==>
                OnBlank(old(dev[n].Sh()), dev[n].Sh()) && vol.disk == old(vol.disk)
    {
      hide SysOk, Ok, Elsewhere, Contents, Kept, Written, Reach, OnBlank, LocalFile.View, LocalFile.Bytes, LocalFile.Valid, LocalFile.Sound;
      ghost var disk, d := vol.disk, vol.dir;
      dev[n].ValidParts();
      r, panic := dev[n].Putc(ch);
      if !panic {
        ElsewhereTrans(k.disk, disk, vol.disk, g, dev[n].mi, dev[n].md);
        KeptTrans(k.dir, d, vol.dir, dev[n].slot);
        KeptName(d, vol.dir, dev[n].slot);
      }
    }

    /** lflputc on control block `n` */
    method Putc(n: nat, ch: byte) returns (r: int, panic: bool)
      requires Valid() && n < |dev|
      modifies this`chains, this`blocks, vol, dev[n]
      ensures panic ==> old(vol.ifree) == [] || old(vol.dfree) == []
      ensures !panic ==> Valid() && (Abs(), r) == Apply(old(Abs()), PutOp(n, ch)) && (old(vol.Synced()) ==> vol.Synced())
      ensures !panic && old(dev[n].used) && !old(dev[n].ibdirty) && !old(dev[n].dbdirty) && old(dev[n].chain) == [] && old(dev[n].blocks) == [] ==>
                OnBlank(old(dev[n].Sh()), dev[n].Sh()) && vol.disk == old(vol.disk) && dev[n].used && dev[n].slot == old(dev[n].slot)
    {
      hide SysOk, Apart, AbsOf, PutOne, CbsOf, OnBlank, HandsOf, Seen;
      FreeHand(n);
      if !dev[n].used {
        return SYSERR, false;
      }
      ghost var k := Claim(n);
      r, panic := PutStep(n, ch, k);
      if !panic {
        Settle(n, k);
      }
    }

    method GetStep(n: nat, ghost k: Snap) returns (r: int)
      requires n < |dev| && Apart(n, k) && dev[n].used
      modifies vol, dev[n]
      ensures Apart(n, k) && dev[n].used && dev[n].slot == old(dev[n].slot) && (Seen(n), r) == GetOne(old(Seen(n)))
      ensures old(vol.Synced()) ==> vol.Synced()
    {
      hide SysOk, Ok, Elsewhere, Contents, Kept, Reach, LocalFile.View, LocalFile.Bytes, LocalFile.Valid, LocalFile.Sound;
      ghost var disk, d := vol.disk, vol.dir;
      dev[n].ValidParts();
      r := dev[n].Getc();
      ElsewhereTrans(k.disk, disk, vol.disk, g, dev[n].mi, dev[n].md);
      KeptTrans(k.dir, d, vol.dir, dev[n].slot);
      KeptName(d, vol.dir, dev[n].slot);
    }

    /** lflgetc on control block `n` */
    method Getc(n: nat) returns (r: int)
      requires Valid() && n < |dev|
      modifies this`chains, this`blocks, vol, dev[n]
      ensures Valid() && (Abs(), r) == Apply(old(Abs()), GetOp(n))
      ensures old(vol.Synced()) ==> vol.Synced()
    {
      hide SysOk, Apart, AbsOf, GetOne, CbsOf, HandsOf, Seen;
      FreeHand(n);
      if !dev[n].used {
        return SYSERR;
      }
      ghost var k := Claim(n);
      r := GetStep(n, k);
      Settle(n, k);
    }

    method SeekStep(n: nat, off: nat, ghost k: Snap) returns (r: int)
      requires n < |dev| && Apart(n, k) && dev[n].used
      modifies dev[n]
      ensures Apart(n, k) && dev[n].used && dev[n].slot == old(dev[n].slot) && (Seen(n), r) == SeekOne(old(Seen(n)), off)
    {
      hide SysOk, Ok, Elsewhere, Contents, Kept, Reach, LocalFile.View, LocalFile.Bytes, LocalFile.Valid, LocalFile.Sound;
      dev[n].ValidParts();
      r := dev[n].Seek(off);
    }

    /** lflseek on control block `n` */
    method Seek(n: nat, off: nat) returns (r: int)
      requires Valid() && n < |dev|
      modifies this`chains, this`blocks, dev[n]
      ensures Valid() && (Abs(), r) == Apply(old(Abs()), SeekOp(n, off))
    {
      hide SysOk, Apart, AbsOf, SeekOne, CbsOf, HandsOf, Seen;
      FreeHand(n);
      if !dev[n].used {
        return SYSERR;
      }
      ghost var k := Claim(n);
      r := SeekStep(n, off, k);
      Settle(n, k);
    }

    method TruncStep(n: nat, ghost k: Snap)
      requires n < |dev| && Apart(n, k) && dev[n].used
      modifies vol, dev[n]
      ensures Apart(n, k) && dev[n].used && dev[n].slot == old(dev[n].slot) && Seen(n) == old(Seen(n)).(bytes := [], pos := 0)
      ensures old(vol.Synced()) ==> vol.Synced()
    {
      hide SysOk, Ok, Elsewhere, Contents, Kept, Reach, LocalFile.View, LocalFile.Bytes, LocalFile.Valid, LocalFile.Sound;
      ghost var disk, d := vol.disk, vol.dir;
      dev[n].ValidParts();
      dev[n].Truncate();
      ElsewhereTrans(k.disk, disk, vol.disk, g, dev[n].mi, dev[n].md);
      KeptTrans(k.dir, d, vol.dir, dev[n].slot);
      KeptName(d, vol.dir, dev[n].slot);
    }

    /** lflcontrol's truncation, on control block `n` */
    method Truncate(n: nat) returns (r: int)
      requires Valid() && n < |dev|
      modifies this`chains, this`blocks, vol, dev[n]
      ensures Valid() && (Abs(), r) == Apply(old(Abs()), TruncOp(n))
      ensures old(vol.Synced()) ==> vol.Synced()
    {
      hide SysOk, Apart, AbsOf, CbsOf, HandsOf, Seen;
      FreeHand(n);
      if !dev[n].used {
        return SYSERR;
      }
      ghost var k := Claim(n);
      TruncStep(n, k);
      Settle(n, k);
      return OK;
    }

    method CloseStep(n: nat, ghost k: Snap) returns (r: int)
      requires n < |dev| && Apart(n, k) && dev[n].used
      modifies vol, dev[n]
      ensures Apart(n, k) && !dev[n].used && !dev[n].ibdirty && !dev[n].dbdirty && dev[n].slot == old(dev[n].slot)
      ensures Seen(n) == old(Seen(n)).(open := false) && r == OK && vol.dir == old(vol.dir)
      ensures !vol.dirdirty && vol.dirdisk == if old(vol.dirdirty) then vol.dir else old(vol.dirdisk)
    {
      hide SysOk, Ok, Elsewhere, Contents, Kept, Reach, LocalFile.View, LocalFile.Bytes, LocalFile.Valid, LocalFile.Sound;
      ghost var disk := vol.disk;
      r := dev[n].Close();
      ElsewhereTrans(k.disk, disk, vol.disk, g, dev[n].mi, dev[n].md);
    }

    ghost method Release(n: nat, k: Snap)
      requires n < |dev| && Apart(n, k) && !dev[n].used && !dev[n].ibdirty && !dev[n].dbdirty
      modifies this`chains, this`blocks, this`holder
      ensures Valid() && |holder| == |old(holder)| && dev[n].slot < |holder|
      ensures Abs() == Table(AbsOf(k.disk, k.dir, CbsOf(k.devs, old(holder)), k.l)[dev[n].slot := Seen(n).(pos := 0, open := false)],
                             HandsOf(k.devs)[n := Free])
    {
      hide VolOk, Ok, Elsewhere, Contents, Reach, WiredTo, Kept;
      ghost var x, s := DevAt(n), dev[n].Sh();
      NamesOk(k.devs, holder, k.l, n);
      BlockIsOk(n);
      DevCloses(k.disk, k.dir, k.devs, holder, k.l, g, n, vol.disk, vol.dir, x, s);
      chains, blocks := chains[x.slot := x.chain], blocks[x.slot := x.blocks];
      holder := holder[x.slot := -1];
      assert Devs() == k.devs[n := x];
      assert Lay() == Moved(k.l, x.slot, s);
      assert HandsOf(Devs()) == HandsOf(k.devs)[n := Free];
    }

    /** lflclose on control block `n` */
    method Close(n: nat) returns (r: int)
      requires Valid() && n < |dev|
      modifies this`chains, this`blocks, this`holder, vol, dev[n]
      ensures Valid() && (Abs(), r) == Apply(old(Abs()), CloseOp(n))
      ensures vol.dir == old(vol.dir) && (old(vol.Synced()) ==> vol.Synced())
      ensures r == OK ==> !vol.dirdirty && vol.dirdisk == if old(vol.dirdirty) then vol.dir else old(vol.dirdisk)
    {
      hide SysOk, Apart, AbsOf, CbsOf, HandsOf, Seen;
      FreeHand(n);
      if !dev[n].used {
        return SYSERR;
      }
      ghost var k := Claim(n);
      r := CloseStep(n, k);
      Release(n, k);
    }

    // ---- lfsopen ------------------------------------------------------------

    /**
     The pass over the control blocks: is a file of that name open, and which is the first one free? Since every name it
     compares with is empty, the answer to the first question is wrong for every other name.
     */
    method Scan(name: Name) returns (taken: bool, next: nat)
      requires Valid() && |name| < NAME_LEN
      ensures taken <==> name == "" && AnyUsed(Abs().hands)
      ensures !taken ==> next == FirstFree(Abs().hands, 0)
    {
      hide VolOk, AbsOf, CbsOf, Holds, Held;
      next := |dev|;
      var n := 0;
      while n < |dev|
        invariant n <= |dev| && next <= |dev|
        invariant if next == |dev| then FirstFree(Abs().hands, 0) == FirstFree(Abs().hands, n) else next == FirstFree(Abs().hands, 0) < n
        invariant name == "" ==> forall m | 0 <= m < n :: Abs().hands[m].Free?
      {
        assert DevOk(Devs()[n]) && Abs().hands[n] == HandOf(DevAt(n));
        if !dev[n].used {
          if next == |dev| {
            next := n;
          }
        } else {
          var same := dev[n].NameIs(name);
          if same {
            assert name == [] by { EmptyOnly(name, dev[n].lfname); }
            return true, 0;
          }
        }
        n := n + 1;
      }
      return false, next;
    }

    lemma EmptyOnly(name: Name, buf: seq<char>)
      requires |name| < NAME_LEN == |buf| && name == buf[..|name|] && forall k | 0 <= k < NAME_LEN :: buf[k] == NUL
      ensures name == []
    {
      if |name| > 0 {
        HasNul(name, buf);
        assert false;
      }
    }

    lemma HasNul(s: string, buf: seq<char>)
      requires 0 < |s| < NAME_LEN == |buf| && s == buf[..|s|] && forall k | 0 <= k < NAME_LEN :: buf[k] == NUL
      ensures NUL in s
    {
      assert s[0] == buf[0];
    }

    /** The search of the directory for a name. */
    method Search(name: Name) returns (i: nat)
      requires Valid()
      ensures i == Lookup(Files(), name, 0) && |Files()| == |vol.dir.files| == |holder| == |chains| == |blocks|
    {
      hide VolOk, BytesOf;
      Sizes(vol.disk, vol.dir, CbsOf(Devs(), holder), Lay(), g);
      i := 0;
      while i < |vol.dir.files| && vol.dir.files[i].name != name
        invariant i <= |vol.dir.files| && Lookup(Files(), name, i) == Lookup(Files(), name, 0)
      {
        i := i + 1;
      }
    }

    /** The control block set up for entry `i`, whatever else is open on that entry. */
    method Assign(n: nat, i: nat, name: Name)
      requires Valid() && n < |dev| && !dev[n].used && i < |chains| == |blocks|
      modifies dev[n]
      ensures Devs() == old(Devs())[n := DevAt(n)] && DevOk(DevAt(n)) && Uncached(dev[n].Block())
      ensures dev[n].used && dev[n].slot == i && dev[n].chain == chains[i] && dev[n].blocks == blocks[i]
    {
      hide VolOk, Holds, Held;
      assert DevOk(Devs()[n]);
      dev[n].Attach(i, name, chains[i], blocks[i]);
      assert forall m | 0 <= m < |dev| && m != n :: DevAt(m) == old(DevAt(m));
    }

    lemma NotHeld(i: nat)
      requires Valid() && i < |Files()|
      ensures i < |holder| && (Files()[i].open <==> holder[i] != -1)
    {
      hide VolOk, BytesOf, Holds;
      assert Held(Devs(), holder, i);
    }

    lemma OpenUsed(i: nat)
      requires Valid() && i < |Files()|
      ensures Files()[i].open ==> AnyUsed(Abs().hands)
    {
      hide VolOk, BytesOf, Holds;
      assert Held(Devs(), holder, i);
      assert Files()[i].open ==> 0 <= holder[i] < |dev| && Abs().hands[holder[i]] == On(i);
    }

    /** lfsopen of a file that is not there: an entry in memory, and not yet in the directory on disk */
    method AddEntry(name: Name)
      requires Valid()
      modifies this`chains, this`blocks, this`holder, vol`dir
      ensures Valid() && Abs() == old(Abs()).(files := old(Abs()).files + [AFile(name, [], 0, false)])
      ensures vol.dir == WithFile(old(vol.dir), name) && chains == old(chains) + [[]] && blocks == old(blocks) + [[]]
    {
      hide VolOk, AbsOf, WiredTo;
      FileAdded(vol.disk, vol.dir, Devs(), holder, Lay(), g, name);
      vol.dir := vol.dir.(files := vol.dir.files + [Entry(name, NULLID, 0)]);
      chains, blocks, holder := chains + [[]], blocks + [[]], holder + [-1];
      assert Lay() == WithEmpty(old(Lay()));
    }

    method CreateFile(n: nat, name: Name)
      requires Valid() && n < |dev| && !dev[n].used
      modifies this`chains, this`blocks, this`holder, vol`dir, dev[n]
      ensures Valid() && Abs() == var t := old(Abs()); Table(t.files + [AFile(name, [], 0, true)], t.hands[n := On(|t.files|)])
      ensures vol.dir == WithFile(old(vol.dir), name)
    {
      hide SysOk, AbsOf, CbsOf;
      ghost var t := Abs();
      AddEntry(name);
      EntryCount();
      OpenEntry(n, |vol.dir.files| - 1, name);
      assert (t.files + [AFile(name, [], 0, false)])[|t.files| := AFile(name, [], 0, true)] == t.files + [AFile(name, [], 0, true)];
    }

    lemma EntryCount()
      requires Valid()
      ensures |Files()| == |vol.dir.files| == |holder|
    {
      hide VolOk;
      Sizes(vol.disk, vol.dir, CbsOf(Devs(), holder), Lay(), g);
    }

    /**
     lfsopen. Afterwards no file has two control blocks exactly if the call did not open a file that was open; then
     everything is in order, and the call did what it is for.
     */
    method Open(name: Name, old_: bool, new_: bool) returns (r: int)
      requires Valid()
      modifies this`chains, this`blocks, this`holder, vol`dir, dev
      ensures OnePer(Devs()) <==> !Doubles(old(Abs()), name, new_)
      ensures !Doubles(old(Abs()), name, new_) ==> Valid() && (Abs(), r) == Apply(old(Abs()), OpenOp(name, old_, new_))
      ensures !Doubles(old(Abs()), name, new_) ==> OpenMeans(old(Abs()), name, old_, new_, Abs(), r)
      ensures Doubles(old(Abs()), name, new_) ==>
                var t := old(Abs());
                r == FirstFree(t.hands, 0) && Twice(r, Lookup(t.files, name, 0)) && Devs() == old(Devs())[r := DevAt(r)] && vol.dir == old(vol.dir)
      ensures vol.dirdisk == old(vol.dirdisk) && vol.dirdirty == old(vol.dirdirty)
      ensures |Files()| == |old(Files())| ==> vol.dir == old(vol.dir)
    {
      hide SysOk, AbsOf, CbsOf, OnePer, DevOk, HandsOf, OpenMeans;
      OpenLaw(Abs(), name, old_, new_);
      EntryCount();
      if |name| >= NAME_LEN {
        Wired();
        return SYSERR;
      }
      var taken, n := Scan(name);
      if taken || n == |dev| {
        Wired();
        return SYSERR;
      }
      var i := Search(name);
      FreeHand(n);
      if i == |vol.dir.files| {
        if old_ || |vol.dir.files| >= NUM_DIR_ENT {
          Wired();
          return SYSERR;
        }
        CreateFile(n, name);
        Wired();
        return n;
      }
      if new_ {
        Wired();
        return SYSERR;
      }
      OpenUsed(i);
      OpenEntry(n, i, name);
      return n;
    }

    /** A second control block for entry `i`. */
    ghost predicate Twice(n: int, i: nat)
      reads dev
    {
      0 <= n < |dev| && dev[n].used && dev[n].slot == i && Uncached(dev[n].Block())
    }

    /** The end of lfsopen for an entry that is there. */
    method OpenEntry(n: nat, i: nat, name: Name)
      requires Valid() && n < |dev| && !dev[n].used && i < |Files()|
      modifies this`holder, dev[n]
      ensures OnePer(Devs()) <==> !old(Files())[i].open
      ensures !old(Files())[i].open ==>
                Valid() && Abs() == var t := old(Abs()); Table(t.files[i := t.files[i].(pos := 0, open := true)], t.hands[n := On(i)])
      ensures old(Files())[i].open ==> Twice(n, i) && Devs() == old(Devs())[n := DevAt(n)] && holder == old(holder) && |Files()| == |old(Files())|
    {
      hide VolOk, AbsOf, Uncached;
      EntryCount();
      NotHeld(i);
      ghost var devs := Devs();
      ghost var open := Files()[i].open;
      Assign(n, i, name);
      if open {
        assert Held(devs, holder, i);
        SecondOne(devs, holder[i], n, DevAt(n));
      } else {
        DevOpens(vol.disk, vol.dir, devs, holder, Lay(), g, n, i, DevAt(n));
        holder := holder[i := n];
        assert HandsOf(Devs()) == HandsOf(devs)[n := On(i)];
        Wired();
      }
    }

    lemma SecondOne(devs: seq<DevView>, m: int, n: nat, x: DevView)
      requires 0 <= m < |devs| && n < |devs| && devs[m].cb.used && !devs[n].cb.used && x.cb.used && x.slot == devs[m].slot
      ensures !OnePer(devs[n := x])
    {
      var ds := devs[n := x];
      assert ds[m] == devs[m] && ds[n] == x;
    }

    lemma Wired()
      requires Valid()
      ensures OnePer(Devs())
    {
      hide VolOk;
      WiredOnePer(Devs(), holder, Lay());
    }

    lemma FreeHand(n: nat)
      requires n < |dev|
      ensures |Abs().hands| == |dev| && Abs().hands[n] == if dev[n].used then On(dev[n].slot) else Free
    {
    }

    // ---- any sequence of calls --------------------------------------------

    /** One call, on whatever control block it names. */
    method Perform(op: Op) returns (r: int, panic: bool)
      requires Valid() && Legal(Abs(), op)
      modifies this`chains, this`blocks, this`holder, vol, dev
      ensures !panic ==> Valid() && (Abs(), r) == Apply(old(Abs()), op)
      ensures !panic && old(vol.Synced()) && |Files()| == |old(Files())| ==> vol.Synced()
      ensures panic ==> op.PutOp?
    {
      hide SysOk, AbsOf, Valid, PutOne, GetOne, SeekOne, Opened, Doubles, HandsOf, CbsOf;
      panic := false;
      match op
      case OpenOp(name, old_, new_) => r := Open(name, old_, new_);
      case CloseOp(n) => if n < |dev| { r := Close(n); } else { Handles(); r := SYSERR; }
      case PutOp(n, ch) => if n < |dev| { r, panic := Putc(n, ch); } else { Handles(); r := SYSERR; }
      case GetOp(n) => if n < |dev| { r := Getc(n); } else { Handles(); r := SYSERR; }
      case SeekOp(n, off) => if n < |dev| { r := Seek(n, off); } else { Handles(); r := SYSERR; }
      case TruncOp(n) => if n < |dev| { r := Truncate(n); } else { Handles(); r := SYSERR; }
    }

    lemma Handles()
      ensures |Abs().hands| == |dev|
    {
    }

    /**
     Any sequence of calls on any files, in any order, in which no open file is opened, gives the results and leaves the
     contents that byte sequences with positions would; and after each of them every block is on exactly one chain or
     free list. If no file was created among them, the directory on disk stays current or marked.
     */
    method Run(ops: seq<Op>) returns (rs: seq<int>, panic: bool)
      requires Valid() && AllLegal(Abs(), ops)
      modifies this`chains, this`blocks, this`holder, vol, dev
      ensures !panic ==> Valid() && (Abs(), rs) == ApplyAll(old(Abs()), ops)
      ensures !panic && old(vol.Synced()) && |Files()| == |old(Files())| ==> vol.Synced()
      ensures panic ==> |rs| < |ops| && ops[|rs|].PutOp? && rs == ApplyAll(old(Abs()), ops[..|rs|]).1
    {
      hide SysOk, AbsOf, Valid, Apply, Legal, HandsOf, CbsOf;
      rs := [];
      ghost var t := Abs();
      assert ops[..0] == [] && ops[0..] == ops;
      while |rs| < |ops|
        invariant |rs| <= |ops| && Valid() && (Abs(), rs) == ApplyAll(t, ops[..|rs|]) && AllLegal(Abs(), ops[|rs|..])
        invariant |Files()| >= |t.files| && (old(vol.Synced()) && |Files()| == |t.files| ==> vol.Synced())
      {
        ghost var n, u := |rs|, Abs();
        var op := ops[|rs|];
        assert ops[n..][0] == op && ops[n..][1..] == ops[n + 1..];
        NoneLost(u, op);
        var r, p := Perform(op);
        if p {
          return rs, true;
        }
        ApplyMore(t, ops[..n], op);
        assert ops[..n + 1] == ops[..n] + [op];
        rs := rs + [r];
      }
      assert ops[..|rs|] == ops;
      return rs, false;
    }

    /** A restart with every file closed and the directory on disk current: everything is read back from disk. */
    method Restart()
      requires Valid() && vol.Synced() && !vol.dirdirty && forall n | 0 <= n < |dev| :: !dev[n].used
      modifies vol`dir
      ensures Valid() && Abs() == old(Abs())
      ensures forall i | 0 <= i < |holder| :: CbsOf(Devs(), holder)[i] == ClosedCb()
    {
      hide VolOk, AbsOf;
      vol.dir := vol.dirdisk;
      forall i | 0 <= i < |holder|
        ensures CbsOf(Devs(), holder)[i] == ClosedCb()
      {
        assert Held(Devs(), holder, i);
      }
    }

    /** A file created and closed without a write: both calls succeed, and the directory on disk does not have the file. */
    method CreateAndClose(name: Name)
      requires Valid() && 0 < |name| < NAME_LEN && |Files()| < NUM_DIR_ENT && Lookup(Files(), name, 0) == |Files()|
      requires FirstFree(Abs().hands, 0) < |dev| && vol.Synced() && !vol.dirdirty
      modifies this`chains, this`blocks, this`holder, vol, dev
      ensures Valid() && Abs().files == old(Abs()).files + [AFile(name, [], 0, false)] && Abs().hands == old(Abs()).hands
      ensures !vol.dirdirty && vol.dirdisk == old(vol.dirdisk) && forall j | 0 <= j < |vol.dirdisk.files| :: vol.dirdisk.files[j].name != name
    {
      hide SysOk, AbsOf, CbsOf, HandsOf;
      ghost var t := Abs();
      Handles();
      EntryCount();
      Names();
      var n := Open(name, false, true);
      var r := Close(n);
      assert t.hands[n := On(|t.files|)][n := Free] == t.hands;
      assert (t.files + [AFile(name, [], 0, true)])[|t.files| := AFile(name, [], 0, false)] == t.files + [AFile(name, [], 0, false)];
    }

    lemma Names()
      requires Valid()
      ensures |vol.dir.files| == |Files()| && forall j | 0 <= j < |Files()| :: Files()[j].name == vol.dir.files[j].name
    {
      hide VolOk, BytesOf;
      EntryCount();
    }

    // ---- the file opened twice --------------------------------------------

    /** The heads of the free lists: a blank index block, and data blocks on the disk. */
    lemma FreeHeads()
      requires Valid() && vol.ifree != [] && |vol.dfree| > 1
      ensures IbAt(vol.disk, vol.ifree[0]).dba[0] == NULLID && SectOf(vol.ifree[0]) < |vol.disk| && vol.ifree[0] < NULLID
      ensures vol.dfree[1] < |vol.disk| < NULLID && vol.dfree[0] != vol.dfree[1]
    {
      hide IbAt, FileOk, Parted, FreeData;
      assert FreeLink(IbAt(vol.disk, vol.ifree[0]), After(vol.ifree, 0));
      SectorOfIndex(vol.ifree[0], g);
      TwicePlaced(vol.dfree, 0, 1);
      FreeOnce(Lay(), g, vol.dfree[0]);
    }

    lemma FreeOnce(l: Layout, g: Geo, x: nat)
      requires Partition(l, g)
      ensures multiset(l.dfree)[x] <= 1
    {
      hide All;
    }

    lemma HeadOfFile(n: nat)
      requires Valid() && n < |dev| && dev[n].used && dev[n].chain != [] && vol.dfree != []
      ensures var d := dev[n].D(); dev[n].slot < |vol.dir.files| && d.ilist == dev[n].chain[0] && d.dfree == vol.dfree[0]
      ensures dev[n].slot < |Files()| && Files()[dev[n].slot].bytes == dev[n].Bytes() && |dev[n].Bytes()| == dev[n].D().size
    {
      hide Chain, Slots, Owned, FreeIndex, FreeData, Partition, Cache, Contents;
      var i := dev[n].slot;
      assert Holds(Devs()[n], n, holder, Lay());
      Sizes(vol.disk, vol.dir, CbsOf(Devs(), holder), Lay(), g);
      assert CbsOf(Devs(), holder)[i] == dev[n].Block();
      assert FileOk(vol.disk, vol.dir, CbsOf(Devs(), holder)[i], Lay(), g, i);
    }

    /** A new file with one byte in it, whose index block on disk is still blank. */
    method FirstByte(name: Name, ch: byte) returns (n: nat)
      requires Valid() && 0 < |name| < NAME_LEN && |Files()| < NUM_DIR_ENT && Lookup(Files(), name, 0) == |Files()|
      requires FirstFree(Abs().hands, 0) < |dev| && vol.ifree != [] && |vol.dfree| > 1
      modifies this`chains, this`blocks, this`holder, vol, dev
      ensures Valid() && n == FirstFree(old(Abs()).hands, 0) && n < |dev| && dev[n].used
      ensures Abs() == var t := old(Abs()); Table(t.files + [AFile(name, [ch], 1, true)], t.hands[n := On(|t.files|)])
      ensures dev[n].blocks == [old(vol.dfree)[0]] && vol.dfree == old(vol.dfree)[1..] && dev[n].Bytes() == [ch] && vol.disk == old(vol.disk)
      ensures dev[n].slot == |old(Files())| < |vol.dir.files| && Blank1(dev[n].D(), vol.disk) && dev[n].D().dfree == vol.dfree[0]
    {
      hide SysOk, AbsOf, CbsOf, HandsOf, Written, OnePer, Uncached, IbAt, Contents, FsOf;
      ghost var t, i, ifree := Abs(), |Files()|, vol.ifree;
      Handles();
      FreeHeads();
      n := Open(name, false, false);
      StillEmpty(n, i);
      var ok, panic := Putc(n, ch);
      WrittenFirst(ch);
      FreeHand(n);
      HeadOfFile(n);
      assert (t.files + [AFile(name, [], 0, true)])[i := AFile(name, [ch], 1, true)] == t.files + [AFile(name, [ch], 1, true)];
    }

    /** A new file with one byte in it, opened once more: the first byte read through the second control block is a filler. */
    method OpenTwice(name: Name, ch: byte) returns (first: int, second: int, r: int)
      requires Valid() && 0 < |name| < NAME_LEN && |Files()| < NUM_DIR_ENT && Lookup(Files(), name, 0) == |Files()|
      requires var n := FirstFree(Abs().hands, 0); n < |dev| && FirstFree(Abs().hands, n + 1) < |dev|
      requires vol.ifree != [] && |vol.dfree| > 1
      modifies this`chains, this`blocks, this`holder, vol, dev
      ensures 0 <= first < second < |dev| && dev[first].used && dev[second].used && dev[first].slot == dev[second].slot
      ensures dev[first].Bytes() == [ch] && r == FILL && dev[first].blocks == [old(vol.dfree)[0]] && dev[second].dnum == old(vol.dfree)[1]
    {
      hide SysOk, AbsOf, CbsOf, HandsOf, OnePer, IbAt, Contents, Uncached, Blank1;
      ghost var t := Abs();
      Handles();
      FreeHeads();
      first := FirstByte(name, ch);
      Again(t.files, name, AFile(name, [ch], 1, true));
      NextHand(t.hands, |t.files|);
      ghost var was := Devs()[first];
      assert was == DevAt(first);
      second := Open(name, false, false);
      assert DevAt(first) == Devs()[first] == was;
      r := ReadAgain(first, second);
    }

    /** lflgetc on a second control block just opened for the file. */
    method ReadAgain(m: nat, n: nat) returns (r: int)
      requires Static() && m < |dev| && n < |dev| && m != n && dev[n].slot == dev[m].slot < |vol.dir.files|
      requires dev[n].used && Uncached(dev[n].Block()) && Blank1(dev[n].D(), vol.disk) && dev[n].D().dfree < |vol.disk| < NULLID
      modifies vol`dir, vol`dirdisk, vol`dirdirty, dev[n]
      ensures dev[m].Bytes() == old(dev[m].Bytes()) && r == FILL && dev[n].dnum == old(dev[n].D().dfree)
      ensures dev[n].used && dev[n].slot == old(dev[n].slot)
    {
      hide IbAt, Contents;
      var panic;
      ghost var was := dev[m].View();
      r, panic := dev[n].FreshGetc();
      OnlyFree(was, dev[m].View(), dev[m].blocks);
    }

    lemma StillEmpty(n: nat, i: nat)
      requires Valid() && n < |dev| && Abs().hands[n] == On(i) && i < |Files()| && Files()[i].bytes == []
      ensures dev[n].used && dev[n].slot == i && dev[n].chain == [] && dev[n].blocks == [] && !dev[n].ibdirty && !dev[n].dbdirty
    {
      hide Chain, Slots, Owned, FreeIndex, FreeData, Partition;
      assert Abs().hands[n] == HandOf(DevAt(n));
      assert Holds(Devs()[n], n, holder, Lay());
      Sizes(vol.disk, vol.dir, CbsOf(Devs(), holder), Lay(), g);
      assert CbsOf(Devs(), holder)[i] == dev[n].Block();
      assert FileOk(vol.disk, vol.dir, CbsOf(Devs(), holder)[i], Lay(), g, i);
    }
  }

  /** The file's index block on disk has no data block. */
  predicate Blank1(d: Dir, disk: Disk) {
    d.ilist != NULLID && SectOf(d.ilist) < |disk| && d.size == 1 && IbAt(disk, d.ilist).dba[0] == NULLID
  }

  lemma WrittenFirst(ch: byte)
    ensures Written([], 0, ch) == [ch]
  {
  }

  lemma Again(a: seq<AFile>, name: string, f: AFile)
    requires Lookup(a, name, 0) == |a| && f.name == name
    ensures Lookup(a + [f], name, 0) == |a|
  {
    var i := Lookup(a + [f], name, 0);
    assert (a + [f])[|a|].name == name;
    assert forall k | 0 <= k < |a| :: (a + [f])[k].name != name;
  }

  lemma NextHand(hands: seq<Handle>, i: nat)
    requires FirstFree(hands, 0) < |hands|
    ensures var n := FirstFree(hands, 0); FirstFree(hands[n := On(i)], 0) == FirstFree(hands, n + 1)
  {
    var n := FirstFree(hands, 0);
    var a, b := FirstFree(hands[n := On(i)], 0), FirstFree(hands, n + 1);
    assert a < |hands| ==> hands[n := On(i)][a].Free?;
    assert b < |hands| ==> hands[n := On(i)][b] == hands[b];
    assert a > n;
  }

  lemma OnlyFree(fs: Fs, r: Fs, bs: seq<nat>)
    requires r == fs.(dir := r.dir) && r.dir.size == fs.dir.size
    ensures Contents(r, bs) == Contents(fs, bs)
  {
    SameContents(fs, r, bs);
  }

  lemma {:induction false} SameNames(a: seq<AFile>, b: seq<AFile>, name: string, from: nat)
    requires |a| == |b| && from <= |a| && forall k | 0 <= k < |a| :: a[k].name == b[k].name
    ensures Lookup(a, name, from) == Lookup(b, name, from)
    decreases |a| - from
  {
    if from < |a| && a[from].name != name {
      SameNames(a, b, name, from + 1);
    }
  }

  /** The number of a control block, kept after a close, means whichever file is opened on it next: that file gets the bytes. */
  lemma StaleNumber(t: Table, n: nat, name: Name, ch: byte)
    requires n < |t.hands| && t.hands[n].On? && t.hands[n].i < |t.files| && FirstFree(t.hands[n := Free], 0) == n
    requires 0 < |name| < NAME_LEN && t.hands[n].i != Lookup(t.files, name, 0) < |t.files|
    ensures var i, j := t.hands[n].i, Lookup(t.files, name, 0);
            var u := Apply(Apply(t, CloseOp(n)).0, OpenOp(name, false, false)).0;
            var v := Apply(u, PutOp(n, ch)).0;
            |v.files| == |t.files| && v.files[i].bytes == t.files[i].bytes && v.files[j].bytes == Written(t.files[j].bytes, 0, ch)
  {
    var i, j, s := t.hands[n].i, Lookup(t.files, name, 0), Apply(t, CloseOp(n)).0;
    SameNames(t.files, s.files, name, 0);
    var u := Apply(s, OpenOp(name, false, false)).0;
    assert u.hands[n] == On(j) && u.files[j].pos == 0;
  }

  /** No call takes a file away. */
  lemma NoneLost(t: Table, op: Op)
    ensures |Apply(t, op).0.files| >= |t.files|
  {
  }

  /** lflinit for each control block */
  method NewDevices(v: Volume) returns (ds: seq<LocalFile>)
    ensures |ds| == NLFL && fresh(ds) && forall m, n | 0 <= m < n < |ds| :: ds[m] != ds[n]
    ensures forall n | 0 <= n < |ds| ::
              ds[n].vol == v && ds[n].g == v.g && !ds[n].used && IbOk(ds[n].ib) && ds[n].lfname == seq(NAME_LEN, _ => NUL)
  {
    ds := [];
    while |ds| < NLFL
      invariant |ds| <= NLFL && fresh(ds) && forall m, n | 0 <= m < n < |ds| :: ds[m] != ds[n]
      invariant forall n | 0 <= n < |ds| ::
                  ds[n].vol == v && ds[n].g == v.g && !ds[n].used && IbOk(ds[n].ib) && ds[n].lfname == seq(NAME_LEN, _ => NUL)
      decreases NLFL - |ds|
    {
      var f := new LocalFile(v);
      ds := ds + [f];
    }
  }

  lemma {:induction false} ApplyMore(t: Table, ops: seq<Op>, op: Op)
    ensures var (u, rs) := ApplyAll(t, ops); var (v, r) := Apply(u, op); ApplyAll(t, ops + [op]) == (v, rs + [r])
    decreases |ops|
  {
    hide Apply;
    if ops == [] {
      var (v, r) := Apply(t, op);
      assert ops + [op] == [op] && [op][1..] == [] && ApplyAll(v, []) == (v, []);
      assert [r] + [] == [] + [r];
    } else {
      assert (ops + [op])[0] == ops[0] && (ops + [op])[1..] == ops[1..] + [op];
      var (u, r) := Apply(t, ops[0]);
      ApplyMore(u, ops[1..], op);
      var (v, rs) := ApplyAll(u, ops[1..]);
      var last := Apply(v, op).1;
      assert [r] + (rs + [last]) == ([r] + rs) + [last];
    }
  }
}
