/** The local file calls as they run, on one file's control block and the disk and directory all files share. */
module LfsCode {
  import opened LfsDisk
  import opened LfsState
  import opened LfsSteps
  import opened LfsAlloc
  import opened LfsBytes
  import opened LfsTruncate
  import opened LfsVolume

  const EOF := -2
  const SYSERR := -1
  const OK := 1

  /** What all files share: the disk, and the directory in memory and on disk. */
  class Volume {
    const g: Geo
    var disk: Disk
    var dir: VDir
    var dirdisk: VDir
    var dirdirty: bool
    ghost var ifree: seq<nat>
    ghost var dfree: seq<nat>

    constructor (g: Geo, disk: Disk, dir: VDir, ghost ifree: seq<nat>, ghost dfree: seq<nat>)
      ensures this.g == g && this.disk == disk && this.dir == dir && dirdisk == dir && !dirdirty
      ensures this.ifree == ifree && this.dfree == dfree
    {
      this.g, this.disk, this.dir, this.dirdisk, this.dirdirty := g, disk, dir, dir, false;
      this.ifree, this.dfree := ifree, dfree;
    }

    /** The directory on disk is current, or is known not to be. */
    predicate Synced()
      reads this
    {
      dirdirty || dirdisk == dir
    }
  }

  /** A control block: in use, it is for file `slot`. */
  class LocalFile {
    const vol: Volume
    const g: Geo
    var used: bool
    var slot: nat
    var lfname: seq<char>
    var pos: nat
    var inum: Word
    var ib: IBlk
    var dnum: Word
    var db: Sector
    var at: nat
    var ibdirty: bool
    var dbdirty: bool
    ghost var chain: seq<nat>
    ghost var blocks: seq<nat>
    /** The index and data blocks the file may touch: its own and the free ones. */
    ghost var mi: multiset<nat>
    ghost var md: multiset<nat>

    /** lflinit: not in use, everything zero */
    constructor (vol: Volume)
      ensures this.vol == vol && g == vol.g && !used && IbOk(ib) && lfname == seq(NAME_LEN, _ => NUL)
    {
      this.vol, this.g := vol, vol.g;
      used, slot, lfname := false, 0, seq(NAME_LEN, _ => NUL);
      pos, at, ibdirty, dbdirty := 0, BLKSIZ, false, false;
      inum, dnum, ib, db := NULLID, 0, IBlk(0, 0, seq(IBLEN, _ => 0)), seq(BLKSIZ, _ => 0);
      chain, blocks, mi, md := [], [], multiset{}, multiset{};
    }

    /** This file's part of the directory. */
    function D(): Dir
      reads this`slot, vol`dir
    {
      Mine(vol.dir, slot)
    }

    ghost function Sh(): Shape
      reads this`chain, this`blocks, vol`ifree, vol`dfree
    {
      Shape(chain, blocks, vol.ifree, vol.dfree)
    }

    function Block(): Cb
      reads this
    {
      Cb(used, pos, inum, ib, dnum, db, at, ibdirty, dbdirty)
    }

    ghost function View(): Fs
      reads this, vol
    {
      FsOf(vol.disk, vol.dir, Block(), slot)
    }

    ghost predicate Sound()
      reads this, vol
    {
      slot < |vol.dir.files| && Base(View(), Sh(), g, mi, md)
    }

    ghost predicate Valid()
      reads this, vol
    {
      slot < |vol.dir.files| && Ok(View(), Sh(), g, mi, md)
    }

    ghost function Bytes(): seq<byte>
      reads this, vol
    {
      Contents(View(), blocks)
    }

    /** What the invariant says in terms of the fields. */
    lemma ValidParts()
      requires Valid()
      ensures slot < |vol.dir.files| && at <= BLKSIZ
      ensures Sound() && Tight(Sh()) && |Sh().blocks| == BlocksFor(D().size) && pos <= D().size && |Bytes()| == D().size
    {
      hide Base;
    }

    /** The block of the last access is still in the buffer. */
    lemma Ready()
      requires Valid() && at < BLKSIZ
      ensures Positioned(View(), Sh()) && Base(View().(dbdirty := true), Sh(), g, mi, md) && Sh().blocks != []
      ensures pos == D().size ==> BlocksFor(D().size + 1) == BlocksFor(D().size)
    {
      hide Base, BlocksFor;
      StillThere(View(), Sh(), g, mi, md);
    }

    /** A file of size zero has no blocks, others have an index block. */
    lemma EmptyOrNot()
      requires Valid()
      ensures Sound() && Tight(Sh()) && |Bytes()| == D().size
      ensures D().size == 0 ==> pos == 0 && Emptied(Sh()) == Sh() && Bytes() == []
      ensures D().size > 0 ==> Sh().chain != []
    {
      hide Base, Contents, Emptied, BlocksFor;
      if D().size == 0 {
        AlreadyEmpty(View(), Sh(), g, mi, md);
      } else {
        NotEmpty(View(), Sh(), g, mi, md);
      }
    }

    lemma Cached(c: nat)
      requires Sound() && c < |chain| && inum == chain[c]
      ensures ib.off == IDATA * c
    {
      hide Base;
      CachedAt(View(), Sh(), g, mi, md, c);
    }

    lemma Bounded()
      requires Sound()
      ensures BLKSIZ * |blocks| < 0x1_0000_0000
    {
      hide Base;
      SizeBound(View(), Sh(), g, mi, md);
    }

    /** The lists after blocks have moved. */
    ghost method Reshape(s: Shape)
      modifies this`chain, this`blocks, vol`ifree, vol`dfree
      ensures Sh() == s
    {
      chain, blocks := s.chain, s.blocks;
      vol.ifree, vol.dfree := s.ifree, s.dfree;
    }

    // ---- lfflush ----------------------------------------------------------

    method FlushFile() returns (r: int)
      requires used ==> Sound()
      modifies vol`disk, vol`dirdisk, vol`dirdirty, this`ibdirty, this`dbdirty
      ensures !used ==> r == SYSERR && View() == old(View()) && vol.dirdisk == old(vol.dirdisk) && vol.dirdirty == old(vol.dirdirty)
      ensures used ==> r == OK && Sound() && View() == Flush(old(View())) && Bytes() == old(Bytes()) && Elsewhere(old(vol.disk), vol.disk, g, mi, md)
      ensures used ==> !ibdirty && !dbdirty && !vol.dirdirty && vol.dirdisk == if old(vol.dirdirty) then vol.dir else old(vol.dirdisk)
    {
      hide Base, Contents, Elsewhere, WithIb, Mine, WithMine;
      if !used {
        return SYSERR;
      }
      FlushKeeps(View(), Sh(), g, mi, md);
      FlushBounds(View(), Sh(), g, mi, md);
      if vol.dirdirty {
        vol.dirdisk := vol.dir;
        vol.dirdirty := false;
      }
      if dbdirty {
        vol.disk := vol.disk[dnum := db];
        dbdirty := false;
      }
      if ibdirty {
        vol.disk := IbPut(vol.disk, inum, ib);
        ibdirty := false;
      }
      return OK;
    }

    // ---- lfsetup ----------------------------------------------------------

    /** lfiballoc: the number of a free index block, already off the list; 0 and true if there is none */
    method TakeIndex() returns (n: Word, panic: bool)
      requires Sound()
      modifies vol`dir, vol`dirdisk, vol`dirdirty
      ensures Kept(old(vol.dir), vol.dir, slot)
      ensures panic <==> old(Sh()).ifree == []
      ensures panic ==> View() == old(View()) && vol.dir == old(vol.dir) && vol.dirdisk == old(vol.dirdisk) && vol.dirdirty == old(vol.dirdirty)
      ensures !panic ==> vol.dirdisk == vol.dir && !vol.dirdirty
      ensures !panic ==> n == old(D().ifree) && n != NULLID && View() == PopIndex(old(View()))
    {
      hide Base, IbAt, Mine, WithMine;
      HeadBounds(View(), Sh(), g, mi, md);
      n := D().ifree;
      if n == NULLID {
        return 0, true;
      }
      var iblock := IbGet(vol.disk, n);
      vol.dir := WithMine(vol.dir, slot, D().(ifree := iblock.next));
      vol.dirdisk := vol.dir;
      vol.dirdirty := false;
      panic := false;
    }

    /** lfsetup on an empty file: a first index block, not yet on disk */
    method FirstBlock() returns (panic: bool)
      requires Sound() && !ibdirty && !dbdirty && Sh().chain == [] && Sh().blocks == []
      modifies vol`dir, vol`dirdisk, vol`dirdirty, this`inum, this`ib, this`ibdirty, this`chain, this`blocks, vol`ifree, vol`dfree
      ensures Kept(old(vol.dir), vol.dir, slot)
      ensures panic ==> D().size == old(D().size) && Sh() == old(Sh()) && Sh().ifree == []
      ensures Sh().dfree == old(Sh().dfree)
      ensures !panic ==> Sound() && Bytes() == old(Bytes()) && Sh().chain == [inum] && Sh().blocks == [] && ibdirty && D().size == old(D().size)
      ensures !panic ==> old(Sh()).ifree != [] && Sh() == Started(old(Sh()))
    {
      hide Base, Contents, PopIndex, IbAt, Mine, WithMine;
      ghost var k, s := View(), Sh();
      var ibnum;
      ibnum, panic := TakeIndex();
      if panic {
        return;
      }
      FirstIndexKeeps(k, s, g, mi, md);
      ib := IbClear(0);
      vol.dir := WithMine(vol.dir, slot, D().(ilist := ibnum));
      ibdirty := true;
      inum := ibnum;
      Reshape(s.(chain := [s.ifree[0]], ifree := s.ifree[1..]));
      assert View() == FirstIndex(k);
    }

    /** lfibget into the control block */
    method ReadIndex(ibnum: Word)
      requires SectOf(ibnum) < |vol.disk|
      modifies this`inum, this`ib
      ensures View() == LoadIndex(old(View()), ibnum)
    {
      ib := IbGet(vol.disk, ibnum);
      inum := ibnum;
    }

    /** An index block of the file read into the control block. */
    method LoadBlock(ibnum: Word)
      requires Sound() && !ibdirty && ibnum in Sh().chain
      modifies this`inum, this`ib
      ensures Sound() && Bytes() == old(Bytes()) && View() == LoadIndex(old(View()), ibnum)
    {
      hide Base, Contents, IbAt, Mine, WithMine;
      LoadIndexKeeps(View(), ibnum, Sh(), g, mi, md);
      ChainBounds(View(), Sh(), g, mi, md, ibnum);
      ReadIndex(ibnum);
    }

    /** lfsetup, first part: an index block at or before the one for the current position is in memory */
    method StartIndex() returns (panic: bool, ghost c: nat)
      requires Sound() && !ibdirty && !dbdirty && Tight(Sh()) && |Sh().blocks| == BlocksFor(D().size) && pos <= D().size
      modifies vol`dir, vol`dirdisk, vol`dirdirty, this`inum, this`ib, this`ibdirty, this`chain, this`blocks, vol`ifree, vol`dfree
      ensures Kept(old(vol.dir), vol.dir, slot)
      ensures Sh().blocks == old(Sh().blocks) && Sh().dfree == old(Sh().dfree) && D().size == old(D().size)
      ensures panic ==> Sh().blocks == [] && old(Sh().ifree) == []
      ensures !panic ==> Sound() && Bytes() == old(Bytes()) && c < |Sh().chain| && inum == Sh().chain[c] && IDATA * c <= pos
      ensures !panic && ibdirty ==> Sh().chain == [inum] && Sh().blocks == []
      ensures !panic ==> (Sh() == old(Sh()) || Sh().blocks == [])
      ensures !panic && !ibdirty ==> Sh() == old(Sh()) && vol.dir == old(vol.dir) && vol.dirdirty == old(vol.dirdirty) && vol.dirdisk == old(vol.dirdisk)
      ensures !panic && old(Sh()).chain == [] ==> ibdirty && old(Sh()).ifree != [] && Sh() == Started(old(Sh()))
    {
      hide Base, Contents, PopIndex, IbAt, Mine, WithMine;
      NothingYet(Sh(), D().size);
      HeadBounds(View(), Sh(), g, mi, md);
      panic := false;
      c := 0;
      if inum == NULLID {
        if D().ilist == NULLID {
          panic := FirstBlock();
        } else {
          LoadBlock(D().ilist);
        }
      } else {
        c := CachedPlace(View(), Sh(), g, mi, md);
        if pos < ib.off {
          c := 0;
          LoadBlock(D().ilist);
        }
      }
    }

    method LinkNew(ibnum: Word, ghost k: Fs)
      requires k.dir.ifree == ibnum && ibnum != NULLID && View() == PopIndex(k)
      requires IbOk(k.ib) && SectOf(k.inum) < |k.disk| && k.ib.off + IDATA < 0x1_0000_0000
      modifies vol`disk, this`inum, this`ib, this`ibdirty, this`dnum
      ensures View() == ExtendIndex(k)
    {
      hide PopIndex, IbAt, WithIb, Blank;
      PopKeeps(k);
      ib := ib.(next := ibnum);
      vol.disk := IbPut(vol.disk, inum, ib);
      inum := ibnum;
      ib := IbClear(ib.off + IDATA);
      ibdirty := true;
      dnum := NULLID;
    }

    /** lfsetup past the end of the chain: one more index block, the old last one written with its link */
    method ExtendChainByOne() returns (panic: bool)
      requires Sound() && !ibdirty && !dbdirty && Sh().chain != [] && inum == Sh().chain[|Sh().chain| - 1]
      requires IDATA * |Sh().chain| < 0x1_0000_0000 && |Sh().blocks| <= IBLEN * |Sh().chain|
      modifies vol`disk, vol`dir, vol`dirdisk, vol`dirdirty, this`inum, this`ib, this`ibdirty, this`dnum, this`chain, this`blocks, vol`ifree, vol`dfree
      ensures Kept(old(vol.dir), vol.dir, slot)
      ensures panic ==> Sh() == old(Sh()) && vol.dir == old(vol.dir) && vol.disk == old(vol.disk) && Sh().ifree == []
      ensures Sh().dfree == old(Sh().dfree)
      ensures !panic ==> Sound() && Bytes() == old(Bytes()) && Elsewhere(old(vol.disk), vol.disk, g, mi, md)
      ensures !panic ==> Sh().chain == old(Sh().chain) + [inum] && Sh().blocks == old(Sh().blocks) && D().size == old(D().size) && ibdirty
    {
      hide Base, Contents, IbAt, WithIb, Elsewhere, Blank, Mine, WithMine;
      ghost var k, s := View(), Sh();
      FlushBoundsClean(k, s, g, mi, md);
      var ibnum;
      ibnum, panic := TakeIndex();
      if panic {
        return;
      }
      ExtendIndexKeeps(k, s, g, mi, md);
      HeadIs(k, s, g, mi, md);
      LinkNew(ibnum, k);
      Reshape(s.(chain := s.chain + [s.ifree[0]], ifree := s.ifree[1..]));
    }

    /** One turn of lfsetup's loop: the next index block, or a new one at the end. */
    method Hop(ghost c: nat) returns (panic: bool)
      requires Sound() && !ibdirty && !dbdirty && c < |Sh().chain| && inum == Sh().chain[c]
      requires IDATA * |Sh().chain| < 0x1_0000_0000 || c + 1 < |Sh().chain|
      requires |Sh().blocks| <= IBLEN * |Sh().chain|
      modifies vol`disk, vol`dir, vol`dirdisk, vol`dirdirty, this`inum, this`ib, this`ibdirty, this`dnum, this`chain, this`blocks, vol`ifree, vol`dfree
      ensures Kept(old(vol.dir), vol.dir, slot)
      ensures Sh().blocks == old(Sh().blocks) && Sh().dfree == old(Sh().dfree) && D().size == old(D().size)
      ensures panic ==> c + 1 == |Sh().chain| && Sh() == old(Sh()) && Sh().ifree == []
      ensures !panic ==> Sound() && Bytes() == old(Bytes()) && Elsewhere(old(vol.disk), vol.disk, g, mi, md)
      ensures !panic ==> c + 1 < |Sh().chain| && inum == Sh().chain[c + 1]
      ensures !panic && c + 1 < |old(Sh().chain)| ==> Sh() == old(Sh()) && !ibdirty && vol.dir == old(vol.dir) && vol.dirdirty == old(vol.dirdirty) && vol.dirdisk == old(vol.dirdisk)
      ensures !panic && c + 1 == |old(Sh().chain)| ==> |Sh().chain| == |old(Sh().chain)| + 1
    {
      hide Base, Contents, IbAt, WithIb, Elsewhere, Mine, WithMine;
      CachedAt(View(), Sh(), g, mi, md, c);
      SameElsewhere(vol.disk, g, mi, md);
      panic := false;
      if ib.next == NULLID {
        NoneAfter(View(), Sh(), g, mi, md, c);
        panic := ExtendChainByOne();
      } else {
        SomeAfter(View(), Sh(), g, mi, md, c);
        LoadBlock(ib.next);
        DropDataKeeps(View(), Sh(), g, mi, md);
        dnum := NULLID;
      }
    }

    /** lfsetup, the loop: on along the chain until the block covers the current position */
    method AdvanceIndex(ghost c0: nat) returns (panic: bool)
      requires Sound() && !dbdirty && c0 < |Sh().chain| && inum == Sh().chain[c0] && IDATA * c0 <= pos <= BLKSIZ * |Sh().blocks|
      requires Near(Sh()) && (if ibdirty then c0 == pos / IDATA else Tight(Sh())) && (Tight(Sh()) || c0 == pos / IDATA == |Sh().chain| - 1)
      modifies vol`disk, vol`dir, vol`dirdisk, vol`dirdirty, this`inum, this`ib, this`ibdirty, this`dnum, this`chain, this`blocks, vol`ifree, vol`dfree
      ensures Kept(old(vol.dir), vol.dir, slot)
      ensures Sh().blocks == old(Sh().blocks) && Sh().dfree == old(Sh().dfree) && D().size == old(D().size)
      ensures panic ==> |Sh().blocks| == pos / BLKSIZ && old(Sh().ifree) == [] && !old(ibdirty)
      ensures !panic ==> Sound() && Bytes() == old(Bytes()) && Elsewhere(old(vol.disk), vol.disk, g, mi, md) && Near(Sh())
      ensures !panic ==> pos / IDATA < |Sh().chain| && inum == Sh().chain[pos / IDATA] && (Tight(Sh()) || pos / IDATA == |Sh().chain| - 1)
      ensures !panic ==> (Sh() == old(Sh()) && vol.dir == old(vol.dir) && vol.dirdirty == old(vol.dirdirty) && vol.dirdisk == old(vol.dirdisk)) || |Sh().blocks| == pos / BLKSIZ
      ensures !panic && old(ibdirty) ==> Sh() == old(Sh()) && vol.disk == old(vol.disk)
    {
      hide Base, Contents, IbAt, WithIb, Elsewhere, Kept, Mine, WithMine, View;
      KeptSame(vol.dir, slot);
      panic := false;
      ghost var c := c0;
      Bounded();
      Cached(c);
      SameElsewhere(vol.disk, g, mi, md);
      while pos - pos % IDATA > ib.off
        invariant Sound() && !dbdirty && c < |Sh().chain| && inum == Sh().chain[c] && ib.off == IDATA * c && IDATA * c <= pos
        invariant Near(Sh()) && (c < pos / IDATA ==> !ibdirty && Tight(Sh())) && (Tight(Sh()) || c == pos / IDATA == |Sh().chain| - 1)
        invariant c < pos / IDATA ==> Sh() == old(Sh()) && !old(ibdirty)
        invariant Sh().blocks == old(Sh().blocks) && Sh().dfree == old(Sh().dfree) && D().size == old(D().size) && Bytes() == old(Bytes()) && Elsewhere(old(vol.disk), vol.disk, g, mi, md)
        invariant (Sh() == old(Sh()) && vol.dir == old(vol.dir) && vol.dirdirty == old(vol.dirdirty) && vol.dirdisk == old(vol.dirdisk)) || |Sh().blocks| == pos / BLKSIZ
        invariant Kept(old(vol.dir), vol.dir, slot)
        invariant old(ibdirty) ==> c == pos / IDATA && Sh() == old(Sh()) && vol.disk == old(vol.disk)
        decreases pos - IDATA * c
      {
        HopBounds(Sh(), pos, c);
        ghost var mid, dmid := vol.disk, vol.dir;
        panic := Hop(c);
        KeptTrans(old(vol.dir), dmid, vol.dir, slot);
        if panic {
          return;
        }
        ElsewhereTrans(old(vol.disk), mid, vol.disk, g, mi, md);
        c := c + 1;
        Cached(c);
      }
      assert c == pos / IDATA;
    }

    /** lfdballoc's end: the first free data block, filled, into slot `j` */
    method AllocInto(j: nat)
      requires slot < |vol.dir.files| && D().dfree < |vol.disk| && IbOk(ib) && j < IBLEN
      modifies vol`dir, vol`dirdisk, vol`dirdirty, this`dnum, this`db, this`ib, this`ibdirty
      ensures Kept(old(vol.dir), vol.dir, slot) && View() == AllocData(old(View()), j) && vol.dirdisk == vol.dir && !vol.dirdirty
    {
      hide NextOf, Mine, WithMine;
      var d := D().dfree;
      vol.dir := WithMine(vol.dir, slot, D().(dfree := NextOf(vol.disk[d])));
      vol.dirdisk := vol.dir;
      vol.dirdirty := false;
      db := Filled();
      ib := ib.(dba := ib.dba[j := d]);
      ibdirty := true;
      dnum := d;
    }

    /** lfdballoc into slot `j` of the cached index block */
    method TakeData(j: nat) returns (panic: bool)
      requires Sound() && !dbdirty && Sh().chain != [] && inum == Sh().chain[|Sh().chain| - 1] && j < IBLEN
      requires |Sh().blocks| == IBLEN * (|Sh().chain| - 1) + j && D().size <= BLKSIZ * |Sh().blocks|
      modifies vol`dir, vol`dirdisk, vol`dirdirty, this`dnum, this`db, this`ib, this`ibdirty, this`chain, this`blocks, vol`ifree, vol`dfree
      ensures Kept(old(vol.dir), vol.dir, slot)
      ensures panic ==> Sh() == old(Sh()) && vol.dir == old(vol.dir) && Sh().dfree == []
      ensures !panic ==> Base(View().(dbdirty := true), Sh(), g, mi, md) && Bytes() == old(Bytes()) && D().size == old(D().size)
      ensures !panic ==> Sh().chain == old(Sh().chain) && Sh().blocks == old(Sh().blocks) + [dnum as nat] && vol.dirdisk == vol.dir && !vol.dirdirty
      ensures !panic ==> old(Sh()).dfree != [] && Sh() == Extended(old(Sh()))
    {
      hide Base, Contents, IbAt, NextOf, Mine, WithMine;
      DataBounds(View(), Sh(), g, mi, md);
      ghost var k, s := View(), Sh();
      var d := D().dfree;
      if d == NULLID {
        return true;
      }
      AllocDataKeeps(k, s, g, mi, md, j);
      AllocInto(j);
      Reshape(s.(blocks := s.blocks + [s.dfree[0]], dfree := s.dfree[1..]));
      return false;
    }

    /** lfsetup, last part: the data block for the current position, allocated if the file ends just before it */
    method FetchData() returns (panic: bool)
      requires Sound() && !dbdirty && Near(Sh()) && pos <= D().size <= BLKSIZ * |Sh().blocks|
      requires pos / IDATA < |Sh().chain| && inum == Sh().chain[pos / IDATA] && (Tight(Sh()) || pos / IDATA == |Sh().chain| - 1)
      requires pos / BLKSIZ < |Sh().blocks| ==> Tight(Sh())
      modifies vol`dir, vol`dirdisk, vol`dirdirty, this`dnum, this`db, this`dbdirty, this`at, this`ib, this`ibdirty, this`chain, this`blocks, vol`ifree, vol`dfree
      ensures Kept(old(vol.dir), vol.dir, slot)
      ensures panic ==> pos / BLKSIZ >= |old(Sh().blocks)| && old(Sh().dfree) == []
      ensures !panic ==> Positioned(View(), Sh()) && Tight(Sh()) && Bytes() == old(Bytes()) && D().size == old(D().size)
      ensures !panic && pos / BLKSIZ < |old(Sh().blocks)| ==> Sound() && Sh() == old(Sh()) && vol.dir == old(vol.dir) && vol.dirdirty == old(vol.dirdirty) && vol.dirdisk == old(vol.dirdisk)
      ensures !panic && pos / BLKSIZ >= |old(Sh().blocks)| ==>
                Base(View().(dbdirty := true), Sh(), g, mi, md) && |Sh().blocks| == |old(Sh().blocks)| + 1 && vol.dirdisk == vol.dir && !vol.dirdirty
                && old(Sh()).dfree != [] && Sh() == Extended(old(Sh()))
    {
      hide Base, Contents, IbAt, Tight, Near, Mine, WithMine, Extended;
      SlotPlace(Sh(), pos);
      NearTight(Sh());
      panic := PickData(pos % IDATA / BLKSIZ, pos / BLKSIZ);
      if panic {
        return;
      }
      ghost var k := View();
      at := pos % BLKSIZ;
      AtOnly(k, pos % BLKSIZ, Sh(), g, mi, md);
    }

    /** Slot `dindex` of the cached index block, block `b` of the file. */
    method PickData(dindex: nat, ghost b: nat) returns (panic: bool)
      requires Sound() && !dbdirty && D().size <= BLKSIZ * |Sh().blocks| && dindex < IBLEN
      requires b / IBLEN < |Sh().chain| && inum == Sh().chain[b / IBLEN] && b == IBLEN * (b / IBLEN) + dindex && b <= |Sh().blocks|
      requires b == |Sh().blocks| ==> b / IBLEN == |Sh().chain| - 1
      modifies vol`dir, vol`dirdisk, vol`dirdirty, this`dnum, this`db, this`dbdirty, this`ib, this`ibdirty, this`chain, this`blocks, vol`ifree, vol`dfree
      ensures Kept(old(vol.dir), vol.dir, slot)
      ensures panic ==> b >= |old(Sh().blocks)| && old(Sh().dfree) == []
      ensures !panic ==> b < |Sh().blocks| && dnum == Sh().blocks[b] && Bytes() == old(Bytes()) && D().size == old(D().size)
      ensures !panic && b < |old(Sh().blocks)| ==> Sound() && Sh() == old(Sh()) && vol.dir == old(vol.dir) && vol.dirdirty == old(vol.dirdirty) && vol.dirdisk == old(vol.dirdisk)
      ensures !panic && b >= |old(Sh().blocks)| ==>
                Base(View().(dbdirty := true), Sh(), g, mi, md) && |Sh().blocks| == |old(Sh().blocks)| + 1 && Sh().chain == old(Sh().chain) && vol.dirdisk == vol.dir && !vol.dirdirty
                && old(Sh()).dfree != [] && Sh() == Extended(old(Sh()))
    {
      hide Base, Contents, IbAt, Mine, WithMine, Extended;
      CachedAt(View(), Sh(), g, mi, md, b / IBLEN);
      SlotNull(View(), Sh(), g, mi, md, b);
      var d := ib.dba[dindex];
      panic := false;
      if d == NULLID {
        panic := TakeData(dindex);
      } else if d != dnum {
        LoadDataKeeps(View(), d, Sh(), g, mi, md);
        BlockBounds(View(), Sh(), g, mi, md, d);
        ReadData(d);
      }
    }

    /** A data block read into the buffer. */
    method ReadData(d: Word)
      requires d < |vol.disk|
      modifies this`dnum, this`db, this`dbdirty
      ensures View() == old(View()).(db := vol.disk[d], dbdirty := false, dnum := d)
    {
      db := vol.disk[d];
      dbdirty := false;
      dnum := d;
    }

    /** lfsetup, both index parts */
    method Locate() returns (panic: bool)
      requires Sound() && !ibdirty && !dbdirty && Tight(Sh()) && |Sh().blocks| == BlocksFor(D().size) && pos <= D().size <= BLKSIZ * |Sh().blocks|
      modifies vol`disk, vol`dir, vol`dirdisk, vol`dirdirty, this`inum, this`ib, this`ibdirty, this`dnum, this`chain, this`blocks, vol`ifree, vol`dfree
      ensures Kept(old(vol.dir), vol.dir, slot)
      ensures Sh().blocks == old(Sh().blocks) && Sh().dfree == old(Sh().dfree) && D().size == old(D().size)
      ensures panic ==> pos / BLKSIZ >= |Sh().blocks| && old(Sh().ifree) == []
      ensures !panic ==> Sound() && Bytes() == old(Bytes()) && Elsewhere(old(vol.disk), vol.disk, g, mi, md) && Near(Sh())
      ensures !panic ==> pos / IDATA < |Sh().chain| && inum == Sh().chain[pos / IDATA] && (Tight(Sh()) || pos / IDATA == |Sh().chain| - 1)
      ensures !panic && pos / BLKSIZ < |Sh().blocks| ==> Sh() == old(Sh()) && vol.dir == old(vol.dir) && vol.dirdirty == old(vol.dirdirty) && vol.dirdisk == old(vol.dirdisk)
      ensures !panic && old(Sh()).chain == [] ==> old(Sh()).ifree != [] && Sh() == Started(old(Sh())) && vol.disk == old(vol.disk)
    {
      hide Base, Contents, IbAt, Elsewhere, Mine, WithMine, Started;
      NothingYet(Sh(), D().size);
      ghost var c;
      panic, c := StartIndex();
      if panic {
        return;
      }
      assert ibdirty ==> c == 0 && pos == 0;
      panic := AdvanceIndex(c);
    }

    /** lfsetup after its flush: index block, then data block */
    method MoveCaches() returns (panic: bool)
      requires Sound() && !ibdirty && !dbdirty && Tight(Sh()) && |Sh().blocks| == BlocksFor(D().size) && pos <= D().size <= BLKSIZ * |Sh().blocks|
      modifies vol`disk, vol`dir, vol`dirdisk, vol`dirdirty, this`dnum, this`db, this`dbdirty, this`at, this`inum, this`ib, this`ibdirty, this`chain, this`blocks, vol`ifree, vol`dfree
      ensures Kept(old(vol.dir), vol.dir, slot)
      ensures panic ==> pos / BLKSIZ >= |old(Sh().blocks)| && (old(Sh().ifree) == [] || old(Sh().dfree) == [])
      ensures !panic ==> Positioned(View(), Sh()) && Tight(Sh()) && Bytes() == old(Bytes()) && D().size == old(D().size)
      ensures !panic ==> Elsewhere(old(vol.disk), vol.disk, g, mi, md)
      ensures !panic && pos / BLKSIZ < |old(Sh().blocks)| ==> Sound() && Sh() == old(Sh()) && vol.dir == old(vol.dir) && vol.dirdirty == old(vol.dirdirty) && vol.dirdisk == old(vol.dirdisk)
      ensures !panic && pos / BLKSIZ >= |old(Sh().blocks)| ==>
                Base(View().(dbdirty := true), Sh(), g, mi, md) && |Sh().blocks| == |old(Sh().blocks)| + 1 && vol.dirdisk == vol.dir && !vol.dirdirty
      ensures !panic && old(Sh()).chain == [] && old(Sh()).blocks == [] ==> OnBlank(old(Sh()), Sh()) && vol.disk == old(vol.disk)
    {
      hide Base, Contents, IbAt, Elsewhere, Tight, Near, BlocksFor, Kept, Mine, WithMine, View, Sh, Positioned;
      panic := Locate();
      ghost var dmid := vol.dir;
      KeptSize(old(vol.dir), dmid, slot);
      if panic {
        return;
      }
      panic := FetchData();
      KeptTrans(old(vol.dir), dmid, vol.dir, slot);
    }

    /** lfsetup */
    method Setup() returns (panic: bool)
      requires Sound() && used && Tight(Sh()) && |Sh().blocks| == BlocksFor(D().size) && pos <= D().size
      modifies vol`disk, vol`dir, vol`dirdisk, vol`dirdirty, this`dnum, this`db, this`dbdirty, this`at, this`inum, this`ib, this`ibdirty, this`chain, this`blocks, vol`ifree, vol`dfree
      ensures Kept(old(vol.dir), vol.dir, slot)
      ensures panic ==> pos == old(D().size) && (old(Sh().ifree) == [] || old(Sh().dfree) == [])
      ensures !panic ==> Positioned(View(), Sh()) && Tight(Sh()) && Bytes() == old(Bytes()) && D().size == old(D().size) && Elsewhere(old(vol.disk), vol.disk, g, mi, md)
      ensures !panic ==> Base(View().(dbdirty := true), Sh(), g, mi, md) && (old(vol.Synced()) ==> vol.Synced())
      ensures !panic && pos < D().size ==> Sound() && |Sh().blocks| == BlocksFor(D().size)
      ensures !panic && pos == D().size ==> |Sh().blocks| == BlocksFor(D().size + 1)
      ensures !panic && !old(ibdirty) && !old(dbdirty) && old(Sh()).chain == [] && old(Sh()).blocks == [] ==>
                OnBlank(old(Sh()), Sh()) && vol.disk == old(vol.disk)
    {
      hide Base, Contents, IbAt, Elsewhere, Tight, Near, BlocksFor, Kept, Mine, WithMine, View, Sh, Positioned, OnBlank;
      SetupSizes(D().size, pos);
      SameElsewhere(vol.disk, g, mi, md);
      if ibdirty || dbdirty {
        var ok := FlushFile();
      }
      ghost var mid := vol.disk;
      panic := MoveCaches();
      if !panic {
        KeptSize(old(vol.dir), vol.dir, slot);
        ElsewhereTrans(old(vol.disk), mid, vol.disk, g, mi, md);
        DirtyToo(View(), Sh(), g, mi, md);
      }
    }

    // ---- bytes ------------------------------------------------------------

    /** lflputc: a byte overwritten at the position, or appended at the end of the file */
    method Putc(ch: byte) returns (r: int, panic: bool)
      requires used ==> Valid()
      modifies vol`disk, vol`dir, vol`dirdisk, vol`dirdirty, vol`ifree, vol`dfree, this`chain, this`blocks
      modifies this`pos, this`inum, this`ib, this`dnum, this`db, this`at, this`ibdirty, this`dbdirty
      ensures Kept(old(vol.dir), vol.dir, slot)
      ensures used == old(used)
      ensures !used ==> !panic && r == SYSERR && View() == old(View()) && Sh() == old(Sh()) && vol.dir == old(vol.dir)
      ensures panic ==> used && old(pos) == |old(Bytes())| && (old(Sh().ifree) == [] || old(Sh().dfree) == [])
      ensures !panic ==> (used ==> Valid()) && Elsewhere(old(vol.disk), vol.disk, g, mi, md)
      ensures used && !panic ==> r == OK
      ensures used && !panic ==> Bytes() == Written(old(Bytes()), old(pos), ch) && pos == old(pos) + 1
      ensures !panic && (old(vol.Synced()) || (used && old(pos) == |old(Bytes())|)) ==> vol.Synced()
      ensures used && !panic && !old(ibdirty) && !old(dbdirty) && old(Sh()).chain == [] && old(Sh()).blocks == [] ==>
                OnBlank(old(Sh()), Sh()) && vol.disk == old(vol.disk)
    {
      hide Base, Contents, IbAt, Elsewhere, BlocksFor, Written, Mine, WithMine, View, Sh, Ok, Positioned, Tight, Kept, OnBlank;
      panic := false;
      KeptSame(vol.dir, slot);
      SameElsewhere(vol.disk, g, mi, md);
      if !used {
        return SYSERR, false;
      }
      ValidParts();
      if at >= BLKSIZ {
        panic := Setup();
        if panic {
          return SYSERR, true;
        }
        KeptSize(old(vol.dir), vol.dir, slot);
      } else {
        Ready();
      }
      ghost var dmid := vol.dir;
      PutNow(ch);
      KeptTrans(old(vol.dir), dmid, vol.dir, slot);
      return OK, false;
    }

    /** The end of lflputc, with the right block in the buffer. */
    method PutNow(ch: byte)
      requires slot < |vol.dir.files| && Base(View().(dbdirty := true), Sh(), g, mi, md) && Positioned(View(), Sh()) && Tight(Sh()) && pos <= D().size
      requires |Sh().blocks| == if pos < D().size then BlocksFor(D().size) else BlocksFor(D().size + 1)
      modifies vol`dir, vol`dirdirty, this`db, this`at, this`pos, this`dbdirty
      ensures Kept(old(vol.dir), vol.dir, slot)
      ensures Valid() && Bytes() == Written(old(Bytes()), old(pos), ch) && pos == old(pos) + 1
      ensures old(vol.Synced()) || old(pos) == old(D().size) ==> vol.Synced()
    {
      hide Base, Contents, IbAt, BlocksFor, Written, Mine, WithMine;
      PutByteBase(View(), Sh(), g, mi, md, ch);
      PutByteWrites(View(), Sh(), g, mi, md, ch);
      StepPointer(View(), Sh());
      Poke(ch);
    }

    /** Size, buffer, byte pointer, position and dirty flags. */
    method Poke(ch: byte)
      requires slot < |vol.dir.files| && at < BLKSIZ
      modifies vol`dir, vol`dirdirty, this`db, this`at, this`pos, this`dbdirty
      ensures Kept(old(vol.dir), vol.dir, slot) && View() == PutByte(old(View()), ch)
      ensures old(vol.Synced()) || old(pos) >= old(D().size) ==> vol.Synced()
    {
      hide Mine, WithMine;
      if pos >= D().size {
        vol.dir := WithMine(vol.dir, slot, D().(size := D().size + 1));
        vol.dirdirty := true;
      }
      db := db[at := ch];
      at := at + 1;
      pos := pos + 1;
      dbdirty := true;
    }

    /** lflgetc: the byte at the position, or end of file; reading allocates nothing, so it cannot run out of blocks */
    method Getc() returns (r: int)
      requires used ==> Valid()
      modifies vol`disk, vol`dir, vol`dirdisk, vol`dirdirty, vol`ifree, vol`dfree, this`chain, this`blocks
      modifies this`pos, this`inum, this`ib, this`dnum, this`db, this`at, this`ibdirty, this`dbdirty
      ensures Kept(old(vol.dir), vol.dir, slot)
      ensures (used ==> Valid()) && Bytes() == old(Bytes()) && used == old(used) && Elsewhere(old(vol.disk), vol.disk, g, mi, md)
      ensures old(vol.Synced()) ==> vol.Synced()
      ensures !used ==> r == SYSERR && View() == old(View()) && Sh() == old(Sh()) && vol.dir == old(vol.dir)
      ensures used && old(pos) >= |old(Bytes())| ==> r == EOF && pos == old(pos)
      ensures used && old(pos) < |old(Bytes())| ==> r == old(Bytes())[old(pos)] && pos == old(pos) + 1
    {
      hide Base, Contents, IbAt, Elsewhere, BlocksFor, Mine, WithMine, Kept, OnBlank, Tight;
      SameElsewhere(vol.disk, g, mi, md);
      KeptSame(vol.dir, slot);
      if !used {
        return SYSERR;
      }
      if pos >= D().size {
        return EOF;
      }
      if at >= BLKSIZ {
        var panic := Setup();
      }
      r := GetNow();
    }

    method GetNow() returns (r: byte)
      requires Sound() && Positioned(View(), Sh()) && Tight(Sh()) && pos < D().size && |Sh().blocks| == BlocksFor(D().size)
      modifies this`at, this`pos
      ensures Valid() && Bytes() == old(Bytes()) && r == old(Bytes())[old(pos)] && pos == old(pos) + 1
    {
      hide Base, Contents, IbAt, BlocksFor, Mine, WithMine;
      BufferIs(View(), Sh(), g, mi, md);
      StepPointer(View(), Sh());
      PosOnly(View(), at + 1, pos + 1, Sh(), g, mi, md);
      r := db[at];
      at := at + 1;
      pos := pos + 1;
    }

    /** lflseek: anywhere up to the end of the file */
    method Seek(offset: nat) returns (r: int)
      requires used ==> Valid()
      modifies this`pos, this`at
      ensures (used ==> Valid()) && Bytes() == old(Bytes()) && (!used ==> View() == old(View()))
      ensures r == if used && offset <= |Bytes()| then OK else SYSERR
      ensures pos == if r == OK then offset else old(pos)
    {
      hide Base, Contents, IbAt, BlocksFor, Mine, WithMine;
      if !used {
        return SYSERR;
      }
      if offset > D().size {
        return SYSERR;
      }
      PosOnly(View(), BLKSIZ, offset, Sh(), g, mi, md);
      pos := offset;
      at := BLKSIZ;
      return OK;
    }

    /** lflwrite: byte by byte */
    method Write(buf: seq<byte>) returns (r: int, panic: bool)
      requires Valid()
      modifies vol`disk, vol`dir, vol`dirdisk, vol`dirdirty, vol`ifree, vol`dfree, this`chain, this`blocks
      modifies this`pos, this`inum, this`ib, this`dnum, this`db, this`at, this`ibdirty, this`dbdirty
      ensures Kept(old(vol.dir), vol.dir, slot)
      ensures !panic ==> Valid() && Elsewhere(old(vol.disk), vol.disk, g, mi, md)
      ensures !used ==> !panic && Block() == old(Block()) && Bytes() == old(Bytes()) && r == if buf == [] then 0 else SYSERR
      ensures used && !panic ==> r == |buf| && Bytes() == Spliced(old(Bytes()), old(pos), buf) && pos == old(pos) + |buf|
    {
      hide Base, Contents, IbAt, Elsewhere, BlocksFor, Ok, Written, Spliced, Mine, WithMine;
      var i := 0;
      PosIn(View(), Sh(), g, mi, md);
      SplicedNone(Bytes(), pos);
      SameElsewhere(vol.disk, g, mi, md);
      assert buf[..0] == [];
      while i < |buf|
        invariant 0 <= i <= |buf| && Valid() && (used || (i == 0 && Block() == old(Block()))) && pos == old(pos) + i && Kept(old(vol.dir), vol.dir, slot)
        invariant Bytes() == Spliced(old(Bytes()), old(pos), buf[..i]) && Elsewhere(old(vol.disk), vol.disk, g, mi, md)
      {
        PosIn(View(), Sh(), g, mi, md);
        ghost var mid := vol.disk;
        var c, p := Putc(buf[i]);
        if !p {
          ElsewhereTrans(old(vol.disk), mid, vol.disk, g, mi, md);
        }
        if p || c == SYSERR {
          return SYSERR, p;
        }
        assert buf[..i + 1] == buf[..i] + [buf[i]];
        SplicedMore(old(Bytes()), old(pos), buf[..i], buf[i]);
        i := i + 1;
      }
      assert buf[..i] == buf;
      return |buf|, false;
    }

    /** lflread: as many bytes as there are, up to `count` */
    method Read(count: int) returns (r: int, buf: seq<byte>)
      requires Valid()
      modifies vol`disk, vol`dir, vol`dirdisk, vol`dirdirty, vol`ifree, vol`dfree, this`chain, this`blocks
      modifies this`pos, this`inum, this`ib, this`dnum, this`db, this`at, this`ibdirty, this`dbdirty
      ensures Kept(old(vol.dir), vol.dir, slot)
      ensures Valid() && Bytes() == old(Bytes()) && pos == old(pos) + |buf| && Elsewhere(old(vol.disk), vol.disk, g, mi, md)
      ensures count < 0 || (!used && count > 0) ==> r == SYSERR && buf == []
      ensures count >= 0 && (used || count == 0) ==>
                var n := |old(Bytes())| - old(pos);
                |buf| == (if count < n then count else n) && buf == old(Bytes())[old(pos)..old(pos) + |buf|]
                && r == if count > 0 && buf == [] then EOF else |buf|
    {
      hide Base, Contents, IbAt, Elsewhere, BlocksFor, Ok, Mine, WithMine;
      PosIn(View(), Sh(), g, mi, md);
      SameElsewhere(vol.disk, g, mi, md);
      buf := [];
      if count < 0 {
        return SYSERR, buf;
      }
      while |buf| < count
        invariant Kept(old(vol.dir), vol.dir, slot)
        invariant (buf != [] ==> used) && Elsewhere(old(vol.disk), vol.disk, g, mi, md)
        invariant |buf| <= count && Valid() && Bytes() == old(Bytes()) && pos == old(pos) + |buf| <= |old(Bytes())|
        invariant buf == old(Bytes())[old(pos)..old(pos) + |buf|]
        decreases count - |buf|
      {
        ghost var mid := vol.disk;
        var c := Getc();
        ElsewhereTrans(old(vol.disk), mid, vol.disk, g, mi, md);
        if c == SYSERR {
          return SYSERR, buf;
        } else if c == EOF {
          return if |buf| == 0 then EOF else |buf|, buf;
        }
        buf := buf + [c];
      }
      return |buf|, buf;
    }

    // ---- truncation -------------------------------------------------------

    /** lfdbfree, for block `n` of the file during truncation; `rest` is whatever is in the buffer */
    method FreeBlockNow(d: Word, rest: Sector, ghost start: Fs, ghost s: Shape, ghost k: nat, ghost n: nat)
      requires Fixed(s, g, mi, md) && Walking(vol.disk, D().dfree, start, s, g, k, n) && n < |s.blocks| && d == s.blocks[n]
      modifies vol`disk, vol`dir, vol`dirdisk
      ensures Kept(old(vol.dir), vol.dir, slot)
      ensures Walking(vol.disk, D().dfree, start, s, g, k, n + 1) && Elsewhere(old(vol.disk), vol.disk, g, mi, md)
      ensures D() == old(D()).(dfree := d) && vol.dirdisk == vol.dir
    {
      hide Fixed, Walking, Elsewhere;
      FreeOne(vol.disk, D().dfree, start, s, g, mi, md, k, n, rest);
      var next := D().dfree;
      vol.dir := WithMine(vol.dir, slot, D().(dfree := d));
      vol.disk := vol.disk[d := FreeBlock(next, rest)];
      vol.dirdisk := vol.dir;
    }

    /** The inner loop of lftruncate: the data blocks of one index block */
    method FreeSlots(ib0: IBlk, ghost start: Fs, ghost s: Shape, ghost k: nat) returns (iblock: IBlk)
      requires Fixed(s, g, mi, md) && IbOk(ib0) && Walking(vol.disk, D().dfree, start, s, g, k, IBLEN * k)
      requires forall j | 0 <= j < IBLEN :: ib0.dba[j] == Slot(s.blocks, IBLEN * k + j)
      modifies vol`disk, vol`dir, vol`dirdisk
      ensures Kept(old(vol.dir), vol.dir, slot)
      ensures Walking(vol.disk, D().dfree, start, s, g, k, IBLEN * (k + 1)) && Elsewhere(old(vol.disk), vol.disk, g, mi, md)
      ensures D() == old(D()).(dfree := D().dfree) && IbOk(iblock) && iblock.next == ib0.next && iblock.dba == Blank(0).dba
    {
      hide Elsewhere, Walking, Fixed;
      SameElsewhere(vol.disk, g, mi, md);
      iblock := ib0;
      var i := 0;
      while i < IBLEN
        invariant 0 <= i <= IBLEN && IbOk(iblock) && iblock.next == ib0.next && Kept(old(vol.dir), vol.dir, slot)
        invariant forall j | i <= j < IBLEN :: iblock.dba[j] == Slot(s.blocks, IBLEN * k + j)
        invariant forall j | 0 <= j < i :: iblock.dba[j] == NULLID
        invariant Walking(vol.disk, D().dfree, start, s, g, k, IBLEN * k + i) && Elsewhere(old(vol.disk), vol.disk, g, mi, md)
        invariant D() == old(D()).(dfree := D().dfree)
      {
        var nextdb := iblock.dba[i];
        SlotIs(s, g, mi, md, IBLEN * k + i);
        if nextdb != NULLID {
          ghost var mid := vol.disk;
          FreeBlockNow(nextdb, db, start, s, k, IBLEN * k + i);
          ElsewhereTrans(old(vol.disk), mid, vol.disk, g, mi, md);
        } else {
          PastEnd(vol.disk, D().dfree, start, s, g, k, IBLEN * k + i);
        }
        iblock := iblock.(dba := iblock.dba[i := NULLID]);
        i := i + 1;
      }
    }

    /** One turn of lftruncate's outer loop: an index block's data blocks freed, the block cleared and linked on */
    method ClearBlock(ib: Word, ifree: Word, ghost start: Fs, ghost s: Shape, ghost k: nat) returns (next: Word)
      requires Fixed(s, g, mi, md) && k < |s.chain| && ib == s.chain[k] && ifree == Head(s.ifree)
      requires Walking(vol.disk, D().dfree, start, s, g, k, IBLEN * k) && Chain(start, s.chain) && Slots(start, s.chain, s.blocks)
      modifies vol`disk, vol`dir, vol`dirdisk
      ensures Kept(old(vol.dir), vol.dir, slot)
      ensures Walking(vol.disk, D().dfree, start, s, g, k + 1, IBLEN * (k + 1)) && Elsewhere(old(vol.disk), vol.disk, g, mi, md)
      ensures D() == old(D()).(dfree := D().dfree) && next == Onward(s, k)
    {
      hide Elsewhere, Walking, Fixed, Chain, Slots, Mine, WithMine, IbAt, WithIb, Kept;
      HeadsDiffer(s, g, mi, md, k);
      ChainIndex(vol.disk, D().dfree, start, s, g, mi, md, k);
      var iblock := IbGet(vol.disk, ib);
      iblock := FreeSlots(iblock, start, s, k);
      iblock := iblock.(off := 0);
      if iblock.next == NULLID {
        iblock := iblock.(next := ifree);
      }
      ghost var mid := vol.disk;
      ClearOne(vol.disk, D().dfree, start, s, g, mi, md, k, IBLEN * (k + 1), iblock);
      StillBig(vol.disk, D().dfree, start, s, g, k, IBLEN * (k + 1), ib, mi, md);
      vol.disk := IbPut(vol.disk, ib, iblock);
      ElsewhereTrans(old(vol.disk), mid, vol.disk, g, mi, md);
      next := iblock.next;
    }

    /** The outer loop of lftruncate: along the chain, until it leads into the old free list */
    method FreeChain(firstib: Word, ifree: Word, ghost start: Fs, ghost s: Shape)
      requires Fixed(s, g, mi, md) && Walking(vol.disk, D().dfree, start, s, g, 0, 0) && firstib == Head(s.chain) && ifree == Head(s.ifree)
      requires Chain(start, s.chain) && Slots(start, s.chain, s.blocks) && |s.blocks| <= IBLEN * |s.chain| && s.chain != []
      modifies vol`disk, vol`dir, vol`dirdisk
      ensures Kept(old(vol.dir), vol.dir, slot)
      ensures Walking(vol.disk, D().dfree, start, s, g, |s.chain|, IBLEN * |s.chain|) && Elsewhere(old(vol.disk), vol.disk, g, mi, md)
      ensures D() == old(D()).(dfree := D().dfree)
    {
      hide Elsewhere, Walking, Fixed, Chain, Slots, Mine, WithMine, Kept;
      SameElsewhere(vol.disk, g, mi, md);
      KeptSame(vol.dir, slot);
      var nextib := firstib;
      ghost var k := 0;
      while nextib != ifree
        invariant k <= |s.chain| && nextib == (if k < |s.chain| then s.chain[k] else ifree) && Kept(old(vol.dir), vol.dir, slot)
        invariant Walking(vol.disk, D().dfree, start, s, g, k, IBLEN * k) && Elsewhere(old(vol.disk), vol.disk, g, mi, md)
        invariant D() == old(D()).(dfree := D().dfree)
        decreases |s.chain| - k
      {
        ghost var mid, dmid := vol.disk, vol.dir;
        nextib := ClearBlock(nextib, ifree, start, s, k);
        ElsewhereTrans(old(vol.disk), mid, vol.disk, g, mi, md);
        KeptTrans(old(vol.dir), dmid, vol.dir, slot);
        k := k + 1;
      }
      HeadsDiffer(s, g, mi, md, k);
    }

    /** lftruncate */
    method Truncate()
      requires Valid() && used
      modifies vol`disk, vol`dir, vol`dirdisk, vol`dirdirty, this`ibdirty, this`dbdirty, this`pos, this`inum, this`dnum, this`at, this`chain, this`blocks, vol`ifree, vol`dfree
      ensures Kept(old(vol.dir), vol.dir, slot)
      ensures Valid() && Bytes() == [] && pos == 0 && Elsewhere(old(vol.disk), vol.disk, g, mi, md)
      ensures Sh() == Emptied(old(Sh())) && (old(vol.Synced()) || |old(Bytes())| > 0 ==> vol.Synced())
    {
      hide Elsewhere, Base, Contents, IbAt, BlocksFor, Mine, WithMine, View, Sh, Ok, Kept, Emptied;
      SameElsewhere(vol.disk, g, mi, md);
      KeptSame(vol.dir, slot);
      EmptyOrNot();
      if D().size == 0 {
        return;
      }
      if ibdirty || dbdirty {
        var ok := FlushFile();
      }
      ghost var mid := vol.disk;
      FreeAll();
      ElsewhereTrans(old(vol.disk), mid, vol.disk, g, mi, md);
    }

    /** lftruncate once the caches are on disk. */
    method FreeAll()
      requires Sound() && !ibdirty && !dbdirty && Sh().chain != [] && |Sh().blocks| <= IBLEN * |Sh().chain|
      modifies vol`disk, vol`dir, vol`dirdisk, vol`dirdirty, this`pos, this`inum, this`dnum, this`at, this`chain, this`blocks, vol`ifree, vol`dfree
      ensures Kept(old(vol.dir), vol.dir, slot)
      ensures Valid() && Bytes() == [] && pos == 0 && Elsewhere(old(vol.disk), vol.disk, g, mi, md) && Sh() == Emptied(old(Sh())) && vol.Synced()
    {
      hide Elsewhere, Base, Contents, IbAt, Ok, Walking, Fixed, Chain, Slots, Mine, WithMine;
      ghost var start, s := View(), Sh();
      TruncateStarts(start, s, g, mi, md);
      pos := 0;
      inum := NULLID;
      dnum := NULLID;
      at := BLKSIZ;
      var ifree, firstib := D().ifree, D().ilist;
      vol.dir := WithMine(vol.dir, slot, D().(ilist := NULLID, size := 0));
      vol.dirdirty := true;
      FreeChain(firstib, ifree, start, s);
      vol.dir := WithMine(vol.dir, slot, D().(ifree := firstib));
      vol.dirdirty := true;
      TruncateEnds(View(), start, s, g, mi, md);
      Reshape(Emptied(s));
    }

    // ---- closing and opening ----------------------------------------------

    /** lflclose: afterwards the file's blocks are all on disk */
    method Close() returns (r: int)
      requires used ==> Valid()
      modifies vol`disk, vol`dirdisk, vol`dirdirty, this`ibdirty, this`dbdirty, this`used
      ensures (old(used) ==> Valid()) && Bytes() == old(Bytes()) && Elsewhere(old(vol.disk), vol.disk, g, mi, md)
      ensures !old(used) ==> r == SYSERR && View() == old(View()) && !used && vol.disk == old(vol.disk) && vol.dirdisk == old(vol.dirdisk) && vol.dirdirty == old(vol.dirdirty)
      ensures old(used) ==> r == OK && !used && !ibdirty && !dbdirty && !vol.dirdirty
      ensures old(used) ==> (vol.dirdisk == vol.dir <==> old(vol.Synced()))
      ensures old(used) ==> vol.dirdisk == if old(vol.dirdirty) then vol.dir else old(vol.dirdisk)
    {
      hide Elsewhere, Base, Contents, IbAt, BlocksFor, Mine, WithMine;
      SameElsewhere(vol.disk, g, mi, md);
      if !used {
        return SYSERR;
      }
      if vol.dirdirty || dbdirty || ibdirty {
        var ok := FlushFile();
        FlushFrame(old(View()));
      }
      used := false;
      return OK;
    }

    /** lfsopen's copy of the name, whose target never moves: all that stays is the last character copied, the null */
    method CopyName(name: Name)
      requires |lfname| == NAME_LEN
      modifies this`lfname
      ensures lfname == old(lfname)[0 := NUL]
    {
      var k := 0;
      while k < |name|
        invariant k <= |name| && |lfname| == NAME_LEN && lfname[1..] == old(lfname)[1..]
      {
        lfname := lfname[0 := name[k]];
        k := k + 1;
      }
      lfname := lfname[0 := NUL];
    }

    /** lfsopen's comparison of a name with the name of an open file, character by character */
    method NameIs(name: Name) returns (same: bool)
      requires |name| < NAME_LEN == |lfname|
      ensures same <==> name == lfname[..|name|] && lfname[|name|] == NUL
    {
      var k := 0;
      while k < |name| && name[k] == lfname[k]
        invariant k <= |name| && name[..k] == lfname[..k]
      {
        k := k + 1;
      }
      assert k < |name| ==> name[k] != lfname[..|name|][k];
      return k == |name| && lfname[k] == NUL;
    }

    /** The end of lfsopen: the control block is for file `i`, at position 0, with nothing cached */
    method Attach(i: nat, name: Name, ghost c: seq<nat>, ghost b: seq<nat>)
      requires |lfname| == NAME_LEN
      modifies this
      ensures used && slot == i && lfname == old(lfname)[0 := NUL] && chain == c && blocks == b && ib == old(ib) && db == old(db)
      ensures pos == 0 && inum == NULLID && dnum == NULLID && at == BLKSIZ && !ibdirty && !dbdirty
    {
      used := true;
      slot := i;
      pos := 0;
      CopyName(name);
      inum := NULLID;
      dnum := NULLID;
      at := BLKSIZ;
      ibdirty := false;
      dbdirty := false;
      chain, blocks := c, b;
    }

    /** Where the file is in order and nothing is cached, what is on disk is the file. */
    lemma OnDiskIsFile()
      requires Valid() && inum == NULLID && dnum == NULLID && D().size > 0
      ensures D().ilist != NULLID && SectOf(D().ilist) < |vol.disk|
      ensures var d := IbAt(vol.disk, D().ilist).dba[0]; d != NULLID && d < |vol.disk| && Bytes()[0] == vol.disk[d][0]
    {
      hide IbAt, FreeIndex, FreeData, Owned;
      EmptyOrNot();
      SectorOfIndex(chain[0], g);
      assert ChainAt(View(), chain, 0) && SlotsAt(View(), chain, blocks, 0);
    }

    /**
     lflgetc on a control block just opened, with no assumption about the file: it goes by what is on disk, and
     takes a free block for the first byte if the index block on disk has none.
     */
    method FreshGetc() returns (r: int, panic: bool)
      requires used && pos == 0 && inum == NULLID && dnum == NULLID && at == BLKSIZ && !ibdirty && !dbdirty && slot < |vol.dir.files|
      requires D().size > 0 ==> D().ilist != NULLID && SectOf(D().ilist) < |vol.disk| && OnDisk(IbAt(vol.disk, D().ilist).dba[0], D().dfree, |vol.disk|)
      modifies vol`dir, vol`dirdisk, vol`dirdirty, this`pos, this`inum, this`ib, this`dnum, this`db, this`at, this`ibdirty, this`dbdirty
      ensures D() == old(D()).(dfree := D().dfree) && Kept(old(vol.dir), vol.dir, slot)
      ensures old(D()).size == 0 ==> r == EOF && !panic
      ensures old(D()).size > 0 ==>
                var d, free := IbAt(vol.disk, old(D()).ilist).dba[0], old(D()).dfree;
                (panic <==> d == NULLID && free == NULLID)
                && (d != NULLID ==> r == vol.disk[d][0] && dnum == d)
                && (d == NULLID && free != NULLID ==> r == FILL && dnum == free)
    {
      panic := false;
      KeptSame(vol.dir, slot);
      if pos >= D().size {
        return EOF, false;
      }
      ReadIndex(D().ilist);
      var d := ib.dba[0];
      if d == NULLID {
        if D().dfree == NULLID {
          return SYSERR, true;
        }
        AllocInto(0);
      } else {
        ReadData(d);
      }
      at := 0;
      r := db[at];
      at := at + 1;
      pos := pos + 1;
    }
  }

  /** The block, or else the free block that would be taken for it, is on the disk. */
  predicate OnDisk(d: Word, free: Word, sectors: nat) {
    if d == NULLID then free == NULLID || free < sectors else d < sectors
  }

  /** A first index block for an empty file. */
  ghost function Started(s: Shape): Shape
    requires s.ifree != []
  {
    s.(chain := [s.ifree[0]], ifree := s.ifree[1..])
  }

  /** One more data block. */
  ghost function Extended(s: Shape): Shape
    requires s.dfree != []
  {
    s.(blocks := s.blocks + [s.dfree[0]], dfree := s.dfree[1..])
  }

  /** The first byte of an empty file takes one block of each kind. */
  ghost predicate OnBlank(s: Shape, t: Shape) {
    s.ifree != [] && s.dfree != [] && t == Shape([s.ifree[0]], [s.dfree[0]], s.ifree[1..], s.dfree[1..])
  }

  // ---- lfscreate ----------------------------------------------------------

  function IndexSectors(lfiblks: nat): (n: nat)
    ensures lfiblks <= PERSECT * n < lfiblks + PERSECT
  {
    (lfiblks + PERSECT - 1) / PERSECT
  }

  /**
   lfscreate: an index area rounded up to whole sectors, and every block on a free list. Asked for no index blocks it
   still puts index block 0 on the free list, in a sector that is also the first free data block.
   */
  method Format(disk0: Disk, lfiblks: nat) returns (disk: Disk, dir: VDir, ok: bool)
    requires 3 <= |disk0| && |disk0| * BLKSIZ < 0x1_0000_0000
    ensures ok <==> IndexSectors(lfiblks) <= |disk0| / 2
    ensures ok ==> dir.ifree == 0 && (SectOf(dir.ifree) < dir.dfree <==> lfiblks > 0)
    ensures ok && lfiblks > 0 ==> var g := Geo(PERSECT * IndexSectors(lfiblks), |disk0|);
                   dir.files == [] && FreeOk(disk, dir, Range(0, g.nib), Range(FirstData(g), g.sectors), g)
  {
    var ibsectors := IndexSectors(lfiblks);
    disk := disk0;
    if ibsectors > |disk0| / 2 {
      return disk, VDir(0, 0, []), false;
    }
    dir := VDir(ibsectors + 1, 0, []);
    var nib := PERSECT * ibsectors;
    ghost var g := Geo(nib, |disk0|);
    assert FirstData(g) == ibsectors + 1;
    hide IbAt, WithIb, FreeBlock, NextOf, FreeOk, Range;
    var i := 0;
    while i < nib - 1
      invariant 0 <= i && (i < nib || i == nib == 0) && |disk| == |disk0| && forall k: nat | k < i :: FreeLink(IbAt(disk, k), k + 1)
    {
      disk := PutNext(disk, i, i + 1);
      i := i + 1;
    }
    disk := PutNext(disk, i, NULLID);
    var dbindex := ibsectors + 1;
    ghost var index := disk;
    while dbindex < |disk0| - 1
      invariant ibsectors + 1 <= dbindex < |disk0| && |disk| == |disk0| && forall k: nat | k < nib :: IbAt(disk, k) == IbAt(index, k)
      invariant forall d | ibsectors + 1 <= d < dbindex :: NextOf(disk[d]) == d + 1
    {
      disk := PutFree(disk, dbindex, dbindex + 1, g);
      dbindex := dbindex + 1;
    }
    disk := PutFree(disk, dbindex, NULLID, g);
    if nib > 0 {
      FormatOk(disk, index, dir, g);
    }
    return disk, dir, true;
  }

  lemma FormatOk(disk: Disk, index: Disk, dir: VDir, g: Geo)
    requires GeoOk(g) && g.nib > 0 && FirstData(g) < g.sectors && |disk| == g.sectors && dir == VDir(FirstData(g), 0, [])
    requires forall k: nat | k < g.nib :: IbAt(disk, k) == IbAt(index, k)
    requires forall k: nat | k < g.nib :: FreeLink(IbAt(index, k), if k + 1 < g.nib then k + 1 else NULLID)
    requires forall d | FirstData(g) <= d < g.sectors :: NextOf(disk[d]) == if d + 1 < g.sectors then d + 1 else NULLID
    ensures FreeOk(disk, dir, Range(0, g.nib), Range(FirstData(g), g.sectors), g)
  {
    hide IbAt, NextOf, Range;
    var ns, ds := Range(0, g.nib), Range(FirstData(g), g.sectors);
    assert forall k | 0 <= k < |ns| :: ns[k] < g.nib;
    assert forall k | 0 <= k < |ds| :: ds[k] < g.sectors;
  }

  /** One free index block written. */
  method PutNext(disk: Disk, n: nat, next: Word) returns (r: Disk)
    requires SectOf(n) < |disk|
    ensures |r| == |disk| && FreeLink(IbAt(r, n), next) && forall m: nat | m != n :: IbAt(r, m) == IbAt(disk, m)
  {
    var iblock := IbClear(0);
    r := IbPut(disk, n, iblock.(next := next));
    forall m: nat
      ensures IbAt(r, m) == if m == n then iblock.(next := next) else IbAt(disk, m)
    {
      IbPutGet(disk, n, iblock.(next := next), m);
    }
  }

  /** One free data block written. */
  method PutFree(disk: Disk, d: nat, next: Word, ghost g: Geo) returns (r: Disk)
    requires GeoOk(g) && |disk| == g.sectors && FirstData(g) <= d < g.sectors
    ensures |r| == |disk| && NextOf(r[d]) == next && (forall m: nat | m < g.nib :: IbAt(r, m) == IbAt(disk, m))
    ensures forall e | 0 <= e < |disk| && e != d :: r[e] == disk[e]
  {
    var zeros: Sector := seq(BLKSIZ, _ => 0);
    FreeTrip(next, zeros);
    r := disk[d := FreeBlock(next, zeros)];
    DataElsewhere(disk, d, FreeBlock(next, zeros), g, multiset{}, multiset{d});
  }

  /** At most one block short of tight. */
  predicate Near(sh: Shape) {
    |sh.blocks| <= IBLEN * |sh.chain| && IBLEN * |sh.chain| <= |sh.blocks| + IBLEN
  }

  lemma FlushBoundsClean(fs: Fs, sh: Shape, g: Geo, mi: multiset<nat>, md: multiset<nat>)
    requires Base(fs, sh, g, mi, md) && fs.inum in sh.chain
    ensures IbOk(fs.ib) && SectOf(fs.inum) < |fs.disk| && fs.inum != NULLID
  {
    SectorOfIndex(fs.inum, g);
  }

  lemma PopKeeps(fs: Fs)
    requires fs.dir.ifree != NULLID
    ensures var r := PopIndex(fs); r == fs.(dir := r.dir) && r.dir == fs.dir.(ifree := r.dir.ifree)
  {
  }

  lemma HeadIs(fs: Fs, sh: Shape, g: Geo, mi: multiset<nat>, md: multiset<nat>)
    requires Base(fs, sh, g, mi, md) && sh.ifree != []
    ensures fs.dir.ifree == sh.ifree[0]
  {
  }

  lemma SizeBound(fs: Fs, sh: Shape, g: Geo, mi: multiset<nat>, md: multiset<nat>)
    requires Base(fs, sh, g, mi, md)
    ensures BLKSIZ * |sh.blocks| < 0x1_0000_0000
  {
    OwnedApart(sh.blocks, sh.dfree, md);
    hide Chain, Slots, FreeIndex, FreeData, IbAt, Owned, Cache;
    DistinctBelow(sh.blocks, g.sectors);
  }

  /** Distinct numbers below a bound are no more than the bound. */
  lemma {:induction false} DistinctBelow(s: seq<nat>, n: nat)
    requires (forall i, j | 0 <= i < j < |s| :: s[i] != s[j]) && forall i | 0 <= i < |s| :: s[i] < n
    ensures |s| <= n
    decreases n
  {
    assert s != [] ==> s[0] < n;
    if n > 0 {
      if i :| 0 <= i < |s| && s[i] == n - 1 {
        var t := s[..i] + s[i + 1..];
        assert forall k | 0 <= k < |t| :: t[k] == s[if k < i then k else k + 1];
        DistinctBelow(t, n - 1);
      } else {
        DistinctBelow(s, n - 1);
      }
    }
  }

  lemma SameElsewhere(disk: Disk, g: Geo, mi: multiset<nat>, md: multiset<nat>)
    ensures Elsewhere(disk, disk, g, mi, md)
  {
  }

  lemma HopBounds(sh: Shape, pos: nat, c: nat)
    requires Tight(sh) && pos <= BLKSIZ * |sh.blocks| && c < |sh.chain| && c < pos / IDATA
    ensures c + 1 < |sh.chain| || (pos / IDATA == |sh.chain| == c + 1 && |sh.blocks| == IBLEN * |sh.chain| == pos / BLKSIZ)
    ensures IDATA * (c + 1) <= pos && pos / IDATA <= |sh.chain|
  {
  }

  lemma DataBounds(fs: Fs, sh: Shape, g: Geo, mi: multiset<nat>, md: multiset<nat>)
    requires Base(fs, sh, g, mi, md)
    ensures fs.dir.dfree == NULLID <==> sh.dfree == []
    ensures sh.dfree != [] ==> fs.dir.dfree == sh.dfree[0] < |fs.disk|
  {
    hide Chain, Slots, FreeIndex, FreeData, IbAt, Owned;
    assert sh.dfree != [] ==> sh.dfree[0] < g.sectors;
  }

  lemma NearTight(sh: Shape)
    ensures forall t: Shape | t.chain == sh.chain && |t.blocks| == |sh.blocks| + 1 ::
              (|sh.blocks| + 1 <= IBLEN * |sh.chain| < |sh.blocks| + 1 + IBLEN ==> Tight(t))
  {
  }

  /** The slot for a position is slot `pos / 512` of the file. */
  lemma SlotPlace(sh: Shape, pos: nat)
    requires pos / IDATA < |sh.chain| && pos <= BLKSIZ * |sh.blocks| && Near(sh)
    ensures IBLEN * (pos / IDATA) + pos % IDATA / BLKSIZ == pos / BLKSIZ && pos % IDATA / BLKSIZ < IBLEN
    ensures pos / BLKSIZ / IBLEN == pos / IDATA
    ensures pos / BLKSIZ <= |sh.blocks|
    ensures pos / BLKSIZ == |sh.blocks| ==> pos / IDATA == |sh.chain| - 1
    ensures pos / BLKSIZ == |sh.blocks| ==> |sh.blocks| + 1 <= IBLEN * |sh.chain| < |sh.blocks| + 1 + IBLEN
  {
    var k, r := pos / IDATA, pos % IDATA;
    assert pos == IDATA * k + r;
    assert pos / BLKSIZ == IBLEN * k + r / BLKSIZ;
  }

  lemma SlotNull(fs: Fs, sh: Shape, g: Geo, mi: multiset<nat>, md: multiset<nat>, b: nat)
    requires Base(fs, sh, g, mi, md)
    ensures Slot(sh.blocks, b) == NULLID <==> b >= |sh.blocks|
    ensures b < |sh.blocks| ==> Slot(sh.blocks, b) == sh.blocks[b] && sh.blocks[b] in sh.blocks
  {
  }

  lemma BlockBounds(fs: Fs, sh: Shape, g: Geo, mi: multiset<nat>, md: multiset<nat>, d: nat)
    requires Base(fs, sh, g, mi, md) && d in sh.blocks
    ensures d < |fs.disk| && d != NULLID
  {
  }

  /** The byte pointer is no part of the structure. */
  lemma AtOnly(fs: Fs, at: nat, sh: Shape, g: Geo, mi: multiset<nat>, md: multiset<nat>)
    ensures Base(fs, sh, g, mi, md) ==> Base(fs.(at := at), sh, g, mi, md)
    ensures Base(fs.(dbdirty := true), sh, g, mi, md) ==> Base(fs.(at := at, dbdirty := true), sh, g, mi, md)
    ensures Contents(fs.(at := at), sh.blocks) == Contents(fs, sh.blocks)
  {
    hide Owned, FreeData, FreeIndex, IbAt, Numbers;
    if Base(fs, sh, g, mi, md) {
      SameIndex(fs, fs.(at := at), sh.chain, sh.blocks);
    }
    if Base(fs.(dbdirty := true), sh, g, mi, md) {
      SameIndex(fs.(dbdirty := true), fs.(at := at, dbdirty := true), sh.chain, sh.blocks);
    }
    SameContents(fs, fs.(at := at), sh.blocks);
  }

  lemma FlushFrame(fs: Fs)
    ensures var r := Flush(fs); r.pos == fs.pos && r.dir == fs.dir
  {
  }

  /** How many blocks there are, and whether the position needs one more. */
  lemma SetupSizes(size: nat, pos: nat)
    requires pos <= size
    ensures size <= BLKSIZ * BlocksFor(size)
    ensures pos < size ==> pos / BLKSIZ < BlocksFor(size)
    ensures pos == size ==> BlocksFor(size + 1) == if pos / BLKSIZ < BlocksFor(size) then BlocksFor(size) else BlocksFor(size) + 1
  {
  }

  lemma DirtyToo(fs: Fs, sh: Shape, g: Geo, mi: multiset<nat>, md: multiset<nat>)
    requires Positioned(fs, sh)
    ensures Base(fs, sh, g, mi, md) ==> Base(fs.(dbdirty := true), sh, g, mi, md)
  {
    hide Owned, FreeData, FreeIndex, IbAt;
    if Base(fs, sh, g, mi, md) {
      assert fs.dnum < g.sectors;
      SameIndex(fs, fs.(dbdirty := true), sh.chain, sh.blocks);
    }
  }

  /** Bytes written one after the other from a position on. */
  ghost function Spliced(s: seq<byte>, pos: nat, buf: seq<byte>): seq<byte>
    requires pos <= |s|
  {
    s[..pos] + buf + if pos + |buf| < |s| then s[pos + |buf|..] else []
  }

  lemma SplicedNone(s: seq<byte>, pos: nat)
    requires pos <= |s|
    ensures Spliced(s, pos, []) == s
  {
  }

  lemma SplicedMore(s: seq<byte>, pos: nat, buf: seq<byte>, ch: byte)
    requires pos <= |s|
    ensures pos + |buf| <= |Spliced(s, pos, buf)|
    ensures Written(Spliced(s, pos, buf), pos + |buf|, ch) == Spliced(s, pos, buf + [ch])
  {
  }

  lemma PosIn(fs: Fs, sh: Shape, g: Geo, mi: multiset<nat>, md: multiset<nat>)
    requires Ok(fs, sh, g, mi, md)
    ensures fs.pos <= fs.dir.size
  {
  }

  /** The block of the last access is still in the buffer. */
  lemma StillThere(fs: Fs, sh: Shape, g: Geo, mi: multiset<nat>, md: multiset<nat>)
    requires Ok(fs, sh, g, mi, md) && fs.at < BLKSIZ
    ensures Positioned(fs, sh) && Base(fs.(dbdirty := true), sh, g, mi, md)
    ensures fs.pos == fs.dir.size ==> BlocksFor(fs.dir.size + 1) == BlocksFor(fs.dir.size)
  {
    hide Base;
    DirtyToo(fs, sh, g, mi, md);
    SetupSizes(fs.dir.size, fs.pos);
  }

  lemma PosOnly(fs: Fs, at: nat, pos: nat, sh: Shape, g: Geo, mi: multiset<nat>, md: multiset<nat>)
    requires Base(fs, sh, g, mi, md)
    ensures Base(fs.(at := at, pos := pos), sh, g, mi, md) && Contents(fs.(at := at, pos := pos), sh.blocks) == Contents(fs, sh.blocks)
  {
    var r := fs.(at := at, pos := pos);
    SameIndex(fs, r, sh.chain, sh.blocks);
    SameContents(fs, r, sh.blocks);
    hide Owned, FreeData, FreeIndex, IbAt, Numbers, Chain, Slots, Contents;
  }

  // ---- lemmas for truncation ----------------------------------------------

  lemma SlotIs(s: Shape, g: Geo, mi: multiset<nat>, md: multiset<nat>, b: nat)
    requires Fixed(s, g, mi, md)
    ensures Slot(s.blocks, b) == NULLID <==> b >= |s.blocks|
    ensures b < |s.blocks| ==> Slot(s.blocks, b) == s.blocks[b]
  {
  }

  lemma PastEnd(disk: Disk, dfree: Word, start: Fs, s: Shape, g: Geo, k: nat, n: nat)
    requires Walking(disk, dfree, start, s, g, k, n) && n >= |s.blocks|
    ensures Walking(disk, dfree, start, s, g, k, n + 1)
  {
    assert Freed(s, n + 1) == Freed(s, n);
  }

  /** No block of the chain is the head of the free list, so the walk does not stop early. */
  lemma HeadsDiffer(s: Shape, g: Geo, mi: multiset<nat>, md: multiset<nat>, k: nat)
    requires Fixed(s, g, mi, md)
    ensures k < |s.chain| ==> s.chain[k] != Head(s.ifree) && s.chain[k] < NULLID && s.chain[k] < g.nib
    ensures k + 1 < |s.chain| ==> s.chain[k + 1] < NULLID
  {
    OwnedApart(s.chain, s.ifree, mi);
    assert k < |s.chain| ==> s.chain[k] in s.chain;
  }

  lemma ChainIndex(disk: Disk, dfree: Word, start: Fs, s: Shape, g: Geo, mi: multiset<nat>, md: multiset<nat>, k: nat)
    requires Fixed(s, g, mi, md) && Walking(disk, dfree, start, s, g, k, IBLEN * k) && k < |s.chain|
    requires Chain(start, s.chain) && Slots(start, s.chain, s.blocks)
    ensures SectOf(s.chain[k]) < |disk|
    ensures var ib := IbAt(disk, s.chain[k]);
            ib.next == After(s.chain, k) && forall j | 0 <= j < IBLEN :: ib.dba[j] == Slot(s.blocks, IBLEN * k + j)
  {
    SectorOfIndex(s.chain[k], g);
    assert ChainAt(start, s.chain, k) && SlotsAt(start, s.chain, s.blocks, k);
  }

  lemma StillBig(disk: Disk, dfree: Word, start: Fs, s: Shape, g: Geo, k: nat, n: nat, x: nat, mi: multiset<nat>, md: multiset<nat>)
    requires Fixed(s, g, mi, md) && Walking(disk, dfree, start, s, g, k, n) && x < g.nib
    ensures SectOf(x) < |disk|
  {
    SectorOfIndex(x, g);
  }

  lemma AlreadyEmpty(fs: Fs, sh: Shape, g: Geo, mi: multiset<nat>, md: multiset<nat>)
    requires Ok(fs, sh, g, mi, md) && fs.dir.size == 0
    ensures fs.pos == 0 && Emptied(sh) == sh && Contents(fs, sh.blocks) == []
  {
    assert sh.blocks == [] && sh.chain == [];
    assert [] + sh.ifree == sh.ifree && Reversed([]) + sh.dfree == sh.dfree;
  }

  lemma NotEmpty(fs: Fs, sh: Shape, g: Geo, mi: multiset<nat>, md: multiset<nat>)
    requires Ok(fs, sh, g, mi, md) && fs.dir.size > 0
    ensures sh.chain != []
  {
    SetupSizes(fs.dir.size, fs.dir.size);
  }

  lemma TruncateStarts(fs: Fs, s: Shape, g: Geo, mi: multiset<nat>, md: multiset<nat>)
    requires Base(fs, s, g, mi, md) && !fs.ibdirty && !fs.dbdirty
    ensures Fixed(s, g, mi, md) && Walking(fs.disk, fs.dir.dfree, fs, s, g, 0, 0) && Chain(fs, s.chain) && Slots(fs, s.chain, s.blocks)
    ensures fs.dir.ilist == Head(s.chain) && fs.dir.ifree == Head(s.ifree) && IbOk(fs.ib)
  {
    WalkStarts(fs, s, g, mi, md);
  }

  lemma TruncateEnds(r: Fs, start: Fs, s: Shape, g: Geo, mi: multiset<nat>, md: multiset<nat>)
    requires Fixed(s, g, mi, md) && s.chain != [] && |s.blocks| <= IBLEN * |s.chain|
    requires Walking(r.disk, r.dir.dfree, start, s, g, |s.chain|, IBLEN * |s.chain|)
    requires r.dir.ifree == Head(s.chain) && r.dir.ilist == NULLID && r.dir.size == 0 && r.pos == 0 && r.at == BLKSIZ
    requires r.inum == NULLID && r.dnum == NULLID && !r.ibdirty && !r.dbdirty && IbOk(r.ib)
    ensures Ok(r, Emptied(s), g, mi, md) && Contents(r, []) == []
  {
    hide Base, Walking, Fixed;
    WalkEnds(r, start, s, g, mi, md, IBLEN * |s.chain|);
  }

  lemma NoneAfter(fs: Fs, sh: Shape, g: Geo, mi: multiset<nat>, md: multiset<nat>, c: nat)
    requires Base(fs, sh, g, mi, md) && c < |sh.chain| && After(sh.chain, c) == NULLID
    ensures c == |sh.chain| - 1
  {
  }

  lemma SomeAfter(fs: Fs, sh: Shape, g: Geo, mi: multiset<nat>, md: multiset<nat>, c: nat)
    requires Base(fs, sh, g, mi, md) && c < |sh.chain| && After(sh.chain, c) != NULLID
    ensures c + 1 < |sh.chain| && After(sh.chain, c) == sh.chain[c + 1] && sh.chain[c + 1] in sh.chain
  {
  }

  lemma FlushBounds(fs: Fs, sh: Shape, g: Geo, mi: multiset<nat>, md: multiset<nat>)
    requires Base(fs, sh, g, mi, md)
    ensures (fs.dbdirty ==> fs.dnum < |fs.disk|) && (fs.ibdirty ==> IbOk(fs.ib) && SectOf(fs.inum) < |fs.disk|)
  {
    hide Chain, Slots, FreeIndex, FreeData, IbAt, Owned;
    if fs.ibdirty {
      SectorOfIndex(fs.inum, g);
    }
  }

  lemma HeadBounds(fs: Fs, sh: Shape, g: Geo, mi: multiset<nat>, md: multiset<nat>)
    requires Base(fs, sh, g, mi, md)
    ensures fs.dir.ifree == NULLID <==> sh.ifree == []
    ensures fs.dir.ilist == NULLID <==> sh.chain == []
    ensures sh.chain != [] ==> fs.dir.ilist == sh.chain[0] && fs.dir.ilist in sh.chain && SectOf(fs.dir.ilist) < |fs.disk|
    ensures fs.dir.ifree != NULLID ==> SectOf(fs.dir.ifree) < |fs.disk|
    ensures fs.inum != NULLID ==> sh.chain != []
  {
    hide Chain, Slots, FreeIndex, FreeData, IbAt, Owned;
    assert sh.ifree != [] ==> sh.ifree[0] < g.nib;
    if sh.ifree != [] {
      SectorOfIndex(sh.ifree[0], g);
    }
    if sh.chain != [] {
      assert sh.chain[0] in sh.chain;
      SectorOfIndex(sh.chain[0], g);
    }
  }

  lemma ChainBounds(fs: Fs, sh: Shape, g: Geo, mi: multiset<nat>, md: multiset<nat>, n: nat)
    requires Base(fs, sh, g, mi, md) && n in sh.chain
    ensures SectOf(n) < |fs.disk|
  {
    SectorOfIndex(n, g);
  }

  lemma NothingYet(sh: Shape, size: nat)
    requires Tight(sh) && |sh.blocks| == BlocksFor(size)
    ensures sh.chain == [] ==> sh.blocks == [] && size == 0
  {
  }

  lemma CachedPlace(fs: Fs, sh: Shape, g: Geo, mi: multiset<nat>, md: multiset<nat>) returns (c: nat)
    requires Base(fs, sh, g, mi, md) && fs.inum != NULLID
    ensures c < |sh.chain| && fs.inum == sh.chain[c] && fs.ib.off == IDATA * c
  {
    c :| 0 <= c < |sh.chain| && sh.chain[c] == fs.inum;
    CachedAt(fs, sh, g, mi, md, c);
  }
}
