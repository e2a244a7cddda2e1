/** Creating a process with a virtual heap, and killing one. */
module PagingProcs {
  import opened BackingStore
  import opened PagingState
  import opened PagingEvict
  import opened PagingClock
  import opened PagingSelect
  import opened PagingStores

  // ---- vcreate ------------------------------------------------------------

  /** init_pd: the shared identity map and device memory, nothing private. */
  function NewDir(gpt: seq<nat>, dpt: nat): (s: seq<Pde>)
    ensures |s| == PAGEDIRSIZE && forall i | Private(i) :: !s[i].pres
  {
    seq(PAGEDIRSIZE, i =>
      if 0 <= i < NUM_GLOBAL_PT && i < |gpt| then Pde(true, gpt[i])
      else if i == DEV_MEM_PD_INDEX then Pde(true, dpt)
      else Pde(false, 0))
  }

  ghost predicate Creatable(m: Vm, p: int, hsize: nat) {
    0 <= p < |m.procs| && !m.procs[p].live && NumStores(hsize) <= m.freeBs
  }

  /** The tables once frame `d` has become the page directory of the new process. */
  ghost function Created(m: Vm, d: nat, p: int, hsize: nat): Vm
    requires Sizes(m) && Stores(m) && Creatable(m, p, hsize) && d < |m.ipt|
  {
    FreeBound(m);
    var l := Fill(Ledger(m.bstab, m.freeBs, seq(MAX_BS_ENTRIES, _ => 0)), 0, hsize);
    m.(ipt := m.ipt[d := Frame(PDir, p, NO_VPN, 0)],
       mem := m.mem[d := Dir(NewDir(m.gpt, m.dpt))],
       procs := m.procs[p := Proc(true, true, hsize, d, l.pbsd)],
       bstab := l.b, freeBs := l.free)
  }

  lemma FreeBound(m: Vm)
    requires Sizes(m) && Stores(m)
    ensures m.freeBs <= MAX_BS_ENTRIES
  {
    SubsetSize(FreeStores(m.bstab), {0, 1, 2, 3, 4, 5, 6, 7});
    assert |{0, 1, 2, 3, 4, 5, 6, 7}| == MAX_BS_ENTRIES;
  }

  lemma CreatedStores(m: Vm, d: nat, p: int, hsize: nat, x: int)
    requires Core(m, x) && Creatable(m, p, hsize) && IsFree(m, d)
    ensures Sizes(Created(m, d, p, hsize)) && Stores(Created(m, d, p, hsize))
    ensures forall q, u | HeapPage(m, q, u) ::
              HeapPage(Created(m, d, p, hsize), q, u)
              && Stored(Created(m, d, p, hsize), q, u) == Stored(m, q, u)
  {
    hide Tables, TablesDistinct, Pages, Bits, Clean, Fill, FreeStores, NewDir, Dirs;
    FreeBound(m);
    var l := Ledger(m.bstab, m.freeBs, seq(MAX_BS_ENTRIES, _ => 0));
    var r := Fill(l, 0, hsize);
    FillTakes(l, 0, hsize);
    var m' := Created(m, d, p, hsize);
    assert forall q, j | Held(m', q, j) && q != p :: Held(m, q, j) && HeldOk(m, q, j) && HeldOk(m', q, j) by {
      forall q, j | Held(m', q, j) && q != p
        ensures Held(m, q, j) && HeldOk(m, q, j) && HeldOk(m', q, j)
      {
        assert Held(m, q, j) && HeldOk(m, q, j);
        assert !Listed(r.pbsd, 0, NumStores(hsize), m.procs[q].pbsd[j]);
      }
    }
    assert forall j | Held(m', p, j) :: HeldOk(m', p, j);
    assert StoresDisjoint(m');
    assert forall q, u | HeapPage(m, q, u) :: HeapPage(m', q, u) && StoreOf(m', q, u) == StoreOf(m, q, u);
  }

  lemma CreatedViews(m: Vm, d: nat, p: int, hsize: nat, x: int)
    requires Core(m, x) && Creatable(m, p, hsize) && IsFree(m, d)
    ensures Shape(Created(m, d, p, hsize))
    ensures forall q :: Paging(Created(m, d, p, hsize), q) <==> Paging(m, q) || q == p
    ensures forall q, i | Paging(m, q) && Private(i) :: PdeOf(Created(m, d, p, hsize), q, i) == PdeOf(m, q, i)
    ensures forall i | Private(i) :: !PdeOf(Created(m, d, p, hsize), p, i).pres
    ensures forall q, u: int | PrivatePage(m, q, u) && PdeOf(m, q, Pdi(u)).pres ::
              Entry(Created(m, d, p, hsize), q, u) == Entry(m, q, u)
  {
    CreatedStores(m, d, p, hsize, x);
    hide Tables, TablesDistinct, Pages, Bits, Clean, Stores;
    var m' := Created(m, d, p, hsize);
    forall q | Paging(m', q)
      ensures DirAt(m', m'.procs[q].pd, q)
    {
      if q != p {
        assert Paging(m, q) && DirAt(m, m.procs[q].pd, q);
      }
    }
    forall q, i | Paging(m, q) && Private(i)
      ensures PdeOf(m', q, i) == PdeOf(m, q, i)
    {
      assert DirAt(m, m.procs[q].pd, q);
    }
    forall q, i | Paging(m', q) && Private(i) && PdeOf(m', q, i).pres
      ensures TabAt(m', PdeOf(m', q, i).base, q)
    {
      assert q != p;
      assert Paging(m, q) && PdeOf(m, q, i).pres && TabAt(m, PdeOf(m, q, i).base, q);
    }
    forall q, u: int | PrivatePage(m, q, u) && PdeOf(m, q, Pdi(u)).pres
      ensures Entry(m', q, u) == Entry(m, q, u)
    {
      assert TabAt(m, PdeOf(m, q, Pdi(u)).base, q);
    }
  }

  /** Creating a process keeps everything coherent and no other process sees a difference. */
  lemma CreatedCore(m: Vm, d: nat, p: int, hsize: nat)
    requires Core(m, -1) && Creatable(m, p, hsize) && IsFree(m, d)
    ensures Core(Created(m, d, p, hsize), -1)
  {
    CreatedStores(m, d, p, hsize, -1);
    CreatedViews(m, d, p, hsize, -1);
    CreatedTables(m, d, p, hsize);
    hide Tables, TablesDistinct, Bits, Stores;
    var m' := Created(m, d, p, hsize);
    forall g | 0 <= g < |m'.ipt| && m'.ipt[g].status == PageFrame
      ensures FrameMapped(m', g) && m'.mem[g] == m.mem[g] && m.ipt[g].status == PageFrame
      ensures Entry(m', m'.ipt[g].pid, m'.ipt[g].vpn) == Entry(m, m.ipt[g].pid, m.ipt[g].vpn)
    {
      assert FrameMapped(m, g);
    }
    forall q, u: int | PrivatePage(m', q, u) && Resident(m', q, u)
      ensures EntryHeld(m', q, u)
    {
      assert q != p;
      assert PrivatePage(m, q, u) && EntryHeld(m, q, u);
    }
  }

  lemma CreatedTables(m: Vm, d: nat, p: int, hsize: nat)
    requires Core(m, -1) && Creatable(m, p, hsize) && IsFree(m, d)
    ensures Shape(Created(m, d, p, hsize)) && TablesDistinct(Created(m, d, p, hsize))
    ensures Tables(Created(m, d, p, hsize), -1) && Bits(Created(m, d, p, hsize))
  {
    CreatedViews(m, d, p, hsize, -1);
    hide Stores, Clean, Pages;
    var m' := Created(m, d, p, hsize);
    forall u | PrivateTab(m', u)
      ensures Backed(m', u) && m'.mem[u] == m.mem[u] && m'.ipt[u] == m.ipt[u] && PrivateTab(m, u)
    {
      assert PrivateTab(m, u) && Backed(m, u);
      var j :| Private(j) && PdeOf(m, m.ipt[u].pid, j) == Pde(true, u);
      assert PdeOf(m', m'.ipt[u].pid, j) == Pde(true, u);
    }
  }

  lemma CreatedFlat(m: Vm, d: nat, p: int, hsize: nat, q: int, u: int)
    requires Core(m, -1) && Creatable(m, p, hsize) && IsFree(m, d) && HeapPage(m, q, u)
    ensures Core(Created(m, d, p, hsize), -1) && HeapPage(Created(m, d, p, hsize), q, u)
    ensures Flat(Created(m, d, p, hsize), q, u) == Flat(m, q, u)
  {
    hide Tables, TablesDistinct, Bits, Clean;
    CreatedCore(m, d, p, hsize);
    CreatedViews(m, d, p, hsize, -1);
    HeapPageFacts(m, q, u);
    if Resident(m, q, u) {
      assert EntryHeld(m, q, u);
    } else {
      CreatedStores(m, d, p, hsize, -1);
    }
  }

  // ---- kill ---------------------------------------------------------------

  /** The tables after freeProcFrames and freeProcBS for a process with a virtual heap. */
  ghost function Killed(m: Vm, p: int): Vm
    requires Sizes(m) && Paging(m, p)
  {
    var l := Release(Ledger(m.bstab, m.freeBs, m.procs[p].pbsd), 0, m.procs[p].hsize);
    m.(ipt := seq(|m.ipt|, f requires 0 <= f < |m.ipt| => if m.ipt[f].pid == p then CLEAR_FRAME else m.ipt[f]),
       procs := m.procs[p := m.procs[p].(live := false)],
       bstab := l.b, freeBs := l.free)
  }

  lemma OwnStores(m: Vm, p: int)
    requires Sizes(m) && Stores(m) && Paging(m, p)
    ensures NumStores(m.procs[p].hsize) <= MAX_BS_ENTRIES
    ensures DistinctFrom(m.procs[p].pbsd, 0, NumStores(m.procs[p].hsize))
    ensures forall j | 0 <= j < NumStores(m.procs[p].hsize) ::
              0 <= m.procs[p].pbsd[j] < |m.bstab| && m.bstab[m.procs[p].pbsd[j]].isallocated
  {
    forall j | 0 <= j < NumStores(m.procs[p].hsize)
      ensures 0 <= m.procs[p].pbsd[j] < |m.bstab| && m.bstab[m.procs[p].pbsd[j]].isallocated
    {
      assert Held(m, p, j) && HeldOk(m, p, j);
    }
    forall j, k | 0 <= j < k < NumStores(m.procs[p].hsize)
      ensures m.procs[p].pbsd[j] != m.procs[p].pbsd[k]
    {
      assert Held(m, p, j) && Held(m, p, k);
    }
  }

  lemma KilledStores(m: Vm, p: int, x: int)
    requires Core(m, x) && Paging(m, p)
    ensures Sizes(Killed(m, p)) && Stores(Killed(m, p))
    ensures forall q, u | HeapPage(m, q, u) && q != p ::
              HeapPage(Killed(m, p), q, u) && Stored(Killed(m, p), q, u) == Stored(m, q, u)
  {
    hide Tables, TablesDistinct, Pages, Bits, Clean;
    var l := Ledger(m.bstab, m.freeBs, m.procs[p].pbsd);
    var h := m.procs[p].hsize;
    OwnStores(m, p);
    ReleaseReturns(l, 0, h);
    var m' := Killed(m, p);
    forall q, j | Held(m', q, j)
      ensures Held(m, q, j) && HeldOk(m, q, j) && HeldOk(m', q, j)
    {
      assert Held(m, q, j) && HeldOk(m, q, j);
      forall k | 0 <= k < NumStores(h)
        ensures m.procs[p].pbsd[k] != m.procs[q].pbsd[j]
      {
        assert Held(m, p, k);
      }
      assert !Listed(m.procs[p].pbsd, 0, NumStores(h), m.procs[q].pbsd[j]);
    }
    assert StoresDisjoint(m');
    assert forall q, u | HeapPage(m, q, u) && q != p :: HeapPage(m', q, u) && StoreOf(m', q, u) == StoreOf(m, q, u);
  }

  lemma KilledViews(m: Vm, p: int)
    requires Core(m, -1) && Paging(m, p)
    ensures Shape(Killed(m, p))
    ensures forall q :: Paging(Killed(m, p), q) <==> Paging(m, q) && q != p
    ensures forall q, i | Paging(m, q) && q != p && Private(i) :: PdeOf(Killed(m, p), q, i) == PdeOf(m, q, i)
    ensures forall q, u: int | PrivatePage(m, q, u) && q != p && PdeOf(m, q, Pdi(u)).pres ::
              Entry(Killed(m, p), q, u) == Entry(m, q, u)
  {
    KilledStores(m, p, -1);
    hide Tables, TablesDistinct, Pages, Bits, Clean, Stores;
    var m' := Killed(m, p);
    assert forall q :: Paging(m', q) <==> Paging(m, q) && q != p;
    forall q | Paging(m', q)
      ensures DirAt(m', m'.procs[q].pd, q)
    {
      assert Paging(m, q) && DirAt(m, m.procs[q].pd, q);
    }
    forall q, i | Paging(m', q) && Private(i) && PdeOf(m', q, i).pres
      ensures TabAt(m', PdeOf(m', q, i).base, q)
    {
      assert Paging(m, q) && PdeOf(m, q, i).pres && TabAt(m, PdeOf(m, q, i).base, q);
    }
  }

  lemma KilledTables(m: Vm, p: int)
    requires Core(m, -1) && Paging(m, p)
    ensures Shape(Killed(m, p)) && TablesDistinct(Killed(m, p)) && Tables(Killed(m, p), -1) && Bits(Killed(m, p))
  {
    KilledViews(m, p);
    hide Stores, Clean, Pages;
    var m' := Killed(m, p);
    forall u | PrivateTab(m', u)
      ensures Backed(m', u) && m'.mem[u] == m.mem[u] && m'.ipt[u] == m.ipt[u] && PrivateTab(m, u)
    {
      assert PrivateTab(m, u) && Backed(m, u);
      var j :| Private(j) && PdeOf(m, m.ipt[u].pid, j) == Pde(true, u);
      assert PdeOf(m', m'.ipt[u].pid, j) == Pde(true, u);
    }
  }

  /** Killing a process keeps everything coherent. */
  lemma KilledCore(m: Vm, p: int)
    requires Core(m, -1) && Paging(m, p)
    ensures Core(Killed(m, p), -1)
  {
    KilledStores(m, p, -1);
    KilledViews(m, p);
    KilledTables(m, p);
    hide Tables, TablesDistinct, Bits, Stores;
    var m' := Killed(m, p);
    forall g | 0 <= g < |m'.ipt| && m'.ipt[g].status == PageFrame
      ensures FrameMapped(m', g) && m'.mem[g] == m.mem[g] && m.ipt[g].status == PageFrame
      ensures Entry(m', m'.ipt[g].pid, m'.ipt[g].vpn) == Entry(m, m.ipt[g].pid, m.ipt[g].vpn)
    {
      assert FrameMapped(m, g);
    }
    forall q, u: int | PrivatePage(m', q, u) && Resident(m', q, u)
      ensures EntryHeld(m', q, u)
    {
      assert PrivatePage(m, q, u) && EntryHeld(m, q, u);
    }
  }

  lemma KilledFlat(m: Vm, p: int, q: int, u: int)
    requires Core(m, -1) && Paging(m, p) && HeapPage(m, q, u) && q != p
    ensures Core(Killed(m, p), -1) && HeapPage(Killed(m, p), q, u)
    ensures Flat(Killed(m, p), q, u) == Flat(m, q, u)
  {
    hide Tables, TablesDistinct, Bits, Clean;
    KilledCore(m, p);
    KilledViews(m, p);
    HeapPageFacts(m, q, u);
    if Resident(m, q, u) {
      assert EntryHeld(m, q, u);
    } else {
      KilledStores(m, p, -1);
    }
  }

  // ---- the frame list -----------------------------------------------------

  /** The frames of the list that stay when process `p` goes, in their order. */
  function Survivors(ipt: seq<Frame>, fifo: seq<nat>, p: int): (s: seq<nat>)
    ensures forall f :: f in s <==> f in fifo && !(f < |ipt| && ipt[f].pid == p)
  {
    if fifo == [] then []
    else if fifo[0] < |ipt| && ipt[fifo[0]].pid == p then Survivors(ipt, fifo[1..], p)
    else [fifo[0]] + Survivors(ipt, fifo[1..], p)
  }

  lemma {:induction false} SurvivorsDistinct(ipt: seq<Frame>, fifo: seq<nat>, p: int)
    requires Distinct(fifo)
    ensures Distinct(Survivors(ipt, fifo, p))
  {
    if fifo != [] {
      SurvivorsDistinct(ipt, fifo[1..], p);
      assert fifo[0] !in fifo[1..];
    }
  }

  /** What vcreate may do. */
  datatype Creation = Started(m: Mach) | Refused(m: Mach) | Crashed

  /**
   vcreate's paging part for a free slot `p`. Too few stores, or under FIFO no frame for
   the directory, refuses; under GCA a search that finds no frame goes on to evict
   frame -1.
   */
  ghost function VCreate(m: Mach, p: int, hsize: nat): Creation
    requires Inv(m) && |m.vm.ipt| > 0 && 0 <= p < |m.vm.procs| && !m.vm.procs[p].live
  {
    hide Shape, TablesDistinct, Tables, Pages, Bits, Stores, Clean;
    if NumStores(hsize) > m.vm.freeBs then Refused(m)
    else
      SelectKeeps(m, -1);
      var s := Select(m, -1);
      if s.fr >= 0 then Started(s.m.(vm := Created(s.m.vm, s.fr, p, hsize)))
      else if m.policy == FIFO then Refused(s.m)
      else Crashed
  }

  /** kill's paging part. A process without a virtual heap owns no frames and no stores. */
  ghost function Kill(m: Mach, p: int): Mach
    requires Inv(m) && 0 <= p < |m.vm.procs| && m.vm.procs[p].live
  {
    if m.vm.procs[p].vheap then
      m.(vm := Killed(m.vm, p), fifo := if m.policy == FIFO then Survivors(m.vm.ipt, m.fifo, p) else m.fifo)
    else
      m.(vm := m.vm.(procs := m.vm.procs[p := m.vm.procs[p].(live := false)]))
  }
}
