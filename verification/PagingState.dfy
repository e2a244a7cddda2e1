/**
 Physical frames, the inverted page table, page directories and page tables, as
 values; and what it means for them to agree with each other.
 A frame of memory is in exactly one of three roles, so every access through a
 table pointer carries the obligation that the frame really holds a table.
 */
module PagingState {
  import opened BackingStore

  const PAGEDIRSIZE := 1024
  const PAGETABSIZE := 1024
  const VPN0 := 4096
  const NUM_GLOBAL_PT := 4
  const DEV_MEM_PD_INDEX := 576
  const NULLPROC := 0
  const GLOBAL := -1
  const NO_PROCESS := -2
  const NO_VPN := -1

  datatype Policy = FIFO | GCA
  datatype Status = NotUsed | PDir | PTab | PageFrame
  datatype Frame = Frame(status: Status, pid: int, vpn: int, refCount: int)
  datatype Pde = Pde(pres: bool, base: nat)
  datatype Pte = Pte(pres: bool, acc: bool, dirty: bool, avail: bool, base: nat)
  datatype Contents = Dir(pdes: seq<Pde>) | Tab(ptes: seq<Pte>) | Data(page: Page)
  datatype BsEntry = BsEntry(isopen: bool, isallocated: bool, usecount: int, npages: int)
  datatype Proc = Proc(live: bool, vheap: bool, hsize: nat, pd: nat, pbsd: seq<int>)

  /** Frames, tables, processes, stores and the disk. */
  datatype Vm = Vm(
    ipt: seq<Frame>,
    mem: seq<Contents>,
    procs: seq<Proc>,
    bstab: seq<BsEntry>,
    freeBs: int,
    gpt: seq<nat>,
    dpt: nat,
    disk: seq<Block>)

  /**
   The paging state with what replacement keeps beside it: `fifo` lists the page
   frames in the order of the kernel's frame list, most recently loaded first, and
   `nextframe` is where the next search for a frame starts.
   */
  datatype Mach = Mach(vm: Vm, policy: Policy, fifo: seq<nat>, nextframe: nat)

  const CLEAR_FRAME := Frame(NotUsed, NO_PROCESS, NO_VPN, 0)
  const CLEAR_PTE := Pte(false, false, false, false, 0)

  function Pdi(vpn: nat): nat { vpn / PAGETABSIZE }
  function Pti(vpn: nat): nat { vpn % PAGETABSIZE }

  /** Directory slots that are not the shared identity map or device memory. */
  predicate Private(i: int) { NUM_GLOBAL_PT <= i < DEV_MEM_PD_INDEX }

  // ---- shape --------------------------------------------------------------

  predicate Paging(m: Vm, p: int) {
    0 <= p < |m.procs| && m.procs[p].live && m.procs[p].vheap
  }

  predicate DirAt(m: Vm, d: nat, p: int)
    requires |m.mem| == |m.ipt|
  {
    d < |m.ipt| && m.ipt[d].status == PDir && m.ipt[d].pid == p
    && m.mem[d].Dir? && |m.mem[d].pdes| == PAGEDIRSIZE
  }

  predicate TabAt(m: Vm, t: nat, p: int)
    requires |m.mem| == |m.ipt|
  {
    t < |m.ipt| && m.ipt[t].status == PTab && m.ipt[t].pid == p
    && m.mem[t].Tab? && |m.mem[t].ptes| == PAGETABSIZE
  }

  predicate Sizes(m: Vm) {
    |m.mem| == |m.ipt| && DiskOk(m.disk) && |m.bstab| == MAX_BS_ENTRIES
    && forall p | 0 <= p < |m.procs| ::
         |m.procs[p].pbsd| == MAX_BS_ENTRIES
         && m.procs[p].hsize <= MAX_BS_ENTRIES * MAX_PAGES_PER_BS
  }

  ghost predicate Dirs(m: Vm)
    requires Sizes(m)
  {
    forall p | Paging(m, p) :: DirAt(m, m.procs[p].pd, p)
  }

  ghost function PdeOf(m: Vm, p: int, i: int): Pde
    requires Sizes(m) && Dirs(m) && Paging(m, p) && Private(i)
  {
    m.mem[m.procs[p].pd].pdes[i]
  }

  ghost predicate Shape(m: Vm) {
    Sizes(m) && Dirs(m)
    && forall p, i | Paging(m, p) && Private(i) && PdeOf(m, p, i).pres ::
         TabAt(m, PdeOf(m, p, i).base, p)
  }

  predicate HeapPage(m: Vm, p: int, v: int) {
    Paging(m, p) && VPN0 <= v < VPN0 + m.procs[p].hsize
  }

  ghost predicate PrivatePage(m: Vm, p: int, v: int) {
    Paging(m, p) && 0 <= v && Private(Pdi(v))
  }

  ghost function Entry(m: Vm, p: int, v: nat): Pte
    requires Shape(m) && PrivatePage(m, p, v) && PdeOf(m, p, Pdi(v)).pres
  {
    m.mem[PdeOf(m, p, Pdi(v)).base].ptes[Pti(v)]
  }

  ghost predicate Resident(m: Vm, p: int, v: nat)
    requires Shape(m) && PrivatePage(m, p, v)
  {
    PdeOf(m, p, Pdi(v)).pres && Entry(m, p, v).pres
  }

  // ---- coherence ----------------------------------------------------------

  function PresentSet(ptes: seq<Pte>): set<int> {
    set j | 0 <= j < |ptes| && ptes[j].pres
  }

  predicate PrivateTab(m: Vm, t: int) {
    0 <= t < |m.ipt| && m.ipt[t].status == PTab && m.ipt[t].pid != GLOBAL
  }

  ghost predicate Backed(m: Vm, t: nat)
    requires Shape(m) && PrivateTab(m, t)
  {
    Paging(m, m.ipt[t].pid)
    && exists i :: Private(i) && PdeOf(m, m.ipt[t].pid, i) == Pde(true, t)
  }

  /** No two directory entries of a process share a table. */
  ghost predicate TablesDistinct(m: Vm)
    requires Shape(m)
  {
    forall p, i, j | Paging(m, p) && Private(i) && Private(j)
      && PdeOf(m, p, i).pres && PdeOf(m, p, j).pres && PdeOf(m, p, i).base == PdeOf(m, p, j).base :: i == j
  }

  /**
   Every private table is reached from a directory entry of its process and its
   reference count is its number of present entries. Only the table `newTab`, if
   any, may have none: it is the one a fault has just created.
   */
  ghost predicate Tables(m: Vm, newTab: int)
    requires Shape(m)
  {
    forall t | PrivateTab(m, t) ::
      Backed(m, t) && m.mem[t].Tab? && m.ipt[t].refCount == |PresentSet(m.mem[t].ptes)|
      && (t != newTab ==> m.ipt[t].refCount >= 1)
  }

  /** Page frames and present heap entries correspond one to one. */
  ghost predicate FrameMapped(m: Vm, f: nat)
    requires Shape(m) && f < |m.ipt|
  {
    var p, v := m.ipt[f].pid, m.ipt[f].vpn;
    HeapPage(m, p, v) && Private(Pdi(v)) && Resident(m, p, v) && Entry(m, p, v).base == f && m.mem[f].Data?
  }

  ghost predicate EntryHeld(m: Vm, p: int, v: nat)
    requires Shape(m) && PrivatePage(m, p, v) && Resident(m, p, v)
  {
    var f := Entry(m, p, v).base;
    f < |m.ipt| && m.ipt[f].status == PageFrame && m.ipt[f].pid == p && m.ipt[f].vpn == v
  }

  ghost predicate Pages(m: Vm)
    requires Shape(m)
  {
    (forall f | 0 <= f < |m.ipt| && m.ipt[f].status == PageFrame :: FrameMapped(m, f))
    && (forall p, v: int | PrivatePage(m, p, v) && Resident(m, p, v) :: EntryHeld(m, p, v))
  }

  // ---- contents -----------------------------------------------------------

  predicate EntryBits(e: Pte) {
    (e.dirty ==> e.acc) && (!e.pres ==> !e.dirty && !e.avail)
  }

  ghost predicate Bits(m: Vm)
    requires Shape(m)
  {
    forall t, j | PrivateTab(m, t) && m.mem[t].Tab? && 0 <= j < |m.mem[t].ptes| :: EntryBits(m.mem[t].ptes[j])
  }

  function StoreIndex(v: int): int { (v - VPN0) / MAX_PAGES_PER_BS }
  function StoreOffset(v: int): int { (v - VPN0) % MAX_PAGES_PER_BS }

  /** get_bs_info: the store and the page within it that back a heap page. */
  ghost function StoreOf(m: Vm, p: int, v: int): int
    requires Sizes(m) && HeapPage(m, p, v)
  {
    m.procs[p].pbsd[StoreIndex(v)]
  }

  function NumStores(hsize: nat): nat {
    if hsize == 0 then 0 else 1 + (hsize - 1) / MAX_PAGES_PER_BS
  }

  function Min(a: int, b: int): int { if a < b then a else b }

  ghost predicate Held(m: Vm, p: int, j: int)
  {
    Paging(m, p) && 0 <= j < NumStores(m.procs[p].hsize)
  }

  ghost predicate HeldOk(m: Vm, p: int, j: int)
    requires Sizes(m) && Held(m, p, j)
  {
    var s := m.procs[p].pbsd[j];
    0 <= s < MAX_BS_ENTRIES && m.bstab[s].isallocated
    && m.bstab[s].npages == Min(m.procs[p].hsize - j * MAX_PAGES_PER_BS, MAX_PAGES_PER_BS)
  }

  function FreeStores(bstab: seq<BsEntry>): set<int> {
    set s | 0 <= s < |bstab| && !bstab[s].isallocated
  }

  ghost predicate StoresDisjoint(m: Vm)
    requires Sizes(m)
  {
    forall p, j, q, k | Held(m, p, j) && Held(m, q, k) && m.procs[p].pbsd[j] == m.procs[q].pbsd[k] ::
      p == q && j == k
  }

  ghost predicate Stores(m: Vm)
    requires Sizes(m)
  {
    (forall s | 0 <= s < MAX_BS_ENTRIES ::
       m.bstab[s].isopen == m.bstab[s].isallocated && m.bstab[s].usecount == 0 && m.bstab[s].npages <= MAX_PAGES_PER_BS)
    && m.freeBs == |FreeStores(m.bstab)|
    && (forall p, j | Held(m, p, j) :: HeldOk(m, p, j))
    && StoresDisjoint(m)
  }

  ghost function Stored(m: Vm, p: int, v: int): Page
    requires Sizes(m) && Stores(m) && HeapPage(m, p, v)
  {
    assert Held(m, p, StoreIndex(v));
    assert HeldOk(m, p, StoreIndex(v));
    PageOn(m.disk, StoreOf(m, p, v), StoreOffset(v))
  }

  lemma HeapPageFacts(m: Vm, p: int, v: int)
    requires Sizes(m) && HeapPage(m, p, v)
    ensures Private(Pdi(v)) && PrivatePage(m, p, v)
    ensures Held(m, p, StoreIndex(v))
    ensures 0 <= StoreOffset(v) < Min(m.procs[p].hsize - StoreIndex(v) * MAX_PAGES_PER_BS, MAX_PAGES_PER_BS)
  {
  }

  /** A resident page that is neither dirty nor marked in pt_avail equals its stored copy. */
  ghost predicate Clean(m: Vm)
    requires Shape(m) && Pages(m) && Stores(m)
  {
    forall f | 0 <= f < |m.ipt| && m.ipt[f].status == PageFrame ::
      FrameMapped(m, f) &&
      var e := Entry(m, m.ipt[f].pid, m.ipt[f].vpn);
      !e.dirty && !e.avail ==> m.mem[f].page == Stored(m, m.ipt[f].pid, m.ipt[f].vpn)
  }

  // ---- replacement bookkeeping -------------------------------------------

  predicate Distinct(s: seq<nat>) {
    forall i, j | 0 <= i < j < |s| :: s[i] != s[j]
  }

  /** Under FIFO the frame list is exactly the page frames; under GCA it is unused. */
  ghost predicate Queue(m: Mach) {
    if m.policy == FIFO then
      Distinct(m.fifo)
      && (forall f | f in m.fifo :: f < |m.vm.ipt| && m.vm.ipt[f].status == PageFrame)
      && (forall f | 0 <= f < |m.vm.ipt| && m.vm.ipt[f].status == PageFrame :: f in m.fifo)
    else
      m.fifo == []
  }

  ghost predicate Core(m: Vm, newTab: int) {
    Shape(m) && TablesDistinct(m) && Tables(m, newTab) && Pages(m) && Bits(m)
    && Stores(m) && Clean(m)
  }

  ghost predicate Inv(m: Mach) { Core(m.vm, -1) && Queue(m) }

  /** The flat memory a process sees: the frame if resident, else the stored copy. */
  ghost function Flat(m: Vm, p: int, v: int): Page
    requires Shape(m) && Pages(m) && Stores(m) && HeapPage(m, p, v)
  {
    HeapPageFacts(m, p, v);
    if Resident(m, p, v) then
      assert EntryHeld(m, p, v);
      assert FrameMapped(m, Entry(m, p, v).base);
      m.mem[Entry(m, p, v).base].page
    else Stored(m, p, v)
  }
}
