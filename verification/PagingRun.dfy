/**
 Every run of loads, stores, faults, process creations and kills, and the flat
 per-process memories that such a run is indistinguishable from.
 */
module PagingRun {
  import opened BackingStore
  import opened PagingState
  import opened PagingEvict
  import opened PagingClock
  import opened PagingSelect
  import opened PagingInstall
  import opened PagingFault
  import opened PagingStores
  import opened PagingProcs

  // ---- the processor ------------------------------------------------------

  ghost predicate Mapped(m: Vm, p: int, v: int) {
    Shape(m) && Pages(m) && HeapPage(m, p, v) && Private(Pdi(v)) && Resident(m, p, v)
  }

  ghost function FrameOf(m: Vm, p: int, v: int): (f: nat)
    requires Mapped(m, p, v)
    ensures IsPage(m, f) && m.ipt[f].pid == p && m.ipt[f].vpn == v && m.mem[f].Data?
  {
    assert EntryHeld(m, p, v);
    assert FrameMapped(m, Entry(m, p, v).base);
    Entry(m, p, v).base
  }

  /** A load marks the entry accessed. */
  ghost function Touched(m: Vm, p: int, v: int): Vm
    requires Mapped(m, p, v)
  {
    WithEntry(m, FrameOf(m, p, v), EntryOf(m, FrameOf(m, p, v)).(acc := true))
  }

  /** A store marks the entry accessed and dirty and changes one byte of the frame. */
  ghost function Written(m: Vm, p: int, v: int, off: nat, b: Byte): Vm
    requires Mapped(m, p, v) && off < NBPG
  {
    var f := FrameOf(m, p, v);
    var w := WithEntry(m, f, EntryOf(m, f).(acc := true, dirty := true));
    w.(mem := w.mem[f := Data(m.mem[f].page[off := b])])
  }

  lemma EntryIsPresent(m: Vm, f: nat, x: int)
    requires Core(m, x) && IsPage(m, f)
    ensures EntryOf(m, f).pres && EntryOf(m, f).base == f && EntryBits(EntryOf(m, f))
  {
    hide TablesDistinct, Tables, Stores, Clean;
    assert FrameMapped(m, f);
    var t := TableOf(m, f);
    assert PrivateTab(m, t);
    assert EntryBits(m.mem[t].ptes[Pti(m.ipt[f].vpn)]);
  }

  lemma DataPages(m: Vm, f: nat, page: Page, x: int)
    requires Core(m, x) && IsPage(m, f)
    ensures var m' := m.(mem := m.mem[f := Data(page)]);
            Shape(m') && Pages(m') && forall g | IsPage(m, g) :: EntryOf(m', g) == EntryOf(m, g)
  {
    var m' := m.(mem := m.mem[f := Data(page)]);
    DataShape(m, f, page, x);
    hide TablesDistinct, Tables, Bits, Stores, Clean;
    forall g | IsPage(m', g)
      ensures FrameMapped(m', g)
    {
      assert FrameMapped(m, g);
    }
    forall q, u: int | PrivatePage(m', q, u) && Resident(m', q, u)
      ensures EntryHeld(m', q, u)
    {
      assert PrivatePage(m, q, u) && EntryHeld(m, q, u);
    }
  }

  /** Changing the bytes of a page already marked dirty. */
  lemma DataCore(m: Vm, f: nat, page: Page, x: int)
    requires Core(m, x) && IsPage(m, f) && EntryOf(m, f).dirty
    ensures Core(m.(mem := m.mem[f := Data(page)]), x)
  {
    var m' := m.(mem := m.mem[f := Data(page)]);
    DataPages(m, f, page, x);
    DataTables(m, f, page, x);
    hide TablesDistinct, Tables, Bits;
    SameStores(m, m');
    forall g | 0 <= g < |m'.ipt| && m'.ipt[g].status == PageFrame
      ensures FrameMapped(m', g)
      ensures !EntryOf(m', g).dirty && !EntryOf(m', g).avail ==>
                m'.mem[g].page == Stored(m', m'.ipt[g].pid, m'.ipt[g].vpn)
    {
      assert IsPage(m, g) && FrameMapped(m, g) && EntryOf(m', g) == EntryOf(m, g);
    }
  }

  lemma DataFlat(m: Vm, f: nat, page: Page, x: int, q: int, u: int)
    requires Core(m, x) && IsPage(m, f) && EntryOf(m, f).dirty && HeapPage(m, q, u)
    ensures Core(m.(mem := m.mem[f := Data(page)]), x)
    ensures Flat(m.(mem := m.mem[f := Data(page)]), q, u)
            == if q == m.ipt[f].pid && u == m.ipt[f].vpn then page else Flat(m, q, u)
  {
    var m' := m.(mem := m.mem[f := Data(page)]);
    DataCore(m, f, page, x);
    DataShape(m, f, page, x);
    hide TablesDistinct, Tables, Bits, Clean;
    HeapPageFacts(m, q, u);
    assert FrameMapped(m, f);
    if Resident(m, q, u) {
      assert EntryHeld(m, q, u);
      assert FrameMapped(m, Entry(m, q, u).base);
    } else {
      SameStores(m, m');
    }
  }

  lemma DataShape(m: Vm, f: nat, page: Page, x: int)
    requires Core(m, x) && IsPage(m, f)
    ensures var m' := m.(mem := m.mem[f := Data(page)]);
            Shape(m') && (forall q, i | Paging(m, q) && Private(i) :: PdeOf(m', q, i) == PdeOf(m, q, i))
            && (forall q, u: int | PrivatePage(m, q, u) && PdeOf(m, q, Pdi(u)).pres :: Entry(m', q, u) == Entry(m, q, u))
  {
    hide TablesDistinct, Tables, Pages, Bits, Stores, Clean;
    var m' := m.(mem := m.mem[f := Data(page)]);
    assert forall q :: Paging(m', q) <==> Paging(m, q);
    forall q | Paging(m', q)
      ensures DirAt(m', m'.procs[q].pd, q)
    {
      assert Paging(m, q) && DirAt(m, m.procs[q].pd, q);
    }
    forall q, i | Paging(m', q) && Private(i) && PdeOf(m', q, i).pres
      ensures TabAt(m', PdeOf(m', q, i).base, q)
    {
      assert Paging(m, q) && PdeOf(m, q, i).pres && TabAt(m, PdeOf(m, q, i).base, q);
    }
  }

  lemma DataTables(m: Vm, f: nat, page: Page, x: int)
    requires Core(m, x) && IsPage(m, f)
    ensures var m' := m.(mem := m.mem[f := Data(page)]); Shape(m') && TablesDistinct(m') && Tables(m', x) && Bits(m')
  {
    DataShape(m, f, page, x);
    hide Stores, Clean, Pages;
    var m' := m.(mem := m.mem[f := Data(page)]);
    forall u | PrivateTab(m', u)
      ensures Backed(m', u) && m'.mem[u] == m.mem[u] && PrivateTab(m, u)
    {
      assert PrivateTab(m, u) && Backed(m, u);
      var j :| Private(j) && PdeOf(m, m.ipt[u].pid, j) == Pde(true, u);
      assert PdeOf(m', m'.ipt[u].pid, j) == Pde(true, u);
    }
  }

  lemma TouchedKeeps(m: Vm, p: int, v: int, x: int)
    requires Core(m, x) && Mapped(m, p, v)
    ensures Core(Touched(m, p, v), x) && Touched(m, p, v) == m.(mem := Touched(m, p, v).mem)
    ensures forall q, u | HeapPage(m, q, u) :: Flat(Touched(m, p, v), q, u) == Flat(m, q, u)
  {
    var f := FrameOf(m, p, v);
    EntryIsPresent(m, f, x);
    var e := EntryOf(m, f).(acc := true);
    WithEntryCore(m, f, e, x);
    forall q, u | HeapPage(m, q, u)
      ensures Flat(Touched(m, p, v), q, u) == Flat(m, q, u)
    {
      hide Core;
      WithEntryFlat(m, f, e, x, q, u);
    }
  }

  lemma WrittenKeeps(m: Vm, p: int, v: int, off: nat, b: Byte, x: int)
    requires Core(m, x) && Mapped(m, p, v) && off < NBPG
    ensures Core(Written(m, p, v, off, b), x) && Written(m, p, v, off, b) == m.(mem := Written(m, p, v, off, b).mem)
    ensures forall q, u | HeapPage(m, q, u) ::
              Flat(Written(m, p, v, off, b), q, u) == if q == p && u == v then Flat(m, q, u)[off := b] else Flat(m, q, u)
  {
    var f := FrameOf(m, p, v);
    EntryIsPresent(m, f, x);
    var e := EntryOf(m, f).(acc := true, dirty := true);
    WithEntryCore(m, f, e, x);
    var w := WithEntry(m, f, e);
    DataCore(w, f, m.mem[f].page[off := b], x);
    assert Flat(m, p, v) == m.mem[f].page;
    forall q, u | HeapPage(m, q, u)
      ensures Flat(w, q, u) == Flat(m, q, u) && HeapPage(w, q, u)
    {
      hide Core;
      WithEntryFlat(m, f, e, x, q, u);
    }
    forall q, u | HeapPage(m, q, u)
      ensures Flat(Written(m, p, v, off, b), q, u) == if q == p && u == v then Flat(m, q, u)[off := b] else Flat(m, q, u)
    {
      hide Core;
      DataFlat(w, f, m.mem[f].page[off := b], x, q, u);
    }
  }

  // ---- steps --------------------------------------------------------------

  datatype Event =
    | LoadByte(p: int, v: int, off: nat, b: Byte)
    | StoreByte(p: int, v: int, off: nat, b: Byte)
    | PageFault(p: int, v: int)
    | Create(p: int, hsize: nat)
    | Spawn(p: int)
    | Terminate(p: int)

  /** create: a process without a virtual heap. */
  ghost function Spawned(m: Vm, p: int): Vm
    requires 0 <= p < |m.procs|
  {
    m.(procs := m.procs[p := m.procs[p].(live := true, vheap := false, hsize := 0)])
  }

  /** One step of the machine. A fault in the bad case is not a step, nor is a crash. */
  ghost predicate Step(m: Mach, e: Event, m': Mach)
    requires Inv(m) && |m.vm.ipt| > 0
  {
    match e
    case LoadByte(p, v, off, b) =>
      Mapped(m.vm, p, v) && off < NBPG && b == m.vm.mem[FrameOf(m.vm, p, v)].page[off]
      && m' == m.(vm := Touched(m.vm, p, v))
    case StoreByte(p, v, off, b) =>
      Mapped(m.vm, p, v) && off < NBPG && m' == m.(vm := Written(m.vm, p, v, off, b))
    case PageFault(p, v) =>
      Faulting(m, p, v) && !Hazard(m, p, v) && Fault(m, p, v) == Done(m')
    case Create(p, hsize) =>
      NULLPROC < p < |m.vm.procs| && !m.vm.procs[p].live
      && (VCreate(m, p, hsize) == Started(m') || VCreate(m, p, hsize) == Refused(m'))
    case Spawn(p) =>
      NULLPROC < p < |m.vm.procs| && !m.vm.procs[p].live && m' == m.(vm := Spawned(m.vm, p))
    case Terminate(p) =>
      NULLPROC < p < |m.vm.procs| && m.vm.procs[p].live && m' == Kill(m, p)
  }

  // ---- flat memories ------------------------------------------------------

  /** Each process with a virtual heap sees its pages and nothing else. */
  type Heaps = map<int, seq<Page>>

  ghost function Abs(m: Vm): Heaps
    requires Core(m, -1)
  {
    map p | 0 <= p < |m.procs| && Paging(m, p) :: HeapOf(m, p)
  }

  ghost function HeapOf(m: Vm, p: int): seq<Page>
    requires Core(m, -1) && Paging(m, p)
  {
    seq<Page>(m.procs[p].hsize, i requires 0 <= i < m.procs[p].hsize => Flat(m, p, VPN0 + i))
  }

  /** The same events on flat memories. */
  predicate FlatStep(h: Heaps, e: Event, h': Heaps) {
    match e
    case LoadByte(p, v, off, b) =>
      p in h && 0 <= v - VPN0 < |h[p]| && off < NBPG && b == h[p][v - VPN0][off] && h' == h
    case StoreByte(p, v, off, b) =>
      p in h && 0 <= v - VPN0 < |h[p]| && off < NBPG
      && h' == h[p := h[p][v - VPN0 := h[p][v - VPN0][off := b]]]
    case PageFault(_, _) => h' == h
    case Create(p, hsize) =>
      p !in h && (h' == h || (p in h' && |h'[p]| == hsize && h' == h[p := h'[p]]))
    case Spawn(p) => h' == h
    case Terminate(p) => h' == h - {p}
  }

  lemma SameHeap(m: Vm, m': Vm, q: int)
    requires Core(m, -1) && Core(m', -1) && Paging(m, q) && Paging(m', q) && m'.procs[q].hsize == m.procs[q].hsize
    requires forall u | HeapPage(m, q, u) :: Flat(m', q, u) == Flat(m, q, u)
    ensures HeapOf(m', q) == HeapOf(m, q)
  {
    hide Core, Flat;
    forall i | 0 <= i < m.procs[q].hsize
      ensures HeapOf(m', q)[i] == HeapOf(m, q)[i]
    {
      assert HeapPage(m, q, VPN0 + i);
    }
  }

  lemma SameHeaps(m: Vm, m': Vm)
    requires Core(m, -1) && Core(m', -1) && |m'.procs| == |m.procs|
    requires forall q | Paging(m, q) || Paging(m', q) ::
               Paging(m, q) && Paging(m', q) && m'.procs[q].hsize == m.procs[q].hsize
    requires forall q, u | HeapPage(m, q, u) :: Flat(m', q, u) == Flat(m, q, u)
    ensures Abs(m') == Abs(m)
  {
    hide Core, Flat, HeapOf;
    forall q | Paging(m, q)
      ensures HeapOf(m', q) == HeapOf(m, q)
    {
      SameHeap(m, m', q);
    }
  }

  /** A process without a virtual heap comes or goes without touching the tables. */
  ghost predicate Idle(m: Vm, p: int, r: Proc) {
    Core(m, -1) && 0 <= p < |m.procs| && !Paging(m, p) && !(r.live && r.vheap)
    && |r.pbsd| == MAX_BS_ENTRIES && r.hsize <= MAX_BS_ENTRIES * MAX_PAGES_PER_BS
  }

  lemma IdleShape(m: Vm, p: int, r: Proc)
    requires Idle(m, p, r)
    ensures var m' := m.(procs := m.procs[p := r]);
            Shape(m') && Stores(m') && (forall q :: Paging(m', q) <==> Paging(m, q))
            && (forall q, i | Paging(m, q) && Private(i) :: PdeOf(m', q, i) == PdeOf(m, q, i))
            && (forall q, u: int | PrivatePage(m, q, u) && PdeOf(m, q, Pdi(u)).pres :: Entry(m', q, u) == Entry(m, q, u))
            && (forall q, u | HeapPage(m, q, u) :: HeapPage(m', q, u) && Stored(m', q, u) == Stored(m, q, u))
  {
    hide TablesDistinct, Tables, Pages, Bits, Clean;
    var m' := m.(procs := m.procs[p := r]);
    assert forall q :: Paging(m', q) <==> Paging(m, q);
    assert Dirs(m');
    assert forall q, i | Paging(m, q) && Private(i) :: PdeOf(m', q, i) == PdeOf(m, q, i);
    assert Shape(m');
    assert forall q, j :: Held(m', q, j) <==> Held(m, q, j);
    assert forall q, j | Held(m', q, j) :: HeldOk(m, q, j) && HeldOk(m', q, j);
  }

  lemma IdleTables(m: Vm, p: int, r: Proc)
    requires Idle(m, p, r)
    ensures var m' := m.(procs := m.procs[p := r]); Shape(m') && TablesDistinct(m') && Tables(m', -1) && Bits(m')
  {
    IdleShape(m, p, r);
    hide Pages, Stores, Clean;
    var m' := m.(procs := m.procs[p := r]);
    forall u | PrivateTab(m', u)
      ensures Backed(m', u)
    {
      assert PrivateTab(m, u) && Backed(m, u);
      var j :| Private(j) && PdeOf(m, m.ipt[u].pid, j) == Pde(true, u);
      assert PdeOf(m', m'.ipt[u].pid, j) == Pde(true, u);
    }
  }

  lemma IdleCore(m: Vm, p: int, r: Proc)
    requires Idle(m, p, r)
    ensures Core(m.(procs := m.procs[p := r]), -1)
  {
    IdleShape(m, p, r);
    IdleTables(m, p, r);
    hide TablesDistinct, Tables, Bits, Stores;
    var m' := m.(procs := m.procs[p := r]);
    forall g | 0 <= g < |m'.ipt| && m'.ipt[g].status == PageFrame
      ensures FrameMapped(m', g)
      ensures Entry(m', m'.ipt[g].pid, m'.ipt[g].vpn) == Entry(m, m.ipt[g].pid, m.ipt[g].vpn)
    {
      assert FrameMapped(m, g);
    }
    forall q, u: int | PrivatePage(m', q, u) && Resident(m', q, u)
      ensures EntryHeld(m', q, u)
    {
      assert PrivatePage(m, q, u) && EntryHeld(m, q, u);
    }
  }

  lemma IdleHeaps(m: Vm, p: int, r: Proc)
    requires Idle(m, p, r)
    ensures Core(m.(procs := m.procs[p := r]), -1) && Abs(m.(procs := m.procs[p := r])) == Abs(m)
  {
    var m' := m.(procs := m.procs[p := r]);
    IdleCore(m, p, r);
    IdleShape(m, p, r);
    forall q, u | HeapPage(m, q, u)
      ensures Flat(m', q, u) == Flat(m, q, u)
    {
      hide TablesDistinct, Tables, Bits, Clean;
      HeapPageFacts(m, q, u);
      if Resident(m, q, u) {
        assert EntryHeld(m, q, u);
      }
    }
    hide Core, Flat;
    SameHeaps(m, m');
  }

  // ---- vcreate and kill as steps -------------------------------------------

  lemma CreateKeeps(m: Mach, p: int, hsize: nat, m': Mach)
    requires Inv(m) && |m.vm.ipt| > 0 && 0 <= p < |m.vm.procs| && !m.vm.procs[p].live
    requires VCreate(m, p, hsize) == Started(m')
    ensures Inv(m') && |m'.vm.ipt| == |m.vm.ipt| && m'.policy == m.policy && |m'.vm.procs| == |m.vm.procs|
    ensures Paging(m'.vm, p) && m'.vm.procs[p].hsize == hsize
    ensures forall q | q != p :: Paging(m'.vm, q) <==> Paging(m.vm, q)
    ensures forall q | Paging(m.vm, q) :: m'.vm.procs[q].hsize == m.vm.procs[q].hsize
  {
    SelectKeeps(m, -1);
    var s := Select(m, -1);
    CreatedCore(s.m.vm, s.fr, p, hsize);
    CreatedQueue(s.m, s.fr, p, hsize);
    hide Core, Select, Queue;
  }

  lemma CreateHeaps(m: Mach, p: int, hsize: nat, m': Mach)
    requires Inv(m) && |m.vm.ipt| > 0 && 0 <= p < |m.vm.procs| && !m.vm.procs[p].live
    requires VCreate(m, p, hsize) == Started(m')
    ensures Inv(m') && Paging(m'.vm, p) && Abs(m'.vm) == Abs(m.vm)[p := HeapOf(m'.vm, p)]
  {
    CreateKeeps(m, p, hsize, m');
    forall q | Paging(m.vm, q)
      ensures q != p && Paging(m'.vm, q) && HeapOf(m'.vm, q) == HeapOf(m.vm, q)
    {
      SelectKeeps(m, -1);
      hide Core, Select, Flat, Queue;
      var s := Select(m, -1);
      forall u | HeapPage(m.vm, q, u)
        ensures Flat(m'.vm, q, u) == Flat(m.vm, q, u)
      {
        SelectFlat(m, -1, q, u);
        CreatedFlat(s.m.vm, s.fr, p, hsize, q, u);
      }
      SameHeap(m.vm, m'.vm, q);
    }
    hide Core, HeapOf, VCreate, Queue;
  }

  lemma CreatedQueue(m: Mach, d: nat, p: int, hsize: nat)
    requires Core(m.vm, -1) && Queue(m) && Creatable(m.vm, p, hsize) && IsFree(m.vm, d)
    ensures Queue(m.(vm := Created(m.vm, d, p, hsize)))
  {
    hide Core;
  }

  lemma KillKeeps(m: Mach, p: int)
    requires Inv(m) && 0 <= p < |m.vm.procs| && m.vm.procs[p].live
    ensures Inv(Kill(m, p))
  {
    if m.vm.procs[p].vheap {
      KilledCore(m.vm, p);
      KilledQueue(m, p);
    } else {
      assert Idle(m.vm, p, m.vm.procs[p].(live := false));
      IdleCore(m.vm, p, m.vm.procs[p].(live := false));
    }
    hide Core;
  }

  lemma DroppedHeap(m: Vm, m': Vm, p: int)
    requires Core(m, -1) && Core(m', -1) && |m'.procs| == |m.procs|
    requires forall q :: Paging(m', q) <==> Paging(m, q) && q != p
    requires forall q | Paging(m, q) && q != p :: m'.procs[q].hsize == m.procs[q].hsize
    requires forall q, u | HeapPage(m, q, u) && q != p :: Flat(m', q, u) == Flat(m, q, u)
    ensures Abs(m') == Abs(m) - {p}
  {
    hide Core, Flat, HeapOf;
    forall q | Paging(m, q) && q != p
      ensures HeapOf(m', q) == HeapOf(m, q)
    {
      SameHeap(m, m', q);
    }
  }

  lemma KilledHeaps(m: Vm, p: int)
    requires Core(m, -1) && Paging(m, p)
    ensures Core(Killed(m, p), -1) && Abs(Killed(m, p)) == Abs(m) - {p}
  {
    KilledCore(m, p);
    hide Core, Flat, HeapOf;
    var m' := Killed(m, p);
    forall q, u | HeapPage(m, q, u) && q != p
      ensures Flat(m', q, u) == Flat(m, q, u)
    {
      KilledFlat(m, p, q, u);
    }
    DroppedHeap(m, m', p);
  }

  lemma KillHeaps(m: Mach, p: int)
    requires Inv(m) && 0 <= p < |m.vm.procs| && m.vm.procs[p].live
    ensures Inv(Kill(m, p)) && |Kill(m, p).vm.ipt| == |m.vm.ipt| && Abs(Kill(m, p).vm) == Abs(m.vm) - {p}
  {
    KillKeeps(m, p);
    if m.vm.procs[p].vheap {
      KilledHeaps(m.vm, p);
    } else {
      assert Idle(m.vm, p, m.vm.procs[p].(live := false));
      IdleHeaps(m.vm, p, m.vm.procs[p].(live := false));
      hide Core, HeapOf, Queue;
      assert p !in Abs(m.vm);
    }
  }

  lemma KilledQueue(m: Mach, p: int)
    requires Core(m.vm, -1) && Queue(m) && Paging(m.vm, p)
    ensures Queue(m.(vm := Killed(m.vm, p), fifo := if m.policy == FIFO then Survivors(m.vm.ipt, m.fifo, p) else m.fifo))
  {
    hide Core;
    if m.policy == FIFO {
      SurvivorsDistinct(m.vm.ipt, m.fifo, p);
    }
  }

  lemma RefusedKeeps(m: Mach, p: int, hsize: nat, m': Mach)
    requires Inv(m) && |m.vm.ipt| > 0 && 0 <= p < |m.vm.procs| && !m.vm.procs[p].live
    requires VCreate(m, p, hsize) == Refused(m')
    ensures Inv(m') && |m'.vm.ipt| == |m.vm.ipt| && Abs(m'.vm) == Abs(m.vm)
  {
    if m' != m {
      SelectKeeps(m, -1);
      hide Core, Flat, Select, Queue;
      forall q, u | HeapPage(m.vm, q, u)
        ensures Flat(m'.vm, q, u) == Flat(m.vm, q, u)
      {
        SelectFlat(m, -1, q, u);
      }
      SameHeaps(m.vm, m'.vm);
    }
  }

  // ---- refinement ---------------------------------------------------------

  lemma LoadRefines(m: Vm, p: int, v: int)
    requires Core(m, -1) && Mapped(m, p, v)
    ensures Core(Touched(m, p, v), -1) && Touched(m, p, v).ipt == m.ipt && Abs(Touched(m, p, v)) == Abs(m)
    ensures p in Abs(m) && 0 <= v - VPN0 < |Abs(m)[p]| && Abs(m)[p][v - VPN0] == m.mem[FrameOf(m, p, v)].page
  {
    TouchedKeeps(m, p, v, -1);
    FlatIsFrame(m, p, v);
    hide Core, Flat, Touched, Mapped, HeapOf;
    SameHeaps(m, Touched(m, p, v));
  }

  lemma FlatIsFrame(m: Vm, p: int, v: int)
    requires Core(m, -1) && Mapped(m, p, v)
    ensures p in Abs(m) && 0 <= v - VPN0 < |Abs(m)[p]| && Abs(m)[p][v - VPN0] == m.mem[FrameOf(m, p, v)].page
  {
    hide TablesDistinct, Tables, Bits, Clean;
    assert HeapOf(m, p)[v - VPN0] == Flat(m, p, v);
  }

  lemma StoreRefines(m: Vm, p: int, v: int, off: nat, b: Byte)
    requires Core(m, -1) && Mapped(m, p, v) && off < NBPG
    ensures var m' := Written(m, p, v, off, b);
            Core(m', -1) && m'.ipt == m.ipt && p in Abs(m) && 0 <= v - VPN0 < |Abs(m)[p]|
            && Abs(m') == Abs(m)[p := Abs(m)[p][v - VPN0 := Abs(m)[p][v - VPN0][off := b]]]
  {
    WrittenKeeps(m, p, v, off, b, -1);
    assert HeapPage(m, p, v);
    hide Core, Flat, Written, Mapped, HeapOf;
    StoreHeaps(m, Written(m, p, v, off, b), p, v, off, b);
  }

  lemma StoreHeaps(m: Vm, m': Vm, p: int, v: int, off: nat, b: Byte)
    requires Core(m, -1) && Core(m', -1) && m'.procs == m.procs && HeapPage(m, p, v) && off < NBPG
    requires forall q, u | HeapPage(m, q, u) ::
               Flat(m', q, u) == if q == p && u == v then Flat(m, q, u)[off := b] else Flat(m, q, u)
    ensures p in Abs(m) && 0 <= v - VPN0 < |Abs(m)[p]|
    ensures Abs(m') == Abs(m)[p := Abs(m)[p][v - VPN0 := Abs(m)[p][v - VPN0][off := b]]]
  {
    hide Core, Flat;
    var h := Abs(m)[p := Abs(m)[p][v - VPN0 := Abs(m)[p][v - VPN0][off := b]]];
    assert forall q :: Paging(m', q) <==> Paging(m, q);
    forall q | Paging(m, q)
      ensures HeapOf(m', q) == h[q]
    {
      assert |HeapOf(m', q)| == |h[q]| == m.procs[q].hsize;
      forall i | 0 <= i < m.procs[q].hsize
        ensures HeapOf(m', q)[i] == h[q][i]
      {
        assert HeapPage(m, q, VPN0 + i);
      }
    }
  }

  lemma FaultRefines(m: Mach, p: int, v: int, m': Mach)
    requires Inv(m) && |m.vm.ipt| > 0 && Step(m, PageFault(p, v), m')
    ensures Inv(m') && |m'.vm.ipt| == |m.vm.ipt| && FlatStep(Abs(m.vm), PageFault(p, v), Abs(m'.vm))
  {
    FaultKeeps(m, p, v);
    FaultLength(m, p, v);
    hide Core, Flat, Fault, Hazard, HeapOf;
    SameHeaps(m.vm, m'.vm);
  }

  lemma FaultLength(m: Mach, p: int, v: int)
    requires Faulting(m, p, v) && Fault(m, p, v).Done?
    ensures |Fault(m, p, v).m.vm.ipt| == |m.vm.ipt|
  {
    hide TablesDistinct, Tables, Pages, Bits, Stores, Clean, Select;
    SelectKeeps(m, -1);
    if !PdeOf(m.vm, p, Pdi(v)).pres {
      WithTableKeeps(m, p, v);
      SelectKeeps(WithTable(m, p, v), Select(m, -1).fr);
    }
  }

  lemma CreateRefines(m: Mach, p: int, hsize: nat, m': Mach)
    requires Inv(m) && |m.vm.ipt| > 0 && Step(m, Create(p, hsize), m')
    ensures Inv(m') && |m'.vm.ipt| == |m.vm.ipt| && FlatStep(Abs(m.vm), Create(p, hsize), Abs(m'.vm))
  {
    if VCreate(m, p, hsize) == Started(m') {
      CreateKeeps(m, p, hsize, m');
      CreateHeaps(m, p, hsize, m');
      assert |HeapOf(m'.vm, p)| == hsize;
    } else {
      RefusedKeeps(m, p, hsize, m');
    }
    hide Core, VCreate, Queue, HeapOf;
  }

  /** Every step keeps the invariant and is a step of the flat memories. */
  lemma StepRefines(m: Mach, e: Event, m': Mach)
    requires Inv(m) && |m.vm.ipt| > 0 && Step(m, e, m')
    ensures Inv(m') && |m'.vm.ipt| == |m.vm.ipt|
    ensures FlatStep(Abs(m.vm), e, Abs(m'.vm))
  {
    hide Core, Queue, Mapped, Faulting, Hazard, Fault, VCreate, Flat, HeapOf;
    match e
    case LoadByte(p, v, off, b) =>
      LoadRefines(m.vm, p, v);
      SameQueue(m, m');
    case StoreByte(p, v, off, b) =>
      StoreRefines(m.vm, p, v, off, b);
      SameQueue(m, m');
    case PageFault(p, v) => FaultRefines(m, p, v, m');
    case Create(p, hsize) => CreateRefines(m, p, hsize, m');
    case Spawn(p) => SpawnRefines(m, p, m');
    case Terminate(p) => KillHeaps(m, p);
  }

  lemma SameQueue(m: Mach, m': Mach)
    requires Queue(m) && m'.policy == m.policy && m'.fifo == m.fifo && m'.vm.ipt == m.vm.ipt
    ensures Queue(m')
  {
  }

  lemma SpawnRefines(m: Mach, p: int, m': Mach)
    requires Inv(m) && |m.vm.ipt| > 0 && Step(m, Spawn(p), m')
    ensures Inv(m') && |m'.vm.ipt| == |m.vm.ipt| && Abs(m'.vm) == Abs(m.vm)
  {
    assert Idle(m.vm, p, m.vm.procs[p].(live := true, vheap := false, hsize := 0));
    IdleHeaps(m.vm, p, m.vm.procs[p].(live := true, vheap := false, hsize := 0));
    hide Core;
  }
}
