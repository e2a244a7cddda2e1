/** The page-fault handler: when it finds frames, when it keeps the tables coherent, and that it is invisible. */
module PagingFault {
  import opened BackingStore
  import opened PagingState
  import opened PagingEvict
  import opened PagingClock
  import opened PagingSelect
  import opened PagingInstall

  /** The machine after a fault, or the report that a frame was needed and none existed. */
  datatype Outcome = Done(m: Mach) | NoFrame

  ghost predicate Faulting(m: Mach, p: int, v: int) {
    Inv(m) && HeapPage(m.vm, p, v) && Private(Pdi(v)) && !Resident(m.vm, p, v)
  }

  /** A page table survives the choice of a frame as an object in memory, even if it was freed. */
  lemma SelectKeepsTab(m: Mach, x: int, t: nat, p: int)
    requires Core(m.vm, x) && Queue(m) && TabAt(m.vm, t, p) && p != GLOBAL
    ensures var s := Select(m, x);
            s.fr != t && |s.m.vm.mem| == |m.vm.mem| && s.m.vm.mem[t].Tab? && |s.m.vm.mem[t].ptes| == PAGETABSIZE
  {
    SelectSplits(m, x);
    var a, f := Aged0(m, x), Victim(m, x);
    assert TabAt(a, t, p) by {
      hide Pages, Bits, Stores, Clean, TablesDistinct, Aged0, Victim, Select;
      assert PrivateTab(a, t) && Backed(a, t);
    }
    hide Shape, TablesDistinct, Tables, Pages, Bits, Stores, Clean, Aged0, Victim, Select;
    if f >= 0 {
      EvictStatuses(a, f, x);
    }
  }

  /** The second half of pf_handler: a frame for the page, its contents, its entry in table `t`. */
  ghost function LoadPage(m: Mach, t: nat, p: int, v: int, x: int): Outcome
    requires Core(m.vm, x) && Queue(m) && HeapPage(m.vm, p, v) && TabAt(m.vm, t, p)
  {
    hide Shape, TablesDistinct, Tables, Pages, Bits, Stores, Clean;
    SelectKeepsTab(m, x, t, p);
    SelectKeeps(m, x);
    var s := Select(m, x);
    if s.fr < 0 then NoFrame
    else Done(s.m.(vm := InstallPage(s.m.vm, s.fr, t, p, v),
                   fifo := if m.policy == FIFO then [s.fr] + s.m.fifo else s.m.fifo))
  }

  /** pf_handler for a valid heap address. */
  ghost function Fault(m: Mach, p: int, v: int): Outcome
    requires Faulting(m, p, v)
  {
    if PdeOf(m.vm, p, Pdi(v)).pres then LoadPage(m, PdeOf(m.vm, p, Pdi(v)).base, p, v, -1)
    else
      var s := Select(m, -1);
      if s.fr < 0 then NoFrame
      else
        NewTableReady(m, p, v);
        LoadPage(s.m.(vm := InstallTable(s.m.vm, s.fr, p, Pdi(v))), s.fr, p, v, s.fr)
  }

  /** After the first half the new table is in place and empty. */
  lemma NewTableReady(m: Mach, p: int, v: int)
    requires Faulting(m, p, v) && !PdeOf(m.vm, p, Pdi(v)).pres && Select(m, -1).fr >= 0
    ensures var s := Select(m, -1);
            Core(s.m.vm, -1) && HeapPage(s.m.vm, p, v) && IsFree(s.m.vm, s.fr)
            && !PdeOf(s.m.vm, p, Pdi(v)).pres
            && var vm := InstallTable(s.m.vm, s.fr, p, Pdi(v));
               Core(vm, s.fr) && Queue(s.m.(vm := vm)) && TabAt(vm, s.fr, p)
               && HeapPage(vm, p, v) && PdeOf(vm, p, Pdi(v)) == Pde(true, s.fr) && !Resident(vm, p, v)
  {
    SelectKeeps(m, -1);
    SelectPde(m, -1, p, Pdi(v));
    var s := Select(m, -1);
    hide TablesDistinct, Tables, Pages, Bits, Stores, Clean, Select;
    InstallTableCore(s.m.vm, s.fr, p, Pdi(v));
    InstallTableViews(s.m.vm, s.fr, p, Pdi(v));
  }

  /**
   What a choice of frame does to a directory entry: nothing, unless the page evicted
   was the last one of that entry's table.
   */
  lemma SelectPde(m: Mach, x: int, p: int, i: int)
    requires Core(m.vm, x) && Queue(m) && |m.vm.ipt| > 0 && Paging(m.vm, p) && Private(i)
    ensures Core(Select(m, x).m.vm, x) && Paging(Select(m, x).m.vm, p)
    ensures PdeOf(Select(m, x).m.vm, p, i).pres <==> PdeOf(m.vm, p, i).pres && !LosesTable(m, x, p, i)
    ensures PdeOf(Select(m, x).m.vm, p, i).base == PdeOf(m.vm, p, i).base
  {
    hide Select, Aged0, Victim, Tables, Bits, Stores, Clean, Queue;
    SelectSplits(m, x);
    SelectKeeps(m, x);
    var a, f := Aged0(m, x), Victim(m, x);
    AgedViews(m, x, p, i);
    if f >= 0 {
      assert FrameMapped(a, f) && FrameMapped(m.vm, f);
      AgedViews(m, x, m.vm.ipt[f].pid, Pdi(m.vm.ipt[f].vpn));
    }
  }

  /** The frame about to be evicted holds the only resident page of directory entry `i` of `p`. */
  ghost predicate LosesTable(m: Mach, x: int, p: int, i: int)
    requires Core(m.vm, x) && Queue(m) && |m.vm.ipt| > 0 && Paging(m.vm, p) && Private(i)
  {
    var f := Victim(m, x);
    f >= 0 && m.vm.ipt[f].pid == p && Pdi(m.vm.ipt[f].vpn) == i
    && PdeOf(m.vm, p, i).pres && m.vm.ipt[PdeOf(m.vm, p, i).base].refCount <= 1
  }

  lemma AgedViews(m: Mach, x: int, p: int, i: int)
    requires Core(m.vm, x) && Queue(m) && |m.vm.ipt| > 0 && Paging(m.vm, p) && Private(i)
    ensures Core(Aged0(m, x), x) && Paging(Aged0(m, x), p)
    ensures PdeOf(Aged0(m, x), p, i) == PdeOf(m.vm, p, i)
  {
    if m.policy == GCA {
      ClockDirs(m.vm, m.nextframe, 3 * |m.vm.ipt| + 1, x, p, i);
    }
  }

  lemma {:induction false} ClockDirs(m: Vm, hand: nat, probes: nat, x: int, p: int, i: int)
    requires Core(m, x) && |m.ipt| > 0 && Paging(m, p) && Private(i)
    ensures Core(Clock(m, hand, probes, x).vm, x) && Paging(Clock(m, hand, probes, x).vm, p)
    ensures PdeOf(Clock(m, hand, probes, x).vm, p, i) == PdeOf(m, p, i)
    decreases probes
  {
    hide Shape, TablesDistinct, Tables, Pages, Bits, Stores, Clean, PdeOf, EntryOf, Age;
    ClockStops(m, hand, probes, x);
    if probes > 0 {
      var h := hand % |m.ipt|;
      if m.ipt[h].status == PageFrame && !Clear(EntryOf(m, h)) {
        AgeDirs(m, h, x, p, i);
        ClockDirs(Age(m, h, x), h + 1, probes - 1, x, p, i);
      } else if m.ipt[h].status != PageFrame && m.ipt[h].status != NotUsed {
        ClockDirs(m, h + 1, probes - 1, x, p, i);
      }
    }
  }

  lemma AgeDirs(m: Vm, f: nat, x: int, p: int, i: int)
    requires Core(m, x) && IsPage(m, f) && Paging(m, p) && Private(i)
    ensures Age(m, f, x).ipt == m.ipt && Paging(Age(m, f, x), p) && PdeOf(Age(m, f, x), p, i) == PdeOf(m, p, i)
  {
    AgedIsBitChange(m, f, x);
    WithEntryShape(m, f, Aged(EntryOf(m, f)), x);
  }

  // ---- a fault keeps the tables coherent, except in one case ---------------

  /** Choosing a frame never brings a page in. */
  lemma SelectAbsent(m: Mach, x: int, p: int, v: int)
    requires Core(m.vm, x) && Queue(m) && |m.vm.ipt| > 0 && HeapPage(m.vm, p, v) && Private(Pdi(v)) && !Resident(m.vm, p, v)
    ensures Core(Select(m, x).m.vm, x) && HeapPage(Select(m, x).m.vm, p, v) && !Resident(Select(m, x).m.vm, p, v)
  {
    SelectKeeps(m, x);
    hide Select, Tables, TablesDistinct, Bits, Stores, Clean;
    var s := Select(m, x);
    if Resident(s.m.vm, p, v) {
      assert false;
    }
  }

  lemma LoadPageKeeps(m: Mach, t: nat, p: int, v: int, x: int)
    requires Core(m.vm, x) && Queue(m) && HeapPage(m.vm, p, v) && Private(Pdi(v)) && !Resident(m.vm, p, v)
    requires PdeOf(m.vm, p, Pdi(v)) == Pde(true, t) && (x == t || x == -1)
    requires !LosesTable(m, x, p, Pdi(v)) && Select(m, x).fr >= 0
    ensures TabAt(m.vm, t, p) && LoadPage(m, t, p, v, x).Done?
    ensures var m' := LoadPage(m, t, p, v, x).m;
            Inv(m') && HeapPage(m'.vm, p, v) && Resident(m'.vm, p, v) && m'.policy == m.policy && m'.vm.procs == m.vm.procs
    ensures forall q, u | HeapPage(m.vm, q, u) ::
              HeapPage(LoadPage(m, t, p, v, x).m.vm, q, u) && Flat(LoadPage(m, t, p, v, x).m.vm, q, u) == Flat(m.vm, q, u)
  {
    assert TabAt(m.vm, t, p);
    SelectKeeps(m, x);
    SelectKeepsTab(m, x, t, p);
    SelectPde(m, x, p, Pdi(v));
    SelectAbsent(m, x, p, v);
    var s := Select(m, x);
    assert Ready(s.m.vm, s.fr, t, p, v, x);
    InstallPageCore(s.m.vm, s.fr, t, p, v, x);
    var m' := LoadPage(m, t, p, v, x).m;
    assert m'.vm == InstallPage(s.m.vm, s.fr, t, p, v);
    InstallPageQueue(s.m, s.fr, t, p, v, x);
    forall q, u | HeapPage(m.vm, q, u)
      ensures HeapPage(m'.vm, q, u) && Flat(m'.vm, q, u) == Flat(m.vm, q, u)
    {
      hide Core, Queue, LosesTable, LoadPage, Select;
      SelectFlat(m, x, q, u);
      InstallPageFlat(s.m.vm, s.fr, t, p, v, x, q, u);
    }
  }

  lemma InstallPageQueue(m: Mach, f: nat, t: nat, p: int, v: int, x: int)
    requires Ready(m.vm, f, t, p, v, x) && Queue(m)
    ensures TabAt(m.vm, t, p) && t != f
    ensures Queue(Mach(InstallPage(m.vm, f, t, p, v), m.policy, if m.policy == FIFO then [f] + m.fifo else m.fifo, m.nextframe))
  {
    InstallPageViews(m.vm, f, t, p, v, x);
    hide Shape, TablesDistinct, Tables, Pages, Bits, Stores, Clean;
  }

  /**
   The one bad case: the table of the faulting page is present, and the frame about to
   be taken holds that table's only resident page.
   */
  ghost predicate Hazard(m: Mach, p: int, v: int)
    requires Faulting(m, p, v)
  {
    PdeOf(m.vm, p, Pdi(v)).pres && LosesTable(m, -1, p, Pdi(v))
  }

  lemma FreshTableSafe(m: Mach, p: int, i: int, t: nat)
    requires Core(m.vm, t) && Queue(m) && Paging(m.vm, p) && Private(i) && PdeOf(m.vm, p, i) == Pde(true, t)
    requires PresentSet(m.vm.mem[t].ptes) == {}
    ensures !LosesTable(m, t, p, i)
  {
    hide Victim;
    var f := Victim(m, t);
    if f >= 0 {
      assert FrameMapped(m.vm, f);
      assert Pti(m.vm.ipt[f].vpn) in PresentSet(m.vm.mem[TableOf(m.vm, f)].ptes);
    }
  }

  /** The machine between the two halves of a fault that needs a table. */
  ghost function WithTable(m: Mach, p: int, v: int): Mach
    requires Faulting(m, p, v) && !PdeOf(m.vm, p, Pdi(v)).pres && Select(m, -1).fr >= 0
  {
    NewTableReady(m, p, v);
    Select(m, -1).m.(vm := InstallTable(Select(m, -1).m.vm, Select(m, -1).fr, p, Pdi(v)))
  }

  lemma WithTableKeeps(m: Mach, p: int, v: int)
    requires Faulting(m, p, v) && !PdeOf(m.vm, p, Pdi(v)).pres && Select(m, -1).fr >= 0
    ensures var t, m1 := Select(m, -1).fr, WithTable(m, p, v);
            Core(m1.vm, t) && Queue(m1) && HeapPage(m1.vm, p, v) && !Resident(m1.vm, p, v) && |m1.vm.ipt| > 0
            && PdeOf(m1.vm, p, Pdi(v)) == Pde(true, t) && !LosesTable(m1, t, p, Pdi(v))
            && m1.policy == m.policy && m1.vm.procs == m.vm.procs
  {
    NewTableReady(m, p, v);
    SelectKeeps(m, -1);
    hide Select, Shape, TablesDistinct, Tables, Pages, Bits, Stores, Clean;
    var t, m1 := Select(m, -1).fr, WithTable(m, p, v);
    assert PresentSet(m1.vm.mem[t].ptes) == {};
    FreshTableSafe(m1, p, Pdi(v), t);
  }

  lemma WithTableFlat(m: Mach, p: int, v: int, q: int, u: int)
    requires Faulting(m, p, v) && !PdeOf(m.vm, p, Pdi(v)).pres && Select(m, -1).fr >= 0 && HeapPage(m.vm, q, u)
    ensures Core(WithTable(m, p, v).vm, Select(m, -1).fr) && HeapPage(WithTable(m, p, v).vm, q, u)
    ensures Flat(WithTable(m, p, v).vm, q, u) == Flat(m.vm, q, u)
  {
    hide Select, TablesDistinct, Tables, Pages, Bits, Stores, Clean;
    NewTableReady(m, p, v);
    SelectFlat(m, -1, q, u);
    InstallTableFlat(Select(m, -1).m.vm, Select(m, -1).fr, p, Pdi(v), q, u);
  }

  /** Outside the bad case a completed fault maps the page, keeps every invariant and changes no process's memory. */
  lemma FaultKeeps(m: Mach, p: int, v: int)
    requires Faulting(m, p, v) && Fault(m, p, v).Done? && !Hazard(m, p, v)
    ensures var m' := Fault(m, p, v).m;
            Inv(m') && HeapPage(m'.vm, p, v) && Resident(m'.vm, p, v) && m'.policy == m.policy && m'.vm.procs == m.vm.procs
    ensures forall q, u | HeapPage(m.vm, q, u) ::
              HeapPage(Fault(m, p, v).m.vm, q, u) && Flat(Fault(m, p, v).m.vm, q, u) == Flat(m.vm, q, u)
  {
    hide Select, LosesTable, TablesDistinct, Tables, Pages, Bits, Stores, Clean, LoadPage, Resident, Flat;
    if PdeOf(m.vm, p, Pdi(v)).pres {
      assert PdeOf(m.vm, p, Pdi(v)) == Pde(true, PdeOf(m.vm, p, Pdi(v)).base);
      LoadPageFound(m, PdeOf(m.vm, p, Pdi(v)).base, p, v, -1);
      LoadPageKeeps(m, PdeOf(m.vm, p, Pdi(v)).base, p, v, -1);
    } else {
      WithTableKeeps(m, p, v);
      var t, m1 := Select(m, -1).fr, WithTable(m, p, v);
      LoadPageFound(m1, t, p, v, t);
      LoadPageKeeps(m1, t, p, v, t);
      forall q, u | HeapPage(m.vm, q, u)
        ensures HeapPage(m1.vm, q, u) && Flat(m1.vm, q, u) == Flat(m.vm, q, u)
      {
        WithTableFlat(m, p, v, q, u);
      }
    }
  }

  lemma LoadPageFound(m: Mach, t: nat, p: int, v: int, x: int)
    requires Core(m.vm, x) && Queue(m) && HeapPage(m.vm, p, v) && Private(Pdi(v)) && PdeOf(m.vm, p, Pdi(v)) == Pde(true, t)
    ensures TabAt(m.vm, t, p) && (LoadPage(m, t, p, v, x).Done? <==> Select(m, x).fr >= 0)
  {
    hide Select;
  }

  /** In the bad case the fault completes and leaves the faulting page unmapped and a page frame nothing points to. */
  lemma HazardBreaks(m: Mach, p: int, v: int)
    requires Faulting(m, p, v) && Hazard(m, p, v)
    ensures Fault(m, p, v).Done?
    ensures var m' := Fault(m, p, v).m;
            !Inv(m') && Sizes(m'.vm) && Dirs(m'.vm) && Paging(m'.vm, p) && !PdeOf(m'.vm, p, Pdi(v)).pres
            && exists f :: 0 <= f < |m'.vm.ipt| && m'.vm.ipt[f] == Frame(PageFrame, p, v, 0)
  {
    hide Select, Tables, TablesDistinct, Bits, Stores, Clean, Victim;
    SelectSplits(m, -1);
    SelectKeeps(m, -1);
    SelectPde(m, -1, p, Pdi(v));
    var t := PdeOf(m.vm, p, Pdi(v)).base;
    SelectKeepsTab(m, -1, t, p);
    var s := Select(m, -1);
    var m' := Fault(m, p, v).m;
    assert m'.vm == InstallPage(s.m.vm, s.fr, t, p, v);
    assert m'.vm.ipt[s.fr] == Frame(PageFrame, p, v, 0);
    assert s.m.vm.procs == m'.vm.procs;
    assert DirAt(s.m.vm, s.m.vm.procs[p].pd, p);
    assert m'.vm.mem[m'.vm.procs[p].pd] == s.m.vm.mem[s.m.vm.procs[p].pd];
  }

  /** A fault keeps the invariant exactly when it avoids the bad case. */
  lemma FaultKeepsIff(m: Mach, p: int, v: int)
    requires Faulting(m, p, v) && Fault(m, p, v).Done?
    ensures Inv(Fault(m, p, v).m) <==> !Hazard(m, p, v)
  {
    if Hazard(m, p, v) {
      HazardBreaks(m, p, v);
    } else {
      FaultKeeps(m, p, v);
    }
  }

  // ---- a fault finds the frames it needs -----------------------------------

  /** An entry of a private table that is present belongs to a resident page. */
  lemma PresentHasPage(m: Vm, x: int, p: int, i: int, j: int)
    requires Core(m, x) && Paging(m, p) && Private(i) && PdeOf(m, p, i).pres
    requires j in PresentSet(m.mem[PdeOf(m, p, i).base].ptes)
    ensures exists g :: IsPage(m, g) && m.ipt[g].pid == p && m.ipt[g].vpn == i * PAGETABSIZE + j
  {
    hide Tables, TablesDistinct, Bits, Stores, Clean;
    var u := i * PAGETABSIZE + j;
    assert TabAt(m, PdeOf(m, p, i).base, p);
    assert Pdi(u) == i && Pti(u) == j;
    assert PrivatePage(m, p, u) && Resident(m, p, u);
    assert EntryHeld(m, p, u);
    assert IsPage(m, Entry(m, p, u).base);
  }

  /** Evicting a page leaves another frame to take: another page, or the table that went with the last one. */
  lemma EvictLeavesRoom(m: Vm, f: nat, x: int)
    requires Core(m, x) && IsPage(m, f)
    ensures exists g :: g != f && (IsFree(Evict(m, f), g) || IsPage(Evict(m, f), g))
  {
    EvictStatuses(m, f, x);
    assert FrameMapped(m, f);
    var p, v, t := m.ipt[f].pid, m.ipt[f].vpn, TableOf(m, f);
    assert PrivateTab(m, t);
    if m.ipt[t].refCount <= 1 {
      hide Core, Tables, TablesDistinct, Bits, Stores, Clean, Pages;
      assert IsFree(Evict(m, f), t);
    } else {
      var j :| j in PresentSet(m.mem[t].ptes) - {Pti(v)} by {
        assert Pti(v) in PresentSet(m.mem[t].ptes);
        assert |PresentSet(m.mem[t].ptes) - {Pti(v)}| == m.ipt[t].refCount - 1;
      }
      PresentHasPage(m, x, p, Pdi(v), j);
      hide Core, Shape, Tables, TablesDistinct, Bits, Stores, Clean, Pages;
      var g :| IsPage(m, g) && m.ipt[g].pid == p && m.ipt[g].vpn == Pdi(v) * PAGETABSIZE + j;
      assert g != f && IsPage(Evict(m, f), g);
    }
  }

  ghost predicate SomePage(m: Vm) { exists f :: IsPage(m, f) }

  ghost predicate TwoFree(m: Vm) { exists f, g :: f != g && IsFree(m, f) && IsFree(m, g) }

  lemma FramesBesideTable(m: Vm, m1: Vm, t: nat, p: int)
    requires IsFree(m, t) && m1.ipt == m.ipt[t := Frame(PTab, p, NO_VPN, 0)]
    ensures SomeFrame(m1) <==> SomePage(m) || TwoFree(m)
  {
    if SomeFrame(m1) {
      var g :| IsFree(m1, g) || IsPage(m1, g);
      if IsFree(m1, g) {
        assert g != t && IsFree(m, g);
      } else {
        assert IsPage(m, g);
      }
    }
    if SomePage(m) {
      var g :| IsPage(m, g);
      assert IsPage(m1, g);
    }
    if TwoFree(m) {
      var f, g :| f != g && IsFree(m, f) && IsFree(m, g);
      assert IsFree(m1, f) || IsFree(m1, g);
    }
  }

  lemma WithTableFrames(m: Mach, p: int, v: int)
    requires Faulting(m, p, v) && !PdeOf(m.vm, p, Pdi(v)).pres && Select(m, -1).fr >= 0
    ensures SomeFrame(WithTable(m, p, v).vm) <==> SomePage(m.vm) || TwoFree(m.vm)
  {
    SelectSplits(m, -1);
    NewTableReady(m, p, v);
    var a, f, t, m1 := Aged0(m, -1), Victim(m, -1), Select(m, -1).fr, WithTable(m, p, v);
    hide Select, Aged0, Victim, Shape, Tables, TablesDistinct, Pages, Bits, Stores, Clean, SomeFrame, SomePage, TwoFree;
    if f >= 0 {
      EvictLeavesRoom(a, f, -1);
      var g :| g != f && (IsFree(Evict(a, f), g) || IsPage(Evict(a, f), g));
      EvictedRoom(m, m1.vm, Evict(a, f), f, g, p);
    } else {
      FramesBesideTable(m.vm, m1.vm, t, p);
    }
  }

  lemma EvictedRoom(m: Mach, m1: Vm, b: Vm, f: nat, g: int, p: int)
    requires f != g && (IsFree(b, g) || IsPage(b, g)) && f < |b.ipt| && m1.ipt == b.ipt[f := Frame(PTab, p, NO_VPN, 0)]
    requires IsPage(m.vm, f)
    ensures SomeFrame(m1) && SomePage(m.vm)
  {
    assert IsFree(m1, g) || IsPage(m1, g);
  }

  /**
   A fault completes exactly when its table is already present, or some page is
   resident, or two frames are free. One page is enough even for a table and a page,
   because evicting the only page also frees its table.
   */
  lemma FaultFrames(m: Mach, p: int, v: int)
    requires Faulting(m, p, v)
    ensures Fault(m, p, v).Done? <==> PdeOf(m.vm, p, Pdi(v)).pres || SomePage(m.vm) || TwoFree(m.vm)
  {
    var i := Pdi(v);
    SelectFinds(m, -1);
    if PdeOf(m.vm, p, i).pres {
      var t := PdeOf(m.vm, p, i).base;
      assert TabAt(m.vm, t, p) && PrivateTab(m.vm, t);
      assert PresentSet(m.vm.mem[t].ptes) != {};
      var j :| j in PresentSet(m.vm.mem[t].ptes);
      PresentHasPage(m.vm, -1, p, i, j);
      LoadPageFound(m, t, p, v, -1);
    } else if Select(m, -1).fr >= 0 {
      WithTableKeeps(m, p, v);
      WithTableFrames(m, p, v);
      SelectFinds(WithTable(m, p, v), Select(m, -1).fr);
      LoadPageFound(WithTable(m, p, v), Select(m, -1).fr, p, v, Select(m, -1).fr);
    }
  }
}
