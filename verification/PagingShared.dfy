/** The shared page tables: every process's directory maps them, and no replacement takes them. */
module PagingShared {
  import opened BackingStore
  import opened PagingState
  import opened PagingEvict
  import opened PagingClock
  import opened PagingSelect
  import opened PagingInstall
  import opened PagingFault
  import opened PagingStores
  import opened PagingProcs
  import opened PagingRun
  import opened PagingTheorems
  import opened PagingBoot

  predicate SharedTab(m: Vm, t: nat) {
    t < |m.ipt| && m.ipt[t].status == PTab && m.ipt[t].pid == GLOBAL
  }

  /** The directory of a process maps the shared tables in their places. */
  predicate MapsShared(m: Vm, p: int)
    requires Paging(m, p) && |m.gpt| == NUM_GLOBAL_PT
  {
    var d := m.procs[p].pd;
    d < |m.mem| && m.mem[d].Dir? && |m.mem[d].pdes| == PAGEDIRSIZE && m.mem[d].pdes[DEV_MEM_PD_INDEX] == Pde(true, m.dpt)
    && forall i | 0 <= i < NUM_GLOBAL_PT :: m.mem[d].pdes[i] == Pde(true, m.gpt[i])
  }

  ghost predicate Shared(m: Vm) {
    |m.gpt| == NUM_GLOBAL_PT && SharedTab(m, m.dpt) && (forall i | 0 <= i < NUM_GLOBAL_PT :: SharedTab(m, m.gpt[i]))
    && forall p | Paging(m, p) :: MapsShared(m, p)
  }

  /** Shared tables and, outside the private part, directories are as they were. */
  ghost predicate SameShared(m: Vm, r: Vm) {
    r.gpt == m.gpt && r.dpt == m.dpt && |r.ipt| == |m.ipt| && |m.mem| == |r.mem| == |m.ipt|
    && (forall t | 0 <= t < |m.ipt| && m.ipt[t].status == PTab && m.ipt[t].pid == GLOBAL :: r.ipt[t] == m.ipt[t])
    && (forall d | 0 <= d < |m.ipt| && m.ipt[d].status == PDir && m.mem[d].Dir? ::
          r.ipt[d] == m.ipt[d] && r.mem[d].Dir? && |r.mem[d].pdes| == |m.mem[d].pdes|
          && forall i | 0 <= i < |m.mem[d].pdes| && !Private(i) :: r.mem[d].pdes[i] == m.mem[d].pdes[i])
  }

  lemma SharedKept(m: Vm, r: Vm)
    requires Shape(m) && Shared(m) && SameShared(m, r) && forall p | Paging(r, p) :: Paging(m, p) && r.procs[p].pd == m.procs[p].pd
    ensures Shared(r)
  {
    forall p | Paging(r, p)
      ensures MapsShared(r, p)
    {
      assert MapsShared(m, p) && DirAt(m, m.procs[p].pd, p);
    }
  }

  lemma SharedTwice(m: Vm, r: Vm, t: Vm)
    requires SameShared(m, r) && SameShared(r, t)
    ensures SameShared(m, t)
  {
  }

  lemma EntryShared(m: Vm, f: nat, e: Pte, x: int)
    requires Core(m, x) && IsPage(m, f)
    ensures SameShared(m, WithEntry(m, f, e))
  {
    hide TablesDistinct, Tables, Bits, Stores, Clean;
    assert FrameMapped(m, f);
  }

  lemma {:induction false} ClockShared(m: Vm, hand: nat, probes: nat, x: int)
    requires Core(m, x) && |m.ipt| > 0
    ensures SameShared(m, Clock(m, hand, probes, x).vm)
    decreases probes
  {
    hide TablesDistinct, Tables, Pages, Bits, Stores, Clean, Shape, SameShared;
    SharedSelf(m, x);
    if probes > 0 {
      var h := hand % |m.ipt|;
      if m.ipt[h].status == PageFrame && !Clear(EntryOf(m, h)) {
        AgeFacts(m, h, x);
        EntryShared(m, h, Aged(EntryOf(m, h)), x);
        ClockShared(Age(m, h, x), h + 1, probes - 1, x);
        SharedTwice(m, Age(m, h, x), Clock(m, hand, probes, x).vm);
      } else if m.ipt[h].status != PageFrame && m.ipt[h].status != NotUsed {
        ClockShared(m, h + 1, probes - 1, x);
      }
    }
  }

  lemma SharedSelf(m: Vm, x: int)
    requires Core(m, x)
    ensures SameShared(m, m)
  {
  }

  lemma EvictShared(m: Vm, f: nat, x: int)
    requires Core(m, x) && f < |m.ipt| && m.ipt[f].status == PageFrame
    ensures SameShared(m, Evict(m, f))
  {
    hide TablesDistinct, Tables, Bits, Clean, Stores;
    assert FrameMapped(m, f);
    var p, v := m.ipt[f].pid, m.ipt[f].vpn;
    assert TabAt(m, TableOf(m, f), p) && DirAt(m, m.procs[p].pd, p) && Private(Pdi(v));
  }

  lemma AgedShared(m: Mach, x: int)
    requires Core(m.vm, x) && Queue(m) && |m.vm.ipt| > 0
    ensures SameShared(m.vm, Aged0(m, x))
  {
    hide Core, Queue, Clock, SameShared;
    SharedSelf(m.vm, x);
    if m.policy == GCA {
      ClockShared(m.vm, m.nextframe, 3 * |m.vm.ipt| + 1, x);
    }
  }

  lemma InOrder(m: Vm, x: int)
    requires Core(m, x)
    ensures Sizes(m) && Stores(m)
  {
  }

  lemma SelectShared(m: Mach, x: int)
    requires Core(m.vm, x) && Queue(m) && |m.vm.ipt| > 0
    ensures SameShared(m.vm, Select(m, x).m.vm)
  {
    hide Core, Queue, Select, Evict, Aged0, Victim, SameShared;
    SelectSplits(m, x);
    AgedShared(m, x);
    var a, f := Aged0(m, x), Victim(m, x);
    if f >= 0 {
      EvictShared(a, f, x);
      SharedTwice(m.vm, a, Select(m, x).m.vm);
    }
  }

  lemma InstallShared(m: Vm, f: nat, t: nat, p: int, v: int)
    requires Sizes(m) && Stores(m) && HeapPage(m, p, v) && IsFree(m, f)
    requires t < |m.ipt| && t != f && m.mem[t].Tab? && |m.mem[t].ptes| == PAGETABSIZE && m.ipt[t].pid != GLOBAL
    ensures SameShared(m, InstallPage(m, f, t, p, v))
  {
    hide Stores;
  }

  lemma LoadShared(m: Mach, t: nat, p: int, v: int, x: int)
    requires Core(m.vm, x) && Queue(m) && HeapPage(m.vm, p, v) && TabAt(m.vm, t, p) && LoadPage(m, t, p, v, x).Done?
    ensures SameShared(m.vm, LoadPage(m, t, p, v, x).m.vm)
  {
    hide TablesDistinct, Tables, Pages, Bits, Clean, Shape, Stores, Queue, Select, SameShared, InstallPage;
    SelectShared(m, x);
    SelectKeeps(m, x);
    SelectKeepsTab(m, x, t, p);
    var s := Select(m, x);
    NotGlobal(m, x, t, p);
    InOrder(s.m.vm, x);
    InstallShared(s.m.vm, s.fr, t, p, v);
    SharedTwice(m.vm, s.m.vm, InstallPage(s.m.vm, s.fr, t, p, v));
  }

  /** A frame that was a process's table is not shared after the search, even if it was freed. */
  lemma NotGlobal(m: Mach, x: int, t: nat, p: int)
    requires Core(m.vm, x) && Queue(m) && TabAt(m.vm, t, p) && p != GLOBAL
    ensures t < |Select(m, x).m.vm.ipt| && Select(m, x).m.vm.ipt[t].pid != GLOBAL
  {
    hide TablesDistinct, Tables, Pages, Bits, Clean, Shape, Stores, Queue, Select, Aged0, Victim, Evict;
    SelectKeeps(m, x);
    SelectSplits(m, x);
    var a, f := Aged0(m, x), Victim(m, x);
    if f >= 0 {
      EvictPids(a, f, x, t);
    }
  }

  lemma EvictPids(m: Vm, f: nat, x: int, t: nat)
    requires Core(m, x) && f < |m.ipt| && m.ipt[f].status == PageFrame && t < |m.ipt| && m.ipt[t].pid != GLOBAL
    ensures |Evict(m, f).ipt| == |m.ipt| && Evict(m, f).ipt[t].pid != GLOBAL
  {
    hide TablesDistinct, Tables, Bits, Clean, Stores;
    assert FrameMapped(m, f);
  }

  lemma FaultShared(m: Mach, p: int, v: int)
    requires Faulting(m, p, v) && |m.vm.ipt| > 0 && Fault(m, p, v).Done?
    ensures SameShared(m.vm, Fault(m, p, v).m.vm)
  {
    hide TablesDistinct, Tables, Pages, Bits, Stores, Clean, Queue, Select, LoadPage, SameShared;
    if PdeOf(m.vm, p, Pdi(v)).pres {
      LoadShared(m, PdeOf(m.vm, p, Pdi(v)).base, p, v, -1);
    } else {
      NewTableReady(m, p, v);
      var t, m1 := Select(m, -1).fr, WithTable(m, p, v);
      TableShared(m, p, v);
      LoadShared(m1, t, p, v, t);
      SharedTwice(m.vm, m1.vm, LoadPage(m1, t, p, v, t).m.vm);
    }
  }

  lemma TableShared(m: Mach, p: int, v: int)
    requires Faulting(m, p, v) && |m.vm.ipt| > 0 && !PdeOf(m.vm, p, Pdi(v)).pres && Select(m, -1).fr >= 0
    ensures SameShared(m.vm, WithTable(m, p, v).vm)
  {
    hide TablesDistinct, Tables, Pages, Bits, Stores, Clean, Queue, Select, SameShared, InstallTable;
    SelectShared(m, -1);
    NewTableReady(m, p, v);
    var s := Select(m, -1);
    NewTabShared(s.m.vm, s.fr, p, Pdi(v));
    SharedTwice(m.vm, s.m.vm, WithTable(m, p, v).vm);
  }

  lemma NewTabShared(m: Vm, t: nat, p: int, i: int)
    requires Sizes(m) && Dirs(m) && Paging(m, p) && Private(i) && IsFree(m, t)
    ensures SameShared(m, InstallTable(m, t, p, i))
  {
    assert DirAt(m, m.procs[p].pd, p);
  }

  lemma CreateShared(m: Vm, d: nat, p: int, hsize: nat)
    requires Core(m, -1) && Shared(m) && Creatable(m, p, hsize) && IsFree(m, d)
    ensures Shared(Created(m, d, p, hsize))
  {
    hide TablesDistinct, Tables, Pages, Bits, Clean, Stores, Fill;
    var r := Created(m, d, p, hsize);
    forall q | Paging(r, q)
      ensures MapsShared(r, q)
    {
      if q != p {
        assert MapsShared(m, q) && DirAt(m, m.procs[q].pd, q);
      }
    }
  }

  lemma KillShared(m: Mach, p: int)
    requires Inv(m) && Shared(m.vm) && 0 <= p < |m.vm.procs| && m.vm.procs[p].live
    ensures Shared(Kill(m, p).vm)
  {
    hide TablesDistinct, Tables, Pages, Bits, Clean, Stores, Queue, Release;
    var r := Kill(m, p).vm;
    forall q | Paging(r, q)
      ensures MapsShared(r, q)
    {
      assert MapsShared(m.vm, q) && DirAt(m.vm, m.vm.procs[q].pd, q);
    }
  }

  lemma AccessShared(m: Vm, p: int, v: int, off: nat, b: Byte)
    requires Core(m, -1) && Mapped(m, p, v) && off < NBPG
    ensures SameShared(m, Touched(m, p, v)) && SameShared(m, Written(m, p, v, off, b))
  {
    hide TablesDistinct, Tables, Bits, Stores, Clean;
    var f := FrameOf(m, p, v);
    EntryShared(m, f, EntryOf(m, f).(acc := true), -1);
    EntryShared(m, f, EntryOf(m, f).(acc := true, dirty := true), -1);
  }

  lemma StepShared(m: Mach, e: Event, m': Mach)
    requires Inv(m) && |m.vm.ipt| > 0 && Shared(m.vm) && Step(m, e, m')
    ensures Shared(m'.vm)
  {
    hide TablesDistinct, Tables, Pages, Bits, Clean, Stores, Queue, Fault, Hazard, Touched, Written, Kill, Created, Select, Shared, SameShared, Mapped;
    match e
    case LoadByte(p, v, off, _) =>
      TouchedKeeps(m.vm, p, v, -1);
      AccessShared(m.vm, p, v, off, 0);
      SharedKept(m.vm, m'.vm);
    case StoreByte(p, v, off, b) =>
      WrittenKeeps(m.vm, p, v, off, b, -1);
      AccessShared(m.vm, p, v, off, b);
      SharedKept(m.vm, m'.vm);
    case PageFault(p, v) =>
      FaultKeeps(m, p, v);
      FaultShared(m, p, v);
      SharedKept(m.vm, m'.vm);
    case Create(p, hsize) =>
      SelectShared(m, -1);
      SelectKeeps(m, -1);
      var s := Select(m, -1);
      SharedKept(m.vm, s.m.vm);
      if NumStores(hsize) <= m.vm.freeBs && s.fr >= 0 {
        CreateShared(s.m.vm, s.fr, p, hsize);
      }
    case Spawn(p) => SpawnShared(m.vm, p);
    case Terminate(p) => KillShared(m, p);
  }

  lemma SpawnShared(m: Vm, p: int)
    requires Core(m, -1) && Shared(m) && 0 <= p < |m.procs|
    ensures Shared(Spawned(m, p))
  {
    hide TablesDistinct, Tables, Pages, Bits, Clean, Stores;
    var r := Spawned(m, p);
    forall q | Paging(r, q)
      ensures MapsShared(r, q)
    {
      assert MapsShared(m, q);
    }
  }

  /** In every run from boot, whatever is loaded and evicted, the shared tables stay where they are and every process's directory maps them. */
  lemma {:induction false} SharedInRuns(policy: Policy, mem: seq<Contents>, np: nat, disk: seq<Block>, es: seq<Event>, ms: seq<Mach>, k: nat)
    requires |mem| >= BOOT_FRAMES && DiskOk(disk)
    requires Inv(Boot(policy, mem, np, disk)) && |Boot(policy, mem, np, disk).vm.ipt| > 0 && Run(Boot(policy, mem, np, disk), es, ms) && k <= |es|
    ensures |ms| == |es| && Shared(At(Boot(policy, mem, np, disk), ms, k).vm)
  {
    hide Core, Queue, Step, Run, Shared, Boot;
    var b := Boot(policy, mem, np, disk);
    RunSize(b, es, ms);
    if k > 0 {
      SharedInRuns(policy, mem, np, disk, es, ms, k - 1);
      RunStep(b, es, ms, k - 1);
      StepShared(At(b, ms, k - 1), es[k - 1], At(b, ms, k));
    } else {
      BootShared(policy, mem, np, disk);
    }
  }

  lemma RunSize(m: Mach, es: seq<Event>, ms: seq<Mach>)
    requires Inv(m) && |m.vm.ipt| > 0 && Run(m, es, ms)
    ensures |ms| == |es|
  {
  }

  lemma BootShared(policy: Policy, mem: seq<Contents>, np: nat, disk: seq<Block>)
    requires |mem| >= BOOT_FRAMES && DiskOk(disk)
    ensures Shared(Boot(policy, mem, np, disk).vm)
  {
    var m := Boot(policy, mem, np, disk).vm;
    assert forall p :: !Paging(m, p);
    assert forall i | 0 <= i < NUM_GLOBAL_PT :: m.gpt[i] == i;
  }
}
