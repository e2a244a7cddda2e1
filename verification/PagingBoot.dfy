/** The state initialize_paging leaves, and a run from it into the one case a fault cannot handle. */
module PagingBoot {
  import opened BackingStore
  import opened PagingState
  import opened PagingEvict
  import opened PagingClock
  import opened PagingSelect
  import opened PagingInstall
  import opened PagingFault
  import opened PagingStores
  import opened PagingProcs
  import opened PagingRun
  import opened PagingTheorems

  const BOOT_FRAMES := NUM_GLOBAL_PT + 2

  /** Frames 0 to 4 hold the shared tables and frame 5 the null process's directory. */
  function BootIpt(n: nat): seq<Frame>
  {
    seq(n, f =>
      if 0 <= f <= NUM_GLOBAL_PT then Frame(PTab, GLOBAL, NO_VPN, 0)
      else if f == NUM_GLOBAL_PT + 1 then Frame(PDir, NULLPROC, NO_VPN, 0)
      else CLEAR_FRAME)
  }

  function BootProcs(np: nat): seq<Proc> {
    seq(np, i => Proc(i == NULLPROC, false, 0, NUM_GLOBAL_PT + 1, seq(MAX_BS_ENTRIES, _ => 0)))
  }

  function BootStores(): seq<BsEntry> { seq(MAX_BS_ENTRIES, _ => BsEntry(false, false, 0, 0)) }

  /** Each policy's search keeps its own next frame; only FIFO's has moved. */
  function Boot(policy: Policy, mem: seq<Contents>, np: nat, disk: seq<Block>): Mach {
    Mach(Vm(BootIpt(|mem|), mem, BootProcs(np), BootStores(), MAX_BS_ENTRIES, [0, 1, 2, 3], 4, disk),
         policy, [], if policy == FIFO then BOOT_FRAMES else 0)
  }

  /** The kernel starts in a coherent state, whatever the memory and the disk hold. */
  lemma BootInv(policy: Policy, mem: seq<Contents>, np: nat, disk: seq<Block>)
    requires |mem| >= BOOT_FRAMES && DiskOk(disk)
    ensures Inv(Boot(policy, mem, np, disk)) && |Boot(policy, mem, np, disk).vm.ipt| > 0
  {
    var m := Boot(policy, mem, np, disk).vm;
    assert forall p :: !Paging(m, p);
    assert FreeStores(m.bstab) == {0, 1, 2, 3, 4, 5, 6, 7};
    assert |{0, 1, 2, 3, 4, 5, 6, 7}| == MAX_BS_ENTRIES;
    assert forall t :: !PrivateTab(m, t);
    assert forall f :: !IsPage(m, f);
  }

  // ---- the bad case is reachable ------------------------------------------

  lemma NoFreeFrame(ipt: seq<Frame>, hand: nat)
    requires |ipt| > 0 && forall f | 0 <= f < |ipt| :: ipt[f].status != NotUsed
    ensures FreeScan(ipt, hand, |ipt|).0 == -1
  {
    FreeScanStops(ipt, hand, |ipt|);
  }

  /** With free frame `nextframe` at hand, FIFO takes it and moves on. */
  lemma TakeNext(m: Mach, x: int)
    requires Core(m.vm, x) && Queue(m) && m.policy == FIFO && IsFree(m.vm, m.nextframe)
    ensures Select(m, x) == Selected(m.(nextframe := m.nextframe + 1), m.nextframe)
    ensures Victim(m, x) == -1
  {
    hide Core, Evict, Queue;
    assert m.nextframe % |m.vm.ipt| == m.nextframe;
  }

  /** Three free frames after boot: a directory, a table and one page use them up. */
  lemma HazardReachable(mem: seq<Contents>, disk: seq<Block>) returns (es: seq<Event>, ms: seq<Mach>)
    requires |mem| == BOOT_FRAMES + 3 && DiskOk(disk)
    ensures var m := Boot(FIFO, mem, 2, disk);
            Inv(m) && |m.vm.ipt| > 0 && Run(m, es, ms) && |ms| == |es| == 2
            && Faulting(ms[1], 1, VPN0 + 1) && Hazard(ms[1], 1, VPN0 + 1)
  {
    var m := Boot(FIFO, mem, 2, disk);
    BootInv(FIFO, mem, 2, disk);
    var m1 := BootCreate(m, mem, disk);
    var m2 := FirstFault(m1);
    es, ms := [Create(1, 2), PageFault(1, VPN0)], [m1, m2];
    hide Inv, Step, Fault, Boot;
    TwoSteps(m, es[0], m1, es[1], m2);
  }

  lemma TwoSteps(m: Mach, e1: Event, m1: Mach, e2: Event, m2: Mach)
    requires Inv(m) && |m.vm.ipt| > 0 && Step(m, e1, m1) && Inv(m1) && |m1.vm.ipt| > 0 && Step(m1, e2, m2)
    ensures Run(m, [e1, e2], [m1, m2])
  {
    hide Inv, Step;
    StepRefines(m, e1, m1);
    StepRefines(m1, e2, m2);
    assert [e1, e2][1..] == [e2] && [m1, m2][1..] == [m2];
    assert [e2][1..] == [] && [m2][1..] == [];
    assert Run(m2, [], []);
    assert Run(m1, [e2], [m2]);
  }

  lemma BootCreate(m: Mach, mem: seq<Contents>, disk: seq<Block>) returns (m1: Mach)
    requires |mem| == BOOT_FRAMES + 3 && DiskOk(disk) && m == Boot(FIFO, mem, 2, disk) && Inv(m)
    ensures |m.vm.ipt| > 0 && Step(m, Create(1, 2), m1) && Inv(m1) && m1.policy == FIFO && m1.fifo == []
    ensures m1.nextframe == 7 && m1.vm.ipt == m.vm.ipt[6 := Frame(PDir, 1, NO_VPN, 0)]
    ensures HeapPage(m1.vm, 1, VPN0) && m1.vm.procs[1].hsize == 2
    ensures forall i | Private(i) :: !PdeOf(m1.vm, 1, i).pres
  {
    assert IsFree(m.vm, m.nextframe);
    TakeNext(m, -1);
    SelectKeeps(m, -1);
    m1 := VCreate(m, 1, 2).m;
    CreateKeeps(m, 1, 2, m1);
    CreatedViews(m.vm, 6, 1, 2, -1);
    hide Core, Queue, Select;
  }

  lemma FirstFault(m: Mach) returns (m2: Mach)
    requires Inv(m) && |m.vm.ipt| == BOOT_FRAMES + 3 && m.policy == FIFO && m.fifo == [] && m.nextframe == 7
    requires m.vm.ipt == BootIpt(BOOT_FRAMES + 3)[6 := Frame(PDir, 1, NO_VPN, 0)]
    requires HeapPage(m.vm, 1, VPN0) && m.vm.procs[1].hsize == 2
    requires forall i | Private(i) :: !PdeOf(m.vm, 1, i).pres
    ensures Step(m, PageFault(1, VPN0), m2) && Inv(m2)
    ensures Faulting(m2, 1, VPN0 + 1) && Hazard(m2, 1, VPN0 + 1)
  {
    var v := VPN0;
    assert Faulting(m, 1, v) && !Hazard(m, 1, v);
    TakeNext(m, -1);
    NewTableReady(m, 1, v);
    WithTableKeeps(m, 1, v);
    var m1 := WithTable(m, 1, v);
    TakeNext(m1, 7);
    m2 := LoadPage(m1, 7, 1, v, 7).m;
    assert Fault(m, 1, v) == Done(m2);
    FaultKeeps(m, 1, v);
    LoadPageKeeps(m1, 7, 1, v, 7);
    SecondFault(m, m1, m2);
  }

  lemma SecondFault(m: Mach, m1: Mach, m2: Mach)
    requires Inv(m2) && |m2.vm.ipt| == BOOT_FRAMES + 3 && m2.policy == FIFO && m2.fifo == [8]
    requires m2.vm.ipt == BootIpt(BOOT_FRAMES + 3)[6 := Frame(PDir, 1, NO_VPN, 0)][7 := Frame(PTab, 1, NO_VPN, 1)]
                                                  [8 := Frame(PageFrame, 1, VPN0, 0)]
    requires HeapPage(m2.vm, 1, VPN0) && m2.vm.procs[1].hsize == 2 && PdeOf(m2.vm, 1, Pdi(VPN0)) == Pde(true, 7)
    ensures Faulting(m2, 1, VPN0 + 1) && Hazard(m2, 1, VPN0 + 1)
  {
    hide TablesDistinct, Tables, Bits, Stores, Clean;
    var v := VPN0 + 1;
    assert Pdi(v) == Pdi(VPN0) && Pti(v) == 1 && HeapPage(m2.vm, 1, v);
    if Resident(m2.vm, 1, v) {
      assert false;
    }
    NoFreeFrame(m2.vm.ipt, m2.nextframe);
    assert Victim(m2, -1) == 8;
  }
}
