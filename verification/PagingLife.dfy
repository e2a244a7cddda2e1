/** Nothing leaks: frames and stores in use belong to somebody who is there, and a killed process leaves none. */
module PagingLife {
  import opened BackingStore
  import opened PagingState
  import opened PagingEvict
  import opened PagingClock
  import opened PagingSelect
  import opened PagingInstall
  import opened PagingFault
  import opened PagingStores
  import opened PagingProcs
  import opened PagingRun
  import opened PagingTheorems
  import opened PagingBoot

  // ---- create and kill ----------------------------------------------------

  /** vcreate starts the process exactly when there are stores enough and some frame is free or holds a page; otherwise processes and stores stay as they are. */
  lemma CreateOutcome(m: Mach, p: int, hsize: nat)
    requires Inv(m) && |m.vm.ipt| > 0 && 0 <= p < |m.vm.procs| && !m.vm.procs[p].live
    ensures var c := VCreate(m, p, hsize);
            (c.Started? <==> NumStores(hsize) <= |FreeStores(m.vm.bstab)| && SomeFrame(m.vm))
            && (c.Crashed? <==> NumStores(hsize) <= |FreeStores(m.vm.bstab)| && !SomeFrame(m.vm) && m.policy == GCA)
            && (c.Refused? ==> c.m.vm.procs == m.vm.procs && c.m.vm.bstab == m.vm.bstab)
            && (c.Started? ==> Paging(c.m.vm, p) && c.m.vm.procs[p].hsize == hsize && c.m.vm.procs == m.vm.procs[p := c.m.vm.procs[p]])
  {
    FreeCounted(m.vm);
    SelectKeeps(m, -1);
    SelectFinds(m, -1);
    hide Core, Queue, Select, SomeFrame, FreeStores;
  }

  lemma FreeCounted(m: Vm)
    requires Core(m, -1)
    ensures m.freeBs == |FreeStores(m.bstab)|
  {
  }

  lemma {:induction false} ReleaseFrees(l: Ledger, i: nat, remain: nat, s: nat)
    requires TableOk(l.b) && |l.pbsd| == MAX_BS_ENTRIES && i + NumStores(remain) <= MAX_BS_ENTRIES && s < |l.b|
    ensures var r := Release(l, i, remain).b;
            |r| == |l.b| && (r[s].isallocated <==> l.b[s].isallocated && !Listed(l.pbsd, i, i + NumStores(remain), s))
    decreases remain
  {
    if remain > 0 {
      var rest := if remain > MAX_PAGES_PER_BS then remain - MAX_PAGES_PER_BS else 0;
      assert NumStores(remain) == 1 + NumStores(rest);
      var l1 := Ledger(Deallocated(l.b, l.pbsd[i]), l.free + 1, l.pbsd);
      ReleaseFrees(l1, i + 1, rest, s);
      assert Listed(l.pbsd, i, i + NumStores(remain), s) <==> l.pbsd[i] == s || Listed(l.pbsd, i + 1, i + NumStores(remain), s);
    }
  }

  /** kill takes from a process with a virtual heap every frame and every store it has, and nothing from anybody else. */
  lemma KillFrees(m: Mach, p: int, f: nat, s: nat)
    requires Inv(m) && Paging(m.vm, p) && f < |m.vm.ipt| && s < MAX_BS_ENTRIES
    ensures var r := Kill(m, p).vm;
            !r.procs[p].live && r.procs == m.vm.procs[p := r.procs[p]] && |r.ipt| == |m.vm.ipt| && |r.bstab| == MAX_BS_ENTRIES
            && (if m.vm.ipt[f].pid == p then r.ipt[f].status == NotUsed else r.ipt[f] == m.vm.ipt[f])
            && (r.bstab[s].isallocated <==> m.vm.bstab[s].isallocated && !Listed(m.vm.procs[p].pbsd, 0, NumStores(m.vm.procs[p].hsize), s))
  {
    OwnStores(m.vm, p);
    ReleaseFrees(Ledger(m.vm.bstab, m.vm.freeBs, m.vm.procs[p].pbsd), 0, m.vm.procs[p].hsize, s);
    hide Tables, TablesDistinct, Pages, Bits, Clean, Queue, Listed, Release;
  }

  // ---- no leaks -----------------------------------------------------------

  /** A page directory in use is the null process's or that of a live process with a virtual heap. */
  ghost predicate DirOwned(m: Vm, f: nat)
    requires f < |m.ipt|
  {
    m.ipt[f].status == PDir ==>
      m.ipt[f].pid == NULLPROC || (Paging(m, m.ipt[f].pid) && m.procs[m.ipt[f].pid].pd == f)
  }

  ghost predicate StoreOwned(m: Vm, s: nat)
    requires Sizes(m) && s < |m.bstab|
  {
    m.bstab[s].isallocated ==> exists p, j :: Held(m, p, j) && m.procs[p].pbsd[j] == s
  }

  ghost predicate Owned(m: Vm) {
    Sizes(m) && (forall f | 0 <= f < |m.ipt| :: DirOwned(m, f)) && (forall s | 0 <= s < |m.bstab| :: StoreOwned(m, s))
  }

  /** Then every frame in use has an owner. */
  lemma FrameOwner(m: Vm, f: nat)
    requires Core(m, -1) && Owned(m) && f < |m.ipt| && m.ipt[f].status != NotUsed
    ensures m.ipt[f].pid == GLOBAL || m.ipt[f].pid == NULLPROC || Paging(m, m.ipt[f].pid)
  {
    assert DirOwned(m, f);
    if m.ipt[f].status == PageFrame {
      assert FrameMapped(m, f);
    } else if PrivateTab(m, f) {
      assert Backed(m, f);
    }
  }

  /** Directories, processes and stores are as they were. */
  ghost predicate SameOwners(m: Vm, r: Vm) {
    |r.ipt| == |m.ipt| && r.procs == m.procs && r.bstab == m.bstab
    && forall f | 0 <= f < |m.ipt| && r.ipt[f].status == PDir :: m.ipt[f] == r.ipt[f]
  }

  lemma SameOwned(m: Vm, r: Vm)
    requires Owned(m) && SameOwners(m, r) && Sizes(r)
    ensures Owned(r)
  {
    forall f | 0 <= f < |r.ipt|
      ensures DirOwned(r, f)
    {
      assert DirOwned(m, f);
    }
    forall s | 0 <= s < |r.bstab|
      ensures StoreOwned(r, s)
    {
      assert StoreOwned(m, s);
      if p, j :| Held(m, p, j) && m.procs[p].pbsd[j] == s {
        assert Held(r, p, j);
      }
    }
  }

  lemma SameTwice(m: Vm, r: Vm, t: Vm)
    requires SameOwners(m, r) && SameOwners(r, t)
    ensures SameOwners(m, t)
  {
  }

  lemma SelectOwners(m: Mach, x: int)
    requires Core(m.vm, x) && Queue(m) && |m.vm.ipt| > 0
    ensures SameOwners(m.vm, Select(m, x).m.vm)
  {
    hide Core, Queue, Select, Evict, Aged0;
    SelectKeeps(m, x);
    SelectSplits(m, x);
    var a, f := Aged0(m, x), Victim(m, x);
    if f >= 0 {
      EvictStatuses(a, f, x);
    }
  }

  lemma LoadOwners(m: Mach, t: nat, p: int, v: int, x: int)
    requires Core(m.vm, x) && Queue(m) && HeapPage(m.vm, p, v) && TabAt(m.vm, t, p) && LoadPage(m, t, p, v, x).Done?
    ensures SameOwners(m.vm, LoadPage(m, t, p, v, x).m.vm)
  {
    SelectOwners(m, x);
    SelectKeeps(m, x);
    SelectKeepsTab(m, x, t, p);
    hide Core, Queue, Select;
    var s := Select(m, x);
    assert m.vm.ipt[t].status == PTab && s.m.vm.ipt[t].status != PDir;
  }

  lemma FaultOwners(m: Mach, p: int, v: int)
    requires Faulting(m, p, v) && |m.vm.ipt| > 0 && Fault(m, p, v).Done?
    ensures SameOwners(m.vm, Fault(m, p, v).m.vm)
  {
    hide TablesDistinct, Tables, Pages, Bits, Stores, Clean, Queue, Select, LoadPage, SameOwners;
    if PdeOf(m.vm, p, Pdi(v)).pres {
      LoadOwners(m, PdeOf(m.vm, p, Pdi(v)).base, p, v, -1);
    } else {
      NewTableReady(m, p, v);
      var t, m1 := Select(m, -1).fr, WithTable(m, p, v);
      TableOwners(m, p, v);
      LoadOwners(m1, t, p, v, t);
      SameTwice(m.vm, m1.vm, LoadPage(m1, t, p, v, t).m.vm);
    }
  }

  lemma TableOwners(m: Mach, p: int, v: int)
    requires Faulting(m, p, v) && |m.vm.ipt| > 0 && !PdeOf(m.vm, p, Pdi(v)).pres && Select(m, -1).fr >= 0
    ensures SameOwners(m.vm, WithTable(m, p, v).vm)
  {
    SelectOwners(m, -1);
    NewTableReady(m, p, v);
    hide Core, Queue, Select;
  }

  lemma CreateOwned(m: Vm, d: nat, p: int, hsize: nat)
    requires Core(m, -1) && Owned(m) && Creatable(m, p, hsize) && IsFree(m, d) && p > NULLPROC
    ensures Owned(Created(m, d, p, hsize))
  {
    hide TablesDistinct, Tables, Pages, Bits, Clean, Shape, Fill;
    CreatedStores(m, d, p, hsize, -1);
    FreeBound(m);
    var l := Ledger(m.bstab, m.freeBs, seq(MAX_BS_ENTRIES, _ => 0));
    FillTakes(l, 0, hsize);
    var r, n := Fill(l, 0, hsize), NumStores(hsize);
    var m' := Created(m, d, p, hsize);
    forall f | 0 <= f < |m'.ipt|
      ensures DirOwned(m', f)
    {
      assert DirOwned(m, f);
    }
    forall s | 0 <= s < |m'.bstab|
      ensures StoreOwned(m', s)
    {
      assert StoreOwned(m, s);
      if Listed(r.pbsd, 0, n, s) {
        var j :| 0 <= j < n && r.pbsd[j] == s;
        assert Held(m', p, j);
      } else if q, j :| Held(m, q, j) && m.procs[q].pbsd[j] == s {
        assert Held(m', q, j);
      }
    }
  }

  lemma KillOwned(m: Mach, p: int)
    requires Inv(m) && Owned(m.vm) && NULLPROC < p < |m.vm.procs| && m.vm.procs[p].live && Sizes(Kill(m, p).vm)
    ensures Owned(Kill(m, p).vm)
  {
    var r := Kill(m, p).vm;
    if Paging(m.vm, p) {
      forall f | 0 <= f < |r.ipt|
        ensures DirOwned(r, f)
      {
        KillFrees(m, p, f, 0);
        assert DirOwned(m.vm, f);
      }
      hide Core, Queue, Kill;
      forall s | 0 <= s < |r.bstab|
        ensures StoreOwned(r, s)
      {
        KillFrees(m, p, 0, s);
        assert StoreOwned(m.vm, s);
        if q, j :| Held(m.vm, q, j) && m.vm.procs[q].pbsd[j] == s {
          assert Held(r, q, j) || Listed(m.vm.procs[p].pbsd, 0, NumStores(m.vm.procs[p].hsize), s);
        }
      }
    } else {
      hide Core, Queue;
      IdleOwned(m.vm, p, r.procs[p]);
    }
  }

  /** A process without a virtual heap comes or goes. */
  lemma IdleOwned(m: Vm, p: int, pr: Proc)
    requires Owned(m) && 0 <= p < |m.procs| && !Paging(m, p) && Sizes(m.(procs := m.procs[p := pr])) && !(pr.live && pr.vheap)
    ensures Owned(m.(procs := m.procs[p := pr]))
  {
    var r := m.(procs := m.procs[p := pr]);
    forall f | 0 <= f < |r.ipt|
      ensures DirOwned(r, f)
    {
      assert DirOwned(m, f);
    }
    forall s | 0 <= s < |r.bstab|
      ensures StoreOwned(r, s)
    {
      assert StoreOwned(m, s);
      if q, j :| Held(m, q, j) && m.procs[q].pbsd[j] == s {
        assert Held(r, q, j);
      }
    }
  }

  lemma StepOwned(m: Mach, e: Event, m': Mach)
    requires Inv(m) && |m.vm.ipt| > 0 && Owned(m.vm) && Step(m, e, m')
    ensures Owned(m'.vm)
  {
    StepRefines(m, e, m');
    assert Sizes(m'.vm) by { InvSizes(m'); }
    match e
    case LoadByte(p, v, off, b) =>
      TouchedKeeps(m.vm, p, v, -1);
      hide Core, Queue, Touched;
      SameOwned(m.vm, m'.vm);
    case StoreByte(p, v, off, b) =>
      WrittenKeeps(m.vm, p, v, off, b, -1);
      hide Core, Queue, Written;
      SameOwned(m.vm, m'.vm);
    case PageFault(p, v) =>
      hide Core, Queue, Fault, Hazard;
      FaultOwners(m, p, v);
      SameOwned(m.vm, m'.vm);
    case Create(p, hsize) =>
      SelectOwners(m, -1);
      SelectKeeps(m, -1);
      var s := Select(m, -1);
      hide Core, Queue, Select;
      assert Sizes(s.m.vm) by { CoreSizes(s.m.vm); }
      SameOwned(m.vm, s.m.vm);
      if VCreate(m, p, hsize).Started? {
        CreateOwned(s.m.vm, s.fr, p, hsize);
      }
    case Spawn(p) =>
      hide Core, Queue;
      IdleOwned(m.vm, p, m'.vm.procs[p]);
    case Terminate(p) =>
      hide Core, Queue, Kill;
      KillOwned(m, p);
  }

  lemma InvSizes(m: Mach)
    requires Inv(m)
    ensures Sizes(m.vm)
  {
  }

  lemma CoreSizes(m: Vm)
    requires Core(m, -1)
    ensures Sizes(m)
  {
  }

  /** In every run from boot, whatever is created and killed: each frame in use is shared, the null process's, or a live process's, and each store in use backs a live process's heap. */
  lemma {:induction false} NoLeaks(policy: Policy, mem: seq<Contents>, np: nat, disk: seq<Block>, es: seq<Event>, ms: seq<Mach>, k: nat)
    requires |mem| >= BOOT_FRAMES && DiskOk(disk)
    requires Inv(Boot(policy, mem, np, disk)) && |Boot(policy, mem, np, disk).vm.ipt| > 0 && Run(Boot(policy, mem, np, disk), es, ms) && k <= |es|
    ensures |ms| == |es|
    ensures var m := At(Boot(policy, mem, np, disk), ms, k).vm;
            Owned(m)
            && forall f | 0 <= f < |m.ipt| && m.ipt[f].status != NotUsed ::
                 m.ipt[f].pid == GLOBAL || m.ipt[f].pid == NULLPROC || Paging(m, m.ipt[f].pid)
  {
    hide Core, Queue, Step, Run, Owned, Boot;
    var b := Boot(policy, mem, np, disk);
    RunLength(b, es, ms);
    var m := At(b, ms, k);
    if k > 0 {
      NoLeaks(policy, mem, np, disk, es, ms, k - 1);
      RunStep(b, es, ms, k - 1);
      StepOwned(At(b, ms, k - 1), es[k - 1], m);
    } else {
      BootOwned(policy, mem, np, disk);
    }
    forall f | 0 <= f < |m.vm.ipt| && m.vm.ipt[f].status != NotUsed
      ensures m.vm.ipt[f].pid == GLOBAL || m.vm.ipt[f].pid == NULLPROC || Paging(m.vm, m.vm.ipt[f].pid)
    {
      FrameOwner(m.vm, f);
    }
  }

  lemma RunLength(m: Mach, es: seq<Event>, ms: seq<Mach>)
    requires Inv(m) && |m.vm.ipt| > 0 && Run(m, es, ms)
    ensures |ms| == |es|
  {
  }

  lemma BootOwned(policy: Policy, mem: seq<Contents>, np: nat, disk: seq<Block>)
    requires |mem| >= BOOT_FRAMES && DiskOk(disk)
    ensures Owned(Boot(policy, mem, np, disk).vm)
  {
  }
}
