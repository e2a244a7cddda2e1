/** What holds over whole runs: transparency, and under FIFO that the victim is the page loaded longest ago. */
module PagingTheorems {
  import opened BackingStore
  import opened PagingState
  import opened PagingEvict
  import opened PagingClock
  import opened PagingSelect
  import opened PagingInstall
  import opened PagingFault
  import opened PagingStores
  import opened PagingProcs
  import opened PagingRun

  /** `ms` are the machines after each event of `es`, starting from `m`. */
  ghost predicate Run(m: Mach, es: seq<Event>, ms: seq<Mach>)
    requires Inv(m) && |m.vm.ipt| > 0
    decreases |es|
  {
    |ms| == |es| &&
    (es != [] ==>
       Step(m, es[0], ms[0]) && (StepRefines(m, es[0], ms[0]); Run(ms[0], es[1..], ms[1..])))
  }

  predicate FlatRun(h: Heaps, es: seq<Event>, hs: seq<Heaps>)
    decreases |es|
  {
    |hs| == |es| && (es != [] ==> FlatStep(h, es[0], hs[0]) && FlatRun(hs[0], es[1..], hs[1..]))
  }

  ghost predicate AllInv(ms: seq<Mach>) { forall k | 0 <= k < |ms| :: Inv(ms[k]) && |ms[k].vm.ipt| > 0 }

  ghost function AbsAll(ms: seq<Mach>): (hs: seq<Heaps>)
    requires AllInv(ms)
    ensures |hs| == |ms|
  {
    seq(|ms|, k requires 0 <= k < |ms| => Abs(ms[k].vm))
  }

  /** Every run of the paged machine is a run of the flat memories. */
  lemma {:induction false} RunRefines(m: Mach, es: seq<Event>, ms: seq<Mach>)
    requires Inv(m) && |m.vm.ipt| > 0 && Run(m, es, ms)
    ensures AllInv(ms) && FlatRun(Abs(m.vm), es, AbsAll(ms))
    decreases |es|
  {
    hide Inv, Step, FlatStep, Abs;
    if es != [] {
      StepRefines(m, es[0], ms[0]);
      RunRefines(ms[0], es[1..], ms[1..]);
      assert forall k | 0 < k < |ms| :: ms[k] == ms[1..][k - 1];
      assert AbsAll(ms)[1..] == AbsAll(ms[1..]);
    }
  }

  /** The event leaves the byte at `off` of page `v` of process `p` alone. */
  predicate Leaves(e: Event, p: int, v: int, off: nat) {
    !(e.StoreByte? && e.p == p && e.v == v && e.off == off) && !(e.Terminate? && e.p == p)
  }

  predicate Holds(h: Heaps, p: int, v: int, off: nat, b: Byte) {
    p in h && 0 <= v - VPN0 < |h[p]| && off < NBPG && h[p][v - VPN0][off] == b
  }

  lemma {:induction false} FlatRemembers(h: Heaps, es: seq<Event>, hs: seq<Heaps>, p: int, v: int, off: nat, b: Byte, k: nat)
    requires FlatRun(h, es, hs) && Holds(h, p, v, off, b) && k < |es|
    requires forall i | 0 <= i < k :: Leaves(es[i], p, v, off)
    ensures FlatStep(if k == 0 then h else hs[k - 1], es[k], hs[k])
    ensures Holds(if k == 0 then h else hs[k - 1], p, v, off, b)
    decreases k
  {
    if k > 0 {
      assert Leaves(es[0], p, v, off);
      assert Holds(hs[0], p, v, off, b);
      FlatRemembers(hs[0], es[1..], hs[1..], p, v, off, b, k - 1);
    }
  }

  lemma {:induction false} FlatStepAt(h: Heaps, es: seq<Event>, hs: seq<Heaps>, j: nat)
    requires FlatRun(h, es, hs) && j < |es|
    ensures FlatStep(if j == 0 then h else hs[j - 1], es[j], hs[j]) && FlatRun(hs[j], es[j + 1..], hs[j + 1..])
    decreases j
  {
    if j > 0 {
      FlatStepAt(hs[0], es[1..], hs[1..], j - 1);
      assert es[1..][j..] == es[j + 1..] && hs[1..][j..] == hs[j + 1..];
    }
  }

  /**
   Paging is transparent: in any run, a load returns the byte last stored there by
   that process, whatever was faulted in, evicted, created or killed in between.
   */
  lemma LoadSeesLastStore(m: Mach, es: seq<Event>, ms: seq<Mach>, j: nat, k: nat)
    requires Inv(m) && |m.vm.ipt| > 0 && Run(m, es, ms)
    requires j < k < |es| && es[j].StoreByte? && es[k].LoadByte?
    requires es[k].p == es[j].p && es[k].v == es[j].v && es[k].off == es[j].off
    requires forall i | j < i < k :: Leaves(es[i], es[j].p, es[j].v, es[j].off)
    ensures es[k].b == es[j].b
  {
    hide Core, Queue, Run;
    RunRefines(m, es, ms);
    FlatLoadSeesLastStore(Abs(m.vm), es, AbsAll(ms), j, k);
  }

  lemma FlatLoadSeesLastStore(h: Heaps, es: seq<Event>, hs: seq<Heaps>, j: nat, k: nat)
    requires FlatRun(h, es, hs)
    requires j < k < |es| && es[j].StoreByte? && es[k].LoadByte?
    requires es[k].p == es[j].p && es[k].v == es[j].v && es[k].off == es[j].off
    requires forall i | j < i < k :: Leaves(es[i], es[j].p, es[j].v, es[j].off)
    ensures es[k].b == es[j].b
  {
    FlatStepAt(h, es, hs, j);
    hide FlatRun;
    var p, v, off := es[j].p, es[j].v, es[j].off;
    assert Holds(hs[j], p, v, off, es[j].b);
    var rest := es[j + 1..];
    assert forall i | 0 <= i < k - j - 1 :: rest[i] == es[j + 1 + i];
    FlatRemembers(hs[j], rest, hs[j + 1..], p, v, off, es[j].b, k - j - 1);
  }

  // ---- FIFO order ---------------------------------------------------------

  /** The last of the first `k` events that brought a page into frame `f`, or -1. */
  ghost function Stamp(es: seq<Event>, ms: seq<Mach>, k: nat, f: nat): int
    requires k <= |es| == |ms|
  {
    if k == 0 then -1
    else if es[k - 1].PageFault? && f < |ms[k - 1].vm.ipt|
            && ms[k - 1].vm.ipt[f] == Frame(PageFrame, es[k - 1].p, es[k - 1].v, 0) then k - 1
    else Stamp(es, ms, k - 1, f)
  }

  lemma {:induction false} StampBound(es: seq<Event>, ms: seq<Mach>, k: nat, f: nat)
    requires k <= |es| == |ms|
    ensures -1 <= Stamp(es, ms, k, f) < k
  {
    if k > 0 {
      StampBound(es, ms, k - 1, f);
    }
  }

  ghost predicate ByAge(es: seq<Event>, ms: seq<Mach>, k: nat, fifo: seq<nat>)
    requires k <= |es| == |ms|
  {
    forall i, j | 0 <= i < j < |fifo| :: Stamp(es, ms, k, fifo[i]) > Stamp(es, ms, k, fifo[j])
  }

  lemma FaultFifoOld(m: Mach, p: int, v: int) returns (f: nat, n: nat)
    requires Faulting(m, p, v) && Fault(m, p, v).Done? && m.policy == FIFO && PdeOf(m.vm, p, Pdi(v)).pres
    ensures var m' := Fault(m, p, v).m;
            n <= |m.fifo| && m'.fifo == [f] + m.fifo[..n] && f < |m'.vm.ipt| && m'.vm.ipt[f] == Frame(PageFrame, p, v, 0)
  {
    hide TablesDistinct, Tables, Pages, Bits, Stores, Clean, Queue, LoadPage;
    f, n := LoadFifo(m, PdeOf(m.vm, p, Pdi(v)).base, p, v, -1);
  }

  lemma FaultFifoNew(m: Mach, p: int, v: int) returns (f: nat, n: nat)
    requires Faulting(m, p, v) && Fault(m, p, v).Done? && m.policy == FIFO && !PdeOf(m.vm, p, Pdi(v)).pres
    ensures var m' := Fault(m, p, v).m;
            n <= |m.fifo| && m'.fifo == [f] + m.fifo[..n] && f < |m'.vm.ipt| && m'.vm.ipt[f] == Frame(PageFrame, p, v, 0)
  {
    hide TablesDistinct, Tables, Pages, Bits, Stores, Clean, Queue, LoadPage, Select, LosesTable;
    NewTableReady(m, p, v);
    WithTableKeeps(m, p, v);
    SelectPrefix(m, -1);
    var t, m1 := Select(m, -1).fr, WithTable(m, p, v);
    f, n := LoadFifo(m1, t, p, v, t);
    assert m1.fifo[..n] == m.fifo[..n];
  }

  /** A fault puts the new page at the head of what remains of the list. */
  lemma FaultFifo(m: Mach, p: int, v: int) returns (f: nat, n: nat)
    requires Faulting(m, p, v) && !Hazard(m, p, v) && Fault(m, p, v).Done? && m.policy == FIFO
    ensures var m' := Fault(m, p, v).m;
            n <= |m.fifo| && m'.fifo == [f] + m.fifo[..n] && f < |m'.vm.ipt|
            && m'.vm.ipt[f] == Frame(PageFrame, p, v, 0)
            && forall g | g in m.fifo[..n] && g < |m'.vm.ipt| :: m'.vm.ipt[g] != Frame(PageFrame, p, v, 0)
  {
    hide TablesDistinct, Tables, Pages, Bits, Stores, Clean, Queue, Flat, Fault, Resident;
    FaultKeeps(m, p, v);
    if PdeOf(m.vm, p, Pdi(v)).pres {
      f, n := FaultFifoOld(m, p, v);
    } else {
      f, n := FaultFifoNew(m, p, v);
    }
    OnlyHead(Fault(m, p, v).m, f, p, v, m.fifo[..n]);
  }

  lemma OnlyHead(m: Mach, f: nat, p: int, v: int, rest: seq<nat>)
    requires Inv(m) && m.policy == FIFO && m.fifo == [f] + rest
    requires f < |m.vm.ipt| && m.vm.ipt[f] == Frame(PageFrame, p, v, 0)
    ensures forall g | g in rest && g < |m.vm.ipt| :: m.vm.ipt[g] != Frame(PageFrame, p, v, 0)
  {
    hide TablesDistinct, Tables, Bits, Stores, Clean;
    forall g | g in rest && g < |m.vm.ipt|
      ensures m.vm.ipt[g] != Frame(PageFrame, p, v, 0)
    {
      var j :| 0 <= j < |rest| && rest[j] == g;
      assert m.fifo[j + 1] == g && m.fifo[0] == f;
      assert FrameMapped(m.vm, f);
      if m.vm.ipt[g].status == PageFrame {
        assert FrameMapped(m.vm, g);
      }
    }
  }

  lemma SelectPrefix(m: Mach, x: int)
    requires Core(m.vm, x) && Queue(m) && |m.vm.ipt| > 0 && m.policy == FIFO
    ensures Select(m, x).m.fifo <= m.fifo
  {
    SelectSplits(m, x);
    hide Core, Select;
  }

  lemma LoadFifo(m: Mach, t: nat, p: int, v: int, x: int) returns (f: nat, n: nat)
    requires Core(m.vm, x) && Queue(m) && HeapPage(m.vm, p, v) && TabAt(m.vm, t, p) && m.policy == FIFO
    requires LoadPage(m, t, p, v, x).Done?
    ensures var m' := LoadPage(m, t, p, v, x).m;
            n <= |m.fifo| && m'.fifo == [f] + m.fifo[..n] && f < |m'.vm.ipt|
            && m'.vm.ipt[f] == Frame(PageFrame, p, v, 0)
  {
    SelectPrefix(m, x);
    SelectKeeps(m, x);
    SelectKeepsTab(m, x, t, p);
    hide Core, Select;
    f, n := Select(m, x).fr, |Select(m, x).m.fifo|;
  }

  /** The machine after the first `k` events. */
  ghost function At(m: Mach, ms: seq<Mach>, k: nat): Mach
    requires k <= |ms|
  {
    if k == 0 then m else ms[k - 1]
  }

  lemma {:induction false} RunStep(m: Mach, es: seq<Event>, ms: seq<Mach>, k: nat)
    requires Inv(m) && |m.vm.ipt| > 0 && Run(m, es, ms) && k < |es|
    ensures |ms| == |es| && Inv(At(m, ms, k)) && |At(m, ms, k).vm.ipt| > 0
    ensures Step(At(m, ms, k), es[k], At(m, ms, k + 1)) && Inv(At(m, ms, k + 1))
    decreases k
  {
    hide Inv, Step;
    StepRefines(m, es[0], ms[0]);
    if k > 0 {
      RunStep(ms[0], es[1..], ms[1..], k - 1);
    }
  }

  /** Dropping frames from the list keeps the rest in order of age. */
  lemma {:induction false} SurvivorsByAge(es: seq<Event>, ms: seq<Mach>, k: nat, ipt: seq<Frame>, fifo: seq<nat>, p: int)
    requires k <= |es| == |ms| && ByAge(es, ms, k, fifo)
    ensures ByAge(es, ms, k, Survivors(ipt, fifo, p))
    decreases |fifo|
  {
    hide Stamp;
    if fifo != [] {
      var rest := fifo[1..];
      SurvivorsByAge(es, ms, k, ipt, rest, p);
      var s := Survivors(ipt, rest, p);
      forall j | 0 <= j < |s|
        ensures Stamp(es, ms, k, fifo[0]) > Stamp(es, ms, k, s[j])
      {
        assert s[j] in s;
        var i :| 0 <= i < |rest| && rest[i] == s[j];
        assert fifo[i + 1] == s[j];
      }
    }
  }

  lemma StampStays(es: seq<Event>, ms: seq<Mach>, k: nat, fifo: seq<nat>)
    requires k < |es| == |ms| && !es[k].PageFault? && ByAge(es, ms, k, fifo)
    ensures ByAge(es, ms, k + 1, fifo)
  {
  }

  lemma CreatePrefix(a: Mach, p: int, hsize: nat, b: Mach)
    requires Inv(a) && |a.vm.ipt| > 0 && a.policy == FIFO && Step(a, Create(p, hsize), b)
    ensures b.fifo <= a.fifo && b.policy == FIFO
  {
    hide Core, Select, Queue;
    SelectPrefix(a, -1);
    SelectKeeps(a, -1);
  }

  lemma TerminateSurvivors(a: Mach, p: int, b: Mach)
    requires Inv(a) && |a.vm.ipt| > 0 && a.policy == FIFO && Step(a, Terminate(p), b)
    ensures (b.fifo == a.fifo || b.fifo == Survivors(a.vm.ipt, a.fifo, p)) && b.policy == FIFO
  {
    hide Core, Queue;
  }

  lemma StillFifo(a: Mach, e: Event, b: Mach)
    requires Inv(a) && |a.vm.ipt| > 0 && Step(a, e, b) && (e.LoadByte? || e.StoreByte? || e.Spawn?)
    ensures b.fifo == a.fifo && b.policy == a.policy
  {
    hide Core, Queue;
  }

  lemma StepByAge(m: Mach, es: seq<Event>, ms: seq<Mach>, k: nat)
    requires k < |es| == |ms| && Inv(At(m, ms, k)) && |At(m, ms, k).vm.ipt| > 0 && At(m, ms, k).policy == FIFO
    requires Step(At(m, ms, k), es[k], At(m, ms, k + 1))
    requires ByAge(es, ms, k, At(m, ms, k).fifo)
    ensures ByAge(es, ms, k + 1, At(m, ms, k + 1).fifo) && At(m, ms, k + 1).policy == FIFO
  {
    var a, b := At(m, ms, k), At(m, ms, k + 1);
    match es[k]
    case PageFault(p, v) =>
      hide Inv, Fault, Hazard, Faulting, ByAge, Stamp;
      FaultKeeps(a, p, v);
      var f, n := FaultFifo(a, p, v);
      PushByAge(es, ms, k, a.fifo, f, n, b);
    case Create(p, hsize) =>
      hide Inv, Step, Stamp;
      CreatePrefix(a, p, hsize, b);
      StampStays(es, ms, k, b.fifo);
    case Terminate(p) =>
      hide Inv, Step, Stamp;
      TerminateSurvivors(a, p, b);
      SurvivorsByAge(es, ms, k, a.vm.ipt, a.fifo, p);
      StampStays(es, ms, k, b.fifo);
    case _ =>
      hide Inv, Step, Stamp, ByAge;
      StillFifo(a, es[k], b);
      StampStays(es, ms, k, b.fifo);
  }

  lemma PushByAge(es: seq<Event>, ms: seq<Mach>, k: nat, fifo: seq<nat>, f: nat, n: nat, b: Mach)
    requires k < |es| == |ms| && b == ms[k] && es[k].PageFault? && ByAge(es, ms, k, fifo)
    requires n <= |fifo| && b.fifo == [f] + fifo[..n] && f < |b.vm.ipt|
    requires b.vm.ipt[f] == Frame(PageFrame, es[k].p, es[k].v, 0)
    requires forall g | g in fifo[..n] && g < |b.vm.ipt| :: b.vm.ipt[g] != Frame(PageFrame, es[k].p, es[k].v, 0)
    ensures ByAge(es, ms, k + 1, b.fifo)
  {
    forall i | 0 < i < |b.fifo|
      ensures Stamp(es, ms, k + 1, b.fifo[i]) == Stamp(es, ms, k, fifo[i - 1]) < k
    {
      assert b.fifo[i] in fifo[..n];
      StampBound(es, ms, k, fifo[i - 1]);
    }
    assert Stamp(es, ms, k + 1, f) == k;
  }

  lemma {:induction false} FifoByAge(m: Mach, es: seq<Event>, ms: seq<Mach>, k: nat)
    requires Inv(m) && |m.vm.ipt| > 0 && Run(m, es, ms) && m.policy == FIFO && m.fifo == [] && k <= |es|
    ensures |ms| == |es| && Inv(At(m, ms, k)) && At(m, ms, k).policy == FIFO
    ensures ByAge(es, ms, k, At(m, ms, k).fifo)
  {
    hide Inv, Step, ByAge;
    if k > 0 {
      FifoByAge(m, es, ms, k - 1);
      RunStep(m, es, ms, k - 1);
      StepByAge(m, es, ms, k - 1);
    } else {
      assert ByAge(es, ms, 0, []) by { EmptyByAge(es, ms); }
    }
  }

  lemma EmptyByAge(es: seq<Event>, ms: seq<Mach>)
    requires |es| == |ms|
    ensures ByAge(es, ms, 0, [])
  {
  }

  /** Under FIFO the page chosen for eviction is, of all resident pages, the one loaded longest ago. */
  lemma VictimIsOldest(m: Mach, es: seq<Event>, ms: seq<Mach>, k: nat, g: nat)
    requires Inv(m) && |m.vm.ipt| > 0 && Run(m, es, ms) && m.policy == FIFO && m.fifo == [] && k <= |es| == |ms|
    requires Inv(At(m, ms, k)) && |At(m, ms, k).vm.ipt| > 0
    requires Victim(At(m, ms, k), -1) >= 0 && IsPage(At(m, ms, k).vm, g) && g != Victim(At(m, ms, k), -1)
    ensures Stamp(es, ms, k, Victim(At(m, ms, k), -1)) < Stamp(es, ms, k, g)
  {
    FifoByAge(m, es, ms, k);
    hide Core, Run, Stamp;
    var fifo := At(m, ms, k).fifo;
    assert g in fifo;
    var i :| 0 <= i < |fifo| && fifo[i] == g;
  }
}
