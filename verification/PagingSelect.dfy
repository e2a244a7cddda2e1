/** Choosing a frame: the free-frame search, FIFO and clock replacement, and the eviction they may cause. */
module PagingSelect {
  import opened BackingStore
  import opened PagingState
  import opened PagingEvict
  import opened PagingClock

  /** The search for an unused frame, `probes` slots long, starting at the hand. */
  function FreeScan(ipt: seq<Frame>, hand: nat, probes: nat): (r: (int, nat))
    requires |ipt| > 0
    decreases probes
  {
    if probes == 0 then (-1, hand)
    else
      var h := hand % |ipt|;
      if ipt[h].status == NotUsed then (h, h + 1) else FreeScan(ipt, h + 1, probes - 1)
  }

  lemma {:induction false} FreeScanStops(ipt: seq<Frame>, hand: nat, probes: nat)
    requires |ipt| > 0
    ensures var r := FreeScan(ipt, hand, probes).0; r == -1 || (0 <= r < |ipt| && ipt[r].status == NotUsed)
    decreases probes
  {
    if probes > 0 && ipt[hand % |ipt|].status != NotUsed {
      FreeScanStops(ipt, hand % |ipt| + 1, probes - 1);
    }
  }

  lemma {:induction false} FreeScanFinds(ipt: seq<Frame>, hand: nat, probes: nat, g: nat)
    requires g < |ipt| && ipt[g].status == NotUsed && probes > Distance(hand, g, |ipt|)
    ensures FreeScan(ipt, hand, probes).0 >= 0
    decreases probes
  {
    var h := hand % |ipt|;
    if ipt[h].status != NotUsed {
      DistanceStep(hand, g, |ipt|);
      FreeScanFinds(ipt, h + 1, probes - 1, g);
    }
  }

  /** The chosen frame, unused by now, and the machine after any eviction; negative if there is none. */
  datatype Selected = Selected(m: Mach, fr: int)

  /** getNewFrame up to the point where the frame is ready to be initialised. */
  ghost function Select(m: Mach, x: int): Selected
    requires Core(m.vm, x) && Queue(m) && |m.vm.ipt| > 0
  {
    hide Shape, TablesDistinct, Tables, Pages, Bits, Stores, Clean;
    if m.policy == FIFO then
      var r := FreeScan(m.vm.ipt, m.nextframe, |m.vm.ipt|);
      if r.0 >= 0 then Selected(m.(nextframe := r.1), r.0)
      else if m.fifo == [] then Selected(m.(nextframe := r.1), -1)
      else
        var f := m.fifo[|m.fifo| - 1];
        assert f in m.fifo;
        Selected(m.(vm := Evict(m.vm, f), fifo := m.fifo[..|m.fifo| - 1], nextframe := r.1), f)
    else
      ClockStops(m.vm, m.nextframe, 3 * |m.vm.ipt| + 1, x);
      var r := Clock(m.vm, m.nextframe, 3 * |m.vm.ipt| + 1, x);
      if r.fr < 0 then Selected(m.(vm := r.vm, nextframe := r.hand), -1)
      else if m.vm.ipt[r.fr].status == NotUsed then Selected(m.(vm := r.vm, nextframe := r.hand), r.fr)
      else Selected(m.(vm := Evict(r.vm, r.fr), nextframe := r.hand), r.fr)
  }

  /** The page frame that would be evicted now; negative if a free frame would be taken or none exists. */
  ghost function Victim(m: Mach, x: int): (f: int)
    requires Core(m.vm, x) && Queue(m) && |m.vm.ipt| > 0
    ensures f >= 0 ==> IsPage(m.vm, f) && HeapPage(m.vm, m.vm.ipt[f].pid, m.vm.ipt[f].vpn)
  {
    assert forall g | IsPage(m.vm, g) :: FrameMapped(m.vm, g);
    hide Shape, TablesDistinct, Tables, Pages, Bits, Stores, Clean;
    if m.policy == FIFO then
      if FreeScan(m.vm.ipt, m.nextframe, |m.vm.ipt|).0 >= 0 || m.fifo == [] then -1
      else
        assert m.fifo[|m.fifo| - 1] in m.fifo;
        m.fifo[|m.fifo| - 1]
    else
      ClockStops(m.vm, m.nextframe, 3 * |m.vm.ipt| + 1, x);
      var r := Clock(m.vm, m.nextframe, 3 * |m.vm.ipt| + 1, x);
      if r.fr < 0 || m.vm.ipt[r.fr].status == NotUsed then -1 else r.fr
  }

  /** The tables just before an eviction: bits aged by the clock, nothing else changed. */
  ghost function Aged0(m: Mach, x: int): Vm
    requires Core(m.vm, x) && Queue(m) && |m.vm.ipt| > 0
  {
    if m.policy == FIFO then m.vm else Clock(m.vm, m.nextframe, 3 * |m.vm.ipt| + 1, x).vm
  }

  /** Selecting is ageing followed, if there is a victim, by its eviction. */
  lemma SelectSplits(m: Mach, x: int)
    requires Core(m.vm, x) && Queue(m) && |m.vm.ipt| > 0
    ensures var a := Aged0(m, x); var s := Select(m, x); var f := Victim(m, x);
            Core(a, x) && a == m.vm.(mem := a.mem)
            && f < |a.ipt| && s.m.policy == m.policy
            && (f >= 0 ==> a.ipt[f].status == PageFrame && s.m.vm == Evict(a, f) && s.fr == f
                           && (m.policy == FIFO ==> f == m.fifo[|m.fifo| - 1] && s.m.fifo == m.fifo[..|m.fifo| - 1]))
            && (f < 0 ==> s.m.vm == a && s.m.fifo == m.fifo && s.fr < |a.ipt|
                          && (s.fr >= 0 ==> a.ipt[s.fr].status == NotUsed))
            && (m.policy == GCA ==> s.m.fifo == [])
  {
    hide Shape, TablesDistinct, Tables, Pages, Bits, Stores, Clean, FreeScan, Clock, Evict;
    if m.policy == FIFO {
      FreeScanStops(m.vm.ipt, m.nextframe, |m.vm.ipt|);
    } else {
      ClockStops(m.vm, m.nextframe, 3 * |m.vm.ipt| + 1, x);
    }
  }

  ghost predicate SomeFrame(m: Vm) {
    exists g :: IsFree(m, g) || IsPage(m, g)
  }

  lemma FifoFinds(m: Mach, x: int)
    requires Core(m.vm, x) && Queue(m) && |m.vm.ipt| > 0 && m.policy == FIFO
    ensures Select(m, x).fr >= 0 <==> SomeFrame(m.vm)
  {
    hide Core, Evict;
    var n := |m.vm.ipt|;
    var r := FreeScan(m.vm.ipt, m.nextframe, n);
    FreeScanStops(m.vm.ipt, m.nextframe, n);
    if r.0 >= 0 {
      assert IsFree(m.vm, r.0);
    } else if m.fifo != [] {
      assert m.fifo[|m.fifo| - 1] in m.fifo;
      assert IsPage(m.vm, m.fifo[|m.fifo| - 1]);
    } else if SomeFrame(m.vm) {
      var g :| IsFree(m.vm, g) || IsPage(m.vm, g);
      if IsFree(m.vm, g) {
        FreeScanFinds(m.vm.ipt, m.nextframe, n, g);
      }
      assert false;
    }
  }

  /** A frame is found exactly when some frame is free or holds a page. */
  lemma SelectFinds(m: Mach, x: int)
    requires Core(m.vm, x) && Queue(m) && |m.vm.ipt| > 0
    ensures Select(m, x).fr >= 0 <==> SomeFrame(m.vm)
  {
    hide Core, Evict, Clock;
    if m.policy == FIFO {
      FifoFinds(m, x);
    } else {
      ClockStops(m.vm, m.nextframe, 3 * |m.vm.ipt| + 1, x);
      ClockBound(m.vm, m.nextframe, x);
    }
  }

  /** Selecting a frame keeps the tables coherent and the frame list exact, and frees the frame it returns. */
  lemma SelectKeeps(m: Mach, x: int)
    requires Core(m.vm, x) && Queue(m) && |m.vm.ipt| > 0
    ensures var s := Select(m, x);
            Core(s.m.vm, x) && Queue(s.m) && s.m.policy == m.policy
            && s.m.vm.procs == m.vm.procs && s.m.vm.bstab == m.vm.bstab && s.m.vm.freeBs == m.vm.freeBs
            && s.m.vm.gpt == m.vm.gpt && s.m.vm.dpt == m.vm.dpt
            && |s.m.vm.ipt| == |m.vm.ipt|
            && s.fr < |m.vm.ipt| && (s.fr >= 0 ==> IsFree(s.m.vm, s.fr))
            && (forall g | IsPage(s.m.vm, g) :: IsPage(m.vm, g) && s.m.vm.ipt[g] == m.vm.ipt[g])
            && (forall g | IsFree(m.vm, g) :: IsFree(s.m.vm, g))
            && (forall g | IsPage(m.vm, g) && g != s.fr :: IsPage(s.m.vm, g))
  {
    hide Shape, TablesDistinct, Tables, Pages, Bits, Stores, Clean;
    SelectSplits(m, x);
    var a, f, s := Aged0(m, x), Victim(m, x), Select(m, x);
    if f >= 0 {
      EvictCore(a, f, x);
      EvictStatuses(a, f, x);
      EvictQueue(m, a, f, x, s.m.nextframe);
      hide Core, Evict, Select, Aged0, Victim, Queue;
      assert s.m == Mach(Evict(a, f), m.policy, s.m.fifo, s.m.nextframe);
    }
  }

  lemma EvictQueue(m: Mach, a: Vm, f: nat, x: int, k: nat)
    requires Queue(m) && Core(a, x) && a.ipt == m.vm.ipt && f < |a.ipt| && a.ipt[f].status == PageFrame
    requires m.policy == FIFO ==> m.fifo != [] && f == m.fifo[|m.fifo| - 1]
    ensures Queue(Mach(Evict(a, f), m.policy, if m.policy == FIFO then m.fifo[..|m.fifo| - 1] else m.fifo, k))
  {
    EvictStatuses(a, f, x);
    hide Core, Evict;
    if m.policy == FIFO {
      var fifo := m.fifo[..|m.fifo| - 1];
      assert m.fifo == fifo + [f];
      forall g | 0 <= g < |a.ipt| && Evict(a, f).ipt[g].status == PageFrame
        ensures g in fifo
      {
        assert g in m.fifo;
      }
    }
  }

  lemma SelectFlat(m: Mach, x: int, q: int, u: int)
    requires Core(m.vm, x) && Queue(m) && |m.vm.ipt| > 0 && HeapPage(m.vm, q, u)
    ensures Core(Select(m, x).m.vm, x) && HeapPage(Select(m, x).m.vm, q, u)
    ensures Flat(Select(m, x).m.vm, q, u) == Flat(m.vm, q, u)
  {
    hide Shape, TablesDistinct, Tables, Pages, Bits, Stores, Clean;
    SelectSplits(m, x);
    SelectKeeps(m, x);
    var a, f := Aged0(m, x), Victim(m, x);
    if m.policy == GCA {
      ClockFlat(m.vm, m.nextframe, 3 * |m.vm.ipt| + 1, x, q, u);
    }
    if f >= 0 {
      EvictFlat(a, f, x, q, u);
    }
  }
}
