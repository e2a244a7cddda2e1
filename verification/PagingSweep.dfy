/** Where the search for a frame looks, frame by frame: within one search, and over whole runs. */
module PagingSweep {
  import opened BackingStore
  import opened PagingState
  import opened PagingEvict
  import opened PagingClock
  import opened PagingSelect
  import opened PagingInstall
  import opened PagingFault
  import opened PagingStores
  import opened PagingProcs
  import opened PagingRun
  import opened PagingTheorems

  // ---- going round --------------------------------------------------------

  /** The frame after `f`, going round. */
  function After(f: nat, n: nat): nat { if f + 1 == n then 0 else f + 1 }

  /** The frame `i` places on from the hand. */
  function Slot(hand: nat, i: nat, n: nat): (f: nat)
    requires n > 0
    ensures f < n
  {
    if i == 0 then hand % n else After(Slot(hand, i - 1, n), n)
  }

  lemma AfterMod(f: nat, n: nat)
    requires f < n
    ensures (f + 1) % n == After(f, n)
  {
    if f + 1 == n {
      assert n % n == 0;
    }
  }

  /** Starting `a` places on. */
  lemma {:induction false} SlotShift(hand: nat, a: nat, hand': nat, i: nat, n: nat)
    requires n > 0 && hand' % n == Slot(hand, a, n)
    ensures Slot(hand', i, n) == Slot(hand, a + i, n)
  {
    if i > 0 {
      SlotShift(hand, a, hand', i - 1, n);
    }
  }

  lemma SlotNext(hand: nat, i: nat, n: nat)
    requires n > 0
    ensures Slot(hand % n + 1, i, n) == Slot(hand, i + 1, n)
  {
    AfterMod(hand % n, n);
    assert Slot(hand, 0, n) == hand % n;
    SlotShift(hand, 1, hand % n + 1, i, n);
  }

  lemma {:induction false} SlotAhead(hand: nat, i: nat, d: nat, n: nat)
    requires d < n
    ensures var s := Slot(hand, i, n); Slot(hand, i + d, n) == if s + d < n then s + d else s + d - n
  {
    if d > 0 {
      SlotAhead(hand, i, d - 1, n);
    }
  }

  /** Between two visits to one frame every other frame is visited. */
  lemma EveryOther(hand: nat, i: nat, j: nat, n: nat, g: nat)
    requires g < n && i < j && Slot(hand, i, n) == Slot(hand, j, n)
    ensures exists l :: i <= l < j && Slot(hand, l, n) == g
  {
    if j - i < n {
      SlotAhead(hand, i, j - i, n);
      assert false;
    } else {
      var s := Slot(hand, i, n);
      var d := if g >= s then g - s else g + n - s;
      SlotAhead(hand, i, d, n);
      assert Slot(hand, i + d, n) == g;
    }
  }

  // ---- one search ---------------------------------------------------------

  /** How often the hand is on frame `g` in its first `t` places. */
  function Passes(hand: nat, g: nat, t: nat, n: nat): nat
    requires n > 0
  {
    if t == 0 then 0 else Passes(hand, g, t - 1, n) + if Slot(hand, t - 1, n) == g then 1 else 0
  }

  lemma {:induction false} PassesNext(hand: nat, g: nat, t: nat, n: nat)
    requires n > 0
    ensures Passes(hand, g, t + 1, n) == Passes(hand % n + 1, g, t, n) + if hand % n == g then 1 else 0
  {
    if t > 0 {
      PassesNext(hand, g, t - 1, n);
      SlotNext(hand, t - 1, n);
    } else {
      assert Passes(hand, g, 1, n) == Passes(hand, g, 0, n) + if Slot(hand, 0, n) == g then 1 else 0;
    }
  }

  /** An entry the hand has passed `k` times. */
  function AgedBy(e: Pte, k: nat): Pte
    decreases k
  {
    if k == 0 then e else AgedBy(Aged(e), k - 1)
  }

  /** The hand, on its way past frame `g` for the `k + 1`-st time, stops there. */
  ghost predicate Stops(m: Vm, g: nat, k: nat)
    requires Shape(m) && Pages(m)
  {
    IsFree(m, g) || (IsPage(m, g) && Clear(AgedBy(EntryOf(m, g), k)))
  }

  /** How many frames the clock passes before it stops, or runs out of probes. */
  ghost function ClockLen(m: Vm, hand: nat, probes: nat, x: int): (t: nat)
    requires Core(m, x) && |m.ipt| > 0
    ensures t <= probes
    decreases probes
  {
    if probes == 0 then 0
    else
      var h := hand % |m.ipt|;
      if m.ipt[h].status == NotUsed then 0
      else if m.ipt[h].status == PageFrame then
        if Clear(EntryOf(m, h)) then 0 else 1 + ClockLen(Age(m, h, x), h + 1, probes - 1, x)
      else 1 + ClockLen(m, h + 1, probes - 1, x)
  }

  /** The state of a search that started on `m` and has gone `t` places. */
  ghost predicate Swept(m: Vm, hand: nat, t: nat, probes: nat, r: Probe)
    requires Shape(m) && Pages(m) && |m.ipt| > 0
  {
    var n := |m.ipt|;
    t <= probes
    && (forall i | 0 <= i < t :: !Stops(m, Slot(hand, i, n), Passes(hand, Slot(hand, i, n), i, n)))
    && (if r.fr >= 0 then
          t < probes && r.fr == Slot(hand, t, n) && Stops(m, r.fr, Passes(hand, r.fr, t, n)) && r.hand == r.fr + 1
        else t == probes && r.hand % n == Slot(hand, t, n))
    && Shape(r.vm) && Pages(r.vm)
    && (forall g | IsPage(m, g) :: IsPage(r.vm, g) && EntryOf(r.vm, g) == AgedBy(EntryOf(m, g), Passes(hand, g, t, n)))
  }

  lemma SweptStart(m: Vm, hand: nat, probes: nat, x: int, r: Probe)
    requires Core(m, x) && |m.ipt| > 0 && r.vm == m
    requires var h := hand % |m.ipt|;
             if probes == 0 then r.fr < 0 && r.hand == hand
             else r.fr == h && r.hand == h + 1 && (IsFree(m, h) || (IsPage(m, h) && Clear(EntryOf(m, h))))
    ensures Swept(m, hand, 0, probes, r)
  {
  }

  /** One place further: over a frame that is no page. */
  lemma SweptOver(m: Vm, hand: nat, t: nat, probes: nat, x: int, r: Probe)
    requires Core(m, x) && |m.ipt| > 0 && probes > 0 && !IsFree(m, hand % |m.ipt|) && !IsPage(m, hand % |m.ipt|)
    requires Swept(m, hand % |m.ipt| + 1, t, probes - 1, r)
    ensures Swept(m, hand, t + 1, probes, r)
  {
    hide TablesDistinct, Tables, Bits, Stores, Clean, Slot, Passes, Shape, Pages;
    var n := |m.ipt|;
    var h := hand % n;
    SlotZero(hand, n);
    SlotNext(hand, t, n);
    forall i | 0 <= i < t + 1
      ensures !Stops(m, Slot(hand, i, n), Passes(hand, Slot(hand, i, n), i, n))
    {
      if i > 0 {
        SlotNext(hand, i - 1, n);
        PassesNext(hand, Slot(hand, i, n), i - 1, n);
        assert !Stops(m, Slot(h + 1, i - 1, n), Passes(h + 1, Slot(h + 1, i - 1, n), i - 1, n));
      }
    }
    if r.fr >= 0 {
      PassesNext(hand, r.fr, t, n);
    }
    forall g | IsPage(m, g)
      ensures IsPage(r.vm, g) && EntryOf(r.vm, g) == AgedBy(EntryOf(m, g), Passes(hand, g, t + 1, n))
    {
      PassesNext(hand, g, t, n);
    }
  }

  lemma SlotZero(hand: nat, n: nat)
    requires n > 0
    ensures Slot(hand, 0, n) == hand % n && forall g: nat :: Passes(hand, g, 0, n) == 0
  {
  }

  lemma AgedStops(m: Vm, h: nat, x: int, g: nat, k: nat)
    requires Core(m, x) && IsPage(m, h) && !Clear(EntryOf(m, h))
    ensures Stops(Age(m, h, x), g, k) <==> Stops(m, g, k + if g == h then 1 else 0)
    ensures IsPage(m, g) ==>
              IsPage(Age(m, h, x), g)
              && AgedBy(EntryOf(Age(m, h, x), g), k) == AgedBy(EntryOf(m, g), k + if g == h then 1 else 0)
  {
    hide TablesDistinct, Tables, Bits, Stores, Clean, Shape, Pages;
    AgeFacts(m, h, x);
  }

  /** What the passing of a page does to the counts. */
  lemma PagePassed(m: Vm, hand: nat, x: int, g: nat, t: nat)
    requires Core(m, x) && |m.ipt| > 0 && IsPage(m, hand % |m.ipt|) && !Clear(EntryOf(m, hand % |m.ipt|))
    ensures var n := |m.ipt|; var m1, h := Age(m, hand % n, x), hand % n;
            (Stops(m1, g, Passes(h + 1, g, t, n)) <==> Stops(m, g, Passes(hand, g, t + 1, n)))
            && (IsPage(m, g) ==>
                  IsPage(m1, g)
                  && AgedBy(EntryOf(m1, g), Passes(h + 1, g, t, n)) == AgedBy(EntryOf(m, g), Passes(hand, g, t + 1, n)))
  {
    hide TablesDistinct, Tables, Bits, Stores, Clean, Slot, Passes, Shape, Pages, Age, Stops, AgedBy;
    var n := |m.ipt|;
    PassesNext(hand, g, t, n);
    AgedStops(m, hand % n, x, g, Passes(hand % n + 1, g, t, n));
  }

  /** One place further: over a page, which it ages. */
  lemma SweptPage(m: Vm, hand: nat, t: nat, probes: nat, x: int, r: Probe)
    requires Core(m, x) && |m.ipt| > 0 && probes > 0 && IsPage(m, hand % |m.ipt|) && !Clear(EntryOf(m, hand % |m.ipt|))
    requires |Age(m, hand % |m.ipt|, x).ipt| == |m.ipt|
    requires Swept(Age(m, hand % |m.ipt|, x), hand % |m.ipt| + 1, t, probes - 1, r)
    ensures Swept(m, hand, t + 1, probes, r)
  {
    hide TablesDistinct, Tables, Bits, Stores, Clean, Slot, Passes, Shape, Pages, Age, Stops, AgedBy;
    var n := |m.ipt|;
    var h := hand % n;
    var m1 := Age(m, h, x);
    SlotNext(hand, t, n);
    forall i | 0 <= i < t + 1
      ensures !Stops(m, Slot(hand, i, n), Passes(hand, Slot(hand, i, n), i, n))
    {
      if i > 0 {
        SlotNext(hand, i - 1, n);
        PagePassed(m, hand, x, Slot(hand, i, n), i - 1);
        assert !Stops(m1, Slot(h + 1, i - 1, n), Passes(h + 1, Slot(h + 1, i - 1, n), i - 1, n));
      } else {
        SlotZero(hand, n);
        FirstGoesOn(m, h);
      }
    }
    if r.fr >= 0 {
      PagePassed(m, hand, x, r.fr, t);
    }
    forall g | IsPage(m, g)
      ensures IsPage(r.vm, g) && EntryOf(r.vm, g) == AgedBy(EntryOf(m, g), Passes(hand, g, t + 1, n))
    {
      PagePassed(m, hand, x, g, t);
    }
  }

  lemma FirstGoesOn(m: Vm, h: nat)
    requires Shape(m) && Pages(m) && IsPage(m, h) && !Clear(EntryOf(m, h))
    ensures !Stops(m, h, 0)
  {
  }

  /**
   The clock takes the first frame, going round from the hand, that is free or whose bits are clear when
   the hand gets there, each pass before having aged it once; and the next search starts behind it.
   */
  lemma {:induction false} ClockSweeps(m: Vm, hand: nat, probes: nat, x: int)
    requires Core(m, x) && |m.ipt| > 0
    ensures Swept(m, hand, ClockLen(m, hand, probes, x), probes, Clock(m, hand, probes, x))
    decreases probes
  {
    hide Shape, TablesDistinct, Tables, Pages, Bits, Stores, Clean, Swept;
    var h := hand % |m.ipt|;
    var r := Clock(m, hand, probes, x);
    if probes > 0 && m.ipt[h].status == PageFrame && !Clear(EntryOf(m, h)) {
      AgeFacts(m, h, x);
      ClockSweeps(Age(m, h, x), h + 1, probes - 1, x);
      SweptPage(m, hand, ClockLen(Age(m, h, x), h + 1, probes - 1, x), probes, x, r);
    } else if probes > 0 && m.ipt[h].status != PageFrame && m.ipt[h].status != NotUsed {
      ClockSweeps(m, h + 1, probes - 1, x);
      SweptOver(m, hand, ClockLen(m, h + 1, probes - 1, x), probes, x, r);
    } else {
      SweptStart(m, hand, probes, x, r);
    }
  }

  // ---- every search -------------------------------------------------------

  /** How many frames in use the free-frame search passes before it stops. */
  function FreeLen(ipt: seq<Frame>, hand: nat, probes: nat): (t: nat)
    requires |ipt| > 0
    decreases probes
  {
    if probes == 0 || ipt[hand % |ipt|].status == NotUsed then 0 else 1 + FreeLen(ipt, hand % |ipt| + 1, probes - 1)
  }

  /** The free-frame search takes the first free frame going round from the hand, and the next search starts behind it. */
  lemma {:induction false} FreeSweeps(ipt: seq<Frame>, hand: nat, probes: nat)
    requires |ipt| > 0
    ensures var n, t, r := |ipt|, FreeLen(ipt, hand, probes), FreeScan(ipt, hand, probes);
            (forall i | 0 <= i < t :: ipt[Slot(hand, i, n)].status != NotUsed)
            && (if r.0 >= 0 then t < probes && r.0 == Slot(hand, t, n) && ipt[r.0].status == NotUsed && r.1 == r.0 + 1
                else t == probes && r.1 % n == Slot(hand, t, n))
    decreases probes
  {
    var n := |ipt|;
    var h := hand % n;
    SlotZero(hand, n);
    if probes > 0 && ipt[h].status != NotUsed {
      hide Slot;
      FreeSweeps(ipt, h + 1, probes - 1);
      var t := FreeLen(ipt, h + 1, probes - 1);
      SlotNext(hand, t, n);
      forall i | 0 <= i < t + 1
        ensures ipt[Slot(hand, i, n)].status != NotUsed
      {
        if i > 0 { SlotNext(hand, i - 1, n); }
      }
    }
  }

  /** How many frames getNewFrame's search looks at, the one it takes included. */
  ghost function SearchLen(m: Mach, x: int): nat
    requires Core(m.vm, x) && |m.vm.ipt| > 0
  {
    var n := |m.vm.ipt|;
    if m.policy == FIFO then FreeLen(m.vm.ipt, m.nextframe, n) + if FreeScan(m.vm.ipt, m.nextframe, n).0 >= 0 then 1 else 0
    else ClockLen(m.vm, m.nextframe, 3 * n + 1, x) + if Clock(m.vm, m.nextframe, 3 * n + 1, x).fr >= 0 then 1 else 0
  }

  /** `len` frames, going round from the hand. */
  function Round(hand: nat, len: nat, n: nat): (s: seq<nat>)
    requires n > 0
    ensures |s| == len && forall i | 0 <= i < len :: s[i] == Slot(hand, i, n)
  {
    seq(len, i requires 0 <= i < len => Slot(hand, i, n))
  }

  /** The frames one search looks at, in order. */
  ghost function Looked(m: Mach, x: int): seq<nat>
    requires Core(m.vm, x) && |m.vm.ipt| > 0
  {
    Round(m.nextframe, SearchLen(m, x), |m.vm.ipt|)
  }

  lemma StoppedNext(hand: nat, t: nat, f: nat, n: nat)
    requires n > 0 && f == Slot(hand, t, n)
    ensures (f + 1) % n == Slot(hand, t + 1, n)
  {
    AfterMod(f, n);
  }

  /** A search leaves the hand behind the last frame it looked at; the frame it takes, unless it had to pick one from the FIFO list, is that one. */
  lemma SelectMoves(m: Mach, x: int)
    requires Core(m.vm, x) && Queue(m) && |m.vm.ipt| > 0
    ensures var s, n := Select(m, x), |m.vm.ipt|;
            s.m.nextframe % n == Slot(m.nextframe, SearchLen(m, x), n)
            && (s.fr >= 0 && (m.policy == GCA || FreeScan(m.vm.ipt, m.nextframe, n).0 >= 0) ==>
                  SearchLen(m, x) > 0 && s.fr == Slot(m.nextframe, SearchLen(m, x) - 1, n) && s.m.nextframe == s.fr + 1)
  {
    hide Core, Slot, Evict, Clock, FreeScan, FreeLen, ClockLen, Passes, Stops;
    var n := |m.vm.ipt|;
    if m.policy == FIFO {
      FreeSweeps(m.vm.ipt, m.nextframe, n);
      var r := FreeScan(m.vm.ipt, m.nextframe, n);
      if r.0 >= 0 {
        StoppedNext(m.nextframe, FreeLen(m.vm.ipt, m.nextframe, n), r.0, n);
      }
    } else {
      ClockSweeps(m.vm, m.nextframe, 3 * n + 1, x);
      var r := Clock(m.vm, m.nextframe, 3 * n + 1, x);
      if r.fr >= 0 {
        StoppedNext(m.nextframe, ClockLen(m.vm, m.nextframe, 3 * n + 1, x), r.fr, n);
      }
    }
  }

  // ---- whole runs ---------------------------------------------------------

  /** The frames looked at in one step of the machine. */
  ghost function StepLooked(m: Mach, e: Event): seq<nat>
    requires Inv(m) && |m.vm.ipt| > 0
  {
    match e
    case PageFault(p, v) =>
      if !Faulting(m, p, v) then []
      else if PdeOf(m.vm, p, Pdi(v)).pres || Select(m, -1).fr < 0 then Looked(m, -1)
      else
        WithTableKeeps(m, p, v);
        Looked(m, -1) + Looked(WithTable(m, p, v), Select(m, -1).fr)
    case Create(p, hsize) => if NumStores(hsize) <= m.vm.freeBs then Looked(m, -1) else []
    case _ => []
  }

  lemma RoundJoins(hand: nat, a: nat, hand': nat, b: nat, n: nat)
    requires n > 0 && hand' % n == Slot(hand, a, n)
    ensures Round(hand, a, n) + Round(hand', b, n) == Round(hand, a + b, n)
    ensures Slot(hand', b, n) == Slot(hand, a + b, n)
  {
    forall i: nat
      ensures Slot(hand', i, n) == Slot(hand, a + i, n)
    {
      SlotShift(hand, a, hand', i, n);
    }
    hide Slot;
    var s, t := Round(hand, a, n) + Round(hand', b, n), Round(hand, a + b, n);
    forall i | 0 <= i < a + b
      ensures s[i] == t[i]
    {
      if i >= a { assert s[i] == Slot(hand', i - a, n); }
    }
  }

  lemma SelectSize(m: Mach, x: int)
    requires Core(m.vm, x) && Queue(m) && |m.vm.ipt| > 0
    ensures |Select(m, x).m.vm.ipt| == |m.vm.ipt|
  {
    SelectKeeps(m, x);
  }

  /** One search, when the table is there. */
  lemma OldTableMoves(m: Mach, p: int, v: int)
    requires Faulting(m, p, v) && |m.vm.ipt| > 0 && Fault(m, p, v).Done? && PdeOf(m.vm, p, Pdi(v)).pres
    ensures var m' := Fault(m, p, v).m;
            StepLooked(m, PageFault(p, v)) == Looked(m, -1) && |m'.vm.ipt| == |m.vm.ipt| && m'.nextframe == Select(m, -1).m.nextframe
  {
    hide TablesDistinct, Tables, Pages, Bits, Stores, Clean, Queue, Select, Looked, LoadPage;
    LoadMoves(m, PdeOf(m.vm, p, Pdi(v)).base, p, v, -1);
  }

  /** Two, when it is not. */
  lemma NewTableMoves(m: Mach, p: int, v: int)
    requires Faulting(m, p, v) && |m.vm.ipt| > 0 && Fault(m, p, v).Done? && !PdeOf(m.vm, p, Pdi(v)).pres
    ensures Select(m, -1).fr >= 0
    ensures var m', t, m1 := Fault(m, p, v).m, Select(m, -1).fr, WithTable(m, p, v);
            Core(m1.vm, t) && Queue(m1) && |m1.vm.ipt| == |m.vm.ipt| && m1.nextframe == Select(m, -1).m.nextframe
            && StepLooked(m, PageFault(p, v)) == Looked(m, -1) + Looked(m1, t)
            && |m'.vm.ipt| == |m.vm.ipt| && m'.nextframe == Select(m1, t).m.nextframe
  {
    hide TablesDistinct, Tables, Pages, Bits, Stores, Clean, Queue, Select, Looked, LoadPage;
    SelectSize(m, -1);
    NewTableReady(m, p, v);
    WithTableKeeps(m, p, v);
    LoadMoves(WithTable(m, p, v), Select(m, -1).fr, p, v, Select(m, -1).fr);
  }

  lemma FaultMoves(m: Mach, p: int, v: int)
    requires Faulting(m, p, v) && |m.vm.ipt| > 0 && Fault(m, p, v).Done?
    ensures var m', n, s := Fault(m, p, v).m, |m.vm.ipt|, StepLooked(m, PageFault(p, v));
            |m'.vm.ipt| == n && s == Round(m.nextframe, |s|, n) && m'.nextframe % n == Slot(m.nextframe, |s|, n)
  {
    hide Core, Queue, Fault, StepLooked, Select, Slot, Round, SearchLen, Resident, WithTable;
    assert Core(m.vm, -1) && Queue(m) by { FaultingParts(m, p, v); }
    SelectMoves(m, -1);
    if HasTable(m, p, v) {
      OldTableMoves(m, p, v);
    } else {
      NewTableMoves(m, p, v);
      var t, m1 := Select(m, -1).fr, WithTable(m, p, v);
      SelectMoves(m1, t);
      RoundJoins(m.nextframe, SearchLen(m, -1), m1.nextframe, SearchLen(m1, t), |m.vm.ipt|);
    }
  }

  ghost predicate HasTable(m: Mach, p: int, v: int)
    requires Faulting(m, p, v)
  {
    PdeOf(m.vm, p, Pdi(v)).pres
  }

  lemma FaultingParts(m: Mach, p: int, v: int)
    requires Faulting(m, p, v)
    ensures Core(m.vm, -1) && Queue(m)
  {
  }

  lemma LoadMoves(m: Mach, t: nat, p: int, v: int, x: int)
    requires Core(m.vm, x) && Queue(m) && HeapPage(m.vm, p, v) && TabAt(m.vm, t, p) && LoadPage(m, t, p, v, x).Done?
    ensures var m' := LoadPage(m, t, p, v, x).m; |m'.vm.ipt| == |m.vm.ipt| && m'.nextframe == Select(m, x).m.nextframe
  {
    SelectSize(m, x);
    SelectKeepsTab(m, x, t, p);
    SelectKeeps(m, x);
    hide Core, Select;
  }

  lemma StepMoves(m: Mach, e: Event, m': Mach)
    requires Inv(m) && |m.vm.ipt| > 0 && Step(m, e, m')
    ensures var n, s := |m.vm.ipt|, StepLooked(m, e);
            |m'.vm.ipt| == n && s == Round(m.nextframe, |s|, n) && m'.nextframe % n == Slot(m.nextframe, |s|, n)
  {
    SlotZero(m.nextframe, |m.vm.ipt|);
    match e
    case PageFault(p, v) =>
      hide Core, Queue, Fault, StepLooked, Hazard;
      FaultMoves(m, p, v);
    case Create(p, hsize) =>
      CreateMoves(m, p, hsize, m');
    case _ =>
      hide Core, Queue, Select, Slot;
  }

  lemma CreateMoves(m: Mach, p: int, hsize: nat, m': Mach)
    requires Inv(m) && |m.vm.ipt| > 0 && 0 <= p < |m.vm.procs| && !m.vm.procs[p].live
    requires VCreate(m, p, hsize) == Started(m') || VCreate(m, p, hsize) == Refused(m')
    ensures var n, s := |m.vm.ipt|, StepLooked(m, Create(p, hsize));
            |m'.vm.ipt| == n && s == Round(m.nextframe, |s|, n) && m'.nextframe % n == Slot(m.nextframe, |s|, n)
  {
    SlotZero(m.nextframe, |m.vm.ipt|);
    SelectMoves(m, -1);
    SelectKeeps(m, -1);
    hide Core, Queue, Select, Slot, SearchLen;
  }

  /** The frames looked at in the first `k` steps of a run. */
  ghost function RunLooked(m: Mach, es: seq<Event>, ms: seq<Mach>, k: nat): seq<nat>
    requires k <= |es| == |ms| && Inv(m) && |m.vm.ipt| > 0 && forall i | 0 <= i < k :: Inv(ms[i]) && |ms[i].vm.ipt| > 0
  {
    if k == 0 then [] else RunLooked(m, es, ms, k - 1) + StepLooked(At(m, ms, k - 1), es[k - 1])
  }

  /** Over a whole run the searches, one after the other, go round and round: each starts where the one before stopped. */
  lemma {:induction false} RunGoesRound(m: Mach, es: seq<Event>, ms: seq<Mach>, k: nat)
    requires Inv(m) && |m.vm.ipt| > 0 && Run(m, es, ms) && k <= |es|
    ensures |ms| == |es| && (forall i | 0 <= i < k :: Inv(ms[i]) && |ms[i].vm.ipt| > 0) && |At(m, ms, k).vm.ipt| == |m.vm.ipt|
    ensures var n, s := |m.vm.ipt|, RunLooked(m, es, ms, k);
            s == Round(m.nextframe, |s|, n) && At(m, ms, k).nextframe % n == Slot(m.nextframe, |s|, n)
  {
    hide Inv, Step, StepLooked, Slot, Round;
    var n := |m.vm.ipt|;
    if k > 0 {
      RunGoesRound(m, es, ms, k - 1);
      RunStep(m, es, ms, k - 1);
      var a := At(m, ms, k - 1);
      StepMoves(a, es[k - 1], At(m, ms, k));
      var s, t := RunLooked(m, es, ms, k - 1), StepLooked(a, es[k - 1]);
      RoundJoins(m.nextframe, |s|, a.nextframe, |t|, n);
    } else {
      SlotZero(m.nextframe, n);
      assert Round(m.nextframe, 0, n) == [];
    }
  }

  /** Between two looks at one frame, the searches of a run have looked at every other frame. */
  lemma EveryFrameBetween(m: Mach, es: seq<Event>, ms: seq<Mach>, i: nat, j: nat, g: nat)
    requires Inv(m) && |m.vm.ipt| > 0 && Run(m, es, ms) && AllInv(ms) && |ms| == |es| && g < |m.vm.ipt|
    requires i < j < |RunLooked(m, es, ms, |es|)| && RunLooked(m, es, ms, |es|)[i] == RunLooked(m, es, ms, |es|)[j]
    ensures exists l :: i <= l < j && RunLooked(m, es, ms, |es|)[l] == g
  {
    hide Inv, Run, Slot, RunLooked;
    RunGoesRound(m, es, ms, |es|);
    var s, n := RunLooked(m, es, ms, |es|), |m.vm.ipt|;
    EveryOther(m.nextframe, i, j, n, g);
    var l :| i <= l < j && Slot(m.nextframe, l, n) == g;
    assert s[l] == g;
  }

  // ---- second chance ------------------------------------------------------

  /** The processor marks the entry of the page it uses, and no other. */
  lemma AccessMarks(m: Vm, p: int, v: int, off: nat, b: Byte, g: nat)
    requires Core(m, -1) && Mapped(m, p, v) && off < NBPG && IsPage(m, g)
    ensures Core(Touched(m, p, v), -1) && Core(Written(m, p, v, off, b), -1)
    ensures var e := EntryOf(m, g);
            EntryOf(Touched(m, p, v), g) == (if g == FrameOf(m, p, v) then e.(acc := true) else e)
            && EntryOf(Written(m, p, v, off, b), g) == if g == FrameOf(m, p, v) then e.(acc := true, dirty := true) else e
  {
    var f := FrameOf(m, p, v);
    EntryIsPresent(m, f, -1);
    TouchedKeeps(m, p, v, -1);
    WrittenKeeps(m, p, v, off, b, -1);
    hide TablesDistinct, Tables, Bits, Stores, Clean;
    WithEntryCore(m, f, EntryOf(m, f).(acc := true), -1);
    var e := EntryOf(m, f).(acc := true, dirty := true);
    WithEntryCore(m, f, e, -1);
    DataPages(WithEntry(m, f, e), f, m.mem[f].page[off := b], -1);
  }

  /** The hand is on frame `f` somewhere in its first `t` places. */
  ghost predicate Visited(hand: nat, t: nat, f: nat, n: nat)
    requires n > 0
  {
    exists l :: 0 <= l < t && Slot(hand, l, n) == f
  }

  /** A page used since the hand last cleared its bits is not taken before the hand has been on every frame once; one also written, not before twice. */
  lemma SecondChance(m: Mach, x: int, g: nat)
    requires Core(m.vm, x) && Queue(m) && |m.vm.ipt| > 0 && m.policy == GCA
    requires IsPage(m.vm, g) && EntryOf(m.vm, g).acc && Select(m, x).fr == g
    ensures var n, t := |m.vm.ipt|, SearchLen(m, x) - 1;
            Passes(m.nextframe, g, t, n) >= 1 && (EntryOf(m.vm, g).dirty ==> Passes(m.nextframe, g, t, n) >= 2)
            && forall f: nat | f < n :: Visited(m.nextframe, t, f, n)
  {
    hide Shape, TablesDistinct, Tables, Pages, Bits, Stores, Clean, Slot, Passes, Select, SearchLen;
    var n := |m.vm.ipt|;
    var t := SearchLen(m, x) - 1;
    TakenClear(m, x, g);
    NotClearYet(EntryOf(m.vm, g), Passes(m.nextframe, g, t, n));
    var i := PassedAt(m.nextframe, g, t, n);
    forall f: nat | f < n
      ensures Visited(m.nextframe, t, f, n)
    {
      EveryOther(m.nextframe, i, t, n, f);
    }
  }

  lemma TakenClear(m: Mach, x: int, g: nat)
    requires Core(m.vm, x) && Queue(m) && |m.vm.ipt| > 0 && m.policy == GCA && IsPage(m.vm, g) && Select(m, x).fr == g
    ensures SearchLen(m, x) > 0 && Slot(m.nextframe, SearchLen(m, x) - 1, |m.vm.ipt|) == g
    ensures Clear(AgedBy(EntryOf(m.vm, g), Passes(m.nextframe, g, SearchLen(m, x) - 1, |m.vm.ipt|)))
  {
    hide Shape, TablesDistinct, Tables, Pages, Bits, Stores, Clean, Slot, Passes, Evict, Clock, ClockLen, AgedBy;
    ClockSweeps(m.vm, m.nextframe, 3 * |m.vm.ipt| + 1, x);
  }

  lemma NotClearYet(e: Pte, k: nat)
    requires e.acc && Clear(AgedBy(e, k))
    ensures k >= 1 && (e.dirty ==> k >= 2)
  {
    assert AgedBy(e, 0) == e;
    if k == 1 {
      assert AgedBy(e, 1) == AgedBy(Aged(e), 0);
    }
  }

  lemma {:induction false} PassedAt(hand: nat, g: nat, t: nat, n: nat) returns (i: nat)
    requires n > 0 && Passes(hand, g, t, n) >= 1
    ensures i < t && Slot(hand, i, n) == g
  {
    if Slot(hand, t - 1, n) == g {
      i := t - 1;
    } else {
      i := PassedAt(hand, g, t - 1, n);
    }
  }
}
