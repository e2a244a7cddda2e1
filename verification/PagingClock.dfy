/**
 The accessed, dirty and avail bits of resident pages: what the processor sets, what
 the clock hand of the global clock algorithm clears, and why the hand finds a victim.
 */
module PagingClock {
  import opened BackingStore
  import opened PagingState
  import opened PagingEvict

  ghost predicate IsPage(m: Vm, f: int) {
    0 <= f < |m.ipt| && m.ipt[f].status == PageFrame
  }

  ghost predicate IsFree(m: Vm, f: int) {
    0 <= f < |m.ipt| && m.ipt[f].status == NotUsed
  }

  ghost function EntryOf(m: Vm, f: nat): Pte
    requires Shape(m) && Pages(m) && IsPage(m, f)
  {
    assert FrameMapped(m, f);
    Entry(m, m.ipt[f].pid, m.ipt[f].vpn)
  }

  ghost function WithEntry(m: Vm, f: nat, e: Pte): Vm
    requires Shape(m) && Pages(m) && IsPage(m, f)
  {
    assert FrameMapped(m, f);
    var t := TableOf(m, f);
    m.(mem := m.mem[t := Tab(m.mem[t].ptes[Pti(m.ipt[f].vpn) := e])])
  }

  /** A change of bits that neither unmaps the page nor forgets that it was written. */
  predicate BitChange(e: Pte, e': Pte) {
    e'.pres && e'.base == e.base && EntryBits(e')
    && (!e'.dirty && !e'.avail ==> !e.dirty && !e.avail)
  }

  lemma WithEntryShape(m: Vm, f: nat, e: Pte, x: int)
    requires Core(m, x) && IsPage(m, f) && BitChange(EntryOf(m, f), e)
    ensures Shape(WithEntry(m, f, e))
    ensures forall q, i | Paging(m, q) && Private(i) :: PdeOf(WithEntry(m, f, e), q, i) == PdeOf(m, q, i)
    ensures forall q, u: int | PrivatePage(m, q, u) && PdeOf(m, q, Pdi(u)).pres ::
              Entry(WithEntry(m, f, e), q, u)
              == if q == m.ipt[f].pid && u == m.ipt[f].vpn then e else Entry(m, q, u)
  {
    hide TablesDistinct, Tables, Bits, Stores, Clean;
    assert FrameMapped(m, f);
    var m' := WithEntry(m, f, e);
    assert forall q :: Paging(m', q) <==> Paging(m, q);
    assert Dirs(m');
    assert forall q, i | Paging(m, q) && Private(i) :: PdeOf(m', q, i) == PdeOf(m, q, i);
    forall q, u: int | PrivatePage(m, q, u) && PdeOf(m, q, Pdi(u)).pres
      ensures Entry(m', q, u) == if q == m.ipt[f].pid && u == m.ipt[f].vpn then e else Entry(m, q, u)
    {
      assert TabAt(m, PdeOf(m, q, Pdi(u)).base, q);
    }
  }

  lemma WithEntryTables(m: Vm, f: nat, e: Pte, x: int)
    requires Core(m, x) && IsPage(m, f) && BitChange(EntryOf(m, f), e)
    ensures Shape(WithEntry(m, f, e))
    ensures TablesDistinct(WithEntry(m, f, e)) && Tables(WithEntry(m, f, e), x) && Bits(WithEntry(m, f, e))
  {
    hide Stores, Clean;
    WithEntryShape(m, f, e, x);
    assert FrameMapped(m, f);
    var m' := WithEntry(m, f, e);
    var t := TableOf(m, f);
    assert PrivateTab(m, t) && Backed(m, t);
    forall u | PrivateTab(m', u)
      ensures Backed(m', u)
      ensures m'.mem[u].Tab? && m'.ipt[u].refCount == |PresentSet(m'.mem[u].ptes)|
      ensures u != x ==> m'.ipt[u].refCount >= 1
    {
      assert PrivateTab(m, u) && Backed(m, u);
      var i :| Private(i) && PdeOf(m, m.ipt[u].pid, i) == Pde(true, u);
      assert PdeOf(m', m'.ipt[u].pid, i) == Pde(true, u);
      if u == t {
        assert PresentSet(m'.mem[t].ptes) == PresentSet(m.mem[t].ptes);
      }
    }
  }

  lemma WithEntryPages(m: Vm, f: nat, e: Pte, x: int)
    requires Core(m, x) && IsPage(m, f) && BitChange(EntryOf(m, f), e)
    ensures Shape(WithEntry(m, f, e)) && Pages(WithEntry(m, f, e))
    ensures forall g | IsPage(m, g) :: EntryOf(WithEntry(m, f, e), g) == if g == f then e else EntryOf(m, g)
  {
    hide TablesDistinct, Tables, Bits, Stores, Clean;
    WithEntryShape(m, f, e, x);
    assert FrameMapped(m, f);
    var m' := WithEntry(m, f, e);
    forall g | IsPage(m', g)
      ensures FrameMapped(m', g)
    {
      assert FrameMapped(m, g);
    }
    forall q, u: int | PrivatePage(m', q, u) && Resident(m', q, u)
      ensures EntryHeld(m', q, u)
    {
      assert PrivatePage(m, q, u) && EntryHeld(m, q, u);
    }
    forall g | IsPage(m, g)
      ensures EntryOf(m', g) == if g == f then e else EntryOf(m, g)
    {
      assert FrameMapped(m, g) && FrameMapped(m', g);
    }
  }

  lemma WithEntryCore(m: Vm, f: nat, e: Pte, x: int)
    requires Core(m, x) && IsPage(m, f) && BitChange(EntryOf(m, f), e)
    ensures Core(WithEntry(m, f, e), x)
    ensures forall g | IsPage(m, g) :: EntryOf(WithEntry(m, f, e), g) == if g == f then e else EntryOf(m, g)
  {
    hide TablesDistinct, Tables, Bits;
    WithEntryTables(m, f, e, x);
    WithEntryPages(m, f, e, x);
    var m' := WithEntry(m, f, e);
    SameStores(m, m');
    assert FrameMapped(m, f);
    forall g | IsPage(m', g)
      ensures FrameMapped(m', g)
      ensures !EntryOf(m', g).dirty && !EntryOf(m', g).avail ==>
                m'.mem[g].page == Stored(m', m'.ipt[g].pid, m'.ipt[g].vpn)
    {
      assert IsPage(m, g) && FrameMapped(m, g) && FrameMapped(m', g);
    }
  }

  /** Store bookkeeping depends only on the process table, the store table and the disk. */
  lemma SameStores(m: Vm, m': Vm)
    requires Sizes(m) && Stores(m) && Sizes(m')
    requires m'.procs == m.procs && m'.bstab == m.bstab && m'.freeBs == m.freeBs && m'.disk == m.disk
    ensures Stores(m')
    ensures forall p, v | HeapPage(m, p, v) :: HeapPage(m', p, v) && Stored(m', p, v) == Stored(m, p, v)
  {
    assert forall p, j :: Held(m', p, j) <==> Held(m, p, j);
    assert forall p, j | Held(m', p, j) :: HeldOk(m, p, j) && HeldOk(m', p, j);
  }

  lemma WithEntryFlat(m: Vm, f: nat, e: Pte, x: int, q: int, u: int)
    requires Core(m, x) && IsPage(m, f) && BitChange(EntryOf(m, f), e) && HeapPage(m, q, u)
    ensures Core(WithEntry(m, f, e), x) && HeapPage(WithEntry(m, f, e), q, u)
    ensures Flat(WithEntry(m, f, e), q, u) == Flat(m, q, u)
  {
    WithEntryCore(m, f, e, x);
    WithEntryShape(m, f, e, x);
    HeapPageFacts(m, q, u);
    var m' := WithEntry(m, f, e);
    assert FrameMapped(m, f);
    if Resident(m, q, u) {
      assert EntryHeld(m, q, u);
      assert FrameMapped(m, Entry(m, q, u).base);
      assert m'.mem[Entry(m, q, u).base] == m.mem[Entry(m, q, u).base];
    } else {
      SameStores(m, m');
    }
  }

  // ---- the clock hand ----------------------------------------------------

  /** getAndSetUM on an entry that is not already clear. */
  function Aged(e: Pte): Pte {
    if e.acc && e.dirty then e.(dirty := false, avail := true) else e.(acc := false)
  }

  predicate Clear(e: Pte) { !e.acc && !e.dirty }

  /** The outcome of a search: frame `fr`, or none if negative, and the hand's new place. */
  datatype Probe = Probe(vm: Vm, hand: nat, fr: int)

  /** The page in frame `f` as the passing hand leaves it. */
  ghost function Age(m: Vm, f: nat, x: int): (r: Vm)
    requires Core(m, x) && IsPage(m, f)
    ensures Core(r, x)
  {
    AgedIsBitChange(m, f, x);
    WithEntryCore(m, f, Aged(EntryOf(m, f)), x);
    WithEntry(m, f, Aged(EntryOf(m, f)))
  }

  /**
   getNewFrameGCA's loop with `probes` iterations left. Stops at a free frame or at a
   page whose bits are both clear, ageing the pages it passes.
   */
  ghost function Clock(m: Vm, hand: nat, probes: nat, x: int): Probe
    requires Core(m, x) && |m.ipt| > 0
    decreases probes
  {
    if probes == 0 then Probe(m, hand, -1)
    else
      var h := hand % |m.ipt|;
      if m.ipt[h].status == NotUsed then Probe(m, h + 1, h)
      else if m.ipt[h].status == PageFrame then
        if Clear(EntryOf(m, h)) then Probe(m, h + 1, h)
        else Clock(Age(m, h, x), h + 1, probes - 1, x)
      else Clock(m, h + 1, probes - 1, x)
  }

  /** A page never has pt_dirty without pt_acc, so ageing never meets the panic case. */
  lemma AgedIsBitChange(m: Vm, f: nat, x: int)
    requires Core(m, x) && IsPage(m, f)
    ensures EntryOf(m, f).dirty ==> EntryOf(m, f).acc
    ensures BitChange(EntryOf(m, f), Aged(EntryOf(m, f)))
  {
    assert FrameMapped(m, f);
    var t := TableOf(m, f);
    assert PrivateTab(m, t);
    assert EntryBits(m.mem[t].ptes[Pti(m.ipt[f].vpn)]);
  }

  /** Steps for the hand to reach frame `g`. */
  function Distance(hand: nat, g: nat, n: nat): nat
    requires g < n
  {
    if hand % n <= g then g - hand % n else g + n - hand % n
  }

  /** Visits a frame survives before the hand takes it. */
  ghost function Rank(m: Vm, g: nat): nat
    requires Shape(m) && Pages(m) && (IsFree(m, g) || IsPage(m, g))
  {
    if IsFree(m, g) then 0
    else if EntryOf(m, g).acc && EntryOf(m, g).dirty then 2
    else if EntryOf(m, g).acc then 1
    else 0
  }

  lemma DistanceStep(hand: nat, g: nat, n: nat)
    requires g < n && hand % n != g
    ensures Distance(hand % n + 1, g, n) == Distance(hand, g, n) - 1
  {
    if hand % n + 1 == n {
      assert (hand % n + 1) % n == 0;
    } else {
      assert (hand % n + 1) % n == hand % n + 1;
    }
  }

  lemma DistanceWrap(hand: nat, g: nat, n: nat)
    requires g < n && hand % n == g
    ensures Distance(hand % n + 1, g, n) == n - 1
  {
    if g + 1 == n {
      assert (g + 1) % n == 0;
    } else {
      assert (g + 1) % n == g + 1;
    }
  }

  lemma AgeFacts(m: Vm, f: nat, x: int)
    requires Core(m, x) && IsPage(m, f)
    ensures Age(m, f, x) == m.(mem := Age(m, f, x).mem)
    ensures forall g | IsPage(m, g) ::
              EntryOf(Age(m, f, x), g) == if g == f then Aged(EntryOf(m, f)) else EntryOf(m, g)
    ensures forall q, u | HeapPage(m, q, u) :: HeapPage(Age(m, f, x), q, u) && Flat(Age(m, f, x), q, u) == Flat(m, q, u)
  {
    AgedIsBitChange(m, f, x);
    WithEntryCore(m, f, Aged(EntryOf(m, f)), x);
    forall q, u | HeapPage(m, q, u)
      ensures Flat(Age(m, f, x), q, u) == Flat(m, q, u)
    {
      WithEntryFlat(m, f, Aged(EntryOf(m, f)), x, q, u);
    }
  }

  lemma {:induction false} ClockFlat(m: Vm, hand: nat, probes: nat, x: int, q: int, u: int)
    requires Core(m, x) && |m.ipt| > 0 && HeapPage(m, q, u)
    ensures Core(Clock(m, hand, probes, x).vm, x)
    ensures HeapPage(Clock(m, hand, probes, x).vm, q, u)
    ensures Flat(Clock(m, hand, probes, x).vm, q, u) == Flat(m, q, u)
    decreases probes
  {
    hide Shape, TablesDistinct, Tables, Pages, Bits, Stores, Clean;
    if probes > 0 {
      var h := hand % |m.ipt|;
      if m.ipt[h].status == PageFrame && !Clear(EntryOf(m, h)) {
        AgeFacts(m, h, x);
        ClockFlat(Age(m, h, x), h + 1, probes - 1, x, q, u);
      } else if m.ipt[h].status != PageFrame && m.ipt[h].status != NotUsed {
        ClockFlat(m, h + 1, probes - 1, x, q, u);
      }
    }
  }

  lemma RankOfAged(m: Vm, h: nat, x: int, g: nat)
    requires Core(m, x) && IsPage(m, h) && !Clear(EntryOf(m, h)) && (IsFree(m, g) || IsPage(m, g))
    ensures IsFree(m, g) <==> IsFree(Age(m, h, x), g)
    ensures IsPage(m, g) <==> IsPage(Age(m, h, x), g)
    ensures Rank(Age(m, h, x), g) == if g == h then Rank(m, g) - 1 else Rank(m, g)
  {
    AgeFacts(m, h, x);
    AgedIsBitChange(m, h, x);
  }

  lemma {:induction false} ClockFinds(m: Vm, hand: nat, probes: nat, x: int, g: nat)
    requires Core(m, x) && (IsFree(m, g) || IsPage(m, g))
    requires probes > Distance(hand, g, |m.ipt|) + Rank(m, g) * |m.ipt|
    ensures Clock(m, hand, probes, x).fr >= 0
    decreases probes
  {
    hide Shape, TablesDistinct, Tables, Pages, Bits, Stores, Clean;
    var n := |m.ipt|;
    var h := hand % n;
    if m.ipt[h].status == PageFrame && !Clear(EntryOf(m, h)) {
      AgeFacts(m, h, x);
      RankOfAged(m, h, x, g);
      if h == g {
        DistanceWrap(hand, g, n);
        assert Rank(Age(m, h, x), g) * n == Rank(m, g) * n - n;
      } else {
        DistanceStep(hand, g, n);
      }
      ClockFinds(Age(m, h, x), h + 1, probes - 1, x, g);
    } else if m.ipt[h].status != PageFrame && m.ipt[h].status != NotUsed {
      DistanceStep(hand, g, n);
      ClockFinds(m, h + 1, probes - 1, x, g);
    }
  }

  /** The frame the hand stops at is free, or is a page with both bits clear. */
  lemma {:induction false} ClockStops(m: Vm, hand: nat, probes: nat, x: int)
    requires Core(m, x) && |m.ipt| > 0
    ensures var r := Clock(m, hand, probes, x);
            Core(r.vm, x) && r.vm == m.(mem := r.vm.mem) && r.fr < |m.ipt|
            && (r.fr >= 0 ==> IsFree(m, r.fr) || (IsPage(m, r.fr) && Clear(EntryOf(r.vm, r.fr))))
    decreases probes
  {
    hide Shape, TablesDistinct, Tables, Pages, Bits, Stores, Clean;
    if probes > 0 {
      var h := hand % |m.ipt|;
      if m.ipt[h].status == PageFrame && !Clear(EntryOf(m, h)) {
        AgeFacts(m, h, x);
        ClockStops(Age(m, h, x), h + 1, probes - 1, x);
      } else if m.ipt[h].status != PageFrame && m.ipt[h].status != NotUsed {
        ClockStops(m, h + 1, probes - 1, x);
      }
    }
  }

  /** The kernel's 3 * NFRAMES + 1 probes find a frame exactly when there is one to find. */
  lemma ClockBound(m: Vm, hand: nat, x: int)
    requires Core(m, x) && |m.ipt| > 0
    ensures Clock(m, hand, 3 * |m.ipt| + 1, x).fr >= 0 <==> exists g :: IsFree(m, g) || IsPage(m, g)
  {
    hide Shape, TablesDistinct, Tables, Pages, Bits, Stores, Clean;
    var n := |m.ipt|;
    ClockStops(m, hand, 3 * n + 1, x);
    if g :| IsFree(m, g) || IsPage(m, g) {
      assert Rank(m, g) * n <= 2 * n;
      ClockFinds(m, hand, 3 * n + 1, x, g);
    }
  }
}
