/** Eviction of a page frame (evictFrame with decRefCount) and what it preserves. */
module PagingEvict {
  import opened BackingStore
  import opened PagingState

  /** Where the entry of a page frame lives. */
  ghost function TableOf(m: Vm, f: nat): nat
    requires Shape(m) && Pages(m) && f < |m.ipt| && m.ipt[f].status == PageFrame
  {
    assert FrameMapped(m, f);
    PdeOf(m, m.ipt[f].pid, Pdi(m.ipt[f].vpn)).base
  }

  /**
   The page in `f` leaves memory: its entry is marked absent, its table loses a
   reference and is freed with the last one, and the page is written back if it
   was ever written. The frame itself ends up unused.
   */
  ghost function Evict(m: Vm, f: nat): Vm
    requires Shape(m) && Pages(m) && Stores(m) && f < |m.ipt| && m.ipt[f].status == PageFrame
  {
    assert FrameMapped(m, f);
    var p, v := m.ipt[f].pid, m.ipt[f].vpn;
    HeapPageFacts(m, p, v);
    assert HeldOk(m, p, StoreIndex(v));
    var d, t, e := m.procs[p].pd, TableOf(m, f), Entry(m, p, v);
    var mem := m.mem[t := Tab(m.mem[t].ptes[Pti(v) := Pte(false, e.acc, false, false, e.base)])];
    var lastRef := m.ipt[t].refCount - 1 <= 0;
    m.(ipt := m.ipt[t := if lastRef then CLEAR_FRAME
                         else m.ipt[t].(refCount := m.ipt[t].refCount - 1)][f := CLEAR_FRAME],
       mem := if lastRef then mem[d := Dir(m.mem[d].pdes[Pdi(v) := Pde(false, t)])] else mem,
       disk := if e.dirty || e.avail then WithPage(m.disk, StoreOf(m, p, v), StoreOffset(v), m.mem[f].page)
               else m.disk)
  }

  lemma EvictShape(m: Vm, f: nat, x: int)
    requires Core(m, x) && f < |m.ipt| && m.ipt[f].status == PageFrame
    ensures Shape(Evict(m, f))
  {
    assert FrameMapped(m, f);
    var p, v := m.ipt[f].pid, m.ipt[f].vpn;
    var m' := Evict(m, f);
    assert forall q :: Paging(m', q) <==> Paging(m, q);
    assert Dirs(m');
    forall q, i | Paging(m', q) && Private(i) && PdeOf(m', q, i).pres
      ensures TabAt(m', PdeOf(m', q, i).base, q)
    {
      assert Paging(m, q) && PdeOf(m, q, i).pres;
    }
  }

  /** How the directory and table entries read after an eviction. */
  lemma EvictViews(m: Vm, f: nat, x: int)
    requires Core(m, x) && f < |m.ipt| && m.ipt[f].status == PageFrame
    ensures Shape(Evict(m, f))
    ensures forall q, i | Paging(m, q) && Private(i) && PdeOf(Evict(m, f), q, i).pres ::
              PdeOf(Evict(m, f), q, i) == PdeOf(m, q, i)
    ensures forall q, i | Paging(m, q) && Private(i) && PdeOf(m, q, i).pres && PdeOf(m, q, i).base != TableOf(m, f) ::
              PdeOf(Evict(m, f), q, i) == PdeOf(m, q, i)
    ensures forall q, v: int | PrivatePage(m, q, v) && (q, v) != (m.ipt[f].pid, m.ipt[f].vpn) ::
              Resident(Evict(m, f), q, v) == Resident(m, q, v)
              && (Resident(m, q, v) ==> Entry(Evict(m, f), q, v) == Entry(m, q, v))
    ensures !Resident(Evict(m, f), m.ipt[f].pid, m.ipt[f].vpn)
  {
    hide Bits, Stores, Clean, TablesDistinct, Tables;
    EvictShape(m, f, x);
    assert FrameMapped(m, f);
    var p, v := m.ipt[f].pid, m.ipt[f].vpn;
    var m' := Evict(m, f);
    forall q, u: int | PrivatePage(m, q, u) && (q, u) != (p, v)
      ensures Resident(m', q, u) == Resident(m, q, u)
      ensures Resident(m, q, u) ==> Entry(m', q, u) == Entry(m, q, u)
    {
      if PdeOf(m, q, Pdi(u)).pres && PdeOf(m, q, Pdi(u)).base == TableOf(m, f) {
        SharedTable(m, f, x, q, u);
      }
    }
  }

  /** A page in the same table as the evicted one sits in another slot and keeps the table alive. */
  lemma SharedTable(m: Vm, f: nat, x: int, q: int, u: int)
    requires Core(m, x) && f < |m.ipt| && m.ipt[f].status == PageFrame && PrivatePage(m, q, u)
    requires (q, u) != (m.ipt[f].pid, m.ipt[f].vpn)
    requires PdeOf(m, q, Pdi(u)).pres && PdeOf(m, q, Pdi(u)).base == TableOf(m, f)
    ensures FrameMapped(m, f) && q == m.ipt[f].pid && Pdi(u) == Pdi(m.ipt[f].vpn) && Pti(u) != Pti(m.ipt[f].vpn)
    ensures Resident(m, q, u) ==> m.ipt[TableOf(m, f)].refCount > 1
  {
    hide Bits, Stores, Clean;
    assert FrameMapped(m, f);
    var t, v := TableOf(m, f), m.ipt[f].vpn;
    assert PrivateTab(m, t) && Backed(m, t);
    if Resident(m, q, u) {
      assert {Pti(u), Pti(v)} <= PresentSet(m.mem[t].ptes);
      assert |{Pti(u), Pti(v)}| == 2;
      SubsetSize({Pti(u), Pti(v)}, PresentSet(m.mem[t].ptes));
    }
  }

  lemma SubsetSize<T>(a: set<T>, b: set<T>)
    requires a <= b
    ensures |a| <= |b|
  {
    assert b == a + (b - a);
  }

  lemma EvictTables(m: Vm, f: nat, x: int)
    requires Core(m, x) && f < |m.ipt| && m.ipt[f].status == PageFrame
    ensures Shape(Evict(m, f)) && TablesDistinct(Evict(m, f)) && Tables(Evict(m, f), x)
  {
    hide Bits, Stores, Clean;
    EvictViews(m, f, x);
    assert FrameMapped(m, f);
    var v := m.ipt[f].vpn;
    var m' := Evict(m, f);
    var t := TableOf(m, f);
    assert PrivateTab(m, t) && Backed(m, t);
    hide Pages;
    forall u | PrivateTab(m', u)
      ensures Backed(m', u)
      ensures m'.mem[u].Tab? && m'.ipt[u].refCount == |PresentSet(m'.mem[u].ptes)|
      ensures u != x ==> m'.ipt[u].refCount >= 1
    {
      assert PrivateTab(m, u) && Backed(m, u);
      var i :| Private(i) && PdeOf(m, m.ipt[u].pid, i) == Pde(true, u);
      if u == t {
        assert PresentSet(m'.mem[t].ptes) == PresentSet(m.mem[t].ptes) - {Pti(v)};
        assert PdeOf(m', m'.ipt[u].pid, i) == Pde(true, u);
      } else {
        assert PdeOf(m', m'.ipt[u].pid, i) == Pde(true, u);
      }
    }
  }

  lemma EvictBits(m: Vm, f: nat, x: int)
    requires Core(m, x) && f < |m.ipt| && m.ipt[f].status == PageFrame
    ensures Shape(Evict(m, f)) && Bits(Evict(m, f))
  {
    hide Stores, Clean, TablesDistinct, Tables;
    EvictShape(m, f, x);
    assert FrameMapped(m, f);
    var m' := Evict(m, f);
    forall t, j | PrivateTab(m', t) && m'.mem[t].Tab? && 0 <= j < |m'.mem[t].ptes|
      ensures EntryBits(m'.mem[t].ptes[j])
    {
      assert PrivateTab(m, t);
      assert EntryBits(m.mem[t].ptes[j]);
    }
  }

  lemma EvictPages(m: Vm, f: nat, x: int)
    requires Core(m, x) && f < |m.ipt| && m.ipt[f].status == PageFrame
    ensures Shape(Evict(m, f)) && Pages(Evict(m, f))
  {
    hide Tables, TablesDistinct, Bits, Stores, Clean;
    EvictViews(m, f, x);
    assert FrameMapped(m, f);
    var p, v := m.ipt[f].pid, m.ipt[f].vpn;
    var m' := Evict(m, f);
    forall g | 0 <= g < |m'.ipt| && m'.ipt[g].status == PageFrame
      ensures FrameMapped(m', g)
    {
      assert FrameMapped(m, g);
    }
    forall q, u: int | PrivatePage(m', q, u) && Resident(m', q, u)
      ensures EntryHeld(m', q, u)
    {
      assert PrivatePage(m, q, u);
      assert EntryHeld(m, q, u);
    }
  }

  /** The disk slot of a heap page, and that different heap pages have different slots. */
  lemma SlotOfPage(m: Vm, p: int, v: int, q: int, u: int)
    requires Sizes(m) && Stores(m) && HeapPage(m, p, v) && HeapPage(m, q, u)
    ensures SlotOk(StoreOf(m, p, v), StoreOffset(v)) && SlotOk(StoreOf(m, q, u), StoreOffset(u))
    ensures (p, v) != (q, u) ==> (StoreOf(m, p, v), StoreOffset(v)) != (StoreOf(m, q, u), StoreOffset(u))
  {
    HeapPageFacts(m, p, v);
    HeapPageFacts(m, q, u);
    assert HeldOk(m, p, StoreIndex(v)) && HeldOk(m, q, StoreIndex(u));
  }

  lemma EvictStored(m: Vm, f: nat, x: int, q: int, u: int)
    requires Core(m, x) && f < |m.ipt| && m.ipt[f].status == PageFrame && HeapPage(m, q, u)
    ensures Stores(Evict(m, f))
    ensures Stored(Evict(m, f), q, u) ==
            if (q, u) == (m.ipt[f].pid, m.ipt[f].vpn) then m.mem[f].page else Stored(m, q, u)
  {
    assert FrameMapped(m, f);
    var p, v := m.ipt[f].pid, m.ipt[f].vpn;
    var m' := Evict(m, f);
    assert forall a, b :: Held(m', a, b) <==> Held(m, a, b);
    assert forall a, b | Held(m', a, b) :: HeldOk(m, a, b) && HeldOk(m', a, b);
    SlotOfPage(m, p, v, q, u);
    if (q, u) == (p, v) {
      ReadBackSame(m.disk, StoreOf(m, p, v), StoreOffset(v), m.mem[f].page);
    } else {
      ReadBackOther(m.disk, StoreOf(m, p, v), StoreOffset(v), m.mem[f].page, StoreOf(m, q, u), StoreOffset(u));
    }
  }

  lemma EvictStatuses(m: Vm, f: nat, x: int)
    requires Core(m, x) && f < |m.ipt| && m.ipt[f].status == PageFrame
    ensures |Evict(m, f).ipt| == |m.ipt| && Evict(m, f).ipt[f] == CLEAR_FRAME
    ensures forall g | 0 <= g < |m.ipt| && g != f && m.ipt[g].status != PTab :: Evict(m, f).ipt[g] == m.ipt[g]
    ensures forall g | 0 <= g < |m.ipt| && m.ipt[g].status == PTab ::
              Evict(m, f).ipt[g].status == PTab || Evict(m, f).ipt[g] == CLEAR_FRAME
    ensures Evict(m, f) == m.(ipt := Evict(m, f).ipt, mem := Evict(m, f).mem, disk := Evict(m, f).disk)
    ensures |Evict(m, f).mem| == |m.mem|
    ensures forall t | 0 <= t < |m.mem| && m.mem[t].Tab? ::
              Evict(m, f).mem[t].Tab? && |Evict(m, f).mem[t].ptes| == |m.mem[t].ptes|
  {
    hide Tables, TablesDistinct, Bits, Stores, Clean;
    assert FrameMapped(m, f);
  }

  /** Eviction keeps everything coherent. */
  lemma EvictCore(m: Vm, f: nat, x: int)
    requires Core(m, x) && f < |m.ipt| && m.ipt[f].status == PageFrame
    ensures Core(Evict(m, f), x)
  {
    hide Bits, TablesDistinct, Tables;
    EvictViews(m, f, x);
    EvictTables(m, f, x);
    EvictBits(m, f, x);
    EvictPages(m, f, x);
    var m' := Evict(m, f);
    assert FrameMapped(m, f);
    EvictStored(m, f, x, m.ipt[f].pid, m.ipt[f].vpn);
    forall g | 0 <= g < |m'.ipt| && m'.ipt[g].status == PageFrame
      ensures FrameMapped(m', g)
      ensures var e := Entry(m', m'.ipt[g].pid, m'.ipt[g].vpn);
              !e.dirty && !e.avail ==> m'.mem[g].page == Stored(m', m'.ipt[g].pid, m'.ipt[g].vpn)
    {
      assert FrameMapped(m, g) && FrameMapped(m', g);
      EvictStored(m, f, x, m.ipt[g].pid, m.ipt[g].vpn);
    }
  }

  /** Eviction is invisible: every process reads the same memory afterwards. */
  lemma EvictFlat(m: Vm, f: nat, x: int, q: int, u: int)
    requires Core(m, x) && f < |m.ipt| && m.ipt[f].status == PageFrame && HeapPage(m, q, u)
    ensures Core(Evict(m, f), x) && HeapPage(Evict(m, f), q, u)
    ensures Flat(Evict(m, f), q, u) == Flat(m, q, u)
  {
    hide Tables, TablesDistinct, Bits, Clean;
    EvictCore(m, f, x);
    var m' := Evict(m, f);
    HeapPageFacts(m, q, u);
    assert FrameMapped(m, f);
    assert Resident(m', q, u) == (Resident(m, q, u) && (q, u) != (m.ipt[f].pid, m.ipt[f].vpn)) by { EvictViews(m, f, x); }
    if Resident(m', q, u) {
      assert EntryHeld(m, q, u);
      var g := Entry(m, q, u).base;
      assert Entry(m', q, u).base == g by { EvictViews(m, f, x); }
      assert FrameMapped(m, g);
      assert m'.mem[g] == m.mem[g];
    } else {
      EvictStored(m, f, x, q, u);
    }
  }
}
