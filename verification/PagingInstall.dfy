/** Bringing a new page table or a page into a frame that has just been selected. */
module PagingInstall {
  import opened BackingStore
  import opened PagingState
  import opened PagingEvict
  import opened PagingClock

  // ---- a page table -------------------------------------------------------

  /** newPageTable in frame `t`, pointed to by directory entry `i` of process `p`. */
  ghost function InstallTable(m: Vm, t: nat, p: int, i: int): Vm
    requires Sizes(m) && Dirs(m) && Paging(m, p) && Private(i) && t < |m.ipt|
  {
    var d := m.procs[p].pd;
    m.(ipt := m.ipt[t := Frame(PTab, p, NO_VPN, 0)],
       mem := m.mem[t := Tab(seq(PAGETABSIZE, _ => CLEAR_PTE))][d := Dir(m.mem[d].pdes[i := Pde(true, t)])])
  }

  lemma InstallTableViews(m: Vm, t: nat, p: int, i: int)
    requires Core(m, -1) && IsFree(m, t) && Paging(m, p) && Private(i) && !PdeOf(m, p, i).pres
    ensures Shape(InstallTable(m, t, p, i))
    ensures forall q, j | Paging(m, q) && Private(j) ::
              PdeOf(InstallTable(m, t, p, i), q, j) == if q == p && i == j then Pde(true, t) else PdeOf(m, q, j)
    ensures forall q, u: int | PrivatePage(m, q, u) ::
              Resident(InstallTable(m, t, p, i), q, u) == Resident(m, q, u)
              && (Resident(m, q, u) ==> Entry(InstallTable(m, t, p, i), q, u) == Entry(m, q, u))
  {
    hide Tables, TablesDistinct, Bits, Stores, Clean;
    var m' := InstallTable(m, t, p, i);
    assert forall q :: Paging(m', q) <==> Paging(m, q);
    forall q | Paging(m', q)
      ensures DirAt(m', m'.procs[q].pd, q)
    {
      assert Paging(m, q) && DirAt(m, m.procs[q].pd, q);
    }
    assert Dirs(m');
    forall q, j | Paging(m', q) && Private(j) && PdeOf(m', q, j).pres
      ensures TabAt(m', PdeOf(m', q, j).base, q)
    {
      assert Paging(m, q) && DirAt(m, m.procs[q].pd, q);
      if q != p || j != i {
        assert PdeOf(m, q, j).pres && TabAt(m, PdeOf(m, q, j).base, q);
      }
    }
  }

  lemma InstallTableTables(m: Vm, t: nat, p: int, i: int)
    requires Core(m, -1) && IsFree(m, t) && Paging(m, p) && Private(i) && !PdeOf(m, p, i).pres
    ensures Shape(InstallTable(m, t, p, i)) && TablesDistinct(InstallTable(m, t, p, i))
    ensures Tables(InstallTable(m, t, p, i), t) && Bits(InstallTable(m, t, p, i))
  {
    hide Stores, Clean, Pages;
    InstallTableViews(m, t, p, i);
    var m' := InstallTable(m, t, p, i);
    assert PresentSet(m'.mem[t].ptes) == {};
    assert PdeOf(m', p, i) == Pde(true, t);
    forall u | PrivateTab(m', u)
      ensures Backed(m', u)
      ensures m'.mem[u].Tab? && m'.ipt[u].refCount == |PresentSet(m'.mem[u].ptes)|
      ensures u != t ==> m'.ipt[u].refCount >= 1
    {
      if u != t {
        assert PrivateTab(m, u) && Backed(m, u);
        var j :| Private(j) && PdeOf(m, m.ipt[u].pid, j) == Pde(true, u);
        assert PdeOf(m', m'.ipt[u].pid, j) == Pde(true, u);
      }
    }
  }

  /** The new table holds nothing yet; everything else is as before. */
  lemma InstallTableCore(m: Vm, t: nat, p: int, i: int)
    requires Core(m, -1) && IsFree(m, t) && Paging(m, p) && Private(i) && !PdeOf(m, p, i).pres
    ensures Core(InstallTable(m, t, p, i), t)
  {
    InstallTableTables(m, t, p, i);
    InstallTableViews(m, t, p, i);
    hide Tables, TablesDistinct, Bits;
    var m' := InstallTable(m, t, p, i);
    SameStores(m, m');
    forall g | 0 <= g < |m'.ipt| && m'.ipt[g].status == PageFrame
      ensures FrameMapped(m', g) && m'.mem[g] == m.mem[g]
      ensures Entry(m', m'.ipt[g].pid, m'.ipt[g].vpn) == Entry(m, m.ipt[g].pid, m.ipt[g].vpn)
    {
      assert FrameMapped(m, g);
    }
    forall q, u: int | PrivatePage(m', q, u) && Resident(m', q, u)
      ensures EntryHeld(m', q, u)
    {
      assert PrivatePage(m, q, u) && EntryHeld(m, q, u);
    }
  }

  lemma InstallTableFlat(m: Vm, t: nat, p: int, i: int, q: int, u: int)
    requires Core(m, -1) && IsFree(m, t) && Paging(m, p) && Private(i) && !PdeOf(m, p, i).pres
    requires HeapPage(m, q, u)
    ensures Core(InstallTable(m, t, p, i), t) && HeapPage(InstallTable(m, t, p, i), q, u)
    ensures Flat(InstallTable(m, t, p, i), q, u) == Flat(m, q, u)
  {
    hide Tables, TablesDistinct, Bits, Clean;
    InstallTableCore(m, t, p, i);
    InstallTableViews(m, t, p, i);
    HeapPageFacts(m, q, u);
    if Resident(m, q, u) {
      assert EntryHeld(m, q, u);
    } else {
      SameStores(m, InstallTable(m, t, p, i));
    }
  }

  // ---- a page -------------------------------------------------------------

  /** Frame `f` receives page `v` of `p` from its store and is entered in the table in frame `t`. */
  ghost function InstallPage(m: Vm, f: nat, t: nat, p: int, v: int): Vm
    requires Sizes(m) && Stores(m) && HeapPage(m, p, v) && f < |m.ipt|
    requires t < |m.ipt| && t != f && m.mem[t].Tab? && |m.mem[t].ptes| == PAGETABSIZE
  {
    var ipt := m.ipt[f := Frame(PageFrame, p, v, 0)];
    m.(ipt := ipt[t := ipt[t].(refCount := ipt[t].refCount + 1)],
       mem := m.mem[f := Data(Stored(m, p, v))]
                   [t := Tab(m.mem[t].ptes[Pti(v) := m.mem[t].ptes[Pti(v)].(pres := true, base := f)])])
  }

  ghost predicate Ready(m: Vm, f: nat, t: nat, p: int, v: int, x: int) {
    Core(m, x) && IsFree(m, f) && HeapPage(m, p, v) && Private(Pdi(v))
    && PdeOf(m, p, Pdi(v)) == Pde(true, t) && !Resident(m, p, v) && (x == t || x == -1)
  }

  lemma InstallPageViews(m: Vm, f: nat, t: nat, p: int, v: int, x: int)
    requires Ready(m, f, t, p, v, x)
    ensures TabAt(m, t, p) && t != f
    ensures Shape(InstallPage(m, f, t, p, v))
    ensures forall q, j | Paging(m, q) && Private(j) :: PdeOf(InstallPage(m, f, t, p, v), q, j) == PdeOf(m, q, j)
    ensures forall q, u: int | PrivatePage(m, q, u) && PdeOf(m, q, Pdi(u)).pres ::
              Entry(InstallPage(m, f, t, p, v), q, u)
              == if q == p && u == v then Entry(m, p, v).(pres := true, base := f) else Entry(m, q, u)
  {
    hide Tables, Bits, Stores, Clean, Pages;
    assert TabAt(m, t, p);
    var m' := InstallPage(m, f, t, p, v);
    assert forall q :: Paging(m', q) <==> Paging(m, q);
    forall q | Paging(m', q)
      ensures DirAt(m', m'.procs[q].pd, q) && m'.mem[m'.procs[q].pd] == m.mem[m.procs[q].pd]
    {
      assert Paging(m, q) && DirAt(m, m.procs[q].pd, q);
    }
    assert Dirs(m');
    assert forall q, j | Paging(m, q) && Private(j) :: PdeOf(m', q, j) == PdeOf(m, q, j);
    forall q, j | Paging(m', q) && Private(j) && PdeOf(m', q, j).pres
      ensures TabAt(m', PdeOf(m', q, j).base, q)
    {
      assert Paging(m, q) && PdeOf(m, q, j).pres && TabAt(m, PdeOf(m, q, j).base, q);
    }
    forall q, u: int | PrivatePage(m, q, u) && PdeOf(m, q, Pdi(u)).pres
      ensures Entry(m', q, u) == if q == p && u == v then Entry(m, p, v).(pres := true, base := f) else Entry(m, q, u)
    {
      var b := PdeOf(m, q, Pdi(u)).base;
      assert TabAt(m, b, q);
      if b == t {
        assert q == p && Pdi(u) == Pdi(v);
      }
    }
  }

  lemma InstallPageTables(m: Vm, f: nat, t: nat, p: int, v: int, x: int)
    requires Ready(m, f, t, p, v, x)
    ensures TabAt(m, t, p) && t != f
    ensures Shape(InstallPage(m, f, t, p, v)) && TablesDistinct(InstallPage(m, f, t, p, v))
    ensures Tables(InstallPage(m, f, t, p, v), -1) && Bits(InstallPage(m, f, t, p, v))
  {
    hide Stores, Clean, Pages;
    InstallPageViews(m, f, t, p, v, x);
    var m' := InstallPage(m, f, t, p, v);
    forall u | PrivateTab(m', u)
      ensures Backed(m', u)
      ensures m'.mem[u].Tab? && m'.ipt[u].refCount == |PresentSet(m'.mem[u].ptes)|
      ensures m'.ipt[u].refCount >= 1
      ensures forall j | 0 <= j < |m'.mem[u].ptes| :: EntryBits(m'.mem[u].ptes[j])
    {
      assert PrivateTab(m, u) && Backed(m, u);
      var j :| Private(j) && PdeOf(m, m.ipt[u].pid, j) == Pde(true, u);
      assert PdeOf(m', m'.ipt[u].pid, j) == Pde(true, u);
      if u == t {
        assert PresentSet(m'.mem[t].ptes) == PresentSet(m.mem[t].ptes) + {Pti(v)};
        assert Pti(v) !in PresentSet(m.mem[t].ptes);
      }
    }
  }

  /** Loading a page completes the picture: coherent again, and no process sees a difference. */
  lemma InstallPageCore(m: Vm, f: nat, t: nat, p: int, v: int, x: int)
    requires Ready(m, f, t, p, v, x)
    ensures TabAt(m, t, p) && t != f
    ensures Core(InstallPage(m, f, t, p, v), -1)
    ensures Resident(InstallPage(m, f, t, p, v), p, v)
  {
    hide Tables, TablesDistinct, Bits;
    InstallPageTables(m, f, t, p, v, x);
    InstallPageViews(m, f, t, p, v, x);
    var m' := InstallPage(m, f, t, p, v);
    SameStores(m, m');
    forall g | 0 <= g < |m'.ipt| && m'.ipt[g].status == PageFrame
      ensures FrameMapped(m', g)
      ensures g != f ==> m.ipt[g].status == PageFrame && m'.mem[g] == m.mem[g]
                         && Entry(m', m'.ipt[g].pid, m'.ipt[g].vpn) == Entry(m, m.ipt[g].pid, m.ipt[g].vpn)
    {
      if g != f {
        assert FrameMapped(m, g);
      }
    }
    forall q, u: int | PrivatePage(m', q, u) && Resident(m', q, u)
      ensures EntryHeld(m', q, u)
    {
      if (q, u) != (p, v) {
        assert PrivatePage(m, q, u) && EntryHeld(m, q, u);
      }
    }
  }

  lemma InstallPageFlat(m: Vm, f: nat, t: nat, p: int, v: int, x: int, q: int, u: int)
    requires Ready(m, f, t, p, v, x) && HeapPage(m, q, u)
    ensures TabAt(m, t, p) && t != f
    ensures Core(InstallPage(m, f, t, p, v), -1) && HeapPage(InstallPage(m, f, t, p, v), q, u)
    ensures Flat(InstallPage(m, f, t, p, v), q, u) == Flat(m, q, u)
  {
    hide Tables, TablesDistinct, Bits, Clean;
    InstallPageCore(m, f, t, p, v, x);
    InstallPageViews(m, f, t, p, v, x);
    HeapPageFacts(m, q, u);
    if Resident(m, q, u) {
      assert EntryHeld(m, q, u);
    } else {
      SameStores(m, InstallPage(m, f, t, p, v));
    }
  }
}
