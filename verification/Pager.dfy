/**
 The kernel's paging code as it runs: an inverted page table whose page frames are
 threaded on a doubly linked list, frames of memory, a process table, a store table
 and a disk, all changed in place. Each operation is proved against the function on
 values that the other paging modules reason about.
 */
module PagerCode {
  import opened BackingStore
  import opened PagingState
  import opened PagingEvict
  import opened PagingClock
  import opened PagingSelect
  import opened PagingInstall
  import opened PagingFault
  import opened PagingStores
  import opened PagingProcs

  const EMPTY := -1

  /** `next` and `prev` thread the frames of `fifo` in order, EMPTY at either end. */
  ghost predicate Threads(fifo: seq<nat>, next: seq<int>, prev: seq<int>) {
    |next| == |prev| && Distinct(fifo)
    && (forall i | 0 <= i < |fifo| :: fifo[i] < |next|)
    && (forall i | 0 <= i < |fifo| :: LinkedAt(fifo, next, prev, i))
  }

  ghost predicate LinkedAt(fifo: seq<nat>, next: seq<int>, prev: seq<int>, i: nat)
    requires |next| == |prev| && i < |fifo| && fifo[i] < |next|
  {
    next[fifo[i]] == (if i + 1 < |fifo| then fifo[i + 1] else EMPTY)
    && prev[fifo[i]] == (if i > 0 then fifo[i - 1] else EMPTY)
  }

  lemma Unlink(fifo: seq<nat>, next: seq<int>, prev: seq<int>, k: nat)
    requires Threads(fifo, next, prev) && k < |fifo|
    ensures Threads(fifo[..k] + fifo[k + 1..],
                    if k > 0 then next[fifo[k - 1] := next[fifo[k]]] else next,
                    if k + 1 < |fifo| then prev[fifo[k + 1] := prev[fifo[k]]] else prev)
  {
    var s := fifo[..k] + fifo[k + 1..];
    var n := if k > 0 then next[fifo[k - 1] := next[fifo[k]]] else next;
    var p := if k + 1 < |fifo| then prev[fifo[k + 1] := prev[fifo[k]]] else prev;
    assert LinkedAt(fifo, next, prev, k);
    forall i | 0 <= i < |s|
      ensures s[i] < |n| && LinkedAt(s, n, p, i)
    {
      var o := if i < k then i else i + 1;
      assert s[i] == fifo[o] && LinkedAt(fifo, next, prev, o);
    }
  }

  lemma LinkHead(fifo: seq<nat>, next: seq<int>, prev: seq<int>, f: nat)
    requires Threads(fifo, next, prev) && f < |next| && f !in fifo && next[f] == EMPTY && prev[f] == EMPTY
    ensures Threads([f] + fifo,
                    if fifo == [] then next else next[f := fifo[0]],
                    if fifo == [] then prev else prev[fifo[0] := f])
  {
    var s := [f] + fifo;
    var n := if fifo == [] then next else next[f := fifo[0]];
    var p := if fifo == [] then prev else prev[fifo[0] := f];
    forall i | 0 <= i < |s|
      ensures s[i] < |n| && LinkedAt(s, n, p, i)
    {
      if i > 0 {
        assert s[i] == fifo[i - 1] && LinkedAt(fifo, next, prev, i - 1);
      }
    }
  }

  /** Links of frames off the list do not matter. */
  lemma Unthreaded(fifo: seq<nat>, next: seq<int>, prev: seq<int>, f: nat)
    requires Threads(fifo, next, prev) && f < |next| && f !in fifo
    ensures Threads(fifo, next[f := EMPTY], prev[f := EMPTY])
  {
    var n, p := next[f := EMPTY], prev[f := EMPTY];
    forall i | 0 <= i < |fifo|
      ensures fifo[i] < |n| && LinkedAt(fifo, n, p, i)
    {
      assert fifo[i] in fifo && LinkedAt(fifo, next, prev, i);
    }
  }

  /** init_frame: the frame's new owner, and its place at the head of the list if it is a page under FIFO. */
  ghost function Initialised(m: Mach, fr: nat, status: Status, pid: int, vpn: int): Mach
    requires fr < |m.vm.ipt|
  {
    m.(vm := m.vm.(ipt := m.vm.ipt[fr := Frame(status, pid, vpn, 0)]),
       fifo := if status == PageFrame && m.policy == FIFO then [fr] + m.fifo else m.fifo)
  }

  /** An eviction seen before the frame's own record is overwritten. */
  ghost function Emptied(m: Vm, f: nat): Vm
    requires Shape(m) && Pages(m) && Stores(m) && IsPage(m, f)
  {
    Evict(m, f).(ipt := Evict(m, f).ipt[f := m.ipt[f]])
  }

  datatype UseModify = UM00 | UM10 | UM11

  class Pager {
    const policy: Policy
    const ipt: array<Frame>
    const nextFrame: array<int>
    const prevFrame: array<int>
    const gpt: seq<nat>
    const dpt: nat
    var mem: seq<Contents>
    var procs: seq<Proc>
    var bstab: seq<BsEntry>
    var disk: seq<Block>
    var flistHead: int
    var flistTail: int
    var nextframe: nat
    var freeBs: int
    ghost var fifo: seq<nat>

    ghost function View(): (m: Vm)
      reads this, ipt
    {
      Vm(ipt[..], mem, procs, bstab, freeBs, gpt, dpt, disk)
    }

    ghost function Model(): (m: Mach)
      reads this, ipt
    {
      Mach(View(), policy, fifo, nextframe)
    }

    /** The linked list through nextFrame and prevFrame is `fifo`, newest page at the head. */
    ghost predicate Listed()
      reads this`fifo, this`flistHead, this`flistTail, nextFrame, prevFrame
    {
      nextFrame != prevFrame && nextFrame.Length == ipt.Length
      && Threads(fifo, nextFrame[..], prevFrame[..])
      && (if fifo == [] then flistHead == EMPTY && flistTail == EMPTY
          else flistHead == fifo[0] && flistTail == fifo[|fifo| - 1])
    }

    /** Only page frames are on the list. */
    ghost predicate OnlyPages()
      reads this`fifo, ipt
    {
      forall f | f in fifo :: f < ipt.Length && ipt[f].status == PageFrame
    }

    /** freeFrameFIFO: unlink a frame from any position. */
    method FreeFrameFIFO(fr: nat, ghost k: nat)
      requires Listed() && k < |fifo| && fifo[k] == fr
      modifies this`flistHead, this`flistTail, this`fifo, nextFrame, prevFrame
      ensures Listed() && fifo == old(fifo[..k] + fifo[k + 1..])
    {
      Unlink(fifo, nextFrame[..], prevFrame[..], k);
      assert LinkedAt(fifo, nextFrame[..], prevFrame[..], k);
      var prev, next := prevFrame[fr], nextFrame[fr];
      if fr == flistHead && fr == flistTail {
        flistHead, flistTail := EMPTY, EMPTY;
      } else if fr == flistHead {
        prevFrame[next] := EMPTY;
        flistHead := next;
      } else if fr == flistTail {
        nextFrame[prev] := EMPTY;
        flistTail := prev;
      } else {
        nextFrame[prev] := next;
        prevFrame[next] := prev;
      }
      hide Threads;
      assert nextFrame[..] == if k > 0 then old(nextFrame[..])[prev := next] else old(nextFrame[..]);
      assert prevFrame[..] == if k + 1 < |fifo| then old(prevFrame[..])[next := prev] else old(prevFrame[..]);
      fifo := fifo[..k] + fifo[k + 1..];
    }

    /** init_frame_FIFO: link a frame in at the head. */
    method InitFrameFIFO(fr: nat)
      requires Listed() && fr < ipt.Length && fr !in fifo && nextFrame[fr] == EMPTY && prevFrame[fr] == EMPTY
      modifies this`flistHead, this`flistTail, this`fifo, nextFrame, prevFrame
      ensures Listed() && fifo == [fr] + old(fifo)
    {
      LinkHead(fifo, nextFrame[..], prevFrame[..], fr);
      assert fifo != [] ==> fifo[0] in fifo;
      if flistHead == EMPTY && flistTail == EMPTY {
        flistHead, flistTail := fr, fr;
      } else {
        nextFrame[fr] := flistHead;
        prevFrame[fr] := EMPTY;
        prevFrame[flistHead] := fr;
        flistHead := fr;
      }
      hide Threads;
      assert nextFrame[..] == if fifo == [] then old(nextFrame[..]) else old(nextFrame[..])[fr := fifo[0]];
      assert prevFrame[..] == if fifo == [] then old(prevFrame[..]) else old(prevFrame[..])[fifo[0] := fr];
      fifo := [fr] + fifo;
    }

    /** pickFrameFIFO: take the frame at the tail, or none. */
    method PickFrameFIFO() returns (fr: int)
      requires Listed()
      modifies this`flistHead, this`flistTail, this`fifo, nextFrame
      ensures Listed()
      ensures old(fifo) == [] ==> fr == -1 && fifo == []
      ensures old(fifo) != [] ==> fr == old(fifo[|fifo| - 1]) && fifo == old(fifo[..|fifo| - 1])
    {
      if flistTail == EMPTY && flistHead == EMPTY {
        return -1;
      }
      ghost var k := |fifo| - 1;
      Unlink(fifo, nextFrame[..], prevFrame[..], k);
      assert LinkedAt(fifo, nextFrame[..], prevFrame[..], k);
      assert fifo[..k] + fifo[k + 1..] == fifo[..k];
      if flistTail == flistHead {
        fr := flistTail;
        flistTail, flistHead := EMPTY, EMPTY;
      } else {
        fr := flistTail;
        flistTail := prevFrame[fr];
        nextFrame[flistTail] := EMPTY;
      }
      hide Threads;
      assert nextFrame[..] == if k > 0 then old(nextFrame[..])[flistTail := EMPTY] else old(nextFrame[..]);
      fifo := fifo[..k];
    }

    // ---- frame records ------------------------------------------------------

    /** clearFrame */
    method ClearFrame(fr: nat)
      requires Listed() && fr < ipt.Length && fr !in fifo
      modifies ipt, nextFrame, prevFrame
      ensures Listed() && ipt[..] == old(ipt[..])[fr := CLEAR_FRAME]
    {
      Unthreaded(fifo, nextFrame[..], prevFrame[..], fr);
      ipt[fr] := Frame(NotUsed, NO_PROCESS, NO_VPN, 0);
      nextFrame[fr] := EMPTY;
      prevFrame[fr] := EMPTY;
      hide Threads;
      assert nextFrame[..] == old(nextFrame[..])[fr := EMPTY];
      assert prevFrame[..] == old(prevFrame[..])[fr := EMPTY];
    }

    /** freeFrame: a page frame leaves the list under FIFO; any frame's record is cleared. */
    method FreeFrame(fr: nat)
      requires Listed() && fr < ipt.Length
      requires fr in fifo <==> policy == FIFO && ipt[fr].status == PageFrame
      modifies this`flistHead, this`flistTail, this`fifo, ipt, nextFrame, prevFrame
      ensures Listed() && ipt[..] == old(ipt[..])[fr := CLEAR_FRAME]
      ensures fr !in old(fifo) ==> fifo == old(fifo)
      ensures forall k | 0 <= k < |old(fifo)| && old(fifo)[k] == fr :: fifo == old(fifo)[..k] + old(fifo)[k + 1..]
    {
      if policy == FIFO && ipt[fr].status == PageFrame {
        ghost var k :| 0 <= k < |fifo| && fifo[k] == fr;
        FreeFrameFIFO(fr, k);
        assert fr !in fifo;
      }
      ClearFrame(fr);
    }

    /** init_frame */
    method InitFrame(fr: nat, status: Status, pid: int, vpn: int)
      requires Listed() && fr < ipt.Length && fr !in fifo
      modifies this`flistHead, this`flistTail, this`fifo, ipt, nextFrame, prevFrame
      ensures Listed() && Model() == Initialised(old(Model()), fr, status, pid, vpn)
    {
      Unthreaded(fifo, nextFrame[..], prevFrame[..], fr);
      ipt[fr] := Frame(status, pid, vpn, 0);
      nextFrame[fr] := EMPTY;
      prevFrame[fr] := EMPTY;
      assert nextFrame[..] == old(nextFrame[..])[fr := EMPTY];
      assert prevFrame[..] == old(prevFrame[..])[fr := EMPTY];
      if status == PageFrame && policy == FIFO {
        InitFrameFIFO(fr);
      }
    }

    // ---- the disk -----------------------------------------------------------

    /** write_bs: eight blocks, refused unless the store is open and long enough. */
    method WriteBs(src: Page, bs: int, page: nat) returns (ok: bool)
      requires DiskOk(disk) && |bstab| == MAX_BS_ENTRIES
      requires forall s | 0 <= s < |bstab| :: bstab[s].npages <= MAX_PAGES_PER_BS
      modifies this`disk
      ensures ok <==> 0 <= bs < MAX_BS_ENTRIES && bstab[bs].isopen && page < bstab[bs].npages
      ensures disk == if ok then WithPage(old(disk), bs, page, src) else old(disk)
    {
      if bs >= MAX_BS_ENTRIES || bs < 0 {
        return false;
      }
      if !bstab[bs].isopen || page >= bstab[bs].npages {
        return false;
      }
      var blk := FirstBlock(bs, page);
      var i := 0;
      while i < BLOCKS_PER_PAGE
        invariant 0 <= i <= BLOCKS_PER_PAGE
        invariant |disk| == |old(disk)|
        invariant forall b | 0 <= b < |disk| ::
                    disk[b] == if blk <= b < blk + i then WithPage(old(disk), bs, page, src)[b] else old(disk[b])
      {
        disk := disk[blk + i := src[i * RD_BLKSIZ..(i + 1) * RD_BLKSIZ]];
        i := i + 1;
      }
      assert disk == WithPage(old(disk), bs, page, src);
      return true;
    }

    /** read_bs: eight blocks into a page buffer, refused as write_bs refuses. */
    method ReadBs(bs: int, page: nat) returns (ok: bool, dst: Page)
      requires DiskOk(disk) && |bstab| == MAX_BS_ENTRIES
      requires forall s | 0 <= s < |bstab| :: bstab[s].npages <= MAX_PAGES_PER_BS
      ensures ok <==> 0 <= bs < MAX_BS_ENTRIES && bstab[bs].isopen && page < bstab[bs].npages
      ensures ok ==> dst == PageOn(disk, bs, page)
    {
      dst := seq(NBPG, _ => 0);
      if bs >= MAX_BS_ENTRIES || bs < 0 {
        return false, dst;
      }
      if !bstab[bs].isopen || page >= bstab[bs].npages {
        return false, dst;
      }
      var blk := FirstBlock(bs, page);
      var buf: seq<Byte> := [];
      var i := 0;
      while i < BLOCKS_PER_PAGE
        invariant 0 <= i <= BLOCKS_PER_PAGE
        invariant |buf| == i * RD_BLKSIZ
        invariant buf == PageOn(disk, bs, page)[..i * RD_BLKSIZ]
      {
        ghost var was := buf;
        buf := buf + disk[blk + i];
        assert forall k | i * RD_BLKSIZ <= k < (i + 1) * RD_BLKSIZ ::
                 buf[k] == disk[blk + i][k - i * RD_BLKSIZ] == PageOn(disk, bs, page)[k];
        i := i + 1;
      }
      dst := buf;
      assert dst == PageOn(disk, bs, page);
      return true, dst;
    }

    // ---- replacement --------------------------------------------------------

    /**
     getAndSetUM: the use and modify bits of the page in `fr`, ageing the entry unless it
     is clear. The state with pt_dirty but not pt_acc, a panic in the kernel, cannot occur.
     */
    method GetAndSetUM(fr: nat, ghost x: int) returns (bits: UseModify)
      requires Core(View(), x) && IsPage(View(), fr)
      modifies this`mem
      ensures bits == UM00 <==> Clear(EntryOf(old(View()), fr))
      ensures bits == UM00 ==> View() == old(View())
      ensures bits != UM00 ==> View() == Age(old(View()), fr, x)
    {
      ghost var m := View();
      AgedIsBitChange(m, fr, x);
      assert FrameMapped(m, fr);
      hide Tables, TablesDistinct, Bits, Stores, Clean;
      var vpn, pid := ipt[fr].vpn, ipt[fr].pid;
      var d := procs[pid].pd;
      var pdi, pti := Pdi(vpn), Pti(vpn);
      var t := mem[d].pdes[pdi].base;
      var e := mem[t].ptes[pti];
      if e.acc && e.dirty {
        mem := mem[t := Tab(mem[t].ptes[pti := e.(dirty := false, avail := true)])];
        bits := UM11;
      } else if e.acc && !e.dirty {
        mem := mem[t := Tab(mem[t].ptes[pti := e.(acc := false)])];
        bits := UM10;
      } else {
        bits := UM00;
      }
    }

    /** decRefCount: the table in frame `t`, entry `pdi` of directory `d`, loses a page. */
    method DecRefCount(t: nat, d: nat, pdi: nat)
      requires Listed() && t < ipt.Length && ipt[t].status == PTab && t !in fifo
      requires d < |mem| && mem[d].Dir? && pdi < |mem[d].pdes|
      modifies this`flistHead, this`flistTail, this`fifo, this`mem, ipt, nextFrame, prevFrame
      ensures Listed() && fifo == old(fifo)
      ensures old(ipt[t].refCount) > 1 ==>
                ipt[..] == old(ipt[..])[t := old(ipt[t]).(refCount := old(ipt[t].refCount) - 1)] && mem == old(mem)
      ensures old(ipt[t].refCount) <= 1 ==>
                ipt[..] == old(ipt[..])[t := CLEAR_FRAME]
                && mem == old(mem)[d := Dir(old(mem[d]).pdes[pdi := old(mem[d]).pdes[pdi].(pres := false)])]
    {
      ipt[t] := ipt[t].(refCount := ipt[t].refCount - 1);
      if ipt[t].refCount <= 0 {
        FreeFrame(t);
        mem := mem[d := Dir(mem[d].pdes[pdi := mem[d].pdes[pdi].(pres := false)])];
      }
    }

    /** The end of evictFrame: write the page back if it was ever written, and forget that it was. */
    method WriteBack(fr: nat, t: nat, pti: nat, bsd: int, off: nat)
      requires fr < |mem| && mem[fr].Data? && t < |mem| && t != fr && mem[t].Tab? && pti < |mem[t].ptes|
      requires DiskOk(disk) && |bstab| == MAX_BS_ENTRIES
      requires forall s | 0 <= s < |bstab| :: bstab[s].npages <= MAX_PAGES_PER_BS
      requires 0 <= bsd < MAX_BS_ENTRIES && bstab[bsd].isopen && off < bstab[bsd].npages
      modifies this`mem, this`disk
      ensures var e := old(mem[t]).ptes[pti];
              mem == old(mem)[t := Tab(old(mem[t]).ptes[pti := e.(dirty := false, avail := false)])]
              && disk == (if e.dirty || e.avail then WithPage(old(disk), bsd, off, old(mem[fr]).page) else old(disk))
    {
      var e := mem[t].ptes[pti];
      assert Tab(mem[t].ptes[pti := e]) == mem[t];
      if e.dirty || e.avail {
        var ok := WriteBs(mem[fr].page, bsd, off);
        mem := mem[t := Tab(mem[t].ptes[pti := e.(dirty := false, avail := false)])];
      } else {
        assert e.(dirty := false, avail := false) == e;
      }
    }

    /** evictFrame */
    method EvictFrame(fr: nat, ghost x: int)
      requires Core(View(), x) && IsPage(View(), fr) && Listed()
      requires OnlyPages()
      modifies this`flistHead, this`flistTail, this`fifo, this`mem, this`disk, ipt, nextFrame, prevFrame
      ensures Listed() && fifo == old(fifo) && View() == Emptied(old(View()), fr)
    {
      ghost var m := View();
      ghost var p, v, d', t' := EvictFacts(m, fr, x);
      hide Core, Listed, Emptied;
      var vpn, pid := ipt[fr].vpn, ipt[fr].pid;
      var d := procs[pid].pd;
      var t := mem[d].pdes[Pdi(vpn)].base;
      assert t == t' && d == d' && pid == p && vpn == v;
      EvictEntry(fr, d, t, vpn, procs[pid].pbsd[StoreIndex(vpn)]);
      EvictMatches(m, fr, x, p, v, d, t, View());
    }

    // ---- obtaining a frame --------------------------------------------------

    /** getNewFrameFIFO's search of all slots for an unused frame. */
    method FindFree() returns (fr: int)
      requires ipt.Length > 0
      modifies this`nextframe
      ensures (fr, nextframe) == FreeScan(ipt[..], old(nextframe), ipt.Length)
    {
      ghost var frames, start := ipt[..], nextframe;
      var i := 0;
      while i < ipt.Length
        invariant 0 <= i <= ipt.Length
        invariant FreeScan(frames, nextframe, ipt.Length - i) == FreeScan(frames, start, ipt.Length)
      {
        nextframe := nextframe % ipt.Length;
        if ipt[nextframe].status == NotUsed {
          fr := nextframe;
          nextframe := nextframe + 1;
          return;
        } else {
          nextframe := nextframe + 1;
        }
        i := i + 1;
      }
      fr := -1;
    }

    /** getNewFrameFIFO */
    method GetNewFrameFIFO(status: Status, pid: int, vpn: int, ghost x: int) returns (fr: int)
      requires policy == FIFO && Core(View(), x) && Queue(Model()) && Listed() && ipt.Length > 0
      modifies this`flistHead, this`flistTail, this`fifo, this`mem, this`disk, this`nextframe, ipt, nextFrame, prevFrame
      ensures Listed() && fr == Select(old(Model()), x).fr
      ensures Model() == Obtained(old(Model()), x, status, pid, vpn)
    {
      hide Core, Listed, Queue, Evict, FreeScan, Select, Initialised;
      ghost var m := Model();
      FifoCases(m, x);
      fr := FindFree();
      if fr >= 0 {
        InitFrame(fr, status, pid, vpn);
        return;
      }
      fr := PickFrameFIFO();
      if fr == -1 {
        return;
      }
      Replace(fr, status, pid, vpn, x);
    }

    /** getNewFrameGCA's loop: at most 3 * NFRAMES + 1 probes of the clock hand. */
    method SweepClock(ghost x: int) returns (fr: int)
      requires Core(View(), x) && ipt.Length > 0
      modifies this`mem, this`nextframe
      ensures Probe(View(), nextframe, fr) == Clock(old(View()), old(nextframe), 3 * ipt.Length + 1, x)
    {
      hide Core, Age, EntryOf, Clear;
      ghost var m, start := View(), nextframe;
      ghost var probes := 3 * ipt.Length + 1;
      var i := 0;
      while i <= 3 * ipt.Length
        invariant 0 <= i <= probes
        invariant Core(View(), x)
        invariant Clock(View(), nextframe, probes - i, x) == Clock(m, start, probes, x)
      {
        nextframe := nextframe % ipt.Length;
        if ipt[nextframe].status == NotUsed {
          fr := nextframe;
          nextframe := nextframe + 1;
          return;
        } else if ipt[nextframe].status == PageFrame {
          var bits := GetAndSetUM(nextframe, x);
          if bits == UM00 {
            fr := nextframe;
            nextframe := nextframe + 1;
            return;
          }
        }
        nextframe := nextframe + 1;
        i := i + 1;
      }
      fr := -1;
    }

    /** getNewFrameGCA. With no frame free and none holding a page the kernel would go on to evict frame -1. */
    method GetNewFrameGCA(status: Status, pid: int, vpn: int, ghost x: int) returns (fr: int)
      requires policy == GCA && Core(View(), x) && Queue(Model()) && Listed() && ipt.Length > 0
      requires SomeFrame(View())
      modifies this`flistHead, this`flistTail, this`fifo, this`mem, this`disk, this`nextframe, ipt, nextFrame, prevFrame
      ensures Listed() && fr == Select(old(Model()), x).fr && fr >= 0
      ensures Model() == Obtained(old(Model()), x, status, pid, vpn)
    {
      hide Core, Listed, Queue, Evict, Clock, Select, Initialised, SomeFrame;
      ghost var m := Model();
      GcaCases(m, x);
      fr := SweepClock(x);
      if ipt[fr].status == NotUsed {
        InitFrame(fr, status, pid, vpn);
        return;
      }
      Replace(fr, status, pid, vpn, x);
    }

    /** getNewFrame */
    method GetNewFrame(status: Status, pid: int, vpn: int, ghost x: int) returns (fr: int)
      requires Core(View(), x) && Queue(Model()) && Listed() && ipt.Length > 0
      requires policy == GCA ==> SomeFrame(View())
      modifies this`flistHead, this`flistTail, this`fifo, this`mem, this`disk, this`nextframe, ipt, nextFrame, prevFrame
      ensures Listed() && fr == Select(old(Model()), x).fr
      ensures Model() == Obtained(old(Model()), x, status, pid, vpn)
    {
      hide Core, Listed, Queue, Select, Obtained;
      if policy == FIFO {
        fr := GetNewFrameFIFO(status, pid, vpn, x);
      } else {
        fr := GetNewFrameGCA(status, pid, vpn, x);
      }
    }

    /** evictFrame and init_frame, as getNewFrame ends when no frame was free. */
    method Replace(fr: nat, status: Status, pid: int, vpn: int, ghost x: int)
      requires Core(View(), x) && IsPage(View(), fr) && Listed() && OnlyPages() && fr !in fifo
      modifies this`flistHead, this`flistTail, this`fifo, this`mem, this`disk, ipt, nextFrame, prevFrame
      ensures Listed() && |Evict(old(View()), fr).ipt| == ipt.Length
      ensures Model() == Initialised(old(Model()).(vm := Evict(old(View()), fr)), fr, status, pid, vpn)
    {
      ghost var m := Model();
      InitHidesRecord(m, fr, status, pid, vpn, x);
      hide Core, Listed, Evict, Emptied;
      EvictFrame(fr, x);
      InitFrame(fr, status, pid, vpn);
    }

    // ---- the fault handler --------------------------------------------------

    /** The second half of pf_handler: frame, contents, reference count, entry. */
    method LoadInto(t: nat, p: int, v: int, ghost x: int)
      requires Core(View(), x) && Queue(Model()) && Listed() && HeapPage(View(), p, v) && TabAt(View(), t, p)
      requires LoadPage(Model(), t, p, v, x).Done?
      modifies this`flistHead, this`flistTail, this`fifo, this`mem, this`disk, this`nextframe, ipt, nextFrame, prevFrame
      ensures Listed() && Model() == LoadPage(old(Model()), t, p, v, x).m
    {
      hide Core, Queue, Select, Listed, LoadPage, SomeFrame, Stored, Stores;
      ghost var m := Model();
      LoadFacts(m, t, p, v, x);
      var fr := GetNewFrame(PageFrame, p, v, x);
      ghost var s := Select(m, x).m;
      var bsd, off := procs[p].pbsd[StoreIndex(v)], StoreOffset(v);
      var ok, page := ReadBs(bsd, off);
      mem := mem[fr := Data(page)];
      ipt[t] := ipt[t].(refCount := ipt[t].refCount + 1);
      var pti := Pti(v);
      mem := mem[t := Tab(mem[t].ptes[pti := mem[t].ptes[pti].(pres := true, base := fr)])];
      assert View() == InstallPage(s.vm, fr, t, p, v);
    }

    /** newPageTable: a frame whose entries are all absent. */
    method NewPageTable(p: int) returns (t: int)
      requires Core(View(), -1) && Queue(Model()) && Listed() && ipt.Length > 0 && |mem| == ipt.Length
      requires policy == GCA ==> SomeFrame(View())
      modifies this`flistHead, this`flistTail, this`fifo, this`mem, this`disk, this`nextframe, ipt, nextFrame, prevFrame
      ensures Listed() && t == Select(old(Model()), -1).fr
      ensures t < 0 ==> Model() == Select(old(Model()), -1).m
      ensures t >= 0 ==> var m := Obtained(old(Model()), -1, PTab, p, NO_VPN);
                t < |m.vm.mem| && Model() == m.(vm := m.vm.(mem := m.vm.mem[t := Tab(seq(PAGETABSIZE, _ => CLEAR_PTE))]))
    {
      hide Core, Queue, Select, Listed, SomeFrame;
      ghost var m := Model();
      SelectSizes(m, -1);
      t := GetNewFrame(PTab, p, NO_VPN, -1);
      if t < 0 {
        return;
      }
      var ptes: seq<Pte> := [];
      var i := 0;
      while i < PAGETABSIZE
        invariant 0 <= i <= PAGETABSIZE
        invariant ptes == seq(i, _ => CLEAR_PTE)
      {
        ptes := ptes + [Pte(false, false, false, false, 0)];
        i := i + 1;
      }
      mem := mem[t := Tab(ptes)];
    }

    /** pf_handler for an address on heap page `v` of process `p`. */
    method PfHandler(p: int, v: int)
      requires Faulting(Model(), p, v) && Fault(Model(), p, v).Done? && Listed()
      modifies this`flistHead, this`flistTail, this`fifo, this`mem, this`disk, this`nextframe, ipt, nextFrame, prevFrame
      ensures Listed() && Model() == Fault(old(Model()), p, v).m
    {
      ghost var m := Model();
      FaultPath(m, p, v);
      hide Core, Queue, Select, Listed, LoadPage, SomeFrame, Faulting;
      var d := procs[p].pd;
      var pdi := Pdi(v);
      var t := mem[d].pdes[pdi].base;
      ghost var x := -1;
      if !mem[d].pdes[pdi].pres {
        var t' := NewPageTable(p);
        t := t';
        mem := mem[d := Dir(mem[d].pdes[pdi := Pde(true, t)])];
        x := t;
        assert Model() == WithTable(m, p, v);
      }
      LoadInto(t, p, v, x);
    }

    // ---- backing stores -----------------------------------------------------

    /** get_bs */
    method GetBs(s: int, npages: int) returns (ok: bool)
      requires |bstab| == MAX_BS_ENTRIES
      modifies this`bstab
      ensures ok <==> 0 <= s < MAX_BS_ENTRIES && 1 <= npages <= MAX_PAGES_PER_BS && !old(bstab)[s].isopen
      ensures bstab == if ok then old(bstab)[s := old(bstab)[s].(isopen := true, npages := npages)] else old(bstab)
    {
      if s >= MAX_BS_ENTRIES || s < 0 || npages == 0 || npages > MAX_PAGES_PER_BS || npages < 0 {
        return false;
      }
      if bstab[s].isopen {
        return false;
      }
      bstab := bstab[s := bstab[s].(isopen := true, npages := npages)];
      return true;
    }

    /** allocate_bs: the first store free, or none, also when the size is one that get_bs refuses */
    method AllocateBs(npages: int) returns (s: int)
      requires |bstab| == MAX_BS_ENTRIES
      modifies this`bstab
      ensures s == if 1 <= npages <= MAX_PAGES_PER_BS then FirstFree(old(bstab), 0) else -1
      ensures bstab == if s < 0 then old(bstab) else old(bstab)[s := BsEntry(true, true, 0, npages)]
    {
      var i := 0;
      while i < MAX_BS_ENTRIES
        invariant 0 <= i <= MAX_BS_ENTRIES
        invariant bstab == old(bstab)
        invariant 1 <= npages <= MAX_PAGES_PER_BS ==> FirstFree(bstab, i) == FirstFree(bstab, 0)
      {
        if !bstab[i].isallocated {
          var ok := GetBs(i, npages);
          if ok {
            bstab := bstab[i := bstab[i].(isallocated := true, usecount := 0)];
            return i;
          }
        }
        i := i + 1;
      }
      return -1;
    }

    /** bs_init's allocation loop, on the list of stores `prbsd` of a process. */
    method BsInit(hsize: nat) returns (pbsd: seq<int>)
      requires |bstab| == MAX_BS_ENTRIES && NumStores(hsize) <= MAX_BS_ENTRIES
      modifies this`bstab, this`freeBs
      ensures Ledger(bstab, freeBs, pbsd) == Fill(Ledger(old(bstab), old(freeBs), seq(MAX_BS_ENTRIES, _ => 0)), 0, hsize)
    {
      pbsd := seq(MAX_BS_ENTRIES, _ => 0);
      ghost var l := Ledger(bstab, freeBs, pbsd);
      var remain: int := hsize;
      var i := 0;
      while remain > 0
        invariant |bstab| == |pbsd| == MAX_BS_ENTRIES && 0 <= i && i + NumStores(if remain < 0 then 0 else remain) <= MAX_BS_ENTRIES
        invariant Fill(Ledger(bstab, freeBs, pbsd), i, remain) == Fill(l, 0, hsize)
        decreases remain
      {
        var req := Min(remain, MAX_PAGES_PER_BS);
        var s := AllocateBs(req);
        pbsd := pbsd[i := s];
        freeBs := freeBs - 1;
        remain := remain - MAX_PAGES_PER_BS;
        i := i + 1;
      }
    }

    /** deallocate_bs with release_bs */
    method DeallocateBs(s: int)
      requires |bstab| == MAX_BS_ENTRIES
      modifies this`bstab
      ensures var b := old(bstab);
              bstab == if 0 <= s < MAX_BS_ENTRIES && b[s].isallocated && b[s].usecount <= 0
                       then b[s := BsEntry(false, false, 0, if b[s].isopen then 0 else b[s].npages)] else b
      ensures TableOk(old(bstab)) ==> bstab == Deallocated(old(bstab), s)
    {
      if s >= MAX_BS_ENTRIES || s < 0 {
        return;
      }
      if !bstab[s].isallocated {
        return;
      }
      if bstab[s].usecount > 0 {
        return;
      }
      if bstab[s].isopen {
        bstab := bstab[s := bstab[s].(isopen := false, npages := 0)];
      }
      bstab := bstab[s := bstab[s].(isallocated := false, usecount := 0)];
    }

    /** freeProcBS */
    method FreeProcBS(p: nat)
      requires TableOk(bstab) && p < |procs| && |procs[p].pbsd| == MAX_BS_ENTRIES && NumStores(procs[p].hsize) <= MAX_BS_ENTRIES
      modifies this`bstab, this`freeBs
      ensures Ledger(bstab, freeBs, procs[p].pbsd)
              == Release(Ledger(old(bstab), old(freeBs), procs[p].pbsd), 0, procs[p].hsize)
    {
      ghost var l := Ledger(bstab, freeBs, procs[p].pbsd);
      var remain: int := procs[p].hsize;
      var i := 0;
      while remain > 0
        invariant TableOk(bstab) && 0 <= i && i + NumStores(if remain < 0 then 0 else remain) <= MAX_BS_ENTRIES
        invariant Release(Ledger(bstab, freeBs, procs[p].pbsd), i, remain) == Release(l, 0, procs[p].hsize)
        decreases remain
      {
        DeallocateBs(procs[p].pbsd[i]);
        freeBs := freeBs + 1;
        remain := remain - MAX_PAGES_PER_BS;
        i := i + 1;
      }
    }

    /** count_bs: the counter the kernel keeps is the number of stores not allocated. */
    method CountBs() returns (freebs: int)
      requires Sizes(View()) && Stores(View())
      ensures freebs == freeBs
    {
      freebs := 0;
      var i := 0;
      while i < MAX_BS_ENTRIES
        invariant 0 <= i <= MAX_BS_ENTRIES
        invariant freebs == |FreeStores(bstab[..i])|
      {
        ghost var was := FreeStores(bstab[..i]);
        if !bstab[i].isallocated {
          freebs := freebs + 1;
          assert FreeStores(bstab[..i + 1]) == was + {i};
        } else {
          assert FreeStores(bstab[..i + 1]) == was;
        }
        i := i + 1;
      }
      assert bstab[..MAX_BS_ENTRIES] == bstab;
    }

    // ---- creating and killing -----------------------------------------------

    /** init_pd's loops: a directory with the shared tables and nothing private. */
    method FillDirectory() returns (pdes: seq<Pde>)
      requires |gpt| == NUM_GLOBAL_PT
      ensures pdes == NewDir(gpt, dpt)
    {
      pdes := [];
      var j := 0;
      while j < PAGEDIRSIZE
        invariant 0 <= j <= PAGEDIRSIZE
        invariant pdes == seq(j, _ => Pde(false, 0))
      {
        pdes := pdes + [Pde(false, 0)];
        j := j + 1;
      }
      j := 0;
      while j < NUM_GLOBAL_PT
        invariant 0 <= j <= NUM_GLOBAL_PT && |pdes| == PAGEDIRSIZE
        invariant forall i | 0 <= i < PAGEDIRSIZE :: pdes[i] == if i < j then Pde(true, gpt[i]) else Pde(false, 0)
      {
        pdes := pdes[j := Pde(true, gpt[j])];
        j := j + 1;
      }
      pdes := pdes[DEV_MEM_PD_INDEX := Pde(true, dpt)];
    }

    /** vcreate's paging part for the free slot `p`; false if it is refused. */
    method VirtualCreate(p: nat, hsize: nat) returns (ok: bool)
      requires Inv(Model()) && Listed() && ipt.Length > 0 && p < |procs| && !procs[p].live && |gpt| == NUM_GLOBAL_PT
      requires !VCreate(Model(), p, hsize).Crashed?
      modifies this`flistHead, this`flistTail, this`fifo, this`mem, this`disk, this`nextframe, this`bstab, this`freeBs, this`procs
      modifies ipt, nextFrame, prevFrame
      ensures Listed()
      ensures VCreate(old(Model()), p, hsize) == if ok then Started(Model()) else Refused(Model())
    {
      hide Core, Queue, Select, Listed, SomeFrame;
      ghost var m := Model();
      var bsReq := if hsize == 0 then 0 else 1 + (hsize - 1) / MAX_PAGES_PER_BS;
      if bsReq > freeBs {
        return false;
      }
      CreatePath(m, p, hsize);
      var d := GetNewFrame(PDir, p, NO_VPN, -1);
      if d < 0 {
        return false;
      }
      procs := procs[p := procs[p].(pd := d)];
      var pdes := FillDirectory();
      mem := mem[d := Dir(pdes)];
      var pbsd := BsInit(hsize);
      procs := procs[p := procs[p].(pbsd := pbsd, hsize := hsize, vheap := true)];
      procs := procs[p := procs[p].(live := true)];
      assert View() == Created(Select(m, -1).m.vm, d, p, hsize);
      return true;
    }

    /** freeProcFrames for a process with a virtual heap. */
    method FreeProcFrames(p: nat)
      requires Queue(Model()) && Listed()
      modifies this`flistHead, this`flistTail, this`fifo, ipt, nextFrame, prevFrame
      ensures Listed() && ipt.Length == |old(ipt[..])|
      ensures forall f | 0 <= f < ipt.Length :: ipt[f] == if old(ipt[f]).pid == p then CLEAR_FRAME else old(ipt[f])
      ensures fifo == if policy == FIFO then Survivors(old(ipt[..]), old(fifo), p) else old(fifo)
    {
      hide Queue, Listed, Keep, Survivors, Distinct;
      ghost var m, frames, list := Model(), ipt[..], fifo;
      var i := 0;
      KeepNone(frames, list, p);
      while i < ipt.Length
        invariant 0 <= i <= ipt.Length && Listed()
        invariant forall f | 0 <= f < ipt.Length ::
                    ipt[f] == if f < i && frames[f].pid == p then CLEAR_FRAME else frames[f]
        invariant fifo == Keep(frames, list, p, i)
      {
        KeepFrees(m, p, i);
        if ipt[i].pid == p {
          FreeFrame(i);
        }
        i := i + 1;
      }
      KeepAll(frames, list, p);
      if policy == GCA {
        NoList(m, p);
      }
    }

    /** kill's paging part: frames, then stores, then the slot. */
    method KillProcess(p: nat)
      requires Inv(Model()) && Listed() && p < |procs| && procs[p].live
      modifies this`flistHead, this`flistTail, this`fifo, this`bstab, this`freeBs, this`procs, ipt, nextFrame, prevFrame
      ensures Listed() && Model() == Kill(old(Model()), p)
    {
      ghost var m := Model();
      KillPath(m, p);
      hide Core, Queue, Listed;
      if procs[p].vheap {
        FreeProcFrames(p);
        FreeProcBS(p);
      }
      procs := procs[p := procs[p].(live := false)];
      if m.vm.procs[p].vheap {
        assert ipt[..] == Killed(m.vm, p).ipt;
      }
    }

    /** pf_handler from its address check on: an address beyond the heap kills the process. */
    method HandleFault(p: nat, a: nat)
      requires Inv(Model()) && Listed() && Paging(View(), p) && a >= VPN0 * NBPG
      requires a < (VPN0 + procs[p].hsize) * NBPG ==>
                 Faulting(Model(), p, a / NBPG) && Fault(Model(), p, a / NBPG).Done?
      modifies this`flistHead, this`flistTail, this`fifo, this`mem, this`disk, this`nextframe, this`bstab, this`freeBs, this`procs
      modifies ipt, nextFrame, prevFrame
      ensures Listed()
      ensures Model() == if HeapPage(old(View()), p, a / NBPG) then Fault(old(Model()), p, a / NBPG).m else Kill(old(Model()), p)
    {
      hide Inv, Faulting, Fault, Kill, Listed;
      var vheapEnd := VPN0 * NBPG + NBPG * procs[p].hsize;
      if a >= vheapEnd {
        KillProcess(p);
      } else {
        PfHandler(p, a / NBPG);
      }
    }

    /** The writes of evictFrame, once it has found directory `d` and table `t`. */
    method EvictEntry(fr: nat, d: nat, t: nat, vpn: nat, bsd: int)
      requires Listed() && OnlyPages() && |mem| == ipt.Length && fr < |mem| && d < |mem| && t < |mem|
      requires ipt[t].status == PTab && mem[d].Dir? && mem[t].Tab? && mem[fr].Data?
      requires |mem[d].pdes| == PAGEDIRSIZE && Pdi(vpn) < PAGEDIRSIZE && |mem[t].ptes| == PAGETABSIZE && VPN0 <= vpn
      requires DiskOk(disk) && |bstab| == MAX_BS_ENTRIES
      requires forall s | 0 <= s < |bstab| :: bstab[s].npages <= MAX_PAGES_PER_BS
      requires 0 <= bsd < MAX_BS_ENTRIES && bstab[bsd].isopen && StoreOffset(vpn) < bstab[bsd].npages
      modifies this`flistHead, this`flistTail, this`fifo, this`mem, this`disk, ipt, nextFrame, prevFrame
      ensures Listed() && fifo == old(fifo)
      ensures View() == EntryGone(old(View()), fr, d, t, vpn, bsd)
    {
      hide Listed;
      var pdi, pti := Pdi(vpn), Pti(vpn);
      ghost var mem0, e := mem, mem[t].ptes[pti];
      mem := mem[t := Tab(mem[t].ptes[pti := mem[t].ptes[pti].(pres := false)])];
      DecRefCount(t, d, pdi);
      ghost var mem2 := mem;
      assert mem2[t].ptes[pti] == e.(pres := false) && mem2[fr] == mem0[fr];
      WriteBack(fr, t, pti, bsd, StoreOffset(vpn));
      LastWriteWins(mem0, t, pti, e.(pres := false), Pte(false, e.acc, false, false, e.base), d, mem2, pdi);
    }
  }

  /** A frame obtained: selected, then given to its new owner. */
  ghost function Obtained(m: Mach, x: int, status: Status, pid: int, vpn: int): Mach
    requires Core(m.vm, x) && Queue(m) && |m.vm.ipt| > 0
  {
    SelectKeeps(m, x);
    var s := Select(m, x);
    if s.fr < 0 then s.m else Initialised(s.m, s.fr, status, pid, vpn)
  }

  /** The three ways a FIFO search ends. */
  lemma FifoCases(m: Mach, x: int)
    requires Core(m.vm, x) && Queue(m) && |m.vm.ipt| > 0 && m.policy == FIFO
    ensures var r := FreeScan(m.vm.ipt, m.nextframe, |m.vm.ipt|);
            r.0 < |m.vm.ipt|
            && (r.0 >= 0 ==> Select(m, x) == Selected(m.(nextframe := r.1), r.0) && r.0 !in m.fifo)
            && (r.0 < 0 && m.fifo == [] ==> Select(m, x) == Selected(m.(nextframe := r.1), -1))
            && (r.0 < 0 && m.fifo != [] ==>
                  var f, rest := m.fifo[|m.fifo| - 1], m.fifo[..|m.fifo| - 1];
                  IsPage(m.vm, f) && f !in rest
                  && (forall g | g in rest :: g < |m.vm.ipt| && m.vm.ipt[g].status == PageFrame)
                  && Select(m, x) == Selected(m.(vm := Evict(m.vm, f), fifo := rest, nextframe := r.1), f))
  {
    FreeScanStops(m.vm.ipt, m.nextframe, |m.vm.ipt|);
    hide Core, Evict, FreeScan;
    if m.fifo != [] {
      var f, rest := m.fifo[|m.fifo| - 1], m.fifo[..|m.fifo| - 1];
      assert m.fifo == rest + [f];
      assert f in m.fifo && forall g | g in rest :: g in m.fifo;
    }
  }

  /** The two ways a clock search ends when there is a frame to find. */
  lemma GcaCases(m: Mach, x: int)
    requires Core(m.vm, x) && Queue(m) && |m.vm.ipt| > 0 && m.policy == GCA && SomeFrame(m.vm)
    ensures var r := Clock(m.vm, m.nextframe, 3 * |m.vm.ipt| + 1, x);
            0 <= r.fr < |m.vm.ipt| && Core(r.vm, x) && r.vm == m.vm.(mem := r.vm.mem) && m.fifo == []
            && (IsFree(m.vm, r.fr) || IsPage(m.vm, r.fr))
            && (IsFree(m.vm, r.fr) ==> Select(m, x) == Selected(m.(vm := r.vm, nextframe := r.hand), r.fr))
            && (IsPage(r.vm, r.fr) ==> Select(m, x) == Selected(m.(vm := Evict(r.vm, r.fr), nextframe := r.hand), r.fr))
  {
    hide Shape, Tables, TablesDistinct, Pages, Bits, Stores, Clean, Evict, Clock;
    ClockStops(m.vm, m.nextframe, 3 * |m.vm.ipt| + 1, x);
    ClockBound(m.vm, m.nextframe, x);
  }

  /** What the second half of a fault relies on once it has a frame. */
  lemma LoadFacts(m: Mach, t: nat, p: int, v: int, x: int)
    requires Core(m.vm, x) && Queue(m) && HeapPage(m.vm, p, v) && TabAt(m.vm, t, p)
    requires LoadPage(m, t, p, v, x).Done?
    ensures |m.vm.ipt| > 0 && SomeFrame(m.vm)
    ensures var s := Select(m, x);
            0 <= s.fr < |m.vm.ipt| && s.fr != t && Core(s.m.vm, x) && s.m.policy == m.policy
            && Sizes(s.m.vm) && Stores(s.m.vm) && HeapPage(s.m.vm, p, v) && |s.m.vm.ipt| == |m.vm.ipt|
            && s.m.vm.mem[t].Tab? && |s.m.vm.mem[t].ptes| == PAGETABSIZE
            && s.m.vm.procs == m.vm.procs && s.m.vm.bstab == m.vm.bstab
            && LoadPage(m, t, p, v, x) == Done(s.m.(vm := InstallPage(s.m.vm, s.fr, t, p, v),
                 fifo := if m.policy == FIFO then [s.fr] + s.m.fifo else s.m.fifo))
            && 0 <= StoreIndex(v) < MAX_BS_ENTRIES && 0 <= StoreOffset(v)
            && var bsd := m.vm.procs[p].pbsd[StoreIndex(v)];
               0 <= bsd < MAX_BS_ENTRIES && m.vm.bstab[bsd].isopen && StoreOffset(v) < m.vm.bstab[bsd].npages
               && (forall r | 0 <= r < MAX_BS_ENTRIES :: m.vm.bstab[r].npages <= MAX_PAGES_PER_BS)
               && Stored(s.m.vm, p, v) == PageOn(s.m.vm.disk, bsd, StoreOffset(v))
  {
    HeapPageFacts(m.vm, p, v);
    assert HeldOk(m.vm, p, StoreIndex(v));
    hide Tables, TablesDistinct, Pages, Bits, Clean, Select, Queue;
    SelectFinds(m, x);
    SelectKeeps(m, x);
    SelectKeepsTab(m, x, t, p);
  }

  lemma SelectSizes(m: Mach, x: int)
    requires Core(m.vm, x) && Queue(m) && |m.vm.ipt| > 0
    ensures |Select(m, x).m.vm.mem| == |Select(m, x).m.vm.ipt| == |m.vm.ipt| && Select(m, x).fr < |m.vm.ipt|
  {
    hide Tables, TablesDistinct, Pages, Bits, Stores, Clean, Queue, Select;
    SelectKeeps(m, x);
  }

  /** What the fault handler relies on on either side of creating a table. */
  lemma FaultPath(m: Mach, p: int, v: int)
    requires Faulting(m, p, v) && Fault(m, p, v).Done?
    ensures Core(m.vm, -1) && Queue(m) && |m.vm.ipt| > 0 && |m.vm.mem| == |m.vm.ipt|
    ensures 0 <= p < |m.vm.procs| && 0 <= v && Private(Pdi(v))
    ensures var d := m.vm.procs[p].pd;
            d < |m.vm.mem| && m.vm.mem[d].Dir? && |m.vm.mem[d].pdes| == PAGEDIRSIZE
            && var e := m.vm.mem[d].pdes[Pdi(v)];
            (e.pres ==> HeapPage(m.vm, p, v) && TabAt(m.vm, e.base, p) && Fault(m, p, v) == LoadPage(m, e.base, p, v, -1))
            && (!e.pres ==>
                  var s := Select(m, -1);
                  SomeFrame(m.vm) && 0 <= s.fr < |m.vm.ipt| && !PdeOf(m.vm, p, Pdi(v)).pres
                  && s.m.vm.procs == m.vm.procs && |s.m.vm.mem| == |m.vm.mem| == |s.m.vm.ipt|
                  && s.fr != d && s.m.vm.mem[d].Dir? && |s.m.vm.mem[d].pdes| == PAGEDIRSIZE
                  && var m1 := WithTable(m, p, v);
                  m1 == s.m.(vm := s.m.vm.(ipt := s.m.vm.ipt[s.fr := Frame(PTab, p, NO_VPN, 0)],
                    mem := s.m.vm.mem[s.fr := Tab(seq(PAGETABSIZE, _ => CLEAR_PTE))]
                                     [d := Dir(s.m.vm.mem[d].pdes[Pdi(v) := Pde(true, s.fr)])]))
                  && Core(m1.vm, s.fr) && Queue(m1) && HeapPage(m1.vm, p, v) && TabAt(m1.vm, s.fr, p)
                  && Fault(m, p, v) == LoadPage(m1, s.fr, p, v, s.fr))
  {
    hide Tables, TablesDistinct, Pages, Bits, Stores, Clean, Queue, Select, LoadPage;
    assert DirAt(m.vm, m.vm.procs[p].pd, p);
    if PdeOf(m.vm, p, Pdi(v)).pres {
      assert TabAt(m.vm, PdeOf(m.vm, p, Pdi(v)).base, p);
    } else {
      SelectFinds(m, -1);
      SelectKeeps(m, -1);
      NewTableReady(m, p, v);
      WithTableKeeps(m, p, v);
      assert DirAt(Select(m, -1).m.vm, m.vm.procs[p].pd, p);
    }
  }

  lemma CreatePath(m: Mach, p: int, hsize: nat)
    requires Inv(m) && |m.vm.ipt| > 0 && 0 <= p < |m.vm.procs| && !m.vm.procs[p].live
    requires !VCreate(m, p, hsize).Crashed? && NumStores(hsize) <= m.vm.freeBs
    ensures m.policy == GCA ==> SomeFrame(m.vm)
    ensures m.vm.freeBs <= MAX_BS_ENTRIES && |m.vm.bstab| == MAX_BS_ENTRIES
    ensures var s := Select(m, -1);
            s.m.vm.procs == m.vm.procs && s.m.vm.bstab == m.vm.bstab && s.m.vm.freeBs == m.vm.freeBs
            && s.m.vm.gpt == m.vm.gpt && s.m.vm.dpt == m.vm.dpt && s.m.policy == m.policy
            && |s.m.vm.mem| == |s.m.vm.ipt| == |m.vm.ipt| && s.fr < |m.vm.ipt|
            && Sizes(s.m.vm) && Stores(s.m.vm) && Creatable(s.m.vm, p, hsize)
            && VCreate(m, p, hsize)
               == if s.fr >= 0 then Started(s.m.(vm := Created(s.m.vm, s.fr, p, hsize))) else Refused(s.m)
  {
    hide Tables, TablesDistinct, Pages, Bits, Clean, Queue, Select;
    FreeBound(m.vm);
    SelectKeeps(m, -1);
    SelectFinds(m, -1);
  }

  lemma KillPath(m: Mach, p: nat)
    requires Inv(m) && p < |m.vm.procs| && m.vm.procs[p].live
    ensures TableOk(m.vm.bstab) && |m.vm.procs[p].pbsd| == MAX_BS_ENTRIES
    ensures m.vm.procs[p].vheap ==> Queue(m) && NumStores(m.vm.procs[p].hsize) <= MAX_BS_ENTRIES
  {
    hide Tables, TablesDistinct, Pages, Bits, Clean;
    if m.vm.procs[p].vheap {
      OwnStores(m.vm, p);
    }
  }

  // ---- removing a process's frames from the list, one by one ----------------

  /** The list without the frames of `p` among the first `n`. */
  ghost function Keep(ipt: seq<Frame>, fifo: seq<nat>, p: int, n: nat): seq<nat> {
    if fifo == [] then []
    else if fifo[0] < n && fifo[0] < |ipt| && ipt[fifo[0]].pid == p then Keep(ipt, fifo[1..], p, n)
    else [fifo[0]] + Keep(ipt, fifo[1..], p, n)
  }

  lemma {:induction false} KeepNone(ipt: seq<Frame>, fifo: seq<nat>, p: int)
    ensures Keep(ipt, fifo, p, 0) == fifo
  {
    if fifo != [] {
      KeepNone(ipt, fifo[1..], p);
    }
  }

  lemma {:induction false} KeepAll(ipt: seq<Frame>, fifo: seq<nat>, p: int)
    ensures Keep(ipt, fifo, p, |ipt|) == Survivors(ipt, fifo, p)
  {
    if fifo != [] {
      KeepAll(ipt, fifo[1..], p);
    }
  }

  lemma {:induction false} KeepMember(ipt: seq<Frame>, fifo: seq<nat>, p: int, n: nat)
    ensures forall f | f >= n :: f in Keep(ipt, fifo, p, n) <==> f in fifo
  {
    if fifo != [] {
      KeepMember(ipt, fifo[1..], p, n);
      assert fifo == [fifo[0]] + fifo[1..];
    }
  }

  lemma ConsCut(x: nat, s: seq<nat>, t: seq<nat>, k: nat)
    requires 0 < k <= |s| && t == s[..k - 1] + s[k..]
    ensures [x] + t == ([x] + s)[..k] + ([x] + s)[k + 1..]
  {
  }

  /** Moving past frame `n` removes it, from wherever it is, exactly if it belongs to `p`. */
  lemma {:induction false} KeepStep(ipt: seq<Frame>, fifo: seq<nat>, p: int, n: nat)
    requires n < |ipt| && Distinct(fifo)
    ensures var k0, k1 := Keep(ipt, fifo, p, n), Keep(ipt, fifo, p, n + 1);
            if ipt[n].pid == p && n in fifo
            then forall k | 0 <= k < |k0| && k0[k] == n :: k1 == k0[..k] + k0[k + 1..]
            else k1 == k0
  {
    if fifo != [] {
      KeepStep(ipt, fifo[1..], p, n);
      KeepMember(ipt, fifo[1..], p, n);
      assert fifo == [fifo[0]] + fifo[1..];
      assert fifo[0] !in fifo[1..];
      var k0, k1 := Keep(ipt, fifo, p, n), Keep(ipt, fifo, p, n + 1);
      if ipt[n].pid == p && n in fifo && fifo[0] != n {
        var t0, t1 := Keep(ipt, fifo[1..], p, n), Keep(ipt, fifo[1..], p, n + 1);
        forall k | 0 <= k < |k0| && k0[k] == n
          ensures k1 == k0[..k] + k0[k + 1..]
        {
          if !(fifo[0] < n && ipt[fifo[0]].pid == p) {
            assert t0[k - 1] == n;
            ConsCut(fifo[0], t0, t1, k);
          }
        }
      } else if ipt[n].pid == p && n in fifo {
        KeepPastAbsent(ipt, fifo[1..], p, n);
        assert k1 == k0[1..];
        forall k | 0 < k < |k0|
          ensures k0[k] != n
        {
          assert k0[k] in k0[1..];
        }
      }
    }
  }

  /** Freeing frame `n` if it belongs to `p` brings the list from one stage to the next. */
  lemma KeepFrees(m: Mach, p: int, n: nat)
    requires Queue(m) && n < |m.vm.ipt|
    ensures var k0, k1 := Keep(m.vm.ipt, m.fifo, p, n), Keep(m.vm.ipt, m.fifo, p, n + 1);
            (n in k0 <==> m.policy == FIFO && m.vm.ipt[n].status == PageFrame)
            && (m.vm.ipt[n].pid != p || n !in k0 ==> k1 == k0)
            && (m.vm.ipt[n].pid == p && n in k0 ==>
                  exists k :: 0 <= k < |k0| && k0[k] == n && k1 == k0[..k] + k0[k + 1..])
  {
    KeepMember(m.vm.ipt, m.fifo, p, n);
    KeepStep(m.vm.ipt, m.fifo, p, n);
    hide Keep;
  }

  lemma NoList(m: Mach, p: int)
    requires Queue(m) && m.policy == GCA
    ensures Survivors(m.vm.ipt, m.fifo, p) == m.fifo
  {
  }

  lemma {:induction false} KeepPastAbsent(ipt: seq<Frame>, fifo: seq<nat>, p: int, n: nat)
    requires n !in fifo
    ensures Keep(ipt, fifo, p, n + 1) == Keep(ipt, fifo, p, n)
  {
    if fifo != [] {
      assert fifo[0] in fifo && forall f | f in fifo[1..] :: f in fifo;
      KeepPastAbsent(ipt, fifo[1..], p, n);
    }
  }

  lemma InitHidesRecord(m: Mach, f: nat, status: Status, pid: int, vpn: int, x: int)
    requires Core(m.vm, x) && IsPage(m.vm, f)
    ensures |Emptied(m.vm, f).ipt| == |m.vm.ipt| == |Evict(m.vm, f).ipt|
    ensures Initialised(m.(vm := Emptied(m.vm, f)), f, status, pid, vpn)
            == Initialised(m.(vm := Evict(m.vm, f)), f, status, pid, vpn)
  {
    EvictStatuses(m.vm, f, x);
    hide Core, Evict;
  }

  /** Writing an entry twice around a change to the directory leaves the second entry and the change. */
  lemma LastWriteWins(mem: seq<Contents>, t: nat, pti: nat, e1: Pte, e2: Pte, d: nat, mem2: seq<Contents>, pdi: nat)
    requires t < |mem| && d < |mem| && mem[t].Tab? && mem[d].Dir? && pti < |mem[t].ptes| && pdi < |mem[d].pdes|
    requires var mem1 := mem[t := Tab(mem[t].ptes[pti := e1])];
             mem2 == mem1 || mem2 == mem1[d := Dir(mem1[d].pdes[pdi := mem1[d].pdes[pdi].(pres := false)])]
    ensures var mem1 := mem[t := Tab(mem[t].ptes[pti := e1])];
            var tab := mem[t := Tab(mem[t].ptes[pti := e2])];
            mem2[t].Tab? && |mem2[t].ptes| == |mem[t].ptes|
            && mem2[t := Tab(mem2[t].ptes[pti := e2])]
               == if mem2 == mem1 then tab else tab[d := Dir(mem[d].pdes[pdi := mem[d].pdes[pdi].(pres := false)])]
  {
    assert mem[t].ptes[pti := e1][pti := e2] == mem[t].ptes[pti := e2];
  }

  /** The eviction of the page in `f`, given where its entry and its store are. */
  ghost function EntryGone(m: Vm, f: nat, d: nat, t: nat, v: nat, bsd: int): Vm
    requires |m.mem| == |m.ipt| && f < |m.mem| && d < |m.mem| && t < |m.mem| && m.mem[d].Dir? && m.mem[t].Tab? && m.mem[f].Data?
    requires |m.mem[d].pdes| == PAGEDIRSIZE && Pdi(v) < PAGEDIRSIZE && |m.mem[t].ptes| == PAGETABSIZE && VPN0 <= v
    requires DiskOk(m.disk) && SlotOk(bsd, StoreOffset(v))
  {
    var e := m.mem[t].ptes[Pti(v)];
    var gone := m.ipt[t].refCount <= 1;
    var tab := m.mem[t := Tab(m.mem[t].ptes[Pti(v) := Pte(false, e.acc, false, false, e.base)])];
    m.(ipt := m.ipt[t := if gone then CLEAR_FRAME else m.ipt[t].(refCount := m.ipt[t].refCount - 1)],
       mem := if gone then tab[d := Dir(m.mem[d].pdes[Pdi(v) := m.mem[d].pdes[Pdi(v)].(pres := false)])] else tab,
       disk := if e.dirty || e.avail then WithPage(m.disk, bsd, StoreOffset(v), m.mem[f].page) else m.disk)
  }

  /** The way from a page frame to its directory, table and entry, and the store behind it. */
  ghost predicate EvictPath(m: Vm, f: nat, p: int, v: int, d: nat, t: nat) {
    |m.mem| == |m.ipt| && DiskOk(m.disk) && |m.bstab| == MAX_BS_ENTRIES
    && IsPage(m, f) && m.mem[f].Data? && p == m.ipt[f].pid && v == m.ipt[f].vpn
    && 0 <= p < |m.procs| && VPN0 <= v && d == m.procs[p].pd && |m.procs[p].pbsd| == MAX_BS_ENTRIES
    && d < |m.ipt| && m.ipt[d].status == PDir && m.mem[d].Dir? && |m.mem[d].pdes| == PAGEDIRSIZE && Pdi(v) < PAGEDIRSIZE
    && m.mem[d].pdes[Pdi(v)] == Pde(true, t)
    && t < |m.ipt| && m.ipt[t].status == PTab && m.mem[t].Tab? && |m.mem[t].ptes| == PAGETABSIZE
    && 0 <= StoreIndex(v) < MAX_BS_ENTRIES && 0 <= StoreOffset(v)
    && (forall r | 0 <= r < MAX_BS_ENTRIES :: m.bstab[r].npages <= MAX_PAGES_PER_BS)
    && var s := m.procs[p].pbsd[StoreIndex(v)];
    0 <= s < MAX_BS_ENTRIES && m.bstab[s].isopen && StoreOffset(v) < m.bstab[s].npages
  }

  lemma EvictFacts(m: Vm, f: nat, x: int) returns (p: int, v: int, d: nat, t: nat)
    requires Core(m, x) && IsPage(m, f)
    ensures EvictPath(m, f, p, v, d, t)
  {
    assert FrameMapped(m, f);
    p, v := m.ipt[f].pid, m.ipt[f].vpn;
    HeapPageFacts(m, p, v);
    assert HeldOk(m, p, StoreIndex(v));
    hide Tables, TablesDistinct, Bits, Clean, Pages;
    d, t := m.procs[p].pd, TableOf(m, f);
  }

  lemma EvictMatches(m: Vm, f: nat, x: int, p: int, v: int, d: nat, t: nat, m': Vm)
    requires Core(m, x) && EvictPath(m, f, p, v, d, t)
    requires m' == EntryGone(m, f, d, t, v, m.procs[p].pbsd[StoreIndex(v)])
    ensures m' == Emptied(m, f)
  {
    assert FrameMapped(m, f);
    hide Tables, TablesDistinct, Bits, Clean, Pages, Stores;
  }
}
