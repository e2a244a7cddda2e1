/** The virtual heap's addresses are its process's pages. */
module HeapPages {
  import opened FreeList
  import opened HeapTheorems
  import opened HeapCode
  import B = BackingStore
  import P = PagingState

  /** The heap starts at its first page, both parts mean the same page size, and an address is inside the heap exactly when its page is a page of the process. */
  lemma InsideIsHeapPage(m: P.Vm, p: int, x: nat)
    requires P.Paging(m, p)
    ensures VHEAP_START == P.VPN0 * B.NBPG && HeapCode.NBPG == B.NBPG
    ensures VHEAP_START <= x < VHEAP_START + HeapCode.NBPG * m.procs[p].hsize <==> P.HeapPage(m, p, x / B.NBPG)
  {
  }

  /** In every run of vgetmem and vfreemem from the whole heap, each byte handed out, and each byte of the free list, is on a page of the process. */
  lemma HandedOutOnPages(m: P.Vm, p: int, es: seq<Event>, hs: seq<Heap>, k: nat, x: nat)
    requires P.Paging(m, p) && m.procs[p].hsize > 0
    requires Run(Heap([Blk(VHEAP_START, HeapCode.NBPG * m.procs[p].hsize)], {}), es, hs) && k < |hs|
    ensures P.HeapPage(m, p, x / B.NBPG) <==> Free(hs[k].free, x) || exists b :: b in hs[k].live && In(b, x)
  {
    var all := Blk(VHEAP_START, HeapCode.NBPG * m.procs[p].hsize);
    WholeHeap(m.procs[p].hsize);
    StartDivided(all);
    RunDivides(Heap([all], {}), es, hs, all);
    InsideIsHeapPage(m, p, x);
    assert Divided(hs[k], all);
    assert In(all, x) <==> VHEAP_START <= x < all.End();
  }
}
