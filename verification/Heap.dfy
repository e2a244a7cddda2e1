/**
 getmem, getstk and freemem as they run: the headers of the list live in the free
 memory itself and are rewritten in place. The per-process virtual heap runs the same
 code on its own list.
 */
module HeapCode {
  import opened FreeList
  import opened HeapTheorems

  const NULL: nat := 0
  const SYSERR := -1
  const WORD := 0x1_0000_0000
  const NBPG := 4096
  const VHEAP_START := 0x0100_0000

  datatype MemBlk = MemBlk(mnext: nat, mlength: nat)

  /** roundmb on a 32-bit word: up to a multiple of 8, wrapping to 0 near the top. */
  function RoundMb(n: nat): (r: nat)
    ensures r % UNIT == 0
    ensures 0 < n <= WORD - UNIT ==> n <= r < n + UNIT
    ensures WORD - UNIT < n < WORD ==> r == 0
  {
    (n + 7) % WORD / UNIT * UNIT
  }

  /** The address of block `i`, NULL past the end. */
  function AddrAt(s: seq<Blk>, i: nat): nat {
    if i < |s| then s[i].addr else NULL
  }

  ghost predicate Headed(mem: map<nat, MemBlk>, s: seq<Blk>) {
    forall i | 0 <= i < |s| :: HeaderAt(mem, s, i)
  }

  ghost predicate HeaderAt(mem: map<nat, MemBlk>, s: seq<Blk>, i: nat)
    requires i < |s|
  {
    s[i].addr in mem && mem[s[i].addr] == MemBlk(AddrAt(s, i + 1), s[i].len)
  }

  /** Distinct blocks have distinct headers. */
  lemma HeadersDiffer(s: seq<Blk>, i: nat, j: nat)
    requires Canonical(s) && i < |s| && j < |s| && i != j
    ensures s[i].addr != s[j].addr
  {
    if i < j {
      assert s[i].End() < s[j].addr;
    } else {
      assert s[j].End() < s[i].addr;
    }
  }

  class Arena {
    var mem: map<nat, MemBlk>
    var mnext: nat
    var mlength: nat
    var minheap: nat
    var maxheap: nat
    ghost var list: seq<Blk>

    constructor (minheap: nat, maxheap: nat)
      ensures Valid() && this.minheap == minheap && this.maxheap == maxheap && list == []
    {
      mem, mnext, mlength := map[], NULL, 0;
      this.minheap, this.maxheap, list := minheap, maxheap, [];
    }

    ghost predicate Valid()
      reads this
    {
      Canonical(list) && Headed(mem, list) && mnext == AddrAt(list, 0) && mlength == Total(list)
    }

    /** prev->mnext = v, where a null prev stands for the list head. */
    method SetNext(prev: nat, v: nat)
      requires prev != NULL ==> prev in mem
      modifies this`mem, this`mnext
      ensures prev == NULL ==> mnext == v && mem == old(mem)
      ensures prev != NULL ==> mnext == old(mnext) && mem == old(mem)[prev := old(mem)[prev].(mnext := v)]
    {
      if prev == NULL {
        mnext := v;
      } else {
        mem := mem[prev := mem[prev].(mnext := v)];
      }
    }

    ghost predicate At(i: nat, prev: nat, curr: nat)
      reads this
    {
      i <= |list| && curr == AddrAt(list, i) && prev == if i == 0 then NULL else list[i - 1].addr
    }

    /** Unlink a block that fits exactly. */
    method TakeWhole(prev: nat, curr: nat, ghost i: nat)
      requires Valid() && At(i, prev, curr) && curr != NULL
      modifies this`mem, this`mnext, this`mlength, this`list
      ensures Valid() && list == old(list)[..i] + old(list)[i + 1..]
    {
      hide Canonical, Headed, Total;
      Headers(mem, list, i);
      CarveLowKeeps(list, i, list[i].len);
      CutHeaders(mem, list, i);
      mlength := mlength - mem[curr].mlength;
      SetNext(prev, mem[curr].mnext);
      list := list[..i] + list[i + 1..];
    }

    /** Split a larger block: the low part is taken, a header is written for the rest. */
    method TakeLow(prev: nat, curr: nat, n: nat, ghost i: nat)
      requires Valid() && At(i, prev, curr) && curr != NULL && n < list[i].len && n % UNIT == 0
      modifies this`mem, this`mnext, this`mlength, this`list
      ensures Valid() && list == old(list)[i := Blk(old(list)[i].addr + n, old(list)[i].len - n)]
    {
      hide Canonical, Headed, Total;
      Headers(mem, list, i);
      CarveLowKeeps(list, i, n);
      ShrinkHeaders(mem, list, i, n);
      var leftover, next, len := curr + n, mem[curr].mnext, mem[curr].mlength;
      SetNext(prev, leftover);
      mem := mem[leftover := MemBlk(next, len - n)];
      mlength := mlength - n;
      list := list[i := Blk(list[i].addr + n, list[i].len - n)];
    }

    /** getmem's walk to the first block that is large enough. */
    method FindFirst(n: nat) returns (prev: nat, curr: nat, ghost i: nat)
      requires Valid()
      ensures i <= |list| && At(i, prev, curr) && FirstFit(list, n, 0) == if curr == NULL then -1 else i
      ensures curr != NULL ==> i < |list| && HeaderAt(mem, list, i) && list[i].len >= n
    {
      hide Canonical, Headed, Total, FirstFit;
      prev, curr, i := NULL, mnext, 0;
      while curr != NULL
        invariant At(i, prev, curr)
        invariant FirstFit(list, n, i) == FirstFit(list, n, 0)
        decreases |list| - i
      {
        Headers(mem, list, i);
        FitStep(list, n, i);
        if mem[curr].mlength >= n {
          return;
        }
        prev := curr;
        curr := mem[curr].mnext;
        i := i + 1;
      }
      HeadersEnd(list, i);
      NoneFits(list, n);
    }

    /** getmem, for a rounded size */
    method TakeFirst(n: nat) returns (r: int)
      requires Valid() && n % UNIT == 0
      modifies this`mem, this`mnext, this`mlength, this`list
      ensures Valid()
      ensures var i := FirstFit(old(list), n, 0);
              if i < 0 then r == SYSERR && list == old(list)
              else r == old(list)[i].addr && list == CarveLow(old(list), i, n)
    {
      hide Canonical, Headed, Total, FirstFit;
      var prev, curr, i := FindFirst(n);
      if curr == NULL {
        return SYSERR;
      }
      if mem[curr].mlength == n {
        TakeWhole(prev, curr, i);
      } else {
        TakeLow(prev, curr, n, i);
      }
      return curr;
    }

    /** getmem */
    method GetMem(nbytes: nat) returns (r: int)
      requires Valid()
      modifies this`mem, this`mnext, this`mlength, this`list
      ensures Valid()
      ensures nbytes == 0 ==> r == SYSERR && list == old(list)
      ensures nbytes > 0 ==>
                var n := RoundMb(nbytes); var i := FirstFit(old(list), n, 0);
                if i < 0 then r == SYSERR && list == old(list)
                else r == old(list)[i].addr && list == CarveLow(old(list), i, n)
    {
      if nbytes == 0 {
        return SYSERR;
      }
      r := TakeFirst(RoundMb(nbytes));
    }

    /** Shrink a larger block from the top. */
    method TakeHigh(curr: nat, n: nat, ghost i: nat)
      requires Valid() && i < |list| && curr == list[i].addr && n < list[i].len && n % UNIT == 0
      modifies this`mem, this`mlength, this`list
      ensures Valid() && list == old(list)[i := Blk(old(list)[i].addr, old(list)[i].len - n)]
      ensures curr in mem && mem[curr].mlength == old(list)[i].len - n
    {
      hide Canonical, Headed, Total;
      Headers(mem, list, i);
      CarveHighKeeps(list, i, n);
      TrimHeaders(mem, list, i, n);
      mem := mem[curr := mem[curr].(mlength := mem[curr].mlength - n)];
      mlength := mlength - n;
      list := list[i := Blk(list[i].addr, list[i].len - n)];
    }

    /** getstk's scan of the entire list for the highest block that fits. */
    method FindLast(n: nat) returns (fits: nat, fitsprev: nat, ghost best: int)
      requires Valid()
      ensures best == LastFit(list, n, |list|)
      ensures if best < 0 then fits == NULL else best < |list| && fits != NULL && At(best, fitsprev, fits)
    {
      hide Canonical, Headed, Total, LastFit;
      var prev: nat, curr: nat := NULL, mnext;
      fits, fitsprev, best := NULL, NULL, -1;
      ghost var i := 0;
      NoFit(list, n);
      while curr != NULL
        invariant At(i, prev, curr)
        invariant best == LastFit(list, n, i)
        invariant if best < 0 then fits == NULL else best < |list| && fits != NULL && At(best, fitsprev, fits)
        decreases |list| - i
      {
        Headers(mem, list, i);
        LastFitStep(list, n, i);
        if mem[curr].mlength >= n {
          fits, fitsprev := curr, prev;
          best := i;
        }
        prev := curr;
        curr := mem[curr].mnext;
        i := i + 1;
      }
      HeadersEnd(list, i);
    }

    /** getstk, for a rounded size */
    method TakeLast(n: nat) returns (r: int)
      requires Valid() && n % UNIT == 0
      modifies this`mem, this`mnext, this`mlength, this`list
      ensures Valid()
      ensures var i := LastFit(old(list), n, |old(list)|);
              if i < 0 then r == SYSERR && list == old(list)
              else r == old(list)[i].End() - 4 && list == CarveHigh(old(list), i, n)
    {
      hide Canonical, Headed, Total, LastFit;
      var fits, fitsprev, best := FindLast(n);
      if fits == NULL {
        return SYSERR;
      }
      Headers(mem, list, best);
      if n == mem[fits].mlength {
        TakeWhole(fitsprev, fits, best);
        r := fits + n - 4;
      } else {
        TakeHigh(fits, n, best);
        r := fits + mem[fits].mlength + n - 4;
      }
    }

    /** getstk: the highest block that fits, its top part; the address of its highest word. */
    method GetStk(nbytes: nat) returns (r: int)
      requires Valid()
      modifies this`mem, this`mnext, this`mlength, this`list
      ensures Valid()
      ensures nbytes == 0 ==> r == SYSERR && list == old(list)
      ensures nbytes > 0 ==>
                var n := RoundMb(nbytes); var i := LastFit(old(list), n, |old(list)|);
                if i < 0 then r == SYSERR && list == old(list)
                else r == old(list)[i].End() - 4 && list == CarveHigh(old(list), i, n)
    {
      if nbytes == 0 {
        return SYSERR;
      }
      r := TakeLast(RoundMb(nbytes));
    }

    /** Write a new header and point the one below at it. */
    method LinkIn(prev: nat, next: nat, b: Blk, ghost k: nat)
      requires Ascending(list) && Headed(mem, list) && mnext == AddrAt(list, 0) && At(k, prev, next) && (k > 0 ==> prev != NULL)
      requires Ascending(list[..k] + [b] + list[k..])
      modifies this`mem, this`mnext
      ensures var t := list[..k] + [b] + list[k..]; Headed(mem, t) && mnext == AddrAt(t, 0)
    {
      hide Headed, Ascending;
      LinkHeaders(mem, list, k, b);
      mem := mem[b.addr := MemBlk(next, b.len)];
      SetNext(prev, b.addr);
    }

    /** The block below grows. */
    method ExtendBelow(prev: nat, n: nat, ghost k: nat)
      requires 0 < k <= |list| && prev == list[k - 1].addr && Ascending(list) && Headed(mem, list) && mnext == AddrAt(list, 0)
      modifies this`mem
      ensures var t := list[k - 1 := Blk(list[k - 1].addr, list[k - 1].len + n)]; Headed(mem, t) && mnext == AddrAt(t, 0)
    {
      hide Headed, Ascending;
      HeadedAt(mem, list, k - 1);
      LengthHeaders(mem, list, k - 1, mem[prev].mlength + n);
      mem := mem[prev := mem[prev].(mlength := mem[prev].mlength + n)];
    }

    /** freemem's first write: extend the block below, or link a new one in. */
    method PutIn(prev: nat, next: nat, block: nat, n: nat, ghost k: nat) returns (joined: nat)
      requires Valid() && At(k, prev, next) && Block(Blk(block, n)) && Fits(list, k, Blk(block, n))
      modifies this`mem, this`mnext
      ensures var b := Blk(block, n); var t := PutList(list, k, b); var j := Below(list, k, b);
              Ascending(t) && Headed(mem, t) && mnext == AddrAt(t, 0) && j < |t| && joined == t[j].addr
    {
      hide Canonical, Headed, Total, Fits, Ascending, Block;
      ghost var b := Blk(block, n);
      FitsAscending(list, k, b);
      BlockFacts(b);
      if k > 0 {
        Headers(mem, list, k - 1);
      }
      var top := if prev == NULL then 0 else prev + mem[prev].mlength;
      if top == block {
        ExtendBelow(prev, n, k);
        joined := prev;
      } else {
        LinkIn(prev, next, Blk(block, n), k);
        joined := block;
      }
    }

    /** freemem's second write: absorb the block above if it touches. */
    method Absorb(joined: nat, next: nat, ghost t: seq<Blk>, ghost j: nat)
      requires Ascending(t) && Headed(mem, t) && mnext == AddrAt(t, 0) && j < |t| && joined == t[j].addr
      requires next == AddrAt(t, j + 1) && t[j].End() > 0
      modifies this`mem
      ensures Headed(mem, Merged(t, j)) && mnext == AddrAt(Merged(t, j), 0)
    {
      assert HeaderAt(mem, t, j) && (j + 1 < |t| ==> HeaderAt(mem, t, j + 1));
      hide Headed, Ascending;
      if joined + mem[joined].mlength == next {
        AbsorbHeaders(mem, t, j);
        mem := mem[joined := MemBlk(mem[next].mnext, mem[joined].mlength + mem[next].mlength)];
      }
    }

    /** Both writes and the new total. */
    method Insert(prev: nat, next: nat, block: nat, n: nat, ghost k: nat)
      requires Valid() && At(k, prev, next) && Block(Blk(block, n)) && Fits(list, k, Blk(block, n)) && k == Where(list, block, 0)
      modifies this`mem, this`mnext, this`mlength, this`list
      ensures Valid() && list == Joined(old(list), k, Blk(block, n))
    {
      ghost var b := Blk(block, n);
      assert b.addr > 0 && !Clashes(list, k, b);
      hide Canonical, Headed, Total, Where, Joined, Block, Fits, Ascending, PutList, Merged, Clashes, Low;
      ReleaseKeeps(list, b);
      PutThenMerge(list, k, b);
      ghost var t := PutList(list, k, b);
      var joined := PutIn(prev, next, block, n, k);
      mlength := mlength + n;
      Absorb(joined, next, t, Below(list, k, b));
      list := Joined(list, k, b);
    }

    /** freemem on a rounded size: refuse a block that runs into free memory, else put it in and join it up. */
    method Return(block: nat, n: nat) returns (ok: bool)
      requires Valid() && Block(Blk(block, n))
      modifies this`mem, this`mnext, this`mlength, this`list
      ensures Valid()
      ensures match Release(old(list), Blk(block, n))
              case None => !ok && list == old(list)
              case Some(t) => ok && list == t
    {
      hide Canonical, Headed, Total, Where, Joined, Block, Fits;
      var prev, next, k := FindPlace(block);
      var top := if prev == NULL then 0 else prev + mem[prev].mlength;
      if (prev != NULL && block < top) || (next != NULL && block + n > next) {
        return false;
      }
      FitsHere(list, Blk(block, n));
      Insert(prev, next, block, n, k);
      return true;
    }

    /** freemem */
    method FreeMem(block: nat, nbytes: nat) returns (ok: bool)
      requires Valid() && block % UNIT == 0 && minheap > 0
      requires nbytes <= WORD - UNIT && block + RoundMb(nbytes) < WORD
      modifies this`mem, this`mnext, this`mlength, this`list
      ensures Valid()
      ensures nbytes == 0 || block < minheap || block > maxheap ==> !ok && list == old(list)
      ensures nbytes > 0 && minheap <= block <= maxheap ==>
                match Release(old(list), Blk(block, RoundMb(nbytes)))
                case None => !ok && list == old(list)
                case Some(t) => ok && list == t
    {
      if nbytes == 0 || block < minheap || block > maxheap {
        return false;
      }
      ok := Return(block, RoundMb(nbytes));
    }

    /** freestk: the address getstk returned is the block's highest word. */
    method FreeStk(p: nat, len: nat) returns (ok: bool)
      requires Valid() && minheap > 0 && 0 < len <= WORD - UNIT && p + 4 >= RoundMb(len) + minheap && p + 4 < WORD
      requires (p + 4 - RoundMb(len)) % UNIT == 0 && p + 4 - RoundMb(len) <= maxheap
      modifies this`mem, this`mnext, this`mlength, this`list
      ensures Valid()
      ensures match Release(old(list), Blk(p + 4 - RoundMb(len), RoundMb(len)))
              case None => !ok && list == old(list)
              case Some(t) => ok && list == t
    {
      assert RoundMb(RoundMb(len)) == RoundMb(len);
      ok := FreeMem(p - RoundMb(len) + 4, RoundMb(len));
    }

    /** The list a heap starts with: one block. */
    method Start(addr: nat, len: nat)
      requires Block(Blk(addr, len))
      modifies this`mem, this`mnext, this`mlength, this`list
      ensures Valid() && list == [Blk(addr, len)]
    {
      mlength := len;
      mnext := addr;
      mem := mem[addr := MemBlk(NULL, len)];
      list := [Blk(addr, len)];
      assert HeaderAt(mem, list, 0);
    }

    /** freemem's walk to the block's place in address order. */
    method FindPlace(block: nat) returns (prev: nat, next: nat, ghost k: nat)
      requires Valid()
      ensures k == Where(list, block, 0) && At(k, prev, next)
      ensures prev != NULL ==> k > 0 && HeaderAt(mem, list, k - 1)
      ensures next != NULL <==> k < |list|
      ensures prev == NULL <==> k == 0
    {
      hide Canonical, Headed, Total, Where;
      prev, next, k := NULL, mnext, 0;
      while next != NULL && next < block
        invariant At(k, prev, next) && (k > 0 ==> HeaderAt(mem, list, k - 1)) && (prev == NULL <==> k == 0)
        invariant Where(list, block, k) == Where(list, block, 0)
        decreases |list| - k
      {
        Headers(mem, list, k);
        WhereStep(list, block, k);
        prev := next;
        next := mem[next].mnext;
        k := k + 1;
      }
      if next == NULL {
        HeadersEnd(list, k);
      } else {
        WhereStep(list, block, k);
      }
    }
  }

  /** The virtual-heap fields of a process table entry; the list is set up by the first request. */
  class VHeap {
    const heap: Arena
    const vh: bool
    const hsize: nat
    var vmeminit: bool

    constructor (vh: bool, hsize: nat)
      requires vh ==> 1 <= hsize && VHEAP_START + NBPG * hsize < WORD
      ensures Valid() && fresh(heap) && this.vh == vh && this.hsize == hsize && !vmeminit
    {
      this.vh, this.hsize, this.vmeminit := vh, hsize, false;
      this.heap := new Arena(VHEAP_START, VHEAP_START + NBPG * hsize);
    }

    ghost predicate Valid()
      reads this, heap
    {
      (vh ==> 1 <= hsize && VHEAP_START + NBPG * hsize < WORD)
      && heap.minheap == VHEAP_START && heap.maxheap == VHEAP_START + NBPG * hsize
      && heap.Valid()
    }

    /** The free list a caller sees: before the first request, the whole heap. */
    ghost function FreeNow(): seq<Blk>
      reads this, heap
    {
      if vmeminit then heap.list else [Blk(VHEAP_START, NBPG * hsize)]
    }

    /** vgetmem */
    method VGetMem(nbytes: nat) returns (r: int)
      requires Valid()
      modifies this`vmeminit, heap`mem, heap`mnext, heap`mlength, heap`list
      ensures Valid()
      ensures nbytes == 0 || !vh ==> r == SYSERR && FreeNow() == old(FreeNow()) && vmeminit == old(vmeminit)
      ensures nbytes > 0 && vh ==> vmeminit
      ensures nbytes > 0 && vh ==>
                var n := RoundMb(nbytes); var i := FirstFit(old(FreeNow()), n, 0);
                if i < 0 then r == SYSERR && FreeNow() == old(FreeNow())
                else r == old(FreeNow())[i].addr && FreeNow() == CarveLow(old(FreeNow()), i, n)
      ensures 0 < nbytes <= WORD - UNIT && vh && r != SYSERR && Within(old(FreeNow()), VHEAP_START, VHEAP_START + NBPG * hsize) ==>
                Within(FreeNow(), VHEAP_START, VHEAP_START + NBPG * hsize) && VHEAP_START <= r
                && r + nbytes <= r + RoundMb(nbytes) <= VHEAP_START + NBPG * hsize
    {
      hide Canonical, Headed, Total, FirstFit, CarveLow, Block, Within, RoundMb;
      if nbytes == 0 {
        return SYSERR;
      }
      if !vh {
        return SYSERR;
      }
      if !vmeminit {
        WholeHeap(hsize);
        heap.Start(VHEAP_START, NBPG * hsize);
        vmeminit := true;
      }
      ghost var s := FreeNow();
      r := heap.GetMem(nbytes);
      if nbytes <= WORD - UNIT {
        GetInside(s, RoundMb(nbytes), VHEAP_START, VHEAP_START + NBPG * hsize);
      }
    }

    /** vfreemem; the list must have been set up by a vgetmem, which vfreemem does not test. */
    method VFreeMem(block: nat, nbytes: nat) returns (ok: bool)
      requires Valid() && (vh ==> vmeminit) && block % UNIT == 0
      requires nbytes <= WORD - UNIT && block + RoundMb(nbytes) < WORD
      modifies heap`mem, heap`mnext, heap`mlength, heap`list
      ensures Valid()
      ensures nbytes == 0 || !vh || block < VHEAP_START || block > VHEAP_START + NBPG * hsize ==> !ok && FreeNow() == old(FreeNow())
      ensures nbytes > 0 && vh && VHEAP_START <= block <= VHEAP_START + NBPG * hsize ==>
                match Release(old(FreeNow()), Blk(block, RoundMb(nbytes)))
                case None => !ok && FreeNow() == old(FreeNow())
                case Some(t) => ok && FreeNow() == t
    {
      if nbytes == 0 || block < VHEAP_START || block > VHEAP_START + NBPG * hsize {
        return false;
      }
      if !vh {
        return false;
      }
      ok := heap.FreeMem(block, nbytes);
    }
  }

  /** What getmem or getstk took, freemem or freestk puts back: the list is the same as before, block for block. */
  lemma FreeUndoesGet(s: seq<Blk>, nbytes: nat)
    requires Canonical(s) && 0 < nbytes <= WORD - UNIT
    ensures var n := RoundMb(nbytes); var i := FirstFit(s, n, 0);
            i >= 0 ==> Release(CarveLow(s, i, n), Blk(s[i].addr, n)) == Some(s)
    ensures var n := RoundMb(nbytes); var i := LastFit(s, n, |s|);
            i >= 0 ==> Release(CarveHigh(s, i, n), Blk(s[i].End() - 4 + 4 - n, n)) == Some(s)
  {
    var n := RoundMb(nbytes);
    hide Canonical, Release, CarveLow, CarveHigh, FirstFit, LastFit, Gives, RoundMb;
    var i, j := FirstFit(s, n, 0), LastFit(s, n, |s|);
    if i >= 0 {
      BlocksOf(s, i, n);
      CarveLowGives(s, i, n);
      GiveThenTake(s, CarveLow(s, i, n), Blk(s[i].addr, n));
    }
    if j >= 0 {
      BlocksOf(s, j, n);
      CarveHighGives(s, j, n);
      GiveThenTake(s, CarveHigh(s, j, n), Blk(s[j].End() - n, n));
    }
  }

  /**
   A request of a positive size hands out memory that stays on the free list exactly when rounding wraps it to 0:
   the block getmem or vgetmem returns, and the word getstk returns.
   */
  lemma WrapHandsOutFree(s: seq<Blk>, nbytes: nat)
    requires Canonical(s) && 0 < nbytes < WORD
    ensures var n := RoundMb(nbytes); var i := FirstFit(s, n, 0);
            i >= 0 ==> (Free(CarveLow(s, i, n), s[i].addr) <==> nbytes > WORD - UNIT)
    ensures var n := RoundMb(nbytes); var i := LastFit(s, n, |s|);
            i >= 0 ==> (Free(CarveHigh(s, i, n), s[i].End() - 4) <==> nbytes > WORD - UNIT)
  {
    hide Canonical, CarveLow, CarveHigh, FirstFit, LastFit;
    var n := RoundMb(nbytes);
    var i, j := FirstFit(s, n, 0), LastFit(s, n, |s|);
    if i >= 0 {
      WordFree(s, i);
      CarveLowGives(s, i, n);
      assert In(Blk(s[i].addr, n), s[i].addr) <==> n > 0;
    }
    if j >= 0 {
      WordFree(s, j);
      CarveHighGives(s, j, n);
      assert In(Blk(s[j].End() - n, n), s[j].End() - 4) <==> n > 0;
    }
  }

  /** No byte outside the heap is free. */
  ghost predicate Within(s: seq<Blk>, lo: nat, hi: nat) { forall x | Free(s, x) :: lo <= x < hi }

  /** A block carved from a list that is inside the heap is inside it, and so is what stays free. */
  lemma GetInside(s: seq<Blk>, n: nat, lo: nat, hi: nat)
    requires Canonical(s) && n > 0 && n % UNIT == 0
    ensures var i := FirstFit(s, n, 0);
            i >= 0 && Within(s, lo, hi) ==> Within(CarveLow(s, i, n), lo, hi) && lo <= s[i].addr && s[i].addr + n <= hi
  {
    hide Canonical, FirstFit, CarveLow;
    var i := FirstFit(s, n, 0);
    if i >= 0 {
      CarveLowGives(s, i, n);
      var b := Blk(s[i].addr, n);
      assert In(b, b.addr) && In(b, b.End() - 1);
    }
  }

  /**
   freemem and vfreemem test where a block starts and not where it ends: of the blocks they accept, exactly those that
   end inside the heap keep the free list inside it.
   */
  lemma FreeStaysInside(s: seq<Blk>, block: nat, nbytes: nat, lo: nat, hi: nat)
    requires Canonical(s) && Within(s, lo, hi) && 0 < nbytes <= WORD - UNIT && 0 < block && block % UNIT == 0 && lo <= block <= hi
    ensures var b := Blk(block, RoundMb(nbytes));
            Release(s, b).Some? ==> (Within(Release(s, b).value, lo, hi) <==> b.End() <= hi)
  {
    var b := Blk(block, RoundMb(nbytes));
    hide Canonical, Release;
    ReleaseTakes(s, b);
    if Release(s, b).Some? && b.End() > hi {
      assert In(b, b.End() - 1) && Free(Release(s, b).value, b.End() - 1);
    }
  }

  /** A block that starts where the heap ends is accepted whatever is free, and memory outside the heap becomes free. */
  lemma EndOfHeapAccepted(s: seq<Blk>, nbytes: nat, lo: nat, hi: nat)
    requires Canonical(s) && Within(s, lo, hi) && 0 < nbytes <= WORD - UNIT && lo <= hi && 0 < hi && hi % UNIT == 0
    ensures var r := Release(s, Blk(hi, RoundMb(nbytes))); r.Some? && !Within(r.value, lo, hi)
  {
    hide Canonical, Release;
    ReleaseTakes(s, Blk(hi, RoundMb(nbytes)));
    FreeStaysInside(s, hi, nbytes, lo, hi);
  }

  lemma WordFree(s: seq<Blk>, i: nat)
    requires Canonical(s) && i < |s|
    ensures Free(s, s[i].addr) && s[i].End() >= 4 && Free(s, s[i].End() - 4)
  {
    assert s[i].len >= UNIT;
  }

  lemma WholeHeap(hsize: nat)
    requires hsize > 0
    ensures Block(Blk(VHEAP_START, NBPG * hsize))
  {
  }

  lemma WhereStep(s: seq<Blk>, a: nat, k: nat)
    requires k < |s|
    ensures Where(s, a, k) == if s[k].addr >= a then k else Where(s, a, k + 1)
  {
  }

  lemma ReleaseKeeps(s: seq<Blk>, b: Blk)
    requires Canonical(s) && Block(b) && !Clashes(s, Where(s, b.addr, 0), b)
    ensures var t := Joined(s, Where(s, b.addr, 0), b); Release(s, b) == Some(t) && Canonical(t) && Total(t) == Total(s) + b.len
  {
    ReleaseTakes(s, b);
  }

  /** The list after freemem's first write, before it looks at the block above. */
  ghost function PutList(s: seq<Blk>, k: nat, b: Blk): seq<Blk>
    requires k <= |s|
  {
    if Low(s, k, b) then s[k - 1 := Blk(s[k - 1].addr, s[k - 1].len + b.len)] else s[..k] + [b] + s[k..]
  }

  /** Where the block is on that list, on its own or as part of the block below. */
  ghost function Below(s: seq<Blk>, k: nat, b: Blk): nat
    requires k <= |s|
  {
    if Low(s, k, b) then k - 1 else k
  }

  ghost predicate Ascending(s: seq<Blk>) {
    forall i, j | 0 <= i < j < |s| :: s[i].addr < s[j].addr
  }

  /** A block clear of the free blocks on both sides of position `k`. */
  ghost predicate Fits(s: seq<Blk>, k: nat, b: Blk) {
    k <= |s| && !Clashes(s, k, b) && (k > 0 ==> s[k - 1].addr < b.addr) && (k < |s| ==> b.addr < s[k].addr)
  }

  lemma BlockFacts(b: Blk)
    requires Block(b)
    ensures b.addr > 0 && b.len > 0
  {
  }

  lemma FitsHere(s: seq<Blk>, b: Blk)
    requires Block(b) && !Clashes(s, Where(s, b.addr, 0), b)
    ensures Fits(s, Where(s, b.addr, 0), b)
  {
  }

  lemma FitsAscending(s: seq<Blk>, k: nat, b: Blk)
    requires Canonical(s) && Block(b) && Fits(s, k, b)
    ensures Ascending(s) && Ascending(PutList(s, k, b))
  {
    forall i, j | 0 <= i < j < |s|
      ensures s[i].addr < s[j].addr
    {
      assert s[i].End() < s[j].addr;
    }
    if !Low(s, k, b) {
      InsertAscending(s, k, b);
    }
  }

  lemma InsertAscending(s: seq<Blk>, k: nat, b: Blk)
    requires Ascending(s) && k <= |s| && (k > 0 ==> s[k - 1].addr < b.addr) && (k < |s| ==> b.addr < s[k].addr)
    ensures Ascending(s[..k] + [b] + s[k..])
  {
    var t := s[..k] + [b] + s[k..];
    forall i, j | 0 <= i < j < |t|
      ensures t[i].addr < t[j].addr
    {
      assert t[i] == if i < k then s[i] else if i == k then b else s[i - 1];
      assert t[j] == if j < k then s[j] else if j == k then b else s[j - 1];
    }
  }

  /** Writing one header's length. */
  lemma LengthHeaders(mem: map<nat, MemBlk>, s: seq<Blk>, i: nat, n: nat)
    requires Ascending(s) && Headed(mem, s) && i < |s|
    ensures s[i].addr in mem
    ensures Headed(mem[s[i].addr := mem[s[i].addr].(mlength := n)], s[i := Blk(s[i].addr, n)])
  {
    assert HeaderAt(mem, s, i);
    var t, m := s[i := Blk(s[i].addr, n)], mem[s[i].addr := mem[s[i].addr].(mlength := n)];
    forall k | 0 <= k < |t|
      ensures HeaderAt(m, t, k)
    {
      assert HeaderAt(mem, s, k);
      assert k < i ==> s[k].addr < s[i].addr;
      assert i < k ==> s[i].addr < s[k].addr;
    }
  }

  /** Writing a new header and pointing the one below at it. */
  lemma LinkHeaders(mem: map<nat, MemBlk>, s: seq<Blk>, k: nat, b: Blk)
    requires Ascending(s) && Headed(mem, s) && k <= |s| && Ascending(s[..k] + [b] + s[k..])
    ensures k > 0 ==> s[k - 1].addr in mem
    ensures var t := s[..k] + [b] + s[k..];
            Headed(Linked(mem, s, k, b), t) && AddrAt(t, 0) == if k == 0 then b.addr else AddrAt(s, 0)
  {
    var t := s[..k] + [b] + s[k..];
    assert k > 0 ==> HeaderAt(mem, s, k - 1);
    forall i | 0 <= i < |t|
      ensures HeaderAt(Linked(mem, s, k, b), t, i)
    {
      LinkHeader(mem, s, k, b, i);
    }
  }

  ghost function Linked(mem: map<nat, MemBlk>, s: seq<Blk>, k: nat, b: Blk): map<nat, MemBlk>
    requires k <= |s| && (k > 0 ==> s[k - 1].addr in mem)
  {
    var m := mem[b.addr := MemBlk(AddrAt(s, k), b.len)];
    if k == 0 then m else m[s[k - 1].addr := m[s[k - 1].addr].(mnext := b.addr)]
  }

  lemma LinkHeader(mem: map<nat, MemBlk>, s: seq<Blk>, k: nat, b: Blk, i: nat)
    requires Headed(mem, s) && k <= |s| && Ascending(s[..k] + [b] + s[k..]) && i <= |s|
    requires k > 0 ==> HeaderAt(mem, s, k - 1)
    ensures HeaderAt(Linked(mem, s, k, b), s[..k] + [b] + s[k..], i)
  {
    var t := s[..k] + [b] + s[k..];
    assert t[k] == b && (k > 0 ==> t[k - 1] == s[k - 1] && t[k - 1].addr < t[k].addr);
    assert AddrAt(t, k + 1) == AddrAt(s, k);
    if i < k {
      assert t[i] == s[i] && HeaderAt(mem, s, i);
      assert t[i].addr < t[k].addr && (i < k - 1 ==> t[i].addr < t[k - 1].addr);
      assert i < k - 1 ==> t[i + 1] == s[i + 1];
    } else if i > k {
      assert t[i] == s[i - 1] && HeaderAt(mem, s, i - 1);
      assert t[k].addr < t[i].addr && AddrAt(t, i + 1) == AddrAt(s, i);
    }
  }

  /** Block `j` swallows the one above it if they touch. */
  ghost function Merged(t: seq<Blk>, j: nat): seq<Blk>
    requires j < |t|
  {
    if j + 1 < |t| && t[j].End() == t[j + 1].addr then
      t[..j] + [Blk(t[j].addr, t[j].len + t[j + 1].len)] + t[j + 2..]
    else t
  }

  lemma AbsorbHeaders(mem: map<nat, MemBlk>, t: seq<Blk>, j: nat)
    requires Ascending(t) && Headed(mem, t) && j + 1 < |t| && t[j].End() == t[j + 1].addr
    ensures Headed(mem[t[j].addr := MemBlk(AddrAt(t, j + 2), t[j].len + t[j + 1].len)], Merged(t, j))
    ensures AddrAt(Merged(t, j), 0) == AddrAt(t, 0)
  {
    var u := Merged(t, j);
    var m := mem[t[j].addr := MemBlk(AddrAt(t, j + 2), t[j].len + t[j + 1].len)];
    hide Merged, Headed, HeaderAt;
    forall i | 0 <= i < |u|
      ensures HeaderAt(m, u, i)
    {
      AbsorbAt(mem, t, j, i);
    }
    MergedAt(t, j, 0);
    HeadedAll(m, u);
  }

  lemma AbsorbAt(mem: map<nat, MemBlk>, t: seq<Blk>, j: nat, i: nat)
    requires Ascending(t) && Headed(mem, t) && j + 1 < |t| && t[j].End() == t[j + 1].addr && i < |Merged(t, j)|
    ensures HeaderAt(mem[t[j].addr := MemBlk(AddrAt(t, j + 2), t[j].len + t[j + 1].len)], Merged(t, j), i)
  {
    hide Merged, Headed;
    MergedAt(t, j, i);
    MergedAt(t, j, i + 1);
    HeadedAt(mem, t, if i <= j then i else i + 1);
  }

  lemma HeadedAt(mem: map<nat, MemBlk>, t: seq<Blk>, i: nat)
    requires Headed(mem, t) && i < |t|
    ensures HeaderAt(mem, t, i)
  {
  }

  lemma HeadedAll(mem: map<nat, MemBlk>, t: seq<Blk>)
    requires forall i | 0 <= i < |t| :: HeaderAt(mem, t, i)
    ensures Headed(mem, t)
  {
  }

  lemma MergedAt(t: seq<Blk>, j: nat, i: nat)
    requires j + 1 < |t| && t[j].End() == t[j + 1].addr
    ensures |Merged(t, j)| == |t| - 1
    ensures i < |t| - 1 ==> Merged(t, j)[i] == if i == j then Blk(t[j].addr, t[j].len + t[j + 1].len) else t[if i < j then i else i + 1]
  {
  }

  /** The two writes together give the joined list. */
  lemma PutThenMerge(s: seq<Blk>, k: nat, b: Blk)
    requires b.addr > 0 && k <= |s| && Fits(s, k, b)
    ensures var t := PutList(s, k, b); var j := Below(s, k, b);
            j < |t| && Merged(t, j) == Joined(s, k, b) && AddrAt(t, j + 1) == AddrAt(s, k) && t[j].End() > 0
  {
    hide Fits;
    assert k <= |s| by { FitsIndex(s, k, b); }
    if Low(s, k, b) {
      ExtendThenMerge(s, k, b);
    } else {
      LinkThenMerge(s, k, b);
    }
  }

  lemma FitsIndex(s: seq<Blk>, k: nat, b: Blk)
    requires Fits(s, k, b)
    ensures k <= |s|
  {
  }

  lemma ExtendThenMerge(s: seq<Blk>, k: nat, b: Blk)
    requires k <= |s| && Low(s, k, b)
    ensures var t := PutList(s, k, b);
            k - 1 < |t| && Merged(t, k - 1) == Joined(s, k, b) && AddrAt(t, k) == AddrAt(s, k) && t[k - 1].End() == b.End()
  {
    var t := PutList(s, k, b);
    assert t[..k - 1] == s[..k - 1] && t[k..] == s[k..];
    if High(s, k, b) {
      assert t[k + 1..] == s[k + 1..];
    } else {
      assert t == s[..k - 1] + [Mid(s, k, b)] + s[k..];
    }
  }

  lemma LinkThenMerge(s: seq<Blk>, k: nat, b: Blk)
    requires k <= |s| && !Low(s, k, b)
    ensures var t := PutList(s, k, b);
            k < |t| && Merged(t, k) == Joined(s, k, b) && AddrAt(t, k + 1) == AddrAt(s, k) && t[k] == b
  {
    var t := PutList(s, k, b);
    assert t[k] == b && t[..k] == s[..k] && t[k + 1..] == s[k..];
    assert k < |s| ==> t[k + 1] == s[k];
    if High(s, k, b) {
      assert t[k + 2..] == s[k + 1..];
    } else {
      assert Mid(s, k, b) == b;
    }
  }

  lemma HeadersEnd(s: seq<Blk>, i: nat)
    requires Canonical(s) && i <= |s| && AddrAt(s, i) == NULL
    ensures i == |s|
  {
  }

  lemma NoFit(s: seq<Blk>, n: nat)
    ensures LastFit(s, n, 0) == -1
  {
  }

  lemma LastFitStep(s: seq<Blk>, n: nat, i: nat)
    requires i < |s|
    ensures LastFit(s, n, i + 1) == if s[i].len >= n then i else LastFit(s, n, i)
  {
  }

  lemma CarveHighKeeps(s: seq<Blk>, i: nat, n: nat)
    requires Canonical(s) && i < |s| && n <= s[i].len && n % UNIT == 0
    ensures Canonical(CarveHigh(s, i, n)) && Total(CarveHigh(s, i, n)) == Total(s) - n
  {
    CarveHighGives(s, i, n);
  }

  /** Changing the length in one header. */
  lemma TrimHeaders(mem: map<nat, MemBlk>, s: seq<Blk>, i: nat, n: nat)
    requires Canonical(s) && Headed(mem, s) && i < |s| && n < s[i].len
    ensures s[i].addr in mem
    ensures Headed(mem[s[i].addr := mem[s[i].addr].(mlength := s[i].len - n)], s[i := Blk(s[i].addr, s[i].len - n)])
  {
    assert HeaderAt(mem, s, i);
    var t := s[i := Blk(s[i].addr, s[i].len - n)];
    var m := mem[s[i].addr := mem[s[i].addr].(mlength := s[i].len - n)];
    forall k | 0 <= k < |t|
      ensures HeaderAt(m, t, k)
    {
      assert HeaderAt(mem, s, k);
      if k != i {
        HeadersDiffer(s, k, i);
      }
    }
  }

  lemma NoneFits(s: seq<Blk>, n: nat)
    ensures FirstFit(s, n, |s|) == -1
  {
  }

  lemma FitStep(s: seq<Blk>, n: nat, i: nat)
    requires i < |s|
    ensures FirstFit(s, n, i) == if s[i].len >= n then i else FirstFit(s, n, i + 1)
  {
  }

  lemma Headers(mem: map<nat, MemBlk>, s: seq<Blk>, i: nat)
    requires Canonical(s) && Headed(mem, s) && i < |s|
    ensures HeaderAt(mem, s, i) && s[i].addr > 0 && s[i].len % UNIT == 0 && (i > 0 ==> HeaderAt(mem, s, i - 1) && s[i - 1].addr > 0)
    ensures i > 0 ==> s[i - 1].addr != s[i].addr
  {
    assert i > 0 ==> HeaderAt(mem, s, i - 1) && s[i - 1].End() < s[i].addr;
  }

  lemma CarveLowKeeps(s: seq<Blk>, i: nat, n: nat)
    requires Canonical(s) && i < |s| && n <= s[i].len && n % UNIT == 0
    ensures Canonical(CarveLow(s, i, n)) && Total(CarveLow(s, i, n)) == Total(s) - n
  {
    CarveLowGives(s, i, n);
  }

  /** prev->mnext = next of the block it skips. */
  lemma CutHeaders(mem: map<nat, MemBlk>, s: seq<Blk>, i: nat)
    requires Canonical(s) && Headed(mem, s) && i < |s|
    ensures var t := s[..i] + s[i + 1..]; var next := AddrAt(s, i + 1);
            Headed(if i == 0 then mem else mem[s[i - 1].addr := MemBlk(next, s[i - 1].len)], t)
            && AddrAt(t, 0) == if i == 0 then next else AddrAt(s, 0)
  {
    var t := s[..i] + s[i + 1..];
    var next := AddrAt(s, i + 1);
    var m := if i == 0 then mem else mem[s[i - 1].addr := MemBlk(next, s[i - 1].len)];
    forall k | 0 <= k < |t|
      ensures HeaderAt(m, t, k)
    {
      var o := if k < i then k else k + 1;
      assert t[k] == s[o] && HeaderAt(mem, s, o);
      if i > 0 && o != i - 1 {
        HeadersDiffer(s, o, i - 1);
      }
    }
  }

  lemma ShrinkHeaders(mem: map<nat, MemBlk>, s: seq<Blk>, i: nat, n: nat)
    requires Canonical(s) && Headed(mem, s) && i < |s| && n < s[i].len
    ensures var t := s[i := Blk(s[i].addr + n, s[i].len - n)]; var a := s[i].addr + n;
            var m := if i == 0 then mem else mem[s[i - 1].addr := MemBlk(a, s[i - 1].len)];
            Headed(m[a := MemBlk(AddrAt(s, i + 1), s[i].len - n)], t)
            && AddrAt(t, 0) == if i == 0 then a else AddrAt(s, 0)
  {
    var t := s[i := Blk(s[i].addr + n, s[i].len - n)];
    var a := s[i].addr + n;
    var m := if i == 0 then mem else mem[s[i - 1].addr := MemBlk(a, s[i - 1].len)];
    var m' := m[a := MemBlk(AddrAt(s, i + 1), s[i].len - n)];
    forall k | 0 <= k < |t|
      ensures HeaderAt(m', t, k)
    {
      assert HeaderAt(mem, s, k);
      if k != i {
        assert k < i ==> s[k].End() < s[i].addr;
        assert k > i ==> s[i].End() < s[k].addr;
        if i > 0 && k != i - 1 {
          HeadersDiffer(s, k, i - 1);
        }
      }
    }
  }
}
