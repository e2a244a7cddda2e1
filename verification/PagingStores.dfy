/** Allocating and releasing the backing stores of a process (allocate_bs, bs_init, deallocate_bs, freeProcBS). */
module PagingStores {
  import opened BackingStore
  import opened PagingState

  /** No store is open without being allocated, and nobody holds a use count. */
  predicate TableOk(b: seq<BsEntry>) {
    |b| == MAX_BS_ENTRIES
    && forall s | 0 <= s < |b| ::
         b[s].isopen == b[s].isallocated && b[s].usecount == 0 && b[s].npages <= MAX_PAGES_PER_BS
  }

  /** allocate_bs's search: the lowest store that is neither allocated nor open. */
  function FirstFree(b: seq<BsEntry>, from: nat): (s: int)
    requires from <= |b|
    ensures s == -1 || (from <= s < |b| && !b[s].isallocated && !b[s].isopen)
    ensures s == -1 ==> forall k | from <= k < |b| :: b[k].isallocated || b[k].isopen
    decreases |b| - from
  {
    if from == |b| then -1
    else if !b[from].isallocated && !b[from].isopen then from
    else FirstFree(b, from + 1)
  }

  lemma {:induction false} FirstFreeIsLowest(b: seq<BsEntry>, from: nat, k: nat)
    requires from <= k < |b| && (FirstFree(b, from) == -1 || k < FirstFree(b, from))
    ensures b[k].isallocated || b[k].isopen
    decreases |b| - from
  {
    if from < k {
      FirstFreeIsLowest(b, from + 1, k);
    }
  }

  /** The state of the page server and of one process's list of stores. */
  datatype Ledger = Ledger(b: seq<BsEntry>, free: int, pbsd: seq<int>)

  /** bs_init's loop from position `i` with `remain` pages still to back. */
  function Fill(l: Ledger, i: nat, remain: int): Ledger
    requires |l.pbsd| == MAX_BS_ENTRIES && i + NumStores(if remain < 0 then 0 else remain) <= MAX_BS_ENTRIES
    decreases remain
  {
    if remain <= 0 then l
    else
      var s := FirstFree(l.b, 0);
      var b := if s < 0 then l.b else l.b[s := BsEntry(true, true, 0, Min(remain, MAX_PAGES_PER_BS))];
      Fill(Ledger(b, l.free - 1, l.pbsd[i := s]), i + 1, remain - MAX_PAGES_PER_BS)
  }

  /** freeProcBS's loop from position `i` with `remain` pages still to release. */
  function Release(l: Ledger, i: nat, remain: int): Ledger
    requires |l.pbsd| == MAX_BS_ENTRIES && i + NumStores(if remain < 0 then 0 else remain) <= MAX_BS_ENTRIES
    decreases remain
  {
    if remain <= 0 then l
    else Release(Ledger(Deallocated(l.b, l.pbsd[i]), l.free + 1, l.pbsd), i + 1, remain - MAX_PAGES_PER_BS)
  }

  /** deallocate_bs: refuses a store that is out of range, unallocated or in use. */
  function Deallocated(b: seq<BsEntry>, s: int): seq<BsEntry> {
    if 0 <= s < |b| && b[s].isallocated && b[s].usecount <= 0 then b[s := BsEntry(false, false, 0, 0)] else b
  }

  /** Position `j` of the list holds store `s`, for some j from i up to k. */
  ghost predicate Listed(pbsd: seq<int>, i: nat, k: nat, s: int)
    requires k <= |pbsd|
  {
    exists j :: i <= j < k && pbsd[j] == s
  }

  predicate DistinctFrom(pbsd: seq<int>, i: nat, k: nat)
    requires k <= |pbsd|
  {
    forall a, c | i <= a < c < k :: pbsd[a] != pbsd[c]
  }

  /** One more store is taken: the free set loses exactly it. */
  lemma TakeOne(b: seq<BsEntry>, s: nat, e: BsEntry)
    requires s < |b| && !b[s].isallocated && e.isallocated
    ensures |FreeStores(b[s := e])| == |FreeStores(b)| - 1
  {
    assert FreeStores(b[s := e]) == FreeStores(b) - {s};
  }

  lemma GiveOne(b: seq<BsEntry>, s: nat, e: BsEntry)
    requires s < |b| && b[s].isallocated && !e.isallocated
    ensures |FreeStores(b[s := e])| == |FreeStores(b)| + 1
  {
    assert FreeStores(b[s := e]) == FreeStores(b) + {s};
  }

  lemma SomeFree(b: seq<BsEntry>)
    requires TableOk(b) && |FreeStores(b)| > 0
    ensures FirstFree(b, 0) >= 0
  {
    var s :| s in FreeStores(b) by { assert FreeStores(b) != {}; }
  }

  ghost predicate Filled(l: Ledger, r: Ledger, i: nat, n: nat, remain: int) {
    TableOk(r.b) && |r.pbsd| == |l.pbsd| == MAX_BS_ENTRIES && |l.b| == |r.b| && i + n <= MAX_BS_ENTRIES
    && r.free == l.free - n
    && |FreeStores(r.b)| == |FreeStores(l.b)| - n
    && (forall j | 0 <= j < i :: r.pbsd[j] == l.pbsd[j])
    && DistinctFrom(r.pbsd, i, i + n)
    && (forall j | i <= j < i + n ::
          0 <= r.pbsd[j] < |l.b| && !l.b[r.pbsd[j]].isallocated
          && r.b[r.pbsd[j]] == BsEntry(true, true, 0, Min(remain - (j - i) * MAX_PAGES_PER_BS, MAX_PAGES_PER_BS)))
    && (forall s | 0 <= s < |l.b| && !Listed(r.pbsd, i, i + n, s) :: r.b[s] == l.b[s])
  }

  /**
   With enough free stores, filling takes exactly as many as the heap needs, all of
   them free before, all distinct, each open with the number of pages it backs; the
   rest of the table and of the list is untouched and the free count stays exact.
   */
  lemma {:induction false} FillTakes(l: Ledger, i: nat, remain: nat)
    requires TableOk(l.b) && |l.pbsd| == MAX_BS_ENTRIES && i + NumStores(remain) <= MAX_BS_ENTRIES
    requires NumStores(remain) <= |FreeStores(l.b)|
    ensures Filled(l, Fill(l, i, remain), i, NumStores(remain), remain)
    decreases remain
  {
    hide Filled, FreeStores, FirstFree;
    if remain > 0 {
      SomeFree(l.b);
      var s := FirstFree(l.b, 0);
      var e := BsEntry(true, true, 0, Min(remain, MAX_PAGES_PER_BS));
      var l1 := Ledger(l.b[s := e], l.free - 1, l.pbsd[i := s]);
      TakeOne(l.b, s, e);
      var rest := remain - MAX_PAGES_PER_BS;
      if rest > 0 {
        assert NumStores(remain) == 1 + NumStores(rest);
        FillTakes(l1, i + 1, rest);
        FilledStep(l, l1, Fill(l1, i + 1, rest), i, NumStores(rest), remain, s, e);
      } else {
        NoneFilled(l1, i + 1, rest);
        FilledStep(l, l1, l1, i, 0, remain, s, e);
      }
    } else {
      NoneFilled(l, i, remain);
    }
  }

  lemma NoneFilled(l: Ledger, i: nat, remain: int)
    requires TableOk(l.b) && |l.pbsd| == MAX_BS_ENTRIES && i <= MAX_BS_ENTRIES
    ensures Filled(l, l, i, 0, remain)
  {
  }

  lemma FilledStep(l: Ledger, l1: Ledger, r: Ledger, i: nat, n: nat, remain: int, s: nat, e: BsEntry)
    requires TableOk(l.b) && |l.pbsd| == MAX_BS_ENTRIES && i + 1 + n <= MAX_BS_ENTRIES
    requires s < |l.b| && !l.b[s].isallocated && e == BsEntry(true, true, 0, Min(remain, MAX_PAGES_PER_BS))
    requires l1 == Ledger(l.b[s := e], l.free - 1, l.pbsd[i := s])
    requires |FreeStores(l1.b)| == |FreeStores(l.b)| - 1
    requires Filled(l1, r, i + 1, n, remain - MAX_PAGES_PER_BS)
    ensures Filled(l, r, i, n + 1, remain)
  {
    hide FreeStores;
    FirstFilled(l1, r, i, i + 1, n, remain - MAX_PAGES_PER_BS, s, i + 1 + n);
    hide Listed;
  }

  lemma FirstFilled(l1: Ledger, r: Ledger, i: nat, j: nat, n: nat, remain: int, s: nat, k: nat)
    requires j == i + 1 && k == j + n && Filled(l1, r, j, n, remain) && l1.pbsd[i] == s && s < |l1.b| && l1.b[s].isallocated
    ensures r.pbsd[i] == s && r.b[s] == l1.b[s] && DistinctFrom(r.pbsd, i, k)
    ensures forall t | 0 <= t < |l1.b| && !Listed(r.pbsd, i, k, t) :: t != s && !Listed(r.pbsd, j, k, t)
  {
    hide FreeStores;
    assert !Listed(r.pbsd, j, k, s);
  }

  ghost predicate Returned(l: Ledger, r: Ledger, i: nat, n: nat) {
    TableOk(r.b) && r.pbsd == l.pbsd && |l.pbsd| == MAX_BS_ENTRIES && |l.b| == |r.b| && i + n <= MAX_BS_ENTRIES
    && r.free == l.free + n
    && |FreeStores(r.b)| == |FreeStores(l.b)| + n
    && (forall s | 0 <= s < |l.b| && !Listed(l.pbsd, i, i + n, s) :: r.b[s] == l.b[s])
  }

  /** Releasing returns exactly the stores held and nothing else. */
  lemma {:induction false} ReleaseReturns(l: Ledger, i: nat, remain: nat)
    requires TableOk(l.b) && |l.pbsd| == MAX_BS_ENTRIES && i + NumStores(remain) <= MAX_BS_ENTRIES
    requires DistinctFrom(l.pbsd, i, i + NumStores(remain))
    requires forall j | i <= j < i + NumStores(remain) :: 0 <= l.pbsd[j] < |l.b| && l.b[l.pbsd[j]].isallocated
    ensures Returned(l, Release(l, i, remain), i, NumStores(remain))
    decreases remain
  {
    if remain > 0 {
      var s := l.pbsd[i];
      var e := BsEntry(false, false, 0, 0);
      var l1 := Ledger(l.b[s := e], l.free + 1, l.pbsd);
      GiveOne(l.b, s, e);
      var rest := remain - MAX_PAGES_PER_BS;
      var n := if rest > 0 then NumStores(rest) else 0;
      assert NumStores(remain) == 1 + n;
      hide Returned, FreeStores, Listed;
      if rest > 0 {
        ReleaseReturns(l1, i + 1, rest);
      } else {
        NoneReturned(l1, i + 1);
      }
      ReturnedStep(l, l1, Release(l1, i + 1, rest), i, n, s, e);
    } else {
      NoneReturned(l, i);
    }
  }

  lemma NoneReturned(l: Ledger, i: nat)
    requires TableOk(l.b) && |l.pbsd| == MAX_BS_ENTRIES && i <= MAX_BS_ENTRIES
    ensures Returned(l, l, i, 0)
  {
  }

  lemma ReturnedStep(l: Ledger, l1: Ledger, r: Ledger, i: nat, n: nat, s: nat, e: BsEntry)
    requires |l.pbsd| == MAX_BS_ENTRIES && i + 1 + n <= MAX_BS_ENTRIES && s == l.pbsd[i] && s < |l.b|
    requires l1 == Ledger(l.b[s := e], l.free + 1, l.pbsd) && |FreeStores(l1.b)| == |FreeStores(l.b)| + 1
    requires Returned(l1, r, i + 1, n)
    ensures Returned(l, r, i, n + 1)
  {
    forall t | 0 <= t < |l.b| && !Listed(l.pbsd, i, i + 1 + n, t)
      ensures r.b[t] == l.b[t]
    {
      assert t != s;
      assert !Listed(l.pbsd, i + 1, i + 1 + n, t);
    }
  }
}
