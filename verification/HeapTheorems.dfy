/** What the canonical form of the free list buys: exact inverses, order independence, and no overlap in any run. */
module HeapTheorems {
  import opened FreeList

  /** Allocating a block and returning it restores the free list exactly. */
  lemma GiveThenTake(s: seq<Blk>, t: seq<Blk>, b: Blk)
    requires Canonical(s) && Gives(s, t, b) && Block(b)
    ensures Release(t, b) == Some(s)
  {
    ReleaseTakes(t, b);
    CanonicalUnique(Release(t, b).value, s);
  }

  predicate Disjoint(b: Blk, c: Blk) { b.End() <= c.addr || c.End() <= b.addr }

  /** Returning blocks one after the other. */
  function ReleaseAll(s: seq<Blk>, bs: seq<Blk>): Option<seq<Blk>>
    decreases |bs|
  {
    if bs == [] then Some(s)
    else match Release(s, bs[0])
      case None => None
      case Some(t) => ReleaseAll(t, bs[1..])
  }

  ghost predicate Releasable(s: seq<Blk>, bs: multiset<Blk>) {
    (forall b | b in bs :: bs[b] == 1 && forall x | In(b, x) :: !Free(s, x))
    && (forall b, c | b in bs && c in bs && b != c :: Disjoint(b, c))
  }

  ghost predicate FreeOr(s: seq<Blk>, bs: multiset<Blk>, x: int) {
    Free(s, x) || exists b :: b in bs && In(b, x)
  }

  /** All can be returned exactly if they are disjoint from each other and from free memory; then just their bytes are added. */
  lemma {:induction false} ReleaseAllTakes(s: seq<Blk>, bs: seq<Blk>)
    requires Canonical(s) && forall i | 0 <= i < |bs| :: Block(bs[i])
    ensures ReleaseAll(s, bs).Some? <==> Releasable(s, multiset(bs))
    ensures ReleaseAll(s, bs).Some? ==>
              Canonical(ReleaseAll(s, bs).value)
              && forall x :: Free(ReleaseAll(s, bs).value, x) <==> FreeOr(s, multiset(bs), x)
    decreases |bs|
  {
    if bs != [] {
      var b, rest := bs[0], bs[1..];
      assert bs == [b] + rest;
      assert multiset(bs) == multiset{b} + multiset(rest);
      ReleaseTakes(s, b);
      if Release(s, b).Some? {
        var t := Release(s, b).value;
        ReleaseAllTakes(t, rest);
        ReleasableStep(s, t, b, multiset(rest));
        if ReleaseAll(s, bs).Some? {
          forall x
            ensures Free(ReleaseAll(t, rest).value, x) <==> FreeOr(s, multiset(bs), x)
          {
            FreeOrStep(s, t, b, multiset(rest), x);
          }
        }
      } else {
        assert b in multiset(bs);
      }
    }
  }

  lemma FreeOrStep(s: seq<Blk>, t: seq<Blk>, b: Blk, rest: multiset<Blk>, x: int)
    requires Takes(s, t, b)
    ensures FreeOr(t, rest, x) <==> FreeOr(s, multiset{b} + rest, x)
  {
    if FreeOr(t, rest, x) && !Free(s, x) {
      if In(b, x) {
        assert b in multiset{b} + rest;
      } else {
        var c :| c in rest && In(c, x);
        assert c in multiset{b} + rest;
      }
    }
    if FreeOr(s, multiset{b} + rest, x) && !Free(s, x) {
      var c :| c in multiset{b} + rest && In(c, x);
    }
  }

  lemma ReleasableStep(s: seq<Blk>, t: seq<Blk>, b: Blk, rest: multiset<Blk>)
    requires Takes(s, t, b) && Block(b) && (forall x | In(b, x) :: !Free(s, x)) && forall c | c in rest :: Block(c)
    ensures Releasable(s, multiset{b} + rest) <==> Releasable(t, rest)
  {
    var all := multiset{b} + rest;
    if Releasable(s, all) {
      forall c | c in rest
        ensures rest[c] == 1 && forall x | In(c, x) :: !Free(t, x)
      {
        assert c in all && b in all;
      }
      forall c, d | c in rest && d in rest && c != d
        ensures Disjoint(c, d)
      {
        assert c in all && d in all;
      }
    }
    if Releasable(t, rest) {
      assert In(b, b.addr);
      assert b !in rest;
      forall c | c in rest
        ensures Disjoint(b, c) && forall x | In(c, x) :: !Free(s, x)
      {
        if !Disjoint(b, c) {
          var x := if b.addr < c.addr then c.addr else b.addr;
          assert In(b, x) && In(c, x);
          assert false;
        }
      }
    }
  }

  /** Any order of returns gives the same list, or fails in every order. */
  lemma ReleaseOrder(s: seq<Blk>, bs: seq<Blk>, cs: seq<Blk>)
    requires Canonical(s) && multiset(bs) == multiset(cs)
    requires forall i | 0 <= i < |bs| :: Block(bs[i])
    ensures ReleaseAll(s, bs) == ReleaseAll(s, cs)
  {
    forall i | 0 <= i < |cs|
      ensures Block(cs[i])
    {
      assert cs[i] in multiset(cs);
      assert cs[i] in bs;
    }
    ReleaseAllTakes(s, bs);
    ReleaseAllTakes(s, cs);
    if ReleaseAll(s, bs).Some? {
      CanonicalUnique(ReleaseAll(s, bs).value, ReleaseAll(s, cs).value);
    }
  }

  // ---- runs ---------------------------------------------------------------

  /** The free list and the blocks handed out and not yet returned. */
  datatype Heap = Heap(free: seq<Blk>, live: set<Blk>)

  datatype Event = GetLow(n: nat) | GetHigh(n: nat) | GiveBack(b: Blk)

  /** One call on the heap; `n` is a request already rounded to a positive multiple of 8. */
  predicate Step(h: Heap, e: Event, h': Heap) {
    match e
    case GetLow(n) =>
      n > 0 && n % UNIT == 0
      && var i := FirstFit(h.free, n, 0);
         h' == if i < 0 then h else Heap(CarveLow(h.free, i, n), h.live + {Blk(h.free[i].addr, n)})
    case GetHigh(n) =>
      n > 0 && n % UNIT == 0
      && var i := LastFit(h.free, n, |h.free|);
         h' == if i < 0 then h else Heap(CarveHigh(h.free, i, n), h.live + {Blk(h.free[i].End() - n, n)})
    case GiveBack(b) =>
      b in h.live && Release(h.free, b).Some? && h' == Heap(Release(h.free, b).value, h.live - {b})
  }

  /** The free bytes and the live blocks divide the heap `all` among them. */
  ghost predicate Divided(h: Heap, all: Blk) {
    Canonical(h.free)
    && (forall b | b in h.live :: Block(b) && forall x | In(b, x) :: !Free(h.free, x))
    && (forall b, c | b in h.live && c in h.live && b != c :: Disjoint(b, c))
    && (forall x :: In(all, x) <==> Free(h.free, x) || exists b :: b in h.live && In(b, x))
  }

  lemma GiveDivides(h: Heap, all: Blk, t: seq<Blk>, b: Blk)
    requires Divided(h, all) && Gives(h.free, t, b) && Block(b)
    ensures Divided(Heap(t, h.live + {b}), all)
  {
    var h' := Heap(t, h.live + {b});
    forall c | c in h.live
      ensures Disjoint(b, c)
    {
      if !Disjoint(b, c) {
        var x := if b.addr < c.addr then c.addr else b.addr;
        assert In(b, x) && In(c, x);
        assert false;
      }
    }
    forall x
      ensures In(all, x) <==> Free(t, x) || exists c :: c in h'.live && In(c, x)
    {
      if In(b, x) {
        assert b in h'.live;
      } else if c :| c in h.live && In(c, x) {
        assert c in h'.live;
      }
    }
  }

  lemma TakeDivides(h: Heap, all: Blk, t: seq<Blk>, b: Blk)
    requires Divided(h, all) && b in h.live && Takes(h.free, t, b)
    ensures Divided(Heap(t, h.live - {b}), all)
  {
    var h' := Heap(t, h.live - {b});
    forall c | c in h'.live
      ensures Block(c) && forall x | In(c, x) :: !Free(t, x)
    {
      assert c in h.live && Disjoint(b, c);
    }
    forall x
      ensures In(all, x) <==> Free(t, x) || exists c :: c in h'.live && In(c, x)
    {
      if c :| c in h.live && In(c, x) {
        if c != b {
          assert c in h'.live;
        }
      }
    }
  }

  /** Every call keeps the division, and a live block can always be given back. */
  lemma StepDivides(h: Heap, e: Event, h': Heap, all: Blk)
    requires Divided(h, all) && Step(h, e, h')
    ensures Divided(h', all)
  {
    hide Divided, Gives, Takes, Canonical, FirstFit, LastFit, CarveLow, CarveHigh, Release;
    assert Canonical(h.free) by { DividedFacts(h, all); }
    match e
    case GetLow(n) =>
      var i := FirstFit(h.free, n, 0);
      if i >= 0 {
        BlocksOf(h.free, i, n);
        CarveLowGives(h.free, i, n);
        GiveDivides(h, all, CarveLow(h.free, i, n), Blk(h.free[i].addr, n));
      }
    case GetHigh(n) =>
      var i := LastFit(h.free, n, |h.free|);
      if i >= 0 {
        BlocksOf(h.free, i, n);
        CarveHighGives(h.free, i, n);
        GiveDivides(h, all, CarveHigh(h.free, i, n), Blk(h.free[i].End() - n, n));
      }
    case GiveBack(b) =>
      DividedFacts(h, all);
      ReleaseTakes(h.free, b);
      TakeDivides(h, all, h'.free, b);
  }

  lemma DividedFacts(h: Heap, all: Blk)
    requires Divided(h, all)
    ensures Canonical(h.free) && forall b | b in h.live :: Block(b)
  {
  }

  lemma BlocksOf(s: seq<Blk>, i: nat, n: nat)
    requires Canonical(s) && i < |s| && 0 < n <= s[i].len && n % UNIT == 0
    ensures Block(Blk(s[i].addr, n)) && Block(Blk(s[i].End() - n, n))
  {
  }

  lemma LiveCanReturn(h: Heap, b: Blk, all: Blk)
    requires Divided(h, all) && b in h.live
    ensures Release(h.free, b).Some?
  {
    ReleaseTakes(h.free, b);
  }

  predicate Run(h: Heap, es: seq<Event>, hs: seq<Heap>)
    decreases |es|
  {
    |hs| == |es| && (es != [] ==> Step(h, es[0], hs[0]) && Run(hs[0], es[1..], hs[1..]))
  }

  /** In every run from one big free block, live blocks never overlap each other or free memory, and no byte is lost. */
  lemma {:induction false} RunDivides(h: Heap, es: seq<Event>, hs: seq<Heap>, all: Blk)
    requires Divided(h, all) && Run(h, es, hs)
    ensures forall k | 0 <= k < |hs| :: Divided(hs[k], all)
    decreases |es|
  {
    hide Divided, Step;
    if es != [] {
      StepDivides(h, es[0], hs[0], all);
      RunDivides(hs[0], es[1..], hs[1..], all);
      forall k | 0 <= k < |hs|
        ensures Divided(hs[k], all)
      {
        if k > 0 {
          assert hs[k] == hs[1..][k - 1];
        }
      }
    }
  }

  lemma StartDivided(all: Blk)
    requires Block(all)
    ensures Divided(Heap([all], {}), all)
  {
    assert forall x :: In(all, x) <==> Free([all], x) by {
      assert [all][0] == all;
    }
  }
}
