/** Truncation: every data block onto the free list, and the whole index chain in front of the other. */
module LfsTruncate {
  import opened LfsDisk
  import opened LfsState
  import opened LfsSteps
  import opened LfsAlloc

  function Reversed(s: seq<nat>): (r: seq<nat>)
    ensures |r| == |s|
  {
    if s == [] then [] else Reversed(s[1..]) + [s[0]]
  }

  lemma {:induction false} ReversedAdd(s: seq<nat>, x: nat)
    ensures Reversed(s + [x]) == [x] + Reversed(s)
  {
    if s == [] {
      assert [] + [x] == [x] && Reversed([x]) == [x];
    } else {
      assert (s + [x])[1..] == s[1..] + [x] && (s + [x])[0] == s[0];
      ReversedAdd(s[1..], x);
      assert [x] + Reversed(s[1..]) + [s[0]] == [x] + Reversed(s);
    }
  }

  lemma {:induction false} ReversedBag(s: seq<nat>)
    ensures multiset(Reversed(s)) == multiset(s)
  {
    if s != [] {
      ReversedBag(s[1..]);
      assert s == [s[0]] + s[1..];
      assert multiset(Reversed(s)) == multiset(Reversed(s[1..])) + multiset([s[0]]);
    }
  }

  /** The data free list once the first `n` blocks of the file are on it. */
  function Freed(sh: Shape, n: nat): seq<nat> {
    Reversed(sh.blocks[..if n < |sh.blocks| then n else |sh.blocks|]) + sh.dfree
  }

  /** Where block `i` of the chain leads once cleared. */
  function Onward(sh: Shape, i: nat): int { if i + 1 < |sh.chain| then sh.chain[i + 1] else Head(sh.ifree) }

  /** The chain's first `k` blocks are cleared and linked, the last one to the old free list. */
  ghost predicate Cleared(disk: Disk, sh: Shape, k: nat) {
    k <= |sh.chain| && forall i | 0 <= i < k :: FreeLink(IbAt(disk, sh.chain[i]), Onward(sh, i))
  }

  /** The rest of the chain is as it was. */
  ghost predicate Pending(disk: Disk, old_: Fs, sh: Shape, k: nat) {
    forall i | k <= i < |sh.chain| :: IbAt(disk, sh.chain[i]) == Ix(old_, sh.chain[i])
  }

  /** Lists, ownership and numbers: what stays fixed during truncation. */
  ghost predicate Fixed(sh: Shape, g: Geo, mi: multiset<nat>, md: multiset<nat>) {
    Numbers(sh, g) && Owned(sh.chain, sh.ifree, mi) && Owned(sh.blocks, sh.dfree, md)
  }

  /** One state of the walk: `k` index blocks done, `n` data blocks freed. */
  ghost predicate Walking(disk: Disk, dfree: Word, start: Fs, sh: Shape, g: Geo, k: nat, n: nat) {
    |disk| == g.sectors && FreeData(disk, Freed(sh, n)) && dfree == Head(Freed(sh, n)) && FreeIndex(disk, sh.ifree)
    && Cleared(disk, sh, k) && Pending(disk, start, sh, k)
  }

  lemma WalkStarts(fs: Fs, sh: Shape, g: Geo, mi: multiset<nat>, md: multiset<nat>)
    requires Base(fs, sh, g, mi, md) && !fs.ibdirty && !fs.dbdirty
    ensures Fixed(sh, g, mi, md) && Walking(fs.disk, fs.dir.dfree, fs, sh, g, 0, 0)
  {
    assert Freed(sh, 0) == sh.dfree;
  }

  // ---- one data block -----------------------------------------------------

  lemma FreedStep(sh: Shape, n: nat)
    requires n < |sh.blocks|
    ensures Freed(sh, n + 1) == [sh.blocks[n]] + Freed(sh, n)
  {
    assert sh.blocks[..n + 1] == sh.blocks[..n] + [sh.blocks[n]];
    ReversedAdd(sh.blocks[..n], sh.blocks[n]);
  }

  lemma {:induction false} InReversed(s: seq<nat>, x: nat)
    ensures x in Reversed(s) <==> x in s
  {
    if s != [] {
      InReversed(s[1..], x);
    }
  }

  /** lfdbfree: the block written with the old head in it, and made the new head. */
  lemma PushData(disk: Disk, free: seq<nat>, d: nat, rest: Sector)
    requires FreeData(disk, free) && d < |disk| && d < NULLID && d !in free && forall i | 0 <= i < |free| :: free[i] < NULLID
    ensures FreeData(disk[d := FreeBlock(Head(free), rest)], [d] + free)
  {
    FreeTrip(Head(free), rest);
    hide NextOf, FreeBlock;
    var r, t := disk[d := FreeBlock(Head(free), rest)], [d] + free;
    forall k | 0 <= k < |t|
      ensures t[k] < |r| && NextOf(r[t[k]]) == After(t, k)
    {
      if k > 0 {
        assert t[k] == free[k - 1] && free[k - 1] in free;
        assert NextOf(disk[free[k - 1]]) == After(free, k - 1);
      }
    }
  }

  lemma FreedApart(sh: Shape, g: Geo, mi: multiset<nat>, md: multiset<nat>, n: nat)
    requires Fixed(sh, g, mi, md) && n < |sh.blocks|
    ensures sh.blocks[n] !in Freed(sh, n) && FirstData(g) <= sh.blocks[n] < g.sectors && sh.blocks[n] in md
    ensures forall i | 0 <= i < |Freed(sh, n)| :: Freed(sh, n)[i] < NULLID
  {
    OwnedApart(sh.blocks, sh.dfree, md);
    var d, pre := sh.blocks[n], sh.blocks[..n];
    assert d in sh.blocks;
    InReversed(pre, d);
    assert d !in pre;
    forall i | 0 <= i < |Freed(sh, n)|
      ensures Freed(sh, n)[i] < NULLID
    {
      if i < |pre| {
        InReversed(pre, Reversed(pre)[i]);
        assert Reversed(pre)[i] in Reversed(pre);
      } else {
        assert Freed(sh, n)[i] == sh.dfree[i - |pre|];
      }
    }
  }

  lemma FreeOne(disk: Disk, dfree: Word, start: Fs, sh: Shape, g: Geo, mi: multiset<nat>, md: multiset<nat>, k: nat, n: nat, rest: Sector)
    requires Fixed(sh, g, mi, md) && Walking(disk, dfree, start, sh, g, k, n) && n < |sh.blocks|
    ensures sh.blocks[n] < |disk|
    ensures var r := disk[sh.blocks[n] := FreeBlock(dfree, rest)];
            Walking(r, sh.blocks[n], start, sh, g, k, n + 1) && Elsewhere(disk, r, g, mi, md)
            && (forall m: nat | m < g.nib :: IbAt(r, m) == IbAt(disk, m))
  {
    var d := sh.blocks[n];
    FreedApart(sh, g, mi, md, n);
    FreedStep(sh, n);
    hide NextOf, FreeBlock, IbAt, Owned, Freed, FreeData;
    PushData(disk, Freed(sh, n), d, rest);
    DataElsewhere(disk, d, FreeBlock(dfree, rest), g, mi, md);
  }

  // ---- one index block ----------------------------------------------------

  lemma ClearOne(disk: Disk, dfree: Word, start: Fs, sh: Shape, g: Geo, mi: multiset<nat>, md: multiset<nat>, k: nat, n: nat, ib: IBlk)
    requires Fixed(sh, g, mi, md) && Walking(disk, dfree, start, sh, g, k, n) && k < |sh.chain| && IbOk(ib)
    requires FreeLink(ib, Onward(sh, k))
    ensures var r := WithIb(disk, sh.chain[k], ib);
            Walking(r, dfree, start, sh, g, k + 1, n) && Elsewhere(disk, r, g, mi, md)
  {
    hide NextOf, IbAt, Owned, WithIb;
    OwnedApart(sh.chain, sh.ifree, mi);
    assert sh.chain[k] in sh.chain;
    IndexElsewhere(disk, sh.chain[k], ib, g, mi, md);
    var r := WithIb(disk, sh.chain[k], ib);
    assert FreeIndex(r, sh.ifree) by {
      forall i | 0 <= i < |sh.ifree|
        ensures FreeLink(IbAt(r, sh.ifree[i]), After(sh.ifree, i))
      {
        assert sh.ifree[i] in sh.ifree;
      }
    }
    assert FreeData(r, Freed(sh, n)) by { FreedSectors(sh, g, mi, md, n); }
  }

  lemma FreedSectors(sh: Shape, g: Geo, mi: multiset<nat>, md: multiset<nat>, n: nat)
    requires Fixed(sh, g, mi, md)
    ensures forall i | 0 <= i < |Freed(sh, n)| :: FirstData(g) <= Freed(sh, n)[i] < g.sectors
  {
    var pre := sh.blocks[..if n < |sh.blocks| then n else |sh.blocks|];
    forall i | 0 <= i < |Freed(sh, n)|
      ensures FirstData(g) <= Freed(sh, n)[i] < g.sectors
    {
      if i < |pre| {
        InReversed(pre, Reversed(pre)[i]);
        assert Reversed(pre)[i] in Reversed(pre);
      } else {
        assert Freed(sh, n)[i] == sh.dfree[i - |pre|];
      }
    }
  }

  // ---- the end ------------------------------------------------------------

  /** The file with no blocks, and everything it had on the free lists. */
  function Emptied(sh: Shape): Shape {
    Shape([], [], sh.chain + sh.ifree, Reversed(sh.blocks) + sh.dfree)
  }

  lemma SplicedFree(disk: Disk, sh: Shape)
    requires Cleared(disk, sh, |sh.chain|) && FreeIndex(disk, sh.ifree)
    ensures FreeIndex(disk, sh.chain + sh.ifree)
  {
    hide FreeLink, IbAt;
    var t := sh.chain + sh.ifree;
    forall k | 0 <= k < |t|
      ensures FreeLink(IbAt(disk, t[k]), After(t, k))
    {
      if k < |sh.chain| {
        assert t[k] == sh.chain[k];
        assert FreeLink(IbAt(disk, sh.chain[k]), Onward(sh, k));
      } else {
        assert t[k] == sh.ifree[k - |sh.chain|];
        assert FreeLink(IbAt(disk, sh.ifree[k - |sh.chain|]), After(sh.ifree, k - |sh.chain|));
      }
    }
  }

  lemma EmptiedOwned(sh: Shape, g: Geo, mi: multiset<nat>, md: multiset<nat>)
    requires Fixed(sh, g, mi, md)
    ensures Fixed(Emptied(sh), g, mi, md)
  {
    var e := Emptied(sh);
    assert multiset(sh.chain + sh.ifree) == multiset(sh.chain) + multiset(sh.ifree);
    ReversedBag(sh.blocks);
    assert multiset(Reversed(sh.blocks) + sh.dfree) == multiset(Reversed(sh.blocks)) + multiset(sh.dfree);
    FreedSectors(sh, g, mi, md, |sh.blocks|);
    assert sh.blocks[..|sh.blocks|] == sh.blocks;
    assert e.dfree == Freed(sh, |sh.blocks|);
  }

  /** When the walk is over, an empty file and longer free lists are what is left. */
  lemma WalkEnds(r: Fs, start: Fs, sh: Shape, g: Geo, mi: multiset<nat>, md: multiset<nat>, n: nat)
    requires Fixed(sh, g, mi, md) && Walking(r.disk, r.dir.dfree, start, sh, g, |sh.chain|, n) && n >= |sh.blocks|
    requires r.dir.ifree == Head(sh.chain + sh.ifree) && r.dir.ilist == NULLID
    requires r.inum == NULLID && r.dnum == NULLID && !r.ibdirty && !r.dbdirty && IbOk(r.ib)
    ensures Base(r, Emptied(sh), g, mi, md)
  {
    EmptiedOwned(sh, g, mi, md);
    SplicedFree(r.disk, sh);
    assert sh.blocks[..|sh.blocks|] == sh.blocks;
  }
}
