/**
 The kernel's free memory as a list of blocks in address order, and what allocating
 from it and returning to it mean. A list without gaps of zero between its blocks is
 determined by the set of bytes it covers.
 */
module FreeList {

  datatype Blk = Blk(addr: nat, len: nat) {
    function End(): nat { addr + len }
  }

  const UNIT := 8

  /** Address order, no overlap and no two blocks touching, everything a multiple of 8. */
  predicate Canonical(s: seq<Blk>) {
    (forall i | 0 <= i < |s| :: s[i].addr > 0 && s[i].len > 0 && s[i].addr % UNIT == 0 && s[i].len % UNIT == 0)
    && (forall i, j | 0 <= i < j < |s| :: s[i].End() < s[j].addr)
  }

  ghost predicate Free(s: seq<Blk>, x: int) {
    exists i :: 0 <= i < |s| && s[i].addr <= x < s[i].End()
  }

  predicate In(b: Blk, x: int) { b.addr <= x < b.End() }

  function Total(s: seq<Blk>): nat {
    if s == [] then 0 else s[0].len + Total(s[1..])
  }

  /** The same free bytes mean the same list. */
  lemma {:induction false} CanonicalUnique(s: seq<Blk>, t: seq<Blk>)
    requires Canonical(s) && Canonical(t)
    requires forall x :: Free(s, x) <==> Free(t, x)
    ensures s == t
    decreases |s|
  {
    if s == [] {
      if t != [] {
        assert Free(t, t[0].addr);
      }
    } else {
      assert Free(s, s[0].addr);
      HeadsAgree(s, t);
      forall x
        ensures Free(s[1..], x) <==> Free(t[1..], x)
      {
        TailFree(s, x);
        TailFree(t, x);
      }
      CanonicalUnique(s[1..], t[1..]);
    }
  }

  lemma TailFree(s: seq<Blk>, x: int)
    requires Canonical(s) && s != []
    ensures Free(s[1..], x) <==> Free(s, x) && x >= s[0].End()
    ensures Canonical(s[1..])
  {
    if Free(s, x) {
      var i :| 0 <= i < |s| && s[i].addr <= x < s[i].End();
      if i > 0 {
        assert s[1..][i - 1] == s[i];
      }
    }
    if Free(s[1..], x) {
      var i :| 0 <= i < |s[1..]| && s[1..][i].addr <= x < s[1..][i].End();
      assert s[i + 1] == s[1..][i];
    }
  }

  lemma FirstIsLeast(s: seq<Blk>, x: int)
    requires Canonical(s) && s != [] && Free(s, x)
    ensures s[0].addr <= x
    ensures x == s[0].End() ==> false
  {
    var i :| 0 <= i < |s| && s[i].addr <= x < s[i].End();
  }

  lemma HeadsAgree(s: seq<Blk>, t: seq<Blk>)
    requires Canonical(s) && Canonical(t) && s != []
    requires forall x :: Free(s, x) <==> Free(t, x)
    ensures t != [] && s[0] == t[0]
  {
    assert Free(s, s[0].addr);
    assert Free(t, s[0].addr);
    assert Free(t, t[0].addr);
    FirstIsLeast(t, s[0].addr);
    FirstIsLeast(s, t[0].addr);
    HeadEnds(s, t);
    HeadEnds(t, s);
  }

  lemma HeadEnds(s: seq<Blk>, t: seq<Blk>)
    requires Canonical(s) && Canonical(t) && s != [] && t != [] && s[0].addr == t[0].addr
    requires forall x :: Free(s, x) <==> Free(t, x)
    ensures t[0].End() <= s[0].End()
  {
    if s[0].End() < t[0].End() {
      assert Free(t, s[0].End());
      FirstIsLeast(s, s[0].End());
    }
  }

  // ---- allocation ---------------------------------------------------------

  /** The lowest block of at least `n` bytes, or -1. */
  function FirstFit(s: seq<Blk>, n: nat, from: nat): (i: int)
    requires from <= |s|
    ensures i == -1 || (from <= i < |s| && s[i].len >= n)
    decreases |s| - from
  {
    if from == |s| then -1 else if s[from].len >= n then from else FirstFit(s, n, from + 1)
  }

  /** The highest of the first `upto` blocks with at least `n` bytes, or -1. */
  function LastFit(s: seq<Blk>, n: nat, upto: nat): (i: int)
    requires upto <= |s|
    ensures i == -1 || (0 <= i < upto && s[i].len >= n)
  {
    if upto == 0 then -1 else if s[upto - 1].len >= n then upto - 1 else LastFit(s, n, upto - 1)
  }

  /** No lower block would do, and none at all if the search fails. */
  lemma {:induction false} FirstFitIsFirst(s: seq<Blk>, n: nat, from: nat)
    requires from <= |s|
    ensures var i := FirstFit(s, n, from); forall j | from <= j < (if i == -1 then |s| else i) :: s[j].len < n
    decreases |s| - from
  {
    if from < |s| && s[from].len < n {
      FirstFitIsFirst(s, n, from + 1);
    }
  }

  /** No higher block would do, and none at all if the search fails. */
  lemma {:induction false} LastFitIsLast(s: seq<Blk>, n: nat, upto: nat)
    requires upto <= |s|
    ensures var i := LastFit(s, n, upto); forall j | (if i == -1 then 0 else i + 1) <= j < upto :: s[j].len < n
  {
    if upto > 0 && s[upto - 1].len < n {
      LastFitIsLast(s, n, upto - 1);
    }
  }

  /** Block `i` gives up its lowest `n` bytes. */
  function CarveLow(s: seq<Blk>, i: nat, n: nat): seq<Blk>
    requires i < |s| && n <= s[i].len
  {
    if s[i].len == n then s[..i] + s[i + 1..] else s[i := Blk(s[i].addr + n, s[i].len - n)]
  }

  /** Block `i` gives up its highest `n` bytes. */
  function CarveHigh(s: seq<Blk>, i: nat, n: nat): seq<Blk>
    requires i < |s| && n <= s[i].len
  {
    if s[i].len == n then s[..i] + s[i + 1..] else s[i := Blk(s[i].addr, s[i].len - n)]
  }

  lemma {:induction false} TotalSplit(s: seq<Blk>, t: seq<Blk>)
    ensures Total(s + t) == Total(s) + Total(t)
  {
    if s == [] {
      assert s + t == t;
    } else {
      assert (s + t)[1..] == s[1..] + t;
      TotalSplit(s[1..], t);
    }
  }

  lemma TotalAround(s: seq<Blk>, i: nat, m: seq<Blk>)
    requires i < |s|
    ensures Total(s[..i] + m + s[i + 1..]) == Total(s) - s[i].len + Total(m)
  {
    assert s == s[..i] + ([s[i]] + s[i + 1..]);
    assert s[..i] + m + s[i + 1..] == s[..i] + (m + s[i + 1..]);
    TotalSplit(s[..i], [s[i]] + s[i + 1..]);
    TotalSplit([s[i]], s[i + 1..]);
    TotalSplit(s[..i], m + s[i + 1..]);
    TotalSplit(m, s[i + 1..]);
  }

  /** Replacing block `i` by at most one block inside it. */
  function Replaced(s: seq<Blk>, i: nat, keep: Blk): seq<Blk>
    requires i < |s|
  {
    if keep.len == 0 then s[..i] + s[i + 1..] else s[i := keep]
  }

  lemma ReplacedCanonical(s: seq<Blk>, i: nat, keep: Blk)
    requires Canonical(s) && i < |s| && s[i].addr <= keep.addr && keep.End() <= s[i].End()
    requires keep.addr % UNIT == 0 && keep.len % UNIT == 0
    ensures Canonical(Replaced(s, i, keep))
  {
    var t := Replaced(s, i, keep);
    forall k | 0 <= k < |t|
      ensures t[k].addr > 0 && t[k].len > 0 && t[k].addr % UNIT == 0 && t[k].len % UNIT == 0
    {
      assert keep.len > 0 ==> t[k] == if k == i then keep else s[k];
      assert keep.len == 0 ==> t[k] == s[if k >= i then k + 1 else k];
    }
    forall j, k | 0 <= j < k < |t|
      ensures t[j].End() < t[k].addr
    {
      var j', k' := if keep.len == 0 && j >= i then j + 1 else j, if keep.len == 0 && k >= i then k + 1 else k;
      assert s[j'].End() < s[k'].addr;
    }
  }

  lemma ReplacedTotal(s: seq<Blk>, i: nat, keep: Blk)
    requires i < |s|
    ensures Total(Replaced(s, i, keep)) == Total(s) - s[i].len + keep.len
  {
    PairTotal([]);
    PairTotal([keep]);
    hide Total;
    if keep.len == 0 {
      TotalAround(s, i, []);
      assert s[..i] + [] + s[i + 1..] == s[..i] + s[i + 1..];
    } else {
      TotalAround(s, i, [keep]);
      assert s[..i] + [keep] + s[i + 1..] == s[i := keep];
    }
  }

  lemma OneBlock(s: seq<Blk>, j: nat, k: nat, x: int)
    requires Canonical(s) && j < |s| && k < |s| && In(s[j], x) && In(s[k], x)
    ensures j == k
  {
  }

  lemma ReplacedLess(s: seq<Blk>, i: nat, keep: Blk, x: int)
    requires Canonical(s) && i < |s| && s[i].addr <= keep.addr && keep.End() <= s[i].End()
    requires Free(Replaced(s, i, keep), x)
    ensures Free(s, x) && (In(s[i], x) ==> In(keep, x))
  {
    hide Canonical;
    var t := Replaced(s, i, keep);
    var k :| 0 <= k < |t| && t[k].addr <= x < t[k].End();
    var o := if keep.len == 0 && k >= i then k + 1 else k;
    assert t[k] == if keep.len > 0 && k == i then keep else s[o];
    assert s[o].addr <= x < s[o].End();
    if In(s[i], x) {
      OneBlock(s, o, i, x);
    }
  }

  lemma ReplacedMore(s: seq<Blk>, i: nat, keep: Blk, x: int)
    requires i < |s| && Free(s, x) && (In(s[i], x) ==> In(keep, x))
    ensures Free(Replaced(s, i, keep), x)
  {
    var t := Replaced(s, i, keep);
    var k :| 0 <= k < |s| && s[k].addr <= x < s[k].End();
    var o := if keep.len == 0 && k > i then k - 1 else k;
    assert t[o] == if k == i then keep else s[k];
  }

  lemma ReplacedFree(s: seq<Blk>, i: nat, keep: Blk, x: int)
    requires Canonical(s) && i < |s| && s[i].addr <= keep.addr && keep.End() <= s[i].End()
    ensures Free(Replaced(s, i, keep), x) <==> Free(s, x) && (In(s[i], x) ==> In(keep, x))
  {
    hide Free, Canonical, Replaced;
    if Free(Replaced(s, i, keep), x) {
      ReplacedLess(s, i, keep, x);
    }
    if Free(s, x) && (In(s[i], x) ==> In(keep, x)) {
      ReplacedMore(s, i, keep, x);
    }
  }

  /** A block handed out is exactly what leaves the free bytes. */
  ghost predicate Gives(s: seq<Blk>, t: seq<Blk>, b: Blk) {
    Canonical(t) && Total(t) == Total(s) - b.len
    && (forall x | In(b, x) :: Free(s, x))
    && (forall x :: Free(t, x) <==> Free(s, x) && !In(b, x))
  }

  lemma CarveLowGives(s: seq<Blk>, i: nat, n: nat)
    requires Canonical(s) && i < |s| && n <= s[i].len && n % UNIT == 0
    ensures Gives(s, CarveLow(s, i, n), Blk(s[i].addr, n))
  {
    var keep := Blk(s[i].addr + n, s[i].len - n);
    assert keep.addr % UNIT == 0 && keep.len % UNIT == 0;
    assert CarveLow(s, i, n) == Replaced(s, i, keep);
    ReplacedCanonical(s, i, keep);
    ReplacedTotal(s, i, keep);
    forall x
      ensures Free(CarveLow(s, i, n), x) <==> Free(s, x) && !In(Blk(s[i].addr, n), x)
    {
      ReplacedFree(s, i, keep, x);
    }
  }

  lemma CarveHighGives(s: seq<Blk>, i: nat, n: nat)
    requires Canonical(s) && i < |s| && n <= s[i].len && n % UNIT == 0
    ensures Gives(s, CarveHigh(s, i, n), Blk(s[i].End() - n, n))
  {
    var keep := Blk(s[i].addr, s[i].len - n);
    assert keep.len % UNIT == 0;
    assert CarveHigh(s, i, n) == Replaced(s, i, keep);
    ReplacedCanonical(s, i, keep);
    ReplacedTotal(s, i, keep);
    forall x
      ensures Free(CarveHigh(s, i, n), x) <==> Free(s, x) && !In(Blk(s[i].End() - n, n), x)
    {
      ReplacedFree(s, i, keep, x);
    }
  }

  // ---- release ------------------------------------------------------------

  /** The position of the first block at or above address `a`. */
  function Where(s: seq<Blk>, a: nat, from: nat): (k: nat)
    requires from <= |s|
    ensures from <= k <= |s|
    ensures forall j | from <= j < k :: s[j].addr < a
    ensures k < |s| ==> s[k].addr >= a
    decreases |s| - from
  {
    if from == |s| || s[from].addr >= a then from else Where(s, a, from + 1)
  }

  /** freemem's test: the block runs into its predecessor or its successor on the list. */
  predicate Clashes(s: seq<Blk>, k: nat, b: Blk)
    requires k <= |s|
  {
    (k > 0 && b.addr < s[k - 1].End()) || (k < |s| && b.End() > s[k].addr)
  }

  predicate Low(s: seq<Blk>, k: nat, b: Blk)
    requires k <= |s|
  {
    k > 0 && s[k - 1].End() == b.addr
  }

  predicate High(s: seq<Blk>, k: nat, b: Blk)
    requires k <= |s|
  {
    k < |s| && b.End() == s[k].addr
  }

  /** The block together with whatever it touches. */
  function Mid(s: seq<Blk>, k: nat, b: Blk): Blk
    requires k <= |s|
  {
    Blk(if Low(s, k, b) then s[k - 1].addr else b.addr,
        (if Low(s, k, b) then s[k - 1].len else 0) + b.len + (if High(s, k, b) then s[k].len else 0))
  }

  /** Replacing a stretch of the list by one block. */
  function Spliced(s: seq<Blk>, lo: nat, hi: nat, mid: Blk): seq<Blk>
    requires lo <= hi <= |s|
  {
    s[..lo] + [mid] + s[hi..]
  }

  /** The block put in at position `k`, joined with whatever it touches. */
  function Joined(s: seq<Blk>, k: nat, b: Blk): seq<Blk>
    requires k <= |s|
  {
    Spliced(s, if Low(s, k, b) then k - 1 else k, if High(s, k, b) then k + 1 else k, Mid(s, k, b))
  }

  datatype Option<T> = None | Some(value: T)

  /** freemem on values: none if the block clashes with free memory. */
  function Release(s: seq<Blk>, b: Blk): Option<seq<Blk>> {
    var k := Where(s, b.addr, 0);
    if Clashes(s, k, b) then None else Some(Joined(s, k, b))
  }

  predicate Block(b: Blk) { b.addr > 0 && b.len > 0 && b.addr % UNIT == 0 && b.len % UNIT == 0 }

  lemma SplicedCanonical(s: seq<Blk>, lo: nat, hi: nat, mid: Blk)
    requires Canonical(s) && lo <= hi <= |s| && Block(mid)
    requires lo > 0 ==> s[lo - 1].End() < mid.addr
    requires hi < |s| ==> mid.End() < s[hi].addr
    ensures Canonical(Spliced(s, lo, hi, mid))
  {
    var t := Spliced(s, lo, hi, mid);
    forall j | 0 <= j < |t|
      ensures t[j].addr > 0 && t[j].len > 0 && t[j].addr % UNIT == 0 && t[j].len % UNIT == 0
    {
      assert t[j] == if j < lo then s[j] else if j == lo then mid else s[j - lo - 1 + hi];
    }
    forall j, m | 0 <= j < m < |t|
      ensures t[j].End() < t[m].addr
    {
      SplicedOrder(s, lo, hi, mid, j, m);
    }
  }

  lemma SplicedOrder(s: seq<Blk>, lo: nat, hi: nat, mid: Blk, j: nat, m: nat)
    requires Canonical(s) && lo <= hi <= |s| && Block(mid)
    requires lo > 0 ==> s[lo - 1].End() < mid.addr
    requires hi < |s| ==> mid.End() < s[hi].addr
    requires j < m < |Spliced(s, lo, hi, mid)|
    ensures Spliced(s, lo, hi, mid)[j].End() < Spliced(s, lo, hi, mid)[m].addr
  {
    var t := Spliced(s, lo, hi, mid);
    if m < lo {
      assert t[j] == s[j] && t[m] == s[m];
    } else if m == lo {
      assert t[j] == s[j] && t[m] == mid;
      assert j < lo - 1 ==> s[j].End() < s[lo - 1].addr;
    } else {
      var o := m - lo - 1 + hi;
      assert t[m] == s[o];
      assert hi < o ==> s[hi].End() < s[o].addr;
      if j < lo {
        assert t[j] == s[j];
      } else if j == lo {
        assert t[j] == mid;
      } else {
        assert t[j] == s[j - lo - 1 + hi];
      }
    }
  }

  lemma SplicedTotal(s: seq<Blk>, lo: nat, hi: nat, mid: Blk)
    requires lo <= hi <= |s|
    ensures Total(Spliced(s, lo, hi, mid)) == Total(s) - Total(s[lo..hi]) + mid.len
  {
    PairTotal([mid]);
    hide Total;
    var a, b, c := s[..lo], s[lo..hi], s[hi..];
    assert Spliced(s, lo, hi, mid) == a + ([mid] + c);
    assert s == a + (b + c);
    TotalSplit(a, [mid] + c);
    TotalSplit([mid], c);
    TotalSplit(a, b + c);
    TotalSplit(b, c);
  }

  lemma Multiples(a: int, b: int, c: int)
    requires a % UNIT == 0 && b % UNIT == 0 && c % UNIT == 0
    ensures (a + b + c) % UNIT == 0
  {
  }

  lemma MidIsBlock(s: seq<Blk>, k: nat, b: Blk)
    requires Canonical(s) && Block(b) && k <= |s|
    ensures Block(Mid(s, k, b))
  {
    Multiples(if Low(s, k, b) then s[k - 1].len else 0, b.len, if High(s, k, b) then s[k].len else 0);
  }

  lemma JoinedCanonical(s: seq<Blk>, k: nat, b: Blk)
    requires Canonical(s) && Block(b) && k <= |s| && !Clashes(s, k, b)
    ensures Canonical(Joined(s, k, b))
  {
    MidIsBlock(s, k, b);
    var lo := if Low(s, k, b) then k - 1 else k;
    var hi := if High(s, k, b) then k + 1 else k;
    if lo > 0 && Low(s, k, b) {
      assert s[lo - 1].End() < s[k - 1].addr;
    }
    if hi < |s| && High(s, k, b) {
      assert s[k].End() < s[hi].addr;
    }
    hide Canonical, Spliced, Block;
    SplicedCanonical(s, lo, hi, Mid(s, k, b));
  }

  lemma JoinedTotal(s: seq<Blk>, k: nat, b: Blk)
    requires k <= |s|
    ensures Total(Joined(s, k, b)) == Total(s) + b.len
  {
    var lo := if Low(s, k, b) then k - 1 else k;
    var hi := if High(s, k, b) then k + 1 else k;
    PairTotal(s[lo..hi]);
    hide Total, Spliced;
    SplicedTotal(s, lo, hi, Mid(s, k, b));
  }

  lemma PairTotal(s: seq<Blk>)
    ensures |s| == 0 ==> Total(s) == 0
    ensures |s| == 1 ==> Total(s) == s[0].len
    ensures |s| == 2 ==> Total(s) == s[0].len + s[1].len
  {
    if |s| == 2 {
      assert s[1..][1..] == [];
    }
  }

  lemma JoinedMore(s: seq<Blk>, k: nat, b: Blk, x: int)
    requires k <= |s| && (Free(s, x) || In(b, x))
    ensures Free(Joined(s, k, b), x)
  {
    var t := Joined(s, k, b);
    var lo := if Low(s, k, b) then k - 1 else k;
    var hi := if High(s, k, b) then k + 1 else k;
    assert t[lo] == Mid(s, k, b);
    if In(b, x) {
      assert t[lo].addr <= x < t[lo].End();
    } else {
      var i :| 0 <= i < |s| && s[i].addr <= x < s[i].End();
      if i < lo {
        assert t[i] == s[i];
      } else if i < hi {
        assert t[lo].addr <= x < t[lo].End();
      } else {
        assert t[i - hi + lo + 1] == s[i];
      }
    }
  }

  lemma JoinedLess(s: seq<Blk>, k: nat, b: Blk, x: int)
    requires k <= |s| && Free(Joined(s, k, b), x)
    ensures Free(s, x) || In(b, x)
  {
    var t := Joined(s, k, b);
    var lo := if Low(s, k, b) then k - 1 else k;
    var hi := if High(s, k, b) then k + 1 else k;
    var i :| 0 <= i < |t| && t[i].addr <= x < t[i].End();
    if i < lo {
      assert s[i] == t[i];
    } else if i > lo {
      assert s[i - lo - 1 + hi] == t[i];
    } else if !In(b, x) {
      if x < b.addr {
        assert s[k - 1].addr <= x < s[k - 1].End();
      } else {
        assert s[k].addr <= x < s[k].End();
      }
    }
  }

  /** A block taken back is exactly what joins the free bytes. */
  ghost predicate Takes(s: seq<Blk>, t: seq<Blk>, b: Blk) {
    Canonical(t) && Total(t) == Total(s) + b.len
    && (forall x :: Free(t, x) <==> Free(s, x) || In(b, x))
  }

  /** freemem accepts a block exactly when none of its bytes is free already, and then adds just those bytes. */
  lemma ReleaseTakes(s: seq<Blk>, b: Blk)
    requires Canonical(s) && Block(b)
    ensures Release(s, b).Some? <==> forall x | In(b, x) :: !Free(s, x)
    ensures Release(s, b).Some? ==> Takes(s, Release(s, b).value, b)
  {
    var k := Where(s, b.addr, 0);
    if Clashes(s, k, b) {
      ClashIsOverlap(s, b);
    } else {
      NoClashNoOverlap(s, b);
      JoinedCanonical(s, k, b);
      JoinedTotal(s, k, b);
      forall x
        ensures Free(Joined(s, k, b), x) <==> Free(s, x) || In(b, x)
      {
        hide Free, Canonical, Joined, Clashes;
        if Free(s, x) || In(b, x) {
          JoinedMore(s, k, b, x);
        }
        if Free(Joined(s, k, b), x) {
          JoinedLess(s, k, b, x);
        }
      }
    }
  }

  lemma ClashIsOverlap(s: seq<Blk>, b: Blk)
    requires Canonical(s) && Block(b) && Clashes(s, Where(s, b.addr, 0), b)
    ensures exists x :: In(b, x) && Free(s, x)
  {
    var k := Where(s, b.addr, 0);
    if k > 0 && b.addr < s[k - 1].End() {
      assert s[k - 1].addr <= b.addr < s[k - 1].End();
      assert In(b, b.addr) && Free(s, b.addr);
    } else {
      assert s[k].addr <= s[k].addr < s[k].End();
      assert In(b, s[k].addr) && Free(s, s[k].addr);
    }
  }

  lemma NoClashNoOverlap(s: seq<Blk>, b: Blk)
    requires Canonical(s) && Block(b) && !Clashes(s, Where(s, b.addr, 0), b)
    ensures forall x | In(b, x) :: !Free(s, x)
  {
    var k := Where(s, b.addr, 0);
    forall x, i | In(b, x) && 0 <= i < |s|
      ensures !(s[i].addr <= x < s[i].End())
    {
      if i + 1 < k {
        assert s[i].End() < s[k - 1].addr;
      } else if i > k {
        assert s[k].End() < s[i].addr;
      }
    }
  }
}
