/**
 The library's quicksort: a three-way partition around a middle element, done in
 place, then recursion on the smaller side and iteration on the larger.
 */
module QSort {

  ghost predicate TotalPreorder<T(!new)>(cmp: (T, T) -> int) {
    (forall x, y :: (cmp(x, y) < 0 <==> cmp(y, x) > 0) && (cmp(x, y) == 0 <==> cmp(y, x) == 0))
    && (forall x, y, z :: cmp(x, y) <= 0 && cmp(y, z) <= 0 ==> cmp(x, z) <= 0)
  }

  ghost predicate SortedRange<T>(s: seq<T>, lo: int, hi: int, cmp: (T, T) -> int)
    requires 0 <= lo <= hi <= |s|
  {
    forall x, y | lo <= x < y < hi :: cmp(s[x], s[y]) <= 0
  }

  /** `t` is `s` with the elements from lo up to hi rearranged. */
  ghost predicate Rearranged<T>(s: seq<T>, t: seq<T>, lo: int, hi: int)
    requires 0 <= lo <= hi <= |s|
  {
    |t| == |s| && multiset(t) == multiset(s) && t[..lo] == s[..lo] && t[hi..] == s[hi..]
  }

  lemma RearrangedRange<T>(s: seq<T>, t: seq<T>, lo: int, hi: int)
    requires 0 <= lo <= hi <= |s| && Rearranged(s, t, lo, hi)
    ensures multiset(t[lo..hi]) == multiset(s[lo..hi])
  {
    assert s == s[..lo] + s[lo..hi] + s[hi..];
    assert t == t[..lo] + t[lo..hi] + t[hi..];
    assert multiset(s) == multiset(s[..lo]) + multiset(s[lo..hi]) + multiset(s[hi..]);
    assert multiset(t) == multiset(t[..lo]) + multiset(t[lo..hi]) + multiset(t[hi..]);
    assert multiset(t[lo..hi]) == multiset(t) - multiset(t[..lo]) - multiset(t[hi..]);
  }

  lemma RearrangedTrans<T>(s: seq<T>, t: seq<T>, u: seq<T>, lo: int, hi: int, lo': int, hi': int)
    requires 0 <= lo <= lo' <= hi' <= hi <= |s| && Rearranged(s, t, lo, hi) && Rearranged(t, u, lo', hi')
    ensures Rearranged(s, u, lo, hi)
  {
    assert u[..lo] == u[..lo'][..lo] && t[..lo] == t[..lo'][..lo];
    assert u[hi..] == u[hi'..][hi - hi'..] && t[hi..] == t[hi'..][hi - hi'..];
  }

  function Swapped<T>(s: seq<T>, i: nat, j: nat): seq<T>
    requires i < |s| && j < |s|
  {
    s[i := s[j]][j := s[i]]
  }

  lemma SwapRearranges<T>(s: seq<T>, i: nat, j: nat, lo: int, hi: int)
    requires 0 <= lo <= hi <= |s| && lo <= i < hi && lo <= j < hi
    ensures Rearranged(s, Swapped(s, i, j), lo, hi)
  {
    var t := Swapped(s, i, j);
    assert t[..lo] == s[..lo];
    assert t[hi..] == s[hi..];
  }

  /** qsexc on whole elements. */
  method Exchange<T>(a: array<T>, i: nat, j: nat, ghost lo: nat, ghost hi: nat)
    requires lo <= i < hi && lo <= j < hi && hi <= a.Length
    modifies a
    ensures a[..] == Swapped(old(a[..]), i, j) && Rearranged(old(a[..]), a[..], lo, hi)
  {
    hide Rearranged;
    SwapRearranges(a[..], i, j, lo, hi);
    var c := a[i];
    a[i] := a[j];
    a[j] := c;
    assert a[..] == Swapped(old(a[..]), i, j);
  }

  function Rotated<T>(s: seq<T>, i: nat, j: nat, k: nat): seq<T>
    requires i < |s| && j < |s| && k < |s|
  {
    s[i := s[k]][k := s[j]][j := s[i]]
  }

  /** qstexc on whole elements: i receives k, k receives j, j receives i. */
  method Exchange3<T>(a: array<T>, i: nat, j: nat, k: nat, ghost lo: nat, ghost hi: nat)
    requires lo <= i < hi && lo <= j < hi && lo <= k < hi && hi <= a.Length && i != j && i != k
    modifies a
    ensures a[..] == Rotated(old(a[..]), i, j, k)
    ensures Rearranged(old(a[..]), a[..], lo, hi)
  {
    hide Rearranged;
    ghost var s := a[..];
    SwapRearranges(s, i, k, lo, hi);
    SwapRearranges(Swapped(s, i, k), k, j, lo, hi);
    RearrangedTrans(s, Swapped(s, i, k), Swapped(Swapped(s, i, k), k, j), lo, hi, lo, hi);
    var c := a[i];
    a[i] := a[k];
    a[k] := a[j];
    a[j] := c;
    assert a[..] == Swapped(Swapped(s, i, k), k, j) == Rotated(s, i, j, k);
  }

  /** The five zones of the partition: below the pivot, unknown, equal, unknown, above. */
  ghost predicate Zones<T>(s: seq<T>, cmp: (T, T) -> int, p: T, lo: int, i: int, lp: int, hp: int, j: int, hi: int) {
    0 <= lo <= i <= lp <= hp <= j < hi <= |s|
    && (forall k | lo <= k < i :: cmp(s[k], p) < 0)
    && (forall k | lp <= k <= hp :: cmp(s[k], p) == 0)
    && (forall k | j < k < hi :: cmp(s[k], p) > 0)
  }

  // One lemma for each move of the partition loop.

  lemma LeftEqual<T(!new)>(s: seq<T>, cmp: (T, T) -> int, p: T, lo: int, i: int, lp: int, hp: int, j: int, hi: int)
    requires TotalPreorder(cmp) && Zones(s, cmp, p, lo, i, lp, hp, j, hi) && i < lp && cmp(s[i], s[lp]) == 0
    ensures Zones(Swapped(s, i, lp - 1), cmp, p, lo, i, lp - 1, hp, j, hi)
  {
    assert cmp(s[lp], p) == 0;
    assert cmp(s[i], p) == 0;
  }

  lemma LeftLess<T(!new)>(s: seq<T>, cmp: (T, T) -> int, p: T, lo: int, i: int, lp: int, hp: int, j: int, hi: int)
    requires TotalPreorder(cmp) && Zones(s, cmp, p, lo, i, lp, hp, j, hi) && i < lp
    ensures cmp(s[i], s[lp]) < 0 ==> Zones(s, cmp, p, lo, i + 1, lp, hp, j, hi)
    ensures cmp(s[i], s[lp]) > 0 ==> cmp(s[i], p) > 0
  {
    LikePivot(cmp, s[i], s[lp], p);
  }

  /** An element compares to the pivot as it compares to anything equal to the pivot. */
  lemma LikePivot<T(!new)>(cmp: (T, T) -> int, x: T, y: T, p: T)
    requires TotalPreorder(cmp) && cmp(y, p) == 0
    ensures cmp(x, y) < 0 <==> cmp(x, p) < 0
    ensures cmp(x, y) == 0 <==> cmp(x, p) == 0
    ensures cmp(y, x) > 0 <==> cmp(x, p) < 0
    ensures cmp(y, x) == 0 <==> cmp(x, p) == 0
  {
    assert cmp(p, y) == 0;
    assert cmp(x, y) <= 0 ==> cmp(x, p) <= 0;
    assert cmp(x, p) <= 0 ==> cmp(x, y) <= 0;
    assert cmp(y, x) <= 0 ==> cmp(p, x) <= 0;
    assert cmp(p, x) <= 0 ==> cmp(y, x) <= 0;
  }

  lemma RightKeeps<T(!new)>(s: seq<T>, cmp: (T, T) -> int, p: T, lo: int, i: int, lp: int, hp: int, j: int, hi: int)
    requires TotalPreorder(cmp) && Zones(s, cmp, p, lo, i, lp, hp, j, hi) && hp < j
    ensures cmp(s[hp], s[j]) == 0 ==> Zones(Swapped(s, hp + 1, j), cmp, p, lo, i, lp, hp + 1, j, hi)
    ensures cmp(s[hp], s[j]) < 0 ==> Zones(s, cmp, p, lo, i, lp, hp, j - 1, hi)
    ensures i < lp ==> Swapped(s, hp + 1, j)[i] == s[i]
  {
    LikePivot(cmp, s[j], s[hp], p);
    assert cmp(s[hp], s[j]) < 0 ==> cmp(s[j], p) > 0;
    hide TotalPreorder;
  }

  lemma RightLess<T(!new)>(s: seq<T>, cmp: (T, T) -> int, p: T, lo: int, i: int, lp: int, hp: int, j: int, hi: int)
    requires TotalPreorder(cmp) && Zones(s, cmp, p, lo, i, lp, hp, j, hi) && hp < j && cmp(s[hp], s[j]) > 0
    ensures i == lp ==> Zones(Rotated(s, i, hp + 1, j), cmp, p, lo, lp + 1, lp + 1, hp + 1, j, hi)
    ensures i < lp && cmp(s[i], p) > 0 ==> Zones(Swapped(s, i, j), cmp, p, lo, i + 1, lp, hp, j - 1, hi)
  {
    LikePivot(cmp, s[j], s[hp], p);
    hide TotalPreorder;
  }

  lemma ShiftLeft<T(!new)>(s: seq<T>, cmp: (T, T) -> int, p: T, lo: int, i: int, lp: int, hp: int, hi: int)
    requires TotalPreorder(cmp) && Zones(s, cmp, p, lo, i, lp, hp, hp, hi) && i < lp && cmp(s[i], p) > 0
    ensures Zones(Rotated(s, hp, lp - 1, i), cmp, p, lo, i, lp - 1, hp - 1, hp - 1, hi)
  {
  }

  method Partition<T(!new)>(a: array<T>, lo: nat, hi: nat, cmp: (T, T) -> int) returns (lp: nat, hp: nat, ghost p: T)
    requires TotalPreorder(cmp) && lo + 1 < hi <= a.Length
    modifies a
    ensures Rearranged(old(a[..]), a[..], lo, hi)
    ensures Zones(a[..], cmp, p, lo, lp, lp, hp, hp, hi)
  {
    hide TotalPreorder, Swapped, Rotated, Rearranged, Zones;
    lp := lo + (hi - lo) / 2;
    hp := lp;
    p := a[lp];
    var i, j := lo, hi - 1;
    ghost var was := a[..];
    FirstZones(was, cmp, lo, lp, hi);
    label Start:
    while true
      invariant lo <= i <= lp <= hp <= j < hi
      invariant Rearranged(was, a[..], lo, hi)
      invariant Zones(a[..], cmp, p, lo, i, lp, hp, j, hi)
      decreases lp - i + j - hp
    {
      ghost var s, room := a[..], lp - i + j - hp;
      if i < lp {
        LeftLess(s, cmp, p, lo, i, lp, hp, j, hi);
        var c := cmp(a[i], a[lp]);
        if c == 0 {
          LeftEqual(s, cmp, p, lo, i, lp, hp, j, hi);
          lp := lp - 1;
          Exchange(a, i, lp, lo, hi);
          RearrangedTrans(was, s, a[..], lo, hi, lo, hi);
          continue;
        }
        if c < 0 {
          i := i + 1;
          continue;
        }
      }
      while j > hp
        invariant lo <= i <= lp <= hp <= j < hi
        invariant Rearranged(was, a[..], lo, hi)
        invariant Zones(a[..], cmp, p, lo, i, lp, hp, j, hi)
        invariant i < lp ==> cmp(a[i], p) > 0
        invariant lp - i + j - hp <= room
        decreases j - hp
      {
        ghost var t := a[..];
        var c := cmp(a[hp], a[j]);
        if c == 0 {
          RightKeeps(t, cmp, p, lo, i, lp, hp, j, hi);
          hp := hp + 1;
          Exchange(a, hp, j, lo, hi);
          assert i < lp ==> a[i] == a[..][i] == t[i];
          RearrangedTrans(was, t, a[..], lo, hi, lo, hi);
          continue;
        }
        if c > 0 {
          RightLess(t, cmp, p, lo, i, lp, hp, j, hi);
          if i == lp {
            hp := hp + 1;
            Exchange3(a, i, hp, j, lo, hi);
            RearrangedTrans(was, t, a[..], lo, hi, lo, hi);
            lp := lp + 1;
            i := lp;
            continue;
          }
          Exchange(a, i, j, lo, hi);
          RearrangedTrans(was, t, a[..], lo, hi, lo, hi);
          j := j - 1;
          i := i + 1;
          continue Start;
        }
        RightKeeps(t, cmp, p, lo, i, lp, hp, j, hi);
        j := j - 1;
      }
      if i == lp {
        break;
      }
      ghost var u := a[..];
      ShiftLeft(u, cmp, p, lo, i, lp, hp, hi);
      lp := lp - 1;
      Exchange3(a, j, lp, i, lo, hi);
      RearrangedTrans(was, u, a[..], lo, hi, lo, hi);
      hp := hp - 1;
      j := hp;
    }
  }

  lemma FirstZones<T(!new)>(s: seq<T>, cmp: (T, T) -> int, lo: nat, lp: nat, hi: nat)
    requires TotalPreorder(cmp) && lo <= lp < hi <= |s|
    ensures Zones(s, cmp, s[lp], lo, lo, lp, lp, hi - 1, hi) && Rearranged(s, s, lo, hi)
  {
  }

  function Pow2(n: nat): nat { if n == 0 then 1 else 2 * Pow2(n - 1) }

  /** Every pair from [first, last) is in order, except perhaps pairs inside [lo, hi). */
  ghost predicate OrderedOutside<T>(s: seq<T>, cmp: (T, T) -> int, first: int, last: int, lo: int, hi: int)
    requires 0 <= first <= last <= |s|
  {
    forall x, y | first <= x < y < last && !(lo <= x && y < hi) :: cmp(s[x], s[y]) <= 0
  }

  /** A rearranged range holds the same elements, and the rest is untouched. */
  lemma RearrangedFrom<T>(s: seq<T>, t: seq<T>, lo: int, hi: int)
    requires 0 <= lo <= hi <= |s| && Rearranged(s, t, lo, hi)
    ensures forall k | 0 <= k < |s| && !(lo <= k < hi) :: t[k] == s[k]
    ensures forall k | lo <= k < hi :: exists i :: lo <= i < hi && s[i] == t[k]
  {
    RearrangedRange(s, t, lo, hi);
    forall k | 0 <= k < |s| && !(lo <= k < hi)
      ensures t[k] == s[k]
    {
      if k < lo {
        assert t[k] == t[..lo][k] == s[..lo][k];
      } else {
        assert t[k] == t[hi..][k - hi] == s[hi..][k - hi];
      }
    }
    forall k | lo <= k < hi
      ensures exists i :: lo <= i < hi && s[i] == t[k]
    {
      assert t[k] == t[lo..hi][k - lo];
      assert t[k] in multiset(t[lo..hi]);
      assert t[k] in s[lo..hi];
    }
  }

  lemma OutsideStays<T>(s: seq<T>, t: seq<T>, cmp: (T, T) -> int, first: int, last: int, lo: int, hi: int)
    requires 0 <= first <= lo <= hi <= last <= |s|
    requires OrderedOutside(s, cmp, first, last, lo, hi) && Rearranged(s, t, lo, hi)
    ensures OrderedOutside(t, cmp, first, last, lo, hi)
  {
    RearrangedFrom(s, t, lo, hi);
    forall x, y | first <= x < y < last && !(lo <= x && y < hi)
      ensures cmp(t[x], t[y]) <= 0
    {
      var i := if lo <= x < hi then (var i :| lo <= i < hi && s[i] == t[x]; i) else x;
      var j := if lo <= y < hi then (var j :| lo <= j < hi && s[j] == t[y]; j) else y;
      assert i < j && s[i] == t[x] && s[j] == t[y];
    }
  }

  lemma ZonesStay<T>(s: seq<T>, t: seq<T>, cmp: (T, T) -> int, p: T, lo: int, lp: int, hp: int, hi: int, x: int, y: int)
    requires Zones(s, cmp, p, lo, lp, lp, hp, hp, hi)
    requires (x == lo && y == lp) || (x == hp + 1 && y == hi)
    requires Rearranged(s, t, x, y)
    ensures Zones(t, cmp, p, lo, lp, lp, hp, hp, hi)
  {
    RearrangedFrom(s, t, x, y);
  }

  /** Once one outer zone is sorted, only the other can hold pairs out of order. */
  lemma OutsideShrinks<T(!new)>(s: seq<T>, cmp: (T, T) -> int, p: T, first: int, last: int, lo: int, lp: int, hp: int, hi: int)
    requires TotalPreorder(cmp) && 0 <= first <= lo && hi <= last <= |s|
    requires Zones(s, cmp, p, lo, lp, lp, hp, hp, hi) && OrderedOutside(s, cmp, first, last, lo, hi)
    ensures SortedRange(s, hp + 1, hi, cmp) ==> OrderedOutside(s, cmp, first, last, lo, lp)
    ensures SortedRange(s, lo, lp, cmp) ==> OrderedOutside(s, cmp, first, last, hp + 1, hi)
  {
    forall x, y | lo <= x < y < hi && x <= hp && lp <= y
      ensures cmp(s[x], s[y]) <= 0
    {
      assert cmp(s[x], p) <= 0;
      assert cmp(p, s[y]) <= 0;
    }
    hide TotalPreorder;
  }

  /** qs1: sorts [lo0, hi0) by recursing on the smaller zone and going round again with the larger. */
  method Qs1<T(!new)>(a: array<T>, lo0: nat, hi0: nat, cmp: (T, T) -> int) returns (ghost depth: nat)
    requires TotalPreorder(cmp) && lo0 <= hi0 <= a.Length
    modifies a
    ensures Rearranged(old(a[..]), a[..], lo0, hi0)
    ensures SortedRange(a[..], lo0, hi0, cmp)
    ensures 1 <= depth && (depth == 1 || Pow2(depth - 1) <= hi0 - lo0)
    decreases hi0 - lo0
  {
    hide TotalPreorder, Zones, Rearranged, SortedRange, OrderedOutside;
    var lo, hi := lo0, hi0;
    ghost var was := a[..];
    depth := 1;
    FirstOutside(was, cmp, lo0, hi0);
    while hi - lo > 1
      invariant lo0 <= lo <= hi <= hi0
      invariant Rearranged(was, a[..], lo0, hi0)
      invariant OrderedOutside(a[..], cmp, lo0, hi0, lo, hi)
      invariant 1 <= depth && (depth == 1 || Pow2(depth - 1) <= hi0 - lo0)
      decreases hi - lo
    {
      ghost var s := a[..];
      var lp, hp, p := Partition(a, lo, hi, cmp);
      ghost var t := a[..];
      ZoneBounds(t, cmp, p, lo, lp, hp, hi);
      RearrangedTrans(was, s, t, lo0, hi0, lo, hi);
      OutsideStays(s, t, cmp, lo0, hi0, lo, hi);
      ghost var d;
      ghost var x, y := if lp - lo >= hi - hp then hp + 1 else lo, if lp - lo >= hi - hp then hi else lp;
      if lp - lo >= hi - hp {
        d := Qs1(a, hp + 1, hi, cmp);
      } else {
        d := Qs1(a, lo, lp, cmp);
      }
      ghost var u := a[..];
      RearrangedTrans(was, t, u, lo0, hi0, x, y);
      OutsideWiden(t, u, lo, hi, x, y);
      OutsideStays(t, u, cmp, lo0, hi0, lo, hi);
      ZonesStay(t, u, cmp, p, lo, lp, hp, hi, x, y);
      OutsideShrinks(u, cmp, p, lo0, hi0, lo, lp, hp, hi);
      DepthBound(d, y - x, hi0 - lo0);
      depth := if d + 1 > depth then d + 1 else depth;
      if lp - lo >= hi - hp {
        hi := lp;
      } else {
        lo := hp + 1;
      }
    }
    AllOrdered(a[..], cmp, lo0, hi0, lo, hi);
  }

  lemma FirstOutside<T>(s: seq<T>, cmp: (T, T) -> int, lo: int, hi: int)
    requires 0 <= lo <= hi <= |s|
    ensures OrderedOutside(s, cmp, lo, hi, lo, hi) && Rearranged(s, s, lo, hi)
  {
  }

  lemma AllOrdered<T>(s: seq<T>, cmp: (T, T) -> int, first: int, last: int, lo: int, hi: int)
    requires 0 <= first <= lo <= hi <= last <= |s| && hi - lo <= 1 && OrderedOutside(s, cmp, first, last, lo, hi)
    ensures SortedRange(s, first, last, cmp)
  {
  }

  lemma ZoneBounds<T>(s: seq<T>, cmp: (T, T) -> int, p: T, lo: int, lp: int, hp: int, hi: int)
    requires Zones(s, cmp, p, lo, lp, lp, hp, hp, hi)
    ensures lo <= lp <= hp < hi <= |s|
  {
  }

  lemma OutsideWiden<T>(s: seq<T>, t: seq<T>, lo: int, hi: int, x: int, y: int)
    requires 0 <= lo <= x <= y <= hi <= |s| && Rearranged(s, t, x, y)
    ensures Rearranged(s, t, lo, hi)
  {
    FirstOutside(s, (a, b) => 0, lo, hi);
    RearrangedTrans(s, s, t, lo, hi, x, y);
  }

  /** The side recursed on is less than half, so each level at least halves the range. */
  lemma DepthBound(d: nat, m: nat, n: nat)
    requires 1 <= d && (d == 1 || Pow2(d - 1) <= m) && 2 * m + 1 <= n && n >= 2
    ensures Pow2(d) <= n
  {
  }

  /** qsort */
  method Sort<T(!new)>(a: array<T>, cmp: (T, T) -> int)
    requires TotalPreorder(cmp)
    modifies a
    ensures multiset(a[..]) == multiset(old(a[..]))
    ensures forall x, y | 0 <= x < y < a.Length :: cmp(a[x], a[y]) <= 0
  {
    ghost var d := Qs1(a, 0, a.Length, cmp);
    assert forall x | 0 <= x < a.Length :: a[x] == a[..][x];
  }
}
