/** Process queues as sequences of process ids, and the three ways the kernel orders them. */
module SchedLists {

  ghost predicate NoDup(s: seq<nat>) {
    forall i, j | 0 <= i < j < |s| :: s[i] != s[j]
  }

  function Put(s: seq<nat>, i: nat, p: nat): seq<nat>
    requires i <= |s|
  {
    s[..i] + [p] + s[i..]
  }

  function Drop(s: seq<nat>, i: nat): seq<nat>
    requires i < |s|
  {
    s[..i] + s[i + 1..]
  }

  function Find(s: seq<nat>, p: nat): (i: nat)
    requires p in s
    ensures i < |s| && s[i] == p
  {
    if s[0] == p then 0 else 1 + Find(s[1..], p)
  }

  /** A process taken out of the middle of a queue. */
  function Without(s: seq<nat>, p: nat): seq<nat> {
    if p in s then Drop(s, Find(s, p)) else s
  }

  lemma FindIs(s: seq<nat>, i: nat)
    requires NoDup(s) && i < |s|
    ensures Find(s, s[i]) == i
  {
    var j := Find(s, s[i]);
    assert s[j] == s[i];
  }

  lemma DropMembers(s: seq<nat>, i: nat)
    requires NoDup(s) && i < |s|
    ensures NoDup(Drop(s, i))
    ensures forall x :: x in Drop(s, i) <==> x in s && x != s[i]
  {
    var t := Drop(s, i);
    assert forall j | 0 <= j < |t| :: t[j] == s[if j < i then j else j + 1];
    forall x | x in s && x != s[i]
      ensures x in t
    {
      var j :| 0 <= j < |s| && s[j] == x;
      assert t[if j < i then j else j - 1] == x;
    }
  }

  lemma PutMembers(s: seq<nat>, i: nat, p: nat)
    requires NoDup(s) && i <= |s| && p !in s
    ensures NoDup(Put(s, i, p))
    ensures forall x :: x in Put(s, i, p) <==> x in s || x == p
  {
    var t := Put(s, i, p);
    assert forall j | 0 <= j < |t| :: t[j] == if j < i then s[j] else if j == i then p else s[j - 1];
    forall x | x in s
      ensures x in t
    {
      var j :| 0 <= j < |s| && s[j] == x;
      assert t[if j < i then j else j + 1] == x;
    }
    assert t[i] == p;
  }

  const MAXKEY := 0x7FFF_FFFF
  const MINKEY := -0x8000_0000

  function KeyOf(key: seq<int>, p: nat): int {
    if p < |key| then key[p] else MINKEY
  }

  /** The keys of a queue, front to back. */
  function Keys(s: seq<nat>, key: seq<int>): (ks: seq<int>)
    ensures |ks| == |s| && forall i | 0 <= i < |s| :: ks[i] == KeyOf(key, s[i])
  {
    seq(|s|, i requires 0 <= i < |s| => KeyOf(key, s[i]))
  }

  lemma KeysFrame(s: seq<nat>, key: seq<int>, p: nat, d: int)
    requires p < |key| && p !in s
    ensures Keys(s, key[p := d]) == Keys(s, key)
  {
  }

  // ---- priority order -----------------------------------------------------

  ghost predicate Descending(ks: seq<int>) {
    forall i, j | 0 <= i < j < |ks| :: ks[i] >= ks[j]
  }

  /** insert's loop: past every key that is at least `d`. */
  function RankFrom(ks: seq<int>, d: int, from: nat): (i: nat)
    requires from <= |ks|
    ensures from <= i <= |ks|
    decreases |ks| - from
  {
    if from < |ks| && ks[from] >= d then RankFrom(ks, d, from + 1) else from
  }

  /** After everything at least as urgent, before everything less so. */
  lemma {:induction false} RankPlace(ks: seq<int>, d: int, from: nat)
    requires from <= |ks| && Descending(ks)
    requires forall j | 0 <= j < from :: ks[j] >= d
    ensures var i := RankFrom(ks, d, from);
            (forall j | 0 <= j < i :: ks[j] >= d) && (forall j | i <= j < |ks| :: ks[j] < d)
    decreases |ks| - from
  {
    if from < |ks| && ks[from] >= d {
      RankPlace(ks, d, from + 1);
    }
  }

  /** Inserting by rank keeps the order. */
  lemma RankDescending(s: seq<nat>, key: seq<int>, p: nat, d: int)
    requires Descending(Keys(s, key)) && p < |key| && p !in s
    ensures Descending(Keys(Put(s, RankFrom(Keys(s, key), d, 0), p), key[p := d]))
  {
    hide RankFrom, Put;
    var ks := Keys(s, key);
    RankPlace(ks, d, 0);
    var i := RankFrom(ks, d, 0);
    var ls := Keys(Put(s, i, p), key[p := d]);
    forall a, b | 0 <= a < b < |ls|
      ensures ls[a] >= ls[b]
    {
      PutKeyAt(s, key, i, p, d, a);
      PutKeyAt(s, key, i, p, d, b);
      var x, y := if a < i then a else a - 1, if b < i then b else b - 1;
      assert a != i && b != i ==> ks[x] >= ks[y];
      assert b == i ==> ks[a] >= d;
      assert a == i ==> ks[b - 1] < d;
    }
  }

  lemma PutKeyAt(s: seq<nat>, key: seq<int>, i: nat, p: nat, d: int, j: nat)
    requires p < |key| && p !in s && i <= |s| && j < |Put(s, i, p)|
    ensures |Put(s, i, p)| == |s| + 1
    ensures var ks, ls := Keys(s, key), Keys(Put(s, i, p), key[p := d]);
            ls[j] == if j < i then ks[j] else if j == i then d else ks[j - 1]
  {
    assert Put(s, i, p)[j] == if j < i then s[j] else if j == i then p else s[j - 1];
  }

  lemma DropDescending(s: seq<nat>, key: seq<int>, i: nat)
    requires Descending(Keys(s, key)) && i < |s|
    ensures Descending(Keys(Drop(s, i), key))
  {
    var ks, ls := Keys(s, key), Keys(Drop(s, i), key);
    assert forall j | 0 <= j < |ls| :: ls[j] == ks[if j < i then j else j + 1];
  }

  // ---- order between two members ------------------------------------------

  ghost predicate Ahead(s: seq<nat>, p: nat, q: nat) {
    exists i, j :: 0 <= i < j < |s| && s[i] == p && s[j] == q
  }

  lemma PutAhead(s: seq<nat>, i: nat, x: nat, p: nat, q: nat)
    requires i <= |s| && Ahead(s, p, q)
    ensures Ahead(Put(s, i, x), p, q)
  {
    var a, b :| 0 <= a < b < |s| && s[a] == p && s[b] == q;
    var t := Put(s, i, x);
    var a', b' := if a < i then a else a + 1, if b < i then b else b + 1;
    assert t[a'] == p && t[b'] == q;
  }

  lemma DropAhead(s: seq<nat>, i: nat, p: nat, q: nat)
    requires i < |s| && Ahead(s, p, q) && s[i] != p && s[i] != q
    ensures Ahead(Drop(s, i), p, q)
  {
    var a, b :| 0 <= a < b < |s| && s[a] == p && s[b] == q;
    var t := Drop(s, i);
    var a', b' := if a < i then a else a - 1, if b < i then b else b - 1;
    assert t[a'] == p && t[b'] == q;
  }

  // ---- delta order --------------------------------------------------------

  /** Ticks left at position `i` of a delta list: the sum of the keys up to and including that one. */
  function Left(ks: seq<int>, i: nat): int
    requires i < |ks|
  {
    ks[i] + if i == 0 then 0 else Left(ks, i - 1)
  }

  /** insertd's loop: position and what is left of the delay. */
  function DeltaFrom(ks: seq<int>, d: int, from: nat): (r: (nat, int))
    requires from <= |ks|
    ensures from <= r.0 <= |ks|
    decreases |ks| - from
  {
    if from < |ks| && ks[from] <= d then DeltaFrom(ks, d - ks[from], from + 1) else (from, d)
  }

  /** insertd on a list of keys: the new key, and the successor's lowered by it. */
  function DeltaPut(ks: seq<int>, d: int): seq<int> {
    var (i, rest) := DeltaFrom(ks, d, 0);
    if i == |ks| then ks + [rest] else ks[..i] + [rest, ks[i] - rest] + ks[i + 1..]
  }

  /** unsleep on a list of keys: the successor's key takes over the removed one. */
  function DeltaCut(ks: seq<int>, i: nat): seq<int>
    requires i < |ks|
  {
    if i + 1 == |ks| then ks[..i] else ks[..i] + [ks[i] + ks[i + 1]] + ks[i + 2..]
  }

  lemma {:induction false} DeltaPlace(ks: seq<int>, d: int, from: nat)
    requires from <= |ks|
    ensures var (i, rest) := DeltaFrom(ks, d, from);
            rest == d - (if i == 0 then 0 else Left(ks, i - 1)) + (if from == 0 then 0 else Left(ks, from - 1))
            && (i < |ks| ==> ks[i] > rest) && (d >= 0 ==> rest >= 0)
    decreases |ks| - from
  {
    if from < |ks| && ks[from] <= d {
      DeltaPlace(ks, d - ks[from], from + 1);
    }
  }

  lemma {:induction false} LeftPrefix(ks: seq<int>, ls: seq<int>, i: nat)
    requires i < |ks| && i < |ls| && forall j | 0 <= j <= i :: ls[j] == ks[j]
    ensures Left(ls, i) == Left(ks, i)
  {
    if i > 0 {
      LeftPrefix(ks, ls, i - 1);
    }
  }

  /** Equal keys at a shift from `a` to `b`: the sums keep their difference. */
  lemma {:induction false} LeftShift(ks: seq<int>, ls: seq<int>, a: nat, b: nat, off: int)
    requires a <= b < |ks| && 0 <= a + off && b + off < |ls|
    requires forall j | a < j <= b :: ls[j + off] == ks[j]
    ensures Left(ls, b + off) - Left(ls, a + off) == Left(ks, b) - Left(ks, a)
    decreases b
  {
    if a < b {
      LeftShift(ks, ls, a, b - 1, off);
    }
  }

  /** insertd gives the newcomer its delay and changes no other process's. */
  lemma {:induction false} DeltaExact(ks: seq<int>, d: int, j: nat)
    requires j <= |ks|
    ensures var ls := DeltaPut(ks, d); var i := DeltaFrom(ks, d, 0).0;
            |ls| == |ks| + 1
            && Left(ls, j) == if j < i then Left(ks, j) else if j == i then d else Left(ks, j - 1)
  {
    hide DeltaFrom;
    var (i, rest) := DeltaFrom(ks, d, 0);
    DeltaPlace(ks, d, 0);
    PutLeft(ks, DeltaPut(ks, d), i, rest, j);
  }

  lemma PutLeft(ks: seq<int>, ls: seq<int>, i: nat, rest: int, j: nat)
    requires i <= |ks| && j <= |ks| && ls == if i == |ks| then ks + [rest] else ks[..i] + [rest, ks[i] - rest] + ks[i + 1..]
    ensures var d := rest + if i == 0 then 0 else Left(ks, i - 1);
            Left(ls, j) == if j < i then Left(ks, j) else if j == i then d else Left(ks, j - 1)
  {
    if i > 0 {
      LeftPrefix(ks, ls, if j < i then j else i - 1);
    }
    if j > i {
      LeftShift(ks, ls, i, j - 1, 1);
    }
  }

  /** unsleep changes no other process's remaining time. */
  lemma {:induction false} CutExact(ks: seq<int>, i: nat, j: nat)
    requires i < |ks| && j < |ks| - 1
    ensures |DeltaCut(ks, i)| == |ks| - 1 && Left(DeltaCut(ks, i), j) == Left(ks, if j < i then j else j + 1)
  {
    var ls := DeltaCut(ks, i);
    if i > 0 {
      LeftPrefix(ks, ls, if j < i then j else i - 1);
    }
    if j >= i {
      LeftShift(ks, ls, i + 1, j + 1, -1);
    }
  }

  /** insertd on the key table. */
  function DeltaKeys(s: seq<nat>, key: seq<int>, p: nat, d: int): (r: seq<int>)
    ensures |r| == |key|
  {
    var (i, rest) := DeltaFrom(Keys(s, key), d, 0);
    var key1 := WithKey(key, p, rest);
    if i < |s| then WithKey(key1, s[i], KeyOf(key1, s[i]) - rest) else key1
  }

  /** unsleep on the key table. */
  function CutKeys(s: seq<nat>, key: seq<int>, p: nat): (r: seq<int>)
    ensures |r| == |key|
  {
    if p in s && Find(s, p) + 1 < |s| then
      var next := s[Find(s, p) + 1];
      WithKey(key, next, KeyOf(key, next) + KeyOf(key, p))
    else key
  }

  function WithKey(key: seq<int>, p: nat, d: int): (r: seq<int>)
    ensures |r| == |key|
  {
    if p < |key| then key[p := d] else key
  }

  lemma DeltaKeysAre(s: seq<nat>, key: seq<int>, p: nat, d: int)
    requires NoDup(s) && p !in s && p < |key| && forall i | 0 <= i < |s| :: s[i] < |key|
    ensures Keys(Put(s, DeltaFrom(Keys(s, key), d, 0).0, p), DeltaKeys(s, key, p, d)) == DeltaPut(Keys(s, key), d)
  {
    hide DeltaFrom;
    var ks := Keys(s, key);
    var (i, rest) := DeltaFrom(ks, d, 0);
    var t := Put(s, i, p);
    var ls, ms := Keys(t, DeltaKeys(s, key, p, d)), DeltaPut(ks, d);
    forall j | 0 <= j < |t|
      ensures ls[j] == ms[j]
    {
      assert t[j] == if j < i then s[j] else if j == i then p else s[j - 1];
    }
  }

  lemma CutKeysAre(s: seq<nat>, key: seq<int>, i: nat)
    requires NoDup(s) && i < |s| && forall i | 0 <= i < |s| :: s[i] < |key|
    ensures Without(s, s[i]) == Drop(s, i)
    ensures Keys(Drop(s, i), CutKeys(s, key, s[i])) == DeltaCut(Keys(s, key), i)
  {
    FindIs(s, i);
    hide Find;
    var ls, ms := Keys(Drop(s, i), CutKeys(s, key, s[i])), DeltaCut(Keys(s, key), i);
    forall j | 0 <= j < |s| - 1
      ensures ls[j] == ms[j]
    {
      assert Drop(s, i)[j] == s[if j < i then j else j + 1];
    }
  }
}
