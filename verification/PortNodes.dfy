/** Message nodes: one free list and one list per port, all threaded through the same nodes. */
module PortNodes {
  import opened Bags

  datatype PtNode = PtNode(ptmsg: int, ptnext: int)

  const NULL := -1

  type Nodes = seq<PtNode>

  function HeadOf(s: seq<nat>): int { if s == [] then NULL else s[0] }

  function TailOf(s: seq<nat>): int { if s == [] then NULL else s[|s| - 1] }

  ghost predicate NextAt(nodes: Nodes, s: seq<nat>, j: nat)
    requires j < |s|
  {
    s[j] < |nodes| && nodes[s[j]].ptnext == if j + 1 < |s| then s[j + 1] else NULL
  }

  ghost predicate Chained(nodes: Nodes, s: seq<nat>) {
    forall j | 0 <= j < |s| :: NextAt(nodes, s, j)
  }

  lemma ChainFrame(nodes: Nodes, t: Nodes, o: seq<nat>)
    requires Chained(nodes, o) && |t| == |nodes| && forall x | x in o && x < |nodes| :: t[x] == nodes[x]
    ensures Chained(t, o) && Contents(t, o) == Contents(nodes, o)
  {
    forall j | 0 <= j < |o|
      ensures NextAt(t, o, j) && t[o[j]] == nodes[o[j]]
    {
      assert NextAt(nodes, o, j);
    }
  }

  /** The messages along a list. */
  function Contents(nodes: Nodes, s: seq<nat>): (m: seq<int>)
    ensures |m| == |s|
  {
    seq<int>(|s|, j requires 0 <= j < |s| => if s[j] < |nodes| then nodes[s[j]].ptmsg else 0)
  }

  /** Every node is on exactly one list, once. */
  ghost predicate Partition(ls: Lists, n: nat) {
    forall x: nat :: All(ls)[x] == if x < n then 1 else 0
  }

  /** Changing two lists without changing what they hold together. */
  lemma Exchange(ls: Lists, a: nat, b: nat, s: seq<nat>, t: seq<nat>, n: nat)
    requires a < |ls| && b < |ls| && a != b && Partition(ls, n)
    requires multiset(s) + multiset(t) == multiset(ls[a]) + multiset(ls[b])
    ensures Partition(ls[a := s][b := t], n)
  {
    var ms := ls[a := s][b := t];
    hide All;
    forall x: nat
      ensures All(ms)[x] == if x < n then 1 else 0
    {
      ExchangeAt(ls, a, b, s, t, x);
      assert All(ls)[x] == if x < n then 1 else 0;
    }
  }

  lemma ExchangeAt(ls: Lists, a: nat, b: nat, s: seq<nat>, t: seq<nat>, x: nat)
    requires a < |ls| && b < |ls| && a != b
    requires multiset(s) + multiset(t) == multiset(ls[a]) + multiset(ls[b])
    ensures All(ls[a := s][b := t])[x] == All(ls)[x]
  {
    AllSet(ls, a, s);
    AllSet(ls[a := s], b, t);
    hide All;
    assert (multiset(s) + multiset(t))[x] == (multiset(ls[a]) + multiset(ls[b]))[x];
  }

  /** Nodes of one list are distinct and on no other list. */
  lemma Apart(ls: Lists, n: nat, a: nat)
    requires Partition(ls, n) && a < |ls|
    ensures forall i, j | 0 <= i < j < |ls[a]| :: ls[a][i] != ls[a][j]
    ensures forall i | 0 <= i < |ls[a]| :: ls[a][i] < n
    ensures forall b, x | 0 <= b < |ls| && b != a && x in ls[a] :: x !in ls[b]
  {
    AllSet(ls, a, []);
    hide All;
    forall i, j | 0 <= i < j < |ls[a]|
      ensures ls[a][i] != ls[a][j]
    {
      TwicePlaced(ls[a], i, j);
      assert multiset(ls[a])[ls[a][i]] <= All(ls)[ls[a][i]] <= 1;
    }
    forall i | 0 <= i < |ls[a]|
      ensures ls[a][i] < n
    {
      assert ls[a][i] in multiset(ls[a]);
      assert All(ls)[ls[a][i]] >= 1;
    }
    forall b, x | 0 <= b < |ls| && b != a && x in ls[a]
      ensures x !in ls[b]
    {
      TwoLists(ls, if a < b then a else b, if a < b then b else a, x);
      Occurs(ls[a], x);
      Occurs(ls[b], x);
    }
  }

  // ---- the three moves on values ------------------------------------------

  /** The first free node, with a message, at the end of a port's list. */
  function Linked(nodes: Nodes, free: seq<nat>, s: seq<nat>, msg: int): Nodes
    requires free != [] && free[0] < |nodes| && TailOf(s) < |nodes|
  {
    var x := free[0];
    var n1 := nodes[x := PtNode(msg, NULL)];
    if s == [] then n1 else n1[TailOf(s) := n1[TailOf(s)].(ptnext := x)]
  }

  lemma LinkChains(nodes: Nodes, free: seq<nat>, s: seq<nat>, msg: int)
    requires free != [] && Chained(nodes, free) && Chained(nodes, s)
    requires free[0] !in s && free[0] !in free[1..]
    requires forall i, j | 0 <= i < j < |s| :: s[i] != s[j]
    requires forall x | x in s :: x !in free
    ensures NextAt(nodes, free, 0) && TailOf(s) < |nodes|
    ensures var t := Linked(nodes, free, s, msg);
            Chained(t, free[1..]) && Chained(t, s + [free[0]]) && Contents(t, s + [free[0]]) == Contents(nodes, s) + [msg]
  {
    assert NextAt(nodes, free, 0);
    assert s != [] ==> NextAt(nodes, s, |s| - 1);
    var x, t, f, u := free[0], Linked(nodes, free, s, msg), free[1..], s + [free[0]];
    assert s != [] ==> TailOf(s) in s;
    forall j | 0 <= j < |f|
      ensures NextAt(t, f, j)
    {
      assert NextAt(nodes, free, j + 1);
      assert f[j] == free[j + 1] && f[j] in f && f[j] in free;
    }
    forall j | 0 <= j < |u|
      ensures NextAt(t, u, j) && t[u[j]].ptmsg == if j < |s| then nodes[s[j]].ptmsg else msg
    {
      if j < |s| {
        assert NextAt(nodes, s, j);
        assert u[j] == s[j] && s[j] in s;
      }
    }
  }

  /** The head of a port's list back at the front of the free list. */
  lemma UnlinkChains(nodes: Nodes, free: seq<nat>, s: seq<nat>)
    requires s != [] && Chained(nodes, free) && Chained(nodes, s) && s[0] !in free && s[0] !in s[1..]
    ensures NextAt(nodes, s, 0)
    ensures var t := nodes[s[0] := nodes[s[0]].(ptnext := HeadOf(free))];
            Chained(t, [s[0]] + free) && Chained(t, s[1..]) && Contents(t, s[1..]) == Contents(nodes, s)[1..]
  {
    assert NextAt(nodes, s, 0);
    var t := nodes[s[0] := nodes[s[0]].(ptnext := HeadOf(free))];
    var r, u := s[1..], [s[0]] + free;
    forall j | 0 <= j < |r|
      ensures NextAt(t, r, j) && t[r[j]] == nodes[s[j + 1]]
    {
      assert NextAt(nodes, s, j + 1);
      assert r[j] == s[j + 1] && r[j] in r;
    }
    forall j | 0 <= j < |u|
      ensures NextAt(t, u, j)
    {
      if j > 0 {
        assert NextAt(nodes, free, j - 1);
        assert u[j] == free[j - 1] && u[j] in free;
      }
    }
  }

  /** A port's whole list in front of the free list. */
  lemma SpliceChains(nodes: Nodes, free: seq<nat>, s: seq<nat>)
    requires s != [] && Chained(nodes, free) && Chained(nodes, s)
    requires (forall x | x in s :: x !in free) && forall i, j | 0 <= i < j < |s| :: s[i] != s[j]
    ensures 0 <= TailOf(s) < |nodes|
    ensures Chained(nodes[TailOf(s) := nodes[TailOf(s)].(ptnext := HeadOf(free))], s + free)
  {
    assert NextAt(nodes, s, |s| - 1);
    var tail: nat := TailOf(s);
    assert tail in s;
    var t, u := nodes[tail := nodes[tail].(ptnext := HeadOf(free))], s + free;
    forall j | 0 <= j < |u|
      ensures NextAt(t, u, j)
    {
      if j < |s| {
        assert NextAt(nodes, s, j);
      } else {
        assert NextAt(nodes, free, j - |s|);
        assert u[j] == free[j - |s|] && u[j] in free;
      }
    }
  }
}
