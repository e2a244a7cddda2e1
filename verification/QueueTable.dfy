/**
 The table behind all process queues: one entry per process, and two per queue for its head
 and tail. Every queue is a doubly linked list threaded through the same table.
 */
module QueueTable {
  import opened SchedLists

  datatype QEntry = QEntry(qkey: int, qnext: int, qprev: int)

  type Table = seq<QEntry>
  type Lists = map<nat, seq<nat>>

  /** The `i`-th node of queue `q`: the head, the members in order, the tail. */
  function Node(q: nat, s: seq<nat>, i: nat): nat {
    if i == 0 then q else if i <= |s| then s[i - 1] else q + 1
  }

  ghost predicate LinkAt(tab: Table, q: nat, s: seq<nat>, i: nat) {
    Node(q, s, i) < |tab| && Node(q, s, i + 1) < |tab|
    && tab[Node(q, s, i)].qnext == Node(q, s, i + 1) && tab[Node(q, s, i + 1)].qprev == Node(q, s, i)
  }

  ghost predicate Linked(tab: Table, q: nat, s: seq<nat>) {
    forall i | 0 <= i <= |s| :: LinkAt(tab, q, s, i)
  }

  /** Processes come before queues, and a queue is an even distance from the first one. */
  predicate QueueId(tab: Table, nproc: nat, q: nat) {
    nproc <= q && q + 1 < |tab| && (q - nproc) % 2 == 0
  }

  /** Nobody is in two places. */
  ghost predicate Apart(lists: Lists) {
    forall q, r, i, j | q in lists && r in lists && 0 <= i < |lists[q]| && 0 <= j < |lists[r]| && lists[q][i] == lists[r][j] ::
      q == r && i == j
  }

  ghost predicate Members(lists: Lists, nproc: nat) {
    forall q | q in lists :: forall i | 0 <= i < |lists[q]| :: lists[q][i] < nproc
  }

  ghost predicate Threaded(tab: Table, lists: Lists) {
    forall q | q in lists :: Linked(tab, q, lists[q])
  }

  ghost predicate Ends(tab: Table, lists: Lists, nproc: nat) {
    forall q | q in lists :: QueueId(tab, nproc, q) && tab[q].qkey == MAXKEY && tab[q + 1].qkey == MINKEY
  }

  ghost predicate TableOk(tab: Table, lists: Lists, nproc: nat) {
    nproc <= |tab| && Apart(lists) && Members(lists, nproc) && Threaded(tab, lists) && Ends(tab, lists, nproc)
  }

  ghost predicate OnNone(lists: Lists, p: nat) {
    forall q | q in lists :: p !in lists[q]
  }

  /** Different places are different entries. */
  lemma NodesApart(tab: Table, lists: Lists, nproc: nat, q: nat, i: nat, r: nat, j: nat)
    requires Apart(lists) && Members(lists, nproc) && Ends(tab, lists, nproc)
    requires q in lists && r in lists && i <= |lists[q]| + 1 && j <= |lists[r]| + 1
    ensures Node(q, lists[q], i) == Node(r, lists[r], j) ==> q == r && i == j
  {
    assert 0 < i <= |lists[q]| ==> lists[q][i - 1] < nproc;
    assert 0 < j <= |lists[r]| ==> lists[r][j - 1] < nproc;
  }

  lemma NewNode(tab: Table, lists: Lists, nproc: nat, p: nat, q: nat, i: nat)
    requires Ends(tab, lists, nproc) && OnNone(lists, p) && p < nproc && q in lists && i <= |lists[q]| + 1
    ensures Node(q, lists[q], i) != p
  {
  }

  // ---- linking in ---------------------------------------------------------

  /** Entry `p` set between the neighbours `prev` and `next`. */
  function Between(tab: Table, prev: nat, p: nat, next: nat): Table
    requires prev < |tab| && p < |tab| && next < |tab|
  {
    var t1 := tab[p := tab[p].(qnext := next)];
    var t2 := t1[p := t1[p].(qprev := prev)];
    var t3 := t2[prev := t2[prev].(qnext := p)];
    t3[next := t3[next].(qprev := p)]
  }

  lemma BetweenAt(tab: Table, prev: nat, p: nat, next: nat, x: nat)
    requires prev < |tab| && p < |tab| && next < |tab| && x < |tab| && p != prev && p != next
    ensures |Between(tab, prev, p, next)| == |tab|
    ensures Between(tab, prev, p, next)[x].qnext == if x == p then next else if x == prev then p else tab[x].qnext
    ensures Between(tab, prev, p, next)[x].qprev == if x == next then p else if x == p then prev else tab[x].qprev
    ensures Between(tab, prev, p, next)[x].qkey == tab[x].qkey
  {
  }

  lemma PutNodes(q: nat, s: seq<nat>, i: nat, p: nat, j: nat)
    requires i <= |s| && j <= |s| + 2
    ensures Node(q, Put(s, i, p), j) == if j <= i then Node(q, s, j) else if j == i + 1 then p else Node(q, s, j - 1)
  {
  }

  /** The queue itself after the insertion. */
  lemma PutLinked(tab: Table, lists: Lists, nproc: nat, q: nat, i: nat, p: nat)
    requires TableOk(tab, lists, nproc) && OnNone(lists, p) && p < nproc && q in lists && i <= |lists[q]|
    ensures var s := lists[q];
            LinkAt(tab, q, s, i) && Linked(Between(tab, Node(q, s, i), p, Node(q, s, i + 1)), q, Put(s, i, p))
  {
    var s := lists[q];
    assert Linked(tab, q, s);
    assert LinkAt(tab, q, s, i);
    var prev, next := Node(q, s, i), Node(q, s, i + 1);
    var t, u := Between(tab, prev, p, next), Put(s, i, p);
    forall j | 0 <= j <= |u|
      ensures LinkAt(t, q, u, j)
    {
      PutLinkAt(tab, lists, nproc, q, i, p, j);
    }
  }

  lemma LinkOf(tab: Table, lists: Lists, nproc: nat, q: nat, i: nat)
    requires TableOk(tab, lists, nproc) && q in lists && i <= |lists[q]|
    ensures LinkAt(tab, q, lists[q], i)
  {
    assert Linked(tab, q, lists[q]);
  }

  lemma PutLinkAt(tab: Table, lists: Lists, nproc: nat, q: nat, i: nat, p: nat, j: nat)
    requires TableOk(tab, lists, nproc) && OnNone(lists, p) && p < nproc && q in lists && i <= |lists[q]| && j <= |lists[q]| + 1
    requires LinkAt(tab, q, lists[q], i)
    ensures var s := lists[q]; LinkAt(Between(tab, Node(q, s, i), p, Node(q, s, i + 1)), q, Put(s, i, p), j)
  {
    hide Between, Put, Node, Apart, Members, Ends, Threaded, OnNone;
    var s := lists[q];
    var prev, next := Node(q, s, i), Node(q, s, i + 1);
    var o := if j <= i then j else j - 1;
    LinkOf(tab, lists, nproc, q, o);
    NewNode(tab, lists, nproc, p, q, i);
    NewNode(tab, lists, nproc, p, q, i + 1);
    PutNodes(q, s, i, p, j);
    PutNodes(q, s, i, p, j + 1);
    NewNode(tab, lists, nproc, p, q, o);
    NewNode(tab, lists, nproc, p, q, o + 1);
    NodesApart(tab, lists, nproc, q, o, q, i);
    NodesApart(tab, lists, nproc, q, o + 1, q, i + 1);
    BetweenAt(tab, prev, p, next, Node(q, s, o));
    BetweenAt(tab, prev, p, next, Node(q, s, o + 1));
    BetweenAt(tab, prev, p, next, p);
  }

  /** The other queues do not notice. */
  lemma PutElsewhere(tab: Table, lists: Lists, nproc: nat, q: nat, i: nat, p: nat, r: nat)
    requires TableOk(tab, lists, nproc) && OnNone(lists, p) && p < nproc && q in lists && i <= |lists[q]|
    requires r in lists && r != q && LinkAt(tab, q, lists[q], i)
    ensures Linked(Between(tab, Node(q, lists[q], i), p, Node(q, lists[q], i + 1)), r, lists[r])
  {
    var s := lists[q];
    var prev, next := Node(q, s, i), Node(q, s, i + 1);
    NewNode(tab, lists, nproc, p, q, i);
    NewNode(tab, lists, nproc, p, q, i + 1);
    forall j | 0 <= j <= |lists[r]|
      ensures LinkAt(Between(tab, prev, p, next), r, lists[r], j)
    {
      assert Linked(tab, r, lists[r]);
      assert LinkAt(tab, r, lists[r], j);
      NewNode(tab, lists, nproc, p, r, j);
      NewNode(tab, lists, nproc, p, r, j + 1);
      var a, b := Node(r, lists[r], j), Node(r, lists[r], j + 1);
      NodesApart(tab, lists, nproc, r, j, q, i);
      NodesApart(tab, lists, nproc, r, j + 1, q, i + 1);
      BetweenAt(tab, prev, p, next, a);
      BetweenAt(tab, prev, p, next, b);
    }
  }

  lemma PutApart(lists: Lists, q: nat, i: nat, p: nat)
    requires Apart(lists) && OnNone(lists, p) && q in lists && i <= |lists[q]|
    ensures Apart(lists[q := Put(lists[q], i, p)])
  {
    var ls := lists[q := Put(lists[q], i, p)];
    forall a, b, x, y | a in ls && b in ls && 0 <= x < |ls[a]| && 0 <= y < |ls[b]| && ls[a][x] == ls[b][y]
      ensures a == b && x == y
    {
      PutBack(lists, q, i, p, a, x);
      PutBack(lists, q, i, p, b, y);
    }
  }

  lemma PutBack(lists: Lists, q: nat, i: nat, p: nat, a: nat, x: nat)
    requires q in lists && i <= |lists[q]| && a in lists
    requires x < |lists[q := Put(lists[q], i, p)][a]|
    ensures var ls := lists[q := Put(lists[q], i, p)];
            if a == q && x == i then ls[a][x] == p
            else var o := if a == q && x > i then x - 1 else x; o < |lists[a]| && ls[a][x] == lists[a][o]
  {
  }

  lemma PutTable(tab: Table, lists: Lists, nproc: nat, q: nat, i: nat, p: nat)
    requires TableOk(tab, lists, nproc) && OnNone(lists, p) && p < nproc && q in lists && i <= |lists[q]|
    ensures LinkAt(tab, q, lists[q], i)
    ensures TableOk(Between(tab, Node(q, lists[q], i), p, Node(q, lists[q], i + 1)), lists[q := Put(lists[q], i, p)], nproc)
  {
    var s := lists[q];
    PutLinked(tab, lists, nproc, q, i, p);
    PutApart(lists, q, i, p);
    var t, ls := Between(tab, Node(q, s, i), p, Node(q, s, i + 1)), lists[q := Put(s, i, p)];
    NewNode(tab, lists, nproc, p, q, i);
    NewNode(tab, lists, nproc, p, q, i + 1);
    forall r | r in ls
      ensures Linked(t, r, ls[r]) && QueueId(t, nproc, r) && t[r].qkey == MAXKEY && t[r + 1].qkey == MINKEY
    {
      if r != q {
        PutElsewhere(tab, lists, nproc, q, i, p, r);
      }
      BetweenAt(tab, Node(q, s, i), p, Node(q, s, i + 1), r);
      BetweenAt(tab, Node(q, s, i), p, Node(q, s, i + 1), r + 1);
    }
    assert Members(ls, nproc);
  }

  // ---- unlinking ----------------------------------------------------------

  /** The neighbours `prev` and `next` pointed at each other. */
  function Bridged(tab: Table, prev: nat, next: nat): Table
    requires prev < |tab| && next < |tab|
  {
    var t1 := tab[prev := tab[prev].(qnext := next)];
    t1[next := t1[next].(qprev := prev)]
  }

  lemma BridgedAt(tab: Table, prev: nat, next: nat, x: nat)
    requires prev < |tab| && next < |tab| && x < |tab|
    ensures |Bridged(tab, prev, next)| == |tab|
    ensures Bridged(tab, prev, next)[x].qnext == if x == prev then next else tab[x].qnext
    ensures Bridged(tab, prev, next)[x].qprev == if x == next then prev else tab[x].qprev
    ensures Bridged(tab, prev, next)[x].qkey == tab[x].qkey
  {
  }

  lemma DropNodes(q: nat, s: seq<nat>, i: nat, j: nat)
    requires i < |s| && j <= |s|
    ensures Node(q, Drop(s, i), j) == Node(q, s, if j <= i then j else j + 1)
  {
  }

  lemma DropLinkAt(tab: Table, lists: Lists, nproc: nat, q: nat, i: nat, j: nat)
    requires TableOk(tab, lists, nproc) && q in lists && i < |lists[q]| && j < |lists[q]|
    requires LinkAt(tab, q, lists[q], i) && LinkAt(tab, q, lists[q], i + 1)
    ensures var s := lists[q]; LinkAt(Bridged(tab, Node(q, s, i), Node(q, s, i + 2)), q, Drop(s, i), j)
  {
    hide Bridged, Drop, Node, Apart, Members, Ends, Threaded;
    var s := lists[q];
    var prev, next := Node(q, s, i), Node(q, s, i + 2);
    var a, b := if j <= i then j else j + 1, if j + 1 <= i then j + 1 else j + 2;
    LinkOf(tab, lists, nproc, q, a);
    LinkOf(tab, lists, nproc, q, b - 1);
    DropNodes(q, s, i, j);
    DropNodes(q, s, i, j + 1);
    NodesApart(tab, lists, nproc, q, a, q, i);
    NodesApart(tab, lists, nproc, q, b, q, i + 2);
    BridgedAt(tab, prev, next, Node(q, s, a));
    BridgedAt(tab, prev, next, Node(q, s, b));
  }

  lemma DropElsewhere(tab: Table, lists: Lists, nproc: nat, q: nat, i: nat, r: nat)
    requires TableOk(tab, lists, nproc) && q in lists && i < |lists[q]| && r in lists && r != q
    requires LinkAt(tab, q, lists[q], i) && LinkAt(tab, q, lists[q], i + 1)
    ensures Linked(Bridged(tab, Node(q, lists[q], i), Node(q, lists[q], i + 2)), r, lists[r])
  {
    var s := lists[q];
    var prev, next := Node(q, s, i), Node(q, s, i + 2);
    forall j | 0 <= j <= |lists[r]|
      ensures LinkAt(Bridged(tab, prev, next), r, lists[r], j)
    {
      assert Linked(tab, r, lists[r]);
      assert LinkAt(tab, r, lists[r], j);
      NodesApart(tab, lists, nproc, r, j, q, i);
      NodesApart(tab, lists, nproc, r, j + 1, q, i + 2);
      BridgedAt(tab, prev, next, Node(r, lists[r], j));
      BridgedAt(tab, prev, next, Node(r, lists[r], j + 1));
    }
  }

  lemma DropApart(lists: Lists, nproc: nat, q: nat, i: nat)
    requires Apart(lists) && Members(lists, nproc) && q in lists && i < |lists[q]|
    ensures var ls := lists[q := Drop(lists[q], i)]; Apart(ls) && Members(ls, nproc) && OnNone(ls, lists[q][i])
  {
    var ls := lists[q := Drop(lists[q], i)];
    forall a, b, x, y | a in ls && b in ls && 0 <= x < |ls[a]| && 0 <= y < |ls[b]| && ls[a][x] == ls[b][y]
      ensures a == b && x == y
    {
      DropBack(lists, q, i, a, x);
      DropBack(lists, q, i, b, y);
    }
    forall a, x | a in ls && 0 <= x < |ls[a]|
      ensures ls[a][x] < nproc && ls[a][x] != lists[q][i]
    {
      DropBack(lists, q, i, a, x);
    }
  }

  lemma DropBack(lists: Lists, q: nat, i: nat, a: nat, x: nat)
    requires q in lists && i < |lists[q]| && a in lists && x < |lists[q := Drop(lists[q], i)][a]|
    ensures var o := if a == q && x >= i then x + 1 else x;
            o < |lists[a]| && lists[q := Drop(lists[q], i)][a][x] == lists[a][o]
  {
  }

  lemma DropTable(tab: Table, lists: Lists, nproc: nat, q: nat, i: nat)
    requires TableOk(tab, lists, nproc) && q in lists && i < |lists[q]|
    ensures LinkAt(tab, q, lists[q], i) && LinkAt(tab, q, lists[q], i + 1)
    ensures TableOk(Bridged(tab, Node(q, lists[q], i), Node(q, lists[q], i + 2)), lists[q := Drop(lists[q], i)], nproc)
    ensures OnNone(lists[q := Drop(lists[q], i)], lists[q][i])
  {
    var s := lists[q];
    assert Linked(tab, q, s);
    assert LinkAt(tab, q, s, i) && LinkAt(tab, q, s, i + 1);
    DropApart(lists, nproc, q, i);
    var t, ls := Bridged(tab, Node(q, s, i), Node(q, s, i + 2)), lists[q := Drop(s, i)];
    forall r | r in ls
      ensures Linked(t, r, ls[r]) && QueueId(t, nproc, r) && t[r].qkey == MAXKEY && t[r + 1].qkey == MINKEY
    {
      if r == q {
        forall j | 0 <= j < |s|
          ensures LinkAt(t, q, Drop(s, i), j)
        {
          DropLinkAt(tab, lists, nproc, q, i, j);
        }
      } else {
        DropElsewhere(tab, lists, nproc, q, i, r);
      }
      BridgedAt(tab, Node(q, s, i), Node(q, s, i + 2), r);
      BridgedAt(tab, Node(q, s, i), Node(q, s, i + 2), r + 1);
    }
  }

  // ---- entries that are on no queue ---------------------------------------

  /** Rewriting the links of a process on no queue, or any process's key, leaves the queues as they are. */
  lemma EntryTable(tab: Table, lists: Lists, nproc: nat, p: nat, e: QEntry)
    requires TableOk(tab, lists, nproc) && p < nproc
    requires OnNone(lists, p) || (e.qnext == tab[p].qnext && e.qprev == tab[p].qprev)
    ensures TableOk(tab[p := e], lists, nproc)
  {
    var t := tab[p := e];
    forall q | q in lists
      ensures Linked(t, q, lists[q]) && QueueId(t, nproc, q) && t[q].qkey == MAXKEY && t[q + 1].qkey == MINKEY
    {
      assert Linked(tab, q, lists[q]);
      forall j | 0 <= j <= |lists[q]|
        ensures LinkAt(t, q, lists[q], j)
      {
        assert LinkAt(tab, q, lists[q], j);
        if OnNone(lists, p) {
          NewNode(tab, lists, nproc, p, q, j);
          NewNode(tab, lists, nproc, p, q, j + 1);
        }
      }
    }
  }

  // ---- a new queue --------------------------------------------------------

  /** newqueue's two sentinels. */
  function Opened(tab: Table, q: nat): Table
    requires q + 1 < |tab|
  {
    tab[q := QEntry(MAXKEY, q + 1, -1)][q + 1 := QEntry(MINKEY, -1, q)]
  }

  lemma OpenTable(tab: Table, lists: Lists, nproc: nat, q: nat)
    requires TableOk(tab, lists, nproc) && QueueId(tab, nproc, q) && q !in lists
    ensures TableOk(Opened(tab, q), lists[q := []], nproc)
  {
    var t, ls := Opened(tab, q), lists[q := []];
    forall r | r in ls
      ensures Linked(t, r, ls[r]) && QueueId(t, nproc, r) && t[r].qkey == MAXKEY && t[r + 1].qkey == MINKEY
    {
      if r == q {
        assert LinkAt(t, q, [], 0);
      } else {
        assert Linked(tab, r, lists[r]);
        forall j | 0 <= j <= |lists[r]|
          ensures LinkAt(t, r, lists[r], j)
        {
          assert LinkAt(tab, r, lists[r], j);
        }
      }
    }
  }
}
