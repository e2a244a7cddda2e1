/** The queue table seen as the kernel's queues. */
module QueueView {
  import opened SchedLists
  import opened SchedState
  import opened QueueTable

  /** Which queue of the table serves as ready list, as sleep list, and for each semaphore. */
  datatype Wiring = Wiring(readylist: nat, sleepq: nat, squeue: seq<nat>)

  ghost predicate Wired(w: Wiring, lists: Lists) {
    w.readylist in lists && w.sleepq in lists && w.readylist != w.sleepq
    && (forall i | 0 <= i < |w.squeue| :: w.squeue[i] in lists && w.squeue[i] != w.readylist && w.squeue[i] != w.sleepq)
    && (forall i, j | 0 <= i < j < |w.squeue| :: w.squeue[i] != w.squeue[j])
    && (forall q | q in lists :: q == w.readylist || q == w.sleepq || q in w.squeue)
  }

  function ListOf(lists: Lists, q: nat): seq<nat> {
    if q in lists then lists[q] else []
  }

  function AbsQueues(w: Wiring, lists: Lists): Queues {
    Queues(ListOf(lists, w.readylist), ListOf(lists, w.sleepq),
           seq<seq<nat>>(|w.squeue|, i requires 0 <= i < |w.squeue| => ListOf(lists, w.squeue[i])))
  }

  function AbsKeys(tab: Table, n: nat): (ks: seq<int>)
    ensures |ks| == n
  {
    seq<int>(n, i requires 0 <= i < n => if i < |tab| then tab[i].qkey else 0)
  }

  /** The queue id of a place. */
  function QidOf(w: Wiring, pl: Place): nat {
    match pl
    case Nowhere => 0
    case OnReady => w.readylist
    case OnSleep => w.sleepq
    case OnSem(s) => if s < |w.squeue| then w.squeue[s] else 0
  }

  predicate Real(w: Wiring, pl: Place) { pl != Nowhere && (pl.OnSem? ==> pl.s < |w.squeue|) }

  lemma QueueAt(w: Wiring, lists: Lists, pl: Place)
    requires Wired(w, lists) && Real(w, pl)
    ensures QidOf(w, pl) in lists && Queue(AbsQueues(w, lists), pl) == lists[QidOf(w, pl)]
  {
  }

  /** One queue of the table changes: so does the queue it stands for, and no other. */
  lemma QueueSet(w: Wiring, lists: Lists, pl: Place, s: seq<nat>)
    requires Wired(w, lists) && Real(w, pl)
    ensures Wired(w, lists[QidOf(w, pl) := s])
    ensures AbsQueues(w, lists[QidOf(w, pl) := s]) == WithQueue(AbsQueues(w, lists), pl, s)
  {
    var qs, rs := AbsQueues(w, lists[QidOf(w, pl) := s]), WithQueue(AbsQueues(w, lists), pl, s);
    assert qs.semq == rs.semq;
  }

  /** A process in transit is on no queue of the table. */
  lemma TransitOnNone(w: Wiring, lists: Lists, procs: seq<Proc>, p: nat)
    requires Wired(w, lists) && Placed(procs, AbsQueues(w, lists), p)
    ensures OnNone(lists, p)
  {
    var qs := AbsQueues(w, lists);
    forall q | q in lists
      ensures p !in lists[q]
    {
      var pl := if q == w.readylist then OnReady else if q == w.sleepq then OnSleep
                else (var i :| 0 <= i < |w.squeue| && w.squeue[i] == q; OnSem(i));
      assert Queue(qs, pl) == lists[q];
      assert p !in Queue(qs, pl);
    }
  }

  lemma AbsKeysSet(tab: Table, n: nat, p: nat, e: QEntry)
    requires p < |tab|
    ensures AbsKeys(tab[p := e], n) == if p < n then AbsKeys(tab, n)[p := e.qkey] else AbsKeys(tab, n)
  {
  }

  lemma AbsKeysBetween(tab: Table, n: nat, prev: nat, p: nat, next: nat)
    requires prev < |tab| && p < |tab| && next < |tab|
    ensures AbsKeys(Between(tab, prev, p, next), n) == AbsKeys(tab, n)
  {
  }

  lemma AbsKeysBridged(tab: Table, n: nat, prev: nat, next: nat)
    requires prev < |tab| && next < |tab|
    ensures AbsKeys(Bridged(tab, prev, next), n) == AbsKeys(tab, n)
  {
  }

  /** Reading along a queue: the node after position `i`, its links and its key. */
  lemma Walk(tab: Table, lists: Lists, n: nat, q: nat, i: nat)
    requires TableOk(tab, lists, n) && q in lists && i <= |lists[q]|
    ensures q + 1 < |tab| && n <= q
    ensures var s := lists[q]; var x := Node(q, s, i + 1);
            x < |tab| && tab[x].qprev == Node(q, s, i) && Node(q, s, i) < |tab| && tab[Node(q, s, i)].qnext == x
            && (i < |s| <==> x < n) && (i < |s| <==> x != q + 1) && (i == |s| ==> tab[x].qkey == MINKEY)
            && (i < |s| ==> x == s[i] && tab[x].qnext == Node(q, s, i + 2) && Keys(s, AbsKeys(tab, n))[i] == tab[x].qkey)
  {
    var s := lists[q];
    LinkOf(tab, lists, n, q, i);
    if i < |s| {
      LinkOf(tab, lists, n, q, i + 1);
    }
    assert i < |s| ==> s[i] < n;
  }
}
