/** What the queue moves inside every system call keep: a process leaves one queue, is in transit, and joins another. */
module SchedMoves {
  import opened SchedLists
  import opened SchedState

  // ---- who is where -------------------------------------------------------

  lemma TransitPlaced(procs: seq<Proc>, qs: Queues, x: nat, pr: Proc)
    requires Placed(procs, qs, x) && x < |procs|
    ensures Placed(procs[x := pr], qs, x)
  {
    var procs' := procs[x := pr];
    forall p | 0 <= p < |procs'| && p != x && Home(procs'[p]) != Nowhere
      ensures p in Queue(qs, Home(procs'[p]))
    {
      assert procs'[p] == procs[p];
    }
  }

  lemma LeaveNowhere(procs: seq<Proc>, qs: Queues, p: nat)
    requires Placed(procs, qs, -1) && p < |procs| && Home(procs[p]) == Nowhere
    ensures Placed(procs, qs, p)
  {
    assert Queue(qs, Nowhere) == [];
  }

  lemma StayNowhere(procs: seq<Proc>, qs: Queues, p: nat)
    requires Placed(procs, qs, p) && p < |procs| && Home(procs[p]) == Nowhere
    ensures Placed(procs, qs, -1)
  {
  }

  lemma Updated(qs: Queues, pl: Place, q: seq<nat>)
    requires pl != Nowhere && (pl.OnSem? ==> pl.s < |qs.semq|)
    ensures forall o :: Queue(WithQueue(qs, pl, q), o) == if o == pl then q else Queue(qs, o)
  {
  }

  lemma UnlinkPlaced(procs: seq<Proc>, qs: Queues, pl: Place, i: nat)
    requires Placed(procs, qs, -1) && i < |Queue(qs, pl)|
    ensures Placed(procs, WithQueue(qs, pl, Drop(Queue(qs, pl), i)), Queue(qs, pl)[i])
  {
    var q := Queue(qs, pl);
    DropMembers(q, i);
    Updated(qs, pl, Drop(q, i));
    hide Drop, WithQueue, Queue;
    var qs' := WithQueue(qs, pl, Drop(q, i));
    forall o, p | p in Queue(qs', o)
      ensures p < |procs| && p != q[i] && Home(procs[p]) == o
    {
      assert p in Queue(qs, o);
      assert q[i] in Queue(qs, pl);
    }
    forall p | 0 <= p < |procs| && p != q[i] && Home(procs[p]) != Nowhere
      ensures p in Queue(qs', Home(procs[p]))
    {
      assert p in Queue(qs, Home(procs[p]));
    }
  }

  lemma LinkPlaced(procs: seq<Proc>, qs: Queues, pl: Place, i: nat, p: nat)
    requires Placed(procs, qs, p) && p < |procs| && Home(procs[p]) == pl && pl != Nowhere
    requires (pl.OnSem? ==> pl.s < |qs.semq|) && i <= |Queue(qs, pl)|
    ensures Placed(procs, WithQueue(qs, pl, Put(Queue(qs, pl), i, p)), -1)
  {
    var q := Queue(qs, pl);
    assert p !in q;
    PutMembers(q, i, p);
    Updated(qs, pl, Put(q, i, p));
    hide Put, WithQueue, Queue;
  }

  /** A process in a queued state has a position on its queue. */
  lemma PlaceOf(procs: seq<Proc>, qs: Queues, p: nat) returns (i: nat)
    requires Placed(procs, qs, -1) && p < |procs| && Home(procs[p]) != Nowhere
    ensures i < |Queue(qs, Home(procs[p]))| && Queue(qs, Home(procs[p]))[i] == p
    ensures Without(Queue(qs, Home(procs[p])), p) == Drop(Queue(qs, Home(procs[p])), i)
  {
    var q := Queue(qs, Home(procs[p]));
    i :| 0 <= i < |q| && q[i] == p;
    FindIs(q, i);
  }

  // ---- the ready list's order ---------------------------------------------

  lemma RankedDrop(procs: seq<Proc>, ready: seq<nat>, key: seq<int>, i: nat)
    requires Ranked(procs, ready, key) && i < |ready|
    ensures Ranked(procs, Drop(ready, i), key)
  {
    DropDescending(ready, key, i);
    hide Descending;
    forall p | p in Drop(ready, i)
      ensures p in ready
    {
      var j :| 0 <= j < |Drop(ready, i)| && Drop(ready, i)[j] == p;
      assert p == ready[if j < i then j else j + 1];
    }
  }

  lemma RankedInsert(procs: seq<Proc>, ready: seq<nat>, key: seq<int>, p: nat)
    requires Ranked(procs, ready, key) && p < |procs| && |key| == |procs| && p !in ready
    ensures Ranked(procs, Put(ready, RankFrom(Keys(ready, key), procs[p].prio, 0), p), key[p := procs[p].prio])
  {
    RankDescending(ready, key, p, procs[p].prio);
    hide Descending, RankFrom;
    var i := RankFrom(Keys(ready, key), procs[p].prio, 0);
    forall q | q in Put(ready, i, p)
      ensures q == p || q in ready
    {
    }
  }

  lemma RankedKey(procs: seq<Proc>, ready: seq<nat>, key: seq<int>, p: nat, d: int)
    requires Ranked(procs, ready, key) && p !in ready
    ensures Ranked(procs, ready, WithKey(key, p, d))
  {
    hide Descending;
    if p < |key| {
      KeysFrame(ready, key, p, d);
    }
  }

  lemma RankedProc(procs: seq<Proc>, ready: seq<nat>, key: seq<int>, p: nat, pr: Proc)
    requires Ranked(procs, ready, key) && p < |procs| && (pr.prio == procs[p].prio || p !in ready)
    ensures Ranked(procs[p := pr], ready, key)
  {
    hide Descending;
  }

  // ---- switching ----------------------------------------------------------

  lemma AliveSet(procs: seq<Proc>, curr: nat, p: nat, pr: Proc)
    requires Alive(procs, curr) && p < |procs| && pr.prio >= 0
    requires pr.state == CURR ==> p == curr
    requires p == NULLPROC ==> pr.state == CURR || pr.state == READY
    ensures Alive(procs[p := pr], curr)
  {
  }

  /** Any change to the process in transit that leaves its priority alone. */
  lemma TransitStruct(k: Kern, p: nat, pr: Proc)
    requires Struct(k, p) && p < |k.procs| && pr.prio == k.procs[p].prio
    requires pr.state == CURR ==> p == k.curr
    requires p == NULLPROC ==> pr.state == CURR || pr.state == READY
    ensures Struct(k.(procs := k.procs[p := pr]), p)
  {
    hide Placed, Ranked;
    TransitPlaced(k.procs, k.qs, p, pr);
    RankedProc(k.procs, k.qs.ready, k.key, p, pr);
  }

  lemma LeaveStruct(k: Kern, p: nat)
    requires Struct(k, -1) && p < |k.procs| && Home(k.procs[p]) == Nowhere
    ensures Struct(k, p)
  {
    hide Placed, Ranked, Alive;
    LeaveNowhere(k.procs, k.qs, p);
  }

  lemma StayStruct(k: Kern, p: nat)
    requires Struct(k, p) && p < |k.procs| && Home(k.procs[p]) == Nowhere
    ensures Struct(k, -1)
  {
    hide Placed, Ranked, Alive;
    StayNowhere(k.procs, k.qs, p);
  }

  lemma NotReady(k: Kern, p: nat)
    requires Placed(k.procs, k.qs, p)
    ensures p !in k.qs.ready
  {
    assert p !in Queue(k.qs, OnReady);
  }

  lemma InsertReadyStruct(k: Kern, p: nat)
    requires Struct(k, p) && p < |k.procs| && k.procs[p].state == READY
    ensures Struct(InsertReady(k, p), -1)
  {
    NotReady(k, p);
    assert Queue(k.qs, OnReady) == k.qs.ready;
    hide Placed, Ranked, Alive;
    LinkPlaced(k.procs, k.qs, OnReady, RankFrom(Keys(k.qs.ready, k.key), k.procs[p].prio, 0), p);
    RankedInsert(k.procs, k.qs.ready, k.key, p);
  }

  lemma NullIsReady(k: Kern)
    requires Struct(k, -1) && k.procs[k.curr].state != CURR
    ensures NULLPROC in k.qs.ready
  {
    assert Home(k.procs[NULLPROC]) == OnReady;
    assert NULLPROC in Queue(k.qs, OnReady);
  }

  ghost predicate Top(k: Kern) {
    forall p | p in k.qs.ready :: PrioOf(k, p) <= PrioOf(k, k.curr)
  }

  lemma HeadIsTop(procs: seq<Proc>, ready: seq<nat>, key: seq<int>)
    requires Ranked(procs, ready, key) && ready != []
    ensures forall p | p in ready :: p < |procs| && procs[p].prio <= procs[ready[0]].prio
  {
    forall p | p in ready
      ensures procs[p].prio <= procs[ready[0]].prio
    {
      var j :| 0 <= j < |ready| && ready[j] == p;
      assert Keys(ready, key)[j] == procs[p].prio;
      assert Keys(ready, key)[0] == procs[ready[0]].prio;
    }
  }

  /** The switch: the most urgent ready process, and among equals the one that has waited longest. */
  lemma SwitchStruct(k: Kern)
    requires Struct(k, -1) && k.procs[k.curr].state != CURR
    ensures k.qs.ready != []
    ensures Struct(Switch(k), -1) && Top(Switch(k)) && StateOf(Switch(k), Switch(k).curr) == CURR
  {
    hide Placed, Ranked, Top, Alive;
    NullIsReady(k);
    SwitchPlaced(k);
    SwitchRanked(k);
    SwitchAlive(k);
  }

  lemma SwitchAlive(k: Kern)
    requires Alive(k.procs, k.curr) && k.curr < |k.procs| && k.procs[k.curr].state != CURR && k.qs.ready != [] && k.qs.ready[0] < |k.procs|
    ensures Alive(Switch(k).procs, Switch(k).curr)
  {
  }

  lemma SwitchPlaced(k: Kern)
    requires Placed(k.procs, k.qs, -1) && k.qs.ready != []
    ensures k.qs.ready[0] < |k.procs| && Placed(Switch(k).procs, Switch(k).qs, -1)
  {
    var p := k.qs.ready[0];
    assert Queue(k.qs, OnReady) == k.qs.ready && Drop(k.qs.ready, 0) == k.qs.ready[1..];
    assert p in Queue(k.qs, OnReady);
    hide Placed;
    UnlinkPlaced(k.procs, k.qs, OnReady, 0);
    var procs, qs := k.procs[p := k.procs[p].(state := CURR)], k.qs.(ready := k.qs.ready[1..]);
    TransitPlaced(k.procs, qs, p, procs[p]);
    StayNowhere(procs, qs, p);
  }

  lemma SwitchRanked(k: Kern)
    requires Ranked(k.procs, k.qs.ready, k.key) && k.qs.ready != []
    ensures var r := Switch(k); Ranked(r.procs, r.qs.ready, r.key) && Top(r)
  {
    var p, ready := k.qs.ready[0], k.qs.ready[1..];
    HeadIsTop(k.procs, k.qs.ready, k.key);
    assert p in k.qs.ready && Drop(k.qs.ready, 0) == ready;
    hide Ranked;
    RankedDrop(k.procs, k.qs.ready, k.key, 0);
    RankedProc(k.procs, ready, k.key, p, k.procs[p].(state := CURR));
    forall q | q in ready
      ensures PrioOf(Switch(k), q) <= PrioOf(Switch(k), p)
    {
      assert q in k.qs.ready;
    }
  }

  lemma ReschedStruct(k: Kern)
    requires Struct(k, -1) && (k.ndefers > 0 ==> k.procs[k.curr].state == CURR)
    ensures Struct(Resched(k), -1) && Urgent(Resched(k)) && StateOf(Resched(k), Resched(k).curr) == CURR
  {
    if k.ndefers == 0 {
      if k.procs[k.curr].state == CURR {
        if k.procs[k.curr].prio > FirstKey(k) {
          if k.qs.ready != [] {
            assert k.qs.ready[0] in k.qs.ready;
            HeadIsTop(k.procs, k.qs.ready, k.key);
          }
        } else {
          var k1 := WithState(k, k.curr, READY);
          assert Struct(k1, k.curr) by {
            LeaveStruct(k, k.curr);
            TransitStruct(k, k.curr, k.procs[k.curr].(state := READY));
          }
          InsertReadyStruct(k1, k.curr);
          SwitchStruct(InsertReady(k1, k.curr));
        }
      } else {
        SwitchStruct(k);
      }
    }
  }

  /** What resched leaves alone. */
  lemma ReschedFrame(k: Kern)
    ensures var r := Resched(k);
            r.sems == k.sems && r.qs.semq == k.qs.semq && r.qs.sleep == k.qs.sleep && r.ndefers == k.ndefers
            && |r.procs| == |k.procs| && |r.key| == |k.key|
    ensures k.ndefers > 0 ==> Resched(k) == k.(attempt := true)
  {
  }

  lemma ReadyStruct(k: Kern, p: nat)
    requires Struct(k, p) && p < |k.procs| && p != k.curr && k.procs[k.curr].state == CURR
    ensures Struct(Ready(k, p), -1) && Urgent(Ready(k, p)) && StateOf(Ready(k, p), Ready(k, p).curr) == CURR
  {
    hide Placed, Ranked, Resched, Urgent, Alive;
    var k1 := WithState(k, p, READY);
    assert Struct(k1, p) by { TransitStruct(k, p, k.procs[p].(state := READY)); }
    InsertReadyStruct(k1, p);
    ReschedStruct(InsertReady(k1, p));
  }

  lemma ReadyFrame(k: Kern, p: nat)
    ensures var r := Ready(k, p);
            r.sems == k.sems && r.qs.semq == k.qs.semq && r.qs.sleep == k.qs.sleep && r.ndefers == k.ndefers
            && |r.procs| == |k.procs| && |r.key| == |k.key| && (k.ndefers > 0 ==> r.curr == k.curr)
  {
    ReschedFrame(InsertReady(WithState(k, p, READY), p));
  }
}
