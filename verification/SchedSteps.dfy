/** Every system call keeps the kernel's invariant. */
module SchedSteps {
  import opened SchedLists
  import opened SchedState
  import opened SchedMoves

  /** What the calls need of the current process when they may have to block it. */
  predicate MayBlock(k: Kern) { k.ndefers == 0 && k.curr != NULLPROC }

  /** The part of the invariant that holds while waiters are being released one by one. */
  ghost predicate Steady(k: Kern) {
    Struct(k, -1) && Urgent(k) && k.procs[k.curr].state == CURR
  }

  ghost predicate Semaphores(k: Kern) {
    Counted(k.sems, k.qs.semq) && Idle(k.sems)
  }

  lemma InvParts(k: Kern)
    ensures Inv(k) <==> Steady(k) && Semaphores(k)
  {
  }

  // ---- scheduling ---------------------------------------------------------

  lemma YieldSteady(k: Kern)
    requires Steady(k)
    ensures Steady(Resched(k))
  {
    hide Struct, Urgent;
    StructSized(k, -1);
    ReschedStruct(k);
    StructSized(Resched(k), -1);
  }

  lemma StructSized(k: Kern, x: int)
    requires Struct(k, x)
    ensures Sized(k)
  {
  }

  lemma DeferStartSteady(k: Kern)
    requires Steady(k)
    ensures Steady(DeferStart(k))
  {
  }

  lemma DeferStopSteady(k: Kern)
    requires Steady(k)
    ensures Steady(DeferStop(k))
  {
    if k.ndefers > 0 {
      var k1 := k.(ndefers := k.ndefers - 1);
      if k1.ndefers == 0 && k1.attempt {
        ReschedStruct(k1);
      }
    }
  }

  lemma DeferStopFrame(k: Kern)
    ensures DeferStop(k).sems == k.sems && DeferStop(k).qs.semq == k.qs.semq && DeferStop(k).qs.sleep == k.qs.sleep
  {
    if k.ndefers > 0 {
      ReschedFrame(k.(ndefers := k.ndefers - 1));
    }
  }

  /** A process that was on no queue, or has just left one, made ready. */
  lemma ReadySteady(k: Kern, p: nat)
    requires Struct(k, p) && p < |k.procs| && p != k.curr && k.procs[k.curr].state == CURR
    ensures Steady(Ready(k, p))
  {
    hide Struct, Urgent, Ready;
    ReadyStruct(k, p);
    StructSized(Ready(k, p), -1);
  }

  /** The current process goes into a state without a queue and another one runs. */
  lemma StopSteady(k: Kern, st: PState)
    requires Steady(k) && MayBlock(k) && (st == RECV || st == SUSP || st == FREE)
    ensures Steady(Resched(WithState(k, k.curr, st)))
  {
    var k1 := WithState(k, k.curr, st);
    assert Struct(k1, -1) by {
      LeaveStruct(k, k.curr);
      TransitStruct(k, k.curr, k.procs[k.curr].(state := st));
      StayStruct(k1, k.curr);
    }
    hide Struct, Urgent, Resched;
    ReschedStruct(k1);
    StructSized(Resched(k1), -1);
  }

  // ---- leaving a queue ----------------------------------------------------

  /** Out of the ready list or a semaphore's queue. */
  lemma UnlinkStruct(k: Kern, pl: Place, i: nat)
    requires Struct(k, -1) && i < |Queue(k.qs, pl)|
    ensures Struct(k.(qs := WithQueue(k.qs, pl, Drop(Queue(k.qs, pl), i))), Queue(k.qs, pl)[i])
    ensures Queue(k.qs, pl)[i] < |k.procs| && Home(k.procs[Queue(k.qs, pl)[i]]) == pl
  {
    assert Queue(k.qs, pl)[i] in Queue(k.qs, pl);
    hide Placed, Ranked, Alive;
    UnlinkPlaced(k.procs, k.qs, pl, i);
    if pl == OnReady {
      RankedDrop(k.procs, k.qs.ready, k.key, i);
    }
  }

  /** Out of the ready list or a semaphore's queue, into a state without a queue. */
  lemma RetireSteady(k: Kern, p: nat, st: PState)
    requires Steady(k) && 0 < p < |k.procs| && p != k.curr && (st == SUSP || st == FREE)
    requires Home(k.procs[p]) == OnReady || Home(k.procs[p]).OnSem?
    ensures Steady(WithState(Unlink(k, p, Home(k.procs[p])), p, st))
  {
    var pl := Home(k.procs[p]);
    var i := PlaceOf(k.procs, k.qs, p);
    UnlinkStruct(k, pl, i);
    var k1 := Unlink(k, p, pl);
    assert k1 == k.(qs := WithQueue(k.qs, pl, Drop(Queue(k.qs, pl), i)));
    var k2 := WithState(k1, p, st);
    assert Struct(k2, -1) by {
      TransitStruct(k1, p, k.procs[p].(state := st));
      StayStruct(k2, p);
    }
    assert Urgent(k2) by { DropUrgent(k, k2, i); }
  }

  lemma DropUrgent(k: Kern, k2: Kern, i: nat)
    requires Urgent(k) && k2.ndefers == k.ndefers && k2.attempt == k.attempt && k2.curr == k.curr && |k2.procs| == |k.procs|
    requires forall p | 0 <= p < |k.procs| :: k2.procs[p].prio == k.procs[p].prio
    requires k2.qs.ready == k.qs.ready || (i < |k.qs.ready| && k2.qs.ready == Drop(k.qs.ready, i))
    ensures Urgent(k2)
  {
    assert forall p | p in k2.qs.ready :: p in k.qs.ready;
    assert forall p: nat :: PrioOf(k2, p) == PrioOf(k, p);
  }

  lemma SuspendSteady(k: Kern, p: int)
    requires Steady(k) && (p == k.curr ==> MayBlock(k))
    ensures Steady(Suspend(k, p))
  {
    if p > NULLPROC && StateOf(k, p) == READY {
      RetireSteady(k, p, SUSP);
    } else if p > NULLPROC && StateOf(k, p) == CURR {
      assert p == k.curr;
      StopSteady(k, SUSP);
    }
  }

  lemma ResumeSteady(k: Kern, p: int)
    requires Steady(k)
    ensures Steady(Resume(k, p))
  {
    if p >= 0 && StateOf(k, p) == SUSP {
      LeaveStruct(k, p);
      ReadySteady(k, p);
    }
  }

  // ---- the sleep queue ----------------------------------------------------

  lemma SleepersNotReady(k: Kern, p: nat)
    requires Placed(k.procs, k.qs, -1) && p in k.qs.sleep
    ensures p !in k.qs.ready
  {
    assert p in Queue(k.qs, OnSleep);
    assert p in k.qs.ready ==> p in Queue(k.qs, OnReady);
  }

  lemma UnsleepStruct(k: Kern, p: nat)
    requires Struct(k, -1) && p < |k.procs| && Home(k.procs[p]) == OnSleep
    ensures Struct(Unsleep(k, p), p)
  {
    hide Placed, Ranked, Alive, CutKeys, Without, Drop;
    var i := PlaceOf(k.procs, k.qs, p);
    assert Queue(k.qs, OnSleep) == k.qs.sleep;
    CutRanked(k, p);
    UnlinkPlaced(k.procs, k.qs, OnSleep, i);
  }

  /** unsleep changes no key on the ready list. */
  lemma CutRanked(k: Kern, p: nat)
    requires Placed(k.procs, k.qs, -1) && Ranked(k.procs, k.qs.ready, k.key)
    ensures Ranked(k.procs, k.qs.ready, CutKeys(k.qs.sleep, k.key, p))
  {
    hide Placed, Ranked, WithKey, Find;
    if p in k.qs.sleep && Find(k.qs.sleep, p) + 1 < |k.qs.sleep| {
      var next := k.qs.sleep[Find(k.qs.sleep, p) + 1];
      SleepersNotReady(k, next);
      RankedKey(k.procs, k.qs.ready, k.key, next, KeyOf(k.key, next) + KeyOf(k.key, p));
    }
  }

  lemma InsertSleepStruct(k: Kern, p: nat, d: int, st: PState)
    requires Struct(k, p) && 0 < p < |k.procs| && (st == SLEEP || st == RECTIM)
    ensures Struct(WithState(InsertSleep(k, p, d), p, st), -1)
  {
    hide Placed, Ranked, Alive, DeltaFrom, DeltaKeys;
    var i := DeltaFrom(Keys(k.qs.sleep, k.key), d, 0).0;
    var pr := k.procs[p].(state := st);
    var procs := k.procs[p := pr];
    DeltaRanked(k, p, d);
    assert Home(pr) == OnSleep && Queue(k.qs, OnSleep) == k.qs.sleep;
    TransitPlaced(k.procs, k.qs, p, pr);
    LinkPlaced(procs, k.qs, OnSleep, i, p);
    RankedProc(k.procs, k.qs.ready, DeltaKeys(k.qs.sleep, k.key, p, d), p, pr);
    PrioThere(k.procs, k.curr, p);
    AliveSet(k.procs, k.curr, p, pr);
  }

  lemma PrioThere(procs: seq<Proc>, curr: nat, p: nat)
    requires Alive(procs, curr) && p < |procs|
    ensures procs[p].prio >= 0
  {
  }

  /** insertd changes no key on the ready list. */
  lemma DeltaRanked(k: Kern, p: nat, d: int)
    requires Placed(k.procs, k.qs, p) && Ranked(k.procs, k.qs.ready, k.key)
    ensures Ranked(k.procs, k.qs.ready, DeltaKeys(k.qs.sleep, k.key, p, d))
  {
    hide Placed, Ranked, DeltaFrom, WithKey;
    NotReady(k, p);
    TransitSleepers(k, p);
    var (i, rest) := DeltaFrom(Keys(k.qs.sleep, k.key), d, 0);
    RankedKey(k.procs, k.qs.ready, k.key, p, rest);
    var key1 := WithKey(k.key, p, rest);
    if i < |k.qs.sleep| {
      RankedKey(k.procs, k.qs.ready, key1, k.qs.sleep[i], KeyOf(key1, k.qs.sleep[i]) - rest);
    }
  }

  lemma TransitSleepers(k: Kern, x: int)
    requires Placed(k.procs, k.qs, x)
    ensures forall i | 0 <= i < |k.qs.sleep| :: k.qs.sleep[i] !in k.qs.ready
  {
    forall i | 0 <= i < |k.qs.sleep|
      ensures k.qs.sleep[i] !in k.qs.ready
    {
      var p := k.qs.sleep[i];
      assert p in Queue(k.qs, OnSleep);
      assert p in k.qs.ready ==> p in Queue(k.qs, OnReady);
    }
  }

  /** The current process goes to sleep and another one runs. */
  lemma GoToSleepSteady(k: Kern, d: int, st: PState)
    requires Steady(k) && MayBlock(k) && (st == SLEEP || st == RECTIM)
    ensures Steady(Resched(WithState(InsertSleep(k, k.curr, d), k.curr, st)))
  {
    LeaveStruct(k, k.curr);
    InsertSleepStruct(k, k.curr, d, st);
    hide Struct, Urgent, Resched, InsertSleep;
    var k1 := WithState(InsertSleep(k, k.curr, d), k.curr, st);
    SleepFrame(k, d);
    ReschedStruct(k1);
    StructSized(Resched(k1), -1);
  }

  lemma SleepFrame(k: Kern, d: int)
    ensures var r := InsertSleep(k, k.curr, d);
            r.procs == k.procs && r.sems == k.sems && r.qs.semq == k.qs.semq && r.qs.ready == k.qs.ready
            && r.curr == k.curr && r.ndefers == k.ndefers && r.attempt == k.attempt
  {
  }

  lemma WakeFirstSteady(k: Kern)
    requires Steady(k) && k.ndefers > 0
    ensures Steady(WakeFirst(k)) && WakeFirst(k).ndefers == k.ndefers
    ensures WakeFirst(k).sems == k.sems && WakeFirst(k).qs.semq == k.qs.semq
    ensures k.qs.sleep != [] ==> WakeFirst(k).qs.sleep == k.qs.sleep[1..]
  {
    if k.qs.sleep != [] {
      var p := k.qs.sleep[0];
      assert Queue(k.qs, OnSleep) == k.qs.sleep && Drop(k.qs.sleep, 0) == k.qs.sleep[1..];
      UnlinkStruct(k, OnSleep, 0);
      hide Struct, Urgent, Ready;
      var k1 := k.(qs := k.qs.(sleep := k.qs.sleep[1..]));
      ReadySteady(k1, p);
      ReadyFrame(k1, p);
    }
  }

  lemma {:induction false} WakeSomeSteady(k: Kern, n: nat)
    requires Steady(k) && k.ndefers > 0 && n <= |k.qs.sleep|
    ensures var r := WakeSome(k, n);
            Steady(r) && r.sems == k.sems && r.qs.semq == k.qs.semq && r.ndefers == k.ndefers && r.qs.sleep == k.qs.sleep[n..]
    decreases n
  {
    hide Steady, WakeFirst;
    if n > 0 {
      WakeFirstSteady(k);
      WakeSomeSteady(WakeFirst(k), n - 1);
    }
  }

  lemma TickKeySteady(k: Kern)
    requires Steady(k) && k.qs.sleep != []
    ensures Steady(k.(key := WithKey(k.key, k.qs.sleep[0], KeyOf(k.key, k.qs.sleep[0]) - 1)))
  {
    SleepersNotReady(k, k.qs.sleep[0]);
    RankedKey(k.procs, k.qs.ready, k.key, k.qs.sleep[0], KeyOf(k.key, k.qs.sleep[0]) - 1);
  }

  lemma WakeupSteady(k: Kern)
    requires Steady(k)
    ensures Steady(Wakeup(k)) && Wakeup(k).sems == k.sems && Wakeup(k).qs.semq == k.qs.semq
    ensures Wakeup(k).qs.sleep == k.qs.sleep[Expired(Keys(k.qs.sleep, k.key))..]
  {
    hide Steady, WakeSome, Expired, DeferStop;
    DeferStartSteady(k);
    var n := Expired(Keys(k.qs.sleep, k.key));
    WakeSomeSteady(DeferStart(k), n);
    DeferStopSteady(WakeSome(DeferStart(k), n));
    DeferStopFrame(WakeSome(DeferStart(k), n));
  }

  lemma TickSteady(k: Kern)
    requires Steady(k)
    ensures Steady(TickSleep(k)) && TickSleep(k).sems == k.sems && TickSleep(k).qs.semq == k.qs.semq
  {
    hide Steady, Wakeup, WithKey;
    if k.qs.sleep != [] {
      TickKeySteady(k);
      WakeupSteady(k.(key := WithKey(k.key, k.qs.sleep[0], KeyOf(k.key, k.qs.sleep[0]) - 1)));
    }
  }

  // ---- messages -----------------------------------------------------------

  lemma DeliverSteady(k: Kern, p: nat, msg: int)
    requires Steady(k)
    ensures Steady(Deliver(k, p, msg))
  {
    if p < |k.procs| {
      KeepSteady(k, p, k.procs[p].(msg := msg, hasmsg := true));
    }
  }

  /** Changing only the message of a process. */
  lemma KeepSteady(k: Kern, p: nat, pr: Proc)
    requires Steady(k) && p < |k.procs|
    requires pr.state == k.procs[p].state && pr.prio == k.procs[p].prio && pr.sem == k.procs[p].sem
    ensures Steady(k.(procs := k.procs[p := pr]))
  {
    var procs := k.procs[p := pr];
    assert forall q | 0 <= q < |procs| :: Home(procs[q]) == Home(k.procs[q]);
    RankedProc(k.procs, k.qs.ready, k.key, p, pr);
    hide Ranked;
    assert Placed(procs, k.qs, -1);
    assert Urgent(k.(procs := procs)) by { DropUrgent(k, k.(procs := procs), 0); }
  }

  lemma SendSteady(k: Kern, p: int, msg: int)
    requires Steady(k)
    ensures Steady(Send(k, p, msg)) && Send(k, p, msg).sems == k.sems && Send(k, p, msg).qs.semq == k.qs.semq
  {
    if !(p < 0 || StateOf(k, p) == FREE || k.procs[p].hasmsg) {
      var k1 := Deliver(k, p, msg);
      DeliverSteady(k, p, msg);
      if StateOf(k, p) == RECV {
        LeaveStruct(k1, p);
        ReadySteady(k1, p);
        ReadyFrame(k1, p);
      } else if StateOf(k, p) == RECTIM {
        UnsleepStruct(k1, p);
        hide Struct;
        ReadySteady(Unsleep(k1, p), p);
        ReadyFrame(Unsleep(k1, p), p);
      }
    }
  }

  lemma CollectSteady(k: Kern)
    requires Steady(k)
    ensures Steady(Collect(k))
  {
    KeepSteady(k, k.curr, k.procs[k.curr].(hasmsg := false));
  }

  lemma CreateSteady(k: Kern, p: nat, prio: int)
    requires Steady(k)
    ensures Steady(Create(k, p, prio))
  {
    if 0 < p < |k.procs| && k.procs[p].state == FREE && prio >= 1 {
      var pr := Proc(SUSP, prio, 0, false, 0);
      var k1 := k.(procs := k.procs[p := pr]);
      LeaveStruct(k, p);
      NotReady(k, p);
      TransitPlaced(k.procs, k.qs, p, pr);
      RankedProc(k.procs, k.qs.ready, k.key, p, pr);
      AliveSet(k.procs, k.curr, p, pr);
      hide Placed, Ranked, Alive;
      StayStruct(k1, p);
    }
  }
}
