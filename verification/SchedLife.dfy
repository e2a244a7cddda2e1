/**
 What every call does to every process, told process by process: state, semaphore waited for, priority and message.
 Which of the ready processes has the processor is left to the scheduler; here READY stands for both.
 */
module SchedLife {
  import opened SchedLists
  import opened SchedState
  import opened SchedMoves
  import opened SchedSteps
  import opened SchedSems
  import opened SchedRun

  function Plain(pr: Proc): Proc { if pr.state == CURR then pr.(state := READY) else pr }

  /** The processes in `w` have become ready; nothing else about any process has changed. */
  ghost predicate Woken(k: Kern, r: Kern, w: seq<nat>) {
    |r.procs| == |k.procs|
    && forall p | 0 <= p < |k.procs| :: Plain(r.procs[p]) == if p in w then k.procs[p].(state := READY) else Plain(k.procs[p])
  }

  lemma WokenTrans(k: Kern, r: Kern, t: Kern, v: seq<nat>, w: seq<nat>)
    requires Woken(k, r, v) && Woken(r, t, w)
    ensures Woken(k, t, v + w)
  {
  }

  lemma SwitchWakes(k: Kern)
    requires k.qs.ready != [] ==> k.qs.ready[0] < |k.procs| && k.procs[k.qs.ready[0]].state == READY
    ensures Woken(k, Switch(k), [])
  {
  }

  lemma ReadyOnes(k: Kern, x: int)
    requires Struct(k, x)
    ensures forall p | p in k.qs.ready :: p < |k.procs| && k.procs[p].state == READY
  {
    assert forall p | p in k.qs.ready :: p in Queue(k.qs, OnReady);
  }

  /** resched's other branch: the current process joins the ready list, and the head of it runs. */
  function Rotated(k: Kern): Kern { Switch(InsertReady(WithState(k, k.curr, READY), k.curr)) }

  lemma RotatedWakes(k: Kern)
    requires StateOf(k, k.curr) == CURR && forall p | p in k.qs.ready :: p < |k.procs| && k.procs[p].state == READY
    ensures Woken(k, Rotated(k), [])
  {
    hide Switch, RankFrom, Keys;
    var k1 := WithState(k, k.curr, READY);
    var k2 := InsertReady(k1, k.curr);
    assert Woken(k, k2, []);
    var i := RankFrom(Keys(k1.qs.ready, k1.key), PrioOf(k1, k1.curr), 0);
    var x := if i == 0 then k.curr else k.qs.ready[0];
    assert k2.qs.ready[0] == x && k2.procs == k.procs[k.curr := k.procs[k.curr].(state := READY)];
    assert k2.procs[x].state == READY by {
      if i > 0 { assert k.qs.ready[0] in k.qs.ready; }
    }
    SwitchWakes(k2);
    WokenTrans(k, k2, Switch(k2), [], []);
  }

  /** resched moves nobody between waiting and not waiting. */
  lemma ReschedWakes(k: Kern)
    requires Struct(k, -1)
    ensures Woken(k, Resched(k), [])
  {
    ReadyOnes(k, -1);
    hide Struct, Switch, InsertReady, WithState;
    SameProcs(k, k.(attempt := true));
    SameProcs(k, k);
    hide Woken;
    SwitchWakes(k);
    if StateOf(k, k.curr) == CURR {
      RotatedWakes(k);
    }
  }

  lemma ReadyWakes(k: Kern, p: nat)
    requires Struct(k, p) && p < |k.procs| && p != k.curr
    ensures Woken(k, Ready(k, p), [p])
  {
    var k1 := WithState(k, p, READY);
    TransitStruct(k, p, k1.procs[p]);
    InsertReadyStruct(k1, p);
    hide Struct, Resched;
    ReschedWakes(InsertReady(k1, p));
    WokenTrans(k, InsertReady(k1, p), Ready(k, p), [p], []);
    assert [p] + [] == [p];
  }

  lemma SameProcs(k: Kern, r: Kern)
    requires r.procs == k.procs
    ensures Woken(k, r, [])
  {
  }

  // ---- semaphores -----------------------------------------------------------

  lemma ReleaseWakes(k: Kern, s: nat)
    requires Steady(k) && s < |k.qs.semq| && k.qs.semq[s] != []
    ensures Woken(k, Release(k, s), [k.qs.semq[s][0]])
  {
    var q := k.qs.semq[s];
    assert Queue(k.qs, OnSem(s)) == q && Drop(q, 0) == q[1..];
    UnlinkStruct(k, OnSem(s), 0);
    hide Struct, Urgent, Ready;
    ReadyWakes(k.(qs := WithQueue(k.qs, OnSem(s), q[1..])), q[0]);
  }

  /** The first `n` waiters. */
  function First(q: seq<nat>, n: nat): seq<nat> { if n < |q| then q[..n] else q }

  lemma BumpWakes(k: Kern, s: nat)
    requires Steady(k) && Counted(k.sems, k.qs.semq) && s < |k.sems| && s < |k.qs.semq|
    ensures Woken(k, Bump(k, s), First(k.qs.semq[s], 1))
  {
    var k1 := AddCount(k, s, 1);
    CountOnly(k, k1.sems);
    CountedAt(k, s);
    SameProcs(k, k1);
    hide Steady, Release, Woken, Counted;
    if k.sems[s].count < 0 {
      ReleaseWakes(k1, s);
      assert First(k.qs.semq[s], 1) == [k.qs.semq[s][0]];
      WokenFrom(k, k1, Release(k1, s), [k.qs.semq[s][0]]);
    }
  }

  lemma WokenFrom(k: Kern, k1: Kern, r: Kern, w: seq<nat>)
    requires k1.procs == k.procs && Woken(k1, r, w)
    ensures Woken(k, r, w)
  {
  }

  lemma WokenTo(k: Kern, r: Kern, t: Kern, w: seq<nat>)
    requires Woken(k, r, w) && t.procs == r.procs
    ensures Woken(k, t, w)
  {
  }

  lemma FirstMore(q: seq<nat>, n: nat)
    ensures First(q, 1) + First(Rest(q, 1), n) == First(q, n + 1)
  {
  }

  lemma {:induction false} BumpsWake(k: Kern, s: nat, n: nat)
    requires Steady(k) && Counted(k.sems, k.qs.semq) && s < |k.sems| == |k.qs.semq|
    ensures Woken(k, Bumps(k, s, n), First(k.qs.semq[s], n))
    decreases n
  {
    hide Steady, Bump, Woken, Counted;
    SameProcs(k, k);
    if n > 0 {
      BumpKeeps(k, s);
      BumpWakes(k, s);
      CountedAt(k, s);
      var k1 := Bump(k, s);
      assert k1.qs.semq[s] == Rest(k.qs.semq[s], 1);
      BumpsWake(k1, s, n - 1);
      WokenTrans(k, k1, Bumps(k, s, n), First(k.qs.semq[s], 1), First(k1.qs.semq[s], n - 1));
      FirstMore(k.qs.semq[s], n - 1);
    }
  }

  lemma {:induction false} DrainWakes(k: Kern, s: nat, n: nat)
    requires Steady(k) && s < |k.qs.semq| && n <= |k.qs.semq[s]|
    ensures Woken(k, Drain(k, s, n), k.qs.semq[s][..n])
    decreases n
  {
    hide Steady, Release, Woken;
    SameProcs(k, k);
    if n > 0 {
      var q := k.qs.semq[s];
      ReleaseSteady(k, s);
      ReleaseWakes(k, s);
      var k1 := Release(k, s);
      DrainWakes(k1, s, n - 1);
      WokenTrans(k, k1, Drain(k, s, n), [q[0]], q[1..][..n - 1]);
      assert [q[0]] + q[1..][..n - 1] == q[..n];
    }
  }

  lemma StopWakes(k: Kern)
    requires Steady(k)
    ensures Woken(k, DeferStop(k), [])
  {
    var k1 := k.(ndefers := if k.ndefers > 0 then k.ndefers - 1 else 0);
    hide Resched;
    if k.ndefers == 1 && k.attempt {
      ReschedWakes(k1);
      WokenFrom(k, k1, Resched(k1), []);
    } else {
      SameProcs(k, DeferStop(k));
    }
  }

  lemma SignalManyWakes(k: Kern, s: nat, n: nat)
    requires Inv(k) && Usable(k, s)
    ensures s < |k.qs.semq| && Woken(k, SignalMany(k, s, n), First(k.qs.semq[s], n))
  {
    InvParts(k);
    hide Inv, Steady, Bumps, DeferStop, DeferStart, Woken;
    DeferStartSteady(k);
    DeferStartFrame(k);
    StartProcs(k);
    var k1 := DeferStart(k);
    BumpsKeep(k1, s, n);
    BumpsWake(k1, s, n);
    StopWakes(Bumps(k1, s, n));
    WokenFrom(k, k1, Bumps(k1, s, n), First(k.qs.semq[s], n));
    WokenTrans(k, Bumps(k1, s, n), SignalMany(k, s, n), First(k.qs.semq[s], n), []);
    assert First(k.qs.semq[s], n) + [] == First(k.qs.semq[s], n);
  }

  lemma StartProcs(k: Kern)
    ensures DeferStart(k).procs == k.procs
  {
  }

  lemma DeleteWakes(k: Kern, s: nat)
    requires Inv(k) && Usable(k, s)
    ensures s < |k.qs.semq| && Woken(k, DeleteSem(k, s), k.qs.semq[s])
  {
    InvParts(k);
    hide Inv, Steady, Bumps, DeferStop, DeferStart, Woken, DeleteSem, Counted;
    var k0, n := Unused(k, s), Rounds(k.sems[s]);
    DeleteStarts(k, s);
    DeferStartSteady(k0);
    DeferStartFrame(k0);
    StartProcs(k0);
    var k1 := DeferStart(k0);
    BumpsEmpty(k1, s, n);
    BumpsWake(k1, s, n);
    assert First(k.qs.semq[s], n) == k.qs.semq[s];
    StopWakes(Bumps(k1, s, n));
    WokenFrom(k, k1, Bumps(k1, s, n), k.qs.semq[s]);
    WokenTrans(k, Bumps(k1, s, n), DeleteSem(k, s), k.qs.semq[s], []);
    assert k.qs.semq[s] + [] == k.qs.semq[s];
  }

  lemma ResetWakes(k: Kern, s: nat, n: nat)
    requires Inv(k) && Usable(k, s)
    ensures s < |k.qs.semq| && Woken(k, ResetSem(k, s, n), k.qs.semq[s])
  {
    InvParts(k);
    hide Inv, Steady, Drain, DeferStop, DeferStart, Woken;
    DeferStartSteady(k);
    DeferStartFrame(k);
    StartProcs(k);
    var k0, q := DeferStart(k), k.qs.semq[s];
    DrainKeeps(k0, s, |q|);
    DrainWakes(k0, s, |q|);
    assert q[..|q|] == q;
    var k1 := Drain(k0, s, |q|);
    var k2 := SetCount(k1, s, n);
    CountOnly(k1, k2.sems);
    StopWakes(k2);
    WokenFrom(k, k0, k1, q);
    WokenTo(k, k1, k2, q);
    WokenTrans(k, k2, ResetSem(k, s, n), q, []);
    assert q + [] == q;
  }

  // ---- sleepers -------------------------------------------------------------

  lemma WakeFirstWakes(k: Kern)
    requires Steady(k) && k.qs.sleep != []
    ensures Woken(k, WakeFirst(k), [k.qs.sleep[0]])
  {
    var p := k.qs.sleep[0];
    assert Queue(k.qs, OnSleep) == k.qs.sleep && Drop(k.qs.sleep, 0) == k.qs.sleep[1..];
    UnlinkStruct(k, OnSleep, 0);
    hide Struct, Urgent, Ready;
    ReadyWakes(k.(qs := k.qs.(sleep := k.qs.sleep[1..])), p);
  }

  lemma {:induction false} WakeSomeWakes(k: Kern, n: nat)
    requires Steady(k) && k.ndefers > 0 && n <= |k.qs.sleep|
    ensures Woken(k, WakeSome(k, n), k.qs.sleep[..n])
    decreases n
  {
    hide Steady, WakeFirst, Woken;
    SameProcs(k, k);
    if n > 0 {
      var q := k.qs.sleep;
      WakeFirstSteady(k);
      WakeFirstWakes(k);
      var k1 := WakeFirst(k);
      WakeSomeWakes(k1, n - 1);
      WokenTrans(k, k1, WakeSome(k, n), [q[0]], q[1..][..n - 1]);
      assert [q[0]] + q[1..][..n - 1] == q[..n];
    }
  }

  /** The sleepers a tick wakes: those in front whose delay has run out once the first one's is lowered. */
  function Due(k: Kern): seq<nat> {
    var ks := Keys(k.qs.sleep, k.key);
    if k.qs.sleep == [] then [] else k.qs.sleep[..Expired(ks[0 := ks[0] - 1])]
  }

  lemma WakeupWakes(k: Kern)
    requires Steady(k)
    ensures Woken(k, Wakeup(k), k.qs.sleep[..Expired(Keys(k.qs.sleep, k.key))])
  {
    hide Steady, WakeSome, DeferStop, DeferStart, Woken, Expired;
    var n := Expired(Keys(k.qs.sleep, k.key));
    var k1 := DeferStart(k);
    DeferStartSteady(k);
    DeferStartFrame(k);
    StartProcs(k);
    WakeSomeSteady(k1, n);
    WakeSomeWakes(k1, n);
    StopWakes(WakeSome(k1, n));
    WokenFrom(k, k1, WakeSome(k1, n), k.qs.sleep[..n]);
    WokenTrans(k, WakeSome(k1, n), Wakeup(k), k.qs.sleep[..n], []);
    assert k.qs.sleep[..n] + [] == k.qs.sleep[..n];
  }

  lemma TickWakes(k: Kern)
    requires Steady(k)
    ensures Woken(k, TickSleep(k), Due(k))
  {
    hide Steady, Wakeup, Woken, Expired, Keys, WithKey;
    if k.qs.sleep == [] {
      SameProcs(k, k);
    } else {
      var k1 := k.(key := WithKey(k.key, k.qs.sleep[0], KeyOf(k.key, k.qs.sleep[0]) - 1));
      TickKeySteady(k);
      LoweredFirst(k);
      if KeyOf(k1.key, k1.qs.sleep[0]) <= 0 {
        WakeupWakes(k1);
        WokenFrom(k, k1, Wakeup(k1), Due(k));
      } else {
        SameProcs(k, k1);
        NotDue(k);
      }
    }
  }

  lemma NotDue(k: Kern)
    requires Steady(k) && k.qs.sleep != []
    requires var k1 := k.(key := WithKey(k.key, k.qs.sleep[0], KeyOf(k.key, k.qs.sleep[0]) - 1)); KeyOf(k1.key, k1.qs.sleep[0]) > 0
    ensures Due(k) == []
  {
    LoweredFirst(k);
  }

  lemma LoweredFirst(k: Kern)
    requires Steady(k) && k.qs.sleep != []
    ensures var k1 := k.(key := WithKey(k.key, k.qs.sleep[0], KeyOf(k.key, k.qs.sleep[0]) - 1));
            var ks := Keys(k.qs.sleep, k.key); Keys(k1.qs.sleep, k1.key) == ks[0 := ks[0] - 1]
  {
    assert NoDup(Queue(k.qs, OnSleep));
    assert k.qs.sleep[0] in Queue(k.qs, OnSleep);
  }

  // ---- one call, one process ------------------------------------------------

  function Up(pr: Proc, woken: bool): Proc { if woken then pr.(state := READY) else Plain(pr) }

  /** The processes waiting on a semaphore in use, first come first. */
  function Waiting(k: Kern, s: int): seq<nat> { if Usable(k, s) then Queue(k.qs, OnSem(s)) else [] }

  /** What becomes of process `p` in each call. */
  function Next(k: Kern, e: Call, p: nat): Proc
    requires p < |k.procs|
  {
    var pr := k.procs[p];
    match e
    case Wait(s) => if p == k.curr && Usable(k, s) && k.sems[s].count <= 0 then pr.(state := WAIT, sem := s) else Plain(pr)
    case Signal(s) => Up(pr, p in First(Waiting(k, s), 1))
    case SignalN(s, n) => Up(pr, n >= 0 && p in First(Waiting(k, s), n))
    case SemReset(s, n) => Up(pr, n >= 0 && p in Waiting(k, s))
    case SemDelete(s) => Up(pr, p in Waiting(k, s))
    case Sleep(delay) => if p == k.curr && delay != 0 then pr.(state := SLEEP) else Plain(pr)
    case Tick => Up(pr, p in Due(k))
    case SendTo(q, msg) =>
      if p != q || pr.state == FREE || pr.hasmsg then Plain(pr)
      else Up(pr, pr.state == RECV || pr.state == RECTIM).(msg := msg, hasmsg := true)
    case Recv => if p == k.curr && !pr.hasmsg then pr.(state := RECV) else Plain(pr)
    case RecvTime(maxwait) => if p == k.curr && maxwait >= 0 && !pr.hasmsg then pr.(state := RECTIM) else Plain(pr)
    case Take => if p == k.curr then Plain(pr).(hasmsg := false) else Plain(pr)
    case Susp(q) => if p == q && p != NULLPROC && (pr.state == READY || pr.state == CURR) then pr.(state := SUSP) else Plain(pr)
    case Res(q) => Up(pr, p == q && pr.state == SUSP)
    case KillOne(q) => if p == q && p != NULLPROC then pr.(state := FREE) else Plain(pr)
    case New(slot, prio) =>
      if p == slot && p != NULLPROC && pr.state == FREE && prio >= 1 then Proc(SUSP, prio, 0, false, 0) else Plain(pr)
    case _ => Plain(pr)
  }

  /** One process goes into another state, everybody else stays. */
  ghost predicate Only(k: Kern, r: Kern, x: nat, pr: Proc) {
    |r.procs| == |k.procs| && forall p | 0 <= p < |k.procs| :: Plain(r.procs[p]) == if p == x then Plain(pr) else Plain(k.procs[p])
  }

  /** The current process stops, and another runs. */
  lemma StopOnly(k: Kern, k1: Kern, pr: Proc)
    requires Struct(k1, -1) && k.curr < |k.procs| && k1.procs == k.procs[k.curr := pr]
    ensures Only(k, Resched(k1), k.curr, pr)
  {
    hide Struct, Resched;
    ReschedWakes(k1);
  }

  lemma WaitLife(k: Kern, s: int)
    requires Inv(k) && Usable(k, s) && k.sems[s].count <= 0 && MayBlock(k)
    ensures k.curr < |k.procs| && Only(k, WaitSem(k, s), k.curr, k.procs[k.curr].(state := WAIT, sem := s))
  {
    InvParts(k);
    CountedAt(k, s);
    var k1 := AddCount(k, s, -1);
    CountOnly(k, k1.sems);
    BlockStruct(k1, s);
    hide Inv, Steady, Struct, Resched, Only;
    CurrThere(k);
    StopOnly(k, Block(k1, s), k.procs[k.curr].(state := WAIT, sem := s));
  }

  lemma CurrThere(k: Kern)
    requires Steady(k)
    ensures k.curr < |k.procs| && k.procs[k.curr].state == CURR && Struct(k, -1)
  {
  }

  lemma StopLife(k: Kern, st: PState)
    requires Steady(k) && MayBlock(k) && (st == RECV || st == SUSP || st == FREE)
    ensures k.curr < |k.procs| && Only(k, Resched(WithState(k, k.curr, st)), k.curr, k.procs[k.curr].(state := st))
  {
    var k1 := WithState(k, k.curr, st);
    assert Struct(k1, -1) by {
      LeaveStruct(k, k.curr);
      TransitStruct(k, k.curr, k.procs[k.curr].(state := st));
      StayStruct(k1, k.curr);
    }
    hide Struct, Resched, Only, Urgent;
    StopOnly(k, k1, k.procs[k.curr].(state := st));
  }

  lemma SleepLife(k: Kern, d: int, st: PState)
    requires Steady(k) && MayBlock(k) && (st == SLEEP || st == RECTIM)
    ensures k.curr < |k.procs|
    ensures Only(k, Resched(WithState(InsertSleep(k, k.curr, d), k.curr, st)), k.curr, k.procs[k.curr].(state := st))
  {
    LeaveStruct(k, k.curr);
    InsertSleepStruct(k, k.curr, d, st);
    hide Struct, Resched, Only, Urgent;
    SleepFrame(k, d);
    StopOnly(k, WithState(InsertSleep(k, k.curr, d), k.curr, st), k.procs[k.curr].(state := st));
  }

  lemma SendLife(k: Kern, q: nat, msg: int)
    requires Steady(k) && q < |k.procs| && k.procs[q].state != FREE && !k.procs[q].hasmsg
    ensures Only(k, Send(k, q, msg), q, Up(k.procs[q], k.procs[q].state == RECV || k.procs[q].state == RECTIM).(msg := msg, hasmsg := true))
  {
    var k1 := Deliver(k, q, msg);
    DeliverSteady(k, q, msg);
    hide Steady, Ready, Unsleep, Woken;
    if k.procs[q].state == RECV {
      RecvWakes(k1, q);
      SentOnly(k, q, msg, Ready(k1, q));
    } else if k.procs[q].state == RECTIM {
      RecvTimeWakes(k1, q);
      SentOnly(k, q, msg, Ready(Unsleep(k1, q), q));
    }
  }

  lemma SentOnly(k: Kern, q: nat, msg: int, r: Kern)
    requires q < |k.procs| && Woken(Deliver(k, q, msg), r, [q])
    ensures Only(k, r, q, k.procs[q].(state := READY, msg := msg, hasmsg := true))
  {
    assert forall p | 0 <= p < |k.procs| :: p in [q] <==> p == q;
  }

  lemma RecvWakes(k: Kern, q: nat)
    requires Steady(k) && q < |k.procs| && k.procs[q].state == RECV
    ensures Woken(k, Ready(k, q), [q])
  {
    LeaveStruct(k, q);
    hide Struct, Ready, Urgent, Woken;
    ReadyWakes(k, q);
  }

  lemma RecvTimeWakes(k: Kern, q: nat)
    requires Steady(k) && q < |k.procs| && k.procs[q].state == RECTIM
    ensures Woken(k, Ready(Unsleep(k, q), q), [q])
  {
    UnsleepStruct(k, q);
    hide Struct, Ready, Urgent, Woken;
    ReadyWakes(Unsleep(k, q), q);
    WokenFrom(k, Unsleep(k, q), Ready(Unsleep(k, q), q), [q]);
  }

  lemma KillLife(k: Kern, q: nat)
    requires Inv(k) && q != NULLPROC && q < |k.procs| && (q == k.curr ==> MayBlock(k))
    ensures Only(k, Kill(k, q), q, k.procs[q].(state := FREE))
  {
    hide Inv, Steady, Struct, Resched, Without, CutKeys, WithQueue, Queue;
    InvParts(k);
    CurrThere(k);
    if k.procs[q].state == CURR {
      IsCurr(k, q);
      StopLife(k, FREE);
    }
  }

  lemma IsCurr(k: Kern, q: nat)
    requires Steady(k) && q < |k.procs| && k.procs[q].state == CURR
    ensures q == k.curr
  {
  }

  lemma SuspendLife(k: Kern, q: nat)
    requires Steady(k) && q != NULLPROC && q < |k.procs| && (q == k.curr ==> MayBlock(k)) && (k.procs[q].state == READY || k.procs[q].state == CURR)
    ensures Only(k, Suspend(k, q), q, k.procs[q].(state := SUSP))
  {
    hide Steady, Struct, Resched, Without, WithQueue, Queue;
    CurrThere(k);
    if k.procs[q].state == CURR {
      IsCurr(k, q);
      StopLife(k, SUSP);
    }
  }

  lemma ResumeLife(k: Kern, q: nat)
    requires Steady(k) && q < |k.procs| && k.procs[q].state == SUSP
    ensures Woken(k, Resume(k, q), [q])
  {
    LeaveStruct(k, q);
    hide Struct, Ready, Urgent;
    ReadyWakes(k, q);
  }

  lemma WokenAt(k: Kern, r: Kern, w: seq<nat>, p: nat)
    requires Woken(k, r, w) && p < |k.procs|
    ensures |r.procs| == |k.procs| && Plain(r.procs[p]) == Up(k.procs[p], p in w)
  {
  }

  lemma OnlyAt(k: Kern, r: Kern, x: nat, pr: Proc, p: nat)
    requires Only(k, r, x, pr) && p < |k.procs|
    ensures |r.procs| == |k.procs| && Plain(r.procs[p]) == if p == x then Plain(pr) else Plain(k.procs[p])
  {
  }

  lemma SemLife(k: Kern, e: Call, p: nat)
    requires Inv(k) && Allowed(k, e) && p < |k.procs|
    requires e.Wait? || e.Signal? || e.SignalN? || e.SemReset? || e.SemDelete?
    ensures |Do(k, e).procs| == |k.procs| && Plain(Do(k, e).procs[p]) == Next(k, e, p)
  {
    hide Inv, WaitSem, SignalSem, SignalMany, ResetSem, DeleteSem, Woken, Only;
    match e
    case Wait(s) =>
      if Usable(k, s) && k.sems[s].count <= 0 {
        WaitLife(k, s);
        OnlyAt(k, WaitSem(k, s), k.curr, k.procs[k.curr].(state := WAIT, sem := s), p);
      } else {
        PlainWait(k, s);
      }
    case Signal(s) =>
      if Usable(k, s) {
        SignalWakes(k, s);
        WokenAt(k, SignalSem(k, s), First(k.qs.semq[s], 1), p);
      } else {
        Useless(k, s, 0);
      }
    case SignalN(s, n) =>
      if Usable(k, s) && n >= 0 {
        SignalManyWakes(k, s, n);
        WokenAt(k, SignalMany(k, s, n), First(k.qs.semq[s], n), p);
      } else {
        Useless(k, s, n);
      }
    case SemReset(s, n) =>
      if Usable(k, s) && n >= 0 {
        ResetWakes(k, s, n);
        WokenAt(k, ResetSem(k, s, n), k.qs.semq[s], p);
      } else {
        Useless(k, s, n);
      }
    case SemDelete(s) =>
      if Usable(k, s) {
        DeleteWakes(k, s);
        WokenAt(k, DeleteSem(k, s), k.qs.semq[s], p);
      } else {
        Useless(k, s, 0);
      }
  }

  lemma PlainWait(k: Kern, s: int)
    requires !(Usable(k, s) && k.sems[s].count <= 0)
    ensures WaitSem(k, s).procs == k.procs
  {
  }

  lemma Useless(k: Kern, s: int, n: int)
    ensures !Usable(k, s) ==> SignalSem(k, s) == k && DeleteSem(k, s) == k
    ensures !Usable(k, s) || n < 0 ==> SignalMany(k, s, n) == k && ResetSem(k, s, n) == k
  {
  }

  lemma SignalWakes(k: Kern, s: nat)
    requires Inv(k) && Usable(k, s)
    ensures s < |k.qs.semq| && Woken(k, SignalSem(k, s), First(k.qs.semq[s], 1))
  {
    InvParts(k);
    CountedAt(k, s);
    hide Inv, Steady, Bump, Woken;
    BumpWakes(k, s);
  }

  /** Every call does to every process what `Next` says. */
  lemma StepLife(k: Kern, e: Call, p: nat)
    requires Inv(k) && Allowed(k, e) && p < |k.procs|
    ensures |Do(k, e).procs| == |k.procs| && Plain(Do(k, e).procs[p]) == Next(k, e, p)
  {
    hide Inv, Steady, Struct, Resched, WaitSem, SignalSem, SignalMany, ResetSem, DeleteSem, Woken, Only, Wakeup, Send, InsertSleep, Kill, Suspend, Resume, TickSleep;
    InvParts(k);
    CurrThere(k);
    match e
    case Yield => ReschedWakes(k); WokenAt(k, Resched(k), [], p);
    case Undefer => StopWakes(k); WokenAt(k, DeferStop(k), [], p);
    case Sleep(delay) =>
      if delay == 0 {
        ReschedWakes(k);
        WokenAt(k, Resched(k), [], p);
      } else {
        SleepLife(k, Int32(delay), SLEEP);
        OnlyAt(k, Do(k, e), k.curr, k.procs[k.curr].(state := SLEEP), p);
      }
    case Tick => TickWakes(k); WokenAt(k, TickSleep(k), Due(k), p);
    case Slice =>
      SliceWakes(k);
      WokenAt(k, TickSlice(k), [], p);
    case SendTo(q, msg) =>
      if q < 0 || StateOf(k, q) == FREE || k.procs[q].hasmsg {
        NotSent(k, q, msg);
      } else {
        SendLife(k, q, msg);
        OnlyAt(k, Send(k, q, msg), q, Up(k.procs[q], k.procs[q].state == RECV || k.procs[q].state == RECTIM).(msg := msg, hasmsg := true), p);
      }
    case Recv =>
      if !k.procs[k.curr].hasmsg {
        StopLife(k, RECV);
        OnlyAt(k, Do(k, e), k.curr, k.procs[k.curr].(state := RECV), p);
      }
    case RecvTime(maxwait) =>
      if maxwait >= 0 && !k.procs[k.curr].hasmsg {
        SleepLife(k, maxwait, RECTIM);
        OnlyAt(k, Do(k, e), k.curr, k.procs[k.curr].(state := RECTIM), p);
      }
    case Susp(q) =>
      if q > 0 && (StateOf(k, q) == READY || StateOf(k, q) == CURR) {
        SuspendLife(k, q);
        OnlyAt(k, Suspend(k, q), q, k.procs[q].(state := SUSP), p);
      } else {
        NotSuspended(k, q);
      }
    case Res(q) =>
      if q >= 0 && StateOf(k, q) == SUSP {
        ResumeLife(k, q);
        WokenAt(k, Resume(k, q), [q], p);
      } else {
        NotResumed(k, q);
      }
    case KillOne(q) =>
      if q > 0 && q < |k.procs| {
        KillLife(k, q);
        OnlyAt(k, Kill(k, q), q, k.procs[q].(state := FREE), p);
      } else {
        NotKilled(k, q);
      }
    case New(slot, prio) =>
    case SemCreate(s, n) =>
    case Defer => StartProcs(k);
    case Take =>
    case _ => SemLife(k, e, p);
  }

  lemma SliceWakes(k: Kern)
    requires Steady(k)
    ensures Woken(k, TickSlice(k), [])
  {
    var k1 := k.(preempt := QUANTUM);
    SameProcs(k, k.(preempt := k.preempt - 1));
    hide Resched, Woken;
    ReschedWakes(k1);
    WokenFrom(k, k1, Resched(k1), []);
  }

  lemma NotSent(k: Kern, q: int, msg: int)
    requires q < 0 || StateOf(k, q) == FREE || k.procs[q].hasmsg
    ensures Send(k, q, msg) == k
  {
  }

  lemma NotSuspended(k: Kern, q: int)
    requires !(q > 0 && (StateOf(k, q) == READY || StateOf(k, q) == CURR))
    ensures Suspend(k, q) == k
  {
  }

  lemma NotResumed(k: Kern, q: int)
    requires !(q >= 0 && StateOf(k, q) == SUSP)
    ensures Resume(k, q) == k
  {
  }

  lemma NotKilled(k: Kern, q: int)
    requires !(0 < q < |k.procs|)
    ensures Kill(k, q) == k
  {
  }
}
