/** Semaphores over whole runs: first come, first served, and never more holders than the semaphore admits. */
module SchedLocks {
  import opened SchedLists
  import opened SchedState
  import opened SchedMoves
  import opened SchedSteps
  import opened SchedSems
  import opened SchedRun

  /** What one call can do to a semaphore's queue: nothing, a newcomer at the end, some leaving at the front. */
  ghost predicate Served(q: seq<nat>, r: seq<nat>) {
    r == q || (exists p :: r == q + [p]) || (exists n: nat :: r == Rest(q, n))
  }

  function QueueOf(k: Kern, s: nat): seq<nat> { Queue(k.qs, OnSem(s)) }

  lemma WaitMoves(k: Kern, s: int)
    requires Usable(k, s) && |k.qs.semq| == |k.sems|
    ensures var r := WaitSem(k, s); var sem := k.sems[s].(count := k.sems[s].count - 1);
            r.sems == k.sems[s := sem]
            && r.qs.semq == if sem.count < 0 then k.qs.semq[s := k.qs.semq[s] + [k.curr]] else k.qs.semq
  {
    var k1 := AddCount(k, s, -1);
    hide Resched;
    ReschedFrame(Block(k1, s));
  }

  lemma SignalMoves(k: Kern, s: int)
    requires Inv(k) && Usable(k, s)
    ensures var r := SignalSem(k, s); var sem := k.sems[s].(count := k.sems[s].count + 1);
            r.sems == k.sems[s := sem]
            && r.qs.semq == k.qs.semq[s := if k.sems[s].count < 0 then k.qs.semq[s][1..] else k.qs.semq[s]]
  {
    InvParts(k);
    hide Inv, Steady, Bump;
    BumpKeeps(k, s);
  }

  lemma SignalManyMoves(k: Kern, s: int, n: int)
    requires Inv(k) && Usable(k, s) && n >= 0
    ensures var r := SignalMany(k, s, n); var sem := k.sems[s].(count := k.sems[s].count + n);
            r.sems == k.sems[s := sem] && r.qs.semq == k.qs.semq[s := Rest(k.qs.semq[s], n)]
  {
    InvParts(k);
    hide Inv, Steady, Bumps, DeferStop, DeferStart;
    DeferStartSteady(k);
    DeferStartFrame(k);
    BumpsKeep(DeferStart(k), s, n);
    DeferStopFrame(Bumps(DeferStart(k), s, n));
  }

  /** kill takes a waiter out of its queue and gives its place back to the count. */
  lemma KillMoves(k: Kern, p: int, s: nat)
    requires Inv(k) && s < |k.sems|
    ensures var r := Kill(k, p);
            |r.sems| == |k.sems|
            && if p > 0 && StateOf(k, p) == WAIT && k.procs[p].sem == s then
              r.sems[s] == k.sems[s].(count := k.sems[s].count + 1) && QueueOf(r, s) == Without(QueueOf(k, s), p)
              && k.sems[s].count < 0
            else r.sems[s] == k.sems[s] && QueueOf(r, s) == QueueOf(k, s)
  {
    if p > NULLPROC && StateOf(k, p) != FREE {
      if StateOf(k, p) == WAIT {
        WaiterCounted(k, p);
        hide Inv, Without;
      } else {
        hide Inv, Kill;
        KillFrame(k, p);
      }
    }
  }

  lemma ResetMoves(k: Kern, s: int, n: int)
    requires Inv(k)
    ensures ResetSem(k, s, n).qs.semq == if Usable(k, s) && n >= 0 then k.qs.semq[s := []] else k.qs.semq
  {
    ResetInv(k, s, n);
    hide Inv, Drain, DeferStop;
  }

  lemma DeleteMoves(k: Kern, s: int)
    requires Inv(k)
    ensures DeleteSem(k, s).qs.semq == if Usable(k, s) then k.qs.semq[s := []] else k.qs.semq
  {
    DeleteInv(k, s);
    hide Inv, Bumps, DeferStop;
  }

  lemma QueueEmpty(k: Kern, s: nat)
    requires Inv(k) && s < |k.sems|
    ensures k.sems[s].count < 0 <==> k.qs.semq[s] != []
  {
  }

  lemma ServedWays(q: seq<nat>, p: nat, n: nat)
    ensures Served(q, q) && Served(q, q + [p]) && Served(q, Rest(q, n))
  {
  }

  lemma CallServes(k: Kern, e: Call, s: nat)
    requires Inv(k) && Allowed(k, e) && s < |k.sems| && !e.KillOne?
    ensures Served(QueueOf(k, s), QueueOf(Do(k, e), s))
  {
    hide Inv, Steady, Do, Served;
    if Other(e) {
      InvParts(k);
      OtherFrame(k, e);
      ServedWays(QueueOf(k, s), 0, 0);
    } else {
      SemCallServes(k, e, s);
    }
  }

  lemma SemCallServes(k: Kern, e: Call, s: nat)
    requires Inv(k) && s < |k.sems| && !e.KillOne? && !Other(e)
    ensures Served(QueueOf(k, s), QueueOf(Do(k, e), s))
  {
    hide Inv, WaitSem, SignalSem, SignalMany, ResetSem, DeleteSem, CreateSem, Served, QueueOf;
    match e
    case Wait(x) => WaitServes(k, x, s);
    case Signal(x) => SignalServes(k, x, s);
    case SignalN(x, n) => SignalManyServes(k, x, n, s);
    case SemReset(x, n) => ResetServes(k, x, n, s);
    case SemDelete(x) => ResetServes(k, x, 0, s);
    case SemCreate(x, n) => CreateServes(k, x, n, s);
  }

  lemma WaitServes(k: Kern, x: int, s: nat)
    requires Inv(k) && s < |k.sems|
    ensures Served(QueueOf(k, s), QueueOf(WaitSem(k, x), s))
  {
    hide Inv, WaitSem, Served;
    InvSize(k);
    ServedWays(QueueOf(k, s), k.curr, 0);
    Unusable(k, x, 0);
    if Usable(k, x) {
      WaitMoves(k, x);
    }
  }

  lemma SignalServes(k: Kern, x: int, s: nat)
    requires Inv(k) && s < |k.sems|
    ensures Served(QueueOf(k, s), QueueOf(SignalSem(k, x), s))
  {
    hide Inv, SignalSem, Served;
    InvSize(k);
    ServedWays(QueueOf(k, s), k.curr, 1);
    RestOne(QueueOf(k, s));
    Unusable(k, x, 0);
    if Usable(k, x) {
      SignalMoves(k, x);
      QueueEmpty(k, x);
    }
  }

  lemma RestOne(q: seq<nat>)
    ensures q != [] ==> Rest(q, 1) == q[1..]
  {
  }

  lemma SignalManyServes(k: Kern, x: int, n: int, s: nat)
    requires Inv(k) && s < |k.sems|
    ensures Served(QueueOf(k, s), QueueOf(SignalMany(k, x, n), s))
  {
    hide Inv, SignalMany, Served, Rest;
    InvSize(k);
    ServedWays(QueueOf(k, s), k.curr, if n < 0 then 0 else n);
    Unusable(k, x, n);
    if Usable(k, x) && n >= 0 {
      SignalManyMoves(k, x, n);
    }
  }

  lemma ResetServes(k: Kern, x: int, n: int, s: nat)
    requires Inv(k) && s < |k.sems|
    ensures Served(QueueOf(k, s), QueueOf(ResetSem(k, x, n), s))
    ensures Served(QueueOf(k, s), QueueOf(DeleteSem(k, x), s))
  {
    hide Inv, ResetSem, DeleteSem, Served;
    InvSize(k);
    var q := QueueOf(k, s);
    ServedWays(q, k.curr, |q|);
    ResetMoves(k, x, n);
    DeleteMoves(k, x);
  }

  lemma CreateServes(k: Kern, x: int, n: int, s: nat)
    ensures Served(QueueOf(k, s), QueueOf(CreateSem(k, x, n), s))
  {
  }

  lemma ServedOrder(q: seq<nat>, r: seq<nat>, p: nat, w: nat)
    requires NoDup(q) && Served(q, r) && Ahead(q, p, w) && p in r
    ensures Ahead(r, p, w)
  {
    var i, j :| 0 <= i < j < |q| && q[i] == p && q[j] == w;
    if x :| r == q + [x] {
      assert r[i] == p && r[j] == w;
    } else if r != q {
      var n: nat :| r == Rest(q, n);
      RestOrder(q, n, i, j);
    }
  }

  lemma RestOrder(q: seq<nat>, n: nat, i: nat, j: nat)
    requires NoDup(q) && i < j < |q| && q[i] in Rest(q, n)
    ensures Ahead(Rest(q, n), q[i], q[j])
  {
    var r := Rest(q, n);
    var a :| 0 <= a < |r| && r[a] == q[i];
    assert q[n + a] == q[i];
    assert n + a == i;
    assert r[j - n] == q[j];
  }

  /** A waiter is not released past one ahead of it; only killing it takes it out of turn. */
  lemma NoPassing(k: Kern, e: Call, s: nat, p: nat, w: nat)
    requires Inv(k) && Allowed(k, e) && s < |k.sems| && Ahead(QueueOf(k, s), p, w)
    requires p in QueueOf(Do(k, e), s) && e != KillOne(w)
    ensures Ahead(QueueOf(Do(k, e), s), p, w)
  {
    var q := QueueOf(k, s);
    assert NoDup(q);
    hide Do;
    if e.KillOne? {
      KillPasses(k, e.p, s, p, w);
      assert Do(k, e) == Kill(k, e.p) by { DoKill(k, e.p); }
    } else {
      CallServes(k, e, s);
      hide Inv, Served;
      ServedOrder(q, QueueOf(Do(k, e), s), p, w);
    }
  }

  lemma DoKill(k: Kern, p: int)
    ensures Do(k, KillOne(p)) == Kill(k, p)
  {
  }

  lemma KillPasses(k: Kern, x: int, s: nat, p: nat, w: nat)
    requires Inv(k) && s < |k.sems| && Ahead(QueueOf(k, s), p, w) && p in QueueOf(Kill(k, x), s) && x != w
    ensures Ahead(QueueOf(Kill(k, x), s), p, w)
  {
    var q := QueueOf(k, s);
    assert NoDup(q);
    KillMoves(k, x, s);
    hide Inv, Kill;
    if QueueOf(Kill(k, x), s) != q {
      var i := Find(q, x);
      DropMembers(q, i);
      DropAhead(q, i, p, w);
    }
  }

  /** Over a whole run: while the one ahead keeps waiting and the one behind is not killed, the one behind keeps waiting. */
  lemma {:induction false} WaitersFifo(ks: seq<Kern>, es: seq<Call>, n: nat, s: nat, p: nat, w: nat)
    requires Run(ks, es) && Inv(ks[0]) && n < |ks| && s < |ks[0].sems| && Ahead(QueueOf(ks[0], s), p, w)
    requires forall i | 0 <= i <= n :: p in QueueOf(ks[i], s)
    requires forall i | 0 <= i < n :: es[i] != KillOne(w)
    ensures s < |ks[n].sems| && Ahead(QueueOf(ks[n], s), p, w)
  {
    hide Inv, Do, Allowed, Ahead, QueueOf;
    if n > 0 {
      WaitersFifo(ks, es, n - 1, s, p, w);
      RunInv(ks, es, n - 1);
      assert p in QueueOf(ks[n], s);
      NoPassing(ks[n - 1], es[n - 1], s, p, w);
      SameSems(ks[n - 1], es[n - 1]);
    }
  }

  lemma ResetSize(k: Kern, s: int, n: int)
    requires Inv(k)
    ensures |ResetSem(k, s, n).sems| == |k.sems|
  {
    ResetInv(k, s, n);
    InvSize(k);
    InvSize(ResetSem(k, s, n));
    hide Inv, Drain, DeferStop;
  }

  lemma DeleteSize(k: Kern, s: int)
    requires Inv(k)
    ensures |DeleteSem(k, s).sems| == |k.sems|
  {
    DeleteInv(k, s);
    InvSize(k);
    InvSize(DeleteSem(k, s));
    hide Inv, Bumps, DeferStop;
  }

  lemma InvSize(k: Kern)
    requires Inv(k)
    ensures |k.sems| == |k.qs.semq|
  {
  }

  /** The semaphore table keeps its size. */
  lemma SameSems(k: Kern, e: Call)
    requires Inv(k) && Allowed(k, e)
    ensures |Do(k, e).sems| == |k.sems|
  {
    hide Inv, Steady, WaitSem, SignalSem, SignalMany, ResetSem, DeleteSem, Kill;
    InvParts(k);
    InvSize(k);
    match e
    case Wait(s) => Unusable(k, s, 0); if Usable(k, s) { WaitMoves(k, s); }
    case Signal(s) => Unusable(k, s, 0); if Usable(k, s) { SignalMoves(k, s); }
    case SignalN(s, n) => Unusable(k, s, n); if Usable(k, s) && n >= 0 { SignalManyMoves(k, s, n); }
    case SemReset(s, n) => ResetSize(k, s, n);
    case SemDelete(s) => DeleteSize(k, s);
    case SemCreate(s, n) =>
    case KillOne(p) => if |k.sems| > 0 { KillMoves(k, p, 0); } else { NoSems(k, p); }
    case _ => hide Do; OtherFrame(k, e);
  }

  lemma Unusable(k: Kern, s: int, n: int)
    ensures !Usable(k, s) ==> WaitSem(k, s) == k && SignalSem(k, s) == k
    ensures !Usable(k, s) || n < 0 ==> SignalMany(k, s, n) == k
  {
  }

  /** What becomes of semaphore `s` in each call. */
  function NextSem(k: Kern, e: Call, s: nat): Sem
    requires s < |k.sems|
  {
    var sem := k.sems[s];
    match e
    case Wait(x) => if x == s && sem.used then sem.(count := sem.count - 1) else sem
    case Signal(x) => if x == s && sem.used then sem.(count := sem.count + 1) else sem
    case SignalN(x, n) => if x == s && sem.used && n >= 0 then sem.(count := sem.count + n) else sem
    case SemReset(x, n) => if x == s && sem.used && n >= 0 then sem.(count := n) else sem
    case SemDelete(x) => if x == s && sem.used then Sem(false, (if sem.count < 0 then 0 else sem.count) + 1) else sem
    case SemCreate(x, n) => if x == s && !sem.used && n >= 0 then Sem(true, n) else sem
    case KillOne(p) =>
      if p > 0 && StateOf(k, p) == WAIT && k.procs[p].sem == s then sem.(count := sem.count + 1) else sem
    case _ => sem
  }

  /** What becomes of its queue: newcomers at the end, the released from the front, the killed from where they are. */
  function NextQueue(k: Kern, e: Call, s: nat): seq<nat>
    requires s < |k.sems|
  {
    var sem, q := k.sems[s], QueueOf(k, s);
    match e
    case Wait(x) => if x == s && sem.used && sem.count <= 0 then q + [k.curr] else q
    case Signal(x) => if x == s && sem.used then Rest(q, 1) else q
    case SignalN(x, n) => if x == s && sem.used && n >= 0 then Rest(q, n) else q
    case SemReset(x, n) => if x == s && sem.used && n >= 0 then [] else q
    case SemDelete(x) => if x == s && sem.used then [] else q
    case KillOne(p) => if p > 0 && StateOf(k, p) == WAIT && k.procs[p].sem == s then Without(q, p) else q
    case _ => q
  }

  lemma ResetExact(k: Kern, s: nat, n: nat)
    requires Inv(k) && Usable(k, s)
    ensures ResetSem(k, s, n).sems == k.sems[s := Sem(true, n)]
  {
    hide Inv, Steady, ResetSem;
    InvParts(k);
    InvSize(k);
    ResetKeeps(k, s, n);
  }

  lemma DeleteExact(k: Kern, s: nat)
    requires Inv(k) && Usable(k, s)
    ensures DeleteSem(k, s).sems == k.sems[s := Deleted(k.sems[s])]
  {
    hide Inv, Steady, DeleteSem, Counted;
    InvParts(k);
    DeleteKeeps(k, s);
  }

  /** Every call does to every semaphore what `NextSem` and `NextQueue` say. */
  lemma StepSem(k: Kern, e: Call, s: nat)
    requires Inv(k) && Allowed(k, e) && s < |k.sems|
    ensures |Do(k, e).sems| == |k.sems|
    ensures Do(k, e).sems[s] == NextSem(k, e, s) && QueueOf(Do(k, e), s) == NextQueue(k, e, s)
  {
    hide Inv, Steady, WaitSem, SignalSem, SignalMany, ResetSem, DeleteSem, Kill, Without;
    InvSize(k);
    QueueEmpty(k, s);
    SameSems(k, e);
    match e
    case Wait(x) => Unusable(k, x, 0); if Usable(k, x) { WaitMoves(k, x); }
    case Signal(x) => Unusable(k, x, 0); if Usable(k, x) { SignalMoves(k, x); RestOne(QueueOf(k, s)); }
    case SignalN(x, n) => Unusable(k, x, n); if Usable(k, x) && n >= 0 { SignalManyMoves(k, x, n); }
    case SemReset(x, n) => ResetMoves(k, x, n); if Usable(k, x) && n >= 0 { ResetExact(k, x, n); } else { ResetUnusable(k, x, n); }
    case SemDelete(x) => DeleteMoves(k, x); if Usable(k, x) { DeleteExact(k, x); } else { DeleteUnusable(k, x); }
    case SemCreate(x, n) =>
    case KillOne(p) => KillMoves(k, p, s);
    case _ => hide Do; InvParts(k); OtherFrame(k, e);
  }

  lemma NoSems(k: Kern, p: int)
    requires |k.sems| == 0
    ensures |Kill(k, p).sems| == 0
  {
    if p >= 0 {
      ReschedFrame(WithState(k, p, FREE));
    }
    hide Resched;
  }
}
