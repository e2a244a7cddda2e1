/** A semaphore created with count `c` and used as a lock admits at most `c` processes at a time. */
module SchedMutex {
  import opened SchedLists
  import opened SchedState
  import opened SchedSteps
  import opened SchedSems
  import opened SchedRun
  import opened SchedLocks

  /** The processes let through and not yet done, and how many were killed in that position. */
  datatype Use = Use(held: set<nat>, lost: nat)

  /** Who holds after a call: whoever wait lets through, and whoever signal releases. */
  function Account(k: Kern, e: Call, s: nat, u: Use): Use {
    match e
    case Wait(x) =>
      if x == s && Usable(k, s) && k.sems[s].count >= 1 then u.(held := u.held + {k.curr}) else u
    case Signal(x) =>
      if x == s && Usable(k, s) then
        var q := QueueOf(k, s);
        u.(held := u.held - {k.curr} + if q != [] then {q[0]} else {})
      else u
    case KillOne(p) =>
      if p > 0 && StateOf(k, p) != FREE && (p as nat) in u.held then Use(u.held - {p as nat}, u.lost + 1) else u
    case _ => u
  }

  /** Used as a lock: wait by somebody who does not hold, signal by somebody who does, nothing else. */
  predicate Disciplined(k: Kern, e: Call, s: nat, u: Use) {
    match e
    case Wait(x) => x == s ==> k.curr !in u.held
    case Signal(x) => x == s ==> k.curr in u.held
    case SignalN(x, _) => x != s
    case SemReset(x, _) => x != s
    case SemDelete(x) => x != s
    case _ => true
  }

  ghost predicate LockOn(sem: Sem, q: seq<nat>, c: nat, u: Use) {
    |u.held| + (if sem.count > 0 then sem.count else 0) + u.lost == c && forall p | p in q :: p !in u.held
  }

  ghost predicate LockInv(k: Kern, s: nat, c: nat, u: Use) {
    Usable(k, s) && LockOn(k.sems[s], QueueOf(k, s), c, u)
  }

  lemma SameLock(k: Kern, r: Kern, s: nat, c: nat, u: Use)
    requires LockInv(k, s, c, u) && |r.sems| == |k.sems| && r.sems[s] == k.sems[s] && QueueOf(r, s) == QueueOf(k, s)
    ensures LockInv(r, s, c, u)
  {
  }

  lemma WaitLock(k: Kern, s: nat, c: nat, u: Use)
    requires Inv(k) && LockInv(k, s, c, u) && k.curr !in u.held
    ensures LockInv(WaitSem(k, s), s, c, Account(k, Wait(s), s, u))
  {
    hide Inv, WaitSem;
    InvSize(k);
    QueueEmpty(k, s);
    WaitMoves(k, s);
  }

  lemma SignalOn(sem: Sem, q: seq<nat>, c: nat, u: Use, p: nat)
    requires LockOn(sem, q, c, u) && NoDup(q) && (sem.count < 0 <==> q != []) && p in u.held
    ensures LockOn(sem.(count := sem.count + 1), if sem.count < 0 then q[1..] else q, c,
                   u.(held := u.held - {p} + if q != [] then {q[0]} else {}))
  {
    if q != [] {
      assert q[0] in q;
      assert |u.held - {p} + {q[0]}| == |u.held|;
      assert forall w | w in q[1..] :: w in q && w != q[0];
    } else {
      assert |u.held - {p} + {}| == |u.held| - 1;
    }
  }

  lemma SignalLock(k: Kern, s: nat, c: nat, u: Use)
    requires Inv(k) && LockInv(k, s, c, u) && k.curr in u.held
    ensures LockInv(SignalSem(k, s), s, c, Account(k, Signal(s), s, u))
  {
    assert NoDup(QueueOf(k, s));
    hide Inv, SignalSem, LockOn, NoDup;
    InvSize(k);
    QueueEmpty(k, s);
    SignalMoves(k, s);
    SignalOn(k.sems[s], QueueOf(k, s), c, u, k.curr);
  }

  function Bury(u: Use, p: nat): Use {
    if p in u.held then Use(u.held - {p}, u.lost + 1) else u
  }

  lemma KillOn(sem: Sem, q: seq<nat>, c: nat, u: Use, p: nat)
    requires LockOn(sem, q, c, u) && NoDup(q)
    ensures LockOn(sem, q, c, Bury(u, p))
    ensures p in q && sem.count < 0 ==> LockOn(sem.(count := sem.count + 1), Without(q, p), c, Bury(u, p))
  {
    if p in u.held {
      assert |u.held - {p}| == |u.held| - 1;
    }
    if p in q {
      DropMembers(q, Find(q, p));
    }
  }

  lemma KillLock(k: Kern, p: int, s: nat, c: nat, u: Use)
    requires Inv(k) && LockInv(k, s, c, u)
    ensures LockInv(Kill(k, p), s, c, Account(k, KillOne(p), s, u))
  {
    hide Inv, LockOn, NoDup, Without, Kill;
    QueueNoDup(k, s);
    InvSize(k);
    KillMoves(k, p, s);
    if p > 0 && StateOf(k, p) != FREE {
      if StateOf(k, p) == WAIT && k.procs[p].sem == s {
        WaiterCounted(k, p);
      }
      KillOn(k.sems[s], QueueOf(k, s), c, u, p);
    }
  }

  lemma QueueNoDup(k: Kern, s: nat)
    requires Inv(k)
    ensures NoDup(QueueOf(k, s))
  {
  }

  lemma OtherLock(k: Kern, e: Call, s: nat, c: nat, u: Use)
    requires Inv(k) && LockInv(k, s, c, u) && Disciplined(k, e, s, u) && !e.KillOne?
    requires (e.Wait? || e.Signal?) ==> e.s != s
    ensures LockInv(Do(k, e), s, c, u)
  {
    OtherSems(k, e, s);
    hide Inv, Do;
    SameLock(k, Do(k, e), s, c, u);
  }

  /** A call on another semaphore, or on none, leaves this one alone. */
  lemma OtherSems(k: Kern, e: Call, s: nat)
    requires Inv(k) && Usable(k, s) && !e.KillOne?
    requires (e.Wait? || e.Signal? || e.SignalN? || e.SemReset? || e.SemDelete?) ==> e.s != s
    ensures |Do(k, e).sems| == |k.sems| && Do(k, e).sems[s] == k.sems[s] && QueueOf(Do(k, e), s) == QueueOf(k, s)
  {
    hide Inv, Steady, WaitSem, SignalSem, SignalMany, ResetSem, DeleteSem;
    InvSize(k);
    match e
    case Wait(x) => Unusable(k, x, 0); if Usable(k, x) { WaitMoves(k, x); }
    case Signal(x) => Unusable(k, x, 0); if Usable(k, x) { SignalMoves(k, x); }
    case SignalN(x, n) => Unusable(k, x, n); if Usable(k, x) && n >= 0 { SignalManyMoves(k, x, n); }
    case SemReset(x, n) => ResetElsewhere(k, x, n, s);
    case SemDelete(x) => DeleteElsewhere(k, x, s);
    case SemCreate(x, n) =>
    case _ => InvParts(k); hide Do; OtherFrame(k, e);
  }

  lemma ResetElsewhere(k: Kern, x: int, n: int, s: nat)
    requires Inv(k) && s < |k.sems| && x != s
    ensures var r := ResetSem(k, x, n); |r.sems| == |k.sems| && r.sems[s] == k.sems[s] && QueueOf(r, s) == QueueOf(k, s)
  {
    ResetMoves(k, x, n);
    if Usable(k, x) && n >= 0 {
      InvParts(k);
      hide Inv, Steady, Drain, DeferStop, DeferStart;
      DeferStartSteady(k);
      DeferStartFrame(k);
      var w := |Queue(k.qs, OnSem(x))|;
      DrainKeeps(DeferStart(k), x, w);
      DeferStopFrame(SetCount(Drain(DeferStart(k), x, w), x, n));
    }
  }

  lemma DeleteElsewhere(k: Kern, x: int, s: nat)
    requires Inv(k) && s < |k.sems| && x != s
    ensures var r := DeleteSem(k, x); |r.sems| == |k.sems| && r.sems[s] == k.sems[s] && QueueOf(r, s) == QueueOf(k, s)
  {
    DeleteMoves(k, x);
    if Usable(k, x) {
      InvParts(k);
      hide Inv, Steady, DeleteSem;
      DeleteKeeps(k, x);
    }
  }

  lemma StepLock(k: Kern, e: Call, s: nat, c: nat, u: Use)
    requires Inv(k) && Allowed(k, e) && Disciplined(k, e, s, u) && LockInv(k, s, c, u)
    ensures LockInv(Do(k, e), s, c, Account(k, e, s, u))
  {
    hide Inv, LockInv, WaitSem, SignalSem, Kill;
    if e == Wait(s) {
      WaitLock(k, s, c, u);
    } else if e == Signal(s) {
      SignalLock(k, s, c, u);
    } else if e.KillOne? {
      KillLock(k, e.p, s, c, u);
    } else {
      OtherLock(k, e, s, c, u);
    }
  }

  /** In every run that uses the semaphore as a lock, at most `c` processes hold it, and nobody waits while a place is free. */
  lemma {:induction false} AtMostHolders(ks: seq<Kern>, es: seq<Call>, us: seq<Use>, n: nat, s: nat, c: nat)
    requires Run(ks, es) && Inv(ks[0]) && n < |ks| && |us| == |ks|
    requires LockInv(ks[0], s, c, us[0])
    requires forall i | 0 <= i < |es| :: Disciplined(ks[i], es[i], s, us[i]) && us[i + 1] == Account(ks[i], es[i], s, us[i])
    ensures LockInv(ks[n], s, c, us[n])
    ensures |us[n].held| <= c
    ensures QueueOf(ks[n], s) != [] ==> |us[n].held| + us[n].lost == c
  {
    if n > 0 {
      hide Inv, Do, Allowed, LockInv, Disciplined, Account;
      AtMostHolders(ks, es, us, n - 1, s, c);
      RunInv(ks, es, n - 1);
      StepLock(ks[n - 1], es[n - 1], s, c, us[n - 1]);
    }
    RunInv(ks, es, n);
    LockSays(ks[n], s, c, us[n]);
  }

  lemma LockSays(k: Kern, s: nat, c: nat, u: Use)
    requires Inv(k) && LockInv(k, s, c, u)
    ensures |u.held| <= c && (QueueOf(k, s) != [] ==> |u.held| + u.lost == c)
  {
    QueueEmpty(k, s);
  }

  /** A fresh semaphore of count `c` starts that way. */
  lemma FreshLock(k: Kern, s: nat, c: nat)
    requires Inv(k) && s < |k.sems| && !k.sems[s].used
    ensures LockInv(CreateSem(k, s, c), s, c, Use({}, 0))
  {
    QueueEmpty(k, s);
  }
}
