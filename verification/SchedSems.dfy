/** The semaphore calls and kill keep the invariant, in particular that a negative count is the number of waiters. */
module SchedSems {
  import opened SchedLists
  import opened SchedState
  import opened SchedMoves
  import opened SchedSteps

  lemma CountOnly(k: Kern, sems: seq<Sem>)
    requires Steady(k) && |sems| == |k.sems|
    ensures Steady(k.(sems := sems))
  {
  }

  /** Count and queue of one semaphore change together. */
  lemma CountedSet(sems: seq<Sem>, semq: seq<seq<nat>>, s: nat, sem: Sem, q: seq<nat>)
    requires Counted(sems, semq) && s < |sems| && |q| == if sem.count < 0 then -sem.count else 0
    ensures Counted(sems[s := sem], semq[s := q])
  {
  }

  /** The head of a semaphore's queue made ready. */
  lemma ReleaseSteady(k: Kern, s: nat)
    requires Steady(k) && s < |k.qs.semq| && k.qs.semq[s] != []
    ensures Steady(Release(k, s))
    ensures Release(k, s).sems == k.sems && Release(k, s).qs.semq == k.qs.semq[s := k.qs.semq[s][1..]]
    ensures Release(k, s).ndefers == k.ndefers
  {
    var q := k.qs.semq[s];
    assert Queue(k.qs, OnSem(s)) == q && Drop(q, 0) == q[1..];
    UnlinkStruct(k, OnSem(s), 0);
    hide Struct, Urgent, Ready;
    var k1 := k.(qs := WithQueue(k.qs, OnSem(s), q[1..]));
    ReadySteady(k1, q[0]);
    ReadyFrame(k1, q[0]);
  }

  function Bumped(k: Kern, s: nat): Sem
    requires s < |k.sems|
  {
    k.sems[s].(count := k.sems[s].count + 1)
  }

  lemma BumpKeeps(k: Kern, s: nat)
    requires Steady(k) && Counted(k.sems, k.qs.semq) && s < |k.sems|
    ensures var r := Bump(k, s);
            Steady(r) && Counted(r.sems, r.qs.semq) && r.sems == k.sems[s := Bumped(k, s)] && r.ndefers == k.ndefers
            && r.qs.semq == k.qs.semq[s := if k.sems[s].count < 0 then k.qs.semq[s][1..] else k.qs.semq[s]]
  {
    hide Steady, Release;
    var k1 := AddCount(k, s, 1);
    CountOnly(k, k1.sems);
    if k.sems[s].count < 0 {
      ReleaseSteady(k1, s);
    }
    CountedSet(k.sems, k.qs.semq, s, Bumped(k, s), if k.sems[s].count < 0 then k.qs.semq[s][1..] else k.qs.semq[s]);
  }

  /** A queue without its first `n` members. */
  function Rest(q: seq<nat>, n: nat): seq<nat> {
    if n < |q| then q[n..] else []
  }

  /** `n` increments release the first waiters, as many as there are, in order. */
  lemma {:induction false} BumpsKeep(k: Kern, s: nat, n: nat)
    requires Steady(k) && Counted(k.sems, k.qs.semq) && s < |k.sems|
    ensures var r := Bumps(k, s, n); var c := k.sems[s].count;
            Steady(r) && Counted(r.sems, r.qs.semq) && r.sems == k.sems[s := k.sems[s].(count := c + n)]
            && r.ndefers == k.ndefers
            && r.qs.semq == k.qs.semq[s := Rest(k.qs.semq[s], n)]
    decreases n
  {
    hide Steady, Bump, Counted;
    if n > 0 {
      assert |k.qs.semq| == |k.sems| && (k.sems[s].count < 0 <==> k.qs.semq[s] != []) by { CountedAt(k, s); }
      BumpKeeps(k, s);
      var k1 := Bump(k, s);
      BumpsKeep(k1, s, n - 1);
    } else {
      CountedAt(k, s);
    }
  }

  lemma CountedAt(k: Kern, s: nat)
    requires Counted(k.sems, k.qs.semq) && s < |k.sems|
    ensures |k.qs.semq| == |k.sems| && |k.qs.semq[s]| == if k.sems[s].count < 0 then -k.sems[s].count else 0
  {
  }

  lemma SignalInv(k: Kern, s: int)
    requires Inv(k)
    ensures Inv(SignalSem(k, s))
  {
    InvParts(k);
    InvParts(SignalSem(k, s));
    if Usable(k, s) {
      hide Inv, Steady, Bump, Counted;
      BumpKeeps(k, s);
    }
  }

  lemma SignalManyInv(k: Kern, s: int, n: int)
    requires Inv(k)
    ensures Inv(SignalMany(k, s, n))
  {
    InvParts(k);
    InvParts(SignalMany(k, s, n));
    if Usable(k, s) && n >= 0 {
      hide Inv, Steady, Bumps, Counted, DeferStop;
      DeferStartSteady(k);
      BumpsKeep(DeferStart(k), s, n);
      var k1 := Bumps(DeferStart(k), s, n);
      DeferStopSteady(k1);
      DeferStopFrame(k1);
    }
  }

  function Deleted(sem: Sem): Sem {
    Sem(false, (if sem.count < 0 then 0 else sem.count) + 1)
  }

  /** Enough increments release everybody. */
  lemma BumpsEmpty(k: Kern, s: nat, n: nat)
    requires Steady(k) && Counted(k.sems, k.qs.semq) && s < |k.sems| && n >= |k.qs.semq[s]|
    ensures var r := Bumps(k, s, n);
            Steady(r) && r.sems == k.sems[s := Sem(k.sems[s].used, k.sems[s].count + n)] && r.qs.semq == k.qs.semq[s := []]
  {
    hide Steady, Bumps, Counted;
    BumpsKeep(k, s, n);
  }

  /** A semaphore marked free, before its waiters are released. */
  function Unused(k: Kern, s: nat): Kern
    requires s < |k.sems|
  {
    k.(sems := k.sems[s := k.sems[s].(used := false)])
  }

  function Rounds(sem: Sem): nat { if sem.count < 0 then -sem.count + 1 else 1 }

  lemma DeleteStarts(k: Kern, s: nat)
    requires Steady(k) && Counted(k.sems, k.qs.semq) && Usable(k, s)
    ensures Steady(Unused(k, s)) && Counted(Unused(k, s).sems, k.qs.semq) && |k.qs.semq| == |k.sems|
    ensures Rounds(k.sems[s]) >= |k.qs.semq[s]|
    ensures DeleteSem(k, s) == DeferStop(Bumps(DeferStart(Unused(k, s)), s, Rounds(k.sems[s])))
  {
    hide Steady, Bumps, DeferStop, DeferStart;
    CountOnly(k, Unused(k, s).sems);
  }

  /** semdelete's loop ends with the queue empty and the count one above zero or above where it was. */
  lemma DeleteKeeps(k: Kern, s: nat)
    requires Steady(k) && Counted(k.sems, k.qs.semq) && Usable(k, s)
    ensures var r := DeleteSem(k, s);
            Steady(r) && r.sems == k.sems[s := Deleted(k.sems[s])] && r.qs.semq == k.qs.semq[s := []]
  {
    hide Steady, Bumps, Counted, DeferStop, DeferStart, DeleteSem;
    var k0, n := Unused(k, s), Rounds(k.sems[s]);
    DeleteStarts(k, s);
    DeferStartSteady(k0);
    DeferStartFrame(k0);
    BumpsEmpty(DeferStart(k0), s, n);
    var k1 := Bumps(DeferStart(k0), s, n);
    DeferStopSteady(k1);
    DeferStopFrame(k1);
  }

  lemma DeferStartFrame(k: Kern)
    ensures var r := DeferStart(k);
            r.sems == k.sems && r.qs == k.qs && r.key == k.key && r.curr == k.curr && r.ndefers == k.ndefers + 1
  {
  }

  /** Deleting a semaphore releases everyone who waits on it. */
  lemma DeleteInv(k: Kern, s: int)
    requires Inv(k)
    ensures Inv(DeleteSem(k, s))
    ensures Usable(k, s) ==> DeleteSem(k, s).qs.semq == k.qs.semq[s := []]
  {
    hide Inv, Steady, DeleteSem;
    InvParts(k);
    InvParts(DeleteSem(k, s));
    if Usable(k, s) {
      DeleteKeeps(k, s);
      CountedSet(k.sems, k.qs.semq, s, Deleted(k.sems[s]), []);
    } else {
      DeleteUnusable(k, s);
    }
  }

  lemma DeleteUnusable(k: Kern, s: int)
    requires !Usable(k, s)
    ensures DeleteSem(k, s) == k
  {
  }

  lemma {:induction false} DrainKeeps(k: Kern, s: nat, n: nat)
    requires Steady(k) && s < |k.qs.semq| && n <= |k.qs.semq[s]|
    ensures var r := Drain(k, s, n);
            Steady(r) && r.sems == k.sems && r.qs.semq == k.qs.semq[s := k.qs.semq[s][n..]] && r.ndefers == k.ndefers
    decreases n
  {
    hide Steady, Release;
    if n > 0 {
      ReleaseSteady(k, s);
      DrainKeeps(Release(k, s), s, n - 1);
    }
  }

  lemma ResetInv(k: Kern, s: int, n: int)
    requires Inv(k)
    ensures Inv(ResetSem(k, s, n))
    ensures Usable(k, s) && n >= 0 ==> ResetSem(k, s, n).qs.semq == k.qs.semq[s := []]
  {
    hide Inv, Steady, ResetSem;
    InvParts(k);
    InvParts(ResetSem(k, s, n));
    if Usable(k, s) && n >= 0 {
      ResetKeeps(k, s, n);
      CountedSet(k.sems, k.qs.semq, s, Sem(true, n), []);
    } else {
      ResetUnusable(k, s, n);
    }
  }

  lemma ResetUnusable(k: Kern, s: int, n: int)
    requires !(Usable(k, s) && n >= 0)
    ensures ResetSem(k, s, n) == k
  {
  }

  lemma ResetKeeps(k: Kern, s: nat, n: nat)
    requires Steady(k) && Usable(k, s) && |k.qs.semq| == |k.sems|
    ensures var r := ResetSem(k, s, n);
            Steady(r) && r.sems == k.sems[s := Sem(true, n)] && r.qs.semq == k.qs.semq[s := []]
  {
    hide Steady, Drain, DeferStop, DeferStart;
    DeferStartSteady(k);
    DeferStartFrame(k);
    var q := Queue(k.qs, OnSem(s));
    DrainKeeps(DeferStart(k), s, |q|);
    assert q[|q|..] == [];
    var k1 := Drain(DeferStart(k), s, |q|);
    var k2 := SetCount(k1, s, n);
    CountOnly(k1, k2.sems);
    DeferStopSteady(k2);
    DeferStopFrame(k2);
  }

  lemma CreateSemInv(k: Kern, s: int, n: int)
    requires Inv(k)
    ensures Inv(CreateSem(k, s, n))
  {
    InvParts(k);
    InvParts(CreateSem(k, s, n));
    if 0 <= s < |k.sems| && !k.sems[s].used && n >= 0 {
      var k1 := CreateSem(k, s, n);
      CountOnly(k, k1.sems);
      CountedSet(k.sems, k.qs.semq, s, k1.sems[s], k.qs.semq[s]);
    }
  }

  // ---- wait ---------------------------------------------------------------

  lemma BlockStruct(k: Kern, s: nat)
    requires Steady(k) && MayBlock(k) && s < |k.qs.semq|
    ensures Struct(Block(k, s), -1)
    ensures Block(k, s).qs.semq == k.qs.semq[s := k.qs.semq[s] + [k.curr]] && Block(k, s).sems == k.sems
    ensures Block(k, s).ndefers == 0
  {
    var p, q := k.curr, k.qs.semq[s];
    var pr := k.procs[p].(state := WAIT, sem := s);
    var k1 := k.(procs := k.procs[p := pr]);
    LeaveStruct(k, p);
    TransitStruct(k, p, pr);
    assert Put(q, |q|, p) == q + [p];
    hide Ranked, Alive;
    LinkPlaced(k1.procs, k1.qs, OnSem(s), |q|, p);
  }

  lemma WaitInv(k: Kern, s: int)
    requires Inv(k) && (Usable(k, s) && k.sems[s].count <= 0 ==> MayBlock(k))
    ensures Inv(WaitSem(k, s))
  {
    InvParts(k);
    InvParts(WaitSem(k, s));
    if Usable(k, s) {
      CountedAt(k, s);
      var k1 := AddCount(k, s, -1);
      var c := k1.sems[s].count;
      hide Inv, Steady, Resched, Block, Struct;
      CountOnly(k, k1.sems);
      CountedSet(k.sems, k.qs.semq, s, k1.sems[s], if c < 0 then k.qs.semq[s] + [k.curr] else k.qs.semq[s]);
      if c < 0 {
        BlockStruct(k1, s);
        var k2 := Block(k1, s);
        ReschedSteady(k2);
        ReschedFrame(k2);
      }
    }
  }

  lemma ReschedSteady(k: Kern)
    requires Struct(k, -1) && k.ndefers == 0
    ensures Steady(Resched(k))
  {
    hide Urgent;
    ReschedStruct(k);
  }

  // ---- kill ---------------------------------------------------------------

  lemma UnsleepKeeps(k: Kern, p: nat)
    requires Steady(k) && 0 < p < |k.procs| && Home(k.procs[p]) == OnSleep
    ensures Steady(WithState(Unsleep(k, p), p, FREE))
  {
    UnsleepStruct(k, p);
    hide Placed, Ranked, CutKeys, Without;
    var k1 := Unsleep(k, p);
    var k2 := WithState(k1, p, FREE);
    TransitStruct(k1, p, k2.procs[p]);
    StayStruct(k2, p);
    assert Urgent(k2) by { DropUrgent(k, k2, 0); }
  }

  lemma WaiterCounted(k: Kern, p: nat)
    requires Inv(k) && p < |k.procs| && k.procs[p].state == WAIT
    ensures k.procs[p].sem < |k.sems| && p in k.qs.semq[k.procs[p].sem] && k.sems[k.procs[p].sem].count < 0
    ensures var s := k.procs[p].sem;
            |Without(k.qs.semq[s], p)| == -k.sems[s].count - 1
  {
    var s := k.procs[p].sem;
    assert Home(k.procs[p]) == OnSem(s);
    assert p in Queue(k.qs, OnSem(s));
  }

  lemma KillWaiterInv(k: Kern, p: nat)
    requires Inv(k) && 0 < p < |k.procs| && k.procs[p].state == WAIT
    ensures Inv(Kill(k, p))
  {
    InvParts(k);
    WaiterCounted(k, p);
    var s := k.procs[p].sem;
    var k1 := AddCount(k, s, 1);
    CountOnly(k, k1.sems);
    RetireSteady(k1, p, FREE);
    CountedSet(k.sems, k.qs.semq, s, k1.sems[s], Without(k.qs.semq[s], p));
    hide Steady, Counted;
    InvParts(Kill(k, p));
  }

  lemma KillInv(k: Kern, p: int)
    requires Inv(k) && (p == k.curr ==> MayBlock(k))
    ensures Inv(Kill(k, p))
  {
    if p > NULLPROC && StateOf(k, p) != FREE {
      if StateOf(k, p) == WAIT {
        KillWaiterInv(k, p);
      } else {
        InvParts(k);
        KillSteady(k, p);
        hide Inv, Steady, Counted, Resched;
        KillFrame(k, p);
        InvParts(Kill(k, p));
      }
    }
  }

  lemma KillFrame(k: Kern, p: int)
    requires p > NULLPROC && StateOf(k, p) != FREE && StateOf(k, p) != WAIT
    ensures Kill(k, p).sems == k.sems && Kill(k, p).qs.semq == k.qs.semq
  {
    ReschedFrame(WithState(k, p, FREE));
    hide Resched;
  }

  lemma KillSteady(k: Kern, p: int)
    requires Steady(k) && (p == k.curr ==> MayBlock(k)) && p > NULLPROC && StateOf(k, p) != FREE && StateOf(k, p) != WAIT
    ensures Steady(Kill(k, p))
  {
    match StateOf(k, p)
    case CURR =>
      assert p == k.curr;
      StopSteady(k, FREE);
    case SLEEP => UnsleepKeeps(k, p);
    case RECTIM => UnsleepKeeps(k, p);
    case READY => RetireSteady(k, p, FREE);
    case RECV => FreeSteady(k, p);
    case SUSP => FreeSteady(k, p);
  }

  lemma FreeSteady(k: Kern, p: nat)
    requires Steady(k) && 0 < p < |k.procs| && p != k.curr && Home(k.procs[p]) == Nowhere
    ensures Steady(WithState(k, p, FREE))
  {
    LeaveStruct(k, p);
    var k2 := WithState(k, p, FREE);
    TransitStruct(k, p, k2.procs[p]);
    StayStruct(k2, p);
    assert Urgent(k2) by { DropUrgent(k, k2, 0); }
  }
}
