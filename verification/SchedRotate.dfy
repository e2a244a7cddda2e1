/** Equal priorities rotate: who gets the processor when the current process gives way, and how soon everybody's turn comes. */
module SchedRotate {
  import opened SchedLists
  import opened SchedState
  import opened SchedMoves
  import opened SchedSteps
  import opened SchedSems
  import opened SchedRun
  import opened SchedOrder
  import opened SchedLife

  /** yield, sleepms(0), and the tick that ends the quantum. */
  predicate GivesWay(k: Kern, e: Call) { e.Yield? || e == Sleep(0) || (e.Slice? && k.preempt <= 1) }

  /** A ready process as urgent as the current one. */
  predicate Rival(k: Kern, p: nat) { p in k.qs.ready && PrioOf(k, p) == PrioOf(k, k.curr) }

  lemma ReadyKeys(k: Kern, p: nat)
    requires Inv(k) && p in k.qs.ready
    ensures p < |k.procs| && p != k.curr && k.procs[p].state == READY && KeyOf(k.key, p) == PrioOf(k, p)
    ensures PrioOf(k, p) <= FirstKey(k) == PrioOf(k, k.qs.ready[0])
    ensures k.ndefers == 0 ==> FirstKey(k) <= PrioOf(k, k.curr)
  {
    assert p in Queue(k.qs, OnReady);
    HeadIsTop(k.procs, k.qs.ready, k.key);
    assert k.qs.ready[0] in k.qs.ready;
  }

  /** The call comes down to resched, with a new quantum or the old one. */
  lemma GivesWayIs(k: Kern, e: Call)
    requires GivesWay(k, e)
    ensures Do(k, e) == Resched(if e.Slice? then k.(preempt := QUANTUM) else k)
  {
  }

  lemma HeadAndTail(s: seq<nat>, i: nat, p: nat)
    requires 0 < i <= |s| && NoDup(s) && p !in s
    ensures Put(s, i, p)[0] == s[0]
    ensures forall q :: q in Put(s, i, p)[1..] <==> (q in s && q != s[0]) || q == p
    ensures forall q | q in Put(s, i, p)[1..] && q != p ::
              if Ahead(Put(s, i, p), q, p) then Ahead(Put(s, i, p)[1..], q, p) else Ahead(Put(s, i, p)[1..], p, q)
  {
    hide Ahead, NoDup;
    var t := Put(s, i, p);
    PutMembers(s, i, p);
    HeadDropped(t);
    forall q | q in t[1..] && q != p
      ensures if Ahead(t, q, p) then Ahead(t[1..], q, p) else Ahead(t[1..], p, q)
    {
      TailAhead(t, p, q);
    }
  }

  lemma HeadDropped(t: seq<nat>)
    requires NoDup(t) && t != []
    ensures forall q :: q in t[1..] <==> q in t && q != t[0]
  {
    assert Drop(t, 0) == t[1..];
    DropMembers(t, 0);
  }

  lemma TailAhead(t: seq<nat>, p: nat, q: nat)
    requires t != [] && p in t && q in t && p != q && t[0] != p && t[0] != q
    ensures if Ahead(t, q, p) then Ahead(t[1..], q, p) else Ahead(t[1..], p, q)
  {
    assert Drop(t, 0) == t[1..];
    hide Ahead;
    EitherAhead(t, p, q);
    if Ahead(t, q, p) {
      DropAhead(t, 0, q, p);
    } else {
      DropAhead(t, 0, p, q);
    }
  }

  lemma EitherAhead(s: seq<nat>, p: nat, q: nat)
    requires p in s && q in s && p != q
    ensures Ahead(s, p, q) || Ahead(s, q, p)
  {
    var i, j := Find(s, p), Find(s, q);
    assert s[i] == p && s[j] == q;
  }

  lemma NotBoth(s: seq<nat>, p: nat, q: nat)
    requires NoDup(s) && Ahead(s, p, q)
    ensures !Ahead(s, q, p)
  {
  }

  /** With a rival, the head of the ready list runs, and the current process goes behind everybody at least as urgent. */
  lemma Rotates(k: Kern, e: Call, p: nat)
    requires Inv(k) && k.ndefers == 0 && GivesWay(k, e) && Rival(k, p)
    ensures var r := Do(k, e);
            r.curr == k.qs.ready[0] && r.curr != k.curr && PrioOf(k, r.curr) == PrioOf(k, k.curr) && r.preempt == QUANTUM
            && (forall q :: q in r.qs.ready <==> (q in k.qs.ready && q != r.curr) || q == k.curr)
            && (forall q | q in r.qs.ready && q != k.curr ::
                  if PrioOf(k, q) == PrioOf(k, k.curr) then Ahead(r.qs.ready, q, k.curr) else Ahead(r.qs.ready, k.curr, q))
  {
    hide Inv, RankFrom, Put, Ahead, NoDup, Keys;
    ReadyKeys(k, p);
    GivesWayIs(k, e);
    CurrRuns(k);
    ReadyOnce(k);
    RotatedList(if e.Slice? then k.(preempt := QUANTUM) else k);
    forall q | q in k.qs.ready
      ensures PrioOf(k, q) <= PrioOf(k, k.curr)
    {
      ReadyKeys(k, q);
    }
  }

  lemma CurrRuns(k: Kern)
    requires Inv(k)
    ensures StateOf(k, k.curr) == CURR && k.curr !in k.qs.ready && Ranked(k.procs, k.qs.ready, k.key)
  {
    assert k.curr in k.qs.ready ==> k.curr in Queue(k.qs, OnReady);
  }

  lemma ReadyOnce(k: Kern)
    requires Inv(k)
    ensures NoDup(k.qs.ready)
  {
    assert k.qs.ready == Queue(k.qs, OnReady);
  }

  lemma RotatedList(k: Kern)
    requires StateOf(k, k.curr) == CURR && k.curr !in k.qs.ready && Ranked(k.procs, k.qs.ready, k.key) && NoDup(k.qs.ready)
    requires k.qs.ready != [] && PrioOf(k, k.curr) <= PrioOf(k, k.qs.ready[0]) && k.ndefers == 0 && PrioOf(k, k.curr) <= FirstKey(k)
    ensures var r := Resched(k);
            r.curr == k.qs.ready[0] && r.preempt == QUANTUM
            && (forall q :: q in r.qs.ready <==> (q in k.qs.ready && q != k.qs.ready[0]) || q == k.curr)
            && (forall q | q in r.qs.ready && q != k.curr ::
                  if PrioOf(k, q) >= PrioOf(k, k.curr) then Ahead(r.qs.ready, q, k.curr) else Ahead(r.qs.ready, k.curr, q))
  {
    hide RankFrom, Put, Ahead, NoDup, Ranked;
    var k1 := WithState(k, k.curr, READY);
    var s, i := k.qs.ready, RankFrom(Keys(k.qs.ready, k.key), PrioOf(k, k.curr), 0);
    var t := Put(s, i, k.curr);
    RankedProc(k.procs, s, k.key, k.curr, k1.procs[k.curr]);
    assert InsertReady(k1, k.curr).qs.ready == t;
    BehindHead(k);
    HeadAndTail(s, i, k.curr);
    forall q | q in t[1..] && q != k.curr
      ensures if PrioOf(k, q) >= PrioOf(k, k.curr) then Ahead(t[1..], q, k.curr) else Ahead(t[1..], k.curr, q)
    {
      JoinsAt(k1, k.curr, q);
      PutOnce(s, i, k.curr);
      if Ahead(t, k.curr, q) { NotBoth(t, k.curr, q); }
    }
  }

  lemma PutOnce(s: seq<nat>, i: nat, p: nat)
    requires NoDup(s) && i <= |s| && p !in s
    ensures NoDup(Put(s, i, p))
  {
    PutMembers(s, i, p);
  }

  lemma BehindHead(k: Kern)
    requires k.qs.ready != [] && PrioOf(k, k.curr) <= FirstKey(k)
    ensures 0 < RankFrom(Keys(k.qs.ready, k.key), PrioOf(k, k.curr), 0)
  {
  }

  /** Without a rival, or while rescheduling is deferred, the current process goes on. */
  lemma RunsOn(k: Kern, e: Call)
    requires Inv(k) && GivesWay(k, e)
    requires k.ndefers > 0 || forall p :: !Rival(k, p)
    ensures var r := Do(k, e);
            r.curr == k.curr && r.qs == k.qs && r.procs == k.procs && r.attempt == (k.attempt || k.ndefers > 0)
  {
    hide Inv, Keys, Switch, InsertReady;
    GivesWayIs(k, e);
    CurrRuns(k);
    InvPrios(k);
    if k.ndefers == 0 && k.qs.ready != [] {
      ReadyKeys(k, k.qs.ready[0]);
      assert !Rival(k, k.qs.ready[0]);
    }
  }

  lemma InvPrios(k: Kern)
    requires Inv(k)
    ensures PrioOf(k, k.curr) >= 0
  {
  }

  /** A switch happens exactly when there is a rival and nothing defers it. */
  lemma SwitchesIff(k: Kern, e: Call)
    requires Inv(k) && GivesWay(k, e)
    ensures Do(k, e).curr != k.curr <==> k.ndefers == 0 && exists p :: Rival(k, p)
  {
    hide Inv, Do, GivesWay, Rival;
    if k.ndefers == 0 && exists p :: Rival(k, p) {
      var p :| Rival(k, p);
      Rotates(k, e, p);
    } else {
      RunsOn(k, e);
    }
  }

  // ---- a process becomes ready --------------------------------------------

  /** A process other than the current one as urgent as it. */
  ghost predicate Contested(k: Kern, p: nat) { PrioOf(k, p) >= PrioOf(k, k.curr) || exists q :: Rival(k, q) }

  lemma JoinedList(k: Kern, p: nat)
    requires Struct(k, p) && p < |k.procs|
    ensures var k2 := InsertReady(WithState(k, p, READY), p);
            k2.curr == k.curr && k2.ndefers == k.ndefers && (forall q :: PrioOf(k2, q) == PrioOf(k, q))
            && (forall q :: q in k2.qs.ready <==> q in k.qs.ready || q == p)
  {
    var i := RankFrom(Keys(k.qs.ready, k.key), PrioOf(k, p), 0);
    hide RankFrom, Ranked, Alive;
    assert p !in Queue(k.qs, OnReady);
    assert NoDup(Queue(k.qs, OnReady));
    PutMembers(k.qs.ready, i, p);
  }

  lemma HeadKey(k: Kern)
    requires Struct(k, -1) && k.qs.ready != []
    ensures k.qs.ready[0] in k.qs.ready && FirstKey(k) == PrioOf(k, k.qs.ready[0])
    ensures forall q | q in k.qs.ready :: PrioOf(k, q) <= FirstKey(k)
  {
    hide Placed, Alive;
    assert k.qs.ready[0] in k.qs.ready;
    HeadIsTop(k.procs, k.qs.ready, k.key);
  }

  lemma HeadBeats(k: Kern, p: nat)
    requires Struct(k, p) && p < |k.procs| && Top(k) && Struct(InsertReady(WithState(k, p, READY), p), -1)
    ensures var k2 := InsertReady(WithState(k, p, READY), p);
            k2.curr == k.curr && p in k2.qs.ready && k2.ndefers == k.ndefers && (forall q :: PrioOf(k2, q) == PrioOf(k, q))
            && (PrioOf(k2, k.curr) <= FirstKey(k2) <==> Contested(k, p))
  {
    hide Struct, InsertReady, WithState;
    var k2 := InsertReady(WithState(k, p, READY), p);
    JoinedList(k, p);
    assert p in k2.qs.ready;
    HeadKey(k2);
    var h := k2.qs.ready[0];
    assert h != p && PrioOf(k, h) >= PrioOf(k, k.curr) ==> Rival(k, h);
    if Contested(k, p) && PrioOf(k, p) < PrioOf(k, k.curr) {
      var q :| Rival(k, q);
      assert q in k2.qs.ready;
    }
  }

  /** ready: the current process gives way to the newcomer, or to anybody else as urgent as itself, and goes behind all of them. */
  lemma ReadyRotates(k: Kern, p: nat)
    requires Struct(k, p) && p < |k.procs| && p != k.curr && k.procs[k.curr].state == CURR && Top(k) && k.ndefers == 0
    ensures var r := Ready(k, p);
            (r.curr != k.curr <==> Contested(k, p)) && (r.curr == k.curr ==> p in r.qs.ready)
            && (r.curr != k.curr ==> k.curr in r.qs.ready && forall q | q in r.qs.ready && q != k.curr && PrioOf(k, q) >= PrioOf(k, k.curr) :: Ahead(r.qs.ready, q, k.curr))
  {
    var k1 := WithState(k, p, READY);
    TransitStruct(k, p, k1.procs[p]);
    InsertReadyStruct(k1, p);
    HeadBeats(k, p);
    hide RankFrom, Ahead, InsertReady, Contested, Top;
    ReadyResched(InsertReady(k1, p), Contested(k, p));
  }

  lemma ReadyResched(k: Kern, contested: bool)
    requires Struct(k, -1) && k.procs[k.curr].state == CURR && k.ndefers == 0 && k.qs.ready != []
    requires PrioOf(k, k.curr) <= FirstKey(k) <==> contested
    ensures var r := Resched(k);
            if contested then
              r.curr != k.curr && k.curr in r.qs.ready
              && forall q | q in r.qs.ready && q != k.curr && PrioOf(k, q) >= PrioOf(k, k.curr) :: Ahead(r.qs.ready, q, k.curr)
            else r == k
  {
    StructReady(k);
    hide Struct, Ahead, Put, RankFrom;
    if contested {
      RotatedList(k);
      assert k.qs.ready[0] in k.qs.ready;
    }
  }

  lemma StructReady(k: Kern)
    requires Struct(k, -1) && k.procs[k.curr].state == CURR && k.qs.ready != []
    ensures k.curr !in k.qs.ready && NoDup(k.qs.ready) && Ranked(k.procs, k.qs.ready, k.key) && FirstKey(k) == PrioOf(k, k.qs.ready[0])
  {
    assert k.curr !in Queue(k.qs, OnReady) && NoDup(Queue(k.qs, OnReady));
    assert k.qs.ready[0] in k.qs.ready;
  }

  /** The calls that make one process ready: resume, a send to a process in receive, a signal with somebody waiting. */
  ghost predicate Frees(k: Kern, e: Call, p: nat) {
    p < |k.procs|
    && match e
       case Res(q) => q == p && k.procs[p].state == SUSP
       case SendTo(q, _) => q == p && !k.procs[p].hasmsg && (k.procs[p].state == RECV || k.procs[p].state == RECTIM)
       case Signal(s) => Usable(k, s) && Queue(k.qs, OnSem(s)) != [] && Queue(k.qs, OnSem(s))[0] == p
       case _ => false
  }

  /** What the call leaves for ready. */
  ghost predicate Leads(k: Kern, k1: Kern, p: nat) {
    Struct(k1, p) && p < |k1.procs| && p != k1.curr && k1.procs[k1.curr].state == CURR && k1.ndefers == 0
    && k1.curr == k.curr && k1.qs.ready == k.qs.ready && forall q :: PrioOf(k1, q) == PrioOf(k, q)
  }

  lemma ResumeLeads(k: Kern, p: nat)
    requires Inv(k) && k.ndefers == 0 && p < |k.procs| && k.procs[p].state == SUSP
    ensures Leads(k, k, p) && Do(k, Res(p)) == Ready(k, p)
  {
    hide Inv, Steady, Struct, Ready;
    InvParts(k);
    CurrThere(k);
    LeaveStruct(k, p);
  }

  lemma SendLeads(k: Kern, p: nat, msg: int) returns (k1: Kern)
    requires Inv(k) && k.ndefers == 0 && Frees(k, SendTo(p, msg), p)
    ensures Leads(k, k1, p) && Do(k, SendTo(p, msg)) == Ready(k1, p)
  {
    InvParts(k);
    k1 := Deliver(k, p, msg);
    DeliverSteady(k, p, msg);
    if k.procs[p].state == RECV {
      LeaveStruct(k1, p);
    } else {
      UnsleepStruct(k1, p);
      k1 := Unsleep(k1, p);
    }
    hide Placed, Ranked, Alive, Ready, Counted, Idle, Urgent, Inv, Without, CutKeys;
  }

  lemma SignalLeads(k: Kern, s: nat, p: nat) returns (k1: Kern)
    requires Inv(k) && k.ndefers == 0 && Frees(k, Signal(s), p)
    ensures Leads(k, k1, p) && Do(k, Signal(s)) == Ready(k1, p)
  {
    InvParts(k);
    CountedAt(k, s);
    var k0, q := AddCount(k, s, 1), k.qs.semq[s];
    CountOnly(k, k0.sems);
    assert Queue(k0.qs, OnSem(s)) == q && Drop(q, 0) == q[1..];
    UnlinkStruct(k0, OnSem(s), 0);
    k1 := k0.(qs := WithQueue(k0.qs, OnSem(s), q[1..]));
    hide Placed, Ranked, Alive, Ready, Counted, Idle, Urgent, Inv, Drop;
  }

  lemma LeadsRotates(k: Kern, k1: Kern, p: nat)
    requires Inv(k) && k.ndefers == 0 && Leads(k, k1, p)
    ensures var r := Ready(k1, p);
            (r.curr != k.curr <==> Contested(k, p)) && (r.curr == k.curr ==> p in r.qs.ready)
            && (r.curr != k.curr ==> k.curr in r.qs.ready && forall q | q in r.qs.ready && q != k.curr && PrioOf(k, q) >= PrioOf(k, k.curr) :: Ahead(r.qs.ready, q, k.curr))
  {
    assert Top(k1) by { assert Urgent(k); }
    assert forall q :: Rival(k1, q) <==> Rival(k, q);
    hide Inv, Struct, Ahead, Ready;
    ReadyRotates(k1, p);
  }

  /** At every such call the current process gives way exactly when somebody ready, the newcomer included, is as urgent, and goes behind everybody who is. */
  lemma WakeRotates(k: Kern, e: Call, p: nat)
    requires Inv(k) && k.ndefers == 0 && Frees(k, e, p)
    ensures var r := Do(k, e);
            (r.curr != k.curr <==> Contested(k, p)) && (r.curr == k.curr ==> p in r.qs.ready)
            && (r.curr != k.curr ==> k.curr in r.qs.ready && forall q | q in r.qs.ready && q != k.curr && PrioOf(k, q) >= PrioOf(k, k.curr) :: Ahead(r.qs.ready, q, k.curr))
  {
    hide Inv, Do, Leads, Ahead, Contested;
    var k1 := k;
    if e.Res? {
      ResumeLeads(k, p);
    } else if e.SendTo? {
      k1 := SendLeads(k, p, e.msg);
    } else {
      k1 := SignalLeads(k, e.s, p);
    }
    LeadsRotates(k, k1, p);
  }

  // ---- the quantum --------------------------------------------------------

  /** Either nobody was switched to and the quantum is as it was, or the quantum is new. */
  ghost predicate Quantum(k: Kern, r: Kern) {
    r.preempt == QUANTUM || (r.curr == k.curr && r.preempt == k.preempt)
  }

  lemma ReschedQuantum(k: Kern)
    ensures Quantum(k, Resched(k)) && (k.ndefers > 0 ==> Resched(k).curr == k.curr && Resched(k).preempt == k.preempt)
  {
    hide RankFrom, Keys, Put;
  }

  lemma ReadyQuantum(k: Kern, p: nat)
    ensures Quantum(k, Ready(k, p)) && (k.ndefers > 0 ==> Ready(k, p).curr == k.curr && Ready(k, p).preempt == k.preempt)
    ensures Ready(k, p).ndefers == k.ndefers
  {
    hide Resched;
    ReadyFrame(k, p);
    ReschedQuantum(InsertReady(WithState(k, p, READY), p));
  }

  /** Nothing that matters to the quantum changes while rescheduling is deferred. */
  ghost predicate Frozen(k: Kern, r: Kern) {
    k.ndefers > 0 ==> r.curr == k.curr && r.preempt == k.preempt && r.ndefers == k.ndefers
  }

  lemma ReleaseFrozen(k: Kern, s: nat)
    ensures Frozen(k, Release(k, s)) && Quantum(k, Release(k, s))
  {
    hide Ready;
    var q := Queue(k.qs, OnSem(s));
    if q != [] {
      ReadyQuantum(k.(qs := WithQueue(k.qs, OnSem(s), q[1..])), q[0]);
    }
  }

  lemma BumpFrozen(k: Kern, s: nat)
    ensures Frozen(k, Bump(k, s)) && Quantum(k, Bump(k, s))
  {
    hide Release;
    ReleaseFrozen(AddCount(k, s, 1), s);
  }

  lemma {:induction false} BumpsFrozen(k: Kern, s: nat, n: nat)
    ensures Frozen(k, Bumps(k, s, n))
    decreases n
  {
    hide Bump;
    if n > 0 {
      BumpFrozen(k, s);
      BumpsFrozen(Bump(k, s), s, n - 1);
    }
  }

  lemma {:induction false} DrainFrozen(k: Kern, s: nat, n: nat)
    ensures Frozen(k, Drain(k, s, n))
    decreases n
  {
    hide Release;
    if n > 0 {
      ReleaseFrozen(k, s);
      DrainFrozen(Release(k, s), s, n - 1);
    }
  }

  lemma {:induction false} WakeSomeFrozen(k: Kern, n: nat)
    ensures Frozen(k, WakeSome(k, n))
    decreases n
  {
    if n > 0 {
      hide Ready;
      if k.qs.sleep != [] {
        ReadyQuantum(k.(qs := k.qs.(sleep := k.qs.sleep[1..])), k.qs.sleep[0]);
      }
      WakeSomeFrozen(WakeFirst(k), n - 1);
    }
  }

  lemma StopQuantum(k: Kern)
    ensures Quantum(k, DeferStop(k))
  {
    hide Resched;
    ReschedQuantum(k.(ndefers := if k.ndefers > 0 then k.ndefers - 1 else 0));
  }

  /** The calls that release several processes under a deferral. */
  lemma LoopQuantum(k: Kern, e: Call)
    requires Loops(e)
    ensures Quantum(k, Do(k, e))
  {
    hide Bumps, Drain, WakeSome, Expired, DeferStop;
    match e
    case SignalN(s, n) =>
      if Usable(k, s) && n >= 0 {
        BumpsFrozen(DeferStart(k), s, n);
        StopQuantum(Bumps(DeferStart(k), s, n));
      }
    case SemReset(s, n) =>
      if Usable(k, s) && n >= 0 {
        var k1 := Drain(DeferStart(k), s, |Queue(k.qs, OnSem(s))|);
        DrainFrozen(DeferStart(k), s, |Queue(k.qs, OnSem(s))|);
        StopQuantum(SetCount(k1, s, n));
      }
    case SemDelete(s) =>
      if Usable(k, s) {
        var c := k.sems[s].count;
        var k0 := DeferStart(WithUse(k, s, false));
        BumpsFrozen(k0, s, if c < 0 then -c + 1 else 1);
        StopQuantum(Bumps(k0, s, if c < 0 then -c + 1 else 1));
      }
    case Tick =>
      if k.qs.sleep != [] {
        var k1 := k.(key := WithKey(k.key, k.qs.sleep[0], KeyOf(k.key, k.qs.sleep[0]) - 1));
        var n := Expired(Keys(k1.qs.sleep, k1.key));
        WakeSomeFrozen(DeferStart(k1), n);
        StopQuantum(WakeSome(DeferStart(k1), n));
      }
  }

  /** Whoever is switched to gets a full quantum, and only the clock takes from it, one tick at a time. */
  lemma StepQuantum(k: Kern, e: Call)
    ensures if e.Slice? && k.preempt > 1 then Do(k, e).curr == k.curr && Do(k, e).preempt == k.preempt - 1
            else Quantum(k, Do(k, e)) && (e.Slice? ==> Do(k, e).preempt == QUANTUM)
  {
    if Loops(e) {
      LoopQuantum(k, e);
    } else {
      PlainQuantum(k, e);
    }
  }

  lemma PlainQuantum(k: Kern, e: Call)
    requires !Loops(e)
    ensures if e.Slice? && k.preempt > 1 then Do(k, e).curr == k.curr && Do(k, e).preempt == k.preempt - 1
            else Quantum(k, Do(k, e)) && (e.Slice? ==> Do(k, e).preempt == QUANTUM)
  {
    hide Resched, Ready, Bump, DeltaFrom, DeltaKeys, CutKeys, Put, Without, DeferStop;
    match e
    case Yield => ReschedQuantum(k);
    case Undefer => StopQuantum(k);
    case Wait(s) => if Usable(k, s) { ReschedQuantum(Block(AddCount(k, s, -1), s)); }
    case Signal(s) => if Usable(k, s) { BumpFrozen(k, s); }
    case Sleep(delay) =>
      ReschedQuantum(k);
      ReschedQuantum(WithState(InsertSleep(k, k.curr, Int32(delay)), k.curr, SLEEP));
    case Slice => ReschedQuantum(k.(preempt := QUANTUM));
    case SendTo(p, msg) =>
      if p >= 0 {
        ReadyQuantum(Deliver(k, p, msg), p);
        ReadyQuantum(Unsleep(Deliver(k, p, msg), p), p);
      }
    case Recv => ReschedQuantum(WithState(k, k.curr, RECV));
    case RecvTime(maxwait) => ReschedQuantum(WithState(InsertSleep(k, k.curr, maxwait), k.curr, RECTIM));
    case Susp(p) => if p > 0 { ReschedQuantum(WithState(k, p, SUSP)); }
    case Res(p) => if p >= 0 { ReadyQuantum(k, p); }
    case KillOne(p) => if p > 0 { ReschedQuantum(WithState(k, p, FREE)); }
    case _ =>
  }

  // ---- newcomers ----------------------------------------------------------

  /** Everybody on the ready list is strictly less urgent than the current process. */
  ghost predicate Alone(k: Kern) { forall p | p in k.qs.ready :: PrioOf(k, p) < PrioOf(k, k.curr) }

  /** If the same process still runs, whoever is new on the ready list is strictly less urgent. */
  ghost predicate Strict(k: Kern, r: Kern) {
    r.curr == k.curr ==> Alone(r) || forall p | p in r.qs.ready :: p in k.qs.ready
  }

  /** resched keeps the current process only if it is alone at the top. */
  lemma ReschedAlone(k: Kern)
    requires Struct(k, -1) && k.ndefers == 0 && StateOf(k, k.curr) != READY
    ensures Resched(k).curr == k.curr ==> Alone(Resched(k))
  {
    hide RankFrom, Put, Ahead, Placed, Ranked;
    if StateOf(k, k.curr) == CURR {
      if k.qs.ready != [] {
        HeadKey(k);
        StructReady(k);
        if PrioOf(k, k.curr) <= FirstKey(k) {
          RotatedList(k);
        }
      }
    } else {
      SwitchLeaves(k);
    }
  }

  lemma SwitchLeaves(k: Kern)
    requires Struct(k, -1) && StateOf(k, k.curr) != CURR && StateOf(k, k.curr) != READY
    ensures Switch(k).curr != k.curr
  {
    SwitchStruct(k);
    assert k.qs.ready[0] in Queue(k.qs, OnReady);
  }

  lemma ReadyAlone(k: Kern, p: nat)
    requires Struct(k, p) && p < |k.procs| && p != k.curr && k.procs[k.curr].state == CURR && k.ndefers == 0
    ensures Ready(k, p).curr == k.curr ==> Alone(Ready(k, p))
  {
    var k1 := WithState(k, p, READY);
    TransitStruct(k, p, k1.procs[p]);
    InsertReadyStruct(k1, p);
    hide Struct, Resched, Alone;
    ReschedAlone(InsertReady(k1, p));
  }

  /** While rescheduling is deferred, joining the ready list asks for it. */
  ghost predicate Asked(k: Kern, r: Kern) {
    k.ndefers > 0 ==> (k.attempt ==> r.attempt) && (r.attempt || r.qs.ready == k.qs.ready) && r.ndefers == k.ndefers
  }

  lemma ReadyAsked(k: Kern, p: nat)
    ensures Asked(k, Ready(k, p))
  {
    ReadyFrame(k, p);
    hide Resched;
    ReschedFrame(InsertReady(WithState(k, p, READY), p));
  }

  lemma BumpAsked(k: Kern, s: nat)
    ensures Asked(k, Bump(k, s))
  {
    ReleaseAsked(AddCount(k, s, 1), s);
    hide Release;
  }

  lemma ReleaseAsked(k: Kern, s: nat)
    ensures Asked(k, Release(k, s))
  {
    var q := Queue(k.qs, OnSem(s));
    if q != [] {
      ReadyAsked(k.(qs := WithQueue(k.qs, OnSem(s), q[1..])), q[0]);
    }
    hide Ready;
  }

  lemma {:induction false} BumpsAsked(k: Kern, s: nat, n: nat)
    ensures Asked(k, Bumps(k, s, n))
    decreases n
  {
    hide Bump;
    if n > 0 {
      BumpAsked(k, s);
      BumpsAsked(Bump(k, s), s, n - 1);
    }
  }

  lemma {:induction false} DrainAsked(k: Kern, s: nat, n: nat)
    ensures Asked(k, Drain(k, s, n))
    decreases n
  {
    hide Release;
    if n > 0 {
      ReleaseAsked(k, s);
      DrainAsked(Release(k, s), s, n - 1);
    }
  }

  lemma {:induction false} WakeSomeAsked(k: Kern, n: nat)
    ensures Asked(k, WakeSome(k, n))
    decreases n
  {
    hide Ready;
    if n > 0 {
      if k.qs.sleep != [] {
        ReadyAsked(k.(qs := k.qs.(sleep := k.qs.sleep[1..])), k.qs.sleep[0]);
      }
      WakeSomeAsked(WakeFirst(k), n - 1);
    }
  }

  /** The end of a deferral that started after `k`. */
  lemma StopStrict(k: Kern, k1: Kern)
    requires Steady(k1) && k1.ndefers == 1 && k1.curr == k.curr && (k1.attempt || k1.qs.ready == k.qs.ready)
    ensures Strict(k, DeferStop(k1))
  {
    var k2 := k1.(ndefers := 0);
    hide Placed, Ranked, Resched, Alone, Urgent;
    if k1.attempt {
      ReschedAlone(k2);
    }
  }

  lemma LoopStrict(k: Kern, e: Call)
    requires Inv(k) && k.ndefers == 0 && Loops(e)
    ensures Strict(k, Do(k, e))
  {
    hide Inv, Steady, Bumps, Drain, WakeSome, Expired, DeferStop, Strict, Counted;
    StrictSame(k);
    InvParts(k);
    match e
    case SignalN(s, n) =>
      if Usable(k, s) && n >= 0 {
        var k1 := DeferStart(k);
        DeferStartSteady(k);
        BumpsKeep(k1, s, n);
        BumpsAsked(k1, s, n);
        BumpsFrozen(k1, s, n);
        StopStrict(k, Bumps(k1, s, n));
      }
    case SemReset(s, n) =>
      if Usable(k, s) && n >= 0 {
        ResetStrict(k, s, n);
      }
    case SemDelete(s) =>
      if Usable(k, s) {
        DeleteStrict(k, s);
      }
    case Tick => TickStrict(k);
  }

  lemma StrictSame(k: Kern)
    ensures forall r: Kern | r.qs.ready == k.qs.ready :: Strict(k, r)
  {
  }

  lemma ResetStrict(k: Kern, s: nat, n: nat)
    requires Inv(k) && k.ndefers == 0 && Usable(k, s)
    ensures Strict(k, ResetSem(k, s, n))
  {
    hide Inv, Steady, Drain, DeferStop, Strict, Counted;
    InvParts(k);
    SemqSize(k);
    var k1 := DeferStart(k);
    var w := |Queue(k.qs, OnSem(s))|;
    DeferStartSteady(k);
    DrainKeeps(k1, s, w);
    DrainAsked(k1, s, w);
    DrainFrozen(k1, s, w);
    var k2 := Drain(k1, s, w);
    CountOnly(k2, SetCount(k2, s, n).sems);
    StopStrict(k, SetCount(k2, s, n));
  }

  lemma SemqSize(k: Kern)
    requires Inv(k)
    ensures |k.qs.semq| == |k.sems|
  {
  }

  lemma DeleteStrict(k: Kern, s: nat)
    requires Inv(k) && k.ndefers == 0 && Usable(k, s)
    ensures Strict(k, DeleteSem(k, s))
  {
    hide Inv, Steady, Bumps, DeferStop, Strict, Counted, DeleteSem;
    InvParts(k);
    var k0, n := Unused(k, s), Rounds(k.sems[s]);
    DeleteStarts(k, s);
    DeferStartSteady(k0);
    DeferStartFrame(k0);
    var k1 := DeferStart(k0);
    BumpsEmpty(k1, s, n);
    BumpsAsked(k1, s, n);
    BumpsFrozen(k1, s, n);
    StopStrict(k, Bumps(k1, s, n));
  }

  lemma TickStrict(k: Kern)
    requires Inv(k) && k.ndefers == 0
    ensures Strict(k, TickSleep(k))
  {
    hide Inv, Steady, WakeSome, Expired, DeferStop, Strict, Keys;
    StrictSame(k);
    InvParts(k);
    if k.qs.sleep != [] {
      var k1 := k.(key := WithKey(k.key, k.qs.sleep[0], KeyOf(k.key, k.qs.sleep[0]) - 1));
      TickKeySteady(k);
      var k2, n := DeferStart(k1), Expired(Keys(k1.qs.sleep, k1.key));
      DeferStartSteady(k1);
      WakeSomeSteady(k2, n);
      WakeSomeAsked(k2, n);
      WakeSomeFrozen(k2, n);
      StopStrict(k, WakeSome(k2, n));
    }
  }

  lemma StopsStrict(k: Kern, st: PState)
    requires Steady(k) && MayBlock(k) && (st == RECV || st == SUSP || st == FREE)
    ensures Strict(k, Resched(WithState(k, k.curr, st)))
  {
    var k1 := WithState(k, k.curr, st);
    LeaveStruct(k, k.curr);
    TransitStruct(k, k.curr, k.procs[k.curr].(state := st));
    StayStruct(k1, k.curr);
    hide Placed, Ranked, Alive, Resched, Alone, Urgent;
    ReschedAlone(k1);
  }

  lemma DozesStrict(k: Kern, d: int, st: PState)
    requires Steady(k) && MayBlock(k) && (st == SLEEP || st == RECTIM)
    ensures Strict(k, Resched(WithState(InsertSleep(k, k.curr, d), k.curr, st)))
  {
    LeaveStruct(k, k.curr);
    InsertSleepStruct(k, k.curr, d, st);
    hide Placed, Ranked, Alive, Resched, Alone, Urgent, DeltaKeys, DeltaFrom, Put;
    ReschedAlone(WithState(InsertSleep(k, k.curr, d), k.curr, st));
  }

  lemma WaitStrict(k: Kern, s: int)
    requires Inv(k) && k.ndefers == 0 && Allowed(k, Wait(s))
    ensures Strict(k, WaitSem(k, s))
  {
    hide Placed, Ranked, Alive, Resched, Alone, Urgent, Inv, Steady, Strict;
    StrictSame(k);
    InvParts(k);
    SemqSize(k);
    if Usable(k, s) && k.sems[s].count <= 0 {
      var k1 := AddCount(k, s, -1);
      CountOnly(k, k1.sems);
      BlockStruct(k1, s);
      BlockState(k1, s);
      ReschedAlone(Block(k1, s));
      StrictAlone(k, Resched(Block(k1, s)));
    }
  }

  lemma BlockState(k: Kern, s: nat)
    requires k.curr < |k.procs|
    ensures Block(k, s).curr == k.curr && StateOf(Block(k, s), k.curr) == WAIT
  {
  }

  lemma StrictAlone(k: Kern, r: Kern)
    requires r.curr == k.curr ==> Alone(r)
    ensures Strict(k, r)
  {
  }

  /** Taken off the ready list, or never on it. */
  lemma LeavesStrict(k: Kern, r: Kern, p: nat)
    requires r.qs.ready == k.qs.ready || r.qs.ready == Without(k.qs.ready, p)
    ensures Strict(k, r)
  {
  }

  lemma SuspendStrict(k: Kern, p: int)
    requires Inv(k) && (p == k.curr ==> MayBlock(k))
    ensures Strict(k, Suspend(k, p)) && Strict(k, Kill(k, p))
  {
    hide Inv, Steady, Resched, Strict, Without, CutKeys;
    InvParts(k);
    CurrIsCurr(k, p);
    if p > NULLPROC && StateOf(k, p) == CURR {
      StopsStrict(k, SUSP);
      StopsStrict(k, FREE);
    } else if p > NULLPROC {
      LeavesStrict(k, Suspend(k, p), p);
      LeavesStrict(k, Kill(k, p), p);
    } else {
      StrictSame(k);
    }
  }

  lemma ReadyStrict(k: Kern, k1: Kern, p: nat)
    requires Leads(k, k1, p)
    ensures Strict(k, Ready(k1, p))
  {
    hide Struct, Alone, Ready;
    ReadyAlone(k1, p);
  }

  lemma WakeStrict(k: Kern, e: Call)
    requires Inv(k) && k.ndefers == 0 && (e.Res? || e.SendTo? || e.Signal?)
    ensures Strict(k, Do(k, e))
  {
    hide Inv, Do, Leads, Strict;
    StrictSame(k);
    if e.Res? && e.p >= 0 && Frees(k, e, e.p) {
      ResumeLeads(k, e.p);
      ReadyStrict(k, k, e.p);
    } else if e.SendTo? && e.p >= 0 && Frees(k, e, e.p) {
      var k1 := SendLeads(k, e.p, e.msg);
      ReadyStrict(k, k1, e.p);
    } else if e.Signal? && Usable(k, e.s) && Queue(k.qs, OnSem(e.s)) != [] {
      var p := Queue(k.qs, OnSem(e.s))[0];
      WaiterThere(k, e.s);
      var k1 := SignalLeads(k, e.s, p);
      ReadyStrict(k, k1, p);
    } else {
      NobodyFreed(k, e);
    }
  }

  lemma WaiterThere(k: Kern, s: nat)
    requires Inv(k) && s < |k.qs.semq| && k.qs.semq[s] != []
    ensures k.qs.semq[s][0] < |k.procs|
  {
    assert k.qs.semq[s][0] in Queue(k.qs, OnSem(s));
  }

  lemma NobodyFreed(k: Kern, e: Call)
    requires Inv(k) && (e.Res? || e.SendTo? || e.Signal?)
    requires e.Res? || e.SendTo? ==> !(e.p >= 0 && Frees(k, e, e.p))
    requires e.Signal? ==> !(Usable(k, e.s) && Queue(k.qs, OnSem(e.s)) != [])
    ensures Do(k, e).qs.ready == k.qs.ready
  {
    hide Placed, Ranked, Alive, Ready, Unsleep;
  }

  /** In any call made while rescheduling is not deferred: a process that joins the ready list as urgent as the current one takes the processor from it. */
  lemma NewcomerRuns(k: Kern, e: Call, p: nat)
    requires Inv(k) && Allowed(k, e) && k.ndefers == 0 && !e.Defer?
    requires p !in k.qs.ready && p in Do(k, e).qs.ready && p != k.curr && PrioOf(k, p) >= PrioOf(k, k.curr)
    ensures Do(k, e).curr != k.curr
  {
    hide Inv, Do, Allowed;
    StepStrict(k, e);
    if Do(k, e).curr == k.curr {
      ReadyPrioStays(k, e, p);
      CurrPrioStays(k, e);
      assert false;
    }
  }

  lemma CurrPrioStays(k: Kern, e: Call)
    requires Inv(k) && Allowed(k, e)
    ensures PrioOf(Do(k, e), k.curr) == PrioOf(k, k.curr)
  {
    hide Inv, Do, Allowed;
    CurrRuns(k);
    StepLife(k, e, k.curr);
    NextPrio(k, e);
  }

  lemma NextPrio(k: Kern, e: Call)
    requires StateOf(k, k.curr) == CURR
    ensures k.curr < |k.procs| && Next(k, e, k.curr).prio == k.procs[k.curr].prio
  {
    hide Due, Waiting, First;
  }

  lemma StepStrict(k: Kern, e: Call)
    requires Inv(k) && Allowed(k, e) && k.ndefers == 0 && !e.Defer?
    ensures Strict(k, Do(k, e))
  {
    hide Inv, Steady, Struct, Resched, InsertSleep, Strict, Alone, WaitSem, SignalSem, Suspend, Kill, Send, Resume, SignalMany, ResetSem, DeleteSem, TickSleep;
    InvParts(k);
    SteadyParts(k);
    CurrRuns(k);
    StrictSame(k);
    if Loops(e) {
      LoopStrict(k, e);
    } else if e.Res? || e.SendTo? || e.Signal? {
      WakeStrict(k, e);
    } else {
      match e
      case Yield => ReschedAlone(k); StrictAlone(k, Resched(k));
      case Wait(s) => WaitStrict(k, s);
      case Sleep(delay) =>
        if delay == 0 { ReschedAlone(k); StrictAlone(k, Resched(k)); } else { DozesStrict(k, Int32(delay), SLEEP); }
      case Slice => SliceStrict(k);
      case Recv => if !k.procs[k.curr].hasmsg { StopsStrict(k, RECV); }
      case RecvTime(maxwait) => if maxwait >= 0 && !k.procs[k.curr].hasmsg { DozesStrict(k, maxwait, RECTIM); }
      case Susp(p) => SuspendStrict(k, p);
      case KillOne(p) => SuspendStrict(k, p);
      case _ =>
    }
  }

  lemma SliceStrict(k: Kern)
    requires Inv(k) && k.ndefers == 0
    ensures Strict(k, TickSlice(k))
  {
    CurrRuns(k);
    hide Placed, Ranked, Alive, Resched, Alone;
    ReschedAlone(k.(preempt := QUANTUM));
  }

  // ---- everybody's turn ---------------------------------------------------

  /** The ready processes of `p`'s priority that come before it. */
  ghost function Before(k: Kern, p: nat): set<nat> {
    set q | q in k.qs.ready && Ahead(k.qs.ready, q, p) && PrioOf(k, q) == PrioOf(k, p)
  }

  lemma ReadyPrioStays(k: Kern, e: Call, q: nat)
    requires Inv(k) && Allowed(k, e) && q in Do(k, e).qs.ready
    ensures PrioOf(Do(k, e), q) == PrioOf(k, q)
  {
    hide Inv, Do, Allowed, Urgent;
    StepInv(k, e);
    var r := Do(k, e);
    ReadyKeys(r, q);
    StepSize(k, e);
    StepLife(k, e, q);
    hide Due, Waiting, First;
  }

  lemma StepSize(k: Kern, e: Call)
    requires Inv(k) && Allowed(k, e)
    ensures |Do(k, e).procs| == |k.procs|
  {
    hide Do, Allowed;
    StepLife(k, e, NULLPROC);
  }

  /** Nobody of `p`'s priority gets in front of `p`. */
  lemma BeforeShrinks(k: Kern, e: Call, p: nat)
    requires Inv(k) && Allowed(k, e) && p in k.qs.ready && p in Do(k, e).qs.ready
    ensures Before(Do(k, e), p) <= Before(k, p)
  {
    hide Inv, Do, Allowed, Ahead, NoDup;
    var r := Do(k, e);
    StepInv(k, e);
    ReadyOnce(r);
    ReadyPrioStays(k, e, p);
    forall q | q in Before(r, p)
      ensures q in Before(k, p)
    {
      ReadyPrioStays(k, e, q);
      NotBoth(r.qs.ready, q, p);
      if q in k.qs.ready {
        Distinct(r.qs.ready, q, p);
        EitherAhead(k.qs.ready, p, q);
        if Ahead(k.qs.ready, p, q) {
          NoOvertaking(k, e, p, q);
        }
      } else {
        NewcomersBehind(k, e, p, q);
      }
    }
  }

  lemma Distinct(s: seq<nat>, p: nat, q: nat)
    requires NoDup(s) && Ahead(s, p, q)
    ensures p != q
  {
  }

  /** A rotation takes one of those before `p` off the list, unless it takes `p`. */
  lemma RotationTakes(k: Kern, e: Call, p: nat)
    requires Inv(k) && Allowed(k, e) && p in k.qs.ready && p in Do(k, e).qs.ready
    requires k.ndefers == 0 && GivesWay(k, e) && Rival(k, p)
    ensures Before(Do(k, e), p) < Before(k, p)
  {
    hide Inv, Do, Allowed, GivesWay, Ahead;
    BeforeShrinks(k, e, p);
    Rotates(k, e, p);
    var q := k.qs.ready[0];
    HeadAhead(k.qs.ready, p);
    assert q in Before(k, p) && q !in Before(Do(k, e), p);
  }

  lemma HeadAhead(s: seq<nat>, p: nat)
    requires p in s && s[0] != p
    ensures Ahead(s, s[0], p)
  {
    assert s[Find(s, p)] == p;
  }

  /** How often, in the first `n` calls of a run, a process as urgent as `p` gave way with `p` on the ready list. */
  ghost function Turns(ks: seq<Kern>, es: seq<Call>, n: nat, p: nat): nat
    requires n <= |es| && n <= |ks|
  {
    if n == 0 then 0
    else Turns(ks, es, n - 1, p) +
         if ks[n - 1].ndefers == 0 && GivesWay(ks[n - 1], es[n - 1]) && Rival(ks[n - 1], p) then 1 else 0
  }

  /** Each such turn leaves one process fewer before `p`. */
  lemma {:induction false} TurnsCount(ks: seq<Kern>, es: seq<Call>, n: nat, p: nat)
    requires Run(ks, es) && Inv(ks[0]) && n < |ks|
    requires forall i | 0 <= i <= n :: p in ks[i].qs.ready
    ensures Turns(ks, es, n, p) + |Before(ks[n], p)| <= |Before(ks[0], p)|
  {
    hide Inv, Do, Allowed, GivesWay, Rival, Before;
    if n > 0 {
      TurnsCount(ks, es, n - 1, p);
      RunInv(ks, es, n - 1);
      var k, e := ks[n - 1], es[n - 1];
      assert Allowed(k, e) && ks[n] == Do(k, e);
      BeforeShrinks(k, e, p);
      SmallerSet(Before(ks[n], p), Before(k, p));
      if k.ndefers == 0 && GivesWay(k, e) && Rival(k, p) {
        RotationTakes(k, e, p);
      }
    }
  }

  lemma SmallerSet(a: set<nat>, b: set<nat>)
    requires a <= b
    ensures |a| <= |b| && (a < b ==> |a| < |b|)
  {
    assert b == a + (b - a);
    if a < b {
      assert b - a != {};
    }
  }

  /** A ready process leaves the ready list only by running, being suspended or being killed. */
  lemma LeavesByRunning(k: Kern, e: Call, p: nat)
    requires Inv(k) && Allowed(k, e) && p in k.qs.ready && e != Susp(p) && e != KillOne(p)
    ensures p in Do(k, e).qs.ready || Do(k, e).curr == p
  {
    hide Inv, Do, Allowed;
    ReadyKeys(k, p);
    StepLife(k, e, p);
    StepInv(k, e);
    NextReady(k, e, p);
    RunsOrReady(Do(k, e), p);
  }

  lemma NextReady(k: Kern, e: Call, p: nat)
    requires p < |k.procs| && k.procs[p].state == READY && p != k.curr && e != Susp(p) && e != KillOne(p)
    ensures Next(k, e, p).state == READY
  {
    hide Due, Waiting, First;
  }

  lemma RunsOrReady(k: Kern, p: nat)
    requires Inv(k) && p < |k.procs| && Plain(k.procs[p]).state == READY
    ensures p in k.qs.ready || k.curr == p
  {
    if k.procs[p].state == READY {
      assert p in Queue(k.qs, OnReady);
    }
  }

  /** Round robin: a ready process nobody suspends or kills runs before its equals have given way more often than there were before it. */
  lemma {:induction false} RoundRobin(ks: seq<Kern>, es: seq<Call>, n: nat, p: nat) returns (i: nat)
    requires Run(ks, es) && Inv(ks[0]) && n < |ks| && p in ks[0].qs.ready
    requires forall j | 0 <= j < n :: es[j] != Susp(p) && es[j] != KillOne(p)
    requires Turns(ks, es, n, p) > |Before(ks[0], p)|
    ensures 0 < i <= n && ks[i].curr == p && forall j | 0 <= j < i :: p in ks[j].qs.ready
  {
    hide Inv, Do, Allowed, GivesWay, Rival, Before, Turns;
    i := 0;
    while i < n && p in ks[i].qs.ready
      invariant 0 <= i <= n && forall j | 0 <= j < i :: p in ks[j].qs.ready
      invariant i == 0 || p in ks[i].qs.ready || ks[i].curr == p
    {
      RunInv(ks, es, i);
      assert es[i] != Susp(p) && es[i] != KillOne(p);
      LeavesByRunning(ks[i], es[i], p);
      i := i + 1;
    }
    if p in ks[i].qs.ready {
      TurnsCount(ks, es, n, p);
      assert false;
    }
  }

  /** There are fewer processes before `p` than ready processes of its priority. */
  lemma BeforeBound(k: Kern, p: nat)
    requires Inv(k) && p in k.qs.ready
    ensures |Before(k, p)| < |set q | q in k.qs.ready && PrioOf(k, q) == PrioOf(k, p)|
  {
    hide Inv, Ahead;
    var all := set q | q in k.qs.ready && PrioOf(k, q) == PrioOf(k, p);
    ReadyOnce(k);
    if p in Before(k, p) {
      NotBoth(k.qs.ready, p, p);
      assert false;
    }
    assert p in all;
    SmallerSet(Before(k, p), all);
  }
}
