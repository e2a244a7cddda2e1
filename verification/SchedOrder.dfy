/** First in, first out: among equals on the ready list, and on every semaphore's queue. */
module SchedOrder {
  import opened SchedLists
  import opened SchedState
  import opened SchedMoves
  import opened SchedSteps
  import opened SchedSems
  import opened SchedRun

  /** The priorities of all processes; only create sets one. */
  function Prios(k: Kern): (ps: seq<int>)
    ensures |ps| == |k.procs|
  {
    seq<int>(|k.procs|, p requires 0 <= p < |k.procs| => k.procs[p].prio)
  }

  function PrioAt(ps: seq<int>, p: nat): int { if p < |ps| then ps[p] else 0 }

  /** Joining a queue changes nothing between those already on it, and newcomers go behind everybody at least as urgent. */
  ghost predicate Grows(ps: seq<int>, s: seq<nat>, t: seq<nat>) {
    (forall p | p in s :: p in t)
    && (forall p, q | Ahead(s, p, q) :: Ahead(t, p, q))
    && (forall p, q | p in s && q in t && q !in s && PrioAt(ps, q) <= PrioAt(ps, p) :: Ahead(t, p, q))
  }

  lemma SamePrios(k: Kern, r: Kern)
    requires |r.procs| == |k.procs| && forall p | 0 <= p < |k.procs| :: r.procs[p].prio == k.procs[p].prio
    ensures Prios(r) == Prios(k)
  {
  }

  lemma GrowsSame(ps: seq<int>, s: seq<nat>)
    ensures Grows(ps, s, s)
  {
  }

  /** The ready list gains members, and then its head may be switched to or one member may leave it. */
  ghost predicate AdvanceBy(k: Kern, r: Kern, t: seq<nat>) {
    Grows(Prios(k), k.qs.ready, t) && NoDup(t)
    && ((r.qs.ready == t && r.curr == k.curr)
        || (t != [] && r.qs.ready == t[1..] && r.curr == t[0])
        || (r.curr == k.curr && exists i :: 0 <= i < |t| && r.qs.ready == Drop(t, i)))
  }

  ghost predicate Advance(k: Kern, r: Kern) {
    exists t :: AdvanceBy(k, r, t)
  }

  lemma PutGrows(k: Kern, x: nat)
    requires Ranked(k.procs, k.qs.ready, k.key)
    ensures Grows(Prios(k), k.qs.ready, InsertReady(k, x).qs.ready)
  {
    hide RankFrom, Ranked, Ahead, Put, Keys;
    var s, i := k.qs.ready, RankFrom(Keys(k.qs.ready, k.key), PrioOf(k, x), 0);
    var t := Put(s, i, x);
    forall p, q | Ahead(s, p, q)
      ensures Ahead(t, p, q)
    {
      PutAhead(s, i, x, p, q);
    }
    PutOnly(s, i, x);
    forall p | p in s
      ensures p in t && (PrioOf(k, x) <= PrioOf(k, p) ==> Ahead(t, p, x))
    {
      JoinsAt(k, x, p);
    }
  }

  lemma PutOnly(s: seq<nat>, i: nat, x: nat)
    requires i <= |s|
    ensures forall q | q in Put(s, i, x) :: q in s || q == x
  {
  }

  lemma JoinsAt(k: Kern, x: nat, p: nat)
    requires Ranked(k.procs, k.qs.ready, k.key) && p in k.qs.ready
    ensures var t := InsertReady(k, x).qs.ready;
            p in t && if PrioOf(k, x) <= PrioOf(k, p) then Ahead(t, p, x) else Ahead(t, x, p)
  {
    var s, ks := k.qs.ready, Keys(k.qs.ready, k.key);
    var i := RankFrom(ks, PrioOf(k, x), 0);
    RankPlace(ks, PrioOf(k, x), 0);
    var j := Find(s, p);
    assert ks[j] == KeyOf(k.key, s[j]) == PrioOf(k, p);
    hide RankFrom;
    PutBetween(s, i, x, j);
    assert Put(s, i, x)[if j < i then j else j + 1] == p;
  }

  lemma PutBetween(s: seq<nat>, i: nat, p: nat, j: nat)
    requires i <= |s| && j < |s|
    ensures if j < i then Ahead(Put(s, i, p), s[j], p) else Ahead(Put(s, i, p), p, s[j])
  {
    var t := Put(s, i, p);
    assert t[i] == p && t[if j < i then j else j + 1] == s[j];
  }

  lemma ReadyNoDup(k: Kern)
    requires Struct(k, -1)
    ensures NoDup(k.qs.ready)
  {
    assert k.qs.ready == Queue(k.qs, OnReady);
  }

  lemma StartPrios(k: Kern)
    ensures Prios(DeferStart(k)) == Prios(k)
  {
  }

  lemma ReschedPrios(k: Kern)
    ensures Prios(Resched(k)) == Prios(k)
  {
  }

  lemma ReadyPrios(k: Kern, p: nat)
    ensures Prios(Ready(k, p)) == Prios(k)
  {
    hide Resched;
    ReschedPrios(InsertReady(WithState(k, p, READY), p));
  }

  lemma ReleasePrios(k: Kern, s: nat)
    ensures Prios(Release(k, s)) == Prios(k)
  {
    hide Ready;
    var q := Queue(k.qs, OnSem(s));
    if q != [] {
      ReadyPrios(k.(qs := WithQueue(k.qs, OnSem(s), q[1..])), q[0]);
    }
  }

  lemma SwitchAdvances(k: Kern, k1: Kern)
    requires Struct(k1, -1) && k1.qs.ready != [] && Grows(Prios(k), k.qs.ready, k1.qs.ready)
    ensures Advance(k, Switch(k1))
  {
    ReadyNoDup(k1);
    hide Struct, Grows, NoDup;
    assert AdvanceBy(k, Switch(k1), k1.qs.ready);
  }

  lemma ReschedAdvances(k: Kern, k1: Kern)
    requires Struct(k1, -1) && Grows(Prios(k), k.qs.ready, k1.qs.ready) && k1.curr == k.curr && Prios(k1) == Prios(k)
    requires k1.ndefers > 0 ==> k1.procs[k1.curr].state == CURR
    ensures Advance(k, Resched(k1))
  {
    ReadyNoDup(k1);
    hide Grows, NoDup;
    if k1.ndefers > 0 || (StateOf(k1, k1.curr) == CURR && PrioOf(k1, k1.curr) > FirstKey(k1)) {
      assert AdvanceBy(k, Resched(k1), k1.qs.ready);
    } else if StateOf(k1, k1.curr) == CURR {
      RotateStruct(k1);
      CurrGrows(k1);
      hide Struct;
      var k2 := InsertReady(WithState(k1, k1.curr, READY), k1.curr);
      GrowsTrans(Prios(k), k.qs.ready, k1.qs.ready, k2.qs.ready);
      SwitchAdvances(k, k2);
    } else {
      SwitchStruct(k1);
      SwitchAdvances(k, k1);
    }
  }

  lemma CurrGrows(k: Kern)
    requires Struct(k, -1)
    ensures Grows(Prios(k), k.qs.ready, InsertReady(WithState(k, k.curr, READY), k.curr).qs.ready)
  {
    var k1 := WithState(k, k.curr, READY);
    SamePrios(k, k1);
    PutGrows(k1, k.curr);
  }

  lemma GrowsTrans(ps: seq<int>, s: seq<nat>, t: seq<nat>, u: seq<nat>)
    requires Grows(ps, s, t) && Grows(ps, t, u)
    ensures Grows(ps, s, u)
  {
  }

  lemma RotateStruct(k: Kern)
    requires Struct(k, -1) && k.procs[k.curr].state == CURR
    ensures Struct(InsertReady(WithState(k, k.curr, READY), k.curr), -1)
  {
    LeaveStruct(k, k.curr);
    TransitStruct(k, k.curr, k.procs[k.curr].(state := READY));
    hide Placed, Ranked, Alive;
    InsertReadyStruct(WithState(k, k.curr, READY), k.curr);
  }

  lemma ReadyGrows(k: Kern, p: nat)
    requires k.ndefers > 0 && Ranked(k.procs, k.qs.ready, k.key)
    ensures Grows(Prios(k), k.qs.ready, Ready(k, p).qs.ready)
  {
    var k1 := WithState(k, p, READY);
    SamePrios(k, k1);
    assert Ranked(k1.procs, k1.qs.ready, k1.key);
    hide Grows, Put, Ranked;
    PutGrows(k1, p);
  }

  lemma ReadyAdvances(k: Kern, p: nat)
    requires Struct(k, p) && p < |k.procs| && p != k.curr && k.procs[k.curr].state == CURR
    ensures Advance(k, Ready(k, p))
  {
    var k1 := WithState(k, p, READY);
    TransitStruct(k, p, k1.procs[p]);
    SamePrios(k, k1);
    SamePrios(k, InsertReady(k1, p));
    PutGrows(k1, p);
    hide Struct, Grows, Resched, Advance, Put;
    StructSized(k1, p);
    InsertReadyStruct(k1, p);
    StructSized(InsertReady(k1, p), -1);
    ReschedAdvances(k, InsertReady(k1, p));
  }

  lemma ReleaseGrows(k: Kern, s: nat)
    requires k.ndefers > 0 && Steady(k)
    ensures Grows(Prios(k), k.qs.ready, Release(k, s).qs.ready)
  {
    var q := Queue(k.qs, OnSem(s));
    GrowsSame(Prios(k), k.qs.ready);
    if q != [] {
      hide Grows, Ready;
      SamePrios(k, k.(qs := WithQueue(k.qs, OnSem(s), q[1..])));
      ReadyGrows(k.(qs := WithQueue(k.qs, OnSem(s), q[1..])), q[0]);
    }
  }

  lemma BumpPrios(k: Kern, s: nat)
    ensures Prios(Bump(k, s)) == Prios(k)
  {
    hide Release;
    SamePrios(k, AddCount(k, s, 1));
    ReleasePrios(AddCount(k, s, 1), s);
  }

  lemma {:induction false} BumpsPrios(k: Kern, s: nat, n: nat)
    ensures Prios(Bumps(k, s, n)) == Prios(k)
    decreases n
  {
    if n > 0 {
      BumpPrios(k, s);
      hide Bump, Prios;
      BumpsPrios(Bump(k, s), s, n - 1);
    }
  }

  lemma BumpGrows(k: Kern, s: nat)
    requires k.ndefers > 0 && Steady(k) && |k.qs.semq| == |k.sems| && s < |k.sems|
    ensures Grows(Prios(k), k.qs.ready, Bump(k, s).qs.ready) && Prios(Bump(k, s)) == Prios(k)
  {
    var k1 := AddCount(k, s, 1);
    CountOnly(k, k1.sems);
    hide Grows, Release, Steady;
    SamePrios(k, k1);
    ReleaseGrows(k1, s);
    ReleasePrios(k1, s);
    GrowsSame(Prios(k), k.qs.ready);
  }

  lemma {:induction false} BumpsGrow(k: Kern, s: nat, n: nat)
    requires k.ndefers > 0 && Steady(k) && Counted(k.sems, k.qs.semq) && s < |k.sems| == |k.qs.semq|
    ensures Grows(Prios(k), k.qs.ready, Bumps(k, s, n).qs.ready)
    decreases n
  {
    hide Grows, Bump, Steady, Counted, Prios;
    GrowsSame(Prios(k), k.qs.ready);
    if n > 0 {
      BumpGrows(k, s);
      BumpStays(k, s);
      BumpKeeps(k, s);
      BumpsGrow(Bump(k, s), s, n - 1);
      GrowsTrans(Prios(k), k.qs.ready, Bump(k, s).qs.ready, Bumps(k, s, n).qs.ready);
    }
  }

  lemma {:induction false} DrainGrows(k: Kern, s: nat, n: nat)
    requires k.ndefers > 0 && Steady(k) && s < |k.qs.semq| && n <= |k.qs.semq[s]|
    ensures Grows(Prios(k), k.qs.ready, Drain(k, s, n).qs.ready) && Prios(Drain(k, s, n)) == Prios(k)
    decreases n
  {
    hide Grows, Release, Steady, Prios;
    GrowsSame(Prios(k), k.qs.ready);
    if n > 0 {
      ReleaseGrows(k, s);
      ReleaseStays(k, s);
      ReleasePrios(k, s);
      ReleaseSteady(k, s);
      DrainGrows(Release(k, s), s, n - 1);
      GrowsTrans(Prios(k), k.qs.ready, Release(k, s).qs.ready, Drain(k, s, n).qs.ready);
    }
  }

  lemma {:induction false} WakeSomeGrows(k: Kern, n: nat)
    requires k.ndefers > 0 && Steady(k) && n <= |k.qs.sleep|
    ensures Grows(Prios(k), k.qs.ready, WakeSome(k, n).qs.ready) && Prios(WakeSome(k, n)) == Prios(k)
    decreases n
  {
    GrowsSame(Prios(k), k.qs.ready);
    if n > 0 {
      WakeFirstGrows(k);
      WakeFirstSteady(k);
      hide Grows, WakeFirst, Steady, Prios;
      WakeSomeGrows(WakeFirst(k), n - 1);
      GrowsTrans(Prios(k), k.qs.ready, WakeFirst(k).qs.ready, WakeSome(k, n).qs.ready);
    }
  }

  lemma WakeFirstGrows(k: Kern)
    requires k.ndefers > 0 && Steady(k)
    ensures Grows(Prios(k), k.qs.ready, WakeFirst(k).qs.ready) && WakeFirst(k).ndefers > 0 && Prios(WakeFirst(k)) == Prios(k)
  {
    GrowsSame(Prios(k), k.qs.ready);
    if k.qs.sleep != [] {
      hide Grows, Ready;
      var k1 := k.(qs := k.qs.(sleep := k.qs.sleep[1..]));
      SamePrios(k, k1);
      ReadyPrios(k1, k.qs.sleep[0]);
      ReadyGrows(k1, k.qs.sleep[0]);
      ReadyFrame(k1, k.qs.sleep[0]);
    }
  }

  /** The end of a deferral. */
  lemma StopAdvances(k: Kern, k1: Kern)
    requires Steady(k1) && k1.ndefers > 0 && Grows(Prios(k), k.qs.ready, k1.qs.ready) && k1.curr == k.curr && Prios(k1) == Prios(k)
    ensures Advance(k, DeferStop(k1))
  {
    var k2 := k1.(ndefers := k1.ndefers - 1);
    hide Grows;
    SamePrios(k1, k2);
    if k2.ndefers == 0 && k2.attempt {
      ReschedAdvances(k, k2);
    } else {
      ReadyNoDup(k1);
      hide Struct, NoDup;
      assert AdvanceBy(k, k2, k2.qs.ready);
    }
  }

  /** A call that does not touch the ready list, up to its final reschedule. */
  lemma SameAdvances(k: Kern, k1: Kern)
    requires Struct(k1, -1) && k1.qs.ready == k.qs.ready && k1.curr == k.curr && Prios(k1) == Prios(k)
    requires k1.ndefers > 0 ==> k1.procs[k1.curr].state == CURR
    ensures Advance(k, Resched(k1))
  {
    hide Resched, Struct, Advance, Grows;
    GrowsSame(Prios(k), k.qs.ready);
    StructSized(k1, -1);
    ReschedAdvances(k, k1);
  }

  lemma IdleAdvances(k: Kern, r: Kern)
    requires Struct(k, -1) && r.qs.ready == k.qs.ready && r.curr == k.curr
    ensures Advance(k, r)
  {
    ReadyNoDup(k);
    GrowsSame(Prios(k), k.qs.ready);
    hide Grows;
    assert AdvanceBy(k, r, k.qs.ready);
  }

  lemma LeaveAdvances(k: Kern, r: Kern, p: nat)
    requires Struct(k, -1) && r.qs.ready == Without(k.qs.ready, p) && r.curr == k.curr
    ensures Advance(k, r)
  {
    ReadyNoDup(k);
    GrowsSame(Prios(k), k.qs.ready);
    hide Grows;
    assert AdvanceBy(k, r, k.qs.ready);
  }

  lemma AdvanceFrom(k: Kern, k1: Kern, r: Kern)
    requires Advance(k1, r) && k1.qs.ready == k.qs.ready && k1.curr == k.curr && Prios(k1) == Prios(k)
    ensures Advance(k, r)
  {
    var t :| AdvanceBy(k1, r, t);
    assert AdvanceBy(k, r, t);
  }

  // ---- call by call -------------------------------------------------------

  lemma WaitAdvances(k: Kern, s: int)
    requires Inv(k) && (Usable(k, s) && k.sems[s].count <= 0 ==> MayBlock(k))
    ensures Advance(k, WaitSem(k, s))
  {
    hide Steady, Inv, Struct, Advance, Resched;
    InvParts(k);
    SteadyParts(k);
    InvSized(k);
    if Usable(k, s) && k.sems[s].count <= 0 {
      var k1 := AddCount(k, s, -1);
      CountOnly(k, k1.sems);
      BlockStruct(k1, s);
      StructSized(Block(k1, s), -1);
      SameAdvances(k, Block(k1, s));
    } else {
      IdleAdvances(k, WaitSem(k, s));
    }
  }

  lemma InvSized(k: Kern)
    requires Inv(k)
    ensures |k.qs.semq| == |k.sems|
  {
  }

  lemma SignalAdvances(k: Kern, s: int)
    requires Inv(k)
    ensures Advance(k, SignalSem(k, s))
  {
    if Usable(k, s) && k.sems[s].count < 0 {
      var q := k.qs.semq[s];
      var k1 := AddCount(k, s, 1);
      assert Queue(k1.qs, OnSem(s)) == q && Drop(q, 0) == q[1..];
      UnlinkStruct(k1, OnSem(s), 0);
      var k2 := k1.(qs := WithQueue(k1.qs, OnSem(s), q[1..]));
      hide Inv, Struct, Advance, Ready;
      ReadyAdvances(k2, q[0]);
      AdvanceFrom(k, k2, Ready(k2, q[0]));
    } else {
      IdleAdvances(k, SignalSem(k, s));
    }
  }

  lemma SignalManyAdvances(k: Kern, s: int, n: int)
    requires Inv(k)
    ensures Advance(k, SignalMany(k, s, n))
  {
    if Usable(k, s) && n >= 0 {
      InvParts(k);
      hide Inv, Steady, Counted, Bumps, DeferStop, Grows, Advance;
      DeferStartSteady(k);
      BumpsKeep(DeferStart(k), s, n);
      BumpsGrow(DeferStart(k), s, n);
      BumpsPrios(DeferStart(k), s, n);
      StartPrios(k);
      hide Prios;
      BumpsStay(DeferStart(k), s, n);
      StopAdvances(k, Bumps(DeferStart(k), s, n));
    } else {
      IdleAdvances(k, SignalMany(k, s, n));
    }
  }

  lemma DeleteAdvances(k: Kern, s: int)
    requires Inv(k)
    ensures Advance(k, DeleteSem(k, s))
  {
    if Usable(k, s) {
      InvParts(k);
      UsableDeleteAdvances(k, s);
    } else {
      IdleAdvances(k, DeleteSem(k, s));
    }
  }

  lemma UsableDeleteAdvances(k: Kern, s: nat)
    requires Steady(k) && Counted(k.sems, k.qs.semq) && Usable(k, s)
    ensures Advance(k, DeleteSem(k, s))
  {
    hide Steady, Bumps, Counted, DeferStop, DeferStart, DeleteSem, Grows, Advance;
    var k0, n := Unused(k, s), Rounds(k.sems[s]);
    DeleteStarts(k, s);
    DeferStartSteady(k0);
    DeferStartFrame(k0);
    SamePrios(k, k0);
    StartPrios(k0);
    BumpsKeep(DeferStart(k0), s, n);
    BumpsGrow(DeferStart(k0), s, n);
    BumpsPrios(DeferStart(k0), s, n);
    hide Prios;
    BumpsStay(DeferStart(k0), s, n);
    StopAdvances(k, Bumps(DeferStart(k0), s, n));
  }

  lemma ResetAdvances(k: Kern, s: int, n: int)
    requires Inv(k)
    ensures Advance(k, ResetSem(k, s, n))
  {
    if Usable(k, s) && n >= 0 {
      InvParts(k);
      hide Inv, Steady, Drain, DeferStop, Grows, Advance;
      DeferStartSteady(k);
      var w := |Queue(k.qs, OnSem(s))|;
      DrainKeeps(DeferStart(k), s, w);
      DrainGrows(DeferStart(k), s, w);
      DrainStays(DeferStart(k), s, w);
      var k1 := Drain(DeferStart(k), s, w);
      CountOnly(k1, SetCount(k1, s, n).sems);
      StopAdvances(k, SetCount(k1, s, n));
    } else {
      IdleAdvances(k, ResetSem(k, s, n));
    }
  }

  lemma WakeupAdvances(k: Kern)
    requires Steady(k)
    ensures Advance(k, Wakeup(k))
  {
    hide Steady, WakeSome, DeferStop, Grows, Advance, Expired;
    DeferStartSteady(k);
    var n := Expired(Keys(k.qs.sleep, k.key));
    WakeSomeSteady(DeferStart(k), n);
    WakeSomeGrows(DeferStart(k), n);
    WakeSomeStays(DeferStart(k), n);
    StopAdvances(k, WakeSome(DeferStart(k), n));
  }

  lemma TickAdvances(k: Kern)
    requires Steady(k)
    ensures Advance(k, TickSleep(k))
  {
    if k.qs.sleep == [] {
      IdleAdvances(k, TickSleep(k));
    } else {
      var k1 := k.(key := WithKey(k.key, k.qs.sleep[0], KeyOf(k.key, k.qs.sleep[0]) - 1));
      TickKeySteady(k);
      IdleAdvances(k, k1);
      hide Steady, Advance, Wakeup;
      WakeupAdvances(k1);
      AdvanceFrom(k, k1, Wakeup(k1));
    }
  }

  lemma DeliverAdvances(k: Kern, p: nat, msg: int)
    requires Steady(k) && p < |k.procs|
    ensures var k1 := Deliver(k, p, msg);
            Steady(k1) && Prios(k1) == Prios(k) && Advance(k, k1) && k1.qs == k.qs && k1.curr == k.curr && StateOf(k1, p) == StateOf(k, p)
  {
    DeliverSteady(k, p, msg);
    IdleAdvances(k, Deliver(k, p, msg));
    SamePrios(k, Deliver(k, p, msg));
  }

  lemma WakeRecvAdvances(k: Kern, p: nat)
    requires Steady(k) && p < |k.procs| && StateOf(k, p) == RECV
    ensures Advance(k, Ready(k, p))
  {
    LeaveStruct(k, p);
    hide Advance, Ready, Struct, Urgent;
    ReadyAdvances(k, p);
  }

  lemma WakeTimedAdvances(k: Kern, p: nat)
    requires Steady(k) && p < |k.procs| && StateOf(k, p) == RECTIM
    ensures Advance(k, Ready(Unsleep(k, p), p))
  {
    UnsleepStruct(k, p);
    SamePrios(k, Unsleep(k, p));
    hide Struct, Advance, Ready, Urgent;
    ReadyAdvances(Unsleep(k, p), p);
    AdvanceFrom(k, Unsleep(k, p), Ready(Unsleep(k, p), p));
  }

  lemma SendAdvances(k: Kern, p: int, msg: int)
    requires Steady(k)
    ensures Advance(k, Send(k, p, msg))
  {
    hide Advance, Ready, Unsleep, Prios;
    if p < 0 || StateOf(k, p) == FREE || k.procs[p].hasmsg {
      IdleAdvances(k, k);
    } else {
      var k1 := Deliver(k, p, msg);
      DeliverAdvances(k, p, msg);
      hide Steady, Deliver;
      if StateOf(k, p) == RECV {
        WakeRecvAdvances(k1, p);
        AdvanceFrom(k, k1, Ready(k1, p));
      } else if StateOf(k, p) == RECTIM {
        WakeTimedAdvances(k1, p);
        AdvanceFrom(k, k1, Ready(Unsleep(k1, p), p));
      }
    }
  }

  lemma StopCurrAdvances(k: Kern, st: PState)
    requires Steady(k) && MayBlock(k) && (st == RECV || st == SUSP || st == FREE)
    ensures Advance(k, Resched(WithState(k, k.curr, st)))
  {
    var k1 := WithState(k, k.curr, st);
    assert Struct(k1, -1) by {
      LeaveStruct(k, k.curr);
      TransitStruct(k, k.curr, k.procs[k.curr].(state := st));
      StayStruct(k1, k.curr);
    }
    hide Struct, Advance, Resched;
    SameAdvances(k, k1);
  }

  lemma GoToSleepAdvances(k: Kern, d: int, st: PState)
    requires Steady(k) && MayBlock(k) && (st == SLEEP || st == RECTIM)
    ensures Advance(k, Resched(WithState(InsertSleep(k, k.curr, d), k.curr, st)))
  {
    LeaveStruct(k, k.curr);
    InsertSleepStruct(k, k.curr, d, st);
    hide Struct, Resched, InsertSleep, Advance;
    SleepFrame(k, d);
    var k1 := WithState(InsertSleep(k, k.curr, d), k.curr, st);
    StructSized(k1, -1);
    SameAdvances(k, k1);
  }

  lemma KillAdvances(k: Kern, p: int)
    requires Inv(k) && (p == k.curr ==> MayBlock(k))
    ensures Advance(k, Kill(k, p))
  {
    hide Inv, Steady, Struct, Advance, Resched, Without;
    InvParts(k);
    CurrIsCurr(k, p);
    SteadyParts(k);
    if p > NULLPROC && StateOf(k, p) == CURR {
      StopCurrAdvances(k, FREE);
    } else if p > NULLPROC && StateOf(k, p) == READY {
      LeaveAdvances(k, Kill(k, p), p);
    } else {
      IdleAdvances(k, Kill(k, p));
    }
  }

  lemma CurrIsCurr(k: Kern, p: int)
    requires Steady(k)
    ensures p >= 0 && StateOf(k, p) == CURR ==> p == k.curr
  {
  }

  lemma SteadyParts(k: Kern)
    requires Steady(k)
    ensures Struct(k, -1) && k.curr < |k.procs|
  {
  }

  lemma SuspendAdvances(k: Kern, p: int)
    requires Inv(k) && (p == k.curr ==> MayBlock(k))
    ensures Advance(k, Suspend(k, p))
  {
    hide Inv, Steady, Struct, Advance, Resched, Without;
    InvParts(k);
    CurrIsCurr(k, p);
    SteadyParts(k);
    if p > NULLPROC && StateOf(k, p) == CURR {
      StopCurrAdvances(k, SUSP);
    } else if p > NULLPROC && StateOf(k, p) == READY {
      LeaveAdvances(k, Suspend(k, p), p);
    } else {
      IdleAdvances(k, k);
    }
  }

  lemma StepAdvances(k: Kern, e: Call)
    requires Inv(k) && Allowed(k, e)
    ensures Advance(k, Do(k, e))
  {
    hide Advance, Struct, Inv, Steady, WaitSem, SignalSem, SignalMany, ResetSem, DeleteSem, TickSleep, TickSlice, Send, Suspend, Resume, Kill, Resched, InsertSleep;
    InvParts(k);
    SteadyParts(k);
    assert Steady(k);
    match e
    case Yield => YieldAdvances(k);
    case Undefer => if k.ndefers == 0 { IdleAdvances(k, k); } else { StopAdvances(k, k); }
    case Wait(s) => WaitAdvances(k, s);
    case Signal(s) => SignalAdvances(k, s);
    case SignalN(s, n) => SignalManyAdvances(k, s, n);
    case SemReset(s, n) => ResetAdvances(k, s, n);
    case SemDelete(s) => DeleteAdvances(k, s);
    case Sleep(delay) => if delay == 0 { YieldAdvances(k); } else { GoToSleepAdvances(k, Int32(delay), SLEEP); }
    case Tick => TickAdvances(k);
    case Slice => SliceAdvances(k);
    case SendTo(p, msg) => SendAdvances(k, p, msg);
    case Recv => if k.procs[k.curr].hasmsg { IdleAdvances(k, k); } else { StopCurrAdvances(k, RECV); }
    case RecvTime(maxwait) =>
      if maxwait < 0 || k.procs[k.curr].hasmsg { IdleAdvances(k, k); } else { GoToSleepAdvances(k, maxwait, RECTIM); }
    case Susp(p) => SuspendAdvances(k, p);
    case Res(p) => ResumeAdvances(k, p);
    case KillOne(p) => KillAdvances(k, p);
    case _ => IdleAdvances(k, Do(k, e));
  }

  lemma YieldAdvances(k: Kern)
    requires Steady(k)
    ensures Advance(k, Resched(k))
  {
    hide Advance, Resched;
    SameAdvances(k, k);
  }

  lemma CurrIs(k: Kern)
    requires Inv(k)
    ensures k.curr < |k.procs| && k.procs[k.curr].state == CURR
  {
  }

  lemma SliceAdvances(k: Kern)
    requires Inv(k)
    ensures Advance(k, TickSlice(k))
  {
    hide Inv, Steady, Placed, Ranked, Alive, Advance, Resched;
    InvParts(k);
    SteadyParts(k);
    CurrIs(k);
    var k1 := k.(preempt := QUANTUM);
    IdleAdvances(k, k.(preempt := k.preempt - 1));
    SamePrios(k, k1);
    SameAdvances(k, k1);
  }

  lemma ResumeAdvances(k: Kern, p: int)
    requires Inv(k)
    ensures Advance(k, Resume(k, p))
  {
    if p >= 0 && StateOf(k, p) == SUSP {
      LeaveStruct(k, p);
      hide Advance, Ready;
      ReadyAdvances(k, p);
    } else {
      IdleAdvances(k, k);
    }
  }

  // ---- the ready list -----------------------------------------------------

  lemma NotTwice(t: seq<nat>, p: nat, q: nat)
    requires NoDup(t) && Ahead(t, p, q)
    ensures t[0] != q && p in t && q in t
  {
    var i, j :| 0 <= i < j < |t| && t[i] == p && t[j] == q;
  }

  /** Nobody is switched to past a process ahead of it that stays on the ready list, and their order stays as it was. */
  lemma NoOvertaking(k: Kern, e: Call, p: nat, q: nat)
    requires Inv(k) && Allowed(k, e) && Ahead(k.qs.ready, p, q) && p in Do(k, e).qs.ready
    ensures Do(k, e).curr != q
    ensures q in Do(k, e).qs.ready ==> Ahead(Do(k, e).qs.ready, p, q)
  {
    hide Inv, Do, Allowed, AdvanceBy, Ahead;
    var r := Do(k, e);
    StepAdvances(k, e);
    AheadNotCurrent(k, p, q);
    var t :| AdvanceBy(k, r, t);
    AdvanceKeeps(k, r, t, p, q);
  }

  lemma AdvanceKeeps(k: Kern, r: Kern, t: seq<nat>, p: nat, q: nat)
    requires AdvanceBy(k, r, t) && Ahead(k.qs.ready, p, q) && k.curr != q && p in r.qs.ready
    ensures r.curr != q && (q in r.qs.ready ==> Ahead(r.qs.ready, p, q))
  {
    assert Ahead(t, p, q) && NoDup(t);
    hide Ahead, NoDup, Grows;
    NotTwice(t, p, q);
    if r.qs.ready != t {
      var i := LeftFrom(k, r, t);
      DropMembers(t, i);
      if q in r.qs.ready {
        DropAhead(t, i, p, q);
      }
    }
  }

  /** A process that joins the ready list gets behind everybody on it that is at least as urgent and stays. */
  lemma NewcomersBehind(k: Kern, e: Call, p: nat, q: nat)
    requires Inv(k) && Allowed(k, e) && p in k.qs.ready && q !in k.qs.ready && PrioOf(k, q) <= PrioOf(k, p)
    requires p in Do(k, e).qs.ready && q in Do(k, e).qs.ready
    ensures Ahead(Do(k, e).qs.ready, p, q)
  {
    hide Inv, Do, Allowed, AdvanceBy, Ahead;
    var r := Do(k, e);
    StepAdvances(k, e);
    var t :| AdvanceBy(k, r, t);
    NewcomerKeeps(k, r, t, p, q);
  }

  lemma NewcomerAhead(k: Kern, t: seq<nat>, p: nat, q: nat)
    requires Grows(Prios(k), k.qs.ready, t) && p in k.qs.ready && q in t && q !in k.qs.ready && PrioOf(k, q) <= PrioOf(k, p)
    ensures Ahead(t, p, q)
  {
    hide Ahead;
  }

  lemma NewcomerKeeps(k: Kern, r: Kern, t: seq<nat>, p: nat, q: nat)
    requires AdvanceBy(k, r, t) && p in k.qs.ready && q !in k.qs.ready && PrioOf(k, q) <= PrioOf(k, p)
    requires p in r.qs.ready && q in r.qs.ready
    ensures Ahead(r.qs.ready, p, q)
  {
    hide Ahead, NoDup;
    if r.qs.ready == t {
      NewcomerAhead(k, t, p, q);
    } else {
      var i := LeftFrom(k, r, t);
      DropMembers(t, i);
      NewcomerAhead(k, t, p, q);
      DropAhead(t, i, p, q);
    }
  }

  lemma LeftFrom(k: Kern, r: Kern, t: seq<nat>) returns (i: nat)
    requires AdvanceBy(k, r, t) && r.qs.ready != t
    ensures i < |t| && r.qs.ready == Drop(t, i)
  {
    if t != [] && r.qs.ready == t[1..] {
      i := 0;
    } else {
      i :| 0 <= i < |t| && r.qs.ready == Drop(t, i);
    }
  }

  lemma AheadNotCurrent(k: Kern, p: nat, q: nat)
    requires Inv(k) && Ahead(k.qs.ready, p, q)
    ensures k.curr != q
  {
    var i, j :| 0 <= i < j < |k.qs.ready| && k.qs.ready[i] == p && k.qs.ready[j] == q;
    assert q in Queue(k.qs, OnReady);
  }

  /** Over a whole run: as long as both stay ready, the one behind does not run. */
  lemma {:induction false} ReadyFifo(ks: seq<Kern>, es: seq<Call>, n: nat, p: nat, q: nat)
    requires Run(ks, es) && Inv(ks[0]) && n < |ks| && Ahead(ks[0].qs.ready, p, q)
    requires forall i | 0 <= i <= n :: p in ks[i].qs.ready
    requires forall i | 0 <= i < n :: q in ks[i].qs.ready
    ensures ks[n].curr != q
    ensures q in ks[n].qs.ready ==> Ahead(ks[n].qs.ready, p, q)
  {
    hide Inv, Do, Allowed, Ahead;
    if n > 0 {
      ReadyFifo(ks, es, n - 1, p, q);
      RunInv(ks, es, n - 1);
      NoOvertaking(ks[n - 1], es[n - 1], p, q);
    } else {
      AheadNotCurrent(ks[0], p, q);
    }
  }

  /** A newcomer goes behind everybody at least as urgent and in front of the rest. */
  lemma JoinsBehindEquals(k: Kern, p: nat, q: nat)
    requires Struct(k, p) && p < |k.procs| && q in k.qs.ready
    ensures var t := InsertReady(k, p).qs.ready;
            if PrioOf(k, q) >= PrioOf(k, p) then Ahead(t, q, p) else Ahead(t, p, q)
  {
    hide InsertReady;
    JoinsAt(k, p, q);
  }
}
