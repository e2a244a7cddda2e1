/** Runs of the kernel: any sequence of calls and clock interrupts. */
module SchedRun {
  import opened SchedLists
  import opened SchedState
  import opened SchedMoves
  import opened SchedSteps
  import opened SchedSems

  datatype Call =
    | Yield | Defer | Undefer
    | Wait(s: int) | Signal(s: int) | SignalN(s: int, n: int)
    | SemCreate(s: int, n: int) | SemReset(s: int, n: int) | SemDelete(s: int)
    | Sleep(delay: nat) | Tick | Slice
    | SendTo(p: int, msg: int) | Recv | RecvTime(maxwait: int) | Take
    | Susp(p: int) | Res(p: int) | KillOne(p: int) | New(slot: nat, prio: int)

  function Do(k: Kern, e: Call): Kern {
    match e
    case Yield => Resched(k)
    case Defer => DeferStart(k)
    case Undefer => DeferStop(k)
    case Wait(s) => WaitSem(k, s)
    case Signal(s) => SignalSem(k, s)
    case SignalN(s, n) => SignalMany(k, s, n)
    case SemCreate(s, n) => CreateSem(k, s, n)
    case SemReset(s, n) => ResetSem(k, s, n)
    case SemDelete(s) => DeleteSem(k, s)
    case Sleep(delay) => SleepFor(k, delay)
    case Tick => TickSleep(k)
    case Slice => TickSlice(k)
    case SendTo(p, msg) => Send(k, p, msg)
    case Recv => Receive(k)
    case RecvTime(maxwait) => ReceiveTimed(k, maxwait)
    case Take => Collect(k)
    case Susp(p) => Suspend(k, p)
    case Res(p) => Resume(k, p)
    case KillOne(p) => Kill(k, p)
    case New(p, prio) => Create(k, p, prio)
  }

  /** The call would take the processor from its caller. */
  predicate Blocks(k: Kern, e: Call) {
    match e
    case Wait(s) => Usable(k, s) && k.sems[s].count <= 0
    case Sleep(delay) => delay > 0
    case Recv => true
    case RecvTime(_) => true
    case Susp(p) => p == k.curr
    case KillOne(p) => p == k.curr
    case _ => false
  }

  /** The null process never blocks, and nobody blocks while rescheduling is deferred. */
  predicate Allowed(k: Kern, e: Call) { Blocks(k, e) ==> MayBlock(k) }

  lemma StepInv(k: Kern, e: Call)
    requires Inv(k) && Allowed(k, e)
    ensures Inv(Do(k, e))
  {
    match e
    case Wait(s) => WaitInv(k, s);
    case Signal(s) => SignalInv(k, s);
    case SignalN(s, n) => SignalManyInv(k, s, n);
    case SemCreate(s, n) => CreateSemInv(k, s, n);
    case SemReset(s, n) => ResetInv(k, s, n);
    case SemDelete(s) => DeleteInv(k, s);
    case KillOne(p) => KillInv(k, p);
    case _ =>
      hide Inv;
      InvParts(k);
      InvParts(Do(k, e));
      OtherSteady(k, e);
      OtherFrame(k, e);
  }

  predicate Other(e: Call) {
    !e.Wait? && !e.Signal? && !e.SignalN? && !e.SemCreate? && !e.SemReset? && !e.SemDelete? && !e.KillOne?
  }

  lemma OtherSteady(k: Kern, e: Call)
    requires Steady(k) && Allowed(k, e) && Other(e)
    ensures Steady(Do(k, e))
  {
    match e
    case Yield => YieldSteady(k);
    case Defer => DeferStartSteady(k);
    case Undefer => DeferStopSteady(k);
    case Sleep(delay) => if delay == 0 { YieldSteady(k); } else { GoToSleepSteady(k, Int32(delay), SLEEP); }
    case Tick => TickSteady(k);
    case Slice => SliceSteady(k);
    case SendTo(p, msg) => SendSteady(k, p, msg);
    case Recv => if !k.procs[k.curr].hasmsg { StopSteady(k, RECV); }
    case RecvTime(maxwait) => if maxwait >= 0 && !k.procs[k.curr].hasmsg { GoToSleepSteady(k, maxwait, RECTIM); }
    case Take => CollectSteady(k);
    case Susp(p) => SuspendSteady(k, p);
    case Res(p) => ResumeSteady(k, p);
    case New(p, prio) => CreateSteady(k, p, prio);
  }

  lemma SliceSteady(k: Kern)
    requires Steady(k)
    ensures Steady(TickSlice(k))
  {
    var k1 := k.(preempt := QUANTUM);
    assert Steady(k1);
    YieldSteady(k1);
  }

  /** Calls that are not about semaphores leave them alone. */
  lemma OtherFrame(k: Kern, e: Call)
    requires Steady(k) && Other(e)
    ensures Do(k, e).sems == k.sems && Do(k, e).qs.semq == k.qs.semq
  {
    match e
    case Yield => ReschedFrame(k);
    case Undefer => DeferStopFrame(k);
    case Tick => TickSteady(k);
    case SendTo(p, msg) => SendSteady(k, p, msg);
    case _ => PlainFrame(k, e);
  }

  lemma PlainFrame(k: Kern, e: Call)
    requires Other(e) && !e.Yield? && !e.Undefer? && !e.Tick? && !e.SendTo?
    ensures Do(k, e).sems == k.sems && Do(k, e).qs.semq == k.qs.semq
  {
    hide Resched, Ready, DeltaFrom, DeltaKeys, Put, Without;
    match e
    case Sleep(delay) =>
      ReschedFrame(k);
      ReschedFrame(WithState(InsertSleep(k, k.curr, Int32(delay)), k.curr, SLEEP));
    case Slice => ReschedFrame(k.(preempt := QUANTUM));
    case Recv => ReschedFrame(WithState(k, k.curr, RECV));
    case RecvTime(maxwait) => ReschedFrame(WithState(InsertSleep(k, k.curr, maxwait), k.curr, RECTIM));
    case Susp(p) => if p > 0 { ReschedFrame(WithState(k, p, SUSP)); }
    case Res(p) => if p >= 0 { ReadyFrame(k, p); }
    case _ =>
  }

  ghost predicate Run(ks: seq<Kern>, es: seq<Call>) {
    |ks| == |es| + 1 && forall i | 0 <= i < |es| :: Allowed(ks[i], es[i]) && ks[i + 1] == Do(ks[i], es[i])
  }

  /** The invariant holds in every state of every run. */
  lemma {:induction false} RunInv(ks: seq<Kern>, es: seq<Call>, n: nat)
    requires Run(ks, es) && Inv(ks[0]) && n < |ks|
    ensures Inv(ks[n])
  {
    hide Inv, Do, Allowed;
    if n > 0 {
      RunInv(ks, es, n - 1);
      StepInv(ks[n - 1], es[n - 1]);
    }
  }

  // ---- deferral -----------------------------------------------------------

  /** Nobody is switched while the count of defers stays positive. */
  ghost predicate Stays(k: Kern, r: Kern) {
    r.ndefers == k.ndefers && (k.ndefers > 0 ==> r.curr == k.curr)
  }

  lemma {:induction false} BumpsStay(k: Kern, s: nat, n: nat)
    ensures Stays(k, Bumps(k, s, n))
    decreases n
  {
    hide Bump;
    if n > 0 {
      BumpStays(k, s);
      BumpsStay(Bump(k, s), s, n - 1);
    }
  }

  lemma ReleaseStays(k: Kern, s: nat)
    ensures Stays(k, Release(k, s))
  {
    hide Ready;
    var q := Queue(k.qs, OnSem(s));
    if q != [] {
      ReadyFrame(k.(qs := WithQueue(k.qs, OnSem(s), q[1..])), q[0]);
    }
  }

  lemma BumpStays(k: Kern, s: nat)
    ensures Stays(k, Bump(k, s))
  {
    hide Release;
    ReleaseStays(AddCount(k, s, 1), s);
  }

  lemma {:induction false} DrainStays(k: Kern, s: nat, n: nat)
    ensures Stays(k, Drain(k, s, n))
    decreases n
  {
    hide Release;
    if n > 0 {
      ReleaseStays(k, s);
      DrainStays(Release(k, s), s, n - 1);
    }
  }

  lemma {:induction false} WakeSomeStays(k: Kern, n: nat)
    ensures Stays(k, WakeSome(k, n))
    decreases n
  {
    if n > 0 {
      if k.qs.sleep != [] {
        ReadyFrame(k.(qs := k.qs.(sleep := k.qs.sleep[1..])), k.qs.sleep[0]);
      }
      hide WakeFirst;
      WakeSomeStays(WakeFirst(k), n - 1);
    }
  }

  /** The calls that release several waiters defer rescheduling while they do it. */
  predicate Loops(e: Call) { e.SignalN? || e.SemReset? || e.SemDelete? || e.Tick? }

  /** While defers are outstanding before and after a call, no call changes the current process. */
  lemma DeferredStays(k: Kern, e: Call)
    requires Inv(k) && Allowed(k, e) && k.ndefers > 0 && Do(k, e).ndefers > 0
    ensures Do(k, e).curr == k.curr
  {
    hide Inv, Do, Allowed;
    if Loops(e) {
      LoopStays(k, e);
    } else if e.Susp? || e.KillOne? {
      RemovalStays(k, e);
    } else {
      SimpleStays(k, e);
    }
  }

  lemma LoopStays(k: Kern, e: Call)
    requires Loops(e) && k.ndefers > 0
    ensures Do(k, e).curr == k.curr
  {
    hide Bumps, Drain, WakeSome, Expired;
    match e
    case SignalN(s, n) => if Usable(k, s) && n >= 0 { BumpsStay(DeferStart(k), s, n); }
    case SemReset(s, n) =>
      if Usable(k, s) && n >= 0 {
        DrainStays(DeferStart(k), s, |Queue(k.qs, OnSem(s))|);
      }
    case SemDelete(s) =>
      if Usable(k, s) {
        var c := k.sems[s].count;
        BumpsStay(DeferStart(WithUse(k, s, false)), s, if c < 0 then -c + 1 else 1);
      }
    case Tick =>
      if k.qs.sleep != [] {
        var k1 := k.(key := WithKey(k.key, k.qs.sleep[0], KeyOf(k.key, k.qs.sleep[0]) - 1));
        WakeSomeStays(DeferStart(k1), Expired(Keys(k1.qs.sleep, k1.key)));
      }
  }

  lemma RemovalStays(k: Kern, e: Call)
    requires Inv(k) && Allowed(k, e) && k.ndefers > 0 && (e.Susp? || e.KillOne?)
    ensures Do(k, e).curr == k.curr
  {
    hide Inv, CutKeys, Without, WithQueue, Queue;
    if e.Susp? {
      OnlyCurrent(k, e.p);
    } else {
      OnlyCurrent(k, e.p);
    }
  }

  lemma OnlyCurrent(k: Kern, p: int)
    requires Inv(k)
    ensures p >= 0 && StateOf(k, p) == CURR ==> p == k.curr
  {
  }

  lemma SimpleStays(k: Kern, e: Call)
    requires Allowed(k, e) && k.ndefers > 0 && !Loops(e) && !e.Susp? && !e.KillOne?
    ensures Do(k, e).ndefers > 0 ==> Do(k, e).curr == k.curr
  {
    hide DeltaFrom, DeltaKeys, CutKeys, Put, Without, Ready, Bump;
    match e
    case Signal(s) => if Usable(k, s) { BumpStays(k, s); }
    case SendTo(p, msg) =>
      if p >= 0 {
        ReadyFrame(Deliver(k, p, msg), p);
        ReadyFrame(Unsleep(Deliver(k, p, msg), p), p);
      }
    case Res(p) => if p >= 0 { ReadyFrame(k, p); }
    case _ =>
  }

  // ---- how deep -----------------------------------------------------------

  /** The outstanding defers after a call. */
  function Deeper(d: nat, e: Call): nat {
    match e
    case Defer => d + 1
    case Undefer => if d > 0 then d - 1 else 0
    case _ => d
  }

  lemma LoopDefers(k: Kern, e: Call)
    requires Loops(e)
    ensures Do(k, e).ndefers == k.ndefers
  {
    hide Bumps, Drain, WakeSome, Expired, Resched;
    match e
    case SignalN(s, n) =>
      if Usable(k, s) && n >= 0 {
        BumpsStay(DeferStart(k), s, n);
        StopDefers(Bumps(DeferStart(k), s, n));
      }
    case SemReset(s, n) =>
      if Usable(k, s) && n >= 0 {
        var w := |Queue(k.qs, OnSem(s))|;
        DrainStays(DeferStart(k), s, w);
        StopDefers(SetCount(Drain(DeferStart(k), s, w), s, n));
      }
    case SemDelete(s) =>
      if Usable(k, s) {
        var c := k.sems[s].count;
        var k0, n := DeferStart(WithUse(k, s, false)), if c < 0 then -c + 1 else 1;
        BumpsStay(k0, s, n);
        StopDefers(Bumps(k0, s, n));
      }
    case Tick =>
      if k.qs.sleep != [] {
        var k1 := k.(key := WithKey(k.key, k.qs.sleep[0], KeyOf(k.key, k.qs.sleep[0]) - 1));
        var n := Expired(Keys(k1.qs.sleep, k1.key));
        WakeSomeStays(DeferStart(k1), n);
        StopDefers(WakeSome(DeferStart(k1), n));
      }
  }

  lemma StopDefers(k: Kern)
    ensures DeferStop(k).ndefers == if k.ndefers > 0 then k.ndefers - 1 else 0
  {
    hide Resched;
    ReschedFrame(k.(ndefers := if k.ndefers > 0 then k.ndefers - 1 else 0));
  }

  /** Only the two calls for it change the number of outstanding defers. */
  lemma StepDefers(k: Kern, e: Call)
    ensures Do(k, e).ndefers == Deeper(k.ndefers, e)
  {
    if Loops(e) {
      LoopDefers(k, e);
    } else {
      PlainDefers(k, e);
    }
  }

  lemma PlainDefers(k: Kern, e: Call)
    requires !Loops(e)
    ensures Do(k, e).ndefers == Deeper(k.ndefers, e)
  {
    hide Resched, Ready, Bump, DeltaFrom, DeltaKeys, CutKeys, Put, Without, DeferStop;
    match e
    case Yield => ReschedFrame(k);
    case Undefer => StopDefers(k);
    case Wait(s) => if Usable(k, s) { ReschedFrame(Block(AddCount(k, s, -1), s)); }
    case Signal(s) => if Usable(k, s) { BumpStays(k, s); }
    case SendTo(p, msg) =>
      if p >= 0 {
        ReadyFrame(Deliver(k, p, msg), p);
        ReadyFrame(Unsleep(Deliver(k, p, msg), p), p);
      }
    case KillOne(p) => if p > 0 { ReschedFrame(WithState(k, p, FREE)); }
    case _ => OtherDefers(k, e);
  }

  lemma OtherDefers(k: Kern, e: Call)
    requires e.Sleep? || e.Slice? || e.Recv? || e.RecvTime? || e.Susp? || e.Res? || e.Take? || e.New? || e.SemCreate? || e.Defer?
    ensures Do(k, e).ndefers == Deeper(k.ndefers, e)
  {
    hide Resched, Ready, DeltaFrom, DeltaKeys, Put, Without;
    match e
    case Sleep(delay) =>
      ReschedFrame(k);
      ReschedFrame(WithState(InsertSleep(k, k.curr, Int32(delay)), k.curr, SLEEP));
    case Slice => ReschedFrame(k.(preempt := QUANTUM));
    case Recv => ReschedFrame(WithState(k, k.curr, RECV));
    case RecvTime(maxwait) => ReschedFrame(WithState(InsertSleep(k, k.curr, maxwait), k.curr, RECTIM));
    case Susp(p) => if p > 0 { ReschedFrame(WithState(k, p, SUSP)); }
    case Res(p) => if p >= 0 { ReadyFrame(k, p); }
    case _ =>
  }

  /** The defers asked for and not yet undone, after a sequence of calls. */
  function Depth(d: nat, es: seq<Call>): nat {
    if es == [] then d else Deeper(Depth(d, es[..|es| - 1]), es[|es| - 1])
  }

  /** Over a whole run: as long as more defers have been asked for than undone, the same process runs. */
  lemma {:induction false} DeferredRun(ks: seq<Kern>, es: seq<Call>, n: nat)
    requires Run(ks, es) && Inv(ks[0]) && n < |ks|
    ensures ks[n].ndefers == Depth(ks[0].ndefers, es[..n])
    ensures (forall i | 0 <= i <= n :: Depth(ks[0].ndefers, es[..i]) > 0) ==> ks[n].curr == ks[0].curr
  {
    hide Inv, Do, Allowed;
    if n > 0 {
      DeferredRun(ks, es, n - 1);
      RunInv(ks, es, n - 1);
      StepDefers(ks[n - 1], es[n - 1]);
      assert es[..n][..n - 1] == es[..n - 1];
      if forall i | 0 <= i <= n :: Depth(ks[0].ndefers, es[..i]) > 0 {
        DeferredStays(ks[n - 1], es[n - 1]);
      }
    } else {
      assert es[..0] == [];
    }
  }
}
