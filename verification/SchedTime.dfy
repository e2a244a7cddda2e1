/** The sleep queue as a clock: every sleeper wakes on exactly the tick it asked for. */
module SchedTime {
  import opened SchedLists
  import opened SchedState
  import opened SchedMoves
  import opened SchedSteps
  import opened SchedSems
  import opened SchedRun

  function SleepKeys(k: Kern): seq<int> { Keys(k.qs.sleep, k.key) }

  /** Ticks left for a sleeping process. */
  function LeftOf(k: Kern, p: nat): int
    requires p in k.qs.sleep
  {
    Left(SleepKeys(k), Find(k.qs.sleep, p))
  }

  /** Delays that have not run out, the first at least one tick away, all within 31 bits. */
  ghost predicate Timely(ks: seq<int>) {
    (forall i | 0 <= i < |ks| :: ks[i] >= 0)
    && (ks != [] ==> ks[0] >= 1 && Left(ks, |ks| - 1) < 0x8000_0000)
  }

  // ---- prefix sums --------------------------------------------------------

  lemma {:induction false} LeftGrows(ks: seq<int>, i: nat, j: nat)
    requires i <= j < |ks| && forall x | i < x <= j :: ks[x] >= 0
    ensures Left(ks, i) <= Left(ks, j)
    decreases j
  {
    if i < j {
      LeftGrows(ks, i, j - 1);
    }
  }

  lemma {:induction false} LeftLowered(ks: seq<int>, i: nat)
    requires i < |ks|
    ensures Left(ks[0 := ks[0] - 1], i) == Left(ks, i) - 1
  {
    if i > 0 {
      LeftLowered(ks, i - 1);
    }
  }

  lemma {:induction false} LeftSuffix(ks: seq<int>, n: nat, i: nat)
    requires n <= i < |ks|
    ensures Left(ks[n..], i - n) == Left(ks, i) - if n == 0 then 0 else Left(ks, n - 1)
    decreases i
  {
    if i > n {
      LeftSuffix(ks, n, i - 1);
    }
  }

  /** The expired prefix, and where it ends. */
  lemma {:induction false} ExpiredIs(ks: seq<int>)
    ensures forall i | 0 <= i < Expired(ks) :: ks[i] <= 0
    ensures Expired(ks) < |ks| ==> ks[Expired(ks)] > 0
    decreases |ks|
  {
    if ks != [] && ks[0] <= 0 {
      ExpiredIs(ks[1..]);
      assert forall i | 1 <= i < Expired(ks) :: ks[i] == ks[1..][i - 1];
    }
  }

  lemma {:induction false} ZeroPrefix(ks: seq<int>, i: nat)
    requires i < |ks| && forall x | 0 <= x <= i :: ks[x] == 0
    ensures Left(ks, i) == 0
  {
    if i > 0 {
      ZeroPrefix(ks, i - 1);
    }
  }

  /** One tick on a list of keys: those with one tick left go, the others have one less. */
  lemma TickKeys(ks: seq<int>, i: nat)
    requires Timely(ks) && i < |ks|
    ensures var ls := ks[0 := ks[0] - 1]; var n := Expired(ls);
            (i < n <==> Left(ks, i) == 1) && Left(ks, i) >= 1 && (i >= n ==> Left(ls[n..], i - n) == Left(ks, i) - 1)
  {
    var ls := ks[0 := ks[0] - 1];
    var n := Expired(ls);
    ExpiredIs(ls);
    LeftLowered(ks, i);
    hide Expired;
    if i < n {
      ZeroPrefix(ls, i);
    } else {
      if n > 0 {
        ZeroPrefix(ls, n - 1);
      }
      LeftSuffix(ls, n, i);
      LeftGrows(ls, n, i);
      LeftAt(ls, n);
    }
  }

  lemma LeftAt(ks: seq<int>, i: nat)
    requires i < |ks|
    ensures Left(ks, i) == ks[i] + if i == 0 then 0 else Left(ks, i - 1)
  {
  }

  lemma TickTimely(ks: seq<int>)
    requires Timely(ks) && ks != []
    ensures var ls := ks[0 := ks[0] - 1]; Timely(ls[Expired(ls)..])
  {
    var ls := ks[0 := ks[0] - 1];
    var n := Expired(ls);
    ExpiredIs(ls);
    var m := |ks| - 1;
    TickKeys(ks, m);
  }

  lemma PutTimely(ks: seq<int>, d: int)
    requires Timely(ks) && 1 <= d < 0x8000_0000
    ensures Timely(DeltaPut(ks, d))
  {
    hide DeltaFrom, Left;
    DeltaExact(ks, d, |ks|);
    DeltaPlace(ks, d, 0);
    var ls := DeltaPut(ks, d);
    var (i, rest) := DeltaFrom(ks, d, 0);
    FirstRest(ks, d);
    forall x | 0 <= x < |ls|
      ensures ls[x] >= 0
    {
      assert ls[x] == if x < i then ks[x] else if x == i then rest else if x == i + 1 then ks[i] - rest else ks[x - 1];
    }
  }

  lemma FirstRest(ks: seq<int>, d: int)
    ensures DeltaFrom(ks, d, 0).0 == 0 ==> DeltaFrom(ks, d, 0).1 == d
  {
  }

  lemma CutTimely(ks: seq<int>, i: nat)
    requires Timely(ks) && i < |ks|
    ensures Timely(DeltaCut(ks, i))
  {
    var ls := DeltaCut(ks, i);
    assert forall x | 0 <= x < |ls| ::
        ls[x] == if x < i then ks[x] else if x == i then ks[i] + ks[i + 1] else ks[x + 1];
    if |ks| > 1 {
      CutExact(ks, i, |ks| - 2);
      LeftAt(ks, |ks| - 1);
    }
  }

  // ---- calls that leave the sleep queue alone -----------------------------

  ghost predicate SleepSame(k: Kern, r: Kern) {
    r.qs.sleep == k.qs.sleep && SleepKeys(r) == SleepKeys(k)
  }

  lemma InsertReadySleep(k: Kern, p: nat)
    requires p !in k.qs.sleep
    ensures SleepSame(k, InsertReady(k, p))
  {
    if p < |k.key| {
      KeysFrame(k.qs.sleep, k.key, p, PrioOf(k, p));
    }
  }

  lemma ReschedSleep(k: Kern)
    requires StateOf(k, k.curr) == CURR ==> k.curr !in k.qs.sleep
    ensures SleepSame(k, Resched(k))
  {
    hide RankFrom, Put;
    if StateOf(k, k.curr) == CURR {
      InsertReadySleep(WithState(k, k.curr, READY), k.curr);
    }
  }

  lemma ReadySleep(k: Kern, p: nat)
    requires p !in k.qs.sleep && k.curr !in k.qs.sleep
    ensures SleepSame(k, Ready(k, p))
  {
    var k1 := WithState(k, p, READY);
    InsertReadySleep(k1, p);
    hide Resched;
    ReschedSleep(InsertReady(k1, p));
  }

  lemma AwakeNotAsleep(k: Kern, p: nat)
    requires Placed(k.procs, k.qs, -1) && p < |k.procs| && Home(k.procs[p]) != OnSleep
    ensures p !in k.qs.sleep
  {
    assert p in k.qs.sleep ==> p in Queue(k.qs, OnSleep);
  }

  lemma CurrentAwake(k: Kern)
    requires Steady(k)
    ensures k.curr !in k.qs.sleep
  {
    AwakeNotAsleep(k, k.curr);
  }

  lemma ReleaseSleep(k: Kern, s: nat)
    requires Steady(k)
    ensures SleepSame(k, Release(k, s))
  {
    CurrentAwake(k);
    var q := Queue(k.qs, OnSem(s));
    if q != [] {
      assert q[0] in Queue(k.qs, OnSem(s));
      AwakeNotAsleep(k, q[0]);
      hide Ready, Steady;
      ReadySleep(k.(qs := WithQueue(k.qs, OnSem(s), q[1..])), q[0]);
    }
  }

  lemma {:induction false} BumpsSleep(k: Kern, s: nat, n: nat)
    requires Steady(k) && Counted(k.sems, k.qs.semq) && s < |k.sems|
    ensures SleepSame(k, Bumps(k, s, n))
    decreases n
  {
    hide Steady, Counted, Bump, SleepKeys;
    if n > 0 {
      BumpSleep(k, s);
      BumpKeeps(k, s);
      BumpsSleep(Bump(k, s), s, n - 1);
    }
  }

  lemma BumpSleep(k: Kern, s: nat)
    requires Steady(k) && s < |k.sems|
    ensures SleepSame(k, Bump(k, s))
  {
    CountOnly(k, AddCount(k, s, 1).sems);
    hide Steady, Release;
    ReleaseSleep(AddCount(k, s, 1), s);
  }

  lemma {:induction false} DrainSleep(k: Kern, s: nat, n: nat)
    requires Steady(k) && s < |k.qs.semq| && n <= |k.qs.semq[s]|
    ensures SleepSame(k, Drain(k, s, n))
    decreases n
  {
    hide Steady, Release, SleepKeys;
    if n > 0 {
      ReleaseSleep(k, s);
      ReleaseSteady(k, s);
      DrainSleep(Release(k, s), s, n - 1);
    }
  }

  lemma DeferStopSleep(k: Kern)
    requires Steady(k)
    ensures SleepSame(k, DeferStop(k))
  {
    CurrentAwake(k);
    hide Steady, Resched;
    if k.ndefers > 0 {
      ReschedSleep(k.(ndefers := k.ndefers - 1));
    }
  }

  lemma SemCallsSleep(k: Kern, s: int, n: int)
    requires Inv(k) && Usable(k, s) && n >= 0
    ensures SleepSame(k, SignalMany(k, s, n)) && SleepSame(k, SignalSem(k, s))
  {
    InvParts(k);
    BumpSleep(k, s);
    hide Inv, Steady, Counted, Bumps, Bump, DeferStop, DeferStart;
    DeferStartSteady(k);
    DeferStartFrame(k);
    BumpsSleep(DeferStart(k), s, n);
    BumpsKeep(DeferStart(k), s, n);
    DeferStopSleep(Bumps(DeferStart(k), s, n));
  }

  lemma DeleteSleep(k: Kern, s: nat)
    requires Inv(k) && Usable(k, s)
    ensures SleepSame(k, DeleteSem(k, s))
  {
    InvParts(k);
    hide Inv, Steady, Counted, Bumps, DeferStop, DeferStart, DeleteSem;
    var k0, n := Unused(k, s), Rounds(k.sems[s]);
    DeleteStarts(k, s);
    DeferStartSteady(k0);
    DeferStartFrame(k0);
    BumpsSleep(DeferStart(k0), s, n);
    BumpsKeep(DeferStart(k0), s, n);
    DeferStopSleep(Bumps(DeferStart(k0), s, n));
  }

  lemma ResetSleep(k: Kern, s: nat, n: int)
    requires Inv(k) && Usable(k, s) && n >= 0
    ensures SleepSame(k, ResetSem(k, s, n))
  {
    InvParts(k);
    hide Inv, Steady, Drain, DeferStop, DeferStart;
    DeferStartSteady(k);
    DeferStartFrame(k);
    var w := |Queue(k.qs, OnSem(s))|;
    DrainSleep(DeferStart(k), s, w);
    DrainKeeps(DeferStart(k), s, w);
    var k1 := Drain(DeferStart(k), s, w);
    CountOnly(k1, SetCount(k1, s, n).sems);
    DeferStopSleep(SetCount(k1, s, n));
  }

  lemma WaitSleep(k: Kern, s: int)
    requires Steady(k)
    ensures SleepSame(k, WaitSem(k, s))
  {
    CurrentAwake(k);
    if Usable(k, s) {
      hide Resched, Steady;
      ReschedSleep(Block(AddCount(k, s, -1), s));
    }
  }

  lemma ResumeSleep(k: Kern, p: int)
    requires Steady(k)
    ensures SleepSame(k, Resume(k, p))
  {
    CurrentAwake(k);
    if p >= 0 && StateOf(k, p) == SUSP {
      AwakeNotAsleep(k, p);
      hide Ready;
      ReadySleep(k, p);
    }
  }

  lemma StateSleep(k: Kern, p: nat, st: PState)
    requires Steady(k)
    ensures SleepSame(k, Resched(WithState(k, p, st)))
  {
    CurrentAwake(k);
    hide Steady, Resched;
    ReschedSleep(WithState(k, p, st));
  }

  lemma SliceSleep(k: Kern)
    requires Steady(k)
    ensures SleepSame(k, TickSlice(k)) && SleepSame(k, Resched(k))
  {
    CurrentAwake(k);
    hide Steady, Resched;
    ReschedSleep(k);
    ReschedSleep(k.(preempt := QUANTUM));
  }

  /** Calls that put nobody on the sleep queue and take nobody off it. */
  predicate Awake(k: Kern, e: Call) {
    match e
    case Sleep(delay) => delay == 0
    case RecvTime(maxwait) => maxwait < 0 || (k.curr < |k.procs| && k.procs[k.curr].hasmsg)
    case Tick => false
    case SendTo(p, _) => p < 0 || StateOf(k, p) != RECTIM || k.procs[p].hasmsg
    case KillOne(p) => p <= 0 || (StateOf(k, p) != SLEEP && StateOf(k, p) != RECTIM)
    case _ => true
  }

  lemma AwakeCalls(k: Kern, e: Call)
    requires Inv(k) && Awake(k, e)
    ensures SleepSame(k, Do(k, e))
  {
    InvParts(k);
    hide Inv, Steady, Resched, Ready, WaitSem, SignalSem, SignalMany, ResetSem, DeleteSem, Resume;
    match e
    case Yield => SliceSleep(k);
    case Undefer => DeferStopSleep(k);
    case Wait(s) => WaitSleep(k, s);
    case Signal(s) => if Usable(k, s) { SemCallsSleep(k, s, 0); } else { NoEffect(k, e); }
    case SignalN(s, n) => if Usable(k, s) && n >= 0 { SemCallsSleep(k, s, n); } else { NoEffect(k, e); }
    case SemReset(s, n) => if Usable(k, s) && n >= 0 { ResetSleep(k, s, n); } else { NoEffect(k, e); }
    case SemDelete(s) => if Usable(k, s) { DeleteSleep(k, s); } else { NoEffect(k, e); }
    case Sleep(delay) => SliceSleep(k);
    case Slice => SliceSleep(k);
    case Res(p) => ResumeSleep(k, p);
    case SendTo(p, msg) => SendSleep(k, p, msg);
    case Recv => StateSleep(k, k.curr, RECV);
    case Susp(p) => if p > 0 { StateSleep(k, p, SUSP); }
    case KillOne(p) => if p > 0 { StateSleep(k, p, FREE); }
    case _ =>
  }

  lemma NoEffect(k: Kern, e: Call)
    requires (e.Signal? || e.SignalN? || e.SemReset? || e.SemDelete?) && (!Usable(k, e.s) || ((e.SignalN? || e.SemReset?) && e.n < 0))
    ensures Do(k, e) == k
  {
  }

  lemma SendSleep(k: Kern, p: int, msg: int)
    requires Steady(k) && Awake(k, SendTo(p, msg))
    ensures SleepSame(k, Send(k, p, msg))
  {
    CurrentAwake(k);
    if !(p < 0 || StateOf(k, p) == FREE || k.procs[p].hasmsg) && StateOf(k, p) == RECV {
      AwakeNotAsleep(k, p);
      hide Ready;
      ReadySleep(Deliver(k, p, msg), p);
    }
  }

  // ---- calls that change it -----------------------------------------------

  lemma SleepersInTable(k: Kern)
    requires Placed(k.procs, k.qs, -1)
    ensures NoDup(k.qs.sleep) && forall i | 0 <= i < |k.qs.sleep| :: k.qs.sleep[i] < |k.procs|
  {
    assert NoDup(Queue(k.qs, OnSleep));
    forall i | 0 <= i < |k.qs.sleep|
      ensures k.qs.sleep[i] < |k.procs|
    {
      assert k.qs.sleep[i] in Queue(k.qs, OnSleep);
    }
  }

  /** The current process on the sleep queue with delay `d`, and the processor given up. */
  function Dozing(k: Kern, d: int, st: PState): Kern {
    Resched(WithState(InsertSleep(k, k.curr, d), k.curr, st))
  }

  /** sleepms and recvtime: the keys afterwards are insertd's. */
  lemma DozeKeys(k: Kern, d: int, st: PState)
    requires Steady(k) && (st == SLEEP || st == RECTIM)
    ensures var r := Dozing(k, d, st); var i := DeltaFrom(SleepKeys(k), d, 0).0;
            r.qs.sleep == Put(k.qs.sleep, i, k.curr) && SleepKeys(r) == DeltaPut(SleepKeys(k), d)
  {
    CurrentAwake(k);
    SleepersInTable(k);
    DeltaKeysAre(k.qs.sleep, k.key, k.curr, d);
    hide Resched, DeltaFrom, DeltaKeys, DeltaPut, Steady;
    ReschedSleep(WithState(InsertSleep(k, k.curr, d), k.curr, st));
  }

  lemma CutKeysOf(k: Kern, p: nat)
    requires Steady(k) && p in k.qs.sleep
    ensures var r := Unsleep(k, p); var i := Find(k.qs.sleep, p);
            r.qs.sleep == Drop(k.qs.sleep, i) && SleepKeys(r) == DeltaCut(SleepKeys(k), i)
  {
    SleepersInTable(k);
    CutKeysAre(k.qs.sleep, k.key, Find(k.qs.sleep, p));
  }

  lemma SleepNoDup(k: Kern)
    requires Steady(k)
    ensures NoDup(k.qs.sleep)
  {
    SleepersInTable(k);
  }

  lemma FindAfterPut(s: seq<nat>, i: nat, x: nat, p: nat)
    requires NoDup(s) && i <= |s| && x !in s
    ensures Find(Put(s, i, x), x) == i
    ensures p in s ==> p in Put(s, i, x) && Find(Put(s, i, x), p) == if Find(s, p) < i then Find(s, p) else Find(s, p) + 1
  {
    var t := Put(s, i, x);
    PutMembers(s, i, x);
    FindIs(t, i);
    if p in s {
      var j := Find(s, p);
      FindIs(t, if j < i then j else j + 1);
    }
  }

  lemma FindAfterDrop(s: seq<nat>, i: nat, p: nat)
    requires NoDup(s) && i < |s| && p in s && p != s[i]
    ensures p in Drop(s, i) && Find(Drop(s, i), p) == if Find(s, p) < i then Find(s, p) else Find(s, p) - 1
  {
    var j := Find(s, p);
    DropMembers(s, i);
    FindIs(Drop(s, i), if j < i then j else j - 1);
  }

  /** Going to sleep sets one's own time and nobody else's. */
  lemma DozeExact(k: Kern, d: int, st: PState, p: nat)
    requires Steady(k) && (st == SLEEP || st == RECTIM)
    ensures var r := Dozing(k, d, st);
            k.curr in r.qs.sleep && LeftOf(r, k.curr) == d
            && (p in k.qs.sleep ==> p in r.qs.sleep && LeftOf(r, p) == LeftOf(k, p))
  {
    hide Steady, Dozing, DeltaFrom, DeltaPut, Put, SleepKeys, Left, Find, NoDup;
    SleepSize(k);
    var ks := SleepKeys(k);
    var i := DeltaFrom(ks, d, 0).0;
    CurrentAwake(k);
    SleepNoDup(k);
    DozeKeys(k, d, st);
    FindAfterPut(k.qs.sleep, i, k.curr, p);
    PutMembers(k.qs.sleep, i, k.curr);
    DeltaExact(ks, d, i);
    if p in k.qs.sleep {
      var j := Find(k.qs.sleep, p);
      DeltaExact(ks, d, if j < i then j else j + 1);
    }
  }

  /** Taking one process off the sleep queue changes nobody else's time. */
  lemma UnsleepExact(k: Kern, x: nat, p: nat)
    requires Steady(k) && x in k.qs.sleep && p in k.qs.sleep && p != x
    ensures p in Unsleep(k, x).qs.sleep && LeftOf(Unsleep(k, x), p) == LeftOf(k, p)
  {
    hide Steady, Unsleep, DeltaCut, Drop, Find, Left, NoDup, SleepKeys;
    SleepSize(k);
    SleepNoDup(k);
    CutKeysOf(k, x);
    var i, j := Find(k.qs.sleep, x), Find(k.qs.sleep, p);
    assert i != j;
    FindAfterDrop(k.qs.sleep, i, p);
    CutExact(SleepKeys(k), i, if j < i then j else j - 1);
  }

  lemma SleeperOf(k: Kern, p: nat)
    requires Placed(k.procs, k.qs, -1) && p < |k.procs| && Home(k.procs[p]) == OnSleep
    ensures p in k.qs.sleep
  {
    assert p in Queue(k.qs, OnSleep);
  }

  lemma SendWakes(k: Kern, p: int, msg: int)
    requires Steady(k) && p >= 0 && StateOf(k, p) == RECTIM && !k.procs[p].hasmsg
    ensures p in k.qs.sleep && SleepSame(Unsleep(k, p), Send(k, p, msg))
  {
    SleeperOf(k, p);
    SleepersInTable(k);
    CurrentAwake(k);
    DropMembers(k.qs.sleep, Find(k.qs.sleep, p));
    var k1 := Unsleep(Deliver(k, p, msg), p);
    assert SleepSame(Unsleep(k, p), k1);
    hide Steady, Ready, Unsleep;
    assert k1.qs.sleep == Without(k.qs.sleep, p) && k1.curr == k.curr by { UnsleepFrame(Deliver(k, p, msg), p); }
    ReadySleep(k1, p);
  }

  lemma UnsleepFrame(k: Kern, p: nat)
    ensures Unsleep(k, p).qs.sleep == Without(k.qs.sleep, p) && Unsleep(k, p).curr == k.curr
  {
  }

  /** Before each tick, nobody else's calls change how long a process has left. */
  lemma OthersKeepTime(k: Kern, e: Call, p: nat)
    requires Inv(k) && p in k.qs.sleep && !e.Tick? && e != KillOne(p) && (e.SendTo? ==> e.p != p)
    ensures p in Do(k, e).qs.sleep && LeftOf(Do(k, e), p) == LeftOf(k, p)
  {
    InvParts(k);
    hide Inv, Steady;
    if Awake(k, e) {
      AwakeCalls(k, e);
      hide Do;
    } else {
      SleepyCalls(k, e, p);
    }
  }

  lemma SleepyCalls(k: Kern, e: Call, p: nat)
    requires Steady(k) && p in k.qs.sleep && !e.Tick? && e != KillOne(p) && (e.SendTo? ==> e.p != p) && !Awake(k, e)
    ensures p in Do(k, e).qs.sleep && LeftOf(Do(k, e), p) == LeftOf(k, p)
  {
    hide Steady, Resched, InsertSleep, Unsleep, Send, LeftOf;
    match e
    case Sleep(delay) => DozeExact(k, Int32(delay), SLEEP, p);
    case RecvTime(maxwait) => DozeExact(k, maxwait, RECTIM, p);
    case SendTo(x, msg) =>
      SendWakes(k, x, msg);
      UnsleepExact(k, x, p);
      SameLeft(Unsleep(k, x), Do(k, e), p);
    case KillOne(x) =>
      SleeperThere(k, x);
      UnsleepExact(k, x, p);
      SameLeft(Unsleep(k, x), Do(k, e), p);
  }

  lemma SameLeft(k: Kern, r: Kern, p: nat)
    requires p in k.qs.sleep && (SleepSame(k, r) || (r.qs == k.qs && r.key == k.key))
    ensures p in r.qs.sleep && LeftOf(r, p) == LeftOf(k, p)
  {
  }

  lemma SleeperThere(k: Kern, p: nat)
    requires Steady(k) && p < |k.procs| && Home(k.procs[p]) == OnSleep
    ensures p in k.qs.sleep
  {
    SleeperOf(k, p);
  }

  // ---- the tick -----------------------------------------------------------

  lemma WakeFirstSleep(k: Kern)
    requires Steady(k) && k.qs.sleep != [] && k.ndefers > 0
    ensures var r := WakeFirst(k);
            r.qs.sleep == k.qs.sleep[1..] && SleepKeys(r) == SleepKeys(k)[1..]
            && (forall p | p in k.qs.ready :: p in r.qs.ready) && k.qs.sleep[0] in r.qs.ready
  {
    var p := k.qs.sleep[0];
    SleepersInTable(k);
    CurrentAwake(k);
    var k1 := k.(qs := k.qs.(sleep := k.qs.sleep[1..]));
    assert p !in k1.qs.sleep && k.curr !in k1.qs.sleep;
    assert SleepKeys(k1) == SleepKeys(k)[1..];
    hide Steady, SleepKeys;
    ReadySleep(k1, p);
    var i := RankFrom(Keys(k.qs.ready, k.key), PrioOf(k1, p), 0);
    assert Ready(k1, p).qs.ready == Put(k.qs.ready, i, p);
    hide Ready;
    assert Put(k.qs.ready, i, p)[i] == p;
    forall q | q in k.qs.ready
      ensures q in Put(k.qs.ready, i, p)
    {
    }
  }

  lemma {:induction false} WakeSomeSleep(k: Kern, n: nat)
    requires Steady(k) && k.ndefers > 0 && n <= |k.qs.sleep|
    ensures var r := WakeSome(k, n);
            r.qs.sleep == k.qs.sleep[n..] && SleepKeys(r) == SleepKeys(k)[n..]
            && (forall p | p in k.qs.ready :: p in r.qs.ready)
            && (forall p | p in k.qs.sleep[..n] :: p in r.qs.ready)
    decreases n
  {
    hide Steady, WakeFirst, SleepKeys;
    if n > 0 {
      WakeFirstSleep(k);
      WakeFirstSteady(k);
      assert |SleepKeys(k)| == |k.qs.sleep| by { SleepSize(k); }
      WakeSomeSleep(WakeFirst(k), n - 1);
      assert k.qs.sleep[..n] == [k.qs.sleep[0]] + k.qs.sleep[1..][..n - 1];
    }
  }

  lemma SleepSize(k: Kern)
    ensures |SleepKeys(k)| == |k.qs.sleep|
  {
  }

  /** After resched, everybody who was ready is ready or running. */
  lemma StopRuns(k: Kern, p: nat)
    requires p in k.qs.ready
    ensures p in DeferStop(k).qs.ready || p == DeferStop(k).curr
  {
    hide Resched;
    if k.ndefers == 1 && k.attempt {
      ReschedRuns(k.(ndefers := 0), p);
    }
  }

  lemma ReschedRuns(k: Kern, p: nat)
    requires p in k.qs.ready
    ensures p in Resched(k).qs.ready || p == Resched(k).curr
  {
    hide Switch, RankFrom;
    var k2 := InsertReady(WithState(k, k.curr, READY), k.curr);
    assert p in k2.qs.ready by { StaysIn(k.qs.ready, RankFrom(Keys(k.qs.ready, k.key), PrioOf(k, k.curr), 0), k.curr, p); }
    SwitchRuns(k, p);
    SwitchRuns(k2, p);
  }

  lemma StaysIn(s: seq<nat>, i: nat, x: nat, p: nat)
    requires i <= |s| && p in s
    ensures p in Put(s, i, x)
  {
  }

  lemma SwitchRuns(k: Kern, p: nat)
    requires p in k.qs.ready
    ensures p in Switch(k).qs.ready || p == Switch(k).curr
  {
  }

  /** The front key lowered by one. */
  function Ticked(k: Kern): Kern {
    if k.qs.sleep == [] then k else k.(key := WithKey(k.key, k.qs.sleep[0], KeyOf(k.key, k.qs.sleep[0]) - 1))
  }

  lemma FirstLowered(s: seq<nat>, key: seq<int>)
    requires NoDup(s) && s != [] && s[0] < |key|
    ensures Keys(s, WithKey(key, s[0], KeyOf(key, s[0]) - 1)) == Keys(s, key)[0 := Keys(s, key)[0] - 1]
  {
    assert forall i | 0 < i < |s| :: s[i] != s[0];
  }

  lemma TickedKeys(k: Kern)
    requires Steady(k) && k.qs.sleep != []
    ensures SleepKeys(Ticked(k)) == SleepKeys(k)[0 := SleepKeys(k)[0] - 1]
    ensures Steady(Ticked(k)) && Ticked(k).qs == k.qs
    ensures TickSleep(k) == if SleepKeys(Ticked(k))[0] <= 0 then Wakeup(Ticked(k)) else Ticked(k)
  {
    SleepInKeys(k);
    hide Steady, Wakeup, WithKey, NoDup;
    TickKeySteady(k);
    FirstLowered(k.qs.sleep, k.key);
  }

  lemma SleepInKeys(k: Kern)
    requires Steady(k)
    ensures NoDup(k.qs.sleep) && forall i | 0 <= i < |k.qs.sleep| :: k.qs.sleep[i] < |k.key|
  {
    SleepersInTable(k);
  }

  lemma NoneExpired(ks: seq<int>)
    requires ks != [] && ks[0] > 0
    ensures Expired(ks) == 0 && ks[0..] == ks
  {
  }

  /** clkhandler on the sleep queue. */
  lemma TickMoves(k: Kern)
    requires Steady(k) && k.qs.sleep != []
    ensures var ks := SleepKeys(k); var ls := ks[0 := ks[0] - 1]; var n := Expired(ls); var r := TickSleep(k);
            r.qs.sleep == k.qs.sleep[n..] && SleepKeys(r) == ls[n..]
            && forall p | p in k.qs.sleep[..n] :: p in r.qs.ready || p == r.curr
  {
    SleepSize(k);
    var ks := SleepKeys(k);
    var ls := ks[0 := ks[0] - 1];
    hide Steady, SleepKeys, Wakeup, TickSleep, Ticked, Expired;
    TickedKeys(k);
    if ls[0] <= 0 {
      WakeupMoves(Ticked(k));
    } else {
      NoneExpired(ls);
      assert k.qs.sleep[0..] == k.qs.sleep && k.qs.sleep[..0] == [];
    }
  }

  lemma WakeupMoves(k: Kern)
    requires Steady(k)
    ensures var n := Expired(SleepKeys(k)); var r := Wakeup(k);
            n <= |k.qs.sleep| && r.qs.sleep == k.qs.sleep[n..] && SleepKeys(r) == SleepKeys(k)[n..]
            && forall p | p in k.qs.sleep[..n] :: p in r.qs.ready || p == r.curr
  {
    SleepSize(k);
    var n := Expired(SleepKeys(k));
    var k2 := WakeSome(DeferStart(k), n);
    assert SleepKeys(k) == Keys(k.qs.sleep, k.key) && SleepKeys(DeferStart(k)) == SleepKeys(k);
    hide Steady, SleepKeys, WakeSome, DeferStop, Expired, DeferStart;
    DeferStartSteady(k);
    DeferStartFrame(k);
    WakeSomeSleep(DeferStart(k), n);
    WakeSomeSteady(DeferStart(k), n);
    DeferStopSleep(k2);
    forall p | p in k.qs.sleep[..n]
      ensures p in DeferStop(k2).qs.ready || p == DeferStop(k2).curr
    {
      StopRuns(k2, p);
    }
  }
}
