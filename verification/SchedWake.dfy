/** Sleepers wake on time in every run. */
module SchedWake {
  import opened SchedLists
  import opened SchedState
  import opened SchedMoves
  import opened SchedSteps
  import opened SchedSems
  import opened SchedRun
  import opened SchedTime

  /** One tick: a process with one tick left becomes ready, everybody else has one tick less. */
  lemma TickExact(k: Kern, p: nat)
    requires Inv(k) && Timely(SleepKeys(k)) && p in k.qs.sleep
    ensures var r := TickSleep(k);
            if LeftOf(k, p) > 1 then p in r.qs.sleep && LeftOf(r, p) == LeftOf(k, p) - 1
            else LeftOf(k, p) == 1 && (StateOf(r, p) == READY || StateOf(r, p) == CURR)
  {
    hide Inv, Steady, Timely, Expired, SleepKeys, TickSleep, Left, Find, NoDup;
    InvParts(k);
    SleepSize(k);
    SleepNoDup(k);
    var ks, i := SleepKeys(k), Find(k.qs.sleep, p);
    var n := Expired(ks[0 := ks[0] - 1]);
    TickMoves(k);
    TickKeys(ks, i);
    if i >= n {
      FindTail(k.qs.sleep, n, i);
    } else {
      assert k.qs.sleep[..n][i] == p;
      StepInv(k, Tick);
      DoTick(k);
      RunningOrReady(TickSleep(k), p);
    }
  }

  lemma FindTail(s: seq<nat>, n: nat, i: nat)
    requires NoDup(s) && n <= i < |s|
    ensures s[i] in s[n..] && Find(s[n..], s[i]) == i - n
  {
    assert s[n..][i - n] == s[i];
    FindIs(s[n..], i - n);
  }

  lemma RunningOrReady(k: Kern, p: nat)
    requires Inv(k) && (p in k.qs.ready || p == k.curr)
    ensures StateOf(k, p) == READY || StateOf(k, p) == CURR
  {
    assert p in k.qs.ready ==> p in Queue(k.qs, OnReady);
    assert p in k.qs.ready ==> Home(k.procs[p]) == OnReady;
  }

  /** Delays within the range the kernel promises to honour. */
  predicate Proper(e: Call) {
    match e
    case Sleep(delay) => delay < 0x8000_0000
    case RecvTime(maxwait) => maxwait != 0 && maxwait < 0x8000_0000
    case _ => true
  }

  lemma TimelyKept(k: Kern, e: Call)
    requires Inv(k) && Allowed(k, e) && Proper(e) && Timely(SleepKeys(k))
    ensures Timely(SleepKeys(Do(k, e)))
  {
    InvParts(k);
    hide Inv, Steady, Timely, SleepKeys, Left;
    if e.Tick? {
      TickKept(k);
    } else if Awake(k, e) {
      AwakeCalls(k, e);
    } else {
      SleepyKept(k, e);
    }
  }

  lemma TickKept(k: Kern)
    requires Steady(k) && Timely(SleepKeys(k))
    ensures Timely(SleepKeys(TickSleep(k)))
  {
    hide Steady, Timely, Expired, SleepKeys, Left, Wakeup, Ticked;
    SleepSize(k);
    if k.qs.sleep != [] {
      TickMoves(k);
      TickTimely(SleepKeys(k));
    }
  }

  lemma SleepyKept(k: Kern, e: Call)
    requires Steady(k) && Timely(SleepKeys(k)) && Proper(e) && !e.Tick? && !Awake(k, e)
    ensures Timely(SleepKeys(Do(k, e)))
  {
    hide Steady, Timely, SleepKeys, DeltaPut, DeltaCut, Resched, InsertSleep, Send, Unsleep, Left, Find;
    SleepSize(k);
    match e
    case Sleep(delay) =>
      DozeKeys(k, delay, SLEEP);
      PutTimely(SleepKeys(k), delay);
    case RecvTime(maxwait) =>
      DozeKeys(k, maxwait, RECTIM);
      PutTimely(SleepKeys(k), maxwait);
    case SendTo(x, msg) =>
      SendWakes(k, x, msg);
      CutKept(k, x);
    case KillOne(x) =>
      SleeperIn(k, x);
      CutKept(k, x);
      StateKeys(Unsleep(k, x), x, FREE);
  }

  lemma StateKeys(k: Kern, p: nat, st: PState)
    ensures SleepKeys(WithState(k, p, st)) == SleepKeys(k)
  {
  }

  lemma SleeperIn(k: Kern, p: nat)
    requires Steady(k) && p < |k.procs| && Home(k.procs[p]) == OnSleep
    ensures p in k.qs.sleep
  {
    SleeperOf(k, p);
  }

  lemma CutKept(k: Kern, p: nat)
    requires Steady(k) && Timely(SleepKeys(k)) && p in k.qs.sleep
    ensures Timely(SleepKeys(Unsleep(k, p)))
  {
    hide Steady, Timely, SleepKeys, DeltaCut, Unsleep;
    SleepSize(k);
    CutKeysOf(k, p);
    CutTimely(SleepKeys(k), Find(k.qs.sleep, p));
  }

  function Ticks(es: seq<Call>): nat {
    if es == [] then 0 else Ticks(es[..|es| - 1]) + if es[|es| - 1].Tick? then 1 else 0
  }

  lemma TicksStep(es: seq<Call>, n: nat)
    requires n < |es|
    ensures Ticks(es[..n + 1]) == Ticks(es[..n]) + if es[n].Tick? then 1 else 0
  {
    assert es[..n + 1][..n] == es[..n];
  }

  /** Nobody kills the process or sends it a message. */
  predicate Undisturbed(e: Call, p: nat) { e != KillOne(p) && (e.SendTo? ==> e.p != p) }

  /** A process with `d` ticks to go sleeps on, with one tick less after each, until the `d`-th tick makes it ready. */
  lemma {:induction false} WakesOnTime(ks: seq<Kern>, es: seq<Call>, n: nat, p: nat, d: int)
    requires Run(ks, es) && Inv(ks[0]) && Timely(SleepKeys(ks[0])) && n < |ks|
    requires p in ks[0].qs.sleep && LeftOf(ks[0], p) == d
    requires forall i | 0 <= i < n :: Proper(es[i]) && Undisturbed(es[i], p)
    ensures Timely(SleepKeys(ks[n]))
    ensures Ticks(es[..n]) < d ==> p in ks[n].qs.sleep && LeftOf(ks[n], p) == d - Ticks(es[..n])
    ensures n > 0 && Ticks(es[..n - 1]) == d - 1 && es[n - 1].Tick? ==>
              StateOf(ks[n], p) == READY || StateOf(ks[n], p) == CURR
  {
    hide Inv, Timely, SleepKeys, LeftOf, Ticks, Do, Allowed;
    if n == 0 {
      assert es[..0] == [];
      NoTicks();
    } else {
      WakesOnTime(ks, es, n - 1, p, d);
      RunInv(ks, es, n - 1);
      TicksStep(es, n - 1);
      var k, e := ks[n - 1], es[n - 1];
      assert Proper(e) && Undisturbed(e, p);
      TimelyKept(k, e);
      if Ticks(es[..n - 1]) < d {
        if e.Tick? {
          TickExact(k, p);
          DoTick(k);
        } else {
          OthersKeepTime(k, e, p);
        }
      }
    }
  }

  lemma NoTicks()
    ensures Ticks([]) == 0
  {
  }

  lemma DoTick(k: Kern)
    ensures Do(k, Tick) == TickSleep(k)
  {
  }

  /** sleepms(d) puts the caller to sleep with exactly `d` ticks to go, for every delay that fits in 31 bits. */
  lemma SleepSetsTime(k: Kern, d: nat)
    requires Inv(k) && MayBlock(k) && 0 < d < 0x8000_0000
    ensures k.curr in Do(k, Sleep(d)).qs.sleep && LeftOf(Do(k, Sleep(d)), k.curr) == d
  {
    hide Inv, Steady, LeftOf, Resched, InsertSleep;
    InvParts(k);
    DozeExact(k, d, SLEEP, k.curr);
  }

  /** recvtime(d) without a message waiting does the same, so that WakesOnTime holds of it: after `d` ticks it gives up. */
  lemma RecvSetsTime(k: Kern, d: nat)
    requires Inv(k) && MayBlock(k) && 0 < d < 0x8000_0000 && k.curr < |k.procs| && !k.procs[k.curr].hasmsg
    ensures k.curr in Do(k, RecvTime(d)).qs.sleep && LeftOf(Do(k, RecvTime(d)), k.curr) == d
  {
    hide Inv, Steady, LeftOf, Resched, InsertSleep;
    InvParts(k);
    DozeExact(k, d, RECTIM, k.curr);
  }
}
