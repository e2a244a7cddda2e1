/** When a tick does not count for those who sleep on, and which calls bring that about. */
module SchedStall {
  import opened SchedLists
  import opened SchedState
  import opened SchedMoves
  import opened SchedSteps
  import opened SchedSems
  import opened SchedRun
  import opened SchedTime
  import opened SchedWake

  /** Behind the front no key is negative. */
  ghost predicate Later(ks: seq<int>) { forall i | 1 <= i < |ks| :: ks[i] >= 0 }

  // ---- lists of keys ------------------------------------------------------

  lemma PlaceLater(ks: seq<int>, d: int)
    ensures var (i, rest) := DeltaFrom(ks, d, 0); (i > 0 ==> rest >= 0) && (i < |ks| ==> ks[i] > rest)
  {
    if ks != [] && ks[0] <= d {
      DeltaPlace(ks, d - ks[0], 1);
    } else {
      DeltaPlace(ks, d, 0);
    }
  }

  lemma PutLater(ks: seq<int>, d: int)
    requires Later(ks)
    ensures Later(DeltaPut(ks, d))
  {
    PlaceLater(ks, d);
    hide DeltaFrom;
    var ls := DeltaPut(ks, d);
    var (i, rest) := DeltaFrom(ks, d, 0);
    assert forall x | 0 <= x < |ls| ::
        ls[x] == if x < i then ks[x] else if x == i then rest else if x == i + 1 then ks[i] - rest else ks[x - 1];
  }

  lemma CutLater(ks: seq<int>, i: nat)
    requires Later(ks) && i < |ks|
    ensures Later(DeltaCut(ks, i))
  {
    var ls := DeltaCut(ks, i);
    assert forall x | 0 <= x < |ls| :: ls[x] == if x < i then ks[x] else if x == i then ks[i] + ks[i + 1] else ks[x + 1];
  }

  lemma {:induction false} FrontSum(ks: seq<int>, i: nat)
    requires i < |ks| && forall x | 1 <= x <= i :: ks[x] == 0
    ensures Left(ks, i) == ks[0]
  {
    if i > 0 {
      FrontSum(ks, i - 1);
    }
  }

  /** One tick on a list of keys: whoever sleeps on has one tick less, or as much less as the front key when that is smaller. */
  lemma TickedLeft(ks: seq<int>, i: nat)
    requires Later(ks) && i < |ks|
    ensures var ls := ks[0 := ks[0] - 1]; var n := Expired(ls);
            i >= n ==> Left(ls[n..], i - n) == Left(ks, i) - if ks[0] >= 1 then 1 else ks[0]
  {
    var ls := ks[0 := ks[0] - 1];
    var n := Expired(ls);
    ExpiredIs(ls);
    LeftLowered(ks, i);
    if i >= n {
      LeftSuffix(ls, n, i);
      if n > 0 {
        FrontSum(ls, n - 1);
      }
    }
  }

  lemma TickedLater(ks: seq<int>)
    requires Later(ks) && ks != []
    ensures var ls := ks[0 := ks[0] - 1]; Later(ls[Expired(ls)..])
  {
    hide Expired;
  }

  // ---- every reachable sleep queue ----------------------------------------

  /** Only the front key can ever be negative, whatever delays are asked for. */
  lemma {:induction false} LaterAlways(ks: seq<Kern>, es: seq<Call>, n: nat)
    requires Run(ks, es) && Inv(ks[0]) && Later(SleepKeys(ks[0])) && n < |ks|
    ensures Later(SleepKeys(ks[n]))
  {
    hide Inv, Later, SleepKeys, Do, Allowed;
    if n > 0 {
      LaterAlways(ks, es, n - 1);
      RunInv(ks, es, n - 1);
      LaterKept(ks[n - 1], es[n - 1]);
    }
  }

  lemma LaterKept(k: Kern, e: Call)
    requires Inv(k) && Allowed(k, e) && Later(SleepKeys(k))
    ensures Later(SleepKeys(Do(k, e)))
  {
    InvParts(k);
    hide Inv, Steady, Later, SleepKeys, Left;
    if e.Tick? {
      TickLater(k);
    } else if Awake(k, e) {
      AwakeCalls(k, e);
    } else {
      SleepyLater(k, e);
    }
  }

  lemma TickLater(k: Kern)
    requires Steady(k) && Later(SleepKeys(k))
    ensures Later(SleepKeys(TickSleep(k)))
  {
    hide Steady, Later, Expired, SleepKeys, Left, Wakeup, Ticked;
    SleepSize(k);
    if k.qs.sleep != [] {
      TickMoves(k);
      TickedLater(SleepKeys(k));
    }
  }

  lemma CutStays(k: Kern, p: nat)
    requires Steady(k) && Later(SleepKeys(k)) && p in k.qs.sleep
    ensures Later(SleepKeys(Unsleep(k, p)))
  {
    hide Steady, Later, SleepKeys, DeltaCut, Unsleep;
    SleepSize(k);
    CutKeysOf(k, p);
    CutLater(SleepKeys(k), Find(k.qs.sleep, p));
  }

  lemma SleepyLater(k: Kern, e: Call)
    requires Steady(k) && Later(SleepKeys(k)) && !e.Tick? && !Awake(k, e)
    ensures Later(SleepKeys(Do(k, e)))
  {
    hide Steady, Later, SleepKeys, DeltaPut, DeltaCut, Resched, InsertSleep, Send, Unsleep, Left, Find;
    SleepSize(k);
    match e
    case Sleep(delay) =>
      DozeKeys(k, Int32(delay), SLEEP);
      PutLater(SleepKeys(k), Int32(delay));
    case RecvTime(maxwait) =>
      DozeKeys(k, maxwait, RECTIM);
      PutLater(SleepKeys(k), maxwait);
    case SendTo(x, msg) =>
      SendWakes(k, x, msg);
      CutStays(k, x);
    case KillOne(x) =>
      SleeperIn(k, x);
      CutStays(k, x);
      StateKeys(Unsleep(k, x), x, FREE);
  }

  // ---- ticks that do not count --------------------------------------------

  /** Every process still asleep after a tick has one tick less. */
  ghost predicate TickCounts(k: Kern) {
    forall p | p in k.qs.sleep && p in TickSleep(k).qs.sleep :: LeftOf(TickSleep(k), p) == LeftOf(k, p) - 1
  }

  lemma TickOne(k: Kern, p: nat)
    requires Inv(k) && Later(SleepKeys(k)) && p in k.qs.sleep && p in TickSleep(k).qs.sleep && SleepKeys(k) != []
    ensures LeftOf(TickSleep(k), p) == LeftOf(k, p) - if SleepKeys(k)[0] >= 1 then 1 else SleepKeys(k)[0]
  {
    hide Inv, Steady, Expired, SleepKeys, TickSleep, NoDup, Find, Left, Later;
    InvParts(k);
    SleepSize(k);
    SleepNoDup(k);
    var ks, r := SleepKeys(k), TickSleep(k);
    var n := Expired(ks[0 := ks[0] - 1]);
    TickMoves(k);
    var j := Find(r.qs.sleep, p);
    assert k.qs.sleep[n + j] == p;
    FindIs(k.qs.sleep, n + j);
    TickedLeft(ks, n + j);
  }

  /** For every sleep queue a run can reach: when somebody sleeps on, the tick counts exactly if the front delay is positive. */
  lemma TickCountsIff(k: Kern)
    requires Inv(k) && Later(SleepKeys(k)) && k.qs.sleep != [] && TickSleep(k).qs.sleep != []
    ensures SleepKeys(k) != [] && (TickCounts(k) <==> SleepKeys(k)[0] >= 1)
  {
    hide Inv, Steady, Expired, SleepKeys, TickSleep, NoDup, Find, Left, LeftOf, Later;
    SleepSize(k);
    var ks, r := SleepKeys(k), TickSleep(k);
    forall p | p in k.qs.sleep && p in r.qs.sleep
      ensures LeftOf(r, p) == LeftOf(k, p) - if ks[0] >= 1 then 1 else ks[0]
    {
      TickOne(k, p);
    }
    var p := r.qs.sleep[0];
    assert p in k.qs.sleep by { InvParts(k); TickMoves(k); }
    assert p in r.qs.sleep;
  }

  /** The delay a blocking call puts on the sleep queue: sleepms keeps 32 bits of it, as a signed number. */
  function DelayOf(e: Call): int {
    match e
    case Sleep(delay) => Int32(delay)
    case RecvTime(maxwait) => maxwait
    case _ => 1
  }

  lemma FrontPut(ks: seq<int>, d: int)
    requires Timely(ks)
    ensures DeltaPut(ks, d) != [] && (DeltaPut(ks, d)[0] >= 1 <==> d >= 1)
    ensures d <= 0 ==> DeltaPut(ks, d) == if ks == [] then [d] else [d, ks[0] - d] + ks[1..]
  {
  }

  lemma FrontGoes(ks: seq<int>, d: int)
    requires Timely(ks) && d <= 0
    ensures var ls := DeltaPut(ks, d); ls != [] && Expired(ls[0 := ls[0] - 1]) == 1
  {
    FrontPut(ks, d);
    var ls := DeltaPut(ks, d);
    var ms := ls[0 := ls[0] - 1];
    assert ks != [] ==> ms[1..][0] == ks[0] - d > 0;
  }

  /**
   A process goes to sleep: the next tick counts for those who sleep on exactly if its delay is positive. So recvtime(0),
   and sleepms with a delay from 2^31 to 2^32, take a tick away from everybody who was asleep.
   */
  lemma DelayStallsIff(k: Kern, e: Call)
    requires Inv(k) && MayBlock(k) && Timely(SleepKeys(k)) && !Awake(k, e) && (e.Sleep? || e.RecvTime?)
    ensures var r := Do(k, e);
            (TickSleep(r).qs.sleep != [] ==> (TickCounts(r) <==> DelayOf(e) > 0))
            && (DelayOf(e) <= 0 && k.qs.sleep != [] ==> TickSleep(r).qs.sleep != [] && !TickCounts(r))
  {
    hide Inv, Steady, Resched, InsertSleep, SleepKeys, DeltaFrom, DeltaPut, TickSleep, Expired, TickCounts, Later, Timely, Int32;
    InvParts(k);
    SleepSize(k);
    var ks, d, r := SleepKeys(k), DelayOf(e), Do(k, e);
    DozeKeys(k, d, if e.Sleep? then SLEEP else RECTIM);
    FrontPut(ks, d);
    SleepSize(r);
    StepInv(k, e);
    TimelyLater(ks);
    LaterKept(k, e);
    if d <= 0 {
      FrontGoes(ks, d);
      InvParts(r);
      TickMoves(r);
    }
    if TickSleep(r).qs.sleep != [] {
      TickCountsIff(r);
    }
  }

  lemma TimelyLater(ks: seq<int>)
    requires Timely(ks)
    ensures Later(ks)
  {
  }
}
