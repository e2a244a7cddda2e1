/**
 Processes, semaphores, the ready list, the sleep list and the scheduler as one value, and
 the system calls as functions on it. Interrupts are off inside every call, so a call is one
 step, up to and including the switch to another process that may end it.
 */
module SchedState {
  import opened SchedLists

  datatype PState = FREE | CURR | READY | RECV | SLEEP | SUSP | WAIT | RECTIM

  datatype Proc = Proc(state: PState, prio: int, sem: nat, hasmsg: bool, msg: int)

  datatype Sem = Sem(used: bool, count: int)

  /** The ready list, the sleep list and one queue per semaphore. */
  datatype Queues = Queues(ready: seq<nat>, sleep: seq<nat>, semq: seq<seq<nat>>)

  datatype Kern = Kern(
    procs: seq<Proc>, sems: seq<Sem>, qs: Queues, key: seq<int>,
    curr: nat, ndefers: nat, attempt: bool, preempt: int)

  const NULLPROC: nat := 0
  const QUANTUM := 2

  /** The queue a process in a given state belongs to. */
  datatype Place = Nowhere | OnReady | OnSleep | OnSem(s: nat)

  function Home(pr: Proc): Place {
    match pr.state
    case READY => OnReady
    case SLEEP => OnSleep
    case RECTIM => OnSleep
    case WAIT => OnSem(pr.sem)
    case _ => Nowhere
  }

  function Queue(qs: Queues, pl: Place): seq<nat> {
    match pl
    case Nowhere => []
    case OnReady => qs.ready
    case OnSleep => qs.sleep
    case OnSem(s) => if s < |qs.semq| then qs.semq[s] else []
  }

  function WithQueue(qs: Queues, pl: Place, q: seq<nat>): Queues {
    match pl
    case Nowhere => qs
    case OnReady => qs.(ready := q)
    case OnSleep => qs.(sleep := q)
    case OnSem(s) => if s < |qs.semq| then qs.(semq := qs.semq[s := q]) else qs
  }

  function StateOf(k: Kern, p: nat): PState {
    if p < |k.procs| then k.procs[p].state else FREE
  }

  function WithState(k: Kern, p: nat, st: PState): Kern {
    if p < |k.procs| then k.(procs := k.procs[p := k.procs[p].(state := st)]) else k
  }

  function PrioOf(k: Kern, p: nat): int {
    if p < |k.procs| then k.procs[p].prio else 0
  }

  /** getitem: out of the queue it is on. */
  function Unlink(k: Kern, p: nat, pl: Place): Kern {
    k.(qs := WithQueue(k.qs, pl, Without(Queue(k.qs, pl), p)))
  }

  // ---- ready list and switching -------------------------------------------

  /** insert on the ready list. */
  function InsertReady(k: Kern, p: nat): Kern {
    var i := RankFrom(Keys(k.qs.ready, k.key), PrioOf(k, p), 0);
    k.(qs := k.qs.(ready := Put(k.qs.ready, i, p)), key := WithKey(k.key, p, PrioOf(k, p)))
  }

  /** The head of the ready list becomes current. */
  function Switch(k: Kern): Kern {
    if k.qs.ready == [] then k
    else WithState(k.(curr := k.qs.ready[0], qs := k.qs.(ready := k.qs.ready[1..]), preempt := QUANTUM), k.qs.ready[0], CURR)
  }

  function FirstKey(k: Kern): int {
    if k.qs.ready == [] then MINKEY else KeyOf(k.key, k.qs.ready[0])
  }

  /** resched */
  function Resched(k: Kern): Kern {
    if k.ndefers > 0 then k.(attempt := true)
    else if StateOf(k, k.curr) == CURR then
      if PrioOf(k, k.curr) > FirstKey(k) then k
      else Switch(InsertReady(WithState(k, k.curr, READY), k.curr))
    else Switch(k)
  }

  /** ready, for a process that exists and is on no queue */
  function Ready(k: Kern, p: nat): Kern {
    Resched(InsertReady(WithState(k, p, READY), p))
  }

  /** resched_cntl(DEFER_START) */
  function DeferStart(k: Kern): Kern {
    k.(ndefers := k.ndefers + 1, attempt := k.ndefers > 0 && k.attempt)
  }

  /** resched_cntl(DEFER_STOP) */
  function DeferStop(k: Kern): Kern {
    if k.ndefers == 0 then k
    else
      var k1 := k.(ndefers := k.ndefers - 1);
      if k1.ndefers == 0 && k1.attempt then Resched(k1) else k1
  }

  // ---- semaphores ---------------------------------------------------------

  predicate Usable(k: Kern, s: int) { 0 <= s < |k.sems| && k.sems[s].used }

  function AddCount(k: Kern, s: nat, n: int): Kern {
    if s < |k.sems| then k.(sems := k.sems[s := k.sems[s].(count := k.sems[s].count + n)]) else k
  }

  /** enqueue at the tail of a semaphore's queue, in state WAIT. */
  function Block(k: Kern, s: nat): Kern {
    var k1 := if k.curr < |k.procs| then k.(procs := k.procs[k.curr := k.procs[k.curr].(state := WAIT, sem := s)]) else k;
    k1.(qs := WithQueue(k1.qs, OnSem(s), Queue(k1.qs, OnSem(s)) + [k.curr]))
  }

  /** wait */
  function WaitSem(k: Kern, s: int): Kern {
    if !Usable(k, s) then k
    else
      var k1 := AddCount(k, s, -1);
      if k1.sems[s].count < 0 then Resched(Block(k1, s)) else k1
  }

  /** Take the head of a semaphore's queue and make it ready. */
  function Release(k: Kern, s: nat): Kern {
    var q := Queue(k.qs, OnSem(s));
    if q == [] then k else Ready(k.(qs := WithQueue(k.qs, OnSem(s), q[1..])), q[0])
  }

  /** One increment of the count, releasing a waiter if there was one. */
  function Bump(k: Kern, s: nat): Kern {
    if s < |k.sems| && k.sems[s].count < 0 then Release(AddCount(k, s, 1), s) else AddCount(k, s, 1)
  }

  /** signal */
  function SignalSem(k: Kern, s: int): Kern {
    if !Usable(k, s) then k else Bump(k, s)
  }

  function Bumps(k: Kern, s: nat, n: nat): Kern
    decreases n
  {
    if n == 0 then k else Bumps(Bump(k, s), s, n - 1)
  }

  /** signaln */
  function SignalMany(k: Kern, s: int, n: int): Kern {
    if !Usable(k, s) || n < 0 then k else DeferStop(Bumps(DeferStart(k), s, n))
  }

  function SetCount(k: Kern, s: nat, n: int): Kern {
    if s < |k.sems| then k.(sems := k.sems[s := k.sems[s].(count := n)]) else k
  }

  function WithUse(k: Kern, s: nat, used: bool): Kern {
    if s < |k.sems| then k.(sems := k.sems[s := k.sems[s].(used := used)]) else k
  }

  /** semdelete */
  function DeleteSem(k: Kern, s: int): Kern {
    if !Usable(k, s) then k
    else
      var c := k.sems[s].count;
      DeferStop(Bumps(DeferStart(WithUse(k, s, false)), s, if c < 0 then -c + 1 else 1))
  }

  /** Releasing `n` waiters without touching the count. */
  function Drain(k: Kern, s: nat, n: nat): Kern
    decreases n
  {
    if n == 0 then k else Drain(Release(k, s), s, n - 1)
  }

  /** semreset */
  function ResetSem(k: Kern, s: int, n: int): Kern {
    if !Usable(k, s) || n < 0 then k
    else DeferStop(SetCount(Drain(DeferStart(k), s, |Queue(k.qs, OnSem(s))|), s, n))
  }

  /** semcreate, for the entry newsem found */
  function CreateSem(k: Kern, s: int, n: int): Kern {
    if 0 <= s < |k.sems| && !k.sems[s].used && n >= 0 then SetCount(WithUse(k, s, true), s, n) else k
  }

  // ---- sleeping -----------------------------------------------------------

  /** insertd on the sleep queue. */
  function InsertSleep(k: Kern, p: nat, d: int): Kern {
    k.(qs := k.qs.(sleep := Put(k.qs.sleep, DeltaFrom(Keys(k.qs.sleep, k.key), d, 0).0, p)), key := DeltaKeys(k.qs.sleep, k.key, p, d))
  }

  /** unsleep: the successor's key absorbs the one removed. */
  function Unsleep(k: Kern, p: nat): Kern {
    k.(key := CutKeys(k.qs.sleep, k.key, p), qs := k.qs.(sleep := Without(k.qs.sleep, p)))
  }

  function Int32(n: nat): int {
    if n % 0x1_0000_0000 < 0x8000_0000 then n % 0x1_0000_0000 else n % 0x1_0000_0000 - 0x1_0000_0000
  }

  /** sleepms */
  function SleepFor(k: Kern, delay: nat): Kern {
    if delay == 0 then Resched(k)
    else Resched(WithState(InsertSleep(k, k.curr, Int32(delay)), k.curr, SLEEP))
  }

  /** The front sleeper's key has run out: it leaves the sleep queue for the ready list. */
  function WakeFirst(k: Kern): Kern {
    if k.qs.sleep == [] then k else Ready(k.(qs := k.qs.(sleep := k.qs.sleep[1..])), k.qs.sleep[0])
  }

  function Expired(ks: seq<int>): (n: nat)
    ensures n <= |ks|
  {
    if ks != [] && ks[0] <= 0 then 1 + Expired(ks[1..]) else 0
  }

  function WakeSome(k: Kern, n: nat): Kern
    decreases n
  {
    if n == 0 then k else WakeSome(WakeFirst(k), n - 1)
  }

  /** wakeup */
  function Wakeup(k: Kern): Kern {
    DeferStop(WakeSome(DeferStart(k), Expired(Keys(k.qs.sleep, k.key))))
  }

  /** clkhandler's treatment of the sleep queue */
  function TickSleep(k: Kern): Kern {
    if k.qs.sleep == [] then k
    else
      var k1 := k.(key := WithKey(k.key, k.qs.sleep[0], KeyOf(k.key, k.qs.sleep[0]) - 1));
      if KeyOf(k1.key, k1.qs.sleep[0]) <= 0 then Wakeup(k1) else k1
  }

  /** clkhandler's time slice */
  function TickSlice(k: Kern): Kern {
    if k.preempt - 1 <= 0 then Resched(k.(preempt := QUANTUM)) else k.(preempt := k.preempt - 1)
  }

  // ---- messages, suspension, termination ----------------------------------

  function Deliver(k: Kern, p: nat, msg: int): Kern {
    if p < |k.procs| then k.(procs := k.procs[p := k.procs[p].(msg := msg, hasmsg := true)]) else k
  }

  /** send */
  function Send(k: Kern, p: int, msg: int): Kern {
    if p < 0 || StateOf(k, p) == FREE || k.procs[p].hasmsg then k
    else
      var k1 := Deliver(k, p, msg);
      match StateOf(k, p)
      case RECV => Ready(k1, p)
      case RECTIM => Ready(Unsleep(k1, p), p)
      case _ => k1
  }

  /** receive and recvtime: up to the point where the message is there or the time is up */
  function Receive(k: Kern): Kern {
    if k.curr < |k.procs| && k.procs[k.curr].hasmsg then k else Resched(WithState(k, k.curr, RECV))
  }

  function ReceiveTimed(k: Kern, maxwait: int): Kern {
    if maxwait < 0 || (k.curr < |k.procs| && k.procs[k.curr].hasmsg) then k
    else Resched(WithState(InsertSleep(k, k.curr, maxwait), k.curr, RECTIM))
  }

  /** The rest of receive, recvtime and recvclr: the flag is cleared. */
  function Collect(k: Kern): Kern {
    if k.curr < |k.procs| then k.(procs := k.procs[k.curr := k.procs[k.curr].(hasmsg := false)]) else k
  }

  /** suspend */
  function Suspend(k: Kern, p: int): Kern {
    if p <= NULLPROC then k
    else match StateOf(k, p)
      case READY => WithState(Unlink(k, p, OnReady), p, SUSP)
      case CURR => Resched(WithState(k, p, SUSP))
      case _ => k
  }

  /** resume */
  function Resume(k: Kern, p: int): Kern {
    if p >= 0 && StateOf(k, p) == SUSP then Ready(k, p) else k
  }

  /** kill, as far as queues, counts and states go */
  function Kill(k: Kern, p: int): Kern {
    if p <= NULLPROC then k
    else match StateOf(k, p)
      case FREE => k
      case CURR => Resched(WithState(k, p, FREE))
      case SLEEP => WithState(Unsleep(k, p), p, FREE)
      case RECTIM => WithState(Unsleep(k, p), p, FREE)
      case WAIT => WithState(Unlink(AddCount(k, k.procs[p].sem, 1), p, OnSem(k.procs[p].sem)), p, FREE)
      case READY => WithState(Unlink(k, p, OnReady), p, FREE)
      case _ => WithState(k, p, FREE)
  }

  /** create: a suspended process in a free table entry */
  function Create(k: Kern, p: nat, prio: int): Kern {
    if 0 < p < |k.procs| && k.procs[p].state == FREE && prio >= 1 then
      k.(procs := k.procs[p := Proc(SUSP, prio, 0, false, 0)])
    else k
  }

  // ---- invariants ---------------------------------------------------------

  ghost predicate Sized(k: Kern) {
    |k.key| == |k.procs| && |k.qs.semq| == |k.sems| && k.curr < |k.procs|
  }

  /** Every queue holds, once each, exactly the processes whose state puts them there; `x` is in transit. */
  ghost predicate Placed(procs: seq<Proc>, qs: Queues, x: int) {
    (forall pl :: NoDup(Queue(qs, pl)))
    && (forall pl, p {:trigger p in Queue(qs, pl)} | p in Queue(qs, pl) :: p < |procs| && p != x && Home(procs[p]) == pl)
    && (forall p | 0 <= p < |procs| && p != x && Home(procs[p]) != Nowhere :: p in Queue(qs, Home(procs[p])))
  }

  /** A list in order of priority. */
  ghost predicate Ranked(procs: seq<Proc>, ready: seq<nat>, key: seq<int>) {
    Descending(Keys(ready, key)) && forall p | p in ready :: p < |procs| && KeyOf(key, p) == procs[p].prio
  }

  /** The null process can always run; nobody but the current process is marked as running. */
  ghost predicate Alive(procs: seq<Proc>, curr: nat) {
    NULLPROC < |procs| && (procs[NULLPROC].state == CURR || procs[NULLPROC].state == READY)
    && (forall p | 0 <= p < |procs| :: procs[p].prio >= 0)
    && (forall p | 0 <= p < |procs| && procs[p].state == CURR :: p == curr)
  }

  /** A count below zero is the number of waiters; otherwise nobody waits. */
  ghost predicate Counted(sems: seq<Sem>, semq: seq<seq<nat>>) {
    |semq| == |sems|
    && forall s | 0 <= s < |sems| :: |semq[s]| == if sems[s].count < 0 then -sems[s].count else 0
  }

  /** An unused semaphore has no waiters. */
  ghost predicate Idle(sems: seq<Sem>) {
    forall s | 0 <= s < |sems| && !sems[s].used :: sems[s].count >= 0
  }

  /** Nobody on the ready list is more urgent than the current process, unless a switch is being put off. */
  ghost predicate Urgent(k: Kern) {
    k.ndefers == 0 || !k.attempt ==> forall p | p in k.qs.ready :: PrioOf(k, p) <= PrioOf(k, k.curr)
  }

  ghost predicate Struct(k: Kern, x: int) {
    Sized(k) && Placed(k.procs, k.qs, x) && Ranked(k.procs, k.qs.ready, k.key) && Alive(k.procs, k.curr)
  }

  ghost predicate Inv(k: Kern) {
    Struct(k, -1) && Counted(k.sems, k.qs.semq) && Idle(k.sems) && Urgent(k) && k.procs[k.curr].state == CURR
  }
}
