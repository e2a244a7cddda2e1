/** The scheduler, semaphore, sleep and message calls as they run on the process, semaphore and queue tables. */
module SchedCode {
  import opened SchedLists
  import opened SchedState
  import opened SchedMoves
  import opened SchedSteps
  import opened SchedSems
  import opened SchedRun
  import opened SchedTime
  import opened QueueTable
  import opened QueueView

  const SYSERR := -1
  const OK := 1
  const EMPTY := -1
  const TIMEOUT := -3

  class Kernel {
    const queuetab: array<QEntry>
    const proctab: array<Proc>
    const semtab: array<Sem>
    const readylist: nat
    const sleepq: nat
    const squeue: seq<nat>
    var currpid: nat
    var ndefers: nat
    var attempt: bool
    var preempt: int
    var nextsem: nat
    var nextqid: nat
    ghost var lists: Lists

    /** Boot: an empty queue per semaphore, the ready list, the sleep queue; the null process running. */
    constructor (nproc: nat, nsem: nat)
      requires nproc > 0
      ensures Valid() && View() == Boot(nproc, nsem) && Inv(View())
      ensures fresh(queuetab) && fresh(proctab) && fresh(semtab)
    {
      hide TableOk, Wired, AbsKeys, AbsQueues, Inv, OnlyEmpty, BootProc;
      queuetab := new QEntry[nproc + 4 + nsem + nsem](_ => QEntry(0, 0, 0));
      proctab := new Proc[nproc](i => BootProc(i));
      semtab := new Sem[nsem](_ => Sem(false, 0));
      squeue := seq<nat>(nsem, i requires 0 <= i < nsem => nproc + 2 * i);
      readylist, sleepq := nproc + 2 * nsem, nproc + 2 * nsem + 2;
      currpid, ndefers, attempt, preempt, nextsem := NULLPROC, 0, false, 0, 0;
      nextqid, lists := nproc, map[];
      new;
      BootTable(queuetab[..], nproc);
      OpenQueues(nsem + 2);
      BootWired(W(), lists, nproc, nsem);
      BootQueues(W(), lists, nproc, nextqid);
      BootInv(nproc, nsem);
      assert proctab[..] == Boot(nproc, nsem).procs;
      assert semtab[..] == Boot(nproc, nsem).sems;
    }

    method OpenQueues(count: nat)
      requires TableOk(queuetab[..], lists, proctab.Length) && OnlyEmpty(lists, proctab.Length, nextqid)
      requires nextqid == proctab.Length && queuetab.Length == proctab.Length + 2 * count
      modifies queuetab, this`lists, this`nextqid
      ensures TableOk(queuetab[..], lists, proctab.Length) && OnlyEmpty(lists, proctab.Length, nextqid)
      ensures nextqid == proctab.Length + 2 * count
      ensures AbsKeys(queuetab[..], proctab.Length) == old(AbsKeys(queuetab[..], proctab.Length))
    {
      hide TableOk, AbsKeys, OnlyEmpty;
      var j := 0;
      while j < count
        invariant 0 <= j <= count && nextqid == proctab.Length + 2 * j
        invariant TableOk(queuetab[..], lists, proctab.Length) && OnlyEmpty(lists, proctab.Length, nextqid)
        invariant AbsKeys(queuetab[..], proctab.Length) == old(AbsKeys(queuetab[..], proctab.Length))
      {
        var _ := NewQueue();
        j := j + 1;
      }
    }

    /** newqueue: the next two entries of the table become a head and a tail */
    method NewQueue() returns (q: int)
      requires TableOk(queuetab[..], lists, proctab.Length) && OnlyEmpty(lists, proctab.Length, nextqid)
      requires GuardHolds(queuetab.Length, nextqid)
      modifies queuetab, this`lists, this`nextqid
      ensures TableOk(queuetab[..], lists, proctab.Length) && OnlyEmpty(lists, proctab.Length, nextqid)
      ensures AbsKeys(queuetab[..], proctab.Length) == old(AbsKeys(queuetab[..], proctab.Length))
      ensures old(nextqid) > queuetab.Length ==> q == SYSERR && lists == old(lists) && nextqid == old(nextqid)
      ensures old(nextqid) <= queuetab.Length ==> q == old(nextqid) && lists == old(lists)[old(nextqid) := []] && nextqid == old(nextqid) + 2
    {
      q := nextqid;
      if q > queuetab.Length {
        return SYSERR;
      }
      ghost var tab := queuetab[..];
      OpenTable(tab, lists, proctab.Length, nextqid);
      queuetab[q] := QEntry(MAXKEY, q + 1, EMPTY);
      queuetab[q + 1] := QEntry(MINKEY, EMPTY, q);
      assert queuetab[..] == Opened(tab, nextqid);
      assert AbsKeys(queuetab[..], proctab.Length) == AbsKeys(tab, proctab.Length);
      lists := lists[nextqid := []];
      nextqid := nextqid + 2;
    }

    ghost function W(): Wiring { Wiring(readylist, sleepq, squeue) }

    ghost predicate Valid()
      reads this`lists, queuetab
    {
      TableOk(queuetab[..], lists, proctab.Length) && Wired(W(), lists) && |squeue| == semtab.Length
    }

    ghost function View(): Kern
      reads this, queuetab, proctab, semtab
    {
      Kern(proctab[..], semtab[..], AbsQueues(W(), lists), AbsKeys(queuetab[..], proctab.Length),
           currpid, ndefers, attempt, preempt)
    }

    // ---- queue table ------------------------------------------------------

    method SetNext(x: nat, v: int)
      requires x < queuetab.Length
      modifies queuetab
      ensures queuetab[..] == old(queuetab[..])[x := old(queuetab[..])[x].(qnext := v)]
    {
      queuetab[x] := queuetab[x].(qnext := v);
    }

    method SetPrev(x: nat, v: int)
      requires x < queuetab.Length
      modifies queuetab
      ensures queuetab[..] == old(queuetab[..])[x := old(queuetab[..])[x].(qprev := v)]
    {
      queuetab[x] := queuetab[x].(qprev := v);
    }

    /** Change a key; queues are not affected. */
    method SetKey(x: nat, v: int)
      requires Valid() && x < proctab.Length
      modifies queuetab
      ensures Valid() && View() == old(View()).(key := old(View()).key[x := v])
    {
      ghost var tab := queuetab[..];
      EntryTable(tab, lists, proctab.Length, x, tab[x].(qkey := v));
      AbsKeysSet(tab, proctab.Length, x, tab[x].(qkey := v));
      hide TableOk, Wired, AbsKeys, AbsQueues;
      queuetab[x] := queuetab[x].(qkey := v);
      assert queuetab[..] == tab[x := tab[x].(qkey := v)];
    }

    /** The four writes that put a process between two neighbours. */
    method Link(pid: nat, prev: nat, next: nat, ghost pl: Place, ghost i: nat)
      requires Valid() && Real(W(), pl) && pid < proctab.Length && OnNone(lists, pid)
      requires i <= |Queue(View().qs, pl)|
      requires prev == Node(QidOf(W(), pl), Queue(View().qs, pl), i) && next == Node(QidOf(W(), pl), Queue(View().qs, pl), i + 1)
      modifies queuetab, this`lists
      ensures Valid()
      ensures View() == old(View()).(qs := WithQueue(old(View()).qs, pl, Put(Queue(old(View()).qs, pl), i, pid)))
    {
      ghost var tab, s := queuetab[..], Queue(View().qs, pl);
      ghost var q := QidOf(W(), pl);
      QueueAt(W(), lists, pl);
      PutTable(tab, lists, proctab.Length, q, i, pid);
      QueueSet(W(), lists, pl, Put(s, i, pid));
      AbsKeysBetween(tab, proctab.Length, prev, pid, next);
      hide TableOk, Wired, AbsKeys, AbsQueues, OnNone, Node, QidOf;
      SetNext(pid, next);
      SetPrev(pid, prev);
      SetNext(prev, pid);
      SetPrev(next, pid);
      assert queuetab[..] == Between(tab, prev, pid, next);
      lists := lists[q := Put(s, i, pid)];
    }

    /** getitem */
    method GetItem(pid: nat, ghost pl: Place, ghost i: nat)
      requires Valid() && Real(W(), pl) && i < |Queue(View().qs, pl)| && pid == Queue(View().qs, pl)[i]
      modifies queuetab, this`lists
      ensures Valid() && OnNone(lists, pid)
      ensures View() == old(View()).(qs := WithQueue(old(View()).qs, pl, Drop(Queue(old(View()).qs, pl), i)))
    {
      ghost var tab, s := queuetab[..], Queue(View().qs, pl);
      ghost var q := QidOf(W(), pl);
      QueueAt(W(), lists, pl);
      Walk(tab, lists, proctab.Length, q, i);
      DropTable(tab, lists, proctab.Length, q, i);
      QueueSet(W(), lists, pl, Drop(s, i));
      AbsKeysBridged(tab, proctab.Length, Node(q, s, i), Node(q, s, i + 2));
      hide TableOk, Wired, AbsKeys, AbsQueues, OnNone, QidOf, Drop;
      var next, prev := queuetab[pid].qnext, queuetab[pid].qprev;
      SetNext(prev, next);
      SetPrev(next, prev);
      assert queuetab[..] == Bridged(tab, prev, next);
      lists := lists[q := Drop(s, i)];
    }

    /** isempty */
    method IsEmpty(q: nat, ghost pl: Place) returns (b: bool)
      requires Valid() && Real(W(), pl) && q == QidOf(W(), pl)
      ensures b <==> Queue(View().qs, pl) == []
    {
      QueueAt(W(), lists, pl);
      Walk(queuetab[..], lists, proctab.Length, q, 0);
      b := queuetab[q].qnext >= proctab.Length;
    }

    /** getfirst */
    method GetFirst(q: nat, ghost pl: Place) returns (pid: int)
      requires Valid() && Real(W(), pl) && q == QidOf(W(), pl)
      modifies queuetab, this`lists
      ensures Valid()
      ensures var s := Queue(old(View()).qs, pl);
              if s == [] then pid == EMPTY && View() == old(View())
              else pid == s[0] && OnNone(lists, s[0])
                   && View() == old(View()).(qs := WithQueue(old(View()).qs, pl, s[1..]))
    {
      var e := IsEmpty(q, pl);
      if e {
        return EMPTY;
      }
      ghost var s := Queue(View().qs, pl);
      QueueAt(W(), lists, pl);
      Walk(queuetab[..], lists, proctab.Length, q, 0);
      assert Drop(s, 0) == s[1..];
      hide TableOk, Wired, AbsKeys, AbsQueues, OnNone, QidOf, Drop;
      pid := queuetab[q].qnext;
      GetItem(pid, pl, 0);
    }

    /** dequeue */
    method Dequeue(q: nat, ghost pl: Place) returns (pid: int)
      requires Valid() && Real(W(), pl) && q == QidOf(W(), pl)
      modifies queuetab, this`lists
      ensures Valid()
      ensures var s := Queue(old(View()).qs, pl);
              if s == [] then pid == EMPTY && View() == old(View())
              else pid == s[0] && OnNone(lists, s[0])
                   && View() == old(View()).(qs := WithQueue(old(View()).qs, pl, s[1..]))
    {
      ghost var s := Queue(View().qs, pl);
      assert s != [] ==> s[0] < proctab.Length by {
        QueueAt(W(), lists, pl);
        Walk(queuetab[..], lists, proctab.Length, q, 0);
      }
      hide TableOk, Wired, AbsKeys, AbsQueues, OnNone, QidOf;
      pid := GetFirst(q, pl);
      if pid != EMPTY {
        Forget(pid);
      }
    }

    /** The links of a process that has left its queue are cleared. */
    method Forget(pid: nat)
      requires Valid() && pid < proctab.Length && OnNone(lists, pid)
      modifies queuetab
      ensures Valid() && View() == old(View())
    {
      ghost var tab := queuetab[..];
      ghost var e := QEntry(tab[pid].qkey, EMPTY, EMPTY);
      EntryTable(tab, lists, proctab.Length, pid, e);
      AbsKeysSet(tab, proctab.Length, pid, e);
      assert AbsKeys(tab, proctab.Length)[pid := e.qkey] == AbsKeys(tab, proctab.Length);
      hide TableOk, Wired, AbsKeys, AbsQueues, OnNone;
      SetPrev(pid, EMPTY);
      SetNext(pid, EMPTY);
      assert queuetab[..] == tab[pid := e];
    }

    /** enqueue, for a process and a queue that exist */
    method Enqueue(pid: nat, q: nat, ghost pl: Place)
      requires Valid() && Real(W(), pl) && q == QidOf(W(), pl) && pid < proctab.Length && OnNone(lists, pid)
      modifies queuetab, this`lists
      ensures Valid()
      ensures View() == old(View()).(qs := WithQueue(old(View()).qs, pl, Queue(old(View()).qs, pl) + [pid]))
    {
      ghost var s := Queue(View().qs, pl);
      QueueAt(W(), lists, pl);
      Walk(queuetab[..], lists, proctab.Length, q, |s|);
      assert Put(s, |s|, pid) == s + [pid];
      hide TableOk, Wired, AbsKeys, AbsQueues, OnNone, QidOf, Put;
      var tail := q + 1;
      var prev := queuetab[tail].qprev;
      Link(pid, prev, tail, pl, |s|);
    }

    /** insert's loop: past every key that is at least as large */
    method FindRank(q: nat, key: int, ghost pl: Place) returns (prev: nat, curr: nat, ghost i: nat)
      requires Valid() && Real(W(), pl) && q == QidOf(W(), pl) && key > MINKEY
      ensures var s := Queue(View().qs, pl);
              i == RankFrom(Keys(s, View().key), key, 0) && prev == Node(q, s, i) && curr == Node(q, s, i + 1)
    {
      hide TableOk, Wired, AbsKeys, AbsQueues, QidOf, RankFrom, Node;
      ghost var tab, s := queuetab[..], Queue(View().qs, pl);
      ghost var ks := Keys(s, View().key);
      i := 0;
      QueueAt(W(), lists, pl);
      Walk(tab, lists, proctab.Length, q, 0);
      HeadNode(q, s);
      curr := queuetab[q].qnext;
      while queuetab[curr].qkey >= key
        invariant i <= |s| && curr < queuetab.Length && curr == Node(q, s, i + 1)
        invariant RankFrom(ks, key, i) == RankFrom(ks, key, 0)
        decreases |s| - i
      {
        Walk(tab, lists, proctab.Length, q, i);
        RankStep(ks, key, i);
        NextNode(tab, lists, proctab.Length, q, i);
        curr := queuetab[curr].qnext;
        i := i + 1;
      }
      Walk(tab, lists, proctab.Length, q, i);
      RankStep(ks, key, i);
      prev := queuetab[curr].qprev;
    }

    /** insert */
    method Insert(pid: nat, q: nat, key: int, ghost pl: Place)
      requires Valid() && Real(W(), pl) && q == QidOf(W(), pl) && pid < proctab.Length && OnNone(lists, pid) && key > MINKEY
      modifies queuetab, this`lists
      ensures Valid()
      ensures var k := old(View()); var s := Queue(k.qs, pl);
              View() == k.(qs := WithQueue(k.qs, pl, Put(s, RankFrom(Keys(s, k.key), key, 0), pid)), key := k.key[pid := key])
    {
      hide TableOk, Wired, AbsKeys, AbsQueues, OnNone, QidOf, RankFrom, Node, Put;
      var prev, curr, i := FindRank(q, key, pl);
      Link(pid, prev, curr, pl, i);
      SetKey(pid, key);
    }

    /** insertd's loop: use up the delay along the way */
    method FindDelta(delay: int) returns (prev: nat, next: nat, key: int, ghost i: nat)
      requires Valid()
      ensures var s := View().qs.sleep;
              (i, key) == DeltaFrom(Keys(s, View().key), delay, 0) && prev == Node(sleepq, s, i) && next == Node(sleepq, s, i + 1)
    {
      hide TableOk, Wired, AbsKeys, AbsQueues, DeltaFrom, Node;
      ghost var tab, s := queuetab[..], View().qs.sleep;
      ghost var ks := Keys(s, View().key);
      i := 0;
      key := delay;
      QueueAt(W(), lists, OnSleep);
      Walk(tab, lists, proctab.Length, sleepq, 0);
      HeadNode(sleepq, s);
      prev, next := sleepq, queuetab[sleepq].qnext;
      while next != sleepq + 1 && queuetab[next].qkey <= key
        invariant i <= |s| && next < queuetab.Length && prev == Node(sleepq, s, i) && next == Node(sleepq, s, i + 1)
        invariant DeltaFrom(ks, key, i) == DeltaFrom(ks, delay, 0)
        decreases |s| - i
      {
        Walk(tab, lists, proctab.Length, sleepq, i);
        DeltaStep(ks, key, i);
        NextNode(tab, lists, proctab.Length, sleepq, i);
        key := key - queuetab[next].qkey;
        prev := next;
        next := queuetab[next].qnext;
        i := i + 1;
      }
      Walk(tab, lists, proctab.Length, sleepq, i);
      DeltaStep(ks, key, i);
    }

    /** insertd on the sleep queue */
    method InsertD(pid: nat, delay: int)
      requires Valid() && pid < proctab.Length && OnNone(lists, pid)
      modifies queuetab, this`lists
      ensures Valid() && View() == InsertSleep(old(View()), pid, delay)
    {
      hide TableOk, Wired, AbsKeys, AbsQueues, OnNone, DeltaFrom, Node, Put;
      ghost var k := View();
      SleepersBelow(W(), queuetab[..], lists, proctab.Length);
      var prev, next, key, i := FindDelta(delay);
      Link(pid, prev, next, OnSleep, i);
      SetKey(pid, key);
      var more := IsMember(next, k.qs.sleep, i);
      if more {
        LowerKey(next, key);
      }
    }

    /** next != queuetail(sleepq) */
    method IsMember(next: nat, ghost s: seq<nat>, ghost i: nat) returns (b: bool)
      requires Valid() && i <= |s| && next == Node(sleepq, s, i + 1) && forall j | 0 <= j < |s| :: s[j] < proctab.Length
      ensures b <==> i < |s|
      ensures b ==> next == s[i]
    {
      assert proctab.Length <= sleepq;
      b := next != sleepq + 1;
    }

    method LowerKey(x: nat, amount: int)
      requires Valid() && x < proctab.Length
      modifies queuetab
      ensures Valid() && View() == old(View()).(key := WithKey(old(View()).key, x, KeyOf(old(View()).key, x) - amount))
    {
      KeyHere(queuetab[..], proctab.Length, x);
      hide TableOk, Wired, AbsKeys, AbsQueues;
      SetKey(x, queuetab[x].qkey - amount);
    }

    // ---- scheduling -------------------------------------------------------

    method SetState(pid: nat, st: PState)
      requires Valid() && pid < proctab.Length
      modifies proctab
      ensures Valid() && View() == WithState(old(View()), pid, st)
    {
      hide TableOk, Wired, AbsKeys, AbsQueues;
      proctab[pid] := proctab[pid].(state := st);
      assert proctab[..] == old(proctab[..])[pid := old(proctab[pid]).(state := st)];
    }

    /** Put a process in state READY on the ready list. */
    method InsertReady(pid: nat)
      requires Valid() && Struct(View(), pid) && pid < proctab.Length && proctab[pid].prio >= 0
      modifies queuetab, this`lists
      ensures Valid() && View() == SchedState.InsertReady(old(View()), pid)
    {
      TransitOnNone(W(), lists, proctab[..], pid);
      hide TableOk, Wired, AbsKeys, AbsQueues, OnNone, Struct, RankFrom, Put;
      Insert(pid, readylist, proctab[pid].prio, OnReady);
    }

    /** The head of the ready list becomes the current process. */
    method SwitchTo()
      requires Valid() && Struct(View(), -1) && View().qs.ready != []
      modifies this`currpid, this`preempt, this`lists, queuetab, proctab
      ensures Valid() && View() == Switch(old(View()))
    {
      assert View().qs.ready[0] in Queue(View().qs, OnReady);
      assert View().qs.ready[0] < proctab.Length;
      hide TableOk, Wired, AbsKeys, AbsQueues, OnNone, Struct;
      var pid := Dequeue(readylist, OnReady);
      currpid := pid;
      SetState(currpid, CURR);
      preempt := QUANTUM;
    }

    /** resched */
    method Resched()
      requires Valid() && Struct(View(), -1) && (ndefers > 0 ==> View().procs[currpid].state == CURR)
      modifies this`currpid, this`preempt, this`attempt, this`lists, queuetab, proctab
      ensures Valid() && View() == SchedState.Resched(old(View()))
      ensures Steady(View())
    {
      ghost var k := View();
      assert Steady(SchedState.Resched(k)) by { ReschedStruct(k); }
      if ndefers > 0 {
        attempt := true;
        return;
      }
      assert currpid < proctab.Length && k.procs[currpid].prio >= 0;
      if proctab[currpid].state == CURR {
        var first := FirstReadyKey();
        if proctab[currpid].prio > first {
          return;
        }
        StepAside(k);
        ghost var k1 := WithState(k, k.curr, READY);
        hide TableOk, Wired, AbsKeys, AbsQueues, Struct, Switch, Steady;
        SetState(currpid, READY);
        InsertReady(currpid);
        SwitchTo();
      } else {
        SwitchStruct(k);
        hide TableOk, Wired, AbsKeys, AbsQueues, Struct, Switch, Steady;
        SwitchTo();
      }
    }

    method FirstReadyKey() returns (key: int)
      requires Valid()
      ensures key == FirstKey(View())
    {
      QueueAt(W(), lists, OnReady);
      Walk(queuetab[..], lists, proctab.Length, readylist, 0);
      hide TableOk, Wired;
      key := queuetab[queuetab[readylist].qnext].qkey;
    }

    /** ready, for a process that exists */
    method Ready(pid: nat)
      requires Valid() && Struct(View(), pid) && pid < proctab.Length && pid != currpid && View().procs[currpid].state == CURR
      modifies this`currpid, this`preempt, this`attempt, this`lists, queuetab, proctab
      ensures Valid() && View() == SchedState.Ready(old(View()), pid) && Steady(View())
    {
      MadeReady(View(), pid);
      hide TableOk, Wired, AbsKeys, AbsQueues, Struct, Steady;
      SetState(pid, READY);
      InsertReady(pid);
      Resched();
    }

    /** resched_cntl(DEFER_START) */
    method DeferOn()
      modifies this`ndefers, this`attempt
      requires Valid() && Steady(View())
      ensures Valid() && View() == DeferStart(old(View())) && Steady(View())
    {
      DeferStartSteady(View());
      if ndefers == 0 {
        attempt := false;
      }
      ndefers := ndefers + 1;
    }

    /** resched_cntl(DEFER_STOP) */
    method DeferOff() returns (r: int)
      requires Valid() && Steady(View())
      modifies this`currpid, this`preempt, this`attempt, this`lists, this`ndefers, queuetab, proctab
      ensures Valid() && View() == DeferStop(old(View())) && Steady(View())
      ensures r == if old(ndefers) == 0 then SYSERR else OK
    {
      DeferStopSteady(View());
      if ndefers == 0 {
        return SYSERR;
      }
      assert Struct(View().(ndefers := ndefers - 1), -1);
      ndefers := ndefers - 1;
      if ndefers == 0 && attempt {
        hide TableOk, Wired, AbsKeys, AbsQueues, Struct, Steady;
        Resched();
      }
      return OK;
    }

    /** yield */
    method YieldCpu()
      requires Valid() && Steady(View())
      modifies this`currpid, this`preempt, this`attempt, this`lists, queuetab, proctab
      ensures Valid() && View() == SchedState.Resched(old(View())) && Steady(View())
    {
      Resched();
    }

    // ---- semaphores -------------------------------------------------------

    method SetSem(s: nat, sem: Sem)
      requires Valid() && s < semtab.Length
      modifies semtab
      ensures Valid() && View() == old(View()).(sems := old(View()).sems[s := sem])
    {
      hide TableOk, Wired, AbsKeys, AbsQueues;
      semtab[s] := sem;
      assert semtab[..] == old(semtab[..])[s := sem];
    }

    /** wait */
    method WaitOn(sem: int) returns (r: int)
      requires Valid() && Inv(View()) && (Usable(View(), sem) && View().sems[sem].count <= 0 ==> MayBlock(View()))
      modifies this`currpid, this`preempt, this`attempt, this`lists, queuetab, proctab, semtab
      ensures Valid() && View() == WaitSem(old(View()), sem) && Inv(View())
      ensures r == if Usable(old(View()), sem) then OK else SYSERR
    {
      WaitInv(View(), sem);
      if sem < 0 || sem >= semtab.Length {
        return SYSERR;
      }
      if !semtab[sem].used {
        return SYSERR;
      }
      ghost var k1 := AddCount(View(), sem, -1);
      if semtab[sem].count - 1 < 0 {
        BlockReady(View(), sem);
        hide TableOk, Wired, AbsKeys, AbsQueues, Struct, Inv, Steady, Placed;
        SetSem(sem, semtab[sem].(count := semtab[sem].count - 1));
        BlockCurrent(sem);
        Resched();
      } else {
        hide TableOk, Wired, AbsKeys, AbsQueues, Inv;
        SetSem(sem, semtab[sem].(count := semtab[sem].count - 1));
      }
      return OK;
    }

    /** The current process goes to the end of a semaphore's queue. */
    method BlockCurrent(sem: nat)
      requires Valid() && sem < semtab.Length && currpid < proctab.Length && Placed(View().procs, View().qs, currpid)
      modifies this`lists, queuetab, proctab
      ensures Valid() && View() == Block(old(View()), sem)
    {
      TransitOnNone(W(), lists, proctab[..], currpid);
      hide TableOk, Wired, AbsKeys, AbsQueues, Placed, OnNone;
      proctab[currpid] := proctab[currpid].(state := WAIT, sem := sem);
      assert proctab[..] == old(proctab[..])[currpid := old(proctab[currpid]).(state := WAIT, sem := sem)];
      Enqueue(currpid, squeue[sem], OnSem(sem));
    }

    /** ready(dequeue(squeue)) */
    method ReleaseOne(sem: nat)
      requires Valid() && Steady(View()) && sem < semtab.Length && Queue(View().qs, OnSem(sem)) != []
      modifies this`currpid, this`preempt, this`attempt, this`lists, queuetab, proctab
      ensures Valid() && View() == Release(old(View()), sem) && Steady(View())
    {
      HeadLeaves(View(), sem);
      hide TableOk, Wired, AbsKeys, AbsQueues, Struct, Steady, OnNone;
      var pid := Dequeue(squeue[sem], OnSem(sem));
      Ready(pid);
    }

    /** One increment of the count, with the release it may bring. */
    method BumpOne(sem: nat)
      requires Valid() && Steady(View()) && Counted(View().sems, View().qs.semq) && sem < semtab.Length
      modifies this`currpid, this`preempt, this`attempt, this`lists, queuetab, proctab, semtab
      ensures Valid() && View() == Bump(old(View()), sem) && Steady(View()) && Counted(View().sems, View().qs.semq)
    {
      hide TableOk, Wired, AbsKeys, AbsQueues, Steady, Counted, Release;
      BumpKeeps(View(), sem);
      CountedAt(View(), sem);
      CountOnly(View(), AddCount(View(), sem, 1).sems);
      var c := semtab[sem].count;
      SetSem(sem, semtab[sem].(count := c + 1));
      if c < 0 {
        ReleaseOne(sem);
      }
    }

    /** signal */
    method SignalOn(sem: int) returns (r: int)
      requires Valid() && Inv(View())
      modifies this`currpid, this`preempt, this`attempt, this`lists, queuetab, proctab, semtab
      ensures Valid() && View() == SignalSem(old(View()), sem) && Inv(View())
      ensures r == if Usable(old(View()), sem) then OK else SYSERR
    {
      SignalInv(View(), sem);
      InvParts(View());
      hide TableOk, Wired, AbsKeys, AbsQueues, Inv, Steady, Counted, Bump;
      if sem < 0 || sem >= semtab.Length {
        return SYSERR;
      }
      if !semtab[sem].used {
        return SYSERR;
      }
      BumpOne(sem);
      return OK;
    }

    /** signaln's loop */
    method BumpTimes(sem: nat, count: nat)
      requires Valid() && Steady(View()) && Counted(View().sems, View().qs.semq) && sem < semtab.Length
      modifies this`currpid, this`preempt, this`attempt, this`lists, queuetab, proctab, semtab
      ensures Valid() && View() == Bumps(old(View()), sem, count) && Steady(View())
    {
      hide TableOk, Wired, AbsKeys, AbsQueues, Steady, Counted, Bump, Bumps, View;
      ghost var last := Bumps(View(), sem, count);
      var n := count;
      while n > 0
        invariant 0 <= n && Valid() && Steady(View()) && Counted(View().sems, View().qs.semq)
        invariant Bumps(View(), sem, n) == last
      {
        BumpsStep(View(), sem, n);
        BumpOne(sem);
        n := n - 1;
      }
      BumpsStep(View(), sem, 0);
    }

    /** semdelete's loop: increment until the count was not negative */
    method BumpOut(sem: nat)
      requires Valid() && Steady(View()) && Counted(View().sems, View().qs.semq) && sem < semtab.Length
      modifies this`currpid, this`preempt, this`attempt, this`lists, queuetab, proctab, semtab
      ensures Valid() && View() == Bumps(old(View()), sem, Rounds(old(View()).sems[sem])) && Steady(View())
    {
      hide TableOk, Wired, AbsKeys, AbsQueues, Steady, Counted, Bump, Bumps;
      ghost var n := Rounds(View().sems[sem]);
      ghost var last := Bumps(View(), sem, n);
      var more := true;
      while more
        invariant Valid() && Steady(View()) && Counted(View().sems, View().qs.semq)
        invariant more ==> n == Rounds(View().sems[sem])
        invariant !more ==> n == 0
        invariant Bumps(View(), sem, n) == last
        decreases n
      {
        BumpsStep(View(), sem, n);
        BumpKeeps(View(), sem);
        more := semtab[sem].count < 0;
        BumpOne(sem);
        n := n - 1;
      }
      BumpsStep(View(), sem, 0);
    }

    /** semreset's loop */
    method DrainAll(sem: nat)
      requires Valid() && Steady(View()) && sem < semtab.Length
      modifies this`currpid, this`preempt, this`attempt, this`lists, queuetab, proctab
      ensures Valid() && View() == Drain(old(View()), sem, |Queue(old(View()).qs, OnSem(sem))|) && Steady(View())
    {
      hide TableOk, Wired, AbsKeys, AbsQueues, Steady, Drain, Release;
      ghost var n := |Queue(View().qs, OnSem(sem))|;
      ghost var last := Drain(View(), sem, n);
      var empty := IsEmpty(squeue[sem], OnSem(sem));
      while !empty
        invariant Valid() && Steady(View()) && n == |Queue(View().qs, OnSem(sem))|
        invariant empty <==> n == 0
        invariant Drain(View(), sem, n) == last
        decreases n
      {
        DrainStep(View(), sem, n);
        ReleaseShorter(View(), sem);
        ReleaseOne(sem);
        n := n - 1;
        empty := IsEmpty(squeue[sem], OnSem(sem));
      }
      DrainStep(View(), sem, 0);
    }

    /** signaln */
    method SignalTimes(sem: int, count: int) returns (r: int)
      requires Valid() && Inv(View())
      modifies this`currpid, this`preempt, this`attempt, this`lists, this`ndefers, queuetab, proctab, semtab
      ensures Valid() && View() == SignalMany(old(View()), sem, count) && Inv(View())
      ensures r == if Usable(old(View()), sem) && count >= 0 then OK else SYSERR
    {
      SignalManyInv(View(), sem, count);
      InvParts(View());
      hide TableOk, Wired, AbsKeys, AbsQueues, Inv, Steady, Counted, Bump, DeferStart, DeferStop, Bumps;
      if sem < 0 || sem >= semtab.Length || count < 0 {
        return SYSERR;
      }
      if !semtab[sem].used {
        return SYSERR;
      }
      DeferStartFrame(View());
      DeferOn();
      BumpTimes(sem, count);
      var _ := DeferOff();
      return OK;
    }

    /** semdelete on an entry in use */
    method DeleteUsed(sem: nat)
      requires Valid() && Steady(View()) && Counted(View().sems, View().qs.semq) && Usable(View(), sem)
      modifies this`currpid, this`preempt, this`attempt, this`lists, this`ndefers, queuetab, proctab, semtab
      ensures Valid() && View() == DeleteSem(old(View()), sem)
    {
      hide TableOk, Wired, AbsKeys, AbsQueues, Steady, Counted, DeferStart, DeferStop, Bumps, DeleteSem;
      DeleteStarts(View(), sem);
      SetSem(sem, semtab[sem].(used := false));
      DeferStartFrame(View());
      DeferOn();
      BumpOut(sem);
      var _ := DeferOff();
    }

    /** semdelete */
    method DeleteOn(sem: int) returns (r: int)
      requires Valid() && Inv(View())
      modifies this`currpid, this`preempt, this`attempt, this`lists, this`ndefers, queuetab, proctab, semtab
      ensures Valid() && View() == DeleteSem(old(View()), sem) && Inv(View())
      ensures r == if Usable(old(View()), sem) then OK else SYSERR
    {
      hide TableOk, Wired, AbsKeys, AbsQueues, Inv, Steady, Counted, DeleteSem;
      DeleteInv(View(), sem);
      InvParts(View());
      if sem < 0 || sem >= semtab.Length {
        DeleteUnusable(View(), sem);
        return SYSERR;
      }
      if !semtab[sem].used {
        DeleteUnusable(View(), sem);
        return SYSERR;
      }
      DeleteUsed(sem);
      return OK;
    }

    /** semreset on an entry in use */
    method ResetUsed(sem: nat, count: nat)
      requires Valid() && Steady(View()) && Usable(View(), sem)
      modifies this`currpid, this`preempt, this`attempt, this`lists, this`ndefers, queuetab, proctab, semtab
      ensures Valid() && View() == ResetSem(old(View()), sem, count)
    {
      hide TableOk, Wired, AbsKeys, AbsQueues, Steady, DeferStart, DeferStop, Drain;
      DeferStartFrame(View());
      DeferOn();
      DrainAll(sem);
      CountOnly(View(), SetCount(View(), sem, count).sems);
      SetSem(sem, semtab[sem].(count := count));
      var _ := DeferOff();
    }

    /** semreset */
    method ResetOn(sem: int, count: int) returns (r: int)
      requires Valid() && Inv(View())
      modifies this`currpid, this`preempt, this`attempt, this`lists, this`ndefers, queuetab, proctab, semtab
      ensures Valid() && View() == ResetSem(old(View()), sem, count) && Inv(View())
      ensures r == if Usable(old(View()), sem) && count >= 0 then OK else SYSERR
    {
      hide TableOk, Wired, AbsKeys, AbsQueues, Inv, Steady, DeferStop, Drain;
      ResetInv(View(), sem, count);
      InvParts(View());
      if count < 0 || sem < 0 || sem >= semtab.Length || !semtab[sem].used {
        return SYSERR;
      }
      ResetUsed(sem, count);
      return OK;
    }

    /** newsem: try every entry once, starting from the last place looked at */
    method NewSem() returns (r: int)
      requires Valid() && semtab.Length > 0 && nextsem < semtab.Length
      modifies semtab, this`nextsem
      ensures Valid() && nextsem < semtab.Length
      ensures if forall s | 0 <= s < semtab.Length :: old(semtab[s]).used then r == SYSERR && View() == old(View())
              else 0 <= r < semtab.Length && !old(semtab[r]).used && View() == WithUse(old(View()), r, true)
    {
      hide TableOk, Wired, AbsKeys, AbsQueues;
      ghost var start := nextsem;
      var i := 0;
      while i < semtab.Length
        invariant 0 <= i <= semtab.Length && nextsem == (if i == semtab.Length then start else Try(start, i, semtab.Length))
        invariant forall s | 0 <= s < semtab.Length && Tried(start, i, semtab.Length, s) :: semtab[s].used
        invariant Valid() && View() == old(View()) && semtab[..] == old(semtab[..])
      {
        var sem := nextsem;
        nextsem := nextsem + 1;
        if nextsem >= semtab.Length {
          nextsem := 0;
        }
        assert semtab[sem] == old(semtab[..])[sem];
        if !semtab[sem].used {
          SetSem(sem, semtab[sem].(used := true));
          return sem;
        }
        i := i + 1;
      }
      forall s | 0 <= s < semtab.Length
        ensures old(semtab[s]).used
      {
        assert Tried(start, semtab.Length, semtab.Length, s);
        assert old(semtab[s]) == semtab[s];
      }
      return SYSERR;
    }

    /** semcreate */
    method CreateOn(count: int) returns (r: int)
      requires Valid() && Inv(View()) && semtab.Length > 0 && nextsem < semtab.Length
      modifies semtab, this`nextsem
      ensures Valid() && Inv(View()) && nextsem < semtab.Length
      ensures r == SYSERR ==> View() == old(View()) && (count < 0 || forall s | 0 <= s < semtab.Length :: old(semtab[s]).used)
      ensures r != SYSERR ==> 0 <= r < semtab.Length && !old(semtab[r]).used && count >= 0 && View() == CreateSem(old(View()), r, count)
    {
      if count < 0 {
        return SYSERR;
      }
      ghost var k := View();
      hide TableOk, Wired, AbsKeys, AbsQueues, Inv;
      r := NewSem();
      if r == SYSERR {
        return;
      }
      CreateSemInv(k, r, count);
      SetSem(r, semtab[r].(count := count));
    }

    // ---- sleeping ---------------------------------------------------------

    /** unsleep: the successor takes over the remaining delay; a process that is not asleep is refused */
    method Unsleep(pid: int) returns (r: int)
      requires Valid() && Struct(View(), -1)
      modifies this`lists, queuetab
      ensures Valid() && (r == OK || r == SYSERR)
      ensures r == OK <==> 0 <= pid < proctab.Length && Home(old(View()).procs[pid]) == OnSleep
      ensures View() == if r == OK then SchedState.Unsleep(old(View()), pid) else old(View())
    {
      if pid < 0 || pid >= proctab.Length {
        return SYSERR;
      }
      if proctab[pid].state != SLEEP && proctab[pid].state != RECTIM {
        return SYSERR;
      }
      Remove(pid);
      return OK;
    }

    /** The end of unsleep. */
    method Remove(pid: nat)
      requires Valid() && Struct(View(), -1) && pid < proctab.Length && Home(View().procs[pid]) == OnSleep
      modifies this`lists, queuetab
      ensures Valid() && View() == SchedState.Unsleep(old(View()), pid)
    {
      hide TableOk, Wired, AbsKeys, AbsQueues, Struct, Find, OnNone, Home, Drop;
      ghost var i := SleepPlace(View(), pid);
      SleepersBelow(W(), queuetab[..], lists, proctab.Length);
      var next := NextSleeper(pid, i);
      if next < proctab.Length {
        var d := KeyAt(pid);
        LowerKey(next, -d);
      }
      GetItem(pid, OnSleep, i);
    }

    method NextSleeper(pid: nat, ghost i: nat) returns (next: nat)
      requires Valid() && i < |View().qs.sleep| && pid == View().qs.sleep[i]
      ensures next < proctab.Length <==> i + 1 < |View().qs.sleep|
      ensures i + 1 < |View().qs.sleep| ==> next == View().qs.sleep[i + 1]
    {
      QueueAt(W(), lists, OnSleep);
      Walk(queuetab[..], lists, proctab.Length, sleepq, i);
      Walk(queuetab[..], lists, proctab.Length, sleepq, i + 1);
      next := queuetab[pid].qnext;
    }

    method KeyAt(pid: nat) returns (d: int)
      requires Valid() && pid < proctab.Length
      ensures d == KeyOf(View().key, pid)
    {
      KeyHere(queuetab[..], proctab.Length, pid);
      d := queuetab[pid].qkey;
    }

    /** The loop of wakeup: everyone whose delay has run out. */
    method WakeAll()
      requires Valid() && Steady(View()) && ndefers > 0
      modifies this`currpid, this`preempt, this`attempt, this`lists, queuetab, proctab
      ensures Valid() && View() == WakeSome(old(View()), Expired(SleepKeys(old(View())))) && Steady(View())
    {
      hide TableOk, Wired, AbsKeys, AbsQueues, Steady, Expired, WakeSome, WakeFirst, SleepKeys, OnNone;
      ghost var n := Expired(SleepKeys(View()));
      ghost var last := WakeSome(View(), n);
      var more := FirstExpired();
      while more
        invariant Valid() && Steady(View()) && ndefers > 0 && n == Expired(SleepKeys(View()))
        invariant more <==> n > 0
        invariant WakeSome(View(), n) == last
        decreases n
      {
        WakeStep(View(), n);
        WakeNext(View());
        WakeOne();
        n := n - 1;
        more := FirstExpired();
      }
      WakeStep(View(), 0);
    }

    /** nonempty(sleepq) && firstkey(sleepq) <= 0 */
    method FirstExpired() returns (b: bool)
      requires Valid()
      ensures b <==> Expired(SleepKeys(View())) > 0
    {
      QueueAt(W(), lists, OnSleep);
      Walk(queuetab[..], lists, proctab.Length, sleepq, 0);
      hide TableOk, Wired;
      b := queuetab[sleepq].qnext < proctab.Length && queuetab[queuetab[sleepq].qnext].qkey <= 0;
    }

    /** ready(dequeue(sleepq)) */
    method WakeOne()
      requires Valid() && Steady(View()) && ndefers > 0 && View().qs.sleep != []
      modifies this`currpid, this`preempt, this`attempt, this`lists, queuetab, proctab
      ensures Valid() && View() == WakeFirst(old(View())) && Steady(View())
    {
      SleeperLeaves(View());
      hide TableOk, Wired, AbsKeys, AbsQueues, Struct, Steady, OnNone;
      var pid := Dequeue(sleepq, OnSleep);
      Ready(pid);
    }

    /** wakeup */
    method WakeUp()
      requires Valid() && Steady(View())
      modifies this`currpid, this`preempt, this`attempt, this`lists, this`ndefers, queuetab, proctab
      ensures Valid() && View() == Wakeup(old(View())) && Steady(View())
    {
      assert SleepKeys(DeferStart(View())) == SleepKeys(View()) == Keys(View().qs.sleep, View().key);
      hide TableOk, Wired, AbsKeys, AbsQueues, Steady, Expired, WakeSome, SleepKeys, DeferStop, DeferStart;
      DeferStartFrame(View());
      DeferOn();
      WakeAll();
      var _ := DeferOff();
    }

    /** clkhandler, the sleep queue's part */
    method TickSleepers()
      requires Valid() && Steady(View())
      modifies this`currpid, this`preempt, this`attempt, this`lists, this`ndefers, queuetab, proctab
      ensures Valid() && View() == TickSleep(old(View())) && Steady(View())
    {
      TickSteady(View());
      SleepersBelow(W(), queuetab[..], lists, proctab.Length);
      hide TableOk, Wired, AbsKeys, AbsQueues, Steady, Wakeup;
      var empty := IsEmpty(sleepq, OnSleep);
      if !empty {
        TickKeySteady(View());
        var first := FirstSleeper();
        LowerKey(first, 1);
        var d := KeyAt(first);
        if d <= 0 {
          WakeUp();
        }
      }
    }

    method FirstSleeper() returns (pid: nat)
      requires Valid() && View().qs.sleep != []
      ensures pid == View().qs.sleep[0]
    {
      QueueAt(W(), lists, OnSleep);
      Walk(queuetab[..], lists, proctab.Length, sleepq, 0);
      pid := queuetab[sleepq].qnext;
    }

    /** clkhandler, the time slice's part */
    method TickQuantum()
      requires Valid() && Steady(View())
      modifies this`currpid, this`preempt, this`attempt, this`lists, queuetab, proctab
      ensures Valid() && View() == TickSlice(old(View())) && Steady(View())
    {
      SliceSteady(View());
      assert Struct(View().(preempt := QUANTUM), -1);
      hide TableOk, Wired, AbsKeys, AbsQueues, Struct;
      preempt := preempt - 1;
      if preempt <= 0 {
        preempt := QUANTUM;
        Resched();
      }
    }

    /** The current process leaves the processor in a state without a queue. */
    method StopCurrent(st: PState)
      requires Valid() && Steady(View()) && MayBlock(View()) && (st == RECV || st == SUSP || st == FREE)
      modifies this`currpid, this`preempt, this`attempt, this`lists, queuetab, proctab
      ensures Valid() && View() == SchedState.Resched(WithState(old(View()), old(currpid), st)) && Steady(View())
    {
      Stopped(View(), st);
      hide TableOk, Wired, AbsKeys, AbsQueues, Struct, Steady;
      SetState(currpid, st);
      Resched();
    }

    /** The current process goes to sleep for a while. */
    method Doze(delay: int, st: PState)
      requires Valid() && Steady(View()) && MayBlock(View()) && (st == SLEEP || st == RECTIM)
      modifies this`currpid, this`preempt, this`attempt, this`lists, queuetab, proctab
      ensures Valid() && View() == Dozing(old(View()), delay, st) && Steady(View())
    {
      ReadyToDoze(View(), delay, st);
      TransitOnNone(W(), lists, proctab[..], currpid);
      hide TableOk, Wired, AbsKeys, AbsQueues, Struct, Steady, SchedState.InsertSleep, OnNone, Placed;
      SleepFrame(View(), delay);
      InsertD(currpid, delay);
      SetState(currpid, st);
      Resched();
    }

    /** sleepms */
    method SleepMs(delay: nat)
      requires Valid() && Steady(View()) && (delay > 0 ==> MayBlock(View()))
      modifies this`currpid, this`preempt, this`attempt, this`lists, queuetab, proctab
      ensures Valid() && View() == SleepFor(old(View()), delay) && Steady(View())
    {
      if delay == 0 {
        YieldCpu();
      } else {
        Doze(Int32(delay), SLEEP);
      }
    }

    // ---- messages, suspension, termination ---------------------------------

    method SetProc(pid: nat, pr: Proc)
      requires Valid() && pid < proctab.Length
      modifies proctab
      ensures Valid() && View() == old(View()).(procs := old(View()).procs[pid := pr])
    {
      hide TableOk, Wired, AbsKeys, AbsQueues;
      proctab[pid] := pr;
      assert proctab[..] == old(proctab[..])[pid := pr];
    }

    /** send */
    method SendMsg(pid: int, msg: int) returns (r: int)
      requires Valid() && Steady(View())
      modifies this`currpid, this`preempt, this`attempt, this`lists, queuetab, proctab
      ensures Valid() && View() == Send(old(View()), pid, msg) && Steady(View())
      ensures r == OK <==> pid >= 0 && StateOf(old(View()), pid) != FREE && !old(View()).procs[pid].hasmsg
    {
      hide TableOk, Wired, AbsKeys, AbsQueues, Struct, Steady, SchedState.Ready, SchedState.Unsleep;
      SendSteady(View(), pid, msg);
      if pid < 0 || pid >= proctab.Length || proctab[pid].state == FREE {
        return SYSERR;
      }
      if proctab[pid].hasmsg {
        return SYSERR;
      }
      Delivered(View(), pid, msg);
      SetProc(pid, proctab[pid].(msg := msg, hasmsg := true));
      if proctab[pid].state == RECV {
        Ready(pid);
      } else if proctab[pid].state == RECTIM {
        UnsleepKeepsProcs(View(), pid);
        var r := Unsleep(pid);
        Ready(pid);
      }
      return OK;
    }

    /** receive, up to the point where the message is there */
    method AwaitMsg()
      requires Valid() && Steady(View()) && MayBlock(View())
      modifies this`currpid, this`preempt, this`attempt, this`lists, queuetab, proctab
      ensures Valid() && View() == Receive(old(View())) && Steady(View())
    {
      assert currpid < proctab.Length;
      hide TableOk, Wired, AbsKeys, AbsQueues, Struct, Steady;
      if !proctab[currpid].hasmsg {
        StopCurrent(RECV);
      }
    }

    /** recvtime, up to the point where the message is there or the time is up */
    method AwaitMsgFor(maxwait: int) returns (ok: bool)
      requires Valid() && Steady(View()) && MayBlock(View())
      modifies this`currpid, this`preempt, this`attempt, this`lists, queuetab, proctab
      ensures Valid() && View() == ReceiveTimed(old(View()), maxwait) && Steady(View())
      ensures ok <==> maxwait >= 0
    {
      if maxwait < 0 {
        return false;
      }
      assert currpid < proctab.Length;
      hide TableOk, Wired, AbsKeys, AbsQueues, Struct, Steady;
      if !proctab[currpid].hasmsg {
        Doze(maxwait, RECTIM);
      }
      return true;
    }

    /** The end of recvtime: the message if one has come, TIMEOUT if not. */
    method TakeMsg() returns (msg: int)
      requires Valid() && Steady(View())
      modifies proctab
      ensures Valid() && View() == Collect(old(View())) && Steady(View())
      ensures msg == if old(View()).procs[currpid].hasmsg then old(View()).procs[currpid].msg else TIMEOUT
    {
      CollectSteady(View());
      assert currpid < proctab.Length;
      hide TableOk, Wired, AbsKeys, AbsQueues, Steady;
      if proctab[currpid].hasmsg {
        msg := proctab[currpid].msg;
        SetProc(currpid, proctab[currpid].(hasmsg := false));
      } else {
        msg := TIMEOUT;
        assert View().procs[currpid := View().procs[currpid].(hasmsg := false)] == View().procs;
      }
    }

    /** A ready process taken off the ready list, into a state without a queue. */
    method Retire(pid: nat, st: PState)
      requires Valid() && Steady(View()) && 0 < pid < proctab.Length && View().procs[pid].state == READY && (st == SUSP || st == FREE)
      modifies this`lists, queuetab, proctab
      ensures Valid() && View() == WithState(Unlink(old(View()), pid, OnReady), pid, st) && Steady(View())
    {
      RetireSteady(View(), pid, st);
      ghost var i := PlaceOf(View().procs, View().qs, pid);
      hide TableOk, Wired, AbsKeys, AbsQueues, Struct, Steady, OnNone;
      GetItem(pid, OnReady, i);
      SetState(pid, st);
    }

    /** suspend */
    method SuspendProc(pid: int) returns (ok: bool)
      requires Valid() && Steady(View()) && (pid == currpid ==> MayBlock(View()))
      modifies this`currpid, this`preempt, this`attempt, this`lists, queuetab, proctab
      ensures Valid() && View() == Suspend(old(View()), pid) && Steady(View())
      ensures ok <==> pid > 0 && (StateOf(old(View()), pid) == CURR || StateOf(old(View()), pid) == READY)
    {
      if pid <= 0 || pid >= proctab.Length || proctab[pid].state == FREE {
        return false;
      }
      if proctab[pid].state != CURR && proctab[pid].state != READY {
        return false;
      }
      assert proctab[pid].state == CURR ==> pid == currpid;
      hide TableOk, Wired, AbsKeys, AbsQueues, Struct, Steady, Unlink;
      if proctab[pid].state == READY {
        Retire(pid, SUSP);
      } else {
        StopCurrent(SUSP);
      }
      return true;
    }

    /** resume */
    method ResumeProc(pid: int) returns (ok: bool)
      requires Valid() && Steady(View())
      modifies this`currpid, this`preempt, this`attempt, this`lists, queuetab, proctab
      ensures Valid() && View() == Resume(old(View()), pid) && Steady(View())
      ensures ok <==> pid >= 0 && StateOf(old(View()), pid) == SUSP
    {
      if pid < 0 || pid >= proctab.Length || proctab[pid].state != SUSP {
        return false;
      }
      LeaveStruct(View(), pid);
      hide TableOk, Wired, AbsKeys, AbsQueues, Struct, SchedState.Ready;
      Ready(pid);
      return true;
    }

    method KillSleeper(pid: nat)
      requires Valid() && Steady(View()) && pid < proctab.Length && Home(View().procs[pid]) == OnSleep
      modifies this`lists, queuetab, proctab
      ensures Valid() && View() == WithState(SchedState.Unsleep(old(View()), pid), pid, FREE)
    {
      SteadyStruct(View());
      hide TableOk, Wired, AbsKeys, AbsQueues, Struct, Steady, SchedState.Unsleep;
      var r := Unsleep(pid);
      SetState(pid, FREE);
    }

    /** kill's treatment of queues, counts and states */
    method KillProc(pid: int) returns (ok: bool)
      requires Valid() && Inv(View()) && (pid == currpid ==> MayBlock(View()))
      modifies this`currpid, this`preempt, this`attempt, this`lists, queuetab, proctab, semtab
      ensures Valid() && View() == Kill(old(View()), pid) && Inv(View())
      ensures ok <==> pid > 0 && StateOf(old(View()), pid) != FREE
    {
      KillInv(View(), pid);
      InvParts(View());
      if pid <= 0 || pid >= proctab.Length || proctab[pid].state == FREE {
        return false;
      }
      assert proctab[pid].state == CURR ==> pid == currpid;
      if proctab[pid].state == WAIT {
        WaiterCounted(View(), pid);
      }
      hide TableOk, Wired, AbsKeys, AbsQueues, Struct, Steady, Inv, Unlink, SchedState.Unsleep, Counted, Without;
      match proctab[pid].state {
        case CURR => StopCurrent(FREE);
        case SLEEP => KillSleeper(pid);
        case RECTIM => KillSleeper(pid);
        case WAIT => KillWaiter(pid);
        case READY => Retire(pid, FREE);
        case RECV => SetState(pid, FREE);
        case SUSP => SetState(pid, FREE);
      }
      return true;
    }

    /** A waiter's place on the queue is given back to the count. */
    method KillWaiter(pid: nat)
      requires Valid() && Steady(View()) && pid < proctab.Length && View().procs[pid].state == WAIT && View().procs[pid].sem < semtab.Length
      modifies this`lists, queuetab, proctab, semtab
      ensures Valid()
      ensures var k := old(View()); var s := k.procs[pid].sem;
              View() == WithState(Unlink(AddCount(k, s, 1), pid, OnSem(s)), pid, FREE)
    {
      hide TableOk, Wired, AbsKeys, AbsQueues, Steady, OnNone, Drop, Find, Without;
      ghost var i := WaitPlace(View(), pid);
      var s := proctab[pid].sem;
      SetSem(s, semtab[s].(count := semtab[s].count + 1));
      GetItem(pid, OnSem(s), i);
      SetState(pid, FREE);
    }
  }

  lemma SteadyStruct(k: Kern)
    requires Steady(k)
    ensures Struct(k, -1)
  {
  }

  lemma Stopped(k: Kern, st: PState)
    requires Steady(k) && MayBlock(k) && (st == RECV || st == SUSP || st == FREE)
    ensures k.curr < |k.procs| && Struct(WithState(k, k.curr, st), -1)
  {
    LeaveStruct(k, k.curr);
    TransitStruct(k, k.curr, k.procs[k.curr].(state := st));
    StayStruct(WithState(k, k.curr, st), k.curr);
  }

  lemma ReadyToDoze(k: Kern, d: int, st: PState)
    requires Steady(k) && MayBlock(k) && (st == SLEEP || st == RECTIM)
    ensures k.curr < |k.procs| && Placed(k.procs, k.qs, k.curr)
    ensures Struct(WithState(InsertSleep(k, k.curr, d), k.curr, st), -1)
  {
    LeaveStruct(k, k.curr);
    InsertSleepStruct(k, k.curr, d, st);
  }

  /** After the message is stored, a receiver is in a position to be made ready. */
  lemma Delivered(k: Kern, p: nat, msg: int)
    requires Steady(k) && p < |k.procs|
    ensures var k1 := Deliver(k, p, msg);
            Struct(k1, -1) && k1.procs[k1.curr].state == CURR
            && (k.procs[p].state == RECV ==> p != k.curr && Struct(k1, p))
            && (k.procs[p].state == RECTIM ==> p != k.curr && Struct(SchedState.Unsleep(k1, p), p))
  {
    var k1 := Deliver(k, p, msg);
    DeliverSteady(k, p, msg);
    if k.procs[p].state == RECV {
      LeaveStruct(k1, p);
    }
    if k.procs[p].state == RECTIM {
      UnsleepStruct(k1, p);
    }
  }

  lemma UnsleepKeepsProcs(k: Kern, p: nat)
    ensures SchedState.Unsleep(k, p).procs == k.procs && SchedState.Unsleep(k, p).curr == k.curr
  {
  }

  function BootProc(i: int): Proc { Proc(if i == NULLPROC then CURR else FREE, 0, 0, false, 0) }

  /** The kernel before its first call. */
  ghost function Boot(nproc: nat, nsem: nat): Kern {
    Kern(seq<Proc>(nproc, i requires 0 <= i < nproc => BootProc(i)),
         seq<Sem>(nsem, i requires 0 <= i < nsem => Sem(false, 0)),
         Queues([], [], seq<seq<nat>>(nsem, i requires 0 <= i < nsem => [])),
         seq<int>(nproc, i requires 0 <= i < nproc => 0),
         NULLPROC, 0, false, 0)
  }

  lemma BootInv(nproc: nat, nsem: nat)
    requires nproc > 0
    ensures Inv(Boot(nproc, nsem))
  {
    var k := Boot(nproc, nsem);
    forall pl
      ensures Queue(k.qs, pl) == []
    {
    }
    assert Placed(k.procs, k.qs, -1);
  }

  ghost predicate OnlyEmpty(lists: Lists, nproc: nat, next: nat) {
    nproc <= next && (next - nproc) % 2 == 0
    && (forall q | q in lists :: nproc <= q < next && (q - nproc) % 2 == 0 && lists[q] == [])
    && (forall q | nproc <= q < next && (q - nproc) % 2 == 0 :: q in lists)
  }

  lemma BootTable(tab: Table, nproc: nat)
    requires nproc <= |tab| && forall i | 0 <= i < nproc :: tab[i].qkey == 0
    ensures TableOk(tab, map[], nproc) && OnlyEmpty(map[], nproc, nproc)
    ensures AbsKeys(tab, nproc) == seq<int>(nproc, i requires 0 <= i < nproc => 0)
  {
  }

  lemma BootWired(w: Wiring, lists: Lists, nproc: nat, nsem: nat)
    requires OnlyEmpty(lists, nproc, nproc + 2 * (nsem + 2))
    requires w == Wiring(nproc + 2 * nsem, nproc + 2 * nsem + 2, seq<nat>(nsem, i requires 0 <= i < nsem => nproc + 2 * i))
    ensures Wired(w, lists)
  {
    forall i | 0 <= i < nsem
      ensures w.squeue[i] in lists
    {
      assert (w.squeue[i] - nproc) % 2 == 0;
    }
    forall q | q in lists
      ensures q == w.readylist || q == w.sleepq || q in w.squeue
    {
      var i := (q - nproc) / 2;
      if i < nsem {
        assert w.squeue[i] == q;
      }
    }
  }

  lemma BootQueues(w: Wiring, lists: Lists, nproc: nat, next: nat)
    requires OnlyEmpty(lists, nproc, next)
    ensures AbsQueues(w, lists) == Queues([], [], seq<seq<nat>>(|w.squeue|, i requires 0 <= i < |w.squeue| => []))
  {
  }

  /** newqueue's test lets through only queues that fit in the table. */
  predicate GuardHolds(nqent: nat, q: nat) {
    !(q > nqent) ==> q + 1 < nqent
  }

  /** With the table's real size, the test is wrong for exactly one request: the first one too many. */
  lemma GuardFails(nproc: nat, nsem: nat, j: nat)
    ensures GuardHolds(nproc + 4 + nsem + nsem, nproc + 2 * j) <==> j != nsem + 2
  {
  }

  lemma WaitPlace(k: Kern, p: nat) returns (i: nat)
    requires Steady(k) && p < |k.procs| && k.procs[p].state == WAIT
    ensures var q := Queue(k.qs, OnSem(k.procs[p].sem)); i < |q| && q[i] == p && Without(q, p) == Drop(q, i)
  {
    i := PlaceOf(k.procs, k.qs, p);
  }

  lemma SleepPlace(k: Kern, p: nat) returns (i: nat)
    requires Struct(k, -1) && p < |k.procs| && Home(k.procs[p]) == OnSleep
    ensures i < |k.qs.sleep| && k.qs.sleep[i] == p && Find(k.qs.sleep, p) == i && Without(k.qs.sleep, p) == Drop(k.qs.sleep, i)
  {
    i := PlaceOf(k.procs, k.qs, p);
    assert k.qs.sleep == Queue(k.qs, OnSleep);
    assert NoDup(Queue(k.qs, OnSleep));
    FindIs(k.qs.sleep, i);
  }

  /** The `i`-th entry tried from `start`, going round. */
  function Try(start: nat, i: nat, n: nat): nat
    requires start < n && i <= n
  {
    if start + i < n then start + i else start + i - n
  }

  /** Entry `s` is among the first `i` tried. */
  predicate Tried(start: nat, i: nat, n: nat, s: nat) {
    start <= s < start + i || s + n < start + i
  }

  lemma WakeStep(k: Kern, n: nat)
    ensures WakeSome(k, n) == if n == 0 then k else WakeSome(WakeFirst(k), n - 1)
  {
  }

  lemma WakeNext(k: Kern)
    requires Steady(k) && k.ndefers > 0 && Expired(SleepKeys(k)) > 0
    ensures k.qs.sleep != [] && WakeFirst(k).ndefers > 0
    ensures Expired(SleepKeys(WakeFirst(k))) == Expired(SleepKeys(k)) - 1
  {
    SleepSize(k);
    hide Steady, WakeFirst, SleepKeys;
    WakeFirstSleep(k);
    WakeFirstSteady(k);
  }

  /** The first sleeper in transit. */
  lemma SleeperLeaves(k: Kern)
    requires Steady(k) && k.qs.sleep != []
    ensures var p := k.qs.sleep[0]; var k1 := k.(qs := k.qs.(sleep := k.qs.sleep[1..]));
            Struct(k1, p) && p < |k.procs| && p != k.curr && k1.procs[k1.curr].state == CURR
  {
    var q := k.qs.sleep;
    assert Queue(k.qs, OnSleep) == q && Drop(q, 0) == q[1..];
    UnlinkStruct(k, OnSleep, 0);
  }

  lemma ReleaseShorter(k: Kern, s: nat)
    requires Steady(k) && Queue(k.qs, OnSem(s)) != []
    ensures |Queue(Release(k, s).qs, OnSem(s))| == |Queue(k.qs, OnSem(s))| - 1
  {
    hide Steady, Release;
    ReleaseSteady(k, s);
  }

  lemma DrainStep(k: Kern, s: nat, n: nat)
    ensures Drain(k, s, n) == if n == 0 then k else Drain(Release(k, s), s, n - 1)
  {
  }

  lemma BumpsStep(k: Kern, s: nat, n: nat)
    ensures Bumps(k, s, n) == if n == 0 then k else Bumps(Bump(k, s), s, n - 1)
  {
  }

  lemma MadeReady(k: Kern, p: nat)
    requires Struct(k, p) && p < |k.procs| && p != k.curr && k.procs[k.curr].state == CURR
    ensures var k1 := WithState(k, p, READY);
            Struct(k1, p) && k1.procs[p].prio >= 0 && Struct(SchedState.InsertReady(k1, p), -1)
            && SchedState.InsertReady(k1, p).procs[k.curr].state == CURR
  {
    TransitStruct(k, p, k.procs[p].(state := READY));
    InsertReadyStruct(WithState(k, p, READY), p);
  }

  /** The first waiter in transit, ready to be made ready. */
  lemma HeadLeaves(k: Kern, s: nat)
    requires Steady(k) && Queue(k.qs, OnSem(s)) != []
    ensures var q := k.qs.semq[s]; var k1 := k.(qs := WithQueue(k.qs, OnSem(s), q[1..]));
            Struct(k1, q[0]) && q[0] < |k.procs| && q[0] != k.curr && k1.procs[k1.curr].state == CURR
  {
    var q := k.qs.semq[s];
    assert Queue(k.qs, OnSem(s)) == q && Drop(q, 0) == q[1..];
    UnlinkStruct(k, OnSem(s), 0);
  }

  lemma BlockReady(k: Kern, s: nat)
    requires Inv(k) && Usable(k, s) && k.sems[s].count <= 0 && MayBlock(k)
    ensures var k1 := AddCount(k, s, -1);
            k.curr < |k.procs| && Placed(k1.procs, k1.qs, k.curr) && Struct(Block(k1, s), -1) && Block(k1, s).ndefers == 0
  {
    InvParts(k);
    var k1 := AddCount(k, s, -1);
    CountOnly(k, k1.sems);
    BlockStruct(k1, s);
    LeaveStruct(k1, k.curr);
  }

  lemma SleepersBelow(w: Wiring, tab: Table, lists: Lists, n: nat)
    requires TableOk(tab, lists, n)
    ensures forall j | 0 <= j < |AbsQueues(w, lists).sleep| :: AbsQueues(w, lists).sleep[j] < n
  {
  }

  lemma HeadNode(q: nat, s: seq<nat>)
    ensures Node(q, s, 0) == q
  {
  }

  lemma NextNode(tab: Table, lists: Lists, n: nat, q: nat, i: nat)
    requires TableOk(tab, lists, n) && q in lists && i < |lists[q]|
    ensures Node(q, lists[q], i + 1) == lists[q][i] && Node(q, lists[q], i + 2) < |tab|
  {
    LinkOf(tab, lists, n, q, i + 1);
  }

  lemma RankStep(ks: seq<int>, d: int, i: nat)
    requires i <= |ks|
    ensures RankFrom(ks, d, i) == if i < |ks| && ks[i] >= d then RankFrom(ks, d, i + 1) else i
  {
  }

  lemma DeltaStep(ks: seq<int>, d: int, i: nat)
    requires i <= |ks|
    ensures DeltaFrom(ks, d, i) == if i < |ks| && ks[i] <= d then DeltaFrom(ks, d - ks[i], i + 1) else (i, d)
  {
  }

  lemma KeyHere(tab: Table, n: nat, p: nat)
    requires p < n <= |tab|
    ensures AbsKeys(tab, n)[p] == tab[p].qkey && KeyOf(AbsKeys(tab, n), p) == tab[p].qkey
  {
  }

  /** The current process gives way: marked ready and put on the ready list, which then is not empty. */
  lemma StepAside(k: Kern)
    requires Struct(k, -1) && k.procs[k.curr].state == CURR
    ensures var k1 := WithState(k, k.curr, READY);
            Struct(k1, k.curr) && k1.procs[k.curr].prio >= 0 && Struct(InsertReady(k1, k.curr), -1)
            && InsertReady(k1, k.curr).qs.ready != []
  {
    LeaveStruct(k, k.curr);
    TransitStruct(k, k.curr, k.procs[k.curr].(state := READY));
    InsertReadyStruct(WithState(k, k.curr, READY), k.curr);
  }
}
