/**
 The port table and its message nodes as ptsend, ptrecv, _ptclear, ptcreate and ptinit change them.
 Every call takes the table through exactly the step that PortRun reasons about.
 */
module PortCode {
  import opened SchedLists
  import opened Bags
  import opened PortNodes
  import opened PortState
  import opened PortSteps
  import opened PortRun

  datatype Status = PT_FREE | PT_LIMBO | PT_ALLOC

  /** An entry of the port table, with the two semaphores it names. */
  datatype PtEntry = PtEntry(
    ssem: Semv, rsem: Semv, ptstate: Status, ptseq: nat, ptmaxcnt: nat, pthead: int, pttail: int)

  /** How far the process in _ptclear has come: after stage 1 the sender semaphore is done, after stage 2 both are. */
  datatype Clearing = Clearing(reset: bool, stage: nat)

  /** A port's history in its current life. */
  datatype Past = Past(cap: nat, sent: seq<int>, got: seq<int>, slost: nat, rlost: nat)

  const SYSERR := -1

  class PortTable {
    const node: array<PtNode>
    const porttab: array<PtEntry>
    var ptfree: int
    var ptnextid: nat
    /** The processes in ptsend or ptrecv, each with what it keeps in local variables. */
    var calls: map<nat, Call>
    /** The processes in _ptclear, by port. */
    var clears: map<nat, Clearing>
    ghost var past: seq<Past>
    /** The free list, then one list per port. */
    ghost var lists: Lists

    ghost predicate EntryOk(i: nat)
      reads this`lists, porttab
      requires i < porttab.Length && |lists| == porttab.Length + 1
    {
      if porttab[i].ptstate == PT_ALLOC then
        porttab[i].pthead == HeadOf(lists[i + 1]) && porttab[i].pttail == TailOf(lists[i + 1])
      else lists[i + 1] == []
    }

    ghost predicate Valid()
      reads this`lists, this`ptfree, node, porttab
    {
      |lists| == porttab.Length + 1 && Partition(lists, node.Length) && ptfree == HeadOf(lists[0])
      && (forall a | 0 <= a < |lists| :: Chained(node[..], lists[a]))
      && (forall i | 0 <= i < porttab.Length :: EntryOk(i))
    }

    /** The messages in a port, oldest first. */
    ghost function Msgs(i: nat): seq<int>
      reads this`lists, node
    {
      if i + 1 < |lists| then Contents(node[..], lists[i + 1]) else []
    }

    /** Nothing but port `i` and the free list has changed. */
    twostate predicate OthersSame(i: nat)
      reads this`lists, node, porttab
    {
      |lists| == |old(lists)|
      && (forall j | 0 <= j < porttab.Length && j != i :: porttab[j] == old(porttab[j]) && Msgs(j) == old(Msgs(j)))
    }

    // ---- what the table stands for ----------------------------------------

    ghost predicate ClearingOk(i: nat)
      requires i < porttab.Length
      reads porttab, this`clears
    {
      porttab[i].ptstate == PT_LIMBO ==>
        i in clears && (clears[i].reset ==> porttab[i].pthead == NULL && porttab[i].pttail == NULL)
    }

    ghost predicate Whole()
      reads this, node, porttab
    {
      Valid() && |past| == porttab.Length && ptnextid < porttab.Length && forall i | 0 <= i < porttab.Length :: ClearingOk(i)
    }

    ghost function StateOf(i: nat): PtState
      requires i < porttab.Length
      reads porttab, this`clears
    {
      match porttab[i].ptstate
      case PT_FREE => FREE
      case PT_ALLOC => ALLOC
      case PT_LIMBO => if i in clears then LIMBO(clears[i].reset, clears[i].stage) else FREE
    }

    ghost function PortAt(i: nat): Port
      requires i < porttab.Length
      reads this, node, porttab
    {
      var e, h := porttab[i], if i < |past| then past[i] else Past(0, [], [], 0, 0);
      Port(StateOf(i), e.ptseq, h.cap, e.ptmaxcnt, e.ssem, e.rsem, Msgs(i), h.sent, h.got, h.slost, h.rlost)
    }

    /** The ports, the callers and the number of free nodes: the state PortRun's steps work on. */
    ghost function View(): Sys
      reads this, node, porttab
    {
      Sys(seq<Port>(porttab.Length, i requires 0 <= i < porttab.Length reads this, node, porttab => PortAt(i)),
          calls, if lists == [] then 0 else |lists[0]|)
    }

    /** The table is well formed and its ports satisfy the invariant of every run. */
    ghost predicate Live()
      reads this, node, porttab
    {
      Whole() && Inv(View(), node.Length)
    }

    /** Histories and clearings of the other ports are as they were. */
    twostate predicate RestSame(i: nat)
      reads this
    {
      |past| == |old(past)|
      && forall j | 0 <= j < |past| && j != i ::
        past[j] == old(past[j]) && (j in clears <==> j in old(clears)) && (j in clears ==> clears[j] == old(clears)[j])
    }

    twostate lemma OneChanged(i: nat)
      requires old(Whole()) && Valid() && |past| == porttab.Length && ptnextid < porttab.Length
      requires i < porttab.Length && ClearingOk(i) && OthersSame(i) && RestSame(i)
      ensures Whole() && View() == Sys(old(View()).ports[i := PortAt(i)], calls, |lists[0]|)
    {
      assert |lists| == |old(lists)| == porttab.Length + 1;
      hide Msgs, Valid;
      forall j | 0 <= j < porttab.Length && j != i
        ensures PortAt(j) == old(PortAt(j)) && ClearingOk(j)
      {
        assert old(ClearingOk(j));
      }
    }

    lemma EntryAt(i: nat)
      requires i < porttab.Length
      ensures var pt := View().ports[i];
              (pt.state == ALLOC <==> porttab[i].ptstate == PT_ALLOC) && pt.sq == porttab[i].ptseq && pt.msgs == Msgs(i)
    {
      assert View().ports[i] == PortAt(i);
    }

    lemma SizeOfView()
      ensures |View().ports| == porttab.Length && View().calls == calls
    {
    }

    // ---- the calls, between two points where another process may run -------

    /** One of a port's semaphores changes. */
    method SetSem(i: nat, sender: bool, s: Semv)
      requires Valid() && i < porttab.Length
      modifies porttab
      ensures Valid() && forall j | 0 <= j < porttab.Length && j != i :: porttab[j] == old(porttab[j])
      ensures porttab[i] == if sender then old(porttab[i]).(ssem := s) else old(porttab[i]).(rsem := s)
    {
      hide Partition, Chained;
      porttab[i] := if sender then porttab[i].(ssem := s) else porttab[i].(rsem := s);
      assert forall j | 0 <= j < porttab.Length :: old(EntryOk(j)) ==> EntryOk(j);
    }

    /** wait, as ptsend and ptrecv call it: the caller goes on, or joins the queue with what it has to remember */
    method Wait(p: nat, i: nat, sender: bool, msg: int) returns (blocked: bool)
      requires Whole() && i < porttab.Length
      modifies this`calls, porttab
      ensures Whole() && porttab[i].ptstate == old(porttab[i].ptstate)
      ensures var y, pt := old(View()), old(PortAt(i)); var s := SemOf(pt, sender);
              blocked == (s.count - 1 < 0)
              && View() == if blocked then Sys(y.ports[i := WithSem(pt, sender, Semv(s.count - 1, s.q + [p]))], y.calls[p := Call(i, pt.sq, sender, msg)], y.free)
                           else WithPort(y, i, WithSem(pt, sender, s.(count := s.count - 1)))
    {
      assert ClearingOk(i) && |lists| == porttab.Length + 1;
      hide Valid, Msgs, StateOf;
      var s := if sender then porttab[i].ssem else porttab[i].rsem;
      blocked := s.count - 1 < 0;
      var t := Semv(s.count - 1, if blocked then s.q + [p] else s.q);
      SetSem(i, sender, t);
      if blocked {
        calls := calls[p := Call(i, porttab[i].ptseq, sender, msg)];
      }
      OneChanged(i);
    }

    /** ptsend once it is let through */
    method SendRest(i: nat, msg: int) returns (r: Result)
      requires Whole() && i < porttab.Length && porttab[i].ptstate == PT_ALLOC
      modifies node, porttab, this`ptfree, this`lists, this`past
      ensures Whole() && (View(), r) == Deposit(old(View()), i, msg)
    {
      hide Valid, Msgs;
      var panic := LinkMsg(i, msg);
      if panic {
        OneChanged(i);
        assert View().ports == old(View()).ports;
        return OutOfNodes;
      }
      past := past[i := past[i].(sent := past[i].sent + [msg])];
      SetSem(i, false, Up(porttab[i].rsem));
      OneChanged(i);
      return Done;
    }

    /** ptrecv once it is let through */
    method RecvRest(i: nat) returns (r: Result)
      requires Whole() && i < porttab.Length && porttab[i].ptstate == PT_ALLOC && Msgs(i) != []
      modifies node, porttab, this`ptfree, this`lists, this`past
      ensures Whole() && (View(), r) == Withdraw(old(View()), i)
    {
      hide Valid, Msgs;
      var msg := UnlinkMsg(i);
      past := past[i := past[i].(got := past[i].got + [msg])];
      SetSem(i, true, Up(porttab[i].ssem));
      OneChanged(i);
      return Message(msg);
    }

    /** ptsend; with capacities that add up to no more than the nodes there are, it never panics */
    method PtSend(p: nat, i: int, msg: int) returns (r: Result)
      requires Live() && p !in calls
      modifies this, node, porttab
      ensures Whole() && (View(), r) == Do(old(View()), Send(p, i, msg))
      ensures r != OutOfNodes ==> Live()
      ensures Rooms(old(View()).ports) <= node.Length ==> r != OutOfNodes
    {
      ghost var y := View();
      StepInv(y, node.Length, Send(p, i, msg));
      if Rooms(y.ports) <= node.Length {
        NoPanic(y, node.Length, Send(p, i, msg));
      }
      SizeOfView();
      if 0 <= i < porttab.Length {
        EntryAt(i);
        assert y.ports[i] == PortAt(i);
      }
      hide Valid, Msgs, Inv, Deposit, Rooms, View, PortAt, ClearingOk;
      if i < 0 || i >= porttab.Length || porttab[i].ptstate != PT_ALLOC {
        return Error;
      }
      var blocked := Wait(p, i, true, msg);
      if blocked {
        return Blocked;
      }
      r := SendRest(i, msg);
    }

    /** ptrecv; past its checks it always finds a message at the head of the list */
    method PtRecv(p: nat, i: int) returns (r: Result)
      requires Live() && p !in calls
      modifies this, node, porttab
      ensures Live() && (View(), r) == Do(old(View()), Recv(p, i))
    {
      StepInv(View(), node.Length, Recv(p, i));
      hide Valid, Msgs, Inv;
      if i < 0 || i >= porttab.Length || porttab[i].ptstate != PT_ALLOC {
        return Error;
      }
      var blocked := Wait(p, i, false, 0);
      if blocked {
        return Blocked;
      }
      r := RecvRest(i);
    }

    /** A process comes out of its call. */
    method DropCall(p: nat)
      requires Whole()
      modifies this`calls
      ensures Whole() && View() == old(View()).(calls := old(View()).calls - {p}) && calls == old(calls) - {p}
    {
      hide Valid, Msgs;
      calls := calls - {p};
      assert View().ports == old(View()).ports;
    }

    /** A process let through runs again: it tests state and sequence number, and goes on or gives up. */
    method PtGo(p: nat) returns (r: Result)
      requires Live() && LetThrough(View(), p)
      modifies this, node, porttab
      ensures Whole() && (View(), r) == Do(old(View()), Go(p))
      ensures r != OutOfNodes ==> Live()
      ensures Rooms(old(View()).ports) <= node.Length ==> r != OutOfNodes
    {
      ghost var y := View();
      StepInv(y, node.Length, Go(p));
      if Rooms(y.ports) <= node.Length {
        NoPanic(y, node.Length, Go(p));
      }
      hide Valid, Msgs, Inv, Deposit, Rooms, View, PortAt, ClearingOk;
      SizeOfView();
      var c := calls[p];
      EntryAt(c.port);
      DropCall(p);
      EntryAt(c.port);
      if porttab[c.port].ptstate != PT_ALLOC || porttab[c.port].ptseq != c.sq {
        return Error;
      }
      if c.sender {
        r := SendRest(c.port, c.msg);
      } else {
        r := RecvRest(c.port);
      }
    }

    /** _ptclear up to the point where the senders are released */
    method IntoLimbo(i: nat, reset: bool) returns (disposed: seq<int>)
      requires Whole() && i < porttab.Length && porttab[i].ptstate == PT_ALLOC
      modifies this, node, porttab
      ensures Valid() && |past| == porttab.Length && ptnextid < porttab.Length && ClearingOk(i)
      ensures OthersSame(i) && RestSame(i) && calls == old(calls)
      ensures disposed == old(Msgs(i)) && |lists[0]| == |old(lists)[0]| + |disposed| && PortAt(i) == Limbo(old(PortAt(i)), reset)
    {
      assert |Msgs(i)| == |lists[i + 1]| && |lists| == porttab.Length + 1;
      hide Valid, Msgs;
      disposed := ClearMsgs(i, reset);
      clears := clears[i := Clearing(reset, 1)];
      past := past[i := Past(past[i].cap, [], [], 0, 0)];
      SetSem(i, true, Semv(if reset then porttab[i].ptmaxcnt else 0, []));
    }

    method ClearRest(i: nat, reset: bool) returns (disposed: seq<int>)
      requires Whole() && i < porttab.Length && porttab[i].ptstate == PT_ALLOC
      modifies this, node, porttab
      ensures Whole() && (View(), Done) == Clear(old(View()), i, reset) && disposed == old(Msgs(i))
    {
      EntryAt(i);
      assert |lists| > 0 && View().ports[i] == PortAt(i);
      hide Valid, Msgs, PortAt, ClearingOk;
      disposed := IntoLimbo(i, reset);
      OneChanged(i);
    }

    /** ptreset and ptdelete, up to that point */
    method PtClear(i: int, reset: bool) returns (r: Result, disposed: seq<int>)
      requires Live()
      modifies this, node, porttab
      ensures Live() && (View(), r) == Do(old(View()), if reset then Reset(i) else Delete(i))
      ensures disposed == if r == Done then old(View()).ports[i].msgs else []
    {
      StepInv(View(), node.Length, if reset then Reset(i) else Delete(i));
      hide Valid, Msgs, Inv, ClearingOk;
      if i < 0 || i >= porttab.Length || porttab[i].ptstate != PT_ALLOC {
        return Error, [];
      }
      disposed := ClearRest(i, reset);
      return Done, disposed;
    }

    /** The receivers released. */
    method NextRecv(i: nat)
      requires Whole() && i < porttab.Length && porttab[i].ptstate == PT_LIMBO && i in clears && clears[i].stage == 1
      modifies this`clears, porttab
      ensures Whole() && View() == ClearNext(old(View()), i)
    {
      hide Valid, Msgs;
      assert ClearingOk(i);
      SetSem(i, false, Semv(0, []));
      clears := clears[i := Clearing(clears[i].reset, 2)];
      OneChanged(i);
    }

    /** The new state. */
    method NextState(i: nat)
      requires Whole() && i < porttab.Length && porttab[i].ptstate == PT_LIMBO && i in clears && clears[i].stage != 1
      modifies this, porttab
      ensures Whole() && View() == ClearNext(old(View()), i)
    {
      assert ClearingOk(i) && EntryOk(i) && Msgs(i) == [];
      hide Valid, Msgs;
      var c := clears[i];
      SetState(i, c.reset);
      clears := clears - {i};
      past := past[i := past[i].(cap := porttab[i].ptmaxcnt)];
      if !c.reset {
        ptnextid := i;
      }
      OneChanged(i);
    }

    /** _ptclear goes on: the receivers released, then the new state; ptdelete also makes the port the next one to try */
    method PtNext(i: nat)
      requires Live()
      modifies this, porttab
      ensures Live() && View() == Do(old(View()), Next(i)).0
    {
      StepInv(View(), node.Length, Next(i));
      assert i < porttab.Length ==> ClearingOk(i);
      hide Valid, Msgs, Inv;
      if i >= porttab.Length || porttab[i].ptstate != PT_LIMBO {
        return;
      }
      if clears[i].stage == 1 {
        NextRecv(i);
      } else {
        NextState(i);
      }
    }

    /** ptcreate */
    method PtCreate(count: int) returns (r: int)
      requires Live()
      modifies this, porttab
      ensures Live()
      ensures r == SYSERR <==> count < 0 || forall i | 0 <= i < porttab.Length :: old(View()).ports[i].state != FREE
      ensures r == SYSERR ==> View() == old(View())
      ensures r != SYSERR ==> 0 <= r < porttab.Length && (View(), Done) == Do(old(View()), New(r, count))
    {
      hide Valid, Msgs, Inv;
      ghost var y := View();
      r := CreateRest(count);
      if r != SYSERR {
        CreateInv(y, node.Length, r, count);
      }
    }

    method CreateRest(count: int) returns (r: int)
      requires Whole()
      modifies this, porttab
      ensures Whole()
      ensures r == SYSERR <==> count < 0 || forall i | 0 <= i < porttab.Length :: old(View()).ports[i].state != FREE
      ensures r == SYSERR ==> View() == old(View())
      ensures r != SYSERR ==> 0 <= r < porttab.Length && (View(), Done) == Create(old(View()), r, count)
    {
      hide Valid, Msgs;
      ghost var y := View();
      forall i | 0 <= i < porttab.Length
        ensures y.ports[i].state == FREE <==> porttab[i].ptstate == PT_FREE
      {
        assert ClearingOk(i);
      }
      r := CreatePort(count);
      if r != SYSERR {
        past := past[r := Past(count, [], [], 0, 0)];
        OneChanged(r);
      } else {
        assert old(ClearingOk(0));
        OneChanged(0);
        assert View().ports == y.ports;
      }
    }

    /** A process leaves the semaphore it waits for, or takes along the permission it has. */
    method LeaveSem(p: nat)
      requires Whole() && p in calls && calls[p].port < porttab.Length
      modifies this, porttab
      ensures Whole() && View() == Kill(old(View()), p)
    {
      hide Valid, Msgs, Without;
      var c := calls[p];
      var i := c.port;
      assert ClearingOk(i);
      calls := calls - {p};
      var e := porttab[i];
      if c.sender && p in e.ssem.q {
        SetSem(i, true, Semv(e.ssem.count + 1, Without(e.ssem.q, p)));
      } else if !c.sender && p in e.rsem.q {
        SetSem(i, false, Semv(e.rsem.count + 1, Without(e.rsem.q, p)));
      } else if e.ptstate == PT_ALLOC && c.sq == e.ptseq {
        past := past[i := if c.sender then past[i].(slost := past[i].slost + 1) else past[i].(rlost := past[i].rlost + 1)];
      }
      OneChanged(i);
    }

    lemma CallerOk(p: nat)
      requires Live()
      ensures Whole() && View().calls == calls && (p in calls ==> calls[p].port < porttab.Length)
      ensures p !in calls ==> Kill(View(), p) == View()
    {
      hide Valid, PortOk;
      assert p in calls ==> View().calls[p] == calls[p];
    }

    /** kill, as far as ports are concerned */
    method PtKill(p: nat)
      requires Live()
      modifies this, porttab
      ensures Live() && View() == Do(old(View()), Die(p)).0
    {
      hide Valid, Msgs, Inv, Kill, View, Whole;
      StepInv(View(), node.Length, Die(p));
      CallerOk(p);
      if p in calls {
        LeaveSem(p);
      }
    }

    // ---- the linked lists ---------------------------------------------------

    /** ptsend after its checks: the first free node takes the message to the end of the port's list */
    method LinkMsg(i: nat, msg: int) returns (panic: bool)
      requires Valid() && i < porttab.Length && porttab[i].ptstate == PT_ALLOC
      modifies node, porttab, this`ptfree, this`lists
      ensures Valid() && OthersSame(i)
      ensures panic <==> old(lists)[0] == []
      ensures panic ==> lists == old(lists) && porttab[i] == old(porttab[i]) && Msgs(i) == old(Msgs(i))
      ensures !panic ==> Msgs(i) == old(Msgs(i)) + [msg] && |lists[0]| == |old(lists)[0]| - 1
      ensures !panic ==> porttab[i] == old(porttab[i]).(pthead := porttab[i].pthead, pttail := porttab[i].pttail)
    {
      hide Partition, Chained, Linked, Contents;
      if ptfree == NULL {
        return true;
      }
      assert EntryOk(i);
      ghost var ls, nodes := lists, node[..];
      ghost var free, s := ls[0], ls[i + 1];
      LinkFacts(nodes, ls, i + 1, msg);
      var msgnode := ptfree;
      ptfree := node[msgnode].ptnext;
      node[msgnode] := PtNode(msg, NULL);
      var tailnode := porttab[i].pttail;
      if tailnode == NULL {
        porttab[i] := porttab[i].(pthead := msgnode, pttail := msgnode);
      } else {
        node[tailnode] := node[tailnode].(ptnext := msgnode);
        porttab[i] := porttab[i].(pttail := msgnode);
      }
      assert node[..] == Linked(nodes, free, s, msg) by { LinkedIs(nodes, free, s, msg, node[..]); }
      lists := ls[0 := free[1..]][i + 1 := s + [free[0]]];
      forall j | 0 <= j < porttab.Length
        ensures EntryOk(j)
      {
        assert old(EntryOk(j));
      }
      return false;
    }

    /** ptrecv after its checks: the head node leaves the port for the front of the free list */
    method UnlinkMsg(i: nat) returns (msg: int)
      requires Valid() && i < porttab.Length && porttab[i].ptstate == PT_ALLOC && Msgs(i) != []
      modifies node, porttab, this`ptfree, this`lists
      ensures Valid() && OthersSame(i)
      ensures msg == old(Msgs(i))[0] && Msgs(i) == old(Msgs(i))[1..] && |lists[0]| == |old(lists)[0]| + 1
      ensures porttab[i] == old(porttab[i]).(pthead := porttab[i].pthead, pttail := porttab[i].pttail)
    {
      hide Partition, Chained, Contents;
      assert EntryOk(i);
      ghost var ls, nodes := lists, node[..];
      ghost var free, s := ls[0], ls[i + 1];
      HeadMsg(nodes, s);
      UnlinkFacts(nodes, ls, i + 1);
      var msgnode := porttab[i].pthead;
      msg := node[msgnode].ptmsg;
      if porttab[i].pthead == porttab[i].pttail {
        porttab[i] := porttab[i].(pthead := NULL, pttail := NULL);
      } else {
        porttab[i] := porttab[i].(pthead := node[msgnode].ptnext);
      }
      node[msgnode] := node[msgnode].(ptnext := ptfree);
      ptfree := msgnode;
      assert node[..] == nodes[s[0] := nodes[s[0]].(ptnext := HeadOf(free))];
      lists := ls[i + 1 := s[1..]][0 := [s[0]] + free];
      forall j | 0 <= j < porttab.Length
        ensures EntryOk(j)
      {
        assert old(EntryOk(j));
      }
    }

    /** _ptclear up to the semaphores: into limbo, every message disposed of in order, the list spliced onto the free list */
    method ClearMsgs(i: nat, reset: bool) returns (disposed: seq<int>)
      requires Valid() && i < porttab.Length && porttab[i].ptstate == PT_ALLOC
      modifies node, porttab, this`ptfree, this`lists
      ensures Valid() && OthersSame(i)
      ensures disposed == old(Msgs(i)) && Msgs(i) == [] && lists[0] == old(lists)[i + 1] + old(lists)[0]
      ensures porttab[i] == old(porttab[i]).(
                ptstate := PT_LIMBO, ptseq := old(porttab[i].ptseq) + 1, pthead := porttab[i].pthead, pttail := porttab[i].pttail)
      ensures reset ==> porttab[i].pthead == NULL && porttab[i].pttail == NULL
    {
      assert EntryOk(i);
      ghost var ls, nodes := lists, node[..];
      ghost var free, s := ls[0], ls[i + 1];
      SpliceFacts(nodes, ls, i + 1);
      disposed := Walk(porttab[i].pthead, s);
      hide Partition, Chained;
      porttab[i] := porttab[i].(ptstate := PT_LIMBO, ptseq := porttab[i].ptseq + 1);
      if porttab[i].pthead != NULL {
        node[porttab[i].pttail] := node[porttab[i].pttail].(ptnext := ptfree);
        ptfree := porttab[i].pthead;
        assert node[..] == nodes[TailOf(s) := nodes[TailOf(s)].(ptnext := HeadOf(free))];
      }
      if reset {
        porttab[i] := porttab[i].(pthead := NULL, pttail := NULL);
      }
      lists := ls[i + 1 := []][0 := s + free];
      forall j | 0 <= j < porttab.Length
        ensures EntryOk(j)
      {
        assert old(EntryOk(j));
      }
    }

    /** The loop that hands each waiting message to the disposal function. */
    method Walk(head: int, ghost s: seq<nat>) returns (disposed: seq<int>)
      requires Chained(node[..], s) && head == HeadOf(s)
      ensures disposed == Contents(node[..], s)
    {
      disposed := [];
      var walk := head;
      ghost var j := 0;
      while walk != NULL
        invariant j <= |s| && walk == (if j < |s| then s[j] else NULL) && disposed == Contents(node[..], s)[..j]
        decreases |s| - j
      {
        assert NextAt(node[..], s, j);
        disposed := disposed + [node[walk].ptmsg];
        walk := node[walk].ptnext;
        j := j + 1;
      }
    }

    /** The last line of _ptclear. */
    method SetState(i: nat, reset: bool)
      requires Valid() && i < porttab.Length && porttab[i].ptstate == PT_LIMBO && (reset ==> porttab[i].pthead == NULL && porttab[i].pttail == NULL)
      modifies porttab
      ensures Valid() && OthersSame(i) && Msgs(i) == []
      ensures porttab[i] == old(porttab[i]).(ptstate := if reset then PT_ALLOC else PT_FREE)
    {
      assert EntryOk(i);
      porttab[i] := porttab[i].(ptstate := if reset then PT_ALLOC else PT_FREE);
      assert forall j | 0 <= j < porttab.Length :: old(EntryOk(j)) && (j != i ==> porttab[j] == old(porttab[j]));
    }

    /** ptcreate: try every entry once, starting where the last search ended */
    method CreatePort(count: int) returns (r: int)
      requires Valid() && ptnextid < porttab.Length
      modifies porttab, this`ptnextid
      ensures Valid() && ptnextid < porttab.Length && lists == old(lists)
      ensures count < 0 || (forall i | 0 <= i < porttab.Length :: old(porttab[i]).ptstate != PT_FREE) ==>
                r == SYSERR && forall i | 0 <= i < porttab.Length :: porttab[i] == old(porttab[i])
      ensures count >= 0 && (exists i :: 0 <= i < porttab.Length && old(porttab[i]).ptstate == PT_FREE) ==>
                0 <= r < porttab.Length && old(porttab[r]).ptstate == PT_FREE && OthersSame(r) && Msgs(r) == []
                && porttab[r] == PtEntry(Semv(count, []), Semv(0, []), PT_ALLOC, old(porttab[r]).ptseq + 1, count % 65536, NULL, NULL)
    {
      if count < 0 {
        return SYSERR;
      }
      ghost var start := ptnextid;
      var i := 0;
      while i < porttab.Length
        invariant 0 <= i <= porttab.Length && ptnextid < porttab.Length
        invariant i < porttab.Length ==> ptnextid == if start + i < porttab.Length then start + i else start + i - porttab.Length
        invariant forall j | 0 <= j < porttab.Length && (start <= j < start + i || j + porttab.Length < start + i) ::
                    porttab[j].ptstate != PT_FREE
        invariant Valid() && forall j | 0 <= j < porttab.Length :: porttab[j] == old(porttab[j])
      {
        var ptnum := ptnextid;
        ptnextid := ptnextid + 1;
        if ptnextid >= porttab.Length {
          ptnextid := 0;
        }
        if porttab[ptnum].ptstate == PT_FREE {
          Open(ptnum, count);
          return ptnum;
        }
        i := i + 1;
      }
      assert forall j | 0 <= j < porttab.Length :: old(porttab[j]).ptstate != PT_FREE;
      return SYSERR;
    }

    method Open(i: nat, count: nat)
      requires Valid() && i < porttab.Length && porttab[i].ptstate == PT_FREE
      modifies porttab
      ensures Valid() && OthersSame(i) && Msgs(i) == []
      ensures porttab[i] == PtEntry(Semv(count, []), Semv(0, []), PT_ALLOC, old(porttab[i]).ptseq + 1, count % 65536, NULL, NULL)
    {
      assert EntryOk(i);
      porttab[i] := PtEntry(Semv(count, []), Semv(0, []), PT_ALLOC, porttab[i].ptseq + 1, count % 65536, NULL, NULL);
      assert forall j | 0 <= j < porttab.Length :: old(EntryOk(j)) && (j != i ==> porttab[j] == old(porttab[j]));
    }

    lemma FreshView(n: nat, nports: nat)
      requires porttab.Length == nports == |past| && |lists| == nports + 1 && lists == StartLists(n, nports) && calls == map[]
      requires forall i | 0 <= i < nports :: porttab[i] == PtEntry(Semv(0, []), Semv(0, []), PT_FREE, 0, 0, NULL, NULL) && past[i] == Past(0, [], [], 0, 0)
      ensures View() == Start(nports, n)
    {
      assert View().ports == Start(nports, n).ports;
    }

    /** ptinit: all ports free, all nodes on the free list */
    constructor (maxmsgs: nat, nports: nat)
      requires maxmsgs > 0 && nports > 0
      ensures Live() && node.Length == maxmsgs && View() == Start(nports, maxmsgs)
      ensures fresh(node) && fresh(porttab)
    {
      hide Inv;
      node := new PtNode[maxmsgs](_ => PtNode(0, 0));
      porttab := new PtEntry[nports](_ => PtEntry(Semv(0, []), Semv(0, []), PT_FREE, 0, 0, NULL, NULL));
      ptfree, ptnextid := 0, 0;
      calls, clears := map[], map[];
      past := seq<Past>(nports, i requires 0 <= i < nports => Past(0, [], [], 0, 0));
      lists := StartLists(maxmsgs, nports);
      new;
      StartInv(nports, maxmsgs);
      StartPartition(maxmsgs, nports);
      hide Partition, Chained;
      var curr, next := 0, 0;
      while next + 1 < maxmsgs
        invariant curr == next < maxmsgs
        invariant forall j | 0 <= j < next :: node[j].ptnext == j + 1
        modifies node
      {
        next := next + 1;
        node[curr] := node[curr].(ptnext := next);
        curr := next;
      }
      node[curr] := node[curr].(ptnext := NULL);
      FreshView(maxmsgs, nports);
      StartChained(node[..], nports);
    }
  }

  /** ptinit: no nodes, or no memory for them, is a panic */
  method PtInit(maxmsgs: nat, nports: nat, memory: bool) returns (t: PortTable?)
    requires nports > 0
    ensures t == null <==> maxmsgs == 0 || !memory
    ensures t != null ==> fresh(t) && t.Live() && t.node.Length == maxmsgs && t.View() == Start(nports, maxmsgs)
  {
    if maxmsgs == 0 || !memory {
      return null;
    }
    t := new PortTable(maxmsgs, nports);
  }

  ghost function StartLists(n: nat, nports: nat): Lists {
    [seq<nat>(n, j requires 0 <= j < n => j)] + seq<seq<nat>>(nports, i requires 0 <= i < nports => [])
  }

  lemma StartChained(nodes: Nodes, nports: nat)
    requires forall j | 0 <= j < |nodes| :: nodes[j].ptnext == if j + 1 < |nodes| then j + 1 else NULL
    ensures forall a | 0 <= a <= nports :: Chained(nodes, StartLists(|nodes|, nports)[a])
  {
  }

  lemma {:induction false} EmptyLists(ls: Lists)
    requires forall a | 0 <= a < |ls| :: ls[a] == []
    ensures All(ls) == multiset{}
  {
    if ls != [] {
      EmptyLists(ls[1..]);
    }
  }

  lemma {:induction false} OnceEach(n: nat, x: nat)
    ensures multiset(seq<nat>(n, j requires 0 <= j < n => j))[x] == if x < n then 1 else 0
  {
    if n > 0 {
      OnceEach(n - 1, x);
      var s, t := seq<nat>(n, j requires 0 <= j < n => j), seq<nat>(n - 1, j requires 0 <= j < n - 1 => j);
      assert s == t + [n - 1];
      assert multiset(s) == multiset(t) + multiset{n - 1};
    }
  }

  lemma StartPartition(n: nat, nports: nat)
    ensures Partition(StartLists(n, nports), n)
  {
    var ls := StartLists(n, nports);
    EmptyLists(ls[1..]);
    forall x: nat
      ensures All(ls)[x] == if x < n then 1 else 0
    {
      OnceEach(n, x);
    }
  }

  /** What linking a message needs and leaves. */
  lemma LinkFacts(nodes: Nodes, ls: Lists, a: nat, msg: int)
    requires Partition(ls, |nodes|) && 0 < a < |ls| && ls[0] != [] && forall b | 0 <= b < |ls| :: Chained(nodes, ls[b])
    ensures var free, s := ls[0], ls[a]; NextAt(nodes, free, 0) && TailOf(s) < |nodes| && free[0] != TailOf(s)
    ensures var free, s := ls[0], ls[a]; var t, ms := Linked(nodes, free, s, msg), ls[0 := free[1..]][a := s + [free[0]]];
            Partition(ms, |nodes|) && (forall b | 0 <= b < |ms| :: Chained(t, ms[b]))
            && Contents(t, ms[a]) == Contents(nodes, s) + [msg]
            && (forall b | 0 < b < |ms| && b != a :: ms[b] == ls[b] && Contents(t, ms[b]) == Contents(nodes, ls[b]))
  {
    var free, s := ls[0], ls[a];
    Apart(ls, |nodes|, 0);
    Apart(ls, |nodes|, a);
    assert free[0] in free && free == [free[0]] + free[1..];
    assert forall x | x in free[1..] :: x in free;
    assert free[0] !in free[1..];
    LinkChains(nodes, free, s, msg);
    assert s != [] ==> TailOf(s) in s;
    var t, ms := Linked(nodes, free, s, msg), ls[0 := free[1..]][a := s + [free[0]]];
    Exchange(ls, 0, a, free[1..], s + [free[0]], |nodes|);
    hide Partition, Chained;
    forall b | 0 < b < |ms| && b != a
      ensures Chained(t, ms[b]) && Contents(t, ms[b]) == Contents(nodes, ls[b])
    {
      assert free[0] !in ls[b] && (s != [] ==> (TailOf(s) as nat) !in ls[b]);
      ChainFrame(nodes, t, ls[b]);
    }
  }

  lemma LinkedIs(nodes: Nodes, free: seq<nat>, s: seq<nat>, msg: int, t: Nodes)
    requires free != [] && free[0] < |nodes| && TailOf(s) < |nodes| && free[0] != TailOf(s)
    requires t == if s == [] then nodes[free[0] := PtNode(msg, NULL)]
                  else nodes[free[0] := PtNode(msg, NULL)][TailOf(s) := nodes[TailOf(s)].(ptnext := free[0])]
    ensures t == Linked(nodes, free, s, msg)
  {
  }

  lemma HeadMsg(nodes: Nodes, s: seq<nat>)
    ensures s != [] && s[0] < |nodes| ==> Contents(nodes, s)[0] == nodes[s[0]].ptmsg
  {
  }

  lemma UnlinkFacts(nodes: Nodes, ls: Lists, a: nat)
    requires Partition(ls, |nodes|) && 0 < a < |ls| && ls[a] != [] && forall b | 0 <= b < |ls| :: Chained(nodes, ls[b])
    ensures NextAt(nodes, ls[a], 0) && (HeadOf(ls[a]) == TailOf(ls[a]) <==> |ls[a]| == 1)
    ensures var free, s := ls[0], ls[a];
            var t, ms := nodes[s[0] := nodes[s[0]].(ptnext := HeadOf(free))], ls[a := s[1..]][0 := [s[0]] + free];
            Partition(ms, |nodes|) && (forall b | 0 <= b < |ms| :: Chained(t, ms[b]))
            && Contents(t, ms[a]) == Contents(nodes, s)[1..]
            && (forall b | 0 < b < |ms| && b != a :: ms[b] == ls[b] && Contents(t, ms[b]) == Contents(nodes, ls[b]))
  {
    var free, s := ls[0], ls[a];
    Apart(ls, |nodes|, a);
    assert s[0] in s && s == [s[0]] + s[1..];
    assert s[0] !in s[1..];
    UnlinkChains(nodes, free, s);
    var t, ms := nodes[s[0] := nodes[s[0]].(ptnext := HeadOf(free))], ls[a := s[1..]][0 := [s[0]] + free];
    Exchange(ls, a, 0, s[1..], [s[0]] + free, |nodes|);
    hide Partition, Chained;
    forall b | 0 < b < |ms| && b != a
      ensures Chained(t, ms[b]) && Contents(t, ms[b]) == Contents(nodes, ls[b])
    {
      assert s[0] !in ls[b];
      ChainFrame(nodes, t, ls[b]);
    }
  }

  lemma SpliceFacts(nodes: Nodes, ls: Lists, a: nat)
    requires Partition(ls, |nodes|) && 0 < a < |ls| && forall b | 0 <= b < |ls| :: Chained(nodes, ls[b])
    ensures TailOf(ls[a]) < |nodes|
    ensures var free, s := ls[0], ls[a];
            var t := if s == [] then nodes else nodes[TailOf(s) := nodes[TailOf(s)].(ptnext := HeadOf(free))];
            var ms := ls[a := []][0 := s + free];
            Partition(ms, |nodes|) && (forall b | 0 <= b < |ms| :: Chained(t, ms[b]))
            && (forall b | 0 < b < |ms| && b != a :: ms[b] == ls[b] && Contents(t, ms[b]) == Contents(nodes, ls[b]))
  {
    var free, s := ls[0], ls[a];
    Apart(ls, |nodes|, a);
    var ms := ls[a := []][0 := s + free];
    assert multiset(s + free) == multiset(s) + multiset(free);
    Exchange(ls, a, 0, [], s + free, |nodes|);
    if s != [] {
      SpliceChains(nodes, free, s);
      assert TailOf(s) in s;
      var t := nodes[TailOf(s) := nodes[TailOf(s)].(ptnext := HeadOf(free))];
      hide Partition, Chained;
      forall b | 0 < b < |ms| && b != a
        ensures Chained(t, ms[b]) && Contents(t, ms[b]) == Contents(nodes, ls[b])
      {
        assert (TailOf(s) as nat) !in ls[b];
        ChainFrame(nodes, t, ls[b]);
      }
      EmptyChain(t);
    } else {
      assert s + free == free;
      EmptyChain(nodes);
    }
  }

  lemma EmptyChain(nodes: Nodes)
    ensures Chained(nodes, [])
  {
  }
}
