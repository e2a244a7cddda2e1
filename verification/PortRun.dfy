/** Ports over every interleaving: safety, order, and what a reset or delete does to callers. */
module PortRun {
  import opened SchedLists
  import opened PortState
  import opened PortSteps

  datatype Step =
    | Send(p: nat, i: int, msg: int) | Recv(p: nat, i: int) | Go(p: nat)
    | Reset(i: int) | Delete(i: int) | Next(slot: nat) | New(slot: nat, count: int) | Die(p: nat)

  predicate Allowed(y: Sys, e: Step) {
    match e
    case Send(p, _, _) => p !in y.calls
    case Recv(p, _) => p !in y.calls
    case Go(p) => LetThrough(y, p)
    case _ => true
  }

  function Do(y: Sys, e: Step): (Sys, Result)
    requires Allowed(y, e)
  {
    match e
    case Send(p, i, msg) => Enter(y, p, i, true, msg)
    case Recv(p, i) => Enter(y, p, i, false, 0)
    case Go(p) => Continue(y, p)
    case Reset(i) => Clear(y, i, true)
    case Delete(i) => Clear(y, i, false)
    case Next(i) => (ClearNext(y, i), Done)
    case New(i, count) => Create(y, i, count)
    case Die(p) => (Kill(y, p), Done)
  }

  /** A receiver that gets past its checks always finds a message. */
  lemma StepInv(y: Sys, n: nat, e: Step)
    requires Inv(y, n) && Allowed(y, e)
    ensures Do(y, e).1 != NullHead
    ensures Do(y, e).1 != OutOfNodes ==> Inv(Do(y, e).0, n)
  {
    hide Inv, Enter, Continue, ClearNext, Kill;
    match e
    case Send(p, i, msg) => EnterInv(y, n, p, i, true, msg);
    case Recv(p, i) => EnterInv(y, n, p, i, false, 0);
    case Go(p) => ContinueInv(y, n, p);
    case Reset(i) => ClearInv(y, n, i, true);
    case Delete(i) => ClearInv(y, n, i, false);
    case Next(i) => ClearNextInv(y, n, i);
    case New(i, count) => CreateInv(y, n, i, count);
    case Die(p) => KillInv(y, n, p);
  }

  /** A run ends when the kernel panics. */
  ghost predicate Run(ys: seq<Sys>, es: seq<Step>) {
    |ys| == |es| + 1
    && forall k | 0 <= k < |es| :: Allowed(ys[k], es[k]) && Do(ys[k], es[k]).1 != OutOfNodes && ys[k + 1] == Do(ys[k], es[k]).0
  }

  lemma {:induction false} RunInv(ys: seq<Sys>, es: seq<Step>, n: nat, k: nat)
    requires Run(ys, es) && Inv(ys[0], n) && k < |ys|
    ensures Inv(ys[k], n)
    ensures k < |es| ==> Do(ys[k], es[k]).1 != NullHead
  {
    hide Inv, Do, Allowed;
    if k > 0 {
      RunInv(ys, es, n, k - 1);
      StepInv(ys[k - 1], n, es[k - 1]);
    }
    if k < |es| {
      StepInv(ys[k], n, es[k]);
    }
  }

  /** ptinit's state. */
  function Start(nports: nat, n: nat): Sys {
    Sys(seq<Port>(nports, i requires 0 <= i < nports => Port(FREE, 0, 0, 0, Semv(0, []), Semv(0, []), [], [], [], 0, 0)), map[], n)
  }

  lemma {:induction false} NothingHeld(ports: seq<Port>)
    requires forall i | 0 <= i < |ports| :: ports[i].msgs == []
    ensures Held(ports) == 0
  {
    if ports != [] {
      NothingHeld(ports[1..]);
    }
  }

  lemma StartInv(nports: nat, n: nat)
    ensures Inv(Start(nports, n), n)
  {
    NothingHeld(Start(nports, n).ports);
  }

  // ---- nodes --------------------------------------------------------------

  function Room(pt: Port): nat { if pt.state == ALLOC then pt.cap else 0 }

  function Rooms(ports: seq<Port>): nat {
    if ports == [] then 0 else Room(ports[0]) + Rooms(ports[1..])
  }

  lemma {:induction false} RoomToSpare(ports: seq<Port>, i: nat)
    requires i < |ports| && |ports[i].msgs| < Room(ports[i]) && forall j | 0 <= j < |ports| :: |ports[j].msgs| <= Room(ports[j])
    ensures Held(ports) < Rooms(ports)
    decreases |ports|
  {
    if i == 0 {
      RoomEnough(ports[1..]);
    } else {
      RoomToSpare(ports[1..], i - 1);
    }
  }

  lemma {:induction false} RoomEnough(ports: seq<Port>)
    requires forall j | 0 <= j < |ports| :: |ports[j].msgs| <= Room(ports[j])
    ensures Held(ports) <= Rooms(ports)
  {
    if ports != [] {
      RoomEnough(ports[1..]);
    }
  }

  lemma FitsRoom(y: Sys, n: nat, j: nat)
    requires Inv(y, n) && j < |y.ports|
    ensures |y.ports[j].msgs| <= Room(y.ports[j])
  {
    OkAt(y, n, j);
  }

  /** A sender about to link a node has room in its port, so there is a node to link. */
  lemma SenderHasNode(y: Sys, n: nat, i: nat)
    requires Inv(y, n) && Rooms(y.ports) <= n && i < |y.ports| && |y.ports[i].msgs| < Room(y.ports[i])
    ensures y.free > 0
  {
    forall j | 0 <= j < |y.ports|
      ensures |y.ports[j].msgs| <= Room(y.ports[j])
    {
      FitsRoom(y, n, j);
    }
    RoomToSpare(y.ports, i);
  }

  lemma PlaceInHand(y: Sys, n: nat, i: nat, p: nat)
    requires Inv(y, n) && Usable(y, i)
    requires y.ports[i].ss.count >= 1 || (LetThrough(y, p) && y.calls[p].port == i && y.calls[p].sender && y.calls[p].sq == y.ports[i].sq)
    ensures |y.ports[i].msgs| < Room(y.ports[i])
  {
    OkAt(y, n, i);
    var pt := y.ports[i];
    if pt.ss.count < 1 {
      TakeGrant(y.calls, pt, p, i);
    }
  }

  /** If the capacities of the allocated ports add up to no more than the nodes there are, nobody ever runs out. */
  lemma NoPanic(y: Sys, n: nat, e: Step)
    requires Inv(y, n) && Allowed(y, e) && Rooms(y.ports) <= n
    ensures Do(y, e).1 != OutOfNodes
  {
    hide Inv;
    match e
    case Send(p, i, msg) =>
      if i >= 0 && Usable(y, i) && y.ports[i].ss.count >= 1 {
        PlaceInHand(y, n, i, p);
        SenderHasNode(y, n, i);
      }
    case Go(p) =>
      var c := y.calls[p];
      if c.sender && y.ports[c.port].state == ALLOC && y.ports[c.port].sq == c.sq {
        PlaceInHand(y, n, c.port, p);
        SenderHasNode(y, n, c.port);
      }
    case _ =>
  }

  // ---- order --------------------------------------------------------------

  /** The message a receiver gets is the oldest one sent and not yet received. */
  lemma OldestFirst(y: Sys, n: nat, e: Step, i: nat)
    requires Inv(y, n) && Allowed(y, e) && Do(y, e).1.Message?
    requires (e.Go? && i == y.calls[e.p].port) || (e.Recv? && e.i == i)
    ensures Usable(y, i)
    ensures var pt := y.ports[i];
            |pt.got| < |pt.sent| && Do(y, e).1.msg == pt.sent[|pt.got|]
            && |Do(y, e).0.ports| == |y.ports| && Do(y, e).0.ports[i].got == pt.got + [Do(y, e).1.msg]
  {
    if i < |y.ports| {
      OkAt(y, n, i);
    }
  }

  ghost predicate Prefix(a: seq<int>, b: seq<int>) { |a| <= |b| && a == b[..|a|] }

  /** In one life of a port nothing sent is forgotten and nothing received is taken back. */
  lemma LifeGrows(y: Sys, n: nat, e: Step, i: nat)
    requires Inv(y, n) && Allowed(y, e) && i < |y.ports|
    ensures var r := Do(y, e).0;
            |r.ports| == |y.ports| && r.ports[i].sq >= y.ports[i].sq
            && (r.ports[i].sq == y.ports[i].sq ==> Prefix(y.ports[i].sent, r.ports[i].sent) && Prefix(y.ports[i].got, r.ports[i].got))
  {
    hide Inv, Up, Without;
    match e
    case Send(p, j, msg) =>
    case Recv(p, j) =>
    case Go(p) =>
    case Reset(j) =>
    case Delete(j) =>
    case Next(j) =>
    case New(j, count) =>
    case Die(p) =>
  }

  lemma Booked(y: Sys, n: nat, i: nat)
    requires Inv(y, n) && i < |y.ports|
    ensures y.ports[i].state == ALLOC ==> y.ports[i].sent == y.ports[i].got + y.ports[i].msgs
  {
    if Usable(y, i) {
      OkAt(y, n, i);
    }
  }

  /** Over a run within one life: what has been received is the beginning of what has been sent, in order, each once. */
  lemma {:induction false} ReceivedInOrder(ys: seq<Sys>, es: seq<Step>, n: nat, i: nat, k: nat)
    requires Run(ys, es) && Inv(ys[0], n) && i < |ys[0].ports| && k < |ys|
    requires i < |ys[k].ports| && ys[k].ports[i].sq == ys[0].ports[i].sq
    ensures Prefix(ys[0].ports[i].sent, ys[k].ports[i].sent) && Prefix(ys[0].ports[i].got, ys[k].ports[i].got)
    ensures ys[k].ports[i].state == ALLOC ==> ys[k].ports[i].sent == ys[k].ports[i].got + ys[k].ports[i].msgs
  {
    hide Inv, Do, Allowed;
    RunInv(ys, es, n, k);
    Booked(ys[k], n, i);
    if k > 0 {
      SameTable(ys, es, n, k - 1, i);
      RunInv(ys, es, n, k - 1);
      LifeGrows(ys[k - 1], n, es[k - 1], i);
      ReceivedInOrder(ys, es, n, i, k - 1);
    }
  }

  lemma {:induction false} SameTable(ys: seq<Sys>, es: seq<Step>, n: nat, k: nat, i: nat)
    requires Run(ys, es) && Inv(ys[0], n) && k < |ys| && i < |ys[0].ports|
    ensures |ys[k].ports| == |ys[0].ports| && ys[k].ports[i].sq >= ys[0].ports[i].sq
  {
    hide Inv, Do, Allowed;
    if k > 0 {
      SameTable(ys, es, n, k - 1, i);
      RunInv(ys, es, n, k - 1);
      LifeGrows(ys[k - 1], n, es[k - 1], i);
    }
  }

  // ---- reset and delete ---------------------------------------------------

  lemma ClearBumps(y: Sys, e: Step, i: nat)
    requires Allowed(y, e) && Usable(y, i) && (e == Reset(i) || e == Delete(i))
    ensures Do(y, e).0.ports[i].sq == y.ports[i].sq + 1 && Do(y, e).0.calls == y.calls
  {
  }

  /**
   Whoever was in ptsend or ptrecv on a port, blocked or already let through, when it was reset or
   deleted returns with an error whenever it runs again, whatever happens in between.
   */
  lemma ClearedCallersFail(ys: seq<Sys>, es: seq<Step>, n: nat, i: nat, p: nat, k: nat)
    requires Run(ys, es) && Inv(ys[0], n) && |es| > 0 && Usable(ys[0], i)
    requires (es[0] == Reset(i) || es[0] == Delete(i)) && p in ys[0].calls && ys[0].calls[p].port == i
    requires 0 < k < |es| && es[k] == Go(p) && p in ys[k].calls && ys[k].calls[p] == ys[0].calls[p]
    ensures Do(ys[k], es[k]).1 == Error
  {
    assert ys[0].calls[p].sq <= ys[0].ports[i].sq;
    ClearBumps(ys[0], es[0], i);
    var zs, fs := ys[1..], es[1..];
    RunInv(ys, es, n, 1);
    assert Run(zs, fs) by {
      forall j | 0 <= j < |fs|
        ensures Allowed(zs[j], fs[j]) && Do(zs[j], fs[j]).1 != OutOfNodes && zs[j + 1] == Do(zs[j], fs[j]).0
      {
        assert zs[j] == ys[j + 1] && fs[j] == es[j + 1] && zs[j + 1] == ys[j + 2];
      }
    }
    SameTable(zs, fs, n, k - 1, i);
    hide Inv, Run;
    assert ys[k] == zs[k - 1];
  }

  /** And it can run again: once both semaphores are done, nobody from an earlier life is left on a queue. */
  lemma ClearedCallersReleased(y: Sys, n: nat, p: nat)
    requires Inv(y, n) && p in y.calls && y.calls[p].sq < y.ports[y.calls[p].port].sq
    requires !(y.ports[y.calls[p].port].state.LIMBO? && y.ports[y.calls[p].port].state.stage == 1)
    ensures LetThrough(y, p) && Continue(y, p).1 == Error
  {
    OkAt(y, n, y.calls[p].port);
  }

  // ---- no lost wakeups ----------------------------------------------------

  /** Nobody waits in vain: receivers wait only while every message is promised to one let through, senders only while every place is taken. */
  lemma WaitsOnlyWhenTaken(y: Sys, n: nat, i: nat)
    requires Inv(y, n) && Usable(y, i)
    ensures var pt := y.ports[i];
            (pt.rs.q != [] ==> |Granted(y.calls, pt.rs.q, i, pt.sq, false)| + pt.rlost == |pt.msgs|)
            && (pt.ss.q != [] ==> |Granted(y.calls, pt.ss.q, i, pt.sq, true)| + |pt.msgs| + pt.slost == pt.cap)
  {
    OkAt(y, n, i);
  }

  /** The 16-bit field: a reset keeps a port's capacity exactly when it is below 65536. */
  lemma ResetKeepsCapacity(y: Sys, n: nat, i: nat, count: nat)
    requires Inv(y, n) && i < |y.ports| && y.ports[i].state == FREE
    ensures var y1 := Create(y, i, count).0;
            Usable(y1, i) && y1.ports[i].cap == count
            && var y2 := ClearNext(ClearNext(Clear(y1, i, true).0, i), i);
               Usable(y2, i) && (y2.ports[i].cap == count <==> count < 65536)
  {
  }
}
