/**
 Ports: bounded message queues over two semaphores, used by processes that may be
 suspended in the middle of a call. A step is what one process does between two points
 where another may take the processor.
 */
module PortState {
  import opened SchedLists

  /** A semaphore with its waiters. */
  datatype Semv = Semv(count: int, q: seq<nat>)

  /** `LIMBO(reset, stage)`: being cleared; after stage 1 the sender semaphore is done, after stage 2 both are. */
  datatype PtState = FREE | ALLOC | LIMBO(reset: bool, stage: nat)

  /**
   `cap` is what the sender semaphore started from, `maxcnt` the 16-bit field a reset uses.
   `sent` and `got` record the messages since the port was created or reset, `slost` and
   `rlost` the processes killed after they were let through.
   */
  datatype Port = Port(
    state: PtState, sq: nat, cap: nat, maxcnt: nat, ss: Semv, rs: Semv, msgs: seq<int>,
    sent: seq<int>, got: seq<int>, slost: nat, rlost: nat)

  /** A process inside ptsend or ptrecv, waiting or let through but not yet running again. */
  datatype Call = Call(port: nat, sq: nat, sender: bool, msg: int)

  datatype Sys = Sys(ports: seq<Port>, calls: map<nat, Call>, free: nat)

  datatype Result = Blocked | Done | Message(msg: int) | Error | OutOfNodes | NullHead

  function SemOf(pt: Port, sender: bool): Semv { if sender then pt.ss else pt.rs }

  function WithSem(pt: Port, sender: bool, s: Semv): Port { if sender then pt.(ss := s) else pt.(rs := s) }

  /** signal: a waiter is let through, or the count goes up. */
  function Up(s: Semv): Semv {
    if s.count < 0 && s.q != [] then Semv(s.count + 1, s.q[1..]) else s.(count := s.count + 1)
  }

  predicate Usable(y: Sys, i: nat) { i < |y.ports| && y.ports[i].state == ALLOC }

  function WithPort(y: Sys, i: nat, pt: Port): Sys {
    if i < |y.ports| then y.(ports := y.ports[i := pt]) else y
  }

  /** The rest of ptsend once it is let through: take a free node, link it at the tail, signal a receiver. */
  function Deposit(y: Sys, i: nat, msg: int): (Sys, Result)
    requires i < |y.ports|
  {
    var pt := y.ports[i];
    if y.free == 0 then (y, OutOfNodes)
    else
      (y.(free := y.free - 1,
          ports := y.ports[i := pt.(msgs := pt.msgs + [msg], sent := pt.sent + [msg], rs := Up(pt.rs))]), Done)
  }

  /** The rest of ptrecv once it is let through: unlink the head, return its node, signal a sender. */
  function Withdraw(y: Sys, i: nat): (Sys, Result)
    requires i < |y.ports|
  {
    var pt := y.ports[i];
    if pt.msgs == [] then (y, NullHead)
    else
      (y.(free := y.free + 1,
          ports := y.ports[i := pt.(msgs := pt.msgs[1..], got := pt.got + [pt.msgs[0]], ss := Up(pt.ss))]),
       Message(pt.msgs[0]))
  }

  function Finish(y: Sys, i: nat, sender: bool, msg: int): (Sys, Result)
    requires i < |y.ports|
  {
    if sender then Deposit(y, i, msg) else Withdraw(y, i)
  }

  /** ptsend or ptrecv up to the end, or up to the point where wait blocks the caller. */
  function Enter(y: Sys, p: nat, i: int, sender: bool, msg: int): (Sys, Result) {
    if i < 0 || !Usable(y, i) then (y, Error)
    else
      var pt := y.ports[i];
      var s := SemOf(pt, sender);
      if s.count - 1 < 0 then
        (Sys(y.ports[i := WithSem(pt, sender, Semv(s.count - 1, s.q + [p]))],
             y.calls[p := Call(i, pt.sq, sender, msg)], y.free), Blocked)
      else Finish(WithPort(y, i, WithSem(pt, sender, s.(count := s.count - 1))), i, sender, msg)
  }

  /** The process has been let through: it is in a call but on no queue. */
  predicate LetThrough(y: Sys, p: nat) {
    p in y.calls && y.calls[p].port < |y.ports|
    && p !in SemOf(y.ports[y.calls[p].port], y.calls[p].sender).q
  }

  /** The process runs again and tests state and sequence number before it goes on. */
  function Continue(y: Sys, p: nat): (Sys, Result)
    requires LetThrough(y, p)
  {
    var c := y.calls[p];
    var y1 := y.(calls := y.calls - {p});
    if y.ports[c.port].state != ALLOC || y.ports[c.port].sq != c.sq then (y1, Error)
    else Finish(y1, c.port, c.sender, c.msg)
  }

  /** ptreset and ptdelete: into limbo, nodes back to the free list, senders released. */
  function Clear(y: Sys, i: int, reset: bool): (Sys, Result) {
    if i < 0 || !Usable(y, i) then (y, Error)
    else
      var pt := y.ports[i];
      (y.(free := y.free + |pt.msgs|,
          ports := y.ports[i := pt.(state := LIMBO(reset, 1), sq := pt.sq + 1, msgs := [], sent := [], got := [], slost := 0, rlost := 0,
                                    ss := Semv(if reset then pt.maxcnt else 0, []))]), Done)
  }

  /** The rest of _ptclear: receivers released, then the new state set. */
  function ClearNext(y: Sys, i: nat): Sys {
    if !(i < |y.ports| && y.ports[i].state.LIMBO?) then y
    else
      var pt := y.ports[i];
      if pt.state.stage == 1 then WithPort(y, i, pt.(state := LIMBO(pt.state.reset, 2), rs := Semv(0, [])))
      else WithPort(y, i, pt.(state := if pt.state.reset then ALLOC else FREE, cap := pt.maxcnt))
  }

  /** ptcreate, for the free entry it found */
  function Create(y: Sys, i: nat, count: int): (Sys, Result) {
    if count < 0 || !(i < |y.ports| && y.ports[i].state == FREE) then (y, Error)
    else (WithPort(y, i, Port(ALLOC, y.ports[i].sq + 1, count, count % 65536, Semv(count, []), Semv(0, []), [], [], [], 0, 0)), Done)
  }

  /** The port after one of its callers is killed: a waiter gives its place back; one already let through takes its permission with it. */
  function Buried(calls: map<nat, Call>, pt: Port, p: nat): Port
    requires p in calls
  {
    var c := calls[p];
    var s := SemOf(pt, c.sender);
    if p in s.q then WithSem(pt, c.sender, Semv(s.count + 1, Without(s.q, p)))
    else if pt.state == ALLOC && c.sq == pt.sq then (if c.sender then pt.(slost := pt.slost + 1) else pt.(rlost := pt.rlost + 1))
    else pt
  }

  /** kill */
  function Kill(y: Sys, p: nat): Sys {
    if !(p in y.calls && y.calls[p].port < |y.ports|) then y
    else
      var i := y.calls[p].port;
      Sys(y.ports[i := Buried(y.calls, y.ports[i], p)], y.calls - {p}, y.free)
  }

  // ---- invariant ----------------------------------------------------------

  /** Processes let through the port's semaphore in its current life and not yet running again. */
  function Granted(calls: map<nat, Call>, q: seq<nat>, i: nat, sq: nat, sender: bool): set<nat> {
    set p | p in calls && calls[p].port == i && calls[p].sq == sq && calls[p].sender == sender && p !in q
  }

  predicate SemOk(s: Semv) { |s.q| == if s.count < 0 then -s.count else 0 }

  function Pos(n: int): nat { if n > 0 then n else 0 }

  /** Everybody on the semaphore's queue is in the matching call. */
  ghost predicate Waiters(calls: map<nat, Call>, s: Semv, i: nat, sq: nat, sender: bool) {
    NoDup(s.q) && forall p | p in s.q :: p in calls && calls[p].port == i && calls[p].sender == sender && calls[p].sq == sq
  }

  /** In an allocated port every permission is accounted for: free places, senders let through and messages make up the capacity; spare counts and receivers let through make up the messages. */
  ghost predicate Balanced(calls: map<nat, Call>, pt: Port, i: nat) {
    SemOk(pt.ss) && SemOk(pt.rs)
    && Waiters(calls, pt.ss, i, pt.sq, true) && Waiters(calls, pt.rs, i, pt.sq, false)
    && Pos(pt.ss.count) + |Granted(calls, pt.ss.q, i, pt.sq, true)| + |pt.msgs| + pt.slost == pt.cap
    && Pos(pt.rs.count) + |Granted(calls, pt.rs.q, i, pt.sq, false)| + pt.rlost == |pt.msgs|
    && pt.sent == pt.got + pt.msgs
  }

  /** A port being cleared holds nothing, and nobody in it belongs to its next life. */
  ghost predicate Cleared(calls: map<nat, Call>, pt: Port, i: nat) {
    pt.msgs == [] && pt.sent == [] && pt.got == [] && pt.slost == 0 && pt.rlost == 0 && pt.ss.q == []
    && (pt.state.LIMBO? ==>
          (pt.state.stage == 1 || pt.state.stage == 2) && (pt.state.reset ==> pt.ss.count == pt.maxcnt)
          && (pt.state.stage == 1 ==> SemOk(pt.rs) && pt.sq > 0 && Waiters(calls, pt.rs, i, pt.sq - 1, false))
          && (pt.state.stage == 2 ==> pt.rs == Semv(0, [])))
    && (pt.state == FREE ==> pt.rs.q == [])
    && (forall p | p in calls && calls[p].port == i :: calls[p].sq < pt.sq)
  }

  ghost predicate PortOk(calls: map<nat, Call>, pt: Port, i: nat) {
    if pt.state == ALLOC then Balanced(calls, pt, i) else Cleared(calls, pt, i)
  }

  function Held(ports: seq<Port>): nat {
    if ports == [] then 0 else |ports[0].msgs| + Held(ports[1..])
  }

  /** Nobody is in a call on a port that is not there, or from the future. */
  ghost predicate Callers(y: Sys) {
    forall p | p in y.calls :: y.calls[p].port < |y.ports| && y.calls[p].sq <= y.ports[y.calls[p].port].sq
  }

  /** `n` is the number of message nodes there are. */
  ghost predicate Inv(y: Sys, n: nat) {
    y.free + Held(y.ports) == n && Callers(y) && forall i | 0 <= i < |y.ports| :: PortOk(y.calls, y.ports[i], i)
  }
}
