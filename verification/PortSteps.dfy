/** Every step of every process keeps the ports' books balanced. */
module PortSteps {
  import opened SchedLists
  import opened PortState

  // ---- who has been let through -------------------------------------------

  lemma GrantedJoin(calls: map<nat, Call>, p: nat, c: Call, q: seq<nat>, i: nat, sq: nat, sender: bool)
    requires p !in calls
    ensures Granted(calls[p := c], q + [p], i, sq, sender) == Granted(calls, q, i, sq, sender)
    ensures c.port != i || c.sender != sender ==> Granted(calls[p := c], q, i, sq, sender) == Granted(calls, q, i, sq, sender)
  {
  }

  lemma GrantedLeave(calls: map<nat, Call>, p: nat, q: seq<nat>, i: nat, sq: nat, sender: bool)
    ensures Granted(calls - {p}, q, i, sq, sender) == Granted(calls, q, i, sq, sender) - {p}
    ensures p in Granted(calls, q, i, sq, sender) ==>
              |Granted(calls - {p}, q, i, sq, sender)| == |Granted(calls, q, i, sq, sender)| - 1
    ensures p !in Granted(calls, q, i, sq, sender) ==> Granted(calls - {p}, q, i, sq, sender) == Granted(calls, q, i, sq, sender)
  {
    assert Granted(calls - {p}, q, i, sq, sender) == Granted(calls, q, i, sq, sender) - {p};
  }

  lemma GrantedRelease(calls: map<nat, Call>, s: Semv, i: nat, sq: nat, sender: bool)
    requires Waiters(calls, s, i, sq, sender) && s.q != []
    ensures |Granted(calls, s.q[1..], i, sq, sender)| == |Granted(calls, s.q, i, sq, sender)| + 1
  {
    var q := s.q;
    var h := q[0];
    assert h in q;
    assert forall p | p in q :: p == h || p in q[1..];
    assert h !in q[1..];
    assert Granted(calls, q[1..], i, sq, sender) == Granted(calls, q, i, sq, sender) + {h};
    assert h !in Granted(calls, q, i, sq, sender);
  }

  lemma GrantedDrop(calls: map<nat, Call>, p: nat, q: seq<nat>, i: nat, sq: nat, sender: bool)
    requires NoDup(q) && p in q
    ensures Granted(calls - {p}, Without(q, p), i, sq, sender) == Granted(calls, q, i, sq, sender)
  {
    DropMembers(q, Find(q, p));
  }

  /** signal makes one more permission, either as a count or as a process let through. */
  lemma UpBalance(calls: map<nat, Call>, s: Semv, i: nat, sq: nat, sender: bool)
    requires SemOk(s) && Waiters(calls, s, i, sq, sender)
    ensures SemOk(Up(s)) && Waiters(calls, Up(s), i, sq, sender)
    ensures Pos(Up(s).count) + |Granted(calls, Up(s).q, i, sq, sender)| == Pos(s.count) + |Granted(calls, s.q, i, sq, sender)| + 1
  {
    if s.q != [] {
      GrantedRelease(calls, s, i, sq, sender);
      assert forall p | p in s.q[1..] :: p in s.q;
    }
  }

  lemma JoinWaiters(calls: map<nat, Call>, p: nat, c: Call, s: Semv)
    requires p !in calls && Waiters(calls, s, c.port, c.sq, c.sender)
    ensures Waiters(calls[p := c], Semv(s.count - 1, s.q + [p]), c.port, c.sq, c.sender)
  {
    var q := s.q + [p];
    assert forall x | x in q :: x in s.q || x == p;
    assert p !in s.q;
  }

  lemma KeepWaiters(calls: map<nat, Call>, calls': map<nat, Call>, s: Semv, i: nat, sq: nat, sender: bool)
    requires Waiters(calls, s, i, sq, sender) && forall p | p in s.q && p in calls :: p in calls' && calls'[p] == calls[p]
    ensures Waiters(calls', s, i, sq, sender)
  {
  }

  lemma DropWaiters(calls: map<nat, Call>, p: nat, s: Semv, i: nat, sq: nat, sender: bool)
    requires SemOk(s) && Waiters(calls, s, i, sq, sender) && p in s.q
    ensures var t := Semv(s.count + 1, Without(s.q, p));
            SemOk(t) && Waiters(calls - {p}, t, i, sq, sender) && Pos(t.count) == Pos(s.count)
  {
    DropMembers(s.q, Find(s.q, p));
  }

  // ---- one port -----------------------------------------------------------

  /** Balanced but for one permission that a running process has in hand. */
  ghost predicate InHand(calls: map<nat, Call>, pt: Port, i: nat, sender: bool) {
    SemOk(pt.ss) && SemOk(pt.rs)
    && Waiters(calls, pt.ss, i, pt.sq, true) && Waiters(calls, pt.rs, i, pt.sq, false)
    && Pos(pt.ss.count) + |Granted(calls, pt.ss.q, i, pt.sq, true)| + |pt.msgs| + pt.slost + (if sender then 1 else 0) == pt.cap
    && Pos(pt.rs.count) + |Granted(calls, pt.rs.q, i, pt.sq, false)| + pt.rlost + (if sender then 0 else 1) == |pt.msgs|
    && pt.sent == pt.got + pt.msgs
  }

  /** wait that does not block */
  lemma TakeCount(calls: map<nat, Call>, pt: Port, i: nat, sender: bool)
    requires Balanced(calls, pt, i) && SemOf(pt, sender).count >= 1
    ensures var s := SemOf(pt, sender); InHand(calls, WithSem(pt, sender, s.(count := s.count - 1)), i, sender)
  {
  }

  /** A process let through runs again. */
  lemma TakeGrant(calls: map<nat, Call>, pt: Port, p: nat, i: nat)
    requires Balanced(calls, pt, i) && p in calls && calls[p].port == i && calls[p].sq == pt.sq
    requires p !in SemOf(pt, calls[p].sender).q
    ensures InHand(calls - {p}, pt, i, calls[p].sender)
  {
    var sender := calls[p].sender;
    GrantedLeave(calls, p, pt.ss.q, i, pt.sq, true);
    GrantedLeave(calls, p, pt.rs.q, i, pt.sq, false);
    assert p !in pt.ss.q && p !in pt.rs.q;
    KeepWaiters(calls, calls - {p}, pt.ss, i, pt.sq, true);
    KeepWaiters(calls, calls - {p}, pt.rs, i, pt.sq, false);
  }

  lemma DepositBalance(calls: map<nat, Call>, pt: Port, i: nat, msg: int)
    requires InHand(calls, pt, i, true)
    ensures |pt.msgs| < pt.cap
    ensures Balanced(calls, pt.(msgs := pt.msgs + [msg], sent := pt.sent + [msg], rs := Up(pt.rs)), i)
  {
    UpBalance(calls, pt.rs, i, pt.sq, false);
    hide Granted, Waiters, SemOk, Up;
    assert pt.sent + [msg] == pt.got + (pt.msgs + [msg]);
  }

  lemma WithdrawBalance(calls: map<nat, Call>, pt: Port, i: nat)
    requires InHand(calls, pt, i, false)
    ensures pt.msgs != []
    ensures Balanced(calls, pt.(msgs := pt.msgs[1..], got := pt.got + [pt.msgs[0]], ss := Up(pt.ss)), i)
  {
    UpBalance(calls, pt.ss, i, pt.sq, true);
    hide Granted, Waiters, SemOk, Up;
    assert pt.got + pt.msgs == pt.got + [pt.msgs[0]] + pt.msgs[1..];
  }

  /** wait that blocks */
  lemma BlockBalance(calls: map<nat, Call>, pt: Port, p: nat, i: nat, sender: bool, msg: int)
    requires Balanced(calls, pt, i) && p !in calls && SemOf(pt, sender).count <= 0
    ensures var s := SemOf(pt, sender); var c := Call(i, pt.sq, sender, msg);
            Balanced(calls[p := c], WithSem(pt, sender, Semv(s.count - 1, s.q + [p])), i)
  {
    var s, o := SemOf(pt, sender), SemOf(pt, !sender);
    var c := Call(i, pt.sq, sender, msg);
    GrantedJoin(calls, p, c, s.q, i, pt.sq, sender);
    GrantedJoin(calls, p, c, o.q, i, pt.sq, !sender);
    JoinWaiters(calls, p, c, s);
    KeepWaiters(calls, calls[p := c], o, i, pt.sq, !sender);
    hide Granted, Waiters;
  }

  // ---- all ports ----------------------------------------------------------

  /** A process coming to or leaving another port does not show here. */
  lemma OtherOk(calls: map<nat, Call>, calls': map<nat, Call>, pt: Port, j: nat, p: nat)
    requires PortOk(calls, pt, j)
    requires p in calls ==> calls[p].port != j
    requires p in calls' ==> calls'[p].port != j
    requires forall x | x != p :: (x in calls <==> x in calls') && (x in calls ==> calls'[x] == calls[x])
    ensures PortOk(calls', pt, j)
  {
    assert forall q, sq, sender :: Granted(calls', q, j, sq, sender) == Granted(calls, q, j, sq, sender);
    if pt.state == ALLOC {
      KeepWaiters(calls, calls', pt.ss, j, pt.sq, true);
      KeepWaiters(calls, calls', pt.rs, j, pt.sq, false);
    } else if pt.state.LIMBO? && pt.state.stage == 1 {
      KeepWaiters(calls, calls', pt.rs, j, pt.sq - 1, false);
    }
  }

  lemma {:induction false} HeldSet(ports: seq<Port>, i: nat, pt: Port)
    requires i < |ports|
    ensures Held(ports[i := pt]) == Held(ports) - |ports[i].msgs| + |pt.msgs|
    ensures Held(ports) >= |ports[i].msgs|
    decreases |ports|
  {
    if i > 0 {
      assert ports[i := pt][1..] == ports[1..][i - 1 := pt];
      HeldSet(ports[1..], i - 1, pt);
    }
  }

  /** One port and one process change. */
  lemma OnePort(y: Sys, n: nat, i: nat, pt: Port, p: nat, calls: map<nat, Call>, free: nat)
    requires Inv(y, n) && i < |y.ports| && PortOk(calls, pt, i) && pt.sq >= y.ports[i].sq
    requires free + |pt.msgs| == y.free + |y.ports[i].msgs|
    requires forall x | x != p :: (x in calls <==> x in y.calls) && (x in calls ==> calls[x] == y.calls[x])
    requires p in y.calls ==> y.calls[p].port == i
    requires p in calls ==> calls[p].port == i && calls[p].sq <= pt.sq
    ensures Inv(Sys(y.ports[i := pt], calls, free), n)
  {
    hide PortOk, Held;
    HeldSet(y.ports, i, pt);
    var ports := y.ports[i := pt];
    forall j | 0 <= j < |ports|
      ensures PortOk(calls, ports[j], j)
    {
      if j != i {
        OtherOk(y.calls, calls, y.ports[j], j, p);
      }
    }
  }

  /** The end of a call by a process that has a permission in hand. */
  lemma FinishInv(y: Sys, n: nat, i: nat, sender: bool, msg: int, y0: Sys, p: nat)
    requires Inv(y0, n) && i < |y0.ports| && |y.ports| == |y0.ports| && y.ports == y0.ports[i := y.ports[i]]
    requires y.free == y0.free && y.ports[i].msgs == y0.ports[i].msgs && y.ports[i].sq == y0.ports[i].sq && y.ports[i].state == ALLOC
    requires InHand(y.calls, y.ports[i], i, sender) && p !in y.calls
    requires forall x | x != p :: (x in y.calls <==> x in y0.calls) && (x in y.calls ==> y.calls[x] == y0.calls[x])
    requires p in y0.calls ==> y0.calls[p].port == i
    ensures var r := Finish(y, i, sender, msg);
            (r.1 != OutOfNodes ==> Inv(r.0, n)) && r.1 != NullHead && (r.1 == OutOfNodes <==> sender && y.free == 0)
  {
    hide Inv, PortOk, InHand, Balanced;
    var pt := y.ports[i];
    if sender {
      DepositBalance(y.calls, pt, i, msg);
      if y.free > 0 {
        var pt' := pt.(msgs := pt.msgs + [msg], sent := pt.sent + [msg], rs := Up(pt.rs));
        IsOk(y.calls, pt', i);
        OnePort(y0, n, i, pt', p, y.calls, y.free - 1);
        assert y.ports[i := pt'] == y0.ports[i := pt'];
      }
    } else {
      WithdrawBalance(y.calls, pt, i);
      var pt' := pt.(msgs := pt.msgs[1..], got := pt.got + [pt.msgs[0]], ss := Up(pt.ss));
      IsOk(y.calls, pt', i);
      OnePort(y0, n, i, pt', p, y.calls, y.free + 1);
      assert y.ports[i := pt'] == y0.ports[i := pt'];
    }
  }

  lemma IsOk(calls: map<nat, Call>, pt: Port, i: nat)
    ensures pt.state == ALLOC ==> (PortOk(calls, pt, i) <==> Balanced(calls, pt, i))
    ensures pt.state != ALLOC ==> (PortOk(calls, pt, i) <==> Cleared(calls, pt, i))
  {
  }

  lemma OkAt(y: Sys, n: nat, i: nat)
    requires Inv(y, n) && i < |y.ports|
    ensures PortOk(y.calls, y.ports[i], i)
  {
  }

  // ---- the steps ----------------------------------------------------------

  lemma EnterInv(y: Sys, n: nat, p: nat, i: int, sender: bool, msg: int)
    requires Inv(y, n) && p !in y.calls
    ensures var r := Enter(y, p, i, sender, msg);
            (r.1 != OutOfNodes ==> Inv(r.0, n)) && r.1 != NullHead && (r.1 == OutOfNodes ==> sender && y.free == 0)
  {
    hide Inv, Balanced, InHand, Finish, PortOk, WithSem;
    if i >= 0 && Usable(y, i) {
      var s := SemOf(y.ports[i], sender);
      if s.count - 1 < 0 {
        EnterBlocks(y, n, p, i, sender, msg);
      } else {
        EnterPasses(y, n, p, i, sender, msg);
      }
    }
  }

  lemma SameButSem(pt: Port, sender: bool, s: Semv)
    ensures var r := WithSem(pt, sender, s); r.state == pt.state && r.sq == pt.sq && r.msgs == pt.msgs
  {
  }

  lemma EnterBlocks(y: Sys, n: nat, p: nat, i: nat, sender: bool, msg: int)
    requires Inv(y, n) && p !in y.calls && Usable(y, i) && SemOf(y.ports[i], sender).count <= 0
    ensures Inv(Enter(y, p, i, sender, msg).0, n)
  {
    hide Inv, Balanced, PortOk, WithSem;
    OkAt(y, n, i);
    var pt := y.ports[i];
    var s := SemOf(pt, sender);
    var c := Call(i, pt.sq, sender, msg);
    var s' := Semv(s.count - 1, s.q + [p]);
    IsOk(y.calls, pt, i);
    BlockBalance(y.calls, pt, p, i, sender, msg);
    SameButSem(pt, sender, s');
    IsOk(y.calls[p := c], WithSem(pt, sender, s'), i);
    OnePort(y, n, i, WithSem(pt, sender, s'), p, y.calls[p := c], y.free);
  }

  lemma EnterPasses(y: Sys, n: nat, p: nat, i: nat, sender: bool, msg: int)
    requires Inv(y, n) && p !in y.calls && Usable(y, i) && SemOf(y.ports[i], sender).count >= 1
    ensures var r := Enter(y, p, i, sender, msg);
            (r.1 != OutOfNodes ==> Inv(r.0, n)) && r.1 != NullHead && (r.1 == OutOfNodes ==> sender && y.free == 0)
  {
    hide Inv, Balanced, InHand, Finish, PortOk, WithSem;
    OkAt(y, n, i);
    var pt := y.ports[i];
    var s := SemOf(pt, sender);
    IsOk(y.calls, pt, i);
    TakeCount(y.calls, pt, i, sender);
    SameButSem(pt, sender, s.(count := s.count - 1));
    FinishInv(WithPort(y, i, WithSem(pt, sender, s.(count := s.count - 1))), n, i, sender, msg, y, p);
  }

  lemma ContinueInv(y: Sys, n: nat, p: nat)
    requires Inv(y, n) && LetThrough(y, p)
    ensures var r := Continue(y, p);
            (r.1 != OutOfNodes ==> Inv(r.0, n)) && r.1 != NullHead && (r.1 == OutOfNodes ==> y.calls[p].sender && y.free == 0)
  {
    var c := y.calls[p];
    var i, pt := c.port, y.ports[c.port];
    OkAt(y, n, i);
    var y1 := y.(calls := y.calls - {p});
    if pt.state == ALLOC && pt.sq == c.sq {
      TakeGrant(y.calls, pt, p, i);
      hide Inv, PortOk, Balanced, InHand, Finish;
      FinishInv(y1, n, i, c.sender, c.msg, y, p);
    } else {
      StaleLeaves(y, n, p);
    }
  }

  /** A process from an earlier life of the port goes away without a trace. */
  lemma StaleLeaves(y: Sys, n: nat, p: nat)
    requires Inv(y, n) && LetThrough(y, p)
    requires var c := y.calls[p]; y.ports[c.port].state != ALLOC || y.ports[c.port].sq != c.sq
    ensures Inv(y.(calls := y.calls - {p}), n)
  {
    var c := y.calls[p];
    var i, pt := c.port, y.ports[c.port];
    OkAt(y, n, i);
    LeaveOk(y.calls, pt, p, i);
    hide Inv, PortOk;
    OnePort(y, n, i, pt, p, y.calls - {p}, y.free);
    assert y.ports[i := pt] == y.ports;
  }

  lemma LeaveOk(calls: map<nat, Call>, pt: Port, p: nat, i: nat)
    requires PortOk(calls, pt, i) && p in calls && calls[p].port == i && p !in SemOf(pt, calls[p].sender).q
    requires pt.state != ALLOC || pt.sq != calls[p].sq
    ensures PortOk(calls - {p}, pt, i)
  {
    if pt.state == ALLOC {
      GrantedLeave(calls, p, pt.ss.q, i, pt.sq, true);
      GrantedLeave(calls, p, pt.rs.q, i, pt.sq, false);
      assert p !in pt.ss.q && p !in pt.rs.q;
      KeepWaiters(calls, calls - {p}, pt.ss, i, pt.sq, true);
      KeepWaiters(calls, calls - {p}, pt.rs, i, pt.sq, false);
    } else if pt.state.LIMBO? && pt.state.stage == 1 {
      assert p !in pt.rs.q;
      KeepWaiters(calls, calls - {p}, pt.rs, i, pt.sq - 1, false);
    }
  }

  // ---- clearing, creating, killing ----------------------------------------

  /** One port changes and no process moves. */
  lemma PortOnly(y: Sys, n: nat, i: nat, pt: Port, free: nat)
    requires Inv(y, n) && i < |y.ports| && PortOk(y.calls, pt, i) && pt.sq >= y.ports[i].sq
    requires free + |pt.msgs| == y.free + |y.ports[i].msgs|
    ensures Inv(y.(ports := y.ports[i := pt], free := free), n)
  {
    hide PortOk, Held;
    HeldSet(y.ports, i, pt);
  }

  lemma ClearInv(y: Sys, n: nat, i: int, reset: bool)
    requires Inv(y, n)
    ensures Inv(Clear(y, i, reset).0, n)
  {
    hide Inv, PortOk;
    if i >= 0 && Usable(y, i) {
      var pt := y.ports[i];
      OkAt(y, n, i);
      NoneLater(y, n, i);
      LimboOk(y.calls, pt, i, reset);
      PortOnly(y, n, i, Limbo(pt, reset), y.free + |pt.msgs|);
    }
  }

  lemma NoneLater(y: Sys, n: nat, i: nat)
    requires Inv(y, n) && i < |y.ports|
    ensures forall p | p in y.calls && y.calls[p].port == i :: y.calls[p].sq <= y.ports[i].sq
  {
  }

  /** The port as ptclear's first part leaves it. */
  function Limbo(pt: Port, reset: bool): Port {
    pt.(state := LIMBO(reset, 1), sq := pt.sq + 1, msgs := [], sent := [], got := [], slost := 0, rlost := 0,
        ss := Semv(if reset then pt.maxcnt else 0, []))
  }

  lemma LimboOk(calls: map<nat, Call>, pt: Port, i: nat, reset: bool)
    requires PortOk(calls, pt, i) && pt.state == ALLOC && forall p | p in calls && calls[p].port == i :: calls[p].sq <= pt.sq
    ensures PortOk(calls, Limbo(pt, reset), i)
  {
    hide Granted, Waiters;
  }

  lemma NobodyYet(calls: map<nat, Call>, q: seq<nat>, i: nat, sq: nat, sender: bool)
    requires forall p | p in calls && calls[p].port == i :: calls[p].sq < sq
    ensures Granted(calls, q, i, sq, sender) == {}
  {
  }

  /** A port starting a new life with `cap` places. */
  lemma FreshBalance(calls: map<nat, Call>, pt: Port, i: nat)
    requires pt.state == ALLOC && pt.ss == Semv(pt.cap, []) && pt.rs == Semv(0, [])
    requires pt.msgs == [] && pt.sent == [] && pt.got == [] && pt.slost == 0 && pt.rlost == 0
    requires forall p | p in calls && calls[p].port == i :: calls[p].sq < pt.sq
    ensures PortOk(calls, pt, i)
  {
    NobodyYet(calls, [], i, pt.sq, true);
    NobodyYet(calls, [], i, pt.sq, false);
  }

  lemma ClearNextInv(y: Sys, n: nat, i: nat)
    requires Inv(y, n)
    ensures Inv(ClearNext(y, i), n)
  {
    if i < |y.ports| && y.ports[i].state.LIMBO? {
      OkAt(y, n, i);
      var pt := y.ports[i];
      hide Inv, Granted;
      if pt.state.stage == 1 {
        var pt' := pt.(state := LIMBO(pt.state.reset, 2), rs := Semv(0, []));
        PortOnly(y, n, i, pt', y.free);
      } else {
        var pt' := pt.(state := if pt.state.reset then ALLOC else FREE, cap := pt.maxcnt);
        if pt.state.reset {
          FreshBalance(y.calls, pt', i);
        }
        PortOnly(y, n, i, pt', y.free);
      }
    }
  }

  lemma CreateInv(y: Sys, n: nat, i: nat, count: int)
    requires Inv(y, n)
    ensures Inv(Create(y, i, count).0, n)
  {
    if count >= 0 && i < |y.ports| && y.ports[i].state == FREE {
      OkAt(y, n, i);
      hide Inv, Granted;
      var pt := Port(ALLOC, y.ports[i].sq + 1, count, count % 65536, Semv(count, []), Semv(0, []), [], [], [], 0, 0);
      FreshBalance(y.calls, pt, i);
      PortOnly(y, n, i, pt, y.free);
    }
  }

  lemma WaiterDies(calls: map<nat, Call>, pt: Port, p: nat, i: nat)
    requires Balanced(calls, pt, i) && p in calls && calls[p].port == i && p in SemOf(pt, calls[p].sender).q
    ensures Balanced(calls - {p}, Buried(calls, pt, p), i)
  {
    var sender := calls[p].sender;
    var s, o := SemOf(pt, sender), SemOf(pt, !sender);
    DropWaiters(calls, p, s, i, pt.sq, sender);
    GrantedDrop(calls, p, s.q, i, pt.sq, sender);
    assert p !in o.q;
    GrantedLeave(calls, p, o.q, i, pt.sq, !sender);
    KeepWaiters(calls, calls - {p}, o, i, pt.sq, !sender);
    assert p !in Granted(calls, o.q, i, pt.sq, !sender);
    hide Granted, Waiters, Without;
  }

  lemma GranteeDies(calls: map<nat, Call>, pt: Port, p: nat, i: nat)
    requires Balanced(calls, pt, i) && pt.state == ALLOC && p in calls && calls[p].port == i && calls[p].sq == pt.sq
    requires p !in SemOf(pt, calls[p].sender).q
    ensures Balanced(calls - {p}, Buried(calls, pt, p), i)
  {
    TakeGrant(calls, pt, p, i);
  }

  lemma LimboDies(calls: map<nat, Call>, pt: Port, p: nat, i: nat)
    requires Cleared(calls, pt, i) && pt.state != ALLOC && p in calls && calls[p].port == i && p in SemOf(pt, calls[p].sender).q
    ensures Cleared(calls - {p}, Buried(calls, pt, p), i)
  {
    assert !calls[p].sender && pt.state.LIMBO? && pt.state.stage == 1;
    DropWaiters(calls, p, pt.rs, i, pt.sq - 1, false);
    hide Without, Granted;
  }

  lemma BuriedOk(calls: map<nat, Call>, pt: Port, p: nat, i: nat)
    requires PortOk(calls, pt, i) && p in calls && calls[p].port == i
    ensures var r := Buried(calls, pt, p); PortOk(calls - {p}, r, i) && r.sq == pt.sq && r.msgs == pt.msgs
  {
    hide Balanced, Cleared, Without;
    if p in SemOf(pt, calls[p].sender).q {
      if pt.state == ALLOC {
        WaiterDies(calls, pt, p, i);
      } else {
        LimboDies(calls, pt, p, i);
      }
    } else if pt.state == ALLOC && calls[p].sq == pt.sq {
      GranteeDies(calls, pt, p, i);
    } else {
      LeaveOk(calls, pt, p, i);
    }
  }

  lemma KillInv(y: Sys, n: nat, p: nat)
    requires Inv(y, n)
    ensures Inv(Kill(y, p), n)
  {
    hide Inv, PortOk, Buried;
    if p in y.calls && y.calls[p].port < |y.ports| {
      var i := y.calls[p].port;
      OkAt(y, n, i);
      BuriedOk(y.calls, y.ports[i], p, i);
      OnePort(y, n, i, Buried(y.calls, y.ports[i], p), p, y.calls - {p}, y.free);
    }
  }
}
