/**
 Ports on the kernel's own semaphores: a port's two semaphores are entries of the scheduler's table, and every step of a
 port is the semaphore calls that ptsend, ptrecv, _ptclear, ptcreate and kill make there.
 */
module PortKernel {
  import opened SchedLists
  import opened PortState
  import opened PortSteps
  import opened PortRun
  import S = SchedState
  import Q = SchedSems
  import P = SchedSteps
  import L = SchedLocks
  import R = SchedRun

  /** What ptssem and ptrsem hold. */
  datatype Ids = Ids(ss: nat, rs: nat)

  function IdOf(ids: seq<Ids>, i: nat, sender: bool): nat
    requires i < |ids|
  {
    if sender then ids[i].ss else ids[i].rs
  }

  /** The port has that semaphore: it is allocated, or being cleared and not yet past its deletion. */
  predicate Has(pt: Port, sender: bool) {
    match pt.state
    case FREE => false
    case ALLOC => true
    case LIMBO(reset, stage) => reset || (!sender && stage == 1)
  }

  function SemAt(k: S.Kern, s: nat): Semv
    requires s < |k.sems| && s < |k.qs.semq|
  {
    Semv(k.sems[s].count, k.qs.semq[s])
  }

  predicate TiedAt(pt: Port, k: S.Kern, s: nat, sender: bool) {
    Has(pt, sender) ==> s < |k.qs.semq| && S.Usable(k, s) && SemOf(pt, sender) == SemAt(k, s)
  }

  /** Every port's semaphores are entries of the kernel's table, no two the same. */
  ghost predicate Tied(y: Sys, k: S.Kern, ids: seq<Ids>) {
    |ids| == |y.ports|
    && (forall i, a | 0 <= i < |ids| :: TiedAt(y.ports[i], k, IdOf(ids, i, a), a))
    && (forall i, j, a, b | 0 <= i < |ids| && 0 <= j < |ids| && Has(y.ports[i], a) && Has(y.ports[j], b)
          && IdOf(ids, i, a) == IdOf(ids, j, b) :: i == j && a == b)
  }

  /** One semaphore changes, in the port and in the kernel. */
  lemma OneSem(y: Sys, k: S.Kern, ids: seq<Ids>, i: nat, a: bool, r: Sys, pt: Port, k': S.Kern, x: S.Sem, q: seq<nat>)
    requires Tied(y, k, ids) && i < |ids| && Has(y.ports[i], a) && |k.sems| == |k.qs.semq|
    requires var s := IdOf(ids, i, a); s < |k.sems| && k'.sems == k.sems[s := x] && k'.qs.semq == k.qs.semq[s := q]
    requires r.ports == y.ports[i := pt] && SemOf(pt, !a) == SemOf(y.ports[i], !a)
    requires (Has(pt, true) ==> Has(y.ports[i], true)) && (Has(pt, false) ==> Has(y.ports[i], false))
    requires Has(pt, a) ==> x.used && SemOf(pt, a) == Semv(x.count, q)
    ensures Tied(r, k', ids)
  {
    var s := IdOf(ids, i, a);
    forall j, b | 0 <= j < |ids|
      ensures TiedAt(r.ports[j], k', IdOf(ids, j, b), b)
    {
      assert TiedAt(y.ports[j], k, IdOf(ids, j, b), b);
      if Has(r.ports[j], b) && !(j == i && b == a) {
        assert IdOf(ids, j, b) != s;
      }
    }
  }

  /** Calls that leave the ports' semaphores alone leave the tie alone. */
  lemma SameSems(y: Sys, k: S.Kern, ids: seq<Ids>, r: Sys, k': S.Kern)
    requires Tied(y, k, ids) && |r.ports| == |y.ports| && |k'.sems| == |k.sems| && |k'.qs.semq| == |k.qs.semq|
    requires forall i | 0 <= i < |ids| :: r.ports[i].state == y.ports[i].state && r.ports[i].ss == y.ports[i].ss && r.ports[i].rs == y.ports[i].rs
    requires forall i, a | 0 <= i < |ids| && Has(y.ports[i], a) ::
               var s := IdOf(ids, i, a); s < |k.sems| && s < |k.qs.semq| ==> k'.sems[s] == k.sems[s] && k'.qs.semq[s] == k.qs.semq[s]
    ensures Tied(r, k', ids)
  {
    forall i, a | 0 <= i < |ids|
      ensures TiedAt(r.ports[i], k', IdOf(ids, i, a), a)
    {
      assert TiedAt(y.ports[i], k, IdOf(ids, i, a), a);
    }
  }

  lemma At(y: Sys, k: S.Kern, ids: seq<Ids>, i: nat, a: bool)
    requires Tied(y, k, ids) && S.Inv(k) && i < |ids| && Has(y.ports[i], a)
    ensures var s := IdOf(ids, i, a); s < |k.sems| == |k.qs.semq| && S.Usable(k, s) && SemOf(y.ports[i], a) == SemAt(k, s)
    ensures var s := IdOf(ids, i, a); k.sems[s].count < 0 <==> k.qs.semq[s] != []
  {
    assert TiedAt(y.ports[i], k, IdOf(ids, i, a), a);
  }

  // ---- wait and signal ------------------------------------------------------

  /** wait, for the current process */
  lemma WaitTied(y: Sys, k: S.Kern, ids: seq<Ids>, i: nat, a: bool, r: Sys, pt: Port)
    requires Tied(y, k, ids) && S.Inv(k) && P.MayBlock(k) && i < |ids| && y.ports[i].state == ALLOC
    requires r.ports == y.ports[i := pt] && pt.state == ALLOC && SemOf(pt, !a) == SemOf(y.ports[i], !a)
    requires var s := SemOf(y.ports[i], a); SemOf(pt, a) == Semv(s.count - 1, if s.count - 1 < 0 then s.q + [k.curr] else s.q)
    ensures var k' := S.WaitSem(k, IdOf(ids, i, a)); Tied(r, k', ids) && S.Inv(k')
  {
    hide S.Inv, S.WaitSem, Tied;
    var s := IdOf(ids, i, a);
    At(y, k, ids, i, a);
    L.WaitMoves(k, s);
    Q.WaitInv(k, s);
    var k' := S.WaitSem(k, s);
    var sem := k.sems[s].(count := k.sems[s].count - 1);
    assert k.qs.semq == k.qs.semq[s := k.qs.semq[s]];
    OneSem(y, k, ids, i, a, r, pt, k', sem, if sem.count < 0 then k.qs.semq[s] + [k.curr] else k.qs.semq[s]);
  }

  /** signal */
  lemma SignalTied(y: Sys, k: S.Kern, ids: seq<Ids>, i: nat, a: bool, r: Sys, pt: Port)
    requires Tied(y, k, ids) && S.Inv(k) && i < |ids| && y.ports[i].state == ALLOC
    requires r.ports == y.ports[i := pt] && pt.state == ALLOC && SemOf(pt, !a) == SemOf(y.ports[i], !a)
    requires SemOf(pt, a) == Up(SemOf(y.ports[i], a))
    ensures var k' := S.SignalSem(k, IdOf(ids, i, a)); Tied(r, k', ids) && S.Inv(k')
  {
    hide S.Inv, S.SignalSem, Tied;
    var s := IdOf(ids, i, a);
    At(y, k, ids, i, a);
    L.SignalMoves(k, s);
    Q.SignalInv(k, s);
    var k' := S.SignalSem(k, s);
    OneSem(y, k, ids, i, a, r, pt, k', k.sems[s].(count := k.sems[s].count + 1), if k.sems[s].count < 0 then k.qs.semq[s][1..] else k.qs.semq[s]);
  }

  // ---- the calls ------------------------------------------------------------

  /** The end of ptsend or ptrecv: the other side's semaphore is signalled. */
  lemma FinishTied(y: Sys, k: S.Kern, ids: seq<Ids>, i: nat, sender: bool, msg: int)
    requires Tied(y, k, ids) && S.Inv(k) && i < |ids| && i < |y.ports| && y.ports[i].state == ALLOC
    ensures var (r, res) := Finish(y, i, sender, msg);
            res != OutOfNodes && res != NullHead ==>
              var k' := S.SignalSem(k, IdOf(ids, i, !sender)); Tied(r, k', ids) && S.Inv(k')
  {
    hide S.Inv, S.SignalSem, Tied, Up;
    var (r, res) := Finish(y, i, sender, msg);
    if res != OutOfNodes && res != NullHead {
      SignalTied(y, k, ids, i, !sender, r, r.ports[i]);
    }
  }

  /** What ptsend or ptrecv does to the kernel: a wait, and a signal if it goes through. */
  function EnterKern(y: Sys, k: S.Kern, ids: seq<Ids>, i: int, sender: bool): S.Kern {
    if i < 0 || !Usable(y, i) || i >= |ids| then k
    else
      var k1 := S.WaitSem(k, IdOf(ids, i, sender));
      if SemOf(y.ports[i], sender).count - 1 < 0 then k1 else S.SignalSem(k1, IdOf(ids, i, !sender))
  }

  lemma EnterTied(y: Sys, k: S.Kern, ids: seq<Ids>, i: int, sender: bool, msg: int)
    requires Tied(y, k, ids) && S.Inv(k) && P.MayBlock(k)
    ensures var (r, res) := Enter(y, k.curr, i, sender, msg);
            res != OutOfNodes && res != NullHead ==> var k' := EnterKern(y, k, ids, i, sender); Tied(r, k', ids) && S.Inv(k')
  {
    hide S.Inv, S.SignalSem, S.WaitSem, Finish;
    if i >= 0 && Usable(y, i) {
      var pt := y.ports[i];
      var s := SemOf(pt, sender);
      hide Tied;
      if s.count - 1 < 0 {
        WaitTied(y, k, ids, i, sender, Enter(y, k.curr, i, sender, msg).0, WithSem(pt, sender, Semv(s.count - 1, s.q + [k.curr])));
      } else {
        var pt1 := WithSem(pt, sender, s.(count := s.count - 1));
        var y1 := WithPort(y, i, pt1);
        WaitTied(y, k, ids, i, sender, y1, pt1);
        FinishTied(y1, S.WaitSem(k, IdOf(ids, i, sender)), ids, i, sender, msg);
      }
    }
  }

  /** A process let through runs again: a signal, if it is not too late. */
  function GoKern(y: Sys, k: S.Kern, ids: seq<Ids>, p: nat): S.Kern
    requires LetThrough(y, p)
  {
    var c := y.calls[p];
    if y.ports[c.port].state != ALLOC || y.ports[c.port].sq != c.sq || c.port >= |ids| then k
    else S.SignalSem(k, IdOf(ids, c.port, !c.sender))
  }

  lemma GoTied(y: Sys, k: S.Kern, ids: seq<Ids>, p: nat)
    requires Tied(y, k, ids) && S.Inv(k) && LetThrough(y, p)
    ensures var (r, res) := Continue(y, p);
            res != OutOfNodes && res != NullHead ==> var k' := GoKern(y, k, ids, p); Tied(r, k', ids) && S.Inv(k')
  {
    hide S.Inv, S.SignalSem, Finish;
    var c := y.calls[p];
    var y1 := y.(calls := y.calls - {p});
    assert Tied(y1, k, ids);
    hide Tied;
    if y.ports[c.port].state == ALLOC && y.ports[c.port].sq == c.sq {
      assert c.port < |ids| by { SameSize(y, k, ids); }
      FinishTied(y1, k, ids, c.port, c.sender, c.msg);
    }
  }

  lemma SameSize(y: Sys, k: S.Kern, ids: seq<Ids>)
    requires Tied(y, k, ids)
    ensures |ids| == |y.ports|
  {
  }

  /** A semaphore of a port being cleared: semreset, or semdelete. */
  function Cleared1(k: S.Kern, s: nat, reset: bool, n: nat): S.Kern {
    if reset then S.ResetSem(k, s, n) else S.DeleteSem(k, s)
  }

  lemma ClearSemTied(y: Sys, k: S.Kern, ids: seq<Ids>, i: nat, a: bool, reset: bool, n: nat, r: Sys, pt: Port)
    requires Tied(y, k, ids) && S.Inv(k) && i < |ids| && Has(y.ports[i], a)
    requires r.ports == y.ports[i := pt] && SemOf(pt, !a) == SemOf(y.ports[i], !a)
    requires (Has(pt, true) ==> Has(y.ports[i], true)) && (Has(pt, false) ==> Has(y.ports[i], false))
    requires Has(pt, a) ==> reset && SemOf(pt, a) == Semv(n, [])
    ensures var k' := Cleared1(k, IdOf(ids, i, a), reset, n); Tied(r, k', ids) && S.Inv(k')
  {
    hide S.Inv, S.ResetSem, S.DeleteSem, Tied, P.Steady, S.Counted, Has;
    var s := IdOf(ids, i, a);
    At(y, k, ids, i, a);
    P.InvParts(k);
    var k' := Cleared1(k, s, reset, n);
    if reset {
      Q.ResetKeeps(k, s, n);
      Q.ResetInv(k, s, n);
      OneSem(y, k, ids, i, a, r, pt, k', S.Sem(true, n), []);
    } else {
      Q.DeleteKeeps(k, s);
      Q.DeleteInv(k, s);
      OneSem(y, k, ids, i, a, r, pt, k', Q.Deleted(k.sems[s]), []);
    }
  }

  /** _ptclear's first semaphore call. */
  function ClearKern(y: Sys, k: S.Kern, ids: seq<Ids>, i: int, reset: bool): S.Kern {
    if i < 0 || !Usable(y, i) || i >= |ids| then k else Cleared1(k, ids[i].ss, reset, y.ports[i].maxcnt)
  }

  lemma ClearTied(y: Sys, k: S.Kern, ids: seq<Ids>, i: int, reset: bool)
    requires Tied(y, k, ids) && S.Inv(k)
    ensures var k' := ClearKern(y, k, ids, i, reset); Tied(Clear(y, i, reset).0, k', ids) && S.Inv(k')
  {
    hide S.Inv, S.ResetSem, S.DeleteSem, Cleared1;
    if i >= 0 && Usable(y, i) {
      ClearSemTied(y, k, ids, i, true, reset, y.ports[i].maxcnt, Clear(y, i, reset).0, Clear(y, i, reset).0.ports[i]);
    }
  }

  /** Its second one, and then nothing but the state. */
  function NextKern(y: Sys, k: S.Kern, ids: seq<Ids>, i: nat): S.Kern {
    if i < |y.ports| && i < |ids| && y.ports[i].state.LIMBO? && y.ports[i].state.stage == 1
    then Cleared1(k, ids[i].rs, y.ports[i].state.reset, 0) else k
  }

  lemma NextTied(y: Sys, n: nat, k: S.Kern, ids: seq<Ids>, i: nat)
    requires Inv(y, n) && Tied(y, k, ids) && S.Inv(k)
    ensures var k' := NextKern(y, k, ids, i); Tied(ClearNext(y, i), k', ids) && S.Inv(k')
  {
    hide S.Inv, S.ResetSem, S.DeleteSem, Cleared1;
    var r := ClearNext(y, i);
    if i < |y.ports| && y.ports[i].state.LIMBO? {
      OkAt(y, n, i);
      hide Inv;
      if y.ports[i].state.stage == 1 {
        ClearSemTied(y, k, ids, i, false, y.ports[i].state.reset, 0, r, r.ports[i]);
      } else {
        forall j, a | 0 <= j < |ids|
          ensures TiedAt(r.ports[j], k, IdOf(ids, j, a), a)
        {
          assert TiedAt(y.ports[j], k, IdOf(ids, j, a), a);
        }
      }
    }
  }

  // ---- ptcreate and kill ----------------------------------------------------

  function NewKern(k: S.Kern, a: nat, b: nat, count: int): S.Kern {
    S.CreateSem(S.CreateSem(k, a, count), b, 0)
  }

  /** ptcreate's two semcreate calls, on the entries `a` and `b` they find */
  lemma NewTied(y: Sys, k: S.Kern, ids: seq<Ids>, i: nat, count: int, a: nat, b: nat)
    requires Tied(y, k, ids) && S.Inv(k) && count >= 0 && i < |y.ports| && y.ports[i].state == FREE
    requires a != b && a < |k.sems| && b < |k.sems| && !k.sems[a].used && !k.sems[b].used
    ensures |ids| == |y.ports|
    ensures var k' := NewKern(k, a, b, count); Tied(Create(y, i, count).0, k', ids[i := Ids(a, b)]) && S.Inv(k')
  {
    Q.CreateSemInv(k, a, count);
    var k1 := S.CreateSem(k, a, count);
    Q.CreateSemInv(k1, b, 0);
    var k', r, js := NewKern(k, a, b, count), Create(y, i, count).0, ids[i := Ids(a, b)];
    assert k'.sems == k.sems[a := S.Sem(true, count)][b := S.Sem(true, 0)] && k'.qs == k.qs;
    Unused(k, a);
    Unused(k, b);
    hide S.Inv, S.CreateSem;
    forall j, c | 0 <= j < |js|
      ensures TiedAt(r.ports[j], k', IdOf(js, j, c), c)
      ensures j != i && Has(r.ports[j], c) ==> IdOf(js, j, c) != a && IdOf(js, j, c) != b
    {
      assert TiedAt(y.ports[j], k, IdOf(ids, j, c), c);
    }
  }

  lemma Unused(k: S.Kern, s: nat)
    requires S.Inv(k) && s < |k.sems| && !k.sems[s].used
    ensures s < |k.qs.semq| && k.qs.semq[s] == []
  {
  }

  /** A process waits on a port's semaphore exactly if it is on its queue. */
  lemma WaitsThere(k: S.Kern, p: nat, s: nat)
    requires S.Inv(k) && s < |k.sems|
    ensures p in L.QueueOf(k, s) <==> S.StateOf(k, p) == S.WAIT && k.procs[p].sem == s
  {
    assert p in S.Queue(k.qs, S.OnSem(s)) ==> p < |k.procs| && S.Home(k.procs[p]) == S.OnSem(s);
    assert p < |k.procs| && S.Home(k.procs[p]) == S.OnSem(s) ==> p in S.Queue(k.qs, S.OnSem(s));
  }

  /** Who is on a port's queue is in a call on that port, on that side. */
  lemma OwnCallers(y: Sys, n: nat, i: nat, a: bool, p: nat)
    requires Inv(y, n) && i < |y.ports| && Has(y.ports[i], a) && p in SemOf(y.ports[i], a).q
    ensures p in y.calls && y.calls[p].port == i && y.calls[p].sender == a
  {
    OkAt(y, n, i);
  }

  lemma KillTied(y: Sys, n: nat, k: S.Kern, ids: seq<Ids>, p: nat)
    requires Inv(y, n) && Tied(y, k, ids) && S.Inv(k) && p > 0 && (p == k.curr ==> P.MayBlock(k))
    ensures var k' := S.Kill(k, p); Tied(Kill(y, p), k', ids) && S.Inv(k')
  {
    Q.KillInv(k, p);
    var r, k' := Kill(y, p), S.Kill(k, p);
    hide S.Kill, S.Inv;
    forall i, a | 0 <= i < |ids|
      ensures TiedAt(r.ports[i], k', IdOf(ids, i, a), a) && (Has(r.ports[i], a) <==> Has(y.ports[i], a))
    {
      if Has(y.ports[i], a) {
        KillTiedAt(y, n, k, ids, p, i, a);
      }
    }
    L.InvSize(k);
    L.InvSize(k');
  }

  lemma KillTiedAt(y: Sys, n: nat, k: S.Kern, ids: seq<Ids>, p: nat, i: nat, a: bool)
    requires Inv(y, n) && Tied(y, k, ids) && S.Inv(k) && S.Inv(S.Kill(k, p)) && p > 0 && i < |ids| && Has(y.ports[i], a)
    ensures |Kill(y, p).ports| == |y.ports| && Has(Kill(y, p).ports[i], a) && TiedAt(Kill(y, p).ports[i], S.Kill(k, p), IdOf(ids, i, a), a)
  {
    hide S.Kill, S.Inv, Without;
    var s := IdOf(ids, i, a);
    At(y, k, ids, i, a);
    L.KillMoves(k, p, s);
    WaitsThere(k, p, s);
    L.InvSize(S.Kill(k, p));
    if p in SemOf(y.ports[i], a).q {
      OwnCallers(y, n, i, a, p);
    }
  }

  // ---- whole runs -----------------------------------------------------------

  /** What happens next: a step of a port, with the entries semcreate would find, or any other kernel call. */
  datatype Event = PortStep(e: Step, a: nat, b: nat) | Call(c: R.Call)

  predicate Creates(y: Sys, i: nat, count: int) { count >= 0 && i < |y.ports| && y.ports[i].state == FREE }

  function KernStep(y: Sys, k: S.Kern, ids: seq<Ids>, e: Step, a: nat, b: nat): S.Kern
    requires Allowed(y, e)
  {
    match e
    case Send(_, i, _) => EnterKern(y, k, ids, i, true)
    case Recv(_, i) => EnterKern(y, k, ids, i, false)
    case Go(p) => GoKern(y, k, ids, p)
    case Reset(i) => ClearKern(y, k, ids, i, true)
    case Delete(i) => ClearKern(y, k, ids, i, false)
    case Next(i) => NextKern(y, k, ids, i)
    case New(i, count) => if Creates(y, i, count) then NewKern(k, a, b, count) else k
    case Die(p) => S.Kill(k, p)
  }

  function IdsStep(y: Sys, ids: seq<Ids>, e: Step, a: nat, b: nat): seq<Ids> {
    if e.New? && Creates(y, e.slot, e.count) && e.slot < |ids| then ids[e.slot := Ids(a, b)] else ids
  }

  /** The caller is the current process and may block; semcreate finds free entries. */
  predicate May(y: Sys, k: S.Kern, e: Step, a: nat, b: nat) {
    Allowed(y, e)
    && match e
       case Send(p, _, _) => p == k.curr && P.MayBlock(k)
       case Recv(p, _) => p == k.curr && P.MayBlock(k)
       case New(i, count) =>
         Creates(y, i, count) ==> a != b && a < |k.sems| && b < |k.sems| && !k.sems[a].used && !k.sems[b].used
       case Die(p) => p > 0 && (p == k.curr ==> P.MayBlock(k))
       case _ => true
  }

  /** Every step of a port is these semaphore calls: afterwards the kernel's semaphores are again what the ports say they are. */
  lemma StepTied(y: Sys, n: nat, k: S.Kern, ids: seq<Ids>, e: Step, a: nat, b: nat)
    requires Inv(y, n) && Tied(y, k, ids) && S.Inv(k) && May(y, k, e, a, b) && Do(y, e).1 != OutOfNodes
    ensures var k' := KernStep(y, k, ids, e, a, b); Tied(Do(y, e).0, k', IdsStep(y, ids, e, a, b)) && S.Inv(k')
  {
    hide S.Inv, Tied, Inv, Enter, Continue, Clear, ClearNext, Kill, S.Kill, EnterKern, GoKern, ClearKern, NextKern, NewKern;
    StepInv(y, n, e);
    match e
    case Send(p, i, msg) => EnterTied(y, k, ids, i, true, msg);
    case Recv(p, i) => EnterTied(y, k, ids, i, false, 0);
    case Go(p) => GoTied(y, k, ids, p);
    case Reset(i) => ClearTied(y, k, ids, i, true);
    case Delete(i) => ClearTied(y, k, ids, i, false);
    case Next(i) => NextTied(y, n, k, ids, i);
    case New(i, count) =>
      if Creates(y, i, count) {
        NewTied(y, k, ids, i, count, a, b);
      } else {
        NotCreated(y, i, count);
      }
    case Die(p) => KillTied(y, n, k, ids, p);
  }

  lemma NotCreated(y: Sys, i: nat, count: int)
    requires !Creates(y, i, count)
    ensures Create(y, i, count).0 == y
  {
  }

  /** The call is not about a port's semaphore, and kills nobody who waits for one. */
  ghost predicate Foreign(y: Sys, k: S.Kern, ids: seq<Ids>, c: R.Call) {
    forall i, a | 0 <= i < |ids| && i < |y.ports| && Has(y.ports[i], a) ::
      match c
      case Wait(s) => s != IdOf(ids, i, a)
      case Signal(s) => s != IdOf(ids, i, a)
      case SignalN(s, _) => s != IdOf(ids, i, a)
      case SemReset(s, _) => s != IdOf(ids, i, a)
      case SemDelete(s) => s != IdOf(ids, i, a)
      case KillOne(p) => p < 0 || p !in SemOf(y.ports[i], a).q
      case _ => true
  }

  /** A semaphore call leaves the entries it is not about as they are. */
  lemma SemCallAt(k: S.Kern, c: R.Call, s: nat)
    requires S.Inv(k) && s < |k.sems| == |k.qs.semq| && !R.Other(c) && !c.KillOne?
    requires match c
             case Wait(x) => x != s
             case Signal(x) => x != s
             case SignalN(x, _) => x != s
             case SemReset(x, _) => x != s
             case SemDelete(x) => x != s
             case SemCreate(_, _) => k.sems[s].used
             case _ => true
    ensures var r := R.Do(k, c); s < |r.sems| && s < |r.qs.semq| && r.sems[s] == k.sems[s] && r.qs.semq[s] == k.qs.semq[s]
  {
    P.InvParts(k);
    hide S.Inv, P.Steady, S.WaitSem, S.SignalSem, S.SignalMany, S.ResetSem, S.DeleteSem;
    match c
    case Wait(x) => L.Unusable(k, x, 0); if S.Usable(k, x) { L.WaitMoves(k, x); }
    case Signal(x) => L.Unusable(k, x, 0); if S.Usable(k, x) { L.SignalMoves(k, x); }
    case SignalN(x, n) => L.Unusable(k, x, n); if S.Usable(k, x) && n >= 0 { L.SignalManyMoves(k, x, n); }
    case SemReset(x, n) => if S.Usable(k, x) && n >= 0 { Q.ResetKeeps(k, x, n); } else { Q.ResetUnusable(k, x, n); }
    case SemDelete(x) => if S.Usable(k, x) { Q.DeleteKeeps(k, x); } else { Q.DeleteUnusable(k, x); }
    case SemCreate(x, n) =>
  }

  lemma KillAt(k: S.Kern, p: int, s: nat)
    requires S.Inv(k) && S.Inv(S.Kill(k, p)) && s < |k.sems| == |k.qs.semq| && (p < 0 || p !in k.qs.semq[s])
    ensures var r := S.Kill(k, p); s < |r.sems| && s < |r.qs.semq| && r.sems[s] == k.sems[s] && r.qs.semq[s] == k.qs.semq[s]
  {
    hide S.Inv, S.Kill;
    L.KillMoves(k, p, s);
    L.InvSize(S.Kill(k, p));
    if p >= 0 {
      WaitsThere(k, p, s);
    }
  }

  /** Such a call leaves every port's entries of the semaphore table as they are. */
  lemma ForeignAt(y: Sys, k: S.Kern, ids: seq<Ids>, c: R.Call, i: nat, a: bool)
    requires Tied(y, k, ids) && S.Inv(k) && R.Allowed(k, c) && Foreign(y, k, ids, c) && i < |ids| && Has(y.ports[i], a)
    ensures var r, s := R.Do(k, c), IdOf(ids, i, a);
            s < |k.sems| && s < |k.qs.semq| && s < |r.sems| && s < |r.qs.semq| && r.sems[s] == k.sems[s] && r.qs.semq[s] == k.qs.semq[s]
  {
    At(y, k, ids, i, a);
    R.StepInv(k, c);
    P.InvParts(k);
    hide S.Inv, P.Steady, Tied, S.Kill;
    if R.Other(c) {
      hide R.Do;
      R.OtherFrame(k, c);
    } else if c.KillOne? {
      KillAt(k, c.p, IdOf(ids, i, a));
    } else {
      hide R.Do;
      SemCallAt(k, c, IdOf(ids, i, a));
    }
  }

  lemma ForeignTied(y: Sys, k: S.Kern, ids: seq<Ids>, c: R.Call)
    requires Tied(y, k, ids) && S.Inv(k) && R.Allowed(k, c) && Foreign(y, k, ids, c)
    ensures Tied(y, R.Do(k, c), ids) && S.Inv(R.Do(k, c))
  {
    R.StepInv(k, c);
    L.SameSems(k, c);
    L.InvSize(k);
    L.InvSize(R.Do(k, c));
    hide S.Inv, R.Do;
    forall i, a | 0 <= i < |ids| && Has(y.ports[i], a)
      ensures var s := IdOf(ids, i, a); s < |k.sems| && s < |k.qs.semq| ==> R.Do(k, c).sems[s] == k.sems[s] && R.Do(k, c).qs.semq[s] == k.qs.semq[s]
    {
      ForeignAt(y, k, ids, c, i, a);
    }
    SameSems(y, k, ids, y, R.Do(k, c));
  }

  /** Ports and kernel side by side at one moment. */
  datatype Joint = Joint(y: Sys, k: S.Kern, ids: seq<Ids>)

  ghost predicate Follows(j: Joint, v: Event, r: Joint) {
    match v
    case PortStep(e, a, b) =>
      May(j.y, j.k, e, a, b) && Do(j.y, e).1 != OutOfNodes
      && r == Joint(Do(j.y, e).0, KernStep(j.y, j.k, j.ids, e, a, b), IdsStep(j.y, j.ids, e, a, b))
    case Call(c) =>
      R.Allowed(j.k, c) && Foreign(j.y, j.k, j.ids, c) && r == Joint(j.y, R.Do(j.k, c), j.ids)
  }

  ghost predicate JointRun(js: seq<Joint>, vs: seq<Event>) {
    |js| == |vs| + 1 && forall m | 0 <= m < |vs| :: Follows(js[m], vs[m], js[m + 1])
  }

  /** In every run of ports and kernel together, ports behave as in the runs of their own, on semaphores that are the kernel's. */
  lemma {:induction false} JointRunTied(js: seq<Joint>, vs: seq<Event>, n: nat, m: nat)
    requires JointRun(js, vs) && m < |js|
    requires Inv(js[0].y, n) && S.Inv(js[0].k) && Tied(js[0].y, js[0].k, js[0].ids)
    ensures Inv(js[m].y, n) && S.Inv(js[m].k) && Tied(js[m].y, js[m].k, js[m].ids)
  {
    hide Inv, S.Inv, Tied, Do, KernStep, IdsStep, May, R.Do, R.Allowed, Foreign;
    if m > 0 {
      JointRunTied(js, vs, n, m - 1);
      var j, v := js[m - 1], vs[m - 1];
      assert Follows(j, v, js[m]);
      match v
      case PortStep(e, a, b) =>
        MayIsAllowed(j.y, j.k, e, a, b);
        StepInv(j.y, n, e);
        StepTied(j.y, n, j.k, j.ids, e, a, b);
      case Call(c) => ForeignTied(j.y, j.k, j.ids, c);
    }
  }

  lemma MayIsAllowed(y: Sys, k: S.Kern, e: Step, a: nat, b: nat)
    requires May(y, k, e, a, b)
    ensures Allowed(y, e)
  {
  }

  /** No ports yet: any kernel will do. */
  lemma StartTied(nports: nat, n: nat, k: S.Kern, ids: seq<Ids>)
    requires |ids| == nports
    ensures Tied(Start(nports, n), k, ids)
  {
    var y := Start(nports, n);
    assert forall i | 0 <= i < nports :: y.ports[i].state == FREE;
  }
}
