/** Ports that ptcreate made when the semaphore table was full or had one entry left, which it does not test. */
module PortStarved {
  import opened PortState

  /** The semaphores ptcreate got. */
  datatype Got = Both | SendOnly | Neither

  /** With that many free entries, two semcreate calls in a row. */
  function GotFrom(left: nat): Got { if left >= 2 then Both else if left == 1 then SendOnly else Neither }

  /** ptsend: a wait for a semaphore the port has not got is SYSERR, and a signal of one is ignored. */
  function SendAs(got: Got, y: Sys, p: nat, i: int, msg: int): (Sys, Result) {
    if i < 0 || !Usable(y, i) || got == Neither then (y, Error)
    else if got == Both then Enter(y, p, i, true, msg)
    else
      var pt := y.ports[i];
      if pt.ss.count - 1 < 0 then
        (Sys(y.ports[i := pt.(ss := Semv(pt.ss.count - 1, pt.ss.q + [p]))], y.calls[p := Call(i, pt.sq, true, msg)], y.free), Blocked)
      else
        var pt1 := pt.(ss := pt.ss.(count := pt.ss.count - 1));
        if y.free == 0 then (WithPort(y, i, pt1), OutOfNodes)
        else (y.(free := y.free - 1, ports := y.ports[i := pt1.(msgs := pt1.msgs + [msg], sent := pt1.sent + [msg])]), Done)
  }

  function RecvAs(got: Got, y: Sys, p: nat, i: int): (Sys, Result) {
    if i < 0 || !Usable(y, i) || got != Both then (y, Error) else Enter(y, p, i, false, 0)
  }

  /** A process and what it sends. */
  datatype Sending = Sending(p: nat, msg: int)

  function AfterSends(got: Got, y: Sys, i: nat, cs: seq<Sending>): Sys
    decreases |cs|
  {
    if cs == [] then y
    else var c, z := cs[|cs| - 1], AfterSends(got, y, i, cs[..|cs| - 1]); SendAs(got, z, c.p, i, c.msg).0
  }

  /** Every receive on such a port fails; without the first semaphore every send does too. */
  lemma WithoutSems(y: Sys, p: nat, i: int, msg: int, left: nat)
    requires left < 2
    ensures RecvAs(GotFrom(left), y, p, i) == (y, Error)
    ensures left == 0 ==> SendAs(GotFrom(left), y, p, i, msg) == (y, Error)
  {
  }

  lemma {:induction false} Filling(y: Sys, i: nat, count: nat, cs: seq<Sending>)
    requires Usable(y, i) && y.ports[i].ss.count == count && y.free >= count
    ensures var z := AfterSends(SendOnly, y, i, cs);
            Usable(z, i) && z.ports[i].ss.count == count - |cs| && z.free == y.free - (if |cs| < count then |cs| else count)
    decreases |cs|
  {
    if cs != [] {
      Filling(y, i, count, cs[..|cs| - 1]);
    }
  }

  /** With one entry left, a port made for `count` messages takes exactly that many; whoever sends after that waits. */
  lemma SendsFillUp(y0: Sys, i: nat, count: nat, cs: seq<Sending>, k: nat)
    requires i < |y0.ports| && y0.ports[i].state == FREE && y0.free >= count && k < |cs|
    ensures var z := AfterSends(GotFrom(1), Create(y0, i, count).0, i, cs[..k]);
            SendAs(GotFrom(1), z, cs[k].p, i, cs[k].msg).1 == if k < count then Done else Blocked
  {
    Filling(Create(y0, i, count).0, i, count, cs[..k]);
  }
}
