/** One message per process: a message accepted by send stays until the process takes it, and wakes it. */
module SchedMail {
  import opened SchedLists
  import opened SchedState
  import opened SchedMoves
  import opened SchedSteps
  import opened SchedRun
  import opened SchedLife

  /** The process exists and has no message waiting. */
  predicate Accepts(k: Kern, p: int) { p >= 0 && StateOf(k, p) != FREE && !k.procs[p].hasmsg }

  predicate Mail(k: Kern, p: nat, msg: int) { StateOf(k, p) != FREE && k.procs[p].hasmsg && k.procs[p].msg == msg }

  /** The process can run, and no queue but the ready list holds it. */
  predicate CanRun(k: Kern, p: nat) {
    ((StateOf(k, p) == READY && p in k.qs.ready) || (StateOf(k, p) == CURR && p == k.curr)) && p !in k.qs.sleep
  }

  lemma CanRunIf(k: Kern, p: nat)
    requires Inv(k) && p < |k.procs| && Plain(k.procs[p]).state == READY
    ensures CanRun(k, p)
  {
    if k.procs[p].state == READY {
      assert p in Queue(k.qs, OnReady);
    }
    assert p in k.qs.sleep ==> p in Queue(k.qs, OnSleep);
  }

  /** An accepted message is in the recipient's table entry, a recipient in receive or recvtime can run, and nobody else's entry is touched. */
  lemma SendDelivers(k: Kern, p: int, msg: int)
    requires Inv(k) && Accepts(k, p)
    ensures var r := Do(k, SendTo(p, msg));
            Mail(r, p, msg) && |r.procs| == |k.procs|
            && (if k.procs[p].state == RECV || k.procs[p].state == RECTIM then CanRun(r, p) else Plain(r.procs[p]).state == Plain(k.procs[p]).state)
            && forall q | 0 <= q < |k.procs| && q != p :: Plain(r.procs[q]) == Plain(k.procs[q])
  {
    hide Inv, Do;
    var e := SendTo(p, msg);
    StepLife(k, e, p);
    StepInv(k, e);
    if k.procs[p].state == RECV || k.procs[p].state == RECTIM {
      CanRunIf(Do(k, e), p);
    }
    forall q | 0 <= q < |k.procs| && q != p
      ensures Plain(Do(k, e).procs[q]) == Plain(k.procs[q])
    {
      StepLife(k, e, q);
    }
  }

  /** Otherwise nothing happens; in particular a message that is waiting is not overwritten. */
  lemma SendRefused(k: Kern, p: int, msg: int)
    requires !Accepts(k, p)
    ensures Do(k, SendTo(p, msg)) == k
  {
    NotSent(k, p, msg);
  }

  /** The message waits until its recipient takes it. */
  lemma MailKept(k: Kern, e: Call, p: nat, msg: int)
    requires Inv(k) && Allowed(k, e) && Mail(k, p, msg) && e != KillOne(p) && !(e.Take? && k.curr == p)
    ensures Mail(Do(k, e), p, msg)
  {
    hide Inv, Do, Allowed;
    StepLife(k, e, p);
    NextMail(k, e, p);
  }

  lemma NextMail(k: Kern, e: Call, p: nat)
    requires p < |k.procs| && k.procs[p].state != FREE && k.procs[p].hasmsg && e != KillOne(p) && !(e.Take? && k.curr == p)
    ensures var pr := Next(k, e, p); pr.state != FREE && pr.hasmsg && pr.msg == k.procs[p].msg
  {
    hide Due, Waiting, First;
  }

  /** Over a whole run: a process that has not taken or lost it still has the message of the last send that was accepted. */
  lemma {:induction false} LastSendWaits(ks: seq<Kern>, es: seq<Call>, n: nat, p: nat, msg: int)
    requires Run(ks, es) && Inv(ks[0]) && 0 < n < |ks| && es[0] == SendTo(p, msg) && Accepts(ks[0], p)
    requires forall i | 0 < i < n :: es[i] != KillOne(p) && !(es[i].Take? && ks[i].curr == p)
    ensures Mail(ks[n], p, msg)
    ensures forall i | 0 < i < n && es[i].SendTo? && es[i].p == p :: ks[i + 1] == ks[i]
  {
    hide Inv, Do, Allowed;
    if n == 1 {
      assert ks[1] == Do(ks[0], es[0]);
      SendDelivers(ks[0], p, msg);
    } else {
      LastSendWaits(ks, es, n - 1, p, msg);
      RunInv(ks, es, n - 1);
      assert ks[n] == Do(ks[n - 1], es[n - 1]);
      MailKept(ks[n - 1], es[n - 1], p, msg);
      if es[n - 1].SendTo? && es[n - 1].p == p {
        SendRefused(ks[n - 1], p, es[n - 1].msg);
      }
    }
  }

  /** Taking it clears the flag and leaves the rest of the table alone, so that the next send is accepted. */
  lemma TakeClears(k: Kern, p: nat, msg: int)
    requires Inv(k) && Mail(k, p, msg) && k.curr == p
    ensures var r := Do(k, Take);
            Accepts(r, p) && |r.procs| == |k.procs| && forall q | 0 <= q < |k.procs| && q != p :: r.procs[q] == k.procs[q]
  {
    hide Inv;
    assert p < |k.procs|;
    Collected(k);
  }

  lemma Collected(k: Kern)
    requires k.curr < |k.procs|
    ensures Do(k, Take).procs == k.procs[k.curr := k.procs[k.curr].(hasmsg := false)]
  {
  }

  /** receive stops its caller exactly when no message is waiting. */
  lemma ReceiveWaitsIff(k: Kern, d: nat)
    requires Inv(k) && MayBlock(k)
    ensures k.curr < |k.procs|
    ensures if k.procs[k.curr].hasmsg then Do(k, Recv) == k else StateOf(Do(k, Recv), k.curr) == RECV
    ensures if k.procs[k.curr].hasmsg then Do(k, RecvTime(d)) == k else StateOf(Do(k, RecvTime(d)), k.curr) == RECTIM
  {
    hide Inv, Do, Steady, Struct, Due, Waiting, First;
    InvParts(k);
    CurrThere(k);
    StepLife(k, Recv, k.curr);
    StepLife(k, RecvTime(d), k.curr);
    if k.procs[k.curr].hasmsg {
      GoesOn(k, d);
    }
  }

  lemma GoesOn(k: Kern, d: nat)
    requires k.curr < |k.procs| && k.procs[k.curr].hasmsg
    ensures Do(k, Recv) == k && Do(k, RecvTime(d)) == k
  {
  }

  /** What becomes of a process that is killed, suspended or resumed. */
  lemma LifeCycle(k: Kern, p: nat)
    requires Inv(k) && NULLPROC < p < |k.procs|
    ensures (p == k.curr ==> MayBlock(k)) ==> StateOf(Do(k, KillOne(p)), p) == FREE
    ensures (p == k.curr ==> MayBlock(k)) && (k.procs[p].state == READY || k.procs[p].state == CURR) ==> StateOf(Do(k, Susp(p)), p) == SUSP
    ensures k.procs[p].state == SUSP ==> CanRun(Do(k, Res(p)), p)
  {
    hide Inv, Do;
    if p == k.curr ==> MayBlock(k) {
      StepLife(k, KillOne(p), p);
      StepLife(k, Susp(p), p);
    }
    if k.procs[p].state == SUSP {
      StepLife(k, Res(p), p);
      StepInv(k, Res(p));
      CanRunIf(Do(k, Res(p)), p);
    }
  }
}
