/** The messages received from a port are the messages its senders passed in, in the order in which their calls completed. */
module PortOrder {
  import opened SchedLists
  import opened PortState
  import opened PortSteps
  import opened PortRun

  // ---- outcomes -----------------------------------------------------------

  /** What ptsend and ptrecv report, and when they change nothing. */
  lemma EntryOutcome(y: Sys, n: nat, p: nat, i: int, sender: bool, msg: int)
    requires Inv(y, n)
    ensures var (r, res) := Enter(y, p, i, sender, msg);
            (res == Error <==> i < 0 || !Usable(y, i)) && (res == Error ==> r == y)
            && (i >= 0 && Usable(y, i) ==>
                  var s := SemOf(y.ports[i], sender);
                  (res == Blocked <==> s.count <= 0)
                  && (res == Blocked ==> p in r.calls && r.calls[p] == Call(i, y.ports[i].sq, sender, msg))
                  && (s.count > 0 ==> r.calls == y.calls && (if sender then res == (if y.free == 0 then OutOfNodes else Done) else res.Message?)))
  {
    if i >= 0 && Usable(y, i) {
      OkAt(y, n, i);
    }
  }

  /** What a call reports when its process runs again. */
  lemma ContinueOutcome(y: Sys, n: nat, p: nat)
    requires Inv(y, n) && LetThrough(y, p)
    ensures var (r, res) := Continue(y, p); var c := y.calls[p];
            r.calls == y.calls - {p}
            && (res == Error <==> !(Usable(y, c.port) && y.ports[c.port].sq == c.sq))
            && (res != Error ==> if c.sender then res == (if y.free == 0 then OutOfNodes else Done) else res.Message?)
  {
    hide Inv, Up;
    StepInv(y, n, Go(p));
  }

  /** A reset or deleted port turns every caller away until it is done; afterwards it is usable, or free. */
  lemma ClearOutcome(y: Sys, i: int, reset: bool)
    ensures var (r, res) := Clear(y, i, reset);
            if i < 0 || !Usable(y, i) then res == Error && r == y
            else
              var r1 := ClearNext(r, i);
              var r2 := ClearNext(r1, i);
              res == Done && !Usable(r, i) && !Usable(r1, i)
              && i < |r2.ports| && r2.ports[i].state == if reset then ALLOC else FREE
  {
  }

  // ---- the messages of a run ----------------------------------------------

  predicate Enters(e: Step, p: nat) { (e.Send? || e.Recv?) && e.p == p }

  /** The call process `p` made last. */
  function Entry(es: seq<Step>, p: nat): Step {
    if es == [] then Die(p)
    else if Enters(es[|es| - 1], p) then es[|es| - 1]
    else Entry(es[..|es| - 1], p)
  }

  /** The call a step completes, if it completes one. */
  function Finished(es: seq<Step>, k: nat): Step
    requires k < |es|
  {
    if es[k].Go? then Entry(es[..k], es[k].p) else es[k]
  }

  function Passed(e: Step, i: nat, res: Result): seq<int> {
    if e.Send? && e.i == i && res == Done then [e.msg] else []
  }

  function Returned(e: Step, i: nat, res: Result): seq<int> {
    if e.Recv? && e.i == i && res.Message? then [res.msg] else []
  }

  /** The arguments of the sends to port `i` that complete in steps `a` to `b`, in that order. */
  ghost function SentTo(ys: seq<Sys>, es: seq<Step>, i: nat, a: nat, b: nat): seq<int>
    requires a <= b <= |es| && Run(ys, es)
  {
    if a == b then []
    else SentTo(ys, es, i, a, b - 1) + Passed(Finished(es, b - 1), i, Do(ys[b - 1], es[b - 1]).1)
  }

  /** The results of the receives from port `i` that complete in steps `a` to `b`. */
  ghost function GotFrom(ys: seq<Sys>, es: seq<Step>, i: nat, a: nat, b: nat): seq<int>
    requires a <= b <= |es| && Run(ys, es)
  {
    if a == b then []
    else GotFrom(ys, es, i, a, b - 1) + Returned(Finished(es, b - 1), i, Do(ys[b - 1], es[b - 1]).1)
  }

  predicate Matches(c: Call, e: Step) {
    if c.sender then e.Send? && e.i == c.port && e.msg == c.msg else e.Recv? && e.i == c.port
  }

  /** Everybody inside a call is there with the arguments of the call it made last. */
  ghost predicate Remembered(y: Sys, es: seq<Step>) {
    forall p | p in y.calls :: Matches(y.calls[p], Entry(es, p))
  }

  lemma EntryStep(es: seq<Step>, e: Step, p: nat)
    ensures Entry(es + [e], p) == if Enters(e, p) then e else Entry(es, p)
  {
    assert (es + [e])[..|es|] == es;
  }

  lemma StepCalls(y: Sys, e: Step, p: nat)
    requires Allowed(y, e) && p in Do(y, e).0.calls
    ensures if Enters(e, p) then Matches(Do(y, e).0.calls[p], e) else p in y.calls && Do(y, e).0.calls[p] == y.calls[p]
  {
    hide Up, Without;
  }

  lemma StepRemembered(y: Sys, es: seq<Step>, e: Step)
    requires Remembered(y, es) && Allowed(y, e)
    ensures Remembered(Do(y, e).0, es + [e])
  {
    hide Do, Allowed, Entry;
    forall p | p in Do(y, e).0.calls
      ensures Matches(Do(y, e).0.calls[p], Entry(es + [e], p))
    {
      StepCalls(y, e, p);
      EntryStep(es, e, p);
    }
  }

  lemma {:induction false} RunRemembered(ys: seq<Sys>, es: seq<Step>, k: nat)
    requires Run(ys, es) && ys[0].calls == map[] && k <= |es|
    ensures Remembered(ys[k], es[..k])
  {
    hide Do, Allowed;
    if k > 0 {
      RunRemembered(ys, es, k - 1);
      hide Remembered;
      StepRemembered(ys[k - 1], es[..k - 1], es[k - 1]);
      assert es[..k - 1] + [es[k - 1]] == es[..k];
    }
  }

  /** In one life of a port each step adds to its record the message it completes a call with, and nothing else. */
  lemma StepMessages(y: Sys, n: nat, e: Step, c: Step, i: nat)
    requires Inv(y, n) && Allowed(y, e) && i < |y.ports| && Do(y, e).1 != OutOfNodes
    requires if e.Go? then Matches(y.calls[e.p], c) else c == e
    requires i < |Do(y, e).0.ports| && Do(y, e).0.ports[i].sq == y.ports[i].sq
    ensures var (r, res) := Do(y, e);
            r.ports[i].sent == y.ports[i].sent + Passed(c, i, res) && r.ports[i].got == y.ports[i].got + Returned(c, i, res)
  {
    hide Inv, Up, Without;
    StepInv(y, n, e);
    match e
    case Send(p, j, msg) =>
    case Recv(p, j) =>
    case Go(p) =>
    case Reset(j) =>
    case Delete(j) =>
    case Next(j) =>
    case New(j, count) =>
    case Die(p) =>
  }

  lemma {:induction false} RunMessages(ys: seq<Sys>, es: seq<Step>, n: nat, i: nat, a: nat, b: nat)
    requires Run(ys, es) && Inv(ys[0], n) && ys[0].calls == map[] && a <= b <= |es|
    requires i < |ys[a].ports| && forall k | a <= k <= b :: i < |ys[k].ports| && ys[k].ports[i].sq == ys[a].ports[i].sq
    requires ys[a].ports[i].sent == [] && ys[a].ports[i].got == []
    ensures ys[b].ports[i].sent == SentTo(ys, es, i, a, b) && ys[b].ports[i].got == GotFrom(ys, es, i, a, b)
  {
    hide Inv, Do, Allowed;
    if a < b {
      RunMessages(ys, es, n, i, a, b - 1);
      RunInv(ys, es, n, b - 1);
      RunRemembered(ys, es, b - 1);
      assert ys[b] == Do(ys[b - 1], es[b - 1]).0;
      GoIsIn(ys[b - 1], es[b - 1]);
      StepMessages(ys[b - 1], n, es[b - 1], Finished(es, b - 1), i);
    }
  }

  lemma GoIsIn(y: Sys, e: Step)
    requires Allowed(y, e)
    ensures e.Go? ==> e.p in y.calls
  {
  }

  /**
   In one life of a port, whatever its callers do and however they are interleaved: the `j`-th message received is the
   argument of the `j`-th send to complete, and in an allocated port the messages not yet received are the arguments of the rest.
   */
  lemma Delivered(ys: seq<Sys>, es: seq<Step>, n: nat, i: nat, a: nat, b: nat)
    requires Run(ys, es) && Inv(ys[0], n) && ys[0].calls == map[] && a <= b <= |es|
    requires i < |ys[a].ports| && forall k | a <= k <= b :: i < |ys[k].ports| && ys[k].ports[i].sq == ys[a].ports[i].sq
    requires ys[a].ports[i].sent == [] && ys[a].ports[i].got == []
    requires Usable(ys[b], i)
    ensures var sent, got := SentTo(ys, es, i, a, b), GotFrom(ys, es, i, a, b);
            |got| <= |sent| && (forall j | 0 <= j < |got| :: got[j] == sent[j]) && ys[b].ports[i].msgs == sent[|got|..]
  {
    hide Inv, SentTo, GotFrom;
    RunMessages(ys, es, n, i, a, b);
    RunInv(ys, es, n, b);
    Booked(ys[b], n, i);
  }

  /** A port starts a life with nothing recorded when it is created and when it is cleared. */
  lemma LifeStarts(y: Sys, i: nat, count: nat)
    ensures i < |y.ports| && y.ports[i].state == FREE ==>
              var r := Create(y, i, count).0; Usable(r, i) && r.ports[i].sent == [] && r.ports[i].got == [] && r.ports[i].msgs == []
    ensures Usable(y, i) ==>
              forall reset :: var r := Clear(y, i, reset).0; r.ports[i].sent == [] && r.ports[i].got == [] && r.ports[i].msgs == []
  {
  }
}
