/**
 The handler and the session together: the order in which responses reach the wire.

 Handler steps that enqueue do so through the session, so they need its mutex; a response leaves the
 handler's view of the queue when the sender takes it out.
 */
module WireOrder {
  import opened Basics
  import opened UrbProtocol
  import opened UrbInvariant
  import opened UrbTheorems
  import opened SessionQueue

  datatype System = System(handler: State, queue: Queue)

  datatype Step = Handler(l: Label) | Queueing(a: Action)

  const BOOT: System := System(START, EMPTY)

  /** The response step l enqueues, if any. */
  ghost function Enqueued(st: State, l: Label): Option<Response>
    requires Enabled(st, l) && Known(st, l)
  {
    var n := |st.history|;
    if |Apply(st, l).history| > n then Some(Apply(st, l).history[n]) else None
  }

  /** A handler step; one that enqueues a response needs the session's mutex. */
  ghost predicate HandlerStep(sys: System, l: Label, next: System) {
    && l != Take && Enabled(sys.handler, l)
    && (Known(sys.handler, l) ==>
          var r := Enqueued(sys.handler, l);
          && next.handler == Apply(sys.handler, l)
          && (r.Some? ==> Can(sys.queue, Enqueue(r.value)))
          && next.queue == if r.Some? then Do(sys.queue, Enqueue(r.value)) else sys.queue)
  }

  /** A queue action; taking a response out is also the handler's view of it leaving. */
  ghost predicate QueueStep(sys: System, a: Action, next: System) {
    && !a.Enqueue? && Can(sys.queue, a)
    && next.queue == Do(sys.queue, a)
    && (if a.Pop? then Enabled(sys.handler, Take) ==> next.handler == Taken(sys.handler)
        else next.handler == sys.handler)
  }

  ghost predicate SystemStep(sys: System, step: Step, next: System) {
    match step
    case Handler(l) => HandlerStep(sys, l, next)
    case Queueing(a) => QueueStep(sys, a, next)
  }

  ghost predicate StepsAt(systems: seq<System>, steps: seq<Step>, i: nat)
    requires i < |steps| && |systems| == |steps| + 1
  {
    SystemStep(systems[i], steps[i], systems[i + 1])
  }

  ghost predicate IsSystemRun(systems: seq<System>, steps: seq<Step>) {
    && |systems| == |steps| + 1
    && systems[0] == BOOT
    && forall i: nat :: i < |steps| ==> StepsAt(systems, steps, i)
  }

  /** Both halves are safe, and agree on what was enqueued and how much of it was taken. */
  ghost predicate Coupled(sys: System) {
    && Inv(sys.handler) && QueueInv(sys.queue)
    && sys.queue.history == sys.handler.history
    && |sys.queue.taken| == sys.handler.taken
  }

  ghost predicate AtMostOneMore(st: State, st': State) {
    && st'.taken == st.taken
    && (st'.history == st.history
        || (|st'.history| == |st.history| + 1 && st'.history == st.history + [st'.history[|st.history|]]))
  }

  lemma CallbackEnqueuesAtMostOne(st: State, l: Label)
    requires Enabled(st, l) && Known(st, l)
    requires l.CallbackStart? || l.CallbackResubmit? || l.CallbackResubmitAnswer? || l.CallbackErase?
             || l.CallbackRespond? || l.CallbackDrain? || l.CallbackFree?
    ensures AtMostOneMore(st, Apply(st, l))
  {
  }

  lemma StepEnqueuesAtMostOne(st: State, l: Label)
    requires Enabled(st, l) && Known(st, l) && l != Take
    ensures AtMostOneMore(st, Apply(st, l))
  {
    match l
    case CallbackStart(_) | CallbackResubmit(_, _) | CallbackResubmitAnswer(_) | CallbackErase(_) | CallbackRespond(_)
      | CallbackDrain(_) | CallbackFree(_) => CallbackEnqueuesAtMostOne(st, l);
    case _ =>
  }

  lemma HandlerStepCouples(sys: System, l: Label, next: System)
    requires Coupled(sys) && HandlerStep(sys, l, next)
    ensures Known(sys.handler, l) && Coupled(next)
  {
    KnownAlways(sys.handler, l);
    StepKeepsInv(sys.handler, l);
    StepEnqueuesAtMostOne(sys.handler, l);
    var r := Enqueued(sys.handler, l);
    if r.Some? { ActionKeepsInv(sys.queue, Enqueue(r.value)); }
  }

  lemma QueueStepCouples(sys: System, a: Action, next: System)
    requires Coupled(sys) && QueueStep(sys, a, next)
    ensures Coupled(next)
    ensures next.handler == if a.Pop? then Taken(sys.handler) else sys.handler
  {
    ActionKeepsInv(sys.queue, a);
    if a.Pop? {
      var q := sys.queue;
      assert |q.history| == |q.taken| + |q.readBuffer| + |q.writeBuffer|;
      KnownAlways(sys.handler, Take);
      StepKeepsInv(sys.handler, Take);
    }
  }

  lemma {:induction false} EverySystemRunIsCoupled(systems: seq<System>, steps: seq<Step>, k: nat)
    requires IsSystemRun(systems, steps) && k <= |steps|
    ensures Coupled(systems[k])
  {
    if k == 0 {
      StartIsGood();
    } else {
      EverySystemRunIsCoupled(systems, steps, k - 1);
      assert StepsAt(systems, steps, k - 1);
      match steps[k - 1]
      case Handler(l) => HandlerStepCouples(systems[k - 1], l, systems[k]);
      case Queueing(a) => QueueStepCouples(systems[k - 1], a, systems[k]);
    }
  }

  // ----- the race, seen from the system -----

  /** At one of the first k steps the receiver replied to c while its target s was in the failed-resubmission branch. */
  ghost predicate RacedOnWire(systems: seq<System>, steps: seq<Step>, k: nat, s: Seqnum, c: Seqnum)
    requires k <= |steps| < |systems|
  {
    exists j :: 0 <= j < k && steps[j].Handler? && Races(systems[j].handler, steps[j].l, s, c)
  }

  /** Taking a response out of the queue makes nothing late. */
  lemma TakingIsNotLate(st: State, s: Seqnum, c: Seqnum)
    requires st.taken < |st.history|
    ensures Late(Taken(st), s, c) <==> Late(st, s, c)
  {
  }

  lemma LateAfterStep(sys: System, step: Step, next: System, s: Seqnum, c: Seqnum)
    requires Coupled(sys) && SystemStep(sys, step, next)
    ensures Late(next.handler, s, c) <==> Late(sys.handler, s, c) || (step.Handler? && Races(sys.handler, step.l, s, c))
  {
    match step
    case Handler(l) =>
      HandlerStepCouples(sys, l, next);
      LateStep(sys.handler, l, s, c);
    case Queueing(a) =>
      QueueStepCouples(sys, a, next);
      if a.Pop? { TakingIsNotLate(sys.handler, s, c); }
  }

  lemma {:induction false} LateExactlyWhenRacedOnWire(systems: seq<System>, steps: seq<Step>, k: nat, s: Seqnum,
                                                      c: Seqnum)
    requires IsSystemRun(systems, steps) && k <= |steps|
    ensures Late(systems[k].handler, s, c) <==> RacedOnWire(systems, steps, k, s, c)
  {
    if k != 0 {
      LateExactlyWhenRacedOnWire(systems, steps, k - 1, s, c);
      EverySystemRunIsCoupled(systems, steps, k - 1);
      assert StepsAt(systems, steps, k - 1);
      LateAfterStep(systems[k - 1], steps[k - 1], systems[k], s, c);
      var now := steps[k - 1].Handler? && Races(systems[k - 1].handler, steps[k - 1].l, s, c);
      assert RacedOnWire(systems, steps, k, s, c) <==> (RacedOnWire(systems, steps, k - 1, s, c) || now);
    }
  }

  // ----- order on the wire -----

  /** Responses i < j of h do not answer the same URB or the same CMD_UNLINK, and are not a RET_UNLINK overtaking the
      RET_SUBMIT of its target, except through the race. */
  ghost predicate Ordered(systems: seq<System>, steps: seq<Step>, k: nat, h: seq<Response>, i: nat, j: nat)
    requires k <= |steps| < |systems| && i < j < |h|
  {
    && !(h[i].RetSubmit? && h[j].RetSubmit? && h[i].seqnum == h[j].seqnum)
    && !(h[i].RetUnlink? && h[j].RetUnlink? && h[i].seqnum == h[j].seqnum)
    && (h[i].RetUnlink? && h[j].RetSubmit? ==>
          var c, s := h[i].seqnum, h[j].seqnum;
          var unlinks := systems[k].handler.unlinks;
          c in unlinks && (unlinks[c].target == s ==> RacedOnWire(systems, steps, k, s, c)))
  }

  lemma HistoryIsOrdered(systems: seq<System>, steps: seq<Step>, k: nat, i: nat, j: nat)
    requires IsSystemRun(systems, steps) && k <= |steps| && i < j < |systems[k].handler.history|
    ensures Ordered(systems, steps, k, systems[k].handler.history, i, j)
  {
    EverySystemRunIsCoupled(systems, steps, k);
    var st := systems[k].handler;
    assert ResponseOk(st, i) && ResponseOk(st, j);
    if st.history[i].RetUnlink? && st.history[j].RetSubmit? {
      LateExactlyWhenRacedOnWire(systems, steps, k, st.history[j].seqnum, st.history[i].seqnum);
    }
  }

  /**
   On the wire, at every moment of every run of handler and session together: no URB has been answered twice, no
   CMD_UNLINK replied to twice, and no RET_SUBMIT follows the RET_UNLINK of a command that targets its URB, unless
   the run contains the failed-resubmission race for them.
   */
  lemma WireIsOrdered(systems: seq<System>, steps: seq<Step>, k: nat, i: nat, j: nat)
    requires IsSystemRun(systems, steps) && k <= |steps| && i < j < |systems[k].queue.taken|
    ensures Ordered(systems, steps, k, systems[k].queue.taken, i, j)
  {
    EverySystemRunIsCoupled(systems, steps, k);
    var q := systems[k].queue;
    assert q.history == q.taken + (q.readBuffer + q.writeBuffer);
    HistoryIsOrdered(systems, steps, k, i, j);
  }
}
