/**
 What the client is told: how every response follows from what the host stack last reported of its URB, and which
 cancelled URBs are submitted again instead of being answered.
 */
module UrbOutcomes {
  import opened Basics
  import opened UrbProtocol
  import opened UrbInvariant
  import opened UrbLifeCycle
  import opened UrbTheorems

  // ----- what the host stack last reported -----

  /** A flush reaches s: it is with the host stack, and its endpoint is the one flushed. */
  predicate Flushes(st: State, l: Label, s: Seqnum) {
    && At(st, s, InFlight)
    && (|| (l == CancelEndpoint(true) && st.receiver == Cancelling(st.urbs[s].ep))
        || l == DisconnectCancel(st.urbs[s].ep, true))
  }

  /** How the last completion of s in the first k steps ended. */
  ghost function LastOutcome(states: seq<State>, ls: seq<Label>, k: nat, s: Seqnum): Option<TrxStatus>
    requires k <= |ls| < |states|
  {
    if k == 0 then None
    else if ls[k - 1].HostComplete? && ls[k - 1].s == s then Some(ls[k - 1].status)
    else if Flushes(states[k - 1], ls[k - 1], s) then Some(Canceled)
    else LastOutcome(states, ls, k - 1, s)
  }

  /** The callback has the URB on its way to an answer: completed with this status. */
  predicate Carries(p: Phase, status: TrxStatus) {
    p == Done(status) || p == InCallback(status) || p == Erased(status)
  }

  lemma HostMoves(st: State, l: Label, s: Seqnum)
    requires Enabled(st, l) && Known(st, l) && s in st.urbs
    requires l.CancelEndpoint? || l.DisconnectCancel? || l.HostComplete?
    ensures var st' := Apply(st, l);
            && s in st'.urbs
            && st'.urbs[s].phase
               == if l.HostComplete? && l.s == s then Done(l.status)
                  else if Flushes(st, l, s) then Done(Canceled)
                  else st.urbs[s].phase
  {
  }

  lemma EdgeCarriesOn(p: Phase, q: Phase, l: Label, s: Seqnum, stopping: bool, n: nat, status: TrxStatus)
    requires Edge(p, q, l, s, stopping, n) && Carries(q, status)
    requires !l.CancelEndpoint? && !l.DisconnectCancel? && !l.HostComplete?
    ensures Carries(p, status)
  {
  }

  lemma OthersCarryOn(st: State, l: Label, st': State, s: Seqnum, status: TrxStatus)
    requires UrbLives(st, l, st', s) && !l.CancelEndpoint? && !l.DisconnectCancel? && !l.HostComplete?
    requires s in st'.urbs && Carries(st'.urbs[s].phase, status)
    ensures s in st.urbs && Carries(st.urbs[s].phase, status)
  {
    if s in st.urbs && st'.urbs[s].phase != st.urbs[s].phase {
      EdgeCarriesOn(st.urbs[s].phase, st'.urbs[s].phase, l, s, st.stopping, |st.history|, status);
    }
  }

  /** A URB carries the status of its last completion. */
  lemma {:induction false} CarriesLastOutcome(states: seq<State>, ls: seq<Label>, k: nat, s: Seqnum, status: TrxStatus)
    requires IsRun(states, ls) && k <= |ls|
    requires s in states[k].urbs && Carries(states[k].urbs[s].phase, status)
    ensures LastOutcome(states, ls, k, s) == Some(status)
  {
    if k != 0 {
      StepOfRun(states, ls, k - 1);
      var st, l := states[k - 1], ls[k - 1];
      EveryUrbLives(st, l, s);
      if l.CancelEndpoint? || l.DisconnectCancel? || l.HostComplete? {
        HostMoves(st, l, s);
      } else {
        OthersCarryOn(st, l, states[k], s, status);
      }
      if s in st.urbs && Carries(st.urbs[s].phase, status) {
        CarriesLastOutcome(states, ls, k - 1, s, status);
      }
    }
  }

  // ----- which cancelled URBs are submitted again -----

  lemma FromCallback(q: Phase, l: Label, s: Seqnum, status: TrxStatus, stopping: bool, n: nat)
    requires Edge(InCallback(status), q, l, s, stopping, n)
    ensures if l.CallbackResubmit? then l.s == s && (q == InFlight || q == ResubmitFailed)
            else l == CallbackErase(s) && q == Erased(status)
  {
  }

  /** A URB that somebody else's cancel hit is resubmitted, and no other is: from a callback in the connected session a
      URB goes back to the host stack, or is refused there, exactly if it was cancelled and no CMD_UNLINK is recorded on
      it; otherwise it leaves the table to be answered. */
  lemma ResubmittedExactlyWhen(states: seq<State>, ls: seq<Label>, k: nat, s: Seqnum, status: TrxStatus)
    requires IsRun(states, ls) && k < |ls| && At(states[k], s, InCallback(status))
    requires !At(states[k + 1], s, InCallback(status))
    ensures At(states[k + 1], s, InFlight) || At(states[k + 1], s, ResubmitFailed)
       <==> status == Canceled && states[k].urbs[s].unlinkCmd.None?
    ensures !(status == Canceled && states[k].urbs[s].unlinkCmd.None?) ==> At(states[k + 1], s, Erased(status))
  {
    StepOfRun(states, ls, k);
    EveryUrbLives(states[k], ls[k], s);
    FromCallback(states[k + 1].urbs[s].phase, ls[k], s, status, states[k].stopping, |states[k].history|);
  }

  /** Nothing but the mutex keeps it from that. */
  lemma ResubmissionIsOpen(states: seq<State>, ls: seq<Label>, k: nat, s: Seqnum, accepted: bool)
    requires IsRun(states, ls) && k <= |ls| && At(states[k], s, InCallback(Canceled))
    requires states[k].urbs[s].unlinkCmd.None? && states[k].holder.None?
    ensures Enabled(states[k], CallbackResubmit(s, accepted)) && !Enabled(states[k], CallbackErase(s))
  {
  }

  lemma MarkStays(st: State, l: Label, st': State, s: Seqnum)
    requires s in st.urbs && UrbLives(st, l, st', s) && st.urbs[s].unlinkCmd.Some?
    ensures st'.urbs[s].unlinkCmd.Some?
  {
  }

  lemma ErasedFrom(st: State, l: Label, st': State, s: Seqnum)
    requires UrbLives(st, l, st', s) && Enabled(st, l) && At(st', s, Erased(Canceled))
    ensures At(st, s, Erased(Canceled)) || (s in st.urbs && l == CallbackErase(s) && st.urbs[s].unlinkCmd.Some?)
  {
    if s in st.urbs && !At(st, s, Erased(Canceled)) {
      ToErased(st.urbs[s].phase, l, s, st.stopping, |st.history|);
    }
  }

  lemma ToErased(p: Phase, l: Label, s: Seqnum, stopping: bool, n: nat)
    requires Edge(p, Erased(Canceled), l, s, stopping, n)
    ensures p == InCallback(Canceled) && l == CallbackErase(s)
  {
  }

  /** A cancelled URB on its way to an answer carries an unlink mark. */
  lemma {:induction false} CancelledIsMarked(states: seq<State>, ls: seq<Label>, k: nat, s: Seqnum)
    requires IsRun(states, ls) && k <= |ls| && At(states[k], s, Erased(Canceled))
    ensures states[k].urbs[s].unlinkCmd.Some?
  {
    if k != 0 {
      StepOfRun(states, ls, k - 1);
      EveryUrbLives(states[k - 1], ls[k - 1], s);
      ErasedFrom(states[k - 1], ls[k - 1], states[k], s);
      if At(states[k - 1], s, Erased(Canceled)) { CancelledIsMarked(states, ls, k - 1, s); }
      MarkStays(states[k - 1], ls[k - 1], states[k], s);
    }
  }

  // ----- what is enqueued -----

  /** Linux's errno values, as the client reads them. */
  function Errno(status: TrxStatus): int {
    match status
    case Completed => 0
    case Error => -32
    case TimedOut => -32
    case Canceled => -104
    case Stall => -32
    case Overflow => -32
    case Skipped => -2
    case NoDevice => -108
  }

  /** The callback of s enqueues r, knowing how s ended. */
  predicate CallbackSays(u: Urb, s: Seqnum, outcome: TrxStatus, r: Response) {
    match r
    case RetUnlink(c, status) => u.unlinkCmd == Some(c) && status == Errno(outcome)
    case RetSubmit(x, status, transfer) =>
      && u.unlinkCmd.None? && x == s && status == Errno(outcome)
      && transfer == if u.isOut then None else Some(u.handle)
  }

  /** What each step enqueues. */
  predicate Says(st: State, l: Label, said: seq<Response>) {
    match l
    case Tweak => st.receiver.Holding? && said == [RetSubmit(st.receiver.s, 0, None)]
    case SubmitAnswer(_) => st.receiver.Answering? && said == [RetSubmit(st.receiver.s, -32, None)]
    case CallbackResubmitAnswer(s) => said == [RetSubmit(s, -32, None)]
    case ReplyUnlink => st.receiver.Replying? && said == [RetUnlink(st.receiver.c, 0)]
    case CallbackRespond(s) =>
      && s in st.urbs && st.urbs[s].phase.Erased?
      && |said| == 1 && CallbackSays(st.urbs[s], s, st.urbs[s].phase.status, said[0])
    case _ => said == []
  }

  lemma CallbackAnswers(st: State, s: Seqnum) returns (r: Response)
    requires Inv(st) && Enabled(st, CallbackRespond(s)) && Known(st, CallbackRespond(s))
    ensures Apply(st, CallbackRespond(s)).history == st.history + [r]
    ensures CallbackSays(st.urbs[s], s, st.urbs[s].phase.status, r)
  {
    assert UrbOk(st, s);
    var u := st.urbs[s];
    if u.unlinkCmd.Some? {
      r := RetUnlink(u.unlinkCmd.value, Errno(u.phase.status));
      assert UnlinkCompleted(st, s).history == st.history + [r];
    } else {
      r := RetSubmit(s, Errno(u.phase.status), if u.isOut then None else Some(u.handle));
      assert SubmitCompleted(st, s).history == st.history + [r];
    }
  }

  lemma OthersAreSilent(st: State, l: Label)
    requires Enabled(st, l) && Known(st, l) && !l.Tweak? && !l.SubmitAnswer? && !l.CallbackResubmitAnswer?
    requires !l.ReplyUnlink? && !l.CallbackRespond?
    ensures Apply(st, l).history == st.history
  {
  }

  lemma StepSays(st: State, l: Label) returns (said: seq<Response>)
    requires Inv(st) && Enabled(st, l) && Known(st, l)
    ensures Apply(st, l).history == st.history + said && Says(st, l, said)
  {
    said := [];
    match l
    case Tweak => said := [RetSubmit(st.receiver.s, 0, None)];
    case SubmitAnswer(_) => said := [RetSubmit(st.receiver.s, -32, None)];
    case CallbackResubmitAnswer(s) => said := [RetSubmit(s, -32, None)];
    case ReplyUnlink => said := [RetUnlink(st.receiver.c, 0)];
    case CallbackRespond(s) =>
      var r := CallbackAnswers(st, s);
      said := [r];
    case _ => OthersAreSilent(st, l);
  }

  /** Step j of the run enqueues r for a reason: a control request is handled at once, a submission or resubmission is
      refused, an unlink misses, or the callback of a URB reports how it ended, which is not a cancel meant for
      another. */
  ghost predicate EnqueuedFor(states: seq<State>, ls: seq<Label>, j: nat, r: Response)
    requires j < |ls| < |states|
  {
    match ls[j]
    case Tweak => states[j].receiver.Holding? && r == RetSubmit(states[j].receiver.s, 0, None)
    case SubmitAnswer(_) => states[j].receiver.Answering? && r == RetSubmit(states[j].receiver.s, -32, None)
    case CallbackResubmitAnswer(s) => r == RetSubmit(s, -32, None)
    case ReplyUnlink => states[j].receiver.Replying? && r == RetUnlink(states[j].receiver.c, 0)
    case CallbackRespond(s) =>
      && s in states[j].urbs && LastOutcome(states, ls, j, s).Some?
      && CallbackSays(states[j].urbs[s], s, LastOutcome(states, ls, j, s).value, r)
      && (r.RetSubmit? ==> LastOutcome(states, ls, j, s).value != Canceled)
    case _ => false
  }

  /** On every run, every response was enqueued for such a reason, with the status that belongs to it; and a URB that an
      unlink consumes reports how it ended on the RET_UNLINK. */
  lemma {:induction false} EveryReplyTellsTheOutcome(states: seq<State>, ls: seq<Label>, k: nat, i: nat)
    requires IsRun(states, ls) && k <= |ls| && i < |states[k].history|
    ensures exists j: nat :: j < k && |states[j].history| == i && EnqueuedFor(states, ls, j, states[k].history[i])
  {
    StepOfRun(states, ls, k - 1);
    var st, l := states[k - 1], ls[k - 1];
    var said := StepSays(st, l);
    if i < |st.history| {
      EveryReplyTellsTheOutcome(states, ls, k - 1, i);
    } else {
      assert states[k].history[i] == said[0];
      if l.CallbackRespond? {
        CarriesLastOutcome(states, ls, k - 1, l.s, st.urbs[l.s].phase.status);
        if said[0].RetSubmit? && st.urbs[l.s].phase.status == Canceled { CancelledIsMarked(states, ls, k - 1, l.s); }
      }
      assert EnqueuedFor(states, ls, k - 1, states[k].history[i]);
    }
  }

  /** No CMD_SUBMIT is ever answered with ECONNRESET: a cancelled URB is submitted again or consumed by its unlink. */
  lemma NoSubmitIsReset(states: seq<State>, ls: seq<Label>, k: nat, i: nat)
    requires IsRun(states, ls) && k <= |ls| && i < |states[k].history| && states[k].history[i].RetSubmit?
    ensures states[k].history[i].status != -104
  {
    EveryReplyTellsTheOutcome(states, ls, k, i);
  }

  /** A URB the host stack has accepted is answered with success only if it completed so. */
  lemma SuccessIsCompletion(states: seq<State>, ls: seq<Label>, k: nat, i: nat)
    requires IsRun(states, ls) && k <= |ls| && i < |states[k].history| && states[k].history[i].RetSubmit?
    requires states[k].history[i].status == 0
    ensures exists j: nat :: j < k && |states[j].history| == i
              && (ls[j] == Tweak || LastOutcome(states, ls, j, states[k].history[i].seqnum) == Some(Completed))
  {
    EveryReplyTellsTheOutcome(states, ls, k, i);
  }

  // ----- nothing but the mutex holds a callback up -----

  /** The next section of a URB's callback, if it is in one. */
  function NextSection(u: Urb, s: Seqnum): Option<Label> {
    match u.phase
    case Done(_) => Some(CallbackStart(s))
    case InCallback(status) =>
      if status == Canceled && u.unlinkCmd.None? then Some(CallbackResubmit(s, true)) else Some(CallbackErase(s))
    case Erased(_) => Some(CallbackRespond(s))
    case ResubmitFailed => Some(CallbackResubmitAnswer(s))
    case Draining => Some(CallbackDrain(s))
    case Drained => Some(CallbackFree(s))
    case _ => None
  }

  /** On every run, a callback's next section is open unless another callback is between the two halves of a completion;
      and taking it moves the URB on. */
  lemma CallbacksGoOn(states: seq<State>, ls: seq<Label>, k: nat, s: Seqnum)
    requires IsRun(states, ls) && k <= |ls| && s in states[k].urbs && NextSection(states[k].urbs[s], s).Some?
    requires states[k].holder.None? || states[k].holder == Some(s)
    ensures var l := NextSection(states[k].urbs[s], s).value;
            && Enabled(states[k], l) && Known(states[k], l)
            && s in Apply(states[k], l).urbs && Apply(states[k], l).urbs[s].phase != states[k].urbs[s].phase
  {
    EveryRunIsSafe(states, ls, k);
    assert UrbOk(states[k], s);
    KnownAlways(states[k], NextSection(states[k].urbs[s], s).value);
  }
}
