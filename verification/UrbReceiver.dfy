/**
 What the receiver thread does: that it follows its program whatever the other threads do in between, that an unlink
 cancels its target's endpoint and no other, and when the handler takes its device to be gone.
 */
module UrbReceiver {
  import opened Basics
  import opened UrbProtocol
  import opened UrbInvariant
  import opened UrbLifeCycle
  import opened UrbTheorems
  import opened UrbOutcomes

  predicate OfReceiver(l: Label) {
    || l.RecvSubmit? || l.Reject? || l.Tweak? || l.Register? || l.SubmitOk? || l.SubmitRefused? || l.SubmitErase?
    || l.SubmitAnswer? || l.RecvUnlink? || l.Lookup? || l.CancelEndpoint? || l.ReplyUnlink? || l.Disconnect?
    || l.DisconnectCancel? || l.DisconnectDone?
  }

  /** The receiver takes no step between j and k. */
  ghost predicate Rests(ls: seq<Label>, j: nat, k: nat)
    requires k <= |ls|
  {
    forall m: nat | j < m < k :: !OfReceiver(ls[m])
  }

  lemma OthersLeaveIt(st: State, l: Label)
    requires Enabled(st, l) && Known(st, l) && !OfReceiver(l)
    ensures Apply(st, l).receiver == st.receiver
  {
  }

  lemma {:induction false} StaysThere(states: seq<State>, ls: seq<Label>, j: nat, k: nat)
    requires IsRun(states, ls) && j < k <= |ls| && Rests(ls, j, k)
    ensures states[k].receiver == states[j + 1].receiver
    decreases k
  {
    if k != j + 1 {
      StaysThere(states, ls, j, k - 1);
      StepOfRun(states, ls, k - 1);
      OthersLeaveIt(states[k - 1], ls[k - 1]);
    }
  }

  // ----- the receiver's program -----

  predicate TakesNextCommand(next: Label) {
    next.RecvSubmit? || next.RecvUnlink? || next.Disconnect?
  }

  /** The receiver's program: after its step l, taken in state st, it goes on with `next`. */
  predicate IsNext(st: State, l: Label, next: Label) {
    match l
    case RecvSubmit(_, _, _) =>
      if st.removed then next.Disconnect? else next.Reject? || next.Tweak? || next.Register?
    case Reject => next.Disconnect?
    case Register => next.SubmitOk? || next.SubmitRefused?
    case SubmitRefused => next.SubmitErase?
    case SubmitErase => next.SubmitAnswer?
    case SubmitAnswer(notFound) => if notFound then next.Disconnect? else TakesNextCommand(next)
    case RecvUnlink(_, _) => if st.removed then TakesNextCommand(next) else next.Lookup?
    case Lookup =>
      st.receiver.Looking? && if st.receiver.target in st.table then next.CancelEndpoint? else next.ReplyUnlink?
    case Tweak | SubmitOk | CancelEndpoint(_) | ReplyUnlink => TakesNextCommand(next)
    case Disconnect => !st.removed && (next.DisconnectCancel? || next.DisconnectDone?)
    case DisconnectCancel(_, _) => next.DisconnectCancel? || next.DisconnectDone?
    case _ => false
  }

  /** What a step has to wait for: the mutex, the table to empty, or a command to come. */
  predicate NotHeldUp(st: State, next: Label) {
    match next
    case Register | SubmitErase | Lookup => st.holder.None?
    case DisconnectDone => st.table == {}
    case RecvSubmit(s, _, _) => Fresh(st, s)
    case RecvUnlink(c, _) => Fresh(st, c)
    case _ => true
  }

  /** Where the program counter r lets the receiver go. */
  predicate Admits(r: Receiver, next: Label) {
    match r
    case Idle => TakesNextCommand(next)
    case Holding(_, _) => next.Reject? || next.Tweak? || next.Register?
    case Submitting(_) => next.SubmitOk? || next.SubmitRefused?
    case Refusing(_) => next.SubmitErase?
    case Answering(_) => next.SubmitAnswer?
    case Looking(_, _) => next.Lookup?
    case Cancelling(_) => next.CancelEndpoint?
    case Replying(_, _) => next.ReplyUnlink?
    case Stopped => next.Disconnect?
    case Disconnecting => next.DisconnectCancel? || next.DisconnectDone?
    case Disconnected(_) => false
  }

  lemma EnabledMeans(st: State, next: Label)
    requires OfReceiver(next) && (st.pending == 0 <==> st.table == {})
    ensures Enabled(st, next) <==> Admits(st.receiver, next) && NotHeldUp(st, next)
  {
  }

  /** receive_urb */
  predicate OfSubmission(l: Label) {
    || l.RecvSubmit? || l.Reject? || l.Tweak? || l.Register? || l.SubmitOk? || l.SubmitRefused? || l.SubmitErase?
    || l.SubmitAnswer?
  }

  lemma NextInSubmission(st: State, l: Label, next: Label)
    requires Enabled(st, l) && Known(st, l) && OfSubmission(l) && OfReceiver(next)
    ensures Admits(Apply(st, l).receiver, next) <==> IsNext(st, l, next)
  {
  }

  lemma NextElsewhere(st: State, l: Label, next: Label)
    requires Enabled(st, l) && Known(st, l) && OfReceiver(l) && !OfSubmission(l) && OfReceiver(next)
    ensures Admits(Apply(st, l).receiver, next) <==> IsNext(st, l, next)
  {
  }

  /** Whatever the other threads do in between, what the receiver can do after its step j is exactly what its program
      says, once the mutex is free, the table empty, or a new command has come. */
  lemma ReceiverFollowsItsProgram(states: seq<State>, ls: seq<Label>, j: nat, k: nat, next: Label)
    requires IsRun(states, ls) && j < k <= |ls| && OfReceiver(ls[j]) && Rests(ls, j, k) && OfReceiver(next)
    ensures Enabled(states[k], next) <==> IsNext(states[j], ls[j], next) && NotHeldUp(states[k], next)
  {
    StepOfRun(states, ls, j);
    StaysThere(states, ls, j, k);
    EveryRunIsSafe(states, ls, k);
    if OfSubmission(ls[j]) {
      NextInSubmission(states[j], ls[j], next);
    } else {
      NextElsewhere(states[j], ls[j], next);
    }
    EnabledMeans(states[k], next);
  }

  // ----- an unlink cancels the endpoint of its target -----

  lemma LookupGoesTo(st: State, t: Seqnum)
    requires Enabled(st, Lookup) && Known(st, Lookup) && Finds(st, Lookup, t) && t in st.urbs
    ensures Apply(st, Lookup).receiver == Cancelling(st.urbs[t].ep)
  {
  }

  /**
   When the lookup of a CMD_UNLINK has found its target registered, the receiver's next step is a flush.  If it
   succeeds, the URBs that the host stack had on the target's endpoint are completed as cancelled, the target among
   them; URBs elsewhere go on.
   */
  lemma UnlinkCancelsItsTarget(states: seq<State>, ls: seq<Label>, j: nat, k: nat, t: Seqnum, s: Seqnum)
    requires IsRun(states, ls) && j < k < |ls| && Finds(states[j], ls[j], t)
    requires Rests(ls, j, k) && OfReceiver(ls[k]) && s in states[k].urbs
    ensures ls[k].CancelEndpoint? && t in states[j].urbs && s in states[k + 1].urbs
    ensures var hit := ls[k].flushed && At(states[k], s, InFlight) && states[k].urbs[s].ep == states[j].urbs[t].ep;
            states[k + 1].urbs[s].phase == if hit then Done(Canceled) else states[k].urbs[s].phase
    ensures ls[k].flushed ==> !At(states[k + 1], t, InFlight)
  {
    StepOfRun(states, ls, j);
    LookupGoesTo(states[j], t);
    StaysThere(states, ls, j, k);
    StepOfRun(states, ls, k);
    assert ls[k].CancelEndpoint?;
    UrbPersistsOnRun(states, ls, j, k, t);
    HostMoves(states[k], ls[k], s);
    HostMoves(states[k], ls[k], t);
  }

  // ----- the device is gone -----

  /** The handler learns that its device is gone: it is unplugged, a submission finds it missing, or a URB ends so. */
  ghost predicate LearnsLoss(states: seq<State>, ls: seq<Label>, j: nat)
    requires j < |ls| < |states|
  {
    || ls[j] == HostRemove
    || ls[j] == SubmitAnswer(true)
    || (ls[j].CallbackErase? && LastOutcome(states, ls, j, ls[j].s) == Some(NoDevice))
  }

  lemma RemovalStep(st: State, l: Label)
    requires Enabled(st, l) && Known(st, l)
    ensures Apply(st, l).removed
       <==> || st.removed || l == HostRemove || l == SubmitAnswer(true)
            || (l.CallbackErase? && At(st, l.s, InCallback(NoDevice)))
  {
  }

  /** On every run the device counts as gone exactly from the first such step on. */
  lemma {:induction false} RemovedExactlyWhen(states: seq<State>, ls: seq<Label>, k: nat)
    requires IsRun(states, ls) && k <= |ls|
    ensures states[k].removed <==> exists j: nat :: j < k && LearnsLoss(states, ls, j)
  {
    if k != 0 {
      RemovedExactlyWhen(states, ls, k - 1);
      StepOfRun(states, ls, k - 1);
      RemovalStep(states[k - 1], ls[k - 1]);
      if ls[k - 1].CallbackErase? {
        var s := ls[k - 1].s;
        CarriesLastOutcome(states, ls, k - 1, s, states[k - 1].urbs[s].phase.status);
      }
      assert LearnsLoss(states, ls, k - 1) ==> exists j: nat :: j < k && LearnsLoss(states, ls, j);
    }
  }

  lemma RejectedStays(st: State, l: Label, st': State, s: Seqnum)
    requires At(st, s, Rejected) && UrbLives(st, l, st', s)
    ensures At(st', s, Rejected)
  {
  }

  /** From then on every CMD_SUBMIT is turned away for good: it never reaches the table and is never answered. */
  lemma {:induction false} GoneIsTurnedAway(states: seq<State>, ls: seq<Label>, j: nat, k: nat, s: Seqnum)
    requires IsRun(states, ls) && j < k <= |ls| && ls[j].RecvSubmit? && ls[j].s == s && states[j].removed
    ensures At(states[k], s, Rejected) && s !in states[k].table && SubmitReplies(states[k], s) == {}
    decreases k
  {
    StepOfRun(states, ls, k - 1);
    if k != j + 1 {
      GoneIsTurnedAway(states, ls, j, k - 1, s);
      EveryUrbLives(states[k - 1], ls[k - 1], s);
      RejectedStays(states[k - 1], ls[k - 1], states[k], s);
    }
    EveryRunIsSafe(states, ls, k);
    assert UrbOk(states[k], s);
    RepliesOfUrb(states[k], s);
  }

  /** Before that every CMD_SUBMIT is taken in. */
  lemma PresentIsTakenIn(states: seq<State>, ls: seq<Label>, j: nat)
    requires IsRun(states, ls) && j < |ls| && ls[j].RecvSubmit? && !states[j].removed
    ensures At(states[j + 1], ls[j].s, Received)
  {
    StepOfRun(states, ls, j);
  }
}
