/**
 The life of one URB and of one CMD_UNLINK: along which edges the steps of the protocol may take them.  What later
 theorems say of single steps follows from these edges alone.
 */
module UrbLifeCycle {
  import opened Basics
  import opened UrbProtocol
  import opened UrbInvariant

  // ----- a URB -----

  /** Step l may take URB s from phase p to q, when n responses have been enqueued. */
  predicate Edge(p: Phase, q: Phase, l: Label, s: Seqnum, stopping: bool, n: nat) {
    match p
    case Received =>
      (l == Register && q == Registered) || (l == Tweak && q == Answered(n)) || (l == Reject && q == Rejected)
    case Registered => (l == SubmitOk && q == InFlight) || (l == SubmitRefused && q == Refused)
    case InFlight => q.Done? && (l == HostComplete(s, q.status) || l.CancelEndpoint? || l.DisconnectCancel?)
    case Done(status) => l == CallbackStart(s) && q == if stopping then Draining else InCallback(status)
    case InCallback(status) =>
      || (l == CallbackResubmit(s, true) && q == InFlight)
      || (l == CallbackResubmit(s, false) && q == ResubmitFailed)
      || (l == CallbackErase(s) && q == Erased(status))
    case Erased(_) => l == CallbackRespond(s) && (q == Answered(n) || q == Consumed(n))
    case Refused => l == SubmitErase && q == RefusedErased
    case RefusedErased => l.SubmitAnswer? && q == Answered(n)
    case ResubmitFailed => l == CallbackResubmitAnswer(s) && q == Answered(n)
    case Draining => l == CallbackDrain(s) && q == Drained
    case Drained => l == CallbackFree(s) && q == Dropped
    case Answered(_) | Consumed(_) | Dropped | Rejected => false
  }

  /** The lookup of a CMD_UNLINK finds URB s registered. */
  predicate Finds(st: State, l: Label, s: Seqnum) {
    l == Lookup && st.receiver.Looking? && st.receiver.target == s && s in st.table
  }

  /** A URB comes with its CMD_SUBMIT, stays, keeps its endpoint, direction and transfer, moves along the edges, and
      takes an unlink mark only from a lookup. */
  ghost predicate UrbLives(st: State, l: Label, st': State, s: Seqnum) {
    if s in st.urbs then
      && s in st'.urbs
      && var u, u' := st.urbs[s], st'.urbs[s];
         && u'.handle == u.handle && u'.ep == u.ep && u'.isOut == u.isOut
         && (u'.phase == u.phase || Edge(u.phase, u'.phase, l, s, st.stopping, |st.history|))
         && (l == CallbackStart(s) ==> u'.phase != u.phase)
         && u'.unlinkCmd == if Finds(st, l, s) then Some(st.receiver.c) else u.unlinkCmd
    else
      s in st'.urbs ==>
        && l == RecvSubmit(s, st'.urbs[s].ep, st'.urbs[s].isOut) && st'.urbs[s].unlinkCmd.None?
        && (st'.urbs[s].phase.Received? || st'.urbs[s].phase.Rejected?)
  }

  ghost predicate OnlyUrbLives(st: State, l: Label, st': State, s: Seqnum) {
    UrbLives(st, l, st', s) && st'.unlinks == st.unlinks
  }

  lemma ArrivalLives(st: State, l: Label, s: Seqnum)
    requires ReceiverOk(st) && Enabled(st, l) && Known(st, l)
    requires l.RecvSubmit? || l.Reject? || l.Tweak? || l.Register?
    ensures OnlyUrbLives(st, l, Apply(st, l), s)
  {
    match l
    case RecvSubmit(x, ep, isOut) => assert OnlyUrbLives(st, l, AfterArrival(st, x, ep, isOut), s);
    case Reject => assert OnlyUrbLives(st, l, AfterReject(st), s);
    case Tweak => assert OnlyUrbLives(st, l, Tweaked(st), s);
    case Register => assert OnlyUrbLives(st, l, AfterRegister(st), s);
  }

  lemma SubmissionLives(st: State, l: Label, s: Seqnum)
    requires ReceiverOk(st) && Enabled(st, l) && Known(st, l) && (l.SubmitOk? || l.SubmitRefused?)
    ensures OnlyUrbLives(st, l, Apply(st, l), s)
  {
    match l
    case SubmitOk => assert OnlyUrbLives(st, l, Submitted(st), s);
    case SubmitRefused => assert OnlyUrbLives(st, l, AfterRefusal(st), s);
  }

  lemma RefusalLives(st: State, l: Label, s: Seqnum)
    requires ReceiverOk(st) && Enabled(st, l) && Known(st, l) && (l.SubmitErase? || l.SubmitAnswer?)
    ensures OnlyUrbLives(st, l, Apply(st, l), s)
  {
    match l
    case SubmitErase => assert OnlyUrbLives(st, l, RefusalErased(st), s);
    case SubmitAnswer(notFound) => assert OnlyUrbLives(st, l, RefusalAnswered(st, notFound), s);
  }

  lemma HostLives(st: State, l: Label, s: Seqnum)
    requires Enabled(st, l) && Known(st, l) && (l.CancelEndpoint? || l.DisconnectCancel? || l.HostComplete?)
    ensures OnlyUrbLives(st, l, Apply(st, l), s)
  {
  }

  lemma CallbackLives(st: State, l: Label, s: Seqnum)
    requires Enabled(st, l) && Known(st, l) && (l.CallbackStart? || l.CallbackErase?)
    ensures OnlyUrbLives(st, l, Apply(st, l), s)
  {
    match l
    case CallbackStart(x) => assert OnlyUrbLives(st, l, CallbackStarted(st, x), s);
    case CallbackErase(x) => assert OnlyUrbLives(st, l, CompletionErased(st, x), s);
  }

  lemma ResubmissionLives(st: State, x: Seqnum, accepted: bool, s: Seqnum)
    requires Enabled(st, CallbackResubmit(x, accepted)) && Known(st, CallbackResubmit(x, accepted))
    ensures OnlyUrbLives(st, CallbackResubmit(x, accepted), Apply(st, CallbackResubmit(x, accepted)), s)
  {
    var l := CallbackResubmit(x, accepted);
    if accepted {
      assert OnlyUrbLives(st, l, Moved(st, x, InFlight), s);
    } else {
      assert OnlyUrbLives(st, l, ResubmitRefused(st, x), s);
    }
  }

  lemma OwedAnswerLives(st: State, x: Seqnum, s: Seqnum)
    requires At(st, x, ResubmitFailed)
    ensures OnlyUrbLives(st, CallbackResubmitAnswer(x), ResubmitAnswered(st, x), s)
  {
  }

  lemma DrainLives(st: State, x: Seqnum, s: Seqnum)
    requires At(st, x, Draining)
    ensures OnlyUrbLives(st, CallbackDrain(x), AfterDrain(st, x), s)
  {
  }

  lemma DropLives(st: State, x: Seqnum, s: Seqnum)
    requires At(st, x, Drained)
    ensures OnlyUrbLives(st, CallbackFree(x), AfterDrop(st, x), s)
  {
  }

  lemma RespondLives(st: State, x: Seqnum, s: Seqnum)
    requires Enabled(st, CallbackRespond(x)) && Known(st, CallbackRespond(x))
    ensures UrbLives(st, CallbackRespond(x), Apply(st, CallbackRespond(x)), s)
  {
    var l := CallbackRespond(x);
    if st.urbs[x].unlinkCmd.Some? {
      assert UrbLives(st, l, UnlinkCompleted(st, x), s);
    } else {
      assert UrbLives(st, l, SubmitCompleted(st, x), s);
    }
  }

  lemma LookupLives(st: State, s: Seqnum)
    requires Enabled(st, Lookup) && Known(st, Lookup)
    ensures UrbLives(st, Lookup, Apply(st, Lookup), s)
  {
  }

  /** Every step moves every URB along its edges; only four of them touch a CMD_UNLINK. */
  lemma EveryUrbLives(st: State, l: Label, s: Seqnum)
    requires Inv(st) && Enabled(st, l) && Known(st, l)
    ensures UrbLives(st, l, Apply(st, l), s)
    ensures l.Lookup? || l.CallbackRespond? || l.RecvUnlink? || l.ReplyUnlink? || Apply(st, l).unlinks == st.unlinks
  {
    match l
    case RecvSubmit(_, _, _) | Reject | Tweak | Register => ArrivalLives(st, l, s);
    case SubmitOk | SubmitRefused => SubmissionLives(st, l, s);
    case SubmitErase | SubmitAnswer(_) => RefusalLives(st, l, s);
    case CancelEndpoint(_) | DisconnectCancel(_, _) | HostComplete(_, _) => HostLives(st, l, s);
    case CallbackStart(_) | CallbackErase(_) => CallbackLives(st, l, s);
    case CallbackResubmit(x, accepted) => ResubmissionLives(st, x, accepted, s);
    case CallbackResubmitAnswer(x) => OwedAnswerLives(st, x, s);
    case CallbackDrain(x) => DrainLives(st, x, s);
    case CallbackFree(x) => DropLives(st, x, s);
    case CallbackRespond(x) => RespondLives(st, x, s);
    case Lookup => LookupLives(st, s);
    case RecvUnlink(_, _) | ReplyUnlink | Disconnect | DisconnectDone | HostRemove | Take =>
  }

  // ----- a CMD_UNLINK -----

  /** The receiver itself replies to c. */
  predicate Replies(st: State, l: Label, c: Seqnum) {
    l == ReplyUnlink && st.receiver.Replying? && st.receiver.c == c
  }

  /** The lookup of another command takes the place of c's mark. */
  predicate Overwrites(st: State, l: Label, c: Seqnum) {
    l == Lookup && st.receiver.Looking? && st.receiver.target in st.table && st.receiver.target in st.urbs
    && st.urbs[st.receiver.target].unlinkCmd == Some(c)
  }

  /** A command keeps its target; it is recorded by its lookup, overwritten by a later one, and confirmed by its own
      reply or in place of its URB's RET_SUBMIT. */
  ghost predicate UnlinkLives(st: State, l: Label, st': State, c: Seqnum) {
    if c in st.unlinks then
      && c in st'.unlinks
      && var (t, f), f' := (st.unlinks[c].target, st.unlinks[c].fate), st'.unlinks[c].fate;
         && st'.unlinks[c].target == t
         && (|| f' == f
             || (f.Pending? && f' == Marked && Finds(st, l, t) && st.receiver.c == c)
             || (f.Pending? && f' == Confirmed(|st.history|) && Replies(st, l, c) && st.receiver.target == t)
             || (f.Marked? && f' == Overwritten && Overwrites(st, l, c))
             || (f.Marked? && f' == Confirmed(|st.history|) && l == CallbackRespond(t)
                 && At(st', t, Consumed(|st.history|))))
         && (Replies(st, l, c) ==> f'.Confirmed?)
         && (Overwrites(st, l, c) ==> f' == Overwritten)
    else
      && !Replies(st, l, c) && !Overwrites(st, l, c)
      && (c in st'.unlinks <==> l.RecvUnlink? && l.c == c)
      && (c in st'.unlinks ==> st'.unlinks[c].fate == if st.removed then Ignored else Pending)
  }

  lemma LookupMarks(st: State, c: Seqnum)
    requires Inv(st) && Enabled(st, Lookup) && Known(st, Lookup)
    ensures UnlinkLives(st, Lookup, Apply(st, Lookup), c)
  {
    if c in st.unlinks { assert UnlinkOk(st, c); }
    if st.receiver.target in st.urbs { assert UrbOk(st, st.receiver.target); }
  }

  lemma RespondConfirms(st: State, s: Seqnum, c: Seqnum)
    requires Inv(st) && Enabled(st, CallbackRespond(s)) && Known(st, CallbackRespond(s))
    ensures UnlinkLives(st, CallbackRespond(s), Apply(st, CallbackRespond(s)), c)
  {
    assert UrbOk(st, s);
  }

  lemma ReceiverConfirms(st: State, l: Label, c: Seqnum)
    requires Inv(st) && Enabled(st, l) && Known(st, l) && (l.RecvUnlink? || l.ReplyUnlink?)
    ensures UnlinkLives(st, l, Apply(st, l), c)
  {
  }

  /** Every step moves every CMD_UNLINK along its edges. */
  lemma EveryUnlinkLives(st: State, l: Label, c: Seqnum)
    requires Inv(st) && Enabled(st, l) && Known(st, l)
    ensures UnlinkLives(st, l, Apply(st, l), c)
  {
    if l.Lookup? {
      LookupMarks(st, c);
    } else if l.CallbackRespond? {
      RespondConfirms(st, l.s, c);
    } else if l.RecvUnlink? || l.ReplyUnlink? {
      ReceiverConfirms(st, l, c);
    } else {
      EveryUrbLives(st, l, c);
    }
  }
}
