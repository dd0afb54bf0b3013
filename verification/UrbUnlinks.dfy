/**
 What becomes of every CMD_UNLINK: which ones never get their RET_UNLINK, and which ones get one on top of their
 target's RET_SUBMIT.
 */
module UrbUnlinks {
  import opened Basics
  import opened UrbProtocol
  import opened UrbInvariant
  import opened UrbLifeCycle
  import opened UrbTheorems

  // ----- losing a reply -----

  /** The session is stopping and the URB's callback has seen it: it will not be answered. */
  predicate ShutOut(p: Phase) {
    p.Draining? || p.Drained? || p.Dropped?
  }

  /** The step at which command c loses its reply: it arrives after an unplug, a later unlink overwrites its mark, or
      the URB it is recorded on completes into a stopping session. */
  predicate Loses(st: State, l: Label, c: Seqnum) {
    || (l.RecvUnlink? && l.c == c && st.removed)
    || Overwrites(st, l, c)
    || (l.CallbackStart? && st.stopping && l.s in st.urbs && st.urbs[l.s].unlinkCmd == Some(c))
  }

  /** It has lost its reply at one of the first k steps. */
  ghost predicate LostBefore(states: seq<State>, ls: seq<Label>, k: nat, c: Seqnum)
    requires k <= |ls| < |states|
  {
    exists j :: 0 <= j < k && Loses(states[j], ls[j], c)
  }

  predicate IsLost(st: State, c: Seqnum) {
    c in st.unlinks &&
    match st.unlinks[c].fate
    case Ignored => true
    case Overwritten => true
    case Marked => st.unlinks[c].target in st.urbs && ShutOut(st.urbs[st.unlinks[c].target].phase)
    case _ => false
  }

  /** A URB's callback sees the session stopping, or has seen it. */
  ghost predicate ShutsOut(st: State, l: Label, st': State, t: Seqnum) {
    t in st.urbs ==>
      && t in st'.urbs
      && (ShutOut(st'.urbs[t].phase) <==> ShutOut(st.urbs[t].phase) || (l == CallbackStart(t) && st.stopping))
  }

  lemma LivesShutOut(st: State, l: Label, st': State, t: Seqnum)
    requires UrbLives(st, l, st', t)
    ensures ShutsOut(st, l, st', t)
  {
    if t in st.urbs {
      EdgeShutsOut(st.urbs[t].phase, st'.urbs[t].phase, l, t, st.stopping, |st.history|);
    }
  }

  lemma EdgeShutsOut(p: Phase, q: Phase, l: Label, t: Seqnum, stopping: bool, n: nat)
    requires q == p || Edge(p, q, l, t, stopping, n)
    requires l == CallbackStart(t) ==> q != p
    ensures ShutOut(q) <==> ShutOut(p) || (l == CallbackStart(t) && stopping)
  {
  }

  lemma LossMoves(st: State, l: Label, st': State, c: Seqnum)
    requires c in st.unlinks && UnlinkOk(st, c) && UnlinkLives(st, l, st', c)
    requires ShutsOut(st, l, st', st.unlinks[c].target)
    requires st.unlinks[c].target in st.urbs ==> UrbOk(st, st.unlinks[c].target)
    requires c in st'.unlinks ==> UnlinkOk(st', c)
    requires st.table <= st.urbs.Keys && (st.receiver.Looking? ==> !st.stopping)
    requires l.RecvUnlink? ==> l.c !in st.unlinks
    requires l.CallbackStart? ==> l.s in st.urbs && UrbOk(st, l.s) && st.urbs[l.s].phase.Done?
    ensures IsLost(st', c) <==> IsLost(st, c) || Loses(st, l, c)
  {
  }

  lemma NewLoss(st: State, l: Label, st': State, c: Seqnum)
    requires c !in st.unlinks && UnlinkLives(st, l, st', c)
    requires l.CallbackStart? ==> l.s in st.urbs && UrbOk(st, l.s)
    ensures IsLost(st', c) <==> Loses(st, l, c)
  {
  }

  lemma LossStep(st: State, l: Label, c: Seqnum)
    requires Inv(st) && Enabled(st, l) && Known(st, l)
    ensures IsLost(Apply(st, l), c) <==> IsLost(st, c) || Loses(st, l, c)
  {
    var st' := Apply(st, l);
    EveryUnlinkLives(st, l, c);
    if l.CallbackStart? { assert UrbOk(st, l.s); }
    if c in st.unlinks {
      var t := st.unlinks[c].target;
      EveryUrbLives(st, l, t);
      LivesShutOut(st, l, st', t);
      StepKeepsInv(st, l);
      assert UnlinkOk(st, c) && UnlinkOk(st', c) && (t in st.urbs ==> UrbOk(st, t));
      LossMoves(st, l, st', c);
    } else {
      NewLoss(st, l, st', c);
    }
  }

  lemma {:induction false} LostExactlyWhen(states: seq<State>, ls: seq<Label>, k: nat, c: Seqnum)
    requires IsRun(states, ls) && k <= |ls|
    ensures IsLost(states[k], c) <==> LostBefore(states, ls, k, c)
  {
    if k != 0 {
      LostExactlyWhen(states, ls, k - 1, c);
      StepOfRun(states, ls, k - 1);
      LossStep(states[k - 1], ls[k - 1], c);
      assert Loses(states[k - 1], ls[k - 1], c) ==> LostBefore(states, ls, k, c);
    }
  }

  // ----- accounting -----

  predicate InProgress(st: State, c: Seqnum)
    requires c in st.unlinks
  {
    st.receiver == Looking(c, st.unlinks[c].target) || st.receiver == Replying(c, st.unlinks[c].target)
  }

  /** It is recorded on its URB, which can still respond. */
  predicate MarkStands(st: State, c: Seqnum)
    requires c in st.unlinks
  {
    var t := st.unlinks[c].target;
    t in st.urbs && st.urbs[t].unlinkCmd == Some(c) && !st.urbs[t].phase.Consumed? && !ShutOut(st.urbs[t].phase)
  }

  lemma UnlinkIsAccountedFor(st: State, c: Seqnum)
    requires Inv(st) && c in st.unlinks
    ensures |UnlinkReplies(st, c)| <= 1
    ensures One(InProgress(st, c)) + One(MarkStands(st, c)) + One(|UnlinkReplies(st, c)| == 1) + One(IsLost(st, c)) == 1
    ensures MarkStands(st, c) ==> st.unlinks[c].target in st.table || st.urbs[st.unlinks[c].target].phase.Erased?
  {
    RepliesOfUnlink(st, c);
    assert UnlinkOk(st, c);
    var t := st.unlinks[c].target;
    if t in st.urbs { assert UrbOk(st, t); }
  }

  /** A CMD_UNLINK is replied to at most once, and is exactly one of: in progress, recorded on a URB that can still
      respond, replied to, lost. */
  lemma EveryUnlinkIsAccountedFor(states: seq<State>, ls: seq<Label>, k: nat, c: Seqnum)
    requires IsRun(states, ls) && k <= |ls| && c in states[k].unlinks
    ensures |UnlinkReplies(states[k], c)| <= 1
    ensures One(InProgress(states[k], c)) + One(MarkStands(states[k], c)) + One(|UnlinkReplies(states[k], c)| == 1)
            + One(LostBefore(states, ls, k, c)) == 1
  {
    EveryRunIsSafe(states, ls, k);
    LostExactlyWhen(states, ls, k, c);
    UnlinkIsAccountedFor(states[k], c);
  }

  /** The session has been disconnected, no URB is registered, and every callback has returned. */
  ghost predicate CallbacksReturned(st: State) {
    && st.receiver.Disconnected? && st.table == {}
    && forall s <- st.urbs ::
         !st.urbs[s].phase.Erased? && !st.urbs[s].phase.ResubmitFailed? && !st.urbs[s].phase.Drained?
  }

  /** At the end of every session, a CMD_UNLINK is without its RET_UNLINK if and only if it arrived after an unplug, was
      overwritten by a second unlink of its URB, or its URB completed into the stopping session. */
  lemma UnansweredExactlyWhenLost(states: seq<State>, ls: seq<Label>, k: nat, c: Seqnum)
    requires IsRun(states, ls) && k <= |ls| && c in states[k].unlinks && CallbacksReturned(states[k])
    ensures UnlinkReplies(states[k], c) == {} <==> LostBefore(states, ls, k, c)
  {
    EveryRunIsSafe(states, ls, k);
    EveryUnlinkIsAccountedFor(states, ls, k, c);
    UnlinkIsAccountedFor(states[k], c);
  }

  // ----- a RET_UNLINK on top of a RET_SUBMIT -----

  /** The step at which the lookup of c does not find its target in the table. */
  predicate Misses(st: State, l: Label, c: Seqnum) {
    l == Lookup && st.receiver.Looking? && st.receiver.c == c && st.receiver.target !in st.table
  }

  ghost predicate MissedBefore(states: seq<State>, ls: seq<Label>, k: nat, c: Seqnum)
    requires k <= |ls| < |states|
  {
    exists j :: 0 <= j < k && Misses(states[j], ls[j], c)
  }

  ghost predicate RepliedBefore(states: seq<State>, ls: seq<Label>, k: nat, c: Seqnum)
    requires k <= |ls| < |states|
  {
    exists j :: 0 <= j < k && Replies(states[j], ls[j], c)
  }

  /** c has its RET_UNLINK, and not in place of its target's RET_SUBMIT. */
  predicate RepliedItself(st: State, c: Seqnum) {
    c in st.unlinks && st.unlinks[c].fate.Confirmed? && !At(st, st.unlinks[c].target, Consumed(st.unlinks[c].fate.at))
  }

  predicate AfterMiss(st: State, c: Seqnum) {
    RepliedItself(st, c) || (st.receiver.Replying? && st.receiver.c == c)
  }

  lemma ReplyMoves(st: State, l: Label, st': State, c: Seqnum)
    requires c in st.unlinks && UnlinkOk(st, c) && ConfirmedOnce(st, l, st', c)
    requires var t := st.unlinks[c].target; if t in st.urbs then UrbOk(st, t) else !Answerable(st', t)
    requires var t := st.unlinks[c].target;
             t in st.urbs && OutOfTable(st.urbs[t].phase) ==> OnlyOwedAnswer(st, l, st', t)
    requires Replies(st, l, c) ==>
               && st.unlinks[c].fate.Pending?
               && var t := st.unlinks[c].target; t in st.urbs ==> OutOfTable(st.urbs[t].phase)
    ensures RepliedItself(st', c) <==> RepliedItself(st, c) || Replies(st, l, c)
  {
  }

  lemma ReplyStep(st: State, l: Label, c: Seqnum)
    requires Inv(st) && Enabled(st, l) && Known(st, l)
    ensures RepliedItself(Apply(st, l), c) <==> RepliedItself(st, c) || Replies(st, l, c)
  {
    EveryUnlinkLives(st, l, c);
    LivesConfirmedOnce(st, l, Apply(st, l), c);
    if c in st.unlinks {
      var t := st.unlinks[c].target;
      assert UnlinkOk(st, c) && (t in st.urbs ==> UrbOk(st, t));
      EveryUrbLives(st, l, t);
      if t !in st.urbs {
        ArrivesUnanswered(st, l, Apply(st, l), t);
      } else if OutOfTable(st.urbs[t].phase) {
        LeftTable(st, l, Apply(st, l), t);
      }
      ReplyMoves(st, l, Apply(st, l), c);
    }
  }

  lemma {:induction false} RepliedItselfExactlyWhen(states: seq<State>, ls: seq<Label>, k: nat, c: Seqnum)
    requires IsRun(states, ls) && k <= |ls|
    ensures RepliedItself(states[k], c) <==> RepliedBefore(states, ls, k, c)
  {
    if k != 0 {
      RepliedItselfExactlyWhen(states, ls, k - 1, c);
      StepOfRun(states, ls, k - 1);
      ReplyStep(states[k - 1], ls[k - 1], c);
      assert Replies(states[k - 1], ls[k - 1], c) ==> RepliedBefore(states, ls, k, c);
    }
  }

  /** Where the receiver stands with c moves only by c's own lookup and reply. */
  lemma MissStep(st: State, l: Label, c: Seqnum)
    requires Enabled(st, l) && Known(st, l)
    ensures var st' := Apply(st, l);
            (st'.receiver.Replying? && st'.receiver.c == c) <==>
              Misses(st, l, c) || (st.receiver.Replying? && st.receiver.c == c && !Replies(st, l, c))
  {
  }

  lemma {:induction false} AfterMissExactlyWhen(states: seq<State>, ls: seq<Label>, k: nat, c: Seqnum)
    requires IsRun(states, ls) && k <= |ls|
    ensures AfterMiss(states[k], c) <==> MissedBefore(states, ls, k, c)
  {
    if k != 0 {
      AfterMissExactlyWhen(states, ls, k - 1, c);
      StepOfRun(states, ls, k - 1);
      ReplyStep(states[k - 1], ls[k - 1], c);
      MissStep(states[k - 1], ls[k - 1], c);
      assert Misses(states[k - 1], ls[k - 1], c) ==> MissedBefore(states, ls, k, c);
    }
  }

  /** URB s has a RET_SUBMIT, and command c, which targets it, a RET_UNLINK. */
  ghost predicate BothReplied(st: State, s: Seqnum, c: Seqnum) {
    c in st.unlinks && st.unlinks[c].target == s && SubmitReplies(st, s) != {} && UnlinkReplies(st, c) != {}
  }

  predicate IsAnswered(st: State, s: Seqnum) {
    s in st.urbs && st.urbs[s].phase.Answered?
  }

  lemma BothRepliedMeans(states: seq<State>, ls: seq<Label>, k: nat, s: Seqnum, c: Seqnum)
    requires IsRun(states, ls) && k <= |ls| && c in states[k].unlinks && states[k].unlinks[c].target == s
    ensures BothReplied(states[k], s, c)
       <==> (IsAnswered(states[k], s) && MissedBefore(states, ls, k, c) && RepliedBefore(states, ls, k, c))
  {
    EveryRunIsSafe(states, ls, k);
    RepliedItselfExactlyWhen(states, ls, k, c);
    AfterMissExactlyWhen(states, ls, k, c);
    RepliesOfUrb(states[k], s);
    RepliesOfUnlink(states[k], c);
  }

  /** An unlink never precedes its URB: a URB that is answered later was there when the lookup missed it. */
  lemma NoUrbAfterItsUnlink(states: seq<State>, ls: seq<Label>, j: nat, k: nat, s: Seqnum, c: Seqnum)
    requires IsRun(states, ls) && j <= k <= |ls|
    requires c in states[j].unlinks && states[j].unlinks[c].target == s && s in states[k].urbs
    ensures s in states[j].urbs && c in states[k].unlinks && states[k].unlinks[c].target == s
    decreases k
  {
    if k != j {
      UnlinkPersistsOnRun(states, ls, j, k - 1, c);
      StepOfRun(states, ls, k - 1);
      EveryUnlinkLives(states[k - 1], ls[k - 1], c);
      EveryUrbLives(states[k - 1], ls[k - 1], s);
      NoUrbAfterItsUnlink(states, ls, j, k - 1, s, c);
    }
  }

  lemma {:induction false} UnlinkPersistsOnRun(states: seq<State>, ls: seq<Label>, j: nat, k: nat, c: Seqnum)
    requires IsRun(states, ls) && j <= k <= |ls| && c in states[j].unlinks
    ensures c in states[k].unlinks && states[k].unlinks[c].target == states[j].unlinks[c].target
    decreases k
  {
    if k != j {
      UnlinkPersistsOnRun(states, ls, j, k - 1, c);
      StepOfRun(states, ls, k - 1);
      EveryUnlinkLives(states[k - 1], ls[k - 1], c);
    }
  }

  /** When a lookup misses a URB that is answered later, its RET_SUBMIT is in the history already, or still owed by the
      failed-resubmission branch. */
  lemma AnsweredAtMiss(states: seq<State>, ls: seq<Label>, j: nat, k: nat, s: Seqnum, c: Seqnum)
    requires IsRun(states, ls) && j < k <= |ls| && Misses(states[j], ls[j], c) && states[j].receiver.target == s
    requires IsAnswered(states[k], s)
    ensures s in states[j].urbs
    ensures states[j].urbs[s].phase == ResubmitFailed || states[j].urbs[s].phase == states[k].urbs[s].phase
  {
    StepOfRun(states, ls, j);
    var st := states[j];
    NoUrbAfterItsUnlink(states, ls, j, k, s, c);
    assert UrbOk(st, s);
    SettledStays(states, ls, j, k, s);
  }

  /** Out of the table, a URB keeps its answer, or gets the one it is owed. */
  lemma {:induction false} SettledStays(states: seq<State>, ls: seq<Label>, j: nat, k: nat, s: Seqnum)
    requires IsRun(states, ls) && j <= k <= |ls| && s in states[j].urbs && OutOfTable(states[j].urbs[s].phase)
    ensures s in states[k].urbs && OutOfTable(states[k].urbs[s].phase)
    ensures states[k].urbs[s].phase == states[j].urbs[s].phase
         || (states[j].urbs[s].phase == ResubmitFailed && states[k].urbs[s].phase.Answered?
             && states[k].urbs[s].phase.at >= |states[j].history|)
         || (states[j].urbs[s].phase == Drained && states[k].urbs[s].phase == Dropped)
    ensures |states[j].history| <= |states[k].history|
    decreases k
  {
    if k != j {
      SettledStays(states, ls, j, k - 1, s);
      StepOfRun(states, ls, k - 1);
      OutOfTableStays(states[k - 1], ls[k - 1], s);
      HistoryGrows(states[k - 1], ls[k - 1]);
    }
  }

  lemma HistoryGrows(st: State, l: Label)
    requires Enabled(st, l) && Known(st, l)
    ensures |st.history| <= |Apply(st, l).history|
  {
  }

  /** The URB an owed answer is given to. */
  lemma {:induction false} OwedAnswerComes(states: seq<State>, ls: seq<Label>, j: nat, k: nat, s: Seqnum)
    requires IsRun(states, ls) && j <= k <= |ls| && At(states[j], s, ResubmitFailed)
    ensures IsAnswered(states[k], s) <==> exists m: nat :: j <= m < k && ls[m] == CallbackResubmitAnswer(s)
    ensures !IsAnswered(states[k], s) ==> At(states[k], s, ResubmitFailed)
    decreases k
  {
    if k != j {
      OwedAnswerComes(states, ls, j, k - 1, s);
      StepOfRun(states, ls, k - 1);
      OutOfTableStays(states[k - 1], ls[k - 1], s);
      if At(states[k - 1], s, ResubmitFailed) && ls[k - 1] == CallbackResubmitAnswer(s) {
        EveryUrbLives(states[k - 1], ls[k - 1], s);
      }
    }
  }

  /** When c's lookup missed s, at step j, the RET_SUBMIT of s was in the history, or it was owed by the
      failed-resubmission branch and has been enqueued since. */
  ghost predicate MissedAnswered(states: seq<State>, ls: seq<Label>, j: nat, k: nat, s: Seqnum, c: Seqnum)
    requires k <= |ls| < |states|
  {
    && j < k && Misses(states[j], ls[j], c)
    && (IsAnswered(states[j], s)
        || (At(states[j], s, ResubmitFailed) && exists m: nat :: j <= m < k && ls[m] == CallbackResubmitAnswer(s)))
  }

  /** A URB and an unlink that targets it both get their response if and only if the receiver replied to the unlink
      after its lookup had missed the URB with its RET_SUBMIT enqueued already, or owed and enqueued since. */
  lemma BothRepliedExactlyWhen(states: seq<State>, ls: seq<Label>, k: nat, s: Seqnum, c: Seqnum)
    requires IsRun(states, ls) && k <= |ls| && c in states[k].unlinks && states[k].unlinks[c].target == s
    ensures BothReplied(states[k], s, c)
       <==> RepliedBefore(states, ls, k, c) && exists j: nat :: MissedAnswered(states, ls, j, k, s, c)
  {
    BothRepliedMeans(states, ls, k, s, c);
    if BothReplied(states[k], s, c) {
      var j: nat :| j < k && Misses(states[j], ls[j], c);
      StepOfRun(states, ls, j);
      UnlinkPersistsOnRun(states, ls, j, k, c);
      AnsweredAtMiss(states, ls, j, k, s, c);
      if At(states[j], s, ResubmitFailed) { OwedAnswerComes(states, ls, j, k, s); }
      assert MissedAnswered(states, ls, j, k, s, c);
    }
    if j: nat :| MissedAnswered(states, ls, j, k, s, c) {
      EveryRunIsSafe(states, ls, j);
      if IsAnswered(states[j], s) {
        SettledStays(states, ls, j, k, s);
      } else {
        OwedAnswerComes(states, ls, j, k, s);
      }
    }
  }

  /**
   State 2 of the interface's contract: at the lookup the URB is complete and its RET_SUBMIT enqueued but not yet
   taken by the sender.  The contract wants that RET_SUBMIT withheld; it stays in the queue, and the unlink gets a
   RET_UNLINK with status 0 besides, whatever the URB's status was.
   */
  lemma QueuedAnswerIsNotWithheld(states: seq<State>, ls: seq<Label>, j: nat, k: nat, s: Seqnum, c: Seqnum)
    requires IsRun(states, ls) && j < k <= |ls| && Misses(states[j], ls[j], c) && states[j].receiver.target == s
    requires IsAnswered(states[j], s) && states[j].taken <= states[j].urbs[s].phase.at
    requires RepliedBefore(states, ls, k, c)
    ensures BothReplied(states[k], s, c)
    ensures IsAnswered(states[k], s) && states[k].unlinks[c].fate.Confirmed?
    ensures var st := states[k]; var at, i := st.urbs[s].phase.at, st.unlinks[c].fate.at;
            at < i < |st.history| && st.history[at].RetSubmit? && st.history[i] == RetUnlink(c, OK)
  {
    StepOfRun(states, ls, j);
    assert UrbOk(states[j], s);
    UnlinkPersistsOnRun(states, ls, j, k, c);
    SettledStays(states, ls, j, k, s);
    EveryRunIsSafe(states, ls, k);
    RepliedItselfExactlyWhen(states, ls, k, c);
    RepliesOfUrb(states[k], s);
    RepliesOfUnlink(states[k], c);
    assert UnlinkOk(states[k], c) && UrbOk(states[k], s);
    LookedUpIsUnanswered(states, ls, j, k, c);
  }

  /** A command that is being looked up has no reply yet, so its reply comes behind everything enqueued before. */
  lemma {:induction false} LookedUpIsUnanswered(states: seq<State>, ls: seq<Label>, j: nat, k: nat, c: Seqnum)
    requires IsRun(states, ls) && j <= k <= |ls| && states[j].receiver.Looking? && states[j].receiver.c == c
    ensures c in states[k].unlinks && |states[j].history| <= |states[k].history|
    ensures states[k].unlinks[c].fate.Confirmed? ==> states[k].unlinks[c].fate.at >= |states[j].history|
    decreases k
  {
    if k == j {
      EveryRunIsSafe(states, ls, j);
    } else {
      LookedUpIsUnanswered(states, ls, j, k - 1, c);
      StepOfRun(states, ls, k - 1);
      EveryRunIsSafe(states, ls, k);
      EveryUnlinkLives(states[k - 1], ls[k - 1], c);
      HistoryGrows(states[k - 1], ls[k - 1]);
      assert UnlinkOk(states[k], c);
    }
  }
}
