/**
 What the URB protocol guarantees on every run: accounting of URBs, order of responses, survival of the
 URBs hit by somebody else's unlink, and linear ownership of transfers.
 */
module UrbTheorems {
  import opened Basics
  import opened UrbProtocol
  import opened UrbInvariant
  import opened UrbLifeCycle

  // ----- runs -----

  /** One step of a run.  What the section's pointers refer to always exists: KnownAlways. */
  ghost predicate Follows(st: State, l: Label, st': State) {
    Enabled(st, l) && (Known(st, l) ==> st' == Apply(st, l))
  }

  ghost predicate FollowsAt(states: seq<State>, ls: seq<Label>, i: nat)
    requires i < |ls| && |states| == |ls| + 1
  {
    Follows(states[i], ls[i], states[i + 1])
  }

  ghost predicate IsRun(states: seq<State>, ls: seq<Label>) {
    && |states| == |ls| + 1
    && states[0] == START
    && forall i: nat :: i < |ls| ==> FollowsAt(states, ls, i)
  }

  /** At every point of every run the invariant holds. */
  lemma {:induction false} EveryRunIsSafe(states: seq<State>, ls: seq<Label>, k: nat)
    requires IsRun(states, ls) && k <= |ls|
    ensures Inv(states[k])
  {
    if k == 0 {
      StartIsGood();
    } else {
      EveryRunIsSafe(states, ls, k - 1);
      assert FollowsAt(states, ls, k - 1);
      KnownAlways(states[k - 1], ls[k - 1]);
      StepKeepsInv(states[k - 1], ls[k - 1]);
    }
  }

  /** Step k of a run, seen from a safe state. */
  lemma StepOfRun(states: seq<State>, ls: seq<Label>, k: nat)
    requires IsRun(states, ls) && k < |ls|
    ensures Inv(states[k]) && Enabled(states[k], ls[k]) && Known(states[k], ls[k])
    ensures states[k + 1] == Apply(states[k], ls[k])
  {
    EveryRunIsSafe(states, ls, k);
    assert FollowsAt(states, ls, k);
    KnownAlways(states[k], ls[k]);
  }

  // ----- accounting -----

  ghost function SubmitReplies(st: State, s: Seqnum): set<nat> {
    set i: nat | i < |st.history| && st.history[i].RetSubmit? && st.history[i].seqnum == s
  }

  ghost function UnlinkReplies(st: State, c: Seqnum): set<nat> {
    set i: nat | i < |st.history| && st.history[i].RetUnlink? && st.history[i].seqnum == c
  }

  /** A thread of the handler is on its way to enqueue the URB's response. */
  predicate Owed(p: Phase) {
    p.Received? || p.Erased? || p.RefusedErased? || p.ResubmitFailed?
  }

  /** The session ended before the URB could be answered. */
  predicate Abandoned(p: Phase) {
    p.Rejected? || p.Drained? || p.Dropped?
  }

  /** Its RET_UNLINK took the place of its RET_SUBMIT. */
  ghost predicate ConsumedByUnlink(st: State, s: Seqnum) {
    s in st.urbs && st.urbs[s].phase.Consumed?
    && exists c <- st.unlinks :: st.unlinks[c].target == s && UnlinkReplies(st, c) == {st.urbs[s].phase.at}
  }

  function One(b: bool): nat {
    if b then 1 else 0
  }

  lemma RepliesOfUrb(st: State, s: Seqnum)
    requires Inv(st)
    ensures SubmitReplies(st, s) == if s in st.urbs && st.urbs[s].phase.Answered? then {st.urbs[s].phase.at} else {}
  {
    forall i <- SubmitReplies(st, s) ensures At(st, s, Answered(i)) { assert ResponseOk(st, i); }
    if s in st.urbs { assert UrbOk(st, s); }
  }

  lemma RepliesOfUnlink(st: State, c: Seqnum)
    requires Inv(st)
    ensures UnlinkReplies(st, c)
         == if c in st.unlinks && st.unlinks[c].fate.Confirmed? then {st.unlinks[c].fate.at} else {}
  {
    forall i <- UnlinkReplies(st, c) ensures c in st.unlinks && st.unlinks[c].fate == Confirmed(i) {
      assert ResponseOk(st, i);
    }
    if c in st.unlinks { assert UnlinkOk(st, c); }
  }

  /** At every point of every run each URB is in exactly one place, is answered at most once, and pending_count_ is the
      table's size. */
  lemma EveryUrbIsAccountedFor(states: seq<State>, ls: seq<Label>, k: nat, s: Seqnum)
    requires IsRun(states, ls) && k <= |ls| && s in states[k].urbs
    ensures states[k].pending == |states[k].table|
    ensures IsAccountedFor(states[k], s)
  {
    EveryRunIsSafe(states, ls, k);
    UrbIsAccountedFor(states[k], s);
  }

  ghost predicate IsAccountedFor(st: State, s: Seqnum)
    requires s in st.urbs
  {
    var p := st.urbs[s].phase;
    && |SubmitReplies(st, s)| <= 1
    && One(s in st.table) + One(|SubmitReplies(st, s)| == 1) + One(ConsumedByUnlink(st, s))
       + One(Owed(p)) + One(Abandoned(p)) == 1
    && (Abandoned(p) ==> p.Rejected? || st.stopping)
  }

  lemma UrbIsAccountedFor(st: State, s: Seqnum)
    requires Inv(st) && s in st.urbs
    ensures IsAccountedFor(st, s)
  {
    RepliesOfUrb(st, s);
    assert UrbOk(st, s);
    if st.urbs[s].phase.Consumed? {
      var c := st.urbs[s].unlinkCmd.value;
      RepliesOfUnlink(st, c);
      assert ConsumedByUnlink(st, s);
    }
  }

  /** Nothing is half done: no command in the receiver's hands, no callback between its two halves. */
  ghost predicate Quiet(st: State) {
    && st.receiver == Idle && st.holder.None?
    && forall s <- st.urbs :: st.urbs[s].phase != ResubmitFailed && !st.urbs[s].phase.Rejected?
  }

  /** Between commands: registered, or answered by one RET_SUBMIT, or consumed by its unlink. */
  lemma QuietUrbHasOnePlace(states: seq<State>, ls: seq<Label>, k: nat, s: Seqnum)
    requires IsRun(states, ls) && k <= |ls| && s in states[k].urbs && Quiet(states[k])
    ensures One(s in states[k].table) + One(|SubmitReplies(states[k], s)| == 1)
            + One(ConsumedByUnlink(states[k], s)) == 1
  {
    EveryUrbIsAccountedFor(states, ls, k, s);
    EveryRunIsSafe(states, ls, k);
    assert UrbOk(states[k], s);
  }

  /** A reply with an error status: only a consumed URB passes its status on, and it gets no RET_SUBMIT. */
  lemma LateUnlinkReportsSuccess(states: seq<State>, ls: seq<Label>, k: nat, c: Seqnum, i: nat)
    requires IsRun(states, ls) && k <= |ls| && i < |states[k].history|
    requires states[k].history[i].RetUnlink? && states[k].history[i].seqnum == c && states[k].history[i].status != OK
    ensures c in states[k].unlinks && SubmitReplies(states[k], states[k].unlinks[c].target) == {}
    ensures ConsumedByUnlink(states[k], states[k].unlinks[c].target)
  {
    EveryRunIsSafe(states, ls, k);
    var st := states[k];
    assert ResponseOk(st, i);
    assert UnlinkOk(st, c);
    var t := st.unlinks[c].target;
    RepliesOfUnlink(st, c);
    RepliesOfUrb(st, t);
  }

  // ----- order of RET_SUBMIT and RET_UNLINK -----

  /** The forbidden order: RET_UNLINK of a command targeting s is enqueued before RET_SUBMIT of s. */
  ghost predicate Inverted(st: State, s: Seqnum, c: Seqnum) {
    c in st.unlinks && st.unlinks[c].target == s
    && exists i, j :: 0 <= i < j < |st.history|
         && st.history[i].RetUnlink? && st.history[i].seqnum == c
         && st.history[j].RetSubmit? && st.history[j].seqnum == s
  }

  /** The losing race: the receiver replies to the unlink while the failed-resubmission branch has
      dropped the mutex and not yet enqueued the URB's RET_SUBMIT. */
  predicate Races(st: State, l: Label, s: Seqnum, c: Seqnum) {
    l == ReplyUnlink && st.receiver == Replying(c, s) && At(st, s, ResubmitFailed)
  }

  /** It happened at one of the first k steps. */
  ghost predicate RacedBefore(states: seq<State>, ls: seq<Label>, k: nat, s: Seqnum, c: Seqnum)
    requires k <= |ls| < |states|
  {
    exists j :: 0 <= j < k && Races(states[j], ls[j], s, c)
  }

  /** c was replied to, and s is answered later or still to be answered by the failed-resubmission branch. */
  predicate Late(st: State, s: Seqnum, c: Seqnum) {
    && c in st.unlinks && st.unlinks[c].target == s && st.unlinks[c].fate.Confirmed? && s in st.urbs
    && (st.urbs[s].phase == ResubmitFailed
        || (st.urbs[s].phase.Answered? && st.unlinks[c].fate.at < st.urbs[s].phase.at))
  }

  /** URB s keeps its phase, except that an owed answer may be given and a drained transfer freed. */
  ghost predicate OnlyOwedAnswer(st: State, l: Label, st': State, s: Seqnum)
    requires s in st.urbs
  {
    && s in st'.urbs
    && var p, p' := st.urbs[s].phase, st'.urbs[s].phase;
       || p' == p
       || (p == ResubmitFailed && l == CallbackResubmitAnswer(s) && p' == Answered(|st.history|))
       || (p == Drained && l == CallbackFree(s) && p' == Dropped)
  }

  lemma LeftTable(st: State, l: Label, st': State, s: Seqnum)
    requires s in st.urbs && OutOfTable(st.urbs[s].phase) && UrbLives(st, l, st', s)
    ensures OnlyOwedAnswer(st, l, st', s)
  {
  }

  /** Once out of the table with the mutex released, a URB only gets the answer it is owed, or is freed. */
  lemma OutOfTableStays(st: State, l: Label, s: Seqnum)
    requires Inv(st) && Enabled(st, l) && Known(st, l) && s in st.urbs && OutOfTable(st.urbs[s].phase)
    ensures OnlyOwedAnswer(st, l, Apply(st, l), s)
  {
    EveryUrbLives(st, l, s);
    LeftTable(st, l, Apply(st, l), s);
  }

  /** Command c becomes confirmed only by its own reply or in place of its URB's RET_SUBMIT, and then stays so. */
  ghost predicate ConfirmedOnce(st: State, l: Label, st': State, c: Seqnum) {
    if c in st.unlinks then
      && c in st'.unlinks
      && var u, u' := st.unlinks[c], st'.unlinks[c];
         && u'.target == u.target
         && (u.fate.Confirmed? ==> u' == u)
         && (!u.fate.Confirmed? && u'.fate.Confirmed? ==>
               || (Replies(st, l, c) && st.receiver.target == u.target && u'.fate.at == |st.history|)
               || (At(st', u.target, Consumed(|st.history|)) && u'.fate.at == |st.history|))
         && (Replies(st, l, c) ==> u'.fate.Confirmed?)
    else
      !Replies(st, l, c) && (c in st'.unlinks ==> !st'.unlinks[c].fate.Confirmed?)
  }

  lemma LivesConfirmedOnce(st: State, l: Label, st': State, c: Seqnum)
    requires UnlinkLives(st, l, st', c)
    ensures ConfirmedOnce(st, l, st', c)
  {
  }

  predicate Early(p: Phase) {
    p.Received? || p.Rejected?
  }

  predicate Answerable(st: State, s: Seqnum) {
    s in st.urbs && !Early(st.urbs[s].phase)
  }

  lemma ArrivesUnanswered(st: State, l: Label, st': State, s: Seqnum)
    requires s !in st.urbs && UrbLives(st, l, st', s)
    ensures !Answerable(st', s)
  {
  }

  lemma LateMoves(st: State, l: Label, st': State, s: Seqnum, c: Seqnum)
    requires Inv(st) && Inv(st') && ConfirmedOnce(st, l, st', c)
    requires s in st.urbs && OutOfTable(st.urbs[s].phase) ==> OnlyOwedAnswer(st, l, st', s)
    requires s !in st.urbs ==> !Answerable(st', s)
    ensures Late(st', s, c) <==> Late(st, s, c) || Races(st, l, s, c)
  {
    if c in st.unlinks {
      assert UnlinkOk(st, c);
      if s in st.urbs { assert UrbOk(st, s); }
    }
    if c in st'.unlinks {
      assert UnlinkOk(st', c);
    }
  }

  lemma LateStep(st: State, l: Label, s: Seqnum, c: Seqnum)
    requires Inv(st) && Enabled(st, l) && Known(st, l)
    ensures Late(Apply(st, l), s, c) <==> Late(st, s, c) || Races(st, l, s, c)
  {
    StepKeepsInv(st, l);
    EveryUrbLives(st, l, s);
    EveryUnlinkLives(st, l, c);
    var st' := Apply(st, l);
    LivesConfirmedOnce(st, l, st', c);
    if s !in st.urbs {
      ArrivesUnanswered(st, l, st', s);
    } else if OutOfTable(st.urbs[s].phase) {
      LeftTable(st, l, st', s);
    }
    LateMoves(st, l, st', s, c);
  }

  lemma {:induction false} LateExactlyWhenRaced(states: seq<State>, ls: seq<Label>, k: nat, s: Seqnum, c: Seqnum)
    requires IsRun(states, ls) && k <= |ls|
    ensures Late(states[k], s, c) <==> RacedBefore(states, ls, k, s, c)
  {
    if k != 0 {
      LateExactlyWhenRaced(states, ls, k - 1, s, c);
      StepOfRun(states, ls, k - 1);
      LateStep(states[k - 1], ls[k - 1], s, c);
      assert Races(states[k - 1], ls[k - 1], s, c) ==> RacedBefore(states, ls, k, s, c);
    }
  }

  /** In a safe state where s owes no answer from the failed-resubmission branch, out of order means late. */
  lemma InvertedIsLate(st: State, s: Seqnum, c: Seqnum)
    requires Inv(st) && !At(st, s, ResubmitFailed)
    ensures Inverted(st, s, c) <==> Late(st, s, c)
  {
    RepliesOfUrb(st, s);
    RepliesOfUnlink(st, c);
    if Inverted(st, s, c) {
      var i, j :| 0 <= i < j < |st.history|
                  && st.history[i].RetUnlink? && st.history[i].seqnum == c
                  && st.history[j].RetSubmit? && st.history[j].seqnum == s;
      assert i in UnlinkReplies(st, c) && j in SubmitReplies(st, s);
    }
    if Late(st, s, c) {
      assert UnlinkOk(st, c) && UrbOk(st, s);
    }
  }

  /**
   RET_SUBMIT before RET_UNLINK, exactly: once s is not waiting in the failed-resubmission branch, the
   two responses are out of order if and only if the receiver replied while s was in that branch.
   */
  lemma OrderHoldsExactlyWithoutRace(states: seq<State>, ls: seq<Label>, k: nat, s: Seqnum, c: Seqnum)
    requires IsRun(states, ls) && k <= |ls| && !At(states[k], s, ResubmitFailed)
    ensures Inverted(states[k], s, c) <==> RacedBefore(states, ls, k, s, c)
  {
    EveryRunIsSafe(states, ls, k);
    LateExactlyWhenRaced(states, ls, k, s, c);
    InvertedIsLate(states[k], s, c);
  }

  /** The host stack never refuses a resubmission of s. */
  predicate NeverRefused(ls: seq<Label>, s: Seqnum) {
    forall j :: 0 <= j < |ls| ==> ls[j] != CallbackResubmit(s, false)
  }

  lemma {:induction false} BranchNeedsRefusal(states: seq<State>, ls: seq<Label>, k: nat, s: Seqnum)
    requires IsRun(states, ls) && k <= |ls| && NeverRefused(ls, s)
    ensures !At(states[k], s, ResubmitFailed)
  {
    if k != 0 {
      BranchNeedsRefusal(states, ls, k - 1, s);
      StepOfRun(states, ls, k - 1);
      EveryUrbLives(states[k - 1], ls[k - 1], s);
      EntersBranch(states[k - 1], ls[k - 1], states[k], s);
    }
  }

  lemma EntersBranch(st: State, l: Label, st': State, s: Seqnum)
    requires UrbLives(st, l, st', s) && !At(st, s, ResubmitFailed) && l != CallbackResubmit(s, false)
    ensures !At(st', s, ResubmitFailed)
  {
  }

  /** As long as the host stack never refuses a resubmission of s, RET_SUBMIT always comes first. */
  lemma OrderHoldsWithoutRefusal(states: seq<State>, ls: seq<Label>, k: nat, s: Seqnum, c: Seqnum)
    requires IsRun(states, ls) && k <= |ls| && NeverRefused(ls, s)
    ensures !Inverted(states[k], s, c)
  {
    BranchNeedsRefusal(states, ls, k, s);
    OrderHoldsExactlyWithoutRace(states, ls, k, s, c);
    forall j | 0 <= j < k ensures !Races(states[j], ls[j], s, c) {
      BranchNeedsRefusal(states, ls, j, s);
    }
  }

  // ----- an unlink never loses another URB -----

  /** A URB accepted once stays accepted, with its endpoint, direction and transfer. */
  ghost predicate Persists(st: State, st': State, s: Seqnum)
    requires s in st.urbs
  {
    && s in st'.urbs && st'.urbs[s].handle == st.urbs[s].handle
    && st'.urbs[s].ep == st.urbs[s].ep && st'.urbs[s].isOut == st.urbs[s].isOut
    && (!Early(st.urbs[s].phase) ==> !Early(st'.urbs[s].phase))
  }

  lemma LivesPersist(st: State, l: Label, st': State, s: Seqnum)
    requires s in st.urbs && UrbLives(st, l, st', s)
    ensures Persists(st, st', s)
  {
  }

  lemma {:induction false} UrbPersistsOnRun(states: seq<State>, ls: seq<Label>, j: nat, k: nat, s: Seqnum)
    requires IsRun(states, ls) && j <= k <= |ls| && s in states[j].urbs
    ensures Persists(states[j], states[k], s)
    decreases k
  {
    if k != j {
      UrbPersistsOnRun(states, ls, j, k - 1, s);
      StepOfRun(states, ls, k - 1);
      EveryUrbLives(states[k - 1], ls[k - 1], s);
      LivesPersist(states[k - 1], ls[k - 1], states[k], s);
    }
  }

  /**
   Cancelling is per endpoint, so an unlink hits every URB of its target's endpoint.  Yet a URB that was
   registered at any moment of a run, and that no CMD_UNLINK names, is at any later moment (the session still
   connected) registered with the same transfer, or about to be answered, or answered by exactly one
   RET_SUBMIT; and no RET_UNLINK was sent in its place.
   */
  lemma UnlinkNeverLosesAnotherUrb(states: seq<State>, ls: seq<Label>, j: nat, k: nat, s: Seqnum)
    requires IsRun(states, ls) && j <= k <= |ls| && s in states[j].table
    requires !states[k].stopping
    requires forall c <- states[k].unlinks :: states[k].unlinks[c].target != s
    ensures s in states[j].urbs && s in states[k].urbs
    ensures var st := states[k]; var h := states[j].urbs[s].handle;
            && !ConsumedByUnlink(st, s)
            && One(s in st.table && st.urbs[s].args == Some(h)) + One(Owed(st.urbs[s].phase))
               + One(|SubmitReplies(st, s)| == 1) == 1
  {
    EveryRunIsSafe(states, ls, j);
    EveryRunIsSafe(states, ls, k);
    assert UrbOk(states[j], s);
    UrbPersistsOnRun(states, ls, j, k, s);
    UrbIsAccountedFor(states[k], s);
    assert UrbOk(states[k], s);
  }

  // ----- transfers have one owner -----

  ghost predicate OwnedByCommand(st: State, h: Handle) {
    st.receiver.Holding? && st.receiver.transfer == h
  }

  ghost function OwnedByArgs(st: State, h: Handle): set<Seqnum> {
    set s <- st.urbs | st.urbs[s].args == Some(h)
  }

  /** Responses not yet disposed of that carry the transfer. */
  ghost function OwnedByQueue(st: State, h: Handle): set<nat> {
    set i: nat | st.taken <= i < |st.history| && st.history[i].RetSubmit? && st.history[i].transfer == Some(h)
  }

  lemma ArgsOwner(st: State, h: Handle)
    requires Inv(st) && h < |st.issued|
    ensures OwnedByArgs(st, h) == if ArgsOwn(st.urbs[st.issued[h]].phase) then {st.issued[h]} else {}
  {
    assert UrbOk(st, st.issued[h]);
    forall x <- OwnedByArgs(st, h) ensures x == st.issued[h] { assert UrbOk(st, x); }
  }

  /** Every transfer ever allocated has exactly one owner (the command, one URB's callback arguments, or one
      queued response), or has been freed, exactly once. */
  lemma TransferHasOneOwner(states: seq<State>, ls: seq<Label>, k: nat, h: Handle)
    requires IsRun(states, ls) && k <= |ls| && h < |states[k].issued|
    ensures Owners(states[k], h) + states[k].freed[h] == 1
  {
    EveryRunIsSafe(states, ls, k);
    HandleHasOneOwner(states[k], h);
  }

  ghost function Owners(st: State, h: Handle): nat {
    One(OwnedByCommand(st, h)) + |OwnedByArgs(st, h)| + |OwnedByQueue(st, h)|
  }

  lemma HandleHasOneOwner(st: State, h: Handle)
    requires Inv(st) && h < |st.issued|
    ensures Owners(st, h) + st.freed[h] == 1
  {
    var s := st.issued[h];
    assert UrbOk(st, s);
    ArgsOwner(st, h);
    forall i <- OwnedByQueue(st, h) ensures At(st, s, Answered(i)) {
      assert ResponseOk(st, i);
      assert UrbOk(st, st.history[i].seqnum);
    }
    var p := st.urbs[s].phase;
    if p.Answered? {
      assert ResponseOk(st, p.at);
      assert OwnedByQueue(st, h) == if HandleIsFreed(st, s) then {} else {p.at};
    } else {
      assert OwnedByQueue(st, h) == {};
    }
    if st.receiver.Holding? && st.receiver.transfer == h {
      assert UrbOk(st, st.receiver.s);
    }
  }
}
