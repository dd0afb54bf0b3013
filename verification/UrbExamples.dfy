/**
 Runs that show that the exceptions of the URB theorems do happen.  Each is played from the start, section by section.
 */
module UrbExamples {
  import opened Basics
  import opened UrbProtocol
  import opened UrbInvariant
  import opened UrbTheorems
  import opened UrbUnlinks
  import opened UrbShutdown

  /** A run and one step more. */
  lemma Then(states: seq<State>, ls: seq<Label>, l: Label) returns (states': seq<State>, ls': seq<Label>)
    requires IsRun(states, ls) && Enabled(states[|ls|], l) && Known(states[|ls|], l)
    ensures IsRun(states', ls') && |ls'| == |ls| + 1 && states'[|ls'|] == Apply(states[|ls|], l)
  {
    states', ls' := ThenKeeping(|ls|, states, ls, l);
  }

  /** ... of which position k is looked at again. */
  lemma ThenKeeping(k: nat, states: seq<State>, ls: seq<Label>, l: Label)
    returns (states': seq<State>, ls': seq<Label>)
    requires IsRun(states, ls) && Enabled(states[|ls|], l) && Known(states[|ls|], l) && k <= |ls|
    ensures IsRun(states', ls') && |ls'| == |ls| + 1 && states'[|ls'|] == Apply(states[|ls|], l)
    ensures states'[k] == states[k] && states'[|ls|] == states[|ls|] && ls'[|ls|] == l
    ensures k < |ls| ==> ls'[k] == ls[k]
  {
    states', ls' := states + [Apply(states[|ls|], l)], ls + [l];
    forall i: nat | i < |ls'| ensures FollowsAt(states', ls', i) {
      if i < |ls| { assert FollowsAt(states, ls, i); }
    }
  }

  /** An unlink arrives, its lookup misses, and it is replied to: three steps from any quiet state. */
  lemma UnlinkMisses(states: seq<State>, ls: seq<Label>, c: Seqnum, t: Seqnum)
    returns (states': seq<State>, ls': seq<Label>)
    requires IsRun(states, ls)
    requires var st := states[|ls|];
             st.receiver == Idle && st.holder.None? && !st.removed && Fresh(st, c) && t !in st.table
    ensures IsRun(states', ls') && |ls'| == |ls| + 3 && ls'[|ls| + 1] == Lookup && ls'[|ls| + 2] == ReplyUnlink
    ensures var st, n := states[|ls|], |ls|;
            && states'[n + 1] == UnlinkReceived(st, c, t)
            && states'[n + 2] == states'[n + 1].(receiver := Replying(c, t))
            && states'[n + 3] == st.(unlinks := st.unlinks[c := Unlink(t, Confirmed(|st.history|))],
                                     history := st.history + [RetUnlink(c, OK)])
  {
    var n := |ls|;
    states', ls' := Then(states, ls, RecvUnlink(c, t));
    states', ls' := ThenKeeping(n + 1, states', ls', Lookup);
    states', ls' := ThenKeeping(n + 1, states', ls', ReplyUnlink);
  }

  // ----- one URB -----

  /** An OUT URB of endpoint 0. */
  function OutUrb(h: Handle, phase: Phase, mark: Option<Seqnum>): Urb {
    Urb(0, true, h, if ArgsOwn(phase) then Some(h) else None, mark, phase)
  }

  /** A state with the one URB 1, and the commands and responses given. */
  function OneUrb(phase: Phase, mark: Option<Seqnum>, receiver: Receiver, unlinks: map<Seqnum, Unlink>,
                  history: seq<Response>): State {
    State(map[1 := OutUrb(0, phase, mark)], if InTable(phase) then {1} else {}, if InTable(phase) then 1 else 0,
          if phase.Erased? then Some(1) else None, receiver, false, false, unlinks, history, 0, [1],
          if phase.Answered? || phase.Consumed? || phase.Dropped? then multiset{0} else multiset{})
  }

  /** The URB is received and submitted. */
  lemma Submission() returns (states: seq<State>, ls: seq<Label>)
    ensures IsRun(states, ls) && |ls| == 3 && states[3] == OneUrb(InFlight, None, Idle, map[], [])
  {
    states, ls := [START], [];
    states, ls := Then(states, ls, RecvSubmit(1, 0, true));
    states, ls := Then(states, ls, Register);
    states, ls := Then(states, ls, SubmitOk);
  }

  // Single steps of URB 1, whatever commands there are.

  predicate AtRest(receiver: Receiver) {
    receiver.Idle? || receiver.Disconnecting? || receiver.Disconnected?
  }

  lemma Starts(status: TrxStatus, mark: Option<Seqnum>, receiver: Receiver, unlinks: map<Seqnum, Unlink>, stop: bool)
    requires AtRest(receiver)
    ensures var st := OneUrb(Done(status), mark, receiver, unlinks, []).(stopping := stop);
            && Enabled(st, CallbackStart(1)) && Known(st, CallbackStart(1))
            && Apply(st, CallbackStart(1))
               == OneUrb(if stop then Draining else InCallback(status), mark, receiver, unlinks, []).(stopping := stop)
  {
  }

  lemma Drains(mark: Option<Seqnum>, receiver: Receiver, unlinks: map<Seqnum, Unlink>)
    requires AtRest(receiver)
    ensures var st := OneUrb(Draining, mark, receiver, unlinks, []).(stopping := true);
            && Enabled(st, CallbackDrain(1)) && Known(st, CallbackDrain(1))
            && Apply(st, CallbackDrain(1)) == OneUrb(Drained, mark, receiver, unlinks, []).(stopping := true)
  {
  }

  lemma Responds(receiver: Receiver, stop: bool)
    requires AtRest(receiver)
    ensures var st := OneUrb(Erased(Completed), None, receiver, map[], []).(stopping := stop);
            && Enabled(st, CallbackRespond(1)) && Known(st, CallbackRespond(1))
            && Apply(st, CallbackRespond(1))
               == OneUrb(Answered(0), None, receiver, map[], [RetSubmit(1, OK, None)]).(stopping := stop)
  {
  }

  lemma Consumes(c: Seqnum, unlinks: map<Seqnum, Unlink>)
    requires c in unlinks && unlinks[c] == Unlink(1, Marked)
    ensures var st := OneUrb(Erased(Canceled), Some(c), Idle, unlinks, []);
            && Enabled(st, CallbackRespond(1)) && Known(st, CallbackRespond(1))
            && Apply(st, CallbackRespond(1))
               == OneUrb(Consumed(0), Some(c), Idle, unlinks[c := Unlink(1, Confirmed(0))], [RetUnlink(c, ECONNRESET)])
  {
  }

  /** A callback that need not resubmit takes its URB out of the table. */
  lemma Erases(status: TrxStatus, mark: Option<Seqnum>, receiver: Receiver, unlinks: map<Seqnum, Unlink>, stop: bool)
    requires status != NoDevice && (status == Canceled ==> mark.Some?) && AtRest(receiver)
    ensures var st := OneUrb(InCallback(status), mark, receiver, unlinks, []).(stopping := stop);
            && Enabled(st, CallbackErase(1)) && Known(st, CallbackErase(1))
            && Apply(st, CallbackErase(1)) == OneUrb(Erased(status), mark, receiver, unlinks, []).(stopping := stop)
  {
    ErasedState(status, mark, receiver, unlinks, stop);
  }

  lemma ErasedState(status: TrxStatus, mark: Option<Seqnum>, receiver: Receiver, unlinks: map<Seqnum, Unlink>,
                    stop: bool)
    requires status != NoDevice
    ensures CompletionErased(OneUrb(InCallback(status), mark, receiver, unlinks, []).(stopping := stop), 1)
         == OneUrb(Erased(status), mark, receiver, unlinks, []).(stopping := stop)
  {
  }

  /** It completes, and its callback finds the session connected. */
  lemma Called(status: TrxStatus) returns (states: seq<State>, ls: seq<Label>)
    ensures IsRun(states, ls) && |ls| == 5 && states[5] == OneUrb(InCallback(status), None, Idle, map[], [])
  {
    states, ls := Submission();
    states, ls := Then(states, ls, HostComplete(1, status));
    Starts(status, None, Idle, map[], false);
    states, ls := Then(states, ls, CallbackStart(1));
  }

  /** The URB is answered. */
  lemma Completion() returns (states: seq<State>, ls: seq<Label>)
    ensures IsRun(states, ls) && |ls| == 7
    ensures states[7] == OneUrb(Answered(0), None, Idle, map[], [RetSubmit(1, OK, None)])
  {
    states, ls := Called(Completed);
    Erases(Completed, None, Idle, map[], false);
    states, ls := Then(states, ls, CallbackErase(1));
    Responds(Idle, false);
    states, ls := Then(states, ls, CallbackRespond(1));
  }

  /** The sender has not taken the RET_SUBMIT yet when an unlink of the URB is looked up; both replies go out. */
  lemma BothRepliesExample() returns (states: seq<State>, ls: seq<Label>)
    ensures IsRun(states, ls) && |ls| == 10 && ls[8] == Lookup && states[8].taken == 0
    ensures IsAnswered(states[8], 1) && BothReplied(states[10], 1, 2)
    ensures states[10].history == [RetSubmit(1, OK, None), RetUnlink(2, OK)]
  {
    states, ls := Completion();
    states, ls := UnlinkMisses(states, ls, 2, 1);
    assert 0 in SubmitReplies(states[10], 1) && 1 in UnlinkReplies(states[10], 2);
  }

  // ----- three ways to lose a RET_UNLINK -----

  /** The unlink is recorded on the URB and its endpoint is flushed. */
  lemma MarkedAndFlushed() returns (states: seq<State>, ls: seq<Label>)
    ensures IsRun(states, ls) && |ls| == 6
    ensures states[6] == OneUrb(Done(Canceled), Some(2), Idle, map[2 := Unlink(1, Marked)], [])
  {
    states, ls := Submission();
    states, ls := Then(states, ls, RecvUnlink(2, 1));
    states, ls := Then(states, ls, Lookup);
    states, ls := Then(states, ls, CancelEndpoint(true));
  }

  /** The unlink arrives after the device was unplugged. */
  lemma LostToUnplug() returns (states: seq<State>, ls: seq<Label>)
    ensures IsRun(states, ls) && |ls| == 10 && ls[8] == RecvUnlink(2, 1) && Loses(states[8], ls[8], 2)
    ensures CallbacksReturned(states[10]) && 2 in states[10].unlinks && UnlinkReplies(states[10], 2) == {}
    ensures states[10].history == [RetSubmit(1, OK, None)]
  {
    states, ls := Completion();
    states, ls := Then(states, ls, HostRemove);
    states, ls := ThenKeeping(8, states, ls, RecvUnlink(2, 1));
    states, ls := ThenKeeping(8, states, ls, Disconnect);
  }

  /** A second unlink of the same URB is recorded over the first ... */
  lemma Overwriting() returns (states: seq<State>, ls: seq<Label>)
    ensures IsRun(states, ls) && |ls| == 9 && ls[7] == Lookup && Loses(states[7], ls[7], 2)
    ensures states[9]
         == OneUrb(Done(Canceled), Some(3), Idle, map[2 := Unlink(1, Overwritten), 3 := Unlink(1, Marked)], [])
  {
    states, ls := MarkedAndFlushed();
    states, ls := Then(states, ls, RecvUnlink(3, 1));
    states, ls := ThenKeeping(7, states, ls, Lookup);
    states, ls := ThenKeeping(7, states, ls, CancelEndpoint(true));
  }

  /** ... and the cancelled URB is consumed by the mark it carries. */
  lemma Consumption(states: seq<State>, ls: seq<Label>, k: nat, c: Seqnum, unlinks: map<Seqnum, Unlink>)
    returns (states': seq<State>, ls': seq<Label>)
    requires IsRun(states, ls) && k < |ls| && c in unlinks && unlinks[c] == Unlink(1, Marked)
    requires states[|ls|] == OneUrb(Done(Canceled), Some(c), Idle, unlinks, [])
    ensures IsRun(states', ls') && |ls'| == |ls| + 3 && states'[k] == states[k] && ls'[k] == ls[k]
    ensures states'[|ls'|] == OneUrb(Consumed(0), Some(c), Idle, unlinks[c := Unlink(1, Confirmed(0))],
                                     [RetUnlink(c, ECONNRESET)])
  {
    Starts(Canceled, Some(c), Idle, unlinks, false);
    states', ls' := ThenKeeping(k, states, ls, CallbackStart(1));
    Erases(Canceled, Some(c), Idle, unlinks, false);
    states', ls' := ThenKeeping(k, states', ls', CallbackErase(1));
    Consumes(c, unlinks);
    states', ls' := ThenKeeping(k, states', ls', CallbackRespond(1));
  }

  /** Only the second one is replied to. */
  lemma LostToOverwrite() returns (states: seq<State>, ls: seq<Label>)
    ensures IsRun(states, ls) && |ls| == 14 && ls[7] == Lookup && Loses(states[7], ls[7], 2)
    ensures CallbacksReturned(states[14]) && 2 in states[14].unlinks && UnlinkReplies(states[14], 2) == {}
    ensures states[14].history == [RetUnlink(3, ECONNRESET)]
  {
    states, ls := Overwriting();
    states, ls := Consumption(states, ls, 7, 3, states[9].unlinks);
    states, ls := ThenKeeping(7, states, ls, Disconnect);
    states, ls := ThenKeeping(7, states, ls, DisconnectDone);
  }

  /** A completed URB's callback starts only when the session is stopping, and the wait passes before the callback is
      done. */
  lemma DrainedInStop(states: seq<State>, ls: seq<Label>, status: TrxStatus, mark: Option<Seqnum>,
                      unlinks: map<Seqnum, Unlink>)
    returns (states': seq<State>, ls': seq<Label>)
    requires IsRun(states, ls) && states[|ls|] == OneUrb(Done(status), mark, Idle, unlinks, [])
    ensures IsRun(states', ls') && |ls'| == |ls| + 4 && ls'[|ls| + 1] == CallbackStart(1)
    ensures states'[|ls| + 1] == OneUrb(Done(status), mark, Disconnecting, unlinks, []).(stopping := true)
    ensures states'[|ls'|] == OneUrb(Drained, mark, Disconnected(true), unlinks, []).(stopping := true)
  {
    var k := |ls| + 1;
    states', ls' := Then(states, ls, Disconnect);
    Starts(status, mark, Disconnecting, unlinks, true);
    states', ls' := ThenKeeping(k, states', ls', CallbackStart(1));
    Drains(mark, Disconnecting, unlinks);
    states', ls' := ThenKeeping(k, states', ls', CallbackDrain(1));
    states', ls' := ThenKeeping(k, states', ls', DisconnectDone);
  }

  /** The URB is drained with its mark: neither it nor its unlink is ever answered. */
  lemma LostToDrain() returns (states: seq<State>, ls: seq<Label>)
    ensures IsRun(states, ls) && |ls| == 11 && ls[7] == CallbackStart(1) && Loses(states[7], ls[7], 2)
    ensures CallbacksReturned(states[11]) && 2 in states[11].unlinks && UnlinkReplies(states[11], 2) == {}
    ensures states[11].history == []
  {
    states, ls := MarkedAndFlushed();
    states, ls := DrainedInStop(states, ls, Canceled, Some(2), states[6].unlinks);
    states, ls := ThenKeeping(7, states, ls, CallbackFree(1));
  }

  // ----- what goes on during and after the disconnection's wait -----

  lemma CallbackIsNotFlushed(st: State)
    requires st == OneUrb(InCallback(Canceled), None, Disconnecting, map[], []).(stopping := true)
    ensures Apply(st, DisconnectCancel(0, true)) == st
  {
    assert Flushed(st.urbs, 0) == st.urbs;
  }

  lemma Resubmits(st: State)
    requires st == OneUrb(InCallback(Canceled), None, Disconnecting, map[], []).(stopping := true)
    ensures Apply(st, CallbackResubmit(1, true)) == OneUrb(InFlight, None, Disconnecting, map[], []).(stopping := true)
  {
  }

  /** The stop's cancel of the endpoint comes before a callback resubmits the URB: it is with the host stack again. */
  lemma ResubmittedPastCancel() returns (states: seq<State>, ls: seq<Label>)
    ensures IsRun(states, ls) && |ls| == 8 && states[6].receiver == Disconnecting && ls[6] == DisconnectCancel(0, true)
    ensures states[8] == OneUrb(InFlight, None, Disconnecting, map[], []).(stopping := true)
  {
    states, ls := Called(Canceled);
    states, ls := Then(states, ls, Disconnect);
    CallbackIsNotFlushed(states[6]);
    states, ls := ThenKeeping(6, states, ls, DisconnectCancel(0, true));
    Resubmits(states[7]);
    states, ls := ThenKeeping(6, states, ls, CallbackResubmit(1, true));
  }

  /** The wait passes before a callback has freed its transfer. */
  lemma StillOwnedAfterWait() returns (states: seq<State>, ls: seq<Label>)
    ensures IsRun(states, ls) && |ls| == 8 && states[8].receiver == Disconnected(true)
    ensures At(states[8], 1, Drained) && states[8].urbs[1].args == Some(0) && states[8].freed[0] == 0
  {
    states, ls := Submission();
    states, ls := Then(states, ls, HostComplete(1, Completed));
    states, ls := DrainedInStop(states, ls, Completed, None, map[]);
  }

  /** The session is disconnected while a callback is at work, which enqueues its RET_SUBMIT after the wait has
      passed. */
  lemma AnsweredAfterWait() returns (states: seq<State>, ls: seq<Label>)
    ensures IsRun(states, ls) && |ls| == 9 && states[8].receiver == Disconnected(true) && ls[8] == CallbackRespond(1)
    ensures states[8].history == [] && states[9].history == [RetSubmit(1, OK, None)]
  {
    states, ls := Called(Completed);
    states, ls := Then(states, ls, Disconnect);
    Erases(Completed, None, Disconnecting, map[], true);
    states, ls := Then(states, ls, CallbackErase(1));
    states, ls := Then(states, ls, DisconnectDone);
    Responds(Disconnected(true), true);
    states, ls := ThenKeeping(8, states, ls, CallbackRespond(1));
  }

  // ----- the losing race: RET_UNLINK before RET_SUBMIT -----

  /** Two URBs, 1 and 3, of the same endpoint. */
  function TwoUrbs(phase1: Phase, phase3: Phase, mark3: Option<Seqnum>, receiver: Receiver,
                   unlinks: map<Seqnum, Unlink>, history: seq<Response>): State {
    State(map[1 := OutUrb(0, phase1, None), 3 := OutUrb(1, phase3, mark3)],
          (if InTable(phase1) then {1} else {}) + (if InTable(phase3) then {3} else {}),
          (if InTable(phase1) then 1 else 0) + (if InTable(phase3) then 1 else 0),
          None, receiver, false, false, unlinks, history, 0, [1, 3],
          if phase1.Answered? then multiset{0} else multiset{})
  }

  lemma SecondArrival() returns (states: seq<State>, ls: seq<Label>)
    ensures IsRun(states, ls) && |ls| == 4
    ensures states[4] == TwoUrbs(InFlight, Received, None, Holding(3, 1), map[], [])
  {
    states, ls := Submission();
    states, ls := Then(states, ls, RecvSubmit(3, 0, true));
  }

  lemma TwoSubmissions() returns (states: seq<State>, ls: seq<Label>)
    ensures IsRun(states, ls) && |ls| == 6 && states[6] == TwoUrbs(InFlight, InFlight, None, Idle, map[], [])
  {
    states, ls := SecondArrival();
    states, ls := Then(states, ls, Register);
    states, ls := Then(states, ls, SubmitOk);
  }

  /** An unlink of URB 3 flushes the endpoint, which cancels URB 1 as well ... */
  lemma CollateralCancel() returns (states: seq<State>, ls: seq<Label>)
    ensures IsRun(states, ls) && |ls| == 9
    ensures states[9] == TwoUrbs(Done(Canceled), Done(Canceled), Some(2), Idle, map[2 := Unlink(3, Marked)], [])
  {
    states, ls := TwoSubmissions();
    states, ls := Then(states, ls, RecvUnlink(2, 3));
    states, ls := Then(states, ls, Lookup);
    states, ls := Then(states, ls, CancelEndpoint(true));
  }

  /** ... and its resubmission is refused: it is out of the table and its answer is owed ... */
  lemma RefusedResubmission(states: seq<State>, ls: seq<Label>, unlinks: map<Seqnum, Unlink>)
    returns (states': seq<State>, ls': seq<Label>)
    requires IsRun(states, ls) && states[|ls|] == TwoUrbs(Done(Canceled), Done(Canceled), Some(2), Idle, unlinks, [])
    ensures IsRun(states', ls') && |ls'| == |ls| + 2
    ensures states'[|ls'|] == TwoUrbs(ResubmitFailed, Done(Canceled), Some(2), Idle, unlinks, [])
  {
    states', ls' := Then(states, ls, CallbackStart(1));
    states', ls' := Then(states', ls', CallbackResubmit(1, false));
  }

  /** ... when an unlink of URB 1 arrives, misses it, and is replied to ... */
  lemma UnlinkRepliedMeanwhile() returns (states: seq<State>, ls: seq<Label>)
    ensures IsRun(states, ls) && |ls| == 14 && Races(states[13], ls[13], 1, 4)
    ensures states[14] == TwoUrbs(ResubmitFailed, Done(Canceled), Some(2), Idle,
                                  map[2 := Unlink(3, Marked)][4 := Unlink(1, Confirmed(0))], [RetUnlink(4, OK)])
  {
    states, ls := CollateralCancel();
    states, ls := RefusedResubmission(states, ls, states[9].unlinks);
    states, ls := UnlinkMisses(states, ls, 4, 1);
  }

  /** ... so its RET_UNLINK is enqueued before its RET_SUBMIT. */
  lemma RaceExample() returns (states: seq<State>, ls: seq<Label>)
    ensures IsRun(states, ls) && |ls| == 15 && Races(states[13], ls[13], 1, 4) && Inverted(states[15], 1, 4)
    ensures states[15].history == [RetUnlink(4, OK), RetSubmit(1, EPIPE, None)]
  {
    states, ls := UnlinkRepliedMeanwhile();
    states, ls := ThenKeeping(13, states, ls, CallbackResubmitAnswer(1));
    var st := states[15];
    assert st.history[0].RetUnlink? && st.history[1].RetSubmit?;
  }
}
