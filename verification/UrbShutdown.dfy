/**
 The end of a session: what on_disconnection's wait guarantees, what callbacks may still do after it, and that
 nothing leaks once they have returned.
 */
module UrbShutdown {
  import opened Basics
  import opened UrbProtocol
  import opened UrbInvariant
  import opened UrbLifeCycle
  import opened UrbTheorems
  import opened UrbUnlinks

  // ----- what can hold the wait up -----

  /** Step l takes s back from the host stack: it completes it, or a flush of its endpoint succeeds. */
  predicate TakesBack(st: State, l: Label, s: Seqnum) {
    || (l.HostComplete? && l.s == s)
    || (l.DisconnectCancel? && l.flushed && s in st.urbs && st.urbs[s].ep == l.ep)
  }

  /** None of the steps after step j and before k does. */
  ghost predicate LeftAlone(states: seq<State>, ls: seq<Label>, s: Seqnum, j: nat, k: nat)
    requires k <= |ls| < |states|
  {
    forall m: nat | j < m < k :: !TakesBack(states[m], ls[m], s)
  }

  /** While the session is stopping, only a resubmission gives a URB to the host stack. */
  lemma StoppingEdge(st: State, l: Label, st': State, s: Seqnum)
    requires s in st.urbs && UrbLives(st, l, st', s) && !l.SubmitOk?
    requires !l.HostComplete? && !l.DisconnectCancel? && !l.CancelEndpoint? && !l.CallbackResubmit?
    ensures At(st', s, InFlight) <==> At(st, s, InFlight)
  {
  }

  lemma StoppingHost(st: State, l: Label, s: Seqnum)
    requires Enabled(st, l) && Known(st, l) && s in st.urbs
    requires l.HostComplete? || l.DisconnectCancel? || l.CallbackResubmit?
    ensures At(Apply(st, l), s, InFlight)
       <==> (At(st, s, InFlight) && !TakesBack(st, l, s)) || l == CallbackResubmit(s, true)
  {
  }

  lemma StoppingStep(st: State, l: Label, s: Seqnum)
    requires Inv(st) && st.stopping && Enabled(st, l) && Known(st, l)
    ensures s in Apply(st, l).urbs <==> s in st.urbs
    ensures At(Apply(st, l), s, InFlight)
       <==> (At(st, s, InFlight) && !TakesBack(st, l, s)) || l == CallbackResubmit(s, true)
    ensures Apply(st, l).stopping
  {
    EveryUrbLives(st, l, s);
    if s in st.urbs {
      if l.HostComplete? || l.DisconnectCancel? || l.CallbackResubmit? {
        StoppingHost(st, l, s);
      } else {
        StoppingEdge(st, l, Apply(st, l), s);
      }
    }
  }

  /** A URB is with the host stack after the stop if and only if it was there at the stop and has been left alone since,
      or a callback has resubmitted it and it has been left alone since that. */
  lemma {:induction false} HoldsUpExactlyWhen(states: seq<State>, ls: seq<Label>, d: nat, k: nat, s: Seqnum)
    requires IsRun(states, ls) && d < k <= |ls| && ls[d] == Disconnect
    ensures states[k].stopping
    ensures At(states[k], s, InFlight)
       <==> || (At(states[d], s, InFlight) && LeftAlone(states, ls, s, d, k))
            || (exists j: nat :: d < j < k && ls[j] == CallbackResubmit(s, true) && LeftAlone(states, ls, s, j, k))
    decreases k
  {
    StepOfRun(states, ls, k - 1);
    if k > d + 1 {
      HoldsUpExactlyWhen(states, ls, d, k - 1, s);
      StoppingStep(states[k - 1], ls[k - 1], s);
      if j: nat :| d < j < k && ls[j] == CallbackResubmit(s, true) && LeftAlone(states, ls, s, j, k) && j != k - 1 {
        assert LeftAlone(states, ls, s, j, k - 1);
      }
      if j: nat :| d < j < k - 1 && ls[j] == CallbackResubmit(s, true) && LeftAlone(states, ls, s, j, k - 1) {
        assert !TakesBack(states[k - 1], ls[k - 1], s) ==> LeftAlone(states, ls, s, j, k);
      }
    }
  }

  lemma CallbackWasThere(st: State, l: Label, st': State, s: Seqnum)
    requires UrbLives(st, l, st', s) && (st.stopping || !l.CallbackStart?)
    requires s in st'.urbs && st'.urbs[s].phase.InCallback?
    ensures s in st.urbs && st.urbs[s].phase == st'.urbs[s].phase
  {
  }

  /** A callback that resubmits after the stop had started before it. */
  lemma {:induction false} CalledBeforeStop(states: seq<State>, ls: seq<Label>, d: nat, k: nat, s: Seqnum)
    requires IsRun(states, ls) && d < k <= |ls| && ls[d] == Disconnect
    requires s in states[k].urbs && states[k].urbs[s].phase.InCallback?
    ensures s in states[d].urbs && states[d].urbs[s].phase == states[k].urbs[s].phase
    decreases k
  {
    StepOfRun(states, ls, k - 1);
    EveryUrbLives(states[k - 1], ls[k - 1], s);
    if k > d + 1 { HoldsUpExactlyWhen(states, ls, d, k - 1, s); }
    CallbackWasThere(states[k - 1], ls[k - 1], states[k], s);
    if k > d + 1 {
      CalledBeforeStop(states, ls, d, k - 1, s);
    }
  }

  /** In other words: a URB that a flush of its endpoint, at step f after the stop, has not taken back from the host
      stack for good was resubmitted behind it, by a callback that had found the URB cancelled before the stop. */
  lemma PastFlushIsResubmitted(states: seq<State>, ls: seq<Label>, d: nat, f: nat, k: nat, s: Seqnum)
    requires IsRun(states, ls) && d < f < k <= |ls| && ls[d] == Disconnect && At(states[k], s, InFlight)
    requires s in states[f].urbs && ls[f] == DisconnectCancel(states[f].urbs[s].ep, true)
    ensures exists j: nat :: f < j < k && ls[j] == CallbackResubmit(s, true) && LeftAlone(states, ls, s, j, k)
    ensures At(states[d], s, InCallback(Canceled))
  {
    HoldsUpExactlyWhen(states, ls, d, k, s);
    assert TakesBack(states[f], ls[f], s);
    var j: nat :| d < j < k && ls[j] == CallbackResubmit(s, true) && LeftAlone(states, ls, s, j, k);
    assert f < j;
    StepOfRun(states, ls, j);
    CalledBeforeStop(states, ls, d, j, s);
  }

  // ----- when the wait has passed -----

  /** A callback has taken the URB out of the table and the counter, and has not finished with it. */
  predicate CallbackStillHas(p: Phase) {
    p.Erased? || p.ResubmitFailed? || p.Drained?
  }

  /**
   The wait looks at the counter, which callbacks decrement before they free or answer.  So when it has passed, the
   table is empty and the host stack holds nothing; but a URB's transfer is still owned, exactly if a callback is
   between its decrement and its end.
   */
  lemma WaitLeavesExactlyCallbacks(states: seq<State>, ls: seq<Label>, k: nat)
    requires IsRun(states, ls) && k <= |ls| && states[k].receiver == Disconnected(true)
    ensures states[k].table == {}
    ensures forall s <- states[k].urbs ::
              && !InTable(states[k].urbs[s].phase)
              && (states[k].urbs[s].args.Some? <==> CallbackStillHas(states[k].urbs[s].phase))
  {
    EveryRunIsSafe(states, ls, k);
    forall s <- states[k].urbs
      ensures !InTable(states[k].urbs[s].phase)
      ensures states[k].urbs[s].args.Some? <==> CallbackStillHas(states[k].urbs[s].phase)
    {
      assert UrbOk(states[k], s);
    }
  }

  // ----- what is still answered afterwards -----

  /** A URB that a callback is still going to answer. */
  predicate StillAnswers(p: Phase) {
    p.Erased? || p.ResubmitFailed?
  }

  predicate Answers(p: Phase, i: nat) {
    p == Answered(i) || p == Consumed(i)
  }

  /** From p a URB comes to q after the wait, when n responses had been enqueued. */
  predicate LateMove(p: Phase, q: Phase, n: nat) {
    || q == p
    || (StillAnswers(p) && (q.Answered? || q.Consumed?) && q.at >= n)
    || (p.Drained? && q.Dropped?)
  }

  /** From a to b only callbacks that had left the table finish. */
  ghost predicate OnlyLateCallbacks(a: State, b: State) {
    && b.receiver == a.receiver && b.urbs.Keys == a.urbs.Keys && b.unlinks.Keys == a.unlinks.Keys
    && |a.history| <= |b.history|
    && (forall s <- a.urbs :: LateMove(a.urbs[s].phase, b.urbs[s].phase, |a.history|))
    && (forall c <- a.unlinks ::
          && b.unlinks[c].target == a.unlinks[c].target
          && (|| b.unlinks[c].fate == a.unlinks[c].fate
              || (b.unlinks[c].fate.Confirmed? && At(b, a.unlinks[c].target, Consumed(b.unlinks[c].fate.at)))))
  }

  predicate IsLateLabel(l: Label) {
    l.CallbackResubmitAnswer? || l.CallbackRespond? || l.CallbackFree? || l.HostRemove? || l.Take?
  }

  /** With the table empty and the receiver gone, nothing else is left to run. */
  lemma OnlyLateLabels(st: State, l: Label)
    requires Inv(st) && Enabled(st, l) && st.receiver == Disconnected(true)
    ensures IsLateLabel(l)
  {
    forall s <- st.urbs ensures !InTable(st.urbs[s].phase) { assert UrbOk(st, s); }
  }

  /** A callback's second half changes its URB, and confirms the command recorded on it. */
  lemma LateRespond(st: State, s: Seqnum)
    requires Inv(st) && Enabled(st, CallbackRespond(s)) && Known(st, CallbackRespond(s))
    ensures OnlyLateCallbacks(st, Apply(st, CallbackRespond(s)))
  {
    assert UrbOk(st, s);
  }

  lemma LateAnswer(st: State, s: Seqnum)
    requires At(st, s, ResubmitFailed)
    ensures OnlyLateCallbacks(st, ResubmitAnswered(st, s))
  {
  }

  lemma LateFree(st: State, s: Seqnum)
    requires At(st, s, Drained)
    ensures OnlyLateCallbacks(st, AfterDrop(st, s))
  {
  }

  lemma LateStep(st: State, l: Label)
    requires Inv(st) && Enabled(st, l) && Known(st, l) && IsLateLabel(l)
    ensures OnlyLateCallbacks(st, Apply(st, l))
  {
    match l
    case CallbackRespond(s) => LateRespond(st, s);
    case CallbackResubmitAnswer(s) => LateAnswer(st, s);
    case CallbackFree(s) => LateFree(st, s);
    case _ =>
  }

  lemma UnlinkIsTransitive(a: State, b: State, c: State, u: Seqnum)
    requires OnlyLateCallbacks(a, b) && OnlyLateCallbacks(b, c) && u in a.unlinks
    ensures c.unlinks[u].target == a.unlinks[u].target
    ensures || c.unlinks[u].fate == a.unlinks[u].fate
            || (c.unlinks[u].fate.Confirmed? && At(c, a.unlinks[u].target, Consumed(c.unlinks[u].fate.at)))
  {
  }

  lemma LateIsTransitive(a: State, b: State, c: State)
    requires OnlyLateCallbacks(a, b) && OnlyLateCallbacks(b, c)
    ensures OnlyLateCallbacks(a, c)
  {
    forall u <- a.unlinks
      ensures c.unlinks[u].target == a.unlinks[u].target
      ensures || c.unlinks[u].fate == a.unlinks[u].fate
              || (c.unlinks[u].fate.Confirmed? && At(c, a.unlinks[u].target, Consumed(c.unlinks[u].fate.at)))
    {
      UnlinkIsTransitive(a, b, c, u);
    }
  }

  lemma {:induction false} AfterTheWait(states: seq<State>, ls: seq<Label>, j: nat, k: nat)
    requires IsRun(states, ls) && j <= k <= |ls| && states[j].receiver == Disconnected(true)
    ensures OnlyLateCallbacks(states[j], states[k])
    decreases k
  {
    if k != j {
      AfterTheWait(states, ls, j, k - 1);
      StepOfRun(states, ls, k - 1);
      OnlyLateLabels(states[k - 1], ls[k - 1]);
      LateStep(states[k - 1], ls[k - 1]);
      LateIsTransitive(states[j], states[k - 1], states[k]);
    }
  }

  /** The responses enqueued after the wait are exactly those of URBs a callback had still to answer: every later
      response answers one of them ... */
  lemma LateResponsesAreOwed(states: seq<State>, ls: seq<Label>, j: nat, k: nat, i: nat)
    requires IsRun(states, ls) && j <= k <= |ls| && states[j].receiver == Disconnected(true)
    requires |states[j].history| <= i < |states[k].history|
    ensures exists s :: s in states[j].urbs && StillAnswers(states[j].urbs[s].phase)
                     && s in states[k].urbs && Answers(states[k].urbs[s].phase, i)
  {
    AfterTheWait(states, ls, j, k);
    EveryRunIsSafe(states, ls, j);
    EveryRunIsSafe(states, ls, k);
    assert ResponseOk(states[k], i);
    match states[k].history[i]
    case RetSubmit(s, _, _) => assert UrbOk(states[j], s);
    case RetUnlink(c, _) =>
      assert UnlinkOk(states[j], c) && UnlinkOk(states[k], c);
      assert UrbOk(states[j], states[k].unlinks[c].target);
  }

  /** ... and each of them is answered by a later response, or still to be answered; a drained one never is. */
  lemma OwedIsAnsweredLate(states: seq<State>, ls: seq<Label>, j: nat, k: nat, s: Seqnum)
    requires IsRun(states, ls) && j <= k <= |ls| && states[j].receiver == Disconnected(true)
    requires s in states[j].urbs && CallbackStillHas(states[j].urbs[s].phase)
    ensures s in states[k].urbs
    ensures var p, q := states[j].urbs[s].phase, states[k].urbs[s].phase;
            || q == p
            || (StillAnswers(p) && exists i :: |states[j].history| <= i < |states[k].history| && Answers(q, i))
            || (p.Drained? && q.Dropped?)
  {
    AfterTheWait(states, ls, j, k);
    EveryRunIsSafe(states, ls, k);
    assert UrbOk(states[k], s);
    var q := states[k].urbs[s].phase;
    if q.Answered? || q.Consumed? { assert Answers(q, q.at); }
  }

  // ----- nothing leaks -----

  /** However the session was disconnected: once no URB is registered, the callbacks have returned and the session's
      queues are cleared, every transfer has been freed exactly once. */
  lemma NothingLeaks(states: seq<State>, ls: seq<Label>, k: nat, h: Handle)
    requires IsRun(states, ls) && k <= |ls| && CallbacksReturned(states[k]) && states[k].taken == |states[k].history|
    requires h < |states[k].issued|
    ensures states[k].freed[h] == 1
  {
    EveryRunIsSafe(states, ls, k);
    var st := states[k];
    HandleHasOneOwner(st, h);
    ArgsOwner(st, h);
    assert UrbOk(st, st.issued[h]);
    assert OwnedByQueue(st, h) == {};
  }
}
