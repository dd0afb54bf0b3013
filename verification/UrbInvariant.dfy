/**
 Every step of the URB protocol keeps its invariant.  Steps are local, so the proof is too: a
 step only has to re-establish the part of the invariant that speaks of what it touched.
 */
module UrbInvariant {
  import opened Basics
  import opened UrbProtocol

  lemma StartIsGood()
    ensures Inv(START)
  {
  }

  lemma KnownAlways(st: State, l: Label)
    requires Inv(st) && Enabled(st, l)
    ensures Known(st, l)
  {
    if st.receiver.Looking? && st.receiver.target in st.table { assert UrbOk(st, st.receiver.target); }
    if l.CallbackRespond? { assert UrbOk(st, l.s); }
  }

  // ----- steps are local: everything not touched keeps its part of the invariant -----

  /** The URB the receiver's program counter points to. */
  function HeldUrb(r: Receiver): set<Seqnum> {
    match r
    case Holding(s, _) => {s}
    case Submitting(s) => {s}
    case Refusing(s) => {s}
    case Answering(s) => {s}
    case _ => {}
  }

  /** The CMD_UNLINK the receiver's program counter points to. */
  function HeldUnlink(r: Receiver): set<Seqnum> {
    match r
    case Looking(c, _) => {c}
    case Replying(c, _) => {c}
    case _ => {}
  }

  /** From st to st', only the URBs in S and the unlinks in C change. */
  ghost predicate Touches(st: State, st': State, S: set<Seqnum>, C: set<Seqnum>) {
    && st'.urbs.Keys == st.urbs.Keys + S
    && st'.unlinks.Keys == st.unlinks.Keys + C
    && (forall x <- st.urbs | x !in S :: st'.urbs[x] == st.urbs[x])
    && (forall c <- st.unlinks | c !in C :: st'.unlinks[c] == st.unlinks[c])
    && (forall x | x !in S :: x in st'.table <==> x in st.table)
    && (st'.holder == st.holder || (OptionSet(st.holder) <= S && OptionSet(st'.holder) <= S))
    && (st'.receiver == st.receiver
        || (HeldUrb(st.receiver) + HeldUrb(st'.receiver) <= S && HeldUnlink(st.receiver) <= C))
    && (st.stopping ==> st'.stopping)
    && (st.removed ==> st'.removed)
    && st.history <= st'.history
    && (st'.taken == st.taken
        || (st'.taken == st.taken + 1 <= |st.history|
            && (st.history[st.taken].RetSubmit? ==> st.history[st.taken].seqnum in S)))
    && st.issued <= st'.issued
    && (forall h :: h in st'.issued[|st.issued|..] ==> h in S)
    && (forall h: Handle :: st'.freed[h] != st.freed[h] ==> h < |st'.issued| && st'.issued[h] in S)
  }

  function OptionSet(o: Option<Seqnum>): set<Seqnum> {
    if o.Some? then {o.value} else {}
  }

  /** How a touched URB and a touched unlink may change. */
  ghost predicate Advances(st: State, st': State, S: set<Seqnum>, C: set<Seqnum>)
    requires Touches(st, st', S, C)
  {
    && (forall s <- S ::
          if s in st.urbs then
            var u, u' := st.urbs[s], st'.urbs[s];
            && u'.handle == u.handle
            && (u.phase.Answered? || u.phase.Consumed? ==> u'.phase == u.phase)
            && (OutOfTable(u.phase) ==> OutOfTable(u'.phase))
            && (u'.unlinkCmd != u.unlinkCmd ==> OptionSet(u.unlinkCmd) + OptionSet(u'.unlinkCmd) <= C)
            && (u'.phase.Consumed? && u'.phase != u.phase ==> OptionSet(u.unlinkCmd) <= C)
          else
            forall c <- st.unlinks :: st.unlinks[c].target != s)
    && (forall c <- C | c in st.unlinks ::
          && !st.unlinks[c].fate.Confirmed?
          && (st.unlinks[c].fate.Pending? || st.unlinks[c].target in S))
  }

  lemma OtherTransfer(st: State, st': State, S: set<Seqnum>, C: set<Seqnum>, x: Seqnum)
    requires Inv(st) && Touches(st, st', S, C)
    requires x in st.urbs && x !in S
    ensures var h := st.urbs[x].handle;
            h < |st'.issued| && st'.issued[h] == x && st'.freed[h] == if HandleIsFreed(st', x) then 1 else 0
  {
    assert UrbOk(st, x);
    var u := st.urbs[x];
    assert st'.issued[u.handle] == x;
    assert st'.freed[u.handle] == st.freed[u.handle];
    if u.phase.Answered? {
      assert st'.history[u.phase.at] == st.history[u.phase.at];
    }
  }

  lemma OtherUrb(st: State, st': State, S: set<Seqnum>, C: set<Seqnum>, x: Seqnum)
    requires Inv(st) && Touches(st, st', S, C) && Advances(st, st', S, C)
    requires x in st.urbs && x !in S
    ensures UrbOk(st', x)
  {
    assert UrbOk(st, x);
    OtherTransfer(st, st', S, C, x);
    var u := st.urbs[x];
    if u.phase.Answered? || u.phase.Consumed? {
      assert st'.history[u.phase.at] == st.history[u.phase.at];
    }
  }

  lemma OtherUnlink(st: State, st': State, S: set<Seqnum>, C: set<Seqnum>, c: Seqnum)
    requires Inv(st) && Touches(st, st', S, C) && Advances(st, st', S, C)
    requires c in st.unlinks && c !in C
    ensures UnlinkOk(st', c)
  {
    assert UnlinkOk(st, c);
    var t := st.unlinks[c].target;
    match st.unlinks[c].fate {
      case Confirmed(at) => assert st'.history[at] == st.history[at];
      case _ =>
    }
  }

  lemma OldResponse(st: State, st': State, S: set<Seqnum>, C: set<Seqnum>, i: nat)
    requires Inv(st) && Touches(st, st', S, C) && Advances(st, st', S, C)
    requires i < |st.history|
    ensures ResponseOk(st', i)
  {
    assert ResponseOk(st, i);
    assert st'.history[i] == st.history[i];
  }

  /** The parts of the invariant that speak of what was touched, and the whole-state bookkeeping. */
  ghost predicate Reestablished(st: State, st': State, S: set<Seqnum>, C: set<Seqnum>) {
    && st'.table <= st'.urbs.Keys && st'.pending == |st'.table|
    && (st'.holder.Some? ==> st'.holder.value in st'.urbs)
    && (st'.stopping <==> st'.receiver.Disconnecting? || st'.receiver.Disconnected?)
    && st'.taken <= |st'.history|
    && (forall h :: |st.issued| <= h < |st'.issued| ==>
          st'.issued[h] in st'.urbs && st'.urbs[st'.issued[h]].handle == h)
    && ReceiverOk(st')
    && S <= st'.urbs.Keys && C <= st'.unlinks.Keys
    && (forall s {:trigger UrbOk(st', s)} :: s in S ==> UrbOk(st', s))
    && (forall c {:trigger UnlinkOk(st', c)} :: c in C ==> UnlinkOk(st', c))
    && (forall i: nat {:trigger ResponseOk(st', i)} :: |st.history| <= i < |st'.history| ==> ResponseOk(st', i))
  }

  /** Whole-state invariant from the touched parts alone. */
  lemma LocalStep(st: State, st': State, S: set<Seqnum>, C: set<Seqnum>)
    requires Inv(st) && Touches(st, st', S, C) && Advances(st, st', S, C) && Reestablished(st, st', S, C)
    ensures Inv(st')
  {
    forall x <- st'.urbs | x !in S ensures UrbOk(st', x) { OtherUrb(st, st', S, C, x); }
    forall c <- st'.unlinks | c !in C ensures UnlinkOk(st', c) { OtherUnlink(st, st', S, C, c); }
    forall i: nat | i < |st.history| ensures ResponseOk(st', i) { OldResponse(st, st', S, C, i); }
  }


  /** No URB changes: at most one CMD_UNLINK, not replied to before, moves on. */
  ghost predicate OneUnlinkMoves(st: State, st': State, c: Option<Seqnum>) {
    && st'.urbs == st.urbs && st'.table == st.table && st'.pending == st.pending && st'.holder == st.holder
    && st'.issued == st.issued && st'.taken == st.taken && st'.freed == st.freed
    && (st.stopping ==> st'.stopping) && (st.removed ==> st'.removed)
    && (st'.receiver == st.receiver
        || (HeldUrb(st.receiver) == {} && HeldUrb(st'.receiver) == {} && HeldUnlink(st.receiver) <= OptionSet(c)))
    && (if c.None? then st'.unlinks == st.unlinks
        else c.value in st'.unlinks && st'.unlinks == st.unlinks[c.value := st'.unlinks[c.value]]
             && (c.value in st.unlinks ==> st.unlinks[c.value].fate.Pending?))
    && (st'.history == st.history || (|st'.history| == |st.history| + 1 && st.history <= st'.history))
  }

  lemma OneUnlinkTouches(st: State, st': State, c: Option<Seqnum>)
    requires OneUnlinkMoves(st, st', c)
    ensures Touches(st, st', {}, OptionSet(c)) && Advances(st, st', {}, OptionSet(c))
  {
    assert st'.issued[|st.issued|..] == [];
  }

  /** Whole-state facts a step may rely on without looking at single URBs. */
  ghost predicate Bookkept(st: State) {
    && st.table <= st.urbs.Keys && st.pending == |st.table|
    && (st.holder.Some? ==> st.holder.value in st.urbs)
    && (st.stopping <==> st.receiver.Disconnecting? || st.receiver.Disconnected?)
    && st.taken <= |st.history|
  }

  lemma OneUnlinkReestablishes(st: State, st': State, c: Option<Seqnum>)
    requires Bookkept(st) && OneUnlinkMoves(st, st', c)
    requires st'.stopping <==> st'.receiver.Disconnecting? || st'.receiver.Disconnected?
    requires c.Some? ==> UnlinkOk(st', c.value)
    requires |st'.history| == |st.history| + 1 ==> ResponseOk(st', |st.history|)
    requires ReceiverOk(st')
    ensures Reestablished(st, st', {}, OptionSet(c))
  {
  }

  /** A step that changes no URB. */
  lemma CommandStep(st: State, st': State, c: Option<Seqnum>)
    requires Inv(st) && OneUnlinkMoves(st, st', c)
    requires st'.stopping <==> st'.receiver.Disconnecting? || st'.receiver.Disconnected?
    requires c.Some? ==> UnlinkOk(st', c.value)
    requires |st'.history| == |st.history| + 1 ==> ResponseOk(st', |st.history|)
    requires ReceiverOk(st')
    ensures Inv(st')
  {
    OneUnlinkTouches(st, st', c);
    OneUnlinkReestablishes(st, st', c);
    LocalStep(st, st', {}, OptionSet(c));
  }

  /** One URB moves on, no unlink changes, at most one response is enqueued. */
  ghost predicate OneUrbMoves(st: State, st': State, s: Seqnum) {
    && s in st.urbs && s in st'.urbs
    && st'.urbs == st.urbs[s := st'.urbs[s]]
    && st'.unlinks == st.unlinks && st'.issued == st.issued && st'.taken == st.taken
    && st'.stopping == st.stopping && (st.removed ==> st'.removed)
    && (st'.table == st.table || st'.table == st.table + {s} || st'.table == st.table - {s})
    && (st'.holder == st.holder || (OptionSet(st.holder) <= {s} && OptionSet(st'.holder) <= {s}))
    && (st'.receiver == st.receiver
        || (HeldUrb(st.receiver) == {s}
            && (HeldUrb(st'.receiver) == {s} || st'.receiver == Idle || st'.receiver == Stopped)))
    && (st'.history == st.history || (|st'.history| == |st.history| + 1 && st.history <= st'.history))
    && (st'.freed == st.freed || st'.freed == st.freed + multiset{st.urbs[s].handle})
    && st'.urbs[s].handle == st.urbs[s].handle && st'.urbs[s].unlinkCmd == st.urbs[s].unlinkCmd
    && !st.urbs[s].phase.Answered? && !st.urbs[s].phase.Consumed? && !st'.urbs[s].phase.Consumed?
    && (OutOfTable(st.urbs[s].phase) ==> OutOfTable(st'.urbs[s].phase))
  }

  lemma OneUrbTouches(st: State, st': State, s: Seqnum)
    requires OneUrbMoves(st, st', s)
    requires st.urbs[s].handle < |st.issued| && st.issued[st.urbs[s].handle] == s
    ensures Touches(st, st', {s}, {}) && Advances(st, st', {s}, {})
  {
  }

  lemma OneUrbReestablishes(st: State, st': State, s: Seqnum)
    requires Bookkept(st) && OneUrbMoves(st, st', s)
    requires st'.pending == |st'.table|
    requires |st'.history| == |st.history| + 1 ==> ResponseOk(st', |st.history|)
    requires UrbOk(st', s) && ReceiverOk(st')
    ensures Reestablished(st, st', {s}, {})
  {
  }

  /** The common step: the moved URB's own part of the invariant is enough. */
  lemma UrbStep(st: State, st': State, s: Seqnum)
    requires Inv(st) && OneUrbMoves(st, st', s)
    requires st'.pending == |st'.table|
    requires |st'.history| == |st.history| + 1 ==> ResponseOk(st', |st.history|)
    requires UrbOk(st', s) && ReceiverOk(st')
    ensures Inv(st')
  {
    assert UrbOk(st, s);
    OneUrbTouches(st, st', s);
    OneUrbReestablishes(st, st', s);
    LocalStep(st, st', {s}, {});
  }

  lemma NewUrbTouches(st: State, s: Seqnum, ep: Endpoint, isOut: bool)
    requires st.receiver == Idle && Fresh(st, s)
    ensures Touches(st, AfterArrival(st, s, ep, isOut), {s}, {})
    ensures Advances(st, AfterArrival(st, s, ep, isOut), {s}, {})
  {
    var st' := AfterArrival(st, s, ep, isOut);
    assert st'.issued[|st.issued|..] == [s];
  }

  lemma NewUrbOk(st: State, s: Seqnum, ep: Endpoint, isOut: bool)
    requires st.receiver == Idle && s !in st.table && st.holder != Some(s) && st.freed[|st.issued|] == 0
    ensures UrbOk(AfterArrival(st, s, ep, isOut), s)
  {
  }

  lemma NewUrbReestablishes(st: State, s: Seqnum, ep: Endpoint, isOut: bool)
    requires Bookkept(st) && st.receiver == Idle && Fresh(st, s) && st.freed[|st.issued|] == 0
    ensures Reestablished(st, AfterArrival(st, s, ep, isOut), {s}, {})
  {
    var st' := AfterArrival(st, s, ep, isOut);
    NewUrbOk(st, s, ep, isOut);
    assert st'.issued[|st.issued|] == s && st'.urbs[s].handle == |st.issued|;
  }

  lemma KeepRecvSubmit(st: State, s: Seqnum, ep: Endpoint, isOut: bool)
    requires Inv(st) && st.receiver == Idle && Fresh(st, s)
    ensures Inv(AfterArrival(st, s, ep, isOut))
  {
    NewUrbTouches(st, s, ep, isOut);
    NewUrbReestablishes(st, s, ep, isOut);
    LocalStep(st, AfterArrival(st, s, ep, isOut), {s}, {});
  }

  lemma KeepReject(st: State)
    requires Inv(st) && st.receiver.Holding? && st.receiver.s in st.urbs
    ensures Inv(AfterReject(st))
  {
    assert UrbOk(st, st.receiver.s);
    UrbStep(st, AfterReject(st), st.receiver.s);
  }

  lemma KeepTweak(st: State)
    requires Inv(st) && st.receiver.Holding? && st.receiver.s in st.urbs
    ensures Inv(Tweaked(st))
  {
    assert UrbOk(st, st.receiver.s);
    UrbStep(st, Tweaked(st), st.receiver.s);
  }

  lemma KeepRegister(st: State)
    requires Inv(st) && st.receiver.Holding? && st.receiver.s in st.urbs && st.holder.None?
    ensures Inv(AfterRegister(st))
  {
    assert UrbOk(st, st.receiver.s);
    UrbStep(st, AfterRegister(st), st.receiver.s);
  }

  lemma KeepSubmitOk(st: State)
    requires Inv(st) && st.receiver.Submitting? && st.receiver.s in st.urbs
    ensures Inv(Submitted(st))
  {
    assert UrbOk(st, st.receiver.s);
    UrbStep(st, Submitted(st), st.receiver.s);
  }

  lemma KeepSubmitRefused(st: State)
    requires Inv(st) && st.receiver.Submitting? && st.receiver.s in st.urbs
    ensures Inv(AfterRefusal(st))
  {
    assert UrbOk(st, st.receiver.s);
    UrbStep(st, AfterRefusal(st), st.receiver.s);
  }

  lemma KeepSubmitErase(st: State)
    requires Inv(st) && st.receiver.Refusing? && st.receiver.s in st.urbs && st.holder.None?
    ensures Inv(RefusalErased(st))
  {
    assert UrbOk(st, st.receiver.s);
    UrbStep(st, RefusalErased(st), st.receiver.s);
  }

  lemma KeepSubmitAnswer(st: State, notFound: bool)
    requires Inv(st) && st.receiver.Answering? && st.receiver.s in st.urbs
    ensures Inv(RefusalAnswered(st, notFound))
  {
    assert UrbOk(st, st.receiver.s);
    UrbStep(st, RefusalAnswered(st, notFound), st.receiver.s);
  }

  lemma KeepRecvUnlink(st: State, c: Seqnum, t: Seqnum)
    requires Inv(st) && st.receiver == Idle && Fresh(st, c)
    ensures Inv(UnlinkReceived(st, c, t))
  {
    CommandStep(st, UnlinkReceived(st, c, t), Some(c));
  }

  lemma MarkTouches(st: State, c: Seqnum, t: Seqnum)
    requires MarkIsKnown(st, t) && st.receiver == Looking(c, t) && c in st.unlinks && st.unlinks[c].fate.Pending?
    requires !OutOfTable(st.urbs[t].phase)
    requires st.urbs[t].unlinkCmd.Some? ==> st.unlinks[st.urbs[t].unlinkCmd.value] == Unlink(t, Marked)
    ensures Touches(st, AfterMark(st, c, t), {t}, {c} + OptionSet(st.urbs[t].unlinkCmd))
    ensures Advances(st, AfterMark(st, c, t), {t}, {c} + OptionSet(st.urbs[t].unlinkCmd))
  {
  }

  lemma MarkReestablishes(st: State, c: Seqnum, t: Seqnum)
    requires Bookkept(st) && t in st.urbs && UrbOk(st, t)
    requires MarkIsKnown(st, t) && st.receiver == Looking(c, t)
    requires c in st.unlinks && st.unlinks[c] == Unlink(t, Pending)
    requires st.holder.None? && t in st.table
    ensures Reestablished(st, AfterMark(st, c, t), {t}, {c} + OptionSet(st.urbs[t].unlinkCmd))
  {
  }

  lemma KeepMark(st: State, c: Seqnum, t: Seqnum)
    requires Inv(st) && st.receiver == Looking(c, t) && st.holder.None? && t in st.table && MarkIsKnown(st, t)
    ensures Inv(AfterMark(st, c, t))
  {
    assert UrbOk(st, t);
    MarkTouches(st, c, t);
    MarkReestablishes(st, c, t);
    LocalStep(st, AfterMark(st, c, t), {t}, {c} + OptionSet(st.urbs[t].unlinkCmd));
  }

  lemma KeepMiss(st: State, c: Seqnum, t: Seqnum)
    requires Inv(st) && st.receiver == Looking(c, t) && st.holder.None? && t !in st.table
    ensures Inv(st.(receiver := Replying(c, t)))
  {
    if t in st.urbs { assert UrbOk(st, t); }
    CommandStep(st, st.(receiver := Replying(c, t)), Some(c));
  }

  lemma KeepReply(st: State)
    requires Inv(st) && st.receiver.Replying? && st.receiver.c in st.unlinks
    ensures Inv(UnlinkReplied(st))
  {
    CommandStep(st, UnlinkReplied(st), Some(st.receiver.c));
  }

  function Hit(st: State, ep: Endpoint, flushed: bool): set<Seqnum> {
    set s <- st.urbs | flushed && st.urbs[s].ep == ep && st.urbs[s].phase == InFlight
  }

  lemma CancelTouches(st: State, ep: Endpoint, flushed: bool)
    ensures Touches(st, EndpointCancelled(st, ep, flushed), Hit(st, ep, flushed), {})
    ensures Advances(st, EndpointCancelled(st, ep, flushed), Hit(st, ep, flushed), {})
  {
    assert EndpointCancelled(st, ep, flushed).urbs.Keys == st.urbs.Keys + Hit(st, ep, flushed);
  }

  lemma CancelledUrbOk(st: State, ep: Endpoint, flushed: bool, s: Seqnum)
    requires s in Hit(st, ep, flushed) && UrbOk(st, s)
    ensures UrbOk(EndpointCancelled(st, ep, flushed), s)
  {
  }

  lemma CancelledReceiverOk(st: State, ep: Endpoint, flushed: bool)
    requires ReceiverOk(st)
    ensures ReceiverOk(EndpointCancelled(st, ep, flushed))
  {
  }

  lemma KeepCancel(st: State, ep: Endpoint, flushed: bool)
    requires Inv(st)
    ensures Inv(EndpointCancelled(st, ep, flushed))
  {
    var st' := EndpointCancelled(st, ep, flushed);
    CancelTouches(st, ep, flushed);
    CancelledReceiverOk(st, ep, flushed);
    forall s <- Hit(st, ep, flushed) ensures UrbOk(st', s) {
      assert UrbOk(st, s);
      CancelledUrbOk(st, ep, flushed, s);
    }
    LocalStep(st, st', Hit(st, ep, flushed), {});
  }

  lemma KeepBackToIdle(st: State)
    requires Inv(st) && st.receiver.Cancelling?
    ensures Inv(st.(receiver := Idle))
  {
    CommandStep(st, st.(receiver := Idle), None);
  }

  function Owner(r: Response): set<Seqnum> {
    if r.RetSubmit? then {r.seqnum} else {}
  }

  lemma TakeTouches(st: State)
    requires st.taken < |st.history|
    requires var r := st.history[st.taken];
             r.RetSubmit? ==>
               && r.seqnum in st.urbs && OutOfTable(st.urbs[r.seqnum].phase)
               && (r.transfer.Some? ==> r.transfer.value < |st.issued| && st.issued[r.transfer.value] == r.seqnum)
    ensures Touches(st, Taken(st), Owner(st.history[st.taken]), {})
    ensures Advances(st, Taken(st), Owner(st.history[st.taken]), {})
  {
  }

  lemma TakenUrbOk(st: State, s: Seqnum)
    requires st.taken < |st.history| && st.history[st.taken].RetSubmit? && st.history[st.taken].seqnum == s
    requires At(st, s, Answered(st.taken)) && UrbOk(st, s) && ResponseOk(st, st.taken)
    ensures UrbOk(Taken(st), s)
  {
  }

  lemma TakeReestablishes(st: State)
    requires Bookkept(st) && ReceiverOk(st) && st.taken < |st.history|
    requires var r := st.history[st.taken]; r.RetSubmit? ==> r.seqnum in st.urbs && UrbOk(Taken(st), r.seqnum)
    ensures Reestablished(st, Taken(st), Owner(st.history[st.taken]), {})
  {
  }

  lemma KeepTake(st: State)
    requires Inv(st) && st.taken < |st.history|
    ensures Inv(Taken(st))
  {
    var r := st.history[st.taken];
    assert ResponseOk(st, st.taken);
    if r.RetSubmit? {
      assert UrbOk(st, r.seqnum);
      TakenUrbOk(st, r.seqnum);
    }
    TakeTouches(st);
    TakeReestablishes(st);
    LocalStep(st, Taken(st), Owner(r), {});
  }

  lemma KeepDisconnect(st: State)
    requires Inv(st) && (st.receiver == Idle || st.receiver == Stopped)
    ensures Inv(AfterDisconnect(st))
  {
    CommandStep(st, AfterDisconnect(st), None);
  }

  lemma KeepDisconnectDone(st: State)
    requires Inv(st) && st.receiver == Disconnecting && st.pending == 0
    ensures Inv(st.(receiver := Disconnected(true)))
  {
    CommandStep(st, st.(receiver := Disconnected(true)), None);
  }

  lemma KeepHostRemove(st: State)
    requires Inv(st)
    ensures Inv(st.(removed := true))
  {
    CommandStep(st, st.(removed := true), None);
  }

  lemma KeepHostComplete(st: State, s: Seqnum, status: TrxStatus)
    requires Inv(st) && At(st, s, InFlight)
    ensures Inv(Moved(st, s, Done(status)))
  {
    assert UrbOk(st, s);
    UrbStep(st, Moved(st, s, Done(status)), s);
  }

  lemma KeepCallbackStart(st: State, s: Seqnum)
    requires Inv(st) && s in st.urbs && st.urbs[s].phase.Done?
    ensures Inv(CallbackStarted(st, s))
  {
    assert UrbOk(st, s);
    UrbStep(st, CallbackStarted(st, s), s);
  }

  lemma KeepResubmit(st: State, s: Seqnum)
    requires Inv(st) && s in st.urbs && MustResubmit(st.urbs[s]) && st.holder.None?
    ensures Inv(Moved(st, s, InFlight))
  {
    assert UrbOk(st, s);
    UrbStep(st, Moved(st, s, InFlight), s);
  }

  lemma KeepResubmitRefused(st: State, s: Seqnum)
    requires Inv(st) && s in st.urbs && MustResubmit(st.urbs[s]) && st.holder.None?
    ensures Inv(ResubmitRefused(st, s))
  {
    assert UrbOk(st, s);
    UrbStep(st, ResubmitRefused(st, s), s);
  }

  lemma KeepResubmitAnswer(st: State, s: Seqnum)
    requires Inv(st) && At(st, s, ResubmitFailed)
    ensures Inv(ResubmitAnswered(st, s))
  {
    assert UrbOk(st, s);
    UrbStep(st, ResubmitAnswered(st, s), s);
  }

  lemma KeepErase(st: State, s: Seqnum)
    requires Inv(st) && s in st.urbs && st.urbs[s].phase.InCallback? && !MustResubmit(st.urbs[s]) && st.holder.None?
    ensures Inv(CompletionErased(st, s))
  {
    assert UrbOk(st, s);
    UrbStep(st, CompletionErased(st, s), s);
  }

  lemma UnlinkCompletedTouches(st: State, s: Seqnum)
    requires MarkIsKnown(st, s) && st.urbs[s].phase.Erased? && st.urbs[s].unlinkCmd.Some? && st.holder == Some(s)
    requires st.urbs[s].handle < |st.issued| && st.issued[st.urbs[s].handle] == s
    requires st.urbs[s].args == Some(st.urbs[s].handle)
    requires st.unlinks[st.urbs[s].unlinkCmd.value] == Unlink(s, Marked)
    ensures Touches(st, UnlinkCompleted(st, s), {s}, {st.urbs[s].unlinkCmd.value})
    ensures Advances(st, UnlinkCompleted(st, s), {s}, {st.urbs[s].unlinkCmd.value})
  {
  }

  lemma UnlinkCompletedReestablishes(st: State, s: Seqnum)
    requires Bookkept(st) && ReceiverOk(st) && s in st.urbs && UrbOk(st, s)
    requires MarkIsKnown(st, s) && st.urbs[s].phase.Erased? && st.urbs[s].unlinkCmd.Some?
    ensures Reestablished(st, UnlinkCompleted(st, s), {s}, {st.urbs[s].unlinkCmd.value})
  {
  }

  lemma KeepUnlinkCompleted(st: State, s: Seqnum)
    requires Inv(st) && MarkIsKnown(st, s) && st.urbs[s].phase.Erased? && st.urbs[s].unlinkCmd.Some?
    ensures Inv(UnlinkCompleted(st, s))
  {
    assert UrbOk(st, s);
    UnlinkCompletedTouches(st, s);
    UnlinkCompletedReestablishes(st, s);
    LocalStep(st, UnlinkCompleted(st, s), {s}, {st.urbs[s].unlinkCmd.value});
  }

  lemma KeepSubmitCompleted(st: State, s: Seqnum)
    requires Inv(st) && s in st.urbs && st.urbs[s].phase.Erased? && st.urbs[s].unlinkCmd.None?
    ensures Inv(SubmitCompleted(st, s))
  {
    assert UrbOk(st, s);
    UrbStep(st, SubmitCompleted(st, s), s);
  }

  lemma KeepDrain(st: State, s: Seqnum)
    requires Inv(st) && At(st, s, Draining) && st.holder.None?
    ensures Inv(AfterDrain(st, s))
  {
    assert UrbOk(st, s);
    UrbStep(st, AfterDrain(st, s), s);
  }

  lemma KeepFree(st: State, s: Seqnum)
    requires Inv(st) && At(st, s, Drained)
    ensures Inv(AfterDrop(st, s))
  {
    assert UrbOk(st, s);
    UrbStep(st, AfterDrop(st, s), s);
  }

  lemma StepKeepsInv(st: State, l: Label)
    requires Inv(st) && Enabled(st, l) && Known(st, l)
    ensures Inv(Apply(st, l))
  {
    match l
    case RecvSubmit(s, ep, isOut) => KeepRecvSubmit(st, s, ep, isOut);
    case Reject => KeepReject(st);
    case Tweak => KeepTweak(st);
    case Register => KeepRegister(st);
    case SubmitOk => KeepSubmitOk(st);
    case SubmitRefused => KeepSubmitRefused(st);
    case SubmitErase => KeepSubmitErase(st);
    case SubmitAnswer(notFound) => KeepSubmitAnswer(st, notFound);
    case RecvUnlink(c, t) => KeepRecvUnlink(st, c, t);
    case Lookup =>
      if st.receiver.target in st.table { KeepMark(st, st.receiver.c, st.receiver.target); }
      else { KeepMiss(st, st.receiver.c, st.receiver.target); }
    case CancelEndpoint(flushed) =>
      KeepCancel(st, st.receiver.ep, flushed);
      KeepBackToIdle(EndpointCancelled(st, st.receiver.ep, flushed));
    case ReplyUnlink => KeepReply(st);
    case Disconnect => KeepDisconnect(st);
    case DisconnectCancel(ep, flushed) => KeepCancel(st, ep, flushed);
    case DisconnectDone => KeepDisconnectDone(st);
    case HostComplete(s, status) => KeepHostComplete(st, s, status);
    case HostRemove => KeepHostRemove(st);
    case CallbackStart(s) => KeepCallbackStart(st, s);
    case CallbackResubmit(s, accepted) =>
      if accepted { KeepResubmit(st, s); } else { KeepResubmitRefused(st, s); }
    case CallbackResubmitAnswer(s) => KeepResubmitAnswer(st, s);
    case CallbackErase(s) => KeepErase(st, s);
    case CallbackRespond(s) =>
      if st.urbs[s].unlinkCmd.Some? { KeepUnlinkCompleted(st, s); } else { KeepSubmitCompleted(st, s); }
    case CallbackDrain(s) => KeepDrain(st, s);
    case CallbackFree(s) => KeepFree(st, s);
    case Take => KeepTake(st);
  }
}
