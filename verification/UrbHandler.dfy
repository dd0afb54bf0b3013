/**
 The ESP32 device handler as the code has it: a table of pooled callback arguments, a counter, two
 flags and the session's queue, all updated in place.  Each method is one section under
 transfers_mutex_ (or one enqueue); its contract says that the fields move exactly as the step of
 the URB protocol with the same role, so every theorem about runs holds of the code's own state.
 */
module UrbHandler {
  import opened Basics
  import opened UrbProtocol
  import opened UrbInvariant

  /** esp32_callback_args: pooled, so every field may hold leftovers of an earlier transfer. */
  class CallbackArgs {
    var seqnum: Seqnum
    var endpoint: Endpoint
    var isOut: bool
    var unlinked: bool
    var unlinkCmdSeqnum: Seqnum
    var transfer: Option<Handle>

    constructor (seqnum: Seqnum, unlinked: bool, unlinkCmdSeqnum: Seqnum) {
      this.seqnum, this.endpoint, this.isOut := seqnum, 0, false;
      this.unlinked, this.unlinkCmdSeqnum, this.transfer := unlinked, unlinkCmdSeqnum, None;
    }

    /** Every field is set; in particular a stale unlink mark is cleared. */
    method Fill(s: Seqnum, ep: Endpoint, isOut: bool, transfer: Handle)
      modifies this
      ensures forall h, p :: Represents(s, Urb(ep, isOut, h, Some(transfer), None, p))
    {
      seqnum, endpoint, this.isOut := s, ep, isOut;
      this.transfer := Some(transfer);
      unlinked, unlinkCmdSeqnum := false, 0;
    }

    ghost predicate Represents(s: Seqnum, u: Urb)
      reads this
    {
      && seqnum == s && endpoint == u.ep && isOut == u.isOut && transfer == u.args
      && u.unlinkCmd == (if unlinked then Some(unlinkCmdSeqnum) else None)
    }
  }

  /** Two states of a URB whose callback arguments hold the same. */
  predicate SameArgs(u: Urb, v: Urb) {
    v.ep == u.ep && v.isOut == u.isOut && v.args == u.args && v.unlinkCmd == u.unlinkCmd
  }

  /** From st to st', s leaves the table and the counter; its arguments and everybody else's hold what they held. */
  ghost predicate Leaves(st: State, st': State, s: Seqnum, gone: bool) {
    && st'.table == st.table - {s} && st'.pending == st.pending - 1
    && st'.stopping == st.stopping && st'.removed == (st.removed || gone)
    && st'.history == st.history && st'.taken == st.taken
    && forall t <- st.table :: t in st.urbs && t in st'.urbs && SameArgs(st.urbs[t], st'.urbs[t])
  }

  /** From st to st', r is enqueued; the table and what its arguments hold stays. */
  ghost predicate Enqueues(st: State, st': State, r: Response, gone: bool) {
    && st'.table == st.table && st'.pending == st.pending
    && st'.stopping == st.stopping && st'.removed == (st.removed || gone)
    && st'.history == st.history + [r] && st'.taken == st.taken
    && forall t <- st.table :: t in st.urbs && t in st'.urbs && SameArgs(st.urbs[t], st'.urbs[t])
  }

  /** From st to st', the arguments of s take the mark of c; nothing else of the table changes. */
  ghost predicate Marks(st: State, st': State, s: Seqnum, c: Seqnum) {
    && st'.table == st.table && st'.pending == st.pending
    && st'.stopping == st.stopping && st'.removed == st.removed
    && st'.history == st.history && st'.taken == st.taken
    && (forall t <- st.table :: t in st.urbs && t in st'.urbs && (t != s ==> SameArgs(st.urbs[t], st'.urbs[t])))
    && s in st.urbs && s in st'.urbs && SameArgs(st.urbs[s].(unlinkCmd := Some(c)), st'.urbs[s])
  }

  // ----- what the sections do to the table and the queue -----

  lemma LookupMarks(st: State, s: Seqnum, c: Seqnum)
    requires Inv(st) && st.receiver == Looking(c, s) && st.holder.None? && s in st.table && MarkIsKnown(st, s)
    ensures Inv(AfterMark(st, c, s)) && Marks(st, AfterMark(st, c, s), s, c)
  {
    KeepMark(st, c, s);
  }

  lemma RefusedLeaves(st: State)
    requires Inv(st) && st.receiver.Refusing? && st.holder.None?
    ensures st.receiver.s in st.urbs && Inv(RefusalErased(st)) && Leaves(st, RefusalErased(st), st.receiver.s, false)
  {
    assert UrbOk(st, st.receiver.s);
    KeepSubmitErase(st);
  }

  lemma RefusedIsAnswered(st: State, notFound: bool)
    requires Inv(st) && st.receiver.Answering?
    ensures st.receiver.s in st.urbs && Inv(RefusalAnswered(st, notFound))
    ensures Enqueues(st, RefusalAnswered(st, notFound), RetSubmit(st.receiver.s, EPIPE, None), notFound)
    ensures st.receiver.s !in st.table
  {
    assert UrbOk(st, st.receiver.s);
    KeepSubmitAnswer(st, notFound);
  }

  lemma ResubmissionLeaves(st: State, s: Seqnum)
    requires Inv(st) && s in st.urbs && MustResubmit(st.urbs[s]) && st.holder.None?
    ensures Inv(ResubmitRefused(st, s)) && Leaves(st, ResubmitRefused(st, s), s, false)
  {
    assert UrbOk(st, s);
    KeepResubmitRefused(st, s);
  }

  lemma ResubmissionIsAnswered(st: State, s: Seqnum)
    requires Inv(st) && At(st, s, ResubmitFailed)
    ensures Inv(ResubmitAnswered(st, s)) && Enqueues(st, ResubmitAnswered(st, s), RetSubmit(s, EPIPE, None), false)
  {
    assert UrbOk(st, s);
    KeepResubmitAnswer(st, s);
  }

  lemma CompletedLeaves(st: State, s: Seqnum)
    requires Inv(st) && s in st.urbs && st.urbs[s].phase.InCallback? && !MustResubmit(st.urbs[s]) && st.holder.None?
    ensures Inv(CompletionErased(st, s)) && Leaves(st, CompletionErased(st, s), s, st.urbs[s].phase.status == NoDevice)
  {
    assert UrbOk(st, s);
    KeepErase(st, s);
  }

  lemma UnlinkIsAnswered(st: State, s: Seqnum)
    requires Inv(st) && MarkIsKnown(st, s) && st.urbs[s].phase.Erased? && st.urbs[s].unlinkCmd.Some?
    ensures Inv(UnlinkCompleted(st, s))
    ensures var u := st.urbs[s];
            Enqueues(st, UnlinkCompleted(st, s), RetUnlink(u.unlinkCmd.value, TrxStat2Error(u.phase.status)), false)
  {
    assert UrbOk(st, s);
    KeepUnlinkCompleted(st, s);
  }

  lemma SubmitIsAnswered(st: State, s: Seqnum)
    requires Inv(st) && s in st.urbs && st.urbs[s].phase.Erased? && st.urbs[s].unlinkCmd.None?
    ensures Inv(SubmitCompleted(st, s))
    ensures var u := st.urbs[s];
            Enqueues(st, SubmitCompleted(st, s),
                     RetSubmit(s, TrxStat2Error(u.phase.status), if u.isOut then None else u.args), false)
  {
    assert UrbOk(st, s);
    KeepSubmitCompleted(st, s);
  }

  lemma DrainingLeaves(st: State, s: Seqnum)
    requires Inv(st) && At(st, s, Draining) && st.holder.None?
    ensures Inv(AfterDrain(st, s)) && Leaves(st, AfterDrain(st, s), s, false)
  {
    assert UrbOk(st, s);
    KeepDrain(st, s);
  }

  lemma TweakedIsAnswered(st: State)
    requires Inv(st) && st.receiver.Holding?
    ensures st.receiver.s in st.urbs && Inv(Tweaked(st))
    ensures Enqueues(st, Tweaked(st), RetSubmit(st.receiver.s, OK, None), false)
  {
    assert UrbOk(st, st.receiver.s);
    KeepTweak(st);
  }

  lemma ReplyEnqueues(st: State)
    requires Inv(st) && st.receiver.Replying? && st.receiver.c in st.unlinks
    ensures Inv(UnlinkReplied(st)) && Enqueues(st, UnlinkReplied(st), RetUnlink(st.receiver.c, OK), false)
  {
    KeepReply(st);
  }

  class Esp32DeviceHandler {
    var transfers: map<Seqnum, CallbackArgs>
    var pendingCount: int
    var allTransferShouldStop: bool
    var deviceRemoved: bool
    var queue: seq<Response>       // enqueued with the session, not yet taken by its sender
    ghost var model: State

    /** The fields agree with the protocol state, but for the flag that the device is gone. */
    ghost predicate Agrees()
      reads `transfers, `pendingCount, `allTransferShouldStop, `queue, `model, transfers.Values
    {
      && transfers.Keys == model.table
      && pendingCount == model.pending
      && allTransferShouldStop == model.stopping
      && model.taken <= |model.history| && queue == model.history[model.taken..]
      && forall s <- transfers :: s in model.urbs && transfers[s].Represents(s, model.urbs[s])
    }

    /** ... and that flag too. */
    ghost predicate AgreesFully()
      reads this, transfers.Values
    {
      Agrees() && deviceRemoved == model.removed
    }

    ghost predicate Valid()
      reads this, transfers.Values
    {
      Inv(model) && AgreesFully()
    }

    constructor ()
      ensures Valid() && model == START
    {
      transfers, pendingCount, queue := map[], 0, [];
      allTransferShouldStop, deviceRemoved := false, false;
      model := START;
      new;
      StartIsGood();
    }

    /** Arguments taken from the pool are nobody else's. */
    ghost predicate Unused(args: CallbackArgs)
      reads this
    {
      args !in transfers.Values
    }

    /** transfers_.emplace and pending_count_.fetch_add; `next` is the protocol state this leads to. */
    method Insert(args: CallbackArgs, s: Seqnum, ghost next: State)
      requires Agrees() && Unused(args) && s !in transfers
      requires s in next.urbs && args.Represents(s, next.urbs[s])
      requires next.table == model.table + {s} && next.pending == model.pending + 1
      requires next.stopping == model.stopping && next.removed == deviceRemoved
      requires next.history == model.history && next.taken == model.taken
      requires forall t <- model.table :: t in next.urbs && t in model.urbs && SameArgs(model.urbs[t], next.urbs[t])
      modifies this`transfers, this`pendingCount, this`model
      ensures Agrees() && deviceRemoved == model.removed && model == next && transfers == old(transfers)[s := args]
    {
      transfers := transfers[s := args];
      pendingCount := pendingCount + 1;
      assert transfers.Keys == next.table;
      model := next;
    }

    /** receive_urb: fill pooled arguments and register them. */
    method Register(args: CallbackArgs, s: Seqnum, ep: Endpoint, isOut: bool, transfer: Handle)
      requires Valid() && Unused(args)
      requires model.receiver == Holding(s, transfer) && model.holder.None?
      requires model.urbs[s].ep == ep && model.urbs[s].isOut == isOut
      modifies this, args
      ensures Valid() && model == AfterRegister(old(model)) && transfers == old(transfers)[s := args]
    {
      assert UrbOk(model, s);
      args.Fill(s, ep, isOut, transfer);
      KeepRegister(model);
      Insert(args, s, AfterRegister(model));
    }

    /** transfers_.erase and pending_count_.fetch_sub; `next` is the protocol state this leads to. */
    method Unregister(args: CallbackArgs, gone: bool, ghost next: State)
      requires AgreesFully() && args.seqnum in transfers && transfers[args.seqnum] == args
      requires Leaves(model, next, args.seqnum, gone)
      modifies this`deviceRemoved, this`transfers, this`pendingCount, this`model
      ensures AgreesFully() && model == next
      ensures transfers == old(transfers) - {args.seqnum}
      ensures Unused(args) && args.Represents(args.seqnum, model.urbs[args.seqnum])
    {
      if gone {
        deviceRemoved := true;
      }
      transfers := transfers - {args.seqnum};
      pendingCount := pendingCount - 1;
      assert transfers.Keys == next.table;
      model := next;
    }

    /** Session::enqueue_ret_submit and enqueue_ret_unlink; `next` is the protocol state this leads to. */
    method Enqueue(r: Response, gone: bool, ghost next: State)
      requires AgreesFully() && Enqueues(model, next, r, gone)
      modifies this`deviceRemoved, this`queue, this`model
      ensures AgreesFully() && model == next
    {
      if gone {
        deviceRemoved := true;
      }
      queue := queue + [r];
      model := next;
      assert model.history[model.taken..] == queue;
    }

    /** The receiver answers without any arguments. */
    method Reply(r: Response, ghost next: State)
      requires Valid() && Enqueues(model, next, r, false) && Inv(next)
      modifies this
      ensures Valid() && model == next && transfers == old(transfers)
    {
      Enqueue(r, false, next);
    }

    /** cb->transfer.reset(), and cb->reset() where the source does that too, on arguments out of the table. */
    method Release(args: CallbackArgs, whole: bool)
      requires Agrees() && Unused(args)
      modifies args`transfer, args`unlinked, args`unlinkCmdSeqnum
      ensures Agrees() && args.transfer.None? && (whole ==> !args.unlinked)
    {
      args.transfer := None;
      if whole {
        args.unlinked, args.unlinkCmdSeqnum := false, 0;
      }
    }

    /** A URB out of the table is answered, and its arguments give up their transfer. */
    method Answer(args: CallbackArgs, whole: bool, gone: bool, r: Response, ghost next: State)
      requires Valid() && Unused(args) && Enqueues(model, next, r, gone) && Inv(next)
      modifies this, args
      ensures Valid() && model == next && transfers == old(transfers)
      ensures args.transfer.None? && (whole ==> !args.unlinked)
    {
      ReleaseAndEnqueue(args, whole, gone, r, next);
    }

    method ReleaseAndEnqueue(args: CallbackArgs, whole: bool, gone: bool, r: Response, ghost next: State)
      requires AgreesFully() && Unused(args) && Enqueues(model, next, r, gone)
      modifies this`deviceRemoved, this`queue, this`model, args`transfer, args`unlinked, args`unlinkCmdSeqnum
      ensures AgreesFully() && model == next
      ensures args.transfer.None? && (whole ==> !args.unlinked)
    {
      Release(args, whole);
      Enqueue(r, gone, next);
    }

    /** receive_urb, submission refused: leave the table. */
    method EraseRefused(args: CallbackArgs)
      requires Valid() && model.holder.None?
      requires model.receiver.Refusing? && model.receiver.s in transfers && transfers[model.receiver.s] == args
      modifies this
      ensures Valid() && model == RefusalErased(old(model)) && transfers == old(transfers) - {model.receiver.s}
      ensures Unused(args) && args.Represents(model.receiver.s, model.urbs[model.receiver.s])
    {
      RefusedLeaves(model);
      Unregister(args, false, RefusalErased(model));
    }

    /** receive_urb, submission refused: free the transfer and answer with EPIPE. */
    method AnswerRefused(args: CallbackArgs, notFound: bool)
      requires Valid() && Unused(args) && model.receiver.Answering?
      requires args.Represents(model.receiver.s, model.urbs[model.receiver.s])
      modifies this, args
      ensures Valid() && model == RefusalAnswered(old(model), notFound)
      ensures transfers == old(transfers) && args.transfer.None? && !args.unlinked
    {
      RefusedIsAnswered(model, notFound);
      Answer(args, true, notFound, RetSubmit(args.seqnum, EPIPE, None), RefusalAnswered(model, notFound));
    }

    /** The URB is still in the table: record the unlink on its arguments. */
    method MarkFound(args: CallbackArgs, cmdSeqnum: Seqnum)
      requires Valid() && args.seqnum in transfers && transfers[args.seqnum] == args
      requires model.receiver == Looking(cmdSeqnum, args.seqnum) && model.holder.None?
      requires MarkIsKnown(model, args.seqnum)
      modifies this`model, args
      ensures Valid() && model == AfterMark(old(model), cmdSeqnum, old(args.seqnum))
      ensures args.endpoint == old(model).urbs[old(args.seqnum)].ep
    {
      LookupMarks(model, args.seqnum, cmdSeqnum);
      SetMark(args, cmdSeqnum, AfterMark(model, cmdSeqnum, args.seqnum));
    }

    method SetMark(args: CallbackArgs, cmdSeqnum: Seqnum, ghost next: State)
      requires AgreesFully() && args.seqnum in transfers && transfers[args.seqnum] == args
      requires Marks(model, next, args.seqnum, cmdSeqnum)
      modifies this`model, args`unlinked, args`unlinkCmdSeqnum
      ensures AgreesFully() && model == next
    {
      args.unlinked := true;
      args.unlinkCmdSeqnum := cmdSeqnum;
      model := next;
    }

    /** handle_unlink_seqnum: mark the URB if it is still in the table. */
    method LookupForUnlink(unlinkSeqnum: Seqnum, cmdSeqnum: Seqnum) returns (cancel: Option<Endpoint>)
      requires Valid() && model.receiver == Looking(cmdSeqnum, unlinkSeqnum) && model.holder.None?
      modifies this, transfers.Values
      ensures Valid() && Known(old(model), Lookup) && model == Apply(old(model), Lookup)
      ensures transfers == old(transfers)
      ensures cancel == if unlinkSeqnum in old(transfers) then Some(old(model).urbs[unlinkSeqnum].ep) else None
      ensures cancel.Some? ==> model.receiver == Cancelling(cancel.value)
    {
      KnownAlways(model, Lookup);
      if unlinkSeqnum in transfers {
        MarkFound(transfers[unlinkSeqnum], cmdSeqnum);
        cancel := Some(transfers[unlinkSeqnum].endpoint);
      } else {
        cancel := None;
        KeepMiss(model, cmdSeqnum, unlinkSeqnum);
        model := model.(receiver := Replying(cmdSeqnum, unlinkSeqnum));
      }
    }

    /** handle_unlink_seqnum, URB not found: reply at once. */
    method ReplyNotFound(cmdSeqnum: Seqnum)
      requires Valid() && model.receiver.Replying? && model.receiver.c == cmdSeqnum && cmdSeqnum in model.unlinks
      modifies this
      ensures Valid() && model == UnlinkReplied(old(model)) && transfers == old(transfers)
    {
      ReplyEnqueues(model);
      Reply(RetUnlink(cmdSeqnum, OK), UnlinkReplied(model));
    }

    /** The first answer of transfer_callback under transfers_mutex_: is this a cancellation meant for somebody else? */
    method CancelledForAnother(args: CallbackArgs, status: TrxStatus) returns (resubmit: bool)
      requires Valid() && args.seqnum in transfers && transfers[args.seqnum] == args
      requires At(model, args.seqnum, InCallback(status))
      ensures resubmit <==> status == Canceled && model.urbs[args.seqnum].unlinkCmd.None?
      ensures resubmit <==> MustResubmit(model.urbs[args.seqnum])
    {
      resubmit := status == Canceled && !args.unlinked;
    }

    /** transfer_callback, the host stack refused the resubmission: leave the table, mutex released. */
    method ResubmissionFailed(args: CallbackArgs)
      requires Valid() && args.seqnum in transfers && transfers[args.seqnum] == args
      requires MustResubmit(model.urbs[args.seqnum]) && model.holder.None?
      modifies this
      ensures Valid() && model == ResubmitRefused(old(model), args.seqnum)
      ensures transfers == old(transfers) - {args.seqnum}
      ensures Unused(args) && args.Represents(args.seqnum, model.urbs[args.seqnum])
    {
      ResubmissionLeaves(model, args.seqnum);
      Unregister(args, false, ResubmitRefused(model, args.seqnum));
    }

    /** transfer_callback, after that: answer with EPIPE, then free the transfer. */
    method AnswerFailedResubmission(args: CallbackArgs)
      requires Valid() && Unused(args) && At(model, args.seqnum, ResubmitFailed)
      requires args.Represents(args.seqnum, model.urbs[args.seqnum])
      modifies this, args
      ensures Valid() && model == ResubmitAnswered(old(model), old(args.seqnum))
      ensures transfers == old(transfers) && args.transfer.None?
    {
      ResubmissionIsAnswered(model, args.seqnum);
      Answer(args, false, false, RetSubmit(args.seqnum, EPIPE, None), ResubmitAnswered(model, args.seqnum));
    }

    /** transfer_callback, final completion, first half: leave the table, keep the mutex. */
    method EraseCompleted(args: CallbackArgs, status: TrxStatus)
      requires Valid() && args.seqnum in transfers && transfers[args.seqnum] == args
      requires At(model, args.seqnum, InCallback(status)) && !MustResubmit(model.urbs[args.seqnum])
      requires model.holder.None?
      modifies this
      ensures Valid() && model == CompletionErased(old(model), args.seqnum)
      ensures transfers == old(transfers) - {args.seqnum}
      ensures Unused(args) && args.Represents(args.seqnum, model.urbs[args.seqnum])
    {
      CompletedLeaves(model, args.seqnum);
      Unregister(args, status == NoDevice, CompletionErased(model, args.seqnum));
    }

    /** A marked URB: RET_UNLINK in place of RET_SUBMIT, with the transfer's final status; the transfer is freed. */
    method RespondUnlinked(args: CallbackArgs, status: TrxStatus)
      requires Valid() && Unused(args) && At(model, args.seqnum, Erased(status)) && args.unlinked
      requires MarkIsKnown(model, args.seqnum) && args.Represents(args.seqnum, model.urbs[args.seqnum])
      modifies this, args
      ensures Valid() && model == UnlinkCompleted(old(model), old(args.seqnum))
      ensures transfers == old(transfers) && args.transfer.None?
    {
      UnlinkIsAnswered(model, args.seqnum);
      Answer(args, false, false, RetUnlink(args.unlinkCmdSeqnum, TrxStat2Error(status)),
             UnlinkCompleted(model, args.seqnum));
    }

    /** An unmarked URB: RET_SUBMIT; an IN response takes the transfer over, an OUT transfer is freed. */
    method RespondSubmitted(args: CallbackArgs, status: TrxStatus)
      requires Valid() && Unused(args) && At(model, args.seqnum, Erased(status)) && !args.unlinked
      requires args.Represents(args.seqnum, model.urbs[args.seqnum])
      modifies this, args
      ensures Valid() && model == SubmitCompleted(old(model), old(args.seqnum))
      ensures transfers == old(transfers) && args.transfer.None?
    {
      SubmitIsAnswered(model, args.seqnum);
      Answer(args, false, false,
             RetSubmit(args.seqnum, TrxStat2Error(status), if args.isOut then None else args.transfer),
             SubmitCompleted(model, args.seqnum));
    }

    /** transfer_callback, final completion, second half: respond, then release the mutex. */
    method RespondCompleted(args: CallbackArgs, status: TrxStatus)
      requires Valid() && Unused(args) && At(model, args.seqnum, Erased(status))
      requires args.Represents(args.seqnum, model.urbs[args.seqnum])
      modifies this, args
      ensures Valid()
      ensures Known(old(model), CallbackRespond(old(args.seqnum)))
      ensures Enabled(old(model), CallbackRespond(old(args.seqnum)))
      ensures model == Apply(old(model), CallbackRespond(old(args.seqnum)))
      ensures transfers == old(transfers) && args.transfer.None?
    {
      assert UrbOk(model, args.seqnum);
      KnownAlways(model, CallbackRespond(args.seqnum));
      if args.unlinked {
        RespondUnlinked(args, status);
      } else {
        RespondSubmitted(args, status);
      }
    }

    /** transfer_callback while disconnecting: leave the table without an answer. */
    method EraseDraining(args: CallbackArgs)
      requires Valid() && args.seqnum in transfers && transfers[args.seqnum] == args
      requires At(model, args.seqnum, Draining) && model.holder.None?
      modifies this
      ensures Valid() && model == AfterDrain(old(model), args.seqnum)
      ensures transfers == old(transfers) - {args.seqnum}
    {
      DrainingLeaves(model, args.seqnum);
      Unregister(args, false, AfterDrain(model, args.seqnum));
    }

    /** on_disconnection: stop the callbacks' answers; nothing to wait for once the device is gone. */
    method BeginDisconnection() returns (mustWait: bool)
      requires Valid() && (model.receiver == Idle || model.receiver == Stopped)
      modifies this
      ensures Valid() && model == AfterDisconnect(old(model)) && transfers == old(transfers)
      ensures mustWait == !deviceRemoved
    {
      allTransferShouldStop := true;
      mustWait := !deviceRemoved;
      KeepDisconnect(model);
      model := AfterDisconnect(model);
    }

    /** The predicate of on_disconnection's wait: when it passes, no transfer is left with the host stack. */
    method WaitPasses() returns (pass: bool)
      requires Valid() && model.receiver == Disconnecting
      ensures pass <==> transfers == map[]
      ensures pass ==> forall s <- model.urbs :: !InTable(model.urbs[s].phase)
    {
      pass := pendingCount == 0;
      assert pass ==> model.table == {};
      forall s <- model.urbs ensures s in model.table <==> InTable(model.urbs[s].phase) { assert UrbOk(model, s); }
    }

    /** Session::sender_get_data: the oldest queued response leaves the queue. */
    method TakeResponse() returns (r: Option<Response>)
      requires Valid()
      modifies this
      ensures Valid() && transfers == old(transfers)
      ensures if old(queue) == [] then r == None && model == old(model)
              else r == Some(old(queue)[0]) && model == Taken(old(model))
    {
      if queue == [] {
        r := None;
      } else {
        r := Some(queue[0]);
        queue := queue[1..];
        KeepTake(model);
        model := Taken(model);
      }
    }

    /** receive_urb, a control request handled by tweak_special_requests. */
    method AnswerTweaked(s: Seqnum)
      requires Valid() && model.receiver.Holding? && model.receiver.s == s
      modifies this
      ensures Valid() && s in old(model).urbs && model == Tweaked(old(model)) && transfers == old(transfers)
    {
      TweakedIsAnswered(model);
      Reply(RetSubmit(s, OK, None), Tweaked(model));
    }

    method OnDeviceRemoved()
      requires Valid()
      modifies this
      ensures Valid() && model == old(model).(removed := true) && transfers == old(transfers)
    {
      deviceRemoved := true;
      KeepHostRemove(model);
      model := model.(removed := true);
    }

    /** The remaining steps touch none of the handler's fields: those of the host stack, of the receiver before
        it takes a lock, and of a callback that owns its arguments. */
    ghost method Environment(l: Label)
      requires Valid() && Enabled(model, l)
      requires l.RecvSubmit? || l.Reject? || l.SubmitOk? || l.SubmitRefused? || l.RecvUnlink? || l.CancelEndpoint?
               || l.DisconnectCancel? || l.DisconnectDone? || l.HostComplete? || l.CallbackStart?
               || (l.CallbackResubmit? && l.accepted) || l.CallbackFree?
      modifies this
      ensures Valid() && Known(old(model), l) && model == Apply(old(model), l) && transfers == old(transfers)
    {
      KnownAlways(model, l);
      StepKeepsInv(model, l);
      FieldsUntouched(model, l);
      Follow(Apply(model, l));
    }

    ghost method Follow(next: State)
      requires Agrees() && deviceRemoved == model.removed && Untouched(model, next)
      modifies this`model
      ensures Agrees() && deviceRemoved == model.removed && model == next
    {
      model := next;
    }
  }

  /** A step that changes neither table, counter, flags nor history, and no registered URB's arguments. */
  ghost predicate Untouched(st: State, st': State) {
    && st'.table == st.table && st'.pending == st.pending && st'.stopping == st.stopping
    && st'.removed == st.removed && st'.history == st.history && st'.taken == st.taken
    && forall s <- st.table :: s in st.urbs && s in st'.urbs && SameArgs(st.urbs[s], st'.urbs[s])
  }

  lemma CancelUntouched(st: State, ep: Endpoint, flushed: bool)
    requires st.table <= st.urbs.Keys
    ensures Untouched(st, EndpointCancelled(st, ep, flushed))
  {
  }

  lemma SubmissionUntouched(st: State, l: Label)
    requires Inv(st) && Enabled(st, l) && Known(st, l)
    requires l.RecvSubmit? || l.Reject? || l.SubmitOk? || l.SubmitRefused?
    ensures Untouched(st, Apply(st, l))
  {
  }

  lemma CallbackUntouched(st: State, l: Label)
    requires Inv(st) && Enabled(st, l) && Known(st, l)
    requires l.HostComplete? || l.CallbackStart? || (l.CallbackResubmit? && l.accepted) || l.CallbackFree?
    ensures Untouched(st, Apply(st, l))
  {
    assert UrbOk(st, l.s);
  }

  lemma FieldsUntouched(st: State, l: Label)
    requires Inv(st) && Enabled(st, l) && Known(st, l)
    requires l.RecvSubmit? || l.Reject? || l.SubmitOk? || l.SubmitRefused? || l.RecvUnlink? || l.CancelEndpoint?
             || l.DisconnectCancel? || l.DisconnectDone? || l.HostComplete? || l.CallbackStart?
             || (l.CallbackResubmit? && l.accepted) || l.CallbackFree?
    ensures Untouched(st, Apply(st, l))
  {
    match l
    case RecvSubmit(_, _, _) | Reject | SubmitOk | SubmitRefused => SubmissionUntouched(st, l);
    case CancelEndpoint(flushed) => CancelUntouched(st, st.receiver.ep, flushed);
    case DisconnectCancel(ep, flushed) => CancelUntouched(st, ep, flushed);
    case HostComplete(_, _) | CallbackStart(_) | CallbackResubmit(_, _) | CallbackFree(_) => CallbackUntouched(st, l);
    case RecvUnlink(_, _) | DisconnectDone =>
  }
}
