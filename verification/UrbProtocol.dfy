/**
 The life of a URB inside the ESP32 device handler (chunking off), as a step relation.

 One label is one section of the source that other threads see as atomic: a section under
 transfers_mutex_, an enqueue under the session's swap_mutex, a call into the USB host stack, or
 a flag read.  The receiver thread runs receive_urb, handle_unlink_seqnum and on_disconnection one
 after another; every transfer's completion callback may run on its own thread; the host stack
 completes a transfer with any status at any moment; the device may be unplugged at any moment.
 transfers_mutex_ is modelled by `holder` because a completing callback keeps it across two
 sections: taking itself out of the table, and enqueueing its response.
 */
module UrbProtocol {
  import opened Basics

  type Seqnum = nat
  type Handle = nat
  type Endpoint = nat

  datatype TrxStatus = Completed | Error | TimedOut | Canceled | Stall | Overflow | Skipped | NoDevice

  const OK := 0
  const ENOENT := -2
  const EPIPE := -32
  const ECONNRESET := -104
  const ESHUTDOWN := -108

  function TrxStat2Error(status: TrxStatus): int {
    match status
    case Completed => OK
    case Canceled => ECONNRESET
    case Error | Stall | TimedOut | Overflow => EPIPE
    case NoDevice => ESHUTDOWN
    case Skipped => ENOENT
  }

  datatype Response =
    | RetSubmit(seqnum: Seqnum, status: int, transfer: Option<Handle>)
    | RetUnlink(seqnum: Seqnum, status: int)

  /** Where one URB stands. */
  datatype Phase =
    | Received                    // the receiver holds the command and its transfer
    | Registered                  // in transfers_, not yet offered to the host stack
    | InFlight                    // the host stack has the transfer
    | Done(status: TrxStatus)     // completed by the host stack, callback not started
    | InCallback(status: TrxStatus) // the callback found the session still connected
    | Erased(status: TrxStatus)   // out of the table, transfers_mutex_ still held by the callback
    | Refused                     // the host stack refused it, still in the table
    | RefusedErased               // refused and out of the table, RET_SUBMIT owed
    | ResubmitFailed              // out of the table, mutex released, RET_SUBMIT owed
    | Draining                    // the callback found the session disconnected
    | Drained                     // ... and left the table
    | Answered(at: nat)           // history[at] is its RET_SUBMIT
    | Consumed(at: nat)           // history[at] is the RET_UNLINK that replaces its RET_SUBMIT
    | Dropped                     // given up by a disconnection
    | Rejected                    // receive_urb reported an error: the session ends

  /** A URB and its callback arguments: `args` is the transfer they own, `unlinkCmd` the pair
      (unlinked, unlink_cmd_seqnum). */
  datatype Urb = Urb(ep: Endpoint, isOut: bool, handle: Handle,
                     args: Option<Handle>, unlinkCmd: Option<Seqnum>, phase: Phase)

  /** What became of one CMD_UNLINK. */
  datatype Fate =
    | Pending             // being processed by the receiver
    | Marked              // recorded on a URB that has not been answered yet
    | Overwritten         // replaced by a later CMD_UNLINK for the same URB
    | Ignored             // arrived after the device was unplugged
    | Confirmed(at: nat)  // history[at] is its RET_UNLINK

  datatype Unlink = Unlink(target: Seqnum, fate: Fate)

  /** The receiver thread's program counter. */
  datatype Receiver =
    | Idle
    | Holding(s: Seqnum, transfer: Handle)
    | Submitting(s: Seqnum)
    | Refusing(s: Seqnum)
    | Answering(s: Seqnum)
    | Looking(c: Seqnum, target: Seqnum)
    | Cancelling(ep: Endpoint)
    | Replying(c: Seqnum, target: Seqnum)
    | Stopped
    | Disconnecting
    | Disconnected(waited: bool)

  datatype State = State(
    urbs: map<Seqnum, Urb>,          // every CMD_SUBMIT received
    table: set<Seqnum>,              // keys of transfers_
    pending: int,                    // pending_count_
    holder: Option<Seqnum>,          // callback holding transfers_mutex_ between two sections
    receiver: Receiver,
    stopping: bool,                  // all_transfer_should_stop
    removed: bool,                   // device_removed_
    unlinks: map<Seqnum, Unlink>,    // every CMD_UNLINK received
    history: seq<Response>,          // responses in the order they were enqueued
    taken: nat,                      // how many of them the sender (or the teardown) has disposed of
    issued: seq<Seqnum>,          // handle h was allocated for CMD_SUBMIT issued[h]
    freed: multiset<Handle>)         // calls of free_transfer_handle

  datatype Label =
    // receiver: receive_urb
    | RecvSubmit(s: Seqnum, ep: Endpoint, isOut: bool)
    | Reject
    | Tweak
    | Register
    | SubmitOk
    | SubmitRefused
    | SubmitErase
    | SubmitAnswer(notFound: bool)
    // receiver: handle_unlink_seqnum
    | RecvUnlink(c: Seqnum, target: Seqnum)
    | Lookup
    | CancelEndpoint(flushed: bool)
    | ReplyUnlink
    // receiver: on_disconnection
    | Disconnect
    | DisconnectCancel(ep: Endpoint, flushed: bool)
    | DisconnectDone
    // host stack
    | HostComplete(s: Seqnum, status: TrxStatus)
    | HostRemove
    // completion callback of URB s
    | CallbackStart(s: Seqnum)
    | CallbackResubmit(s: Seqnum, accepted: bool)
    | CallbackResubmitAnswer(s: Seqnum)
    | CallbackErase(s: Seqnum)
    | CallbackRespond(s: Seqnum)
    | CallbackDrain(s: Seqnum)
    | CallbackFree(s: Seqnum)
    // sender
    | Take

  const START: State :=
    State(map[], {}, 0, None, Idle, false, false, map[], [], 0, [], multiset{})

  /** Sequence numbers are fresh: not the number of an earlier command, not named by an earlier unlink. */
  predicate Fresh(st: State, s: Seqnum) {
    s !in st.urbs && s !in st.unlinks && forall c <- st.unlinks :: st.unlinks[c].target != s
  }

  predicate At(st: State, s: Seqnum, p: Phase) {
    s in st.urbs && st.urbs[s].phase == p
  }

  /** The guard of the resubmission branch: cancelled, but not because of its own unlink. */
  predicate MustResubmit(u: Urb) {
    u.phase == InCallback(Canceled) && u.unlinkCmd.None?
  }

  predicate Enabled(st: State, l: Label) {
    match l
    case RecvSubmit(s, _, _) => st.receiver == Idle && Fresh(st, s)
    case Reject => st.receiver.Holding?
    case Tweak => st.receiver.Holding?
    case Register => st.receiver.Holding? && st.holder.None?
    case SubmitOk => st.receiver.Submitting?
    case SubmitRefused => st.receiver.Submitting?
    case SubmitErase => st.receiver.Refusing? && st.holder.None?
    case SubmitAnswer(_) => st.receiver.Answering?
    case RecvUnlink(c, _) => st.receiver == Idle && Fresh(st, c)
    case Lookup => st.receiver.Looking? && st.holder.None?
    case CancelEndpoint(_) => st.receiver.Cancelling?
    case ReplyUnlink => st.receiver.Replying?
    case Disconnect => st.receiver == Idle || st.receiver == Stopped
    case DisconnectCancel(_, _) => st.receiver == Disconnecting
    case DisconnectDone => st.receiver == Disconnecting && st.pending == 0
    case HostComplete(s, _) => At(st, s, InFlight)
    case HostRemove => true
    case CallbackStart(s) => s in st.urbs && st.urbs[s].phase.Done?
    case CallbackResubmit(s, _) => s in st.urbs && MustResubmit(st.urbs[s]) && st.holder.None?
    case CallbackResubmitAnswer(s) => At(st, s, ResubmitFailed)
    case CallbackErase(s) =>
      s in st.urbs && st.urbs[s].phase.InCallback? && !MustResubmit(st.urbs[s]) && st.holder.None?
    case CallbackRespond(s) => s in st.urbs && st.urbs[s].phase.Erased? && st.holder == Some(s)
    case CallbackDrain(s) => At(st, s, Draining) && st.holder.None?
    case CallbackFree(s) => At(st, s, Drained)
    case Take => st.taken < |st.history|
  }

  // ----- building blocks -----

  function Moved(st: State, s: Seqnum, p: Phase): State
    requires s in st.urbs
  {
    st.(urbs := st.urbs[s := st.urbs[s].(phase := p)])
  }

  /** transfers_.erase(s) and pending_count_.fetch_sub(1), always one section. */
  function Unregistered(st: State, s: Seqnum): State {
    st.(table := st.table - {s}, pending := st.pending - 1)
  }

  function HandleBag(h: Option<Handle>): multiset<Handle> {
    if h.Some? then multiset{h.value} else multiset{}
  }

  /** cb->transfer.reset(): the arguments give up their transfer, which is freed. */
  function Released(st: State, s: Seqnum): State
    requires s in st.urbs
  {
    st.(urbs := st.urbs[s := st.urbs[s].(args := None)], freed := st.freed + HandleBag(st.urbs[s].args))
  }

  /** RET_SUBMIT for s is enqueued; `transfer` is what the response takes over. */
  function WithAnswer(st: State, s: Seqnum, status: int, transfer: Option<Handle>): State
    requires s in st.urbs
  {
    Moved(st, s, Answered(|st.history|)).(history := st.history + [RetSubmit(s, status, transfer)])
  }

  /** RET_UNLINK for command c is enqueued. */
  function WithConfirmation(st: State, c: Seqnum, status: int): State
    requires c in st.unlinks
  {
    st.(unlinks := st.unlinks[c := st.unlinks[c].(fate := Confirmed(|st.history|))],
        history := st.history + [RetUnlink(c, status)])
  }

  /** usb_host_endpoint_halt + flush + clear: everything in flight on the endpoint completes as CANCELED. */
  function Flushed(urbs: map<Seqnum, Urb>, ep: Endpoint): map<Seqnum, Urb> {
    map s <- urbs ::
      if urbs[s].ep == ep && urbs[s].phase == InFlight then urbs[s].(phase := Done(Canceled)) else urbs[s]
  }

  predicate MarkIsKnown(st: State, s: Seqnum) {
    s in st.urbs && (st.urbs[s].unlinkCmd.Some? ==> st.urbs[s].unlinkCmd.value in st.unlinks)
  }

  // ----- the sections, one function each -----

  /** A CMD_SUBMIT arrives with its freshly allocated transfer; after an unplug it is turned away at once. */
  function AfterArrival(st: State, s: Seqnum, ep: Endpoint, isOut: bool): State {
    var h := |st.issued|;
    var st1 := st.(issued := st.issued + [s]);
    if st.removed then
      st1.(urbs := st.urbs[s := Urb(ep, isOut, h, None, None, Rejected)],
           receiver := Stopped, freed := st.freed + multiset{h})
    else
      st1.(urbs := st.urbs[s := Urb(ep, isOut, h, None, None, Received)], receiver := Holding(s, h))
  }

  /** receive_urb reports an error (no interface for the endpoint); the command and its transfer are destroyed. */
  function AfterReject(st: State): State
    requires st.receiver.Holding? && st.receiver.s in st.urbs
  {
    Moved(st, st.receiver.s, Rejected).(receiver := Stopped, freed := st.freed + multiset{st.receiver.transfer})
  }

  /** tweak_special_requests handled the control request: answered at once, whatever the outcome. */
  function Tweaked(st: State): State
    requires st.receiver.Holding? && st.receiver.s in st.urbs
  {
    WithAnswer(st, st.receiver.s, OK, None).(receiver := Idle, freed := st.freed + multiset{st.receiver.transfer})
  }

  function AfterRegister(st: State): State
    requires st.receiver.Holding? && st.receiver.s in st.urbs
  {
    var s := st.receiver.s;
    st.(urbs := st.urbs[s := st.urbs[s].(args := Some(st.receiver.transfer), phase := Registered)],
        table := st.table + {s}, pending := st.pending + 1, receiver := Submitting(s))
  }

  function Submitted(st: State): State
    requires st.receiver.Submitting? && st.receiver.s in st.urbs
  {
    Moved(st, st.receiver.s, InFlight).(receiver := Idle)
  }

  function AfterRefusal(st: State): State
    requires st.receiver.Submitting? && st.receiver.s in st.urbs
  {
    Moved(st, st.receiver.s, Refused).(receiver := Refusing(st.receiver.s))
  }

  function RefusalErased(st: State): State
    requires st.receiver.Refusing? && st.receiver.s in st.urbs
  {
    Unregistered(Moved(st, st.receiver.s, RefusedErased), st.receiver.s).(receiver := Answering(st.receiver.s))
  }

  function RefusalAnswered(st: State, notFound: bool): State
    requires st.receiver.Answering? && st.receiver.s in st.urbs
  {
    WithAnswer(Released(st, st.receiver.s), st.receiver.s, EPIPE, None)
      .(receiver := if notFound then Stopped else Idle, removed := st.removed || notFound)
  }

  function UnlinkReceived(st: State, c: Seqnum, t: Seqnum): State {
    if st.removed then st.(unlinks := st.unlinks[c := Unlink(t, Ignored)])
    else st.(unlinks := st.unlinks[c := Unlink(t, Pending)], receiver := Looking(c, t))
  }

  /** The lookup found the URB: record the unlink on it (over any earlier one), then cancel its endpoint. */
  function AfterMark(st: State, c: Seqnum, t: Seqnum): State
    requires MarkIsKnown(st, t)
  {
    var u := st.urbs[t];
    var unlinks := if u.unlinkCmd.Some?
                   then st.unlinks[u.unlinkCmd.value := st.unlinks[u.unlinkCmd.value].(fate := Overwritten)]
                   else st.unlinks;
    st.(urbs := st.urbs[t := u.(unlinkCmd := Some(c))],
        unlinks := unlinks[c := Unlink(t, Marked)], receiver := Cancelling(u.ep))
  }

  function EndpointCancelled(st: State, ep: Endpoint, flushed: bool): State {
    if flushed then st.(urbs := Flushed(st.urbs, ep)) else st
  }

  function UnlinkReplied(st: State): State
    requires st.receiver.Replying? && st.receiver.c in st.unlinks
  {
    WithConfirmation(st, st.receiver.c, OK).(receiver := Idle)
  }

  function AfterDisconnect(st: State): State {
    st.(stopping := true, receiver := if st.removed then Disconnected(false) else Disconnecting)
  }

  function CallbackStarted(st: State, s: Seqnum): State
    requires s in st.urbs && st.urbs[s].phase.Done?
  {
    Moved(st, s, if st.stopping then Draining else InCallback(st.urbs[s].phase.status))
  }

  function ResubmitRefused(st: State, s: Seqnum): State
    requires s in st.urbs
  {
    Unregistered(Moved(st, s, ResubmitFailed), s)
  }

  function ResubmitAnswered(st: State, s: Seqnum): State
    requires s in st.urbs
  {
    WithAnswer(Released(st, s), s, EPIPE, None)
  }

  /** First half of a completion: out of the table, mutex kept. */
  function CompletionErased(st: State, s: Seqnum): State
    requires s in st.urbs && st.urbs[s].phase.InCallback?
  {
    Unregistered(Moved(st, s, Erased(st.urbs[s].phase.status)), s)
      .(holder := Some(s), removed := st.removed || st.urbs[s].phase.status == NoDevice)
  }

  /** Second half of a completion that was unlinked: RET_UNLINK instead of RET_SUBMIT, transfer freed. */
  function UnlinkCompleted(st: State, s: Seqnum): State
    requires MarkIsKnown(st, s) && st.urbs[s].phase.Erased? && st.urbs[s].unlinkCmd.Some?
  {
    var u := st.urbs[s];
    var n := |st.history|;
    st.(urbs := st.urbs[s := u.(args := None, phase := Consumed(n))],
        unlinks := st.unlinks[u.unlinkCmd.value := st.unlinks[u.unlinkCmd.value].(fate := Confirmed(n))],
        history := st.history + [RetUnlink(u.unlinkCmd.value, TrxStat2Error(u.phase.status))],
        freed := st.freed + HandleBag(u.args), holder := None)
  }

  /** Second half of a completion that was not: RET_SUBMIT, which takes the transfer over for IN. */
  function SubmitCompleted(st: State, s: Seqnum): State
    requires s in st.urbs && st.urbs[s].phase.Erased?
  {
    var u := st.urbs[s];
    st.(urbs := st.urbs[s := u.(args := None, phase := Answered(|st.history|))],
        history := st.history + [RetSubmit(s, TrxStat2Error(u.phase.status), if u.isOut then None else u.args)],
        freed := st.freed + (if u.isOut then HandleBag(u.args) else multiset{}), holder := None)
  }

  function AfterDrain(st: State, s: Seqnum): State
    requires s in st.urbs
  {
    Unregistered(Moved(st, s, Drained), s)
  }

  function AfterDrop(st: State, s: Seqnum): State
    requires s in st.urbs
  {
    Moved(Released(st, s), s, Dropped)
  }

  /** The sender pops the oldest response; destroying it frees the transfer it carries. */
  function Taken(st: State): State
    requires st.taken < |st.history|
  {
    var r := st.history[st.taken];
    st.(taken := st.taken + 1, freed := st.freed + (if r.RetSubmit? then HandleBag(r.transfer) else multiset{}))
  }

  /** What the receiver's and the callbacks' pointers refer to exists; KnownAlways shows it does in every good state. */
  predicate Known(st: State, l: Label) {
    && (st.receiver.Holding? || st.receiver.Submitting? || st.receiver.Refusing? || st.receiver.Answering?
        ==> st.receiver.s in st.urbs)
    && (st.receiver.Looking? || st.receiver.Replying? ==> st.receiver.c in st.unlinks)
    && (st.receiver.Looking? && st.receiver.target in st.table ==> MarkIsKnown(st, st.receiver.target))
    && (l.CallbackRespond? ==> MarkIsKnown(st, l.s))
  }

  function Apply(st: State, l: Label): State
    requires Known(st, l) && Enabled(st, l)
  {
    match l
    case RecvSubmit(s, ep, isOut) => AfterArrival(st, s, ep, isOut)
    case Reject => AfterReject(st)
    case Tweak => Tweaked(st)
    case Register => AfterRegister(st)
    case SubmitOk => Submitted(st)
    case SubmitRefused => AfterRefusal(st)
    case SubmitErase => RefusalErased(st)
    case SubmitAnswer(notFound) => RefusalAnswered(st, notFound)
    case RecvUnlink(c, t) => UnlinkReceived(st, c, t)
    case Lookup =>
      if st.receiver.target in st.table then AfterMark(st, st.receiver.c, st.receiver.target)
      else st.(receiver := Replying(st.receiver.c, st.receiver.target))
    case CancelEndpoint(flushed) => EndpointCancelled(st, st.receiver.ep, flushed).(receiver := Idle)
    case ReplyUnlink => UnlinkReplied(st)
    case Disconnect => AfterDisconnect(st)
    case DisconnectCancel(ep, flushed) => EndpointCancelled(st, ep, flushed)
    case DisconnectDone => st.(receiver := Disconnected(true))
    case HostComplete(s, status) => Moved(st, s, Done(status))
    case HostRemove => st.(removed := true)
    case CallbackStart(s) => CallbackStarted(st, s)
    case CallbackResubmit(s, accepted) => if accepted then Moved(st, s, InFlight) else ResubmitRefused(st, s)
    case CallbackResubmitAnswer(s) => ResubmitAnswered(st, s)
    case CallbackErase(s) => CompletionErased(st, s)
    case CallbackRespond(s) => if st.urbs[s].unlinkCmd.Some? then UnlinkCompleted(st, s) else SubmitCompleted(st, s)
    case CallbackDrain(s) => AfterDrain(st, s)
    case CallbackFree(s) => AfterDrop(st, s)
    case Take => Taken(st)
  }

  // ----- the invariant -----

  predicate InTable(p: Phase) {
    p.Registered? || p.InFlight? || p.Done? || p.InCallback? || p.Refused? || p.Draining?
  }

  /** The callback arguments exist and own the transfer. */
  predicate ArgsOwn(p: Phase) {
    InTable(p) || p.Erased? || p.RefusedErased? || p.ResubmitFailed? || p.Drained?
  }

  /** Finished without a response of its own still to come. */
  predicate Settled(p: Phase) {
    p.Answered? || p.Consumed? || p.Dropped? || p.Rejected?
  }

  predicate HandleIsFreed(st: State, s: Seqnum)
    requires s in st.urbs
  {
    var p := st.urbs[s].phase;
    || p.Consumed? || p.Dropped? || p.Rejected?
    || (p.Answered? && p.at < |st.history| && st.history[p.at].RetSubmit?
        && (st.history[p.at].transfer.None? || p.at < st.taken))
  }

  ghost predicate UrbOk(st: State, s: Seqnum)
    requires s in st.urbs
  {
    var u := st.urbs[s];
    var p := u.phase;
    // table, mutex and receiver agree with the phase
    && (s in st.table <==> InTable(p))
    && (p.Erased? <==> st.holder == Some(s))
    && (p == Received <==> st.receiver == Holding(s, u.handle))
    && (p == Registered <==> st.receiver == Submitting(s))
    && (p == Refused <==> st.receiver == Refusing(s))
    && (p == RefusedErased <==> st.receiver == Answering(s))
    && (p.Draining? || p.Drained? || p.Dropped? ==> st.stopping)
    // its response
    && (p.Answered? ==> p.at < |st.history| && st.history[p.at].RetSubmit? && st.history[p.at].seqnum == s)
    && (p.Consumed? ==> p.at < |st.history| && u.unlinkCmd.Some? && st.history[p.at].RetUnlink?
                        && st.history[p.at].seqnum == u.unlinkCmd.value)
    // its unlink mark
    && (u.unlinkCmd.Some? ==>
          && u.unlinkCmd.value in st.unlinks
          && st.unlinks[u.unlinkCmd.value] == Unlink(s, if p.Consumed? then Confirmed(p.at) else Marked)
          && (p.InFlight? || p.Done? || p.InCallback? || p.Erased? || p.Draining? || p.Drained? || p.Dropped?
              || p.Consumed?))
    // its transfer
    && u.handle < |st.issued| && st.issued[u.handle] == s
    && u.args == (if ArgsOwn(p) then Some(u.handle) else None)
    && st.freed[u.handle] == (if HandleIsFreed(st, s) then 1 else 0)
  }

  ghost predicate UnlinkOk(st: State, c: Seqnum)
    requires c in st.unlinks
  {
    var t := st.unlinks[c].target;
    match st.unlinks[c].fate
    case Pending => st.receiver == Looking(c, t) || st.receiver == Replying(c, t)
    case Marked => t in st.urbs && st.urbs[t].unlinkCmd == Some(c) && !st.urbs[t].phase.Consumed?
    case Overwritten => t in st.urbs && st.urbs[t].unlinkCmd != Some(c)
    case Ignored => st.removed
    case Confirmed(at) =>
      && at < |st.history| && st.history[at].RetUnlink? && st.history[at].seqnum == c
      && (At(st, t, Consumed(at)) || (st.history[at].status == OK && (t in st.urbs ==> OutOfTable(st.urbs[t].phase))))
  }

  /** Out of the table for good, with the mutex released. */
  predicate OutOfTable(p: Phase) {
    Settled(p) || p.ResubmitFailed? || p.Drained?
  }

  ghost predicate ResponseOk(st: State, i: nat)
    requires i < |st.history|
  {
    match st.history[i]
    case RetSubmit(s, _, transfer) =>
      At(st, s, Answered(i)) && (transfer.Some? ==> transfer.value == st.urbs[s].handle)
    case RetUnlink(c, _) => c in st.unlinks && st.unlinks[c].fate == Confirmed(i)
  }

  ghost predicate ReceiverOk(st: State) {
    match st.receiver
    case Holding(s, h) => At(st, s, Received) && st.urbs[s].handle == h
    case Submitting(s) => At(st, s, Registered)
    case Refusing(s) => At(st, s, Refused)
    case Answering(s) => At(st, s, RefusedErased)
    case Looking(c, t) => c in st.unlinks && st.unlinks[c] == Unlink(t, Pending)
    case Replying(c, t) =>
      && c in st.unlinks && st.unlinks[c] == Unlink(t, Pending)
      && (t in st.urbs ==> OutOfTable(st.urbs[t].phase))
    case Disconnected(waited) => waited ==> st.table == {}
    case _ => true
  }

  ghost predicate Inv(st: State) {
    && st.table <= st.urbs.Keys
    && st.pending == |st.table|
    && (st.holder.Some? ==> st.holder.value in st.urbs)
    && (st.stopping <==> st.receiver.Disconnecting? || st.receiver.Disconnected?)
    && st.taken <= |st.history|
    && (forall h :: 0 <= h < |st.issued| ==>
          st.issued[h] in st.urbs && st.urbs[st.issued[h]].handle == h)
    && (forall h :: h >= |st.issued| ==> st.freed[h] == 0)
    && ReceiverOk(st)
    && (forall s {:trigger UrbOk(st, s)} :: s in st.urbs ==> UrbOk(st, s))
    && (forall c {:trigger UnlinkOk(st, c)} :: c in st.unlinks ==> UnlinkOk(st, c))
    && (forall i: nat {:trigger ResponseOk(st, i)} :: i < |st.history| ==> ResponseOk(st, i))
  }
}
