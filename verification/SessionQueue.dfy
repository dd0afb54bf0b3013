/**
 The session's response queue: two deques, a mutex, an atomic flag and a condition variable.

 Producers (handler threads) enqueue under swap_mutex and later call wakeup_sender, which takes no lock and is two
 actions: raising the flag, and notifying.  The one sender thread runs sender_get_data; its wait is two actions as
 well: evaluating the predicate, and going to sleep (which releases the mutex).  Stopping the session is again two.
 */
module SessionQueue {
  import opened Basics
  import opened UrbProtocol

  /** The sender thread's program counter; from Parking to Swapped it holds swap_mutex. */
  datatype Sender =
    | Ready      // about to look at read_buffer
    | Parking    // the wait predicate was false, about to sleep
    | Sleeping
    | Locked     // the wait predicate was true
    | Swapped    // buffers exchanged, flag not yet cleared

  datatype Queue = Queue(
    history: seq<Response>,     // everything ever enqueued, in order
    taken: seq<Response>,       // everything the sender has taken out, in order
    readBuffer: seq<Response>,
    writeBuffer: seq<Response>,
    hasData: bool,
    stop: bool,                 // should_immediately_stop
    sender: Sender,
    unraised: set<nat>,         // enqueued, has_data not yet stored for it
    unnotified: set<nat>,       // has_data stored for it, notify_one not yet called
    missed: set<nat>,           // its notify_one came while the sender, since its last test, was Parking
    stopNotified: bool,         // the stop has been notified
    stopMissed: bool)           // ... while the sender, since its last test, was Parking

  datatype Action =
    | Enqueue(r: Response)
    | Raise(i: nat)
    | Notify(i: nat)
    | Stop
    | NotifyStop
    | Check
    | Sleep
    | Spurious
    | Swap
    | ClearFlag
    | Pop

  const EMPTY: Queue := Queue([], [], [], [], false, false, Ready, {}, {}, {}, false, false)

  predicate SenderHasLock(q: Queue) {
    q.sender.Parking? || q.sender.Locked? || q.sender.Swapped?
  }

  predicate Can(q: Queue, a: Action) {
    match a
    case Enqueue(_) => !SenderHasLock(q)
    case Raise(i) => i in q.unraised
    case Notify(i) => i in q.unnotified
    case Stop => true
    case NotifyStop => q.stop
    case Check => q.sender.Ready? && q.readBuffer == []
    case Sleep => q.sender.Parking?
    case Spurious => q.sender.Sleeping?
    case Swap => q.sender.Locked?
    case ClearFlag => q.sender.Swapped?
    case Pop => q.sender.Ready? && q.readBuffer != []
  }

  /** notify_one wakes a sleeping sender, and nobody else. */
  function Woken(q: Queue): Queue {
    q.(sender := if q.sender.Sleeping? then Ready else q.sender)
  }

  function Do(q: Queue, a: Action): Queue
    requires Can(q, a)
  {
    match a
    case Enqueue(r) =>
      q.(history := q.history + [r], writeBuffer := q.writeBuffer + [r], unraised := q.unraised + {|q.history|})
    case Raise(i) => q.(hasData := true, unraised := q.unraised - {i}, unnotified := q.unnotified + {i})
    case Notify(i) =>
      Woken(q.(unnotified := q.unnotified - {i}, missed := if q.sender.Parking? then q.missed + {i} else q.missed))
    case Stop => q.(stop := true)
    case NotifyStop => Woken(q.(stopNotified := true, stopMissed := q.stopMissed || q.sender.Parking?))
    case Check =>
      q.(sender := if q.hasData || q.stop then Locked else Parking, missed := {}, stopMissed := false)
    case Sleep => q.(sender := Sleeping)
    case Spurious => q.(sender := Ready)
    case Swap =>
      if q.writeBuffer != [] then q.(readBuffer := q.writeBuffer, writeBuffer := q.readBuffer, sender := Swapped)
      else q.(sender := Ready)
    case ClearFlag => q.(hasData := false, sender := Ready)
    case Pop => q.(taken := q.taken + [q.readBuffer[0]], readBuffer := q.readBuffer[1..])
  }

  /** The response with enqueue index i is still in write_buffer. */
  predicate InWriteBuffer(q: Queue, i: nat) {
    |q.taken| + |q.readBuffer| <= i < |q.history|
  }

  /** Its producer has returned from wakeup_sender. */
  predicate FullyWoken(q: Queue, i: nat) {
    i !in q.unraised && i !in q.unnotified
  }

  predicate Waiting(q: Queue) {
    q.sender.Parking? || q.sender.Sleeping?
  }

  ghost predicate QueueInv(q: Queue) {
    // the two deques are one FIFO
    && q.taken + q.readBuffer + q.writeBuffer == q.history
    && (SenderHasLock(q) && !q.sender.Swapped? ==> q.readBuffer == [])
    && (q.sender.Sleeping? ==> q.readBuffer == [])
    && (q.sender.Swapped? ==> q.writeBuffer == [])
    // an enqueue followed by its store leaves the flag up until the response is picked up
    && (forall i | InWriteBuffer(q, i) && i !in q.unraised :: q.hasData)
    && (forall i <- q.unraised :: i < |q.history|)
    && (forall i <- q.unnotified :: i < |q.history| && i !in q.unraised)
    // a waiting sender has only missed notifications behind it
    && (forall i <- q.missed :: i < |q.history| && FullyWoken(q, i))
    && (Waiting(q) ==> forall i | InWriteBuffer(q, i) && FullyWoken(q, i) :: i in q.missed)
    && (q.stopNotified ==> q.stop)
    && (q.stopMissed ==> q.stopNotified)
    && (Waiting(q) ==> (q.stopNotified ==> q.stopMissed))
  }

  lemma ActionKeepsInv(q: Queue, a: Action)
    requires QueueInv(q) && Can(q, a)
    ensures QueueInv(Do(q, a))
  {
    var q' := Do(q, a);
    match a
    case Enqueue(r) =>
      assert q'.taken + q'.readBuffer + q'.writeBuffer == q.taken + q.readBuffer + q.writeBuffer + [r];
      assert forall i | InWriteBuffer(q', i) && i !in q'.unraised :: InWriteBuffer(q, i) && i !in q.unraised;
    case Swap => assert q'.taken + q'.readBuffer + q'.writeBuffer == q.history;
    case Pop =>
      assert q'.taken + q'.readBuffer + q'.writeBuffer == q.history;
      assert forall i | InWriteBuffer(q', i) :: InWriteBuffer(q, i);
    case _ => assert forall i | InWriteBuffer(q', i) :: InWriteBuffer(q, i);
  }

  // ----- whole runs -----

  ghost predicate ActsAt(queues: seq<Queue>, actions: seq<Action>, i: nat)
    requires i < |actions| && |queues| == |actions| + 1
  {
    Can(queues[i], actions[i]) && queues[i + 1] == Do(queues[i], actions[i])
  }

  ghost predicate IsQueueRun(queues: seq<Queue>, actions: seq<Action>) {
    && |queues| == |actions| + 1
    && queues[0] == EMPTY
    && forall i: nat :: i < |actions| ==> ActsAt(queues, actions, i)
  }

  lemma {:induction false} RunKeepsInv(queues: seq<Queue>, actions: seq<Action>, k: nat)
    requires IsQueueRun(queues, actions) && k <= |actions|
    ensures QueueInv(queues[k])
  {
    if k != 0 {
      RunKeepsInv(queues, actions, k - 1);
      assert ActsAt(queues, actions, k - 1);
      ActionKeepsInv(queues[k - 1], actions[k - 1]);
    }
  }

  /** Under every interleaving the two deques are one FIFO: what was taken out, then read_buffer, then write_buffer. */
  lemma TwoDequesAreOneFifo(queues: seq<Queue>, actions: seq<Action>, k: nat)
    requires IsQueueRun(queues, actions) && k <= |actions|
    ensures var q := queues[k]; q.taken + q.readBuffer + q.writeBuffer == q.history && q.taken <= q.history
  {
    RunKeepsInv(queues, actions, k);
    var q := queues[k];
    assert q.history == q.taken + (q.readBuffer + q.writeBuffer);
  }

  /** A response whose producer has raised the flag, and that is still in write_buffer, keeps has_data up. */
  lemma WokenResponseKeepsFlagUp(queues: seq<Queue>, actions: seq<Action>, k: nat, i: nat)
    requires IsQueueRun(queues, actions) && k <= |actions|
    ensures InWriteBuffer(queues[k], i) && i !in queues[k].unraised ==> queues[k].hasData
  {
    RunKeepsInv(queues, actions, k);
  }

  // ----- notifications that fall into the gap -----

  /** Action a was done in the gap between the sender's last test of the wait predicate and its going to sleep. */
  ghost predicate InGap(queues: seq<Queue>, actions: seq<Action>, k: nat, a: Action)
    requires k <= |actions| < |queues|
  {
    exists j :: 0 <= j < k && actions[j] == a && queues[j].sender.Parking? && !TestedSince(actions, j, k)
  }

  predicate TestedSince(actions: seq<Action>, j: nat, k: nat)
    requires k <= |actions|
  {
    exists m :: j < m < k && actions[m] == Check
  }

  lemma GapStep(queues: seq<Queue>, actions: seq<Action>, k: nat, a: Action)
    requires k < |actions| < |queues|
    ensures InGap(queues, actions, k + 1, a)
      <==> ((actions[k] == a && queues[k].sender.Parking?) || (actions[k] != Check && InGap(queues, actions, k, a)))
  {
    if InGap(queues, actions, k + 1, a) {
      var j :| 0 <= j < k + 1 && actions[j] == a && queues[j].sender.Parking? && !TestedSince(actions, j, k + 1);
      if j < k {
        assert actions[k] != Check;
        assert !TestedSince(actions, j, k);
      }
    }
    if actions[k] != Check && InGap(queues, actions, k, a) {
      var j :| 0 <= j < k && actions[j] == a && queues[j].sender.Parking? && !TestedSince(actions, j, k);
      assert !TestedSince(actions, j, k + 1);
    }
    if actions[k] == a && queues[k].sender.Parking? {
      assert !TestedSince(actions, k, k + 1);
    }
  }

  lemma MissedStep(q: Queue, a: Action, i: nat)
    requires Can(q, a)
    ensures i in Do(q, a).missed <==> ((a == Notify(i) && q.sender.Parking?) || (a != Check && i in q.missed))
    ensures Do(q, a).stopMissed <==> ((a == NotifyStop && q.sender.Parking?) || (a != Check && q.stopMissed))
  {
  }

  /** The bookkeeping of missed notifications is right. */
  lemma {:induction false} MissedMeansInGap(queues: seq<Queue>, actions: seq<Action>, k: nat, i: nat)
    requires IsQueueRun(queues, actions) && k <= |actions|
    ensures i in queues[k].missed <==> InGap(queues, actions, k, Notify(i))
    ensures queues[k].stopMissed <==> InGap(queues, actions, k, NotifyStop)
  {
    if k != 0 {
      MissedMeansInGap(queues, actions, k - 1, i);
      assert ActsAt(queues, actions, k - 1);
      MissedStep(queues[k - 1], actions[k - 1], i);
      GapStep(queues, actions, k - 1, Notify(i));
      GapStep(queues, actions, k - 1, NotifyStop);
    }
  }

  /**
   The flag alone does not wake a sleeping thread.  Under every interleaving, a response in write_buffer is slept on
   although its producer has returned from wakeup_sender, if and only if its notification came between the sender's
   last test of the wait predicate and its going to sleep.
   */
  lemma SleepsOnWokenExactlyWhenMissed(queues: seq<Queue>, actions: seq<Action>, k: nat, i: nat)
    requires IsQueueRun(queues, actions) && k <= |actions|
    ensures queues[k].sender.Sleeping? && InWriteBuffer(queues[k], i) ==>
              (FullyWoken(queues[k], i) <==> InGap(queues, actions, k, Notify(i)))
  {
    RunKeepsInv(queues, actions, k);
    MissedMeansInGap(queues, actions, k, i);
  }

  /** The same of the stop: it is slept through, once notified, if and only if its notification fell into that gap. */
  lemma SleepsThroughStopExactlyWhenMissed(queues: seq<Queue>, actions: seq<Action>, k: nat)
    requires IsQueueRun(queues, actions) && k <= |actions|
    ensures queues[k].sender.Sleeping? ==>
              ((exists j :: 0 <= j < k && actions[j] == NotifyStop) <==> InGap(queues, actions, k, NotifyStop))
  {
    RunKeepsInv(queues, actions, k);
    MissedMeansInGap(queues, actions, k, 0);
    StopNotifiedMeans(queues, actions, k);
  }

  lemma {:induction false} StopNotifiedMeans(queues: seq<Queue>, actions: seq<Action>, k: nat)
    requires IsQueueRun(queues, actions) && k <= |actions|
    ensures queues[k].stopNotified <==> exists j :: 0 <= j < k && actions[j] == NotifyStop
  {
    if k != 0 {
      StopNotifiedMeans(queues, actions, k - 1);
      assert ActsAt(queues, actions, k - 1);
    }
  }

  // ----- the flag up with nothing to send -----

  /** Tested with read_buffer empty, the wait passes and yet there is nothing to exchange, exactly if the flag or the
      stop is up and write_buffer is empty: the flag then stays up, and the sender is back where it was. */
  lemma PassesWithoutDataExactlyWhen(q: Queue)
    requires Can(q, Check)
    ensures Do(q, Check).sender.Locked? && Do(Do(q, Check), Swap).readBuffer == []
       <==> (q.hasData || q.stop) && q.writeBuffer == []
    ensures (q.hasData || q.stop) && q.writeBuffer == [] ==>
              Do(Do(q, Check), Swap) == q.(missed := {}, stopMissed := false)
  {
  }

  /** Action j raised the flag, and it has not been cleared since. */
  ghost predicate RaisedSince(actions: seq<Action>, j: nat, k: nat)
    requires k <= |actions|
  {
    j < k && actions[j].Raise? && forall m | j < m < k :: actions[m] != ClearFlag
  }

  lemma {:induction false} FlagMeansRaised(queues: seq<Queue>, actions: seq<Action>, k: nat)
    requires IsQueueRun(queues, actions) && k <= |actions|
    ensures queues[k].hasData <==> exists j: nat :: RaisedSince(actions, j, k)
  {
    if k != 0 {
      FlagMeansRaised(queues, actions, k - 1);
      var q, a := queues[k - 1], actions[k - 1];
      assert ActsAt(queues, actions, k - 1);
      if a.Raise? { assert RaisedSince(actions, k - 1, k); }
      if q.hasData && a != ClearFlag {
        var j: nat :| RaisedSince(actions, j, k - 1);
        assert RaisedSince(actions, j, k);
      }
      if j: nat :| RaisedSince(actions, j, k) && j != k - 1 {
        assert RaisedSince(actions, j, k - 1) && actions[k - 1] != ClearFlag;
      }
    }
  }

  lemma StaysUntilCleared(q: Queue, a: Action, i: nat)
    requires QueueInv(q) && Can(q, a) && a != ClearFlag && (InWriteBuffer(q, i) || q.sender.Swapped?)
    ensures InWriteBuffer(Do(q, a), i) || Do(q, a).sender.Swapped?
  {
  }

  /** A response that was in write_buffer when its flag was raised is there until the exchange that clears the flag. */
  lemma {:induction false} RaisedStays(queues: seq<Queue>, actions: seq<Action>, j: nat, k: nat)
    requires IsQueueRun(queues, actions) && k <= |actions| && RaisedSince(actions, j, k)
    requires InWriteBuffer(queues[j], actions[j].i)
    ensures InWriteBuffer(queues[k], actions[j].i) || queues[k].sender.Swapped?
    decreases k
  {
    var q, a := queues[k - 1], actions[k - 1];
    assert ActsAt(queues, actions, k - 1);
    RunKeepsInv(queues, actions, k - 1);
    if k > j + 1 {
      assert RaisedSince(actions, j, k - 1);
      RaisedStays(queues, actions, j, k - 1);
    }
    StaysUntilCleared(q, a, actions[j].i);
  }

  /** The flag is raised for a response that the sender has already exchanged. */
  ghost predicate RaisedLate(queues: seq<Queue>, actions: seq<Action>, j: nat)
    requires j < |actions| < |queues|
  {
    actions[j].Raise? && !InWriteBuffer(queues[j], actions[j].i)
  }

  /**
   Under every interleaving, between two calls: with nothing in write_buffer the flag is up if and only if, since it was
   last cleared, a producer has raised it for a response that the sender had exchanged before.
   */
  lemma FlagWithoutDataExactlyWhen(queues: seq<Queue>, actions: seq<Action>, k: nat)
    requires IsQueueRun(queues, actions) && k <= |actions|
    requires queues[k].writeBuffer == [] && !queues[k].sender.Swapped?
    ensures queues[k].hasData <==> exists j: nat :: RaisedSince(actions, j, k) && RaisedLate(queues, actions, j)
  {
    FlagMeansRaised(queues, actions, k);
    RunKeepsInv(queues, actions, k);
    var q := queues[k];
    assert q.history == q.taken + q.readBuffer;
    if j: nat :| RaisedSince(actions, j, k) {
      if InWriteBuffer(queues[j], actions[j].i) { RaisedStays(queues, actions, j, k); }
      assert RaisedLate(queues, actions, j);
    }
  }

  // ----- it does happen -----

  lemma ExtendRun(queues: seq<Queue>, actions: seq<Action>, a: Action)
    requires IsQueueRun(queues, actions) && Can(queues[|actions|], a)
    ensures IsQueueRun(queues + [Do(queues[|actions|], a)], actions + [a])
  {
    var more, done := queues + [Do(queues[|actions|], a)], actions + [a];
    forall i: nat | i < |done| ensures ActsAt(more, done, i) {
      if i < |actions| { assert ActsAt(queues, actions, i); }
    }
  }

  /** Three more actions. */
  lemma ExtendByThree(queues: seq<Queue>, actions: seq<Action>, a: Action, b: Action, c: Action)
    returns (more: seq<Queue>)
    requires IsQueueRun(queues, actions)
    requires var q := queues[|actions|]; Can(q, a) && Can(Do(q, a), b) && Can(Do(Do(q, a), b), c)
    ensures IsQueueRun(more, actions + [a] + [b] + [c])
    ensures more[|actions| + 3] == Do(Do(Do(queues[|actions|], a), b), c)
  {
    ExtendRun(queues, actions, a);
    more := queues + [Do(queues[|actions|], a)];
    ExtendRun(more, actions + [a], b);
    more := more + [Do(more[|actions| + 1], b)];
    ExtendRun(more, actions + [a] + [b], c);
    more := more + [Do(more[|actions| + 2], c)];
  }

  /** The only response is enqueued and woken for, yet only a spurious wakeup, a stop, or the next response gets it
      sent. */
  lemma MissedWakeupExample(r: Response) returns (queues: seq<Queue>, actions: seq<Action>)
    ensures IsQueueRun(queues, actions)
    ensures var q := queues[|actions|];
            && q.sender.Sleeping? && q.writeBuffer == [r] && FullyWoken(q, 0)
            && forall a | Can(q, a) :: a.Enqueue? || a.Stop? || a.Spurious?
  {
    queues, actions := [EMPTY, Do(EMPTY, Enqueue(r))], [Enqueue(r)];
    queues := ExtendByThree(queues, actions, Check, Raise(0), Notify(0));
    actions := actions + [Check] + [Raise(0)] + [Notify(0)];
    ExtendRun(queues, actions, Sleep);
    queues, actions := queues + [Do(queues[4], Sleep)], actions + [Sleep];
  }

  /** A session being stopped can lose its only notification the same way: the sender, and whoever joins it, then waits
      for a spurious wakeup. */
  lemma MissedStopExample() returns (queues: seq<Queue>, actions: seq<Action>)
    ensures IsQueueRun(queues, actions) && NotifyStop in actions
    ensures var q := queues[|actions|]; q.sender.Sleeping? && q.stop && !q.hasData && q.unraised == {}
  {
    queues, actions := [EMPTY], [];
    queues := ExtendByThree(queues, actions, Check, Stop, NotifyStop);
    actions := actions + [Check] + [Stop] + [NotifyStop];
    ExtendRun(queues, actions, Sleep);
    queues, actions := queues + [Do(queues[3], Sleep)], actions + [Sleep];
  }

  /** The flag can be up under a sleeping sender with nothing missed: a producer is between store and notification. */
  lemma RaisedButNotNotified(r: Response) returns (queues: seq<Queue>, actions: seq<Action>)
    ensures IsQueueRun(queues, actions)
    ensures var q := queues[|actions|];
            q.sender.Sleeping? && q.hasData && q.unnotified == {0} && forall i :: Notify(i) !in actions
  {
    queues, actions := [EMPTY, Do(EMPTY, Enqueue(r))], [Enqueue(r)];
    queues := ExtendByThree(queues, actions, Check, Raise(0), Sleep);
    actions := actions + [Check] + [Raise(0)] + [Sleep];
  }

  /** Two responses are exchanged before the second one's flag is raised ... */
  lemma ExchangedBeforeRaised(r: Response) returns (queues: seq<Queue>, actions: seq<Action>)
    ensures IsQueueRun(queues, actions) && |actions| == 6
    ensures queues[6] == EMPTY.(history := [r, r], readBuffer := [r, r], unraised := {1}, unnotified := {0})
  {
    queues, actions := [EMPTY], [];
    queues := ExtendByThree(queues, actions, Enqueue(r), Raise(0), Enqueue(r));
    actions := actions + [Enqueue(r)] + [Raise(0)] + [Enqueue(r)];
    queues := ExtendByThree(queues, actions, Check, Swap, ClearFlag);
    actions := actions + [Check] + [Swap] + [ClearFlag];
  }

  /** ... and when both are sent, the sender finds the flag up and nothing to exchange, over and over: only another
      response or a stop ends that. */
  lemma SpinExample(r: Response) returns (queues: seq<Queue>, actions: seq<Action>)
    ensures IsQueueRun(queues, actions)
    ensures var q := queues[|actions|];
            && Can(q, Check) && q.hasData && !q.stop && Do(Do(q, Check), Swap) == q && q.taken == [r, r]
            && forall a | Can(q, a) :: a.Enqueue? || a.Stop? || a.Check?
  {
    queues, actions := ExchangedBeforeRaised(r);
    queues := ExtendByThree(queues, actions, Raise(1), Notify(0), Notify(1));
    actions := actions + [Raise(1)] + [Notify(0)] + [Notify(1)];
    assert queues[9] == EMPTY.(history := [r, r], readBuffer := [r, r], hasData := true);
    ExtendRun(queues, actions, Pop);
    queues, actions := queues + [Do(queues[9], Pop)], actions + [Pop];
    ExtendRun(queues, actions, Pop);
    queues, actions := queues + [Do(queues[10], Pop)], actions + [Pop];
  }

  // ----- the code -----

  /** Session's queue as the code updates it; every method is one atomic action. */
  class Session {
    var writeBuffer: seq<Response>
    var readBuffer: seq<Response>
    var hasData: bool
    var shouldStop: bool
    ghost var model: Queue

    ghost predicate Valid()
      reads this
    {
      && QueueInv(model)
      && writeBuffer == model.writeBuffer && readBuffer == model.readBuffer
      && hasData == model.hasData && shouldStop == model.stop
    }

    constructor ()
      ensures Valid() && model == EMPTY
    {
      writeBuffer, readBuffer, hasData, shouldStop := [], [], false, false;
      model := EMPTY;
    }

    /** enqueue_ret_submit and enqueue_ret_unlink. */
    method EnqueueResponse(r: Response)
      requires Valid() && !SenderHasLock(model)
      modifies this
      ensures Valid() && model == Do(old(model), Enqueue(r))
    {
      writeBuffer := writeBuffer + [r];
      ActionKeepsInv(model, Enqueue(r));
      model := Do(model, Enqueue(r));
    }

    /** First half of wakeup_sender, on behalf of the response with enqueue index i. */
    method StoreHasData(ghost i: nat)
      requires Valid() && i in model.unraised
      modifies this
      ensures Valid() && model == Do(old(model), Raise(i))
    {
      hasData := true;
      ActionKeepsInv(model, Raise(i));
      model := Do(model, Raise(i));
    }

    /** Second half; which thread it wakes is the condition variable's business. */
    ghost method NotifyOne(i: nat)
      requires Valid() && i in model.unnotified
      modifies this`model
      ensures Valid() && model == Do(old(model), Notify(i))
    {
      ActionKeepsInv(model, Notify(i));
      model := Do(model, Notify(i));
    }

    /** wakeup_sender when nothing comes between its halves. */
    method WakeupSender(ghost i: nat)
      requires Valid() && i in model.unraised
      modifies this
      ensures Valid() && model == Do(Do(old(model), Raise(i)), Notify(i))
    {
      StoreHasData(i);
      NotifyOne(i);
    }

    /** sender_get_data with read_buffer empty: take the mutex and evaluate the wait predicate. */
    method CheckForData() returns (ready: bool)
      requires Valid() && model.sender.Ready? && readBuffer == []
      modifies this
      ensures Valid() && model == Do(old(model), Check) && (ready <==> model.sender.Locked?)
    {
      ready := hasData || shouldStop;
      ActionKeepsInv(model, Check);
      model := Do(model, Check);
    }

    /** The wait is over: exchange the buffers if there is something to send. */
    method SwapBuffers() returns (swapped: bool)
      requires Valid() && model.sender.Locked?
      modifies this
      ensures Valid() && model == Do(old(model), Swap) && (swapped <==> model.sender.Swapped?)
    {
      swapped := writeBuffer != [];
      if swapped {
        readBuffer, writeBuffer := writeBuffer, readBuffer;
      }
      ActionKeepsInv(model, Swap);
      model := Do(model, Swap);
    }

    method ClearHasData()
      requires Valid() && model.sender.Swapped?
      modifies this
      ensures Valid() && model == Do(old(model), ClearFlag)
    {
      hasData := false;
      ActionKeepsInv(model, ClearFlag);
      model := Do(model, ClearFlag);
    }

    /** The tail of sender_get_data: the oldest response, or nothing. */
    method TakeFront() returns (r: Option<Response>)
      requires Valid() && model.sender.Ready?
      modifies this
      ensures Valid()
      ensures if old(readBuffer) == [] then r == None && model == old(model)
              else model == Do(old(model), Pop) && r == Some(model.history[|old(model.taken)|])
    {
      if readBuffer == [] {
        r := None;
      } else {
        r := Some(readBuffer[0]);
        assert model.history[|model.taken|] == (model.taken + model.readBuffer + model.writeBuffer)[|model.taken|];
        readBuffer := readBuffer[1..];
        ActionKeepsInv(model, Pop);
        model := Do(model, Pop);
      }
    }
  }
}
