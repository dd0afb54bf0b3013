/**
 The CDC-ACM transmit path as a byte stream: a bounded buffer of bytes the application has sent, waiting bulk-IN
 requests, and a drain that marries the two.  One step is one section under the handler's locks.
 */
module CdcTransmit {
  import opened Basics
  import opened RequestQueue
  import opened RequestLedger

  datatype State = State(
    buffer: seq<byte>,         // transmit buffer, oldest byte first
    capacity: nat,
    ledger: Ledger,            // bulk-IN requests: waiting, answered, taken back
    disconnected: bool,
    sent: seq<Response>,       // answers handed to the session
    accepted: seq<byte>,       // bytes of this connection that were answered or are buffered
    flushing: nat)             // blocking senders between their two phases

  datatype Section =
    | Connect
    | DisconnectBuffer
    | DisconnectRequests
    | Send(data: seq<byte>)
    | BulkIn(ep: byte, request: Request, supplied: seq<byte>)  // supplied: what the subclass offers if asked
    | Unlink(target: u32)
    | BlockingBegin(data: seq<byte>)   // phase 1, on entry
    | BlockingWake(data: seq<byte>)    // phase 1, after waiting for room
    | BlockingFlush                    // phase 2
    | SetCapacity(capacity: nat)

  function Payloads(sent: seq<Response>): seq<byte> {
    FirstPayloads(sent, |sent|)
  }

  /** The bytes of the first n answers. */
  function FirstPayloads(sent: seq<Response>, n: nat): seq<byte>
    requires n <= |sent|
  {
    if n == 0 then [] else FirstPayloads(sent, n - 1) + sent[n - 1].data
  }

  // ----- the drain -----

  /** Answers the oldest request of one endpoint from the buffer; nothing if either is missing. */
  ghost function ServeOne(st: State, ep: byte): State {
    var queue := At(st.ledger.waiting, ep);
    if st.buffer == [] || queue == [] then st
    else
      var n := Min(|st.buffer|, queue[0].length);
      st.(buffer := st.buffer[n..], ledger := Take(st.ledger, ep),
          sent := st.sent + [Response(queue[0].seqnum, st.buffer[..n])])
  }

  ghost function ServeAll(st: State, eps: seq<byte>): State {
    if eps == [] then st else ServeOne(ServeAll(st, eps[..|eps| - 1]), eps[|eps| - 1])
  }

  ghost predicate Settled(st: State) {
    st.buffer == [] || NoneWaiting(st.ledger.waiting)
  }

  /** `end` is `st` after answering requests, in some order of endpoints, until bytes or requests run out. */
  ghost predicate Drained(st: State, end: State) {
    Settled(end) && exists eps: seq<byte> :: end == ServeAll(st, eps)
  }

  // ----- the sections -----

  /** Takes in as many bytes as fit. */
  ghost function Fill(st: State, data: seq<byte>): State {
    var taken := data[..Min(|data|, if st.capacity > |st.buffer| then st.capacity - |st.buffer| else 0)];
    st.(buffer := st.buffer + taken, accepted := st.accepted + taken)
  }

  ghost function Enqueued(st: State, ep: byte, request: Request): State {
    st.(ledger := Ask(st.ledger, ep, request))
  }

  /** Answers a request directly; what it has no room for goes to the buffer. */
  ghost function Answered(st: State, ep: byte, request: Request, data: seq<byte>): State {
    var n := Min(|data|, request.length);
    Fill(st.(ledger := Pass(st.ledger, ep, request),
             accepted := st.accepted + data[..n],
             sent := st.sent + [Response(request.seqnum, data[..n])]),
         data[n..])
  }

  ghost predicate Full(st: State) {
    |st.buffer| >= st.capacity
  }

  /** A blocking sender's write: with room in the buffer it goes on to its second phase, otherwise it waits. */
  ghost function Block(st: State, data: seq<byte>): State {
    if st.disconnected || Full(st) then st else Fill(st, data).(flushing := st.flushing + 1)
  }

  ghost predicate Step(st: State, section: Section, end: State) {
    match section
    case Connect =>
      && st.ledger.waiting == map[]
      && end == st.(disconnected := false, sent := [], accepted := st.buffer, ledger := Fresh())
    case DisconnectBuffer => end == st.(disconnected := true, buffer := [], accepted := Payloads(st.sent))
    case DisconnectRequests => end == st.(ledger := Emptied(st.ledger))
    case Send(data) => Drained(Fill(st, data), end)
    case BulkIn(ep, request, supplied) =>
      if st.buffer == [] && At(st.ledger.waiting, ep) == [] then
        end == if supplied == [] then Enqueued(st, ep, request) else Answered(st, ep, request, supplied)
      else Drained(Enqueued(st, ep, request), end)
    case Unlink(target) => Unlinked(st.ledger, target, end.ledger) && end == st.(ledger := end.ledger)
    case BlockingBegin(data) =>
      if !st.disconnected && Full(st) then exists mid: State :: Drained(st, mid) && end == Block(mid, data)
      else end == Block(st, data)
    case BlockingWake(data) => end == Block(st, data)
    case BlockingFlush => st.flushing > 0 && Drained(st.(flushing := st.flushing - 1), end)
    case SetCapacity(capacity) =>
      var kept := st.buffer[..Min(|st.buffer|, capacity)];
      end == st.(capacity := capacity, buffer := kept, accepted := Payloads(st.sent) + kept)
  }

  // ----- invariant -----

  /** Bytes answered, then bytes still buffered, are exactly the bytes accepted, in order. */
  ghost predicate Conserved(st: State) {
    Payloads(st.sent) + st.buffer == st.accepted && |st.buffer| <= st.capacity
  }

  lemma PayloadsSnoc(sent: seq<Response>, r: Response)
    ensures Payloads(sent + [r]) == Payloads(sent) + r.data
  {
    EarlierPayloads(sent, r, |sent|);
  }

  lemma {:induction false} EarlierPayloads(sent: seq<Response>, r: Response, n: nat)
    requires n <= |sent|
    ensures FirstPayloads(sent + [r], n) == FirstPayloads(sent, n)
  {
    if n != 0 { EarlierPayloads(sent, r, n - 1); }
  }

  lemma ServeOneConserves(st: State, ep: byte)
    requires Conserved(st)
    ensures Conserved(ServeOne(st, ep))
  {
    var queue := At(st.ledger.waiting, ep);
    if st.buffer != [] && queue != [] {
      var n := Min(|st.buffer|, queue[0].length);
      PayloadsSnoc(st.sent, Response(queue[0].seqnum, st.buffer[..n]));
      assert Payloads(st.sent) + st.buffer[..n] + st.buffer[n..] == Payloads(st.sent) + st.buffer;
    }
  }

  lemma {:induction false} ServeAllConserves(st: State, eps: seq<byte>)
    requires Conserved(st)
    ensures Conserved(ServeAll(st, eps))
  {
    if eps != [] {
      ServeAllConserves(st, eps[..|eps| - 1]);
      ServeOneConserves(ServeAll(st, eps[..|eps| - 1]), eps[|eps| - 1]);
    }
  }

  lemma {:induction false} ServeAllAcceptsNothing(st: State, eps: seq<byte>)
    ensures ServeAll(st, eps).accepted == st.accepted && ServeAll(st, eps).flushing == st.flushing
  {
    if eps != [] { ServeAllAcceptsNothing(st, eps[..|eps| - 1]); }
  }

  lemma DrainConserves(st: State, end: State)
    requires Conserved(st) && Drained(st, end)
    ensures Conserved(end) && Settled(end) && end.accepted == st.accepted && end.flushing == st.flushing
  {
    var eps :| end == ServeAll(st, eps);
    ServeAllConserves(st, eps);
    ServeAllAcceptsNothing(st, eps);
  }

  lemma FillConserves(st: State, data: seq<byte>)
    requires Conserved(st)
    ensures Conserved(Fill(st, data))
  {
    var taken := data[..Min(|data|, st.capacity - |st.buffer|)];
    assert Payloads(st.sent) + (st.buffer + taken) == Payloads(st.sent) + st.buffer + taken;
  }

  lemma AnswerConserves(st: State, ep: byte, request: Request, data: seq<byte>)
    requires Conserved(st) && st.buffer == []
    ensures Conserved(Answered(st, ep, request, data))
  {
    var n := Min(|data|, request.length);
    PayloadsSnoc(st.sent, Response(request.seqnum, data[..n]));
    var answered := st.(accepted := st.accepted + data[..n], sent := st.sent + [Response(request.seqnum, data[..n])]);
    FillConserves(answered, data[n..]);
  }

  lemma BlockConserves(st: State, data: seq<byte>)
    requires Conserved(st)
    ensures Conserved(Block(st, data))
  {
    FillConserves(st, data);
  }

  /** Every section conserves the stream of the bytes it accepted. */
  lemma StepConserves(st: State, section: Section, end: State)
    requires Conserved(st) && Step(st, section, end)
    ensures Conserved(end)
  {
    match section
    case Send(data) =>
      FillConserves(st, data);
      DrainConserves(Fill(st, data), end);
    case BulkIn(ep, request, supplied) =>
      if st.buffer == [] && At(st.ledger.waiting, ep) == [] {
        if supplied != [] { AnswerConserves(st, ep, request, supplied); }
      } else {
        DrainConserves(Enqueued(st, ep, request), end);
      }
    case BlockingBegin(data) =>
      if !st.disconnected && Full(st) {
        var mid :| Drained(st, mid) && end == Block(mid, data);
        DrainConserves(st, mid);
        BlockConserves(mid, data);
      } else {
        BlockConserves(st, data);
      }
    case BlockingWake(data) => BlockConserves(st, data);
    case BlockingFlush => DrainConserves(st.(flushing := st.flushing - 1), end);
    case _ =>
  }

  // ----- no byte waits while a request waits -----

  /** The one way to strand a byte: the subclass over-supplies one endpoint while another has a request waiting. */
  ghost predicate Strands(st: State, section: Section) {
    && section.BulkIn?
    && st.buffer == [] && At(st.ledger.waiting, section.ep) == []
    && |section.supplied| > section.request.length
    && st.capacity > 0
    && !NoneWaiting(st.ledger.waiting)
  }

  /** Bytes and requests stop waiting for each other after every section, exactly unless it strands a byte or a
      blocking sender has yet to flush. */
  lemma SettledExactlyUnlessStranded(st: State, section: Section, end: State)
    requires Conserved(st) && Settled(st) && Step(st, section, end) && end.flushing == 0
    ensures Settled(end) <==> !Strands(st, section)
  {
    match section
    case Send(data) => DrainConserves(Fill(st, data), end);
    case BulkIn(ep, request, supplied) =>
      if st.buffer != [] || At(st.ledger.waiting, ep) != [] { DrainConserves(Enqueued(st, ep, request), end); }
    case Unlink(target) => CancelAddsNothing(st.ledger.waiting, target, end.ledger.waiting);
    case BlockingBegin(data) =>
      if !st.disconnected && Full(st) {
        var mid :| Drained(st, mid) && end == Block(mid, data);
        DrainConserves(st, mid);
      }
    case _ =>
  }

  lemma CancelAddsNothing(q: Queues, target: u32, q2: Queues)
    requires Cancelled(q, target, q2)
    ensures NoneWaiting(q) ==> NoneWaiting(q2)
  {
  }

  // ----- whole runs -----

  ghost predicate IsRun(states: seq<State>, sections: seq<Section>) {
    && |states| == |sections| + 1
    && forall i :: 0 <= i < |sections| ==> Step(states[i], sections[i], states[i + 1])
  }

  function Initial(capacity: nat): State {
    State([], capacity, Fresh(), true, [], [], 0)
  }

  /** In every interleaving, delivered bytes followed by buffered bytes are the accepted bytes. */
  lemma {:induction false} StreamIsConserved(states: seq<State>, sections: seq<Section>, k: nat)
    requires IsRun(states, sections) && states[0] == Initial(states[0].capacity) && k < |states|
    ensures Conserved(states[k])
  {
    if k != 0 {
      StreamIsConserved(states, sections, k - 1);
      StepConserves(states[k - 1], sections[k - 1], states[k]);
    }
  }

  // ----- bytes the application believes sent -----

  /** The request is answered at once, with bytes the subclass supplies. */
  ghost predicate AnsweredDirectly(st: State, section: Section) {
    section.BulkIn? && st.buffer == [] && At(st.ledger.waiting, section.ep) == []
  }

  /** The connection begins or ends: the stream starts anew. */
  predicate Restarts(section: Section) {
    section.Connect? || section.DisconnectBuffer?
  }

  /** The first n bytes, or all there are. */
  function UpTo(data: seq<byte>, n: int): seq<byte> {
    if n < 0 then [] else data[..Min(|data|, n)]
  }

  /** The bytes the application has handed over in this connection without being told that they did not fit.  A sender
      is told how many bytes were written; a subclass that supplies bytes to a request is told nothing. */
  ghost function ToldAfter(told: seq<byte>, st: State, section: Section, end: State): seq<byte> {
    match section
    case Connect => st.buffer
    case DisconnectBuffer => Payloads(st.sent)
    case BulkIn(_, _, supplied) => if AnsweredDirectly(st, section) then told + supplied else told
    case Send(data) => told + UpTo(data, |end.accepted| - |st.accepted|)
    case BlockingBegin(data) => told + UpTo(data, |end.accepted| - |st.accepted|)
    case BlockingWake(data) => told + UpTo(data, |end.accepted| - |st.accepted|)
    case _ => told
  }

  ghost function Told(states: seq<State>, sections: seq<Section>, k: nat): seq<byte>
    requires k <= |sections| < |states|
  {
    if k == 0 then [] else ToldAfter(Told(states, sections, k - 1), states[k - 1], sections[k - 1], states[k])
  }

  /** Bytes are lost silently: the subclass supplies more than the request and the whole buffer hold, or the buffer is
      made smaller than its contents. */
  ghost predicate LosesBytes(st: State, section: Section) {
    || (AnsweredDirectly(st, section) && |section.supplied| > section.request.length + st.capacity)
    || (section.SetCapacity? && section.capacity < |st.buffer|)
  }

  /** It has happened before state k, in the same connection. */
  ghost predicate LostBefore(states: seq<State>, sections: seq<Section>, k: nat)
    requires k <= |sections| < |states|
  {
    k > 0 && !Restarts(sections[k - 1])
    && (LosesBytes(states[k - 1], sections[k - 1]) || LostBefore(states, sections, k - 1))
  }

  /** A direct answer takes everything supplied exactly if request and buffer have room for it. */
  lemma SupplyIsKeptExactlyWhen(st: State, ep: byte, request: Request, data: seq<byte>)
    requires st.buffer == []
    ensures Answered(st, ep, request, data).accepted == st.accepted + data <==> |data| <= request.length + st.capacity
  {
    var n := Min(|data|, request.length);
    var m := Min(|data| - n, st.capacity);
    assert Answered(st, ep, request, data).accepted == st.accepted + data[..n] + data[n..][..m];
    assert data[..n] + data[n..][..m] == data[..n + m];
    assert st.accepted + data[..n] + data[n..][..m] == st.accepted + data[..n + m];
  }

  lemma FillWrites(st: State, data: seq<byte>)
    ensures Fill(st, data).accepted == st.accepted + UpTo(data, |Fill(st, data).accepted| - |st.accepted|)
  {
  }

  lemma BlockWrites(st: State, data: seq<byte>)
    ensures Block(st, data).accepted == st.accepted + UpTo(data, |Block(st, data).accepted| - |st.accepted|)
  {
  }

  /** Everything but a silent loss adds to the accepted bytes what the application is told. */
  lemma StepTells(told: seq<byte>, st: State, section: Section, end: State)
    requires Conserved(st) && Step(st, section, end) && !Restarts(section) && !LosesBytes(st, section)
    ensures exists more :: end.accepted == st.accepted + more && ToldAfter(told, st, section, end) == told + more
  {
    match section
    case Send(data) =>
      FillConserves(st, data);
      DrainConserves(Fill(st, data), end);
      FillWrites(st, data);
    case BulkIn(ep, request, supplied) =>
      if AnsweredDirectly(st, section) {
        if supplied == [] { assert end.accepted == st.accepted + supplied; }
        SupplyIsKeptExactlyWhen(st, ep, request, supplied);
      } else {
        DrainConserves(Enqueued(st, ep, request), end);
        assert end.accepted == st.accepted + [] && told + [] == told;
      }
    case BlockingBegin(data) =>
      if !st.disconnected && Full(st) {
        var mid :| Drained(st, mid) && end == Block(mid, data);
        DrainConserves(st, mid);
        BlockWrites(mid, data);
      } else {
        BlockWrites(st, data);
      }
    case BlockingWake(data) => BlockWrites(st, data);
    case BlockingFlush =>
      DrainConserves(st.(flushing := st.flushing - 1), end);
      assert end.accepted == st.accepted + [] && told + [] == told;
    case DisconnectRequests | Unlink(_) | SetCapacity(_) =>
      assert end.accepted == st.accepted + [] && told + [] == told;
    case Connect | DisconnectBuffer =>
  }

  lemma LossShows(told: seq<byte>, st: State, section: Section, end: State)
    requires Conserved(st) && Step(st, section, end) && LosesBytes(st, section)
    ensures |end.accepted| - |st.accepted| < |ToldAfter(told, st, section, end)| - |told|
  {
  }

  /**
   What the application was told it sent is delivered or buffered, in order, exactly unless bytes were silently lost in
   this connection.
   */
  lemma {:induction false} NothingLostExactlyWhen(states: seq<State>, sections: seq<Section>, k: nat)
    requires IsRun(states, sections) && states[0] == Initial(states[0].capacity) && k < |states|
    ensures Payloads(states[k].sent) + states[k].buffer == Told(states, sections, k)
       <==> !LostBefore(states, sections, k)
    ensures LostBefore(states, sections, k) ==> |states[k].accepted| < |Told(states, sections, k)|
  {
    StreamIsConserved(states, sections, k);
    if k != 0 {
      NothingLostExactlyWhen(states, sections, k - 1);
      StreamIsConserved(states, sections, k - 1);
      var st, section, end := states[k - 1], sections[k - 1], states[k];
      var told := Told(states, sections, k - 1);
      if Restarts(section) {
      } else if LosesBytes(st, section) {
        LossShows(told, st, section, end);
      } else {
        StepTells(told, st, section, end);
      }
    }
  }

  /** A buffer of one byte and a request for one byte: of three bytes supplied, the last is lost. */
  lemma LossExample(ep: byte)
    ensures var st := Initial(1).(disconnected := false);
            var section := BulkIn(ep, Request(7, 1), [10, 20, 30]);
            && Conserved(st) && LosesBytes(st, section)
            && exists end: State :: Step(st, section, end) && Payloads(end.sent) + end.buffer == [10, 20]
                                    && ToldAfter([], st, section, end) == [10, 20, 30]
  {
    var st := Initial(1).(disconnected := false);
    var request := Request(7, 1);
    var section := BulkIn(ep, request, [10, 20, 30]);
    assert At(st.ledger.waiting, ep) == [];
    var supplied := section.supplied;
    var end := Answered(st, ep, request, supplied);
    assert supplied[..1] == [10] && supplied[1..] == [20, 30] && supplied[1..][..1] == [20];
    PayloadsSnoc([], Response(7, [10]));
    assert end.sent == [] + [Response(7, [10])] && end.buffer == [20];
    assert Step(st, section, end);
    assert ToldAfter([], st, section, end) == [10, 20, 30];
  }

  // ----- byte and request never both wait -----

  ghost predicate SettledOrFlushing(st: State) {
    st.flushing > 0 || Settled(st)
  }

  /** In every interleaving without stranding, a byte and a request wait together only while a blocking sender is
      between its phases. */
  lemma {:induction false} NeverBothWait(states: seq<State>, sections: seq<Section>, k: nat)
    requires IsRun(states, sections) && states[0] == Initial(states[0].capacity) && k < |states|
    requires forall i | 0 <= i < |sections| :: !Strands(states[i], sections[i])
    ensures SettledOrFlushing(states[k])
  {
    if k != 0 {
      NeverBothWait(states, sections, k - 1);
      StreamIsConserved(states, sections, k - 1);
      KeepsSettled(states[k - 1], sections[k - 1], states[k]);
    }
  }

  lemma KeepsSettled(st: State, section: Section, end: State)
    requires Conserved(st) && SettledOrFlushing(st) && Step(st, section, end) && !Strands(st, section)
    ensures SettledOrFlushing(end)
  {
    match section
    case Send(data) => FillConserves(st, data); DrainConserves(Fill(st, data), end);
    case BulkIn(ep, request, supplied) =>
      if st.buffer != [] || At(st.ledger.waiting, ep) != [] { DrainConserves(Enqueued(st, ep, request), end); }
    case Unlink(target) => CancelAddsNothing(st.ledger.waiting, target, end.ledger.waiting);
    case BlockingBegin(data) =>
      if !st.disconnected && Full(st) {
        var mid :| Drained(st, mid) && end == Block(mid, data);
        DrainConserves(st, mid);
      }
    case BlockingFlush => DrainConserves(st.(flushing := st.flushing - 1), end);
    case _ =>
  }

  // ----- every request has one fate -----

  /** The ledger is lawful and the answers given are exactly the served requests', none too long. */
  ghost predicate Accounted(st: State) {
    Lawful(st.ledger) && Answers(st.sent, st.ledger.served)
  }

  ghost predicate FreshRequest(st: State, section: Section) {
    section.BulkIn? ==> section.request.seqnum !in st.ledger.asked
  }

  lemma ServeOneAccounts(st: State, ep: byte)
    requires Accounted(st)
    ensures Accounted(ServeOne(st, ep))
  {
    if st.buffer != [] && At(st.ledger.waiting, ep) != [] { TakeIsLawful(st.ledger, ep); }
  }

  lemma {:induction false} ServeAllAccounts(st: State, eps: seq<byte>)
    requires Accounted(st)
    ensures Accounted(ServeAll(st, eps))
  {
    if eps != [] {
      ServeAllAccounts(st, eps[..|eps| - 1]);
      ServeOneAccounts(ServeAll(st, eps[..|eps| - 1]), eps[|eps| - 1]);
    }
  }

  lemma DrainAccounts(st: State, end: State)
    requires Accounted(st) && Drained(st, end)
    ensures Accounted(end)
  {
    var eps :| end == ServeAll(st, eps);
    ServeAllAccounts(st, eps);
  }

  lemma StepAccounts(st: State, section: Section, end: State)
    requires Accounted(st) && Step(st, section, end) && FreshRequest(st, section)
    ensures Accounted(end)
  {
    match section
    case Send(data) => DrainAccounts(Fill(st, data), end);
    case BulkIn(ep, request, supplied) =>
      AskIsLawful(st.ledger, ep, request);
      if st.buffer == [] && At(st.ledger.waiting, ep) == [] {
        PassIsLawful(st.ledger, ep, request);
      } else {
        DrainAccounts(Enqueued(st, ep, request), end);
      }
    case Unlink(target) => UnlinkIsLawful(st.ledger, target, end.ledger);
    case DisconnectRequests => EmptyIsLawful(st.ledger);
    case BlockingBegin(data) =>
      if !st.disconnected && Full(st) {
        var mid :| Drained(st, mid) && end == Block(mid, data);
        DrainAccounts(st, mid);
      }
    case BlockingFlush => DrainAccounts(st.(flushing := st.flushing - 1), end);
    case Connect => assert forall ep: byte :: Balanced(Fresh(), ep);
    case _ =>
  }

  /** In every interleaving of fresh requests: each is waiting, answered once within its length, or taken back; and
      at each endpoint the answers come in order of arrival. */
  lemma {:induction false} EveryRequestIsAccountedFor(states: seq<State>, sections: seq<Section>, k: nat)
    requires IsRun(states, sections) && states[0] == Initial(states[0].capacity) && k < |states|
    requires forall i | 0 <= i < |sections| :: FreshRequest(states[i], sections[i])
    ensures Accounted(states[k])
  {
    if k == 0 {
      assert forall ep: byte :: Balanced(Fresh(), ep);
    } else {
      EveryRequestIsAccountedFor(states, sections, k - 1);
      StepAccounts(states[k - 1], sections[k - 1], states[k]);
    }
  }

  /** Two bulk-IN endpoints, the subclass over-supplying one of them: the byte left over waits beside a request. */
  lemma StrandingExample(left: byte, right: byte)
    requires left != right
    ensures var st := Initial(64).(ledger := Ask(Fresh(), right, Request(1, 8)));
            var section := BulkIn(left, Request(2, 1), [10, 20]);
            && Settled(st) && Strands(st, section)
            && exists end: State :: Step(st, section, end) && !Settled(end)
  {
    var st := Initial(64).(ledger := Ask(Fresh(), right, Request(1, 8)));
    var section := BulkIn(left, Request(2, 1), [10, 20]);
    assert At(st.ledger.waiting, right) != [];
    var end := Answered(st, left, section.request, section.supplied);
    assert end.buffer == [20];
    assert Step(st, section, end) && At(end.ledger.waiting, right) != [];
  }
}
