/** That the CDC transmit path delivers: answers are as full as the bytes allow, and the buffer takes all that fits. */
module CdcDelivery {
  import opened Basics
  import opened RequestQueue
  import opened RequestLedger
  import opened CdcTransmit

  // ----- the answers are full -----

  /** From the n-th on, every answer has exactly the length its request asked for; only the last may be shorter, and
      only if no byte was left. */
  ghost predicate FullFrom(st: State, n: nat, none: bool) {
    && |st.sent| == |st.ledger.served|
    && forall i | n <= i < |st.sent| ::
         var asked := st.ledger.served[i].1.length;
         |st.sent[i].data| == asked || (|st.sent[i].data| < asked && i == |st.sent| - 1 && none)
  }

  lemma {:induction false} ServeAllFills(st: State, eps: seq<byte>)
    requires |st.sent| == |st.ledger.served|
    ensures var end := ServeAll(st, eps); FullFrom(end, |st.sent|, end.buffer == [])
    ensures st.sent <= ServeAll(st, eps).sent
  {
    if eps != [] { ServeAllFills(st, eps[..|eps| - 1]); }
  }

  /** Of the answers a drain adds, each carries exactly what its request asked for, except that the last may be shorter
      if the buffer is empty afterwards; and bytes are left only if no request is. */
  lemma DrainFillsAnswers(st: State, end: State)
    requires |st.sent| == |st.ledger.served| && Drained(st, end)
    ensures st.sent <= end.sent && FullFrom(end, |st.sent|, end.buffer == [])
    ensures end.buffer == [] || NoneWaiting(end.ledger.waiting)
  {
    var eps :| end == ServeAll(st, eps);
    ServeAllFills(st, eps);
  }

  /** The section's drain leaves no byte behind.  A blocking sender writes after it has drained what was there. */
  ghost predicate LeavesNone(st: State, section: Section, end: State) {
    if section.BlockingBegin? then |Payloads(end.sent)| == |Payloads(st.sent)| + |st.buffer| else end.buffer == []
  }

  lemma BlockingBeginFillsAnswers(st: State, data: seq<byte>, end: State)
    requires Conserved(st) && |st.sent| == |st.ledger.served| && Step(st, BlockingBegin(data), end)
    ensures st.sent <= end.sent && FullFrom(end, |st.sent|, LeavesNone(st, BlockingBegin(data), end))
  {
    if !st.disconnected && Full(st) {
      var mid :| Drained(st, mid) && end == Block(mid, data);
      DrainFillsAnswers(st, mid);
      DrainConserves(st, mid);
      assert |st.accepted| == |Payloads(st.sent)| + |st.buffer|;
      assert |mid.accepted| == |Payloads(mid.sent)| + |mid.buffer|;
    }
  }

  lemma BulkInFillsAnswers(st: State, section: Section, end: State)
    requires Conserved(st) && |st.sent| == |st.ledger.served| && section.BulkIn? && Step(st, section, end)
    ensures st.sent <= end.sent && FullFrom(end, |st.sent|, end.buffer == [])
  {
    if !AnsweredDirectly(st, section) { DrainFillsAnswers(Enqueued(st, section.ep, section.request), end); }
  }

  lemma SectionFillsAnswers(st: State, section: Section, end: State)
    requires Conserved(st) && |st.sent| == |st.ledger.served| && Step(st, section, end) && !section.Connect?
    ensures st.sent <= end.sent && FullFrom(end, |st.sent|, LeavesNone(st, section, end))
  {
    match section
    case Send(data) => DrainFillsAnswers(Fill(st, data), end);
    case BulkIn(_, _, _) => BulkInFillsAnswers(st, section, end);
    case BlockingBegin(data) => BlockingBeginFillsAnswers(st, data, end);
    case BlockingFlush => DrainFillsAnswers(st.(flushing := st.flushing - 1), end);
    case _ =>
  }

  /** In every interleaving of fresh requests, every answer a section gives has exactly the length its request asked
      for, except that the section's last may be shorter if it leaves no byte that could have filled it. */
  lemma AnswersAreFull(states: seq<State>, sections: seq<Section>, k: nat, i: nat)
    requires IsRun(states, sections) && states[0] == Initial(states[0].capacity) && k < |sections|
    requires forall j | 0 <= j < |sections| :: FreshRequest(states[j], sections[j])
    requires !sections[k].Connect? && |states[k].sent| <= i < |states[k + 1].sent|
    ensures i < |states[k + 1].ledger.served|
    ensures var answer, asked := |states[k + 1].sent[i].data|, states[k + 1].ledger.served[i].1.length;
            || answer == asked
            || (answer < asked && i == |states[k + 1].sent| - 1 && LeavesNone(states[k], sections[k], states[k + 1]))
  {
    StreamIsConserved(states, sections, k);
    EveryRequestIsAccountedFor(states, sections, k);
    SectionFillsAnswers(states[k], sections[k], states[k + 1]);
  }

  // ----- the buffer takes what fits -----

  /** The section writes the first m bytes of `data` to a buffer that held n bytes: all of them, or as many as fit. */
  ghost predicate TakesWhatFits(st: State, data: seq<byte>, n: nat, m: nat, end: State) {
    m <= |data| && end.accepted == st.accepted + data[..m] && (m == |data| || n + m == st.capacity)
  }

  /** A send takes everything, or fills the buffer; then it drains. */
  lemma SendTakesWhatFits(st: State, data: seq<byte>, end: State)
    requires Conserved(st) && Step(st, Send(data), end)
    ensures exists m: nat :: TakesWhatFits(st, data, |st.buffer|, m, end)
  {
    var m: nat := Min(|data|, st.capacity - |st.buffer|);
    FillConserves(st, data);
    DrainConserves(Fill(st, data), end);
    assert TakesWhatFits(st, data, |st.buffer|, m, end);
  }

  /** A blocking send on a standing connection, on entry or after a wait, takes everything, or leaves the buffer full;
      it goes on to its second phase exactly if it found room. */
  lemma BlockingSendTakesWhatFits(st: State, section: Section, end: State)
    requires Conserved(st) && Step(st, section, end) && (section.BlockingBegin? || section.BlockingWake?)
    ensures st.disconnected ==> end == st
    ensures !st.disconnected ==>
              && exists m: nat :: m <= |section.data| && end.accepted == st.accepted + section.data[..m]
                                  && (m == |section.data| || |end.buffer| == st.capacity)
                                  && (end.flushing == st.flushing ==> m == 0 && |end.buffer| == st.capacity)
    ensures st.flushing <= end.flushing <= st.flushing + 1
    ensures end.flushing == st.flushing + 1 ==> |end.buffer| > 0 || section.data == []
  {
    if !st.disconnected {
      var mid := st;
      if section.BlockingBegin? && Full(st) {
        mid :| Drained(st, mid) && end == Block(mid, section.data);
        DrainConserves(st, mid);
        DrainKeepsConnection(st, mid);
      }
      assert end == Block(mid, section.data);
      var m: nat := if Full(mid) then 0 else Min(|section.data|, mid.capacity - |mid.buffer|);
      assert end.accepted == st.accepted + section.data[..m];
    }
  }

  lemma {:induction false} ServeAllKeepsConnection(st: State, eps: seq<byte>)
    ensures ServeAll(st, eps).disconnected == st.disconnected && ServeAll(st, eps).capacity == st.capacity
  {
    if eps != [] { ServeAllKeepsConnection(st, eps[..|eps| - 1]); }
  }

  lemma DrainKeepsConnection(st: State, end: State)
    requires Drained(st, end)
    ensures end.disconnected == st.disconnected && end.capacity == st.capacity
  {
    var eps :| end == ServeAll(st, eps);
    ServeAllKeepsConnection(st, eps);
  }

  /** A new capacity keeps the oldest bytes, all of them or as many as it has room for. */
  lemma ResizeKeepsWhatFits(st: State, capacity: nat, end: State)
    requires Step(st, SetCapacity(capacity), end)
    ensures end.capacity == capacity && end.buffer <= st.buffer && |end.buffer| <= capacity
    ensures end.buffer == st.buffer || |end.buffer| == capacity
    ensures end.sent == st.sent && end.ledger == st.ledger
  {
  }

  /** Senders are told off exactly between a disconnection and the next connection, and before the first. */
  lemma {:induction false} DisconnectedExactlyWhen(states: seq<State>, sections: seq<Section>, k: nat)
    requires IsRun(states, sections) && states[0] == Initial(states[0].capacity) && k < |states|
    ensures states[k].disconnected
       <==> forall j | 0 <= j < k && sections[j].Connect? ::
              exists i: nat :: j < i < k && sections[i].DisconnectBuffer?
  {
    if k != 0 {
      DisconnectedExactlyWhen(states, sections, k - 1);
      StreamIsConserved(states, sections, k - 1);
      ConnectionStep(states[k - 1], sections[k - 1], states[k]);
      var last := sections[k - 1];
      if states[k].disconnected && !last.DisconnectBuffer? {
        forall j | 0 <= j < k && sections[j].Connect?
          ensures exists i: nat :: j < i < k && sections[i].DisconnectBuffer?
        {
          var i: nat :| j < i < k - 1 && sections[i].DisconnectBuffer?;
        }
      } else if !states[k].disconnected && !last.Connect? {
        var j :| 0 <= j < k - 1 && sections[j].Connect?
                 && forall i: nat | j < i < k - 1 :: !sections[i].DisconnectBuffer?;
      }
    }
  }

  lemma ConnectionStep(st: State, section: Section, end: State)
    requires Step(st, section, end)
    ensures end.disconnected == if section.Connect? then false else section.DisconnectBuffer? || st.disconnected
  {
    match section
    case Send(data) => DrainKeepsConnection(Fill(st, data), end);
    case BulkIn(ep, request, supplied) =>
      if !AnsweredDirectly(st, section) { DrainKeepsConnection(Enqueued(st, ep, request), end); }
    case BlockingBegin(data) =>
      if !st.disconnected && Full(st) {
        var mid :| Drained(st, mid) && end == Block(mid, data);
        DrainKeepsConnection(st, mid);
      }
    case BlockingFlush => DrainKeepsConnection(st.(flushing := st.flushing - 1), end);
    case _ =>
  }

  /** A disconnection leaves neither a byte nor a request behind for the next connection, and answers nothing. */
  lemma DisconnectionLeavesNothing(st: State, mid: State, end: State)
    requires Step(st, DisconnectBuffer, mid) && Step(mid, DisconnectRequests, end)
    ensures end.disconnected && end.buffer == [] && NoneWaiting(end.ledger.waiting) && end.sent == st.sent
  {
  }
}
