/** HID input reports meet interrupt-IN requests: a rendezvous in which one side at most ever waits. */
module HidReports {
  import opened Basics
  import opened RequestQueue
  import opened RequestLedger

  datatype State = State(
    pending: seq<seq<byte>>,    // reports without a request yet
    ledger: Ledger,             // interrupt-IN requests: waiting, answered, taken back
    sent: seq<Response>,        // answers handed to the session
    reports: seq<seq<byte>>)    // every report of this connection, less those discarded by a disconnection

  datatype Section =
    | Connect
    | DisconnectReports
    | DisconnectRequests
    | InterruptIn(ep: byte, request: Request)
    | SendReport(report: seq<byte>)
    | Unlink(target: u32)

  function Cut(report: seq<byte>, length: nat): seq<byte> {
    report[..Min(|report|, length)]
  }

  /** The oldest request of `ep` is answered with a new report. */
  ghost function Meet(st: State, ep: byte, report: seq<byte>): State
    requires At(st.ledger.waiting, ep) != []
  {
    var request := At(st.ledger.waiting, ep)[0];
    st.(ledger := Take(st.ledger, ep), sent := st.sent + [Response(request.seqnum, Cut(report, request.length))],
        reports := st.reports + [report])
  }

  ghost predicate Step(st: State, section: Section, end: State) {
    match section
    case Connect => st.ledger.waiting == map[] && end == State(st.pending, Fresh(), [], st.pending)
    case DisconnectReports => |st.sent| <= |st.reports| && end == st.(pending := [], reports := st.reports[..|st.sent|])
    case DisconnectRequests => end == st.(ledger := Emptied(st.ledger))
    case InterruptIn(ep, request) =>
      if At(st.ledger.waiting, ep) == [] && st.pending != [] then
        end == st.(pending := st.pending[1..], ledger := Pass(st.ledger, ep, request),
                   sent := st.sent + [Response(request.seqnum, Cut(st.pending[0], request.length))])
      else end == st.(ledger := Ask(st.ledger, ep, request))
    case SendReport(report) =>
      if NoneWaiting(st.ledger.waiting)
      then end == st.(pending := st.pending + [report], reports := st.reports + [report])
      else exists ep: byte :: At(st.ledger.waiting, ep) != [] && end == Meet(st, ep, report)
    case Unlink(target) => Unlinked(st.ledger, target, end.ledger) && end == st.(ledger := end.ledger)
  }

  // ----- invariant -----

  /** Reports wait only while no endpoint has a request waiting. */
  ghost predicate Rendezvous(st: State) {
    st.pending == [] || NoneWaiting(st.ledger.waiting)
  }

  /** As much of the report as the request has room for. */
  predicate IsCut(data: seq<byte>, report: seq<byte>, length: nat) {
    data <= report && |data| <= length && (data == report || |data| == length)
  }

  /** The k-th answer carries the k-th report, cut to its request's length; the rest of the reports are pending. */
  ghost predicate InOrder(st: State) {
    && |st.sent| == |st.ledger.served| <= |st.reports|
    && st.reports[|st.sent|..] == st.pending
    && forall k | 0 <= k < |st.sent| ::
         && st.sent[k].seqnum == st.ledger.served[k].1.seqnum
         && IsCut(st.sent[k].data, st.reports[k], st.ledger.served[k].1.length)
  }

  ghost predicate Good(st: State) {
    Rendezvous(st) && InOrder(st) && Lawful(st.ledger)
  }

  ghost predicate FreshRequest(st: State, section: Section) {
    section.InterruptIn? ==> section.request.seqnum !in st.ledger.asked
  }

  lemma MeetIsGood(st: State, ep: byte, report: seq<byte>)
    requires Good(st) && At(st.ledger.waiting, ep) != []
    ensures Good(Meet(st, ep, report))
  {
    TakeIsLawful(st.ledger, ep);
    assert st.pending == [] && |st.reports| == |st.sent|;
  }

  lemma InterruptIsGood(st: State, ep: byte, request: Request, end: State)
    requires Good(st) && Step(st, InterruptIn(ep, request), end) && request.seqnum !in st.ledger.asked
    ensures Good(end)
  {
    if At(st.ledger.waiting, ep) == [] && st.pending != [] {
      PassIsLawful(st.ledger, ep, request);
      assert st.reports[|st.sent|] == st.pending[0];
      assert st.reports[|st.sent| + 1..] == st.pending[1..];
    } else {
      AskIsLawful(st.ledger, ep, request);
    }
  }

  lemma StepIsGood(st: State, section: Section, end: State)
    requires Good(st) && Step(st, section, end) && FreshRequest(st, section)
    ensures Good(end)
  {
    match section
    case Connect => assert forall ep: byte :: Balanced(Fresh(), ep);
    case DisconnectReports =>
    case DisconnectRequests => EmptyIsLawful(st.ledger);
    case InterruptIn(ep, request) => InterruptIsGood(st, ep, request, end);
    case SendReport(report) =>
      if !NoneWaiting(st.ledger.waiting) {
        var ep: byte :| At(st.ledger.waiting, ep) != [] && end == Meet(st, ep, report);
        MeetIsGood(st, ep, report);
      }
    case Unlink(target) => UnlinkIsLawful(st.ledger, target, end.ledger);
  }

  // ----- whole runs -----

  ghost predicate IsRun(states: seq<State>, sections: seq<Section>) {
    && |states| == |sections| + 1
    && states[0] == State([], Fresh(), [], [])
    && forall i :: 0 <= i < |sections| ==> Step(states[i], sections[i], states[i + 1])
  }

  /**
   In every interleaving of fresh requests, reports, unlinks and disconnections: a report and a request never both
   wait; the k-th report goes to the k-th answered request, cut to its length; and every request has one fate.
   */
  lemma {:induction false} ReportsMeetRequests(states: seq<State>, sections: seq<Section>, k: nat)
    requires IsRun(states, sections) && k < |states|
    requires forall i | 0 <= i < |sections| :: FreshRequest(states[i], sections[i])
    ensures Rendezvous(states[k]) && InOrder(states[k]) && Lawful(states[k].ledger)
  {
    if k == 0 {
      assert forall ep: byte :: Balanced(Fresh(), ep);
    } else {
      ReportsMeetRequests(states, sections, k - 1);
      StepIsGood(states[k - 1], sections[k - 1], states[k]);
    }
  }

  // ----- no report is dropped -----

  /** The reports sent by the first k sections, less those that a disconnection found unanswered; a new connection
      starts with those that wait for it. */
  ghost function Reported(states: seq<State>, sections: seq<Section>, k: nat): seq<seq<byte>>
    requires k <= |sections| < |states|
  {
    if k == 0 then []
    else
      match sections[k - 1]
      case SendReport(report) => Reported(states, sections, k - 1) + [report]
      case DisconnectReports =>
        var before := Reported(states, sections, k - 1);
        before[..Min(|before|, |states[k - 1].sent|)]
      case Connect => states[k - 1].pending
      case _ => Reported(states, sections, k - 1)
  }

  /** In every interleaving of fresh requests, the reports sent are those answered, in order, and behind them those that
      still wait for a request. */
  lemma {:induction false} NoReportIsDropped(states: seq<State>, sections: seq<Section>, k: nat)
    requires IsRun(states, sections) && k <= |sections|
    requires forall i | 0 <= i < |sections| :: FreshRequest(states[i], sections[i])
    ensures var reports := Reported(states, sections, k);
            && |states[k].sent| == |states[k].ledger.served| <= |reports|
            && reports[|states[k].sent|..] == states[k].pending
            && forall i | 0 <= i < |states[k].sent| ::
                 IsCut(states[k].sent[i].data, reports[i], states[k].ledger.served[i].1.length)
  {
    ReportsMeetRequests(states, sections, k);
    ReportsAreReported(states, sections, k);
  }

  lemma {:induction false} ReportsAreReported(states: seq<State>, sections: seq<Section>, k: nat)
    requires IsRun(states, sections) && k <= |sections|
    requires forall i | 0 <= i < |sections| :: FreshRequest(states[i], sections[i])
    ensures states[k].reports == Reported(states, sections, k)
  {
    if k != 0 {
      ReportsAreReported(states, sections, k - 1);
      var st, section, end := states[k - 1], sections[k - 1], states[k];
      if section.SendReport? && !NoneWaiting(st.ledger.waiting) {
        var ep: byte :| At(st.ledger.waiting, ep) != [] && end == Meet(st, ep, section.report);
      }
    }
  }

  /** A disconnection leaves neither a report nor a request behind, and answers nothing. */
  lemma DisconnectionLeavesNothing(st: State, mid: State, end: State)
    requires Step(st, DisconnectReports, mid) && Step(mid, DisconnectRequests, end)
    ensures end.pending == [] && NoneWaiting(end.ledger.waiting) && end.sent == st.sent
  {
  }

  // ----- requests taken back -----

  /** A request taken back stays taken back for as long as the connection lasts. */
  lemma {:induction false} StaysGone(states: seq<State>, sections: seq<Section>, i: nat, k: nat, ep: byte, r: Request)
    requires IsRun(states, sections) && i <= k < |states|
    requires forall j | i <= j < k :: !sections[j].Connect?
    requires r in At(states[i].ledger.arrived, ep) && r.seqnum in states[i].ledger.gone
    ensures r in At(states[k].ledger.arrived, ep) && r.seqnum in states[k].ledger.gone
    decreases k
  {
    if k != i {
      StaysGone(states, sections, i, k - 1, ep, r);
      LedgerGrows(states[k - 1], sections[k - 1], states[k], ep, r);
    }
  }

  /** ... and so is never answered. */
  lemma TakenBackIsNeverAnswered(states: seq<State>, sections: seq<Section>, i: nat, k: nat, ep: byte, r: Request)
    requires IsRun(states, sections) && i <= k < |states|
    requires forall j | 0 <= j < |sections| :: FreshRequest(states[j], sections[j])
    requires forall j | i <= j < k :: !sections[j].Connect?
    requires r in At(states[i].ledger.arrived, ep) && r.seqnum in states[i].ledger.gone
    ensures r !in ServedAt(states[k].ledger.served, ep)
  {
    StaysGone(states, sections, i, k, ep, r);
    ReportsMeetRequests(states, sections, k);
    OneFate(states[k].ledger, ep, r);
  }

  lemma LedgerGrows(st: State, section: Section, end: State, ep: byte, r: Request)
    requires Step(st, section, end) && !section.Connect? && r in At(st.ledger.arrived, ep) && r.seqnum in st.ledger.gone
    ensures r in At(end.ledger.arrived, ep) && r.seqnum in end.ledger.gone
  {
    if section.SendReport? && !NoneWaiting(st.ledger.waiting) {
      var e: byte :| At(st.ledger.waiting, e) != [] && end == Meet(st, e, section.report);
    }
  }
}
