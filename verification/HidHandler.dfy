/** The HID interface's handler, against the rendezvous model. */
module HidHandler {
  import opened Basics
  import opened RequestQueue
  import opened RequestLedger
  import opened HidReports

  class HidVirtualInterfaceHandler {
    const endpointRequests: EndpointRequestQueue
    var pendingInputReports: seq<seq<byte>>
    var sent: seq<Response>       // what the session has been given
    ghost var ledger: Ledger
    ghost var reports: seq<seq<byte>>

    ghost predicate Valid()
      reads this, endpointRequests
    {
      endpointRequests.queues == ledger.waiting && Good(Now())
    }

    ghost function Now(): State
      reads this
    {
      State(pendingInputReports, ledger, sent, reports)
    }

    constructor ()
      ensures Valid() && fresh(endpointRequests) && Now() == State([], Fresh(), [], [])
    {
      endpointRequests := new EndpointRequestQueue();
      pendingInputReports, sent, ledger, reports := [], [], Fresh(), [];
      new;
      assert forall ep: byte :: Balanced(Fresh(), ep);
    }

    method HandleInterruptIn(ep: byte, request: Request)
      requires Valid() && request.seqnum !in ledger.asked
      modifies this, endpointRequests
      ensures Valid() && Step(old(Now()), InterruptIn(ep, request), Now())
    {
      ghost var before := Now();
      if endpointRequests.Empty(ep) && pendingInputReports != [] {
        var front := pendingInputReports[0];
        var sendLen := Min(|front|, request.length);
        pendingInputReports := pendingInputReports[1..];
        sent := sent + [Response(request.seqnum, front[..sendLen])];
        ledger := Pass(ledger, ep, request);
      } else {
        ledger := Ask(ledger, ep, request);
        endpointRequests.Enqueue(ep, request);
      }
      StepIsGood(before, InterruptIn(ep, request), Now());
    }

    method SendInputReport(data: seq<byte>)
      requires Valid()
      modifies this, endpointRequests
      ensures Valid() && Step(old(Now()), SendReport(data), Now())
    {
      ghost var before := Now();
      var next := endpointRequests.DequeueAny();
      if next.Some? {
        var (ep, request) := next.value;
        var sendLen := Min(|data|, request.length);
        sent := sent + [Response(request.seqnum, data[..sendLen])];
        ledger := Take(ledger, ep);
        reports := reports + [data];
        assert Now() == Meet(before, ep, data);
      } else {
        pendingInputReports := pendingInputReports + [data];
        reports := reports + [data];
      }
      StepIsGood(before, SendReport(data), Now());
    }

    method HandleUnlinkSeqnum(target: u32)
      requires Valid()
      modifies this, endpointRequests
      ensures Valid() && Step(old(Now()), Unlink(target), Now())
    {
      ghost var before := Now();
      var found := endpointRequests.CancelBySeqnum(target);
      var gone := if found then ledger.gone + {target} else ledger.gone;
      ledger := ledger.(waiting := endpointRequests.queues, gone := gone);
      StepIsGood(before, Unlink(target), Now());
    }

    method OnDisconnection()
      requires Valid()
      modifies this, endpointRequests
      ensures Valid()
      ensures exists mid: State :: Step(old(Now()), DisconnectReports, mid) && Step(mid, DisconnectRequests, Now())
    {
      ghost var before := Now();
      pendingInputReports := [];
      reports := reports[..|sent|];
      ghost var mid := Now();
      endpointRequests.Clear();
      ledger := Emptied(ledger);
      assert Step(before, DisconnectReports, mid);
      StepIsGood(before, DisconnectReports, mid);
      assert Step(mid, DisconnectRequests, Now());
      StepIsGood(mid, DisconnectRequests, Now());
    }
  }
}
