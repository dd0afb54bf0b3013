/** The CDC-ACM data interface's handler over the ring buffer and the request queue, against the byte-stream model. */
module CdcHandler {
  import opened Basics
  import opened RequestQueue
  import opened RequestLedger
  import opened CdcTransmit
  import R = RingBuffer

  /** How phase 1 of a blocking send ends. */
  datatype Phase1 = GaveUp | MustWait | Wrote(written: nat)

  /** A write of as much as fits is what the model calls filling. */
  lemma FillIs(before: State, data: seq<byte>, written: nat, after: State)
    requires |before.buffer| <= before.capacity && written == Min(|data|, before.capacity - |before.buffer|)
    requires after == before.(buffer := before.buffer + data[..written], accepted := before.accepted + data[..written])
    ensures after == Fill(before, data)
  {
  }

  lemma BlockIs(before: State, data: seq<byte>, filled: State, after: State)
    requires !before.disconnected && !Full(before)
    requires filled == Fill(before, data) && after == filled.(flushing := before.flushing + 1)
    ensures after == Block(before, data)
  {
  }

  lemma BeginIs(before: State, data: seq<byte>, mid: State, after: State)
    requires !before.disconnected && (if Full(before) then Drained(before, mid) else mid == before)
    requires after == Block(mid, data)
    ensures Step(before, Section.BlockingBegin(data), after)
  {
  }

  class CdcAcmDataInterfaceHandler {
    const txBuffer: R.RingBuffer
    const endpointRequests: EndpointRequestQueue
    var disconnected: bool
    var sent: seq<Response>       // what the session has been given
    ghost var ledger: Ledger
    ghost var accepted: seq<byte>
    ghost var flushing: nat

    ghost predicate Valid()
      reads this, txBuffer, txBuffer.buffer, endpointRequests
    {
      txBuffer.Valid() && endpointRequests.queues == ledger.waiting
    }

    ghost function Now(): State
      requires Valid()
      reads this, txBuffer, txBuffer.buffer, endpointRequests
    {
      State(txBuffer.contents, txBuffer.capacity, ledger, disconnected, sent, accepted, flushing)
    }

    constructor (capacity: nat)
      ensures Valid() && fresh(txBuffer) && fresh(txBuffer.buffer) && fresh(endpointRequests)
      ensures Now() == Initial(capacity)
    {
      txBuffer := new R.RingBuffer(capacity);
      endpointRequests := new EndpointRequestQueue();
      disconnected, sent, ledger, accepted, flushing := true, [], Fresh(), [], 0;
    }

    /** Answers one request from the buffer. */
    method SendFromTxBufferLocked(seqnum: u32, maxLength: nat)
      requires txBuffer.Valid()
      modifies this`sent, txBuffer`head, txBuffer`count, txBuffer`contents
      ensures txBuffer.Valid()
      ensures var n := Min(|old(txBuffer.contents)|, maxLength);
              && txBuffer.contents == old(txBuffer.contents)[n..]
              && sent == old(sent) + [Response(seqnum, old(txBuffer.contents)[..n])]
    {
      var sendLen := Min(txBuffer.count, maxLength);
      var data := txBuffer.Read(sendLen);
      sent := sent + [Response(seqnum, data)];
    }

    /** The drain: at most one pass per waiting request, so it ends even when requests ask for no bytes. */
    method TrySendPendingLocked()
      requires Valid()
      modifies this`sent, this`ledger, txBuffer`head, txBuffer`count, txBuffer`contents, endpointRequests
      ensures Valid() && Drained(old(Now()), Now())
    {
      ghost var eps: seq<byte> := [];
      while txBuffer.count != 0
        invariant Valid() && Now() == ServeAll(old(Now()), eps)
        decreases Total(endpointRequests.queues, 0x100)
      {
        ghost var before, queues := Now(), endpointRequests.queues;
        var next := endpointRequests.DequeueAny();
        if next.None? { break; }
        var (ep, request) := next.value;
        SendFromTxBufferLocked(request.seqnum, request.length);
        ledger := Take(ledger, ep);
        assert (eps + [ep])[..|eps|] == eps && Now() == ServeOne(before, ep);
        eps := eps + [ep];
        TotalChanges(queues, ep, At(queues, ep)[1..], 0x100);
      }
    }

    method SendData(data: seq<byte>) returns (written: nat)
      requires Valid()
      modifies this`sent, this`ledger, this`accepted, txBuffer, txBuffer.buffer, endpointRequests
      ensures Valid() && (txBuffer.buffer == old(txBuffer.buffer) || fresh(txBuffer.buffer))
      ensures written == Min(|data|, txBuffer.capacity - |old(Now()).buffer|)
      ensures written == |accepted| - |old(accepted)|
      ensures Step(old(Now()), Send(data), Now())
    {
      written := FillBuffer(data);
      TrySendPendingLocked();
    }

    method FillBuffer(data: seq<byte>) returns (written: nat)
      requires Valid()
      modifies this`accepted, txBuffer, txBuffer.buffer
      ensures Valid() && (txBuffer.buffer == old(txBuffer.buffer) || fresh(txBuffer.buffer))
      ensures written == Min(|data|, txBuffer.capacity - |old(Now()).buffer|) && Now() == Fill(old(Now()), data)
    {
      ghost var before := Now();
      written := txBuffer.Write(data);
      accepted := accepted + data[..written];
      FillIs(before, data, written, Now());
    }

    /** A bulk-IN request; `supplied` is what the subclass would offer when asked for data. */
    method HandleBulkIn(ep: byte, request: Request, supplied: seq<byte>)
      requires Valid()
      modifies this`sent, this`ledger, this`accepted, txBuffer, txBuffer.buffer, endpointRequests
      ensures Valid() && (txBuffer.buffer == old(txBuffer.buffer) || fresh(txBuffer.buffer))
      ensures Step(old(Now()), BulkIn(ep, request, supplied), Now())
    {
      if txBuffer.count == 0 && endpointRequests.Empty(ep) {
        if supplied != [] {
          AnswerNow(ep, request, supplied);
        } else {
          ledger := Ask(ledger, ep, request);
          endpointRequests.Enqueue(ep, request);
        }
      } else {
        ledger := Ask(ledger, ep, request);
        endpointRequests.Enqueue(ep, request);
        TrySendPendingLocked();
      }
    }

    method AnswerNow(ep: byte, request: Request, supplied: seq<byte>)
      requires Valid() && At(ledger.waiting, ep) == []
      modifies this`sent, this`ledger, this`accepted, txBuffer, txBuffer.buffer
      ensures Valid() && (txBuffer.buffer == old(txBuffer.buffer) || fresh(txBuffer.buffer))
      ensures Now() == Answered(old(Now()), ep, request, supplied)
    {
      ledger := Pass(ledger, ep, request);
      if |supplied| <= request.length {
        sent := sent + [Response(request.seqnum, supplied)];
        accepted := accepted + supplied;
        assert supplied[..|supplied|] == supplied;
      } else {
        sent := sent + [Response(request.seqnum, supplied[..request.length])];
        accepted := accepted + supplied[..request.length];
        var _ := FillBuffer(supplied[request.length..]);
      }
    }

    method HandleUnlink(target: u32)
      requires Valid()
      modifies this`ledger, endpointRequests
      ensures Valid() && Step(old(Now()), Unlink(target), Now())
    {
      var found := endpointRequests.CancelBySeqnum(target);
      var gone := if found then ledger.gone + {target} else ledger.gone;
      ledger := ledger.(waiting := endpointRequests.queues, gone := gone);
    }

    // ----- the blocking sender, section by section -----

    /** Phase 1 as entered: with a full buffer it first tries to drain. */
    method BlockingBegin(data: seq<byte>) returns (outcome: Phase1)
      requires Valid()
      modifies this`sent, this`ledger, this`accepted, this`flushing, txBuffer, txBuffer.buffer, endpointRequests
      ensures Valid() && (txBuffer.buffer == old(txBuffer.buffer) || fresh(txBuffer.buffer))
      ensures Step(old(Now()), Section.BlockingBegin(data), Now())
      ensures outcome.GaveUp? <==> old(disconnected)
      ensures outcome.MustWait? ==> Full(Now()) && Now().accepted == old(Now()).accepted
      ensures outcome.Wrote? <==> flushing == old(flushing) + 1
      ensures outcome.Wrote? ==> outcome.written == |accepted| - |old(accepted)|
    {
      if disconnected { return GaveUp; }
      ghost var before := Now();
      DrainIfFull();
      ghost var mid := Now();
      outcome := BlockingWake(data);
      BeginIs(before, data, mid, Now());
    }

    method DrainIfFull()
      requires Valid()
      modifies this`sent, this`ledger, txBuffer`head, txBuffer`count, txBuffer`contents, endpointRequests
      ensures Valid() && if Full(old(Now())) then Drained(old(Now()), Now()) else Now() == old(Now())
    {
      if txBuffer.capacity == txBuffer.count {
        TrySendPendingLocked();
      }
    }

    /** Phase 1 with the lock held again after a wait: writes what fits and wants the flush, or waits on. */
    method BlockingWake(data: seq<byte>) returns (outcome: Phase1)
      requires Valid()
      modifies this`accepted, this`flushing, txBuffer, txBuffer.buffer
      ensures Valid() && (txBuffer.buffer == old(txBuffer.buffer) || fresh(txBuffer.buffer))
      ensures outcome.GaveUp? <==> old(disconnected)
      ensures outcome.MustWait? <==> !old(disconnected) && Full(old(Now()))
      ensures outcome.Wrote? ==> outcome.written == Min(|data|, txBuffer.capacity - |old(txBuffer.contents)|)
      ensures Now() == Block(old(Now()), data)
    {
      if disconnected { return GaveUp; }
      if txBuffer.capacity == txBuffer.count { return MustWait; }
      ghost var before := Now();
      var written := FillBuffer(data);
      ghost var filled := Now();
      flushing := flushing + 1;
      outcome := Wrote(written);
      BlockIs(before, data, filled, Now());
    }

    /** Phase 2. */
    method BlockingFlush()
      requires Valid() && flushing > 0
      modifies this`sent, this`ledger, this`flushing, txBuffer`head, txBuffer`count, txBuffer`contents, endpointRequests
      ensures Valid() && Step(old(Now()), Section.BlockingFlush, Now())
    {
      flushing := flushing - 1;
      TrySendPendingLocked();
    }

    // ----- connections and configuration -----

    method OnNewConnection()
      requires Valid() && ledger.waiting == map[]
      modifies this
      ensures Valid() && Step(old(Now()), Connect, Now())
    {
      disconnected := false;
      sent, accepted, ledger := [], txBuffer.contents, Fresh();
    }

    method OnDisconnection()
      requires Valid()
      modifies this, txBuffer, endpointRequests
      ensures Valid()
      ensures exists mid: State :: Step(old(Now()), DisconnectBuffer, mid) && Step(mid, DisconnectRequests, Now())
    {
      disconnected := true;
      accepted := Payloads(sent);
      txBuffer.Clear();
      ghost var mid := Now();
      ledger := Emptied(ledger);
      endpointRequests.Clear();
      assert Step(mid, DisconnectRequests, Now());
    }

    method SetTxBufferCapacity(capacity: nat)
      requires Valid()
      modifies this`accepted, txBuffer, txBuffer.buffer
      ensures Valid() && fresh(txBuffer.buffer) && Step(old(Now()), SetCapacity(capacity), Now())
    {
      txBuffer.Resize(capacity);
      accepted := Payloads(sent) + txBuffer.contents;
    }
  }
}
