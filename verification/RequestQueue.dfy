/** Waiting IN requests of a virtual interface, one FIFO per endpoint address. */
module RequestQueue {
  import opened Basics

  /** An IN request the host is waiting on (its transfer handle travels with it). */
  datatype Request = Request(seqnum: u32, length: nat)

  type Queues = map<byte, seq<Request>>

  function At(q: Queues, ep: byte): seq<Request> {
    if ep in q then q[ep] else []
  }

  ghost predicate NoneWaiting(q: Queues) {
    forall ep: byte :: At(q, ep) == []
  }

  // ----- how many requests wait: the drain loops' measure -----

  ghost function Total(q: Queues, n: nat): nat
    requires n <= 0x100
  {
    if n == 0 then 0 else Total(q, n - 1) + |At(q, n - 1)|
  }

  lemma {:induction false} TotalChanges(q: Queues, ep: byte, s: seq<Request>, n: nat)
    requires n <= 0x100
    ensures Total(q[ep := s], n) == Total(q, n) + if ep < n then |s| - |At(q, ep)| else 0
  {
    if n != 0 { TotalChanges(q, ep, s, n - 1); }
  }

  // ----- requests by seqnum -----

  function Without(s: seq<Request>, i: nat): seq<Request>
    requires i < |s|
  {
    s[..i] + s[i + 1..]
  }

  /** The first request in `s` with this seqnum is at `i`. */
  ghost predicate FirstAt(s: seq<Request>, seqnum: u32, i: nat) {
    i < |s| && s[i].seqnum == seqnum && forall j | 0 <= j < i :: s[j].seqnum != seqnum
  }

  ghost predicate Waits(q: Queues, seqnum: u32) {
    exists ep: byte, i: nat :: i < |At(q, ep)| && At(q, ep)[i].seqnum == seqnum
  }

  /** q2 is q with the first matching request of one endpoint taken out, or q if there is none. */
  ghost predicate Cancelled(q: Queues, seqnum: u32, q2: Queues) {
    if Waits(q, seqnum)
    then exists ep: byte, i: nat :: FirstAt(At(q, ep), seqnum, i) && q2 == q[ep := Without(At(q, ep), i)]
    else q2 == q
  }

  class EndpointRequestQueue {
    var queues: Queues

    constructor ()
      ensures queues == map[]
    {
      queues := map[];
    }

    method Enqueue(ep: byte, request: Request)
      modifies this
      ensures queues == old(queues)[ep := At(old(queues), ep) + [request]]
    {
      queues := queues[ep := At(queues, ep) + [request]];
    }

    method Dequeue(ep: byte) returns (request: Option<Request>)
      modifies this
      ensures request.None? <==> At(old(queues), ep) == []
      ensures request.None? ==> queues == old(queues)
      ensures request.Some? ==>
                request.value == At(old(queues), ep)[0] && queues == old(queues)[ep := At(old(queues), ep)[1..]]
    {
      if ep !in queues || queues[ep] == [] { return None; }
      request := Some(queues[ep][0]);
      queues := queues[ep := queues[ep][1..]];
    }

    /** Takes the oldest request of some endpoint; which endpoint is the hash table's choice. */
    method DequeueAny() returns (taken: Option<(byte, Request)>)
      modifies this
      ensures taken.None? ==> NoneWaiting(queues) && queues == old(queues)
      ensures taken.Some? ==>
                var (ep, request) := taken.value;
                && At(old(queues), ep) != [] && request == At(old(queues), ep)[0]
                && queues == old(queues)[ep := At(old(queues), ep)[1..]]
    {
      var left := queues.Keys;
      while left != {}
        invariant queues == old(queues) && left <= queues.Keys
        invariant forall ep: byte :: ep in left || At(queues, ep) == []
        decreases |left|
      {
        var ep :| ep in left;
        if queues[ep] != [] {
          taken := Some((ep, queues[ep][0]));
          queues := queues[ep := queues[ep][1..]];
          return;
        }
        left := left - {ep};
      }
      taken := None;
    }

    predicate Empty(ep: byte)
      reads this
      ensures Empty(ep) <==> At(queues, ep) == []
    {
      ep !in queues || queues[ep] == []
    }

    method CancelBySeqnum(seqnum: u32) returns (found: bool)
      modifies this
      ensures found <==> Waits(old(queues), seqnum)
      ensures Cancelled(old(queues), seqnum, queues)
    {
      var left := queues.Keys;
      while left != {}
        invariant queues == old(queues) && left <= queues.Keys
        invariant forall ep: byte, i: nat | ep !in left && i < |At(queues, ep)| :: At(queues, ep)[i].seqnum != seqnum
        decreases |left|
      {
        var ep :| ep in left;
        var i := Find(queues[ep], seqnum);
        if i < |queues[ep]| {
          assert FirstAt(At(queues, ep), seqnum, i);
          queues := queues[ep := Without(queues[ep], i)];
          return true;
        }
        left := left - {ep};
      }
      found := false;
    }

    static method Find(s: seq<Request>, seqnum: u32) returns (i: nat)
      ensures i <= |s|
      ensures i < |s| ==> FirstAt(s, seqnum, i)
      ensures i == |s| ==> forall j | 0 <= j < |s| :: s[j].seqnum != seqnum
    {
      i := 0;
      while i < |s| && s[i].seqnum != seqnum
        invariant i <= |s|
        invariant forall j | 0 <= j < i :: s[j].seqnum != seqnum
      {
        i := i + 1;
      }
    }

    method Clear()
      modifies this
      ensures queues == map[]
    {
      queues := map[];
    }
  }
}
