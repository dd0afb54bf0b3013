/**
 What becomes of IN requests: a ledger of the requests that arrived, those answered, those waiting and those taken
 back.  Both the CDC and the HID transmit paths keep one; its law says each request has exactly one fate, in order.
 */
module RequestLedger {
  import opened Basics
  import opened RequestQueue

  datatype Ledger = Ledger(
    waiting: Queues,
    arrived: Queues,                    // every request of this connection, by endpoint, in order of arrival
    asked: map<u32, byte>,              // the endpoint each seqnum was used on
    served: seq<(byte, Request)>,       // requests answered, in order of the answers
    gone: set<u32>)                     // requests cancelled or cleared while they waited

  function Fresh(): Ledger {
    Ledger(map[], map[], map[], [], {})
  }

  /** A request's answer. */
  datatype Response = Response(seqnum: u32, data: seq<byte>)

  /** The answers are to the served requests, in order, and none is longer than its request asked for. */
  ghost predicate Answers(sent: seq<Response>, served: seq<(byte, Request)>) {
    && |sent| == |served|
    && forall i | 0 <= i < |sent| ::
         sent[i].seqnum == served[i].1.seqnum && |sent[i].data| <= served[i].1.length
  }

  // ----- moves -----

  ghost function Ask(l: Ledger, ep: byte, request: Request): Ledger {
    l.(waiting := l.waiting[ep := At(l.waiting, ep) + [request]],
       arrived := l.arrived[ep := At(l.arrived, ep) + [request]],
       asked := l.asked[request.seqnum := ep])
  }

  ghost function Take(l: Ledger, ep: byte): Ledger
    requires At(l.waiting, ep) != []
  {
    l.(waiting := l.waiting[ep := At(l.waiting, ep)[1..]], served := l.served + [(ep, At(l.waiting, ep)[0])])
  }

  /** A request answered on arrival, without waiting. */
  ghost function Pass(l: Ledger, ep: byte, request: Request): Ledger {
    l.(arrived := l.arrived[ep := At(l.arrived, ep) + [request]],
       asked := l.asked[request.seqnum := ep],
       served := l.served + [(ep, request)])
  }

  /** CMD_UNLINK: the target stops waiting; nothing happens if it is not waiting. */
  ghost predicate Unlinked(l: Ledger, target: u32, end: Ledger) {
    && Cancelled(l.waiting, target, end.waiting)
    && end == l.(waiting := end.waiting, gone := if Waits(l.waiting, target) then l.gone + {target} else l.gone)
  }

  ghost function Seqnums(q: Queues): set<u32> {
    set ep, i | ep in q && 0 <= i < |q[ep]| :: q[ep][i].seqnum
  }

  ghost function Emptied(l: Ledger): Ledger {
    l.(waiting := map[], gone := l.gone + Seqnums(l.waiting))
  }

  // ----- the law -----

  /** The requests of `s` that are not in `gone`, in order. */
  function Kept(s: seq<Request>, gone: set<u32>): seq<Request> {
    if s == [] then []
    else Kept(s[..|s| - 1], gone) + if s[|s| - 1].seqnum in gone then [] else [s[|s| - 1]]
  }

  function ServedAt(served: seq<(byte, Request)>, ep: byte): seq<Request> {
    if served == [] then []
    else ServedAt(served[..|served| - 1], ep) + if served[|served| - 1].0 == ep then [served[|served| - 1].1] else []
  }

  ghost predicate Distinct(s: seq<Request>) {
    forall i, j :: 0 <= i < j < |s| ==> s[i].seqnum != s[j].seqnum
  }

  /** One endpoint's arrivals, less those taken back, are its answered requests followed by its waiting ones. */
  ghost predicate Balanced(l: Ledger, ep: byte) {
    && Kept(At(l.arrived, ep), l.gone) == ServedAt(l.served, ep) + At(l.waiting, ep)
    && Distinct(At(l.arrived, ep))
    && forall i | 0 <= i < |At(l.arrived, ep)| ::
         var s := At(l.arrived, ep)[i].seqnum; s in l.asked && l.asked[s] == ep
  }

  ghost predicate Lawful(l: Ledger) {
    && (forall ep: byte {:trigger Balanced(l, ep)} :: Balanced(l, ep))
    && forall s | s in l.gone :: s in l.asked
  }

  // ----- lemmas about filtering -----

  lemma {:induction false} KeptAppend(a: seq<Request>, b: seq<Request>, gone: set<u32>)
    ensures Kept(a + b, gone) == Kept(a, gone) + Kept(b, gone)
  {
    if b == [] {
      assert a + b == a;
    } else {
      assert (a + b)[..|a + b| - 1] == a + b[..|b| - 1];
      KeptAppend(a, b[..|b| - 1], gone);
    }
  }

  lemma {:induction false} KeptIsWithin(s: seq<Request>, gone: set<u32>)
    ensures forall r | r in Kept(s, gone) :: r in s && r.seqnum !in gone
    ensures Distinct(s) ==> Distinct(Kept(s, gone))
  {
    if s != [] {
      KeptIsWithin(s[..|s| - 1], gone);
    }
  }

  lemma {:induction false} KeptTwice(s: seq<Request>, gone: set<u32>, more: set<u32>)
    ensures Kept(s, gone + more) == Kept(Kept(s, gone), more)
  {
    if s != [] {
      KeptTwice(s[..|s| - 1], gone, more);
      var last := s[|s| - 1];
      KeptAppend(Kept(s[..|s| - 1], gone), if last.seqnum in gone then [] else [last], more);
      KeptOne(last, more);
    }
  }

  lemma KeptOne(r: Request, gone: set<u32>)
    ensures Kept([r], gone) == if r.seqnum in gone then [] else [r]
  {
    assert [r][..0] == [];
  }

  lemma {:induction false} KeptAll(s: seq<Request>, gone: set<u32>)
    requires forall r | r in s :: r.seqnum !in gone
    ensures Kept(s, gone) == s
  {
    if s != [] {
      KeptAll(s[..|s| - 1], gone);
      assert s[|s| - 1] in s;
    }
  }

  lemma {:induction false} KeptNone(s: seq<Request>, gone: set<u32>)
    requires forall r | r in s :: r.seqnum in gone
    ensures Kept(s, gone) == []
  {
    if s != [] {
      KeptNone(s[..|s| - 1], gone);
      assert s[|s| - 1] in s;
    }
  }

  lemma WithoutKeepsLast(s: seq<Request>, i: nat)
    requires i < |s| - 1
    ensures Without(s, i) == Without(s[..|s| - 1], i) + [s[|s| - 1]]
  {
  }

  lemma {:induction false} KeptWithout(s: seq<Request>, i: nat, target: u32)
    requires Distinct(s) && i < |s| && s[i].seqnum == target
    ensures Kept(s, {target}) == Without(s, i)
  {
    var init := s[..|s| - 1];
    if i == |s| - 1 {
      forall r | r in init ensures r.seqnum !in {target} { }
      KeptAll(init, {target});
    } else {
      assert init[i] == s[i] && s[|s| - 1].seqnum != target;
      KeptWithout(init, i, target);
      WithoutKeepsLast(s, i);
    }
  }

  lemma ServedSnoc(served: seq<(byte, Request)>, ep: byte, e: byte, r: Request)
    ensures ServedAt(served + [(e, r)], ep) == ServedAt(served, ep) + if e == ep then [r] else []
  {
    assert (served + [(e, r)])[..|served|] == served;
  }

  // ----- every move keeps the law -----

  /** Requests that wait or were served at an endpoint arrived there and are not gone. */
  lemma PlacesAreOwn(l: Ledger, ep: byte, r: Request)
    requires Lawful(l) && (r in At(l.waiting, ep) || r in ServedAt(l.served, ep))
    ensures r in At(l.arrived, ep) && r.seqnum !in l.gone && r.seqnum in l.asked && l.asked[r.seqnum] == ep
  {
    assert Balanced(l, ep);
    KeptIsWithin(At(l.arrived, ep), l.gone);
    assert r in Kept(At(l.arrived, ep), l.gone);
  }

  lemma DistinctSnoc(s: seq<Request>, r: Request)
    requires Distinct(s) && forall i | 0 <= i < |s| :: s[i].seqnum != r.seqnum
    ensures Distinct(s + [r])
  {
  }

  lemma AskKeeps(l: Ledger, ep: byte, request: Request)
    requires Lawful(l) && request.seqnum !in l.asked
    ensures var end := Ask(l, ep, request);
            Kept(At(end.arrived, ep), end.gone) == ServedAt(end.served, ep) + At(end.waiting, ep)
  {
    assert Balanced(l, ep);
    KeptAppend(At(l.arrived, ep), [request], l.gone);
    KeptOne(request, l.gone);
    var a, w := ServedAt(l.served, ep), At(l.waiting, ep);
    assert a + w + [request] == a + (w + [request]);
  }

  lemma AskAtEndpoint(l: Ledger, ep: byte, request: Request)
    requires Lawful(l) && request.seqnum !in l.asked
    ensures Balanced(Ask(l, ep, request), ep)
  {
    assert Balanced(l, ep);
    AskKeeps(l, ep, request);
    DistinctSnoc(At(l.arrived, ep), request);
  }

  lemma AskIsLawful(l: Ledger, ep: byte, request: Request)
    requires Lawful(l) && request.seqnum !in l.asked
    ensures Lawful(Ask(l, ep, request))
  {
    var end := Ask(l, ep, request);
    forall e: byte ensures Balanced(end, e) {
      assert Balanced(l, e);
      if e == ep { AskAtEndpoint(l, ep, request); }
    }
  }

  lemma TakeIsLawful(l: Ledger, ep: byte)
    requires Lawful(l) && At(l.waiting, ep) != []
    ensures Lawful(Take(l, ep))
  {
    var end, w := Take(l, ep), At(l.waiting, ep);
    forall e: byte ensures Balanced(end, e) {
      assert Balanced(l, e);
      ServedSnoc(l.served, e, ep, w[0]);
      if e == ep { assert ServedAt(l.served, ep) + w == ServedAt(l.served, ep) + [w[0]] + w[1..]; }
    }
  }

  /** A request answered on arrival behaves as one that waited for no time, if no other waits at its endpoint. */
  lemma PassIsLawful(l: Ledger, ep: byte, request: Request)
    requires Lawful(l) && request.seqnum !in l.asked && At(l.waiting, ep) == []
    ensures Lawful(Pass(l, ep, request))
  {
    var end, waited := Pass(l, ep, request), Take(Ask(l, ep, request), ep);
    AskIsLawful(l, ep, request);
    TakeIsLawful(Ask(l, ep, request), ep);
    forall e: byte ensures Balanced(end, e) {
      assert Balanced(waited, e);
      assert At(end.waiting, e) == At(waited.waiting, e);
    }
  }

  /** Taking waiting requests back: what remains, at one endpoint. */
  lemma TakenBack(l: Ledger, ep: byte, more: set<u32>)
    requires Lawful(l) && forall s | s in more :: Waits(l.waiting, s)
    ensures Kept(At(l.arrived, ep), l.gone + more) == ServedAt(l.served, ep) + Kept(At(l.waiting, ep), more)
  {
    var a, w := ServedAt(l.served, ep), At(l.waiting, ep);
    assert Balanced(l, ep);
    KeptTwice(At(l.arrived, ep), l.gone, more);
    KeptAppend(a, w, more);
    forall r | r in a ensures r.seqnum !in more {
      if r.seqnum in more { ServedDoNotWait(l, ep, r); }
    }
    KeptAll(a, more);
  }

  lemma ServedDoNotWait(l: Ledger, ep: byte, r: Request)
    requires Lawful(l) && r in ServedAt(l.served, ep)
    ensures !Waits(l.waiting, r.seqnum)
  {
    forall e: byte, i: nat | i < |At(l.waiting, e)| ensures At(l.waiting, e)[i].seqnum != r.seqnum {
      PlacesAreOwn(l, ep, r);
      PlacesAreOwn(l, e, At(l.waiting, e)[i]);
      if e == ep {
        var j :| 0 <= j < |ServedAt(l.served, ep)| && ServedAt(l.served, ep)[j] == r;
        ServedBeforeWaiting(l, ep, j, i);
      }
    }
  }

  lemma ServedBeforeWaiting(l: Ledger, ep: byte, j: nat, i: nat)
    requires Balanced(l, ep) && j < |ServedAt(l.served, ep)| && i < |At(l.waiting, ep)|
    ensures ServedAt(l.served, ep)[j].seqnum != At(l.waiting, ep)[i].seqnum
  {
    var a, w := ServedAt(l.served, ep), At(l.waiting, ep);
    KeptIsWithin(At(l.arrived, ep), l.gone);
    assert (a + w)[j] == a[j] && (a + w)[|a| + i] == w[i];
  }

  lemma UnlinkIsLawful(l: Ledger, target: u32, end: Ledger)
    requires Lawful(l) && Unlinked(l, target, end)
    ensures Lawful(end)
  {
    if Waits(l.waiting, target) {
      var ep: byte, i: nat :| FirstAt(At(l.waiting, ep), target, i)
                           && end.waiting == l.waiting[ep := Without(At(l.waiting, ep), i)];
      var w := At(l.waiting, ep);
      PlacesAreOwn(l, ep, w[i]);
      forall e: byte ensures Balanced(end, e) {
        assert Balanced(l, e);
        TakenBack(l, e, {target});
        if e == ep {
          WaitingIsDistinct(l, ep);
          KeptWithout(w, i, target);
        } else {
          forall r | r in At(l.waiting, e) ensures r.seqnum != target { PlacesAreOwn(l, e, r); }
          KeptAll(At(l.waiting, e), {target});
        }
      }
    } else {
      forall e: byte ensures Balanced(end, e) { assert Balanced(l, e); }
    }
  }

  lemma WaitingIsDistinct(l: Ledger, ep: byte)
    requires Balanced(l, ep)
    ensures Distinct(At(l.waiting, ep))
  {
    var a, w := ServedAt(l.served, ep), At(l.waiting, ep);
    KeptIsWithin(At(l.arrived, ep), l.gone);
    forall i, j | 0 <= i < j < |w| ensures w[i].seqnum != w[j].seqnum {
      assert (a + w)[|a| + i] == w[i] && (a + w)[|a| + j] == w[j];
    }
  }

  lemma EmptyIsLawful(l: Ledger)
    requires Lawful(l)
    ensures Lawful(Emptied(l))
  {
    var end, more := Emptied(l), Seqnums(l.waiting);
    forall s | s in more ensures Waits(l.waiting, s) && s in l.asked {
      var ep, i :| ep in l.waiting && 0 <= i < |l.waiting[ep]| && s == l.waiting[ep][i].seqnum;
      assert At(l.waiting, ep)[i].seqnum == s;
      PlacesAreOwn(l, ep, l.waiting[ep][i]);
    }
    forall e: byte ensures Balanced(end, e) {
      assert Balanced(l, e);
      TakenBack(l, e, more);
      forall r | r in At(l.waiting, e) ensures r.seqnum in more { }
      KeptNone(At(l.waiting, e), more);
    }
  }

  // ----- what the law means for one request -----

  /** Every request that arrived is waiting, answered or taken back: exactly one of the three. */
  lemma OneFate(l: Ledger, ep: byte, r: Request)
    requires Lawful(l) && r in At(l.arrived, ep)
    ensures r.seqnum in l.gone ==> r !in At(l.waiting, ep) && r !in ServedAt(l.served, ep)
    ensures r.seqnum !in l.gone ==> (r in At(l.waiting, ep) <==> r !in ServedAt(l.served, ep))
    ensures Distinct(ServedAt(l.served, ep) + At(l.waiting, ep))
  {
    assert Balanced(l, ep);
    KeptIsWithin(At(l.arrived, ep), l.gone);
    if r in At(l.waiting, ep) || r in ServedAt(l.served, ep) { PlacesAreOwn(l, ep, r); }
    if r in ServedAt(l.served, ep) { ServedDoNotWait(l, ep, r); }
    if r.seqnum !in l.gone {
      KeptHasAll(At(l.arrived, ep), l.gone, r);
      assert r in ServedAt(l.served, ep) + At(l.waiting, ep);
    }
  }

  lemma {:induction false} KeptHasAll(s: seq<Request>, gone: set<u32>, r: Request)
    requires r in s && r.seqnum !in gone
    ensures r in Kept(s, gone)
  {
    if r != s[|s| - 1] { KeptHasAll(s[..|s| - 1], gone, r); }
  }
}
