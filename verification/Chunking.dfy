/**
 Chunked transfers: how a large bulk transfer is cut into chunks, and what one chunk's completion does before the
 next is submitted.  Unlinks and cancellations are not part of this model: a chunk cancelled by a neighbour is
 resubmitted, and a refused resubmission shows up as an Error outcome without data.
 */
module Chunking {
  import opened Basics
  import U = UrbProtocol

  type TrxStatus = U.TrxStatus

  function Sum(xs: seq<nat>): nat {
    if xs == [] then 0 else Sum(xs[..|xs| - 1]) + xs[|xs| - 1]
  }

  lemma {:induction false} SumPrefix(xs: seq<nat>, k: nat)
    requires k <= |xs|
    ensures Sum(xs[..k]) <= Sum(xs)
    decreases |xs|
  {
    if k == |xs| {
      assert xs[..k] == xs;
    } else {
      assert xs[..|xs| - 1][..k] == xs[..k];
      SumPrefix(xs[..|xs| - 1], k);
    }
  }

  lemma SumTakes(xs: seq<nat>, k: nat)
    requires k < |xs|
    ensures Sum(xs[..k + 1]) == Sum(xs[..k]) + xs[k] <= Sum(xs)
  {
    assert xs[..k + 1][..k] == xs[..k];
    SumPrefix(xs, k + 1);
  }

  // ----- sizes -----

  function RoundUp(n: nat, mps: nat): nat
    requires mps > 0
  {
    (n + mps - 1) / mps * mps
  }

  lemma RoundUpIsNextMultiple(n: nat, mps: nat)
    requires mps > 0
    ensures RoundUp(n, mps) % mps == 0 && n <= RoundUp(n, mps) < n + mps
  {
    var q := (n + mps - 1) / mps;
    DivModUnique(q * mps, mps, q, 0);
  }

  lemma AtLeastOnce(x: int, m: nat)
    requires x >= 1 && m > 0
    ensures x * m >= m
  {
    assert x * m == (x - 1) * m + m && (x - 1) * m >= 0;
  }

  lemma DivModUnique(a: nat, m: nat, q: nat, r: nat)
    requires m > 0 && a == q * m + r && r < m
    ensures a / m == q && a % m == r
  {
    var q1, r1 := a / m, a % m;
    assert a == q1 * m + r1 && (q1 - q) * m == r - r1 && (q - q1) * m == r1 - r;
    if q1 > q {
      AtLeastOnce(q1 - q, m);
    } else if q1 < q {
      AtLeastOnce(q - q1, m);
    }
  }

  lemma AddModulus(a: nat, m: nat)
    requires m > 0
    ensures (a + m) / m == a / m + 1
  {
    assert (a / m + 1) * m == a / m * m + m;
    DivModUnique(a + m, m, a / m + 1, a % m);
  }

  /** ceil(n / chunk) */
  function Pieces(n: nat, chunk: nat): nat
    requires chunk > 0
  {
    (n + chunk - 1) / chunk
  }

  lemma PiecesStep(n: nat, chunk: nat)
    requires chunk > 0
    ensures n == 0 ==> Pieces(n, chunk) == 0
    ensures n > 0 ==> Pieces(n, chunk) == 1 + Pieces(n - Min(n, chunk), chunk)
  {
    if n == 0 {
      DivModUnique(chunk - 1, chunk, 0, chunk - 1);
    } else {
      AddModulus(n - 1, chunk);
      if n < chunk {
        DivModUnique(n - 1, chunk, 0, n - 1);
        DivModUnique(chunk - 1, chunk, 0, chunk - 1);
      }
    }
  }

  /** A chunk's buffer: what it carries, rounded up to whole packets where the packet size is known. */
  function BufferSize(n: nat, mps: nat): nat {
    if mps > 0 && n % mps != 0 then RoundUp(n, mps) else n
  }

  function BufferSizes(length: nat, chunk: nat, mps: nat): seq<nat>
    requires chunk > 0
    decreases length
  {
    if length == 0 then []
    else [BufferSize(Min(length, chunk), mps)] + BufferSizes(length - Min(length, chunk), chunk, mps)
  }

  lemma NextBuffer(sizes: seq<nat>, remaining: nat, chunk: nat, mps: nat)
    requires chunk > 0 && remaining > 0
    ensures var next, n := BufferSize(Min(remaining, chunk), mps), Min(remaining, chunk);
            && sizes + BufferSizes(remaining, chunk, mps) == (sizes + [next]) + BufferSizes(remaining - n, chunk, mps)
            && Sum(sizes + [next]) == Sum(sizes) + next
  {
    assert (sizes + [BufferSize(Min(remaining, chunk), mps)])[..|sizes|] == sizes;
  }

  /** The allocation loop. */
  method AllocChunks(length: nat, chunkSize: nat, mps: nat) returns (sizes: seq<nat>, totalAligned: nat)
    requires chunkSize > 0
    ensures sizes == BufferSizes(length, chunkSize, mps) && totalAligned == Sum(sizes)
  {
    sizes, totalAligned := [], 0;
    var remaining := length;
    while remaining > 0
      invariant 0 <= remaining <= length
      invariant BufferSizes(length, chunkSize, mps) == sizes + BufferSizes(remaining, chunkSize, mps)
      invariant totalAligned == Sum(sizes)
    {
      var allocSize: nat := Min(remaining, chunkSize);
      if mps > 0 && allocSize % mps != 0 {
        allocSize := (allocSize + mps - 1) / mps * mps;
      }
      NextBuffer(sizes, remaining, chunkSize, mps);
      totalAligned := totalAligned + allocSize;
      sizes := sizes + [allocSize];
      remaining := remaining - Min(remaining, chunkSize);
    }
  }

  /** There are ceil(length / chunk) chunks; each is whole packets, and together they hold the transfer. */
  lemma {:induction false} BufferSizesCover(length: nat, chunk: nat, mps: nat)
    requires chunk > 0
    ensures var sizes := BufferSizes(length, chunk, mps);
            && |sizes| == Pieces(length, chunk)
            && (mps > 0 ==> forall i | 0 <= i < |sizes| :: sizes[i] % mps == 0)
            && length <= Sum(sizes)
    decreases length
  {
    PiecesStep(length, chunk);
    if length > 0 {
      var piece := Min(length, chunk);
      BufferSizesCover(length - piece, chunk, mps);
      SumCons(BufferSize(piece, mps), BufferSizes(length - piece, chunk, mps));
      BufferIsWholePackets(piece, mps);
    }
  }

  /** No chunk's buffer is larger than that: the i-th carries chunk bytes or what is left, and is less than a packet
      larger; with the packet size unknown it is no larger at all. */
  lemma {:induction false} BufferSizesAreSnug(length: nat, chunk: nat, mps: nat, i: nat)
    requires chunk > 0 && i < |BufferSizes(length, chunk, mps)|
    ensures var carried := Min(chunk, length - chunk * i);
            0 < carried <= BufferSizes(length, chunk, mps)[i] < carried + if mps > 0 then mps else 1
    decreases length
  {
    var piece := Min(length, chunk);
    if i == 0 {
      if mps > 0 { RoundUpIsNextMultiple(piece, mps); }
    } else {
      assert BufferSizes(length, chunk, mps)[i] == BufferSizes(length - piece, chunk, mps)[i - 1];
      assert chunk * i == chunk + chunk * (i - 1) && length > chunk;
      BufferSizesAreSnug(length - piece, chunk, mps, i - 1);
    }
  }

  lemma BufferIsWholePackets(n: nat, mps: nat)
    ensures n <= BufferSize(n, mps) && (mps > 0 ==> BufferSize(n, mps) % mps == 0)
  {
    if mps > 0 { RoundUpIsNextMultiple(n, mps); }
  }

  lemma {:induction false} SumCons(x: nat, xs: seq<nat>)
    ensures Sum([x] + xs) == x + Sum(xs)
  {
    if xs == [] {
      assert [x] + xs == [x] && [x][..0] == [];
    } else {
      assert ([x] + xs)[..|xs|] == [x] + xs[..|xs| - 1];
      SumCons(x, xs[..|xs| - 1]);
    }
  }

  // ----- OUT: filling the chunks -----

  function Split(payload: seq<byte>, sizes: seq<nat>): seq<seq<byte>>
    decreases |sizes|
  {
    if sizes == [] || payload == [] then []
    else var n := Min(|payload|, sizes[0]); [payload[..n]] + Split(payload[n..], sizes[1..])
  }

  /** Reads the payload into the chunks' buffers, in order. */
  method RecvTransferData(payload: seq<byte>, sizes: seq<nat>) returns (pieces: seq<seq<byte>>)
    ensures pieces == Split(payload, sizes)
  {
    pieces := [];
    var remaining, at := |payload|, 0;
    for i := 0 to |sizes|
      invariant 0 <= at && remaining == |payload| - at >= 0
      invariant Split(payload, sizes) == pieces + Split(payload[at..], sizes[i..])
    {
      if remaining == 0 { break; }
      var chunkLen := Min(remaining, sizes[i]);
      var left := payload[at..];
      assert left[..chunkLen] == payload[at..at + chunkLen] && left[chunkLen..] == payload[at + chunkLen..];
      assert sizes[i..][1..] == sizes[i + 1..];
      pieces := pieces + [payload[at..at + chunkLen]];
      remaining, at := remaining - chunkLen, at + chunkLen;
    }
  }

  /** An OUT payload is cut into exactly the allocated chunks, each full, and nothing is lost or reordered. */
  lemma {:induction false} SplitIsLossless(payload: seq<byte>, chunk: nat)
    requires chunk > 0
    ensures var sizes := BufferSizes(|payload|, chunk, 0);
            var pieces := Split(payload, sizes);
            && Flatten(pieces) == payload
            && |pieces| == |sizes|
            && forall i | 0 <= i < |sizes| :: 0 < |pieces[i]| == sizes[i] <= chunk
    decreases |payload|
  {
    if payload != [] {
      var n := Min(|payload|, chunk);
      SplitIsLossless(payload[n..], chunk);
      var rest := BufferSizes(|payload| - n, chunk, 0);
      assert BufferSizes(|payload|, chunk, 0) == [n] + rest && ([n] + rest)[1..] == rest;
      var pieces := Split(payload[n..], rest);
      assert Split(payload, [n] + rest) == [payload[..n]] + pieces && ([payload[..n]] + pieces)[1..] == pieces;
      assert payload[..n] + payload[n..] == payload;
    }
  }

  // ----- one chunk at a time -----

  /** Severity order of the host stack's statuses. */
  function Rank(s: TrxStatus): nat {
    match s
    case Completed => 0
    case Error => 1
    case TimedOut => 2
    case Canceled => 3
    case Stall => 4
    case Overflow => 5
    case Skipped => 6
    case NoDevice => 7
  }

  function Worse(a: TrxStatus, b: TrxStatus): TrxStatus {
    if Rank(b) > Rank(a) then b else a
  }

  predicate Hard(s: TrxStatus) {
    s.Stall? || s.NoDevice?
  }

  /** How one chunk ended, and whether the host stack takes the next one if it is offered. */
  datatype Outcome = Outcome(status: TrxStatus, data: seq<byte>, nextAccepted: bool)

  datatype Progress = Progress(
    buffer: seq<byte>,     // in_data, of in_data_size bytes
    total: nat,            // total_actual_length
    current: nat,          // current_chunk
    pending: int,          // pending_count: chunks with the host stack
    inShort: bool,
    worst: TrxStatus)

  /** The chunk's own part of the callback: status, bytes, short packet. */
  function Counted(sizes: seq<nat>, isOut: bool, p: Progress, o: Outcome): Progress
    requires p.current < |sizes|
    requires !isOut && o.status.Completed? ==> p.total + |o.data| <= |p.buffer|
  {
    var stores := !isOut && o.status.Completed?;
    p.(worst := Worse(p.worst, o.status),
       total := p.total + |o.data|,
       buffer := if stores then p.buffer[..p.total] + o.data + p.buffer[p.total + |o.data|..] else p.buffer,
       inShort := p.inShort || (stores && |o.data| < sizes[p.current]))
  }

  /** Whether a chunk is left to offer. */
  predicate Continues(sizes: seq<nat>, p: Progress) {
    !Hard(p.worst) && !p.inShort && p.current + 1 < |sizes|
  }

  function Advanced(sizes: seq<nat>, p: Progress, nextAccepted: bool): Progress {
    var q := p.(pending := p.pending - 1);
    if q.pending > 0 || !Continues(sizes, q) then q
    else if nextAccepted then q.(current := q.current + 1, pending := 1)
    else q.(current := q.current + 1, pending := 0, worst := Worse(q.worst, U.Error))
  }

  /** An outcome the host stack can report for the pending chunk: no more bytes than it was given room for. */
  predicate Possible(sizes: seq<nat>, p: Progress, o: Outcome) {
    p.pending > 0 && p.current < |sizes| && |o.data| <= sizes[p.current]
  }

  ghost predicate Sound(sizes: seq<nat>, isOut: bool, p: Progress) {
    && p.current < |sizes|
    && (!isOut ==> |p.buffer| == Sum(sizes))
    && 0 <= p.pending <= 1
    && p.total <= Sum(sizes[..if p.pending > 0 then p.current else p.current + 1])
    && (p.pending > 0 ==> !Hard(p.worst) && !p.inShort)
  }

  /** The copy into in_data stays inside it. */
  lemma CopyFits(sizes: seq<nat>, isOut: bool, p: Progress, o: Outcome)
    requires Sound(sizes, isOut, p) && Possible(sizes, p, o)
    ensures p.total + |o.data| <= Sum(sizes[..p.current + 1]) <= Sum(sizes)
    ensures p.current + 1 < |sizes| ==> Sum(sizes[..p.current + 1]) <= Sum(sizes[..p.current + 2])
  {
    SumTakes(sizes, p.current);
    if p.current + 1 < |sizes| { SumTakes(sizes, p.current + 1); }
  }

  ghost function Callback(sizes: seq<nat>, isOut: bool, p: Progress, o: Outcome): (q: Progress)
    requires Sound(sizes, isOut, p) && Possible(sizes, p, o)
    ensures Sound(sizes, isOut, q)
  {
    CopyFits(sizes, isOut, p, o);
    Advanced(sizes, Counted(sizes, isOut, p, o), o.nextAccepted)
  }

  class ChunkedTransfer {
    const isOut: bool
    const sizes: seq<nat>
    const inData: array<byte>
    var worst: TrxStatus
    var total: nat
    var current: nat
    var pendingCount: int
    var inShort: bool

    ghost function Now(): Progress
      reads this, inData
    {
      Progress(inData[..], total, current, pendingCount, inShort, worst)
    }

    ghost predicate Valid()
      reads this, inData
    {
      Sound(sizes, isOut, Now())
    }

    /** The transfer with its first chunk submitted. */
    constructor (isOut: bool, sizes: seq<nat>)
      requires sizes != []
      ensures Valid() && fresh(inData) && this.isOut == isOut && this.sizes == sizes
      ensures Now() == Progress(inData[..], 0, 0, 1, false, U.Completed)
    {
      var totalAligned := if isOut then 0 else Sum(sizes);
      this.isOut, this.sizes := isOut, sizes;
      inData := new byte[totalAligned];
      worst, total, current, pendingCount, inShort := U.Completed, 0, 0, 1, false;
    }

    /** Copies a completed IN chunk to in_data, right after what is already there. */
    method Store(data: seq<byte>)
      requires total + |data| <= inData.Length
      modifies inData
      ensures inData[..] == old(inData[..])[..total] + data + old(inData[..])[total + |data|..]
    {
      forall i | 0 <= i < |data| { inData[total + i] := data[i]; }
    }

    /** A chunk's own part of the callback. */
    method CountChunk(o: Outcome)
      requires current < |sizes| && (!isOut ==> total + |o.data| <= inData.Length)
      modifies this`worst, this`total, this`inShort, inData
      ensures Now() == Counted(sizes, isOut, old(Now()), o)
    {
      if Rank(o.status) > Rank(worst) { worst := o.status; }
      if isOut {
        total := total + |o.data|;
      } else if o.status.Completed? {
        Store(o.data);
        total := total + |o.data|;
        if |o.data| < sizes[current] { inShort := true; }
      } else {
        total := total + |o.data|;
      }
    }

    /** A chunk has ended: counts it and offers the next one. */
    method OnChunk(o: Outcome)
      requires Valid() && Possible(sizes, Now(), o)
      modifies this, inData
      ensures Now() == Callback(sizes, isOut, old(Now()), o)
      ensures Valid()
    {
      CopyFits(sizes, isOut, Now(), o);
      CountChunk(o);
      pendingCount := pendingCount - 1;
      if pendingCount > 0 { return; }
      var next := current + 1;
      if !Hard(worst) && !inShort && next < |sizes| {
        current, pendingCount := next, 1;
        if !o.nextAccepted {
          worst := Worse(worst, U.Error);
          pendingCount := pendingCount - 1;
        }
      }
    }
  }

  // ----- whole transfers -----

  /** The transfer after these chunk outcomes; None if one of them could not have happened. */
  ghost function After(sizes: seq<nat>, isOut: bool, start: Progress, outcomes: seq<Outcome>): Option<Progress>
    requires Sound(sizes, isOut, start)
    ensures After(sizes, isOut, start, outcomes).Some?
        ==> Sound(sizes, isOut, After(sizes, isOut, start, outcomes).value)
  {
    if outcomes == [] then Some(start)
    else
      var last := |outcomes| - 1;
      var before := After(sizes, isOut, start, outcomes[..last]);
      if before.Some? && Possible(sizes, before.value, outcomes[last])
      then Some(Callback(sizes, isOut, before.value, outcomes[last])) else None
  }

  ghost function Begin(sizes: seq<nat>, isOut: bool, garbage: seq<byte>): Progress
    requires sizes != [] && (!isOut ==> |garbage| == Sum(sizes))
    ensures Sound(sizes, isOut, Begin(sizes, isOut, garbage))
  {
    Progress(garbage, 0, 0, 1, false, U.Completed)
  }

  /** Everything the device returned (IN) or took (OUT), in order. */
  function Data(outcomes: seq<Outcome>): seq<byte> {
    if outcomes == [] then [] else Data(outcomes[..|outcomes| - 1]) + outcomes[|outcomes| - 1].data
  }

  /** Chunks are submitted in order, one outcome each: there are never more outcomes than chunks, so the loop ends. */
  lemma {:induction false} OneChunkAtATime(sizes: seq<nat>, isOut: bool, start: Progress, outcomes: seq<Outcome>)
    requires Sound(sizes, isOut, start) && start.current == 0 && start.pending == 1 && start.total == 0
    requires After(sizes, isOut, start, outcomes).Some?
    ensures var p := After(sizes, isOut, start, outcomes).value;
            && |outcomes| <= |sizes|
            && p.total == |Data(outcomes)|
            && p.pending in {0, 1}
            && (p.pending == 1 ==> p.current == |outcomes|)
            && (p.pending == 0 ==> |outcomes| - 1 <= p.current <= |outcomes|)
  {
    if outcomes != [] { OneChunkAtATime(sizes, isOut, start, outcomes[..|outcomes| - 1]); }
  }

  /** Why a transfer ends at this chunk: exactly for one of these reasons.  A hard error is missed when an earlier
      chunk already had a status that ranks above it. */
  lemma EndsExactlyWhen(sizes: seq<nat>, isOut: bool, p: Progress, o: Outcome)
    requires Sound(sizes, isOut, p) && Possible(sizes, p, o)
    ensures Callback(sizes, isOut, p, o).pending == 0 <==>
            || (o.status.NoDevice? || (o.status.Stall? && Rank(p.worst) <= Rank(U.Stall)))
            || (!isOut && o.status.Completed? && |o.data| < sizes[p.current])
            || p.current + 1 == |sizes|
            || !o.nextAccepted
  {
  }

  // ----- the status reported -----

  /** ESP-IDF's enumeration, in its order. */
  const STATUSES: seq<TrxStatus> :=
    [U.Completed, U.Error, U.TimedOut, U.Canceled, U.Stall, U.Overflow, U.Skipped, U.NoDevice]

  lemma RankIsPosition(s: TrxStatus)
    ensures Rank(s) < 8 && STATUSES[Rank(s)] == s
  {
  }

  /** The last of these chunks was not the end, but the host stack refused the next one. */
  predicate NextRefused(p: Progress, outcomes: seq<Outcome>) {
    outcomes != [] && p.pending == 0 && p.current == |outcomes|
  }

  /** No chunk has ended worse than with `worst`, and one has ended so; a refused chunk counts as an error. */
  ghost predicate IsWorst(worst: TrxStatus, p: Progress, outcomes: seq<Outcome>) {
    && (forall i | 0 <= i < |outcomes| :: Rank(outcomes[i].status) <= Rank(worst))
    && (NextRefused(p, outcomes) ==> Rank(U.Error) <= Rank(worst))
    && (|| worst.Completed? || (worst.Error? && NextRefused(p, outcomes))
        || exists i :: 0 <= i < |outcomes| && outcomes[i].status == worst)
  }

  /** The status of a chunked transfer is the worst, in the order of the enumeration, of its chunks'. */
  lemma {:induction false} WorstIsReported(sizes: seq<nat>, isOut: bool, garbage: seq<byte>, outcomes: seq<Outcome>)
    requires sizes != [] && (!isOut ==> |garbage| == Sum(sizes))
    requires After(sizes, isOut, Begin(sizes, isOut, garbage), outcomes).Some?
    ensures var p := After(sizes, isOut, Begin(sizes, isOut, garbage), outcomes).value; IsWorst(p.worst, p, outcomes)
  {
    if outcomes != [] {
      var init, last := outcomes[..|outcomes| - 1], outcomes[|outcomes| - 1];
      WorstIsReported(sizes, isOut, garbage, init);
      OneChunkAtATime(sizes, isOut, Begin(sizes, isOut, garbage), init);
      var p := After(sizes, isOut, Begin(sizes, isOut, garbage), init).value;
      WorstStep(sizes, isOut, p, init, last);
      assert init + [last] == outcomes;
      assert After(sizes, isOut, Begin(sizes, isOut, garbage), outcomes) == Some(Callback(sizes, isOut, p, last));
    }
  }

  lemma WorstStep(sizes: seq<nat>, isOut: bool, p: Progress, init: seq<Outcome>, last: Outcome)
    requires Sound(sizes, isOut, p) && Possible(sizes, p, last) && p.pending == 1 && p.current == |init|
    requires IsWorst(p.worst, p, init)
    ensures var q := Callback(sizes, isOut, p, last); IsWorst(q.worst, q, init + [last])
  {
    var outcomes, q := init + [last], Callback(sizes, isOut, p, last);
    assert outcomes[|init|] == last && forall i | 0 <= i < |init| :: outcomes[i] == init[i];
    if exists i :: 0 <= i < |init| && init[i].status == p.worst {
      var i :| 0 <= i < |init| && init[i].status == p.worst;
      assert outcomes[i].status == p.worst;
    }
  }

  // ----- the assembled IN data -----

  /** A chunk that did not complete but counts bytes leaves a hole in in_data. */
  predicate NoHoles(outcomes: seq<Outcome>) {
    forall i | 0 <= i < |outcomes| :: outcomes[i].status.Completed? || outcomes[i].data == []
  }

  /** The memory under every hole happens to hold what the device returned there. */
  ghost predicate Matches(garbage: seq<byte>, outcomes: seq<Outcome>)
    requires |Data(outcomes)| <= |garbage|
  {
    outcomes == []
    || (var init, last := outcomes[..|outcomes| - 1], outcomes[|outcomes| - 1];
        Matches(garbage, init) && (last.status.Completed? || garbage[|Data(init)|..|Data(outcomes)|] == last.data))
  }

  lemma ExtendsMatch(b: seq<byte>, device: seq<byte>, more: seq<byte>)
    requires |device| + |more| <= |b|
    ensures b[..|device| + |more|] == device + more
       <==> b[..|device|] == device && b[|device|..|device| + |more|] == more
  {
    var n := |device|;
    assert b[..n + |more|] == b[..n] + b[n..n + |more|];
    if b[..n + |more|] == device + more {
      assert b[..n] == (device + more)[..n];
      assert b[n..n + |more|] == (device + more)[n..];
    }
  }

  /** What one IN chunk does to in_data. */
  lemma StoresAtTotal(sizes: seq<nat>, p: Progress, o: Outcome)
    requires Sound(sizes, false, p) && Possible(sizes, p, o)
    ensures var q := Callback(sizes, false, p, o);
            && q.total == p.total + |o.data| <= |q.buffer| == |p.buffer|
            && q.buffer[..p.total] == p.buffer[..p.total]
            && q.buffer[p.total..q.total] == (if o.status.Completed? then o.data else p.buffer[p.total..q.total])
            && q.buffer[q.total..] == p.buffer[q.total..]
  {
    CopyFits(sizes, false, p, o);
  }

  /** One more chunk: p and q are in_data before and after it. */
  lemma MatchesStep(garbage: seq<byte>, init: seq<Outcome>, last: Outcome, p: seq<byte>, q: seq<byte>)
    requires |p| == |q| == |garbage| && |Data(init)| + |last.data| <= |garbage|
    requires var t, u := |Data(init)|, |Data(init)| + |last.data|;
             && (p[..t] == Data(init) <==> Matches(garbage, init)) && p[t..] == garbage[t..]
             && q[..t] == p[..t] && q[u..] == p[u..]
             && q[t..u] == (if last.status.Completed? then last.data else p[t..u])
    ensures var t, u := |Data(init)|, |Data(init)| + |last.data|;
            && (q[..u] == Data(init) + last.data
                <==> Matches(garbage, init) && (last.status.Completed? || garbage[t..u] == last.data))
            && q[u..] == garbage[u..]
  {
    var t, u := |Data(init)|, |Data(init)| + |last.data|;
    ExtendsMatch(q, Data(init), last.data);
    assert p[t..u] == p[t..][..u - t] && garbage[t..u] == garbage[t..][..u - t];
    assert p[u..] == p[t..][u - t..] && garbage[u..] == garbage[t..][u - t..];
  }

  /** The first actual_length bytes of in_data are what the device returned, exactly if the holes happen to match;
      past them in_data is untouched. */
  lemma {:induction false} InDataExactlyWhen(sizes: seq<nat>, garbage: seq<byte>, outcomes: seq<Outcome>)
    requires sizes != [] && |garbage| == Sum(sizes)
    requires After(sizes, false, Begin(sizes, false, garbage), outcomes).Some?
    ensures |Data(outcomes)| <= |garbage|
    ensures var p := After(sizes, false, Begin(sizes, false, garbage), outcomes).value;
            && p.total == |Data(outcomes)| && |p.buffer| == |garbage|
            && (p.buffer[..p.total] == Data(outcomes) <==> Matches(garbage, outcomes))
            && p.buffer[p.total..] == garbage[p.total..]
  {
    if outcomes != [] {
      var init, last := outcomes[..|outcomes| - 1], outcomes[|outcomes| - 1];
      InDataExactlyWhen(sizes, garbage, init);
      var p := After(sizes, false, Begin(sizes, false, garbage), init).value;
      StoresAtTotal(sizes, p, last);
      MatchesStep(garbage, init, last, p.buffer, Callback(sizes, false, p, last).buffer);
    }
  }

  /** In particular: whatever the memory held, exactly when there are no holes. */
  lemma InDataIsReliableExactlyWithoutHoles(outcomes: seq<Outcome>, size: nat)
    requires |Data(outcomes)| <= size
    ensures (forall garbage: seq<byte> | |garbage| == size :: Matches(garbage, outcomes)) <==> NoHoles(outcomes)
  {
    if NoHoles(outcomes) {
      forall garbage: seq<byte> | |garbage| == size ensures Matches(garbage, outcomes) {
        NoHolesMatch(garbage, outcomes);
      }
    } else {
      var device := Data(outcomes);
      var garbage: seq<byte> := seq(size, k requires 0 <= k < size => if k < |device| && device[k] == 0 then 1 else 0);
      HoleMismatches(garbage, outcomes);
      assert !Matches(garbage, outcomes);
    }
  }

  lemma {:induction false} NoHolesMatch(garbage: seq<byte>, outcomes: seq<Outcome>)
    requires |Data(outcomes)| <= |garbage| && NoHoles(outcomes)
    ensures Matches(garbage, outcomes)
  {
    if outcomes != [] {
      var init := outcomes[..|outcomes| - 1];
      NoHolesMatch(garbage, init);
      assert garbage[|Data(init)|..|Data(init)|] == [];
    }
  }

  lemma {:induction false} HoleMismatches(garbage: seq<byte>, outcomes: seq<Outcome>)
    requires |Data(outcomes)| <= |garbage| && !NoHoles(outcomes)
    requires forall k | 0 <= k < |Data(outcomes)| :: garbage[k] != Data(outcomes)[k]
    ensures !Matches(garbage, outcomes)
  {
    var init, last := outcomes[..|outcomes| - 1], outcomes[|outcomes| - 1];
    forall k | 0 <= k < |Data(init)| ensures garbage[k] != Data(init)[k] {
      assert Data(outcomes)[k] == Data(init)[k];
    }
    if last.status.Completed? || last.data == [] {
      assert !NoHoles(init);
      HoleMismatches(garbage, init);
    } else {
      assert Data(outcomes)[|Data(init)|] == last.data[0];
      assert garbage[|Data(init)|..|Data(outcomes)|][0] == garbage[|Data(init)|];
    }
  }

  // ----- it does happen -----

  lemma AfterOne(sizes: seq<nat>, isOut: bool, start: Progress, o: Outcome)
    requires Sound(sizes, isOut, start) && Possible(sizes, start, o)
    ensures After(sizes, isOut, start, [o]) == Some(Callback(sizes, isOut, start, o))
  {
    assert [o][..0] == [] && After(sizes, isOut, start, []) == Some(start);
  }

  lemma AfterTwo(sizes: seq<nat>, isOut: bool, start: Progress, o: Outcome, next: Outcome)
    requires Sound(sizes, isOut, start) && Possible(sizes, start, o)
    requires Possible(sizes, Callback(sizes, isOut, start, o), next)
    ensures After(sizes, isOut, start, [o, next])
         == Some(Callback(sizes, isOut, Callback(sizes, isOut, start, o), next))
  {
    AfterOne(sizes, isOut, start, o);
    assert [o, next][..1] == [o];
  }

  /** A chunk of an IN transfer fails with a byte moved: one byte is reported, and it is not the device's. */
  lemma HoleExample()
    ensures var end := After([2], false, Begin([2], false, [0, 0]), [Outcome(U.Error, [7], true)]);
            && end.Some? && end.value.pending == 0 && end.value.total == 1
            && end.value.buffer == [0, 0] && Data([Outcome(U.Error, [7], true)]) == [7]
    ensures !NoHoles([Outcome(U.Error, [7], true)])
  {
    var o := Outcome(U.Error, [7], true);
    assert Sum([2]) == 2;
    AfterOne([2], false, Begin([2], false, [0, 0]), o);
    assert [o][..0] == [] && Data([o]) == [] + [7];
    assert !([o][0].status.Completed? || [o][0].data == []);
  }

  /** A STALL behind an overflow, which ranks above it, does not end a transfer that has a third chunk: it is
      submitted. */
  lemma StallIsMissed(sizes: seq<nat>, garbage: seq<byte>, data: seq<byte>)
    requires |sizes| >= 3 && |garbage| == Sum(sizes) && |data| <= sizes[0]
    ensures var outcomes := [Outcome(U.Overflow, data, true), Outcome(U.Stall, [], true)];
            var end := After(sizes, false, Begin(sizes, false, garbage), outcomes);
            end.Some? && end.value.pending == 1 && end.value.current == 2
  {
    AfterTwo(sizes, false, Begin(sizes, false, garbage), Outcome(U.Overflow, data, true), Outcome(U.Stall, [], true));
  }

  lemma MissedStallExample()
    ensures var outcomes := [Outcome(U.Overflow, [1, 2], true), Outcome(U.Stall, [], true)];
            var sizes := [2, 2, 2];
            var end := After(sizes, false, Begin(sizes, false, seq(Sum(sizes), _ => 0)), outcomes);
            end.Some? && end.value.pending == 1 && end.value.current == 2
  {
    var sizes := [2, 2, 2];
    StallIsMissed(sizes, seq(Sum(sizes), _ => 0), [1, 2]);
  }

  // ----- OUT -----

  /** When every chunk of an OUT payload completes in full, the device has taken exactly the payload. */
  lemma {:induction false} OutIsComplete(payload: seq<byte>, chunk: nat, outcomes: seq<Outcome>)
    requires chunk > 0 && payload != []
    requires var pieces := Split(payload, BufferSizes(|payload|, chunk, 0));
             |outcomes| == |pieces| && forall i | 0 <= i < |pieces| ::
               outcomes[i].status.Completed? && outcomes[i].data == pieces[i] && outcomes[i].nextAccepted
    ensures var sizes := BufferSizes(|payload|, chunk, 0);
            var p := After(sizes, true, Begin(sizes, true, []), outcomes);
            p.Some? && p.value.pending == 0 && p.value.total == |payload| && p.value.worst.Completed?
            && Data(outcomes) == payload
  {
    var sizes := BufferSizes(|payload|, chunk, 0);
    SplitIsLossless(payload, chunk);
    AllComplete(sizes, Split(payload, sizes), outcomes, |sizes|);
    assert outcomes[..|sizes|] == outcomes;
    OneChunkAtATime(sizes, true, Begin(sizes, true, []), outcomes);
    DataIsFlattened(Split(payload, sizes), outcomes);
  }

  lemma {:induction false} AllComplete(sizes: seq<nat>, pieces: seq<seq<byte>>, outcomes: seq<Outcome>, k: nat)
    requires sizes != [] && |pieces| == |sizes| == |outcomes| && k <= |sizes|
    requires forall i | 0 <= i < |sizes| :: |pieces[i]| == sizes[i]
    requires forall i | 0 <= i < |pieces| ::
               outcomes[i].status.Completed? && outcomes[i].data == pieces[i] && outcomes[i].nextAccepted
    ensures var p := After(sizes, true, Begin(sizes, true, []), outcomes[..k]);
            && p.Some? && p.value.pending == (if k < |sizes| then 1 else 0)
            && p.value.worst.Completed? && !p.value.inShort
            && p.value.current == (if k < |sizes| then k else k - 1)
  {
    if k != 0 {
      assert outcomes[..k][..k - 1] == outcomes[..k - 1];
      AllComplete(sizes, pieces, outcomes, k - 1);
    }
  }

  lemma {:induction false} DataIsFlattened(pieces: seq<seq<byte>>, outcomes: seq<Outcome>)
    requires |pieces| == |outcomes| && forall i | 0 <= i < |pieces| :: outcomes[i].data == pieces[i]
    ensures Data(outcomes) == Flatten(pieces)
  {
    if pieces != [] {
      var n := |pieces| - 1;
      DataIsFlattened(pieces[..n], outcomes[..n]);
      FlattenSnoc(pieces[..n], pieces[n]);
      assert pieces == pieces[..n] + [pieces[n]];
    }
  }
}
