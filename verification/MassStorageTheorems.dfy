/**
 A Bulk-Only unit refines an atomic block disk, however the host cuts the data phases into URBs;
 and every command gets exactly one status.
 */
module MassStorageTheorems {
  import opened Basics
  import opened Bytes
  import opened MassStorage
  import opened MassStorageCommands

  ghost function Run(g: Geometry, u: Unit, urbs: seq<Urb>): (r: (Unit, seq<Reply>))
    requires Good(g, u)
    ensures Good(g, r.0) && |r.1| == |urbs|
    decreases |urbs|
  {
    if urbs == [] then (u, [])
    else
      var (u1, reply) := Step(g, u, urbs[0]);
      StepKeepsGood(g, u, urbs[0]);
      var (u2, replies) := Run(g, u1, urbs[1..]);
      (u2, [reply] + replies)
  }

  lemma {:induction false} RunAppend(g: Geometry, u: Unit, xs: seq<Urb>, ys: seq<Urb>)
    requires Good(g, u)
    ensures var (u1, r1) := Run(g, u, xs); var (u2, r2) := Run(g, u1, ys);
            Run(g, u, xs + ys) == (u2, r1 + r2)
    decreases |xs|
  {
    if xs == [] {
      assert xs + ys == ys;
      assert [] + Run(g, u, ys).1 == Run(g, u, ys).1;
    } else {
      assert (xs + ys)[1..] == xs[1..] + ys;
      StepKeepsGood(g, u, xs[0]);
      var (u1, reply) := Step(g, u, xs[0]);
      RunAppend(g, u1, xs[1..], ys);
      var (u2, r1) := Run(g, u1, xs[1..]);
      assert [reply] + (r1 + Run(g, u2, ys).1) == ([reply] + r1) + Run(g, u2, ys).1;
    }
  }

  lemma RunOne(g: Geometry, u: Unit, urb: Urb)
    requires Good(g, u)
    ensures Run(g, u, [urb]) == (Step(g, u, urb).0, [Step(g, u, urb).1])
  {
    StepKeepsGood(g, u, urb);
    var u1 := Step(g, u, urb).0;
    assert [urb][1..] == [] && Run(g, u1, []) == (u1, []);
    assert [Step(g, u, urb).1] + [] == [Step(g, u, urb).1];
  }

  // ----- what the host sends, asks for and gets -----

  function Received(urbs: seq<Urb>): seq<byte> {
    if urbs == [] then [] else (if urbs[0].Out? then urbs[0].data else []) + Received(urbs[1..])
  }

  function Requested(urbs: seq<Urb>): nat {
    if urbs == [] then 0 else (if urbs[0].In? then urbs[0].length else 0) + Requested(urbs[1..])
  }

  function Payload(replies: seq<Reply>): seq<byte> {
    if replies == [] then [] else (if replies[0].Sent? then replies[0].payload else []) + Payload(replies[1..])
  }

  lemma {:induction false} PayloadAppend(xs: seq<Reply>, ys: seq<Reply>)
    ensures Payload(xs + ys) == Payload(xs) + Payload(ys)
  {
    if xs == [] {
      assert xs + ys == ys;
    } else {
      assert (xs + ys)[1..] == xs[1..] + ys;
      PayloadAppend(xs[1..], ys);
    }
  }

  // ----- out-of-phase URBs -----

  predicate InPhase(p: Phase, urb: Urb) {
    if urb.In? then p.SendData? || p.Report? else p.Idle? || p.RecvBlocks? || p.RecvUnmap?
  }

  /** A URB in the wrong direction for the phase is stalled, and only then; stalling changes nothing. */
  lemma StallsExactlyOutOfPhase(g: Geometry, u: Unit, urb: Urb)
    requires Good(g, u)
    ensures Step(g, u, urb).1.Stall? <==> !InPhase(u.phase, urb)
    ensures Step(g, u, urb).1.Stall? ==> Step(g, u, urb).0 == u
  {
  }

  // ----- WRITE(10) -----

  /** While the data phase is incomplete, bytes are collected in order, the disk is untouched and IN URBs stall. */
  lemma {:induction false} WriteCollects(g: Geometry, u: Unit, urbs: seq<Urb>)
    requires Good(g, u) && u.phase.RecvBlocks?
    requires |u.phase.got| + |Received(urbs)| < Extent(g, u.phase.count)
    ensures Run(g, u, urbs).0 == u.(phase := RecvBlocks(u.phase.lba, u.phase.count, u.phase.got + Received(urbs)))
    ensures forall i | 0 <= i < |urbs| :: Run(g, u, urbs).1[i].Stall? <==> urbs[i].In?
    decreases |urbs|
  {
    if urbs == [] {
      assert u.phase.got + [] == u.phase.got;
    } else {
      var u1 := Step(g, u, urbs[0]).0;
      StepKeepsGood(g, u, urbs[0]);
      assert u.phase.got + Received(urbs) ==
             u.phase.got + (if urbs[0].Out? then urbs[0].data else []) + Received(urbs[1..]);
      assert u.phase.got + [] == u.phase.got;
      WriteCollects(g, u1, urbs[1..]);
    }
  }

  ghost function Block(g: Geometry, disk: seq<byte>, b: nat): seq<byte>
    requires HasBlocks(g, disk) && b < g.blockCount
  {
    RangeFits(g, disk, b, 1);
    disk[Extent(g, b)..Extent(g, b + 1)]
  }

  /** Block k of a transfer of `count` blocks. */
  ghost function Slice(g: Geometry, bytes: seq<byte>, k: nat, count: nat): seq<byte>
    requires k < count && |bytes| >= Extent(g, count)
  {
    SliceFits(g, k, count);
    bytes[Extent(g, k)..Extent(g, k + 1)]
  }

  lemma SliceFits(g: Geometry, k: nat, count: nat)
    requires k < count
    ensures Extent(g, k) <= Extent(g, k + 1) <= Extent(g, count)
  {
    ExtentAdds(g, k + 1, count - (k + 1));
  }

  lemma StretchOutside(disk: seq<byte>, offset: nat, bytes: seq<byte>, a: nat, z: nat)
    requires offset + |bytes| <= |disk| && a <= z <= |disk| && (z <= offset || offset + |bytes| <= a)
    ensures Overwritten(disk, offset, bytes)[a..z] == disk[a..z]
  {
  }

  lemma StretchInside(disk: seq<byte>, offset: nat, bytes: seq<byte>, a: nat, z: nat)
    requires offset + |bytes| <= |disk| && offset <= a <= z <= offset + |bytes|
    ensures Overwritten(disk, offset, bytes)[a..z] == bytes[a - offset..z - offset]
  {
  }

  lemma ExtentGrows(g: Geometry, m: nat, n: nat)
    requires m <= n
    ensures Extent(g, m) <= Extent(g, n)
  {
    ExtentAdds(g, m, n - m);
  }

  lemma BlocksApart(g: Geometry, lba: nat, count: nat, b: nat)
    requires b < lba || lba + count <= b
    ensures Extent(g, b + 1) <= Extent(g, lba) || Extent(g, lba) + Extent(g, count) <= Extent(g, b)
  {
    if b < lba {
      ExtentGrows(g, b + 1, lba);
    } else {
      ExtentAdds(g, lba, count);
      ExtentGrows(g, lba + count, b);
    }
  }

  /** Blocks outside a range of whole blocks are not touched by writing that range. */
  lemma BlockOutside(g: Geometry, disk: seq<byte>, lba: nat, count: nat, bytes: seq<byte>, b: nat)
    requires HasBlocks(g, disk) && InRange(g, lba, count) && |bytes| == Extent(g, count) && b < g.blockCount
    requires Extent(g, lba) + |bytes| <= |disk| && (b < lba || lba + count <= b)
    ensures Block(g, Overwritten(disk, Extent(g, lba), bytes), b) == Block(g, disk, b)
  {
    RangeFits(g, disk, b, 1);
    BlocksApart(g, lba, count, b);
    StretchOutside(disk, Extent(g, lba), bytes, Extent(g, b), Extent(g, b + 1));
  }

  /** Block lba + k of a written range is block k of what was written. */
  lemma BlockInside(g: Geometry, disk: seq<byte>, lba: nat, count: nat, bytes: seq<byte>, k: nat)
    requires HasBlocks(g, disk) && InRange(g, lba, count) && |bytes| == Extent(g, count) && k < count
    requires Extent(g, lba) + |bytes| <= |disk|
    ensures Block(g, Overwritten(disk, Extent(g, lba), bytes), lba + k) == Slice(g, bytes, k, count)
  {
    SliceFits(g, k, count);
    ExtentAdds(g, lba, k);
    ExtentAdds(g, lba, k + 1);
    StretchInside(disk, Extent(g, lba), bytes, Extent(g, lba + k), Extent(g, lba + k + 1));
  }

  lemma SlicePrefix(g: Geometry, bytes: seq<byte>, k: nat, count: nat)
    requires k < count && |bytes| >= Extent(g, count)
    ensures Slice(g, bytes[..Extent(g, count)], k, count) == Slice(g, bytes, k, count)
  {
    SliceFits(g, k, count);
  }

  lemma WrittenInside(g: Geometry, disk: seq<byte>, lba: nat, count: nat, sent: seq<byte>, k: nat)
    requires HasBlocks(g, disk) && InRange(g, lba, count) && |sent| >= Extent(g, count) && k < count
    requires Extent(g, lba) + Extent(g, count) <= |disk|
    ensures Block(g, Overwritten(disk, Extent(g, lba), sent[..Extent(g, count)]), lba + k) == Slice(g, sent, k, count)
  {
    BlockInside(g, disk, lba, count, sent[..Extent(g, count)], k);
    SlicePrefix(g, sent, k, count);
  }

  /** Every block of a disk whose blocks lba .. lba+count-1 were written. */
  lemma WrittenBlock(g: Geometry, disk: seq<byte>, lba: nat, count: nat, sent: seq<byte>, b: nat)
    requires HasBlocks(g, disk) && InRange(g, lba, count) && |sent| >= Extent(g, count) && b < g.blockCount
    requires Extent(g, lba) + Extent(g, count) <= |disk|
    ensures Block(g, Overwritten(disk, Extent(g, lba), sent[..Extent(g, count)]), b)
            == if lba <= b < lba + count then Slice(g, sent, b - lba, count) else Block(g, disk, b)
  {
    if lba <= b < lba + count {
      WrittenInside(g, disk, lba, count, sent, b - lba);
    } else {
      BlockOutside(g, disk, lba, count, sent[..Extent(g, count)], b);
    }
  }

  /** The unit with the data phase of a WRITE under way. */
  lemma WriteInProgress(g: Geometry, u: Unit, cbw: seq<byte>, urbs: seq<Urb>)
    requires Good(g, u) && u.phase.Idle? && IsCbw(cbw) && Interpret(g, cbw).Write?
    requires |Received(urbs)| < Extent(g, Interpret(g, cbw).count)
    ensures var Write(lba, count) := Interpret(g, cbw);
            Run(g, u, [Out(cbw)] + urbs).0
            == u.(phase := RecvBlocks(lba, count, Received(urbs)), tag := ToU32LE(cbw[4..8]))
  {
    var u1 := Step(g, u, Out(cbw)).0;
    StepKeepsGood(g, u, Out(cbw));
    RunOne(g, u, Out(cbw));
    RunAppend(g, u, [Out(cbw)], urbs);
    WriteCollects(g, u1, urbs);
    assert [] + Received(urbs) == Received(urbs);
  }

  /** The unit once the last piece of a WRITE's data has arrived. */
  lemma WriteCompletes(g: Geometry, u: Unit, cbw: seq<byte>, urbs: seq<Urb>, data: seq<byte>)
    requires Good(g, u) && u.phase.Idle? && IsCbw(cbw) && Interpret(g, cbw).Write?
    requires |Received(urbs)| < Extent(g, Interpret(g, cbw).count) <= |Received(urbs) + data|
    ensures var Write(lba, count) := Interpret(g, cbw);
            && Extent(g, lba) + Extent(g, count) <= |u.disk|
            && Run(g, u, [Out(cbw)] + urbs + [Out(data)]).0
               == u.(phase := Report, tag := ToU32LE(cbw[4..8]),
                     disk := Overwritten(u.disk, Extent(g, lba), (Received(urbs) + data)[..Extent(g, count)]))
  {
    WriteInProgress(g, u, cbw, urbs);
    RunAppend(g, u, [Out(cbw)] + urbs, [Out(data)]);
    RunOne(g, Run(g, u, [Out(cbw)] + urbs).0, Out(data));
    RangeFits(g, u.disk, Interpret(g, cbw).lba, Interpret(g, cbw).count);
  }

  /**
   For any cutting of the data phase into bulk URBs (and any stray IN URBs among them), a WRITE leaves the disk
   alone until its last block has arrived; then exactly blocks lba .. lba+count-1 hold the first
   count * block-size bytes sent, and the unit is ready to report success.
   */
  lemma WriteIsAtomic(g: Geometry, u: Unit, cbw: seq<byte>, lba: nat, count: nat, urbs: seq<Urb>, data: seq<byte>,
                      b: nat)
    requires Good(g, u) && u.phase.Idle? && b < g.blockCount
    requires IsWrite(cbw, lba, count) && lba + count <= g.blockCount && !g.readOnly
    requires |Received(urbs)| < Extent(g, count) <= |Received(urbs) + data|
    ensures Run(g, u, [Out(cbw)] + urbs).0.disk == u.disk
    ensures var u' := Run(g, u, [Out(cbw)] + urbs + [Out(data)]).0;
            && u'.phase.Report? && !u'.failed && u'.tag == TagIn(cbw)
            && Block(g, u'.disk, b) == if lba <= b < lba + count
                                       then Slice(g, Received(urbs) + data, b - lba, count)
                                       else Block(g, u.disk, b)
  {
    WriteMeans(g, cbw, lba, count);
    CbwMeans(cbw);
    WriteInProgress(g, u, cbw, urbs);
    WriteCompletes(g, u, cbw, urbs, data);
    WrittenBlock(g, u.disk, lba, count, Received(urbs) + data, b);
  }

  // ----- READ(10) -----

  lemma TwoCuts(rest: seq<byte>, m: nat, n: nat)
    requires m + n <= |rest|
    ensures rest[m..][n..] == rest[m + n..] && rest[..m] + rest[m..][..n] == rest[..m + n]
    ensures m == 0 ==> rest[..m] == [] && rest[m..] == rest
  {
  }

  /** While less than everything has been asked for, a data-in phase sends its bytes in order. */
  lemma {:induction false} SendsInOrder(g: Geometry, u: Unit, urbs: seq<Urb>)
    requires Good(g, u) && u.phase.SendData? && Requested(urbs) < |u.phase.rest|
    ensures Run(g, u, urbs).0 == u.(phase := SendData(u.phase.rest[Requested(urbs)..]))
    ensures Payload(Run(g, u, urbs).1) == u.phase.rest[..Requested(urbs)]
    decreases |urbs|
  {
    var rest := u.phase.rest;
    if urbs == [] {
      assert rest[0..] == rest;
    } else {
      var (u1, reply) := Step(g, u, urbs[0]);
      StepKeepsGood(g, u, urbs[0]);
      SendsInOrder(g, u1, urbs[1..]);
      if urbs[0].In? {
        TwoCuts(rest, urbs[0].length, Requested(urbs[1..]));
      }
      assert Run(g, u, urbs).1 == [reply] + Run(g, u1, urbs[1..]).1;
    }
  }

  predicate AllOut(urbs: seq<Urb>) {
    urbs == [] || (urbs[0].Out? && AllOut(urbs[1..]))
  }

  /** OUT URBs in a data-in phase are stalled. */
  lemma {:induction false} OnlyStalls(g: Geometry, u: Unit, urbs: seq<Urb>)
    requires Good(g, u) && u.phase.SendData? && AllOut(urbs)
    ensures Run(g, u, urbs).0 == u && Payload(Run(g, u, urbs).1) == [] && Requested(urbs) == 0
    decreases |urbs|
  {
    if urbs != [] {
      var (u1, reply) := Step(g, u, urbs[0]);
      StepKeepsGood(g, u, urbs[0]);
      OnlyStalls(g, u1, urbs[1..]);
      assert Run(g, u, urbs).1 == [reply] + Run(g, u1, urbs[1..]).1;
    }
  }

  /** These URBs do not drain a data-in phase of n bytes: they ask for less, or for nothing at all. */
  predicate Undrained(urbs: seq<Urb>, n: nat) {
    Requested(urbs) < n || AllOut(urbs)
  }

  lemma DrainedBy(g: Geometry, u: Unit, urbs: seq<Urb>, n: nat)
    requires Good(g, u) && u.phase.SendData? && Requested(urbs) <= |u.phase.rest| <= Requested(urbs) + n
    requires Run(g, u, urbs).0 == u.(phase := SendData(u.phase.rest[Requested(urbs)..]))
    requires Payload(Run(g, u, urbs).1) == u.phase.rest[..Requested(urbs)]
    ensures Run(g, u, urbs + [In(n)]).0 == u.(phase := Report)
    ensures Payload(Run(g, u, urbs + [In(n)]).1) == u.phase.rest
  {
    RunAppend(g, u, urbs, [In(n)]);
    var u1 := Run(g, u, urbs).0;
    RunOne(g, u1, In(n));
    PayloadAppend(Run(g, u, urbs).1, [Step(g, u1, In(n)).1]);
    assert Payload([Step(g, u1, In(n)).1]) == u1.phase.rest + Payload([]);
    assert u.phase.rest[..Requested(urbs)] + u.phase.rest[Requested(urbs)..] == u.phase.rest;
  }

  /** A drained data-in phase has sent exactly its bytes. */
  lemma DrainSendsAll(g: Geometry, u: Unit, urbs: seq<Urb>, n: nat)
    requires Good(g, u) && u.phase.SendData?
    requires Undrained(urbs, |u.phase.rest|) && |u.phase.rest| <= Requested(urbs) + n
    ensures Run(g, u, urbs + [In(n)]).0 == u.(phase := Report)
    ensures Payload(Run(g, u, urbs + [In(n)]).1) == u.phase.rest
  {
    if AllOut(urbs) {
      OnlyStalls(g, u, urbs);
      assert u.phase.rest[0..] == u.phase.rest;
    } else {
      SendsInOrder(g, u, urbs);
    }
    DrainedBy(g, u, urbs, n);
  }

  lemma ReadRuns(g: Geometry, u: Unit, cbw: seq<byte>, lba: nat, count: nat, urbs: seq<Urb>, n: nat)
    requires Good(g, u) && u.phase.Idle? && IsCbw(cbw) && Interpret(g, cbw) == Read(lba, count)
    requires Requested(urbs) < Extent(g, count) <= Requested(urbs) + n
    ensures var (u', replies) := Run(g, u, [Out(cbw)] + (urbs + [In(n)]));
            && u' == u.(phase := Report, tag := ToU32LE(cbw[4..8]))
            && Extent(g, lba) <= Extent(g, lba + count) <= |u.disk|
            && Payload(replies) == u.disk[Extent(g, lba)..Extent(g, lba + count)]
  {
    var (u1, reply) := Step(g, u, Out(cbw));
    StepKeepsGood(g, u, Out(cbw));
    RunOne(g, u, Out(cbw));
    RangeFits(g, u.disk, lba, count);
    DrainSendsAll(g, u1, urbs, n);
    RunAppend(g, u, [Out(cbw)], urbs + [In(n)]);
    PayloadAppend([reply], Run(g, u1, urbs + [In(n)]).1);
    assert Payload([reply]) == [] + Payload([]);
  }

  lemma StretchOfStretch(s: seq<byte>, from: nat, end: nat, a: nat, z: nat)
    requires from <= end <= |s| && a <= z <= end - from
    ensures s[from..end][a..z] == s[from + a..from + z]
  {
    forall i | 0 <= i < z - a ensures s[from..end][a..z][i] == s[from + a..from + z][i] {
      assert s[from..end][a + i] == s[from + a + i];
    }
  }

  lemma SliceOfDisk(g: Geometry, disk: seq<byte>, lba: nat, count: nat, k: nat, bytes: seq<byte>)
    requires HasBlocks(g, disk) && InRange(g, lba, count) && k < count
    requires Extent(g, lba) <= Extent(g, lba + count) <= |disk| && bytes == disk[Extent(g, lba)..Extent(g, lba + count)]
    ensures |bytes| == Extent(g, count) && Slice(g, bytes, k, count) == Block(g, disk, lba + k)
  {
    ExtentAdds(g, lba, count);
    SliceFits(g, k, count);
    ExtentAdds(g, lba, k);
    ExtentAdds(g, lba, k + 1);
    StretchOfStretch(disk, Extent(g, lba), Extent(g, lba + count), Extent(g, k), Extent(g, k + 1));
  }

  /** For any cutting into bulk URBs, a drained READ sends exactly blocks lba .. lba+count-1 and changes no block. */
  lemma ReadIsExact(g: Geometry, u: Unit, cbw: seq<byte>, lba: nat, count: nat, urbs: seq<Urb>, n: nat, k: nat)
    requires Good(g, u) && u.phase.Idle? && IsRead(cbw, lba, count) && lba + count <= g.blockCount && k < count
    requires Requested(urbs) < Extent(g, count) <= Requested(urbs) + n
    ensures var (u', replies) := Run(g, u, [Out(cbw)] + (urbs + [In(n)]));
            && u' == u.(phase := Report, tag := TagIn(cbw))
            && |Payload(replies)| == Extent(g, count)
            && Slice(g, Payload(replies), k, count) == Block(g, u.disk, lba + k)
  {
    ReadMeans(g, cbw, lba, count);
    CbwMeans(cbw);
    ReadRuns(g, u, cbw, lba, count, urbs, n);
    SliceOfDisk(g, u.disk, lba, count, k, Payload(Run(g, u, [Out(cbw)] + (urbs + [In(n)])).1));
  }

  lemma WholeStretch(g: Geometry, disk: seq<byte>, lba: nat, count: nat, bytes: seq<byte>)
    requires |bytes| == Extent(g, count) && Extent(g, lba) + |bytes| <= |disk|
    ensures Extent(g, lba + count) == Extent(g, lba) + |bytes|
    ensures Overwritten(disk, Extent(g, lba), bytes)[Extent(g, lba)..Extent(g, lba + count)] == bytes
  {
    ExtentAdds(g, lba, count);
    StretchInside(disk, Extent(g, lba), bytes, Extent(g, lba), Extent(g, lba) + |bytes|);
  }

  lemma ReadOfWritten(g: Geometry, u: Unit, cbw: seq<byte>, disk: seq<byte>, bytes: seq<byte>, urbs: seq<Urb>, n: nat)
    requires Good(g, u) && u.phase.Idle? && IsCbw(cbw) && Interpret(g, cbw).Read?
    requires |bytes| == Extent(g, Interpret(g, cbw).count) && Extent(g, Interpret(g, cbw).lba) + |bytes| <= |disk|
    requires u.disk == Overwritten(disk, Extent(g, Interpret(g, cbw).lba), bytes)
    requires Requested(urbs) < |bytes| <= Requested(urbs) + n
    ensures Payload(Run(g, u, [Out(cbw)] + (urbs + [In(n)])).1) == bytes
  {
    ReadRuns(g, u, cbw, Interpret(g, cbw).lba, Interpret(g, cbw).count, urbs, n);
    WholeStretch(g, disk, Interpret(g, cbw).lba, Interpret(g, cbw).count, bytes);
  }

  /** A completed WRITE whose status has been fetched: idle again, with the data on the disk. */
  lemma StatusReturnsToIdle(g: Geometry, u: Unit, cbw: seq<byte>, urbs: seq<Urb>, data: seq<byte>, status: nat)
    requires Good(g, u) && u.phase.Idle? && IsCbw(cbw) && Interpret(g, cbw).Write?
    requires |Received(urbs)| < Extent(g, Interpret(g, cbw).count) <= |Received(urbs) + data|
    ensures var u1 := Run(g, u, [Out(cbw)] + urbs + [Out(data)] + [In(status)]).0;
            var Write(lba, count) := Interpret(g, cbw);
            && u1.phase.Idle?
            && Extent(g, lba) + Extent(g, count) <= |u.disk|
            && u1.disk == Overwritten(u.disk, Extent(g, lba), (Received(urbs) + data)[..Extent(g, count)])
  {
    WriteCompletes(g, u, cbw, urbs, data);
    RunAppend(g, u, [Out(cbw)] + urbs + [Out(data)], [In(status)]);
    RunOne(g, Run(g, u, [Out(cbw)] + urbs + [Out(data)]).0, In(status));
  }

  /** READ after WRITE: whatever the two cuttings, a READ of the range just written sends the data of the WRITE. */
  lemma ReadBack(g: Geometry, u: Unit, writeCbw: seq<byte>, readCbw: seq<byte>, lba: nat, count: nat,
                 urbs: seq<Urb>, data: seq<byte>, status: nat, inUrbs: seq<Urb>, n: nat)
    requires Good(g, u) && u.phase.Idle? && lba + count <= g.blockCount && !g.readOnly
    requires IsWrite(writeCbw, lba, count) && IsRead(readCbw, lba, count)
    requires |Received(urbs)| < Extent(g, count) <= |Received(urbs) + data|
    requires Requested(inUrbs) < Extent(g, count) <= Requested(inUrbs) + n
    ensures var u1 := Run(g, u, [Out(writeCbw)] + urbs + [Out(data)] + [In(status)]).0;
            Payload(Run(g, u1, [Out(readCbw)] + (inUrbs + [In(n)])).1)
            == (Received(urbs) + data)[..Extent(g, count)]
  {
    WriteMeans(g, writeCbw, lba, count);
    ReadMeans(g, readCbw, lba, count);
    StatusReturnsToIdle(g, u, writeCbw, urbs, data, status);
    ReadOfWritten(g, Run(g, u, [Out(writeCbw)] + urbs + [Out(data)] + [In(status)]).0, readCbw,
                  u.disk, (Received(urbs) + data)[..Extent(g, count)], inUrbs, n);
  }

  // ----- one status per command -----

  datatype Entry = Issued(tag: u32, fails: bool) | Status(tag: u32, code: byte)

  /** What a bulk trace contains: commands as the host sent them, statuses as the host parses them. */
  ghost function Log(g: Geometry, u: Unit, urbs: seq<Urb>): seq<Entry>
    requires Good(g, u)
    decreases |urbs|
  {
    if urbs == [] then []
    else
      var (u1, reply) := Step(g, u, urbs[0]);
      StepKeepsGood(g, u, urbs[0]);
      (if urbs[0].Out? && u.phase.Idle? then [Issued(TagOf(u.tag, urbs[0].data), Fails(g, urbs[0].data))]
       else if urbs[0].In? && u.phase.Report? then [Status(ToU32LE(reply.payload[4..8]), reply.payload[12])]
       else [])
      + Log(g, u1, urbs[1..])
  }

  /** Commands and statuses alternate; each status has the tag of the command before it, and code 1 iff that failed. */
  ghost predicate Paired(log: seq<Entry>, open: Option<(u32, bool)>) {
    if log == [] then true
    else match log[0]
      case Issued(tag, fails) => open.None? && Paired(log[1..], Some((tag, fails)))
      case Status(tag, code) =>
        open.Some? && open.value == (tag, code == 1) && code <= 1 && Paired(log[1..], None)
  }

  lemma CswParses(tag: u32, failed: bool)
    ensures ToU32LE(Csw(tag, failed)[4..8]) == tag && Csw(tag, failed)[12] == (if failed then 1 else 0)
  {
    U32Inverse(tag);
    assert Csw(tag, failed)[4..8] == U32LE(tag);
  }

  /** The command the unit is busy with. */
  ghost function Open(u: Unit): Option<(u32, bool)> {
    if u.phase.Idle? then None else Some((u.tag, u.failed))
  }

  lemma {:induction false} EveryCommandGetsOneStatus(g: Geometry, u: Unit, urbs: seq<Urb>)
    requires Good(g, u)
    ensures Paired(Log(g, u, urbs), Open(u))
    decreases |urbs|
  {
    if urbs != [] {
      var (u1, reply) := Step(g, u, urbs[0]);
      StepKeepsGood(g, u, urbs[0]);
      EveryCommandGetsOneStatus(g, u1, urbs[1..]);
      var rest := Log(g, u1, urbs[1..]);
      if urbs[0].Out? && u.phase.Idle? {
        var data := urbs[0].data;
        if IsCbw(data) { StartKeepsGood(g, u.(tag := TagOf(u.tag, data)), Interpret(g, data)); }
        assert Open(u1) == Some((TagOf(u.tag, data), Fails(g, data)));
        assert Log(g, u, urbs)[1..] == rest;
      } else if urbs[0].In? && u.phase.Report? {
        CswParses(u.tag, u.failed);
        assert Log(g, u, urbs)[1..] == rest;
      } else {
        assert Open(u1) == Open(u);
        assert Log(g, u, urbs) == rest;
      }
    }
  }

  // ----- the tag of the status -----

  /** With this tag left over from before, the status that answers `data`, if it is fetched, carries bytes 4..8 of
      it. */
  ghost predicate Echoes(g: Geometry, u: Unit, previous: u32, data: seq<byte>, urbs: seq<Urb>)
    requires Good(g, u)
  {
    var log := Log(g, u.(tag := previous), [Out(data)] + urbs);
    |log| >= 2 ==> log[1].Status? && |data| >= 8 && log[1].tag == ToU32LE(data[4..8])
  }

  lemma LogOfPacket(g: Geometry, u: Unit, data: seq<byte>, urbs: seq<Urb>)
    requires Good(g, u) && u.phase.Idle?
    ensures Good(g, Step(g, u, Out(data)).0)
    ensures Log(g, u, [Out(data)] + urbs)
         == [Issued(TagOf(u.tag, data), Fails(g, data))] + Log(g, Step(g, u, Out(data)).0, urbs)
  {
    StepKeepsGood(g, u, Out(data));
    assert ([Out(data)] + urbs)[1..] == urbs;
  }

  /** A packet of 31 bytes or more gets its own tag back. */
  lemma LongPacketEchoes(g: Geometry, u: Unit, previous: u32, data: seq<byte>, urbs: seq<Urb>)
    requires Good(g, u) && u.phase.Idle? && |data| >= CBW_SIZE
    ensures Echoes(g, u, previous, data, urbs)
  {
    var v := u.(tag := previous);
    EveryCommandGetsOneStatus(g, v, [Out(data)] + urbs);
    LogOfPacket(g, v, data, urbs);
    var log := Log(g, v, [Out(data)] + urbs);
    if |log| >= 2 { assert log[1..][0] == log[1]; }
  }

  /** A shorter one fails, and its status has the tag of the packet before it. */
  lemma ShortPacketStatus(g: Geometry, u: Unit, data: seq<byte>)
    requires Good(g, u) && u.phase.Idle? && |data| < CBW_SIZE
    ensures Run(g, u, [Out(data), In(13)]).1 == [Accepted(|data|), Sent(Csw(u.tag, true))]
    ensures Log(g, u, [Out(data)] + [In(13)]) == [Issued(u.tag, true), Status(u.tag, 1)]
  {
    var u1 := Step(g, u, Out(data)).0;
    LogOfPacket(g, u, data, [In(13)]);
    CswParses(u.tag, true);
    assert [In(13)][1..] == [] && Log(g, u1, [In(13)]) == [Status(u.tag, 1)] + [];
    RunOne(g, u, Out(data));
    RunOne(g, u1, In(13));
    RunAppend(g, u, [Out(data)], [In(13)]);
    assert [Out(data)] + [In(13)] == [Out(data), In(13)];
  }

  /** The status that answers a packet carries bytes 4..8 of it, whatever the tag before, exactly if the packet is long
      enough for a CBW; otherwise some earlier tag shows through. */
  lemma StatusEchoesTagExactlyWhen(g: Geometry, u: Unit, data: seq<byte>)
    requires Good(g, u) && u.phase.Idle?
    ensures (forall previous: u32, urbs: seq<Urb> :: Echoes(g, u, previous, data, urbs)) <==> |data| >= CBW_SIZE
  {
    if |data| >= CBW_SIZE {
      forall previous: u32, urbs: seq<Urb> ensures Echoes(g, u, previous, data, urbs) {
        LongPacketEchoes(g, u, previous, data, urbs);
      }
    } else {
      var previous: u32 := if |data| >= 8 && ToU32LE(data[4..8]) == 0 then 1 else 0;
      ShortPacketStatus(g, u.(tag := previous), data);
      assert !Echoes(g, u, previous, data, [In(13)]);
    }
  }

  /** Eight bytes with 8 where a CBW has its tag are answered under the tag 9 of the command before. */
  lemma ShortCbwExample(g: Geometry, u: Unit)
    requires Good(g, u) && u.phase.Idle? && u.tag == 9
    ensures Run(g, u, [Out([1, 2, 3, 4, 8, 0, 0, 0]), In(13)]).1 == [Accepted(8), Sent(Csw(9, true))]
    ensures ToU32LE([8, 0, 0, 0]) == 8
  {
    ShortPacketStatus(g, u, [1, 2, 3, 4, 8, 0, 0, 0]);
  }
}
