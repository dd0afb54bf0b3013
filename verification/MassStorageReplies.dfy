/** What the host reads back from the unit: the data of the query commands, the status packet, and what UNMAP clears. */
module MassStorageReplies {
  import opened Basics
  import opened Bytes
  import opened MassStorage
  import opened MassStorageCommands
  import opened MassStorageTheorems

  // ----- queries -----

  /** The bytes are ASCII characters. */
  predicate Spells(b: seq<byte>, text: seq<char>) {
    |b| == |text| && forall i | 0 <= i < |b| :: b[i] == text[i] as int
  }

  predicate AllZero(b: seq<byte>) {
    forall i | 0 <= i < |b| :: b[i] == 0
  }

  /** REQUEST SENSE: current error, fixed format, no sense, ten more bytes after the eighth (SPC-4, section 4.5.3). */
  predicate IsSense(b: seq<byte>) {
    |b| == 18 && b[0] == 0x70 && AllZero(b[1..7]) && b[7] as int == |b| - 8 && AllZero(b[8..])
  }

  /** INQUIRY: a removable direct-access block device, and its name (SPC-4, section 6.6.2). */
  predicate IsInquiry(b: seq<byte>) {
    && |b| == 36 && b[..4] == [0x00, 0x80, 0x06, 0x02] && b[4] as int == |b| - 5 && AllZero(b[5..8])
    && Spells(b[8..16], ['U', 'S', 'B', 'I', 'P', 'D', 'C', ' '])
    && Spells(b[16..24], ['U', 'S', 'B', ' ', 'F', 'l', 'a', 's'])
    && Spells(b[24..32], ['h', ' ', 'D', 'r', 'i', 'v', 'e', ' '])
    && Spells(b[32..], ['1', '.', '0', '0'])
  }

  /** MODE SENSE(6): a header of which three bytes follow the first, with the write-protect bit. */
  predicate IsModeSense(g: Geometry, b: seq<byte>) {
    |b| == 4 && b[0] as int == |b| - 1 && b[1] == 0 && b[2] == (if g.readOnly then 0x80 else 0) && b[3] == 0
  }

  /** READ CAPACITY(10): the last block's address and the block size, most significant byte first, both modulo 2^32. */
  predicate IsCapacity(g: Geometry, b: seq<byte>) {
    && |b| == 8
    && Weigh(b[0], b[1], b[2], b[3]) == (g.blockCount - 1) % 4294967296
    && Weigh(b[4], b[5], b[6], b[7]) == g.blockSize % 4294967296
  }

  /** What the unit has to say to a query. */
  predicate IsReplyTo(g: Geometry, opcode: byte, b: seq<byte>) {
    match opcode
    case 0x03 => IsSense(b)
    case 0x12 => IsInquiry(b)
    case 0x1A => IsModeSense(g, b)
    case 0x25 => IsCapacity(g, b)
    case _ => false
  }

  function ReplySize(opcode: byte): nat {
    match opcode
    case 0x03 => 18
    case 0x12 => 36
    case 0x1A => 4
    case _ => 8
  }

  lemma CapacityIs(g: Geometry)
    ensures IsCapacity(g, Capacity(g))
  {
    var last: u32, size: u32 := (g.blockCount - 1) % 0x1_0000_0000, g.blockSize % 0x1_0000_0000;
    U32Inverse(last);
    U32Inverse(size);
    Weights32(U32BE(last));
    Weights32(U32BE(size));
  }

  lemma InquiryIs()
    ensures IsInquiry(INQUIRY)
  {
    assert INQUIRY[8..16] == VENDOR && INQUIRY[16..24] == PRODUCT && INQUIRY[24..32] == DRIVE;
    assert INQUIRY[32..] == REVISION && INQUIRY[..8] == INQUIRY_HEADER;
  }

  lemma QueryIs(g: Geometry, cbw: seq<byte>) returns (reply: seq<byte>)
    requires IsQuery(cbw)
    ensures IsReplyTo(g, cbw[15], reply)
    ensures Interpret(g, cbw) == Answer(reply[..Min(Wanted(cbw), |reply|)])
  {
    CbwMeans(cbw);
    CapacityIs(g);
    InquiryIs();
    reply := match cbw[15] case 0x03 => SENSE case 0x12 => INQUIRY case 0x1A => ModeSense(g) case _ => Capacity(g);
  }

  /** For any cutting into bulk URBs, a drained query command sends its reply, cut to the bytes the host wants, and
      leaves the disk alone. */
  lemma QueryIsAnswered(g: Geometry, u: Unit, cbw: seq<byte>, urbs: seq<Urb>, n: nat) returns (reply: seq<byte>)
    requires Good(g, u) && u.phase.Idle? && IsQuery(cbw)
    requires var size := Min(Wanted(cbw), ReplySize(cbw[15])); Undrained(urbs, size) && size <= Requested(urbs) + n
    ensures IsReplyTo(g, cbw[15], reply)
    ensures var (u', replies) := Run(g, u, [Out(cbw)] + (urbs + [In(n)]));
            && u' == u.(phase := Report, tag := TagIn(cbw))
            && Payload(replies) == reply[..Min(Wanted(cbw), |reply|)]
  {
    CbwMeans(cbw);
    reply := QueryIs(g, cbw);
    var (u1, first) := Step(g, u, Out(cbw));
    StepKeepsGood(g, u, Out(cbw));
    RunOne(g, u, Out(cbw));
    DrainSendsAll(g, u1, urbs, n);
    RunAppend(g, u, [Out(cbw)], urbs + [In(n)]);
    PayloadAppend([first], Run(g, u1, urbs + [In(n)]).1);
    assert Payload([first]) == [] + Payload([]);
  }

  // ----- status -----

  /** A command status wrapper: "USBS", the tag of the packet it answers, no residue, and the status. */
  predicate IsCswFor(data: seq<byte>, csw: seq<byte>, failed: bool) {
    && |csw| == 13 && Spells(csw[..4], ['U', 'S', 'B', 'S'])
    && (|data| >= 31 ==> csw[4..8] == data[4..8])
    && AllZero(csw[8..12]) && csw[12] == if failed then 1 else 0
  }

  lemma CswIs(data: seq<byte>, previous: u32, failed: bool)
    ensures IsCswFor(data, Csw(TagOf(previous, data), failed), failed)
  {
    var csw := Csw(TagOf(previous, data), failed);
    assert csw[..4] == U32LE(CSW_SIGNATURE) == [0x55, 0x53, 0x42, 0x53];
    assert csw[4..8] == U32LE(TagOf(previous, data)) && csw[8..12] == U32LE(0);
    if |data| >= 31 { Rewritten32(data[4..8]); }
  }

  /** A command with nothing to transfer, and a packet the unit does not serve, get their status at once: success for
      the one, failure for the other. */
  lemma StatusAtOnceExactlyWhen(g: Geometry, u: Unit, data: seq<byte>, n: nat)
    requires Good(g, u) && u.phase.Idle?
    ensures var done := IsTrivial(data) || (IsUnmap(data, 0) && !g.readOnly);
            var replies := Run(g, u, [Out(data)] + [In(n)]).1;
            && |replies| == 2 && replies[0] == Accepted(|data|)
            && (done || !Serves(g, data) <==> Run(g, u, [Out(data)] + [In(n)]).0.phase.Idle?)
            && (done || !Serves(g, data) ==>
                  replies[1].Sent? && IsCswFor(data, replies[1].payload, !Serves(g, data)))
  {
    StepKeepsGood(g, u, Out(data));
    var u1 := Step(g, u, Out(data)).0;
    RunOne(g, u, Out(data));
    RunOne(g, u1, In(n));
    RunAppend(g, u, [Out(data)], [In(n)]);
    FailsExactlyWhenNotServed(g, data);
    ReportsExactlyWhen(g, u, data);
    CswIs(data, u.tag, !Serves(g, data));
  }

  /** Which packets open no data phase. */
  lemma ReportsExactlyWhen(g: Geometry, u: Unit, data: seq<byte>)
    requires Good(g, u) && u.phase.Idle?
    ensures var u1 := Step(g, u, Out(data)).0;
            && (u1.phase.Report? <==> Fails(g, data) || IsTrivial(data) || (IsUnmap(data, 0) && !g.readOnly))
            && (u1.phase.Report? ==> u1.failed == Fails(g, data) && u1.tag == TagOf(u.tag, data))
  {
    CbwMeans(data);
    if IsCbw(data) { Weights16(data[21..23]); }
  }

  // ----- UNMAP -----

  /** A hole of the parameter list covers position p of the image: the descriptor at `at` names its first block in eight
      bytes and the number of blocks in four, most significant first. */
  predicate Covers(g: Geometry, list: seq<byte>, at: nat, p: nat)
    requires at + 16 <= |list|
  {
    var lba := 4294967296 * Weigh(list[at], list[at + 1], list[at + 2], list[at + 3])
               + Weigh(list[at + 4], list[at + 5], list[at + 6], list[at + 7]);
    var count := Weigh(list[at + 8], list[at + 9], list[at + 10], list[at + 11]);
    lba * g.blockSize <= p < lba * g.blockSize + count * g.blockSize
  }

  /** A whole descriptor of the list, from `from` on every 16 bytes, covers p. */
  predicate CoveredFrom(g: Geometry, list: seq<byte>, from: nat, p: nat)
    decreases |list| - from
  {
    from + 16 <= |list| && (Covers(g, list, from, p) || CoveredFrom(g, list, from + 16, p))
  }

  lemma PunchedAt(g: Geometry, disk: seq<byte>, lba: nat, count: nat, p: nat)
    requires p < |disk|
    ensures Punched(g, disk, lba, count)[p]
         == if lba * g.blockSize <= p < lba * g.blockSize + count * g.blockSize then 0 else disk[p]
  {
  }

  lemma DescriptorIs(list: seq<byte>, at: nat)
    requires at + 16 <= |list|
    ensures ToU64BE(list[at..at + 8])
         == 4294967296 * Weigh(list[at], list[at + 1], list[at + 2], list[at + 3])
            + Weigh(list[at + 4], list[at + 5], list[at + 6], list[at + 7])
    ensures ToU32BE(list[at + 8..at + 12]) == Weigh(list[at + 8], list[at + 9], list[at + 10], list[at + 11])
  {
    var d := list[at..at + 8];
    Weights32(d[0..4]);
    Weights32(d[4..8]);
    Weights32(list[at + 8..at + 12]);
  }

  lemma {:induction false} PunchedAllAt(g: Geometry, disk: seq<byte>, list: seq<byte>, from: nat, p: nat)
    requires p < |disk|
    ensures PunchedAll(g, disk, list, from)[p] == if CoveredFrom(g, list, from, p) then 0 else disk[p]
    decreases |list| - from
  {
    if from + 16 <= |list| {
      var lba, count := ToU64BE(list[from..from + 8]), ToU32BE(list[from + 8..from + 12]);
      DescriptorIs(list, from);
      PunchedAt(g, disk, lba, count, p);
      PunchedAllAt(g, Punched(g, disk, lba, count), list, from + 16, p);
    }
  }

  /** While its list is incomplete, an UNMAP collects it in order and leaves the disk alone. */
  lemma {:induction false} UnmapCollects(g: Geometry, u: Unit, urbs: seq<Urb>)
    requires Good(g, u) && u.phase.RecvUnmap? && |u.phase.got| + |Received(urbs)| < u.phase.need
    ensures Run(g, u, urbs).0 == u.(phase := RecvUnmap(u.phase.need, u.phase.got + Received(urbs)))
    decreases |urbs|
  {
    if urbs == [] {
      assert u.phase.got + [] == u.phase.got;
    } else {
      var u1 := Step(g, u, urbs[0]).0;
      StepKeepsGood(g, u, urbs[0]);
      assert u.phase.got + Received(urbs) ==
             u.phase.got + (if urbs[0].Out? then urbs[0].data else []) + Received(urbs[1..]);
      assert u.phase.got + [] == u.phase.got;
      UnmapCollects(g, u1, urbs[1..]);
    }
  }

  /**
   For any cutting of the parameter list into bulk URBs, with stray IN URBs among them, an UNMAP leaves the disk alone
   until the list has arrived; then exactly the bytes that a descriptor covers, from offset 8 on every 16 bytes, are
   zero, and success is ready to be reported.
   */
  lemma UnmapClears(g: Geometry, u: Unit, cbw: seq<byte>, length: nat, urbs: seq<Urb>, data: seq<byte>, p: nat)
    requires Good(g, u) && u.phase.Idle? && IsUnmap(cbw, length) && !g.readOnly && p < |u.disk|
    requires |Received(urbs)| < length <= |Received(urbs) + data|
    ensures Run(g, u, [Out(cbw)] + urbs).0.disk == u.disk
    ensures var u' := Run(g, u, [Out(cbw)] + urbs + [Out(data)]).0;
            && u'.phase.Report? && !u'.failed && u'.tag == TagIn(cbw) && |u'.disk| == |u.disk|
            && u'.disk[p] == if CoveredFrom(g, Received(urbs) + data, 8, p) then 0 else u.disk[p]
  {
    UnmapMeans(g, cbw, length);
    CbwMeans(cbw);
    var u1 := Step(g, u, Out(cbw)).0;
    StepKeepsGood(g, u, Out(cbw));
    RunOne(g, u, Out(cbw));
    RunAppend(g, u, [Out(cbw)], urbs);
    UnmapCollects(g, u1, urbs);
    assert [] + Received(urbs) == Received(urbs);
    RunAppend(g, u, [Out(cbw)] + urbs, [Out(data)]);
    RunOne(g, Run(g, u, [Out(cbw)] + urbs).0, Out(data));
    PunchedAllAt(g, u.disk, Received(urbs) + data, 8, p);
  }
}
