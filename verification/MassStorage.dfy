/**
 What a Bulk-Only mass-storage unit is (USB Mass Storage Class Bulk-Only Transport 1.0): the reference
 the handler is proved against.  A unit is a block disk and a phase; a bulk URB moves it on.
 */
module MassStorage {
  import opened Basics
  import opened Bytes

  const CBW_SIGNATURE: u32 := 0x43425355
  const CSW_SIGNATURE: u32 := 0x53425355
  const CBW_SIZE := 31

  datatype Geometry = Geometry(blockSize: nat, blockCount: nat, readOnly: bool)

  datatype Phase =
    | Idle                                             // waiting for a CBW
    | SendData(rest: seq<byte>)                        // data-in phase: what is still to be sent
    | RecvBlocks(lba: nat, count: nat, got: seq<byte>) // data-out phase of WRITE(10)
    | RecvUnmap(need: nat, got: seq<byte>)             // data-out phase of UNMAP
    | Report                                           // waiting to send the CSW

  datatype Unit = Unit(phase: Phase, tag: u32, failed: bool, disk: seq<byte>)

  /** A bulk URB: an IN request for up to `length` bytes, or OUT data. */
  datatype Urb = In(length: nat) | Out(data: seq<byte>)

  datatype Reply = Sent(payload: seq<byte>) | Accepted(length: nat) | Stall

  // ----- the disk -----

  function Overwritten(disk: seq<byte>, offset: nat, bytes: seq<byte>): seq<byte>
    requires offset + |bytes| <= |disk|
  {
    disk[..offset] + bytes + disk[offset + |bytes|..]
  }

  /** Bytes in n blocks. */
  function Extent(g: Geometry, n: nat): nat {
    if n == 0 then 0 else Extent(g, n - 1) + g.blockSize
  }

  lemma {:induction false} ExtentAdds(g: Geometry, m: nat, n: nat)
    ensures Extent(g, m + n) == Extent(g, m) + Extent(g, n)
  {
    if n != 0 { ExtentAdds(g, m, n - 1); }
  }

  lemma {:induction false} ExtentIsProduct(g: Geometry, n: nat)
    ensures Extent(g, n) == n * g.blockSize
  {
    if n != 0 {
      ExtentIsProduct(g, n - 1);
      assert n * g.blockSize == (n - 1) * g.blockSize + g.blockSize;
    }
  }

  predicate HasBlocks(g: Geometry, disk: seq<byte>) {
    g.blockSize > 0 && Extent(g, g.blockCount) <= |disk|
  }

  predicate InRange(g: Geometry, lba: nat, count: nat) {
    lba + count <= g.blockCount
  }

  lemma RangeFits(g: Geometry, disk: seq<byte>, lba: nat, count: nat)
    requires HasBlocks(g, disk) && InRange(g, lba, count)
    ensures Extent(g, lba + count) == Extent(g, lba) + Extent(g, count) <= |disk|
  {
    ExtentAdds(g, lba, count);
    ExtentAdds(g, lba + count, g.blockCount - (lba + count));
  }

  // ----- commands -----

  /** What a well-formed command block asks for. */
  datatype Command =
    | NoData
    | Refuse
    | Answer(bytes: seq<byte>)
    | Read(lba: nat, count: nat)
    | Write(lba: nat, count: nat)
    | Unmap(length: nat)

  function Take(bytes: seq<byte>, n: nat): seq<byte> {
    bytes[..Min(n, |bytes|)]
  }

  const SENSE: seq<byte> := [0x70, 0, 0, 0, 0, 0, 0, 10, 0, 0, 0, 0, 0, 0, 0, 0, 0, 0]

  const INQUIRY_HEADER: seq<byte> := [0x00, 0x80, 0x06, 0x02, 31, 0, 0, 0]
  const VENDOR: seq<byte> := [0x55, 0x53, 0x42, 0x49, 0x50, 0x44, 0x43, 0x20]
  const PRODUCT: seq<byte> := [0x55, 0x53, 0x42, 0x20, 0x46, 0x6C, 0x61, 0x73]
  const DRIVE: seq<byte> := [0x68, 0x20, 0x44, 0x72, 0x69, 0x76, 0x65, 0x20]
  const REVISION: seq<byte> := [0x31, 0x2E, 0x30, 0x30]

  /** Device type, removable medium and versions, then the vendor's, the product's and the revision's name. */
  const INQUIRY: seq<byte> := INQUIRY_HEADER + VENDOR + PRODUCT + DRIVE + REVISION

  function ModeSense(g: Geometry): seq<byte> {
    [3, 0, if g.readOnly then 0x80 else 0, 0]
  }

  /** Last block address and block size, big-endian, each reduced to 32 bits. */
  function Capacity(g: Geometry): seq<byte> {
    U32BE((g.blockCount - 1) % 0x1_0000_0000) + U32BE(g.blockSize % 0x1_0000_0000)
  }

  function BlockAddress(cbw: seq<byte>): u32
    requires |cbw| >= CBW_SIZE
  {
    ToU32BE(cbw[17..21])
  }

  /** A transfer length of 0 means 256 blocks. */
  function BlockTotal(cbw: seq<byte>): nat
    requires |cbw| >= CBW_SIZE
  {
    var n: nat := ToU16BE(cbw[22..24]);
    if n == 0 then 256 else n
  }

  function Interpret(g: Geometry, cbw: seq<byte>): (command: Command)
    requires |cbw| >= CBW_SIZE
    ensures command.Read? || command.Write? ==> InRange(g, command.lba, command.count) && command.count > 0
  {
    var opcode, wanted := cbw[15], ToU32LE(cbw[8..12]);
    match opcode
    case 0x00 | 0x1B | 0x1E | 0x2F => NoData
    case 0x03 => Answer(Take(SENSE, wanted))
    case 0x12 => Answer(Take(INQUIRY, wanted))
    case 0x1A => Answer(Take(ModeSense(g), wanted))
    case 0x25 => Answer(Take(Capacity(g), wanted))
    case 0x28 =>
      if InRange(g, BlockAddress(cbw), BlockTotal(cbw)) then Read(BlockAddress(cbw), BlockTotal(cbw)) else Refuse
    case 0x2A =>
      if InRange(g, BlockAddress(cbw), BlockTotal(cbw)) && !g.readOnly
      then Write(BlockAddress(cbw), BlockTotal(cbw)) else Refuse
    case 0x42 =>
      if g.readOnly then Refuse
      else if ToU16BE(cbw[21..23]) == 0 then NoData
      else Unmap(ToU16BE(cbw[21..23]))
    case _ => Refuse
  }

  predicate IsCbw(data: seq<byte>) {
    |data| >= CBW_SIZE && ToU32LE(data[0..4]) == CBW_SIGNATURE
  }

  /** A command that fails: not a CBW at all, or one the unit refuses. */
  predicate Fails(g: Geometry, data: seq<byte>) {
    !IsCbw(data) || Interpret(g, data).Refuse?
  }

  /** The tag the CSW will carry; a packet too short to be a CBW leaves the previous one. */
  function TagOf(previous: u32, data: seq<byte>): u32 {
    if |data| >= CBW_SIZE then ToU32LE(data[4..8]) else previous
  }

  // ----- UNMAP: descriptors of 16 bytes from offset 8; the part of a hole inside the image is zeroed -----

  function ToU64BE(b: seq<byte>): nat
    requires |b| == 8
  {
    ToU32BE(b[0..4]) as int * 0x1_0000_0000 + ToU32BE(b[4..8]) as int
  }

  function Zeros(n: nat): (z: seq<byte>)
    ensures |z| == n
  {
    seq(n, _ => 0)
  }

  function Punched(g: Geometry, disk: seq<byte>, lba: nat, count: nat): (d: seq<byte>)
    ensures |d| == |disk|
  {
    var first := Min(lba * g.blockSize, |disk|);
    var end := Min(lba * g.blockSize + count * g.blockSize, |disk|);
    Overwritten(disk, first, Zeros(end - first))
  }

  function PunchedAll(g: Geometry, disk: seq<byte>, list: seq<byte>, i: nat): (d: seq<byte>)
    ensures |d| == |disk|
    decreases |list| - i
  {
    if i + 16 <= |list| then
      PunchedAll(g, Punched(g, disk, ToU64BE(list[i..i + 8]), ToU32BE(list[i + 8..i + 12])), list, i + 16)
    else disk
  }

  // ----- one URB -----

  ghost predicate Good(g: Geometry, u: Unit) {
    && HasBlocks(g, u.disk)
    && (u.phase.Idle? ==> !u.failed)
    && (u.phase.RecvBlocks? ==> InRange(g, u.phase.lba, u.phase.count) && |u.phase.got| < Extent(g, u.phase.count))
  }

  function Csw(tag: u32, failed: bool): (b: seq<byte>)
    ensures |b| == 13
  {
    U32LE(CSW_SIGNATURE) + U32LE(tag) + U32LE(0) + [if failed then 1 else 0]
  }

  ghost function Start(g: Geometry, u: Unit, command: Command): Unit
    requires Good(g, u)
    requires command.Read? || command.Write? ==> InRange(g, command.lba, command.count) && command.count > 0
  {
    match command
    case NoData => u.(phase := Report)
    case Refuse => u.(phase := Report, failed := true)
    case Answer(bytes) => u.(phase := SendData(bytes))
    case Read(lba, count) =>
      RangeFits(g, u.disk, lba, count);
      u.(phase := SendData(u.disk[Extent(g, lba)..Extent(g, lba + count)]))
    case Write(lba, count) => u.(phase := RecvBlocks(lba, count, []))
    case Unmap(length) => u.(phase := RecvUnmap(length, []))
  }

  ghost function Step(g: Geometry, u: Unit, urb: Urb): (r: (Unit, Reply))
    requires Good(g, u)
  {
    match (urb, u.phase)
    case (In(n), SendData(rest)) =>
      var sent := Take(rest, n);
      (u.(phase := if sent == rest then Report else SendData(rest[|sent|..])), Sent(sent))
    case (In(_), Report) =>
      (u.(phase := Idle, failed := false), Sent(Csw(u.tag, u.failed)))
    case (Out(data), Idle) =>
      var u1 := u.(tag := TagOf(u.tag, data));
      (if IsCbw(data) then Start(g, u1, Interpret(g, data)) else u1.(phase := Report, failed := true), Accepted(|data|))
    case (Out(data), RecvBlocks(lba, count, got)) =>
      var total := Extent(g, count);
      RangeFits(g, u.disk, lba, count);
      (if |got + data| >= total
       then u.(phase := Report, disk := Overwritten(u.disk, Extent(g, lba), (got + data)[..total]))
       else u.(phase := RecvBlocks(lba, count, got + data)),
       Accepted(|data|))
    case (Out(data), RecvUnmap(need, got)) =>
      (if |got + data| >= need
       then u.(phase := Report, disk := PunchedAll(g, u.disk, got + data, 8))
       else u.(phase := RecvUnmap(need, got + data)),
       Accepted(|data|))
    case _ => (u, Stall)
  }

  lemma StartKeepsGood(g: Geometry, u: Unit, command: Command)
    requires Good(g, u)
    requires command.Read? || command.Write? ==> InRange(g, command.lba, command.count) && command.count > 0
    ensures Good(g, Start(g, u, command))
    ensures Start(g, u, command).disk == u.disk && Start(g, u, command).tag == u.tag
    ensures !Start(g, u, command).phase.Idle?
    ensures Start(g, u, command).failed == (u.failed || command.Refuse?)
  {
    if command.Write? { assert Extent(g, command.count) > 0; }
  }

  lemma StepKeepsGood(g: Geometry, u: Unit, urb: Urb)
    requires Good(g, u)
    ensures Good(g, Step(g, u, urb).0)
  {
    match (urb, u.phase)
    case (Out(data), Idle) =>
      if IsCbw(data) { StartKeepsGood(g, u.(tag := TagOf(u.tag, data)), Interpret(g, data)); }
    case (Out(data), RecvBlocks(lba, count, got)) => RangeFits(g, u.disk, lba, count);
    case _ =>
  }
}
