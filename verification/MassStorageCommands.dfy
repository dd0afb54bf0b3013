/**
 The packets a host sends, byte by byte (Bulk-Only Transport 1.0, section 5.1, with SBC's commands from byte 15 on), and
 what the unit takes them for.
 */
module MassStorageCommands {
  import opened Basics
  import opened Bytes
  import opened MassStorage

  /** A command block wrapper: 31 bytes or more, "USBC" at the front. */
  predicate HasCbw(data: seq<byte>) {
    |data| >= 31 && data[0] == 0x55 && data[1] == 0x53 && data[2] == 0x42 && data[3] == 0x43
  }

  predicate Names(data: seq<byte>, opcode: byte) {
    HasCbw(data) && data[15] == opcode
  }

  /** Bytes 17..21 and 22..24, most significant first, are a block address and a number of blocks; 0 stands for 256. */
  predicate NamesBlocks(data: seq<byte>, lba: nat, count: nat)
    requires |data| >= 31
  {
    && lba == Weigh(data[17], data[18], data[19], data[20])
    && count == if data[22] == 0 && data[23] == 0 then 256 else Weigh(0, 0, data[22], data[23])
  }

  /** READ(10) of these blocks. */
  predicate IsRead(data: seq<byte>, lba: nat, count: nat) {
    Names(data, 0x28) && NamesBlocks(data, lba, count)
  }

  /** WRITE(10) of these blocks. */
  predicate IsWrite(data: seq<byte>, lba: nat, count: nat) {
    Names(data, 0x2A) && NamesBlocks(data, lba, count)
  }

  /** UNMAP with a parameter list of this length. */
  predicate IsUnmap(data: seq<byte>, length: nat) {
    Names(data, 0x42) && length == Weigh(0, 0, data[21], data[22])
  }

  /** Commands answered with data of their own: REQUEST SENSE, INQUIRY, MODE SENSE, READ CAPACITY. */
  predicate IsQuery(data: seq<byte>) {
    Names(data, 0x03) || Names(data, 0x12) || Names(data, 0x1A) || Names(data, 0x25)
  }

  /** TEST UNIT READY, START STOP UNIT, PREVENT ALLOW MEDIUM REMOVAL, VERIFY: nothing to do. */
  predicate IsTrivial(data: seq<byte>) {
    Names(data, 0x00) || Names(data, 0x1B) || Names(data, 0x1E) || Names(data, 0x2F)
  }

  /** Bytes 4..8, least significant first: the tag that pairs command and status. */
  function TagIn(data: seq<byte>): nat
    requires |data| >= 31
  {
    Weigh(data[7], data[6], data[5], data[4])
  }

  /** Bytes 8..12, least significant first: how many bytes the host wants. */
  function Wanted(data: seq<byte>): nat
    requires |data| >= 31
  {
    Weigh(data[11], data[10], data[9], data[8])
  }

  // ----- what the unit takes them for -----

  lemma CbwMeans(data: seq<byte>)
    ensures IsCbw(data) <==> HasCbw(data)
    ensures |data| >= 31 ==> TagIn(data) == ToU32LE(data[4..8]) && Wanted(data) == ToU32LE(data[8..12])
  {
    if |data| >= 31 {
      Weights32(data[0..4]);
      Weights32(data[4..8]);
      Weights32(data[8..12]);
    }
  }

  lemma BlocksMean(data: seq<byte>, lba: nat, count: nat)
    requires |data| >= 31
    ensures NamesBlocks(data, lba, count) <==> lba == BlockAddress(data) && count == BlockTotal(data)
  {
    Weights32(data[17..21]);
    Weights16(data[22..24]);
  }

  lemma ReadMeans(g: Geometry, data: seq<byte>, lba: nat, count: nat)
    requires IsRead(data, lba, count) && lba + count <= g.blockCount
    ensures IsCbw(data) && Interpret(g, data) == Read(lba, count)
  {
    CbwMeans(data);
    BlocksMean(data, lba, count);
  }

  lemma WriteMeans(g: Geometry, data: seq<byte>, lba: nat, count: nat)
    requires IsWrite(data, lba, count) && lba + count <= g.blockCount && !g.readOnly
    ensures IsCbw(data) && Interpret(g, data) == Write(lba, count)
  {
    CbwMeans(data);
    BlocksMean(data, lba, count);
  }

  lemma UnmapMeans(g: Geometry, data: seq<byte>, length: nat)
    requires IsUnmap(data, length) && !g.readOnly
    ensures IsCbw(data) && Interpret(g, data) == if length == 0 then NoData else Unmap(length)
  {
    CbwMeans(data);
    Weights16(data[21..23]);
  }

  lemma QueryMeans(g: Geometry, data: seq<byte>)
    requires IsQuery(data)
    ensures IsCbw(data) && Interpret(g, data).Answer?
  {
    CbwMeans(data);
  }

  lemma TrivialMeans(g: Geometry, data: seq<byte>)
    requires IsTrivial(data)
    ensures IsCbw(data) && Interpret(g, data) == NoData
  {
    CbwMeans(data);
  }

  /** The packets the unit carries out: the commands above, their blocks on the disk, and nothing written that is
      write-protected. */
  ghost predicate Serves(g: Geometry, data: seq<byte>) {
    || IsQuery(data)
    || IsTrivial(data)
    || (exists lba: nat, count: nat :: IsRead(data, lba, count) && lba + count <= g.blockCount)
    || (exists lba: nat, count: nat :: IsWrite(data, lba, count) && lba + count <= g.blockCount && !g.readOnly)
    || ((exists length: nat :: IsUnmap(data, length)) && !g.readOnly)
  }

  /** Any other packet fails, and no other does. */
  lemma FailsExactlyWhenNotServed(g: Geometry, data: seq<byte>)
    ensures Fails(g, data) <==> !Serves(g, data)
  {
    CbwMeans(data);
    if HasCbw(data) {
      BlocksMean(data, BlockAddress(data), BlockTotal(data));
      ServedBlocks(g, data);
      assert data[15] == 0x42 ==> IsUnmap(data, Weigh(0, 0, data[21], data[22]));
    }
  }

  lemma ServedBlocks(g: Geometry, data: seq<byte>)
    requires HasCbw(data)
    ensures var fits := BlockAddress(data) + BlockTotal(data) <= g.blockCount;
            && (Names(data, 0x28) && fits <==>
                  exists lba: nat, count: nat :: IsRead(data, lba, count) && lba + count <= g.blockCount)
            && (Names(data, 0x2A) && fits <==>
                  exists lba: nat, count: nat :: IsWrite(data, lba, count) && lba + count <= g.blockCount)
  {
    BlocksMean(data, BlockAddress(data), BlockTotal(data));
    assert Names(data, 0x28) ==> IsRead(data, BlockAddress(data), BlockTotal(data));
    assert Names(data, 0x2A) ==> IsWrite(data, BlockAddress(data), BlockTotal(data));
    forall lba: nat, count: nat | NamesBlocks(data, lba, count)
      ensures lba == BlockAddress(data) && count == BlockTotal(data)
    {
      BlocksMean(data, lba, count);
    }
  }
}
