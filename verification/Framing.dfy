/**
 USB/IP commands on a byte stream: their encodings, the reader that takes one command off the socket, and when a
 stream of encodings is read back as it was written.
 */
module Framing {
  import opened Basics
  import opened Bytes

  const CMD_SUBMIT: u32 := 1
  const CMD_UNLINK: u32 := 2
  const DIRECTION_IN: u32 := 1
  const MAX_TRANSFER_BUFFER_SIZE := 16 * 1024 * 1024

  // ----- integer fields in network order -----

  function ToNetwork(fields: seq<u32>): (b: seq<byte>)
    ensures |b| == 4 * |fields|
  {
    if fields == [] then [] else U32BE(fields[0]) + ToNetwork(fields[1..])
  }

  function FromNetwork(b: seq<byte>): (fields: seq<u32>)
    requires |b| % 4 == 0
    ensures |fields| == |b| / 4
  {
    if b == [] then [] else [ToU32BE(b[..4])] + FromNetwork(b[4..])
  }

  lemma {:induction false} NetworkInverse(fields: seq<u32>)
    ensures FromNetwork(ToNetwork(fields)) == fields
  {
    if fields != [] {
      var b := ToNetwork(fields);
      assert b[..4] == U32BE(fields[0]) && b[4..] == ToNetwork(fields[1..]);
      U32Inverse(fields[0]);
      NetworkInverse(fields[1..]);
    }
  }

  // ----- setup packets (little-endian) -----

  datatype SetupPacket = SetupPacket(requestType: byte, request: byte, value: u16, index: u16, length: u16)

  function SetupBytes(s: SetupPacket): (b: seq<byte>)
    ensures |b| == 8
  {
    [s.requestType, s.request] + U16LE(s.value) + U16LE(s.index) + U16LE(s.length)
  }

  function ParseSetup(b: seq<byte>): SetupPacket
    requires |b| == 8
  {
    SetupPacket(b[0], b[1], ToU16LE(b[2..4]), ToU16LE(b[4..6]), ToU16LE(b[6..8]))
  }

  lemma SetupInverse(s: SetupPacket)
    ensures ParseSetup(SetupBytes(s)) == s
  {
    U16Inverse(s.value);
    U16Inverse(s.index);
    U16Inverse(s.length);
    var b := SetupBytes(s);
    assert b[2..4] == U16LE(s.value) && b[4..6] == U16LE(s.index) && b[6..8] == U16LE(s.length);
  }

  // ----- commands -----

  datatype IsoPacket = IsoPacket(offset: u32, length: u32, actualLength: u32, status: u32)

  /** The fixed part of CMD_SUBMIT. */
  datatype Submit = Submit(seqnum: u32, devid: u32, direction: u32, ep: u32, flags: u32, length: u32,
                           startFrame: u32, packets: u32, interval: u32, setup: SetupPacket)

  /** What the transfer buffer carries. */
  datatype Transfer = Transfer(data: seq<byte>, iso: seq<IsoPacket>)

  datatype Command =
    | CmdSubmit(submit: Submit, transfer: Option<Transfer>)
    | CmdUnlink(seqnum: u32, devid: u32, direction: u32, ep: u32, target: u32)

  /** 0 and 0xFFFFFFFF mean "not isochronous"; counts of 2^31 and more turn negative and read as none. */
  function IsoCount(packets: u32): nat {
    if packets < 0x8000_0000 then packets else 0
  }

  /** A command whose transfer fits its header. */
  predicate Encodable(c: Command) {
    c.CmdSubmit? && c.transfer.Some? ==>
      |c.transfer.value.data| == c.submit.length && |c.transfer.value.iso| == IsoCount(c.submit.packets)
  }

  function IsoBytes(iso: seq<IsoPacket>): (b: seq<byte>)
    ensures |b| == 16 * |iso|
  {
    if iso == [] then []
    else ToNetwork([iso[0].offset, iso[0].length, iso[0].actualLength, iso[0].status]) + IsoBytes(iso[1..])
  }

  function Fixed(s: Submit): (b: seq<byte>)
    ensures |b| == 44
  {
    ToNetwork([s.seqnum, s.devid, s.direction, s.ep, s.flags, s.length, s.startFrame, s.packets, s.interval])
    + SetupBytes(s.setup)
  }

  /** What follows the fixed part: the transfer's data and iso descriptors, if there is a transfer. */
  function Body(c: Command): seq<byte>
    requires c.CmdSubmit?
  {
    if c.transfer.None? then [] else c.transfer.value.data + IsoBytes(c.transfer.value.iso)
  }

  /** The encoding; a CMD_UNLINK ends in 24 bytes the encoder does not set. */
  function Encode(c: Command, padding: seq<byte>): seq<byte>
    requires |padding| == 24
  {
    match c
    case CmdSubmit(s, _) => ToNetwork([CMD_SUBMIT]) + (Fixed(s) + Body(c))
    case CmdUnlink(seqnum, devid, direction, ep, target) =>
      ToNetwork([CMD_UNLINK]) + (ToNetwork([seqnum, devid, direction, ep, target]) + padding)
  }

  // ----- reading one command -----

  datatype Error = UnknownCmd | SocketEof | SocketErr

  /** A command taken off the stream, and what is left; or why not. */
  datatype Outcome = Got(command: Command, rest: seq<byte>) | Failed(error: Error)

  function ParseFixed(b: seq<byte>): Submit
    requires |b| == 44
  {
    var w := FromNetwork(b[..36]);
    Submit(w[0], w[1], w[2], w[3], w[4], w[5], w[6], w[7], w[8], ParseSetup(b[36..]))
  }

  function ParseIso(b: seq<byte>): (iso: seq<IsoPacket>)
    requires |b| % 16 == 0
    ensures |iso| == |b| / 16
  {
    if b == [] then []
    else var w := FromNetwork(b[..16]); [IsoPacket(w[0], w[1], w[2], w[3])] + ParseIso(b[16..])
  }

  /** Bytes of transfer data the reader expects: none for an IN submit. */
  function DataSize(s: Submit): nat {
    if s.direction == DIRECTION_IN then 0 else s.length
  }

  function BodySize(s: Submit): nat {
    DataSize(s) + 16 * IsoCount(s.packets)
  }

  function ParseSubmit(stream: seq<byte>): Outcome {
    if |stream| < 44 then Failed(SocketEof)
    else
      var s, rest := ParseFixed(stream[..44]), stream[44..];
      if s.length > MAX_TRANSFER_BUFFER_SIZE then Failed(SocketErr)
      else if |rest| < BodySize(s) then Failed(SocketEof)
      else
        var transfer := Transfer(rest[..DataSize(s)], ParseIso(rest[DataSize(s)..BodySize(s)]));
        Got(CmdSubmit(s, Some(transfer)), rest[BodySize(s)..])
  }

  function ParseUnlink(stream: seq<byte>): Outcome {
    if |stream| < 44 then Failed(SocketEof)
    else
      var w := FromNetwork(stream[..20]);
      Got(CmdUnlink(w[0], w[1], w[2], w[3], w[4]), stream[44..])
  }

  function Parse(stream: seq<byte>): Outcome {
    if |stream| < 4 then Failed(SocketEof)
    else
      var command := ToU32BE(stream[..4]);
      if command == CMD_SUBMIT then ParseSubmit(stream[4..])
      else if command == CMD_UNLINK then ParseUnlink(stream[4..])
      else Failed(UnknownCmd)
  }

  // ----- the socket -----

  lemma SliceOfRest(s: seq<byte>, m: nat, n: nat)
    requires m + n <= |s|
    ensures s[m..][..n] == s[m..m + n] && s[m..][n..] == s[m + n..]
  {
  }

  /** The receiving end of a connection: the bytes the peer sends before it closes. */
  class Socket {
    var incoming: seq<byte>

    /** asio::read: all of it or end of file. */
    method Read(n: nat) returns (data: Option<seq<byte>>)
      modifies this
      ensures data.Some? <==> |old(incoming)| >= n
      ensures data.Some? ==> data.value == old(incoming)[..n] && incoming == old(incoming)[n..]
      ensures data.None? ==> incoming == []
    {
      if |incoming| < n {
        incoming := [];
        return None;
      }
      data := Some(incoming[..n]);
      incoming := incoming[n..];
    }

    /** The iso descriptors, one after another. */
    method IsoFromSocket(numIso: nat) returns (iso: Option<seq<IsoPacket>>)
      modifies this
      ensures iso.Some? <==> |old(incoming)| >= 16 * numIso
      ensures iso.Some? ==> iso.value == ParseIso(old(incoming)[..16 * numIso])
                            && incoming == old(incoming)[16 * numIso..]
    {
      ghost var start := incoming;
      var read := [];
      for i := 0 to numIso
        invariant |start| >= 16 * i && incoming == start[16 * i..]
        invariant read == ParseIso(start[..16 * i])
      {
        var next := Read(16);
        if next.None? { return None; }
        var w := FromNetwork(next.value);
        IsoSnoc(start[..16 * i], next.value);
        assert start[..16 * (i + 1)] == start[..16 * i] + next.value;
        read := read + [IsoPacket(w[0], w[1], w[2], w[3])];
      }
      iso := Some(read);
    }

    method SubmitFromSocket() returns (result: Outcome)
      modifies this
      ensures result == ParseSubmit(old(incoming))
      ensures result.Got? ==> incoming == result.rest
    {
      var start := Read(44);
      if start.None? { return Failed(SocketEof); }
      var s := ParseFixed(start.value);
      if s.length > MAX_TRANSFER_BUFFER_SIZE { return Failed(SocketErr); }
      ghost var rest := incoming;
      var data: seq<byte> := [];
      if s.direction != DIRECTION_IN {
        var received := Read(s.length);
        if received.None? { return Failed(SocketEof); }
        data := received.value;
      }
      assert incoming == rest[DataSize(s)..] && data == rest[..DataSize(s)];
      var iso := IsoFromSocket(IsoCount(s.packets));
      if iso.None? { return Failed(SocketEof); }
      SliceOfRest(rest, DataSize(s), 16 * IsoCount(s.packets));
      result := Got(CmdSubmit(s, Some(Transfer(data, iso.value))), incoming);
    }

    method GetCmdFromSocket() returns (result: Outcome)
      modifies this
      ensures result == Parse(old(incoming))
      ensures result.Got? ==> incoming == result.rest
    {
      var word := Read(4);
      if word.None? { return Failed(SocketEof); }
      var command := ToU32BE(word.value);
      if command == CMD_SUBMIT {
        result := SubmitFromSocket();
      } else if command == CMD_UNLINK {
        var fields := Read(44);
        if fields.None? { return Failed(SocketEof); }
        var w := FromNetwork(fields.value[..20]);
        assert old(incoming)[4..][..44][..20] == old(incoming)[4..][..20];
        result := Got(CmdUnlink(w[0], w[1], w[2], w[3], w[4]), incoming);
      } else {
        result := Failed(UnknownCmd);
      }
    }
  }

  lemma {:induction false} IsoSnoc(b: seq<byte>, last: seq<byte>)
    requires |b| % 16 == 0 && |last| == 16
    ensures var w := FromNetwork(last); ParseIso(b + last) == ParseIso(b) + [IsoPacket(w[0], w[1], w[2], w[3])]
  {
    if b == [] {
      assert b + last == last && last[..16] == last && last[16..] == [];
    } else {
      assert (b + last)[..16] == b[..16] && (b + last)[16..] == b[16..] + last;
      IsoSnoc(b[16..], last);
    }
  }
}
