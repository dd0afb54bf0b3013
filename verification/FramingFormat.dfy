/**
 The wire format of the two commands, byte by byte: where each field stands and what its bytes weigh, what the reader
 makes of any stream, and that the encoder writes the same.
 */
module FramingFormat {
  import opened Basics
  import opened Bytes
  import opened Framing
  import opened FramingTheorems

  /** The number in the four bytes from `at` on, most significant first. */
  function Word(b: seq<byte>, at: nat): nat
    requires at + 4 <= |b|
  {
    Weigh(b[at], b[at + 1], b[at + 2], b[at + 3])
  }

  /** The number in two bytes of a setup packet, least significant first. */
  function Half(b: seq<byte>, at: nat): nat
    requires at + 2 <= |b|
  {
    Weigh(0, 0, b[at + 1], b[at])
  }

  // ----- CMD_SUBMIT: 48 bytes, then OUT data, then iso descriptors of 16 bytes -----

  /** The fields of the fixed part, which starts at `at`. */
  predicate HasFields(b: seq<byte>, at: nat, s: Submit)
    requires at + 44 <= |b|
  {
    && s.seqnum == Word(b, at) && s.devid == Word(b, at + 4) && s.direction == Word(b, at + 8)
    && s.ep == Word(b, at + 12) && s.flags == Word(b, at + 16) && s.length == Word(b, at + 20)
    && s.startFrame == Word(b, at + 24) && s.packets == Word(b, at + 28) && s.interval == Word(b, at + 32)
    && s.setup.requestType == b[at + 36] && s.setup.request == b[at + 37] && s.setup.value == Half(b, at + 38)
    && s.setup.index == Half(b, at + 40) && s.setup.length == Half(b, at + 42)
  }

  /** The iso descriptor at `at`. */
  predicate HasPacket(b: seq<byte>, at: nat, p: IsoPacket)
    requires at + 16 <= |b|
  {
    && p.offset == Word(b, at) && p.length == Word(b, at + 4)
    && p.actualLength == Word(b, at + 8) && p.status == Word(b, at + 12)
  }

  /** Bytes of transfer data behind the fixed part: those of an OUT submit (direction 0); an IN submit (1) has none. */
  function DataBytes(b: seq<byte>): nat
    requires |b| >= 48
  {
    if Word(b, 12) == 1 then 0 else Word(b, 24)
  }

  /** Iso descriptors behind that. */
  function Packets(b: seq<byte>): nat
    requires |b| >= 48
  {
    if Word(b, 32) >= 2147483648 then 0 else Word(b, 32)
  }

  function SubmitSize(b: seq<byte>): nat
    requires |b| >= 48
  {
    48 + DataBytes(b) + 16 * Packets(b)
  }

  /** The transfer is what stands behind the fixed part. */
  predicate HasTransfer(b: seq<byte>, t: Transfer)
    requires |b| >= 48 && |b| >= SubmitSize(b)
  {
    && t.data == b[48..48 + DataBytes(b)]
    && |t.iso| == Packets(b)
    && forall i | 0 <= i < |t.iso| :: HasPacket(b, 48 + DataBytes(b) + 16 * i, t.iso[i])
  }

  // ----- the reader -----

  lemma {:induction false} WordsAt(b: seq<byte>, i: nat)
    requires |b| % 4 == 0 && 4 * i < |b|
    ensures FromNetwork(b)[i] == Word(b, 4 * i)
  {
    if i == 0 {
      Weights32(b[..4]);
    } else {
      WordsAt(b[4..], i - 1);
    }
  }

  lemma FixedAt(stream: seq<byte>, at: nat)
    requires at + 44 <= |stream|
    ensures HasFields(stream, at, ParseFixed(stream[at..at + 44]))
  {
    var b := stream[at..at + 44];
    forall i: nat | i < 9 ensures FromNetwork(b[..36])[i] == Word(stream, at + 4 * i) { WordsAt(b[..36], i); }
    Weights16(b[36..][2..4]);
    Weights16(b[36..][4..6]);
    Weights16(b[36..][6..8]);
  }

  lemma {:induction false} IsoAt(b: seq<byte>, i: nat)
    requires |b| % 16 == 0 && 16 * i < |b|
    ensures HasPacket(b, 16 * i, ParseIso(b)[i])
  {
    if i == 0 {
      FirstPacket(b);
    } else {
      IsoAt(b[16..], i - 1);
      var p := ParseIso(b[16..])[i - 1];
      assert ParseIso(b)[i] == p && HasPacket(b[16..], 16 * (i - 1), p);
      PacketShifted(b, 16 * (i - 1), p);
    }
  }

  lemma FirstPacket(b: seq<byte>)
    requires |b| >= 16
    ensures var w := FromNetwork(b[..16]); HasPacket(b, 0, IsoPacket(w[0], w[1], w[2], w[3]))
  {
    WordsAt(b[..16], 0);
    WordsAt(b[..16], 1);
    WordsAt(b[..16], 2);
    WordsAt(b[..16], 3);
  }

  lemma PacketShifted(b: seq<byte>, at: nat, p: IsoPacket)
    requires |b| >= at + 32
    ensures HasPacket(b[16..], at, p) <==> HasPacket(b, at + 16, p)
  {
  }

  lemma PacketsAt(stream: seq<byte>, at: nat, n: nat, i: nat)
    requires at + 16 * n <= |stream| && i < n
    ensures HasPacket(stream, at + 16 * i, ParseIso(stream[at..at + 16 * n])[i])
  {
    IsoAt(stream[at..at + 16 * n], i);
  }

  /** The transfer the reader takes from behind the fixed part. */
  function Behind(stream: seq<byte>): Transfer
    requires |stream| >= 48 && |stream| >= SubmitSize(stream)
  {
    var rest, n := stream[48..], DataBytes(stream);
    Transfer(rest[..n], ParseIso(rest[n..n + 16 * Packets(stream)]))
  }

  lemma HeaderIsRead(stream: seq<byte>, s: Submit)
    requires |stream| >= 48 && stream[..4] == [0, 0, 0, 1] && s == ParseFixed(stream[4..48])
    ensures HasFields(stream, 4, s)
    ensures Parse(stream) == if s.length > 16777216 then Failed(SocketErr)
                             else if |stream| < SubmitSize(stream) then Failed(SocketEof)
                             else Got(CmdSubmit(s, Some(Behind(stream))), stream[SubmitSize(stream)..])
  {
    Weights32(stream[..4]);
    var after := stream[4..];
    assert after[..44] == stream[4..48] && after[44..] == stream[48..];
    FixedAt(stream, 4);
    assert DataSize(s) == DataBytes(stream) && IsoCount(s.packets) == Packets(stream);
    if |stream| >= SubmitSize(stream) {
      assert stream[48..][SubmitSize(stream) - 48..] == stream[SubmitSize(stream)..];
    }
  }

  lemma BodyIsRead(stream: seq<byte>, n: nat, m: nat)
    requires |stream| >= 48 + n + 16 * m
    ensures var rest := stream[48..];
            && rest[..n] == stream[48..48 + n]
            && forall i | 0 <= i < m :: HasPacket(stream, 48 + n + 16 * i, ParseIso(rest[n..n + 16 * m])[i])
  {
    assert stream[48..][n..n + 16 * m] == stream[48 + n..48 + n + 16 * m];
    forall i | 0 <= i < m ensures HasPacket(stream, 48 + n + 16 * i, ParseIso(stream[48 + n..48 + n + 16 * m])[i]) {
      PacketsAt(stream, 48 + n, m, i);
    }
  }

  lemma TransferIsRead(stream: seq<byte>)
    requires |stream| >= 48 && |stream| >= SubmitSize(stream)
    ensures HasTransfer(stream, Behind(stream))
  {
    BodyIsRead(stream, DataBytes(stream), Packets(stream));
  }

  /** What the reader makes of a stream that begins with the word 1: refused if it asks for more than 16 MiB, end of
      file if it is too short, and otherwise one submit with its fields, data and iso descriptors, and nothing more. */
  lemma SubmitIsReadAs(stream: seq<byte>)
    requires |stream| >= 48 && stream[..4] == [0, 0, 0, 1]
    ensures Word(stream, 24) > 16777216 ==> Parse(stream) == Failed(SocketErr)
    ensures Word(stream, 24) <= 16777216 && |stream| < SubmitSize(stream) ==> Parse(stream) == Failed(SocketEof)
    ensures Word(stream, 24) <= 16777216 && |stream| >= SubmitSize(stream) ==>
              && Parse(stream).Got? && Parse(stream).rest == stream[SubmitSize(stream)..]
              && Parse(stream).command.CmdSubmit? && Parse(stream).command.transfer.Some?
              && HasFields(stream, 4, Parse(stream).command.submit)
              && HasTransfer(stream, Parse(stream).command.transfer.value)
  {
    HeaderIsRead(stream, ParseFixed(stream[4..48]));
    if |stream| >= SubmitSize(stream) { TransferIsRead(stream); }
  }

  /** One that begins with the word 2 is an unlink: 48 bytes, of which the last 24 mean nothing. */
  lemma UnlinkIsReadAs(stream: seq<byte>)
    requires |stream| >= 48 && stream[..4] == [0, 0, 0, 2]
    ensures Parse(stream)
         == Got(CmdUnlink(Word(stream, 4), Word(stream, 8), Word(stream, 12), Word(stream, 16), Word(stream, 20)),
                stream[48..])
  {
    Weights32(stream[..4]);
    var b := stream[4..][..20];
    forall i: nat | i < 5 ensures FromNetwork(b)[i] == Word(stream, 4 + 4 * i) { WordsAt(b, i); }
  }

  lemma WordMeans(w: seq<byte>)
    requires |w| == 4
    ensures (ToU32BE(w) == 1 <==> w == [0, 0, 0, 1]) && (ToU32BE(w) == 2 <==> w == [0, 0, 0, 2])
  {
    Weights32(w);
    assert w == [w[0], w[1], w[2], w[3]];
  }

  /** Any other word is refused, and less than 48 bytes of a command are end of file. */
  lemma OthersAreNotRead(stream: seq<byte>)
    requires |stream| < 48 || (stream[..4] != [0, 0, 0, 1] && stream[..4] != [0, 0, 0, 2])
    ensures var known := |stream| >= 4 && (stream[..4] == [0, 0, 0, 1] || stream[..4] == [0, 0, 0, 2]);
            Parse(stream) == if |stream| < 4 || known then Failed(SocketEof) else Failed(UnknownCmd)
  {
    if |stream| >= 4 { WordMeans(stream[..4]); }
  }

  // ----- the encoder -----

  /** The encoder writes a submit's fields where the reader looks for them, and its transfer behind them. */
  lemma SubmitIsWrittenAs(c: Command, padding: seq<byte>)
    requires Acceptable(c) && SelfFraming(c) && c.CmdSubmit? && |padding| == 24
    ensures var b := Encode(c, padding);
            && |b| >= 48 && b[..4] == [0, 0, 0, 1] && HasFields(b, 4, c.submit) && |b| == SubmitSize(b)
            && (c.transfer.Some? ==> HasTransfer(b, c.transfer.value))
  {
    var b := Encode(c, padding);
    assert ToNetwork([CMD_SUBMIT]) == U32BE(CMD_SUBMIT) + ToNetwork([]) && U32BE(CMD_SUBMIT) == [0, 0, 0, 1];
    assert b[..4] == [0, 0, 0, 1] && b[4..48] == Fixed(c.submit);
    SelfFramingIsExact(c);
    CommandRead(c, padding, []);
    assert b + [] == b;
    SubmitIsReadAs(b);
  }

  lemma UnlinkIsWrittenAs(c: Command, padding: seq<byte>)
    requires c.CmdUnlink? && |padding| == 24
    ensures var b := Encode(c, padding);
            && |b| == 48 && b[..4] == [0, 0, 0, 2]
            && c == CmdUnlink(Word(b, 4), Word(b, 8), Word(b, 12), Word(b, 16), Word(b, 20))
  {
    var b := Encode(c, padding);
    assert ToNetwork([CMD_UNLINK]) == U32BE(CMD_UNLINK) + ToNetwork([]) && U32BE(CMD_UNLINK) == [0, 0, 0, 2];
    assert b[..4] == [0, 0, 0, 2];
    CommandRead(c, padding, []);
    assert b + [] == b;
    UnlinkIsReadAs(b);
  }
}
