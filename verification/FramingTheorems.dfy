/** Commands written to a stream are read back as written, exactly when the reader expects the bytes that follow. */
module FramingTheorems {
  import opened Basics
  import opened Bytes
  import opened Framing

  /** What the reader makes of a command: OUT data and iso descriptors, in a transfer of its own. */
  function Received(c: Command): Command {
    match c
    case CmdSubmit(s, None) => CmdSubmit(s, Some(Transfer([], [])))
    case CmdSubmit(s, Some(t)) =>
      CmdSubmit(s, Some(Transfer(if s.direction == DIRECTION_IN then [] else t.data, t.iso)))
    case CmdUnlink(_, _, _, _, _) => c
  }

  /** The submits the reader can follow: a transfer must be attached exactly when the reader expects a body, and an
      IN submit's transfer must carry no data. */
  predicate SelfFraming(c: Command) {
    c.CmdSubmit? ==>
      if c.transfer.Some? then c.submit.direction != DIRECTION_IN || c.submit.length == 0
      else BodySize(c.submit) == 0
  }

  predicate Acceptable(c: Command) {
    Encodable(c) && (c.CmdSubmit? ==> c.submit.length <= MAX_TRANSFER_BUFFER_SIZE)
  }

  lemma FixedInverse(s: Submit)
    ensures ParseFixed(Fixed(s)) == s
  {
    var w := [s.seqnum, s.devid, s.direction, s.ep, s.flags, s.length, s.startFrame, s.packets, s.interval];
    assert Fixed(s)[..36] == ToNetwork(w) && Fixed(s)[36..] == SetupBytes(s.setup);
    NetworkInverse(w);
    SetupInverse(s.setup);
  }

  lemma {:induction false} IsoInverse(iso: seq<IsoPacket>)
    ensures ParseIso(IsoBytes(iso)) == iso
  {
    if iso != [] {
      var w := [iso[0].offset, iso[0].length, iso[0].actualLength, iso[0].status];
      assert IsoBytes(iso)[..16] == ToNetwork(w) && IsoBytes(iso)[16..] == IsoBytes(iso[1..]);
      NetworkInverse(w);
      IsoInverse(iso[1..]);
    }
  }

  /** The command word is read back, whatever follows. */
  lemma WordRead(w: u32, rest: seq<byte>)
    ensures var b := ToNetwork([w]) + rest; |b| >= 4 && ToU32BE(b[..4]) == w && b[4..] == rest
  {
    var b := ToNetwork([w]) + rest;
    assert ToNetwork([w]) == U32BE(w) + ToNetwork([]);
    assert b[..4] == U32BE(w) && b[4..] == rest;
    U32Inverse(w);
  }

  lemma SelfFramingIsExact(c: Command)
    requires Encodable(c) && c.CmdSubmit?
    ensures SelfFraming(c) <==> |Body(c)| == BodySize(c.submit)
  {
  }

  lemma SubmitRead(c: Command, rest: seq<byte>)
    requires Acceptable(c) && c.CmdSubmit? && SelfFraming(c)
    ensures ParseSubmit(Fixed(c.submit) + Body(c) + rest) == Got(Received(c), rest)
  {
    var s, stream := c.submit, Fixed(c.submit) + Body(c) + rest;
    SelfFramingIsExact(c);
    assert stream[..44] == Fixed(s) && stream[44..] == Body(c) + rest;
    FixedInverse(s);
    var n, m := DataSize(s), BodySize(s);
    var after := Body(c) + rest;
    assert after[m..] == rest && after[n..m] == Body(c)[n..];
    if c.transfer.Some? {
      var t := c.transfer.value;
      assert Body(c)[n..] == IsoBytes(t.iso) && after[..n] == if s.direction == DIRECTION_IN then [] else t.data;
      IsoInverse(t.iso);
    }
  }

  lemma UnlinkRead(c: Command, padding: seq<byte>, rest: seq<byte>)
    requires c.CmdUnlink? && |padding| == 24
    ensures ParseUnlink(ToNetwork([c.seqnum, c.devid, c.direction, c.ep, c.target]) + padding + rest) == Got(c, rest)
  {
    var w := [c.seqnum, c.devid, c.direction, c.ep, c.target];
    var stream := ToNetwork(w) + padding + rest;
    assert stream[..20] == ToNetwork(w) && stream[44..] == rest;
    NetworkInverse(w);
  }

  /** One command is read back whole and nothing more is consumed, whatever follows it on the stream. */
  lemma CommandRead(c: Command, padding: seq<byte>, rest: seq<byte>)
    requires Acceptable(c) && SelfFraming(c) && |padding| == 24
    ensures Parse(Encode(c, padding) + rest) == Got(Received(c), rest)
  {
    match c
    case CmdSubmit(s, _) =>
      WordRead(CMD_SUBMIT, Fixed(s) + Body(c) + rest);
      assert Encode(c, padding) + rest == ToNetwork([CMD_SUBMIT]) + (Fixed(s) + Body(c) + rest);
      SubmitRead(c, rest);
    case CmdUnlink(seqnum, devid, direction, ep, target) =>
      var fields := ToNetwork([seqnum, devid, direction, ep, target]);
      WordRead(CMD_UNLINK, fields + padding + rest);
      assert Encode(c, padding) + rest == ToNetwork([CMD_UNLINK]) + (fields + padding + rest);
      UnlinkRead(c, padding, rest);
  }

  /** A submit is read back from its own encoding exactly if it is self-framing: an IN submit sent with its buffer
      attached, or an OUT submit without one, makes the reader lose its place. */
  lemma ReadBackExactlyWhenSelfFraming(c: Command, padding: seq<byte>)
    requires Acceptable(c) && |padding| == 24
    ensures Parse(Encode(c, padding)) == Got(Received(c), []) <==> SelfFraming(c)
  {
    if SelfFraming(c) {
      CommandRead(c, padding, []);
      assert Encode(c, padding) + [] == Encode(c, padding);
    } else {
      WordRead(CMD_SUBMIT, Fixed(c.submit) + Body(c));
      MisframedRest(c);
    }
  }

  lemma MisframedRest(c: Command)
    requires Acceptable(c) && c.CmdSubmit? && !SelfFraming(c)
    ensures var r := ParseSubmit(Fixed(c.submit) + Body(c)); r.Got? ==> r.rest != []
  {
    var stream := Fixed(c.submit) + Body(c);
    SelfFramingIsExact(c);
    assert stream[..44] == Fixed(c.submit) && stream[44..] == Body(c);
    FixedInverse(c.submit);
  }

  // ----- streams of commands -----

  function EncodeAll(commands: seq<Command>, paddings: seq<seq<byte>>): seq<byte>
    requires |commands| == |paddings| && forall p | p in paddings :: |p| == 24
  {
    if commands == [] then [] else Encode(commands[0], paddings[0]) + EncodeAll(commands[1..], paddings[1..])
  }

  /** Reads up to n commands off a stream. */
  function ParseN(stream: seq<byte>, n: nat): Option<(seq<Command>, seq<byte>)> {
    if n == 0 then Some(([], stream))
    else match Parse(stream)
      case Failed(_) => None
      case Got(c, rest) =>
        match ParseN(rest, n - 1)
        case None => None
        case Some((cs, left)) => Some(([c] + cs, left))
  }

  function AllReceived(commands: seq<Command>): seq<Command> {
    if commands == [] then [] else [Received(commands[0])] + AllReceived(commands[1..])
  }

  /** Any list of self-framing commands is read back as that list, and exactly its bytes are consumed. */
  lemma {:induction false} StreamReadBack(commands: seq<Command>, paddings: seq<seq<byte>>, rest: seq<byte>)
    requires |commands| == |paddings| && forall p | p in paddings :: |p| == 24
    requires forall c | c in commands :: Acceptable(c) && SelfFraming(c)
    ensures ParseN(EncodeAll(commands, paddings) + rest, |commands|) == Some((AllReceived(commands), rest))
  {
    if commands == [] {
      assert EncodeAll(commands, paddings) + rest == rest;
    } else {
      var tail := EncodeAll(commands[1..], paddings[1..]) + rest;
      assert EncodeAll(commands, paddings) + rest == Encode(commands[0], paddings[0]) + tail;
      CommandRead(commands[0], paddings[0], tail);
      StreamReadBack(commands[1..], paddings[1..], rest);
    }
  }

  // ----- broken streams -----

  /** A connection that closes anywhere inside a command yields no command, only end of file. */
  lemma CutShortIsEof(c: Command, padding: seq<byte>, k: nat)
    requires Acceptable(c) && SelfFraming(c) && |padding| == 24 && k < |Encode(c, padding)|
    ensures Parse(Encode(c, padding)[..k]) == Failed(SocketEof)
  {
    var cut := Encode(c, padding)[..k];
    if k >= 4 {
      var after := Encode(c, padding)[4..];
      if c.CmdSubmit? { WordRead(CMD_SUBMIT, Fixed(c.submit) + Body(c)); }
      else { WordRead(CMD_UNLINK, ToNetwork([c.seqnum, c.devid, c.direction, c.ep, c.target]) + padding); }
      assert cut[..4] == Encode(c, padding)[..4] && cut[4..] == after[..k - 4];
      if c.CmdSubmit? { CutSubmitIsEof(c, k - 4); }
    }
  }

  lemma CutSubmitIsEof(c: Command, k: nat)
    requires Acceptable(c) && c.CmdSubmit? && SelfFraming(c) && k < 44 + |Body(c)|
    ensures ParseSubmit((Fixed(c.submit) + Body(c))[..k]) == Failed(SocketEof)
  {
    var cut := (Fixed(c.submit) + Body(c))[..k];
    SelfFramingIsExact(c);
    if k >= 44 {
      assert cut[..44] == Fixed(c.submit);
      FixedInverse(c.submit);
    }
  }

  /** A submit asking for more than 16 MiB is refused before anything is allocated or read. */
  lemma OversizeIsRefused(s: Submit, rest: seq<byte>)
    requires s.length > MAX_TRANSFER_BUFFER_SIZE
    ensures Parse(ToNetwork([CMD_SUBMIT]) + (Fixed(s) + rest)) == Failed(SocketErr)
  {
    WordRead(CMD_SUBMIT, Fixed(s) + rest);
    assert (Fixed(s) + rest)[..44] == Fixed(s);
    FixedInverse(s);
  }

  lemma UnknownIsRefused(word: u32, rest: seq<byte>)
    requires word != CMD_SUBMIT && word != CMD_UNLINK
    ensures Parse(ToNetwork([word]) + rest) == Failed(UnknownCmd)
  {
    WordRead(word, rest);
  }
}
