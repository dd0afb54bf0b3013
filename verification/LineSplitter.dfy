/** The GPIO server's line reassembly: a 128-byte buffer, C strings and arbitrary recv sizes against a splitter that
    sees one byte at a time. */
module LineSplitter {
  import opened Basics

  const RX_BUF := 128
  const LIMIT := RX_BUF - 1
  const NUL: byte := 0
  const LF: byte := 10
  const CR: byte := 13

  datatype Event = Command(line: seq<byte>) | TooLong

  // ----- one byte at a time -----

  /** The unfinished line and what has been reported. */
  datatype State = State(line: seq<byte>, events: seq<Event>)

  function Strip(line: seq<byte>): seq<byte> {
    if line != [] && line[|line| - 1] == CR then line[..|line| - 1] else line
  }

  function Eat(s: State, b: byte): State {
    if b == LF then State([], s.events + [Command(Strip(s.line))])
    else if |s.line| + 1 >= LIMIT then State([], s.events + [TooLong])
    else State(s.line + [b], s.events)
  }

  function EatAll(s: State, bytes: seq<byte>): State
    decreases |bytes|
  {
    if bytes == [] then s else EatAll(Eat(s, bytes[0]), bytes[1..])
  }

  lemma {:induction false} EatAppend(s: State, a: seq<byte>, b: seq<byte>)
    ensures EatAll(s, a + b) == EatAll(EatAll(s, a), b)
    decreases |a|
  {
    if a == [] {
      assert a + b == b;
    } else {
      assert (a + b)[1..] == a[1..] + b;
      EatAppend(Eat(s, a[0]), a[1..], b);
    }
  }

  /** Bytes without a line feed gather in the line until the limit is hit. */
  lemma {:induction false} Gathers(s: State, bytes: seq<byte>)
    requires LF !in bytes && |s.line| < LIMIT && |s.line| + |bytes| <= LIMIT
    ensures EatAll(s, bytes) == if |s.line| + |bytes| == LIMIT then State([], s.events + [TooLong])
                                else State(s.line + bytes, s.events)
    decreases |bytes|
  {
    if bytes == [] {
      assert s.line + [] == s.line;
    } else {
      var next := Eat(s, bytes[0]);
      assert LF !in bytes[1..];
      if |bytes| > 1 || |s.line| + 1 < LIMIT {
        Gathers(next, bytes[1..]);
        assert s.line + bytes == next.line + bytes[1..];
      }
    }
  }

  /** Keeping an unfinished line is the same as seeing its bytes again. */
  lemma Resume(line: seq<byte>, more: seq<byte>, events: seq<Event>)
    requires LF !in line && |line| < LIMIT
    ensures EatAll(State(line, events), more) == EatAll(State([], events), line + more)
  {
    Gathers(State([], events), line);
    assert [] + line == line;
    EatAppend(State([], events), line, more);
  }

  /** One complete line at the front of the input. */
  lemma EatsLine(events: seq<Event>, line: seq<byte>, rest: seq<byte>)
    requires LF !in line && |line| < LIMIT
    ensures EatAll(State([], events), line + [LF] + rest) == EatAll(State([], events + [Command(Strip(line))]), rest)
  {
    EatAppend(State([], events), line, [LF] + rest);
    Gathers(State([], events), line);
    assert [] + line == line && line + [LF] + rest == line + ([LF] + rest);
    assert ([LF] + rest)[1..] == rest;
  }

  /** A line as a client sends it: its text, and whether it ends in CR LF or in LF alone. */
  datatype Line = Line(text: seq<byte>, cr: bool)

  function Sent(line: Line): seq<byte> {
    line.text + (if line.cr then [13, 10] else [10])
  }

  function SentAll(lines: seq<Line>): seq<byte> {
    if lines == [] then [] else Sent(lines[0]) + SentAll(lines[1..])
  }

  function Texts(lines: seq<Line>): seq<Event> {
    if lines == [] then [] else [Command(lines[0].text)] + Texts(lines[1..])
  }

  /** It has no line feed of its own, no CR that would pass for the line's end, and at most 126 bytes before LF. */
  predicate FitsLine(line: Line) {
    && 10 !in line.text
    && (line.cr || line.text == [] || line.text[|line.text| - 1] != 13)
    && |line.text| + (if line.cr then 1 else 0) <= 126
  }

  lemma EatsSent(events: seq<Event>, line: Line, rest: seq<byte>)
    requires FitsLine(line)
    ensures EatAll(State([], events), Sent(line) + rest) == EatAll(State([], events + [Command(line.text)]), rest)
  {
    var before := if line.cr then line.text + [13] else line.text;
    assert Sent(line) + rest == before + [LF] + rest && Strip(before) == line.text;
    EatsLine(events, before, rest);
  }

  /** Lines that fit come out one by one, each without its line ending. */
  lemma {:induction false} LinesComeBack(events: seq<Event>, lines: seq<Line>)
    requires forall line | line in lines :: FitsLine(line)
    ensures EatAll(State([], events), SentAll(lines)) == State([], events + Texts(lines))
    decreases |lines|
  {
    if lines == [] {
      assert events + [] == events;
    } else {
      EatsSent(events, lines[0], SentAll(lines[1..]));
      LinesComeBack(events + [Command(lines[0].text)], lines[1..]);
      assert events + [Command(lines[0].text)] + Texts(lines[1..]) == events + Texts(lines);
    }
  }

  // ----- C strings -----

  /** Where the string that starts at `at` ends: the next NUL. */
  function StrEnd(b: seq<byte>, at: nat): (end: nat)
    requires at <= |b|
    ensures at <= end <= |b| && (end < |b| ==> b[end] == NUL) && forall k | at <= k < end :: b[k] != NUL
    decreases |b| - at
  {
    if at == |b| || b[at] == NUL then at else StrEnd(b, at + 1)
  }

  /** The string that starts at `at`. */
  function CString(b: seq<byte>, at: nat): seq<byte>
    requires at <= |b|
  {
    b[at..StrEnd(b, at)]
  }

  /** One recv: strchr sees the buffer up to its first NUL.  With a line feed there, what follows the NUL is dropped;
      without one, everything is kept. */
  function Recv(s: State, chunk: seq<byte>): State {
    var content := s.line + chunk;
    var visible := CString(content, 0);
    if LF in visible then EatAll(State([], s.events), visible)
    else if |content| >= LIMIT then State([], s.events + [TooLong])
    else State(content, s.events)
  }

  function RecvAll(chunks: seq<seq<byte>>): State {
    if chunks == [] then State([], []) else Recv(RecvAll(chunks[..|chunks| - 1]), chunks[|chunks| - 1])
  }

  /** The chunks recv may return: never more than the buffer has room for. */
  predicate Fit(chunks: seq<seq<byte>>) {
    forall k {:trigger chunks[k]} | 0 <= k < |chunks| :: |RecvAll(chunks[..k]).line| + |chunks[k]| <= LIMIT
  }

  /** The splitter's unfinished line has no line feed. */
  lemma {:induction false} LineHasNoLf(s: State, bytes: seq<byte>)
    requires LF !in s.line
    ensures LF !in EatAll(s, bytes).line
    decreases |bytes|
  {
    if bytes != [] { LineHasNoLf(Eat(s, bytes[0]), bytes[1..]); }
  }

  lemma {:induction false} EventsGrow(s: State, bytes: seq<byte>)
    ensures s.events <= EatAll(s, bytes).events
    ensures EatAll(s, bytes).events == s.events ==> EatAll(s, bytes).line == s.line + bytes
    decreases |bytes|
  {
    if bytes == [] {
      assert s.line + [] == s.line;
    } else {
      EventsGrow(Eat(s, bytes[0]), bytes[1..]);
      assert s.line + [bytes[0]] + bytes[1..] == s.line + bytes;
    }
  }

  /** A line is handed over exactly if it has at most 126 bytes before its line feed; a longer one is reported as too
      long first. */
  lemma HandedOverExactlyWhen(events: seq<Event>, text: seq<byte>)
    requires 10 !in text && (text == [] || text[|text| - 1] != 13)
    ensures EatAll(State([], events), text + [10]).events == events + [Command(text)] <==> |text| <= 126
    ensures |text| > 126 ==> events + [TooLong] <= EatAll(State([], events), text + [10]).events
  {
    if |text| <= 126 {
      EatsSent(events, Line(text, false), []);
      assert Sent(Line(text, false)) + [] == text + [10];
    } else {
      assert text + [10] == text[..127] + (text[127..] + [10]);
      TooLongFirst(events, text[..127], text[127..] + [10]);
    }
  }

  lemma TooLongFirst(events: seq<Event>, front: seq<byte>, rest: seq<byte>)
    requires LF !in front && |front| == LIMIT
    ensures events + [TooLong] <= EatAll(State([], events), front + rest).events
    ensures |EatAll(State([], events), front + rest).events| > |events|
    ensures EatAll(State([], events), front + rest).events[|events|] == TooLong
  {
    EatAppend(State([], events), front, rest);
    Gathers(State([], events), front);
    EventsGrow(State([], events + [TooLong]), rest);
    assert (events + [TooLong])[|events|] == TooLong;
  }

  /** One recv does what the splitter does exactly if the buffer does not mix NULs and line feeds. */
  lemma RecvAgreesExactlyWhen(s: State, chunk: seq<byte>)
    requires LF !in s.line && |s.line| < LIMIT && |s.line| + |chunk| <= LIMIT
    ensures Recv(s, chunk) == EatAll(s, chunk) <==> NUL !in s.line + chunk || LF !in s.line + chunk
  {
    var content := s.line + chunk;
    var end := StrEnd(content, 0);
    var visible, hidden := content[..end], content[end..];
    assert CString(content, 0) == visible && content == visible + hidden;
    Resume(s.line, chunk, s.events);
    EatAppend(State([], s.events), visible, hidden);
    if LF !in content {
      Gathers(State([], s.events), content);
      assert [] + content == content && LF !in visible;
    } else if NUL !in content {
      assert visible == content;
    } else if LF in visible {
      EventsGrow(EatAll(State([], s.events), visible), hidden);
    } else {
      LongerByALine(State([], s.events), content);
    }
  }

  /** A line feed within reach is a command, before anything else is reported. */
  lemma {:induction false} LongerByALine(s: State, content: seq<byte>)
    requires LF in content && |s.line| + |content| <= LIMIT
    ensures |EatAll(s, content).events| > |s.events| && EatAll(s, content).events[|s.events|].Command?
    decreases |content|
  {
    var next := Eat(s, content[0]);
    if content[0] == LF {
      EventsGrow(next, content[1..]);
      assert next.events[|s.events|].Command?;
    } else {
      assert content == [content[0]] + content[1..];
      LongerByALine(next, content[1..]);
    }
  }

  /** After the first k chunks the client's state is the splitter's. */
  ghost predicate AgreesAt(chunks: seq<seq<byte>>, k: nat)
    requires k <= |chunks|
  {
    RecvAll(chunks[..k]) == EatAll(State([], []), Flatten(chunks[..k]))
  }

  ghost predicate Agrees(chunks: seq<seq<byte>>, n: nat)
    requires n <= |chunks|
  {
    forall k: nat | k <= n :: AgreesAt(chunks, k)
  }

  /** Chunk k makes the buffer hold both a NUL and a line feed. */
  ghost predicate Mixes(chunks: seq<seq<byte>>, k: nat)
    requires k < |chunks|
  {
    var content := RecvAll(chunks[..k]).line + chunks[k];
    NUL in content && LF in content
  }

  ghost predicate MixedBefore(chunks: seq<seq<byte>>, n: nat)
    requires n <= |chunks|
  {
    exists k: nat :: k < n && Mixes(chunks, k)
  }

  lemma {:induction false} LineFits(chunks: seq<seq<byte>>, n: nat)
    requires Fit(chunks) && n <= |chunks|
    ensures |RecvAll(chunks[..n]).line| < LIMIT
  {
    if n != 0 {
      LineFits(chunks, n - 1);
      assert chunks[..n][..n - 1] == chunks[..n - 1];
      var s, chunk := RecvAll(chunks[..n - 1]), chunks[n - 1];
      var visible := CString(s.line + chunk, 0);
      if LF in visible {
        ShorterThan(State([], s.events), visible);
      }
    }
  }

  lemma {:induction false} ShorterThan(s: State, bytes: seq<byte>)
    requires |s.line| < LIMIT
    ensures |EatAll(s, bytes).line| < LIMIT
    decreases |bytes|
  {
    if bytes != [] { ShorterThan(Eat(s, bytes[0]), bytes[1..]); }
  }

  /**
   However recv cuts the stream: the client has done what the splitter does at every point exactly if the buffer never
   held a NUL together with a line feed.
   */
  lemma {:induction false} AgreesExactlyWhen(chunks: seq<seq<byte>>, n: nat)
    requires Fit(chunks) && n <= |chunks|
    ensures Agrees(chunks, n) <==> !MixedBefore(chunks, n)
  {
    if n == 0 {
      assert AgreesAt(chunks, 0);
    } else {
      AgreesExactlyWhen(chunks, n - 1);
      assert MixedBefore(chunks, n) <==> MixedBefore(chunks, n - 1) || Mixes(chunks, n - 1);
      if Agrees(chunks, n - 1) {
        assert AgreesAt(chunks, n - 1);
        ChunkAgrees(chunks, n - 1);
      } else {
        var k: nat :| k <= n - 1 && !AgreesAt(chunks, k);
      }
    }
  }

  lemma ChunkAgrees(chunks: seq<seq<byte>>, k: nat)
    requires Fit(chunks) && k < |chunks| && AgreesAt(chunks, k)
    ensures AgreesAt(chunks, k + 1) <==> !Mixes(chunks, k)
  {
    var before := chunks[..k];
    assert chunks[..k + 1][..k] == before;
    LineFits(chunks, k);
    LineHasNoLf(State([], []), Flatten(before));
    FlattenSnoc(before, chunks[k]);
    assert chunks[..k + 1] == before + [chunks[k]];
    EatAppend(State([], []), Flatten(before), chunks[k]);
    RecvAgreesExactlyWhen(RecvAll(before), chunks[k]);
  }

  ghost predicate NulFree(chunks: seq<seq<byte>>) {
    forall chunk <- chunks :: NUL !in chunk
  }

  lemma {:induction false} FlattenNulFree(chunks: seq<seq<byte>>)
    ensures NUL !in Flatten(chunks) <==> NulFree(chunks)
  {
    if chunks != [] {
      FlattenNulFree(chunks[1..]);
      assert chunks == [chunks[0]] + chunks[1..];
    }
  }

  lemma {:induction false} LineFromBytes(s: State, bytes: seq<byte>)
    requires NUL !in s.line && NUL !in bytes
    ensures NUL !in EatAll(s, bytes).line
    decreases |bytes|
  {
    if bytes != [] { LineFromBytes(Eat(s, bytes[0]), bytes[1..]); }
  }

  /** Without NULs the cuts do not matter: the client does what the splitter does. */
  lemma NulFreeAgrees(chunks: seq<seq<byte>>)
    requires Fit(chunks) && NUL !in Flatten(chunks)
    ensures RecvAll(chunks) == EatAll(State([], []), Flatten(chunks))
  {
    FlattenNulFree(chunks);
    NulFreeNeverMixes(chunks, |chunks|);
    AgreesExactlyWhen(chunks, |chunks|);
    assert AgreesAt(chunks, |chunks|) && chunks[..|chunks|] == chunks;
  }

  lemma {:induction false} NulFreeNeverMixes(chunks: seq<seq<byte>>, n: nat)
    requires Fit(chunks) && NulFree(chunks) && n <= |chunks|
    ensures !MixedBefore(chunks, n)
  {
    if n != 0 {
      NulFreeNeverMixes(chunks, n - 1);
      NulFreeLine(chunks, n - 1);
    }
  }

  lemma NulFreeLine(chunks: seq<seq<byte>>, k: nat)
    requires Fit(chunks) && NulFree(chunks) && k < |chunks| && !MixedBefore(chunks, k)
    ensures !Mixes(chunks, k)
  {
    AgreesExactlyWhen(chunks, k);
    assert AgreesAt(chunks, k);
    FlattenNulFree(chunks[..k]);
    assert chunks[k] in chunks;
    LineFromBytes(State([], []), Flatten(chunks[..k]));
  }

  /** A chunk that begins with a complete line, and perhaps a NUL after it. */
  lemma RecvLine(events: seq<Event>, line: seq<byte>, hidden: seq<byte>)
    requires LF !in line && NUL !in line && |line| < LIMIT && (hidden != [] ==> hidden[0] == NUL)
    ensures Recv(State([], events), line + [LF] + hidden) == State([], events + [Command(Strip(line))])
  {
    var content := line + [LF] + hidden;
    assert [] + content == content;
    forall k | 0 <= k < |line| ensures content[k] != NUL { assert content[k] == line[k] && line[k] in line; }
    assert content[|line|] == LF && (hidden != [] ==> content[|line| + 1] == hidden[0]);
    assert StrEnd(content, 0) == |line| + 1;
    EatsLine(events, line, []);
    assert CString(content, 0) == line + [LF] + [];
  }

  /** A chunk behind a NUL that is kept, or that begins with one, is only kept. */
  lemma RecvHidden(s: State, chunk: seq<byte>)
    requires |s.line + chunk| < LIMIT && s.line + chunk != [] && (s.line + chunk)[0] == NUL
    ensures Recv(s, chunk) == State(s.line + chunk, s.events)
  {
    assert CString(s.line + chunk, 0) == [];
  }

  const IN_TWO: seq<seq<byte>> := [[LF, NUL, LF], [97, LF]]
  const IN_THREE: seq<seq<byte>> := [[LF], [NUL, LF], [97, LF]]

  lemma TwoChunks()
    ensures Fit(IN_TWO) && Flatten(IN_TWO) == [LF, NUL, LF, 97, LF]
    ensures RecvAll(IN_TWO).events == [Command([]), Command([97])]
  {
    RecvLine([], [], [NUL, LF]);
    assert [] + [LF] + [NUL, LF] == [LF, NUL, LF];
    var chunks := Extended([], [LF, NUL, LF]);
    assert RecvAll(chunks) == State([], [Command([])]) && Flatten(chunks) == [LF, NUL, LF];
    RecvLine([Command([])], [97], []);
    assert [97] + [LF] + [] == [97, LF] && Strip([97]) == [97];
    assert Extended(chunks, [97, LF]) == IN_TWO;
  }

  lemma ThreeChunks()
    ensures Fit(IN_THREE) && Flatten(IN_THREE) == [LF, NUL, LF, 97, LF]
    ensures RecvAll(IN_THREE).events == [Command([])]
  {
    RecvLine([], [], []);
    assert [] + [LF] + [] == [LF];
    var chunks := Extended([], [LF]);
    assert RecvAll(chunks) == State([], [Command([])]) && Flatten(chunks) == [LF];
    RecvHidden(State([], [Command([])]), [NUL, LF]);
    assert [] + [NUL, LF] == [NUL, LF];
    chunks := Extended(chunks, [NUL, LF]);
    assert RecvAll(chunks) == State([NUL, LF], [Command([])]) && Flatten(chunks) == [LF, NUL, LF];
    RecvHidden(State([NUL, LF], [Command([])]), [97, LF]);
    assert Extended(chunks, [97, LF]) == IN_THREE;
  }

  /** With a NUL the cuts decide: the same five bytes are two commands, or only the first of them. */
  lemma CutsDecide()
    ensures Fit(IN_TWO) && Fit(IN_THREE) && Flatten(IN_TWO) == Flatten(IN_THREE)
    ensures RecvAll(IN_TWO).events == [Command([]), Command([97])]
    ensures RecvAll(IN_THREE).events == [Command([])]
  {
    TwoChunks();
    ThreeChunks();
  }

  class Client {
    const buf: array<byte>
    var len: nat
    var events: seq<Event>

    ghost predicate Valid()
      reads this
    {
      buf.Length == RX_BUF && len < LIMIT
    }

    constructor ()
      ensures Valid() && fresh(buf) && len == 0 && events == []
    {
      buf := new byte[RX_BUF];
      len, events := 0, [];
    }

    ghost function Now(): State
      requires len <= buf.Length
      reads this, buf
    {
      State(buf[..len], events)
    }

    /** From `start` on, the buffer holds the string `visible`. */
    ghost predicate Holds(visible: seq<byte>, start: nat)
      reads this, buf
    {
      && start <= |visible| <= len < buf.Length && buf[|visible|] == NUL && NUL !in visible
      && forall k | start <= k < |visible| :: buf[k] == visible[k]
    }

    /** strchr: the first `c` of the string at `start`, if any. */
    method StrChr(ghost visible: seq<byte>, start: nat, c: byte) returns (at: Option<nat>)
      requires Holds(visible, start) && c != NUL
      ensures at.None? ==> c !in visible[start..]
      ensures at.Some? ==> start <= at.value < |visible| && visible[at.value] == c && c !in visible[start..at.value]
    {
      assert forall k | 0 <= k < |visible| :: visible[k] in visible;
      var i := start;
      while buf[i] != NUL && buf[i] != c
        invariant start <= i <= |visible| && c !in visible[start..i]
        decreases |visible| - i
      {
        assert visible[start..i + 1] == visible[start..i] + [visible[i]];
        i := i + 1;
      }
      at := if buf[i] == NUL then None else Some(i);
    }

    /** strlen */
    method StrLen(ghost visible: seq<byte>, start: nat) returns (n: nat)
      requires Holds(visible, start)
      ensures n == |visible| - start
    {
      assert forall k | 0 <= k < |visible| :: visible[k] in visible;
      n := 0;
      while buf[start + n] != NUL
        invariant start + n <= |visible|
        decreases |visible| - n
      {
        n := n + 1;
      }
    }

    /** Ends the line at `nl` and hands it over. */
    method EmitLine(start: nat, nl: nat)
      requires start <= nl < len < buf.Length && NUL !in buf[start..nl]
      modifies buf, this`events
      ensures forall k | nl < k < buf.Length :: buf[k] == old(buf[k])
      ensures events == old(events) + [Command(Strip(old(buf[start..nl])))]
    {
      ghost var line := buf[start..nl];
      ghost var end := nl;
      buf[nl] := NUL;
      assert buf[start..nl] == line;
      if nl > start && buf[nl - 1] == CR {
        assert line[|line| - 1] == CR;
        buf[nl - 1] := NUL;
        end := nl - 1;
      }
      assert buf[start..end] == Strip(line);
      forall k | start <= k < end ensures buf[k] != NUL {
        assert buf[k] == line[k - start];
      }
      assert StrEnd(buf[..], start) == end;
      events := events + [Command(CString(buf[..], start))];
    }

    /** One complete line of `visible`, from `start` to the line feed at `at`. */
    method EmitNext(ghost visible: seq<byte>, start: nat, at: nat)
      requires Holds(visible, start) && |visible| <= LIMIT
      requires start <= at < |visible| && visible[at] == LF && LF !in visible[start..at]
      modifies buf, this`events
      ensures Holds(visible, at + 1)
      ensures EatAll(State([], old(events)), visible[start..]) == EatAll(State([], events), visible[at + 1..])
    {
      assert buf[start..at] == visible[start..at];
      EatsCut(visible, start, at, events);
      EmitLine(start, at);
    }

    /** Every complete line of the string the buffer holds; stops at 0 only if there is none. */
    method EmitLines(ghost visible: seq<byte>) returns (start: nat)
      requires Holds(visible, 0) && |visible| <= LIMIT
      modifies buf, this`events
      ensures Holds(visible, start) && LF !in visible[start..] && (start > 0 <==> LF in visible)
      ensures start == 0 ==> events == old(events) && forall k | 0 <= k < buf.Length :: buf[k] == old(buf[k])
      ensures EatAll(State([], old(events)), visible) == EatAll(State([], events), visible[start..])
    {
      start := 0;
      assert visible[0..] == visible;
      var nl := StrChr(visible, start, LF);
      while nl.Some?
        invariant Holds(visible, start) && (start > 0 ==> LF in visible)
        invariant start == 0 ==> events == old(events) && forall k | 0 <= k < buf.Length :: buf[k] == old(buf[k])
        invariant EatAll(State([], old(events)), visible) == EatAll(State([], events), visible[start..])
        invariant nl.None? ==> LF !in visible[start..]
        invariant nl.Some? ==> start <= nl.value < |visible| && visible[nl.value] == LF
                               && LF !in visible[start..nl.value]
        decreases |visible| - start, nl.Some?
      {
        EmitNext(visible, start, nl.value);
        start := nl.value + 1;
        nl := StrChr(visible, start, LF);
      }
    }

    /** One recv: appends the bytes, handles every complete line and moves the rest to the front. */
    method Receive(chunk: seq<byte>)
      requires Valid() && chunk != [] && len + |chunk| <= LIMIT
      modifies this, buf
      ensures Valid() && Now() == Recv(old(Now()), chunk)
    {
      ghost var content, before := buf[..len] + chunk, events;
      forall i | 0 <= i < |chunk| { buf[len + i] := chunk[i]; }
      len := len + |chunk|;
      buf[len] := NUL;
      assert buf[..len] == content;
      ghost var visible := CString(content, 0);
      assert forall k | 0 <= k < |visible| :: buf[k] == content[k] == visible[k];
      var start := EmitLines(visible);
      assert start == 0 ==> buf[..len] == content;
      Gathers(State([], events), visible[start..]);
      assert [] + visible[start..] == visible[start..];
      KeepRest(visible, start);
    }

    /** Moves what follows the last line feed to the front; a full buffer without one is dropped. */
    method KeepRest(ghost visible: seq<byte>, start: nat)
      requires buf.Length == RX_BUF && len <= LIMIT && Holds(visible, start)
      modifies this, buf
      ensures Valid()
      ensures Now() == if start > 0 then State(visible[start..], old(events))
                       else if old(len) >= LIMIT then State([], old(events) + [TooLong])
                       else old(Now())
    {
      if start > 0 {
        var left := StrLen(visible, start);
        forall i | 0 <= i <= left { buf[i] := buf[start + i]; }
        len := left;
        assert buf[..len] == visible[start..];
      }
      if len >= LIMIT {
        events := events + [TooLong];
        len := 0;
        buf[0] := NUL;
      }
    }

    /** A whole connection, with recv cutting the stream as it likes into `chunks`. */
    method HandleClient(stream: seq<byte>) returns (ghost chunks: seq<seq<byte>>)
      requires Valid() && len == 0 && events == []
      modifies this, buf
      ensures Flatten(chunks) == stream && Fit(chunks) && Valid() && Now() == RecvAll(chunks)
      ensures NUL !in stream ==> Now() == EatAll(State([], []), stream)
    {
      var at := 0;
      chunks := [];
      assert stream[..0] == [];
      while at < |stream|
        invariant 0 <= at <= |stream| && Valid()
        invariant Flatten(chunks) == stream[..at] && Fit(chunks) && Now() == RecvAll(chunks)
      {
        var n: nat :| 1 <= n <= |stream| - at && n <= LIMIT - len;
        Receive(stream[at..at + n]);
        chunks := Extended(chunks, stream[at..at + n]);
        assert stream[..at] + stream[at..at + n] == stream[..at + n];
        at := at + n;
      }
      assert stream[..at] == stream;
      if NUL !in stream { NulFreeAgrees(chunks); }
    }
  }

  /** One chunk more. */
  ghost function Extended(chunks: seq<seq<byte>>, chunk: seq<byte>): (r: seq<seq<byte>>)
    requires Fit(chunks) && |RecvAll(chunks).line| + |chunk| <= LIMIT
    ensures Fit(r) && Flatten(r) == Flatten(chunks) + chunk && RecvAll(r) == Recv(RecvAll(chunks), chunk)
  {
    var r := chunks + [chunk];
    FlattenSnoc(chunks, chunk);
    assert r[..|chunks|] == chunks;
    assert forall k | 0 <= k < |chunks| :: r[..k] == chunks[..k] && r[k] == chunks[k];
    r
  }

  /** The string from `start` on, cut at a line feed. */
  lemma EatsCut(visible: seq<byte>, start: nat, at: nat, events: seq<Event>)
    requires start <= at < |visible| <= LIMIT && visible[at] == LF && LF !in visible[start..at] && NUL !in visible
    ensures NUL !in visible[start..at]
    ensures EatAll(State([], events), visible[start..])
         == EatAll(State([], events + [Command(Strip(visible[start..at]))]), visible[at + 1..])
  {
    assert visible[start..] == visible[start..at] + [LF] + visible[at + 1..];
    EatsLine(events, visible[start..at], visible[at + 1..]);
    assert forall x | x in visible[start..at] :: x in visible;
  }
}
