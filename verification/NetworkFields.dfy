/**
 The field lists every message is built from: unsigned integers of any width in network order, and byte arrays copied
 as they are.
 */
module NetworkFields {
  import opened Basics
  import opened Bytes
  import opened Framing

  type u64 = n: int | 0 <= n < 0x1_0000_0000_0000_0000

  datatype Field = F8(b: byte) | F16(h: u16) | F32(w: u32) | F64(d: u64) | Raw(bytes: seq<byte>)

  /** The type of a field: all that a reader knows of it beforehand. */
  datatype Shape = S8 | S16 | S32 | S64 | SRaw(size: nat)

  function ShapeOf(f: Field): Shape {
    match f
    case F8(_) => S8
    case F16(_) => S16
    case F32(_) => S32
    case F64(_) => S64
    case Raw(bytes) => SRaw(|bytes|)
  }

  function Size(s: Shape): nat {
    match s
    case S8 => 1
    case S16 => 2
    case S32 => 4
    case S64 => 8
    case SRaw(size) => size
  }

  function U64BE(x: u64): (b: seq<byte>)
    ensures |b| == 8
  {
    U32BE(x / 0x1_0000_0000) + U32BE(x % 0x1_0000_0000)
  }

  function ToU64BE(b: seq<byte>): u64
    requires |b| == 8
  {
    ToU32BE(b[..4]) * 0x1_0000_0000 + ToU32BE(b[4..])
  }

  lemma U64Inverse(x: u64)
    ensures ToU64BE(U64BE(x)) == x
  {
    var hi: u32, lo: u32 := x / 0x1_0000_0000, x % 0x1_0000_0000;
    U32Inverse(hi);
    U32Inverse(lo);
    assert U64BE(x)[..4] == U32BE(hi) && U64BE(x)[4..] == U32BE(lo);
  }

  function FieldBytes(f: Field): (b: seq<byte>)
    ensures |b| == Size(ShapeOf(f))
  {
    match f
    case F8(b) => [b]
    case F16(h) => U16BE(h)
    case F32(w) => U32BE(w)
    case F64(d) => U64BE(d)
    case Raw(bytes) => bytes
  }

  function FieldFrom(s: Shape, b: seq<byte>): (f: Field)
    requires |b| == Size(s)
    ensures ShapeOf(f) == s
  {
    match s
    case S8 => F8(b[0])
    case S16 => F16(ToU16BE(b))
    case S32 => F32(ToU32BE(b))
    case S64 => F64(ToU64BE(b))
    case SRaw(_) => Raw(b)
  }

  lemma FieldInverse(f: Field)
    ensures FieldFrom(ShapeOf(f), FieldBytes(f)) == f
  {
    match f
    case F16(h) => U16Inverse(h);
    case F32(w) => U32Inverse(w);
    case F64(d) => U64Inverse(d);
    case _ =>
  }

  /** An integer's bytes stand in network order, most significant first, whatever its width. */
  lemma FieldWeighs(f: Field)
    ensures var b := FieldBytes(f);
            match f
            case F8(x) => b == [x]
            case F16(x) => |b| == 2 && x == Weigh(0, 0, b[0], b[1])
            case F32(x) => |b| == 4 && x == Weigh(b[0], b[1], b[2], b[3])
            case F64(x) =>
              |b| == 8 && x == 4294967296 * Weigh(b[0], b[1], b[2], b[3]) + Weigh(b[4], b[5], b[6], b[7])
            case Raw(bytes) => b == bytes
  {
    FieldInverse(f);
    match f
    case F16(h) => Weights16(U16BE(h));
    case F32(w) => Weights32(U32BE(w));
    case F64(d) =>
      Weights32(U64BE(d)[..4]);
      Weights32(U64BE(d)[4..]);
    case _ =>
  }

  // ----- lists of fields -----

  function Shapes(fields: seq<Field>): seq<Shape> {
    if fields == [] then [] else [ShapeOf(fields[0])] + Shapes(fields[1..])
  }

  function TotalSize(shapes: seq<Shape>): nat {
    if shapes == [] then 0 else Size(shapes[0]) + TotalSize(shapes[1..])
  }

  function AllBytes(fields: seq<Field>): (b: seq<byte>)
    ensures |b| == TotalSize(Shapes(fields))
  {
    if fields == [] then []
    else
      assert Shapes(fields)[1..] == Shapes(fields[1..]);
      FieldBytes(fields[0]) + AllBytes(fields[1..])
  }

  /** Fields of these types, from the front of b. */
  function AllFrom(shapes: seq<Shape>, b: seq<byte>): (fields: seq<Field>)
    requires |b| >= TotalSize(shapes)
  {
    if shapes == [] then []
    else
      var n := Size(shapes[0]);
      [FieldFrom(shapes[0], b[..n])] + AllFrom(shapes[1..], b[n..])
  }

  lemma FirstField(f: Field, shapes: seq<Shape>, after: seq<byte>)
    requires |after| >= TotalSize(shapes)
    ensures ([ShapeOf(f)] + shapes)[1..] == shapes
    ensures TotalSize([ShapeOf(f)] + shapes) == |FieldBytes(f)| + TotalSize(shapes)
    ensures AllFrom([ShapeOf(f)] + shapes, FieldBytes(f) + after) == [f] + AllFrom(shapes, after)
  {
    var b, n := FieldBytes(f) + after, |FieldBytes(f)|;
    assert b[..n] == FieldBytes(f) && b[n..] == after && ([ShapeOf(f)] + shapes)[1..] == shapes;
    FieldInverse(f);
  }

  /** Reading with the field types the writer used gives the fields back, whatever follows. */
  lemma {:induction false} FieldsInverse(fields: seq<Field>, rest: seq<byte>)
    ensures AllFrom(Shapes(fields), AllBytes(fields) + rest) == fields
  {
    if fields != [] {
      var after := AllBytes(fields[1..]) + rest;
      assert Shapes(fields)[1..] == Shapes(fields[1..]);
      assert AllBytes(fields) + rest == FieldBytes(fields[0]) + after;
      FirstField(fields[0], Shapes(fields[1..]), after);
      FieldsInverse(fields[1..], rest);
    }
  }

  lemma {:induction false} BytesSnoc(fields: seq<Field>, f: Field)
    ensures AllBytes(fields + [f]) == AllBytes(fields) + FieldBytes(f)
  {
    if fields == [] {
      assert [] + [f] == [f] && AllBytes([f]) == FieldBytes(f) + AllBytes([]);
    } else {
      assert (fields + [f])[1..] == fields[1..] + [f];
      BytesSnoc(fields[1..], f);
    }
  }

  lemma NextField(fields: seq<Field>, i: nat)
    requires i < |fields|
    ensures AllBytes(fields[..i + 1]) == AllBytes(fields[..i]) + FieldBytes(fields[i])
    ensures AllBytes(fields[i..]) == FieldBytes(fields[i]) + AllBytes(fields[i + 1..])
  {
    assert fields[..i + 1] == fields[..i] + [fields[i]] && fields[i..][1..] == fields[i + 1..];
    BytesSnoc(fields[..i], fields[i]);
  }

  /** memcpy of one field. */
  method CopyTo(buffer: array<byte>, offset: nat, net: seq<byte>)
    requires offset + |net| <= buffer.Length
    modifies buffer
    ensures buffer[..offset + |net|] == old(buffer[..offset]) + net
  {
    forall k | 0 <= k < |net| { buffer[offset + k] := net[k]; }
  }

  /** to_network_array: each field is copied at a running offset. */
  method ToNetworkArray(fields: seq<Field>) returns (buffer: array<byte>)
    ensures fresh(buffer) && buffer[..] == AllBytes(fields)
  {
    buffer := new byte[TotalSize(Shapes(fields))];
    var offset := 0;
    assert fields[0..] == fields;
    for i := 0 to |fields|
      invariant 0 <= offset <= buffer.Length && offset + |AllBytes(fields[i..])| == buffer.Length
      invariant buffer[..offset] == AllBytes(fields[..i])
    {
      var net := FieldBytes(fields[i]);
      NextField(fields, i);
      CopyTo(buffer, offset, net);
      offset := offset + |net|;
    }
    assert fields[..|fields|] == fields && fields[|fields|..] == [] && buffer[..offset] == buffer[..];
  }

  // ----- the commands are such lists -----

  function Words(words: seq<u32>): seq<Field> {
    if words == [] then [] else [F32(words[0])] + Words(words[1..])
  }

  lemma {:induction false} WordBytes(words: seq<u32>)
    ensures AllBytes(Words(words)) == ToNetwork(words)
  {
    if words != [] {
      assert Words(words)[1..] == Words(words[1..]);
      WordBytes(words[1..]);
    }
  }

  lemma {:induction false} BytesAppend(a: seq<Field>, b: seq<Field>)
    ensures AllBytes(a + b) == AllBytes(a) + AllBytes(b)
  {
    if a == [] {
      assert a + b == b;
    } else {
      assert (a + b)[1..] == a[1..] + b;
      BytesAppend(a[1..], b);
    }
  }

  lemma {:induction false} WordsAppend(a: seq<u32>, b: seq<u32>)
    ensures ToNetwork(a + b) == ToNetwork(a) + ToNetwork(b)
  {
    if a == [] {
      assert a + b == b;
    } else {
      assert (a + b)[1..] == a[1..] + b;
      WordsAppend(a[1..], b);
    }
  }

  lemma NestedBytes(header: seq<u32>, words: seq<u32>, raw: seq<byte>)
    ensures AllBytes([Raw(AllBytes(Words(header)))] + Words(words) + [Raw(raw)]) == ToNetwork(header + words) + raw
  {
    var head := Raw(AllBytes(Words(header)));
    BytesSnoc([head] + Words(words), Raw(raw));
    BytesAppend([head], Words(words));
    assert [head][1..] == [] && AllBytes([head]) == head.bytes + AllBytes([]);
    WordBytes(header);
    WordBytes(words);
    WordsAppend(header, words);
  }

  function HeaderWords(s: Submit): seq<u32> {
    [CMD_SUBMIT, s.seqnum, s.devid, s.direction, s.ep]
  }

  function OtherWords(s: Submit): seq<u32> {
    [s.flags, s.length, s.startFrame, s.packets, s.interval]
  }

  /** The fixed part of a CMD_SUBMIT as the encoder lists it: the encoded header, five integers, the encoded setup. */
  function SubmitFields(s: Submit): seq<Field> {
    [Raw(AllBytes(Words(HeaderWords(s))))] + Words(OtherWords(s)) + [Raw(SetupBytes(s.setup))]
  }

  lemma FixedIs(s: Submit)
    ensures ToNetwork(HeaderWords(s) + OtherWords(s)) + SetupBytes(s.setup) == ToNetwork([CMD_SUBMIT]) + Fixed(s)
  {
    var words := [s.seqnum, s.devid, s.direction, s.ep, s.flags, s.length, s.startFrame, s.packets, s.interval];
    assert HeaderWords(s) + OtherWords(s) == [CMD_SUBMIT] + words;
    WordsAppend([CMD_SUBMIT], words);
  }

  /** ... is the encoding that the stream reader is proved to invert. */
  lemma SubmitIsEncoded(s: Submit, padding: seq<byte>)
    requires |padding| == 24
    ensures AllBytes(SubmitFields(s)) == Encode(CmdSubmit(s, None), padding)
  {
    NestedBytes(HeaderWords(s), OtherWords(s), SetupBytes(s.setup));
    FixedIs(s);
    assert Encode(CmdSubmit(s, None), padding) == ToNetwork([CMD_SUBMIT]) + (Fixed(s) + []);
  }
}
