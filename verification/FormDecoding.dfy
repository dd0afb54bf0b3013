/** Reading a field of a posted Wi-Fi form: application/x-www-form-urlencoded values (URL Standard, section 5). */
module FormDecoding {
  import opened Basics

  const PLUS: byte := 43
  const SPACE: byte := 32
  const PERCENT: byte := 37
  const AMP: byte := 38
  const EQUALS: byte := 61
  const PREFIX_SIZE := 16
  const TMP_SIZE := 128

  // ----- decoding -----

  function HexNibble(c: byte): int {
    if 48 <= c <= 57 then c - 48
    else if 97 <= c <= 102 then c - 97 + 10
    else if 65 <= c <= 70 then c - 65 + 10
    else -1
  }

  predicate IsEscape(s: seq<byte>) {
    |s| >= 3 && s[0] == PERCENT && HexNibble(s[1]) >= 0 && HexNibble(s[2]) >= 0
  }

  /** The first decoded byte and how many bytes encode it. */
  function First(s: seq<byte>): (r: (byte, nat))
    requires s != []
    ensures 0 < r.1 <= |s|
  {
    if IsEscape(s) then (16 * HexNibble(s[1]) + HexNibble(s[2]), 3)
    else if s[0] == PLUS then (SPACE, 1)
    else (s[0], 1)
  }

  function Decode(s: seq<byte>): seq<byte>
    decreases |s|
  {
    if s == [] then [] else [First(s).0] + Decode(s[First(s).1..])
  }

  lemma DecodesNext(src: seq<byte>, dst: seq<byte>, i: nat)
    requires i < |src| && Decode(src) == dst + Decode(src[i..])
    ensures var (b, n) := First(src[i..]); Decode(src) == dst + [b] + Decode(src[i + n..])
  {
    var (b, n) := First(src[i..]);
    assert src[i..][n..] == src[i + n..];
    Regroup(dst, b, Decode(src[i + n..]));
  }

  lemma Regroup(a: seq<byte>, b: byte, c: seq<byte>)
    ensures a + ([b] + c) == a + [b] + c
  {
  }

  /** The decoder's loop; the result is cut to what the output buffer holds. */
  method UrlDecode(src: seq<byte>, dstSize: nat) returns (dst: seq<byte>)
    requires dstSize > 0
    ensures dst == Decode(src)[..Min(dstSize - 1, |Decode(src)|)]
  {
    var i := 0;
    dst := [];
    while i < |src| && |dst| < dstSize - 1
      invariant 0 <= i <= |src| && |dst| <= dstSize - 1
      invariant Decode(src) == dst + Decode(src[i..])
      decreases |src| - i
    {
      DecodesNext(src, dst, i);
      if src[i] == PERCENT && i + 2 < |src| {
        var a, b := HexNibble(src[i + 1]), HexNibble(src[i + 2]);
        if a >= 0 && b >= 0 {
          dst, i := dst + [16 * a + b], i + 3;
          continue;
        }
      } else if src[i] == PLUS {
        dst, i := dst + [SPACE], i + 1;
        continue;
      }
      dst, i := dst + [src[i]], i + 1;
    }
    if i == |src| { assert src[i..] == []; }
  }

  // ----- what a browser sends -----

  predicate Plain(b: byte) {
    48 <= b <= 57 || 65 <= b <= 90 || 97 <= b <= 122 || b in {42, 45, 46, 95}
  }

  function HexDigit(n: int): byte
    requires 0 <= n < 16
  {
    if n < 10 then 48 + n else 55 + n
  }

  function EncodeByte(b: byte): seq<byte> {
    if b == SPACE then [PLUS] else if Plain(b) then [b] else [PERCENT, HexDigit(b / 16), HexDigit(b % 16)]
  }

  function Encode(v: seq<byte>): seq<byte> {
    if v == [] then [] else EncodeByte(v[0]) + Encode(v[1..])
  }

  lemma DecodesOne(b: byte, rest: seq<byte>)
    ensures Decode(EncodeByte(b) + rest) == [b] + Decode(rest)
  {
    var s := EncodeByte(b) + rest;
    if b == SPACE || Plain(b) {
      assert s[1..] == rest && s[0] == (if b == SPACE then PLUS else b);
    } else {
      assert HexNibble(s[1]) == b / 16 && HexNibble(s[2]) == b % 16;
      assert s[3..] == rest;
    }
  }

  lemma {:induction false} DecodeInvertsEncode(v: seq<byte>)
    ensures Decode(Encode(v)) == v
  {
    if v != [] {
      DecodesOne(v[0], Encode(v[1..]));
      DecodeInvertsEncode(v[1..]);
    }
  }

  /** The hexadecimal digit of this value, in either case. */
  predicate IsDigit(c: byte, value: int) {
    || (0 <= value < 10 && c == 48 + value)
    || (10 <= value < 16 && (c == 65 + value - 10 || c == 97 + value - 10))
  }

  predicate IsHex(c: byte) {
    48 <= c <= 57 || 65 <= c <= 70 || 97 <= c <= 102
  }

  lemma NibbleIsDigit(c: byte, value: int)
    ensures HexNibble(c) >= 0 <==> IsHex(c)
    ensures IsDigit(c, value) ==> IsHex(c) && HexNibble(c) == value
  {
  }

  /** What the decoder makes of any input: a percent sign and two hexadecimal digits are one byte, a plus sign is a
      space, and every other byte, a percent sign without two digits among them, stays as it is. */
  lemma DecodesAnything(s: seq<byte>, a: int, b: int)
    requires s != []
    ensures |s| >= 3 && s[0] == 37 && IsDigit(s[1], a) && IsDigit(s[2], b) ==>
              Decode(s) == [16 * a + b] + Decode(s[3..])
    ensures s[0] == 43 ==> Decode(s) == [32] + Decode(s[1..])
    ensures s[0] != 43 && (s[0] == 37 && |s| >= 3 ==> !IsHex(s[1]) || !IsHex(s[2])) ==>
              Decode(s) == [s[0]] + Decode(s[1..])
  {
    if |s| >= 3 {
      NibbleIsDigit(s[1], a);
      NibbleIsDigit(s[2], b);
    }
  }

  lemma {:induction false} EncodedIsClean(v: seq<byte>)
    ensures AMP !in Encode(v) && EQUALS !in Encode(v)
  {
    if v != [] {
      EncodedIsClean(v[1..]);
      assert AMP !in EncodeByte(v[0]) && EQUALS !in EncodeByte(v[0]);
    }
  }

  // ----- finding the field -----

  function Prefix(key: seq<byte>): (p: seq<byte>)
    ensures |p| > 0
  {
    (key + [EQUALS])[..Min(|key| + 1, PREFIX_SIZE - 1)]
  }

  predicate OccursAt(body: seq<byte>, pattern: seq<byte>, i: nat) {
    i + |pattern| <= |body| && body[i..i + |pattern|] == pattern
  }

  ghost predicate FirstAt(body: seq<byte>, pattern: seq<byte>, i: nat) {
    OccursAt(body, pattern, i) && forall j: nat | j < i :: !OccursAt(body, pattern, j)
  }

  /** strstr */
  method StrStr(body: seq<byte>, pattern: seq<byte>) returns (at: Option<nat>)
    ensures at.None? ==> forall j: nat :: !OccursAt(body, pattern, j)
    ensures at.Some? ==> FirstAt(body, pattern, at.value)
  {
    var i := 0;
    while i + |pattern| <= |body|
      invariant 0 <= i && forall j: nat | j < i :: !OccursAt(body, pattern, j)
    {
      if body[i..i + |pattern|] == pattern { return Some(i); }
      i := i + 1;
    }
    at := None;
  }

  /** Bytes before the next '&', or all of them. */
  function UpToAmp(s: seq<byte>): (r: seq<byte>)
    ensures |r| <= |s|
  {
    if s == [] || s[0] == AMP then [] else [s[0]] + UpToAmp(s[1..])
  }

  lemma {:induction false} UpToAmpIs(v: seq<byte>, after: seq<byte>)
    requires AMP !in v && (after == [] || after[0] == AMP)
    ensures UpToAmp(v + after) == v
  {
    if v == [] {
      assert v + after == after;
    } else {
      assert (v + after)[1..] == v[1..] + after;
      UpToAmpIs(v[1..], after);
    }
  }

  function Truncated(s: seq<byte>, n: nat): seq<byte> {
    s[..Min(|s|, n)]
  }

  lemma NotYetAmp(s: seq<byte>, n: nat)
    requires n < |s| && s[n] != AMP
    ensures s[..n] + UpToAmp(s[n..]) == s[..n + 1] + UpToAmp(s[n + 1..])
  {
    assert s[n..][1..] == s[n + 1..] && s[..n + 1] == s[..n] + [s[n]];
    assert UpToAmp(s[n..]) == [s[n]] + UpToAmp(s[n + 1..]);
  }

  method StrChrAmp(s: seq<byte>) returns (n: nat)
    ensures n <= |s| && s[..n] == UpToAmp(s)
  {
    n := 0;
    while n < |s| && s[n] != AMP
      invariant n <= |s| && UpToAmp(s) == s[..n] + UpToAmp(s[n..])
    {
      NotYetAmp(s, n);
      n := n + 1;
    }
  }

  /** What the field whose name starts at `i` yields: at most 127 encoded bytes, cut to the output. */
  function FieldAt(body: seq<byte>, key: seq<byte>, i: nat, outSize: nat): seq<byte>
    requires outSize > 0 && OccursAt(body, Prefix(key), i)
  {
    Truncated(Decode(Truncated(UpToAmp(body[i + |Prefix(key)|..]), TMP_SIZE - 1)), outSize - 1)
  }

  method FormGetValue(body: seq<byte>, key: seq<byte>, outSize: nat) returns (out: Option<seq<byte>>)
    requires outSize > 0
    ensures out.None? <==> forall i: nat :: !OccursAt(body, Prefix(key), i)
    ensures forall i: nat | FirstAt(body, Prefix(key), i) :: out == Some(FieldAt(body, key, i, outSize))
  {
    var p := StrStr(body, Prefix(key));
    if p.None? { return None; }
    assert OccursAt(body, Prefix(key), p.value);
    var value := body[p.value + |Prefix(key)|..];
    var len := StrChrAmp(value);
    if len >= TMP_SIZE { len := TMP_SIZE - 1; }
    assert value[..len] == Truncated(UpToAmp(value), TMP_SIZE - 1);
    var decoded := UrlDecode(value[..len], outSize);
    out := Some(decoded);
    forall i: nat | FirstAt(body, Prefix(key), i) ensures i == p.value { }
  }

  lemma ValueIsDecoded(v: seq<byte>, after: seq<byte>, outSize: nat)
    requires (after == [] || after[0] == AMP) && |Encode(v)| < TMP_SIZE && |v| < outSize
    ensures Truncated(Decode(Truncated(UpToAmp(Encode(v) + after), TMP_SIZE - 1)), outSize - 1) == v
  {
    EncodedIsClean(v);
    UpToAmpIs(Encode(v), after);
    assert Truncated(Encode(v), TMP_SIZE - 1) == Encode(v);
    DecodeInvertsEncode(v);
  }

  predicate AllPlain(v: seq<byte>) {
    v == [] || ((48 <= v[0] <= 57 || 65 <= v[0] <= 90 || 97 <= v[0] <= 122) && AllPlain(v[1..]))
  }

  lemma {:induction false} PlainIsItself(v: seq<byte>)
    requires AllPlain(v)
    ensures Decode(v) == v && AMP !in v
  {
    if v != [] {
      PlainIsItself(v[1..]);
      assert v == [v[0]] + v[1..];
    }
  }

  lemma {:induction false} PlainIsPlainUpTo(v: seq<byte>, n: nat)
    requires AllPlain(v) && n <= |v|
    ensures AllPlain(v[..n])
  {
    if n > 0 {
      PlainIsPlainUpTo(v[1..], n - 1);
      assert v[..n][1..] == v[1..][..n - 1];
    }
  }

  lemma PlainIsCut(v: seq<byte>, after: seq<byte>, outSize: nat)
    requires AllPlain(v) && (after == [] || after[0] == AMP) && outSize > 0
    ensures Truncated(Decode(Truncated(UpToAmp(v + after), 127)), outSize - 1) == v[..Min(|v|, Min(127, outSize - 1))]
  {
    PlainIsItself(v);
    UpToAmpIs(v, after);
    var n := Min(|v|, 127);
    PlainIsPlainUpTo(v, n);
    PlainIsItself(v[..n]);
    assert v[..n][..Min(n, outSize - 1)] == v[..Min(n, outSize - 1)];
  }

  /** A value of letters and digits comes out from its beginning, as many as fit 127 bytes and the output. */
  lemma PlainFieldIsCut(before: seq<byte>, key: seq<byte>, v: seq<byte>, after: seq<byte>, outSize: nat)
    requires |key| <= 14 && (after == [] || after[0] == 38) && AllPlain(v) && outSize > 0
    ensures var body := before + (key + [61]) + (v + after);
            && OccursAt(body, Prefix(key), |before|)
            && FieldAt(body, key, |before|, outSize) == v[..Min(|v|, Min(127, outSize - 1))]
  {
    assert Prefix(key) == key + [61];
    Parts(before, key + [61], v + after);
    PlainIsCut(v, after, outSize);
  }

  lemma Parts(a: seq<byte>, b: seq<byte>, c: seq<byte>)
    ensures (a + b + c)[|a|..|a| + |b|] == b && (a + b + c)[|a| + |b|..] == c
  {
  }

  /**
   A value whose encoding is at most 127 bytes and which fits the output is recovered exactly from "key=value", up to
   the form's end or an ampersand, provided the key does not occur earlier in the form.
   */
  lemma FieldIsRecovered(before: seq<byte>, key: seq<byte>, v: seq<byte>, after: seq<byte>, outSize: nat)
    requires |key| <= 14 && (after == [] || after[0] == 38)
    requires |Encode(v)| <= 127 && |v| < outSize
    requires forall j: nat | j < |before| :: !OccursAt(before + key + [61] + Encode(v) + after, key + [61], j)
    ensures Prefix(key) == key + [61]
    ensures var body := before + key + [61] + Encode(v) + after;
            FirstAt(body, Prefix(key), |before|) && FieldAt(body, key, |before|, outSize) == v
  {
    assert Prefix(key) == key + [61];
    Parts(before, key + [61], Encode(v) + after);
    assert before + key + [61] + Encode(v) + after == before + (key + [61]) + (Encode(v) + after);
    ValueIsDecoded(v, after, outSize);
  }
}
