/** UTF-8 as Python's codec does it: strict encoding, decoding with errors="replace". */
module Utf8 {

  type Byte = b: int | 0 <= b < 256

  const REPLACEMENT: char := 0xFFFD as char

  predicate Ascii(c: char) {
    c as int < 0x80
  }

  function EncodeChar(c: char): (bytes: seq<Byte>)
    ensures |bytes| > 0
  {
    var n := c as int;
    if n < 0x80 then [n]
    else if n < 0x800 then [0xC0 + n / 64, 0x80 + n % 64]
    else if n < 0x10000 then [0xE0 + n / 4096, 0x80 + n / 64 % 64, 0x80 + n % 64]
    else [0xF0 + n / 262144, 0x80 + n / 4096 % 64, 0x80 + n / 64 % 64, 0x80 + n % 64]
  }

  function Encode(s: string): seq<Byte> {
    if s == [] then [] else EncodeChar(s[0]) + Encode(s[1..])
  }

  predicate Continues(b: Byte) {
    0x80 <= b < 0xC0
  }

  /** Whether `second` may follow `first`: no overlong forms, no surrogates, nothing beyond U+10FFFF. */
  predicate GoodSecond(first: Byte, second: Byte) {
    && Continues(second)
    && (first == 0xE0 ==> 0xA0 <= second) && (first == 0xED ==> second < 0xA0)
    && (first == 0xF0 ==> 0x90 <= second) && (first == 0xF4 ==> second < 0x90)
  }

  /** How many bytes the sequence that starts with this byte should have; 0 for a byte that starts none. */
  function Length(first: Byte): nat {
    if first < 0x80 then 1
    else if 0xC2 <= first < 0xE0 then 2
    else if 0xE0 <= first < 0xF0 then 3
    else if 0xF0 <= first < 0xF5 then 4
    else 0
  }

  /** The longest beginning of `bytes` that could still be one character. */
  function Prefix(bytes: seq<Byte>): (n: nat)
    requires bytes != []
    ensures 1 <= n <= |bytes| && (Length(bytes[0]) > 0 ==> n <= Length(bytes[0]))
  {
    var len := Length(bytes[0]);
    if len <= 1 || |bytes| < 2 || !GoodSecond(bytes[0], bytes[1]) then 1
    else if len == 2 || |bytes| < 3 || !Continues(bytes[2]) then 2
    else if len == 3 || |bytes| < 4 || !Continues(bytes[3]) then 3
    else 4
  }

  /** The low six bits of a continuation byte, and the bits of a lead byte above its marker. */
  function Above(b: Byte, marker: int): int {
    b as int - marker
  }

  /** The code point spelled by a well-formed sequence. */
  function CodePoint(b: seq<Byte>): int
    requires 1 <= |b| <= 4
  {
    if |b| == 1 then b[0] as int
    else if |b| == 2 then Above(b[0], 0xC0) * 64 + Above(b[1], 0x80)
    else if |b| == 3 then Above(b[0], 0xE0) * 4096 + Above(b[1], 0x80) * 64 + Above(b[2], 0x80)
    else Above(b[0], 0xF0) * 262144 + Above(b[1], 0x80) * 4096 + Above(b[2], 0x80) * 64 + Above(b[3], 0x80)
  }

  /** The first character, or U+FFFD for a malformed beginning. */
  function DecodeChar(bytes: seq<Byte>): (c: char)
    requires bytes != []
    ensures Ascii(c) || bytes[0] < 0x80 ==> c as int == bytes[0] && Prefix(bytes) == 1
  {
    var n := Prefix(bytes);
    if n != Length(bytes[0]) then REPLACEMENT else CodePoint(bytes[..n]) as char
  }

  function Decode(bytes: seq<Byte>): string {
    if bytes == [] then "" else [DecodeChar(bytes)] + Decode(bytes[Prefix(bytes)..])
  }

  /** Base 64. */
  lemma SixBits(n: nat)
    ensures n == n / 64 * 64 + n % 64 && n / 64 == n / 4096 * 64 + n / 64 % 64
    ensures n / 4096 == n / 262144 * 64 + n / 4096 % 64
  {
    assert n / 64 / 64 == n / 4096;
    assert n / 4096 / 64 == n / 262144;
  }

  lemma EncodedCharPoint(c: char)
    ensures CodePoint(EncodeChar(c)) == c as int
  {
    SixBits(c as int);
  }

  lemma EncodedCharShape(c: char)
    ensures var e := EncodeChar(c);
            |e| == Length(e[0]) && Prefix(e) == |e| && CodePoint(e) == c as int
  {
    SixBits(c as int);
    EncodedCharPoint(c);
  }

  lemma DecodeEncodedChar(c: char, rest: seq<Byte>)
    ensures Prefix(EncodeChar(c) + rest) == |EncodeChar(c)|
    ensures DecodeChar(EncodeChar(c) + rest) == c
  {
    EncodedCharShape(c);
    assert (EncodeChar(c) + rest)[..|EncodeChar(c)|] == EncodeChar(c);
  }

  /** Decoding undoes encoding, for every string. */
  lemma {:induction false} DecodeEncode(s: string)
    ensures Decode(Encode(s)) == s
  {
    if s == [] {
    } else {
      DecodeEncodedChar(s[0], Encode(s[1..]));
      assert (EncodeChar(s[0]) + Encode(s[1..]))[|EncodeChar(s[0])|..] == Encode(s[1..]);
      DecodeEncode(s[1..]);
    }
  }

  lemma {:induction false} EncodeConcat(a: string, b: string)
    ensures Encode(a + b) == Encode(a) + Encode(b)
  {
    if a == [] {
      assert a + b == b;
    } else {
      assert (a + b)[1..] == a[1..] + b;
      EncodeConcat(a[1..], b);
    }
  }

  /** The first character is not changed by an ASCII byte further on. */
  lemma FirstStays(a: seq<Byte>, x: Byte, b: seq<Byte>)
    requires a != [] && x < 0x80
    ensures Prefix(a + [x] + b) == Prefix(a) && DecodeChar(a + [x] + b) == DecodeChar(a)
  {
    var whole := a + [x] + b;
    assert forall i :: 0 <= i < |a| ==> whole[i] == a[i];
    assert whole[|a|] == x;
    assert whole[..Prefix(a)] == a[..Prefix(a)];
  }

  /** An ASCII byte ends whatever precedes it, so decoding works on both sides separately. */
  lemma {:induction false} DecodeAround(a: seq<Byte>, x: Byte, b: seq<Byte>)
    requires x < 0x80
    ensures Decode(a + [x] + b) == Decode(a) + [x as char] + Decode(b)
    decreases |a|
  {
    var whole := a + [x] + b;
    if a == [] {
      assert whole[1..] == b;
    } else {
      var rest := a[Prefix(a)..];
      FirstStays(a, x, b);
      assert whole[Prefix(a)..] == rest + [x] + b;
      DecodeAround(rest, x, b);
      Regroup([DecodeChar(a)], Decode(rest), [x as char], Decode(b));
    }
  }

  lemma Regroup(first: string, rest: string, mark: string, after: string)
    ensures first + (rest + mark + after) == (first + rest) + mark + after
  {
  }

  /** An ASCII character in the decoded text stands for exactly that byte. */
  lemma {:induction false} DecodedLast(bytes: seq<Byte>)
    requires bytes != []
    ensures var s := Decode(bytes);
            s != [] && (Ascii(s[|s| - 1]) || bytes[|bytes| - 1] < 0x80 ==> s[|s| - 1] as int == bytes[|bytes| - 1])
    decreases |bytes|
  {
    var n := Prefix(bytes);
    if n == |bytes| {
    } else {
      DecodedLast(bytes[n..]);
    }
  }

  lemma {:induction false} EncodedLast(s: string)
    requires s != []
    ensures var bytes := Encode(s);
            bytes != [] && (Ascii(s[|s| - 1]) || bytes[|bytes| - 1] < 0x80 ==> s[|s| - 1] as int == bytes[|bytes| - 1])
  {
    EncodeConcat(s[..|s| - 1], [s[|s| - 1]]);
    assert s[..|s| - 1] + [s[|s| - 1]] == s;
  }

  /** One character of each length: A, é, € and a letter beyond the basic plane. */
  lemma EncodedExamples()
    ensures EncodeChar('A') == [0x41] && EncodeChar(0xE9 as char) == [0xC3, 0xA9]
    ensures EncodeChar(0x20AC as char) == [0xE2, 0x82, 0xAC]
    ensures EncodeChar(0x10348 as char) == [0xF0, 0x90, 0x8D, 0x88]
  {
  }

  // ---- what is no UTF-8 ----

  lemma Digits(high: int, low: int)
    requires 0 <= low < 64
    ensures (high * 64 + low) / 64 == high && (high * 64 + low) % 64 == low
  {
  }

  lemma ThreeEncoded(b: seq<Byte>)
    requires |b| == 3 && Prefix(b) == Length(b[0]) == 3
    ensures EncodeChar(CodePoint(b) as char) == b
  {
    Digits(Above(b[0], 0xE0) * 64 + Above(b[1], 0x80), Above(b[2], 0x80));
    Digits(Above(b[0], 0xE0), Above(b[1], 0x80));
    SixBits(CodePoint(b));
  }

  lemma FourEncoded(b: seq<Byte>)
    requires |b| == 4 && Prefix(b) == Length(b[0]) == 4
    ensures EncodeChar(CodePoint(b) as char) == b
  {
    Digits(Above(b[0], 0xF0) * 4096 + Above(b[1], 0x80) * 64 + Above(b[2], 0x80), Above(b[3], 0x80));
    Digits(Above(b[0], 0xF0) * 64 + Above(b[1], 0x80), Above(b[2], 0x80));
    Digits(Above(b[0], 0xF0), Above(b[1], 0x80));
    SixBits(CodePoint(b));
  }

  /** A sequence that is long enough and well formed is the encoding of the character it is read as. */
  lemma CodePointEncoded(b: seq<Byte>)
    requires b != [] && Prefix(b) == Length(b[0]) == |b|
    ensures EncodeChar(CodePoint(b) as char) == b
  {
    if |b| == 2 {
      Digits(Above(b[0], 0xC0), Above(b[1], 0x80));
    } else if |b| == 3 {
      ThreeEncoded(b);
    } else if |b| == 4 {
      FourEncoded(b);
    }
  }

  /** Decoding invents no character: each one that is not the replacement stands there encoded. */
  lemma FirstIsEncoded(bytes: seq<Byte>)
    requires bytes != [] && DecodeChar(bytes) != REPLACEMENT
    ensures bytes[..Prefix(bytes)] == EncodeChar(DecodeChar(bytes))
  {
    var b := bytes[..Prefix(bytes)];
    assert Prefix(b) == Prefix(bytes);
    CodePointEncoded(b);
  }

  lemma EncodeCons(c: char, rest: string)
    ensures Encode([c] + rest) == EncodeChar(c) + Encode(rest)
  {
    assert ([c] + rest)[1..] == rest;
  }

  /** So what is decoded without a replacement was the encoding of just that text. */
  lemma {:induction false} EncodeDecode(bytes: seq<Byte>)
    requires REPLACEMENT !in Decode(bytes)
    ensures Encode(Decode(bytes)) == bytes
    decreases |bytes|
  {
    if bytes != [] {
      var n := Prefix(bytes);
      NoReplacement(DecodeChar(bytes), Decode(bytes[n..]));
      EncodeDecode(bytes[n..]);
      FirstThenRest(bytes, Decode(bytes[n..]));
    }
  }

  lemma NoReplacement(c: char, rest: string)
    requires REPLACEMENT !in [c] + rest
    ensures c != REPLACEMENT && REPLACEMENT !in rest
  {
    assert c in [c] + rest;
  }

  lemma FirstThenRest(bytes: seq<Byte>, rest: string)
    requires bytes != [] && DecodeChar(bytes) != REPLACEMENT && Encode(rest) == bytes[Prefix(bytes)..]
    ensures Encode([DecodeChar(bytes)] + rest) == bytes
  {
    FirstIsEncoded(bytes);
    EncodeCons(DecodeChar(bytes), rest);
    assert bytes == bytes[..Prefix(bytes)] + bytes[Prefix(bytes)..];
  }

  /** A malformed sequence gives one replacement for its longest beginning that could be a character's. */
  lemma MalformedExamples(tail: seq<Byte>)
    ensures Prefix([0xC0, 0x80] + tail) == Prefix([0xF5, 0x80] + tail) == 1
    ensures Prefix([0xE0, 0x9F] + tail) == Prefix([0xED, 0xA0] + tail) == Prefix([0xF4, 0x90] + tail) == 1
    ensures Prefix([0xE2, 0x82, 0x41] + tail) == 2 && Prefix([0xF0, 0x9F, 0x98, 0x41] + tail) == 3
    ensures DecodeChar([0xC0, 0x80] + tail) == DecodeChar([0xED, 0xA0] + tail) == 0xFFFD as char
    ensures DecodeChar([0xE2, 0x82, 0x41] + tail) == 0xFFFD as char
  {
  }
}
