/** Percent-encoding (section 2.1 of RFC 3986) as `urllib.parse.quote` and `unquote` do it. */
module Quoting {
  import opened Utf8

  const PERCENT: Byte := '%' as int
  const SLASH: Byte := '/' as int

  /** Section 2.3 of RFC 3986, and the slash that `safe="/"` adds. */
  predicate Safe(b: Byte) {
    || 'A' as int <= b <= 'Z' as int || 'a' as int <= b <= 'z' as int || '0' as int <= b <= '9' as int
    || b == '-' as int || b == '.' as int || b == '_' as int || b == '~' as int || b == SLASH
  }

  predicate HexDigit(b: Byte) {
    '0' as int <= b <= '9' as int || 'A' as int <= b <= 'F' as int || 'a' as int <= b <= 'f' as int
  }

  function HexValue(b: Byte): (v: int)
    requires HexDigit(b)
    ensures 0 <= v < 16
  {
    if b <= '9' as int then b - '0' as int
    else if b <= 'F' as int then b - 'A' as int + 10
    else b - 'a' as int + 10
  }

  function UpperHex(v: int): (b: Byte)
    requires 0 <= v < 16
    ensures HexDigit(b) && HexValue(b) == v && Safe(b) && b != SLASH && b != '.' as int
  {
    if v < 10 then '0' as int + v else 'A' as int + v - 10
  }

  function QuoteByte(b: Byte): seq<Byte> {
    if Safe(b) then [b] else [PERCENT, UpperHex(b / 16), UpperHex(b % 16)]
  }

  function QuoteBytes(bytes: seq<Byte>): seq<Byte> {
    if bytes == [] then [] else QuoteByte(bytes[0]) + QuoteBytes(bytes[1..])
  }

  /** A percent sign with two hex digits after it. */
  predicate Escape(bytes: seq<Byte>) {
    |bytes| >= 3 && bytes[0] == PERCENT && HexDigit(bytes[1]) && HexDigit(bytes[2])
  }

  function FirstByte(bytes: seq<Byte>): Byte
    requires bytes != []
  {
    if Escape(bytes) then 16 * HexValue(bytes[1]) + HexValue(bytes[2]) else bytes[0]
  }

  function FirstLength(bytes: seq<Byte>): (n: nat)
    requires bytes != []
    ensures 0 < n <= |bytes|
  {
    if Escape(bytes) then 3 else 1
  }

  /** `unquote_to_bytes`: a percent sign that two hex digits do not follow stays as it is. */
  function UnquoteBytes(bytes: seq<Byte>): seq<Byte> {
    if bytes == [] then [] else [FirstByte(bytes)] + UnquoteBytes(bytes[FirstLength(bytes)..])
  }

  /** ASCII text as a string. */
  function AsText(bytes: seq<Byte>): (s: string)
    requires forall b :: b in bytes ==> b < 0x80
    ensures |s| == |bytes| && forall i :: 0 <= i < |s| ==> s[i] as int == bytes[i]
  {
    seq(|bytes|, i requires 0 <= i < |bytes| => bytes[i] as char)
  }

  /** `quote(s, safe="/")`. */
  function Quote(s: string): string {
    QuotedIsAscii(Encode(s));
    AsText(QuoteBytes(Encode(s)))
  }

  /**
    `unquote(s)`. `unquote` decodes each run of ASCII characters by itself; since a run can
    only be followed by a lead byte, decoding the whole gives the same characters.
   */
  function Unquote(s: string): string {
    Decode(UnquoteBytes(Encode(s)))
  }

  lemma {:induction false} QuotedIsAscii(bytes: seq<Byte>)
    ensures forall b :: b in QuoteBytes(bytes) ==> (Safe(b) || b == PERCENT) && b < 0x80
  {
    if bytes != [] {
      QuotedIsAscii(bytes[1..]);
    }
  }

  lemma {:induction false} UnquoteQuotedBytes(bytes: seq<Byte>)
    ensures UnquoteBytes(QuoteBytes(bytes)) == bytes
  {
    if bytes != [] {
      UnquoteQuotedBytes(bytes[1..]);
      var q := QuoteByte(bytes[0]);
      assert (q + QuoteBytes(bytes[1..]))[|q|..] == QuoteBytes(bytes[1..]);
    }
  }

  lemma EncodeOne(c: char)
    ensures Encode([c]) == EncodeChar(c)
  {
    assert [c][1..] == [];
  }

  lemma QuoteOne(b: Byte)
    ensures QuoteBytes([b]) == QuoteByte(b)
  {
    assert [b][1..] == [];
  }

  lemma {:induction false} EncodeAscii(s: string)
    requires forall i :: 0 <= i < |s| ==> Ascii(s[i])
    ensures |Encode(s)| == |s| && forall i :: 0 <= i < |s| ==> Encode(s)[i] == s[i] as int
  {
    if s != [] {
      EncodeAscii(s[1..]);
      assert EncodeChar(s[0]) == [s[0] as int];
    }
  }

  /** The encoding of a quoted string is its quoted bytes. */
  lemma EncodeQuoted(s: string)
    ensures Encode(Quote(s)) == QuoteBytes(Encode(s))
  {
    QuotedIsAscii(Encode(s));
    var q := Quote(s);
    forall i | 0 <= i < |q| ensures Ascii(q[i]) {
      assert q[i] as int == QuoteBytes(Encode(s))[i];
      assert QuoteBytes(Encode(s))[i] in QuoteBytes(Encode(s));
    }
    EncodeAscii(q);
    assert Encode(q) == QuoteBytes(Encode(s));
  }

  /** Unquoting undoes quoting, for every string. */
  lemma UnquoteQuote(s: string)
    ensures Unquote(Quote(s)) == s
  {
    EncodeQuoted(s);
    UnquoteQuotedBytes(Encode(s));
    DecodeEncode(s);
  }

  lemma {:induction false} QuoteBytesConcat(a: seq<Byte>, b: seq<Byte>)
    ensures QuoteBytes(a + b) == QuoteBytes(a) + QuoteBytes(b)
  {
    if a == [] {
      assert a + b == b;
    } else {
      assert (a + b)[1..] == a[1..] + b;
      QuoteBytesConcat(a[1..], b);
    }
  }

  lemma QuoteConcat(a: string, b: string)
    ensures Quote(a + b) == Quote(a) + Quote(b)
  {
    EncodeConcat(a, b);
    QuoteBytesConcat(Encode(a), Encode(b));
    QuotedIsAscii(Encode(a));
    QuotedIsAscii(Encode(b));
    AsTextConcat(QuoteBytes(Encode(a)), QuoteBytes(Encode(b)));
  }

  lemma AsTextConcat(a: seq<Byte>, b: seq<Byte>)
    requires (forall x :: x in a ==> x < 0x80) && (forall x :: x in b ==> x < 0x80)
    ensures AsText(a + b) == AsText(a) + AsText(b)
  {
  }

  /** Text of unreserved characters and slashes is quoted as itself. */
  lemma {:induction false} QuoteSafe(s: string)
    requires forall i :: 0 <= i < |s| ==> Ascii(s[i]) && Safe(s[i] as int)
    ensures Quote(s) == s
  {
    if s != [] {
      QuoteConcat([s[0]], s[1..]);
      assert [s[0]] + s[1..] == s;
      QuoteSafe(s[1..]);
      EncodeOne(s[0]);
      QuoteOne(s[0] as int);
    } else {
      assert Quote(s) == [];
    }
  }

  lemma QuotedBytesLast(bytes: seq<Byte>)
    requires bytes != []
    ensures var q, b := QuoteBytes(bytes), bytes[|bytes| - 1];
            && q != [] && (q[|q| - 1] == SLASH <==> b == SLASH)
            && (q[|q| - 1] == '.' as int <==> b == '.' as int)
  {
    var init, b := bytes[..|bytes| - 1], bytes[|bytes| - 1];
    assert bytes == init + [b];
    QuoteBytesConcat(init, [b]);
    QuoteOne(b);
    assert QuoteBytes(bytes)[|QuoteBytes(bytes)| - 1] == QuoteByte(b)[|QuoteByte(b)| - 1];
  }

  /** The last character of quoted text is a slash or a dot exactly when the last character was. */
  lemma QuotedLast(s: string)
    requires s != []
    ensures var q := Quote(s);
            && q != [] && (q[|q| - 1] == '/' <==> s[|s| - 1] == '/')
            && (q[|q| - 1] == '.' <==> s[|s| - 1] == '.')
  {
    EncodedLast(s);
    QuotedBytesLast(Encode(s));
    QuotedIsAscii(Encode(s));
    var q := Quote(s);
    assert q[|q| - 1] as int == QuoteBytes(Encode(s))[|q| - 1];
  }

  /** Quoted text starts with a slash exactly when the text does, and is empty only when the text is. */
  lemma QuotedFirst(s: string)
    requires s != []
    ensures Quote(s) != [] && (Quote(s)[0] == '/' <==> s[0] == '/')
  {
    var bytes := Encode(s);
    assert bytes[0] == EncodeChar(s[0])[0];
    assert QuoteBytes(bytes)[0] == QuoteByte(bytes[0])[0];
    QuotedIsAscii(bytes);
    assert Quote(s)[0] as int == QuoteBytes(bytes)[0];
  }

  // ---- unquoting piece by piece ----

  lemma SameFirst(a: seq<Byte>, b: seq<Byte>)
    requires a != [] && (b != [] ==> !HexDigit(b[0]))
    ensures FirstByte(a + b) == FirstByte(a) && FirstLength(a + b) == FirstLength(a)
  {
    assert forall i :: 0 <= i < |a| ==> (a + b)[i] == a[i];
    if b != [] && |a| < 3 {
      assert (a + b)[|a|] == b[0];
    }
  }

  /** An escape never reaches over a byte that is not a hex digit. */
  lemma {:induction false} UnquoteBytesSplit(a: seq<Byte>, b: seq<Byte>)
    requires b != [] ==> !HexDigit(b[0])
    ensures UnquoteBytes(a + b) == UnquoteBytes(a) + UnquoteBytes(b)
    decreases |a|
  {
    if a == [] {
      assert a + b == b;
    } else {
      SameFirst(a, b);
      var n := FirstLength(a);
      assert (a + b)[n..] == a[n..] + b;
      UnquoteBytesSplit(a[n..], b);
    }
  }

  /** A character that is neither part of an escape nor of a longer sequence separates the text. */
  predicate Separates(c: char) {
    Ascii(c) && c != '%' && !HexDigit(c as int)
  }

  lemma UnquoteBytesAround(a: seq<Byte>, x: Byte, b: seq<Byte>)
    requires x != PERCENT && !HexDigit(x)
    ensures UnquoteBytes(a + [x] + b) == UnquoteBytes(a) + [x] + UnquoteBytes(b)
  {
    assert a + [x] + b == a + ([x] + b);
    UnquoteBytesSplit(a, [x] + b);
    assert ([x] + b)[1..] == b;
    assert UnquoteBytes([x] + b) == [x] + UnquoteBytes(b);
  }

  lemma EncodeAround(a: string, c: char, b: string)
    requires Ascii(c)
    ensures Encode(a + [c] + b) == Encode(a) + [c as int] + Encode(b)
  {
    EncodeConcat(a + [c], b);
    EncodeConcat(a, [c]);
    EncodeOne(c);
  }

  lemma UnquoteAround(a: string, c: char, b: string)
    requires Separates(c)
    ensures Unquote(a + [c] + b) == Unquote(a) + [c] + Unquote(b)
  {
    EncodeAround(a, c, b);
    UnquoteBytesAround(Encode(a), c as int, Encode(b));
    DecodeAround(UnquoteBytes(Encode(a)), c as int, UnquoteBytes(Encode(b)));
  }

  /** `s` ends in "%2F" or "%2f". */
  predicate EndsInEncodedSlash(s: string) {
    |s| >= 3 && s[|s| - 3..|s| - 1] == "%2" && (s[|s| - 1] == 'F' || s[|s| - 1] == 'f')
  }

  predicate BytesEndInEncodedSlash(b: seq<Byte>) {
    |b| >= 3 && b[|b| - 3] == PERCENT && b[|b| - 2] == '2' as int
    && (b[|b| - 1] == 'F' as int || b[|b| - 1] == 'f' as int)
  }

  /** Only "%2F" and "%2f" stand for a slash. */
  lemma EscapedSlash(b: seq<Byte>)
    requires b != [] && |b| == FirstLength(b)
    ensures FirstByte(b) == SLASH <==> b[|b| - 1] == SLASH || BytesEndInEncodedSlash(b)
  {
  }

  lemma {:induction false} UnquotedBytesLast(b: seq<Byte>)
    requires b != []
    ensures var u := UnquoteBytes(b);
            u != [] && (u[|u| - 1] == SLASH <==> b[|b| - 1] == SLASH || BytesEndInEncodedSlash(b))
    decreases |b|
  {
    var n := FirstLength(b);
    if n == |b| {
      assert UnquoteBytes(b) == [FirstByte(b)];
      EscapedSlash(b);
    } else {
      UnquotedBytesLast(b[n..]);
      NotAcross(b);
      assert UnquoteBytes(b)[1..] == UnquoteBytes(b[n..]);
    }
  }

  /** An escaped slash at the end lies wholly in what follows the first byte. */
  lemma NotAcross(b: seq<Byte>)
    requires b != [] && FirstLength(b) < |b|
    ensures BytesEndInEncodedSlash(b) <==> BytesEndInEncodedSlash(b[FirstLength(b)..])
  {
    var n := FirstLength(b);
    assert forall i :: 0 <= i < |b| - n ==> b[n..][i] == b[n + i];
  }

  lemma PeelLast(s: string, init: string, c: char)
    requires s == init + [c] && (Ascii(c) || Encode(s)[|Encode(s)| - 1] < 0x80)
    ensures Ascii(c) && Encode(s) == Encode(init) + [c as int]
  {
    EncodeConcat(init, [c]);
    EncodeOne(c);
    EncodedLast([c]);
  }

  lemma EncodedSlashToBytes(head: string, c: char)
    requires c == 'F' || c == 'f'
    ensures BytesEndInEncodedSlash(Encode(head + ['%', '2', c]))
  {
    var tail := ['%', '2', c];
    EncodeConcat(head, tail);
    EncodeAscii(tail);
  }

  lemma PeelByte(s: string, bytes: seq<Byte>, x: Byte)
    returns (init: string)
    requires Encode(s) == bytes + [x] && x < 0x80
    ensures s == init + [x as char] && Encode(init) == bytes
  {
    assert s != [];
    init := s[..|s| - 1];
    assert s == init + [s[|s| - 1]];
    PeelLast(s, init, s[|s| - 1]);
    assert (bytes + [x])[..|bytes|] == bytes && (Encode(init) + [x])[..|Encode(init)|] == Encode(init);
  }

  lemma SpelledSlash(b: seq<Byte>) returns (head: seq<Byte>, x: Byte)
    requires BytesEndInEncodedSlash(b)
    ensures b == head + [PERCENT] + ['2' as int] + [x] && (x == 'F' as int || x == 'f' as int)
  {
    head, x := b[..|b| - 3], b[|b| - 1];
  }

  lemma EncodedSlashFromBytes(s: string)
    requires BytesEndInEncodedSlash(Encode(s))
    ensures EndsInEncodedSlash(s)
  {
    var head, x := SpelledSlash(Encode(s));
    var t := PeelByte(s, head + [PERCENT] + ['2' as int], x);
    var u := PeelByte(t, head + [PERCENT], '2' as int);
    var v := PeelByte(u, head, PERCENT);
    EndsAsSpelled(v, x as char);
  }

  lemma EndsAsSpelled(v: string, c: char)
    requires c == 'F' || c == 'f'
    ensures EndsInEncodedSlash(v + ['%'] + ['2'] + [c])
  {
  }

  lemma EncodedSlashInBytes(s: string)
    ensures EndsInEncodedSlash(s) <==> BytesEndInEncodedSlash(Encode(s))
  {
    if EndsInEncodedSlash(s) {
      var n := |s|;
      assert s == s[..n - 3] + s[n - 3..n - 1] + [s[n - 1]];
      assert s == s[..n - 3] + ['%', '2', s[n - 1]];
      EncodedSlashToBytes(s[..n - 3], s[n - 1]);
    } else if BytesEndInEncodedSlash(Encode(s)) {
      EncodedSlashFromBytes(s);
    }
  }

  /** Unquoted text ends in a slash exactly when the text ends in one, written out or encoded. */
  lemma UnquotedLast(s: string)
    requires s != []
    ensures var u := Unquote(s);
            u != [] && (u[|u| - 1] == '/' <==> s[|s| - 1] == '/' || EndsInEncodedSlash(s))
  {
    EncodedLast(s);
    UnquotedBytesLast(Encode(s));
    DecodedLast(UnquoteBytes(Encode(s)));
    EncodedSlashInBytes(s);
  }

  lemma {:induction false} EncodedPercent(s: string)
    ensures PERCENT in Encode(s) <==> '%' in s
  {
    if s != [] {
      EncodedPercent(s[1..]);
      assert PERCENT in EncodeChar(s[0]) <==> s[0] == '%';
      assert '%' in s <==> s[0] == '%' || '%' in s[1..];
    }
  }

  lemma {:induction false} UnquotePlainBytes(b: seq<Byte>)
    requires PERCENT !in b
    ensures UnquoteBytes(b) == b
  {
    if b != [] {
      UnquotePlainBytes(b[1..]);
    }
  }

  /** Text without a percent sign is unquoted as itself. */
  lemma UnquotePlain(s: string)
    requires '%' !in s
    ensures Unquote(s) == s
  {
    EncodedPercent(s);
    UnquotePlainBytes(Encode(s));
    DecodeEncode(s);
  }
}
