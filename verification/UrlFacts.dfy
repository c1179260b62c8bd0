/** How recording URLs and paths are read, said part by part instead of step by step. */
module UrlFacts {
  import opened Prelude
  import opened Text
  import opened S3io
  import Quoting
  import Utf8

  // ---- paths ----

  /** The parts of a path between its slashes that say something. */
  function Parts(pieces: seq<string>): seq<string> {
    if pieces == [] then []
    else Parts(pieces[..|pieces| - 1])
         + if pieces[|pieces| - 1] == "" || pieces[|pieces| - 1] == "." then [] else [pieces[|pieces| - 1]]
  }

  function Last(parts: seq<string>): string {
    if parts == [] then "" else parts[|parts| - 1]
  }

  /** One character more in the last piece. */
  function ExtendLast(pieces: seq<string>, c: char): seq<string>
    requires pieces != []
  {
    pieces[..|pieces| - 1] + [pieces[|pieces| - 1] + [c]]
  }

  lemma ExtendCons(first: string, rest: seq<string>, c: char)
    requires rest != []
    ensures ExtendLast([first] + rest, c) == [first] + ExtendLast(rest, c)
  {
  }

  lemma {:induction false} SplitSnoc(s: string, c: char, separator: char)
    ensures Split(s + [c], separator)
            == if c == separator then Split(s, separator) + [""] else ExtendLast(Split(s, separator), c)
  {
    if s == [] {
      assert s + [c] == [c] && [c][1..] == [] && [c] + "" == [c] && "" + [c] == [c];
      assert Split([c], separator) == if c == separator then [""] + [""] else [[c]];
    } else {
      var rest := Split(s[1..], separator);
      assert (s + [c])[1..] == s[1..] + [c];
      SplitSnoc(s[1..], c, separator);
      if c == separator {
        assert Split(s, separator) + [""] == [Split(s, separator)[0]] + (Split(s, separator)[1..] + [""]);
      } else if s[0] == separator {
        ExtendCons("", rest, c);
      } else if |rest| == 1 {
        Associative([s[0]], rest[0], [c]);
      } else {
        ExtendCons(rest[0], rest[1..], c);
        ExtendCons([s[0]] + rest[0], rest[1..], c);
        assert rest == [rest[0]] + rest[1..];
      }
    }
  }

  /** The last piece is what follows the last separator. */
  lemma {:induction false} LastPiece(s: string, separator: char)
    ensures var pieces := Split(s, separator); pieces[|pieces| - 1] == AfterLast(s, separator)
  {
    if s != [] {
      var init, last := s[..|s| - 1], s[|s| - 1];
      assert s == init + [last];
      SplitSnoc(init, last, separator);
      LastPiece(init, separator);
    }
  }

  lemma PartsSnoc(pieces: seq<string>, piece: string)
    ensures Parts(pieces + [piece]) == Parts(pieces) + if piece == "" || piece == "." then [] else [piece]
  {
    assert (pieces + [piece])[..|pieces|] == pieces;
  }

  /** A slash at the end adds nothing, nor does a part that is a single dot. */
  lemma IgnoredAddsNothing(init: string, last: char)
    requires Ignored(init, last)
    ensures Parts(Split(init + [last], '/')) == Parts(Split(init, '/'))
  {
    SplitSnoc(init, last, '/');
    var pieces := Split(init, '/');
    if last == '/' {
      PartsSnoc(pieces, "");
    } else {
      LastPiece(init, '/');
      assert pieces == pieces[..|pieces| - 1] + [""];
      PartsSnoc(pieces[..|pieces| - 1], "");
      PartsSnoc(pieces[..|pieces| - 1], ".");
    }
  }

  lemma LastOfParts(pieces: seq<string>)
    requires pieces != [] && pieces[|pieces| - 1] != "" && pieces[|pieces| - 1] != "."
    ensures Last(Parts(pieces)) == pieces[|pieces| - 1]
  {
  }

  lemma KeptSaysSomething(init: string, last: char)
    requires !Ignored(init, last)
    ensures AfterLast(init + [last], '/') != "" && AfterLast(init + [last], '/') != "."
  {
    AfterLastSnoc(init, '/', last);
    assert |AfterLast(init, '/') + [last]| == 1 ==> AfterLast(init, '/') == "";
  }

  lemma KeptEnds(init: string, last: char)
    requires !Ignored(init, last)
    ensures Last(Parts(Split(init + [last], '/'))) == AfterLast(init + [last], '/')
  {
    var pieces := Split(init + [last], '/');
    LastPiece(init + [last], '/');
    KeptSaysSomething(init, last);
    LastOfParts(pieces);
  }

  /** The name of a path is its last part that is neither empty nor a single dot. */
  lemma {:induction false} NameIsLastPart(s: string)
    ensures Name(s) == Last(Parts(Split(s, '/')))
  {
    if s == [] {
      PartsSnoc([], "");
    } else {
      var init, last := s[..|s| - 1], s[|s| - 1];
      assert s == init + [last];
      if Ignored(init, last) {
        IgnoredAddsNothing(init, last);
        NameIsLastPart(init);
        TrimSnoc(init, last);
      } else {
        KeptEnds(init, last);
        TrimSnoc(init, last);
      }
    }
  }

  /** A name has a suffix exactly when there is something on both sides of its last dot. */
  lemma SuffixOfDotted(head: string, extension: string)
    requires '.' !in extension
    ensures NameSuffix(head + ['.'] + extension) == if head != "" && extension != "" then ['.'] + extension else ""
    ensures NameSuffix(extension) == ""
  {
    LastExtension(head, extension);
    AfterLastPlain(extension);
  }

  lemma {:induction false} AfterLastPlain(s: string)
    requires '.' !in s
    ensures AfterLast(s, '.') == s
  {
    if s != [] {
      assert s == s[..|s| - 1] + [s[|s| - 1]];
      AfterLastPlain(s[..|s| - 1]);
    }
  }

  /** The supported extensions, in whatever case. */
  lemma AudioExtensionsAre(e: string)
    ensures AudioExtension(e) <==>
            |e| == 4 && e[0] == '.'
            && ((e[1] in "mM" && e[2] in "pP" && e[3] == '3') || (e[1] in "wW" && e[2] in "aA" && e[3] in "vV"))
  {
    if |e| == 4 {
      assert Lower(e) == [LowerChar(e[0]), LowerChar(e[1]), LowerChar(e[2]), LowerChar(e[3])];
      assert ".mp3" == ['.', 'm', 'p', '3'] && ".wav" == ['.', 'w', 'a', 'v'];
    }
  }

  /** The suffix of a supported key in lower case. */
  lemma AudioSuffixIs(key: string)
    ensures var t := Trim(key);
            AudioSuffix(key) == if !AudioEnding(t) then Raised(NotAudio)
                                else if t[|t| - 1] == '3' then Ok(".mp3") else Ok(".wav")
  {
    AudioSuffixIff(key);
    var t := Trim(key);
    if AudioEnding(t) {
      var e := t[|t| - 4..];
      assert t == t[..|t| - 4] + e;
      EndingSuffix(key, t[..|t| - 4], e);
      assert Lower(e)[3] == LowerChar(e[3]) && (".mp3")[3] == '3' && (".wav")[3] == 'v';
    }
  }

  // ---- URLs ----

  predicate SchemeText(scheme: string) {
    scheme != "" && forall c :: c in scheme ==>
      'a' <= c <= 'z' || 'A' <= c <= 'Z' || '0' <= c <= '9' || c == '+' || c == '-' || c == '.'
  }

  predicate HostText(host: string) {
    forall c :: c in host ==> c != '/' && c != '?' && c != '#' && c != '[' && c != ']'
  }

  predicate PathText(path: string) {
    (path != "" ==> path[0] == '/') && forall c :: c in path ==> c != '?' && c != '#'
  }

  /** A query, a fragment, or nothing. */
  predicate TailText(tail: string) {
    tail != "" ==> tail[0] == '?' || tail[0] == '#'
  }

  predicate NoBreaks(s: string) {
    forall c :: c in s ==> c != '\t' && c != '\r' && c != '\n'
  }

  predicate Http(scheme: string) {
    Lower(scheme) == "http" || Lower(scheme) == "https"
  }

  lemma SchemeOf(scheme: string, rest: string)
    requires SchemeText(scheme)
    ensures SplitScheme(scheme + [':'] + rest) == (Lower(scheme), rest)
  {
    var url := scheme + [':'] + rest;
    assert url == scheme + ([':'] + rest);
    UntilAt(scheme, {':'}, [':'] + rest);
    assert url[..|scheme|] == scheme && url[|scheme| + 1..] == rest;
  }

  lemma {:induction false} UntilEarlier(a: string, b: string, stops: set<char>)
    requires Until(a, stops) < |a|
    ensures Until(a + b, stops) == Until(a, stops)
  {
    if a[0] !in stops {
      assert (a + b)[1..] == a[1..] + b;
      UntilEarlier(a[1..], b, stops);
    }
  }

  /** Query and fragment are cut off, in whatever order their marks come. */
  lemma TailIsCut(path: string, tail: string)
    requires PathText(path) && TailText(tail)
    ensures var before := (path + tail)[..Until(path + tail, {'#'})]; before[..Until(before, {'?'})] == path
  {
    var whole := path + tail;
    if tail == "" {
      assert whole == path;
      UntilNever(path, {'#'});
      UntilNever(path, {'?'});
    } else if tail[0] == '#' {
      UntilAt(path, {'#'}, tail);
      assert whole[..|path|] == path;
      UntilNever(path, {'?'});
    } else {
      var before := whole[..Until(whole, {'#'})];
      UntilPast(path, tail);
      assert before == path + before[|path|..];
      UntilAt(path, {'?'}, before[|path|..]);
    }
  }

  lemma UntilPast(path: string, tail: string)
    requires PathText(path) && tail != "" && tail[0] == '?'
    ensures Until(path + tail, {'#'}) > |path|
  {
    assert forall i :: 0 <= i < |path| ==> (path + tail)[i] in path;
  }

  lemma RestOf(scheme: string, host: string, path: string, tail: string)
    requires HostText(host) && PathText(path) && TailText(tail)
    ensures ParseRest(scheme, "//" + host + path + tail)
            == Ok(Parsed(scheme, host, if scheme == "http" || scheme == "https" then DropParams(path) else path))
  {
    var rest := "//" + host + path + tail;
    AfterSlashes(host, path, tail);
    TailIsCut(path, tail);
    assert '[' !in host && ']' !in host;
  }

  lemma AfterSlashes(host: string, path: string, tail: string)
    requires HostText(host) && PathText(path) && TailText(tail)
    ensures var rest := "//" + host + path + tail;
            && StartsWith(rest, "//") && Until(rest[2..], {'/', '?', '#'}) == |host|
            && rest[2..2 + |host|] == host && rest[2 + |host|..] == path + tail
  {
    var rest := "//" + host + path + tail;
    var after := host + (path + tail);
    assert rest == "//" + after && rest[..2] == "//" && rest[2..] == after;
    assert path + tail != [] ==> (path + tail)[0] in {'/', '?', '#'};
    UntilAt(host, {'/', '?', '#'}, path + tail);
    assert after[..|host|] == host && after[|host|..] == path + tail;
    assert rest[2..2 + |host|] == after[..|host|] && rest[2 + |host|..] == after[|host|..];
  }

  lemma NothingCleaned(scheme: string, rest: string)
    requires SchemeText(scheme) && NoBreaks(rest)
    ensures Cleaned(scheme + [':'] + rest) == scheme + [':'] + rest
  {
    var url := scheme + [':'] + rest;
    assert url[0] == scheme[0] && scheme[0] in scheme;
    forall c | c in url ensures c !in {'\t', '\r', '\n'} {
      assert c in scheme || c == ':' || c in rest;
    }
    WithoutNothing(url, {'\t', '\r', '\n'});
  }

  /** The parts of a URL: the scheme's case, a query and a fragment do not matter. */
  lemma PartsOfUrl(scheme: string, host: string, path: string, tail: string)
    requires SchemeText(scheme) && HostText(host) && PathText(path) && TailText(tail)
    requires NoBreaks(host) && NoBreaks(path) && NoBreaks(tail)
    ensures UrlParse(scheme + [':'] + ("//" + host + path + tail))
            == Ok(Parsed(Lower(scheme), host, if Http(scheme) then DropParams(path) else path))
  {
    var rest := "//" + host + path + tail;
    forall c | c in rest ensures c != '\t' && c != '\r' && c != '\n' {
      assert c == '/' || c in host || c in path || c in tail;
    }
    NothingCleaned(scheme, rest);
    SchemeOf(scheme, rest);
    RestOf(Lower(scheme), host, path, tail);
  }

  /** In an http URL what follows a semicolon in the last part of the path is not part of the path. */
  lemma ParamsAreDropped(directory: string, name: string, params: string)
    requires '/' !in name && ';' !in name && '/' !in params
    ensures DropParams(directory + ['/'] + name) == directory + ['/'] + name
    ensures DropParams(directory + ['/'] + (name + [';'] + params)) == directory + ['/'] + name
  {
    var plain, full := name, name + [';'] + params;
    AfterSlash(directory, plain);
    AfterSlash(directory, full);
    UntilNever(name, {';'});
    assert full == name + ([';'] + params);
    UntilAt(name, {';'}, [';'] + params);
    assert full[..|name|] == name;
    assert (directory + ['/'] + full)[..|directory| + 1] == directory + ['/'];
    assert (directory + ['/'] + plain)[..|directory| + 1] == directory + ['/'];
  }

  lemma AfterSlash(directory: string, name: string)
    requires '/' !in name
    ensures AfterLast(directory + ['/'] + name, '/') == name
  {
    AfterLastConcat(directory + ['/'], '/', name);
    AfterLastEmpty(directory, '/');
  }

  /** An s3 URL names the bucket as its host, and the key without leading slashes. */
  lemma LocateS3(url: string, bucket: string, path: string)
    requires UrlParse(url) == Ok(Parsed("s3", bucket, path))
    ensures Locate(url) == Ok((bucket, LStrip(path, '/')))
  {
  }

  /** An http URL has the bucket as the first part of its path, and the host does not matter. */
  lemma LocateHttp(url: string, scheme: string, host: string, bucket: string, key: string)
    requires scheme == "http" || scheme == "https"
    requires UrlParse(url) == Ok(Parsed(scheme, host, "/" + bucket + ("/" + key)))
    requires bucket != "" && '/' !in bucket
    ensures Locate(url) == Ok((bucket, key))
  {
    var path := bucket + ("/" + key);
    assert "/" + bucket + ("/" + key) == ['/'] + path && (['/'] + path)[1..] == path;
    assert LStrip(['/'] + path, '/') == path;
    UntilAt(bucket, {'/'}, "/" + key);
    assert path[..|bucket|] == bucket && path[|bucket| + 1..] == key;
  }

  /** Other schemes are refused. */
  lemma LocateOthers(url: string, parsed: Parsed)
    requires UrlParse(url) == Ok(parsed) && parsed.scheme !in {"s3", "http", "https"}
    ensures Locate(url) == Raised(BadScheme)
  {
  }

  /** What is accepted: a bucket and a key with an audio ending, which is then unquoted. */
  lemma AcceptedUrls(url: string, bucket: string, quoted: string)
    requires Locate(url) == Ok((bucket, quoted))
    ensures ParseCallRecordUrl(url)
            == if bucket == "" || quoted == "" then Raised(NoBucketOrKey)
               else if !AudioEnding(Trim(quoted)) then Raised(NotAudio)
               else Ok((bucket, Quoting.Unquote(quoted)))
  {
    AudioSuffixIff(quoted);
  }

  /** Leading blanks are dropped. */
  lemma LeadingBlankDropped(blank: char, url: string)
    requires blank as int <= 0x20
    ensures UrlParse([blank] + url) == UrlParse(url)
  {
    assert ([blank] + url)[1..] == url;
  }

  lemma {:induction false} BreakDropped(a: string, c: char, b: string)
    requires c == '\t' || c == '\r' || c == '\n'
    ensures Without(a + [c] + b, {'\t', '\r', '\n'}) == Without(a + b, {'\t', '\r', '\n'})
  {
    if a == [] {
      assert a + [c] + b == [c] + b && ([c] + b)[1..] == b && a + b == b;
    } else {
      assert (a + [c] + b)[1..] == a[1..] + [c] + b && (a + b)[1..] == a[1..] + b;
      BreakDropped(a[1..], c, b);
    }
  }

  /** So are tabs and line breaks, anywhere. */
  lemma {:induction false} BreaksAreDropped(a: string, c: char, b: string)
    requires c == '\t' || c == '\r' || c == '\n'
    ensures Cleaned(a + [c] + b) == Cleaned(a + b)
  {
    if a == [] {
      assert a + [c] + b == [c] + b && ([c] + b)[1..] == b && a + b == b;
    } else if a[0] as int <= 0x20 {
      assert (a + [c] + b)[1..] == a[1..] + [c] + b && (a + b)[1..] == a[1..] + b;
      BreaksAreDropped(a[1..], c, b);
    } else {
      BreakDropped(a, c, b);
    }
  }

  // ---- quoting ----

  /** What quoting leaves as it is: letters and digits of ASCII, and five marks. */
  predicate Unquoted(c: char) {
    'a' <= c <= 'z' || 'A' <= c <= 'Z' || '0' <= c <= '9' || c == '_' || c == '.' || c == '-' || c == '~' || c == '/'
  }

  lemma OneQuoted(c: char)
    ensures Unquoted(c) <==> c as int < 0x80 && Quoting.Safe(c as int)
  {
  }

  /** A text of such characters is not changed by quoting. */
  lemma PlainIsUnchanged(s: string)
    requires forall c :: c in s ==> Unquoted(c)
    ensures Quoting.Quote(s) == s
  {
    forall i | 0 <= i < |s| ensures s[i] as int < 0x80 && Quoting.Safe(s[i] as int) {
      OneQuoted(s[i]);
      assert s[i] in s;
    }
    Quoting.QuoteSafe(s);
  }

  const HEX := ['0', '1', '2', '3', '4', '5', '6', '7', '8', '9', 'A', 'B', 'C', 'D', 'E', 'F']

  lemma HexIs(v: int)
    requires 0 <= v < 16
    ensures Quoting.UpperHex(v) == HEX[v] as int
  {
  }

  const SMALL_HEX := ['0', '1', '2', '3', '4', '5', '6', '7', '8', '9', 'a', 'b', 'c', 'd', 'e', 'f']

  /** When an escape is read, the case of its digits does not matter; other characters are no digits. */
  lemma HexIsRead(v: int, b: Utf8.Byte)
    requires 0 <= v < 16
    ensures Quoting.HexDigit(HEX[v] as int) && Quoting.HexValue(HEX[v] as int) == v
    ensures Quoting.HexDigit(SMALL_HEX[v] as int) && Quoting.HexValue(SMALL_HEX[v] as int) == v
    ensures Quoting.HexDigit(b) ==> b as char in HEX || b as char in SMALL_HEX
  {
    if Quoting.HexDigit(b) {
      assert b as char == if b as char > 'F' then SMALL_HEX[Quoting.HexValue(b)] else HEX[Quoting.HexValue(b)];
    }
  }

  /** Any other ASCII character becomes a percent sign and its two hexadecimal digits. */
  lemma AsciiIsEscaped(c: char)
    requires c as int < 0x80 && !Unquoted(c)
    ensures Quoting.Quote([c]) == ['%', HEX[c as int / 16], HEX[c as int % 16]]
  {
    OneQuoted(c);
    Quoting.EncodeOne(c);
    Quoting.QuoteOne(c as int);
    HexIs(c as int / 16);
    HexIs(c as int % 16);
    Quoting.QuotedIsAscii(Utf8.Encode([c]));
    var q := Quoting.Quote([c]);
    assert |q| == 3 && q[0] == '%' && q[1] == HEX[c as int / 16] && q[2] == HEX[c as int % 16];
  }
}
