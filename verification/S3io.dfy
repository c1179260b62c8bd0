/** Reading a CallRecordUrl, and the URLs the scanner makes for the objects it finds. */
module S3io {
  import opened Prelude
  import opened Text
  import Quoting
  import Utf8

  /** Why a URL or a key is refused: each is a ValueError in the program. */
  datatype UrlError = BadHost | BadScheme | NoBucketOrKey | NotAudio

  // ---- file names, as pathlib reads them ----

  /** Without the trailing slashes and the trailing "." components that a path ignores. */
  function Trim(s: string): (t: string)
    ensures t <= s
  {
    if s == [] then s
    else if s[|s| - 1] == '/' then Trim(s[..|s| - 1])
    else if s[|s| - 1] == '.' && (|s| == 1 || s[|s| - 2] == '/') then Trim(s[..|s| - 1])
    else s
  }

  /** What follows the last occurrence of the character, or everything. */
  function AfterLast(s: string, c: char): (t: string)
    ensures c !in t && EndsWith(s, t)
    ensures |t| < |s| ==> s[|s| - |t| - 1] == c
    ensures |t| == |s| ==> c !in s
  {
    if s == [] || s[|s| - 1] == c then "" else AfterLast(s[..|s| - 1], c) + [s[|s| - 1]]
  }

  /** `PurePosixPath(s).name`. */
  function Name(s: string): string {
    AfterLast(Trim(s), '/')
  }

  /** From the last dot of a file name, unless it is the first or the last character. */
  function NameSuffix(name: string): string {
    var extension := AfterLast(name, '.');
    if 0 < |extension| < |name| - 1 then ['.'] + extension else ""
  }

  /** `PurePosixPath(s).suffix`. */
  function Suffix(s: string): string {
    NameSuffix(Name(s))
  }

  function LowerChar(c: char): char {
    if 'A' <= c <= 'Z' then (c as int + 32) as char else c
  }

  /** Lower case for ASCII letters: no other character lowers to a letter of "mp3" or "wav". */
  function Lower(s: string): string {
    seq(|s|, i requires 0 <= i < |s| => LowerChar(s[i]))
  }

  predicate AudioExtension(extension: string) {
    Lower(extension) == ".mp3" || Lower(extension) == ".wav"
  }

  /** The lower-cased extension of a supported key. */
  function AudioSuffix(key: string): Result<string, UrlError> {
    if AudioExtension(Suffix(key)) then Ok(Lower(Suffix(key))) else Raised(NotAudio)
  }

  // ---- URLs, as urllib.parse.urlparse reads them ----

  datatype Parsed = Parsed(scheme: string, netloc: string, path: string)

  /** How many characters come before the first of these. */
  function Until(s: string, stops: set<char>): (n: nat)
    ensures n <= |s| && (forall i :: 0 <= i < n ==> s[i] !in stops) && (n < |s| ==> s[n] in stops)
  {
    if s == [] || s[0] in stops then 0 else 1 + Until(s[1..], stops)
  }

  function DropBlanks(s: string): string {
    if s != [] && s[0] as int <= 0x20 then DropBlanks(s[1..]) else s
  }

  function Without(s: string, unwanted: set<char>): string {
    if s == [] then s
    else if s[0] in unwanted then Without(s[1..], unwanted)
    else [s[0]] + Without(s[1..], unwanted)
  }

  predicate SchemeChar(c: char) {
    'a' <= c <= 'z' || 'A' <= c <= 'Z' || '0' <= c <= '9' || c in "+-."
  }

  /** The part of the last segment from ";" on is not part of the path of an http URL. */
  function DropParams(path: string): string {
    var last := AfterLast(path, '/');
    path[..|path| - |last|] + last[..Until(last, {';'})]
  }

  function SplitScheme(url: string): (string, string) {
    var i := Until(url, {':'});
    if 0 < i < |url| && forall c :: c in url[..i] ==> SchemeChar(c) then (Lower(url[..i]), url[i + 1..]) else ("", url)
  }

  /** Leading blanks, and tabs and line breaks anywhere, are dropped first. */
  function Cleaned(url: string): string {
    Without(DropBlanks(url), {'\t', '\r', '\n'})
  }

  /** The part of the URL after the scheme. */
  function ParseRest(scheme: string, rest: string): Result<Parsed, UrlError> {
    var end := if StartsWith(rest, "//") then 2 + Until(rest[2..], {'/', '?', '#'}) else 0;
    var netloc := if StartsWith(rest, "//") then rest[2..end] else "";
    if ('[' in netloc) != (']' in netloc) then Raised(BadHost)
    else
      var beforeFragment := rest[end..][..Until(rest[end..], {'#'})];
      var path := beforeFragment[..Until(beforeFragment, {'?'})];
      Ok(Parsed(scheme, netloc, if scheme == "http" || scheme == "https" then DropParams(path) else path))
  }

  function UrlParse(url: string): Result<Parsed, UrlError> {
    var (scheme, rest) := SplitScheme(Cleaned(url));
    ParseRest(scheme, rest)
  }

  /** Bucket and key as they stand in the URL, the key still quoted. */
  function Locate(url: string): Result<(string, string), UrlError> {
    match UrlParse(url)
    case Raised(e) => Raised(e)
    case Ok(parsed) =>
      var path := LStrip(parsed.path, '/');
      if parsed.scheme == "s3" then Ok((parsed.netloc, path))
      else if parsed.scheme == "http" || parsed.scheme == "https" then
        var slash := Until(path, {'/'});
        Ok((path[..slash], if slash < |path| then path[slash + 1..] else ""))
      else Raised(BadScheme)
  }

  function ParseCallRecordUrl(url: string): Result<(string, string), UrlError> {
    match Locate(url)
    case Raised(e) => Raised(e)
    case Ok((bucket, key)) =>
      if bucket == "" || key == "" then Raised(NoBucketOrKey)
      else if !AudioExtension(Suffix(key)) then Raised(NotAudio)
      else Ok((bucket, Quoting.Unquote(key)))
  }

  function ObjectUrl(bucket: string, key: string): string {
    "s3://" + bucket + "/" + Quoting.Quote(key)
  }

  // ---- which keys have an audio suffix ----

  /** An audio extension with something other than a slash before it. */
  predicate AudioEnding(t: string) {
    |t| > 4 && AudioExtension(t[|t| - 4..]) && t[|t| - 5] != '/'
  }

  lemma ExtensionShape(e: string)
    requires AudioExtension(e)
    ensures |e| == 4 && e[0] == '.' && '.' !in e[1..] && '/' !in e
    ensures e[3] != '/' && e[3] != '.'
    ensures forall i :: 0 <= i < 4 ==> Quoting.Safe(if e[i] as int < 256 then e[i] as int else 0) && e[i] as int < 0x80
  {
    assert Lower(e)[0] == LowerChar(e[0]) && Lower(e)[1] == LowerChar(e[1])
           && Lower(e)[2] == LowerChar(e[2]) && Lower(e)[3] == LowerChar(e[3]);
  }

  lemma AfterLastSnoc(s: string, c: char, x: char)
    requires x != c
    ensures AfterLast(s + [x], c) == AfterLast(s, c) + [x]
  {
    assert (s + [x])[..|s|] == s;
  }

  lemma {:induction false} AfterLastConcat(a: string, c: char, b: string)
    requires c !in b
    ensures AfterLast(a + b, c) == AfterLast(a, c) + b
  {
    if b == [] {
      assert a + b == a;
    } else {
      var init, x := b[..|b| - 1], b[|b| - 1];
      assert b == init + [x];
      assert a + b == (a + init) + [x];
      AfterLastSnoc(a + init, c, x);
      AfterLastConcat(a, c, init);
      assert AfterLast(a, c) + init + [x] == AfterLast(a, c) + b;
    }
  }

  lemma EndingOf(stem: string, e: string)
    requires AudioExtension(e) && stem != [] && stem[|stem| - 1] != '/'
    ensures AudioEnding(stem + e)
  {
    ExtensionShape(e);
    assert (stem + e)[|stem + e| - 4..] == e;
  }

  /** A string is what precedes its last separator, the separator, and what follows. */
  lemma AtLast(s: string, c: char) returns (head: string)
    requires |AfterLast(s, c)| < |s|
    ensures s == head + [c] + AfterLast(s, c)
  {
    var tail := AfterLast(s, c);
    head := s[..|s| - |tail| - 1];
    assert s == head + [s[|s| - |tail| - 1]] + s[|s| - |tail|..];
  }

  /** What a file name with a suffix looks like. */
  lemma NameParts(name: string) returns (head: string)
    requires NameSuffix(name) != ""
    ensures name == head + NameSuffix(name) && head != []
  {
    head := AtLast(name, '.');
    Associative(head, ['.'], AfterLast(name, '.'));
  }

  lemma LastOf(head: string, tail: string, c: char)
    requires head != [] && c !in head + tail
    ensures head[|head| - 1] != c
  {
    assert (head + tail)[|head| - 1] == head[|head| - 1];
  }

  lemma EndsWithParts(t: string, tail: string) returns (before: string)
    requires EndsWith(t, tail)
    ensures t == before + tail
  {
    before := t[..|t| - |tail|];
  }

  lemma LastOfBoth(before: string, head: string)
    requires head != []
    ensures before + head != [] && (before + head)[|before + head| - 1] == head[|head| - 1]
  {
  }

  /** A path that ends in a file name with a suffix, which has no slash in it. */
  lemma StemOf(t: string, before: string, name: string, head: string, suffix: string) returns (stem: string)
    requires t == before + name && name == head + suffix && head != [] && '/' !in name
    ensures t == stem + suffix && stem != [] && stem[|stem| - 1] != '/'
  {
    LastOf(head, suffix, '/');
    LastOfBoth(before, head);
    Associative(before, head, suffix);
    stem := before + head;
  }

  lemma NameEnding(s: string) returns (stem: string)
    requires Suffix(s) != ""
    ensures Trim(s) == stem + Suffix(s) && stem != [] && stem[|stem| - 1] != '/'
  {
    var head := NameParts(Name(s));
    var before := EndsWithParts(Trim(s), Name(s));
    stem := StemOf(Trim(s), before, Name(s), head, Suffix(s));
  }

  lemma SuffixEnding(s: string)
    requires AudioExtension(Suffix(s))
    ensures AudioEnding(Trim(s))
  {
    ExtensionShape(Suffix(s));
    var stem := NameEnding(s);
    EndingOf(stem, Suffix(s));
  }

  lemma EndingName(s: string, stem: string, e: string)
    requires Trim(s) == stem + e && stem != [] && stem[|stem| - 1] != '/' && '/' !in e
    ensures Name(s) == AfterLast(stem, '/') + e && AfterLast(stem, '/') != ""
  {
    AfterLastConcat(stem, '/', e);
  }

  lemma AfterLastEmpty(head: string, c: char)
    ensures AfterLast(head + [c], c) == ""
  {
  }

  lemma LastExtension(head: string, extension: string)
    requires '.' !in extension
    ensures AfterLast(head + ['.'] + extension, '.') == extension
  {
    AfterLastConcat(head + ['.'], '.', extension);
    AfterLastEmpty(head, '.');
  }

  /** A file name with something before a last extension has that suffix. */
  lemma SuffixOfName(head: string, extension: string)
    requires head != "" && |extension| == 3 && '.' !in extension
    ensures NameSuffix(head + ['.'] + extension) == ['.'] + extension
  {
    LastExtension(head, extension);
  }

  lemma SuffixOfEnding(head: string, e: string)
    requires head != "" && |e| == 4 && e[0] == '.' && '.' !in e[1..]
    ensures NameSuffix(head + e) == e
  {
    SuffixOfName(head, e[1..]);
    assert e == ['.'] + e[1..];
    Associative(head, ['.'], e[1..]);
  }

  lemma EndingSuffix(s: string, stem: string, e: string)
    requires Trim(s) == stem + e && stem != [] && stem[|stem| - 1] != '/' && AudioExtension(e)
    ensures Suffix(s) == e
  {
    ExtensionShape(e);
    EndingName(s, stem, e);
    SuffixOfEnding(AfterLast(stem, '/'), e);
  }

  lemma EndingAudio(s: string)
    requires AudioEnding(Trim(s))
    ensures AudioExtension(Suffix(s))
  {
    var t := Trim(s);
    assert t == t[..|t| - 4] + t[|t| - 4..];
    EndingSuffix(s, t[..|t| - 4], t[|t| - 4..]);
  }

  /** The suffix is an audio extension exactly when the trimmed path ends like one. */
  lemma AudioSuffixIff(s: string)
    ensures AudioExtension(Suffix(s)) <==> AudioEnding(Trim(s))
  {
    if AudioEnding(Trim(s)) {
      EndingAudio(s);
    } else if AudioExtension(Suffix(s)) {
      SuffixEnding(s);
    }
  }

  // ---- keys, quoted and unquoted ----

  lemma QuoteMark(c: char)
    requires c == '/' || c == '.'
    ensures Quoting.Quote([c]) == [c]
  {
    Quoting.QuoteSafe([c]);
  }

  predicate Ignored(init: string, last: char) {
    last == '/' || (last == '.' && (init == [] || init[|init| - 1] == '/'))
  }

  lemma TrimSnoc(init: string, last: char)
    ensures Trim(init + [last]) == if Ignored(init, last) then Trim(init) else init + [last]
  {
    assert (init + [last])[..|init|] == init;
  }

  lemma QuotedShape(init: string, last: char)
    ensures var q := Quoting.Quote([last]);
            && q != [] && (last == '/' || last == '.' ==> q == [last])
            && (Ignored(init, last) <==>
                  Ignored(Quoting.Quote(init) + q[..|q| - 1], q[|q| - 1]))
  {
    Quoting.QuotedLast([last]);
    if last == '/' || last == '.' {
      QuoteMark(last);
    }
    if init == [] {
      Quoting.QuoteSafe(init);
    } else {
      Quoting.QuotedLast(init);
    }
  }

  lemma SnocOf(before: string, q: string)
    requires q != []
    ensures before + q == (before + q[..|q| - 1]) + [q[|q| - 1]]
    ensures |q| == 1 ==> before + q[..|q| - 1] == before
  {
  }

  /** How a quoted path ends, and that its last character is trimmed exactly when the path's is. */
  lemma QuotedSnoc(init: string, last: char) returns (front: string, end: char)
    ensures Quoting.Quote(init + [last]) == front + [end]
    ensures Ignored(init, last) <==> Ignored(front, end)
    ensures Ignored(init, last) ==> front == Quoting.Quote(init)
  {
    var q := Quoting.Quote([last]);
    Quoting.QuoteConcat(init, [last]);
    QuotedShape(init, last);
    SnocOf(Quoting.Quote(init), q);
    front, end := Quoting.Quote(init) + q[..|q| - 1], q[|q| - 1];
  }

  /** Quoting and trimming commute: the separators stand for themselves. */
  lemma {:induction false} TrimQuote(s: string)
    ensures Trim(Quoting.Quote(s)) == Quoting.Quote(Trim(s))
    decreases |s|, 1
  {
    if s == [] {
      Quoting.QuoteSafe(s);
    } else {
      var init, last := s[..|s| - 1], s[|s| - 1];
      assert s == init + [last];
      TrimQuoteSnoc(init, last);
    }
  }

  lemma {:induction false} TrimQuoteSnoc(init: string, last: char)
    ensures Trim(Quoting.Quote(init + [last])) == Quoting.Quote(Trim(init + [last]))
    decreases |init| + 1, 0
  {
    var front, end := QuotedSnoc(init, last);
    TrimSnoc(init, last);
    TrimSnoc(front, end);
    TrimQuote(init);
  }

  lemma QuotedEnding(stem: string, e: string)
    requires stem != [] && AudioExtension(e)
    ensures Quoting.Quote(stem + e) == Quoting.Quote(stem) + e
  {
    ExtensionShape(e);
    Quoting.QuoteConcat(stem, e);
    Quoting.QuoteSafe(e);
  }

  lemma QuotedAudio(s: string)
    requires AudioExtension(Suffix(s))
    ensures AudioExtension(Suffix(Quoting.Quote(s)))
  {
    ExtensionShape(Suffix(s));
    var stem := NameEnding(s);
    TrimQuote(s);
    QuotedEnding(stem, Suffix(s));
    Quoting.QuotedLast(stem);
    EndingSuffix(Quoting.Quote(s), Quoting.Quote(stem), Suffix(s));
  }

  /** A character that ends neither the host nor the path of a URL, and is not dropped from it. */
  predicate HostChar(c: char) {
    c !in {'/', '?', '#', '\t', '\r', '\n'}
  }

  /** A bucket name can be written in a URL as it is: brackets are kept for literal IP addresses. */
  predicate BucketName(bucket: string) {
    bucket != "" && forall c :: c in bucket ==> HostChar(c) && c != '[' && c != ']'
  }

  lemma {:induction false} WithoutNothing(s: string, unwanted: set<char>)
    requires forall c :: c in s ==> c !in unwanted
    ensures Without(s, unwanted) == s
  {
    if s != [] {
      assert s[0] in s;
      WithoutNothing(s[1..], unwanted);
    }
  }

  lemma {:induction false} UntilAt(a: string, stops: set<char>, b: string)
    requires forall c :: c in a ==> c !in stops
    requires b != [] ==> b[0] in stops
    ensures Until(a + b, stops) == |a|
  {
    if a == [] {
      assert a + b == b;
    } else {
      assert a[0] in a;
      assert (a + b)[1..] == a[1..] + b;
      UntilAt(a[1..], stops, b);
    }
  }

  lemma UntilNever(a: string, stops: set<char>)
    requires forall c :: c in a ==> c !in stops
    ensures Until(a, stops) == |a| && a[..Until(a, stops)] == a
  {
    UntilAt(a, stops, []);
    assert a + [] == a;
  }

  lemma S3Scheme(rest: string)
    ensures SplitScheme("s3:" + rest) == ("s3", rest)
  {
    var url := "s3:" + rest;
    assert url == "s3" + (":" + rest);
    UntilAt("s3", {':'}, ":" + rest);
    assert url[..2] == "s3" && url[3..] == rest;
    assert Lower("s3") == "s3";
  }

  lemma ParseObjectRest(bucket: string, path: string)
    requires BucketName(bucket) && path != [] && path[0] == '/'
    requires forall c :: c in path ==> HostChar(c) || c == '/'
    ensures ParseRest("s3", "//" + bucket + path) == Ok(Parsed("s3", bucket, path))
  {
    var rest := "//" + bucket + path;
    assert rest[..2] == "//" && rest[2..] == bucket + path;
    UntilAt(bucket, {'/', '?', '#'}, path);
    assert rest[2..2 + |bucket|] == bucket && rest[2 + |bucket|..] == path;
    UntilNever(path, {'#'});
    UntilNever(path, {'?'});
  }

  lemma CleanObjectUrl(url: string, rest: string)
    requires url == "s3:" + rest && forall c :: c in rest ==> c !in {'\t', '\r', '\n'}
    ensures Cleaned(url) == url
  {
    assert DropBlanks(url) == url;
    assert forall c :: c in url ==> c in "s3:" || c in rest;
    WithoutNothing(url, {'\t', '\r', '\n'});
  }

  /** How the scanner's URL for a bucket and a quoted key is read. */
  lemma ParseObjectUrl(bucket: string, quoted: string)
    requires BucketName(bucket)
    requires forall c :: c in quoted ==> HostChar(c) || c == '/'
    ensures UrlParse("s3://" + bucket + "/" + quoted) == Ok(Parsed("s3", bucket, "/" + quoted))
  {
    var url, rest := "s3://" + bucket + "/" + quoted, "//" + bucket + ("/" + quoted);
    assert url == "s3:" + rest;
    assert forall c :: c in rest ==> c == '/' || c in bucket || c in quoted;
    CleanObjectUrl(url, rest);
    S3Scheme(rest);
    ParseObjectRest(bucket, "/" + quoted);
  }

  // ---- the scanner's round trip ----

  lemma QuotedHostChars(key: string)
    ensures forall c :: c in Quoting.Quote(key) ==> HostChar(c) || c == '/'
  {
    var bytes := Quoting.QuoteBytes(Utf8.Encode(key));
    Quoting.QuotedIsAscii(Utf8.Encode(key));
    forall c | c in Quoting.Quote(key) ensures HostChar(c) || c == '/' {
      var i :| 0 <= i < |Quoting.Quote(key)| && Quoting.Quote(key)[i] == c;
      assert bytes[i] in bytes && bytes[i] == c as int;
    }
  }

  lemma {:induction false} LStripQuote(s: string)
    ensures LStrip(Quoting.Quote(s), '/') == Quoting.Quote(LStrip(s, '/'))
  {
    if s == [] {
      Quoting.QuoteSafe(s);
    } else {
      assert s == [s[0]] + s[1..];
      Quoting.QuoteConcat([s[0]], s[1..]);
      Quoting.QuotedFirst(s);
      if s[0] == '/' {
        QuoteMark('/');
        assert Quoting.Quote(s)[1..] == Quoting.Quote(s[1..]);
        LStripQuote(s[1..]);
      }
    }
  }

  /** A leading slash does not change the suffix of a key that has an audio suffix. */
  lemma {:induction false} TrimLeadingSlash(s: string)
    ensures Trim(['/'] + s) == if Trim(s) == "" then "" else ['/'] + Trim(s)
  {
    if s == [] {
      assert ['/'] + s == [] + ['/'];
      TrimSnoc([], '/');
    } else {
      var init, last := s[..|s| - 1], s[|s| - 1];
      assert s == init + [last];
      assert ['/'] + s == (['/'] + init) + [last];
      TrimSnoc(init, last);
      TrimSnoc(['/'] + init, last);
      TrimLeadingSlash(init);
    }
  }

  lemma SlashAudio(s: string)
    requires AudioExtension(Suffix(['/'] + s))
    ensures Suffix(s) == Suffix(['/'] + s)
  {
    SuffixEnding(['/'] + s);
    TrimLeadingSlash(s);
    var u := Trim(s);
    var stem, e := SlashStem(u);
    EndingSuffix(s, stem, e);
    EndingSuffix(['/'] + s, ['/'] + stem, e);
  }

  lemma SlashStem(u: string) returns (stem: string, e: string)
    requires AudioEnding(['/'] + u)
    ensures u == stem + e && ['/'] + u == (['/'] + stem) + e && AudioExtension(e)
    ensures stem != [] && stem[|stem| - 1] != '/'
  {
    var t := ['/'] + u;
    assert t[0] == '/';
    stem, e := u[..|u| - 4], u[|u| - 4..];
    assert t[|t| - 4..] == e && t[|t| - 5] == u[|u| - 5];
  }

  lemma {:induction false} StrippedAudio(s: string)
    requires AudioExtension(Suffix(s))
    ensures Suffix(LStrip(s, '/')) == Suffix(s) && LStrip(s, '/') != ""
  {
    if s == [] {
      SuffixEnding(s);
    } else if s[0] == '/' {
      assert s == ['/'] + s[1..];
      SlashAudio(s[1..]);
      StrippedAudio(s[1..]);
    }
  }

  lemma LocateObject(bucket: string, key: string)
    requires BucketName(bucket)
    ensures Locate(ObjectUrl(bucket, key)) == Ok((bucket, Quoting.Quote(LStrip(key, '/'))))
  {
    var q := Quoting.Quote(key);
    QuotedHostChars(key);
    ParseObjectUrl(bucket, q);
    assert ("/" + q)[1..] == q;
    assert LStrip("/" + q, '/') == LStrip(q, '/');
    LStripQuote(key);
  }

  lemma AcceptLocated(url: string, bucket: string, quoted: string)
    requires Locate(url) == Ok((bucket, quoted))
    requires bucket != "" && quoted != "" && AudioExtension(Suffix(quoted))
    ensures ParseCallRecordUrl(url) == Ok((bucket, Quoting.Unquote(quoted)))
  {
  }

  /**
    The URL the scanner makes for an object is always accepted, and read back as the object's
    bucket and its key without leading slashes, with the same audio suffix.
   */
  lemma ReadObjectUrl(bucket: string, key: string, url: string)
    requires BucketName(bucket) && AudioSuffix(key).Ok? && url == ObjectUrl(bucket, key)
    ensures ParseCallRecordUrl(url) == Ok((bucket, LStrip(key, '/')))
    ensures AudioSuffix(LStrip(key, '/')) == AudioSuffix(key)
  {
    var stripped := LStrip(key, '/');
    LocateObject(bucket, key);
    StrippedAudio(key);
    QuotedAudio(stripped);
    Quoting.QuotedFirst(stripped);
    Quoting.UnquoteQuote(stripped);
    AcceptLocated(url, bucket, Quoting.Quote(stripped));
  }

  lemma LStripIdle(s: string, c: char)
    ensures LStrip(s, c) == s <==> s == [] || s[0] != c
  {
    assert |LStrip(s, c)| <= |s|;
    if s != [] && s[0] == c {
      assert |LStrip(s[1..], c)| < |s|;
    }
  }

  /** So the round trip is exact precisely for the keys that do not start with a slash. */
  lemma ScanKeyRoundTrip(bucket: string, key: string, url: string)
    requires BucketName(bucket) && AudioSuffix(key).Ok? && url == ObjectUrl(bucket, key)
    ensures ParseCallRecordUrl(url) == Ok((bucket, key)) <==> !StartsWith(key, "/")
  {
    ReadObjectUrl(bucket, key, url);
    LStripIdle(key, '/');
  }

  // ---- parsed URLs whose key has no audio suffix any more ----

  /** What precedes the extension in a trimmed path. */
  function Stem(s: string): string {
    if |Trim(s)| >= 4 then Trim(s)[..|Trim(s)| - 4] else ""
  }

  lemma IgnoredAlike(a: string, b: string, init: string, last: char)
    requires a != [] && b != [] && a[|a| - 1] == b[|b| - 1]
    ensures Ignored(a + init, last) == Ignored(b + init, last)
  {
    if init == [] {
      assert a + init == a && b + init == b;
    }
  }

  lemma TrimmedOff(a: string, init: string, last: char)
    requires Trim(a + (init + [last])) == a
    ensures Ignored(a + init, last) && Trim(a + init) == a
  {
    Associative(a, init, [last]);
    TrimSnoc(a + init, last);
    assert |a + init + [last]| > |a|;
  }

  lemma TrimsOff(b: string, init: string, last: char)
    requires Ignored(b + init, last) && Trim(b + init) == b
    ensures Trim(b + (init + [last])) == b
  {
    Associative(b, init, [last]);
    TrimSnoc(b + init, last);
  }

  lemma {:induction false} TrimTail(a: string, b: string, tail: string)
    requires a != [] && b != [] && a[|a| - 1] == b[|b| - 1] && a[|a| - 1] != '/' && a[|a| - 1] != '.'
    requires Trim(a + tail) == a
    ensures Trim(b + tail) == b
    ensures forall c :: c in tail ==> c == '/' || c == '.'
  {
    if tail == [] {
      TrimIdle(b);
      assert b + tail == b;
    } else {
      var init, last := tail[..|tail| - 1], tail[|tail| - 1];
      assert tail == init + [last];
      TrimmedOff(a, init, last);
      IgnoredAlike(a, b, init, last);
      TrimTail(a, b, init);
      TrimsOff(b, init, last);
    }
  }

  lemma TrimIdle(b: string)
    requires b != [] && b[|b| - 1] != '/' && b[|b| - 1] != '.'
    ensures Trim(b) == b
  {
  }

  lemma UnquoteExtension(stem: string, e: string, tail: string)
    requires AudioExtension(e) && forall c :: c in tail ==> c == '/' || c == '.'
    ensures Quoting.Unquote(stem + e + tail) == Quoting.Unquote(stem) + e + tail
  {
    ExtensionShape(e);
    assert e == ['.'] + e[1..];
    assert stem + e + tail == stem + ['.'] + (e[1..] + tail);
    Quoting.UnquoteAround(stem, '.', e[1..] + tail);
    assert '%' !in e[1..];
    Quoting.UnquotePlain(e[1..] + tail);
    assert Quoting.Unquote(stem) + ['.'] + (e[1..] + tail) == Quoting.Unquote(stem) + e + tail;
  }

  /**
    A URL that is accepted can name a key that `audio_suffix` refuses: the extension is checked
    before unquoting. It happens exactly when an encoded slash stands right before the extension.
   */
  lemma AcceptedButUnsupported(quoted: string)
    requires AudioExtension(Suffix(quoted))
    ensures |Trim(quoted)| > 4
    ensures AudioSuffix(Quoting.Unquote(quoted)).Ok? <==> !Quoting.EndsInEncodedSlash(Stem(quoted))
  {
    var tail := StemAndTail(quoted);
    UnquotedSupport(quoted, Stem(quoted), Trim(quoted)[|Trim(quoted)| - 4..], tail);
  }

  lemma StemAndTail(quoted: string) returns (tail: string)
    requires AudioExtension(Suffix(quoted))
    ensures AudioEnding(Trim(quoted))
    ensures var stem, e := Stem(quoted), Trim(quoted)[|Trim(quoted)| - 4..];
            && Trim(quoted) == stem + e && quoted == stem + e + tail && AudioExtension(e)
            && stem != [] && stem[|stem| - 1] != '/'
  {
    SuffixEnding(quoted);
    var t := Trim(quoted);
    tail := quoted[|t|..];
    assert t == Stem(quoted) + t[|t| - 4..];
  }

  lemma UnquotedSupport(quoted: string, stem: string, e: string, tail: string)
    requires quoted == stem + e + tail && Trim(quoted) == stem + e && AudioExtension(e)
    requires stem != [] && stem[|stem| - 1] != '/'
    ensures AudioSuffix(Quoting.Unquote(quoted)).Ok? <==> !Quoting.EndsInEncodedSlash(stem)
  {
    UnquotedEnding(quoted, stem, e, tail);
    Quoting.UnquotedLast(stem);
    AudioSuffixIff(Quoting.Unquote(quoted));
  }

  lemma UnquotedEnding(quoted: string, stem: string, e: string, tail: string)
    requires quoted == stem + e + tail && Trim(quoted) == stem + e && AudioExtension(e)
    requires stem != []
    ensures Trim(Quoting.Unquote(quoted)) == Quoting.Unquote(stem) + e
    ensures AudioEnding(Quoting.Unquote(stem) + e) <==>
            Quoting.Unquote(stem) != [] && Quoting.Unquote(stem)[|Quoting.Unquote(stem)| - 1] != '/'
  {
    ExtensionShape(e);
    var u := Quoting.Unquote(stem);
    TrimTail(stem + e, u + e, tail);
    UnquoteExtension(stem, e, tail);
    assert (u + e)[|u + e| - 4..] == e;
    assert u != [] ==> (u + e)[|u + e| - 5] == u[|u| - 1];
  }

  lemma LocateKey(bucket: string, quoted: string, url: string)
    requires BucketName(bucket) && url == "s3://" + bucket + "/" + quoted
    requires quoted != "" && quoted[0] != '/' && forall c :: c in quoted ==> HostChar(c) || c == '/'
    ensures Locate(url) == Ok((bucket, quoted))
  {
    ParseObjectUrl(bucket, quoted);
    assert ("/" + quoted)[1..] == quoted;
    LStripIdle(quoted, '/');
    assert LStrip("/" + quoted, '/') == LStrip(quoted, '/');
  }

  lemma TrimAudio(stem: string, e: string)
    requires stem != [] && stem[|stem| - 1] != '/' && AudioExtension(e)
    ensures Trim(stem + e) == stem + e && AudioExtension(Suffix(stem + e)) && Stem(stem + e) == stem
  {
    ExtensionShape(e);
    var init, last := stem + e[..3], e[3];
    assert init + [last] == stem + e;
    TrimSnoc(init, last);
    EndingSuffix(stem + e, stem, e);
  }

  /** Every URL of this form is accepted by the API and cannot be fetched by the worker. */
  lemma EncodedSlashUrl(bucket: string, stem: string, e: string, url: string)
    requires BucketName(bucket) && AudioExtension(e) && url == "s3://" + bucket + "/" + (stem + e)
    requires Quoting.EndsInEncodedSlash(stem) && stem[0] != '/' && forall c :: c in stem ==> HostChar(c) || c == '/'
    ensures ParseCallRecordUrl(url).Ok?
    ensures AudioSuffix(ParseCallRecordUrl(url).value.1) == Raised(NotAudio)
  {
    ExtensionShape(e);
    LocateKey(bucket, stem + e, url);
    TrimAudio(stem, e);
    AcceptLocated(url, bucket, stem + e);
    AcceptedButUnsupported(stem + e);
  }

  /** For instance s3://b/x%2F.mp3. */
  lemma EncodedSlashExample(url: string)
    requires url == "s3://" + "b" + "/" + ("x%2F" + ".mp3")
    ensures ParseCallRecordUrl(url).Ok? && AudioSuffix(ParseCallRecordUrl(url).value.1) == Raised(NotAudio)
  {
    var stem := "x%2F";
    assert Lower(".mp3") == ".mp3";
    assert stem[|stem| - 3..|stem| - 1] == "%2";
    EncodedSlashUrl("b", stem, ".mp3", url);
  }
}
