/** Strings as the program uses them: splitting, joining, prefixes and code-point order. */
module Text {

  predicate StartsWith(s: string, prefix: string) {
    prefix <= s
  }

  predicate EndsWith(s: string, suffix: string) {
    |suffix| <= |s| && s[|s| - |suffix|..] == suffix
  }

  /** `needle in haystack`. */
  predicate Contains(haystack: string, needle: string) {
    exists i :: 0 <= i <= |haystack| && needle <= haystack[i..]
  }

  lemma OneMore<T>(s: seq<T>, i: nat)
    requires i < |s|
    ensures s[..i + 1] == s[..i] + [s[i]]
  {
  }

  lemma Associative<T>(a: seq<T>, b: seq<T>, c: seq<T>)
    ensures a + (b + c) == a + b + c
  {
  }

  /** `s.lstrip(c)`. */
  function LStrip(s: string, c: char): (t: string)
    ensures EndsWith(s, t) && (t != [] ==> t[0] != c)
    ensures forall i :: 0 <= i < |s| - |t| ==> s[i] == c
  {
    if s != [] && s[0] == c then
      var t := LStrip(s[1..], c);
      assert s[|s| - |t|..] == s[1..][|s| - 1 - |t|..];
      t
    else s
  }

  /** `s.split(separator)` for a one-character separator: empty pieces are kept. */
  function Split(s: string, separator: char): (pieces: seq<string>)
    ensures |pieces| > 0
    ensures forall p :: p in pieces ==> separator !in p
  {
    if s == [] then [""]
    else
      var rest := Split(s[1..], separator);
      if s[0] == separator then [""] + rest else [[s[0]] + rest[0]] + rest[1..]
  }

  /** `separator.join(pieces)` for a one-character separator. */
  function Join(pieces: seq<string>, separator: char): string {
    if pieces == [] then ""
    else if |pieces| == 1 then pieces[0]
    else pieces[0] + [separator] + Join(pieces[1..], separator)
  }

  lemma {:induction false} SplitPlain(s: string, separator: char)
    requires separator !in s
    ensures Split(s, separator) == [s]
  {
    if s == [] {
    } else {
      SplitPlain(s[1..], separator);
      assert [s[0]] + s[1..] == s;
    }
  }

  /** The first piece ends at the first separator. */
  lemma {:induction false} SplitAt(head: string, separator: char, tail: string)
    requires separator !in head
    ensures Split(head + [separator] + tail, separator) == [head] + Split(tail, separator)
  {
    var whole := head + [separator] + tail;
    if head == [] {
      assert whole[1..] == tail;
    } else {
      assert whole[1..] == head[1..] + [separator] + tail;
      SplitAt(head[1..], separator, tail);
      assert [head[0]] + head[1..] == head;
    }
  }

  /** Joining pieces free of the separator and splitting again gives the pieces back. */
  lemma {:induction false} SplitJoin(pieces: seq<string>, separator: char)
    requires |pieces| > 0
    requires forall p :: p in pieces ==> separator !in p
    ensures Split(Join(pieces, separator), separator) == pieces
  {
    if |pieces| == 1 {
      SplitPlain(pieces[0], separator);
    } else {
      SplitJoin(pieces[1..], separator);
      SplitAt(pieces[0], separator, Join(pieces[1..], separator));
    }
  }

  lemma JoinCons(piece: string, rest: seq<string>, separator: char)
    requires rest != []
    ensures Join([piece] + rest, separator) == piece + [separator] + Join(rest, separator)
  {
    assert ([piece] + rest)[1..] == rest;
  }

  /** A character in front of the first piece comes first. */
  lemma JoinFirst(x: char, pieces: seq<string>, separator: char)
    requires pieces != []
    ensures Join([[x] + pieces[0]] + pieces[1..], separator) == [x] + Join(pieces, separator)
  {
    if |pieces| > 1 {
      JoinCons([x] + pieces[0], pieces[1..], separator);
      Associative([x], pieces[0], [separator] + Join(pieces[1..], separator));
      Associative([x] + pieces[0], [separator], Join(pieces[1..], separator));
      Associative(pieces[0], [separator], Join(pieces[1..], separator));
    }
  }

  /** Splitting and joining again gives the string back. */
  lemma {:induction false} JoinSplit(s: string, separator: char)
    ensures Join(Split(s, separator), separator) == s
  {
    if s == [] {
    } else {
      JoinSplit(s[1..], separator);
      var rest := Split(s[1..], separator);
      if s[0] == separator {
        JoinCons("", rest, separator);
      } else {
        JoinFirst(s[0], rest, separator);
      }
    }
  }

  /** `str(n)`. */
  function Decimal(n: nat): (s: string)
    ensures s != "" && forall c :: c in s ==> '0' <= c <= '9'
  {
    var digit := ['0', '1', '2', '3', '4', '5', '6', '7', '8', '9'][n % 10];
    if n < 10 then [digit] else Decimal(n / 10) + [digit]
  }

  /** Code-point order: Python's `<` on `str`, SQLite's BINARY collation on its UTF-8 form. */
  predicate Before(a: string, b: string) {
    if b == [] then false
    else if a == [] then true
    else a[0] < b[0] || (a[0] == b[0] && Before(a[1..], b[1..]))
  }

  /** Up to position `n` the strings agree, and there `a` ends or has the smaller character. */
  predicate DifferAt(a: string, b: string, n: nat) {
    n <= |a| && n < |b| && a[..n] == b[..n] && (n < |a| ==> a[n] < b[n])
  }

  /** The order is that of the first difference. */
  lemma {:induction false} BeforeIsLexicographic(a: string, b: string)
    ensures Before(a, b) <==> exists n: nat :: DifferAt(a, b, n)
  {
    if b == [] {
    } else if a == [] {
      assert DifferAt(a, b, 0);
    } else if a[0] != b[0] {
      assert a[0] < b[0] ==> DifferAt(a, b, 0);
      assert forall n: nat :: 0 < n <= |a| && n <= |b| ==> a[..n][0] == a[0] && b[..n][0] == b[0];
    } else {
      BeforeIsLexicographic(a[1..], b[1..]);
      if n: nat :| DifferAt(a[1..], b[1..], n) {
        DifferLater(a, b, n);
      }
      if n: nat :| DifferAt(a, b, n) {
        DifferEarlier(a, b, n);
      }
    }
  }

  lemma DifferLater(a: string, b: string, n: nat)
    requires a != [] && b != [] && a[0] == b[0] && DifferAt(a[1..], b[1..], n)
    ensures DifferAt(a, b, n + 1)
  {
    assert a[..n + 1] == [a[0]] + a[1..][..n] && b[..n + 1] == [b[0]] + b[1..][..n];
  }

  lemma DifferEarlier(a: string, b: string, n: nat)
    requires a != [] && b != [] && a[0] == b[0] && DifferAt(a, b, n)
    ensures DifferAt(a[1..], b[1..], n - 1)
  {
    assert a[1..][..n - 1] == a[..n][1..] && b[1..][..n - 1] == b[..n][1..];
  }

  lemma {:induction false} BeforeIrreflexive(a: string)
    ensures !Before(a, a)
  {
    if a == [] {
    } else {
      BeforeIrreflexive(a[1..]);
    }
  }

  lemma {:induction false} BeforeTransitive(a: string, b: string, c: string)
    requires Before(a, b) && Before(b, c)
    ensures Before(a, c)
  {
    if a != [] && a[0] == b[0] == c[0] {
      BeforeTransitive(a[1..], b[1..], c[1..]);
    }
  }

  lemma {:induction false} BeforeTotal(a: string, b: string)
    ensures a == b || Before(a, b) || Before(b, a)
  {
    if a == [] || b == [] {
    } else if a[0] == b[0] {
      BeforeTotal(a[1..], b[1..]);
      assert [a[0]] + a[1..] == a && [b[0]] + b[1..] == b;
    }
  }
}
