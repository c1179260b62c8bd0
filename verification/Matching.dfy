/**
  The two tests the routing table is searched with, and what they mean: a padded
  substring test that stands for whole words, and a suffix test that stands for
  whole labels.
 */
module Matching {
  import opened Text

  // ---- lists as pieces of strings ----

  lemma {:induction false} SplitConcat(a: string, sep: char, b: string)
    ensures Split(a + [sep] + b, sep) == Split(a, sep) + Split(b, sep)
  {
    var whole := a + [sep] + b;
    if a == [] {
      assert whole[1..] == b;
    } else {
      assert whole[1..] == a[1..] + [sep] + b;
      SplitConcat(a[1..], sep, b);
    }
  }

  /** Different strings have different pieces. */
  lemma SplitInjective(a: string, b: string, sep: char)
    requires Split(a, sep) == Split(b, sep)
    ensures a == b
  {
    JoinSplit(a, sep);
    JoinSplit(b, sep);
  }

  /** Where a list of pieces is cut in two, the string is cut at a separator. */
  lemma CutAt(s: string, sep: char, k: nat) returns (a: string, b: string)
    requires 0 < k < |Split(s, sep)|
    ensures s == a + [sep] + b
    ensures Split(a, sep) == Split(s, sep)[..k] && Split(b, sep) == Split(s, sep)[k..]
  {
    var pieces := Split(s, sep);
    a, b := Join(pieces[..k], sep), Join(pieces[k..], sep);
    SplitJoin(pieces[..k], sep);
    SplitJoin(pieces[k..], sep);
    SplitConcat(a, sep, b);
    assert pieces[..k] + pieces[k..] == pieces;
    SplitInjective(s, a + [sep] + b, sep);
  }

  // ---- whole labels ----

  /** `domain == d or domain.endswith("." + d)`. */
  predicate DomainMatches(domain: string, d: string) {
    domain == d || EndsWith(domain, "." + d)
  }

  ghost predicate IsSuffix(tail: seq<string>, list: seq<string>) {
    |tail| <= |list| && list[|list| - |tail|..] == tail
  }

  lemma SuffixIsLabels(domain: string, d: string)
    requires DomainMatches(domain, d)
    ensures IsSuffix(Split(d, '.'), Split(domain, '.'))
  {
    if domain != d {
      var head := domain[..|domain| - |d| - 1];
      assert domain == head + ("." + d);
      assert domain == head + ['.'] + d;
      SplitConcat(head, '.', d);
    }
  }

  lemma EndsWithTail(a: string, tail: string)
    ensures EndsWith(a + tail, tail)
  {
  }

  /** What stands before the last labels. */
  lemma BeforeLabels(domain: string, d: string) returns (a: string)
    requires IsSuffix(Split(d, '.'), Split(domain, '.')) && |Split(d, '.')| < |Split(domain, '.')|
    ensures domain == a + ['.'] + d
  {
    var b;
    a, b := CutAt(domain, '.', |Split(domain, '.')| - |Split(d, '.')|);
    SplitInjective(b, d, '.');
  }

  lemma LabelsAreSuffix(domain: string, d: string)
    requires IsSuffix(Split(d, '.'), Split(domain, '.'))
    ensures DomainMatches(domain, d)
  {
    if |Split(d, '.')| == |Split(domain, '.')| {
      SplitInjective(domain, d, '.');
    } else {
      var a := BeforeLabels(domain, d);
      Associative(a, ['.'], d);
      EndsWithTail(a, ['.'] + d);
    }
  }

  /** The suffix test holds exactly when the labels of `d` are the last labels of the domain. */
  lemma DomainMatchIsLabelSuffix(domain: string, d: string)
    ensures DomainMatches(domain, d) <==> IsSuffix(Split(d, '.'), Split(domain, '.'))
  {
    if DomainMatches(domain, d) {
      SuffixIsLabels(domain, d);
    } else if IsSuffix(Split(d, '.'), Split(domain, '.')) {
      LabelsAreSuffix(domain, d);
    }
  }

  // ---- whole words ----

  function Padded(s: string): string {
    [' '] + s + [' ']
  }

  /** `f" {c} " in f" {company} "`. */
  predicate CompanyMatches(company: string, c: string) {
    Contains(Padded(company), Padded(c))
  }

  ghost predicate IsRun(run: seq<string>, list: seq<string>) {
    exists k :: 0 <= k <= |list| && run <= list[k..]
  }

  lemma PrefixByParts<T>(a: seq<T>, b: seq<T>)
    requires a != [] && b != []
    ensures a <= b <==> a[0] == b[0] && a[1..] <= b[1..]
  {
    assert a == [a[0]] + a[1..] && b == [b[0]] + b[1..];
  }

  lemma SplitCons(s: string)
    requires s != []
    ensures var r := Split(s[1..], ' ');
            && (s[0] == ' ' ==> Split(s, ' ')[0] == "" && Split(s, ' ')[1..] == r)
            && (s[0] != ' ' ==> Split(s, ' ')[0] == [s[0]] + r[0] && Split(s, ' ')[1..] == r[1..])
  {
  }

  lemma PaddedByParts(c: string, s: string)
    requires c != [] && s != []
    ensures c + [' '] <= s + [' '] <==> c[0] == s[0] && c[1..] + [' '] <= s[1..] + [' ']
  {
    var a, b := c + [' '], s + [' '];
    assert a[1..] == c[1..] + [' '] && b[1..] == s[1..] + [' '];
    PrefixByParts(a, b);
  }

  lemma SameHead(x: char, h: string, y: char, k: string)
    ensures [x] + h == [y] + k <==> x == y && h == k
  {
    assert ([x] + h)[1..] == h && ([y] + k)[1..] == k;
    assert ([x] + h)[0] == x && ([y] + k)[0] == y;
  }

  /** `c` followed by a blank starts `s` followed by a blank exactly when the words of `c` start those of `s`. */
  lemma {:induction false} PrefixWords(c: string, s: string)
    ensures c + [' '] <= s + [' '] <==> Split(c, ' ') <= Split(s, ' ')
  {
    PrefixByParts(Split(c, ' '), Split(s, ' '));
    if c == [] {
      assert c + [' '] == [' '];
      if s != [] {
        assert (s + [' '])[0] == s[0];
      }
    } else if s == [] {
      assert s + [' '] == [' '];
    } else {
      PaddedByParts(c, s);
      PrefixWords(c[1..], s[1..]);
      SplitCons(c);
      SplitCons(s);
      SameHead(c[0], Split(c[1..], ' ')[0], s[0], Split(s[1..], ' ')[0]);
      PrefixByParts(Split(c[1..], ' '), Split(s[1..], ' '));
    }
  }

  /** The padded test holds exactly when the words of `c` are a run of consecutive words of the company. */
  lemma CompanyMatchIsWordRun(company: string, c: string)
    ensures CompanyMatches(company, c) <==> IsRun(Split(c, ' '), Split(company, ' '))
  {
    if CompanyMatches(company, c) {
      MatchIsRun(company, c);
    } else if IsRun(Split(c, ' '), Split(company, ' ')) {
      RunIsMatch(company, c);
    }
  }

  /** Where the padded key occurs, the company begins or a blank stands before it. */
  lemma PaddedAt(company: string, c: string, i: nat)
    requires i <= |Padded(company)| && Padded(c) <= Padded(company)[i..]
    ensures i <= |company| && c + [' '] <= company[i..] + [' ']
    ensures i > 0 ==> company[i - 1] == ' '
  {
    var p := Padded(company);
    assert p[i..][0] == Padded(c)[0] == ' ';
    PrefixByParts(Padded(c), p[i..]);
    assert Padded(c)[1..] == c + [' '];
    assert p[i..][1..] == company[i..] + [' '];
  }

  lemma MatchIsRun(company: string, c: string)
    requires CompanyMatches(company, c)
    ensures IsRun(Split(c, ' '), Split(company, ' '))
  {
    var i: nat :| i <= |Padded(company)| && Padded(c) <= Padded(company)[i..];
    PaddedAt(company, c, i);
    if i == 0 {
      assert company[0..] == company;
      PrefixWords(c, company);
      assert Split(company, ' ')[0..] == Split(company, ' ');
    } else {
      assert company == company[..i - 1] + [' '] + company[i..];
      MatchAfterBlank(company, c, company[..i - 1], company[i..]);
    }
  }

  lemma MatchAfterBlank(company: string, c: string, a: string, b: string)
    requires company == a + [' '] + b && c + [' '] <= b + [' ']
    ensures IsRun(Split(c, ' '), Split(company, ' '))
  {
    PrefixWords(c, b);
    SplitConcat(a, ' ', b);
    assert Split(company, ' ')[|Split(a, ' ')|..] == Split(b, ' ');
  }

  lemma PaddedPrefix(c: string, s: string)
    requires c + [' '] <= s + [' ']
    ensures Padded(c) <= Padded(s)
  {
    assert Padded(c) == [' '] + (c + [' ']) && Padded(s) == [' '] + (s + [' ']);
  }

  lemma RunIsMatch(company: string, c: string)
    requires IsRun(Split(c, ' '), Split(company, ' '))
    ensures CompanyMatches(company, c)
  {
    var p, words := Padded(company), Split(company, ' ');
    var k :| 0 <= k <= |words| && Split(c, ' ') <= words[k..];
    if k == 0 {
      assert words[0..] == words;
      PrefixWords(c, company);
      PaddedPrefix(c, company);
      assert p[0..] == Padded(company);
    } else {
      var a, b := CutAt(company, ' ', k);
      PrefixWords(c, b);
      PaddedPrefix(c, b);
      assert p[1 + |a|..] == Padded(b);
    }
  }
}
