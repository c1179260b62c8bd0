/** The "best so far" search of both routing lookups: the longest key that matches, the first of several. */
module Lookup {
  import opened Prelude
  import opened Matching
  import opened Text

  datatype Entry<T> = Entry(key: string, owner: T)

  function Length<T>(best: Option<Entry<T>>): nat {
    if best.Some? then |best.value.key| else 0
  }

  /** What the loop holds after these entries. */
  function Longest<T>(entries: seq<Entry<T>>, matches: string -> bool): Option<Entry<T>> {
    if entries == [] then None
    else
      var best := Longest(entries[..|entries| - 1], matches);
      var last := entries[|entries| - 1];
      if matches(last.key) && |last.key| > Length(best) then Some(last) else best
  }

  lemma LongestSnoc<T>(entries: seq<Entry<T>>, e: Entry<T>, matches: string -> bool)
    ensures var best := Longest(entries, matches);
            Longest(entries + [e], matches) == if matches(e.key) && |e.key| > Length(best) then Some(e) else best
  {
    assert (entries + [e])[..|entries|] == entries;
  }

  /** The entry at `i` matches, no match is longer, and none before it is as long. */
  ghost predicate FirstLongestAt<T>(entries: seq<Entry<T>>, matches: string -> bool, i: nat) {
    && i < |entries| && matches(entries[i].key) && entries[i].key != ""
    && (forall j :: 0 <= j < |entries| && matches(entries[j].key) ==> |entries[j].key| <= |entries[i].key|)
    && (forall j :: 0 <= j < i && matches(entries[j].key) ==> |entries[j].key| < |entries[i].key|)
  }

  /** The result of a search, said without the search. */
  ghost predicate IsFirstLongest<T>(entries: seq<Entry<T>>, matches: string -> bool, r: Option<Entry<T>>) {
    if r.None? then forall i :: 0 <= i < |entries| && matches(entries[i].key) ==> entries[i].key == ""
    else exists i: nat :: FirstLongestAt(entries, matches, i) && entries[i] == r.value
  }

  lemma NewBest<T>(init: seq<Entry<T>>, last: Entry<T>, matches: string -> bool, best: Option<Entry<T>>)
    requires IsFirstLongest(init, matches, best)
    requires matches(last.key) && |last.key| > Length(best)
    ensures IsFirstLongest(init + [last], matches, Some(last))
  {
    if best.Some? {
      var i: nat :| FirstLongestAt(init, matches, i) && init[i] == best.value;
    }
    assert FirstLongestAt(init + [last], matches, |init|);
  }

  lemma OldBest<T>(init: seq<Entry<T>>, last: Entry<T>, matches: string -> bool, best: Option<Entry<T>>)
    requires IsFirstLongest(init, matches, best)
    requires !(matches(last.key) && |last.key| > Length(best))
    ensures IsFirstLongest(init + [last], matches, best)
  {
    if best.Some? {
      var i: nat :| FirstLongestAt(init, matches, i) && init[i] == best.value;
      assert FirstLongestAt(init + [last], matches, i);
    }
  }

  /** The search returns the first of the longest matches, and nothing only when no key matches. */
  lemma {:induction false} LongestIsFirstLongest<T>(entries: seq<Entry<T>>, matches: string -> bool)
    ensures IsFirstLongest(entries, matches, Longest(entries, matches))
  {
    if entries != [] {
      var init, last := entries[..|entries| - 1], entries[|entries| - 1];
      assert entries == init + [last];
      LongestIsFirstLongest(init, matches);
      var best := Longest(init, matches);
      if matches(last.key) && |last.key| > Length(best) {
        NewBest(init, last, matches, best);
      } else {
        OldBest(init, last, matches, best);
      }
    }
  }

  /** No key is listed twice. */
  ghost predicate DistinctKeys<T>(entries: seq<Entry<T>>) {
    forall i, j :: 0 <= i < j < |entries| ==> entries[i].key != entries[j].key
  }

  /** A key no other match of which is as long is found, with its owner. */
  lemma LongestFinds<T>(entries: seq<Entry<T>>, matches: string -> bool, e: Entry<T>)
    requires DistinctKeys(entries) && e in entries && e.key != "" && matches(e.key)
    requires forall k: string :: matches(k) && |k| >= |e.key| ==> k == e.key
    ensures Longest(entries, matches) == Some(e)
  {
    LongestIsFirstLongest(entries, matches);
    var r := Longest(entries, matches);
    assert r.Some?;
    var i: nat :| FirstLongestAt(entries, matches, i) && entries[i] == r.value;
    var j :| 0 <= j < |entries| && entries[j] == e;
    assert entries[i].key == e.key;
  }

  /** The result is one of the longest matches. */
  lemma LongestIsLongest<T>(entries: seq<Entry<T>>, matches: string -> bool)
    ensures var r := Longest(entries, matches);
            && (r.Some? ==> r.value in entries && matches(r.value.key) && r.value.key != "")
            && (forall e :: e in entries && matches(e.key) ==> |e.key| <= Length(r))
  {
    LongestIsFirstLongest(entries, matches);
    var r := Longest(entries, matches);
    if r.Some? {
      var i: nat :| FirstLongestAt(entries, matches, i) && entries[i] == r.value;
    }
  }

  lemma SameKeySameEntry<T>(entries: seq<Entry<T>>, e: Entry<T>, f: Entry<T>)
    requires DistinctKeys(entries) && e in entries && f in entries && e.key == f.key
    ensures e == f
  {
    var i :| 0 <= i < |entries| && entries[i] == e;
    var j :| 0 <= j < |entries| && entries[j] == f;
    assert i == j;
  }

  /** When matches of equal length are equal, only the set of the entries matters, not their order. */
  lemma OrderIrrelevant<T>(a: seq<Entry<T>>, b: seq<Entry<T>>, matches: string -> bool)
    requires forall e :: e in a <==> e in b
    requires DistinctKeys(a)
    requires forall k: string, l: string :: matches(k) && matches(l) && |k| == |l| ==> k == l
    ensures Longest(a, matches) == Longest(b, matches)
  {
    LongestIsLongest(a, matches);
    LongestIsLongest(b, matches);
    var r, s := Longest(a, matches), Longest(b, matches);
    if r.Some? && s.Some? {
      SameKeySameEntry(a, r.value, s.value);
    }
  }

  // ---- the two tests ----

  /** Two listed domains of equal length that match one address domain are the same domain. */
  lemma DomainMatchesUnique(domain: string, d: string, e: string)
    requires DomainMatches(domain, d) && DomainMatches(domain, e) && |d| == |e|
    ensures d == e
  {
    assert EndsWith(domain, d) by {
      assert domain != d ==> ("." + d)[1..] == d && domain[|domain| - |d|..] == domain[|domain| - |d| - 1..][1..];
    }
    assert EndsWith(domain, e) by {
      assert domain != e ==> ("." + e)[1..] == e && domain[|domain| - |e|..] == domain[|domain| - |e| - 1..][1..];
    }
  }

  /** A company key matches itself, and no other key that is at least as long. */
  lemma CompanyMatchesItself(key: string, other: string)
    ensures CompanyMatches(key, key)
    ensures CompanyMatches(key, other) && |other| >= |key| ==> other == key
  {
    assert Padded(key)[0..] == Padded(key);
    if CompanyMatches(key, other) && |other| >= |key| {
      var p := Padded(key);
      var i :| 0 <= i <= |p| && Padded(other) <= p[i..];
      assert i == 0;
      assert Padded(other) == p;
      assert p[1..|p| - 1] == key && Padded(other)[1..|p| - 1] == other;
    }
  }
}
