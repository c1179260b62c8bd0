/** What the lookups of the routing table guarantee. */
module RoutingFacts {
  import opened Prelude
  import opened Text
  import opened Normalize
  import opened Matching
  import opened Lookup
  import opened Routing

  /** What `parse_routing` guarantees of the tables it builds: no domain and no company key is listed twice. */
  ghost predicate WellFormed(table: Table) {
    DistinctKeys(DomainEntries(table.clientRoutes)) && DistinctKeys(CompanyEntries(table.clientRoutes))
  }

  lemma {:induction false} DomainListed(routes: seq<ClientRoute>, i: nat, j: nat)
    requires i < |routes| && j < |routes[i].domains|
    ensures Entry(routes[i].domains[j], routes[i]) in DomainEntries(routes)
  {
    var init, last := routes[..|routes| - 1], routes[|routes| - 1];
    if i < |init| {
      DomainListed(init, i, j);
    } else {
      assert EntriesOf(last.domains, last)[j] == Entry(last.domains[j], last);
    }
  }

  lemma {:induction false} CompanyListed(routes: seq<ClientRoute>, i: nat, j: nat)
    requires i < |routes| && j < |routes[i].companies|
    ensures Entry(routes[i].companies[j], routes[i]) in CompanyEntries(routes)
  {
    var init, last := routes[..|routes| - 1], routes[|routes| - 1];
    if i < |init| {
      CompanyListed(init, i, j);
    } else {
      assert EntriesOf(last.companies, last)[j] == Entry(last.companies[j], last);
    }
  }

  /** Every spelling of a listed company is sent to the route that lists it. */
  lemma CompanySelfRouting(u: Alphabet, table: Table, i: nat, j: nat, spelling: string)
    requires WellFormed(table) && i < |table.clientRoutes| && j < |table.clientRoutes[i].companies|
    requires Key(u, spelling) == table.clientRoutes[i].companies[j] != ""
    ensures BestCompany(u, table, spelling) == Some(table.clientRoutes[i])
  {
    var key := Key(u, spelling);
    CompanyListed(table.clientRoutes, i, j);
    CompanyMatchesItself(key, key);
    forall k: string | CompanyTest(key)(k) && |k| >= |key| ensures k == key {
      CompanyMatchesItself(key, k);
    }
    LongestFinds(CompanyEntries(table.clientRoutes), CompanyTest(key), Entry(key, table.clientRoutes[i]));
  }

  /** Every listed domain is sent to the route that lists it. */
  lemma DomainSelfRouting(table: Table, i: nat, j: nat)
    requires WellFormed(table) && i < |table.clientRoutes| && j < |table.clientRoutes[i].domains|
    requires table.clientRoutes[i].domains[j] != ""
    ensures BestDomain(table, table.clientRoutes[i].domains[j]) == Some(table.clientRoutes[i])
  {
    var domain := table.clientRoutes[i].domains[j];
    DomainListed(table.clientRoutes, i, j);
    forall k: string | DomainTest(domain)(k) && |k| >= |domain| ensures k == domain {
    }
    LongestFinds(DomainEntries(table.clientRoutes), DomainTest(domain), Entry(domain, table.clientRoutes[i]));
  }

  /** Said without the search: at `i` is the first of the longest listed domains whose labels end the address domain. */
  ghost predicate FirstLongestByLabels(entries: seq<Entry<ClientRoute>>, domain: string, i: nat) {
    var labels := Split(domain, '.');
    && i < |entries| && IsSuffix(Split(entries[i].key, '.'), labels) && entries[i].key != ""
    && (forall j :: 0 <= j < |entries| && IsSuffix(Split(entries[j].key, '.'), labels) ==>
          |entries[j].key| <= |entries[i].key|)
    && (forall j :: 0 <= j < i && IsSuffix(Split(entries[j].key, '.'), labels) ==>
          |entries[j].key| < |entries[i].key|)
  }

  /** Said without the search: the first of the longest listed keys whose words occur in a row in the company's. */
  ghost predicate FirstLongestByWords(entries: seq<Entry<ClientRoute>>, company: string, i: nat) {
    var words := Split(company, ' ');
    && i < |entries| && IsRun(Split(entries[i].key, ' '), words) && entries[i].key != ""
    && (forall j :: 0 <= j < |entries| && IsRun(Split(entries[j].key, ' '), words) ==>
          |entries[j].key| <= |entries[i].key|)
    && (forall j :: 0 <= j < i && IsRun(Split(entries[j].key, ' '), words) ==>
          |entries[j].key| < |entries[i].key|)
  }

  lemma ByLabels(entries: seq<Entry<ClientRoute>>, domain: string, i: nat)
    ensures FirstLongestAt(entries, DomainTest(domain), i) <==> FirstLongestByLabels(entries, domain, i)
  {
    forall j | 0 <= j < |entries|
      ensures DomainTest(domain)(entries[j].key) <==> IsSuffix(Split(entries[j].key, '.'), Split(domain, '.'))
    {
      DomainMatchIsLabelSuffix(domain, entries[j].key);
    }
  }

  lemma ByWords(entries: seq<Entry<ClientRoute>>, company: string, i: nat)
    ensures FirstLongestAt(entries, CompanyTest(company), i) <==> FirstLongestByWords(entries, company, i)
  {
    forall j | 0 <= j < |entries|
      ensures CompanyTest(company)(entries[j].key) <==> IsRun(Split(entries[j].key, ' '), Split(company, ' '))
    {
      CompanyMatchIsWordRun(company, entries[j].key);
    }
  }

  ghost predicate FoundByLabels(entries: seq<Entry<ClientRoute>>, domain: string, r: Option<ClientRoute>) {
    if r.None? then forall e :: e in entries && IsSuffix(Split(e.key, '.'), Split(domain, '.')) ==> e.key == ""
    else exists i: nat :: FirstLongestByLabels(entries, domain, i) && entries[i].owner == r.value
  }

  ghost predicate FoundByWords(entries: seq<Entry<ClientRoute>>, company: string, r: Option<ClientRoute>) {
    if r.None? then forall e :: e in entries && IsRun(Split(e.key, ' '), Split(company, ' ')) ==> e.key == ""
    else exists i: nat :: FirstLongestByWords(entries, company, i) && entries[i].owner == r.value
  }

  /** The domain lookup finds the owner of the longest listed domain that matches label by label. */
  lemma DomainLookupByLabels(table: Table, domain: string)
    ensures FoundByLabels(DomainEntries(table.clientRoutes), domain, BestDomain(table, domain))
  {
    var entries, test := DomainEntries(table.clientRoutes), DomainTest(domain);
    LongestIsFirstLongest(entries, test);
    var best := Longest(entries, test);
    if best.Some? {
      var i: nat :| FirstLongestAt(entries, test, i) && entries[i] == best.value;
      ByLabels(entries, domain, i);
    } else {
      forall e | e in entries && IsSuffix(Split(e.key, '.'), Split(domain, '.')) ensures e.key == "" {
        DomainMatchIsLabelSuffix(domain, e.key);
      }
    }
  }

  lemma WordLookup(entries: seq<Entry<ClientRoute>>, company: string)
    ensures FoundByWords(entries, company, Owner(Longest(entries, CompanyTest(company))))
  {
    var test := CompanyTest(company);
    LongestIsFirstLongest(entries, test);
    var best := Longest(entries, test);
    if best.Some? {
      var i: nat :| FirstLongestAt(entries, test, i) && entries[i] == best.value;
      ByWords(entries, company, i);
    } else {
      forall e | e in entries && IsRun(Split(e.key, ' '), Split(company, ' ')) ensures e.key == "" {
        CompanyMatchIsWordRun(company, e.key);
      }
    }
  }

  /** The company lookup finds the owner of the longest listed key whose words occur in a row in the name's key. */
  lemma CompanyLookupByWords(u: Alphabet, table: Table, name: string)
    ensures if Key(u, name) == "" then BestCompany(u, table, name) == None
            else FoundByWords(CompanyEntries(table.clientRoutes), Key(u, name), BestCompany(u, table, name))
  {
    WordLookup(CompanyEntries(table.clientRoutes), Key(u, name));
  }

  lemma LongestIsIn(entries: seq<Entry<ClientRoute>>, matches: string -> bool)
    ensures var r := Longest(entries, matches); r.Some? ==> r.value in entries
  {
    LongestIsLongest(entries, matches);
  }

  // ---- order ----

  /** What of a route is used once it is found. */
  function AnswerOf(r: ClientRoute): (seq<string>, string) {
    (r.to, r.name)
  }

  /** The entries with the recipients and the team's label instead of the whole routes. */
  function Answers(entries: seq<Entry<ClientRoute>>): seq<Entry<(seq<string>, string)>> {
    seq(|entries|, i requires 0 <= i < |entries| => Entry(entries[i].key, AnswerOf(entries[i].owner)))
  }

  lemma {:induction false} LongestAnswer(entries: seq<Entry<ClientRoute>>, matches: string -> bool)
    ensures var r := Longest(entries, matches);
            Longest(Answers(entries), matches)
            == if r.Some? then Some(Entry(r.value.key, AnswerOf(r.value.owner))) else None
  {
    if entries != [] {
      var n := |entries| - 1;
      LongestAnswer(entries[..n], matches);
      assert Answers(entries)[..n] == Answers(entries[..n]);
    }
  }

  /** Two tables that list the same domains for the same teams answer alike, in whatever order they list them. */
  lemma DomainOrderIrrelevant(a: Table, b: Table, domain: string)
    requires WellFormed(a)
    requires forall e ::
      e in Answers(DomainEntries(a.clientRoutes)) <==> e in Answers(DomainEntries(b.clientRoutes))
    ensures var r, s := BestDomain(a, domain), BestDomain(b, domain);
            r.Some? == s.Some? && (r.Some? ==> r.value.to == s.value.to && r.value.name == s.value.name)
  {
    var test := DomainTest(domain);
    forall k: string, l: string | test(k) && test(l) && |k| == |l| ensures k == l {
      DomainMatchesUnique(domain, k, l);
    }
    LongestAnswer(DomainEntries(a.clientRoutes), test);
    LongestAnswer(DomainEntries(b.clientRoutes), test);
    OrderIrrelevant(Answers(DomainEntries(a.clientRoutes)), Answers(DomainEntries(b.clientRoutes)), test);
  }

  // ---- reading the summary ----

  predicate Labelled(u: Alphabet, line: string, prefix: string) {
    StartsWith(LowerAll(u, Strip(u, line)), prefix)
  }

  /** The field is the value of the first line with the label; there is none only when no line has it. */
  lemma {:induction false} FieldIsFirstLine(u: Alphabet, lines: seq<string>, prefix: string)
    ensures var r := FirstField(u, lines, prefix);
            if r.None? then forall i :: 0 <= i < |lines| ==> !Labelled(u, lines[i], prefix)
            else exists i :: 0 <= i < |lines| && Labelled(u, lines[i], prefix)
                             && r.value == Strip(u, AfterColon(lines[i]))
                             && forall j :: 0 <= j < i ==> !Labelled(u, lines[j], prefix)
  {
    if lines != [] && !Labelled(u, lines[0], prefix) {
      var rest := lines[1..];
      FieldIsFirstLine(u, rest, prefix);
      assert forall i :: 0 < i < |lines| ==> lines[i] == rest[i - 1];
      var r := FirstField(u, rest, prefix);
      if r.Some? {
        var i :| 0 <= i < |rest| && Labelled(u, rest[i], prefix) && r.value == Strip(u, AfterColon(rest[i]))
                 && forall j :: 0 <= j < i ==> !Labelled(u, rest[j], prefix);
        assert lines[i + 1] == rest[i];
      }
    }
  }

  /** The line gives this field. */
  predicate Gives(u: Alphabet, line: string, title: string) {
    StartsWith(LowerAll(u, Strip(u, line)), LowerAll(u, title) + [':'])
  }

  /** The `i`-th line is the first with this title, and the value is what follows its first colon, stripped. */
  ghost predicate GivenAt(u: Alphabet, lines: seq<string>, title: string, value: string, i: nat) {
    && i < |lines| && Gives(u, lines[i], title) && value == Strip(u, AfterColon(lines[i]))
    && forall j :: 0 <= j < i ==> !Gives(u, lines[j], title)
  }

  ghost predicate IsField(u: Alphabet, lines: seq<string>, title: string, field: Option<string>) {
    if field.None? then forall i :: 0 <= i < |lines| ==> !Gives(u, lines[i], title)
    else exists i: nat :: GivenAt(u, lines, title, field.value, i)
  }

  /** A field of a summary is the value of the first line with its title; there is none only when no line has it. */
  lemma FieldOfSummary(u: Alphabet, summary: string, title: string)
    ensures IsField(u, Lines(summary), title, Field(u, summary, title))
  {
    var prefix := LowerAll(u, title) + [':'];
    assert LowerAll(u, title) + ":" == prefix;
    assert Field(u, summary, title) == FirstField(u, Lines(summary), prefix);
    FieldInLines(u, Lines(summary), title, prefix);
  }

  lemma FieldInLines(u: Alphabet, lines: seq<string>, title: string, prefix: string)
    requires prefix == LowerAll(u, title) + [':']
    ensures IsField(u, lines, title, FirstField(u, lines, prefix))
  {
    var r := FirstField(u, lines, prefix);
    FieldIsFirstLine(u, lines, prefix);
    if r.Some? {
      var i: nat :| i < |lines| && Labelled(u, lines[i], prefix) && r.value == Strip(u, AfterColon(lines[i]))
                    && forall j :: 0 <= j < i ==> !Labelled(u, lines[j], prefix);
      forall j | 0 <= j < i ensures !Gives(u, lines[j], title) {
        assert !Labelled(u, lines[j], prefix);
      }
      assert GivenAt(u, lines, title, r.value, i);
    } else {
      forall i | 0 <= i < |lines| ensures !Gives(u, lines[i], title) {
        assert !Labelled(u, lines[i], prefix);
      }
    }
  }

  /** The value is everything after the first colon. */
  lemma {:induction false} AfterFirstColon(head: string, tail: string)
    requires ':' !in head
    ensures AfterColon(head + [':'] + tail) == tail
  {
    var line := head + [':'] + tail;
    if head == [] {
      assert line[1..] == tail;
    } else {
      assert line[1..] == head[1..] + [':'] + tail;
      AfterFirstColon(head[1..], tail);
    }
  }

  /** Lines end at a line feed and at every other character that separates lines, of ASCII and beyond. */
  lemma LineBreaksAre(c: char)
    ensures LineBreak(c) <==> 0x0A <= c as int <= 0x0D || 0x1C <= c as int <= 0x1E || c as int == 0x85
                              || c as int == 0x2028 || c as int == 0x2029
  {
  }

  lemma {:induction false} LineLengthOf(line: string, rest: string)
    requires forall i :: 0 <= i < |line| ==> !LineBreak(line[i])
    requires rest != [] ==> LineBreak(rest[0])
    ensures LineLength(line + rest) == |line|
  {
    if line == [] {
      assert line + rest == rest;
    } else {
      assert (line + rest)[1..] == line[1..] + rest;
      LineLengthOf(line[1..], rest);
    }
  }

  /** Lines are cut at each of these characters; a carriage return and a line feed are one cut. */
  lemma FirstLineIs(line: string, separator: string, rest: string)
    requires forall i :: 0 <= i < |line| ==> !LineBreak(line[i])
    requires separator == ['\r', '\n'] || (|separator| == 1 && LineBreak(separator[0]))
    requires !(separator == ['\r'] && rest != "" && rest[0] == '\n')
    ensures Lines(line + separator + rest) == [line] + Lines(rest)
  {
    BreakAfter(line, separator, rest);
    CutAfter(line, separator, rest);
    LinesStep(line + separator + rest, |line|, |line| + |separator|);
  }

  lemma BreakAfter(line: string, separator: string, rest: string)
    requires forall i :: 0 <= i < |line| ==> !LineBreak(line[i])
    requires separator != "" && LineBreak(separator[0])
    ensures LineLength(line + separator + rest) == |line| < |line + separator + rest|
  {
    assert line + separator + rest == line + (separator + rest);
    LineLengthOf(line, separator + rest);
  }

  lemma LinesStep(text: string, n: nat, after: nat)
    requires n == LineLength(text) < |text|
    requires after == if n + 1 < |text| && text[n] == '\r' && text[n + 1] == '\n' then n + 2 else n + 1
    ensures after <= |text| && Lines(text) == [text[..n]] + Lines(text[after..])
  {
    var rest := if after < |text| then Lines(text[after..]) else [];
    assert Lines(text) == [text[..n]] + rest;
    assert after == |text| ==> text[after..] == [] && Lines(text[after..]) == [];
  }

  lemma CutAfter(line: string, separator: string, rest: string)
    requires separator == ['\r', '\n'] || |separator| == 1
    requires !(separator == ['\r'] && rest != "" && rest[0] == '\n')
    ensures var text, n := line + separator + rest, |line|;
            && text[..n] == line && text[n + |separator|..] == rest && text[n] == separator[0]
            && (separator == ['\r', '\n'] <==> n + 1 < |text| && text[n] == '\r' && text[n + 1] == '\n')
  {
  }

  /** A text without them is one line, or none if it is empty. */
  lemma OnlyLine(line: string)
    requires forall i :: 0 <= i < |line| ==> !LineBreak(line[i])
    ensures Lines(line) == if line == "" then [] else [line]
  {
    assert line + [] == line;
    LineLengthOf(line, []);
    assert line[..|line|] == line;
  }

  /** Once the summary has the address line, only that line counts: an address elsewhere is not looked at. */
  lemma AddressLineDecides(u: Alphabet, x: Addresses, s: string, t: string, title: string)
    requires title == "Почта" && Field(u, s, title).Some? && Field(u, s, title) == Field(u, t, title)
    ensures ClientEmailDomain(u, x, s) == ClientEmailDomain(u, x, t)
  {
  }

  /** The domain is that of the first address in the text, a plain one before a glued one, in lower case. */
  ghost predicate FoundIn(u: Alphabet, x: Addresses, text: string, domain: string) {
    if x.plain(text) != [] then domain == LowerAll(u, x.plain(text)[0])
    else if x.glued(text) != [] then domain == LowerAll(u, x.glued(text)[0])
    else domain == ""
  }

  /** It is looked for in the address line if there is one, else in the whole summary. */
  lemma AddressIsFirstFound(u: Alphabet, x: Addresses, summary: string, title: string)
    requires title == "Почта"
    ensures var line := Field(u, summary, title);
            FoundIn(u, x, if line.Some? then line.value else summary, ClientEmailDomain(u, x, summary))
  {
  }

  /** The client's company is the company line, unless that has no words or says that none is given. */
  lemma CompanyIsItsLine(u: Alphabet, summary: string, title: string, nothing: string)
    requires title == "Компания" && nothing == "не указано"
    ensures var line := Field(u, summary, title);
            ClientCompany(u, summary)
            == if line.Some? && Key(u, line.value) != "" && Key(u, line.value) != Key(u, nothing) then line.value
               else ""
  {
    KeyOfNothing(u);
  }

  /** The name of a domain is its last label but one. */
  lemma NameOfDomain(prefix: string, name: string, last: string)
    requires '.' !in name && '.' !in last
    ensures DomainName(name + ['.'] + last) == name
    ensures DomainName(prefix + ['.'] + (name + ['.'] + last)) == name
    ensures DomainName(last) == ""
  {
    SplitConcat(name, '.', last);
    SplitPlain(name, '.');
    SplitPlain(last, '.');
    SplitConcat(prefix, '.', name + ['.'] + last);
  }

  // ---- addresses in the transcript ----

  /** The route of the first of these domains that has one. */
  ghost predicate IsFirstRouted(u: Alphabet, table: Table, domains: seq<string>, r: Option<ClientRoute>) {
    if r.None? then forall i :: 0 <= i < |domains| ==> BestDomain(table, LowerAll(u, domains[i])).None?
    else exists i: nat :: FirstRoutedAt(u, table, domains, r, i)
  }

  ghost predicate FirstRoutedAt(u: Alphabet, table: Table, domains: seq<string>, r: Option<ClientRoute>, i: nat) {
    && i < |domains| && BestDomain(table, LowerAll(u, domains[i])) == r
    && forall j :: 0 <= j < i ==> BestDomain(table, LowerAll(u, domains[j])).None?
  }

  lemma NextRouted(u: Alphabet, table: Table, domains: seq<string>, r: Option<ClientRoute>)
    requires domains != [] && BestDomain(table, LowerAll(u, domains[0])).None?
    requires IsFirstRouted(u, table, domains[1..], r)
    ensures IsFirstRouted(u, table, domains, r)
  {
    var rest := domains[1..];
    assert forall i :: 0 < i < |domains| ==> domains[i] == rest[i - 1];
    if r.Some? {
      var i: nat :| FirstRoutedAt(u, table, rest, r, i);
      assert FirstRoutedAt(u, table, domains, r, i + 1);
    }
  }

  lemma {:induction false} FirstRoutedIsFirst(u: Alphabet, table: Table, domains: seq<string>)
    ensures IsFirstRouted(u, table, domains, FirstRouted(u, table, domains))
  {
    if domains == [] {
    } else if BestDomain(table, LowerAll(u, domains[0])).None? {
      FirstRoutedIsFirst(u, table, domains[1..]);
      NextRouted(u, table, domains, FirstRouted(u, table, domains[1..]));
    } else {
      assert FirstRoutedAt(u, table, domains, FirstRouted(u, table, domains), 0);
    }
  }

  lemma {:induction false} FirstRoutedConcat(u: Alphabet, table: Table, a: seq<string>, b: seq<string>)
    ensures FirstRouted(u, table, a + b)
            == if FirstRouted(u, table, a).Some? then FirstRouted(u, table, a) else FirstRouted(u, table, b)
  {
    if a == [] {
      assert a + b == b;
    } else {
      assert (a + b)[1..] == a[1..] + b;
      FirstRoutedConcat(u, table, a[1..], b);
    }
  }

  /** Plain addresses come first: a glued one counts only if no plain one has a route. */
  lemma PlainAddressesFirst(u: Alphabet, x: Addresses, table: Table, text: string)
    ensures var r := TranscriptRoute(u, x, table, text);
            || IsFirstRouted(u, table, x.plain(text), r)
            || (IsFirstRouted(u, table, x.plain(text), None) && IsFirstRouted(u, table, x.glued(text), r))
    ensures (exists d :: d in x.plain(text) && BestDomain(table, LowerAll(u, d)).Some?) ==>
              IsFirstRouted(u, table, x.plain(text), TranscriptRoute(u, x, table, text))
  {
    FirstRoutedConcat(u, table, x.plain(text), x.glued(text));
    FirstRoutedIsFirst(u, table, x.plain(text));
    FirstRoutedIsFirst(u, table, x.glued(text));
  }

  // ---- the rules ----

  lemma NothingToFind(u: Alphabet, x: Addresses, table: Table)
    requires FindsNothingInNothing(x)
    ensures ClientEmailDomain(u, x, "") == "" && ClientCompany(u, "") == ""
    ensures TranscriptRoute(u, x, table, "") == None
    ensures BestDomain(table, "") == None && BestCompany(u, table, "") == None && DomainName("") == ""
  {
    assert Lines("") == [];
    LongestIsLongest(DomainEntries(table.clientRoutes), DomainTest(""));
    KeyOfNothing(u);
  }

  lemma KeyOfNothing(u: Alphabet)
    ensures Key(u, "") == ""
  {
    assert Replace(Replace("", {'ё'}, 'е'), QUOTES, ' ') == "";
  }

  lemma {:induction false} EmptyTable(u: Alphabet, x: Addresses, table: Table, domains: seq<string>)
    requires table.clientRoutes == []
    ensures FirstRouted(u, table, domains) == None
  {
    if domains != [] {
      EmptyTable(u, x, table, domains[1..]);
    }
  }

  lemma FirstOfFour(a: (Option<ClientRoute>, string), b: (Option<ClientRoute>, string),
                    c: (Option<ClientRoute>, string), d: (Option<ClientRoute>, string))
    ensures FirstAnswer([a, b, c, d])
            == if a.0.Some? then a else if b.0.Some? then b else if c.0.Some? then c else if d.0.Some? then d
               else (None, "")
  {
    assert [d][1..] == [] && [c, d][1..] == [d] && [b, c, d][1..] == [c, d] && [a, b, c, d][1..] == [b, c, d];
    assert FirstAnswer([d]) == if d.0.Some? then d else (None, "");
    assert FirstAnswer([c, d]) == if c.0.Some? then c else FirstAnswer([d]);
    assert FirstAnswer([b, c, d]) == if b.0.Some? then b else FirstAnswer([c, d]);
  }

  /** No rule has an answer. */
  predicate Silent(rules: seq<(Option<ClientRoute>, string)>) {
    forall i :: 0 <= i < |rules| ==> rules[i].0.None?
  }

  lemma SilentWithoutRoutes(u: Alphabet, x: Addresses, table: Table, summary: string, transcript: string)
    requires table.clientRoutes == []
    ensures Silent(Rules(u, x, table, summary, transcript))
  {
    EmptyTable(u, x, table, x.plain(transcript) + x.glued(transcript));
  }

  lemma SilentWithoutText(u: Alphabet, x: Addresses, table: Table, nothing: string)
    requires FindsNothingInNothing(x) && nothing == ""
    ensures Silent(Rules(u, x, table, nothing, nothing))
  {
    NothingToFind(u, x, table);
  }

  /** The early exits change no answer: matching is the plain chain of the four rules. */
  lemma MatchClientIsChain(u: Alphabet, x: Addresses, table: Table, summary: string, transcript: string)
    requires FindsNothingInNothing(x)
    ensures MatchClient(u, x, table, summary, transcript) == FirstAnswer(Rules(u, x, table, summary, transcript))
  {
    var rules := Rules(u, x, table, summary, transcript);
    FirstOfFour(rules[0], rules[1], rules[2], rules[3]);
    assert rules == [rules[0], rules[1], rules[2], rules[3]];
    if table.clientRoutes == [] {
      SilentWithoutRoutes(u, x, table, summary, transcript);
    } else if summary == "" && transcript == "" {
      SilentWithoutText(u, x, table, summary);
    } else if ClientEmailDomain(u, x, summary) == "" {
      NothingToFind(u, x, table);
    }
  }

  /** What the summary does not decide, an address in the transcript does. */
  lemma TranscriptDecides(u: Alphabet, x: Addresses, table: Table, summary: string, transcript: string)
    requires FindsNothingInNothing(x)
    requires BestDomain(table, ClientEmailDomain(u, x, summary)).None?
    requires BestCompany(u, table, ClientCompany(u, summary)).None?
    requires BestCompany(u, table, DomainName(ClientEmailDomain(u, x, summary))).None?
    ensures var r := TranscriptRoute(u, x, table, transcript);
            MatchClient(u, x, table, summary, transcript) == if r.Some? then (r, "transcript") else (None, "")
  {
    MatchClientIsChain(u, x, table, summary, transcript);
    var rules := Rules(u, x, table, summary, transcript);
    assert rules == [rules[0], rules[1], rules[2], rules[3]];
    FirstOfFour(rules[0], rules[1], rules[2], rules[3]);
  }

  /** Once the summary has given an answer, the transcript has no say. */
  lemma TranscriptIsLastResort(u: Alphabet, x: Addresses, table: Table, summary: string, t: string, t': string)
    requires FindsNothingInNothing(x)
    requires MatchClient(u, x, table, summary, t).1 in {"domain", "company"}
    ensures MatchClient(u, x, table, summary, t') == MatchClient(u, x, table, summary, t)
  {
    MatchClientIsChain(u, x, table, summary, t);
    MatchClientIsChain(u, x, table, summary, t');
    var rules, rules' := Rules(u, x, table, summary, t), Rules(u, x, table, summary, t');
    assert rules == [rules[0], rules[1], rules[2], rules[3]] && rules' == [rules[0], rules[1], rules[2], rules'[3]];
    FirstOfFour(rules[0], rules[1], rules[2], rules[3]);
    FirstOfFour(rules[0], rules[1], rules[2], rules'[3]);
    assert |"domain"| == 6 && |"company"| == 7 && |"transcript"| == 10;
  }
}
