/** The e-mail routing table and how a client is looked up in it. */
module Routing {
  import opened Prelude
  import opened Text
  import opened Normalize
  import opened Matching
  import opened Lookup

  datatype Client = Client(name: string, aliases: seq<string>, domains: seq<string>)

  /** `companies` holds keys; `domains` those of the clients and the bare ones. */
  datatype ClientRoute = ClientRoute(
    to: seq<string>, domains: seq<string>, companies: seq<string>, clients: seq<Client>, name: string)

  datatype Table = Table(
    fileRoutes: seq<(string, seq<string>)>,
    clientRoutes: seq<ClientRoute>,
    default: seq<string>,
    fileRouteNames: seq<(string, string)>)

  /** The two regular expressions for addresses: the domain parts they match in a text, in order. */
  datatype Addresses = Addresses(plain: string -> seq<string>, glued: string -> seq<string>)

  /** An empty text holds no address. */
  ghost predicate FindsNothingInNothing(x: Addresses) {
    x.plain("") == [] && x.glued("") == []
  }

  // ---- the entries of a table, in the order in which they are searched ----

  function EntriesOf(keys: seq<string>, owner: ClientRoute): seq<Entry<ClientRoute>> {
    seq(|keys|, i requires 0 <= i < |keys| => Entry(keys[i], owner))
  }

  function DomainEntries(routes: seq<ClientRoute>): seq<Entry<ClientRoute>> {
    if routes == [] then []
    else DomainEntries(routes[..|routes| - 1]) + EntriesOf(routes[|routes| - 1].domains, routes[|routes| - 1])
  }

  function CompanyEntries(routes: seq<ClientRoute>): seq<Entry<ClientRoute>> {
    if routes == [] then []
    else CompanyEntries(routes[..|routes| - 1]) + EntriesOf(routes[|routes| - 1].companies, routes[|routes| - 1])
  }

  function Owner(best: Option<Entry<ClientRoute>>): Option<ClientRoute> {
    if best.Some? then Some(best.value.owner) else None
  }

  function DomainTest(domain: string): string -> bool {
    d => DomainMatches(domain, d)
  }

  function CompanyTest(company: string): string -> bool {
    c => CompanyMatches(company, c)
  }

  function BestDomain(table: Table, domain: string): Option<ClientRoute> {
    Owner(Longest(DomainEntries(table.clientRoutes), DomainTest(domain)))
  }

  function BestCompany(u: Alphabet, table: Table, name: string): Option<ClientRoute> {
    var company := Key(u, name);
    if company == "" then None
    else Owner(Longest(CompanyEntries(table.clientRoutes), CompanyTest(company)))
  }

  // ---- the loops ----

  /** The most specific route whose domain is the given one or its parent. */
  method RouteForDomain(table: Table, domain: string) returns (best: Option<ClientRoute>)
    ensures best == BestDomain(table, domain)
  {
    ghost var matches := DomainTest(domain);
    ghost var found: Option<Entry<ClientRoute>> := None;
    var bestLength := 0;
    best := None;
    var routes := table.clientRoutes;
    for i := 0 to |routes|
      invariant found == Longest(DomainEntries(routes[..i]), matches)
      invariant best == Owner(found) && bestLength == Length(found)
    {
      var route := routes[i];
      ghost var before := DomainEntries(routes[..i]);
      assert before + EntriesOf(route.domains, route)[..0] == before;
      for j := 0 to |route.domains|
        invariant found == Longest(before + EntriesOf(route.domains, route)[..j], matches)
        invariant best == Owner(found) && bestLength == Length(found)
      {
        var d := route.domains[j];
        NextEntry(before, EntriesOf(route.domains, route), j, matches);
        if DomainMatches(domain, d) && |d| > bestLength {
          best, bestLength := Some(route), |d|;
          found := Some(Entry(d, route));
        }
      }
      assert EntriesOf(route.domains, route)[..|route.domains|] == EntriesOf(route.domains, route);
      assert routes[..i + 1][..i] == routes[..i];
    }
    assert routes[..|routes|] == routes;
  }

  /** One step of the search through a route's list. */
  lemma NextEntry<T>(before: seq<Entry<T>>, list: seq<Entry<T>>, j: nat, matches: string -> bool)
    requires j < |list|
    ensures var best := Longest(before + list[..j], matches);
            Longest(before + list[..j + 1], matches)
            == if matches(list[j].key) && |list[j].key| > Length(best) then Some(list[j]) else best
  {
    assert before + list[..j + 1] == (before + list[..j]) + [list[j]];
    LongestSnoc(before + list[..j], list[j], matches);
  }

  /** The route of a company name: whole words, the longest alias wins. */
  method RouteForCompany(u: Alphabet, table: Table, name: string) returns (best: Option<ClientRoute>)
    ensures best == BestCompany(u, table, name)
  {
    var company := Key(u, name);
    if company == "" {
      return None;
    }
    ghost var matches := CompanyTest(company);
    ghost var found: Option<Entry<ClientRoute>> := None;
    var bestLength := 0;
    best := None;
    var routes := table.clientRoutes;
    for i := 0 to |routes|
      invariant found == Longest(CompanyEntries(routes[..i]), matches)
      invariant best == Owner(found) && bestLength == Length(found)
    {
      var route := routes[i];
      ghost var before := CompanyEntries(routes[..i]);
      assert before + EntriesOf(route.companies, route)[..0] == before;
      for j := 0 to |route.companies|
        invariant found == Longest(before + EntriesOf(route.companies, route)[..j], matches)
        invariant best == Owner(found) && bestLength == Length(found)
      {
        var c := route.companies[j];
        NextEntry(before, EntriesOf(route.companies, route), j, matches);
        if CompanyMatches(company, c) && |c| > bestLength {
          best, bestLength := Some(route), |c|;
          found := Some(Entry(c, route));
        }
      }
      assert EntriesOf(route.companies, route)[..|route.companies|] == EntriesOf(route.companies, route);
      assert routes[..i + 1][..i] == routes[..i];
    }
    assert routes[..|routes|] == routes;
  }

  // ---- what the summary says ----

  predicate LineBreak(c: char) {
    c in {'\n', '\r', 0x0B as char, 0x0C as char, 0x1C as char, 0x1D as char, 0x1E as char, 0x85 as char,
          0x2028 as char, 0x2029 as char}
  }

  function LineLength(s: string): (n: nat)
    ensures n <= |s| && (n < |s| ==> LineBreak(s[n]))
  {
    if s == [] || LineBreak(s[0]) then 0 else 1 + LineLength(s[1..])
  }

  /** `s.splitlines()`. */
  function Lines(s: string): seq<string>
    decreases |s|
  {
    if s == [] then []
    else
      var n := LineLength(s);
      var after := if n + 1 < |s| && s[n] == '\r' && s[n + 1] == '\n' then n + 2 else n + 1;
      [s[..n]] + if after < |s| then Lines(s[after..]) else []
  }

  /** What follows the first colon. */
  function AfterColon(line: string): string {
    if line == [] then "" else if line[0] == ':' then line[1..] else AfterColon(line[1..])
  }

  function FirstField(u: Alphabet, lines: seq<string>, prefix: string): Option<string> {
    if lines == [] then None
    else if StartsWith(LowerAll(u, Strip(u, lines[0])), prefix) then Some(Strip(u, AfterColon(lines[0])))
    else FirstField(u, lines[1..], prefix)
  }

  /** The value of a "Label: ..." line of the summary. */
  function Field(u: Alphabet, summary: string, title: string): Option<string> {
    FirstField(u, Lines(summary), LowerAll(u, title) + ":")
  }

  function First(found: seq<string>): string {
    if found == [] then "" else found[0]
  }

  /** The domain of the client's address: from the «Почта:» line if there is one, else from the whole summary. */
  function ClientEmailDomain(u: Alphabet, x: Addresses, summary: string): string {
    var text := Field(u, summary, "Почта").GetOr(summary);
    LowerAll(u, First(if x.plain(text) != [] then x.plain(text) else x.glued(text)))
  }

  function ClientCompany(u: Alphabet, summary: string): string {
    var value := Field(u, summary, "Компания").GetOr("");
    if Key(u, value) == "" || Key(u, value) == Key(u, "не указано") then "" else value
  }

  /** The name of a domain: the label before the last. */
  function DomainName(domain: string): string {
    var labels := Split(domain, '.');
    if |labels| >= 2 then labels[|labels| - 2] else ""
  }

  // ---- the client ----

  /** The route of the first of these domains that has one. */
  function FirstRouted(u: Alphabet, table: Table, domains: seq<string>): Option<ClientRoute> {
    if domains == [] then None
    else
      var route := BestDomain(table, LowerAll(u, domains[0]));
      if route.Some? then route else FirstRouted(u, table, domains[1..])
  }

  function TranscriptRoute(u: Alphabet, x: Addresses, table: Table, text: string): Option<ClientRoute> {
    FirstRouted(u, table, x.plain(text) + x.glued(text))
  }

  method RouteInTranscript(u: Alphabet, x: Addresses, table: Table, text: string) returns (route: Option<ClientRoute>)
    ensures route == TranscriptRoute(u, x, table, text)
  {
    var all := [x.plain(text), x.glued(text)];
    var list := x.plain(text) + x.glued(text);
    var passed := 0;
    for r := 0 to 2
      invariant passed == if r == 0 then 0 else if r == 1 then |all[0]| else |list|
      invariant FirstRouted(u, table, list) == FirstRouted(u, table, list[passed..])
    {
      for k := 0 to |all[r]|
        invariant passed == k + if r == 0 then 0 else |all[0]|
        invariant FirstRouted(u, table, list) == FirstRouted(u, table, list[passed..])
      {
        assert list[passed] == all[r][k];
        assert list[passed..][1..] == list[passed + 1..];
        route := RouteForDomain(table, LowerAll(u, all[r][k]));
        if route.Some? {
          return;
        }
        passed := passed + 1;
      }
    }
    route := None;
  }

  /** The first of the answers there are, with the name of its rule. */
  function Answer(byDomain: Option<ClientRoute>, byCompany: Option<ClientRoute>, byName: Option<ClientRoute>,
                  byTranscript: Option<ClientRoute>): (a: (Option<ClientRoute>, string))
    ensures a.0.Some? ==> a.1 == "domain" || a.1 == "company" || a.1 == "transcript"
    ensures a.0.None? <==> byDomain.None? && byCompany.None? && byName.None? && byTranscript.None?
  {
    if byDomain.Some? then (byDomain, "domain")
    else if byCompany.Some? then (byCompany, "company")
    else if byName.Some? then (byName, "company")
    else if byTranscript.Some? then (byTranscript, "transcript")
    else (None, "")
  }

  /** The route of the client and the rule that found it. */
  function MatchClient(u: Alphabet, x: Addresses, table: Table, summary: string, transcript: string):
    (Option<ClientRoute>, string)
  {
    if table.clientRoutes == [] || (summary == "" && transcript == "") then (None, "")
    else
      var domain := ClientEmailDomain(u, x, summary);
      Answer(if domain != "" then BestDomain(table, domain) else None,
             BestCompany(u, table, ClientCompany(u, summary)),
             if domain != "" then BestCompany(u, table, DomainName(domain)) else None,
             TranscriptRoute(u, x, table, transcript))
  }

  /** The first rule that has an answer. */
  function FirstAnswer(answers: seq<(Option<ClientRoute>, string)>): (Option<ClientRoute>, string) {
    if answers == [] then (None, "") else if answers[0].0.Some? then answers[0] else FirstAnswer(answers[1..])
  }

  /** The four rules in order, without shortcuts. */
  function Rules(u: Alphabet, x: Addresses, table: Table, summary: string, transcript: string):
    seq<(Option<ClientRoute>, string)>
  {
    var domain := ClientEmailDomain(u, x, summary);
    [(BestDomain(table, domain), "domain"),
     (BestCompany(u, table, ClientCompany(u, summary)), "company"),
     (BestCompany(u, table, DomainName(domain)), "company"),
     (TranscriptRoute(u, x, table, transcript), "transcript")]
  }
}
