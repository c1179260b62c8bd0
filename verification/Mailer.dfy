/** Who gets the mail about a call, and why. */
module Mailer {
  import opened Prelude
  import opened Text
  import opened Normalize
  import opened Routing
  import RoutingFile
  import RoutingFacts
  import S3io
  import UrlFacts
  import Quoting

  /**
    What the rules depend on. `fileRules` are the EMAIL_ROUTES followed by the table's own file
    routes; `glob` is the match of a file name against a pattern.
   */
  datatype Settings = Settings(
    alphabet: Alphabet,
    addresses: Addresses,
    table: Table,
    fileRules: seq<(string, seq<string>)>,
    emailTo: seq<string>,
    glob: (string, string) -> bool)

  datatype RoutingDecision = RoutingDecision(
    to: seq<string>, rule: string, company: string, domain: string, route: string)

  /** The recording's file name. */
  function FileName(path: string): string {
    S3io.Name(Quoting.Unquote(path))
  }

  /** The first of the rules whose pattern matches the name. */
  function FirstFileRule(m: Settings, name: string, rules: seq<(string, seq<string>)>): Option<(string, seq<string>)> {
    if rules == [] then None
    else if m.glob(name, rules[0].0) then Some(rules[0])
    else FirstFileRule(m, name, rules[1..])
  }

  /** `dict(names).get(pattern, pattern)`: a later label for the same pattern wins. */
  function RuleName(names: seq<(string, string)>, pattern: string): string {
    if names == [] then pattern
    else if names[|names| - 1].0 == pattern then names[|names| - 1].1
    else RuleName(names[..|names| - 1], pattern)
  }

  /** The rule by file name: none for a job without a URL, an error for a URL that cannot be split. */
  function FileRule(m: Settings, url: string): Result<Option<(string, seq<string>)>, S3io.UrlError> {
    if url == "" then Ok(None)
    else
      match S3io.UrlParse(url)
      case Raised(e) => Raised(e)
      case Ok(parsed) => Ok(FirstFileRule(m, FileName(parsed.path), m.fileRules))
  }

  /** The recipients when no rule applies. */
  function Fallback(m: Settings): seq<string> {
    if m.table.default != [] then m.table.default else m.emailTo
  }

  /** `route_message`. */
  function RouteMessage(m: Settings, url: string, summary: string, transcript: string):
    Result<RoutingDecision, S3io.UrlError>
  {
    var company, domain := ClientCompany(m.alphabet, summary), ClientEmailDomain(m.alphabet, m.addresses, summary);
    match FileRule(m, url)
    case Raised(e) => Raised(e)
    case Ok(Some(found)) =>
      Ok(RoutingDecision(found.1, "file", company, domain, RuleName(m.table.fileRouteNames, found.0)))
    case Ok(None) =>
      var (route, rule) := MatchClient(m.alphabet, m.addresses, m.table, summary, transcript);
      if route.Some? then Ok(RoutingDecision(route.value.to, rule, company, domain, route.value.name))
      else Ok(RoutingDecision(Fallback(m), "default", company, domain, ""))
  }

  /** `recipients_for`: what `build_message` writes into the To header. */
  function RecipientsFor(m: Settings, url: string, summary: string, transcript: string):
    Result<seq<string>, S3io.UrlError>
  {
    match RouteMessage(m, url, summary, transcript)
    case Raised(e) => Raised(e)
    case Ok(decision) => Ok(decision.to)
  }

  /** The rules have an answer exactly for the URLs that can be split. */
  lemma AnswersForUrls(m: Settings, url: string, summary: string, transcript: string)
    ensures RouteMessage(m, url, summary, transcript).Ok? <==> url == "" || S3io.UrlParse(url).Ok?
  {
    assert FileRule(m, url).Ok? <==> url == "" || S3io.UrlParse(url).Ok?;
  }

  // ---- the order of the rules ----

  /** The rule at `i` matches the name and none before it does. */
  ghost predicate FirstMatchAt(m: Settings, name: string, rules: seq<(string, seq<string>)>, i: nat) {
    && i < |rules| && m.glob(name, rules[i].0)
    && forall j :: 0 <= j < i ==> !m.glob(name, rules[j].0)
  }

  lemma {:induction false} FirstFileRuleIsFirst(m: Settings, name: string, rules: seq<(string, seq<string>)>)
    ensures var r := FirstFileRule(m, name, rules);
            if r.None? then forall i :: 0 <= i < |rules| ==> !m.glob(name, rules[i].0)
            else exists i: nat :: FirstMatchAt(m, name, rules, i) && rules[i] == r.value
  {
    if rules == [] {
    } else if m.glob(name, rules[0].0) {
      assert FirstMatchAt(m, name, rules, 0);
    } else {
      FirstFileRuleIsFirst(m, name, rules[1..]);
      var r := FirstFileRule(m, name, rules[1..]);
      if r.Some? {
        var i: nat :| FirstMatchAt(m, name, rules[1..], i) && rules[1..][i] == r.value;
        forall j | 0 <= j < i + 1 ensures !m.glob(name, rules[j].0) {
          if j > 0 {
            assert rules[1..][j - 1] == rules[j];
          }
        }
        assert FirstMatchAt(m, name, rules, i + 1);
      } else {
        forall i | 0 <= i < |rules| ensures !m.glob(name, rules[i].0) {
          if i > 0 {
            assert rules[1..][i - 1] == rules[i];
          }
        }
      }
    }
  }

  /** The label of a file rule is the last one given for its pattern, or the pattern itself. */
  lemma {:induction false} RuleNameIsLast(names: seq<(string, string)>, pattern: string)
    ensures var name := RuleName(names, pattern);
            || (name == pattern && forall j :: 0 <= j < |names| ==> names[j].0 != pattern)
            || exists i :: 0 <= i < |names| && names[i] == (pattern, name)
                           && forall j :: i < j < |names| ==> names[j].0 != pattern
  {
    if names != [] && names[|names| - 1].0 != pattern {
      var init := names[..|names| - 1];
      RuleNameIsLast(init, pattern);
      if i :| 0 <= i < |init| && init[i] == (pattern, RuleName(init, pattern))
              && forall j :: i < j < |init| ==> init[j].0 != pattern {
        assert names[i] == (pattern, RuleName(names, pattern));
      }
    } else if names != [] {
      assert names[|names| - 1] == (pattern, RuleName(names, pattern));
    }
  }

  ghost predicate NameMatched(m: Settings, path: string) {
    exists i :: 0 <= i < |m.fileRules| && m.glob(FileName(path), m.fileRules[i].0)
  }

  lemma ClientRuleNames(m: Settings, summary: string, transcript: string, a: string, b: string, c: string)
    requires a == "domain" && b == "company" && c == "transcript"
    ensures var (route, rule) := MatchClient(m.alphabet, m.addresses, m.table, summary, transcript);
            route.Some? ==> rule == a || rule == b || rule == c
  {
  }

  lemma RuleWords()
    ensures "file" != "domain" && "file" != "company" && "file" != "transcript" && "file" != "default"
    ensures "default" != "domain" && "default" != "company" && "default" != "transcript"
  {
    assert |"file"| == 4 && |"domain"| == 6 && |"company"| == 7 && |"transcript"| == 10 && |"default"| == 7;
    assert "default"[0] == 'd' && "company"[0] == 'c';
  }

  /**
    The rules in order. A file rule applies exactly when some pattern matches the file name; then
    the first such pattern decides, and the texts have no say. Otherwise the client's route
    decides, and the default mailbox takes only what neither knows.
   */
  lemma RulesInOrder(m: Settings, url: string, summary: string, transcript: string, parsed: S3io.Parsed)
    requires S3io.UrlParse(url) == Ok(parsed)
    ensures var d, client := RouteMessage(m, url, summary, transcript).value,
                             MatchClient(m.alphabet, m.addresses, m.table, summary, transcript);
            && RouteMessage(m, url, summary, transcript).Ok?
            && (d.rule == "file" <==> url != "" && NameMatched(m, parsed.path))
            && (d.rule == "file" ==> exists i: nat ::
                  FirstMatchAt(m, FileName(parsed.path), m.fileRules, i) && d.to == m.fileRules[i].1
                  && d.route == RuleName(m.table.fileRouteNames, m.fileRules[i].0))
            && (d.rule != "file" && client.0.Some? ==>
                  d.rule == client.1 && d.to == client.0.value.to && d.route == client.0.value.name)
            && (d.rule == "default" <==> !(url != "" && NameMatched(m, parsed.path)) && client.0.None?)
            && (d.rule == "default" ==>
                  d.to == (if m.table.default == [] then m.emailTo else m.table.default) && d.route == "")
            // what was recognized is reported whichever rule decides
            && d.company == ClientCompany(m.alphabet, summary)
            && d.domain == ClientEmailDomain(m.alphabet, m.addresses, summary)
  {
    RuleWords();
    ClientRuleNames(m, summary, transcript, "domain", "company", "transcript");
    FirstFileRuleIsFirst(m, FileName(parsed.path), m.fileRules);
  }

  /** The name the file rules look at is the last part of the key, also when the URL has it quoted. */
  lemma FileNameOfKey(bucket: string, key: string)
    requires S3io.BucketName(bucket)
    ensures var parsed := S3io.UrlParse(S3io.ObjectUrl(bucket, key));
            parsed.Ok? && FileName(parsed.value.path) == UrlFacts.Last(UrlFacts.Parts(Split(key, '/')))
  {
    S3io.QuotedHostChars(key);
    S3io.ParseObjectUrl(bucket, Quoting.Quote(key));
    S3io.QuoteMark('/');
    Quoting.QuoteConcat(['/'], key);
    Quoting.UnquoteQuote(['/'] + key);
    UrlFacts.NameIsLastPart(['/'] + key);
    FirstPartIsEmpty(key);
    assert "/" + Quoting.Quote(key) == Quoting.Quote(['/'] + key);
  }

  lemma FirstPartIsEmpty(key: string)
    ensures UrlFacts.Parts(Split(['/'] + key, '/')) == UrlFacts.Parts(Split(key, '/'))
  {
    assert (['/'] + key)[1..] == key;
    EmptyPartFirst(Split(key, '/'));
  }

  lemma {:induction false} EmptyPartFirst(pieces: seq<string>)
    ensures UrlFacts.Parts([""] + pieces) == UrlFacts.Parts(pieces)
  {
    if pieces == [] {
      UrlFacts.PartsSnoc([], "");
      assert [""] + pieces == [] + [""];
    } else {
      var init, last := pieces[..|pieces| - 1], pieces[|pieces| - 1];
      EmptyPartFirst(init);
      UrlFacts.PartsSnoc([""] + init, last);
      assert [""] + pieces == ([""] + init) + [last] && pieces == init + [last];
      UrlFacts.PartsSnoc(init, last);
    }
  }

  /** A failure notice has no texts, so it goes by its file name or to the default mailbox. */
  lemma FailureNoticeGoesByFileOrDefault(m: Settings, url: string, nothing: string)
    requires nothing == "" && RouteMessage(m, url, nothing, nothing).Ok?
    ensures RouteMessage(m, url, nothing, nothing).value.rule in {"file", "default"}
  {
  }

  // ---- recipients ----

  /** Every mailbox list of the configuration names somebody. */
  ghost predicate Staffed(m: Settings) {
    && (forall r :: r in m.fileRules ==> r.1 != [])
    && (forall r :: r in m.table.clientRoutes ==> r.to != [])
    && Fallback(m) != []
  }

  lemma {:induction false} FileRuleListed(m: Settings, name: string, rules: seq<(string, seq<string>)>)
    ensures var r := FirstFileRule(m, name, rules); r.Some? ==> r.value in rules
  {
    if rules != [] && !m.glob(name, rules[0].0) {
      FileRuleListed(m, name, rules[1..]);
    }
  }

  lemma {:induction false} OwnersAreRoutes(routes: seq<ClientRoute>)
    ensures forall e :: e in DomainEntries(routes) ==> e.owner in routes
    ensures forall e :: e in CompanyEntries(routes) ==> e.owner in routes
  {
    if routes != [] {
      OwnersAreRoutes(routes[..|routes| - 1]);
    }
  }

  lemma BestAreRoutes(u: Alphabet, table: Table, domain: string, name: string)
    ensures BestDomain(table, domain).Some? ==> BestDomain(table, domain).value in table.clientRoutes
    ensures BestCompany(u, table, name).Some? ==> BestCompany(u, table, name).value in table.clientRoutes
  {
    OwnersAreRoutes(table.clientRoutes);
    RoutingFacts.LongestIsIn(DomainEntries(table.clientRoutes), DomainTest(domain));
    RoutingFacts.LongestIsIn(CompanyEntries(table.clientRoutes), CompanyTest(Key(u, name)));
  }

  lemma {:induction false} FirstRoutedIsRoute(u: Alphabet, table: Table, domains: seq<string>)
    ensures var r := FirstRouted(u, table, domains); r.Some? ==> r.value in table.clientRoutes
  {
    if domains != [] {
      BestAreRoutes(u, table, LowerAll(u, domains[0]), "");
      FirstRoutedIsRoute(u, table, domains[1..]);
    }
  }

  /** The client's route is one of the table's. */
  lemma MatchedIsRoute(m: Settings, summary: string, transcript: string)
    ensures var route := MatchClient(m.alphabet, m.addresses, m.table, summary, transcript).0;
            route.Some? ==> route.value in m.table.clientRoutes
  {
    var domain := ClientEmailDomain(m.alphabet, m.addresses, summary);
    BestAreRoutes(m.alphabet, m.table, domain, ClientCompany(m.alphabet, summary));
    BestAreRoutes(m.alphabet, m.table, domain, DomainName(domain));
    FirstRoutedIsRoute(m.alphabet, m.table, m.addresses.plain(transcript) + m.addresses.glued(transcript));
  }

  /** One of the configured lists of addresses. */
  ghost predicate Mailbox(m: Settings, to: seq<string>) {
    || (exists r :: r in m.fileRules && r.1 == to)
    || (exists r :: r in m.table.clientRoutes && r.to == to)
    || to == Fallback(m)
  }

  /** Every mail goes to one of them. */
  lemma RecipientsAreAMailbox(m: Settings, url: string, summary: string, transcript: string)
    requires RecipientsFor(m, url, summary, transcript).Ok?
    ensures Mailbox(m, RecipientsFor(m, url, summary, transcript).value)
  {
    if url != "" {
      FileRuleListed(m, FileName(S3io.UrlParse(url).value.path), m.fileRules);
    }
    MatchedIsRoute(m, summary, transcript);
  }

  /** No mail is without a recipient when no configured list is empty. */
  lemma EveryMailHasARecipient(m: Settings, url: string, summary: string, transcript: string)
    requires Staffed(m) && RecipientsFor(m, url, summary, transcript).Ok?
    ensures RecipientsFor(m, url, summary, transcript).value != []
  {
    RecipientsAreAMailbox(m, url, summary, transcript);
  }

  lemma {:induction false} RoutesAreStaffed(u: Alphabet, routes: seq<RoutingFile.RawRoute>)
    requires RoutingFile.RouteShapes(u, routes)
    ensures forall r :: r in RoutingFile.BuiltRoutes(u, routes) ==> r.to != []
  {
    if routes != [] {
      RoutesAreStaffed(u, routes[..|routes| - 1]);
    }
  }

  lemma FileRoutesAreStaffed(u: Alphabet, list: seq<RoutingFile.RawFileRoute>)
    requires RoutingFile.FileRouteShapes(u, list)
    ensures forall r :: r in RoutingFile.BuiltFileRoutes(u, list) ==> r.1 != []
  {
    forall r | r in RoutingFile.BuiltFileRoutes(u, list) ensures r.1 != [] {
      var i :| 0 <= i < |list| && RoutingFile.BuiltFileRoute(u, list[i]) == r;
      assert list[i] in list && RoutingFile.FileRouteShape(u, list[i]);
    }
  }

  lemma DefaultIsStaffed(u: Alphabet, value: RoutingFile.RawList)
    ensures var to := RoutingFile.AddressesIn(u, value); to.Some? ==> !value.Missing? && to.value != []
  {
  }

  /** An accepted routing file brings no empty list. */
  lemma AcceptedFileIsStaffed(m: Settings, file: RoutingFile.RawFile, own: seq<(string, seq<string>)>)
    requires RoutingFile.Accepted(m.alphabet, file) && m.table == RoutingFile.BuiltTable(m.alphabet, file)
    requires m.fileRules == own + m.table.fileRoutes && forall r :: r in own ==> r.1 != []
    requires file.default.Missing? ==> m.emailTo != []
    ensures Staffed(m)
  {
    RoutesAreStaffed(m.alphabet, file.routes);
    FileRoutesAreStaffed(m.alphabet, file.fileRoutes);
    DefaultIsStaffed(m.alphabet, file.default);
  }

  // ---- the recorded recipients ----

  /** `[a for a in emailed_to.split(",") if a]`. */
  function ReadRecipients(column: string): seq<string> {
    RoutingFile.NonEmpty(Split(column, ','))
  }

  lemma {:induction false} NonEmptyKeepsAll(items: seq<string>)
    requires forall s :: s in items ==> s != ""
    ensures RoutingFile.NonEmpty(items) == items
  {
    if items != [] {
      assert items[0] in items && forall s :: s in items[1..] ==> s in items;
      NonEmptyKeepsAll(items[1..]);
      assert items == [items[0]] + items[1..];
    }
  }

  /** The recipients column gives the recipients back exactly when none of them is empty or has a comma in it. */
  lemma RecipientsReadBack(to: seq<string>)
    ensures ReadRecipients(Join(to, ',')) == to <==> forall a :: a in to ==> a != "" && ',' !in a
  {
    if forall a :: a in to ==> a != "" && ',' !in a {
      if to == [] {
        SplitPlain("", ',');
        assert RoutingFile.NonEmpty([""]) == [];
      } else {
        SplitJoin(to, ',');
        NonEmptyKeepsAll(to);
      }
    }
  }

  /** The characters of an address stand for themselves when it is stripped. */
  lemma StripIdle(u: Alphabet, s: string)
    requires s != "" && !u.space(s[0]) && !u.space(s[|s| - 1])
    ensures Strip(u, s) == s
  {
  }

  /** A file with one such address as its default is accepted. */
  lemma OneAddressFile(u: Alphabet, file: RoutingFile.RawFile, address: string)
    requires file == RoutingFile.RawFile(false, RoutingFile.One(address), [], [])
    requires RoutingFile.ValidAddress(address) && !u.space(address[0]) && !u.space(address[|address| - 1])
    ensures RoutingFile.Accepted(u, file) && RoutingFile.BuiltTable(u, file).default == [address]
    ensures RoutingFile.BuiltTable(u, file).clientRoutes == []
  {
    StripIdle(u, address);
    assert RoutingFile.StripAll(u, [address]) == [address];
    assert address in [address];
  }

  lemma TwoPieces(a: string, b: string)
    requires a != "" && b != "" && ',' !in a && ',' !in b
    ensures ReadRecipients(a + [','] + b) == [a, b]
  {
    SplitAt(a, ',', b);
    SplitPlain(b, ',');
    NonEmptyKeepsAll([a, b]);
  }

  /** Without file rules and client routes everything goes to the default mailbox. */
  lemma DefaultTakesAll(m: Settings, url: string, summary: string, transcript: string)
    requires m.fileRules == [] && m.table.clientRoutes == [] && S3io.UrlParse(url).Ok?
    ensures RecipientsFor(m, url, summary, transcript) == Ok(Fallback(m))
  {
    assert FileRule(m, url) == Ok(None);
  }

  /**
    An accepted routing file for which the recipients column of every call reads back as two
    addresses although there is one recipient: its default is a single address with a comma in it.
   */
  lemma CommaReadsBackAsTwo(m: Settings, file: RoutingFile.RawFile, a: string, b: string, url: string, summary: string,
                            transcript: string)
    requires a != "" && b != "" && ',' !in a && ',' !in b && RoutingFile.ValidAddress(a + [','] + b)
    requires !m.alphabet.space(a[0]) && !m.alphabet.space(b[|b| - 1])
    requires file == RoutingFile.RawFile(false, RoutingFile.One(a + [','] + b), [], [])
    requires m.table == RoutingFile.BuiltTable(m.alphabet, file) && m.fileRules == [] && S3io.UrlParse(url).Ok?
    ensures RoutingFile.Accepted(m.alphabet, file)
    ensures var to := RecipientsFor(m, url, summary, transcript);
            to == Ok([a + [','] + b]) && ReadRecipients(Join(to.value, ',')) == [a, b]
  {
    OneAddressFile(m.alphabet, file, a + [','] + b);
    DefaultTakesAll(m, url, summary, transcript);
    TwoPieces(a, b);
  }

  /** Such an address: "a,b@c". */
  lemma CommaAddress(a: string, b: string)
    requires a == "a" && b == "b@c"
    ensures RoutingFile.ValidAddress(a + [','] + b) && ',' !in a && ',' !in b
  {
    assert a + [','] + b == ['a', ',', 'b', '@', 'c'];
  }
}
