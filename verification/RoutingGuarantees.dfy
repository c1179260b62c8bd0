/** What an accepted routing file guarantees of the table built from it. */
module RoutingGuarantees {
  import opened Prelude
  import opened Normalize
  import opened Lookup
  import opened Routing
  import opened RoutingFacts
  import opened RoutingFile

  function EntryKeys(entries: seq<Entry<ClientRoute>>): seq<string> {
    seq(|entries|, i requires 0 <= i < |entries| => entries[i].key)
  }

  lemma EntryKeysConcat(entries: seq<Entry<ClientRoute>>, keys: seq<string>, owner: ClientRoute)
    ensures EntryKeys(entries + EntriesOf(keys, owner)) == EntryKeys(entries) + keys
  {
  }

  lemma DistinctEntries(entries: seq<Entry<ClientRoute>>)
    requires Distinct(EntryKeys(entries))
    ensures DistinctKeys(entries)
  {
    forall i, j | 0 <= i < j < |entries| ensures entries[i].key != entries[j].key {
      assert EntryKeys(entries)[i] != EntryKeys(entries)[j];
    }
  }

  /** The table searches exactly the domains of the file, in the order of the file. */
  lemma {:induction false} DomainsSearched(u: Alphabet, routes: seq<RawRoute>)
    ensures EntryKeys(DomainEntries(BuiltRoutes(u, routes))) == FileDomains(u, routes)
  {
    if routes != [] {
      var init, last := routes[..|routes| - 1], routes[|routes| - 1];
      DomainsSearched(u, init);
      var built := BuiltRoutes(u, routes);
      assert built[..|built| - 1] == BuiltRoutes(u, init);
      EntryKeysConcat(DomainEntries(BuiltRoutes(u, init)), RouteDomains(u, last), built[|built| - 1]);
    }
  }

  lemma KeysInBoth(a: seq<Claim>, b: seq<Claim>)
    ensures KeysIn(a + b) == KeysIn(a) + KeysIn(b)
  {
  }

  /** A key that another route has claimed is not claimed by this one. */
  lemma NotClaimedElsewhere(others: seq<Claim>, own: seq<Claim>, i: nat, k: string)
    requires Consistent(others + own) && Elsewhere(others, i) && Within(own, i) && k in KeysIn(own)
    ensures k !in KeysIn(others)
  {
    var n :| 0 <= n < |own| && KeysIn(own)[n] == k;
    assert own[n] in own && (others + own)[|others| + n] == own[n];
    forall m | 0 <= m < |others| ensures KeysIn(others)[m] != k {
      assert others[m] in others && (others + own)[m] == others[m];
    }
  }

  /** In a consistent file the new keys of a route are its new keys by itself. */
  lemma NewKeysOfRoute(others: seq<Claim>, own: seq<Claim>, i: nat)
    requires Consistent(others + own) && Elsewhere(others, i) && Within(own, i)
    ensures NewKeys({}, KeysIn(others + own)) == NewKeys({}, KeysIn(others)) + NewKeys({}, KeysIn(own))
  {
    KeysInBoth(others, own);
    var listed := set k | k in KeysIn(others);
    NewKeysConcat({}, KeysIn(others), KeysIn(own), listed);
    forall k | k in KeysIn(own) ensures k !in listed {
      NotClaimedElsewhere(others, own, i, k);
    }
    NewKeysSame(listed, {}, KeysIn(own));
  }

  /** The table searches exactly the keys claimed in the file, each once, in the order of their first claims. */
  lemma {:induction false} CompaniesSearched(u: Alphabet, routes: seq<RawRoute>)
    requires GoodClaims(FileClaims(u, routes))
    ensures EntryKeys(CompanyEntries(BuiltRoutes(u, routes))) == NewKeys({}, KeysIn(FileClaims(u, routes)))
  {
    if routes != [] {
      var init, last, i := routes[..|routes| - 1], routes[|routes| - 1], |routes| - 1;
      GoodPrefix([], [], FileClaims(u, init), FileClaims(u, routes));
      CompaniesSearched(u, init);
      FileClaimsElsewhere(u, init, i);
      RouteClaimsWithin(u, last, i);
      NewKeysOfRoute(FileClaims(u, init), RouteClaims(u, last, i), i);
      var built := BuiltRoutes(u, routes);
      assert built[..i] == BuiltRoutes(u, init);
      EntryKeysConcat(CompanyEntries(BuiltRoutes(u, init)), built[i].companies, built[i]);
    }
  }

  /** No domain and no company key is listed twice in a table that was accepted. */
  lemma AcceptedIsWellFormed(u: Alphabet, file: RawFile)
    requires Accepted(u, file)
    ensures WellFormed(BuiltTable(u, file))
  {
    var routes := BuiltRoutes(u, file.routes);
    DomainsSearched(u, file.routes);
    CompaniesSearched(u, file.routes);
    NewKeysAreNew({}, KeysIn(FileClaims(u, file.routes)));
    DistinctEntries(DomainEntries(routes));
    DistinctEntries(CompanyEntries(routes));
  }

  // ---- self-routing ----

  lemma {:induction false} BuiltAt(u: Alphabet, routes: seq<RawRoute>, i: nat)
    requires i < |routes|
    ensures BuiltRoutes(u, routes)[i] == BuiltRoute(u, routes[i], i)
  {
    RouteStep(u, routes, i);
    BuiltPrefix(u, routes, i + 1);
  }

  lemma {:induction false} BuiltPrefix(u: Alphabet, routes: seq<RawRoute>, n: nat)
    requires n <= |routes|
    ensures BuiltRoutes(u, routes[..n]) <= BuiltRoutes(u, routes)
  {
    if n == |routes| {
      assert routes[..n] == routes;
    } else {
      var init := routes[..|routes| - 1];
      BuiltPrefix(u, init, n);
      assert init[..n] == routes[..n];
    }
  }

  lemma {:induction false} ClaimsOfRoute(u: Alphabet, routes: seq<RawRoute>, i: nat, c: Claim)
    requires i < |routes| && c in RouteClaims(u, routes[i], i)
    ensures c in FileClaims(u, routes)
  {
    if i < |routes| - 1 {
      ClaimsOfRoute(u, routes[..|routes| - 1], i, c);
    }
  }

  /** Whether a route lists the name: as a client's name, as an alias or as a bare company. */
  ghost predicate ListsCompany(u: Alphabet, r: RawRoute, name: string) {
    || (exists c :: c in r.clients && name in ClientNames(u, c))
    || name in StringsIn(u, r.companies).GetOr([])
  }

  ghost predicate ListsDomain(u: Alphabet, r: RawRoute, raw: string) {
    || (exists c :: c in r.clients && raw in StringsIn(u, c.domains).GetOr([]))
    || raw in StringsIn(u, r.domains).GetOr([])
  }

  lemma ClaimOf(u: Alphabet, names: seq<string>, place: Place, name: string)
    requires name in names
    ensures Claim(Key(u, name), place) in ClaimsOf(KeysOf(u, names), place)
  {
    var j :| 0 <= j < |names| && names[j] == name;
    assert ClaimsOf(KeysOf(u, names), place)[j] == Claim(Key(u, name), place);
  }

  lemma {:induction false} ClientClaimed(u: Alphabet, clients: seq<RawClient>, i: nat, c: RawClient, name: string)
    requires c in clients && name in ClientNames(u, c)
    ensures Claim(Key(u, name), AtClient(i, Strip(u, c.name))) in ClaimsUpTo(u, clients, i)
  {
    var init, last := clients[..|clients| - 1], clients[|clients| - 1];
    if c == last {
      ClaimOf(u, ClientNames(u, c), AtClient(i, Strip(u, c.name)), name);
    } else {
      ClientClaimed(u, init, i, c, name);
    }
  }

  /** A listed name is claimed for its route. */
  lemma Claimed(u: Alphabet, r: RawRoute, i: nat, name: string) returns (c: Claim)
    requires ListsCompany(u, r, name)
    ensures c.key == Key(u, name) && c in RouteClaims(u, r, i)
  {
    if client :| client in r.clients && name in ClientNames(u, client) {
      ClientClaimed(u, r.clients, i, client, name);
      c := Claim(Key(u, name), AtClient(i, Strip(u, client.name)));
    } else {
      ClaimOf(u, StringsIn(u, r.companies).GetOr([]), AtRoute(i), name);
      c := Claim(Key(u, name), AtRoute(i));
    }
  }

  /** The key of a listed name is among the keys of its route. */
  lemma KeyListed(u: Alphabet, r: RawRoute, i: nat, name: string) returns (j: nat)
    requires ListsCompany(u, r, name)
    ensures j < |BuiltRoute(u, r, i).companies| && BuiltRoute(u, r, i).companies[j] == Key(u, name)
  {
    var c := Claimed(u, r, i, name);
    var claims := RouteClaims(u, r, i);
    var n :| 0 <= n < |claims| && claims[n] == c;
    assert KeysIn(claims)[n] == c.key;
    var keys := NewKeys({}, KeysIn(claims));
    NewKeysAreNew({}, KeysIn(claims));
    assert c.key in keys;
    j :| 0 <= j < |keys| && keys[j] == c.key;
  }

  lemma KeyNotEmpty(u: Alphabet, file: RawFile, i: nat, name: string)
    requires Accepted(u, file) && i < |file.routes| && ListsCompany(u, file.routes[i], name)
    ensures Key(u, name) != ""
  {
    var c := Claimed(u, file.routes[i], i, name);
    ClaimsOfRoute(u, file.routes, i, c);
  }

  /**
    Every listed company - client name, alias or bare, also a spelling that was skipped as a repetition - and every
    other spelling of it is sent to the route that lists it.
   */
  lemma CompaniesRouteToThemselves(u: Alphabet, file: RawFile, i: nat, name: string, spelling: string)
    requires Accepted(u, file) && i < |file.routes|
    requires ListsCompany(u, file.routes[i], name) && Key(u, spelling) == Key(u, name)
    ensures BestCompany(u, BuiltTable(u, file), spelling) == Some(BuiltRoute(u, file.routes[i], i))
  {
    var j := KeyListed(u, file.routes[i], i, name);
    KeyNotEmpty(u, file, i, name);
    BuiltAt(u, file.routes, i);
    AcceptedIsWellFormed(u, file);
    CompanySelfRouting(u, BuiltTable(u, file), i, j, spelling);
  }

  lemma DomainIn(u: Alphabet, raws: seq<string>, raw: string)
    requires raw in raws
    ensures Domain(u, raw) in DomainsOf(u, raws)
  {
    var j :| 0 <= j < |raws| && raws[j] == raw;
    assert DomainsOf(u, raws)[j] == Domain(u, raw);
  }

  lemma {:induction false} ClientDomainIn(u: Alphabet, clients: seq<RawClient>, c: RawClient, raw: string)
    requires c in clients && raw in StringsIn(u, c.domains).GetOr([])
    ensures Domain(u, raw) in DomainsUpTo(u, clients)
  {
    var init, last := clients[..|clients| - 1], clients[|clients| - 1];
    if c == last {
      DomainIn(u, StringsIn(u, c.domains).GetOr([]), raw);
    } else {
      ClientDomainIn(u, init, c, raw);
    }
  }

  lemma DomainListedIn(u: Alphabet, r: RawRoute, raw: string)
    requires ListsDomain(u, r, raw)
    ensures Domain(u, raw) in RouteDomains(u, r)
  {
    if c :| c in r.clients && raw in StringsIn(u, c.domains).GetOr([]) {
      ClientDomainIn(u, r.clients, c, raw);
    } else {
      DomainIn(u, StringsIn(u, r.domains).GetOr([]), raw);
    }
  }

  lemma {:induction false} RouteDomainInFile(u: Alphabet, routes: seq<RawRoute>, i: nat, d: string)
    requires i < |routes| && d in RouteDomains(u, routes[i])
    ensures d in FileDomains(u, routes)
  {
    if i < |routes| - 1 {
      RouteDomainInFile(u, routes[..|routes| - 1], i, d);
    }
  }

  /** Every listed domain, of a client or bare, is sent to its own route. */
  lemma DomainsRouteToThemselves(u: Alphabet, file: RawFile, i: nat, raw: string)
    requires Accepted(u, file) && i < |file.routes| && ListsDomain(u, file.routes[i], raw)
    ensures BestDomain(BuiltTable(u, file), Domain(u, raw)) == Some(BuiltRoute(u, file.routes[i], i))
  {
    DomainListedIn(u, file.routes[i], raw);
    RouteDomainInFile(u, file.routes, i, Domain(u, raw));
    var list := RouteDomains(u, file.routes[i]);
    var j :| 0 <= j < |list| && list[j] == Domain(u, raw);
    BuiltAt(u, file.routes, i);
    AcceptedIsWellFormed(u, file);
    DomainNotEmpty(list[j]);
    DomainSelfRouting(BuiltTable(u, file), i, j);
  }

  lemma DomainNotEmpty(d: string)
    requires IsDomain(d)
    ensures d != ""
  {
  }

  // ---- from the summary to the team ----

  lemma TableNotEmpty(u: Alphabet, file: RawFile, i: nat)
    requires i < |file.routes|
    ensures BuiltTable(u, file).clientRoutes != []
  {
  }

  /** A summary with a client's listed domain goes to that client's team, whatever else it or the transcript says. */
  lemma ListedAddressDecides(u: Alphabet, x: Addresses, file: RawFile, i: nat, raw: string,
                             summary: string, transcript: string)
    requires Accepted(u, file) && i < |file.routes| && ListsDomain(u, file.routes[i], raw)
    requires summary != "" && ClientEmailDomain(u, x, summary) == Domain(u, raw)
    ensures MatchClient(u, x, BuiltTable(u, file), summary, transcript)
            == (Some(BuiltRoute(u, file.routes[i], i)), "domain")
  {
    DomainsRouteToThemselves(u, file, i, raw);
    TableNotEmpty(u, file, i);
    DomainListedIn(u, file.routes[i], raw);
    RouteDomainInFile(u, file.routes, i, Domain(u, raw));
    DomainNotEmpty(Domain(u, raw));
  }

  /** A summary without a known domain goes by its company line: any spelling of a listed name leads to its team. */
  lemma ListedCompanyDecides(u: Alphabet, x: Addresses, file: RawFile, i: nat, name: string,
                             summary: string, transcript: string)
    requires Accepted(u, file) && i < |file.routes| && ListsCompany(u, file.routes[i], name)
    requires summary != "" && Key(u, ClientCompany(u, summary)) == Key(u, name)
    requires BestDomain(BuiltTable(u, file), ClientEmailDomain(u, x, summary)) == None
    ensures MatchClient(u, x, BuiltTable(u, file), summary, transcript)
            == (Some(BuiltRoute(u, file.routes[i], i)), "company")
  {
    CompaniesRouteToThemselves(u, file, i, name, ClientCompany(u, summary));
    TableNotEmpty(u, file, i);
  }

  /**
    Without a known domain and a company line the name of the address's domain is looked up: delain.ru, or
    mail.delain.ru, goes to the team that lists a spelling of "delain".
   */
  lemma DomainNameDecides(u: Alphabet, x: Addresses, file: RawFile, i: nat, listed: string, prefix: string,
                          name: string, last: string, summary: string, transcript: string, title: string)
    requires Accepted(u, file) && i < |file.routes| && ListsCompany(u, file.routes[i], listed)
    requires Key(u, name) == Key(u, listed) && '.' !in name && '.' !in last
    requires summary != "" && title == "Компания" && Field(u, summary, title).None?
    requires var domain := ClientEmailDomain(u, x, summary);
             && (domain == name + ['.'] + last || domain == prefix + ['.'] + (name + ['.'] + last))
             && BestDomain(BuiltTable(u, file), domain) == None
    ensures MatchClient(u, x, BuiltTable(u, file), summary, transcript)
            == (Some(BuiltRoute(u, file.routes[i], i)), "company")
  {
    CompanyIsItsLine(u, summary, title, "не указано");
    KeyOfNothing(u);
    assert BestCompany(u, BuiltTable(u, file), "") == None;
    NameOfDomain(prefix, name, last);
    CompaniesRouteToThemselves(u, file, i, listed, name);
    TableNotEmpty(u, file, i);
  }

  /** Spellings that differ only in look-alike letters lead to the same team, in every accepted table. */
  lemma LookalikesRouteAlike(u: Alphabet, file: RawFile, i: nat, name: string, spelling: string)
    requires Accepted(u, file) && Lawful(u) && Alike(u, LowerAll(u, name), LowerAll(u, spelling))
    requires NoLegalForm(u, name) && NoLegalForm(u, spelling)
    ensures BestCompany(u, BuiltTable(u, file), name) == BestCompany(u, BuiltTable(u, file), spelling)
    ensures i < |file.routes| && ListsCompany(u, file.routes[i], name) ==>
              BestCompany(u, BuiltTable(u, file), spelling) == Some(BuiltRoute(u, file.routes[i], i))
  {
    LookalikesAreForgotten(u, name, spelling);
    if i < |file.routes| && ListsCompany(u, file.routes[i], name) {
      CompaniesRouteToThemselves(u, file, i, name, spelling);
    }
  }

  // ---- rejection ----

  /** A company listed for two teams, in whatever spellings, is refused. */
  lemma CompanyForTwoTeamsIsRefused(u: Alphabet, file: RawFile, i: nat, j: nat, name: string, other: string)
    requires i < j < |file.routes| && ListsCompany(u, file.routes[i], name) && ListsCompany(u, file.routes[j], other)
    requires Key(u, name) == Key(u, other)
    ensures !Accepted(u, file)
  {
    if Accepted(u, file) {
      var c := Claimed(u, file.routes[i], i, name);
      var d := Claimed(u, file.routes[j], j, other);
      ClaimsOfRoute(u, file.routes, i, c);
      ClaimsOfRoute(u, file.routes, j, d);
      RouteClaimsWithin(u, file.routes[i], i);
      RouteClaimsWithin(u, file.routes[j], j);
      SameKeySamePlace(FileClaims(u, file.routes), c, d);
    }
  }

  lemma SameKeySamePlace(claims: seq<Claim>, c: Claim, d: Claim)
    requires Consistent(claims) && c in claims && d in claims && c.key == d.key
    ensures c.place == d.place
  {
    var m :| 0 <= m < |claims| && claims[m] == c;
    var n :| 0 <= n < |claims| && claims[n] == d;
  }

  // ---- what is not refused ----

  lemma OnePlace(claims: seq<Claim>, place: Place)
    requires forall c :: c in claims ==> c.key != "" && c.place == place
    ensures GoodClaims(claims)
  {
    assert forall i :: 0 <= i < |claims| ==> claims[i] in claims;
  }

  lemma OnceClaimed(u: Alphabet, clients: seq<RawClient>, c: RawClient, i: nat)
    requires clients == [c]
    ensures ClaimsUpTo(u, clients, i) == ClientClaims(u, c, i) && DomainsUpTo(u, clients) == ClientDomains(u, c)
  {
    var none := clients[..0];
    assert none == [];
  }

  lemma TwiceClaimed(u: Alphabet, clients: seq<RawClient>, c: RawClient, i: nat)
    requires clients == [c, c]
    ensures ClaimsUpTo(u, clients, i) == ClientClaims(u, c, i) + ClientClaims(u, c, i)
    ensures DomainsUpTo(u, clients) == ClientDomains(u, c) + ClientDomains(u, c)
  {
    OnceClaimed(u, clients[..1], c, i);
  }

  lemma OneRoute(u: Alphabet, r: RawRoute)
    ensures FileClaims(u, [r]) == RouteClaims(u, r, 0) && FileDomains(u, [r]) == RouteDomains(u, r)
    ensures RouteShapes(u, [r]) <==> RouteShape(u, r)
  {
    assert [r][..0] == [];
  }

  /** A route that lists the same client twice, with all its names, is accepted: the two are one place. */
  lemma RepeatedClientIsAccepted(u: Alphabet, file: RawFile, c: RawClient, to: RawList, name: string)
    requires file == RawFile(false, Missing, [], [RawRoute(false, to, [c, c], Missing, Missing, name)])
    requires ClientShape(u, c) && c.domains.Missing? && AddressesIn(u, to).Some?
    requires forall n :: n in ClientNames(u, c) ==> Key(u, n) != ""
    ensures Accepted(u, file)
  {
    var r := file.routes[0];
    OneRoute(u, r);
    TwiceClaimed(u, r.clients, c, 0);
    var own, place := ClientClaims(u, c, 0), AtClient(0, Strip(u, c.name));
    forall x | x in own ensures x.key != "" && x.place == place {
      var j :| 0 <= j < |own| && own[j] == x;
      assert ClientNames(u, c)[j] in ClientNames(u, c);
    }
    OnePlace(own + own, place);
    assert BareClaims(u, r, 0) == [] && BareDomains(u, r) == [] && ClientDomains(u, c) == [];
    assert RouteClaims(u, r, 0) == own + own && own[0] in own;
  }
}
