/**
  The routing table said straight from the file: which files are accepted, and what stands where in
  the table, entry by entry, without the steps of the parser.
 */
module RoutingMirror {
  import opened Prelude
  import opened Text
  import opened Normalize
  import Matching
  import opened Routing
  import opened RoutingFile
  import RoutingGuarantees

  // ---- what a file says ----

  /** The texts of a list that have something in them besides white space, stripped. */
  function Stripped(u: Alphabet, items: seq<string>): seq<string> {
    if items == [] then []
    else (if Strip(u, items[0]) == "" then [] else [Strip(u, items[0])]) + Stripped(u, items[1..])
  }

  /** A list of texts, or nothing. */
  predicate IsList(raw: RawList) {
    raw.Items? || raw.Missing?
  }

  function Listed(u: Alphabet, raw: RawList): seq<string> {
    if raw.Items? then Stripped(u, raw.items) else []
  }

  /** One address or a list of addresses. */
  function Given(raw: RawList): seq<string> {
    if raw.One? then [raw.text] else if raw.Items? then raw.items else []
  }

  /** At least one address; each, stripped, has an @ that is not at its ends and no blank. */
  predicate GoodAddresses(u: Alphabet, raw: RawList) {
    && Given(raw) != []
    && forall k :: 0 <= k < |Given(raw)| ==>
         var a := Strip(u, Given(raw)[k]);
         a != "" && '@' in a && ' ' !in a && a[0] != '@' && a[|a| - 1] != '@'
  }

  /** The addresses are those of the file, one by one. */
  ghost predicate SameAddresses(u: Alphabet, raw: RawList, to: seq<string>) {
    |to| == |Given(raw)| && forall k :: 0 <= k < |to| ==> to[k] == Strip(u, Given(raw)[k])
  }

  predicate GoodClient(u: Alphabet, c: RawClient) {
    c.isTable && !c.unknownKeys && Strip(u, c.name) != "" && IsList(c.aliases) && IsList(c.domains)
  }

  /** A route needs addresses, and a client, a domain or a company. */
  predicate GoodRoute(u: Alphabet, r: RawRoute) {
    && !r.unknownKeys && GoodAddresses(u, r.to) && IsList(r.domains) && IsList(r.companies)
    && (forall c :: c in r.clients ==> GoodClient(u, c))
    && (r.clients != [] || Listed(u, r.domains) != [] || Listed(u, r.companies) != [])
  }

  predicate GoodFileRoute(u: Alphabet, f: RawFileRoute) {
    !f.unknownKeys && Strip(u, f.pattern) != "" && GoodAddresses(u, f.to)
  }

  /** The domains in a list, in lower case and without an @ before them. */
  function DomainTexts(u: Alphabet, raw: RawList): seq<string> {
    seq(|Listed(u, raw)|, k requires 0 <= k < |Listed(u, raw)| => LStrip(LowerAll(u, Listed(u, raw)[k]), '@'))
  }

  function DomainsOfClients(u: Alphabet, clients: seq<RawClient>): seq<string> {
    if clients == [] then [] else DomainTexts(u, clients[0].domains) + DomainsOfClients(u, clients[1..])
  }

  /** All domains of the file, each as often as it stands there. */
  function DomainsOfRoutes(u: Alphabet, routes: seq<RawRoute>): seq<string> {
    if routes == [] then []
    else DomainsOfClients(u, routes[0].clients) + DomainTexts(u, routes[0].domains) + DomainsOfRoutes(u, routes[1..])
  }

  /** The name or alias is one of a client of the route, or a company by itself; the place says which. */
  ghost predicate NamedAt(u: Alphabet, routes: seq<RawRoute>, name: string, place: Place) {
    && place.route < |routes|
    && var r := routes[place.route];
       if place.AtRoute? then name in Listed(u, r.companies)
       else exists c :: c in r.clients && Strip(u, c.name) == place.name
                        && (name == place.name || name in Listed(u, c.aliases))
  }

  /** Different places name different companies, and each name has a key. */
  ghost predicate OnePlaceEach(u: Alphabet, routes: seq<RawRoute>) {
    && (forall name, place :: NamedAt(u, routes, name, place) ==> Key(u, name) != "")
    && forall name, place, other, elsewhere ::
         NamedAt(u, routes, name, place) && NamedAt(u, routes, other, elsewhere) && place != elsewhere ==>
           Key(u, name) != Key(u, other)
  }

  /** Every entry is well written, no domain stands twice, and no company stands in two places. */
  ghost predicate WellWritten(u: Alphabet, file: RawFile) {
    && !file.unknownKeys && (file.default.Missing? || GoodAddresses(u, file.default))
    && (forall f :: f in file.fileRoutes ==> GoodFileRoute(u, f))
    && (forall r :: r in file.routes ==> GoodRoute(u, r))
    && (forall d :: d in DomainsOfRoutes(u, file.routes) ==> IsDomain(d))
    && (var domains := DomainsOfRoutes(u, file.routes);
        forall i, j :: 0 <= i < j < |domains| ==> domains[i] != domains[j])
    && OnePlaceEach(u, file.routes)
  }

  lemma {:induction false} ListedIs(u: Alphabet, items: seq<string>)
    ensures NonEmpty(StripAll(u, items)) == Stripped(u, items)
  {
    if items != [] {
      ListedIs(u, items[1..]);
      assert StripAll(u, items)[1..] == StripAll(u, items[1..]);
    }
  }

  lemma StringsAre(u: Alphabet, raw: RawList)
    ensures StringsIn(u, raw).Some? <==> IsList(raw)
    ensures StringsIn(u, raw).GetOr([]) == Listed(u, raw)
  {
    if raw.Items? {
      ListedIs(u, raw.items);
    }
  }

  lemma AddressesAre(u: Alphabet, raw: RawList)
    ensures AddressesIn(u, raw).Some? <==> GoodAddresses(u, raw)
    ensures AddressesIn(u, raw).Some? ==> SameAddresses(u, raw, AddressesIn(u, raw).value)
    ensures raw.Missing? ==> AddressesIn(u, raw).None?
  {
    var addresses := StripAll(u, Given(raw));
    if GoodAddresses(u, raw) {
      forall a | a in addresses ensures ValidAddress(a) {
        var k :| 0 <= k < |addresses| && addresses[k] == a;
      }
    } else if Given(raw) != [] {
      var k :| 0 <= k < |addresses| && !ValidAddress(Strip(u, Given(raw)[k]));
      assert addresses[k] in addresses;
    }
  }

  // ---- acceptance ----

  lemma ClientIs(u: Alphabet, c: RawClient)
    ensures ClientShape(u, c) <==> GoodClient(u, c)
  {
    StringsAre(u, c.aliases);
    StringsAre(u, c.domains);
  }

  lemma {:induction false} ClientsClaim(u: Alphabet, clients: seq<RawClient>, i: nat)
    ensures ClaimsUpTo(u, clients, i) == [] <==> clients == []
  {
    if clients != [] {
      assert ClientClaims(u, clients[|clients| - 1], i) != [];
    }
  }

  lemma RouteIs(u: Alphabet, r: RawRoute)
    ensures RouteShape(u, r) <==> GoodRoute(u, r)
  {
    AddressesAre(u, r.to);
    StringsAre(u, r.domains);
    StringsAre(u, r.companies);
    ClientsClaim(u, r.clients, 0);
    forall c ensures ClientShape(u, c) <==> GoodClient(u, c) {
      ClientIs(u, c);
    }
    assert RouteDomains(u, r) == [] <==> DomainsUpTo(u, r.clients) == [] && BareDomains(u, r) == [];
    assert RouteClaims(u, r, 0) == [] <==> ClaimsUpTo(u, r.clients, 0) == [] && BareClaims(u, r, 0) == [];
  }

  lemma {:induction false} RoutesAre(u: Alphabet, routes: seq<RawRoute>)
    ensures RouteShapes(u, routes) <==> forall r :: r in routes ==> GoodRoute(u, r)
  {
    if routes != [] {
      var init, last := routes[..|routes| - 1], routes[|routes| - 1];
      assert routes == init + [last];
      RoutesAre(u, init);
      RouteIs(u, last);
    }
  }

  // ---- domains ----

  lemma DomainsAre(u: Alphabet, raw: RawList)
    ensures DomainsOf(u, StringsIn(u, raw).GetOr([])) == DomainTexts(u, raw)
  {
    StringsAre(u, raw);
  }

  lemma {:induction false} DomainsOfClientsSnoc(u: Alphabet, clients: seq<RawClient>, c: RawClient)
    ensures DomainsOfClients(u, clients + [c]) == DomainsOfClients(u, clients) + DomainTexts(u, c.domains)
  {
    if clients == [] {
      assert [c][1..] == [] && [] + [c] == [c];
    } else {
      assert (clients + [c])[1..] == clients[1..] + [c];
      DomainsOfClientsSnoc(u, clients[1..], c);
      Associative(DomainTexts(u, clients[0].domains), DomainsOfClients(u, clients[1..]), DomainTexts(u, c.domains));
    }
  }

  lemma {:induction false} DomainsOfClientsAre(u: Alphabet, clients: seq<RawClient>)
    ensures DomainsUpTo(u, clients) == DomainsOfClients(u, clients)
  {
    if clients != [] {
      var init, last := clients[..|clients| - 1], clients[|clients| - 1];
      assert clients == init + [last];
      DomainsOfClientsAre(u, init);
      DomainsOfClientsSnoc(u, init, last);
      DomainsAre(u, last.domains);
    }
  }

  lemma {:induction false} DomainsOfRoutesSnoc(u: Alphabet, routes: seq<RawRoute>, r: RawRoute)
    ensures DomainsOfRoutes(u, routes + [r])
            == DomainsOfRoutes(u, routes) + (DomainsOfClients(u, r.clients) + DomainTexts(u, r.domains))
  {
    if routes == [] {
      assert [r][1..] == [] && [] + [r] == [r];
    } else {
      assert (routes + [r])[1..] == routes[1..] + [r];
      DomainsOfRoutesSnoc(u, routes[1..], r);
      Associative(DomainsOfClients(u, routes[0].clients) + DomainTexts(u, routes[0].domains),
                  DomainsOfRoutes(u, routes[1..]), DomainsOfClients(u, r.clients) + DomainTexts(u, r.domains));
    }
  }

  lemma {:induction false} DomainsOfRoutesAre(u: Alphabet, routes: seq<RawRoute>)
    ensures FileDomains(u, routes) == DomainsOfRoutes(u, routes)
  {
    if routes != [] {
      var init, last := routes[..|routes| - 1], routes[|routes| - 1];
      assert routes == init + [last];
      DomainsOfRoutesAre(u, init);
      DomainsOfRoutesSnoc(u, init, last);
      DomainsOfClientsAre(u, last.clients);
      DomainsAre(u, last.domains);
    }
  }

  // ---- companies ----

  /** A name of the file is claimed for its place. */
  lemma NameIsClaimed(u: Alphabet, routes: seq<RawRoute>, name: string, place: Place)
    requires NamedAt(u, routes, name, place)
    ensures Claim(Key(u, name), place) in FileClaims(u, routes)
  {
    var i := place.route;
    var r := routes[i];
    if place.AtRoute? {
      StringsAre(u, r.companies);
      RoutingGuarantees.ClaimOf(u, Listed(u, r.companies), place, name);
    } else {
      var c :| c in r.clients && Strip(u, c.name) == place.name
               && (name == place.name || name in Listed(u, c.aliases));
      StringsAre(u, c.aliases);
      assert ClientNames(u, c) == [Strip(u, c.name)] + Listed(u, c.aliases);
      RoutingGuarantees.ClientClaimed(u, r.clients, i, c, name);
    }
    RoutingGuarantees.ClaimsOfRoute(u, routes, i, Claim(Key(u, name), place));
  }

  lemma {:induction false} RouteOfClaim(u: Alphabet, routes: seq<RawRoute>, c: Claim) returns (i: nat)
    requires c in FileClaims(u, routes)
    ensures i < |routes| && c in RouteClaims(u, routes[i], i)
  {
    i := |routes| - 1;
    if c !in RouteClaims(u, routes[i], i) {
      i := RouteOfClaim(u, routes[..i], c);
    }
  }

  /** And nothing else is. */
  lemma ClaimIsNamed(u: Alphabet, routes: seq<RawRoute>, c: Claim) returns (name: string)
    requires c in FileClaims(u, routes)
    ensures NamedAt(u, routes, name, c.place) && Key(u, name) == c.key
  {
    var i := RouteOfClaim(u, routes, c);
    var r := routes[i];
    if c in BareClaims(u, r, i) {
      StringsAre(u, r.companies);
      name := NameOfKey(u, Listed(u, r.companies), AtRoute(i), c);
    } else {
      var client;
      client, name := NameOfClaim(u, r.clients, i, c);
      StringsAre(u, client.aliases);
      assert ClientNames(u, client) == [Strip(u, client.name)] + Listed(u, client.aliases);
    }
  }

  lemma NamedOnce(u: Alphabet, routes: seq<RawRoute>)
    requires OnePlaceEach(u, routes)
    ensures GoodClaims(FileClaims(u, routes))
  {
    var claims := FileClaims(u, routes);
    forall c | c in claims ensures c.key != "" {
      var name := ClaimIsNamed(u, routes, c);
    }
    forall i, j | 0 <= i < j < |claims| && claims[i].key == claims[j].key ensures claims[i].place == claims[j].place {
      var name := ClaimIsNamed(u, routes, claims[i]);
      var other := ClaimIsNamed(u, routes, claims[j]);
    }
  }

  lemma ClaimedOnce(u: Alphabet, routes: seq<RawRoute>)
    requires GoodClaims(FileClaims(u, routes))
    ensures OnePlaceEach(u, routes)
  {
    forall name, place | NamedAt(u, routes, name, place) ensures Key(u, name) != "" {
      NameIsClaimed(u, routes, name, place);
    }
    forall name, place, other, elsewhere |
      NamedAt(u, routes, name, place) && NamedAt(u, routes, other, elsewhere) && place != elsewhere
      ensures Key(u, name) != Key(u, other)
    {
      PlacesDiffer(u, routes, name, place, other, elsewhere);
    }
  }

  lemma PlacesDiffer(u: Alphabet, routes: seq<RawRoute>, name: string, place: Place, other: string, elsewhere: Place)
    requires Consistent(FileClaims(u, routes)) && place != elsewhere
    requires NamedAt(u, routes, name, place) && NamedAt(u, routes, other, elsewhere)
    ensures Key(u, name) != Key(u, other)
  {
    NameIsClaimed(u, routes, name, place);
    NameIsClaimed(u, routes, other, elsewhere);
    if Key(u, name) == Key(u, other) {
      InOnePlace(FileClaims(u, routes), Claim(Key(u, name), place), Claim(Key(u, other), elsewhere));
    }
  }

  lemma InOnePlace(claims: seq<Claim>, c: Claim, d: Claim)
    requires Consistent(claims) && c in claims && d in claims && c.key == d.key
    ensures c.place == d.place
  {
    var i :| 0 <= i < |claims| && claims[i] == c;
    var j :| 0 <= j < |claims| && claims[j] == d;
    assert i < j || j < i || i == j;
  }

  /** A file is accepted exactly when it is well written. */
  lemma AcceptedIsWellWritten(u: Alphabet, file: RawFile)
    ensures Accepted(u, file) <==> WellWritten(u, file)
  {
    AddressesAre(u, file.default);
    RoutesAre(u, file.routes);
    DomainsOfRoutesAre(u, file.routes);
    if Accepted(u, file) {
      ClaimedOnce(u, file.routes);
    }
    if OnePlaceEach(u, file.routes) {
      NamedOnce(u, file.routes);
    }
    forall f ensures FileRouteShape(u, f) <==> GoodFileRoute(u, f) {
      AddressesAre(u, f.to);
    }
  }

  // ---- the table ----

  ghost predicate SameClient(u: Alphabet, raw: RawClient, c: Client) {
    c.name == Strip(u, raw.name) && c.aliases == Listed(u, raw.aliases) && c.domains == DomainTexts(u, raw.domains)
  }

  /** The route names this company: as a client, as an alias or by itself. */
  ghost predicate Names(u: Alphabet, raw: RawRoute, name: string) {
    || (exists c :: c in raw.clients && (name == Strip(u, c.name) || name in Listed(u, c.aliases)))
    || name in Listed(u, raw.companies)
  }

  /** Its domains are those of its clients in order, then its bare ones. */
  ghost predicate SameRouteDomains(u: Alphabet, raw: RawRoute, r: ClientRoute) {
    r.domains == DomainsOfClients(u, raw.clients) + DomainTexts(u, raw.domains)
  }

  /** It is searched by the keys of the companies it names, each once. */
  ghost predicate SameKeys(u: Alphabet, raw: RawRoute, r: ClientRoute) {
    && Distinct(r.companies)
    && forall key :: key in r.companies <==> exists name :: Names(u, raw, name) && Key(u, name) == key
  }

  /** The `i`-th route, counted from 0. */
  ghost predicate SameRoute(u: Alphabet, raw: RawRoute, i: nat, r: ClientRoute) {
    && SameAddresses(u, raw.to, r.to)
    && r.name == (if Strip(u, raw.name) != "" then Strip(u, raw.name) else "route #" + Decimal(i + 1))
    && |r.clients| == |raw.clients|
    && (forall k :: 0 <= k < |r.clients| ==> SameClient(u, raw.clients[k], r.clients[k]))
    && SameRouteDomains(u, raw, r) && SameKeys(u, raw, r)
  }

  ghost predicate SameRoutes(u: Alphabet, raws: seq<RawRoute>, routes: seq<ClientRoute>) {
    |routes| == |raws| && forall i :: 0 <= i < |raws| ==> SameRoute(u, raws[i], i, routes[i])
  }

  ghost predicate SameFileRoute(u: Alphabet, raw: RawFileRoute, rule: (string, seq<string>), name: (string, string)) {
    var pattern := Strip(u, raw.pattern);
    && rule.0 == pattern && SameAddresses(u, raw.to, rule.1)
    && name == (pattern, if Strip(u, raw.name) != "" then Strip(u, raw.name) else pattern)
  }

  ghost predicate SameFileRoutes(u: Alphabet, raws: seq<RawFileRoute>, rules: seq<(string, seq<string>)>,
                                 names: seq<(string, string)>) {
    |rules| == |names| == |raws| && forall i :: 0 <= i < |raws| ==> SameFileRoute(u, raws[i], rules[i], names[i])
  }

  ghost predicate SameTable(u: Alphabet, file: RawFile, t: Table) {
    && SameRoutes(u, file.routes, t.clientRoutes) && SameFileRoutes(u, file.fileRoutes, t.fileRoutes, t.fileRouteNames)
    && (if file.default.Missing? then t.default == [] else SameAddresses(u, file.default, t.default))
  }

  lemma BuiltClientIs(u: Alphabet, raw: RawClient)
    ensures SameClient(u, raw, BuiltClient(u, raw))
  {
    StringsAre(u, raw.aliases);
    DomainsAre(u, raw.domains);
  }

  lemma RouteDomainsAre(u: Alphabet, raw: RawRoute, i: nat)
    ensures SameRouteDomains(u, raw, BuiltRoute(u, raw, i))
  {
    DomainsOfClientsAre(u, raw.clients);
    DomainsAre(u, raw.domains);
  }

  lemma NamesAre(u: Alphabet, raw: RawRoute, name: string)
    ensures Names(u, raw, name) <==> RoutingGuarantees.ListsCompany(u, raw, name)
  {
    StringsAre(u, raw.companies);
    forall c ensures name in ClientNames(u, c) <==> name == Strip(u, c.name) || name in Listed(u, c.aliases) {
      StringsAre(u, c.aliases);
      assert ClientNames(u, c) == [Strip(u, c.name)] + Listed(u, c.aliases);
    }
  }

  lemma NameOfKey(u: Alphabet, names: seq<string>, place: Place, c: Claim) returns (name: string)
    requires c in ClaimsOf(KeysOf(u, names), place)
    ensures name in names && Key(u, name) == c.key && c.place == place
  {
    var n :| 0 <= n < |names| && ClaimsOf(KeysOf(u, names), place)[n] == c;
    name := names[n];
  }

  lemma {:induction false} NameOfClaim(u: Alphabet, clients: seq<RawClient>, i: nat, c: Claim)
    returns (client: RawClient, name: string)
    requires c in ClaimsUpTo(u, clients, i)
    ensures client in clients && name in ClientNames(u, client) && Key(u, name) == c.key
    ensures c.place == AtClient(i, Strip(u, client.name))
  {
    var init, last := clients[..|clients| - 1], clients[|clients| - 1];
    if c in ClientClaims(u, last, i) {
      client := last;
      name := NameOfKey(u, ClientNames(u, last), AtClient(i, Strip(u, last.name)), c);
    } else {
      client, name := NameOfClaim(u, init, i, c);
    }
  }

  /** Every key of the route is that of a company it names. */
  lemma NamedForKey(u: Alphabet, raw: RawRoute, i: nat, key: string) returns (name: string)
    requires key in KeysIn(RouteClaims(u, raw, i))
    ensures RoutingGuarantees.ListsCompany(u, raw, name) && Key(u, name) == key
  {
    var claims := RouteClaims(u, raw, i);
    var n :| 0 <= n < |claims| && KeysIn(claims)[n] == key;
    assert claims[n] in ClaimsUpTo(u, raw.clients, i) || claims[n] in BareClaims(u, raw, i);
    if claims[n] in ClaimsUpTo(u, raw.clients, i) {
      var client;
      client, name := NameOfClaim(u, raw.clients, i, claims[n]);
    } else {
      name := NameOfKey(u, StringsIn(u, raw.companies).GetOr([]), AtRoute(i), claims[n]);
    }
  }

  lemma KeysAre(u: Alphabet, raw: RawRoute, i: nat)
    ensures SameKeys(u, raw, BuiltRoute(u, raw, i))
  {
    var r, keys := BuiltRoute(u, raw, i), KeysIn(RouteClaims(u, raw, i));
    NewKeysAreNew({}, keys);
    forall key ensures key in r.companies <==> exists name :: Names(u, raw, name) && Key(u, name) == key {
      if key in r.companies {
        var name := NamedForKey(u, raw, i, key);
        NamesAre(u, raw, name);
      }
      if name :| Names(u, raw, name) && Key(u, name) == key {
        NamesAre(u, raw, name);
        var j := RoutingGuarantees.KeyListed(u, raw, i, name);
      }
    }
  }

  lemma BuiltRouteIs(u: Alphabet, raw: RawRoute, i: nat)
    requires GoodAddresses(u, raw.to)
    ensures SameRoute(u, raw, i, BuiltRoute(u, raw, i))
  {
    AddressesAre(u, raw.to);
    RouteDomainsAre(u, raw, i);
    KeysAre(u, raw, i);
    forall k | 0 <= k < |raw.clients| ensures SameClient(u, raw.clients[k], BuiltRoute(u, raw, i).clients[k]) {
      BuiltClientIs(u, raw.clients[k]);
    }
  }

  lemma RoutesAreTheFile(u: Alphabet, routes: seq<RawRoute>)
    requires forall r :: r in routes ==> GoodRoute(u, r)
    ensures SameRoutes(u, routes, BuiltRoutes(u, routes))
  {
    forall i | 0 <= i < |routes| ensures SameRoute(u, routes[i], i, BuiltRoutes(u, routes)[i]) {
      assert routes[i] in routes;
      RoutingGuarantees.BuiltAt(u, routes, i);
      BuiltRouteIs(u, routes[i], i);
    }
  }

  lemma FileRoutesAreTheFile(u: Alphabet, list: seq<RawFileRoute>)
    requires forall f :: f in list ==> GoodFileRoute(u, f)
    ensures SameFileRoutes(u, list, BuiltFileRoutes(u, list), BuiltFileNames(u, list))
  {
    forall i | 0 <= i < |list|
      ensures SameFileRoute(u, list[i], BuiltFileRoutes(u, list)[i], BuiltFileNames(u, list)[i])
    {
      assert list[i] in list;
      AddressesAre(u, list[i].to);
    }
  }

  /** The table of an accepted file holds what the file says, entry by entry. */
  lemma TableIsTheFile(u: Alphabet, file: RawFile)
    requires Accepted(u, file)
    ensures SameTable(u, file, BuiltTable(u, file))
  {
    AcceptedIsWellWritten(u, file);
    AddressesAre(u, file.default);
    RoutesAreTheFile(u, file.routes);
    FileRoutesAreTheFile(u, file.fileRoutes);
  }

  /** `load_routing_file`: a file that cannot be read as TOML is refused, and so is one that is not well written. */
  method LoadRoutingFile(u: Alphabet, read: Option<RawFile>) returns (table: Option<Table>)
    ensures table.Some? <==> read.Some? && WellWritten(u, read.value)
    ensures table.Some? ==> SameTable(u, read.value, table.value)
  {
    if read.None? {
      return None;
    }
    AcceptedIsWellWritten(u, read.value);
    var parsed := ParseRouting(u, read.value);
    if parsed.Raised? {
      return None;
    }
    TableIsTheFile(u, read.value);
    table := Some(parsed.value);
  }

  // ---- what is a domain ----

  /** Small letters, digits and hyphens, with no hyphen at the ends. */
  predicate Label(s: string) {
    && s != "" && s[0] != '-' && s[|s| - 1] != '-'
    && forall c :: c in s ==> 'a' <= c <= 'z' || '0' <= c <= '9' || c == '-'
  }

  lemma LabelIs(s: string)
    ensures IsLabel(s) <==> Label(s)
  {
    assert forall c :: LabelChar(c) <==> 'a' <= c <= 'z' || '0' <= c <= '9' || c == '-';
  }

  /** A domain is a list of at least two labels with dots between them. */
  lemma DomainGrammar(first: string, rest: string)
    requires '.' !in first
    ensures !IsDomain(first)
    ensures IsDomain(first + ['.'] + rest) <==> Label(first) && (IsDomain(rest) || ('.' !in rest && Label(rest)))
  {
    SplitPlain(first, '.');
    Matching.SplitConcat(first, '.', rest);
    var whole, parts := Split(first + ['.'] + rest, '.'), Split(rest, '.');
    assert whole == [first] + parts;
    LabelIs(first);
    LabelIs(rest);
    assert (forall l :: l in whole ==> IsLabel(l)) <==> IsLabel(first) && forall l :: l in parts ==> IsLabel(l);
    if '.' !in rest {
      SplitPlain(rest, '.');
    } else {
      PiecesOfDotted(rest);
    }
  }

  lemma {:induction false} PiecesOfDotted(s: string)
    requires '.' in s
    ensures |Split(s, '.')| >= 2
  {
    if s[0] != '.' {
      PiecesOfDotted(s[1..]);
    }
  }
}
