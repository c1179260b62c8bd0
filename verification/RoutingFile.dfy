/**
  Building the routing table from the routing file: which files are accepted,
  and what the table then lists.

  The file is taken as TOML has already read it; a value of the wrong type is
  `Malformed`, and unknown keys are a flag.
 */
module RoutingFile {
  import opened Prelude
  import opened Text
  import opened Normalize
  import opened Lookup
  import opened Routing

  datatype RawList = Missing | One(text: string) | Items(items: seq<string>) | Malformed

  datatype RawClient = RawClient(isTable: bool, unknownKeys: bool, name: string, aliases: RawList, domains: RawList)

  datatype RawRoute = RawRoute(
    unknownKeys: bool, to: RawList, clients: seq<RawClient>, domains: RawList, companies: RawList, name: string)

  datatype RawFileRoute = RawFileRoute(unknownKeys: bool, pattern: string, to: RawList, name: string)

  datatype RawFile = RawFile(
    unknownKeys: bool, default: RawList, fileRoutes: seq<RawFileRoute>, routes: seq<RawRoute>)

  datatype RoutingError =
    | UnknownKeys | BadAddresses | NotStrings | NotADomain | DomainTwice | EmptyCompany | CompanyTwice
    | NotATable | NoName | NoPattern | NothingListed

  /** The entry a name is listed in: a route, or a client of a route. */
  datatype Place = AtRoute(route: nat) | AtClient(route: nat, name: string)

  /** A company key and where it is listed. */
  datatype Claim = Claim(key: string, place: Place)

  // ---- reading values ----

  predicate ValidAddress(a: string) {
    '@' in a && ' ' !in a && a[0] != '@' && a[|a| - 1] != '@'
  }

  function StripAll(u: Alphabet, items: seq<string>): seq<string> {
    seq(|items|, i requires 0 <= i < |items| => Strip(u, items[i]))
  }

  /** `_addresses`: one address or a non-empty list of them. */
  function AddressesIn(u: Alphabet, value: RawList): Option<seq<string>> {
    var items := if value.One? then [value.text] else if value.Items? then value.items else [];
    var addresses := StripAll(u, items);
    if items == [] || exists a :: a in addresses && !ValidAddress(a) then None else Some(addresses)
  }

  function NonEmpty(items: seq<string>): (kept: seq<string>)
    ensures forall s :: s in kept <==> s in items && s != ""
  {
    if items == [] then [] else (if items[0] == "" then [] else [items[0]]) + NonEmpty(items[1..])
  }

  /** `_strings`: a list of strings, stripped and without the empty ones; a missing list is empty. */
  function StringsIn(u: Alphabet, value: RawList): Option<seq<string>> {
    match value
    case Missing => Some([])
    case Items(items) => Some(NonEmpty(StripAll(u, items)))
    case _ => None
  }

  predicate LabelChar(c: char) {
    'a' <= c <= 'z' || '0' <= c <= '9' || c == '-'
  }

  predicate IsLabel(s: string) {
    s != "" && (forall c :: c in s ==> LabelChar(c)) && s[0] != '-' && s[|s| - 1] != '-'
  }

  /** The regular expression for domains: at least two labels. */
  predicate IsDomain(s: string) {
    var labels := Split(s, '.');
    |labels| >= 2 && forall l :: l in labels ==> IsLabel(l)
  }

  function Domain(u: Alphabet, raw: string): string {
    LStrip(LowerAll(u, raw), '@')
  }

  function DomainsOf(u: Alphabet, raws: seq<string>): seq<string> {
    seq(|raws|, i requires 0 <= i < |raws| => Domain(u, raws[i]))
  }

  function KeysOf(u: Alphabet, raws: seq<string>): seq<string> {
    seq(|raws|, i requires 0 <= i < |raws| => Key(u, raws[i]))
  }

  function ClaimsOf(keys: seq<string>, place: Place): seq<Claim> {
    seq(|keys|, i requires 0 <= i < |keys| => Claim(keys[i], place))
  }

  // ---- what a table lists ----

  /** No value occurs twice. */
  ghost predicate Distinct<T>(list: seq<T>) {
    forall i, j :: 0 <= i < j < |list| ==> list[i] != list[j]
  }

  /** The same key is listed twice only in the same place. */
  ghost predicate Consistent(claims: seq<Claim>) {
    forall i, j :: 0 <= i < j < |claims| && claims[i].key == claims[j].key ==> claims[i].place == claims[j].place
  }

  /** The keys that are new, in order. */
  function NewKeys(seen: set<string>, keys: seq<string>): seq<string>
    decreases keys
  {
    if keys == [] then []
    else if keys[0] in seen then NewKeys(seen, keys[1..])
    else [keys[0]] + NewKeys(seen + {keys[0]}, keys[1..])
  }

  /** Exactly the keys not seen before, each once. */
  lemma {:induction false} NewKeysAreNew(seen: set<string>, keys: seq<string>)
    ensures forall k :: k in NewKeys(seen, keys) <==> k in keys && k !in seen
    ensures Distinct(NewKeys(seen, keys))
    decreases keys
  {
    if keys != [] {
      NewKeysAreNew(if keys[0] in seen then seen else seen + {keys[0]}, keys[1..]);
      assert keys == [keys[0]] + keys[1..];
    }
  }

  /** `after` are the keys seen when those of `a` have been seen too. */
  lemma {:induction false} NewKeysConcat(seen: set<string>, a: seq<string>, b: seq<string>, after: set<string>)
    requires forall k :: k in after <==> k in seen || k in a
    ensures NewKeys(seen, a + b) == NewKeys(seen, a) + NewKeys(after, b)
    decreases a
  {
    if a == [] {
      assert a + b == b;
      assert after == seen;
    } else {
      assert (a + b)[1..] == a[1..] + b;
      assert a == [a[0]] + a[1..];
      NewKeysConcat(if a[0] in seen then seen else seen + {a[0]}, a[1..], b, after);
    }
  }

  lemma NewKeysSnoc(seen: set<string>, a: seq<string>, k: string)
    ensures NewKeys(seen, a + [k]) == NewKeys(seen, a) + if k in seen || k in a then [] else [k]
  {
    NewKeysConcat(seen, a, [k], seen + set x | x in a);
    assert [k][1..] == [];
  }

  lemma {:induction false} NewKeysSame(s: set<string>, t: set<string>, keys: seq<string>)
    requires forall k :: k in keys ==> (k in s <==> k in t)
    ensures NewKeys(s, keys) == NewKeys(t, keys)
    decreases keys
  {
    if keys != [] {
      if keys[0] in s {
        NewKeysSame(s, t, keys[1..]);
      } else {
        NewKeysSame(s + {keys[0]}, t + {keys[0]}, keys[1..]);
      }
    }
  }

  ghost predicate AllDomains(list: seq<string>) {
    forall d :: d in list ==> IsDomain(d)
  }

  /** In a good list every element is a domain that does not occur before. */
  lemma NextDomain(list: seq<string>, n: nat)
    requires n < |list| && GoodDomains(list)
    ensures IsDomain(list[n]) && list[n] !in list[..n]
  {
    assert list[n] in list;
  }

  /** A map with all these keys set to one place. */
  ghost function WithAll(m: map<string, Place>, keys: seq<string>, place: Place): map<string, Place> {
    if keys == [] then m else WithAll(m, keys[..|keys| - 1], place)[keys[|keys| - 1] := place]
  }

  lemma {:induction false} WithAllHas(m: map<string, Place>, keys: seq<string>, place: Place, k: string)
    ensures var w := WithAll(m, keys, place);
            && (k in w <==> k in m || k in keys)
            && (k in w ==> w[k] == if k in keys then place else m[k])
  {
    if keys != [] {
      var init := keys[..|keys| - 1];
      assert keys == init + [keys[|keys| - 1]];
      WithAllHas(m, init, place, k);
    }
  }

  /** None of the keys is taken in another place. */
  ghost predicate NoConflict(m: map<string, Place>, keys: seq<string>, place: Place) {
    forall k :: k in keys && k in m ==> m[k] == place
  }

  ghost predicate Acceptable(m: map<string, Place>, keys: seq<string>, place: Place) {
    "" !in keys && NoConflict(m, keys, place)
  }

  /** What the lists are once the next key is taken. */
  lemma NextKey(m: map<string, Place>, keys: seq<string>, place: Place, i: nat)
    requires i < |keys|
    ensures var w, k, next := WithAll(m, keys[..i], place), keys[i], keys[..i + 1];
            && (k in w <==> k in m || k in keys[..i])
            && WithAll(m, next, place) == w[k := place]
            && NewKeys(m.Keys, next) == NewKeys(m.Keys, keys[..i]) + (if k in w then [] else [k])
            && ClaimsOf(next, place) == ClaimsOf(keys[..i], place) + [Claim(k, place)]
  {
    var next := keys[..i + 1];
    assert next == keys[..i] + [keys[i]] && next[..i] == keys[..i];
    NewKeysSnoc(m.Keys, keys[..i], keys[i]);
    WithAllHas(m, keys[..i], place, keys[i]);
  }

  /** Whether the next key may be taken. */
  lemma NextAcceptable(m: map<string, Place>, keys: seq<string>, place: Place, i: nat)
    requires i < |keys| && Acceptable(m, keys[..i], place)
    ensures var w, k := WithAll(m, keys[..i], place), keys[i];
            if k != "" && (k in w ==> w[k] == place) then Acceptable(m, keys[..i + 1], place)
            else !Acceptable(m, keys, place)
  {
    assert keys[..i + 1] == keys[..i] + [keys[i]];
    WithAllHas(m, keys[..i], place, keys[i]);
    assert keys[i] in keys;
  }

  /** The map knows exactly the claims: where each key is listed. */
  ghost predicate Records(m: map<string, Place>, claims: seq<Claim>) {
    && (forall k :: k in m ==> k != "" && Claim(k, m[k]) in claims)
    && (forall c :: c in claims ==> c.key in m && m[c.key] == c.place)
  }

  ghost predicate NoEmptyKey(claims: seq<Claim>) {
    forall c :: c in claims ==> c.key != ""
  }

  ghost predicate GoodDomains(domains: seq<string>) {
    AllDomains(domains) && Distinct(domains)
  }

  ghost predicate GoodClaims(claims: seq<Claim>) {
    NoEmptyKey(claims) && Consistent(claims)
  }

  /** What may be listed in one file: domains and keys, none of them twice, except a key in one place. */
  ghost predicate Good(domains: seq<string>, claims: seq<Claim>) {
    GoodDomains(domains) && GoodClaims(claims)
  }

  lemma GoodPrefix(domains: seq<string>, more: seq<string>, claims: seq<Claim>, further: seq<Claim>)
    requires domains <= more && claims <= further && Good(more, further)
    ensures Good(domains, claims)
  {
    assert forall i :: 0 <= i < |domains| ==> domains[i] == more[i];
    assert forall i :: 0 <= i < |claims| ==> claims[i] == further[i];
    assert forall d :: d in domains ==> d in more;
    assert forall c :: c in claims ==> c in further;
  }

  lemma RecordsConsistent(m: map<string, Place>, claims: seq<Claim>)
    requires Records(m, claims)
    ensures GoodClaims(claims)
  {
    forall i, j | 0 <= i < j < |claims| && claims[i].key == claims[j].key ensures claims[i].place == claims[j].place {
      assert claims[i] in claims && claims[j] in claims;
    }
  }

  /** The collector's test for a list of names is the condition on the claims. */
  lemma AcceptableIsConsistent(m: map<string, Place>, claims: seq<Claim>, keys: seq<string>, place: Place)
    requires Records(m, claims)
    ensures Acceptable(m, keys, place) <==> GoodClaims(claims + ClaimsOf(keys, place))
  {
    var all := claims + ClaimsOf(keys, place);
    RecordsConsistent(m, claims);
    if Acceptable(m, keys, place) {
      forall i, j | 0 <= i < j < |all| && all[i].key == all[j].key ensures all[i].place == all[j].place {
        ClaimInPlace(m, claims, keys, place, i, j);
      }
      forall c | c in all ensures c.key != "" {
        assert c in claims || c in ClaimsOf(keys, place);
      }
    }
    if Consistent(all) && NoEmptyKey(all) {
      forall k | k in keys ensures k != "" && (k in m ==> m[k] == place) {
        var j :| 0 <= j < |keys| && keys[j] == k;
        assert all[|claims| + j] == Claim(k, place) && all[|claims| + j] in all;
        if k in m {
          var i :| 0 <= i < |claims| && claims[i] == Claim(k, m[k]);
          assert all[i] == claims[i];
        }
      }
    }
  }

  lemma ClaimInPlace(m: map<string, Place>, claims: seq<Claim>, keys: seq<string>, place: Place, i: nat, j: nat)
    requires Records(m, claims) && Acceptable(m, keys, place)
    requires i < j < |claims| + |keys|
    requires var all := claims + ClaimsOf(keys, place); all[i].key == all[j].key
    ensures var all := claims + ClaimsOf(keys, place); all[i].place == all[j].place
  {
    if i < |claims| {
      assert claims[i] in claims;
    }
    if j < |claims| {
      assert claims[j] in claims;
    } else {
      assert keys[j - |claims|] in keys;
    }
  }

  // ---- what clients, routes and files list ----

  predicate ClientShape(u: Alphabet, c: RawClient) {
    && c.isTable && !c.unknownKeys && Strip(u, c.name) != ""
    && StringsIn(u, c.aliases).Some? && StringsIn(u, c.domains).Some?
  }

  ghost predicate ClientShapes(u: Alphabet, clients: seq<RawClient>) {
    forall c :: c in clients ==> ClientShape(u, c)
  }

  function ClientDomains(u: Alphabet, c: RawClient): seq<string> {
    DomainsOf(u, StringsIn(u, c.domains).GetOr([]))
  }

  /** All spellings of a client's name. */
  function ClientNames(u: Alphabet, c: RawClient): seq<string> {
    [Strip(u, c.name)] + StringsIn(u, c.aliases).GetOr([])
  }

  function ClientClaims(u: Alphabet, c: RawClient, i: nat): seq<Claim> {
    ClaimsOf(KeysOf(u, ClientNames(u, c)), AtClient(i, Strip(u, c.name)))
  }

  function DomainsUpTo(u: Alphabet, clients: seq<RawClient>): seq<string> {
    if clients == [] then []
    else DomainsUpTo(u, clients[..|clients| - 1]) + ClientDomains(u, clients[|clients| - 1])
  }

  function ClaimsUpTo(u: Alphabet, clients: seq<RawClient>, i: nat): seq<Claim> {
    if clients == [] then []
    else ClaimsUpTo(u, clients[..|clients| - 1], i) + ClientClaims(u, clients[|clients| - 1], i)
  }

  function BareDomains(u: Alphabet, r: RawRoute): seq<string> {
    DomainsOf(u, StringsIn(u, r.domains).GetOr([]))
  }

  function BareClaims(u: Alphabet, r: RawRoute, i: nat): seq<Claim> {
    ClaimsOf(KeysOf(u, StringsIn(u, r.companies).GetOr([])), AtRoute(i))
  }

  /** The domains of a route: its clients' and the bare ones. */
  function RouteDomains(u: Alphabet, r: RawRoute): seq<string> {
    DomainsUpTo(u, r.clients) + BareDomains(u, r)
  }

  function RouteClaims(u: Alphabet, r: RawRoute, i: nat): seq<Claim> {
    ClaimsUpTo(u, r.clients, i) + BareClaims(u, r, i)
  }

  ghost predicate RouteShape(u: Alphabet, r: RawRoute) {
    && !r.unknownKeys && AddressesIn(u, r.to).Some?
    && ClientShapes(u, r.clients)
    && StringsIn(u, r.domains).Some? && StringsIn(u, r.companies).Some?
    && (RouteDomains(u, r) != [] || RouteClaims(u, r, 0) != [])
  }

  function KeysIn(claims: seq<Claim>): seq<string> {
    seq(|claims|, j requires 0 <= j < |claims| => claims[j].key)
  }

  /** None of the claims is made in route `i`. */
  ghost predicate Elsewhere(claims: seq<Claim>, i: nat) {
    forall c :: c in claims ==> c.place.route != i
  }

  ghost predicate Within(claims: seq<Claim>, i: nat) {
    forall c :: c in claims ==> c.place.route == i
  }

  lemma {:induction false} ClaimsWithin(u: Alphabet, clients: seq<RawClient>, i: nat)
    ensures Within(ClaimsUpTo(u, clients, i), i)
  {
    if clients != [] {
      ClaimsWithin(u, clients[..|clients| - 1], i);
    }
  }

  lemma KeysInConcat(a: seq<Claim>, keys: seq<string>, place: Place)
    ensures KeysIn(a + ClaimsOf(keys, place)) == KeysIn(a) + keys
  {
  }

  /** The keys a place adds to its route are those the route does not list yet: no other route lists them. */
  lemma NewInRoute(m: map<string, Place>, after: map<string, Place>, others: seq<Claim>, own: seq<Claim>,
                   keys: seq<string>, place: Place)
    requires Records(m, others + own) && Records(after, others + own + ClaimsOf(keys, place))
    requires Elsewhere(others, place.route)
    ensures NewKeys({}, KeysIn(own + ClaimsOf(keys, place))) == NewKeys({}, KeysIn(own)) + NewKeys(m.Keys, keys)
  {
    KeysInConcat(own, keys, place);
    var listed := set k | k in KeysIn(own);
    NewKeysConcat({}, KeysIn(own), keys, listed);
    forall k | k in keys ensures k in listed <==> k in m {
      ListedInRoute(m, after, others, own, keys, place, k);
    }
    NewKeysSame(listed, m.Keys, keys);
  }

  lemma ListedInRoute(m: map<string, Place>, after: map<string, Place>, others: seq<Claim>, own: seq<Claim>,
                      keys: seq<string>, place: Place, k: string)
    requires Records(m, others + own) && Records(after, others + own + ClaimsOf(keys, place))
    requires Elsewhere(others, place.route) && k in keys
    ensures k in KeysIn(own) <==> k in m
  {
    var all := others + own + ClaimsOf(keys, place);
    var j :| 0 <= j < |keys| && keys[j] == k;
    assert all[|others + own| + j] == Claim(k, place) && Claim(k, place) in all;
    if k in m {
      var c := Claim(k, m[k]);
      assert c in others + own && c in all;
      assert c in own;
      var n :| 0 <= n < |own| && own[n] == c;
      assert KeysIn(own)[n] == k;
    }
    if k in KeysIn(own) {
      var n :| 0 <= n < |own| && KeysIn(own)[n] == k;
      assert own[n] in others + own;
    }
  }

  function BuiltClients(u: Alphabet, clients: seq<RawClient>): seq<Client> {
    seq(|clients|, j requires 0 <= j < |clients| => BuiltClient(u, clients[j]))
  }

  /** The team label: the route's name, or its number. */
  function RouteName(u: Alphabet, r: RawRoute, i: nat): string {
    if Strip(u, r.name) == "" then "route #" + Decimal(i + 1) else Strip(u, r.name)
  }

  function BuiltRoute(u: Alphabet, r: RawRoute, i: nat): ClientRoute {
    ClientRoute(AddressesIn(u, r.to).GetOr([]), RouteDomains(u, r), NewKeys({}, KeysIn(RouteClaims(u, r, i))),
                BuiltClients(u, r.clients), RouteName(u, r, i))
  }

  /** What the lists are once one more client is taken. */
  lemma NextClient(u: Alphabet, clients: seq<RawClient>, i: nat, j: nat)
    requires j < |clients|
    ensures DomainsUpTo(u, clients[..j + 1]) == DomainsUpTo(u, clients[..j]) + ClientDomains(u, clients[j])
    ensures ClaimsUpTo(u, clients[..j + 1], i) == ClaimsUpTo(u, clients[..j], i) + ClientClaims(u, clients[j], i)
    ensures BuiltClients(u, clients[..j + 1]) == BuiltClients(u, clients[..j]) + [BuiltClient(u, clients[j])]
  {
    assert clients[..j + 1][..j] == clients[..j];
  }

  lemma NewForClient(u: Alphabet, c: RawClient, i: nat, m: map<string, Place>, after: map<string, Place>,
                     others: seq<Claim>, own: seq<Claim>)
    requires Elsewhere(others, i)
    requires Records(m, others + own) && Records(after, others + own + ClientClaims(u, c, i))
    ensures NewKeys({}, KeysIn(own + ClientClaims(u, c, i)))
            == NewKeys({}, KeysIn(own)) + NewKeys(m.Keys, KeysOf(u, ClientNames(u, c)))
  {
    NewInRoute(m, after, others, own, KeysOf(u, ClientNames(u, c)), AtClient(i, Strip(u, c.name)));
  }

  /** If the lists of all clients are good, so are those of the first ones. */
  lemma FirstClientsGood(u: Alphabet, clients: seq<RawClient>, i: nat, n: nat, domains: seq<string>, claims: seq<Claim>)
    requires n <= |clients|
    ensures Good(domains + DomainsUpTo(u, clients), claims + ClaimsUpTo(u, clients, i)) ==>
              Good(domains + DomainsUpTo(u, clients[..n]), claims + ClaimsUpTo(u, clients[..n], i))
  {
    UpToPrefix(u, clients, i, n);
    if Good(domains + DomainsUpTo(u, clients), claims + ClaimsUpTo(u, clients, i)) {
      GoodPrefix(domains + DomainsUpTo(u, clients[..n]), domains + DomainsUpTo(u, clients),
                 claims + ClaimsUpTo(u, clients[..n], i), claims + ClaimsUpTo(u, clients, i));
    }
  }

  lemma ClientStep(u: Alphabet, clients: seq<RawClient>, i: nat, j: nat, domains: seq<string>, claims: seq<Claim>)
    requires j < |clients|
    ensures domains + DomainsUpTo(u, clients[..j + 1])
            == domains + DomainsUpTo(u, clients[..j]) + ClientDomains(u, clients[j])
    ensures claims + ClaimsUpTo(u, clients[..j + 1], i)
            == claims + ClaimsUpTo(u, clients[..j], i) + ClientClaims(u, clients[j], i)
    ensures Good(domains + DomainsUpTo(u, clients), claims + ClaimsUpTo(u, clients, i)) ==>
              Good(domains + DomainsUpTo(u, clients[..j]) + ClientDomains(u, clients[j]),
                   claims + ClaimsUpTo(u, clients[..j], i) + ClientClaims(u, clients[j], i))
    ensures DomainsUpTo(u, clients[..j + 1]) == DomainsUpTo(u, clients[..j]) + ClientDomains(u, clients[j])
    ensures ClaimsUpTo(u, clients[..j + 1], i) == ClaimsUpTo(u, clients[..j], i) + ClientClaims(u, clients[j], i)
    ensures BuiltClients(u, clients[..j + 1]) == BuiltClients(u, clients[..j]) + [BuiltClient(u, clients[j])]
  {
    NextClient(u, clients, i, j);
    FirstClientsGood(u, clients, i, j + 1, domains, claims);
    Associative(domains, DomainsUpTo(u, clients[..j]), ClientDomains(u, clients[j]));
    Associative(claims, ClaimsUpTo(u, clients[..j], i), ClientClaims(u, clients[j], i));
  }

  lemma {:induction false} UpToPrefix(u: Alphabet, clients: seq<RawClient>, i: nat, n: nat)
    requires n <= |clients|
    ensures DomainsUpTo(u, clients[..n]) <= DomainsUpTo(u, clients)
    ensures ClaimsUpTo(u, clients[..n], i) <= ClaimsUpTo(u, clients, i)
  {
    if n == |clients| {
      assert clients[..n] == clients;
    } else {
      var init := clients[..|clients| - 1];
      UpToPrefix(u, init, i, n);
      assert init[..n] == clients[..n];
    }
  }

  /** A route's lists are those of its clients followed by the bare ones. */
  lemma RouteParts(u: Alphabet, r: RawRoute, i: nat, domains: seq<string>, claims: seq<Claim>)
    ensures domains + RouteDomains(u, r) == (domains + DomainsUpTo(u, r.clients)) + BareDomains(u, r)
    ensures claims + RouteClaims(u, r, i) == (claims + ClaimsUpTo(u, r.clients, i)) + BareClaims(u, r, i)
  {
    Associative(domains, DomainsUpTo(u, r.clients), BareDomains(u, r));
    Associative(claims, ClaimsUpTo(u, r.clients, i), BareClaims(u, r, i));
  }

  lemma ClientsOfGoodRoute(domains: seq<string>, bareDomains: seq<string>, claims: seq<Claim>, bareClaims: seq<Claim>)
    ensures Good(domains + bareDomains, claims + bareClaims) ==> Good(domains, claims)
  {
    if Good(domains + bareDomains, claims + bareClaims) {
      GoodPrefix(domains, domains + bareDomains, claims, claims + bareClaims);
    }
  }

  lemma SomethingListed(u: Alphabet, r: RawRoute, i: nat)
    ensures RouteClaims(u, r, 0) == [] <==> NewKeys({}, KeysIn(RouteClaims(u, r, i))) == []
  {
    var keys := KeysIn(RouteClaims(u, r, i));
    NewKeysAreNew({}, keys);
    assert keys != [] ==> keys[0] in NewKeys({}, keys);
    ClaimCount(u, r.clients, i);
    assert |RouteClaims(u, r, i)| == |RouteClaims(u, r, 0)|;
  }

  lemma {:induction false} ClaimCount(u: Alphabet, clients: seq<RawClient>, i: nat)
    ensures |ClaimsUpTo(u, clients, i)| == |ClaimsUpTo(u, clients, 0)|
  {
    if clients != [] {
      ClaimCount(u, clients[..|clients| - 1], i);
    }
  }

  function BuiltClient(u: Alphabet, c: RawClient): Client {
    Client(Strip(u, c.name), StringsIn(u, c.aliases).GetOr([]), ClientDomains(u, c))
  }

  /** What a route takes from its clients: themselves, their domains, and their company keys, each once. */
  function PartsUpTo(u: Alphabet, clients: seq<RawClient>, i: nat): (seq<Client>, seq<string>, seq<string>) {
    (BuiltClients(u, clients), DomainsUpTo(u, clients), NewKeys({}, KeysIn(ClaimsUpTo(u, clients, i))))
  }

  lemma NoParts(u: Alphabet, clients: seq<RawClient>, i: nat)
    ensures clients[..0] == [] && ClientShapes(u, clients[..0]) && PartsUpTo(u, clients[..0], i) == ([], [], [])
    ensures DomainsUpTo(u, clients[..0]) == [] && ClaimsUpTo(u, clients[..0], i) == []
  {
    assert clients[..0] == [];
    assert BuiltClients(u, []) == [] && KeysIn(ClaimsUpTo(u, [], i)) == [] && NewKeys({}, []) == [];
  }

  lemma NextShape(u: Alphabet, clients: seq<RawClient>, j: nat)
    requires j < |clients|
    ensures ClientShapes(u, clients[..j]) && ClientShape(u, clients[j]) ==> ClientShapes(u, clients[..j + 1])
    ensures ClientShapes(u, clients) ==> ClientShape(u, clients[j])
  {
    assert clients[j] in clients && clients[..j + 1] == clients[..j] + [clients[j]];
  }

  // ---- the two name collectors ----

  class Collector {
    const u: Alphabet
    var seenDomains: map<string, Place>
    var seenCompanies: map<string, Place>
    ghost var domains: seq<string>     // all domains taken so far
    ghost var companies: seq<Claim>    // all company keys taken so far

    ghost predicate Valid()
      reads this
    {
      && (forall d :: d in seenDomains <==> d in domains) && GoodDomains(domains)
      && Records(seenCompanies, companies)
    }

    constructor (u: Alphabet)
      ensures this.u == u && Valid() && domains == [] && companies == []
    {
      this.u := u;
      seenDomains, seenCompanies, domains, companies := map[], map[], [], [];
    }

    method TakeDomain(raw: string, place: Place) returns (r: Result<string, RoutingError>)
      requires Valid()
      modifies this
      ensures r.Ok? <==> IsDomain(Domain(u, raw)) && Domain(u, raw) !in old(domains)
      ensures r.Ok? ==> Valid() && r.value == Domain(u, raw) && domains == old(domains) + [Domain(u, raw)]
      ensures companies == old(companies) && seenCompanies == old(seenCompanies)
    {
      var domain := LStrip(LowerAll(u, raw), '@');
      if !IsDomain(domain) {
        return Raised(NotADomain);
      }
      if domain in seenDomains {
        return Raised(DomainTwice);
      }
      seenDomains := seenDomains[domain := place];
      domains := domains + [domain];
      r := Ok(domain);
    }

    /** Take a list of domains, none of which may be taken already. */
    method TakeDomains(raws: seq<string>, place: Place) returns (r: Result<seq<string>, RoutingError>)
      requires Valid()
      modifies this
      ensures r.Ok? <==> GoodDomains(old(domains) + DomainsOf(u, raws))
      ensures r.Ok? ==> Valid() && r.value == DomainsOf(u, raws) && domains == old(domains) + DomainsOf(u, raws)
      ensures companies == old(companies) && seenCompanies == old(seenCompanies)
    {
      var out := [];
      ghost var all := DomainsOf(u, raws);
      for i := 0 to |raws|
        invariant Valid() && out == all[..i] && domains == old(domains) + all[..i]
        invariant companies == old(companies) && seenCompanies == old(seenCompanies)
      {
        assert all[..i + 1] == all[..i] + [all[i]];
        if GoodDomains(old(domains) + all) {
          assert (old(domains) + all)[..|old(domains)| + i] == domains;
          NextDomain(old(domains) + all, |old(domains)| + i);
        }
        var taken := TakeDomain(raws[i], place);
        if taken.Raised? {
          return Raised(taken.error);
        }
        out := out + [taken.value];
      }
      assert all[..|raws|] == all;
      r := Ok(out);
    }

    /** Take one company key; it may come again in the same place, and is skipped then. */
    method TakeKey(key: string, place: Place) returns (r: Result<Option<string>, RoutingError>)
      requires Valid()
      modifies this
      ensures r.Ok? <==> key != "" && (key in old(seenCompanies) ==> old(seenCompanies)[key] == place)
      ensures r.Ok? ==> Valid() && seenCompanies == old(seenCompanies)[key := place]
      ensures r.Ok? ==> companies == old(companies) + [Claim(key, place)] && domains == old(domains)
      ensures r.Ok? ==> r.value == if key in old(seenCompanies) then None else Some(key)
    {
      if key == "" {
        return Raised(EmptyCompany);
      }
      if key in seenCompanies && seenCompanies[key] == place {
        companies := companies + [Claim(key, place)];
        return Ok(None);
      }
      if key in seenCompanies {
        return Raised(CompanyTwice);
      }
      seenCompanies := seenCompanies[key := place];
      companies := companies + [Claim(key, place)];
      return Ok(Some(key));
    }

    /** The first `i` of these keys have been taken. */
    ghost predicate TakenSoFar(before: map<string, Place>, was: seq<Claim>, keys: seq<string>, place: Place, i: nat)
      requires i <= |keys|
      reads this
    {
      && companies == was + ClaimsOf(keys[..i], place) && seenCompanies == WithAll(before, keys[..i], place)
      && Acceptable(before, keys[..i], place)
    }

    /** Take the next of several keys of one place. */
    method TakeNextKey(key: string, place: Place, ghost before: map<string, Place>, ghost was: seq<Claim>,
                       ghost keys: seq<string>, ghost i: nat) returns (r: Result<Option<string>, RoutingError>)
      requires Valid() && i < |keys| && keys[i] == key && TakenSoFar(before, was, keys, place, i)
      modifies this
      ensures r.Ok? ==> Valid() && TakenSoFar(before, was, keys, place, i + 1) && domains == old(domains)
      ensures r.Ok? ==> NewKeys(before.Keys, keys[..i + 1])
                        == NewKeys(before.Keys, keys[..i]) + if r.value.Some? then [r.value.value] else []
      ensures r.Raised? ==> !Acceptable(before, keys, place)
    {
      NextKey(before, keys, place, i);
      NextAcceptable(before, keys, place, i);
      r := TakeKey(key, place);
    }

    /** Take a list of company names of one place. */
    method TakeCompanies(raws: seq<string>, place: Place) returns (r: Result<seq<string>, RoutingError>)
      requires Valid()
      modifies this
      ensures r.Ok? <==> Acceptable(old(seenCompanies), KeysOf(u, raws), place)
      ensures r.Ok? ==> Valid() && r.value == NewKeys(old(seenCompanies).Keys, KeysOf(u, raws))
                        && companies == old(companies) + ClaimsOf(KeysOf(u, raws), place) && domains == old(domains)
    {
      ghost var keys, before := KeysOf(u, raws), seenCompanies;
      var out := [];
      for i := 0 to |raws|
        invariant Valid() && out == NewKeys(before.Keys, keys[..i]) && domains == old(domains)
        invariant TakenSoFar(before, old(companies), keys, place, i)
      {
        var taken := TakeNextKey(Key(u, raws[i]), place, before, old(companies), keys, i);
        if taken.Raised? {
          return Raised(taken.error);
        }
        if taken.value.Some? {
          out := out + [taken.value.value];
        }
      }
      assert keys[..|raws|] == keys;
      r := Ok(out);
    }

    /** The same, with the condition said of all claims made so far. */
    method TakeNames(raws: seq<string>, place: Place) returns (r: Result<seq<string>, RoutingError>)
      requires Valid()
      modifies this
      ensures r.Ok? <==> GoodClaims(old(companies) + ClaimsOf(KeysOf(u, raws), place))
      ensures r.Ok? ==> Valid() && r.value == NewKeys(old(seenCompanies).Keys, KeysOf(u, raws))
                        && companies == old(companies) + ClaimsOf(KeysOf(u, raws), place) && domains == old(domains)
    {
      AcceptableIsConsistent(seenCompanies, companies, KeysOf(u, raws), place);
      r := TakeCompanies(raws, place);
    }

    /** Take the domains and then the names of one place. */
    method TakeBoth(own: seq<string>, names: seq<string>, place: Place)
      returns (r: Result<(seq<string>, seq<string>), RoutingError>)
      requires Valid()
      modifies this
      ensures r.Ok? <==> Good(old(domains) + DomainsOf(u, own), old(companies) + ClaimsOf(KeysOf(u, names), place))
      ensures r.Ok? ==> Valid() && domains == old(domains) + DomainsOf(u, own)
                        && companies == old(companies) + ClaimsOf(KeysOf(u, names), place)
      ensures r.Ok? ==> r.value == (DomainsOf(u, own), NewKeys(old(seenCompanies).Keys, KeysOf(u, names)))
    {
      var takenDomains := TakeDomains(own, place);
      if takenDomains.Raised? {
        return Raised(takenDomains.error);
      }
      var takenNames := TakeNames(names, place);
      if takenNames.Raised? {
        return Raised(takenNames.error);
      }
      r := Ok((takenDomains.value, takenNames.value));
    }

    /** Take one client of a route: its domains, then its name and aliases. */
    method TakeClient(raw: RawClient, i: nat) returns (r: Result<(Client, seq<string>), RoutingError>)
      requires Valid()
      modifies this
      ensures r.Ok? <==> ClientShape(u, raw)
                         && Good(old(domains) + ClientDomains(u, raw), old(companies) + ClientClaims(u, raw, i))
      ensures r.Ok? ==> Valid() && domains == old(domains) + ClientDomains(u, raw)
                        && companies == old(companies) + ClientClaims(u, raw, i)
      ensures r.Ok? ==> r.value.0 == BuiltClient(u, raw)
                        && r.value.1 == NewKeys(old(seenCompanies).Keys, KeysOf(u, ClientNames(u, raw)))
    {
      if !raw.isTable {
        return Raised(NotATable);
      }
      if raw.unknownKeys {
        return Raised(UnknownKeys);
      }
      var name := Strip(u, raw.name);
      if name == "" {
        return Raised(NoName);
      }
      var aliases, own := StringsIn(u, raw.aliases), StringsIn(u, raw.domains);
      if aliases.None? || own.None? {
        return Raised(NotStrings);
      }
      var taken := TakeBoth(own.value, [name] + aliases.value, AtClient(i, name));
      if taken.Raised? {
        return Raised(taken.error);
      }
      r := Ok((Client(name, aliases.value, taken.value.0), taken.value.1));
    }

    /** Take one more client of a route that has claimed `own` so far: the keys it adds are those the route lacks. */
    method TakeNext(raw: RawClient, i: nat, ghost others: seq<Claim>, ghost own: seq<Claim>)
      returns (r: Result<(Client, seq<string>), RoutingError>)
      requires Valid() && Elsewhere(others, i) && companies == others + own
      modifies this
      ensures r.Ok? <==> ClientShape(u, raw)
                         && Good(old(domains) + ClientDomains(u, raw), old(companies) + ClientClaims(u, raw, i))
      ensures r.Ok? ==> Valid() && domains == old(domains) + ClientDomains(u, raw)
                        && companies == old(companies) + ClientClaims(u, raw, i)
      ensures r.Ok? ==> r.value.0 == BuiltClient(u, raw)
      ensures r.Ok? ==> NewKeys({}, KeysIn(own + ClientClaims(u, raw, i))) == NewKeys({}, KeysIn(own)) + r.value.1
    {
      ghost var seen := seenCompanies;
      r := TakeClient(raw, i);
      if r.Ok? {
        NewForClient(u, raw, i, seen, seenCompanies, others, own);
      }
    }

    /** The first `j` of these clients have been taken, after what was taken before. */
    ghost predicate TakenClients(was: seq<string>, others: seq<Claim>, clients: seq<RawClient>, i: nat, j: nat)
      requires j <= |clients|
      reads this
    {
      && Valid() && ClientShapes(u, clients[..j])
      && domains == was + DomainsUpTo(u, clients[..j]) && companies == others + ClaimsUpTo(u, clients[..j], i)
    }

    /** Take the next client of a route and add its parts to those of the clients before it. */
    method TakeNextClient(clients: seq<RawClient>, i: nat, j: nat, parts: (seq<Client>, seq<string>, seq<string>),
                          ghost was: seq<string>, ghost others: seq<Claim>)
      returns (r: Result<(seq<Client>, seq<string>, seq<string>), RoutingError>)
      requires j < |clients| && TakenClients(was, others, clients, i, j) && Elsewhere(others, i)
      requires parts == PartsUpTo(u, clients[..j], i)
      modifies this
      ensures r.Ok? ==> TakenClients(was, others, clients, i, j + 1) && r.value == PartsUpTo(u, clients[..j + 1], i)
      ensures r.Raised? ==> !ClientShapes(u, clients)
                            || !Good(was + DomainsUpTo(u, clients), others + ClaimsUpTo(u, clients, i))
    {
      ClientStep(u, clients, i, j, was, others);
      NextShape(u, clients, j);
      var next := TakeNext(clients[j], i, others, ClaimsUpTo(u, clients[..j], i));
      if next.Raised? {
        return Raised(next.error);
      }
      r := Ok((parts.0 + [next.value.0], parts.1 + next.value.0.domains, parts.2 + next.value.1));
    }

    lemma AllClientsTaken(was: seq<string>, others: seq<Claim>, clients: seq<RawClient>, i: nat)
      requires TakenClients(was, others, clients, i, |clients|)
      ensures Valid() && ClientShapes(u, clients)
      ensures domains == was + DomainsUpTo(u, clients) && companies == others + ClaimsUpTo(u, clients, i)
      ensures Good(domains, companies)
    {
      assert clients[..|clients|] == clients;
      RecordsConsistent(seenCompanies, companies);
    }

    /** Take the clients of a route, in order. */
    method TakeClients(clients: seq<RawClient>, i: nat)
      returns (r: Result<(seq<Client>, seq<string>, seq<string>), RoutingError>)
      requires Valid() && Elsewhere(companies, i)
      modifies this
      ensures r.Ok? <==> ClientShapes(u, clients)
                         && Good(old(domains) + DomainsUpTo(u, clients), old(companies) + ClaimsUpTo(u, clients, i))
      ensures r.Ok? ==> Valid() && domains == old(domains) + DomainsUpTo(u, clients)
                        && companies == old(companies) + ClaimsUpTo(u, clients, i)
      ensures r.Ok? ==> r.value == PartsUpTo(u, clients, i)
    {
      var parts := ([], [], []);
      NoParts(u, clients, i);
      for j := 0 to |clients|
        invariant TakenClients(old(domains), old(companies), clients, i, j) && parts == PartsUpTo(u, clients[..j], i)
      {
        var next := TakeNextClient(clients, i, j, parts, old(domains), old(companies));
        if next.Raised? {
          return Raised(next.error);
        }
        parts := next.value;
      }
      assert clients[..|clients|] == clients;
      AllClientsTaken(old(domains), old(companies), clients, i);
      r := Ok(parts);
    }

    /** Take the domains and companies a route lists besides its clients. */
    method TakeBare(raw: RawRoute, i: nat) returns (r: Result<(seq<string>, seq<string>), RoutingError>)
      requires Valid()
      modifies this
      ensures r.Ok? <==> StringsIn(u, raw.domains).Some? && StringsIn(u, raw.companies).Some?
                         && Good(old(domains) + BareDomains(u, raw), old(companies) + BareClaims(u, raw, i))
      ensures r.Ok? ==> Valid() && domains == old(domains) + BareDomains(u, raw)
                        && companies == old(companies) + BareClaims(u, raw, i)
      ensures r.Ok? ==> r.value == (BareDomains(u, raw),
                                    NewKeys(old(seenCompanies).Keys, KeysOf(u, StringsIn(u, raw.companies).value)))
    {
      var own := StringsIn(u, raw.domains);
      if own.None? {
        return Raised(NotStrings);
      }
      var takenDomains := TakeDomains(own.value, AtRoute(i));
      if takenDomains.Raised? {
        return Raised(takenDomains.error);
      }
      var names := StringsIn(u, raw.companies);
      if names.None? {
        return Raised(NotStrings);
      }
      var takenNames := TakeNames(names.value, AtRoute(i));
      if takenNames.Raised? {
        return Raised(takenNames.error);
      }
      r := Ok((takenDomains.value, takenNames.value));
    }

    /** Take one route: its clients in order, then its bare domains and companies. */
    method TakeRoute(raw: RawRoute, i: nat) returns (r: Result<ClientRoute, RoutingError>)
      requires Valid() && Elsewhere(companies, i)
      modifies this
      ensures r.Ok? <==> RouteShape(u, raw)
                         && Good(old(domains) + RouteDomains(u, raw), old(companies) + RouteClaims(u, raw, i))
      ensures r.Ok? ==> Valid() && domains == old(domains) + RouteDomains(u, raw)
                        && companies == old(companies) + RouteClaims(u, raw, i)
      ensures r.Ok? ==> r.value == BuiltRoute(u, raw, i)
    {
      if raw.unknownKeys {
        return Raised(UnknownKeys);
      }
      var to := AddressesIn(u, raw.to);
      if to.None? {
        return Raised(BadAddresses);
      }
      RouteParts(u, raw, i, domains, companies);
      ClientsOfGoodRoute(domains + DomainsUpTo(u, raw.clients), BareDomains(u, raw),
                         companies + ClaimsUpTo(u, raw.clients, i), BareClaims(u, raw, i));
      SomethingListed(u, raw, i);
      var taken := TakeClients(raw.clients, i);
      if taken.Raised? {
        return Raised(taken.error);
      }
      ghost var seen := seenCompanies;
      var bare := TakeBare(raw, i);
      if bare.Raised? {
        return Raised(bare.error);
      }
      NewInRoute(seen, seenCompanies, old(companies), ClaimsUpTo(u, raw.clients, i),
                 KeysOf(u, StringsIn(u, raw.companies).value), AtRoute(i));
      var allDomains, allKeys := taken.value.1 + bare.value.0, taken.value.2 + bare.value.1;
      if allDomains == [] && allKeys == [] {
        return Raised(NothingListed);
      }
      r := Ok(ClientRoute(to.value, allDomains, allKeys, taken.value.0, RouteName(u, raw, i)));
    }
  }

  // ---- the whole file ----

  predicate FileRouteShape(u: Alphabet, f: RawFileRoute) {
    !f.unknownKeys && Strip(u, f.pattern) != "" && AddressesIn(u, f.to).Some?
  }

  function BuiltFileRoute(u: Alphabet, f: RawFileRoute): (string, seq<string>) {
    (Strip(u, f.pattern), AddressesIn(u, f.to).GetOr([]))
  }

  function BuiltFileName(u: Alphabet, f: RawFileRoute): (string, string) {
    (Strip(u, f.pattern), if Strip(u, f.name) == "" then Strip(u, f.pattern) else Strip(u, f.name))
  }

  function FileDomains(u: Alphabet, routes: seq<RawRoute>): seq<string> {
    if routes == [] then [] else FileDomains(u, routes[..|routes| - 1]) + RouteDomains(u, routes[|routes| - 1])
  }

  function FileClaims(u: Alphabet, routes: seq<RawRoute>): seq<Claim> {
    if routes == [] then []
    else FileClaims(u, routes[..|routes| - 1]) + RouteClaims(u, routes[|routes| - 1], |routes| - 1)
  }

  function BuiltRoutes(u: Alphabet, routes: seq<RawRoute>): (built: seq<ClientRoute>)
    ensures |built| == |routes|
  {
    if routes == [] then []
    else BuiltRoutes(u, routes[..|routes| - 1]) + [BuiltRoute(u, routes[|routes| - 1], |routes| - 1)]
  }

  function BuiltFileRoutes(u: Alphabet, list: seq<RawFileRoute>): seq<(string, seq<string>)> {
    seq(|list|, i requires 0 <= i < |list| => BuiltFileRoute(u, list[i]))
  }

  function BuiltFileNames(u: Alphabet, list: seq<RawFileRoute>): seq<(string, string)> {
    seq(|list|, i requires 0 <= i < |list| => BuiltFileName(u, list[i]))
  }

  function BuiltTable(u: Alphabet, file: RawFile): Table {
    Table(BuiltFileRoutes(u, file.fileRoutes), BuiltRoutes(u, file.routes), AddressesIn(u, file.default).GetOr([]),
          BuiltFileNames(u, file.fileRoutes))
  }

  ghost predicate RouteShapes(u: Alphabet, routes: seq<RawRoute>) {
    routes != [] ==> RouteShapes(u, routes[..|routes| - 1]) && RouteShape(u, routes[|routes| - 1])
  }

  ghost predicate FileRouteShapes(u: Alphabet, list: seq<RawFileRoute>) {
    forall f :: f in list ==> FileRouteShape(u, f)
  }

  /** The files that are accepted: each entry is well shaped, no domain comes twice, no company in two places. */
  ghost predicate Accepted(u: Alphabet, file: RawFile) {
    && !file.unknownKeys && (file.default.Missing? || AddressesIn(u, file.default).Some?)
    && FileRouteShapes(u, file.fileRoutes) && GoodRoutes(u, file.routes)
  }

  lemma {:induction false} FilePrefix(u: Alphabet, routes: seq<RawRoute>, n: nat)
    requires n <= |routes|
    ensures FileDomains(u, routes[..n]) <= FileDomains(u, routes) && FileClaims(u, routes[..n]) <= FileClaims(u, routes)
    ensures RouteShapes(u, routes) ==> RouteShapes(u, routes[..n])
  {
    if n == |routes| {
      assert routes[..n] == routes;
    } else {
      var init := routes[..|routes| - 1];
      FilePrefix(u, init, n);
      assert init[..n] == routes[..n];
    }
  }

  lemma {:induction false} RouteClaimsWithin(u: Alphabet, r: RawRoute, i: nat)
    ensures Within(RouteClaims(u, r, i), i)
  {
    ClaimsWithin(u, r.clients, i);
  }

  lemma {:induction false} FileClaimsElsewhere(u: Alphabet, routes: seq<RawRoute>, i: nat)
    requires |routes| <= i
    ensures Elsewhere(FileClaims(u, routes), i)
  {
    if routes != [] {
      FileClaimsElsewhere(u, routes[..|routes| - 1], i);
      RouteClaimsWithin(u, routes[|routes| - 1], |routes| - 1);
    }
  }

  /** What the lists of the file are once one more route is taken. */
  lemma RouteStep(u: Alphabet, routes: seq<RawRoute>, i: nat)
    requires i < |routes|
    ensures FileDomains(u, routes[..i + 1]) == FileDomains(u, routes[..i]) + RouteDomains(u, routes[i])
    ensures FileClaims(u, routes[..i + 1]) == FileClaims(u, routes[..i]) + RouteClaims(u, routes[i], i)
    ensures BuiltRoutes(u, routes[..i + 1]) == BuiltRoutes(u, routes[..i]) + [BuiltRoute(u, routes[i], i)]
    ensures RouteShapes(u, routes[..i + 1]) <==> RouteShapes(u, routes[..i]) && RouteShape(u, routes[i])
  {
    assert routes[..i + 1][..i] == routes[..i];
  }

  lemma FirstRoutesGood(u: Alphabet, routes: seq<RawRoute>, n: nat)
    requires n <= |routes|
    ensures Good(FileDomains(u, routes), FileClaims(u, routes)) ==>
              Good(FileDomains(u, routes[..n]), FileClaims(u, routes[..n]))
    ensures RouteShapes(u, routes) ==> RouteShapes(u, routes[..n])
  {
    FilePrefix(u, routes, n);
    if Good(FileDomains(u, routes), FileClaims(u, routes)) {
      GoodPrefix(FileDomains(u, routes[..n]), FileDomains(u, routes),
                 FileClaims(u, routes[..n]), FileClaims(u, routes));
    }
  }

  method ParseFileRoutes(u: Alphabet, list: seq<RawFileRoute>)
    returns (r: Result<(seq<(string, seq<string>)>, seq<(string, string)>), RoutingError>)
    ensures r.Ok? <==> FileRouteShapes(u, list)
    ensures r.Ok? ==> r.value == (BuiltFileRoutes(u, list), BuiltFileNames(u, list))
  {
    var routes, names := [], [];
    for i := 0 to |list|
      invariant routes == BuiltFileRoutes(u, list[..i]) && names == BuiltFileNames(u, list[..i])
      invariant FileRouteShapes(u, list[..i])
    {
      var f := list[i];
      var pattern, to := Strip(u, f.pattern), AddressesIn(u, f.to);
      assert f in list;
      if f.unknownKeys || pattern == "" {
        return Raised(NoPattern);
      }
      if to.None? {
        return Raised(BadAddresses);
      }
      routes := routes + [(pattern, to.value)];
      names := names + [(pattern, if Strip(u, f.name) == "" then pattern else Strip(u, f.name))];
    }
    assert list[..|list|] == list;
    r := Ok((routes, names));
  }

  /** The routes of a file: each well shaped, and nothing listed twice among them. */
  ghost predicate GoodRoutes(u: Alphabet, routes: seq<RawRoute>) {
    RouteShapes(u, routes) && Good(FileDomains(u, routes), FileClaims(u, routes))
  }

  lemma GoodRoutesPrefix(u: Alphabet, routes: seq<RawRoute>, n: nat)
    requires n <= |routes| && GoodRoutes(u, routes)
    ensures GoodRoutes(u, routes[..n])
  {
    FirstRoutesGood(u, routes, n);
  }

  /** Take the route after the first `i`. */
  method TakeNextRoute(c: Collector, routes: seq<RawRoute>, i: nat) returns (r: Result<ClientRoute, RoutingError>)
    requires c.Valid() && i < |routes| && GoodRoutes(c.u, routes[..i])
    requires c.domains == FileDomains(c.u, routes[..i]) && c.companies == FileClaims(c.u, routes[..i])
    modifies c
    ensures r.Ok? <==> GoodRoutes(c.u, routes[..i + 1])
    ensures r.Ok? ==> c.Valid() && BuiltRoutes(c.u, routes[..i + 1]) == BuiltRoutes(c.u, routes[..i]) + [r.value]
    ensures r.Ok? ==> c.domains == FileDomains(c.u, routes[..i + 1]) && c.companies == FileClaims(c.u, routes[..i + 1])
  {
    RouteStep(c.u, routes, i);
    FileClaimsElsewhere(c.u, routes[..i], i);
    r := c.TakeRoute(routes[i], i);
  }

  method ParseRoutes(u: Alphabet, routes: seq<RawRoute>) returns (r: Result<seq<ClientRoute>, RoutingError>)
    ensures r.Ok? <==> GoodRoutes(u, routes)
    ensures r.Ok? ==> r.value == BuiltRoutes(u, routes)
  {
    var c := new Collector(u);
    var built := [];
    for i := 0 to |routes|
      invariant fresh(c) && c.Valid() && c.u == u && GoodRoutes(u, routes[..i])
      invariant c.domains == FileDomains(u, routes[..i]) && c.companies == FileClaims(u, routes[..i])
      invariant built == BuiltRoutes(u, routes[..i])
    {
      if GoodRoutes(u, routes) {
        GoodRoutesPrefix(u, routes, i + 1);
      }
      var taken := TakeNextRoute(c, routes, i);
      if taken.Raised? {
        return Raised(taken.error);
      }
      built := built + [taken.value];
    }
    assert routes[..|routes|] == routes;
    r := Ok(built);
  }

  /** `parse_routing`. */
  method ParseRouting(u: Alphabet, file: RawFile) returns (r: Result<Table, RoutingError>)
    ensures r.Ok? <==> Accepted(u, file)
    ensures r.Ok? ==> r.value == BuiltTable(u, file)
  {
    if file.unknownKeys {
      return Raised(UnknownKeys);
    }
    var default := AddressesIn(u, file.default);
    if !file.default.Missing? && default.None? {
      return Raised(BadAddresses);
    }
    var files := ParseFileRoutes(u, file.fileRoutes);
    if files.Raised? {
      return Raised(files.error);
    }
    var routes := ParseRoutes(u, file.routes);
    if routes.Raised? {
      return Raised(routes.error);
    }
    r := Ok(Table(files.value.0, routes.value, default.GetOr([]), files.value.1));
  }
}
