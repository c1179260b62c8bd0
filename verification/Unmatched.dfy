/** The report of clients whose mail went to the default mailbox. */
module Unmatched {
  import opened Prelude
  import opened Ordered
  import Mailer
  import Normalize
  import Text

  /** A processed job with the decision the current rules make for it. */
  datatype Case = Case(id: string, createdAt: int, decision: Mailer.RoutingDecision)

  /** Cases of one client: the company key and the domain of the address. */
  datatype GroupKey = GroupKey(company: string, domain: string)

  /** `lastSeen` is None only in an entry just made. */
  datatype Group = Group(company: string, domain: string, count: nat, lastSeen: Option<int>, examples: seq<string>)

  datatype Report = Report(
    checked: nat, unmatched: nat, unrecognized: nat, unrecognizedExamples: seq<string>, clients: seq<Group>)

  type Groups = Dict<GroupKey, Group>

  predicate Unrouted(c: Case) {
    c.decision.rule == "default"
  }

  predicate Anonymous(c: Case) {
    c.decision.company == "" && c.decision.domain == ""
  }

  function KeyOf(u: Normalize.Alphabet, c: Case): GroupKey {
    GroupKey(Normalize.Key(u, c.decision.company), c.decision.domain)
  }

  function SizeOf(): Group -> nat {
    (g: Group) => g.count
  }

  /** Larger groups first, then by company and domain. */
  function GroupOrder(): (Group, Group) -> bool {
    (a: Group, b: Group) =>
      a.count > b.count || (a.count == b.count && (Text.Before(a.company, b.company)
        || (a.company == b.company && Text.Before(a.domain, b.domain))))
  }

  // ---- what the report is about ----

  /** The unrouted cases of one client, or the anonymous ones, in order. */
  function Members(u: Normalize.Alphabet, cases: seq<Case>, key: Option<GroupKey>): seq<Case> {
    if cases == [] then []
    else
      var before, last := Members(u, cases[..|cases| - 1], key), cases[|cases| - 1];
      if Belongs(u, last, key) then before + [last] else before
  }

  predicate Belongs(u: Normalize.Alphabet, c: Case, key: Option<GroupKey>) {
    Unrouted(c) && if key.None? then Anonymous(c) else !Anonymous(c) && KeyOf(u, c) == key.value
  }

  lemma MembersSnoc(u: Normalize.Alphabet, cases: seq<Case>, c: Case, key: Option<GroupKey>)
    ensures Members(u, cases + [c], key) == Members(u, cases, key) + if Belongs(u, c, key) then [c] else []
  {
    assert (cases + [c])[..|cases|] == cases;
  }

  /** Whose call this is, said of the decision's columns: only calls for the default mailbox belong anywhere. */
  lemma BelongsExactly(u: Normalize.Alphabet, c: Case, key: GroupKey)
    ensures Belongs(u, c, Some(key)) <==>
            && c.decision.rule == "default" && (c.decision.company != "" || c.decision.domain != "")
            && Normalize.Key(u, c.decision.company) == key.company && c.decision.domain == key.domain
    ensures Belongs(u, c, None) <==>
            c.decision.rule == "default" && c.decision.company == "" && c.decision.domain == ""
  {
  }

  /** The members of a group are its cases, in their order. */
  lemma {:induction false} MembersInOrder(u: Normalize.Alphabet, a: seq<Case>, c: Case, b: seq<Case>,
                                          key: Option<GroupKey>)
    ensures Members(u, a + [c] + b, key)
            == Members(u, a, key) + (if Belongs(u, c, key) then [c] else []) + Members(u, b, key)
  {
    if b == [] {
      assert a + [c] + b == a + [c];
      MembersSnoc(u, a, c, key);
    } else {
      var init, last := b[..|b| - 1], b[|b| - 1];
      assert a + [c] + b == (a + [c] + init) + [last] && b == init + [last];
      MembersInOrder(u, a, c, init, key);
      MembersSnoc(u, a + [c] + init, last, key);
      MembersSnoc(u, init, last, key);
    }
  }

  function UnroutedCount(cases: seq<Case>): nat {
    if cases == [] then 0
    else UnroutedCount(cases[..|cases| - 1]) + if Unrouted(cases[|cases| - 1]) then 1 else 0
  }

  lemma UnroutedSnoc(cases: seq<Case>, c: Case)
    ensures UnroutedCount(cases + [c]) == UnroutedCount(cases) + if Unrouted(c) then 1 else 0
  {
    assert (cases + [c])[..|cases|] == cases;
  }

  /** The ids of the last `n`, newest first. */
  function Newest(list: seq<Case>, n: nat): seq<string> {
    if list == [] || n == 0 then [] else [list[|list| - 1].id] + Newest(list[..|list| - 1], n - 1)
  }

  function Latest(list: seq<Case>): Option<int> {
    if list == [] then None
    else
      var before, last := Latest(list[..|list| - 1]), list[|list| - 1].createdAt;
      if before.Some? && before.value > last then before else Some(last)
  }

  /** Insert at the front and cut. */
  function Pushed(examples: seq<string>, id: string, limit: nat): seq<string> {
    var all := [id] + examples;
    if |all| > limit then all[..limit] else all
  }

  lemma {:induction false} NewestShorter(list: seq<Case>, n: nat)
    ensures |Newest(list, n)| <= n
    ensures Newest(list, n) == if |Newest(list, n + 1)| > n then Newest(list, n + 1)[..n] else Newest(list, n + 1)
  {
    if list != [] && n > 0 {
      NewestShorter(list[..|list| - 1], n - 1);
    }
  }

  lemma NewestSnoc(list: seq<Case>, c: Case, n: nat)
    requires n > 0
    ensures Newest(list + [c], n) == Pushed(Newest(list, n), c.id, n)
  {
    assert (list + [c])[..|list|] == list;
    NewestShorter(list, n - 1);
    NewestShorter(list, n);
  }

  /** The newest examples are the last ids in reverse. */
  lemma {:induction false} NewestAt(list: seq<Case>, n: nat, i: nat)
    ensures |Newest(list, n)| == if |list| < n then |list| else n
    ensures i < |Newest(list, n)| ==> Newest(list, n)[i] == list[|list| - 1 - i].id
  {
    if list != [] && n > 0 {
      NewestAt(list[..|list| - 1], n - 1, if i > 0 then i - 1 else 0);
    }
  }

  /** The latest time is the greatest. */
  lemma {:induction false} LatestIsMaximum(list: seq<Case>)
    ensures list == [] <==> Latest(list).None?
    ensures forall c :: c in list ==> c.createdAt <= Latest(list).value
    ensures list != [] ==> exists c :: c in list && c.createdAt == Latest(list).value
  {
    if list != [] {
      var init, last := list[..|list| - 1], list[|list| - 1];
      LatestIsMaximum(init);
      assert list == init + [last];
      assert last in list;
      if init != [] {
        var c :| c in init && c.createdAt == Latest(init).value;
        assert c in list;
      }
    }
  }

  /** A group describes its members: the first one's spelling, how many, the latest time, the last three. */
  ghost predicate IsGroup(g: Group, members: seq<Case>) {
    && members != [] && g.company == members[0].decision.company && g.domain == members[0].decision.domain
    && g.count == |members| && g.lastSeen == Latest(members) && g.examples == Newest(members, 3)
  }

  ghost predicate AreGroups(u: Normalize.Alphabet, d: Groups, cases: seq<Case>) {
    && d.Valid()
    && (forall k :: k in d.at <==> Members(u, cases, Some(k)) != [])
    && (forall k :: k in d.at ==> IsGroup(d.at[k], Members(u, cases, Some(k))))
  }

  // ---- one more case ----

  function NewGroup(c: Case): Group {
    Group(c.decision.company, c.decision.domain, 0, None, [])
  }

  function Extended(g: Group, c: Case): Group {
    var seen := if g.lastSeen.Some? && g.lastSeen.value > c.createdAt then g.lastSeen else Some(c.createdAt);
    g.(count := g.count + 1, lastSeen := seen, examples := Pushed(g.examples, c.id, 3))
  }

  lemma ExtendedIsGroup(g: Group, members: seq<Case>, c: Case)
    requires if members == [] then g == NewGroup(c) else IsGroup(g, members)
    ensures IsGroup(Extended(g, c), members + [c])
  {
    NewestSnoc(members, c, 3);
    assert (members + [c])[..|members|] == members;
  }

  lemma GroupsNext(u: Normalize.Alphabet, d: Groups, cases: seq<Case>, c: Case, g: Group)
    requires AreGroups(u, d, cases) && Unrouted(c) && !Anonymous(c)
    requires IsGroup(g, Members(u, cases, Some(KeyOf(u, c))) + [c])
    ensures AreGroups(u, d.Put(KeyOf(u, c), g), cases + [c])
  {
    forall k ensures Members(u, cases + [c], Some(k))
                     == Members(u, cases, Some(k)) + if k == KeyOf(u, c) then [c] else [] {
      MembersSnoc(u, cases, c, Some(k));
    }
    PutValid(d, KeyOf(u, c), g);
  }

  lemma GroupsSame(u: Normalize.Alphabet, d: Groups, cases: seq<Case>, c: Case)
    requires AreGroups(u, d, cases) && (!Unrouted(c) || Anonymous(c))
    ensures AreGroups(u, d, cases + [c])
  {
    forall k ensures Members(u, cases + [c], Some(k)) == Members(u, cases, Some(k)) {
      MembersSnoc(u, cases, c, Some(k));
    }
  }

  /** `clients[:limit]`. */
  function Cut(clients: seq<Group>, limit: nat): seq<Group> {
    if |clients| > limit then clients[..limit] else clients
  }

  // ---- the loop ----

  /** What the loop holds after some of the cases. */
  ghost predicate Progress(u: Normalize.Alphabet, cases: seq<Case>, unmatched: nat, unrecognized: nat,
                           examples: seq<string>, groups: Groups)
  {
    && AreGroups(u, groups, cases) && unmatched == UnroutedCount(cases)
    && unrecognized == |Members(u, cases, None)| && examples == Newest(Members(u, cases, None), 10)
    && unmatched == unrecognized + SumBy(groups.Values(), SizeOf())
  }

  lemma NothingYet(u: Normalize.Alphabet, cases: seq<Case>)
    ensures Progress(u, cases[..0], 0, 0, [], Dict([], map[]))
  {
    var groups: Groups := Dict([], map[]);
    assert groups.Values() == [] && cases[..0] == [];
  }

  lemma SkipRouted(u: Normalize.Alphabet, cases: seq<Case>, c: Case, unmatched: nat, unrecognized: nat,
                   examples: seq<string>, groups: Groups)
    requires Progress(u, cases, unmatched, unrecognized, examples, groups) && !Unrouted(c)
    ensures Progress(u, cases + [c], unmatched, unrecognized, examples, groups)
  {
    MembersSnoc(u, cases, c, None);
    UnroutedSnoc(cases, c);
    GroupsSame(u, groups, cases, c);
  }

  lemma CountAnonymous(u: Normalize.Alphabet, cases: seq<Case>, c: Case, unmatched: nat, unrecognized: nat,
                       examples: seq<string>, groups: Groups)
    requires Progress(u, cases, unmatched, unrecognized, examples, groups) && Unrouted(c) && Anonymous(c)
    ensures Progress(u, cases + [c], unmatched + 1, unrecognized + 1, Pushed(examples, c.id, 10), groups)
  {
    MembersSnoc(u, cases, c, None);
    NewestSnoc(Members(u, cases, None), c, 10);
    UnroutedSnoc(cases, c);
    GroupsSame(u, groups, cases, c);
  }

  /** The entry of the client's group, with the case added. */
  lemma ClientGroup(u: Normalize.Alphabet, cases: seq<Case>, c: Case, groups: Groups, entry: Group)
    requires AreGroups(u, groups, cases) && Unrouted(c) && !Anonymous(c)
    requires entry == if KeyOf(u, c) in groups.at then groups.at[KeyOf(u, c)] else NewGroup(c)
    ensures AreGroups(u, groups.Put(KeyOf(u, c), Extended(entry, c)), cases + [c])
  {
    ExtendedIsGroup(entry, Members(u, cases, Some(KeyOf(u, c))), c);
    GroupsNext(u, groups, cases, c, Extended(entry, c));
  }

  lemma ClientSum(groups: Groups, key: GroupKey, c: Case, entry: Group)
    requires groups.Valid() && entry == if key in groups.at then groups.at[key] else NewGroup(c)
    ensures groups.Put(key, Extended(entry, c)).Valid()
    ensures SumBy(groups.Put(key, Extended(entry, c)).Values(), SizeOf()) == SumBy(groups.Values(), SizeOf()) + 1
  {
    PutSum(groups, key, Extended(entry, c), SizeOf());
  }

  lemma CountClient(u: Normalize.Alphabet, cases: seq<Case>, c: Case, unmatched: nat, unrecognized: nat,
                    examples: seq<string>, groups: Groups, entry: Group)
    requires Progress(u, cases, unmatched, unrecognized, examples, groups) && Unrouted(c) && !Anonymous(c)
    requires entry == if KeyOf(u, c) in groups.at then groups.at[KeyOf(u, c)] else NewGroup(c)
    ensures Progress(u, cases + [c], unmatched + 1, unrecognized, examples, groups.Put(KeyOf(u, c), Extended(entry, c)))
  {
    ClientGroup(u, cases, c, groups, entry);
    ClientSum(groups, KeyOf(u, c), c, entry);
    MembersSnoc(u, cases, c, None);
    UnroutedSnoc(cases, c);
  }

  ghost predicate NotBeforeAny(g: Group, clients: seq<Group>) {
    forall other :: other in clients ==> !GroupOrder()(g, other)
  }

  /** Every client's group is listed, unless the list is full and the group comes after all that are. */
  ghost predicate ListedFirst(u: Normalize.Alphabet, clients: seq<Group>, cases: seq<Case>, limit: nat) {
    forall k, g :: IsGroup(g, Members(u, cases, Some(k))) ==>
      g in clients || (|clients| == limit && NotBeforeAny(g, clients))
  }

  /** What the report says; `all` are the groups before the limit. */
  ghost predicate Reports(u: Normalize.Alphabet, r: Report, all: seq<Group>, cases: seq<Case>, limit: nat) {
    && r.checked == |cases| && r.unmatched == UnroutedCount(cases)
    && r.unrecognized == |Members(u, cases, None)|
    && r.unrecognizedExamples == Newest(Members(u, cases, None), 10)
    // all groups, before the limit: nothing is lost and nothing is counted twice
    && r.unmatched == r.unrecognized + SumBy(all, SizeOf())
    && (forall g :: g in all <==> exists k :: IsGroup(g, Members(u, cases, Some(k))))
    && Ranked(all) && r.clients == (if |all| > limit then all[..limit] else all)
    && ListedFirst(u, r.clients, cases, limit)
  }

  /** The biggest groups first; then by company, then by domain. */
  ghost predicate Ranked(groups: seq<Group>) {
    forall i, j :: 0 <= i < j < |groups| ==> ComesFirst(groups[i], groups[j])
  }

  predicate ComesFirst(a: Group, b: Group) {
    || a.count > b.count
    || (a.count == b.count && Text.Before(a.company, b.company))
    || (a.count == b.count && a.company == b.company && !Text.Before(b.domain, a.domain))
  }

  /** `routing_unmatched`, for the processed jobs of the period. */
  method RoutingUnmatched(u: Normalize.Alphabet, cases: seq<Case>, limit: nat) returns (r: Report)
    ensures exists all :: Reports(u, r, all, cases, limit)
  {
    var groups: Groups := Dict([], map[]);
    var unmatched, unrecognized, examples := 0, 0, [];
    NothingYet(u, cases);
    for i := 0 to |cases|
      invariant Progress(u, cases[..i], unmatched, unrecognized, examples, groups)
    {
      var c := cases[i];
      Text.OneMore(cases, i);
      if c.decision.rule != "default" {
        SkipRouted(u, cases[..i], c, unmatched, unrecognized, examples, groups);
      } else if c.decision.company == "" && c.decision.domain == "" {
        CountAnonymous(u, cases[..i], c, unmatched, unrecognized, examples, groups);
        unmatched, unrecognized := unmatched + 1, unrecognized + 1;
        examples := Pushed(examples, c.id, 10);
      } else {
        var key := KeyOf(u, c);
        var entry := if key in groups.at then groups.at[key] else NewGroup(c);
        CountClient(u, cases[..i], c, unmatched, unrecognized, examples, groups, entry);
        unmatched := unmatched + 1;
        groups := groups.Put(key, Extended(entry, c));
      }
    }
    assert cases[..|cases|] == cases;
    var clients := SortBy(groups.Values(), GroupOrder());
    r := Report(|cases|, unmatched, unrecognized, examples, Cut(clients, limit));
    Finished(u, cases, unmatched, unrecognized, examples, groups, limit);
  }

  lemma GroupOrderIsStrict()
    ensures StrictOrder(GroupOrder())
  {
    var before := GroupOrder();
    forall a, b | before(a, b) ensures !before(b, a) {
      NotBoth(a.company, b.company);
      NotBoth(a.domain, b.domain);
    }
    forall a, b, c | !before(b, a) && !before(c, b) ensures !before(c, a) {
      NotAfter(a.company, b.company, c.company);
      NotAfter(a.domain, b.domain, c.domain);
    }
  }

  lemma NotBoth(a: string, b: string)
    ensures Text.Before(a, b) ==> !Text.Before(b, a) && a != b
  {
    if Text.Before(a, b) && Text.Before(b, a) {
      Text.BeforeTransitive(a, b, a);
    }
    Text.BeforeIrreflexive(a);
  }

  /** The order of three strings. */
  lemma NotAfter(a: string, b: string, c: string)
    ensures a == b || Text.Before(a, b) || Text.Before(b, a)
    ensures b == c || Text.Before(b, c) || Text.Before(c, b)
    ensures Text.Before(a, b) && Text.Before(b, c) ==> Text.Before(a, c)
    ensures Text.Before(c, b) && Text.Before(b, a) ==> Text.Before(c, a)
    ensures Text.Before(c, a) ==> !Text.Before(a, c) && a != c
    ensures Text.Before(a, b) ==> !Text.Before(b, a) && a != b
    ensures Text.Before(b, c) ==> !Text.Before(c, b) && b != c
  {
    Text.BeforeTotal(a, b);
    Text.BeforeTotal(b, c);
    NotBoth(c, a);
    NotBoth(a, b);
    NotBoth(b, c);
    if Text.Before(a, b) && Text.Before(b, c) {
      Text.BeforeTransitive(a, b, c);
    }
    if Text.Before(c, b) && Text.Before(b, a) {
      Text.BeforeTransitive(c, b, a);
    }
  }

  lemma SortedGroup(u: Normalize.Alphabet, groups: Groups, cases: seq<Case>, g: Group)
    requires AreGroups(u, groups, cases) && g in SortBy(groups.Values(), GroupOrder())
    ensures exists k :: IsGroup(g, Members(u, cases, Some(k)))
  {
    var values := groups.Values();
    SortElements(values, GroupOrder());
    assert g in multiset(SortBy(values, GroupOrder()));
    assert g in multiset(values) && g in values;
    var i :| 0 <= i < |values| && values[i] == g;
    assert groups.keys[i] in groups.at && IsGroup(g, Members(u, cases, Some(groups.keys[i])));
  }

  lemma GroupIsSorted(u: Normalize.Alphabet, groups: Groups, cases: seq<Case>, k: GroupKey, g: Group)
    requires AreGroups(u, groups, cases) && IsGroup(g, Members(u, cases, Some(k)))
    ensures g in SortBy(groups.Values(), GroupOrder())
  {
    var values := groups.Values();
    ValueIn(groups, k);
    assert g == groups.at[k];
    SortElements(values, GroupOrder());
    assert g in multiset(values) && g in multiset(SortBy(values, GroupOrder()));
  }

  /** What is cut off comes after what is kept. */
  lemma CutAfter(clients: seq<Group>, limit: nat, g: Group)
    requires InOrder(clients, GroupOrder()) && g in clients
    ensures var kept := Cut(clients, limit);
            g in kept || (|kept| == limit && NotBeforeAny(g, kept))
  {
    var i :| 0 <= i < |clients| && clients[i] == g;
    if |clients| > limit && i >= limit {
      forall other | other in clients[..limit] ensures !GroupOrder()(g, other) {
        var j :| 0 <= j < limit && clients[j] == other;
      }
    } else if |clients| > limit {
      assert clients[..limit][i] == g;
    }
  }

  lemma AllListedFirst(u: Normalize.Alphabet, groups: Groups, cases: seq<Case>, limit: nat)
    requires AreGroups(u, groups, cases) && InOrder(SortBy(groups.Values(), GroupOrder()), GroupOrder())
    ensures ListedFirst(u, Cut(SortBy(groups.Values(), GroupOrder()), limit), cases, limit)
  {
    var clients := SortBy(groups.Values(), GroupOrder());
    var kept := Cut(clients, limit);
    forall k, g | IsGroup(g, Members(u, cases, Some(k)))
      ensures g in kept || (|kept| == limit && NotBeforeAny(g, kept))
    {
      GroupIsSorted(u, groups, cases, k, g);
      CutAfter(clients, limit, g);
    }
  }

  /** The sorted groups are those of all clients. */
  lemma AllGroups(u: Normalize.Alphabet, groups: Groups, cases: seq<Case>)
    requires AreGroups(u, groups, cases)
    ensures forall g :: g in SortBy(groups.Values(), GroupOrder()) <==>
              exists k :: IsGroup(g, Members(u, cases, Some(k)))
  {
    var all := SortBy(groups.Values(), GroupOrder());
    forall g | g in all ensures exists k :: IsGroup(g, Members(u, cases, Some(k))) {
      SortedGroup(u, groups, cases, g);
    }
    forall k, g | IsGroup(g, Members(u, cases, Some(k))) ensures g in all {
      GroupIsSorted(u, groups, cases, k, g);
    }
  }

  lemma Finished(u: Normalize.Alphabet, cases: seq<Case>, unmatched: nat, unrecognized: nat, examples: seq<string>,
                 groups: Groups, limit: nat)
    requires Progress(u, cases, unmatched, unrecognized, examples, groups)
    ensures var all := SortBy(groups.Values(), GroupOrder());
            Reports(u, Report(|cases|, unmatched, unrecognized, examples, Cut(all, limit)), all, cases, limit)
  {
    SortSum(groups.Values(), GroupOrder(), SizeOf());
    GroupOrderIsStrict();
    SortInOrder(groups.Values(), GroupOrder());
    AllListedFirst(u, groups, cases, limit);
    AllGroups(u, groups, cases);
    InOrderIsRanked(SortBy(groups.Values(), GroupOrder()));
  }

  lemma InOrderIsRanked(groups: seq<Group>)
    requires InOrder(groups, GroupOrder())
    ensures Ranked(groups)
  {
    forall i, j | 0 <= i < j < |groups| ensures ComesFirst(groups[i], groups[j]) {
      assert !GroupOrder()(groups[j], groups[i]);
      Text.BeforeTotal(groups[i].company, groups[j].company);
    }
  }
}
