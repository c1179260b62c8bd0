/** The report of delivered results per team and rule. */
module Stats {
  import opened Prelude
  import opened Jobs
  import opened Ordered
  import Mailer
  import Text

  type Tally = Dict<string, nat>

  datatype Team = Team(route: string, count: nat, rules: Tally, emailTo: seq<string>)

  datatype StatsReport = StatsReport(total: nat, rules: Tally, teams: seq<Team>)

  /** The label of calls that were attributed to no team. */
  const UNKNOWN_TEAM := "не опознан"

  function TeamName(job: Job): string {
    if job.route == "" then UNKNOWN_TEAM else job.route
  }

  function NumberIn(t: Tally, key: string): nat {
    if key in t.at then t.at[key] else 0
  }

  function NumberOf(): nat -> nat {
    n => n
  }

  function CountOf(): Team -> nat {
    (t: Team) => t.count
  }

  /** Larger teams first, then by name. */
  function TeamOrder(): (Team, Team) -> bool {
    (a: Team, b: Team) => a.count > b.count || (a.count == b.count && Text.Before(a.route, b.route))
  }

  // ---- what the report is about ----

  /** Of the given team and rule, if any are given. */
  predicate Hits(job: Job, team: Option<string>, rule: Option<string>) {
    (team.Some? ==> TeamName(job) == team.value) && (rule.Some? ==> job.routeBy == rule.value)
  }

  function Count(jobs: seq<Job>, team: Option<string>, rule: Option<string>): nat {
    if jobs == [] then 0
    else Count(jobs[..|jobs| - 1], team, rule) + if Hits(jobs[|jobs| - 1], team, rule) then 1 else 0
  }

  lemma CountSnoc(jobs: seq<Job>, job: Job, team: Option<string>, rule: Option<string>)
    ensures Count(jobs + [job], team, rule) == Count(jobs, team, rule) + if Hits(job, team, rule) then 1 else 0
  {
    assert (jobs + [job])[..|jobs|] == jobs;
  }

  /** Whether the job counts, said of its columns. */
  predicate Counts(job: Job, team: Option<string>, rule: Option<string>) {
    && (rule.Some? ==> job.routeBy == rule.value)
    && (team.Some? ==> if job.route != "" then job.route == team.value else team.value == "не опознан")
  }

  lemma CountsExactly(job: Job, team: Option<string>, rule: Option<string>)
    ensures Hits(job, team, rule) <==> Counts(job, team, rule)
  {
  }

  /** For each job whether it counts. */
  function Flags(jobs: seq<Job>, team: Option<string>, rule: Option<string>): seq<bool> {
    seq(|jobs|, i requires 0 <= i < |jobs| => Counts(jobs[i], team, rule))
  }

  ghost function Set(flags: seq<bool>): set<nat> {
    set i: nat | i < |flags| && flags[i]
  }

  lemma SetSnoc(flags: seq<bool>, b: bool)
    ensures |Set(flags + [b])| == |Set(flags)| + if b then 1 else 0
  {
    var before, after := Set(flags), Set(flags + [b]);
    assert after == if b then before + {|flags|} else before;
  }

  /** The count is how many there are. */
  lemma {:induction false} CountIsCardinality(jobs: seq<Job>, team: Option<string>, rule: Option<string>)
    ensures Count(jobs, team, rule) == |Set(Flags(jobs, team, rule))|
  {
    if jobs != [] {
      var init, last := jobs[..|jobs| - 1], jobs[|jobs| - 1];
      assert Flags(jobs, team, rule) == Flags(init, team, rule) + [Counts(last, team, rule)];
      CountIsCardinality(init, team, rule);
      CountsExactly(last, team, rule);
      SetSnoc(Flags(init, team, rule), Counts(last, team, rule));
    }
  }

  lemma {:induction false} CountAll(jobs: seq<Job>)
    ensures Count(jobs, None, None) == |jobs|
  {
    if jobs != [] {
      CountAll(jobs[..|jobs| - 1]);
    }
  }

  /** The addresses of a list that are not there yet, each once. */
  function AddNew(known: seq<string>, list: seq<string>): seq<string>
    decreases list
  {
    if list == [] then known
    else AddNew(if list[0] in known then known else known + [list[0]], list[1..])
  }

  /** New addresses go to the end, in the order in which they come. */
  lemma {:induction false} AddNewSnoc(known: seq<string>, list: seq<string>, address: string)
    ensures var before := AddNew(known, list);
            AddNew(known, list + [address]) == if address in before then before else before + [address]
    ensures known <= AddNew(known, list)
    decreases list
  {
    if list == [] {
      assert [] + [address] == [address] && [address][1..] == [];
    } else {
      assert (list + [address])[1..] == list[1..] + [address];
      AddNewSnoc(if list[0] in known then known else known + [list[0]], list[1..], address);
    }
  }

  /** A team's mailboxes, in the order in which they first received a mail. */
  function Mailboxes(jobs: seq<Job>, team: string): seq<string> {
    if jobs == [] then []
    else
      var before, last := Mailboxes(jobs[..|jobs| - 1], team), jobs[|jobs| - 1];
      if TeamName(last) == team then AddNew(before, Mailer.ReadRecipients(last.emailedTo)) else before
  }

  lemma MailboxesSnoc(jobs: seq<Job>, job: Job, team: string)
    ensures Mailboxes(jobs + [job], team) ==
            var before := Mailboxes(jobs, team);
            if TeamName(job) == team then AddNew(before, Mailer.ReadRecipients(job.emailedTo)) else before
  {
    assert (jobs + [job])[..|jobs|] == jobs;
  }

  ghost predicate NoRepeats(list: seq<string>) {
    forall i, j :: 0 <= i < j < |list| ==> list[i] != list[j]
  }

  lemma {:induction false} AddNewHas(known: seq<string>, list: seq<string>)
    requires NoRepeats(known)
    ensures forall a :: a in AddNew(known, list) <==> a in known || a in list
    ensures NoRepeats(AddNew(known, list))
    decreases list
  {
    if list != [] {
      AddNewHas(if list[0] in known then known else known + [list[0]], list[1..]);
      assert list == [list[0]] + list[1..];
    }
  }

  /** Exactly the recorded recipients of the team's mails, each once. */
  lemma {:induction false} MailboxesAreRecipients(jobs: seq<Job>, team: string)
    ensures forall a :: a in Mailboxes(jobs, team) <==>
              exists j :: j in jobs && TeamName(j) == team && a in Mailer.ReadRecipients(j.emailedTo)
    ensures NoRepeats(Mailboxes(jobs, team))
  {
    if jobs != [] {
      var init, last := jobs[..|jobs| - 1], jobs[|jobs| - 1];
      assert jobs == init + [last];
      MailboxesAreRecipients(init, team);
      AddNewHas(Mailboxes(init, team), Mailer.ReadRecipients(last.emailedTo));
    }
  }

  /** How often each rule occurs, over all jobs or over one team's. */
  ghost predicate Tallies(t: Tally, jobs: seq<Job>, team: Option<string>) {
    && t.Valid() && SumBy(t.Values(), NumberOf()) == Count(jobs, team, None)
    && Positive(t) && forall rule :: NumberIn(t, rule) == Count(jobs, team, Some(rule))
  }

  ghost predicate IsTeam(t: Team, name: string, jobs: seq<Job>) {
    && t.route == name && t.count == Count(jobs, Some(name), None) > 0
    && Tallies(t.rules, jobs, Some(name)) && t.emailTo == Mailboxes(jobs, name)
  }

  /** The entries of the loop: one for each team that occurs. */
  ghost predicate AreTeams(d: Dict<string, Team>, jobs: seq<Job>) {
    && d.Valid() && SumBy(d.Values(), CountOf()) == |jobs|
    && (forall name :: name in d.at <==> Count(jobs, Some(name), None) > 0)
    && (forall name :: name in d.at ==> IsTeam(d.at[name], name, jobs))
  }

  // ---- one more job ----

  /** No rule is listed without a call. */
  ghost predicate Positive(t: Tally) {
    forall k :: k in t.at ==> t.at[k] > 0
  }

  lemma TallyPut(t: Tally, key: string, u: Tally)
    requires t.Valid() && Positive(t) && u == t.Put(key, NumberIn(t, key) + 1)
    ensures u.Valid() && Positive(u) && SumBy(u.Values(), NumberOf()) == SumBy(t.Values(), NumberOf()) + 1
    ensures forall k :: NumberIn(u, k) == NumberIn(t, k) + if k == key then 1 else 0
  {
    PutSum(t, key, NumberIn(t, key) + 1, NumberOf());
  }

  lemma CountNext(jobs: seq<Job>, job: Job, team: Option<string>)
    ensures Count(jobs + [job], team, None) == Count(jobs, team, None) + if Hits(job, team, None) then 1 else 0
    ensures forall rule :: Count(jobs + [job], team, Some(rule)) ==
                           Count(jobs, team, Some(rule)) + if Hits(job, team, None) && rule == job.routeBy then 1 else 0
  {
    CountSnoc(jobs, job, team, None);
    forall rule ensures Count(jobs + [job], team, Some(rule)) ==
                        Count(jobs, team, Some(rule)) + if Hits(job, team, None) && rule == job.routeBy then 1 else 0 {
      CountSnoc(jobs, job, team, Some(rule));
    }
  }

  lemma TallyHit(t: Tally, jobs: seq<Job>, job: Job, team: Option<string>, u: Tally)
    requires Tallies(t, jobs, team) && Hits(job, team, None) && u == t.Put(job.routeBy, NumberIn(t, job.routeBy) + 1)
    ensures Tallies(u, jobs + [job], team)
  {
    TallyPut(t, job.routeBy, u);
    CountNext(jobs, job, team);
  }

  lemma TallyMiss(t: Tally, jobs: seq<Job>, job: Job, team: Option<string>)
    requires Tallies(t, jobs, team) && !Hits(job, team, None)
    ensures Tallies(t, jobs + [job], team)
  {
    CountNext(jobs, job, team);
  }

  lemma OtherTeam(t: Team, name: string, jobs: seq<Job>, job: Job)
    requires IsTeam(t, name, jobs) && TeamName(job) != name
    ensures IsTeam(t, name, jobs + [job])
  {
    CountSnoc(jobs, job, Some(name), None);
    TallyMiss(t.rules, jobs, job, Some(name));
    MailboxesSnoc(jobs, job, name);
  }

  lemma SameTeam(t: Team, rules: Tally, emailTo: seq<string>, jobs: seq<Job>, job: Job)
    requires t.route == TeamName(job) && t.count == Count(jobs, Some(t.route), None)
    requires Tallies(t.rules, jobs, Some(t.route)) && t.emailTo == Mailboxes(jobs, t.route)
    requires rules == t.rules.Put(job.routeBy, NumberIn(t.rules, job.routeBy) + 1)
    requires emailTo == AddNew(t.emailTo, Mailer.ReadRecipients(job.emailedTo))
    ensures IsTeam(Team(t.route, t.count + 1, rules, emailTo), t.route, jobs + [job])
  {
    CountSnoc(jobs, job, Some(t.route), None);
    TallyHit(t.rules, jobs, job, Some(t.route), rules);
    MailboxesSnoc(jobs, job, t.route);
  }

  lemma TeamsSum(d: Dict<string, Team>, jobs: seq<Job>, job: Job, t: Team)
    requires AreTeams(d, jobs) && t.count == Count(jobs + [job], Some(TeamName(job)), None)
    ensures d.Put(TeamName(job), t).Valid() && SumBy(d.Put(TeamName(job), t).Values(), CountOf()) == |jobs| + 1
  {
    PutSum(d, TeamName(job), t, CountOf());
    CountSnoc(jobs, job, Some(TeamName(job)), None);
  }

  lemma TeamsKnown(d: Dict<string, Team>, jobs: seq<Job>, job: Job, t: Team, other: string)
    requires AreTeams(d, jobs)
    ensures other in d.Put(TeamName(job), t).at <==> Count(jobs + [job], Some(other), None) > 0
  {
    CountSnoc(jobs, job, Some(other), None);
  }

  lemma TeamsNext(d: Dict<string, Team>, jobs: seq<Job>, job: Job, t: Team)
    requires AreTeams(d, jobs) && IsTeam(t, TeamName(job), jobs + [job])
    ensures AreTeams(d.Put(TeamName(job), t), jobs + [job])
  {
    var e := d.Put(TeamName(job), t);
    TeamsSum(d, jobs, job, t);
    forall other ensures other in e.at <==> Count(jobs + [job], Some(other), None) > 0 {
      TeamsKnown(d, jobs, job, t, other);
    }
    forall other | other in e.at ensures IsTeam(e.at[other], other, jobs + [job]) {
      if other != TeamName(job) {
        OtherTeam(d.at[other], other, jobs, job);
      }
    }
  }

  lemma {:induction false} NobodyYet(team: Option<string>)
    ensures Tallies(Dict([], map[]), [], team)
  {
    var none: Tally := Dict([], map[]);
    assert none.Values() == [];
  }

  lemma {:induction false} NoMailboxes(jobs: seq<Job>, name: string)
    requires Count(jobs, Some(name), None) == 0
    ensures Mailboxes(jobs, name) == []
  {
    if jobs != [] {
      NoMailboxes(jobs[..|jobs| - 1], name);
    }
  }

  lemma {:induction false} NoRules(jobs: seq<Job>, name: string, rule: Option<string>)
    requires Count(jobs, Some(name), None) == 0
    ensures Count(jobs, Some(name), rule) == 0
  {
    if jobs != [] {
      NoRules(jobs[..|jobs| - 1], name, rule);
    }
  }

  /** A team that has not occurred starts with an empty entry. */
  lemma FreshTeam(jobs: seq<Job>, name: string)
    requires Count(jobs, Some(name), None) == 0
    ensures Tallies(Dict([], map[]), jobs, Some(name)) && Mailboxes(jobs, name) == []
  {
    NobodyYet(Some(name));
    NoMailboxes(jobs, name);
    forall rule: Option<string> ensures Count(jobs, Some(name), rule) == 0 {
      NoRules(jobs, name, rule);
    }
  }

  // ---- the loops ----

  /** Add the recipients not listed yet. */
  method AddMailboxes(known: seq<string>, column: string) returns (all: seq<string>)
    ensures all == AddNew(known, Mailer.ReadRecipients(column))
  {
    all := known;
    var list := Mailer.ReadRecipients(column);
    for i := 0 to |list|
      invariant AddNew(all, list[i..]) == AddNew(known, list)
    {
      assert list[i..][1..] == list[i + 1..];
      if list[i] !in all {
        all := all + [list[i]];
      }
    }
  }

  /** The entry of the job's team with the job added. */
  method AddToTeam(d: Dict<string, Team>, job: Job, ghost jobs: seq<Job>) returns (t: Team)
    requires AreTeams(d, jobs)
    ensures IsTeam(t, TeamName(job), jobs + [job])
  {
    var name := TeamName(job);
    var entry := Team(name, 0, Dict([], map[]), []);
    if name in d.at {
      entry := d.at[name];
    } else {
      FreshTeam(jobs, name);
    }
    var rules := entry.rules.Put(job.routeBy, NumberIn(entry.rules, job.routeBy) + 1);
    var emailTo := AddMailboxes(entry.emailTo, job.emailedTo);
    SameTeam(entry, rules, emailTo, jobs, job);
    t := Team(name, entry.count + 1, rules, emailTo);
  }

  /** What the report says: nothing is lost and nothing is counted twice. */
  ghost predicate Reports(r: StatsReport, jobs: seq<Job>) {
    && r.total == |jobs| && Tallies(r.rules, jobs, None)
    && SumBy(r.rules.Values(), NumberOf()) == r.total && SumBy(r.teams, CountOf()) == r.total
    && (forall t :: t in r.teams ==> IsTeam(t, t.route, jobs) && SumBy(t.rules.Values(), NumberOf()) == t.count)
    && (forall j :: j in jobs ==>
          exists t :: t in r.teams && t.route == if j.route != "" then j.route else "не опознан")
    && Ranked(r.teams)
  }

  /** The most calls first, and names in order among equals. */
  ghost predicate Ranked(teams: seq<Team>) {
    forall i, j :: 0 <= i < j < |teams| ==>
      teams[i].count > teams[j].count
      || (teams[i].count == teams[j].count && !Text.Before(teams[j].route, teams[i].route))
  }

  /** `routing_stats`, for the delivered jobs of the period. */
  method RoutingStats(jobs: seq<Job>) returns (r: StatsReport)
    ensures Reports(r, jobs)
  {
    var totals: Tally := Dict([], map[]);
    var routes: Dict<string, Team> := Dict([], map[]);
    NobodyYet(None);
    assert routes.Values() == [];
    for i := 0 to |jobs|
      invariant Tallies(totals, jobs[..i], None) && AreTeams(routes, jobs[..i])
    {
      var job := jobs[i];
      Text.OneMore(jobs, i);
      ghost var before := totals;
      totals := totals.Put(job.routeBy, NumberIn(totals, job.routeBy) + 1);
      TallyHit(before, jobs[..i], job, None, totals);
      var entry := AddToTeam(routes, job, jobs[..i]);
      TeamsNext(routes, jobs[..i], job, entry);
      routes := routes.Put(TeamName(job), entry);
    }
    assert jobs[..|jobs|] == jobs;
    r := StatsReport(|jobs|, totals, SortBy(routes.Values(), TeamOrder()));
    Finished(routes, totals, jobs);
  }

  lemma {:induction false} Counted(jobs: seq<Job>, j: Job)
    requires j in jobs
    ensures Count(jobs, Some(TeamName(j)), None) > 0
  {
    if j in jobs[..|jobs| - 1] {
      Counted(jobs[..|jobs| - 1], j);
    }
  }

  lemma TeamOrderIsStrict()
    ensures StrictOrder(TeamOrder())
  {
    var before := TeamOrder();
    forall a, b | before(a, b) ensures !before(b, a) {
      if a.count == b.count && Text.Before(b.route, a.route) {
        Text.BeforeTransitive(a.route, b.route, a.route);
        Text.BeforeIrreflexive(a.route);
      }
    }
    forall a, b, c | !before(b, a) && !before(c, b) ensures !before(c, a) {
      if before(c, a) {
        Text.BeforeTotal(a.route, b.route);
        Text.BeforeTotal(b.route, c.route);
        NamesInOrder(a.route, b.route, c.route);
      }
    }
  }

  lemma NamesInOrder(a: string, b: string, c: string)
    requires !Text.Before(b, a) && !Text.Before(c, b)
    ensures !Text.Before(c, a)
  {
    Text.BeforeTotal(a, b);
    Text.BeforeTotal(b, c);
    if Text.Before(c, a) {
      if a != b { Text.BeforeTransitive(c, a, b); }
      assert false;
    }
  }

  lemma SortedTeams(routes: Dict<string, Team>, jobs: seq<Job>, t: Team)
    requires AreTeams(routes, jobs)
    ensures t in SortBy(routes.Values(), TeamOrder()) <==> t.route in routes.at && t == routes.at[t.route]
  {
    var values := routes.Values();
    SortElements(values, TeamOrder());
    assert t in SortBy(values, TeamOrder()) <==> t in multiset(SortBy(values, TeamOrder()));
    assert t in values <==> t in multiset(values);
    if t.route in routes.at {
      ValueIn(routes, t.route);
    }
    if t in values {
      var i :| 0 <= i < |values| && values[i] == t;
      assert routes.keys[i] in routes.at && IsTeam(t, routes.keys[i], jobs);
    }
  }

  lemma Finished(routes: Dict<string, Team>, totals: Tally, jobs: seq<Job>)
    requires Tallies(totals, jobs, None) && AreTeams(routes, jobs)
    ensures Reports(StatsReport(|jobs|, totals, SortBy(routes.Values(), TeamOrder())), jobs)
  {
    var teams := SortBy(routes.Values(), TeamOrder());
    CountAll(jobs);
    SortSum(routes.Values(), TeamOrder(), CountOf());
    SortedRanked(routes.Values());
    EachIsTeam(routes, jobs);
    EachHasTeam(routes, jobs);
  }

  lemma EachIsTeam(routes: Dict<string, Team>, jobs: seq<Job>)
    requires AreTeams(routes, jobs)
    ensures forall t :: t in SortBy(routes.Values(), TeamOrder()) ==>
              IsTeam(t, t.route, jobs) && SumBy(t.rules.Values(), NumberOf()) == t.count
  {
    forall t | t in SortBy(routes.Values(), TeamOrder()) ensures t.route in routes.at && t == routes.at[t.route] {
      SortedTeams(routes, jobs, t);
    }
  }

  lemma EachHasTeam(routes: Dict<string, Team>, jobs: seq<Job>)
    requires AreTeams(routes, jobs)
    ensures forall j :: j in jobs ==>
              exists t :: t in SortBy(routes.Values(), TeamOrder())
                          && t.route == if j.route != "" then j.route else "не опознан"
  {
    forall j | j in jobs
      ensures exists t :: t in SortBy(routes.Values(), TeamOrder())
                          && t.route == if j.route != "" then j.route else "не опознан"
    {
      var t := TeamOf(routes, jobs, j);
    }
  }

  lemma SortedRanked(values: seq<Team>)
    ensures Ranked(SortBy(values, TeamOrder()))
  {
    TeamOrderIsStrict();
    SortInOrder(values, TeamOrder());
  }

  /** Every call's team is in the report. */
  lemma TeamOf(routes: Dict<string, Team>, jobs: seq<Job>, j: Job) returns (t: Team)
    requires AreTeams(routes, jobs) && j in jobs
    ensures t in SortBy(routes.Values(), TeamOrder()) && t.route == TeamName(j)
  {
    Counted(jobs, j);
    t := routes.at[TeamName(j)];
    SortedTeams(routes, jobs, t);
  }
}
