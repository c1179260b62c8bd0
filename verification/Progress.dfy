/**
  When the queue can still empty: from any state, exactly when every pending job's URL can be fetched
  and its message can be sent, and every job being delivered can be sent where it still has to go.
 */
module Progress {
  import opened Prelude
  import opened Jobs
  import opened Protocol
  import opened Invariant
  import opened Drain
  import Guarantees

  // ---- continuations without new work ----

  /** Neither the API nor the scanner acts. */
  ghost predicate Quiet(actions: seq<Action>) {
    forall a :: a in actions ==> !Arrives(a)
  }

  /** Some such continuation of the run ends in `t`. */
  ghost predicate Leads(c: Config, s: State, t: State) {
    exists actions :: Quiet(actions) && Run(c, s, actions) && After(c, s, actions) == t
  }

  lemma LeadsNowhere(c: Config, s: State)
    ensures Leads(c, s, s)
  {
    assert Run(c, s, []) && Quiet([]) && After(c, s, []) == s;
  }

  lemma LeadsOn(c: Config, s: State, t: State, a: Action)
    requires Leads(c, s, t) && Enabled(c, t, a) && !Arrives(a)
    ensures Leads(c, s, Next(c, t, a))
  {
    var actions :| Quiet(actions) && Run(c, s, actions) && After(c, s, actions) == t;
    RunSnoc(c, s, actions, a);
    assert Quiet(actions + [a]);
  }

  /** Delivery and processing leave the URLs as they are. */
  ghost predicate SameUrls(rows: Rows, after: Rows) {
    rows.Keys == after.Keys && forall id :: id in rows ==> after[id].url == rows[id].url
  }

  lemma DeliveryKeepsUrls(c: Config, s: State, a: Action)
    requires Enabled(c, s, a) && Delivers(a)
    ensures SameUrls(s.rows, NextDelivery(c, s, a).rows)
  {
  }

  lemma ProcessKeepsUrls(c: Config, s: State, a: Action)
    requires Enabled(c, s, a) && Processes(a)
    ensures SameUrls(s.rows, Process(c, s, a).rows)
  {
  }

  lemma ProcessingKeepsUrls(c: Config, s: State, a: Action)
    requires Enabled(c, s, a) && Processes(a)
    ensures SameUrls(s.rows, NextProcessing(c, s, a).rows)
  {
    ProcessKeepsUrls(c, s, a);
    ProcessedRows(c, s, a);
  }

  // ---- jobs that cannot be finished ----

  /** With this transcript and summary every enabled channel can be tried; two empty texts stand for a failure. */
  predicate Sends(c: Config, id: string, url: string, summary: string, fullText: string) {
    forall ch :: ch in Channels(c) ==> c.sendable(ch, id, Recipients(c, url, summary, fullText, ch))
  }

  ghost predicate SendsSomehow(c: Config, id: string, url: string) {
    exists summary, fullText :: Sends(c, id, url, summary, fullText)
  }

  /** What a pending job needs: a URL that does not parse is reported, any other fetched and transcribed. */
  ghost predicate CanFinish(c: Config, id: string, url: string) {
    if c.parses(url) then c.fetchable(url) && SendsSomehow(c, id, url) else Sends(c, id, url, "", "")
  }

  /** Every channel the job still needs can be tried. */
  predicate CanClose(c: Config, id: string, job: Job) {
    forall ch :: ch in Channels(c) && ch !in job.delivered ==> CanSend(c, id, job, ch)
  }

  /** The job is unfinished and always will be. */
  ghost predicate Hopeless(c: Config, id: string, job: Job) {
    (job.Pending() && !CanFinish(c, id, job.url)) || (job.status.Delivering? && !CanClose(c, id, job))
  }

  ghost predicate NoneHopeless(c: Config, rows: Rows) {
    forall id :: id in rows ==> !Hopeless(c, id, rows[id])
  }

  /** Delivery keeps what a message is made of. */
  lemma DeliveryKeepsMessage(c: Config, s: State, a: Action, id: string)
    requires Enabled(c, s, a) && Delivers(a) && id in s.rows
    ensures var t := NextDelivery(c, s, a);
            && id in t.rows && t.rows[id].url == s.rows[id].url
            && t.rows[id].summary == s.rows[id].summary && t.rows[id].fullText == s.rows[id].fullText
  {
  }

  /** A channel is recorded only after it has been tried, and a job closed only when it needs none. */
  lemma CloseAfterDelivery(c: Config, s: State, a: Action)
    requires HeldOk(c, s) && Enabled(c, s, a) && Delivers(a)
    ensures var t, x := NextDelivery(c, s, a), s.control.job.id;
            && x in s.rows && x in t.rows && s.rows[x].status.Delivering? && !t.rows[x].Pending()
            && (CanClose(c, x, s.rows[x]) <==> CanClose(c, x, t.rows[x]))
            && (!t.rows[x].status.Delivering? ==> CanClose(c, x, s.rows[x]))
  {
    DeliveryKeepsMessage(c, s, a, s.control.job.id);
    if a.RecordAcceptance? {
      RemainingTail(c, s.control.left);
    }
  }

  lemma HopelessAfterDelivery(c: Config, s: State, a: Action, id: string)
    requires HeldOk(c, s) && Enabled(c, s, a) && Delivers(a) && id in s.rows
    ensures var rows := NextDelivery(c, s, a).rows;
            id in rows && (Hopeless(c, id, rows[id]) <==> Hopeless(c, id, s.rows[id]))
  {
    Guarantees.GraphDelivery(c, s, a, id);
    CloseAfterDelivery(c, s, a);
  }

  /** A job that enters delivery was transcribed, or has nothing but its failure to tell. */
  lemma EnteredRow(c: Config, s: State, a: Action)
    requires HeldOk(c, s) && Enabled(c, s, a) && Processes(a) && Process(c, s, a).Entered?
    requires s.control.job.id in s.rows && RowOk(c, s.rows[s.control.job.id])
    ensures var x, rows := s.control.job.id, Process(c, s, a).rows;
            && x in rows && rows[x].status.Delivering? && rows[x].delivered == {} && rows[x].url == s.rows[x].url
            && (if c.parses(rows[x].url) then c.fetchable(rows[x].url)
                else rows[x].fullText.None? && rows[x].summary.None?)
  {
  }

  lemma HopelessIfEntered(c: Config, s: State, a: Action)
    requires HeldOk(c, s) && Enabled(c, s, a) && Processes(a) && Process(c, s, a).Entered?
    requires s.control.job.id in s.rows && RowOk(c, s.rows[s.control.job.id])
    ensures var x, rows := s.control.job.id, Process(c, s, a).rows;
            && x in rows && (Hopeless(c, x, s.rows[x]) ==> Hopeless(c, x, rows[x]))
  {
    EnteredRow(c, s, a);
    var x := s.control.job.id;
    var row := Process(c, s, a).rows[x];
    if CanClose(c, x, row) {
      assert Sends(c, x, row.url, row.summary.GetOr(""), row.fullText.GetOr(""));
    }
  }

  /** Processing keeps a hopeless job hopeless, and makes one only by handing a job over for delivery. */
  lemma HopelessAfterProcessing(c: Config, s: State, a: Action, id: string)
    requires HeldOk(c, s) && Enabled(c, s, a) && Processes(a) && id in s.rows
    requires s.control.job.id in s.rows && RowOk(c, s.rows[s.control.job.id])
    ensures var p := Process(c, s, a);
            && id in p.rows && (Hopeless(c, id, s.rows[id]) ==> Hopeless(c, id, p.rows[id]))
            && ((p.Kept? || id != s.control.job.id) && Hopeless(c, id, p.rows[id]) ==> Hopeless(c, id, s.rows[id]))
  {
    ProcessedRow(c, s, a, id);
    ProcessKeepsUrls(c, s, a);
    if id == s.control.job.id && Process(c, s, a).Entered? {
      HopelessIfEntered(c, s, a);
    }
  }

  /** The action hands a job over for delivery. */
  predicate Enters(c: Config, s: State, a: Action)
    requires Enabled(c, s, a)
  {
    Processes(a) && Process(c, s, a).Entered?
  }

  lemma HeldRowOk(c: Config, s: State, a: Action)
    requires HeldOk(c, s) && RowsOk(c, s.rows) && Enabled(c, s, a) && Processes(a)
    ensures s.control.job.id in s.rows && RowOk(c, s.rows[s.control.job.id])
  {
  }

  /** Arrivals leave unfinished jobs alone. */
  lemma HopelessAfterArrival(c: Config, s: State, a: Action, id: string)
    requires Enabled(c, s, a) && Arrives(a) && id in s.rows
    ensures var rows := NextArrival(c, s, a).rows;
            id in rows && (Hopeless(c, id, s.rows[id]) ==> Hopeless(c, id, rows[id]))
  {
    Guarantees.GraphArrival(c, s, a, id);
    if Hopeless(c, id, s.rows[id]) {
      ArrivalChangesOnlyFailed(c, s, a, id);
    }
  }

  /** Whatever happens, a hopeless job stays one. */
  lemma HopelessStep(c: Config, s: State, a: Action, id: string)
    requires HeldOk(c, s) && RowsOk(c, s.rows) && Enabled(c, s, a) && id in s.rows
    ensures id in Next(c, s, a).rows
    ensures Hopeless(c, id, s.rows[id]) ==> Hopeless(c, id, Next(c, s, a).rows[id])
    ensures !Arrives(a) && (!Enters(c, s, a) || id != s.control.job.id) && Hopeless(c, id, Next(c, s, a).rows[id]) ==>
              Hopeless(c, id, s.rows[id])
  {
    if Delivers(a) {
      HopelessAfterDelivery(c, s, a, id);
    } else if Processes(a) {
      HeldRowOk(c, s, a);
      HopelessAfterProcessing(c, s, a, id);
      ProcessedRows(c, s, a);
    } else if Arrives(a) {
      HopelessAfterArrival(c, s, a, id);
    } else {
      assert Next(c, s, a).rows == s.rows;
    }
  }

  /** In every run, with any arrivals and crashes, a hopeless job is never finished. */
  lemma {:induction false} HopelessForever(c: Config, s: State, actions: seq<Action>, id: string)
    requires Inv(c, s) && Run(c, s, actions) && id in s.rows && Hopeless(c, id, s.rows[id])
    ensures id in After(c, s, actions).rows && Hopeless(c, id, After(c, s, actions).rows[id])
    decreases |actions|
  {
    if actions == [] {
    } else {
      HopelessStep(c, s, actions[0], id);
      KeepInv(c, s, actions[0]);
      HopelessForever(c, Next(c, s, actions[0]), actions[1..], id);
    }
  }

  // ---- emptying the queue ----

  /** `t` comes after `s` without new work. */
  ghost predicate Ahead(c: Config, s: State, t: State) {
    Leads(c, s, t) && Inv(c, t)
  }

  /** ... and every job in it can be finished. */
  ghost predicate Hopeful(c: Config, s: State, t: State) {
    Ahead(c, s, t) && NoneHopeless(c, t.rows)
  }

  lemma QuietKeepsKeys(c: Config, s: State, a: Action)
    requires Enabled(c, s, a) && !Arrives(a)
    ensures Next(c, s, a).rows.Keys == s.rows.Keys && Next(c, s, a).arrived == s.arrived
  {
    if Delivers(a) {
      DeliveryKeepsUrls(c, s, a);
    } else if Processes(a) {
      ProcessingKeepsUrls(c, s, a);
    }
  }

  lemma Step(c: Config, s: State, t: State, a: Action) returns (u: State)
    requires Ahead(c, s, t) && Enabled(c, t, a) && !Arrives(a)
    ensures u == Next(c, t, a) && Ahead(c, s, u)
  {
    u := Next(c, t, a);
    LeadsOn(c, s, t, a);
    KeepInv(c, t, a);
  }

  lemma Go(c: Config, s: State, t: State, a: Action) returns (u: State)
    requires Hopeful(c, s, t) && Enabled(c, t, a) && !Arrives(a)
    requires Enters(c, t, a) ==>
               t.control.job.id in Process(c, t, a).rows
               && !Hopeless(c, t.control.job.id, Process(c, t, a).rows[t.control.job.id])
    ensures u == Next(c, t, a) && Hopeful(c, s, u)
    ensures Measure(c, u.rows) <= Measure(c, t.rows) - if Completes(c, t, a) then 1 else 0
  {
    u := Step(c, s, t, a);
    StepLowersMeasure(c, t, a);
    QuietKeepsKeys(c, t, a);
    if Enters(c, t, a) {
      ProcessedRows(c, t, a);
    }
    forall id | id in u.rows ensures !Hopeless(c, id, u.rows[id]) {
      HopelessStep(c, t, a, id);
    }
  }

  lemma GoOverChannel(c: Config, s: State, t: State) returns (u: State)
    requires Hopeful(c, s, t) && t.control.Sending? && t.control.left != []
    requires t.control.left[0] in t.control.job.job.delivered
    ensures Hopeful(c, s, u) && u.control == Sending(t.control.job, t.control.left[1..], t.control.todo)
    ensures Measure(c, u.rows) <= Measure(c, t.rows)
  {
    u := Go(c, s, t, SkipChannel);
  }

  lemma GoSend(c: Config, s: State, t: State) returns (u: State)
    requires Hopeful(c, s, t) && t.control.Sending? && t.control.left != []
    requires t.control.left[0] !in t.control.job.job.delivered
    ensures Hopeful(c, s, u) && u.control == Marking(t.control.job, t.control.left, t.control.todo)
    ensures Measure(c, u.rows) <= Measure(c, t.rows)
  {
    HopefulSends(c, t);
    u := Go(c, s, t, Send(Accepted));
  }

  lemma GoRecord(c: Config, s: State, t: State) returns (u: State)
    requires Hopeful(c, s, t) && t.control.Marking? && t.control.left != []
    ensures Hopeful(c, s, u) && u.control == Sending(t.control.job, t.control.left[1..], t.control.todo)
    ensures Measure(c, u.rows) <= Measure(c, t.rows)
  {
    u := Go(c, s, t, RecordAcceptance);
  }

  /** Any channel still needed can be tried. */
  lemma HopefulSends(c: Config, t: State)
    requires HeldOk(c, t) && NoneHopeless(c, t.rows) && Tries(t.control)
    ensures CanSend(c, t.control.job.id, t.control.job.job, t.control.left[0])
  {
    RemainingTail(c, t.control.left);
    var id := t.control.job.id;
    assert CanClose(c, id, t.rows[id]);
    assert CanSend(c, id, t.rows[id], t.control.left[0]);
  }

  /** Every channel still to be tried accepts. */
  lemma {:induction false} AllAccept(c: Config, s: State, t: State) returns (u: State)
    requires Hopeful(c, s, t) && t.control.Sending?
    ensures Hopeful(c, s, u) && u.control == Sending(t.control.job, [], t.control.todo)
    ensures Measure(c, u.rows) <= Measure(c, t.rows)
    decreases |t.control.left|
  {
    if t.control.left == [] {
      u := t;
    } else if t.control.left[0] in t.control.job.job.delivered {
      u := GoOverChannel(c, s, t);
      u := AllAccept(c, s, u);
    } else {
      u := GoSend(c, s, t);
      u := GoRecord(c, s, u);
      u := AllAccept(c, s, u);
    }
  }

  lemma GoAttribute(c: Config, s: State, t: State) returns (u: State)
    requires Hopeful(c, s, t) && t.control.Sending? && t.control.left == [] && t.control.job.job.fullText.Some?
    ensures Hopeful(c, s, u) && u.control.Routed? && Measure(c, u.rows) <= Measure(c, t.rows)
  {
    u := Go(c, s, t, RecordRouting(0));
  }

  /** A closing action makes progress. */
  lemma GoClose(c: Config, s: State, t: State, a: Action) returns (u: State)
    requires Hopeful(c, s, t) && Enabled(c, t, a) && (a.CloseFailure? || a.CloseSuccess?)
    ensures Hopeful(c, s, u) && Measure(c, u.rows) < Measure(c, t.rows)
  {
    u := Go(c, s, t, a);
  }

  /** A restart loses only the worker's place. */
  lemma GoIdle(c: Config, s: State, t: State) returns (u: State)
    requires Hopeful(c, s, t)
    ensures Hopeful(c, s, u) && u.control.Idle? && Measure(c, u.rows) <= Measure(c, t.rows)
  {
    u := Go(c, s, t, Crash);
  }

  /** With every acceptance recorded the job is closed. */
  lemma CloseJob(c: Config, s: State, t: State) returns (u: State)
    requires Hopeful(c, s, t) && t.control.Sending? && t.control.left == []
    ensures Hopeful(c, s, u) && u.control.Idle? && Measure(c, u.rows) < Measure(c, t.rows)
  {
    if t.control.job.job.fullText.None? {
      u := GoClose(c, s, t, CloseFailure);
    } else {
      u := GoAttribute(c, s, t);
      u := GoClose(c, s, u, CloseSuccess);
    }
    u := GoIdle(c, s, u);
  }

  lemma GoSweep(c: Config, s: State, t: State) returns (u: State)
    requires Hopeful(c, s, t) && t.control.Idle?
    ensures Hopeful(c, s, u) && u.control == Sweeping(ListDelivering(t.rows)) && u.rows == t.rows
  {
    u := Go(c, s, t, BeginSweep);
  }

  lemma GoOpen(c: Config, s: State, t: State) returns (u: State)
    requires Hopeful(c, s, t) && t.control.Sweeping? && t.control.todo != []
    ensures Hopeful(c, s, u) && u.control.Sending? && u.rows == t.rows
  {
    u := Go(c, s, t, OpenJob);
  }

  lemma DeliverOne(c: Config, s: State, t: State) returns (u: State)
    requires Hopeful(c, s, t) && t.control.Idle? && ListDelivering(t.rows) != []
    ensures Hopeful(c, s, u) && u.control.Idle? && Measure(c, u.rows) < Measure(c, t.rows)
  {
    u := GoSweep(c, s, t);
    u := GoOpen(c, s, u);
    u := AllAccept(c, s, u);
    u := CloseJob(c, s, u);
  }

  lemma GoPick(c: Config, s: State, t: State) returns (u: State)
    requires Hopeful(c, s, t) && t.control == Sweeping([]) && NextPending(t.rows).Some?
    ensures Hopeful(c, s, u) && u.control.Picked? && u.rows == t.rows
  {
    u := Go(c, s, t, TakePending);
  }

  lemma GoStart(c: Config, s: State, t: State) returns (u: State)
    requires Hopeful(c, s, t) && t.control.Picked?
    ensures Hopeful(c, s, u) && u.control.Working? && Measure(c, u.rows) <= Measure(c, t.rows)
  {
    u := Go(c, s, t, StartJob);
  }

  /** What is handed over can be delivered, if it was transcribed with such texts. */
  lemma GoodResult(c: Config, t: State, summary: string, fullText: string)
    requires HeldOk(c, t) && t.control.Working? && Enabled(c, t, FinishStages(Success(fullText, summary)))
    requires Sends(c, t.control.job.id, t.control.job.job.url, summary, fullText)
    ensures var p, x := Process(c, t, FinishStages(Success(fullText, summary))), t.control.job.id;
            p.Entered? && x in p.rows && !Hopeless(c, x, p.rows[x])
  {
    var x := t.control.job.id;
    var row := Process(c, t, FinishStages(Success(fullText, summary))).rows[x];
    assert row == WithResult(t.rows[x], fullText, summary);
    forall ch | ch in Channels(c) ensures CanSend(c, x, row, ch) {
      assert c.sendable(ch, x, Recipients(c, t.control.job.job.url, summary, fullText, ch));
    }
  }

  lemma GoodFailure(c: Config, t: State, reason: string)
    requires HeldOk(c, t) && RowsOk(c, t.rows) && t.control.Working? && Enabled(c, t, RejectUrl(reason))
    requires Sends(c, t.control.job.id, t.control.job.job.url, "", "")
    ensures var p, x := Process(c, t, RejectUrl(reason)), t.control.job.id;
            p.Entered? && x in p.rows && !Hopeless(c, x, p.rows[x])
  {
    var x := t.control.job.id;
    var row := Process(c, t, RejectUrl(reason)).rows[x];
    assert RowOk(c, t.rows[x]);
    forall ch | ch in Channels(c) ensures CanSend(c, x, row, ch) {
      assert c.sendable(ch, x, Recipients(c, t.control.job.job.url, "", "", ch));
    }
  }

  lemma GoResult(c: Config, s: State, t: State, summary: string, fullText: string) returns (u: State)
    requires Hopeful(c, s, t) && t.control.Working?
    requires c.parses(t.control.job.job.url) && c.fetchable(t.control.job.job.url)
    requires Sends(c, t.control.job.id, t.control.job.job.url, summary, fullText)
    ensures Hopeful(c, s, u) && u.control.Idle? && Measure(c, u.rows) < Measure(c, t.rows)
  {
    GoodResult(c, t, summary, fullText);
    u := Go(c, s, t, FinishStages(Success(fullText, summary)));
  }

  lemma GoReject(c: Config, s: State, t: State, reason: string) returns (u: State)
    requires Hopeful(c, s, t) && t.control.Working? && reason != "" && !c.parses(t.control.job.job.url)
    requires Sends(c, t.control.job.id, t.control.job.job.url, "", "")
    ensures Hopeful(c, s, u) && u.control.Idle? && Measure(c, u.rows) < Measure(c, t.rows)
  {
    GoodFailure(c, t, reason);
    u := Go(c, s, t, RejectUrl(reason));
  }

  /** The job being worked on is rejected, or transcribed with texts that can be sent. */
  lemma FinishJob(c: Config, s: State, t: State, reason: string) returns (u: State)
    requires Hopeful(c, s, t) && t.control.Working? && reason != ""
    ensures Hopeful(c, s, u) && u.control.Idle? && Measure(c, u.rows) < Measure(c, t.rows)
  {
    var x := t.control.job;
    assert t.rows[x.id].url == x.job.url && CanFinish(c, x.id, x.job.url);
    if c.parses(x.job.url) {
      var summary, fullText :| Sends(c, x.id, x.job.url, summary, fullText);
      u := GoResult(c, s, t, summary, fullText);
    } else {
      u := GoReject(c, s, t, reason);
    }
  }

  lemma ProcessOne(c: Config, s: State, t: State) returns (u: State)
    requires Hopeful(c, s, t) && t.control.Idle? && ListDelivering(t.rows) == [] && NextPending(t.rows).Some?
    ensures Hopeful(c, s, u) && u.control.Idle? && Measure(c, u.rows) < Measure(c, t.rows)
  {
    u := GoSweep(c, s, t);
    u := GoPick(c, s, u);
    u := GoStart(c, s, u);
    u := FinishJob(c, s, u, "invalid URL");
  }

  lemma NothingToDo(c: Config, rows: Rows)
    requires ListDelivering(rows) == [] && NextPending(rows).None?
    ensures Measure(c, rows) == 0
  {
    NothingLeft(c, rows, rows.Keys);
    forall id | id in rows ensures rows[id].status.Done? || rows[id].status.Failed? {
      assert Snapshot(id, rows[id]) !in ListDelivering(rows);
    }
  }

  lemma {:induction false} Empty(c: Config, s: State, t: State) returns (u: State)
    requires Hopeful(c, s, t) && t.control.Idle?
    ensures Leads(c, s, u) && Measure(c, u.rows) == 0
    decreases Measure(c, t.rows)
  {
    if ListDelivering(t.rows) != [] {
      u := DeliverOne(c, s, t);
      u := Empty(c, s, u);
    } else if NextPending(t.rows).Some? {
      u := ProcessOne(c, s, t);
      u := Empty(c, s, u);
    } else {
      NothingToDo(c, t.rows);
      u := t;
    }
  }

  /** The queue can empty without anything new coming in. */
  ghost predicate CanDrain(c: Config, s: State) {
    exists t :: Leads(c, s, t) && Measure(c, t.rows) == 0
  }

  lemma HopelessIsWork(c: Config, rows: Rows, id: string)
    requires id in rows && Hopeless(c, id, rows[id])
    ensures Measure(c, rows) > 0
  {
    NothingLeft(c, rows, rows.Keys);
  }

  /** From any state the queue can empty exactly when every unfinished job can be finished. */
  lemma QueueCanDrain(c: Config, s: State)
    requires Inv(c, s)
    ensures CanDrain(c, s) <==> NoneHopeless(c, s.rows)
  {
    if NoneHopeless(c, s.rows) {
      LeadsNowhere(c, s);
      var t := Go(c, s, s, Crash);
      t := Empty(c, s, t);
    } else {
      var id :| id in s.rows && Hopeless(c, id, s.rows[id]);
      forall t | Leads(c, s, t) ensures Measure(c, t.rows) > 0 {
        var actions :| Quiet(actions) && Run(c, s, actions) && After(c, s, actions) == t;
        HopelessForever(c, s, actions, id);
        HopelessIsWork(c, t.rows, id);
      }
    }
  }

  // ---- when only the id matters ----

  /** Whether a channel can be tried depends on the id alone, not on what was said in the call. */
  ghost predicate TakesById(c: Config, takes: (Channel, string) -> bool) {
    forall ch, id, url, summary, fullText :: ch in Channels(c) && c.parses(url) ==>
      (c.sendable(ch, id, Recipients(c, url, summary, fullText, ch)) <==> takes(ch, id))
  }

  predicate AllTake(c: Config, takes: (Channel, string) -> bool, id: string) {
    forall ch :: ch in Channels(c) ==> takes(ch, id)
  }

  /** What an unfinished job needs, said of its URL and id. */
  predicate Finishable(c: Config, takes: (Channel, string) -> bool, id: string, job: Job) {
    && (job.Pending() ==> c.fetchable(job.url) && AllTake(c, takes, id))
    && (job.status.Delivering? ==> forall ch :: ch in Channels(c) && ch !in job.delivered ==> takes(ch, id))
  }

  lemma SendsById(c: Config, takes: (Channel, string) -> bool, id: string, url: string, summary: string,
                  fullText: string)
    requires TakesById(c, takes) && c.parses(url)
    ensures Sends(c, id, url, summary, fullText) <==> AllTake(c, takes, id)
  {
    forall ch | ch in Channels(c)
      ensures c.sendable(ch, id, Recipients(c, url, summary, fullText, ch)) <==> takes(ch, id)
    {
    }
  }

  lemma PendingById(c: Config, takes: (Channel, string) -> bool, id: string, url: string)
    requires TakesById(c, takes) && c.parses(url)
    ensures CanFinish(c, id, url) <==> c.fetchable(url) && AllTake(c, takes, id)
  {
    SendsById(c, takes, id, url, id, id);
    forall summary, fullText ensures Sends(c, id, url, summary, fullText) ==> AllTake(c, takes, id) {
      SendsById(c, takes, id, url, summary, fullText);
    }
  }

  lemma DeliveringById(c: Config, takes: (Channel, string) -> bool, id: string, job: Job)
    requires TakesById(c, takes) && c.parses(job.url)
    ensures CanClose(c, id, job) <==> forall ch :: ch in Channels(c) && ch !in job.delivered ==> takes(ch, id)
  {
    forall ch | ch in Channels(c) ensures CanSend(c, id, job, ch) <==> takes(ch, id) {
    }
  }

  /** Then the queue can empty exactly when every unfinished job has such a URL and id. */
  lemma QueueCanDrainById(c: Config, takes: (Channel, string) -> bool, s: State)
    requires Inv(c, s) && TakesById(c, takes) && forall id :: id in s.rows ==> c.parses(s.rows[id].url)
    ensures CanDrain(c, s) <==> forall id :: id in s.rows ==> Finishable(c, takes, id, s.rows[id])
  {
    QueueCanDrain(c, s);
    forall id | id in s.rows ensures Hopeless(c, id, s.rows[id]) <==> !Finishable(c, takes, id, s.rows[id]) {
      PendingById(c, takes, id, s.rows[id].url);
      DeliveringById(c, takes, id, s.rows[id]);
    }
  }
}
