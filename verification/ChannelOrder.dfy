/**
  Whether the delivery channels proceed independently: runs that show that with both on they do not,
  and exactly when an e-mail can go out without BPM.
 */
module ChannelOrder {
  import opened Prelude
  import opened Jobs
  import opened Protocol
  import opened Invariant
  import opened Progress
  import Guarantees

  /** A job on its way to delivery, alone in the table; no acceptance is recorded yet. */
  ghost predicate Alone(c: Config, s: State, t: State, id: string) {
    Ahead(c, s, t) && t.rows.Keys == {id} && t.history.recordedAt == map[]
  }

  /** It waits for delivery, with no channel recorded. */
  ghost predicate Waiting(c: Config, s: State, t: State, id: string) {
    && Alone(c, s, t, id) && t.control.Idle? && t.rows[id].status.Delivering? && t.rows[id].delivered == {}
    && t.rows[id].fullText.Some?
  }

  /** It carries these texts. */
  predicate Carries(job: Job, url: string, summary: string, fullText: string) {
    job.url == url && job.summary == Some(summary) && job.fullText == Some(fullText)
  }

  /** Messages and records after a step that neither sends nor records. */
  ghost predicate SameHistory(t: State, u: State) {
    u.history.sent == t.history.sent && u.history.recordedAt == t.history.recordedAt
  }

  // ---- to the door ----

  lemma Posted(c: Config, id: string, url: string, now: int) returns (s: State)
    requires id != "" && c.parses(url) && c.fetchable(url)
    ensures s == Next(c, Initial(), Post(id, url, now)) && Alone(c, s, s, id) && s.control.Idle?
    ensures s.history.sent == [] && s.rows[id] == NewJob(url, now)
  {
    s := Next(c, Initial(), Post(id, url, now));
    assert s.rows == map[id := NewJob(url, now)];
    InitialOk(c);
    KeepInv(c, Initial(), Post(id, url, now));
    LeadsNowhere(c, s);
  }

  lemma NoneListed(rows: Rows, id: string)
    requires rows.Keys == {id} && rows[id].Pending()
    ensures ListDelivering(rows) == []
  {
    assert Selected(rows, {Delivering}) == {};
  }

  lemma PickOnly(c: Config, s: State, t: State, id: string) returns (u: State)
    requires Alone(c, s, t, id) && t.control.Idle? && t.rows[id].Pending()
    ensures Alone(c, s, u, id) && u.control.Picked? && u.control.job == Snapshot(id, t.rows[id])
    ensures u.rows == t.rows && SameHistory(t, u)
  {
    OldestPending(t.rows);
    NoneListed(t.rows, id);
    u := Step(c, s, t, BeginSweep);
    u := Step(c, s, u, TakePending);
  }

  lemma StartOnly(c: Config, s: State, t: State, id: string) returns (u: State)
    requires Alone(c, s, t, id) && t.control.Picked? && t.control.job.id == id
    ensures Alone(c, s, u, id) && u.control == Working(t.control.job) && SameHistory(t, u)
  {
    u := Step(c, s, t, StartJob);
  }

  lemma Success(c: Config, s: State, id: string, summary: string, fullText: string)
    requires s.control.Working? && s.control.job.id == id && id in s.rows
    requires c.parses(s.control.job.job.url) && c.fetchable(s.control.job.job.url)
    ensures var u := NextProcessing(c, s, FinishStages(Stage.Success(fullText, summary)));
            u.rows == s.rows[id := WithResult(s.rows[id], fullText, summary)] && u.control.Idle? && SameHistory(s, u)
  {
  }

  lemma FinishStep(c: Config, s: State, t: State, id: string, summary: string, fullText: string) returns (u: State)
    requires Ahead(c, s, t) && t.control.Working? && t.control.job.id == id && id in t.rows
    requires c.parses(t.control.job.job.url) && c.fetchable(t.control.job.job.url)
    ensures Ahead(c, s, u) && u.rows == t.rows[id := WithResult(t.rows[id], fullText, summary)] && u.control.Idle?
    ensures SameHistory(t, u)
  {
    Success(c, t, id, summary, fullText);
    u := Step(c, s, t, FinishStages(Stage.Success(fullText, summary)));
  }

  lemma FinishOnly(c: Config, s: State, t: State, id: string, summary: string, fullText: string) returns (u: State)
    requires Alone(c, s, t, id) && t.control.Working? && t.control.job.id == id
    requires c.parses(t.control.job.job.url) && c.fetchable(t.control.job.job.url)
    ensures Waiting(c, s, u, id) && SameHistory(t, u) && Carries(u.rows[id], t.control.job.job.url, summary, fullText)
  {
    u := FinishStep(c, s, t, id, summary, fullText);
  }

  /** A posted job is transcribed, whatever the texts may be, and waits for delivery. */
  lemma Transcribed(c: Config, id: string, url: string, now: int, summary: string, fullText: string)
    returns (s: State, t: State)
    requires id != "" && c.parses(url) && c.fetchable(url)
    ensures s == Next(c, Initial(), Post(id, url, now)) && Waiting(c, s, t, id) && t.history.sent == []
    ensures Carries(t.rows[id], url, summary, fullText)
  {
    s := Posted(c, id, url, now);
    t := PickOnly(c, s, s, id);
    t := StartOnly(c, s, t, id);
    t := FinishOnly(c, s, t, id, summary, fullText);
  }

  // ---- at the door ----

  lemma ListOnly(rows: Rows, id: string)
    requires rows.Keys == {id} && rows[id].status.Delivering?
    ensures ListDelivering(rows) == [Snapshot(id, rows[id])]
  {
    var x, only := Snapshot(id, rows[id]), Selected(rows, {Delivering});
    assert only == {x};
    assert Oldest(only) == x && InAgeOrder(only) == [x] + InAgeOrder(only - {x});
    assert only - {x} == {};
  }

  lemma OpenOnly(c: Config, s: State, t: State, id: string) returns (u: State)
    requires Waiting(c, s, t, id)
    ensures Alone(c, s, u, id) && u.control == Sending(Snapshot(id, t.rows[id]), Channels(c), [])
    ensures u.rows == t.rows && SameHistory(t, u)
  {
    ListOnly(t.rows, id);
    u := Step(c, s, t, BeginSweep);
    u := Step(c, s, u, OpenJob);
  }

  /** The first channel is tried. */
  lemma SendFirst(c: Config, s: State, t: State, id: string, outcome: Outcome) returns (u: State)
    requires Alone(c, s, t, id) && t.control.Sending? && t.control.left != [] && t.control.job.job.delivered == {}
    requires CanSend(c, t.control.job.id, t.control.job.job, t.control.left[0])
    ensures Alone(c, s, u, id) && u.rows == t.rows
    ensures u.history.sent == t.history.sent + [MessageFor(c, t.history, t.control.job, t.control.left[0], outcome)]
    ensures u.control == if outcome.Accepted? then Marking(t.control.job, t.control.left, t.control.todo)
                         else Sweeping(t.control.todo)
  {
    u := Step(c, s, t, Send(outcome));
  }

  lemma EndRound(c: Config, s: State, t: State, id: string) returns (u: State)
    requires Alone(c, s, t, id) && t.rows[id].status.Delivering? && t.control == Sweeping([])
    ensures Alone(c, s, u, id) && u.control.Idle? && u.rows == t.rows && SameHistory(t, u)
  {
    OldestPending(t.rows);
    u := Step(c, s, t, TakePending);
  }

  /** BPM refuses once more: the job goes on waiting, and nothing else is sent. */
  lemma RefuseOnce(c: Config, s: State, t: State, id: string) returns (u: State, m: Sent)
    requires c.bpm && c.sendable(Bpm, id, []) && Waiting(c, s, t, id)
    ensures Waiting(c, s, u, id) && u.history.sent == t.history.sent + [m]
    ensures m.parcel.channel.Bpm? && m.outcome.Refused?
  {
    u := OpenOnly(c, s, t, id);
    m := MessageFor(c, u.history, u.control.job, u.control.left[0], Refused);
    u := SendFirst(c, s, u, id, Refused);
    u := EndRound(c, s, u, id);
  }

  /** All that was sent are `n` messages to BPM, each of them refused. */
  ghost predicate OnlyRefusals(sent: seq<Sent>, n: nat) {
    |sent| == n && forall m :: m in sent ==> m.parcel.channel.Bpm? && m.outcome.Refused?
  }

  lemma OneMoreRefusal(sent: seq<Sent>, n: nat, m: Sent)
    requires OnlyRefusals(sent, n) && m.parcel.channel.Bpm? && m.outcome.Refused?
    ensures OnlyRefusals(sent + [m], n + 1)
  {
  }

  lemma {:induction false} RefuseTimes(c: Config, s: State, t: State, id: string, n: nat) returns (u: State)
    requires c.bpm && c.sendable(Bpm, id, []) && Waiting(c, s, t, id) && t.history.sent == []
    ensures Waiting(c, s, u, id) && OnlyRefusals(u.history.sent, n)
  {
    if n == 0 {
      u := t;
    } else {
      u := RefuseTimes(c, s, t, id, n - 1);
      var before := u.history.sent;
      var m: Sent;
      u, m := RefuseOnce(c, s, u, id);
      OneMoreRefusal(before, n - 1, m);
    }
  }

  /** What is ahead of a posted job is reached by a run from the empty tables. */
  lemma ReachedFromPost(c: Config, id: string, url: string, now: int, s: State, t: State) returns (actions: seq<Action>)
    requires id != "" && c.parses(url) && s == Next(c, Initial(), Post(id, url, now)) && Leads(c, s, t)
    ensures Guarantees.Reached(c, actions, t)
  {
    var later :| Quiet(later) && Run(c, s, later) && After(c, s, later) == t;
    var a := Post(id, url, now);
    assert Run(c, Initial(), []) && After(c, Initial(), []) == Initial();
    RunSnoc(c, Initial(), [], a);
    RunConcat(c, Initial(), [] + [a], later);
    actions := [] + [a] + later;
  }

  /**
    With both channels on: however often BPM has refused a result, it is still waiting and no e-mail
    has gone out. Each channel is not retried independently.
   */
  lemma RefusalHoldsMailBack(c: Config, id: string, url: string, now: int, n: nat)
    returns (actions: seq<Action>, t: State)
    requires id != "" && c.bpm && c.sendable(Bpm, id, []) && c.parses(url) && c.fetchable(url)
    ensures Guarantees.Reached(c, actions, t) && OnlyRefusals(t.history.sent, n)
    ensures t.rows.Keys == {id} && t.rows[id].status.Delivering? && t.rows[id].fullText.Some?
  {
    var s, u := Transcribed(c, id, url, now, "", "");
    t := RefuseTimes(c, s, u, id, n);
    actions := ReachedFromPost(c, id, url, now, s, t);
  }

  // ---- exactly when mail goes out alone ----

  /** An e-mail was sent for a delivery whose acceptance by BPM had not been recorded. */
  ghost predicate MailedAlone(h: History) {
    exists i: nat :: SentAlone(h, i)
  }

  ghost predicate SentAlone(h: History, i: nat) {
    && i < |h.sent| && h.sent[i].parcel.channel.Email?
    && var p := h.sent[i].parcel.(channel := Bpm);
       !(p in h.recordedAt && h.recordedAt[p] <= i)
  }

  ghost predicate CanMailAlone(c: Config) {
    exists actions, t :: Guarantees.Reached(c, actions, t) && MailedAlone(t.history)
  }

  lemma MailAlone(c: Config, id: string, url: string, now: int, summary: string, fullText: string)
    returns (actions: seq<Action>, t: State)
    requires id != "" && c.email && !c.bpm && c.parses(url) && c.fetchable(url)
    requires c.sendable(Email, id, Recipients(c, url, summary, fullText, Email))
    ensures Guarantees.Reached(c, actions, t) && MailedAlone(t.history)
  {
    var s, u := Transcribed(c, id, url, now, summary, fullText);
    u := OpenOnly(c, s, u, id);
    assert Channels(c)[0] == Email;
    t := SendFirst(c, s, u, id, Accepted);
    assert SentAlone(t.history, 0);
    actions := ReachedFromPost(c, id, url, now, s, t);
  }

  /**
    With e-mail on, a mail can go out before BPM has accepted the same delivery exactly when BPM is off,
    if any recording's mail can be built at all.
   */
  lemma MailWaitsExactlyForBpm(c: Config, id: string, url: string, now: int, summary: string, fullText: string)
    requires id != "" && c.email && c.parses(url) && c.fetchable(url)
    requires c.sendable(Email, id, Recipients(c, url, summary, fullText, Email))
    ensures CanMailAlone(c) <==> !c.bpm
  {
    if c.bpm {
      forall actions, t, i: nat | Guarantees.Reached(c, actions, t) && SentAlone(t.history, i) ensures false {
        Guarantees.EmailWaitsForBpm(c, actions, t, i);
      }
    } else {
      var actions, t := MailAlone(c, id, url, now, summary, fullText);
    }
  }
}
