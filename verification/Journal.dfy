/**
  What the stored rows have to do with what happened: every column of a row, and every message about
  it, is read off the actions of the run alone.
 */
module Journal {
  import opened Prelude
  import opened Jobs
  import opened Protocol
  import opened Invariant
  import Guarantees
  import Text

  /**
    What the actions so far say about one job: where it stands, the URL it was last queued with and when
    it first was, the attempts counted since, the last failure's reason, the last texts, the channels
    recorded since it was last handed over for delivery, and to whom it was last attributed.
   */
  datatype Log = Log(
    status: Status, url: string, since: int, attempts: nat, reason: string, summary: string, fullText: string,
    recorded: set<Channel>, team: string, rule: string, mailed: string, attributed: int)

  const NOTHING := Log(Queued, "", 0, 0, "", "", "", {}, "", "", "", 0)

  /** The URL with which the action queues the job; None if it does not. */
  function QueuedUrl(c: Config, s: State, a: Action, id: string): Option<string> {
    match a
    case Post(x, url, _) => if x == id && (id !in s.rows || s.rows[id].status.Failed?) then Some(url) else None
    case Discover(bucket, key, _) =>
      if (bucket, key) !in s.objects && c.recordId(bucket, key) == id && id !in s.rows
      then Some(c.objectUrl(bucket, key))
      else None
    case _ => None
  }

  /** The worker is at work on the job. */
  predicate WorksOn(s: State, id: string) {
    s.control.Working? && s.control.job.id == id
  }

  /** The reason the action gives for a failure of the job; None if it gives none. */
  function FailureReason(s: State, a: Action, id: string): Option<string> {
    match a
    case RejectUrl(reason) => if WorksOn(s, id) then Some(reason) else None
    case FinishStages(Permanent(reason)) => if WorksOn(s, id) then Some(reason) else None
    case _ => None
  }

  /** One more line in the log. */
  function Noted(c: Config, s: State, a: Action, id: string, log: Log): Log {
    match a
    case Post(_, _, at) => NotedQueueing(c, s, a, id, at, log)
    case Discover(_, _, at) => NotedQueueing(c, s, a, id, at, log)
    case _ =>
      if !s.control.Idle? && !s.control.Sweeping? && s.control.job.id == id then NotedWork(c, s, a, log) else log
  }

  /** Queued anew, with no attempt counted; the time is that of the first time. */
  function NotedQueueing(c: Config, s: State, a: Action, id: string, at: int, log: Log): Log {
    var url := QueuedUrl(c, s, a, id);
    if url.None? then log
    else if id in s.rows then log.(status := Queued, url := url.value, attempts := 0)
    else log.(status := Queued, url := url.value, since := at, attempts := 0, recorded := {})
  }

  /** What the worker does with the job. */
  function NotedWork(c: Config, s: State, a: Action, log: Log): Log {
    match a
    case StartJob => log.(status := Processing)
    case RejectUrl(reason) => log.(status := Delivering, recorded := {}, reason := reason)
    case FinishStages(Permanent(reason)) => log.(reason := reason, attempts := log.attempts + 1)
    case FinishStages(Success(fullText, summary)) =>
      log.(status := Delivering, recorded := {}, summary := summary, fullText := fullText)
    case SettleAttempt =>
      if log.attempts < c.maxRetries then log.(status := Queued) else log.(status := Delivering, recorded := {})
    case RecordAcceptance =>
      if s.control.Marking? && s.control.left != [] then log.(recorded := log.recorded + {s.control.left[0]}) else log
    case CloseFailure => log.(status := Failed)
    case RecordRouting(now) =>
      var d := c.decide(log.url, log.summary, log.fullText);
      log.(team := d.route, rule := d.rule, mailed := if c.email then Text.Join(d.to, ',') else "", attributed := now)
    case CloseSuccess => log.(status := Done)
    case _ => log
  }

  function LogFrom(c: Config, s: State, actions: seq<Action>, id: string, log: Log): Log
    requires Run(c, s, actions)
    decreases |actions|
  {
    if actions == [] then log
    else LogFrom(c, Next(c, s, actions[0]), actions[1..], id, Noted(c, s, actions[0], id, log))
  }

  /** The log of a whole run. */
  function LogOf(c: Config, actions: seq<Action>, id: string): Log
    requires Run(c, Initial(), actions)
  {
    LogFrom(c, Initial(), actions, id, NOTHING)
  }

  // ---- the rows ----

  /** The row says what the log says. */
  predicate Tells(row: Job, log: Log) {
    && row.status == log.status && row.url == log.url && row.createdAt == log.since && row.attempts == log.attempts
    && row.delivered == log.recorded
    && (row.error.Some? ==> row.error == Some(log.reason))
    && (row.Pending() ==> (row.error.Some? <==> log.attempts > 0))
    && (row.summary.Some? ==> row.summary == Some(log.summary))
    && (row.fullText.Some? ==> row.fullText == Some(log.fullText))
    && (row.routedAt.Some? ==> row.routedAt == Some(log.attributed) && TeamIs(row, log))
  }

  predicate TeamIs(row: Job, log: Log) {
    row.route == log.team && row.routeBy == log.rule && row.emailedTo == log.mailed
  }

  predicate Told(rows: Rows, id: string, log: Log) {
    id in rows ==> Tells(rows[id], log)
  }

  lemma ToldArrival(c: Config, s: State, a: Action, id: string, log: Log)
    requires Enabled(c, s, a) && Arrives(a) && Told(s.rows, id, log)
    requires id in s.rows && s.rows[id].status.Failed? ==> RowOk(c, s.rows[id])
    ensures Told(NextArrival(c, s, a).rows, id, Noted(c, s, a, id, log))
  {
  }

  /** The worker's own job is the one its steps are about. */
  lemma ToldProcess(c: Config, s: State, a: Action, id: string, log: Log)
    requires Enabled(c, s, a) && Processes(a) && HeldOk(c, s) && Told(s.rows, id, log)
    requires id in s.rows ==> RowOk(c, s.rows[id])
    ensures Told(Process(c, s, a).rows, id, Noted(c, s, a, id, log))
  {
    if s.control.job.id == id {
      match a
      case StartJob =>
      case RejectUrl(_) =>
      case FinishStages(stage) => ToldStages(c, s, stage, log);
      case SettleAttempt => ToldSettled(c, s, log);
    }
  }

  lemma ToldStages(c: Config, s: State, stage: Stage, log: Log)
    requires Enabled(c, s, FinishStages(stage)) && HeldOk(c, s) && Told(s.rows, s.control.job.id, log)
    requires RowOk(c, s.rows[s.control.job.id])
    ensures Told(Process(c, s, FinishStages(stage)).rows, s.control.job.id, NotedWork(c, s, FinishStages(stage), log))
  {
  }

  lemma ToldSettled(c: Config, s: State, log: Log)
    requires Enabled(c, s, SettleAttempt) && HeldOk(c, s) && Told(s.rows, s.control.job.id, log)
    ensures Told(Process(c, s, SettleAttempt).rows, s.control.job.id, NotedWork(c, s, SettleAttempt, log))
  {
  }

  lemma ToldDelivery(c: Config, s: State, a: Action, id: string, log: Log)
    requires Enabled(c, s, a) && Delivers(a) && HeldOk(c, s) && Told(s.rows, id, log)
    requires id in s.rows ==> RowOk(c, s.rows[id])
    ensures Told(NextDelivery(c, s, a).rows, id, Noted(c, s, a, id, log))
  {
    if s.control.job.id == id && a.RecordRouting? {
      ToldRouting(c, s, a.now, log);
    }
  }

  /** The call is attributed by its last texts and URL. */
  lemma ToldRouting(c: Config, s: State, now: int, log: Log)
    requires Enabled(c, s, RecordRouting(now)) && HeldOk(c, s) && Told(s.rows, s.control.job.id, log)
    requires RowOk(c, s.rows[s.control.job.id])
    ensures var a := RecordRouting(now);
            Told(NextDelivery(c, s, a).rows, s.control.job.id, NotedWork(c, s, a, log))
  {
  }

  /** Reading, sending and crashing write nothing. */
  lemma NothingNoted(c: Config, s: State, a: Action, id: string, log: Log)
    requires Enabled(c, s, a) && !Arrives(a) && !Processes(a) && !Delivers(a)
    ensures Next(c, s, a).rows == s.rows && Noted(c, s, a, id, log) == log
  {
  }

  lemma ToldProcessing(c: Config, s: State, a: Action, id: string, log: Log)
    requires Enabled(c, s, a) && Processes(a) && HeldOk(c, s) && RowsOk(c, s.rows) && Told(s.rows, id, log)
    ensures Told(NextProcessing(c, s, a).rows, id, Noted(c, s, a, id, log))
  {
    ToldProcess(c, s, a, id, log);
    ProcessedRows(c, s, a);
  }

  /** Which rows there are after an action. */
  lemma RowsAfter(c: Config, s: State, a: Action)
    requires Enabled(c, s, a)
    ensures Arrives(a) ==> Next(c, s, a).rows == NextArrival(c, s, a).rows
    ensures Processes(a) ==> Next(c, s, a).rows == NextProcessing(c, s, a).rows
    ensures Delivers(a) ==> Next(c, s, a).rows == NextDelivery(c, s, a).rows
  {
  }

  /** `after` is what the log says then. */
  lemma ToldStep(c: Config, s: State, a: Action, id: string, log: Log, after: Log)
    requires HeldOk(c, s) && RowsOk(c, s.rows) && Enabled(c, s, a) && Told(s.rows, id, log)
    requires after == Noted(c, s, a, id, log)
    ensures Told(Next(c, s, a).rows, id, after)
  {
    RowsAfter(c, s, a);
    if Arrives(a) {
      ToldArrival(c, s, a, id, log);
    } else if Processes(a) {
      ToldProcessing(c, s, a, id, log);
    } else if Delivers(a) {
      ToldDelivery(c, s, a, id, log);
    } else {
      NothingNoted(c, s, a, id, log);
    }
  }

  lemma {:induction false} ToldRun(c: Config, s: State, actions: seq<Action>, id: string, log: Log)
    requires Inv(c, s) && Run(c, s, actions) && Told(s.rows, id, log)
    ensures Told(After(c, s, actions).rows, id, LogFrom(c, s, actions, id, log))
    decreases |actions|
  {
    if actions == [] {
    } else {
      ToldStep(c, s, actions[0], id, log, Noted(c, s, actions[0], id, log));
      KeepInv(c, s, actions[0]);
      ToldRun(c, Next(c, s, actions[0]), actions[1..], id, Noted(c, s, actions[0], id, log));
    }
  }

  /** In every reachable state a row holds the URL it was last queued with, the last texts and the last reason. */
  lemma RowsTell(c: Config, actions: seq<Action>, s: State, id: string)
    requires Guarantees.Reached(c, actions, s) && id in s.rows
    ensures var row, log := s.rows[id], LogOf(c, actions, id);
            && row.status == log.status && row.url == log.url && row.createdAt == log.since
            && row.attempts == log.attempts && row.delivered == log.recorded
            && (row.summary.Some? ==> row.summary == Some(log.summary))
            && (row.fullText.Some? ==> row.fullText == Some(log.fullText))
            && (row.routedAt.Some? ==> row.routedAt == Some(log.attributed) && TeamIs(row, log))
            && (row.fullText.None? && !row.Pending() ==> row.error == Some(log.reason))
            && (row.Pending() ==> row.error == if log.attempts > 0 then Some(log.reason) else None)
  {
    InitialOk(c);
    ToldRun(c, Initial(), actions, id, NOTHING);
    Guarantees.ReachedOk(c, actions, s);
    assert RowOk(c, s.rows[id]);
  }

  /** A message of the current delivery carries the last texts, or the last reason; and the URL last queued. */
  lemma MessagesTell(c: Config, actions: seq<Action>, s: State, m: Sent)
    requires Guarantees.Reached(c, actions, s) && m in s.history.sent
    requires m.parcel.id in s.rows && !s.rows[m.parcel.id].Pending()
    requires m.parcel.generation == Generation(s.history, m.parcel.id)
    ensures var row, log := s.rows[m.parcel.id], LogOf(c, actions, m.parcel.id);
            m.payload == if row.fullText.None? then Payload("", "", true, log.reason, log.url)
                         else Payload(log.summary, log.fullText, false, "", log.url)
    ensures m.to == if m.parcel.channel.Bpm? then []
                    else c.decide(m.payload.url, m.payload.summary, m.payload.fullText).to
  {
    RowsTell(c, actions, s, m.parcel.id);
    Guarantees.ReachedOk(c, actions, s);
    assert RowOk(c, s.rows[m.parcel.id]);
    assert SentOk(c, s.history, m) && IssuedOk(s.rows, s.history, m.parcel.id);
  }

  // ---- what is never sent ----

  ghost predicate AllSendable(c: Config, sent: seq<Sent>) {
    forall m :: m in sent ==> c.sendable(m.parcel.channel, m.parcel.id, m.to)
  }

  lemma OthersSendNothing(c: Config, s: State, a: Action)
    requires Enabled(c, s, a) && !a.Send?
    ensures Next(c, s, a).history.sent == s.history.sent
  {
  }

  lemma SendableSend(c: Config, s: State, a: Action)
    requires Enabled(c, s, a) && a.Send? && AllSendable(c, s.history.sent)
    ensures AllSendable(c, NextSend(c, s, a).history.sent)
  {
  }

  lemma {:induction false} SendableRun(c: Config, s: State, actions: seq<Action>)
    requires Run(c, s, actions) && AllSendable(c, s.history.sent)
    ensures AllSendable(c, After(c, s, actions).history.sent)
    decreases |actions|
  {
    if actions == [] {
    } else {
      if actions[0].Send? {
        SendableSend(c, s, actions[0]);
      } else {
        OthersSendNothing(c, s, actions[0]);
      }
      SendableRun(c, Next(c, s, actions[0]), actions[1..]);
    }
  }

  /** A message is only ever sent with an id and recipients with which its channel can be called at all. */
  lemma OnlySendableIsSent(c: Config, actions: seq<Action>, s: State, m: Sent)
    requires Guarantees.Reached(c, actions, s) && m in s.history.sent
    ensures c.sendable(m.parcel.channel, m.parcel.id, m.to)
  {
    SendableRun(c, Initial(), actions);
  }

  // ---- the last of its kind ----

  /** No action of the run fails the job. */
  ghost predicate NoFailure(c: Config, s: State, actions: seq<Action>, id: string)
    requires Run(c, s, actions)
    decreases |actions|
  {
    actions == []
    || (FailureReason(s, actions[0], id).None? && NoFailure(c, Next(c, s, actions[0]), actions[1..], id))
  }

  /** No action of the run queues the job. */
  ghost predicate NotQueued(c: Config, s: State, actions: seq<Action>, id: string)
    requires Run(c, s, actions)
    decreases |actions|
  {
    actions == []
    || (QueuedUrl(c, s, actions[0], id).None? && NotQueued(c, Next(c, s, actions[0]), actions[1..], id))
  }

  lemma {:induction false} ReasonStays(c: Config, s: State, actions: seq<Action>, id: string, log: Log)
    requires Run(c, s, actions) && NoFailure(c, s, actions, id)
    ensures LogFrom(c, s, actions, id, log).reason == log.reason
    decreases |actions|
  {
    if actions == [] {
    } else {
      ReasonStays(c, Next(c, s, actions[0]), actions[1..], id, Noted(c, s, actions[0], id, log));
    }
  }

  lemma {:induction false} UrlStays(c: Config, s: State, actions: seq<Action>, id: string, log: Log)
    requires Run(c, s, actions) && NotQueued(c, s, actions, id)
    ensures LogFrom(c, s, actions, id, log).url == log.url
    decreases |actions|
  {
    if actions == [] {
    } else {
      UrlStays(c, Next(c, s, actions[0]), actions[1..], id, Noted(c, s, actions[0], id, log));
    }
  }

  lemma {:induction false} LogConcat(c: Config, s: State, first: seq<Action>, second: seq<Action>, id: string, log: Log)
    requires Run(c, s, first) && Run(c, After(c, s, first), second)
    ensures Run(c, s, first + second)
    ensures LogFrom(c, s, first + second, id, log)
            == LogFrom(c, After(c, s, first), second, id, LogFrom(c, s, first, id, log))
    decreases |first|
  {
    if first == [] {
      assert first + second == second;
    } else {
      var a, rest := first[0], first[1..];
      FirstAction(first, second);
      LogConcat(c, Next(c, s, a), rest, second, id, Noted(c, s, a, id, log));
      RunCons(c, s, a, rest + second);
      LogCons(c, s, a, rest + second, id, log);
    }
  }

  lemma LogCons(c: Config, s: State, a: Action, rest: seq<Action>, id: string, log: Log)
    requires Enabled(c, s, a) && Run(c, Next(c, s, a), rest)
    ensures Run(c, s, [a] + rest)
    ensures LogFrom(c, s, [a] + rest, id, log) == LogFrom(c, Next(c, s, a), rest, id, Noted(c, s, a, id, log))
  {
    assert ([a] + rest)[1..] == rest;
  }

  /** What the log says after an action that was followed by others. */
  lemma LogAround(c: Config, first: seq<Action>, a: Action, later: seq<Action>, id: string) returns (log: Log)
    requires Run(c, Initial(), first) && Enabled(c, After(c, Initial(), first), a)
    requires Run(c, Next(c, After(c, Initial(), first), a), later)
    ensures Run(c, Initial(), first + ([a] + later))
    ensures After(c, Initial(), first + ([a] + later)) == After(c, Next(c, After(c, Initial(), first), a), later)
    ensures var s := After(c, Initial(), first);
            LogOf(c, first + ([a] + later), id) == LogFrom(c, Next(c, s, a), later, id, Noted(c, s, a, id, log))
  {
    var s := After(c, Initial(), first);
    RunCons(c, s, a, later);
    RunConcat(c, Initial(), first, [a] + later);
    LogConcat(c, Initial(), first, [a] + later, id, NOTHING);
    log := LogFrom(c, Initial(), first, id, NOTHING);
    LogCons(c, s, a, later, id, log);
  }

  /**
    A job that fails is reported with the reason of the last rejection or counted error of that job: it
    is the stored error, and the description in every message of that delivery.
   */
  lemma FailureCarriesLastReason(c: Config, first: seq<Action>, a: Action, later: seq<Action>, id: string, m: Sent)
    requires Run(c, Initial(), first) && Enabled(c, After(c, Initial(), first), a)
    requires FailureReason(After(c, Initial(), first), a, id).Some?
    requires var t := Next(c, After(c, Initial(), first), a); Run(c, t, later) && NoFailure(c, t, later, id)
    ensures var s, reason := After(c, Next(c, After(c, Initial(), first), a), later),
                             FailureReason(After(c, Initial(), first), a, id).value;
            id in s.rows && s.rows[id].fullText.None? && !s.rows[id].Pending() ==>
              && s.rows[id].error == Some(reason)
              && (m in s.history.sent && m.parcel.id == id && m.parcel.generation == Generation(s.history, id) ==>
                    m.payload.isError && m.payload.description == reason)
  {
    var actions := first + ([a] + later);
    var log := LogAround(c, first, a, later, id);
    var before := After(c, Initial(), first);
    var s := After(c, Next(c, before, a), later);
    ReasonStays(c, Next(c, before, a), later, id, Noted(c, before, a, id, log));
    if id in s.rows {
      RowsTell(c, actions, s, id);
      if m in s.history.sent && m.parcel.id == id && m.parcel.generation == Generation(s.history, id)
         && !s.rows[id].Pending() {
        MessagesTell(c, actions, s, m);
      }
    }
  }

  /** The stored URL is that of the last request or discovery that queued the job. */
  lemma UrlIsLastQueued(c: Config, first: seq<Action>, a: Action, later: seq<Action>, id: string)
    requires Run(c, Initial(), first) && Enabled(c, After(c, Initial(), first), a)
    requires QueuedUrl(c, After(c, Initial(), first), a, id).Some?
    requires var t := Next(c, After(c, Initial(), first), a); Run(c, t, later) && NotQueued(c, t, later, id)
    ensures var s := After(c, Next(c, After(c, Initial(), first), a), later);
            id in s.rows ==> Some(s.rows[id].url) == QueuedUrl(c, After(c, Initial(), first), a, id)
  {
    var before := After(c, Initial(), first);
    var log := LogAround(c, first, a, later, id);
    UrlStays(c, Next(c, before, a), later, id, Noted(c, before, a, id, log));
    if id in After(c, Next(c, before, a), later).rows {
      RowsTell(c, first + ([a] + later), After(c, Next(c, before, a), later), id);
    }
  }
}
