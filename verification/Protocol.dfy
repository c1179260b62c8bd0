/**
  The job protocol as a state machine.

  Three actors share the tables: the worker loop, the HTTP API and the bucket
  scanner. Every operation on the tables is one atomic, committed step, and so
  is every call to a delivery channel; anything may happen between two of the
  worker's steps, including a crash that loses the worker's local state and
  leaves the tables as they are.

  `Next` says what each action does. `History` collects what the properties
  talk about and the program does not store: everything sent, how often a job
  entered delivery, which acknowledgements were lost.
 */
module Protocol {
  import opened Prelude
  import opened Jobs
  import Text

  datatype Decision = Decision(to: seq<string>, rule: string, route: string)

  /**
    The fixed configuration. Code that only computes from its arguments is a
    field here, so what is proved below holds whatever it computes.
   */
  datatype Config = Config(
    bpm: bool,
    email: bool,
    maxRetries: int,
    parses: string -> bool,                       // parse_call_record_url accepts the URL
    fetchable: string -> bool,                    // ... audio_suffix the key and the S3 client the bucket
    sendable: (Channel, string, seq<string>) -> bool, // a message about this id to these recipients can be built
    decide: (string, string, string) -> Decision, // route_message(url, summary, full text)
    scans: (string, string) -> bool,              // the scanner's filter on (bucket, key)
    recordId: (string, string) -> string,         // call_record_id_for
    objectUrl: (string, string) -> string)        // object_url

  /** The enabled channels, in the order in which they are tried. */
  function Channels(c: Config): (channels: seq<Channel>)
    ensures forall x :: x in channels <==> (x.Bpm? && c.bpm) || (x.Email? && c.email)
    ensures |channels| == 2 ==> channels[0] != channels[1]
    ensures |channels| <= 2
  {
    (if c.bpm then [Bpm] else []) + (if c.email then [Email] else [])
  }

  /** What one call to a channel does: the message may be accepted and the reply still be lost. */
  datatype Outcome = Accepted | Unacknowledged | Refused

  /** How download, transcription and summary of one job end. */
  datatype Stage =
    | Success(fullText: string, summary: string)
    | Permanent(reason: string)
    | Infrastructure
    | Unexpected

  /** The body sent for a job; `url` is in the e-mail only. */
  datatype Payload = Payload(summary: string, fullText: string, isError: bool, description: string, url: string)

  function PayloadOf(job: Job): Payload {
    var isError := job.fullText.None?;
    Payload(job.summary.GetOr(""), job.fullText.GetOr(""), isError,
            if isError then job.error.GetOr("") else "", job.url)
  }

  /** One delivery: a channel, for one entry of a job into the delivering state. */
  datatype Parcel = Parcel(id: string, generation: nat, channel: Channel)

  datatype Sent = Sent(parcel: Parcel, payload: Payload, to: seq<string>, outcome: Outcome)

  /** Where the worker is. The rows it holds are the ones it read, not the stored ones. */
  datatype Control =
    | Idle
    | Sweeping(todo: seq<Snapshot>)
    | Sending(job: Snapshot, left: seq<Channel>, todo: seq<Snapshot>)
    | Marking(job: Snapshot, left: seq<Channel>, todo: seq<Snapshot>)   // left[0] has just accepted
    | Routed(job: Snapshot, todo: seq<Snapshot>)
    | Picked(job: Snapshot)
    | Working(job: Snapshot)
    | Counted(job: Snapshot, attempts: nat, reason: string)

  /** Everything sent so far and what was recorded about it. */
  datatype History = History(
    sent: seq<Sent>,
    generation: map<string, nat>,             // entries into delivering, for every known id
    issued: map<(string, nat), Payload>,      // the payload stored at each entry
    recordedAt: map<Parcel, nat>)             // |sent| when the acceptance was recorded

  /** The two tables and the worker's local state, then what only the properties look at. */
  datatype State = State(
    rows: Rows,
    objects: map<(string, string), string>,   // scanned (bucket, key) -> id
    control: Control,
    history: History,
    orphaned: multiset<Parcel>,               // acceptances a crash kept from being recorded
    torn: map<string, nat>,                   // crashes just after counting an attempt, since last queued
    arrived: nat)                             // work added by the API and the scanner, in units of Measure

  datatype Action =
    | BeginSweep
    | OpenJob
    | SkipChannel
    | Send(outcome: Outcome)
    | FailSend
    | RecordAcceptance
    | CloseFailure
    | RecordRouting(now: int)
    | CloseSuccess
    | TakePending
    | StartJob
    | RejectUrl(reason: string)
    | FinishStages(stage: Stage)
    | SettleAttempt
    | Crash
    | Post(id: string, url: string, at: int)
    | Discover(bucket: string, key: string, when: int)

  function Initial(): State {
    State(map[], map[], Idle, History([], map[], map[], map[]), multiset{}, map[], 0)
  }

  // ---- bookkeeping ----

  /** How much work a row still holds: see the drain theorem in module Drain. */
  function Weight(c: Config, job: Job): nat {
    if job.Pending() then 1 + Max(1, c.maxRetries - job.attempts)
    else if job.status.Delivering? then 1
    else 0
  }

  function Max(a: int, b: int): int {
    if a < b then b else a
  }

  /** The attempts after which a job is given up. */
  function Limit(c: Config): int {
    Max(1, c.maxRetries)
  }

  function NewWeight(c: Config): nat {
    1 + Limit(c)
  }

  /** A job row appeared or was queued again. */
  function Arrive(c: Config, s: State, id: string, rows: Rows): State {
    var h := s.history;
    s.(rows := rows,
       history := if id in h.generation then h else h.(generation := h.generation[id := 0]),
       torn := s.torn[id := 0],
       arrived := s.arrived + NewWeight(c))
  }

  /** A job row entered the delivering state. */
  function EnterDelivering(s: State, id: string, rows: Rows): State {
    var h := s.history;
    var g := Generation(h, id) + 1;
    s.(rows := rows, control := Idle,
       history := h.(generation := h.generation[id := g],
                     issued := if id in rows then h.issued[(id, g) := PayloadOf(rows[id])] else h.issued))
  }

  function Generation(h: History, id: string): nat {
    if id in h.generation then h.generation[id] else 0
  }

  function CurrentParcel(h: History, id: string, channel: Channel): Parcel {
    Parcel(id, Generation(h, id), channel)
  }

  /** The acceptance the worker has seen and not yet recorded. */
  function InFlight(control: Control, h: History): Option<Parcel> {
    if control.Marking? && control.left != [] then Some(CurrentParcel(h, control.job.id, control.left[0])) else None
  }

  /** Whom a message is addressed to: BPM has one address. */
  function Recipients(c: Config, url: string, summary: string, fullText: string, channel: Channel): seq<string> {
    if channel.Email? then c.decide(url, summary, fullText).to else []
  }

  /** Whether the channel can be tried for this job at all: if not, trying raises an error before anything is sent. */
  predicate CanSend(c: Config, id: string, job: Job, channel: Channel) {
    c.sendable(channel, id, Recipients(c, job.url, job.summary.GetOr(""), job.fullText.GetOr(""), channel))
  }

  function MessageFor(c: Config, h: History, job: Snapshot, channel: Channel, outcome: Outcome): Sent {
    var p := PayloadOf(job.job);
    Sent(CurrentParcel(h, job.id, channel), p, Recipients(c, p.url, p.summary, p.fullText, channel), outcome)
  }

  /** The recipients column of a delivered job. */
  function EmailedTo(c: Config, d: Decision): string {
    if c.email then Text.Join(d.to, ',') else ""
  }

  // ---- the steps ----

  /** The next channel of the held job has not accepted yet. */
  predicate Tries(control: Control) {
    control.Sending? && control.left != [] && control.left[0] !in control.job.job.delivered
  }

  /** Whether the action can happen in this state. */
  predicate Enabled(c: Config, s: State, a: Action) {
    match a
    case BeginSweep => s.control.Idle?
    case OpenJob => s.control.Sweeping? && s.control.todo != []
    case SkipChannel =>
      s.control.Sending? && s.control.left != [] && s.control.left[0] in s.control.job.job.delivered
    case Send(_) => Tries(s.control) && CanSend(c, s.control.job.id, s.control.job.job, s.control.left[0])
    case FailSend => Tries(s.control)
    case RecordAcceptance => s.control.Marking? && s.control.left != []
    case CloseFailure => s.control.Sending? && s.control.left == [] && s.control.job.job.fullText.None?
    case RecordRouting(_) => s.control.Sending? && s.control.left == [] && s.control.job.job.fullText.Some?
    case CloseSuccess => s.control.Routed?
    case TakePending => s.control.Sweeping? && s.control.todo == []
    case StartJob => s.control.Picked?
    // the program raises these errors with texts of its own, so a reason is never empty
    case RejectUrl(reason) => s.control.Working? && !c.parses(s.control.job.job.url) && reason != ""
    case FinishStages(stage) =>
      && s.control.Working? && c.parses(s.control.job.job.url) && (stage.Permanent? ==> stage.reason != "")
         // audio_suffix raises ValueError, which is neither a counted nor an infrastructure error; a
         // bucket name the S3 client refuses is reported as an infrastructure error
      && (!c.fetchable(s.control.job.job.url) ==> stage.Unexpected? || stage.Infrastructure?)
    case SettleAttempt => s.control.Counted?
    case Crash => true
    case Post(id, url, _) => id != "" && c.parses(url)   // other requests are answered 400
    case Discover(bucket, key, _) => c.scans(bucket, key)
  }

  /**
    Local moves of the worker: reading the tables, opening the next job, passing over a channel, and
    an error before anything is sent that is no infrastructure error: it ends the whole round.
   */
  function NextRead(c: Config, s: State, a: Action): State
    requires Enabled(c, s, a) && Reads(a)
  {
    var control := s.control;
    s.(control :=
      match a
      case BeginSweep => Sweeping(ListDelivering(s.rows))
      case OpenJob => Sending(control.todo[0], Channels(c), control.todo[1..])
      case SkipChannel => Sending(control.job, control.left[1..], control.todo)
      case FailSend => Idle
      case TakePending =>
        var next := NextPending(s.rows);
        if next.Some? then Picked(next.value) else Idle)
  }

  /** A call to a delivery channel; an error abandons the job for this sweep. */
  function NextSend(c: Config, s: State, a: Action): State
    requires Enabled(c, s, a) && a.Send?
  {
    var Sending(job, left, todo) := s.control;
    s.(history := s.history.(sent := s.history.sent + [MessageFor(c, s.history, job, left[0], a.outcome)]),
       control := if a.outcome.Accepted? then Marking(job, left, todo) else Sweeping(todo))
  }

  /** What the worker writes while delivering. */
  function NextDelivery(c: Config, s: State, a: Action): State
    requires Enabled(c, s, a) && Delivers(a)
  {
    var job := s.control.job;
    match a
    case RecordAcceptance =>
      var Marking(_, left, todo) := s.control;
      s.(rows := MarkDeliveredTo(s.rows, job.id, left[0]),
         history := s.history.(recordedAt :=
           s.history.recordedAt[CurrentParcel(s.history, job.id, left[0]) := |s.history.sent|]),
         control := Sending(job, left[1..], todo))
    case CloseFailure =>
      s.(rows := SetStatus(s.rows, job.id, Failed), control := Sweeping(s.control.todo))
    case RecordRouting(now) =>
      var d := c.decide(job.job.url, job.job.summary.GetOr(""), job.job.fullText.GetOr(""));
      s.(rows := SetRouting(s.rows, job.id, d.route, d.rule, EmailedTo(c, d), now),
         control := Routed(job, s.control.todo))
    case CloseSuccess =>
      s.(rows := SetStatus(s.rows, job.id, Done), control := Sweeping(s.control.todo))
  }

  /** What processing does to the table: it stays with the job, or hands it over for delivery. */
  datatype Processed = Kept(rows: Rows, control: Control) | Entered(rows: Rows)

  function Process(c: Config, s: State, a: Action): Processed
    requires Enabled(c, s, a) && Processes(a)
  {
    var job := s.control.job;
    match a
    case StartJob => Kept(SetStatus(s.rows, job.id, Processing), Working(job))
    case RejectUrl(reason) => Entered(SetFailedResult(s.rows, job.id, reason))
    case FinishStages(Success(fullText, summary)) => Entered(SetResult(s.rows, job.id, fullText, summary))
    case FinishStages(Permanent(reason)) =>
      var rows := IncrementAttempts(s.rows, job.id, reason);
      Kept(rows, Counted(job, if job.id in rows then rows[job.id].attempts else 0, reason))
    case FinishStages(_) => Kept(s.rows, Idle)
    case SettleAttempt =>
      if s.control.attempts < c.maxRetries then Kept(SetStatus(s.rows, job.id, Queued), Idle)
      else Entered(SetFailedResult(s.rows, job.id, s.control.reason))
  }

  function NextProcessing(c: Config, s: State, a: Action): State
    requires Enabled(c, s, a) && Processes(a)
  {
    match Process(c, s, a)
    case Kept(rows, control) => s.(rows := rows, control := control)
    case Entered(rows) => EnterDelivering(s, s.control.job.id, rows)
  }

  /** The worker's local state is gone; an acceptance or an attempt it was about to settle is noted. */
  function NextCrash(s: State): State {
    var lost := InFlight(s.control, s.history);
    s.(control := Idle,
       orphaned := if lost.Some? then s.orphaned + multiset{lost.value} else s.orphaned,
       torn := if s.control.Counted? && s.control.job.id in s.torn
               then s.torn[s.control.job.id := s.torn[s.control.job.id] + 1] else s.torn)
  }

  /** Work that comes from outside. */
  function NextArrival(c: Config, s: State, a: Action): State
    requires Enabled(c, s, a) && Arrives(a)
  {
    match a
    case Post(id, url, now) =>
      if id !in s.rows || s.rows[id].status.Failed? then Arrive(c, s, id, Enqueue(s.rows, id, url, now)) else s
    case Discover(bucket, key, now) =>
      if (bucket, key) in s.objects then s
      else
        var id := c.recordId(bucket, key);
        var known := s.(objects := s.objects[(bucket, key) := id]);
        if id in s.rows then known
        else Arrive(c, known, id, InsertIfNew(s.rows, id, c.objectUrl(bucket, key), now))
  }

  predicate Reads(a: Action) {
    a.BeginSweep? || a.OpenJob? || a.SkipChannel? || a.FailSend? || a.TakePending?
  }

  predicate Delivers(a: Action) {
    a.RecordAcceptance? || a.CloseFailure? || a.RecordRouting? || a.CloseSuccess?
  }

  predicate Processes(a: Action) {
    a.StartJob? || a.RejectUrl? || a.FinishStages? || a.SettleAttempt?
  }

  predicate Arrives(a: Action) {
    a.Post? || a.Discover?
  }

  /** What an action does. */
  function Next(c: Config, s: State, a: Action): State
    requires Enabled(c, s, a)
  {
    if Reads(a) then NextRead(c, s, a)
    else if a.Send? then NextSend(c, s, a)
    else if Delivers(a) then NextDelivery(c, s, a)
    else if Processes(a) then NextProcessing(c, s, a)
    else if Arrives(a) then NextArrival(c, s, a)
    else NextCrash(s)
  }

  // ---- runs ----

  /** Every action of the sequence is enabled when its turn comes. */
  predicate Run(c: Config, s: State, actions: seq<Action>)
    decreases |actions|
  {
    actions == [] || (Enabled(c, s, actions[0]) && Run(c, Next(c, s, actions[0]), actions[1..]))
  }

  /** The state a run ends in. */
  function After(c: Config, s: State, actions: seq<Action>): State
    requires Run(c, s, actions)
    decreases |actions|
  {
    if actions == [] then s else After(c, Next(c, s, actions[0]), actions[1..])
  }

  lemma RunCons(c: Config, s: State, a: Action, rest: seq<Action>)
    ensures Run(c, s, [a] + rest) <==> Enabled(c, s, a) && Run(c, Next(c, s, a), rest)
    ensures Run(c, s, [a] + rest) ==> After(c, s, [a] + rest) == After(c, Next(c, s, a), rest)
  {
    assert ([a] + rest)[1..] == rest;
  }

  lemma FirstAction(first: seq<Action>, second: seq<Action>)
    requires first != []
    ensures first == [first[0]] + first[1..] && first + second == [first[0]] + (first[1..] + second)
  {
  }

  lemma {:induction false} RunConcat(c: Config, s: State, first: seq<Action>, second: seq<Action>)
    requires Run(c, s, first) && Run(c, After(c, s, first), second)
    ensures Run(c, s, first + second)
    ensures After(c, s, first + second) == After(c, After(c, s, first), second)
    decreases |first|
  {
    if first == [] {
      assert first + second == second;
    } else {
      var a, rest := first[0], first[1..];
      FirstAction(first, second);
      RunConcat(c, Next(c, s, a), rest, second);
      RunCons(c, s, a, rest + second);
    }
  }

  lemma RunSnoc(c: Config, s: State, actions: seq<Action>, a: Action)
    requires Run(c, s, actions) && Enabled(c, After(c, s, actions), a)
    ensures Run(c, s, actions + [a])
    ensures After(c, s, actions + [a]) == Next(c, After(c, s, actions), a)
  {
    assert Run(c, After(c, s, actions), [a]) by {
      assert [a][1..] == [];
    }
    RunConcat(c, s, actions, [a]);
  }

  lemma {:induction false} RunPrefix(c: Config, s: State, first: seq<Action>, second: seq<Action>)
    requires Run(c, s, first + second)
    ensures Run(c, s, first) && Run(c, After(c, s, first), second)
    ensures After(c, s, first + second) == After(c, After(c, s, first), second)
    decreases |first|
  {
    if first == [] {
      assert first + second == second;
    } else {
      FirstAction(first, second);
      RunCons(c, s, first[0], first[1..] + second);
      RunPrefix(c, Next(c, s, first[0]), first[1..], second);
    }
  }
}
