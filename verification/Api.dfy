/** The HTTP API's part in the protocol: taking requests, and showing what is delivered. */
module Api {
  import opened Prelude
  import opened Jobs
  import opened Protocol
  import opened Invariant
  import opened Store
  import Guarantees
  import Mailer
  import Normalize
  import S3io
  import Service

  datatype Response = AcceptedRequest(id: string) | BadRequest

  /** Whether a request is well formed: an id and a URL that names a recording. */
  predicate WellFormed(id: string, url: string) {
    id != "" && url != "" && S3io.ParseCallRecordUrl(url).Ok?
  }

  /** `request_transcription`: queue a recording; repeating the request changes nothing. */
  method RequestTranscription(u: Normalize.Alphabet, store: JobStore, rawId: string, rawUrl: string, now: int)
    returns (r: Response)
    modifies store
    ensures var id, url := Normalize.Strip(u, rawId), Normalize.Strip(u, rawUrl);
            && (r == if WellFormed(id, url) then AcceptedRequest(id) else BadRequest)
            && store.jobs == (if WellFormed(id, url) then Enqueue(old(store.jobs), id, url, now) else old(store.jobs))
            && store.objects == old(store.objects)
  {
    var id, url := Normalize.Strip(u, rawId), Normalize.Strip(u, rawUrl);
    if id == "" || url == "" {
      return BadRequest;
    }
    if S3io.ParseCallRecordUrl(url).Raised? {
      return BadRequest;
    }
    var _ := store.Enqueue(id, url, now);
    r := AcceptedRequest(id);
  }

  lemma PostEnqueues(c: Config, s: State, id: string, url: string, now: int)
    requires id != "" && c.parses(url)
    ensures NextArrival(c, s, Post(id, url, now)).rows == Enqueue(s.rows, id, url, now)
  {
  }

  /** Every accepted request is a step of the protocol, and does to the rows what that step does. */
  lemma RequestIsPost(d: Service.Deployment, s: State, id: string, url: string, now: int)
    requires WellFormed(id, url)
    ensures Service.ConfigOf(d).parses(url)
    ensures NextArrival(Service.ConfigOf(d), s, Post(id, url, now)).rows == Enqueue(s.rows, id, url, now)
  {
    PostEnqueues(Service.ConfigOf(d), s, id, url, now);
  }

  /** A request repeated before the job has failed changes nothing, whatever URL it names. */
  lemma RepeatedRequestIsIdle(rows: Rows, id: string, url: string, now: int, url': string, now': int)
    ensures var once := Enqueue(rows, id, url, now);
            Enqueue(once, id, url', now') == once
  {
  }

  /** Only the ends of an id are stripped: the id "a\nb" is accepted, and no mail about it can be built. */
  lemma LineBreakIdIsAccepted(d: Service.Deployment, id: string, url: string, to: seq<string>)
    requires id == ['a', '\n', 'b'] && url != "" && S3io.ParseCallRecordUrl(url).Ok?
    requires !d.mail.alphabet.space('a') && !d.mail.alphabet.space('b')
    ensures Normalize.Strip(d.mail.alphabet, id) == id && WellFormed(id, url)
    ensures !Service.ConfigOf(d).sendable(Email, id, to)
  {
    Mailer.StripIdle(d.mail.alphabet, id);
    Service.HasLineBreak(id, 1);
    Service.LineBreakIsUnsendable(d, id, to);
  }

  // ---- what was or would be delivered ----

  datatype SentRouting = SentRouting(route: string, rule: string, to: seq<string>, when: Option<int>)

  datatype Shown = Shown(payload: Payload, to: seq<string>, delivered: bool)

  /** `DeliveryResponse`: the recorded routing, the routing by today's rules, and the message for each channel. */
  datatype View = View(sent: Option<SentRouting>, current: Option<Decision>, bpm: Option<Shown>, email: Option<Shown>)

  datatype ViewResponse = NotFound | ServerError | Found(view: View)

  /** The job has a result or a failure to tell. */
  predicate Processed(job: Job) {
    && (job.status.Delivering? || job.status.Done? || job.status.Failed?)
    && (job.fullText.Some? || job.error.GetOr("") != "")
  }

  function Message(job: Job): Payload {
    var isError := Processed(job) && job.fullText.None?;
    Payload(job.summary.GetOr(""), job.fullText.GetOr(""), isError,
            if isError then job.error.GetOr("") else "", job.url)
  }

  /** `job_delivery` for one row, when the mail can be built. */
  function ViewOf(c: Config, job: Job): View {
    var summary, fullText := job.summary.GetOr(""), job.fullText.GetOr("");
    var d := c.decide(job.url, summary, fullText);
    View(
      if job.routeBy == "" then None
      else Some(SentRouting(job.route, job.routeBy, Mailer.ReadRecipients(job.emailedTo), job.routedAt)),
      if Processed(job) && job.fullText.Some? then Some(d.(to := if c.email then d.to else [])) else None,
      if Processed(job) && c.bpm then Some(Shown(Message(job), [], Bpm in job.delivered)) else None,
      if Processed(job) && c.email then Some(Shown(Message(job), d.to, Email in job.delivered)) else None)
  }

  lemma ViewOfRow(c: Config, job: Job)
    requires RowOk(c, job)
    ensures Processed(job) <==> !job.Pending()
    ensures Processed(job) ==> Message(job) == PayloadOf(job)
  {
  }

  /**
    What is shown for a channel is what every message of the current delivery to it carries, to the
    same recipients, and it is shown as delivered exactly when its acceptance is recorded.
   */
  ghost predicate ShowsChannel(c: Config, h: History, id: string, channel: Channel, shown: Option<Shown>) {
    && (shown.Some? <==> channel in Channels(c))
    && (shown.Some? ==>
          && (shown.value.delivered <==> CurrentParcel(h, id, channel) in h.recordedAt)
          && forall m :: m in h.sent && m.parcel == CurrentParcel(h, id, channel) ==>
               m.payload == shown.value.payload && m.to == shown.value.to)
  }

  lemma ChannelView(c: Config, s: State, id: string, channel: Channel)
    requires Inv(c, s) && id in s.rows && !s.rows[id].Pending()
    ensures var v := ViewOf(c, s.rows[id]);
            ShowsChannel(c, s.history, id, channel, if channel.Bpm? then v.bpm else v.email)
  {
    assert RowOk(c, s.rows[id]) && RecordOk(s.rows, s.history, id, channel) && IssuedOk(s.rows, s.history, id);
    ViewOfRow(c, s.rows[id]);
    forall m | m in s.history.sent && m.parcel == CurrentParcel(s.history, id, channel)
      ensures m.payload == PayloadOf(s.rows[id])
      ensures m.to == Recipients(c, m.payload.url, m.payload.summary, m.payload.fullText, channel)
    {
      assert SentOk(c, s.history, m);
    }
  }

  /** The message that is shown: the stored texts, or a failure with the stored error. */
  predicate ShowsTexts(job: Job, shown: Option<Shown>) {
    shown.Some? ==>
      shown.value.payload
      == if job.fullText.Some? then Payload(job.summary.GetOr(""), job.fullText.value, false, "", job.url)
         else Payload("", "", true, job.error.GetOr(""), job.url)
  }

  /** The recorded routing is that of the rules, with the time of its recording. */
  ghost predicate ShowsRouting(c: Config, job: Job, v: View) {
    && (v.email.Some? ==> v.email.value.to == Decided(c, job).to)
    && (v.current.Some? <==> job.fullText.Some?)
    && (v.current.Some? ==>
          v.current == Some(Decision(if c.email then Decided(c, job).to else [], Decided(c, job).rule,
                                     Decided(c, job).route)))
    && (v.sent.Some? ==> v.current.Some? && v.sent.value.route == v.current.value.route
                         && v.sent.value.rule == v.current.value.rule && v.sent.value.when == job.routedAt)
    && (v.sent.Some? ==> v.sent.value.to == Mailer.ReadRecipients(EmailedTo(c, Decided(c, job))))
    && (job.status.Done? && v.sent.None? ==> v.current.Some? && v.current.value.rule == "")
  }

  /** What the view promises of a row of a state. */
  ghost predicate Shows(c: Config, h: History, id: string, job: Job, v: View) {
    if job.Pending() then v == View(None, None, None, None)
    else
      && ShowsChannel(c, h, id, Bpm, v.bpm) && ShowsChannel(c, h, id, Email, v.email)
      && ShowsTexts(job, v.bpm) && ShowsTexts(job, v.email)
      && ShowsRouting(c, job, v)
  }

  lemma RowView(c: Config, job: Job)
    requires RowOk(c, job)
    ensures job.Pending() ==> ViewOf(c, job) == View(None, None, None, None)
    ensures !job.Pending() ==> ShowsTexts(job, ViewOf(c, job).bpm) && ShowsTexts(job, ViewOf(c, job).email)
  {
    ViewOfRow(c, job);
  }

  lemma RowRouting(c: Config, job: Job)
    requires RowOk(c, job) && !job.Pending()
    ensures ShowsRouting(c, job, ViewOf(c, job))
  {
  }

  /** In every reachable state, for every row. */
  lemma ViewIsWhatIsSent(c: Config, actions: seq<Action>, s: State, id: string)
    requires Guarantees.Reached(c, actions, s) && id in s.rows
    ensures Shows(c, s.history, id, s.rows[id], ViewOf(c, s.rows[id]))
  {
    Guarantees.ReachedOk(c, actions, s);
    assert RowOk(c, s.rows[id]);
    RowView(c, s.rows[id]);
    if !s.rows[id].Pending() {
      RowRouting(c, s.rows[id]);
      ChannelView(c, s, id, Bpm);
      ChannelView(c, s, id, Email);
    }
  }

  /** `job_delivery` on the store as some run has left it; it fails where the worker fails to build the mail. */
  method JobDelivery(c: Config, store: JobStore, id: string, ghost actions: seq<Action>, ghost s: State)
    returns (r: ViewResponse)
    requires Guarantees.Reached(c, actions, s) && s.rows == store.jobs
    ensures r.NotFound? <==> id !in store.jobs
    ensures r.ServerError? <==>
              id in store.jobs && !store.jobs[id].Pending() && c.email && !CanSend(c, id, store.jobs[id], Email)
    ensures r.Found? ==> Shows(c, s.history, id, store.jobs[id], r.view)
  {
    var job := store.Get(id);
    if job.None? {
      return NotFound;
    }
    ViewIsWhatIsSent(c, actions, s, id);
    if Processed(job.value) && c.email && !CanSend(c, id, job.value, Email) {
      r := ServerError;
    } else {
      r := Found(ViewOf(c, job.value));
    }
    Guarantees.ReachedOk(c, actions, s);
    ViewOfRow(c, job.value);
  }
}
