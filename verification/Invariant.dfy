/**
  What every reachable state of the protocol satisfies, and the proof that each
  action of each actor keeps it.
 */
module Invariant {
  import opened Prelude
  import opened Jobs
  import opened Protocol

  // ---- rows ----

  function Decided(c: Config, job: Job): Decision {
    c.decide(job.url, job.summary.GetOr(""), job.fullText.GetOr(""))
  }

  /** The routing columns say what the configured rules say about the stored texts. */
  ghost predicate Attributed(c: Config, job: Job) {
    var d := Decided(c, job);
    job.route == d.route && job.routeBy == d.rule && job.emailedTo == EmailedTo(c, d) && job.routedAt.Some?
  }

  /** BPM is tried before e-mail, so what a job has recorded is a prefix of the enabled channels. */
  ghost predicate PrefixOfChannels(c: Config, recorded: set<Channel>) {
    (forall x :: x in recorded ==> x in Channels(c)) && (Email in recorded && c.bpm ==> Bpm in recorded)
  }

  ghost predicate AllChannels(c: Config, recorded: set<Channel>) {
    forall x :: x in Channels(c) ==> x in recorded
  }

  /** The columns of one row fit together. */
  ghost predicate RowOk(c: Config, job: Job) {
    && (job.fullText.Some? <==> job.summary.Some?)
    && (job.fullText.Some? ==> job.error.None? && (job.status.Delivering? || job.status.Done?))
    && (job.status.Done? ==> job.fullText.Some? && Attributed(c, job))
    && (job.fullText.None? && !job.Pending() ==>
          job.error.Some? && (job.attempts >= c.maxRetries || !c.parses(job.url)))
    && (job.fullText.None? ==> job.Unrouted()) && job.error != Some("")
    && (job.Unrouted() || Attributed(c, job))
    && PrefixOfChannels(c, job.delivered)
    && (job.status.Done? || job.status.Failed? ==> AllChannels(c, job.delivered))
  }

  ghost predicate RowsOk(c: Config, rows: Rows) {
    forall id :: id in rows ==> RowOk(c, rows[id])
  }

  // ---- the worker's copies ----

  ghost predicate Fresh(rows: Rows, x: Snapshot) {
    x.id in rows && rows[x.id] == x.job
  }

  ghost predicate FreshTodo(rows: Rows, todo: seq<Snapshot>) {
    && (forall x :: x in todo ==> Fresh(rows, x) && x.job.status.Delivering?)
    && (forall i, j :: 0 <= i < j < |todo| ==> todo[i].id != todo[j].id)
  }

  /** `left` is what remains of the enabled channels: all of them, the last of two, or none. */
  ghost predicate Remaining(c: Config, left: seq<Channel>) {
    left == Channels(c) || (left == [Email] && c.email) || left == []
  }

  /** The stored row is the copy plus the channels recorded since the copy was read. */
  ghost predicate FreshButDelivered(c: Config, rows: Rows, x: Snapshot, left: seq<Channel>) {
    && x.id in rows && x.job.status.Delivering?
    && rows[x.id] == x.job.(delivered := rows[x.id].delivered)
    && Remaining(c, left)
    && (forall ch :: ch in rows[x.id].delivered <==> ch in x.job.delivered || (ch in Channels(c) && ch !in left))
  }

  ghost predicate Apart(x: Snapshot, todo: seq<Snapshot>) {
    forall y :: y in todo ==> y.id != x.id
  }

  /** The job the worker holds is stored as it was read, apart from what the worker itself wrote since. */
  ghost predicate HeldOk(c: Config, s: State) {
    match s.control
    case Idle => true
    case Sweeping(_) => true
    case Sending(x, left, _) => FreshButDelivered(c, s.rows, x, left)
    case Marking(x, left, _) =>
      && FreshButDelivered(c, s.rows, x, left) && left != [] && left[0] !in x.job.delivered
      && CanSend(c, x.id, x.job, left[0])
    case Routed(x, _) =>
      && x.id in s.rows && x.job.status.Delivering? && x.job.fullText.Some?
      && var row := s.rows[x.id];
         && AllChannels(c, row.delivered) && Attributed(c, row)
         && row == x.job.(delivered := row.delivered, route := row.route, routeBy := row.routeBy,
                          emailedTo := row.emailedTo, routedAt := row.routedAt)
    case Picked(x) => Fresh(s.rows, x) && x.job.Pending()
    case Working(x) => x.id in s.rows && x.job.Pending() && s.rows[x.id] == x.job.(status := Processing)
    case Counted(x, attempts, reason) =>
      && x.id in s.rows && x.job.Pending() && attempts == x.job.attempts + 1
      && s.rows[x.id] == x.job.(status := Processing, attempts := attempts, error := Some(reason))
      && c.parses(x.job.url) && c.fetchable(x.job.url) && reason != ""
  }

  /** The jobs the worker has still to deliver in this sweep. */
  function Todo(control: Control): seq<Snapshot> {
    if control.Sweeping? || control.Sending? || control.Marking? || control.Routed? then control.todo else []
  }

  /** Those rows have not changed since they were listed. */
  ghost predicate TodoOk(s: State) {
    && FreshTodo(s.rows, Todo(s.control))
    && (s.control.Sending? || s.control.Marking? || s.control.Routed? ==> Apart(s.control.job, s.control.todo))
  }

  // ---- attempts ----

  /** The worker counted an attempt of this job and has not yet acted on it. */
  ghost predicate BeingCounted(s: State, id: string) {
    s.control.Counted? && s.control.job.id == id
  }

  ghost predicate AttemptOk(c: Config, s: State, id: string) {
    && id in s.rows && id in s.torn
    && s.rows[id].attempts <= Limit(c) + s.torn[id]
    && (s.rows[id].Pending() && !BeingCounted(s, id) ==> s.rows[id].attempts < Limit(c) + s.torn[id])
  }

  ghost predicate AttemptsOk(c: Config, s: State) {
    forall id :: id in s.rows ==> AttemptOk(c, s, id)
  }

  // ---- scanned objects ----

  ghost predicate ObjectsOk(c: Config, rows: Rows, objects: map<(string, string), string>) {
    forall o :: o in objects ==> objects[o] == c.recordId(o.0, o.1) && objects[o] in rows
  }

  // ---- deliveries ----

  ghost predicate Known(h: History, p: Parcel) {
    p.id in h.generation && p.generation <= h.generation[p.id]
  }

  /** Ids and generations in the history are those of stored jobs. */
  ghost predicate HistoryOk(rows: Rows, h: History) {
    && (forall id :: id in h.generation <==> id in rows)
    && (forall m :: m in h.sent ==> Known(h, m.parcel))
    && (forall p :: p in h.recordedAt ==> Known(h, p) && h.recordedAt[p] <= |h.sent|)
    && (forall k :: k in h.issued ==> k.0 in h.generation && k.1 <= h.generation[k.0])
  }

  ghost predicate SentOk(c: Config, h: History, m: Sent) {
    var k := (m.parcel.id, m.parcel.generation);
    && k in h.issued && m.payload == h.issued[k]
    && m.to == Recipients(c, m.payload.url, m.payload.summary, m.payload.fullText, m.parcel.channel)
  }

  ghost predicate IssuedOk(rows: Rows, h: History, id: string) {
    id in rows && !rows[id].Pending() ==>
      var k := (id, Generation(h, id));
      k in h.issued && h.issued[k] == PayloadOf(rows[id])
  }

  /** What was sent for one entry into delivering is what was stored then, and that is still stored. */
  ghost predicate PayloadsOk(c: Config, rows: Rows, h: History) {
    && (forall m :: m in h.sent ==> SentOk(c, h, m))
    && (forall id :: id in rows ==> IssuedOk(rows, h, id))
  }

  ghost predicate RecordOk(rows: Rows, h: History, id: string, ch: Channel) {
    id in rows && !rows[id].Pending() ==>
      (ch in rows[id].delivered <==> CurrentParcel(h, id, ch) in h.recordedAt)
  }

  /** The recorded channels of a row are the acceptances recorded for its current generation. */
  ghost predicate RecordsOk(rows: Rows, h: History) {
    forall id, ch :: id in rows ==> RecordOk(rows, h, id, ch)
  }

  /** Nothing is sent after its acceptance was recorded. */
  ghost predicate NoResend(h: History) {
    forall i :: 0 <= i < |h.sent| && h.sent[i].parcel in h.recordedAt ==> i < h.recordedAt[h.sent[i].parcel]
  }

  /** How often the parcel was sent with this outcome. */
  function Times(sent: seq<Sent>, p: Parcel, outcome: Outcome): nat {
    if sent == [] then 0
    else
      var last := sent[|sent| - 1];
      Times(sent[..|sent| - 1], p, outcome) + (if last.parcel == p && last.outcome == outcome then 1 else 0)
  }

  /** Every acknowledged acceptance is recorded, about to be recorded, or was lost to a crash. */
  ghost predicate Balanced(h: History, orphaned: multiset<Parcel>, inFlight: Option<Parcel>, p: Parcel) {
    Times(h.sent, p, Accepted)
    == orphaned[p] + (if p in h.recordedAt then 1 else 0) + (if inFlight == Some(p) then 1 else 0)
  }

  ghost predicate AccountsOk(h: History, orphaned: multiset<Parcel>, inFlight: Option<Parcel>) {
    forall p: Parcel :: Balanced(h, orphaned, inFlight, p)
  }

  ghost predicate Inv(c: Config, s: State) {
    && RowsOk(c, s.rows) && HeldOk(c, s) && TodoOk(s) && AttemptsOk(c, s) && ObjectsOk(c, s.rows, s.objects)
    && HistoryOk(s.rows, s.history) && PayloadsOk(c, s.rows, s.history) && RecordsOk(s.rows, s.history)
    && NoResend(s.history) && AccountsOk(s.history, s.orphaned, InFlight(s.control, s.history))
  }

  lemma InitialOk(c: Config)
    ensures Inv(c, Initial())
  {
  }

  // ---- local moves ----

  lemma RemainingTail(c: Config, left: seq<Channel>)
    requires Remaining(c, left) && left != []
    ensures Remaining(c, left[1..]) && left[0] in Channels(c) && left[0] !in left[1..]
    ensures forall ch :: ch in left <==> ch == left[0] || ch in left[1..]
    ensures left[0].Email? ==> Bpm !in left
  {
    assert left == [left[0]] + left[1..];
  }

  lemma HeldAfterRead(c: Config, s: State, a: Action)
    requires Enabled(c, s, a) && Reads(a) && HeldOk(c, s) && TodoOk(s)
    ensures HeldOk(c, NextRead(c, s, a))
  {
    if a.SkipChannel? {
      RemainingTail(c, s.control.left);
    } else if a.OpenJob? {
      assert Remaining(c, Channels(c));
    }
  }

  lemma TodoAfterRead(c: Config, s: State, a: Action)
    requires Enabled(c, s, a) && Reads(a) && TodoOk(s)
    ensures TodoOk(NextRead(c, s, a))
  {
  }

  lemma KeepRead(c: Config, s: State, a: Action)
    requires Enabled(c, s, a) && Reads(a) && Inv(c, s)
    ensures Inv(c, NextRead(c, s, a))
  {
    HeldAfterRead(c, s, a);
    TodoAfterRead(c, s, a);
    var t := NextRead(c, s, a);
    forall id | id in t.rows ensures AttemptOk(c, t, id) {
      assert AttemptOk(c, s, id);
    }
  }

  // ---- calls to a channel ----

  lemma HeldAfterSend(c: Config, s: State, a: Action)
    requires Enabled(c, s, a) && a.Send? && HeldOk(c, s) && TodoOk(s)
    ensures HeldOk(c, NextSend(c, s, a)) && TodoOk(NextSend(c, s, a))
  {
  }

  /** A channel the worker is about to try has no recorded acceptance for the current generation. */
  lemma SendIsFirst(c: Config, s: State, a: Action)
    requires Enabled(c, s, a) && a.Send? && HeldOk(c, s) && RecordsOk(s.rows, s.history)
    ensures CurrentParcel(s.history, s.control.job.id, s.control.left[0]) !in s.history.recordedAt
  {
    assert RecordOk(s.rows, s.history, s.control.job.id, s.control.left[0]);
    RemainingTail(c, s.control.left);
  }

  lemma TimesSnoc(sent: seq<Sent>, m: Sent, p: Parcel, outcome: Outcome)
    ensures Times(sent + [m], p, outcome)
            == Times(sent, p, outcome) + (if m.parcel == p && m.outcome == outcome then 1 else 0)
  {
    assert (sent + [m])[..|sent|] == sent;
  }

  lemma BalanceAfterSend(c: Config, s: State, a: Action, p: Parcel)
    requires Enabled(c, s, a) && a.Send? && Balanced(s.history, s.orphaned, None, p)
    ensures var t := NextSend(c, s, a); Balanced(t.history, t.orphaned, InFlight(t.control, t.history), p)
  {
    TimesSnoc(s.history.sent, MessageFor(c, s.history, s.control.job, s.control.left[0], a.outcome), p, Accepted);
  }

  lemma PayloadAfterSend(c: Config, s: State, a: Action)
    requires Enabled(c, s, a) && a.Send? && HeldOk(c, s)
    requires HistoryOk(s.rows, s.history) && PayloadsOk(c, s.rows, s.history)
    ensures PayloadsOk(c, s.rows, NextSend(c, s, a).history)
  {
    var h, t := s.history, NextSend(c, s, a).history;
    assert IssuedOk(s.rows, h, s.control.job.id);
    forall m | m in t.sent ensures SentOk(c, t, m) {
      if m in h.sent {
        assert SentOk(c, h, m);
      }
    }
    forall id | id in s.rows ensures IssuedOk(s.rows, t, id) {
      assert IssuedOk(s.rows, h, id);
    }
  }

  lemma RecordsAfterSend(rows: Rows, h: History, m: Sent)
    requires HistoryOk(rows, h) && RecordsOk(rows, h) && NoResend(h)
    requires Known(h, m.parcel) && m.parcel !in h.recordedAt
    ensures var t := h.(sent := h.sent + [m]); HistoryOk(rows, t) && RecordsOk(rows, t) && NoResend(t)
  {
    var t := h.(sent := h.sent + [m]);
    forall id, ch | id in rows ensures RecordOk(rows, t, id, ch) {
      assert RecordOk(rows, h, id, ch);
    }
  }

  lemma KeepSend(c: Config, s: State, a: Action)
    requires Enabled(c, s, a) && a.Send? && Inv(c, s)
    ensures Inv(c, NextSend(c, s, a))
  {
    var t := NextSend(c, s, a);
    HeldAfterSend(c, s, a);
    PayloadAfterSend(c, s, a);
    SendIsFirst(c, s, a);
    RecordsAfterSend(s.rows, s.history, MessageFor(c, s.history, s.control.job, s.control.left[0], a.outcome));
    forall p: Parcel ensures Balanced(t.history, t.orphaned, InFlight(t.control, t.history), p) {
      assert Balanced(s.history, s.orphaned, InFlight(s.control, s.history), p);
      BalanceAfterSend(c, s, a, p);
    }
    forall id | id in t.rows ensures AttemptOk(c, t, id) {
      assert AttemptOk(c, s, id);
    }
  }

  // ---- crashes ----

  lemma AttemptAfterCrash(c: Config, s: State, id: string)
    requires AttemptOk(c, s, id)
    ensures AttemptOk(c, NextCrash(s), id)
  {
  }

  lemma KeepCrash(c: Config, s: State)
    requires Inv(c, s)
    ensures Inv(c, NextCrash(s))
  {
    var t := NextCrash(s);
    forall p: Parcel ensures Balanced(t.history, t.orphaned, None, p) {
      assert Balanced(s.history, s.orphaned, InFlight(s.control, s.history), p);
    }
    forall id | id in t.rows ensures AttemptOk(c, t, id) {
      AttemptAfterCrash(c, s, id);
    }
  }

  // ---- what the worker writes while delivering ----

  lemma HeldAfterDelivery(c: Config, s: State, a: Action)
    requires Enabled(c, s, a) && Delivers(a) && HeldOk(c, s)
    ensures HeldOk(c, NextDelivery(c, s, a))
  {
    if a.RecordAcceptance? {
      RemainingTail(c, s.control.left);
    }
  }

  lemma TodoAfterDelivery(c: Config, s: State, a: Action)
    requires Enabled(c, s, a) && Delivers(a) && TodoOk(s)
    ensures TodoOk(NextDelivery(c, s, a))
  {
  }

  /** What the channels recorded so far are, when one more is recorded and when none is left. */
  lemma ChannelsSoFar(c: Config, rows: Rows, x: Snapshot, left: seq<Channel>)
    requires FreshButDelivered(c, rows, x, left)
    ensures left == [] ==> AllChannels(c, rows[x.id].delivered)
    ensures left != [] && PrefixOfChannels(c, rows[x.id].delivered) ==>
              PrefixOfChannels(c, rows[x.id].delivered + {left[0]})
  {
    if left != [] {
      RemainingTail(c, left);
    }
  }

  lemma RowAfterDelivery(c: Config, s: State, a: Action, id: string)
    requires Enabled(c, s, a) && Delivers(a) && HeldOk(c, s)
    requires id in s.rows && RowOk(c, s.rows[id])
    ensures var t := NextDelivery(c, s, a); id in t.rows && RowOk(c, t.rows[id])
  {
    if !a.CloseSuccess? {
      ChannelsSoFar(c, s.rows, s.control.job, s.control.left);
    }
  }

  lemma RowsAfterDelivery(c: Config, s: State, a: Action)
    requires Enabled(c, s, a) && Delivers(a) && HeldOk(c, s) && RowsOk(c, s.rows)
    ensures var t := NextDelivery(c, s, a); RowsOk(c, t.rows) && t.rows.Keys == s.rows.Keys
  {
    var t := NextDelivery(c, s, a);
    forall id | id in s.rows ensures id in t.rows && RowOk(c, t.rows[id]) {
      RowAfterDelivery(c, s, a, id);
    }
  }

  lemma AttemptsAfterDelivery(c: Config, s: State, a: Action)
    requires Enabled(c, s, a) && Delivers(a) && AttemptsOk(c, s) && s.control.job.id in s.rows
    requires !s.rows[s.control.job.id].Pending()
    ensures AttemptsOk(c, NextDelivery(c, s, a))
  {
    forall id | id in s.rows ensures AttemptOk(c, NextDelivery(c, s, a), id) {
      assert AttemptOk(c, s, id);
    }
  }

  lemma PayloadAfterDelivery(c: Config, s: State, a: Action, id: string)
    requires Enabled(c, s, a) && Delivers(a) && HeldOk(c, s)
    requires id in s.rows && IssuedOk(s.rows, s.history, id)
    ensures var t := NextDelivery(c, s, a); IssuedOk(t.rows, t.history, id)
  {
  }

  lemma RecordAfterDelivery(c: Config, s: State, a: Action, id: string, ch: Channel)
    requires Enabled(c, s, a) && Delivers(a) && HeldOk(c, s)
    requires id in s.rows && RecordOk(s.rows, s.history, id, ch)
    ensures var t := NextDelivery(c, s, a); RecordOk(t.rows, t.history, id, ch)
  {
  }

  lemma RecordsAfterDelivery(c: Config, s: State, a: Action)
    requires Enabled(c, s, a) && Delivers(a) && HeldOk(c, s)
    requires RecordsOk(s.rows, s.history) && PayloadsOk(c, s.rows, s.history)
    ensures var t := NextDelivery(c, s, a); RecordsOk(t.rows, t.history) && PayloadsOk(c, t.rows, t.history)
  {
    var t := NextDelivery(c, s, a);
    forall id | id in t.rows ensures IssuedOk(t.rows, t.history, id) {
      PayloadAfterDelivery(c, s, a, id);
    }
    forall id, ch | id in t.rows ensures RecordOk(t.rows, t.history, id, ch) {
      RecordAfterDelivery(c, s, a, id, ch);
    }
    forall m | m in t.history.sent ensures SentOk(c, t.history, m) {
      assert SentOk(c, s.history, m);
    }
  }

  lemma BalanceAfterDelivery(c: Config, s: State, a: Action, p: Parcel)
    requires Enabled(c, s, a) && Delivers(a)
    requires a.RecordAcceptance? ==> InFlight(s.control, s.history).value !in s.history.recordedAt
    requires Balanced(s.history, s.orphaned, InFlight(s.control, s.history), p)
    ensures var t := NextDelivery(c, s, a); Balanced(t.history, t.orphaned, InFlight(t.control, t.history), p)
  {
  }

  lemma HistoryAfterDelivery(c: Config, s: State, a: Action)
    requires Enabled(c, s, a) && Delivers(a)
    requires !s.control.Sweeping? && !s.control.Idle? && s.control.job.id in s.rows
    requires HistoryOk(s.rows, s.history) && NoResend(s.history)
    ensures var t := NextDelivery(c, s, a); HistoryOk(t.rows, t.history) && NoResend(t.history)
  {
  }

  /** An acceptance in flight is not yet recorded. */
  lemma InFlightIsNew(c: Config, s: State)
    requires s.control.Marking? && HeldOk(c, s) && RecordsOk(s.rows, s.history)
    ensures InFlight(s.control, s.history).Some? && InFlight(s.control, s.history).value !in s.history.recordedAt
  {
    assert RecordOk(s.rows, s.history, s.control.job.id, s.control.left[0]);
  }

  lemma AccountsAfterDelivery(c: Config, s: State, a: Action)
    requires Enabled(c, s, a) && Delivers(a) && HeldOk(c, s) && RecordsOk(s.rows, s.history)
    requires AccountsOk(s.history, s.orphaned, InFlight(s.control, s.history))
    ensures var t := NextDelivery(c, s, a); AccountsOk(t.history, t.orphaned, InFlight(t.control, t.history))
  {
    var t := NextDelivery(c, s, a);
    if a.RecordAcceptance? {
      InFlightIsNew(c, s);
    }
    forall p: Parcel ensures Balanced(t.history, t.orphaned, InFlight(t.control, t.history), p) {
      BalanceAfterDelivery(c, s, a, p);
    }
  }

  lemma KeepDelivery(c: Config, s: State, a: Action)
    requires Enabled(c, s, a) && Delivers(a) && Inv(c, s)
    ensures Inv(c, NextDelivery(c, s, a))
  {
    HeldAfterDelivery(c, s, a);
    TodoAfterDelivery(c, s, a);
    RowsAfterDelivery(c, s, a);
    AttemptsAfterDelivery(c, s, a);
    RecordsAfterDelivery(c, s, a);
    HistoryAfterDelivery(c, s, a);
    AccountsAfterDelivery(c, s, a);
  }

  // ---- what the worker writes while processing ----

  lemma HeldAfterProcessing(c: Config, s: State, a: Action)
    requires Enabled(c, s, a) && Processes(a) && HeldOk(c, s)
    ensures HeldOk(c, NextProcessing(c, s, a)) && TodoOk(NextProcessing(c, s, a))
  {
  }

  lemma ProcessedRows(c: Config, s: State, a: Action)
    requires Enabled(c, s, a) && Processes(a)
    ensures NextProcessing(c, s, a).rows == Process(c, s, a).rows
  {
  }

  /** Only the held row changes: it stays pending, or it enters delivery with nothing recorded. */
  lemma ProcessedRow(c: Config, s: State, a: Action, id: string)
    requires Enabled(c, s, a) && Processes(a) && HeldOk(c, s) && id in s.rows
    ensures var p := Process(c, s, a);
            && id in p.rows && (id != s.control.job.id ==> p.rows[id] == s.rows[id])
            && (id == s.control.job.id ==>
                  if p.Kept? then p.rows[id].Pending() else p.rows[id].status.Delivering? && p.rows[id].delivered == {})
  {
  }

  lemma RowAfterProcessing(c: Config, s: State, a: Action, id: string)
    requires Enabled(c, s, a) && Processes(a) && HeldOk(c, s)
    requires id in s.rows && RowOk(c, s.rows[id])
    ensures var p := Process(c, s, a); id in p.rows && RowOk(c, p.rows[id])
  {
    if id == s.control.job.id {
      assert s.rows[id].Pending() && s.rows[id].url == s.control.job.job.url;
    }
  }

  lemma AttemptAfterProcessing(c: Config, s: State, a: Action, id: string)
    requires Enabled(c, s, a) && Processes(a) && HeldOk(c, s) && AttemptOk(c, s, id)
    ensures AttemptOk(c, NextProcessing(c, s, a), id)
  {
  }

  lemma RowsAfterProcessing(c: Config, s: State, a: Action)
    requires Enabled(c, s, a) && Processes(a) && HeldOk(c, s) && RowsOk(c, s.rows) && AttemptsOk(c, s)
    ensures RowsOk(c, Process(c, s, a).rows) && Process(c, s, a).rows.Keys == s.rows.Keys
    ensures AttemptsOk(c, NextProcessing(c, s, a))
  {
    var p := Process(c, s, a);
    assert p.rows.Keys == s.rows.Keys;
    forall id | id in s.rows
      ensures RowOk(c, p.rows[id]) && AttemptOk(c, NextProcessing(c, s, a), id)
    {
      RowAfterProcessing(c, s, a, id);
      AttemptAfterProcessing(c, s, a, id);
    }
  }

  /** What the history needs when a pending row is rewritten and stays pending. */
  lemma HistoryIfKept(c: Config, rows: Rows, h: History, x: string, after: Rows)
    requires HistoryOk(rows, h) && PayloadsOk(c, rows, h) && RecordsOk(rows, h)
    requires after.Keys == rows.Keys && x in rows && after[x].Pending()
    requires forall id :: id in rows && id != x ==> after[id] == rows[id]
    ensures HistoryOk(after, h) && PayloadsOk(c, after, h) && RecordsOk(after, h)
  {
    forall id, ch | id in after ensures IssuedOk(after, h, id) && RecordOk(after, h, id, ch) {
      assert IssuedOk(rows, h, id) && RecordOk(rows, h, id, ch);
    }
  }

  lemma RowIfEntered(s: State, x: string, after: Rows, id: string, ch: Channel)
    requires HistoryOk(s.rows, s.history) && after.Keys == s.rows.Keys && x in s.rows && id in s.rows
    requires after[x].status.Delivering? && after[x].delivered == {}
    requires id != x ==> after[id] == s.rows[id]
    requires IssuedOk(s.rows, s.history, id) && RecordOk(s.rows, s.history, id, ch)
    ensures var t := EnterDelivering(s, x, after).history; IssuedOk(after, t, id) && RecordOk(after, t, id, ch)
  {
  }

  /** ... and when it enters delivery: a new generation, its payload issued, nothing sent or recorded yet. */
  lemma HistoryIfEntered(c: Config, s: State, x: string, after: Rows)
    requires HistoryOk(s.rows, s.history) && PayloadsOk(c, s.rows, s.history) && RecordsOk(s.rows, s.history)
    requires after.Keys == s.rows.Keys && x in s.rows
    requires after[x].status.Delivering? && after[x].delivered == {}
    requires forall id :: id in s.rows && id != x ==> after[id] == s.rows[id]
    ensures var t := EnterDelivering(s, x, after).history;
            HistoryOk(after, t) && PayloadsOk(c, after, t) && RecordsOk(after, t)
  {
    var h, t := s.history, EnterDelivering(s, x, after).history;
    forall id, ch | id in after ensures IssuedOk(after, t, id) && RecordOk(after, t, id, ch) {
      assert IssuedOk(s.rows, h, id) && RecordOk(s.rows, h, id, ch);
      RowIfEntered(s, x, after, id, ch);
    }
    forall m | m in t.sent ensures SentOk(c, t, m) {
      assert SentOk(c, h, m);
    }
  }

  lemma HistoryAfterProcessing(c: Config, s: State, a: Action)
    requires Enabled(c, s, a) && Processes(a) && HeldOk(c, s) && Process(c, s, a).rows.Keys == s.rows.Keys
    requires HistoryOk(s.rows, s.history) && PayloadsOk(c, s.rows, s.history) && RecordsOk(s.rows, s.history)
    ensures var t := NextProcessing(c, s, a);
            HistoryOk(t.rows, t.history) && PayloadsOk(c, t.rows, t.history) && RecordsOk(t.rows, t.history)
  {
    var p := Process(c, s, a);
    forall id | id in s.rows
      ensures id != s.control.job.id ==> p.rows[id] == s.rows[id]
    {
      ProcessedRow(c, s, a, id);
    }
    ProcessedRow(c, s, a, s.control.job.id);
    if p.Kept? {
      HistoryIfKept(c, s.rows, s.history, s.control.job.id, p.rows);
    } else {
      HistoryIfEntered(c, s, s.control.job.id, p.rows);
    }
  }

  lemma AccountsAfterProcessing(c: Config, s: State, a: Action)
    requires Enabled(c, s, a) && Processes(a)
    requires AccountsOk(s.history, s.orphaned, InFlight(s.control, s.history)) && NoResend(s.history)
    ensures var t := NextProcessing(c, s, a);
            AccountsOk(t.history, t.orphaned, InFlight(t.control, t.history)) && NoResend(t.history)
  {
    var t := NextProcessing(c, s, a);
    forall p: Parcel ensures Balanced(t.history, t.orphaned, InFlight(t.control, t.history), p) {
      assert Balanced(s.history, s.orphaned, InFlight(s.control, s.history), p);
    }
  }

  lemma KeepProcessing(c: Config, s: State, a: Action)
    requires Enabled(c, s, a) && Processes(a) && Inv(c, s)
    ensures Inv(c, NextProcessing(c, s, a))
  {
    HeldAfterProcessing(c, s, a);
    RowsAfterProcessing(c, s, a);
    HistoryAfterProcessing(c, s, a);
    AccountsAfterProcessing(c, s, a);
  }

  // ---- arrivals ----

  /** The API and the scanner change a row only if it is failed, so the worker's copies stay good. */
  lemma ArrivalChangesOnlyFailed(c: Config, s: State, a: Action, id: string)
    requires Enabled(c, s, a) && Arrives(a)
    requires id in s.rows && !s.rows[id].status.Failed?
    ensures var t := NextArrival(c, s, a);
            id in t.rows && t.rows[id] == s.rows[id] && t.control == s.control
  {
  }

  lemma HeldAfterArrival(c: Config, s: State, a: Action)
    requires Enabled(c, s, a) && Arrives(a) && HeldOk(c, s)
    ensures HeldOk(c, NextArrival(c, s, a))
  {
    if !s.control.Idle? && !s.control.Sweeping? {
      ArrivalChangesOnlyFailed(c, s, a, s.control.job.id);
    }
  }

  lemma TodoAfterArrival(c: Config, s: State, a: Action)
    requires Enabled(c, s, a) && Arrives(a) && TodoOk(s)
    ensures TodoOk(NextArrival(c, s, a))
  {
    var t := NextArrival(c, s, a);
    assert t.control == s.control;
    forall x | x in Todo(t.control) ensures Fresh(t.rows, x) && x.job.status.Delivering? {
      ArrivalChangesOnlyFailed(c, s, a, x.id);
    }
  }

  lemma RowAfterArrival(c: Config, s: State, a: Action, id: string)
    requires Enabled(c, s, a) && Arrives(a) && HeldOk(c, s)
    requires id in s.rows ==> RowOk(c, s.rows[id]) && AttemptOk(c, s, id)
    requires id in NextArrival(c, s, a).rows
    ensures var t := NextArrival(c, s, a); RowOk(c, t.rows[id]) && AttemptOk(c, t, id)
  {
  }

  lemma RowsAfterArrival(c: Config, s: State, a: Action)
    requires Enabled(c, s, a) && Arrives(a) && HeldOk(c, s) && RowsOk(c, s.rows) && AttemptsOk(c, s)
    requires ObjectsOk(c, s.rows, s.objects)
    ensures var t := NextArrival(c, s, a);
            RowsOk(c, t.rows) && AttemptsOk(c, t) && ObjectsOk(c, t.rows, t.objects)
  {
    var t := NextArrival(c, s, a);
    forall id | id in t.rows ensures RowOk(c, t.rows[id]) && AttemptOk(c, t, id) {
      RowAfterArrival(c, s, a, id);
    }
  }

  /** What the history needs when a row is added, or queued again after a failure. */
  lemma HistoryIfArrived(c: Config, s: State, x: string, after: Rows)
    requires HistoryOk(s.rows, s.history) && PayloadsOk(c, s.rows, s.history) && RecordsOk(s.rows, s.history)
    requires after.Keys == s.rows.Keys + {x} && after[x].Pending()
    requires forall id :: id in s.rows && id != x ==> after[id] == s.rows[id]
    ensures var t := Arrive(c, s, x, after).history;
            HistoryOk(after, t) && PayloadsOk(c, after, t) && RecordsOk(after, t)
  {
    var h, t := s.history, Arrive(c, s, x, after).history;
    forall id, ch | id in after ensures IssuedOk(after, t, id) && RecordOk(after, t, id, ch) {
      assert id != x ==> IssuedOk(s.rows, h, id) && RecordOk(s.rows, h, id, ch);
    }
    forall m | m in t.sent ensures SentOk(c, t, m) {
      assert SentOk(c, h, m);
    }
  }

  lemma HistoryAfterArrival(c: Config, s: State, a: Action)
    requires Enabled(c, s, a) && Arrives(a)
    requires HistoryOk(s.rows, s.history) && PayloadsOk(c, s.rows, s.history) && RecordsOk(s.rows, s.history)
    ensures var t := NextArrival(c, s, a);
            HistoryOk(t.rows, t.history) && PayloadsOk(c, t.rows, t.history) && RecordsOk(t.rows, t.history)
  {
    match a
    case Post(id, url, now) =>
      if id !in s.rows || s.rows[id].status.Failed? {
        HistoryIfArrived(c, s, id, Enqueue(s.rows, id, url, now));
      }
    case Discover(bucket, key, now) =>
      var id := c.recordId(bucket, key);
      if (bucket, key) !in s.objects && id !in s.rows {
        HistoryIfArrived(c, s.(objects := s.objects[(bucket, key) := id]), id,
                         InsertIfNew(s.rows, id, c.objectUrl(bucket, key), now));
      }
  }

  /** The accounts look only at what was sent and recorded. */
  lemma AccountsSame(h: History, t: History, orphaned: multiset<Parcel>, inFlight: Option<Parcel>)
    requires t.sent == h.sent && t.recordedAt == h.recordedAt && AccountsOk(h, orphaned, inFlight) && NoResend(h)
    ensures AccountsOk(t, orphaned, inFlight) && NoResend(t)
  {
    forall p: Parcel ensures Balanced(t, orphaned, inFlight, p) {
      assert Balanced(h, orphaned, inFlight, p);
    }
  }

  lemma ArrivalKeepsAccounts(c: Config, s: State, a: Action)
    requires Enabled(c, s, a) && Arrives(a) && HeldOk(c, s) && s.history.generation.Keys == s.rows.Keys
    ensures var t := NextArrival(c, s, a);
            && t.history.sent == s.history.sent && t.history.recordedAt == s.history.recordedAt
            && t.orphaned == s.orphaned && InFlight(t.control, t.history) == InFlight(s.control, s.history)
  {
  }

  lemma AccountsAfterArrival(c: Config, s: State, a: Action)
    requires Enabled(c, s, a) && Arrives(a) && HeldOk(c, s) && s.history.generation.Keys == s.rows.Keys
    requires AccountsOk(s.history, s.orphaned, InFlight(s.control, s.history)) && NoResend(s.history)
    ensures var t := NextArrival(c, s, a);
            AccountsOk(t.history, t.orphaned, InFlight(t.control, t.history)) && NoResend(t.history)
  {
    ArrivalKeepsAccounts(c, s, a);
    AccountsSame(s.history, NextArrival(c, s, a).history, s.orphaned, InFlight(s.control, s.history));
  }

  lemma KeepArrival(c: Config, s: State, a: Action)
    requires Enabled(c, s, a) && Arrives(a) && Inv(c, s)
    ensures Inv(c, NextArrival(c, s, a))
  {
    HeldAfterArrival(c, s, a);
    TodoAfterArrival(c, s, a);
    RowsAfterArrival(c, s, a);
    HistoryAfterArrival(c, s, a);
    assert s.history.generation.Keys == s.rows.Keys;
    AccountsAfterArrival(c, s, a);
  }

  // ---- every step, every run ----

  lemma KeepInv(c: Config, s: State, a: Action)
    requires Enabled(c, s, a) && Inv(c, s)
    ensures Inv(c, Next(c, s, a))
  {
    if Reads(a) {
      KeepRead(c, s, a);
    } else if a.Send? {
      KeepSend(c, s, a);
    } else if Delivers(a) {
      KeepDelivery(c, s, a);
    } else if Processes(a) {
      KeepProcessing(c, s, a);
    } else if Arrives(a) {
      KeepArrival(c, s, a);
    } else {
      KeepCrash(c, s);
    }
  }

  /** Every state of every run, with any interleaving of the actors and any crashes, satisfies the invariant. */
  lemma {:induction false} RunKeepsInv(c: Config, s: State, actions: seq<Action>)
    requires Inv(c, s) && Run(c, s, actions)
    ensures Inv(c, After(c, s, actions))
    decreases |actions|
  {
    if actions == [] {
    } else {
      KeepInv(c, s, actions[0]);
      RunKeepsInv(c, Next(c, s, actions[0]), actions[1..]);
    }
  }
}
