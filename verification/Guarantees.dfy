/**
  What the protocol promises about every run: any interleaving of the worker,
  the API and the scanner, with crashes anywhere. Each lemma is about the state
  some run from the empty tables ends in.
 */
module Guarantees {
  import opened Prelude
  import opened Jobs
  import opened Protocol
  import opened Invariant
  import Text

  /** The state a run from empty tables ends in. */
  ghost predicate Reached(c: Config, actions: seq<Action>, s: State) {
    Run(c, Initial(), actions) && After(c, Initial(), actions) == s
  }

  lemma ReachedOk(c: Config, actions: seq<Action>, s: State)
    requires Reached(c, actions, s)
    ensures Inv(c, s)
  {
    InitialOk(c);
    RunKeepsInv(c, Initial(), actions);
  }

  // ---- what a row says ----

  /**
    A transcript is stored exactly in the rows that are delivering a result or done, and an
    error exactly in those that are delivering a failure or failed; so is every message sent
    for the row's current delivery.
   */
  lemma ResultOrFailure(c: Config, actions: seq<Action>, s: State, id: string)
    requires Reached(c, actions, s) && id in s.rows
    ensures var job := s.rows[id];
            && (job.Pending() ==> job.fullText.None?)
            && (job.status.Failed? ==> job.fullText.None? && job.error.Some?)
            && (job.status.Done? ==> job.fullText.Some? && job.error.None?)
            && (job.status.Delivering? ==> (job.fullText.Some? <==> job.error.None?))
    ensures forall m :: m in s.history.sent && m.parcel.id == id && !s.rows[id].Pending()
                        && m.parcel.generation == Generation(s.history, id)
                        ==> m.payload == PayloadOf(s.rows[id])
                            && (s.rows[id].status.Done? ==> !m.payload.isError)
                            && (s.rows[id].status.Failed? ==> m.payload.isError)
  {
    ReachedOk(c, actions, s);
    assert RowOk(c, s.rows[id]);
    assert IssuedOk(s.rows, s.history, id);
    forall m | m in s.history.sent && m.parcel.id == id && !s.rows[id].Pending()
               && m.parcel.generation == Generation(s.history, id)
      ensures m.payload == PayloadOf(s.rows[id])
    {
      assert SentOk(c, s.history, m);
    }
  }

  /** Every message of one delivery carries the same payload, to whichever channel and however often. */
  lemma SamePayload(c: Config, actions: seq<Action>, s: State, m: Sent, n: Sent)
    requires Reached(c, actions, s) && m in s.history.sent && n in s.history.sent
    requires m.parcel.id == n.parcel.id && m.parcel.generation == n.parcel.generation
    ensures m.payload == n.payload
  {
    ReachedOk(c, actions, s);
    assert SentOk(c, s.history, m) && SentOk(c, s.history, n);
  }

  // ---- counting deliveries ----

  /** How often a channel took the message, whether or not it said so. */
  function Acceptances(s: State, p: Parcel): nat {
    Times(s.history.sent, p, Accepted) + Times(s.history.sent, p, Unacknowledged)
  }

  /** How often a channel took the message and the worker did not get to know, or crashed before recording it. */
  function LostAcknowledgements(s: State, p: Parcel): nat {
    Times(s.history.sent, p, Unacknowledged) + s.orphaned[p]
  }

  /** At least once when recorded, and never more than one acceptance beyond the lost acknowledgements. */
  lemma AcceptancesBounded(c: Config, actions: seq<Action>, s: State, p: Parcel)
    requires Reached(c, actions, s)
    ensures Acceptances(s, p) <= 1 + LostAcknowledgements(s, p)
    ensures p in s.history.recordedAt ==> Acceptances(s, p) == 1 + LostAcknowledgements(s, p)
  {
    ReachedOk(c, actions, s);
    assert Balanced(s.history, s.orphaned, InFlight(s.control, s.history), p);
    if s.control.Marking? {
      InFlightIsNew(c, s);
    }
  }

  lemma {:induction false} CountedIsSent(sent: seq<Sent>, p: Parcel, outcome: Outcome) returns (i: nat)
    requires Times(sent, p, outcome) > 0
    ensures i < |sent| && sent[i].parcel == p && sent[i].outcome == outcome
  {
    i := |sent| - 1;
    if !(sent[i].parcel == p && sent[i].outcome == outcome) {
      i := CountedIsSent(sent[..i], p, outcome);
    }
  }

  /** A job is done or failed only after every enabled channel accepted this very result or failure. */
  lemma TerminalMeansAccepted(c: Config, actions: seq<Action>, s: State, id: string, channel: Channel)
    returns (i: nat)
    requires Reached(c, actions, s) && id in s.rows && channel in Channels(c)
    requires s.rows[id].status.Done? || s.rows[id].status.Failed?
    ensures i < |s.history.sent|
    ensures s.history.sent[i].parcel == CurrentParcel(s.history, id, channel)
    ensures s.history.sent[i].outcome == Accepted && s.history.sent[i].payload == PayloadOf(s.rows[id])
  {
    ReachedOk(c, actions, s);
    var p := CurrentParcel(s.history, id, channel);
    assert RowOk(c, s.rows[id]) && RecordOk(s.rows, s.history, id, channel);
    assert Balanced(s.history, s.orphaned, InFlight(s.control, s.history), p);
    i := CountedIsSent(s.history.sent, p, Accepted);
    assert SentOk(c, s.history, s.history.sent[i]) && IssuedOk(s.rows, s.history, id);
  }

  // ---- no resending ----

  /** Messages are only ever added. */
  lemma SentGrows(c: Config, s: State, a: Action)
    requires Enabled(c, s, a)
    ensures var h, t := s.history, Next(c, s, a).history;
            t.sent == if a.Send? then h.sent + [MessageFor(c, h, s.control.job, s.control.left[0], a.outcome)]
                      else h.sent
  {
  }

  /** And so are records. */
  lemma HistoryGrows(c: Config, s: State, a: Action)
    requires Enabled(c, s, a)
    ensures var h, t := s.history, Next(c, s, a).history;
            && |h.sent| <= |t.sent|
            && (if a.RecordAcceptance? then t.recordedAt == h.recordedAt[InFlight(s.control, h).value := |h.sent|]
                else t.recordedAt == h.recordedAt)
  {
    SentGrows(c, s, a);
  }

  lemma RecordStays(c: Config, s: State, a: Action, p: Parcel)
    requires Inv(c, s) && Enabled(c, s, a) && p in s.history.recordedAt
    ensures var t := Next(c, s, a).history;
            p in t.recordedAt && t.recordedAt[p] == s.history.recordedAt[p] && |s.history.sent| <= |t.sent|
  {
    HistoryGrows(c, s, a);
    if a.RecordAcceptance? {
      InFlightIsNew(c, s);
    }
  }

  lemma {:induction false} RecordsStay(c: Config, s: State, actions: seq<Action>, p: Parcel)
    requires Inv(c, s) && Run(c, s, actions) && p in s.history.recordedAt
    ensures var t := After(c, s, actions).history;
            p in t.recordedAt && t.recordedAt[p] == s.history.recordedAt[p] && |s.history.sent| <= |t.sent|
    decreases |actions|
  {
    if actions == [] {
    } else {
      RecordStays(c, s, actions[0], p);
      KeepInv(c, s, actions[0]);
      RecordsStay(c, Next(c, s, actions[0]), actions[1..], p);
    }
  }

  /** Once the acceptance of a parcel is recorded, no continuation of the run sends it again. */
  lemma NeverSentAgain(c: Config, first: seq<Action>, s: State, later: seq<Action>, p: Parcel, i: nat)
    requires Reached(c, first, s) && p in s.history.recordedAt && Run(c, s, later)
    requires |s.history.sent| <= i < |After(c, s, later).history.sent|
    ensures After(c, s, later).history.sent[i].parcel != p
  {
    ReachedOk(c, first, s);
    RecordsStay(c, s, later, p);
    RunKeepsInv(c, s, later);
  }

  // ---- the order of the channels ----

  /** If the message is an e-mail and BPM is on, BPM's acceptance of the same delivery was recorded before it. */
  ghost predicate BpmFirst(c: Config, h: History, i: nat)
    requires i < |h.sent|
  {
    h.sent[i].parcel.channel.Email? && c.bpm ==>
      var p := h.sent[i].parcel.(channel := Bpm);
      p in h.recordedAt && h.recordedAt[p] <= i
  }

  ghost predicate EmailAfterBpm(c: Config, h: History) {
    forall i :: 0 <= i < |h.sent| ==> BpmFirst(c, h, i)
  }

  lemma EmailSendFollowsBpm(c: Config, s: State, a: Action)
    requires Inv(c, s) && Enabled(c, s, a) && a.Send? && c.bpm && s.control.left[0].Email?
    ensures CurrentParcel(s.history, s.control.job.id, Bpm) in s.history.recordedAt
  {
    RemainingTail(c, s.control.left);
    assert RecordOk(s.rows, s.history, s.control.job.id, Bpm);
  }

  lemma SentStaysInOrder(c: Config, s: State, a: Action, i: nat)
    requires Inv(c, s) && Enabled(c, s, a) && i < |s.history.sent| && BpmFirst(c, s.history, i)
    ensures var t := Next(c, s, a).history;
            i < |t.sent| && t.sent[i] == s.history.sent[i] && BpmFirst(c, t, i)
  {
    SentGrows(c, s, a);
    HistoryGrows(c, s, a);
    var p := s.history.sent[i].parcel.(channel := Bpm);
    if p in s.history.recordedAt {
      RecordStays(c, s, a, p);
    }
  }

  lemma NewSentInOrder(c: Config, s: State, a: Action)
    requires Inv(c, s) && Enabled(c, s, a) && a.Send?
    ensures var t := Next(c, s, a).history; |t.sent| == |s.history.sent| + 1 && BpmFirst(c, t, |s.history.sent|)
  {
    SentGrows(c, s, a);
    HistoryGrows(c, s, a);
    if c.bpm && s.control.left[0].Email? {
      EmailSendFollowsBpm(c, s, a);
      assert CurrentParcel(s.history, s.control.job.id, Email).(channel := Bpm)
          == CurrentParcel(s.history, s.control.job.id, Bpm);
    }
  }

  lemma KeepOrder(c: Config, s: State, a: Action)
    requires Inv(c, s) && Enabled(c, s, a) && EmailAfterBpm(c, s.history)
    ensures EmailAfterBpm(c, Next(c, s, a).history)
  {
    var t := Next(c, s, a).history;
    SentGrows(c, s, a);
    forall i: nat | i < |t.sent| ensures BpmFirst(c, t, i) {
      if i < |s.history.sent| {
        SentStaysInOrder(c, s, a, i);
      } else {
        NewSentInOrder(c, s, a);
      }
    }
  }

  lemma {:induction false} OrderKept(c: Config, s: State, actions: seq<Action>)
    requires Inv(c, s) && Run(c, s, actions) && EmailAfterBpm(c, s.history)
    ensures EmailAfterBpm(c, After(c, s, actions).history)
    decreases |actions|
  {
    if actions == [] {
    } else {
      KeepOrder(c, s, actions[0]);
      KeepInv(c, s, actions[0]);
      OrderKept(c, Next(c, s, actions[0]), actions[1..]);
    }
  }

  /** With both channels on, no e-mail goes out for a delivery BPM has not taken: they do not proceed independently. */
  lemma EmailWaitsForBpm(c: Config, actions: seq<Action>, s: State, i: nat)
    requires Reached(c, actions, s) && c.bpm
    requires i < |s.history.sent| && s.history.sent[i].parcel.channel.Email?
    ensures var p := s.history.sent[i].parcel.(channel := Bpm);
            p in s.history.recordedAt && s.history.recordedAt[p] <= i
  {
    InitialOk(c);
    OrderKept(c, Initial(), actions);
    assert BpmFirst(c, s.history, i);
  }

  // ---- routing ----

  /** A done row is attributed as the rules say for its stored texts, and to the recipients of the accepted mail. */
  lemma RoutingRecord(c: Config, actions: seq<Action>, s: State, id: string)
    requires Reached(c, actions, s) && id in s.rows
    ensures s.rows[id].Pending() || s.rows[id].status.Failed? ==> s.rows[id].Unrouted()
    ensures s.rows[id].status.Done? ==> Attributed(c, s.rows[id])
    ensures s.rows[id].status.Done? && c.email ==>
              exists i :: 0 <= i < |s.history.sent|
                          && s.history.sent[i].parcel == CurrentParcel(s.history, id, Email)
                          && s.history.sent[i].outcome == Accepted
                          && s.rows[id].emailedTo == Text.Join(s.history.sent[i].to, ',')
  {
    ReachedOk(c, actions, s);
    assert RowOk(c, s.rows[id]);
    if s.rows[id].status.Done? && c.email {
      var i := TerminalMeansAccepted(c, actions, s, id, Email);
      assert SentOk(c, s.history, s.history.sent[i]);
    }
  }

  // ---- attempts ----

  /** A job is given up only after enough counted attempts or for an unparseable URL; only crashes add attempts. */
  lemma AttemptsBounded(c: Config, actions: seq<Action>, s: State, id: string)
    requires Reached(c, actions, s) && id in s.rows
    ensures id in s.torn && s.rows[id].attempts <= Limit(c) + s.torn[id]
    ensures s.torn[id] == 0 && s.rows[id].Pending() && !BeingCounted(s, id) ==> s.rows[id].attempts < Limit(c)
    ensures s.rows[id].fullText.None? && !s.rows[id].Pending() ==>
              s.rows[id].attempts >= c.maxRetries || !c.parses(s.rows[id].url)
  {
    ReachedOk(c, actions, s);
    assert AttemptOk(c, s, id) && RowOk(c, s.rows[id]);
  }

  // ---- the worker's copies ----

  /**
    However many requests and scans fall between the worker's reading a row and acting on it, the
    stored row is still the one it read, apart from what the worker itself has written since.
   */
  lemma CopiesStayFresh(c: Config, actions: seq<Action>, s: State)
    requires Reached(c, actions, s)
    ensures forall x :: x in Todo(s.control) ==> x.id in s.rows && s.rows[x.id] == x.job && x.job.status.Delivering?
    ensures !s.control.Idle? && !s.control.Sweeping? ==>
              var x := s.control.job;
              && x.id in s.rows
              && s.rows[x.id].url == x.job.url && s.rows[x.id].createdAt == x.job.createdAt
              && s.rows[x.id].fullText == x.job.fullText && s.rows[x.id].summary == x.job.summary
              && (s.control.Picked? ==> s.rows[x.id] == x.job && x.job.Pending())
              && (s.control.Working? ==> s.rows[x.id] == x.job.(status := Processing) && x.job.Pending())
              && (s.control.Counted? ==>
                    s.rows[x.id] == x.job.(status := Processing, attempts := s.control.attempts,
                                           error := Some(s.control.reason))
                    && s.control.attempts == x.job.attempts + 1 && x.job.Pending())
              && (s.control.Routed? ==>
                    s.rows[x.id].status == x.job.status && s.rows[x.id].error == x.job.error
                    && s.rows[x.id].attempts == x.job.attempts)
              && (s.control.Sending? || s.control.Marking? ==>
                    s.rows[x.id] == x.job.(delivered := s.rows[x.id].delivered)
                    && forall ch :: ch in s.rows[x.id].delivered <==>
                         ch in x.job.delivered || (ch in Channels(c) && ch !in s.control.left))
  {
    ReachedOk(c, actions, s);
  }

  // ---- the status graph ----

  predicate Edge(from: Status, to: Status, a: Action) {
    match from
    case Queued => to.Processing? && a.StartJob?
    case Processing => (to.Queued? && a.SettleAttempt?) || (to.Delivering? && Processes(a))
    case Delivering => (to.Done? && a.CloseSuccess?) || (to.Failed? && a.CloseFailure?)
    case Failed => to.Queued? && a.Post?
    case Done => false
  }

  /** The one job an action can change. */
  function Subject(c: Config, s: State, a: Action): string {
    match a
    case Post(id, _, _) => id
    case Discover(bucket, key, _) => c.recordId(bucket, key)
    case _ => if s.control.Idle? || s.control.Sweeping? then "" else s.control.job.id
  }

  /** Between the tables at most one row changes, along the status graph; a new row is queued by an arrival. */
  ghost predicate Moves(rows: Rows, after: Rows, subject: string, a: Action, id: string) {
    && (id != subject ==> (id in after <==> id in rows) && (id in rows ==> after[id] == rows[id]))
    && (id in rows ==>
          id in after && (after[id].status == rows[id].status || Edge(rows[id].status, after[id].status, a)))
    && (id !in rows && id in after ==> after[id].status.Queued? && Arrives(a))
    && (id in rows && rows[id].status.Done? ==> after[id] == rows[id])
    && (id in rows && a.Discover? ==> after[id] == rows[id])
  }

  /** A step of any actor changes at most one row, along the status graph, and never a done one. */
  lemma StatusGraph(c: Config, s: State, a: Action, id: string)
    requires HeldOk(c, s) && Enabled(c, s, a)
    ensures Moves(s.rows, Next(c, s, a).rows, Subject(c, s, a), a, id)
  {
    if Delivers(a) {
      GraphDelivery(c, s, a, id);
    } else if Processes(a) {
      GraphProcessing(c, s, a, id);
    } else if Arrives(a) {
      GraphArrival(c, s, a, id);
    } else {
      assert Next(c, s, a).rows == s.rows;
    }
  }

  lemma GraphDelivery(c: Config, s: State, a: Action, id: string)
    requires HeldOk(c, s) && Enabled(c, s, a) && Delivers(a)
    ensures Moves(s.rows, NextDelivery(c, s, a).rows, s.control.job.id, a, id)
    ensures id in NextDelivery(c, s, a).rows <==> id in s.rows
    ensures id in s.rows && id == s.control.job.id ==> s.rows[id].status.Delivering?
  {
  }

  lemma GraphProcess(c: Config, s: State, a: Action, id: string)
    requires HeldOk(c, s) && Enabled(c, s, a) && Processes(a)
    ensures Moves(s.rows, Process(c, s, a).rows, s.control.job.id, a, id)
  {
  }

  lemma GraphProcessing(c: Config, s: State, a: Action, id: string)
    requires HeldOk(c, s) && Enabled(c, s, a) && Processes(a)
    ensures Moves(s.rows, NextProcessing(c, s, a).rows, s.control.job.id, a, id)
  {
    GraphProcess(c, s, a, id);
    ProcessedRows(c, s, a);
  }

  lemma GraphArrival(c: Config, s: State, a: Action, id: string)
    requires Enabled(c, s, a) && Arrives(a)
    ensures Moves(s.rows, NextArrival(c, s, a).rows, Subject(c, s, a), a, id)
  {
  }

  /** An accepted id never disappears, and a done row never changes again. */
  lemma {:induction false} DoneIsFinal(c: Config, s: State, actions: seq<Action>, id: string)
    requires Inv(c, s) && Run(c, s, actions) && id in s.rows
    ensures var t := After(c, s, actions);
            id in t.rows && (s.rows[id].status.Done? ==> t.rows[id] == s.rows[id])
    decreases |actions|
  {
    if actions == [] {
    } else {
      StatusGraph(c, s, actions[0], id);
      KeepInv(c, s, actions[0]);
      DoneIsFinal(c, Next(c, s, actions[0]), actions[1..], id);
    }
  }

  // ---- scanned objects ----

  lemma ObjectStays(c: Config, s: State, a: Action, o: (string, string))
    requires Enabled(c, s, a) && o in s.objects
    ensures o in Next(c, s, a).objects && Next(c, s, a).objects[o] == s.objects[o]
  {
  }

  /** A recorded object keeps its id, always has a job, and is never recorded again. */
  lemma {:induction false} ObjectsAreFinal(c: Config, s: State, actions: seq<Action>, o: (string, string))
    requires Run(c, s, actions) && o in s.objects
    ensures var t := After(c, s, actions);
            && o in t.objects && t.objects[o] == s.objects[o]
            && (Inv(c, s) ==> t.objects[o] == c.recordId(o.0, o.1) && t.objects[o] in t.rows)
    decreases |actions|
  {
    if actions == [] {
    } else {
      var t := Next(c, s, actions[0]);
      ObjectStays(c, s, actions[0], o);
      if Inv(c, s) {
        KeepInv(c, s, actions[0]);
      }
      ObjectsAreFinal(c, t, actions[1..], o);
    }
  }

  /** Scanning a recorded object again changes nothing at all. */
  lemma RescanIsIdle(c: Config, s: State, bucket: string, key: string, now: int)
    requires (bucket, key) in s.objects && c.scans(bucket, key)
    ensures Next(c, s, Discover(bucket, key, now)) == s
  {
  }
}
